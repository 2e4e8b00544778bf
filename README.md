# HAZE virtual desktop: a verified model

This project models the "virtual desktop" of the HAZE portfolio site in Dafny.
That desktop is a small window manager made of:

- a shared store of application records (open, minimized, z-index, position, size);
- seven store operations, each rewriting only the record with a given id;
- per-window gestures: drag, resize with a 300 x 200 minimum, maximize/restore;
- the dock's click rule and running indicator;
- the desktop's icon selection and its bottom-to-top list of rendered windows.

It also models three smaller pieces of UI state on the site:

- the project gallery's category filter, featured block and pagination;
- the wrap-around screenshot carousel on the Omnia project page;
- the home page's "nearest section to the viewport centre" tracker with its section dictionary.

Each source file is one module:

| module | file | source |
|---|---|---|
| `AppContext` | `app_context.dfy` | `components/os/app-context.tsx` |
| `Window` | `window.dfy` | `components/os/window.tsx` |
| `Dock` | `dock.dfy` | `components/os/dock.tsx` |
| `Desktop` | `desktop.dfy` | `components/os/desktop.tsx` |
| `Projects` | `projects.dfy` | `components/projects.tsx` |
| `ProjectDetailOmnia` | `project_detail_omnia.dfy` | `components/project-detail-omnia.tsx` |
| `HomePage` | `home_page.dfy` | `app/page.tsx` |

`Options` (`options.dfy`) holds the shared `Option` type.

The pure parts of the source become functions: the `map` updaters of the store, `getHighestZIndex`, the dock's dispatch rule, the filter and sort, and the slices. State that a component keeps and updates becomes a class whose methods are proved against those functions:

- `AppStore.apps` (`useState` in the provider);
- the window's flags and geometry snapshot;
- the desktop's selected icon;
- the gallery's category and page;
- the carousel index;
- the page's section dictionary and active section.

The store keeps an invariant, `WellFormed`:

- ids are distinct;
- z-indices are never negative;
- open windows have a positive z-index;
- no two records share a positive z-index.

Every operation preserves it (`ApplyPreservesWellFormed`). Every store method and every window method therefore keeps it.

JavaScript numbers are modelled as `int`. The page tracker compares doubled distances, `|2*scrollY + innerHeight - (2*offsetTop + offsetHeight)|`. Doubling keeps the halves integral and does not change which distance is smaller. Browser reads are parameters of the methods that need them:

- `getBoundingClientRect`;
- `innerWidth` and `innerHeight`;
- `scrollY`;
- the pointer coordinates.

### Behaviour worth knowing

- **A closed window can still be minimized.** `minimizeApp` does not look at `isOpen`, and `closeApp` keeps `isMinimized` (`ClosedAndMinimizedIsReachable`).
- **Minimized windows are still drawn.** `desktop.tsx:68` filters on `isOpen` only (`RenderedWindows`).
- **A window's local state lives only while its record is open.** The desktop draws a `Window` only for an open record. Closing unmounts it and drops its flags and geometry snapshot; reopening mounts a fresh one. `WindowView.Valid` therefore requires the record to be open, the constructor requires it too, and `ClickCloseButton` ends with the view no longer valid.
- **Stale highest z-index.** `getHighestZIndex` reads the rendered list, not the `prevApps` handed to the updater. No handler dispatches two z-raising operations in one event. The operations that can share an event with one do not change any z-index: close, minimize, and the size and position writes that the maximize button sends before the bubbled `focusApp`. So taking the maximum over the list the operation is applied to gives the same result.

## Model

| member | source | states |
|---|---|---|
| AppContext.InitialAppsWellFormed | components/os/app-context.tsx:58-1288 | the registry has eight records with distinct ids, all closed, not minimized and at z-index 0, so the highest z-index starts at 0 and the invariant holds |
| AppContext.Find | components/os/dock.tsx:11 | `find` returns nothing exactly when no record has the id, and otherwise the first record with it |
| AppContext.FindDistinct | components/os/dock.tsx:11 | with distinct ids, `find` returns the one record carrying the id |
| AppContext.MaxZFrom | components/os/app-context.tsx:1292 | the `reduce` fold is at least its seed, bounds every z-index, and is either the seed or an attained z-index |
| AppContext.HighestZIndex | components/os/app-context.tsx:1291-1293 | the highest z-index is at least 0, bounds every record's z-index (open or closed), and is 0 or attained by some record |
| AppContext.HighestZIndexIs | components/os/app-context.tsx:1291-1293 | any non-negative bound that is 0 or attained is the highest z-index (uniqueness of the maximum) |
| AppContext.UpdateWhere | components/os/app-context.tsx:1296-1341 | the shared `map` shape: same length, the matching records rewritten by the updater, all others kept |
| AppContext.Open | components/os/app-context.tsx:1295-1308 | same ids and order, other records unchanged; the target is open, not minimized, at its old geometry, with z-index highest + 1, strictly above every other record |
| AppContext.Close | components/os/app-context.tsx:1310-1312 | only `isOpen` changes, to false; minimized flag, z-index, geometry and content are kept |
| AppContext.Minimize | components/os/app-context.tsx:1314-1316 | sets `isMinimized` without checking `isOpen`; open flag, z-index and geometry are kept |
| AppContext.Restore | components/os/app-context.tsx:1318-1330 | clears `isMinimized` and raises the target to highest + 1, above every other record; open flag and geometry are kept |
| AppContext.Focus | components/os/app-context.tsx:1332-1334 | only the z-index changes, to highest + 1, above every other record |
| AppContext.MoveTo | components/os/app-context.tsx:1336-1338 | the position is stored verbatim (no clamping) and nothing else changes |
| AppContext.Resize | components/os/app-context.tsx:1340-1342 | the size is stored verbatim (no clamping) and nothing else changes |
| AppContext.ApplyFrame | components/os/app-context.tsx:1296-1341 | every operation keeps length, order and ids and leaves records with other ids untouched |
| AppContext.UnknownIdIsNoOp | components/os/app-context.tsx:1296-1341 | an operation on an id not in the list returns the list unchanged |
| AppContext.ApplyNeverLowersZ | components/os/app-context.tsx:1295-1342 | no operation lowers any record's z-index |
| AppContext.ApplyNeverLowersHighest | components/os/app-context.tsx:1295-1342 | the highest z-index never decreases under any operation |
| AppContext.RunNeverLowersHighest | components/os/app-context.tsx:1295-1342 | the highest z-index never decreases along any sequence of operations (z-order is a counter) |
| AppContext.RaiseBumpsHighest | components/os/app-context.tsx:1295-1334 | open, restore and focus of a present id make the highest z-index exactly one larger |
| AppContext.NonRaiseKeepsHighest | components/os/app-context.tsx:1310-1342 | close, minimize, move and resize leave every z-index and the highest as they were |
| AppContext.ApplyPreservesWellFormed | components/os/app-context.tsx:1295-1342 | every operation keeps ids distinct, z-indices non-negative, open windows positive and positive z-indices pairwise distinct |
| AppContext.RunPreservesWellFormed | components/os/app-context.tsx:1295-1342 | the invariant holds after any sequence of operations |
| AppContext.CloseThenOpenKeepsGeometry | components/os/app-context.tsx:1295-1312 | closing and reopening brings the window back open, not minimized, on top and at its old position and size |
| AppContext.MinimizeThenRestore | components/os/app-context.tsx:1314-1330 | minimize then restore gives a non-minimized window with the same open flag and geometry, raised to highest + 1 and on top |
| AppContext.OpenTwice | components/os/app-context.tsx:1295-1308 | opening twice equals opening once except that the target's z-index is one higher |
| AppContext.ClosedAndMinimizedIsReachable | components/os/app-context.tsx:1310-1316 | open, minimize, close yields a well-formed list with a record that is closed and still minimized |
| AppContext.OpenMinimizeClose | components/os/app-context.tsx:1295-1316 | for any record of a well-formed list, open, minimize, close leaves it closed but still minimized and keeps the invariant |
| AppContext.AppStore.constructor | components/os/app-context.tsx:58 | the provider starts from the registry, which satisfies the invariant |
| AppContext.AppStore.OpenApp | components/os/app-context.tsx:1295-1308 | the list becomes `Open` of the old list and the invariant is kept |
| AppContext.AppStore.CloseApp | components/os/app-context.tsx:1310-1312 | the list becomes `Close` of the old list and the invariant is kept |
| AppContext.AppStore.MinimizeApp | components/os/app-context.tsx:1314-1316 | the list becomes `Minimize` of the old list and the invariant is kept |
| AppContext.AppStore.RestoreApp | components/os/app-context.tsx:1318-1330 | the list becomes `Restore` of the old list and the invariant is kept |
| AppContext.AppStore.FocusApp | components/os/app-context.tsx:1332-1334 | the list becomes `Focus` of the old list and the invariant is kept |
| AppContext.AppStore.UpdateAppPosition | components/os/app-context.tsx:1336-1338 | the list becomes `MoveTo` of the old list and the invariant is kept |
| AppContext.AppStore.UpdateAppSize | components/os/app-context.tsx:1340-1342 | the list becomes `Resize` of the old list and the invariant is kept |
| Window.ResizedSize | components/os/window.tsx:44-45 | the new width is the larger of 300 and pointer x minus the left edge, the new height the larger of 200 and pointer y minus the top edge |
| Window.ResizeClampExamples | components/os/window.tsx:44-45 | a 100 x 50 request yields 300 x 200; a request above the minimum is honoured |
| Window.SetGeometryKeepsHighest | components/os/window.tsx:53-62 | writing a size then a position changes only that record's geometry and keeps the highest z-index |
| Window.GeometryRoundTrip | components/os/window.tsx:50-65 | writing another size and position and then the record's old ones gives back exactly the same list |
| Window.OneMaximizePress | components/os/window.tsx:50-121 | one button press writes the geometry and raises the record to one above the highest z-index, changing no other record |
| Window.TwoMaximizePresses | components/os/window.tsx:50-121 | maximize then restore through the button restores the record's geometry, leaves it two above the starting highest z-index and changes no other record |
| Window.WindowView.constructor | components/os/window.tsx:14-18 | a view mounts only for an open record; all flags start off and the snapshot starts as the record's size and position |
| Window.WindowView.Record | components/os/window.tsx:8 | the `app` prop is the store's record with this window's id |
| Window.WindowView.HandleDragStart | components/os/window.tsx:23-26 | enters dragging and the store becomes `Focus` of the old store |
| Window.WindowView.HandleDragEndAsWritten | components/os/window.tsx:28-107 | as the animation library calls it: leaves dragging and the store is unchanged |
| Window.WindowView.HandleDragEnd | components/os/window.tsx:28-31 | as intended: leaves dragging and the store becomes `MoveTo` with the final pointer point; the size is kept |
| Window.WindowView.HandleResizeStart | components/os/window.tsx:33-36 | enters resizing mode and the store becomes `Focus` of the old store |
| Window.WindowView.HandleResizeEnd | components/os/window.tsx:38-40 | leaves resizing mode |
| Window.WindowView.HandleResize | components/os/window.tsx:42-48 | only while resizing and mounted, the store becomes `Resize` with the clamped size, at least 300 x 200 with the position kept; otherwise nothing changes |
| Window.WindowView.OnMouseMove | components/os/window.tsx:68-72 | a mouse move is a resize step exactly when resizing mode is on and the window's bounds are available; in every other case the store is unchanged |
| Window.WindowView.OnMouseUp | components/os/window.tsx:74-78 | a mouse-up ends resizing mode and touches nothing else |
| Window.WindowView.HandleMaximize | components/os/window.tsx:50-65 | maximizing snapshots size and position and sets the viewport width, the viewport height minus 56, and (0,0); restoring writes the snapshot back; `isMaximized` flips |
| Window.WindowView.RestoreGeometry | components/os/window.tsx:51-54 | restoring writes the snapshot back as the size and position, keeps the snapshot and clears `isMaximized` |
| Window.WindowView.FillViewport | components/os/window.tsx:55-64 | maximizing saves the old size and position as the snapshot, then sets the viewport width, the viewport height minus 56, and (0,0); `isMaximized` becomes true |
| Window.WindowView.SetGeometry | components/os/window.tsx:53-62 | `updateAppSize` then `updateAppPosition`: the record gets exactly the new size and position |
| Window.WindowView.MaximizeThenRestore | components/os/window.tsx:50-130 | two consecutive `handleMaximize` calls, without the bubbled raise of the button, leave the whole store exactly as before, the drag and resize flags as they were, and the snapshot holding the record's original size and position; neither dragging nor the resize handle can act in between |
| Window.WindowView.PressMaximizeTwice | components/os/window.tsx:50-121 | two presses of the maximize button give the record its old geometry back, two above the highest z-index it started from; other records, the drag and resize flags are unchanged and the snapshot holds the original size and position |
| Window.WindowView.HandleClick | components/os/window.tsx:110 | a click in the window makes the store `Focus` of the old store |
| Window.WindowView.ClickCloseButton | components/os/window.tsx:110-119 | the store becomes `Focus(Close(...))` for this id only (the bubbled click raises it in the same event); the record ends closed with its geometry kept, and the view is unmounted |
| Window.WindowView.ClickMinimizeButton | components/os/window.tsx:110-120 | minimizes this window's record only (then the bubbled click raises it); open flag and geometry kept |
| Window.WindowView.ClickMaximizeButton | components/os/window.tsx:110-121 | the store becomes `Focus` of `HandleMaximize`'s geometry write: restoring writes the snapshot back and keeps it, maximizing snapshots the old size and position and fills the viewport below the menu bar; `isMaximized` flips and the other flags are kept |
| Dock.Click | components/os/dock.tsx:10-19 | a closed app gives exactly `Open`, a minimized open app exactly `Restore`; an open, non-minimized app or an unknown id changes nothing; the app ends open, not minimized and at its old geometry, on top when it was raised |
| Dock.ClickKeepsStoreInvariants | components/os/dock.tsx:10-19 | a dock click never lowers the highest z-index and keeps the store invariant |
| Dock.DockItems | components/os/dock.tsx:30-48 | one button per record in registry order, with the running indicator exactly when the app is open |
| Dock.ClickLightsIndicator | components/os/dock.tsx:10-46 | after a dock click on a registered app its button shows the running indicator |
| Desktop.Icons | components/os/desktop.tsx:52-63 | one icon per record in registry order, highlighted exactly when its id is the selection |
| Desktop.AtMostOneIconSelected | components/os/desktop.tsx:59 | with distinct ids at most one icon is highlighted, and none without a selection |
| Desktop.OpenOnly | components/os/desktop.tsx:68 | the filter keeps exactly the open records, minimized ones included, and adds none |
| Desktop.InsertByZ | components/os/desktop.tsx:69 | inserting into an ascending list keeps it ascending and adds exactly the new record |
| Desktop.SortByZ | components/os/desktop.tsx:69 | the sort yields an ascending permutation of its input |
| Desktop.RenderedWindows | components/os/desktop.tsx:67-72 | the drawn windows are a permutation of the open records, ascending by z-index |
| Desktop.DistinctIdsNoDuplicates | components/os/desktop.tsx:67-72 | with distinct ids no record occurs twice in the list |
| Desktop.RenderedStrictlyIncreasing | components/os/desktop.tsx:67-72 | under the store invariant the drawn windows have strictly increasing z-indices, so the order is total |
| Desktop.OnTopIsDrawnLast | components/os/desktop.tsx:67-72 | an open window above every other record is drawn last, in front |
| Desktop.RaisedWindowIsDrawnLast | components/os/desktop.tsx:67-72 | after open, restore or focus of an open window, that window is drawn in front |
| Desktop.DesktopView.constructor | components/os/desktop.tsx:10 | no icon is selected initially |
| Desktop.DesktopView.HandleIconClick | components/os/desktop.tsx:12-14 | the selection becomes the icon's id |
| Desktop.DesktopView.HandleDesktopClick | components/os/desktop.tsx:20-22 | the selection becomes none |
| Desktop.DesktopView.HandleIconDoubleClick | components/os/desktop.tsx:16-61 | the store becomes `Open` of the old store |
| Desktop.DesktopView.ClickIconAsWritten | components/os/desktop.tsx:12-60 | a single icon click as dispatched (icon handler, then the bubbled container handler) leaves no icon highlighted |
| Desktop.DesktopView.ClickIcon | components/os/desktop.tsx:12-60 | with bubbling stopped, the clicked icon and only it is highlighted |
| Desktop.DesktopView.Windows | components/os/desktop.tsx:67-72 | the desktop draws a permutation of the store's open records in ascending z-index order, bottom first |
| Projects.Catalog | components/projects.tsx:75-180 | the catalog holds ten projects, with distinct ids, each with the source's category and featured flag, in display order |
| Projects.Select | components/projects.tsx:184-187 | the filter shared by category and featured selection keeps exactly the projects it accepts and never grows the list |
| Projects.SelectAppend | components/projects.tsx:184-187 | filtering distributes over concatenation: it keeps the original order |
| Projects.SelectAllKept | components/projects.tsx:184-187 | filtering returns the list itself exactly when every project in it is accepted |
| Projects.OfCategory | components/projects.tsx:184 | the category filter keeps exactly the projects of the category and never grows the list; with `OfCategoryAppend` this fixes the result in catalog order |
| Projects.OfCategoryAppend | components/projects.tsx:184 | the category filter distributes over concatenation, so it keeps catalog order |
| Projects.Filtered | components/projects.tsx:183-184 | under "all" the list is the whole catalog; otherwise it is the category filter, so exactly the projects of the category in catalog order |
| Projects.Featured | components/projects.tsx:187 | exactly the projects flagged as featured, never more than the list; with `FeaturedAppend` this fixes the result in catalog order |
| Projects.FeaturedAppend | components/projects.tsx:187 | the featured filter distributes over concatenation, so the featured projects keep catalog order and the block's "first three" are the first three in the catalog |
| Projects.FeaturedBlock | components/projects.tsx:187-615 | empty unless the category is "all" and the page is 1; then the first min(3, #featured) featured projects |
| Projects.TotalPages | components/projects.tsx:193 | `ceil(count / 6)`: 0 for no projects, otherwise the least t with count <= 6t |
| Projects.Page | components/projects.tsx:190 | the page is the slice from (page-1)*6 to page*6, cut at the end of the list, so at most 6 projects |
| Projects.PageEmptyIff | components/projects.tsx:190-193 | a page is empty exactly when its number is past the last page |
| Projects.PagesCoverSuffix | components/projects.tsx:190 | enough consecutive pages concatenate to the rest of the list from the first one's start |
| Projects.AllPagesConcatenate | components/projects.tsx:190-193 | pages 1 to totalPages concatenate to the filtered list |
| Projects.PaginationIffOverflow | components/projects.tsx:193-695 | the pagination controls are drawn exactly when more than 6 projects are filtered |
| Projects.EmptyStateIffNoProjects | components/projects.tsx:665-692 | on page 1 or any page in range, the empty-state message shows exactly when the category has no projects |
| Projects.ProjectsView.Paginated | components/projects.tsx:190-665 | the grid is the current page of the filtered list, holds at most 6 projects and is empty exactly when the category has none |
| Projects.ProjectsView.constructor | components/projects.tsx:42-43 | starts on "all", page 1 |
| Projects.ProjectsView.HandleCategoryChange | components/projects.tsx:203-206 | sets the category and resets the page to 1 |
| Projects.ProjectsView.HandlePageChange | components/projects.tsx:209-210 | sets the page (callers pass a page in range) and keeps the category |
| Projects.ProjectsView.ClickPageButton | components/projects.tsx:717-731 | button `index` goes to page index + 1 |
| Projects.ProjectsView.ClickPrevious | components/projects.tsx:709 | goes back one page only from a page after the first; otherwise nothing changes |
| Projects.ProjectsView.ClickNext | components/projects.tsx:739 | goes forward one page only from a page before the last; otherwise nothing changes |
| ProjectDetailOmnia.NextIndex | components/project-detail-omnia.tsx:32-34 | within range the next index stays in range and is (i + 1) mod n, the last wrapping to 0 |
| ProjectDetailOmnia.PrevIndex | components/project-detail-omnia.tsx:36-38 | within range the previous index stays in range and is (i - 1) mod n, 0 wrapping to the last |
| ProjectDetailOmnia.NextPrevInverse | components/project-detail-omnia.tsx:32-38 | next then previous, and previous then next, are the identity |
| ProjectDetailOmnia.ForwardIsModular | components/project-detail-omnia.tsx:32-34 | k presses of the next arrow land on the remainder of i + k by n |
| ProjectDetailOmnia.FullRoundIsIdentity | components/project-detail-omnia.tsx:32-34 | n presses of the next arrow come back to the starting screenshot |
| ProjectDetailOmnia.Dots | components/project-detail-omnia.tsx:158-167 | one dot per screenshot, highlighted exactly at the current index |
| ProjectDetailOmnia.Carousel.constructor | components/project-detail-omnia.tsx:9 | the index starts at 0 |
| ProjectDetailOmnia.Carousel.NextImage | components/project-detail-omnia.tsx:32-34 | the index becomes (old + 1) mod 3 and stays in range |
| ProjectDetailOmnia.Carousel.PrevImage | components/project-detail-omnia.tsx:36-38 | the index becomes (old - 1) mod 3 and stays in range |
| ProjectDetailOmnia.Carousel.GoToImage | components/project-detail-omnia.tsx:40-161 | the index becomes exactly the dot's index, and that dot alone is highlighted |
| HomePage.Distance2 | app/page.tsx:43-45 | twice the distance between the viewport middle and the section middle, as an absolute value |
| HomePage.ChosenIsUnique | app/page.tsx:40-51 | at most one entry satisfies the selection rule |
| HomePage.NearestSection | app/page.tsx:33-53 | "home" when no non-null section is registered; otherwise a section at least as near as every other and strictly nearer than every earlier one |
| HomePage.IndexOfName | app/page.tsx:70 | the first position of a key in iteration order, or -1 exactly when it is absent |
| HomePage.Lookup | app/page.tsx:70 | a present name gives the element stored at its position in the dictionary; an absent name gives nothing |
| HomePage.Put | app/page.tsx:70 | a write overwrites an existing key's entry in place or appends a new key last, keeps every key's position and touches no other entry |
| HomePage.PutLookup | app/page.tsx:70 | after a write the name looks up to the new element and every other name to what it had |
| HomePage.PutKeepsDistinct | app/page.tsx:70 | a write keeps the keys distinct |
| HomePage.Register | app/page.tsx:68-73 | a null reference is not stored; otherwise it is the dictionary write, so a new name goes last and an existing one keeps its place; the name maps to the element, other names are unaffected and keys stay distinct |
| HomePage.RegisterStoresNoNulls | app/page.tsx:68-73 | registration never stores a null reference |
| HomePage.RegisterTwiceOverwrites | app/page.tsx:68-73 | registering a name twice equals registering it once with the second element |
| HomePage.SectionTracker.constructor | app/page.tsx:18-21 | no sections and the active section "home" |
| HomePage.SectionTracker.RegisterSection | app/page.tsx:68-73 | the dictionary becomes `Register` of the old one; keys distinct and no nulls |
| HomePage.SectionTracker.HandleScroll | app/page.tsx:33-53 | the active section is "home" with no sections and otherwise the nearest section to `scrollY + innerHeight/2`, the earliest on ties |

## Left out

- The rendered content of the applications (`title`, `description`, `icon`, `component`): each is one opaque `ContentId`.
- Styling, markup and the animation library's effects. This includes the drag constraints, momentum and elasticity of `window.tsx`; only the drag start and drag end callbacks are modelled.
- Browser reads become integer parameters: `getBoundingClientRect`, `innerWidth` and `innerHeight`, `scrollY`, pointer coordinates, `offsetTop` and `offsetHeight`. JavaScript's floating-point numbers are modelled as unbounded integers. A fractional `scrollY` is not modelled.
- Adding and removing the global mouse listeners in `window.tsx` is not modelled. `OnMouseMove` and `OnMouseUp` are the listeners' bodies, called while the listeners are registered.
- Timers: the page's loading timer, the delayed first `handleScroll` calls, and the smooth scroll in `handlePageChange`. The scroll is left out because it reads the layout.
- The `console.log` in `registerSection`.
- React's batching and re-rendering. `getHighestZIndex` is taken over the list the operation is applied to, and the introduction says why this matches the code.
- Object property order: `Object.entries` lists keys in insertion order only when no key looks like an array index. The page registers only non-numeric names, so the dictionary is modelled as a list of entries in insertion order.
- The project catalog's texts, images, tags and colours, the project detail dialog, and the scroll-triggered `isInView` flag of `projects.tsx`.
- Projects.ProjectsView.HandlePageChange: requires a page in range. The numbered buttons and the guarded arrows are its only callers, and they never pass anything else.
- Window.WindowView.HandleDragStart: requires the window not to be maximized, because dragging is switched off while maximized.
- Window.WindowView.HandleResizeStart: requires the window not to be maximized, because the resize handle is not rendered while maximized.
- Window.WindowView.HandleDragEnd: requires the window not to be maximized, for the same reason as HandleDragStart.
- ProjectDetailOmnia.Carousel.GoToImage: requires an existing screenshot index, because the dots only pass indices of existing screenshots.
- Desktop.SortByZ: the sort is a stable insertion sort. Stability is not stated separately, because under the store invariant open windows never share a z-index (`RenderedStrictlyIncreasing`).

## Findings

| source | as written | input that shows it | evidently intended | confidence | as-written member | corrected member |
|---|---|---|---|---|---|---|
| components/os/desktop.tsx:12-14, 20-25, 60 | the icon's click handler selects the icon; the click then bubbles to the desktop container, whose handler clears the selection | a single click on any icon: the selection ends as none and no icon is ever highlighted | a single click leaves that icon selected (the click stops at the icon) | high, not executed | Desktop.DesktopView.ClickIconAsWritten | Desktop.DesktopView.ClickIcon |
| components/os/window.tsx:28-31, 107 | `handleDragEnd(info)` is passed as `onDragEnd`, which the animation library calls with the pointer event first and the drag info second; the event has no `point`, so `info.point.x` throws after `setIsDragging(false)` and before `updateAppPosition` | any drag of a window ending at any point: the stored position is never updated | the handler takes `(event, info)` and stores `info.point` as the new position | medium, not executed | Window.WindowView.HandleDragEndAsWritten | Window.WindowView.HandleDragEnd |

The same bubbling reaches the desktop container from inside a window as well: a click anywhere in a window also runs `handleDesktopClick` and clears the icon selection (`components/os/desktop.tsx:24`, `67-72`).
