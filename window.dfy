/**
 * One window's chrome and gestures: drag to move, a bottom-right handle to
 * resize (an idle/resizing mode driven by global mouse-move and mouse-up),
 * a maximize/restore toggle that keeps a snapshot of the geometry, and the
 * close and minimize buttons. All window state it changes lives in the shared
 * store; the flags and the snapshot are the view's own.
 */
module Window {
  import opened Options
  import opened AppContext

  /** Screen height taken by the menu bar, left free by a maximized window. */
  const ChromeHeight := 56
  /** The smallest size a resize gesture produces. */
  const MinWidth := 300
  const MinHeight := 200

  /**
   * The size a resize step writes: the pointer minus the window's top-left
   * corner, clamped from below to 300 x 200.
   */
  function ResizedSize(clientX: int, clientY: int, left: int, top: int): (s: Size)
    ensures MinWidth <= s.width && clientX - left <= s.width
    ensures s.width == MinWidth || s.width == clientX - left
    ensures MinHeight <= s.height && clientY - top <= s.height
    ensures s.height == MinHeight || s.height == clientY - top
  {
    Size(Max(MinWidth, clientX - left), Max(MinHeight, clientY - top))
  }

  /** Asking for 100 x 50 yields the minimum 300 x 200; asking for more than the minimum is honoured. */
  lemma ResizeClampExamples()
    ensures ResizedSize(100, 50, 0, 0) == Size(300, 200)
    ensures ResizedSize(750, 460, 50, 60) == Size(700, 400)
  {
  }

  /** Where `id` sits in a list with distinct ids, and what `Find` returns for it. */
  lemma IndexOf(apps: seq<App>, id: string) returns (i: int)
    requires DistinctIds(apps) && HasId(apps, id)
    ensures 0 <= i < |apps| && apps[i].id == id && Find(apps, id) == Some(apps[i])
  {
    i :| 0 <= i < |apps| && apps[i].id == id;
    FindDistinct(apps, id, i);
  }

  /** Writing a size and then a position keeps every z-index, hence the highest one. */
  lemma SetGeometryKeepsHighest(a: seq<App>, id: string, i: int, size: Size, position: Point)
    requires 0 <= i < |a| && a[i].id == id
    ensures var m := MoveTo(Resize(a, id, size), id, position);
            && SameIds(a, m) && OthersUnchanged(a, m, id)
            && m[i] == a[i].(size := size, position := position)
            && HighestZIndex(m) == HighestZIndex(a)
  {
    var m := MoveTo(Resize(a, id, size), id, position);
    assert forall k :: 0 <= k < |a| ==> m[k].zIndex == a[k].zIndex;
    HighestZIndexIs(m, HighestZIndex(a));
  }

  /** Writing another geometry and then the old one back gives back the very same list. */
  lemma GeometryRoundTrip(a: seq<App>, id: string, i: int, size: Size, position: Point)
    requires DistinctIds(a) && 0 <= i < |a| && a[i].id == id
    ensures var m := MoveTo(Resize(a, id, size), id, position);
            MoveTo(Resize(m, id, a[i].size), id, a[i].position) == a
  {
    var m := MoveTo(Resize(a, id, size), id, position);
    var r := MoveTo(Resize(m, id, a[i].size), id, a[i].position);
    forall k | 0 <= k < |a|
      ensures r[k] == a[k]
    {
      if a[k].id == id {
        assert k == i;
      }
    }
  }

  /**
   * One press of the maximize button on the store: the geometry is written and
   * the bubbled raise lifts the record one above the highest z-index.
   */
  lemma OneMaximizePress(a: seq<App>, id: string, i: int, size: Size, position: Point)
    requires DistinctIds(a) && 0 <= i < |a| && a[i].id == id
    ensures var r := Focus(MoveTo(Resize(a, id, size), id, position), id);
            && SameIds(a, r) && OthersUnchanged(a, r, id) && DistinctIds(r)
            && r[i] == a[i].(size := size, position := position, zIndex := HighestZIndex(a) + 1)
            && HighestZIndex(r) == HighestZIndex(a) + 1
  {
    var m := MoveTo(Resize(a, id, size), id, position);
    SetGeometryKeepsHighest(a, id, i, size, position);
    assert HighestZIndex(Focus(m, id)) == HighestZIndex(m) + 1 by {
      RaiseBumpsHighest(m, FocusOp(id));
    }
  }

  /**
   * The store after two presses of the maximize button, each followed by the
   * bubbled raise: the record at `i` has its geometry back and stands two
   * above the highest z-index the list started with; nothing else changes.
   */
  lemma TwoMaximizePresses(a0: seq<App>, id: string, i: int, full: Size)
    requires DistinctIds(a0) && 0 <= i < |a0| && a0[i].id == id
    ensures var a1 := Focus(MoveTo(Resize(a0, id, full), id, Point(0, 0)), id);
            var a2 := Focus(MoveTo(Resize(a1, id, a0[i].size), id, a0[i].position), id);
            && SameIds(a0, a2) && OthersUnchanged(a0, a2, id)
            && a2[i] == a0[i].(zIndex := HighestZIndex(a0) + 2)
  {
    OneMaximizePress(a0, id, i, full, Point(0, 0));
    var a1 := Focus(MoveTo(Resize(a0, id, full), id, Point(0, 0)), id);
    OneMaximizePress(a1, id, i, a0[i].size, a0[i].position);
  }

  /** The `Window` component for the record with id `id`. */
  class WindowView {
    const store: AppStore
    const id: string
    var isDragging: bool
    var isResizing: bool
    var isMaximized: bool
    var prevSize: Size
    var prevPosition: Point

    /**
     * The view is mounted: the desktop draws a window only for an open record,
     * so closing the record unmounts the view and drops its local state.
     */
    ghost predicate Valid()
      reads store
    {
      store.Valid() && HasId(store.apps, id) && Find(store.apps, id).value.isOpen
    }

    /** The record this view renders (its `app` prop). */
    function Record(): (a: App)
      reads store
      requires Valid()
      ensures a in store.apps && a.id == id
    {
      Find(store.apps, id).value
    }

    /** Mounting, which happens when the record is open: all flags off, the snapshot initialised from the record. */
    constructor (store: AppStore, id: string)
      requires store.Valid() && HasId(store.apps, id) && Find(store.apps, id).value.isOpen
      ensures this.store == store && this.id == id && Valid()
      ensures !isDragging && !isResizing && !isMaximized
      ensures prevSize == Record().size && prevPosition == Record().position
    {
      this.store := store;
      this.id := id;
      isDragging, isResizing, isMaximized := false, false, false;
      var app := Find(store.apps, id).value;
      prevSize, prevPosition := app.size, app.position;
    }

    /** `handleDragStart`: enters dragging and raises the window. Dragging is off while maximized. */
    method HandleDragStart()
      requires Valid() && !isMaximized
      modifies this, store
      ensures Valid() && isDragging
      ensures unchanged(this`isResizing, this`isMaximized, this`prevSize, this`prevPosition)
      ensures store.apps == Focus(old(store.apps), id)
    {
      assert this as object != store as object;
      isDragging := true;
      ghost var i := IndexOf(store.apps, id);
      store.FocusApp(id);
      FindDistinct(store.apps, id, i);
    }

    /**
     * `handleDragEnd` as the animation library calls it: the handler's single
     * parameter receives the pointer event, not the drag info, and the event
     * has no `point`, so the handler stops with an error after leaving the
     * dragging mode and before any position is written.
     */
    method HandleDragEndAsWritten()
      requires Valid() && !isMaximized
      modifies this
      ensures Valid() && !isDragging
      ensures unchanged(this`isResizing, this`isMaximized, this`prevSize, this`prevPosition)
      ensures store.apps == old(store.apps)
    {
      isDragging := false;
    }

    /** `handleDragEnd` as intended: leaves dragging mode and stores the final pointer point as the position. */
    method HandleDragEnd(pointX: int, pointY: int)
      requires Valid() && !isMaximized
      modifies this, store
      ensures Valid() && !isDragging
      ensures unchanged(this`isResizing, this`isMaximized, this`prevSize, this`prevPosition)
      ensures store.apps == MoveTo(old(store.apps), id, Point(pointX, pointY))
      ensures Record().position == Point(pointX, pointY) && Record().size == old(Record().size)
    {
      assert this as object != store as object;
      isDragging := false;
      ghost var i := IndexOf(store.apps, id);
      store.UpdateAppPosition(id, Point(pointX, pointY));
      FindDistinct(store.apps, id, i);
    }

    /** `handleResizeStart`: enters resizing mode and raises the window. The handle is hidden while maximized. */
    method HandleResizeStart()
      requires Valid() && !isMaximized
      modifies this, store
      ensures Valid() && isResizing
      ensures unchanged(this`isDragging, this`isMaximized, this`prevSize, this`prevPosition)
      ensures store.apps == Focus(old(store.apps), id)
    {
      assert this as object != store as object;
      isResizing := true;
      ghost var i := IndexOf(store.apps, id);
      store.FocusApp(id);
      FindDistinct(store.apps, id, i);
    }

    /** `handleResizeEnd`: leaves resizing mode. */
    method HandleResizeEnd()
      modifies this
      ensures !isResizing
      ensures unchanged(this`isDragging, this`isMaximized, this`prevSize, this`prevPosition)
    {
      isResizing := false;
    }

    /**
     * `handleResize`: only in resizing mode and with the element mounted
     * (`bounds` is its top-left corner on screen), writes the clamped size.
     */
    method HandleResize(clientX: int, clientY: int, bounds: Option<Point>)
      requires Valid()
      modifies store
      ensures Valid()
      ensures store.apps == if isResizing && bounds.Some?
                            then Resize(old(store.apps), id, ResizedSize(clientX, clientY, bounds.value.x, bounds.value.y))
                            else old(store.apps)
      ensures isResizing && bounds.Some? ==>
                MinWidth <= Record().size.width && MinHeight <= Record().size.height &&
                Record().position == old(Record().position)
    {
      if isResizing && bounds.Some? {
        var size := ResizedSize(clientX, clientY, bounds.value.x, bounds.value.y);
        ghost var i := IndexOf(store.apps, id);
        store.UpdateAppSize(id, size);
        FindDistinct(store.apps, id, i);
      }
    }

    /** The global mouse-move listener: a resize step while resizing, nothing otherwise. */
    method OnMouseMove(clientX: int, clientY: int, bounds: Option<Point>)
      requires Valid()
      modifies store
      ensures Valid()
      ensures store.apps == if isResizing && bounds.Some?
                            then Resize(old(store.apps), id, ResizedSize(clientX, clientY, bounds.value.x, bounds.value.y))
                            else old(store.apps)
    {
      if isResizing {
        HandleResize(clientX, clientY, bounds);
      }
    }

    /** The global mouse-up listener: ends a resize, and does nothing otherwise. */
    method OnMouseUp()
      modifies this
      ensures !isResizing
      ensures unchanged(this`isDragging, this`isMaximized, this`prevSize, this`prevPosition)
    {
      if isResizing {
        HandleResizeEnd();
      }
    }

    /**
     * `handleMaximize`. Maximizing snapshots the current size and position and
     * fills the viewport below the menu bar from the top-left corner;
     * restoring writes the snapshot back. Every call flips `isMaximized`.
     */
    method HandleMaximize(viewportWidth: int, viewportHeight: int)
      requires Valid()
      modifies this, store
      ensures Valid() && isMaximized == !old(isMaximized)
      ensures unchanged(this`isDragging, this`isResizing)
      ensures old(isMaximized) ==>
                && prevSize == old(prevSize) && prevPosition == old(prevPosition)
                && store.apps == MoveTo(Resize(old(store.apps), id, old(prevSize)), id, old(prevPosition))
                && Record().size == old(prevSize) && Record().position == old(prevPosition)
      ensures !old(isMaximized) ==>
                && prevSize == old(Record().size) && prevPosition == old(Record().position)
                && store.apps == MoveTo(Resize(old(store.apps), id, Size(viewportWidth, viewportHeight - ChromeHeight)), id, Point(0, 0))
                && Record().size == Size(viewportWidth, viewportHeight - ChromeHeight)
                && Record().position == Point(0, 0)
    {
      if isMaximized {
        RestoreGeometry();
      } else {
        FillViewport(viewportWidth, viewportHeight);
      }
    }

    /** The restoring half of `handleMaximize`: the snapshot is written back. */
    method RestoreGeometry()
      requires Valid() && isMaximized
      modifies this, store
      ensures Valid() && !isMaximized
      ensures unchanged(this`isDragging, this`isResizing, this`prevSize, this`prevPosition)
      ensures store.apps == MoveTo(Resize(old(store.apps), id, prevSize), id, prevPosition)
      ensures Record().size == prevSize && Record().position == prevPosition
    {
      assert this as object != store as object;
      SetGeometry(prevSize, prevPosition);
      isMaximized := false;
    }

    /** The maximizing half of `handleMaximize`: the geometry is saved and the window fills the screen below the menu bar. */
    method FillViewport(viewportWidth: int, viewportHeight: int)
      requires Valid() && !isMaximized
      modifies this, store
      ensures Valid() && isMaximized
      ensures unchanged(this`isDragging, this`isResizing)
      ensures prevSize == old(Record().size) && prevPosition == old(Record().position)
      ensures store.apps == MoveTo(Resize(old(store.apps), id, Size(viewportWidth, viewportHeight - ChromeHeight)), id, Point(0, 0))
      ensures Record().size == Size(viewportWidth, viewportHeight - ChromeHeight) && Record().position == Point(0, 0)
    {
      assert this as object != store as object;
      var app := Find(store.apps, id).value;
      SetGeometry(Size(viewportWidth, viewportHeight - ChromeHeight), Point(0, 0));
      prevSize, prevPosition := app.size, app.position;
      isMaximized := true;
    }

    /** `updateAppSize` followed by `updateAppPosition` for this window. */
    method SetGeometry(size: Size, position: Point)
      requires Valid()
      modifies store
      ensures Valid()
      ensures store.apps == MoveTo(Resize(old(store.apps), id, size), id, position)
      ensures Record() == old(Record()).(size := size, position := position)
    {
      ghost var i := IndexOf(store.apps, id);
      store.UpdateAppSize(id, size);
      store.UpdateAppPosition(id, position);
      FindDistinct(store.apps, id, i);
    }

    /**
     * Maximize followed by restore puts the whole store back as it was: while
     * maximized neither dragging nor the resize handle can change the geometry
     * in between.
     */
    method MaximizeThenRestore(viewportWidth: int, viewportHeight: int)
      requires Valid() && !isMaximized
      modifies this, store
      ensures Valid() && !isMaximized
      ensures unchanged(this`isDragging, this`isResizing)
      ensures prevSize == old(Record().size) && prevPosition == old(Record().position)
      ensures store.apps == old(store.apps)
    {
      assert this as object != store as object;
      ghost var before := store.apps;
      ghost var i := IndexOf(before, id);
      HandleMaximize(viewportWidth, viewportHeight);
      HandleMaximize(viewportWidth, viewportHeight);
      GeometryRoundTrip(before, id, i, Size(viewportWidth, viewportHeight - ChromeHeight), Point(0, 0));
    }

    /**
     * Two presses of the maximize button, as the page delivers them: the
     * geometry comes back exactly, other records are untouched, and each
     * press's bubbled click raises the window one step, so it ends two above
     * the highest z-index it started from.
     */
    method PressMaximizeTwice(viewportWidth: int, viewportHeight: int)
      requires Valid() && !isMaximized
      modifies this, store
      ensures Valid() && !isMaximized
      ensures unchanged(this`isDragging, this`isResizing)
      ensures prevSize == old(Record().size) && prevPosition == old(Record().position)
      ensures SameIds(old(store.apps), store.apps) && OthersUnchanged(old(store.apps), store.apps, id)
      ensures Record() == old(Record()).(zIndex := old(HighestZIndex(store.apps)) + 2)
    {
      assert this as object != store as object;
      ghost var a0 := store.apps;
      ghost var i := IndexOf(a0, id);
      ClickMaximizeButton(viewportWidth, viewportHeight);
      ClickMaximizeButton(viewportWidth, viewportHeight);
      TwoMaximizePresses(a0, id, i, Size(viewportWidth, viewportHeight - ChromeHeight));
      FindDistinct(store.apps, id, i);
    }

    /** A click anywhere in the window raises it. */
    method HandleClick()
      requires Valid()
      modifies store
      ensures Valid() && store.apps == Focus(old(store.apps), id)
    {
      store.FocusApp(id);
    }

    /**
     * The close button: closes this window; the click then bubbles to the
     * window, which raises it. The record is closed, so the view is unmounted.
     */
    method ClickCloseButton()
      requires Valid()
      modifies store
      ensures store.Valid() && store.apps == Focus(Close(old(store.apps), id), id)
      ensures HasId(store.apps, id) && !Valid()
      ensures !Find(store.apps, id).value.isOpen && SameGeometry(Find(store.apps, id).value, old(Record()))
    {
      ghost var i := IndexOf(store.apps, id);
      ghost var before := store.apps[i];
      store.CloseApp(id);
      // The bubbled click runs in the same event, before the view unmounts.
      store.FocusApp(id);
      FindDistinct(store.apps, id, i);
      assert store.apps[i] == before.(isOpen := false, zIndex := store.apps[i].zIndex);
    }

    /** The minimize button: minimizes this window; the click then bubbles to the window, which raises it. */
    method ClickMinimizeButton()
      requires Valid()
      modifies store
      ensures Valid() && store.apps == Focus(Minimize(old(store.apps), id), id)
      ensures Record().isMinimized && Record().isOpen == old(Record().isOpen) && SameGeometry(Record(), old(Record()))
    {
      ghost var i := IndexOf(store.apps, id);
      store.MinimizeApp(id);
      HandleClick();
      FindDistinct(store.apps, id, i);
    }

    /** The maximize button: toggles maximization; the click then bubbles to the window, which raises it. */
    method ClickMaximizeButton(viewportWidth: int, viewportHeight: int)
      requires Valid()
      modifies this, store
      ensures Valid() && isMaximized == !old(isMaximized)
      ensures unchanged(this`isDragging, this`isResizing)
      ensures old(isMaximized) ==>
                && prevSize == old(prevSize) && prevPosition == old(prevPosition)
                && store.apps == Focus(MoveTo(Resize(old(store.apps), id, old(prevSize)), id, old(prevPosition)), id)
                && Record().size == old(prevSize) && Record().position == old(prevPosition)
      ensures !old(isMaximized) ==>
                && prevSize == old(Record().size) && prevPosition == old(Record().position)
                && store.apps == Focus(MoveTo(Resize(old(store.apps), id, Size(viewportWidth, viewportHeight - ChromeHeight)), id, Point(0, 0)), id)
                && Record().size == Size(viewportWidth, viewportHeight - ChromeHeight) && Record().position == Point(0, 0)
    {
      assert this as object != store as object;
      ghost var a0 := store.apps;
      ghost var i := IndexOf(a0, id);
      ghost var size := if isMaximized then prevSize else Size(viewportWidth, viewportHeight - ChromeHeight);
      ghost var position := if isMaximized then prevPosition else Point(0, 0);
      HandleMaximize(viewportWidth, viewportHeight);
      HandleClick();
      OneMaximizePress(a0, id, i, size, position);
      FindDistinct(store.apps, id, i);
    }
  }
}
