/**
 * The desktop surface: one icon per application (single click selects,
 * double click opens, a click on the empty desktop clears the selection), and
 * the open windows drawn bottom to top in ascending z-index order.
 */
module Desktop {
  import opened Options
  import opened AppContext

  // ---------------------------------------------------------------------------
  // Icons
  // ---------------------------------------------------------------------------

  datatype Icon = Icon(id: string, content: ContentId, isSelected: bool)

  /** The icon column: one icon per record, in registry order, highlighted when it is the selection. */
  function Icons(apps: seq<App>, selected: Option<string>): (r: seq<Icon>)
    ensures |r| == |apps|
    ensures forall i :: 0 <= i < |apps| ==> r[i].id == apps[i].id && r[i].content == apps[i].content
    ensures forall i :: 0 <= i < |apps| ==> (r[i].isSelected <==> selected == Some(apps[i].id))
  {
    seq(|apps|, i requires 0 <= i < |apps| => Icon(apps[i].id, apps[i].content, selected == Some(apps[i].id)))
  }

  /** With distinct ids at most one icon is highlighted, and none without a selection. */
  lemma AtMostOneIconSelected(apps: seq<App>, selected: Option<string>)
    requires DistinctIds(apps)
    ensures forall i, j :: 0 <= i < j < |apps| ==> !(Icons(apps, selected)[i].isSelected && Icons(apps, selected)[j].isSelected)
    ensures selected.None? ==> forall i :: 0 <= i < |apps| ==> !Icons(apps, selected)[i].isSelected
  {
  }

  // ---------------------------------------------------------------------------
  // Rendered windows: the open records, sorted by ascending z-index
  // ---------------------------------------------------------------------------

  /** The open records, minimized ones included, in registry order. */
  function OpenOnly(apps: seq<App>): (r: seq<App>)
    ensures forall a :: a in r <==> a in apps && a.isOpen
    ensures multiset(r) <= multiset(apps)
  {
    if apps == [] then []
    else
      var rest := OpenOnly(apps[1..]);
      assert apps == [apps[0]] + apps[1..];
      if apps[0].isOpen then [apps[0]] + rest else rest
  }

  predicate SortedByZ(s: seq<App>) {
    forall i, j :: 0 <= i < j < |s| ==> s[i].zIndex <= s[j].zIndex
  }

  /** Inserts `x` before the first element whose z-index is not smaller, so equal keys keep their order. */
  function InsertByZ(x: App, s: seq<App>): (r: seq<App>)
    requires SortedByZ(s)
    ensures SortedByZ(r)
    ensures multiset(r) == multiset(s) + multiset{x}
  {
    if s == [] then [x]
    else if x.zIndex <= s[0].zIndex then [x] + s
    else
      var rest := InsertByZ(x, s[1..]);
      InsertStep(x, s, rest);
      [s[0]] + rest
  }

  /** The recursive step of `InsertByZ`: `s[0]` goes in front of the insertion into the rest. */
  lemma InsertStep(x: App, s: seq<App>, rest: seq<App>)
    requires SortedByZ(s) && s != [] && s[0].zIndex < x.zIndex
    requires SortedByZ(rest) && multiset(rest) == multiset(s[1..]) + multiset{x}
    ensures SortedByZ([s[0]] + rest)
    ensures multiset([s[0]] + rest) == multiset(s) + multiset{x}
  {
    assert s == [s[0]] + s[1..];
    BoundedBelow(s[0].zIndex, rest, s[1..], x);
  }

  /** A lower bound on the z-indices of `s` and of `x` bounds every element of a list holding exactly those. */
  lemma BoundedBelow(z: int, t: seq<App>, s: seq<App>, x: App)
    requires multiset(t) == multiset(s) + multiset{x}
    requires z <= x.zIndex && forall k :: 0 <= k < |s| ==> z <= s[k].zIndex
    ensures forall k :: 0 <= k < |t| ==> z <= t[k].zIndex
  {
    forall k | 0 <= k < |t|
      ensures z <= t[k].zIndex
    {
      assert t[k] in multiset(t);
      if t[k] != x {
        assert t[k] in multiset(s);
        var j :| 0 <= j < |s| && s[j] == t[k];
      }
    }
  }

  /** A stable sort by ascending z-index (insertion sort). */
  function SortByZ(s: seq<App>): (r: seq<App>)
    ensures SortedByZ(r)
    ensures multiset(r) == multiset(s)
  {
    if s == [] then []
    else
      assert s == [s[0]] + s[1..];
      InsertByZ(s[0], SortByZ(s[1..]))
  }

  /** The windows the desktop draws, bottom first: exactly the open records, ascending by z-index. */
  function RenderedWindows(apps: seq<App>): (r: seq<App>)
    ensures SortedByZ(r)
    ensures multiset(r) == multiset(OpenOnly(apps))
    ensures forall a :: a in r <==> a in apps && a.isOpen
  {
    var r := SortByZ(OpenOnly(apps));
    assert forall a :: a in r <==> a in multiset(r);
    assert forall a :: a in OpenOnly(apps) <==> a in multiset(OpenOnly(apps));
    r
  }

  /** With distinct ids no record occurs twice in the list. */
  lemma {:induction false} DistinctIdsNoDuplicates(apps: seq<App>, a: App)
    requires DistinctIds(apps)
    ensures multiset(apps)[a] <= 1
  {
    if apps != [] {
      assert apps == [apps[0]] + apps[1..];
      DistinctIdsNoDuplicates(apps[1..], a);
      if apps[0] == a {
        assert a !in apps[1..];
      }
    }
  }

  /** Two equal elements at two positions make a multiplicity of at least two. */
  lemma RepeatedElement(s: seq<App>, i: int, j: int)
    requires 0 <= i < j < |s| && s[i] == s[j]
    ensures multiset(s)[s[i]] >= 2
  {
    assert s == s[..j] + s[j..];
    assert s[i] in s[..j];
    assert s[j] in s[j..];
  }

  /** Under the store's invariant there are no ties: open windows are drawn in strictly increasing z order. */
  lemma RenderedStrictlyIncreasing(apps: seq<App>)
    requires WellFormed(apps)
    ensures var r := RenderedWindows(apps);
            forall i, j :: 0 <= i < j < |r| ==> r[i].zIndex < r[j].zIndex
  {
    var r := RenderedWindows(apps);
    forall i, j | 0 <= i < j < |r|
      ensures r[i].zIndex < r[j].zIndex
    {
      if r[i].zIndex == r[j].zIndex {
        assert r[i] in apps && r[j] in apps;
        var p :| 0 <= p < |apps| && apps[p] == r[i];
        var q :| 0 <= q < |apps| && apps[q] == r[j];
        if p == q {
          RepeatedElement(r, i, j);
          DistinctIdsNoDuplicates(apps, r[i]);
        }
      }
    }
  }

  /** An open window above every other record is the last one drawn, i.e. it is in front. */
  lemma OnTopIsDrawnLast(apps: seq<App>, i: int)
    requires DistinctIds(apps) && 0 <= i < |apps| && apps[i].isOpen && OnTop(apps, i)
    ensures var r := RenderedWindows(apps);
            |r| > 0 && r[|r| - 1] == apps[i]
  {
    var r := RenderedWindows(apps);
    assert apps[i] in r;
    TopOfSorted(apps, i, r);
  }

  /** A sorted list drawn from `apps` that holds the record on top ends with it. */
  lemma TopOfSorted(apps: seq<App>, i: int, r: seq<App>)
    requires DistinctIds(apps) && 0 <= i < |apps| && OnTop(apps, i)
    requires SortedByZ(r) && apps[i] in r && forall a :: a in r ==> a in apps
    ensures |r| > 0 && r[|r| - 1] == apps[i]
  {
    var k :| 0 <= k < |r| && r[k] == apps[i];
    var last := r[|r| - 1];
    assert last in r;
    var q :| 0 <= q < |apps| && apps[q] == last;
    // The last window is drawn no lower than the one on top, so it cannot carry another id.
    assert k == |r| - 1 || r[k].zIndex <= last.zIndex;
    assert apps[q].id == apps[i].id;
  }

  /** After opening, restoring or focusing an open window, it is the window drawn in front. */
  lemma RaisedWindowIsDrawnLast(apps: seq<App>, op: Op, i: int)
    requires WellFormed(apps) && Raises(op) && 0 <= i < |apps| && apps[i].id == op.id
    requires Apply(apps, op)[i].isOpen
    ensures var r := RenderedWindows(Apply(apps, op));
            |r| > 0 && r[|r| - 1] == Apply(apps, op)[i]
  {
    ApplyPreservesWellFormed(apps, op);
    OnTopIsDrawnLast(Apply(apps, op), i);
  }

  // ---------------------------------------------------------------------------
  // The desktop component
  // ---------------------------------------------------------------------------

  /** `Desktop`: the icon selection is local state; window state lives in the shared store. */
  class DesktopView {
    const store: AppStore
    var selectedIcon: Option<string>

    constructor (store: AppStore)
      ensures this.store == store && selectedIcon == None
    {
      this.store := store;
      selectedIcon := None;
    }

    /** `handleIconClick`: the clicked icon becomes the selection. */
    method HandleIconClick(id: string)
      modifies this
      ensures selectedIcon == Some(id)
    {
      selectedIcon := Some(id);
    }

    /** `handleDesktopClick`: a click on the desktop clears the selection. */
    method HandleDesktopClick()
      modifies this
      ensures selectedIcon == None
    {
      selectedIcon := None;
    }

    /** `handleIconDoubleClick`: opens (or raises) the application. */
    method HandleIconDoubleClick(id: string)
      requires store.Valid()
      modifies store
      ensures store.Valid() && store.apps == Open(old(store.apps), id)
    {
      store.OpenApp(id);
    }

    /**
     * A single click on an icon as the page dispatches it: the icon's handler
     * runs, then the click bubbles to the desktop container, whose handler
     * clears the selection again. No icon is ever left highlighted.
     */
    method ClickIconAsWritten(id: string)
      modifies this
      ensures selectedIcon == None
      ensures forall k :: 0 <= k < |store.apps| ==> !Icons(store.apps, selectedIcon)[k].isSelected
    {
      HandleIconClick(id);
      HandleDesktopClick();
    }

    /** A single click on an icon with the bubbling stopped: that icon, and only it, is highlighted. */
    method ClickIcon(id: string)
      requires store.Valid()
      modifies this
      ensures selectedIcon == Some(id)
      ensures forall k :: 0 <= k < |store.apps| ==> (Icons(store.apps, selectedIcon)[k].isSelected <==> store.apps[k].id == id)
    {
      HandleIconClick(id);
    }

    /** The windows drawn on this desktop, bottom first: the open records in ascending z-index order. */
    function Windows(): (r: seq<App>)
      reads this, store
      ensures SortedByZ(r)
      ensures multiset(r) == multiset(OpenOnly(store.apps))
      ensures forall a :: a in r <==> a in store.apps && a.isOpen
    {
      RenderedWindows(store.apps)
    }
  }
}
