/**
 * The window store of the virtual desktop: a fixed, ordered list of application
 * records, and the seven transitions that rewrite the record with a given id.
 * Each transition is a `map` over the list that replaces only the matching
 * record; the provider that owns the list is the class `AppStore` below.
 */
module AppContext {
  import opened Options

  datatype Point = Point(x: int, y: int)

  datatype Size = Size(width: int, height: int)

  /** Title, description, icon and rendered component of an application, as one opaque id. */
  type ContentId = nat

  datatype App = App(
    id: string,
    content: ContentId,
    isOpen: bool,
    isMinimized: bool,
    zIndex: int,
    position: Point,
    size: Size)

  // ---------------------------------------------------------------------------
  // The initial registry
  // ---------------------------------------------------------------------------

  /** A registry entry as it starts out: closed, not minimized, at the bottom of the stack. */
  function Registered(id: string, content: ContentId, position: Point, size: Size): App {
    App(id, content, false, false, 0, position, size)
  }

  /** The eight applications of the desktop, in registry (icon and dock) order. */
  function InitialApps(): seq<App> {
    [ Registered("omne", 0, Point(100, 100), Size(700, 600)),
      Registered("projekty", 1, Point(150, 150), Size(900, 600)),
      Registered("sluzby", 2, Point(200, 200), Size(800, 600)),
      Registered("portfolio", 3, Point(250, 250), Size(900, 600)),
      Registered("demo", 4, Point(300, 150), Size(900, 600)),
      Registered("kontakt", 5, Point(350, 200), Size(800, 600)),
      Registered("blog", 6, Point(400, 250), Size(800, 600)),
      Registered("prehliadac", 7, Point(150, 100), Size(900, 600)) ]
  }

  // ---------------------------------------------------------------------------
  // Shapes of a list and of a transition
  // ---------------------------------------------------------------------------

  predicate HasId(apps: seq<App>, id: string) {
    exists i :: 0 <= i < |apps| && apps[i].id == id
  }

  predicate DistinctIds(apps: seq<App>) {
    forall i, j :: 0 <= i < j < |apps| ==> apps[i].id != apps[j].id
  }

  /** `r` has the length of `apps` and the same ids in the same order. */
  predicate SameIds(apps: seq<App>, r: seq<App>) {
    |r| == |apps| && forall i :: 0 <= i < |apps| ==> r[i].id == apps[i].id
  }

  /** Every record of `r` whose id is not `id` is the record of `apps` at that position. */
  predicate OthersUnchanged(apps: seq<App>, r: seq<App>, id: string)
    requires |r| == |apps|
  {
    forall i :: 0 <= i < |apps| && apps[i].id != id ==> r[i] == apps[i]
  }

  /** The record at `i` draws above every record with another id. */
  predicate OnTop(apps: seq<App>, i: int)
    requires 0 <= i < |apps|
  {
    forall j :: 0 <= j < |apps| && apps[j].id != apps[i].id ==> apps[j].zIndex < apps[i].zIndex
  }

  /** Position and size agree. */
  predicate SameGeometry(a: App, b: App) {
    a.position == b.position && a.size == b.size
  }

  /**
   * The invariant the store keeps: ids are distinct, z-indices are never
   * negative, every open window has a positive z-index, and no two records
   * share a positive z-index (so open windows are strictly ordered).
   */
  predicate WellFormed(apps: seq<App>) {
    && DistinctIds(apps)
    && (forall i :: 0 <= i < |apps| ==> 0 <= apps[i].zIndex)
    && (forall i :: 0 <= i < |apps| && apps[i].isOpen ==> 0 < apps[i].zIndex)
    && (forall i, j :: 0 <= i < j < |apps| && 0 < apps[i].zIndex ==> apps[i].zIndex != apps[j].zIndex)
  }

  // ---------------------------------------------------------------------------
  // Lookup and the highest z-index
  // ---------------------------------------------------------------------------

  /** The first record with that id, if any. */
  function Find(apps: seq<App>, id: string): (r: Option<App>)
    ensures r.None? <==> !HasId(apps, id)
    ensures r.Some? ==> exists i :: 0 <= i < |apps| && apps[i] == r.value && r.value.id == id &&
                                     forall j :: 0 <= j < i ==> apps[j].id != id
  {
    if apps == [] then None
    else if apps[0].id == id then Some(apps[0])
    else
      var r := Find(apps[1..], id);
      assert HasId(apps[1..], id) ==> HasId(apps, id);
      assert HasId(apps, id) ==> HasId(apps[1..], id);
      if r.Some? then
        ghost var k :| 0 <= k < |apps[1..]| && apps[1..][k] == r.value && r.value.id == id &&
                       forall j :: 0 <= j < k ==> apps[1..][j].id != id;
        assert apps[k + 1] == r.value && forall j :: 0 <= j < k + 1 ==> apps[j].id != id;
        r
      else r
  }

  lemma FindDistinct(apps: seq<App>, id: string, i: int)
    requires DistinctIds(apps) && 0 <= i < |apps| && apps[i].id == id
    ensures Find(apps, id) == Some(apps[i])
  {
  }

  function Max(a: int, b: int): int {
    if a < b then b else a
  }

  /** The largest of `highest` and the z-indices of the records, folded left to right. */
  function MaxZFrom(highest: int, apps: seq<App>): (r: int)
    ensures highest <= r
    ensures forall i :: 0 <= i < |apps| ==> apps[i].zIndex <= r
    ensures r == highest || exists i :: 0 <= i < |apps| && apps[i].zIndex == r
    decreases |apps|
  {
    if apps == [] then highest
    else
      var r := MaxZFrom(Max(highest, apps[0].zIndex), apps[1..]);
      assert forall i :: 1 <= i < |apps| ==> apps[i] == apps[1..][i - 1];
      r
  }

  /** `getHighestZIndex`: the largest z-index of any record, open or closed, and at least 0. */
  function HighestZIndex(apps: seq<App>): (h: int)
    ensures 0 <= h
    ensures forall i :: 0 <= i < |apps| ==> apps[i].zIndex <= h
    ensures h == 0 || exists i :: 0 <= i < |apps| && apps[i].zIndex == h
  {
    MaxZFrom(0, apps)
  }

  /** Any bound that is attained (or is the seed 0) is the highest z-index. */
  lemma HighestZIndexIs(apps: seq<App>, m: int)
    requires 0 <= m
    requires forall i :: 0 <= i < |apps| ==> apps[i].zIndex <= m
    requires m == 0 || exists i :: 0 <= i < |apps| && apps[i].zIndex == m
    ensures HighestZIndex(apps) == m
  {
  }

  // ---------------------------------------------------------------------------
  // The seven transitions
  // ---------------------------------------------------------------------------

  /** Rewrites every record carrying `id` with `f` and keeps every other record as it is. */
  function UpdateWhere(apps: seq<App>, id: string, f: App -> App): (r: seq<App>)
    ensures |r| == |apps|
    ensures forall i :: 0 <= i < |apps| ==> r[i] == (if apps[i].id == id then f(apps[i]) else apps[i])
  {
    seq(|apps|, i requires 0 <= i < |apps| => if apps[i].id == id then f(apps[i]) else apps[i])
  }

  /** `openApp(id)`: opens the window, clears `isMinimized` and raises it above all others. */
  function Open(apps: seq<App>, id: string): (r: seq<App>)
    ensures SameIds(apps, r) && OthersUnchanged(apps, r, id)
    ensures forall i :: 0 <= i < |apps| && apps[i].id == id ==>
              && r[i].isOpen && !r[i].isMinimized
              && SameGeometry(r[i], apps[i]) && r[i].content == apps[i].content
              && r[i].zIndex == HighestZIndex(apps) + 1
              && OnTop(r, i)
  {
    var z := HighestZIndex(apps) + 1;
    UpdateWhere(apps, id, (a: App) => a.(isOpen := true, isMinimized := false, zIndex := z))
  }

  /** `closeApp(id)`: only `isOpen` changes. */
  function Close(apps: seq<App>, id: string): (r: seq<App>)
    ensures SameIds(apps, r) && OthersUnchanged(apps, r, id)
    ensures forall i :: 0 <= i < |apps| && apps[i].id == id ==>
              && !r[i].isOpen && r[i].isMinimized == apps[i].isMinimized
              && r[i].zIndex == apps[i].zIndex
              && SameGeometry(r[i], apps[i]) && r[i].content == apps[i].content
  {
    UpdateWhere(apps, id, (a: App) => a.(isOpen := false))
  }

  /** `minimizeApp(id)`: sets `isMinimized`, whether or not the window is open. */
  function Minimize(apps: seq<App>, id: string): (r: seq<App>)
    ensures SameIds(apps, r) && OthersUnchanged(apps, r, id)
    ensures forall i :: 0 <= i < |apps| && apps[i].id == id ==>
              && r[i].isMinimized && r[i].isOpen == apps[i].isOpen
              && r[i].zIndex == apps[i].zIndex
              && SameGeometry(r[i], apps[i]) && r[i].content == apps[i].content
  {
    UpdateWhere(apps, id, (a: App) => a.(isMinimized := true))
  }

  /** `restoreApp(id)`: clears `isMinimized` and raises the window above all others. */
  function Restore(apps: seq<App>, id: string): (r: seq<App>)
    ensures SameIds(apps, r) && OthersUnchanged(apps, r, id)
    ensures forall i :: 0 <= i < |apps| && apps[i].id == id ==>
              && !r[i].isMinimized && r[i].isOpen == apps[i].isOpen
              && SameGeometry(r[i], apps[i]) && r[i].content == apps[i].content
              && r[i].zIndex == HighestZIndex(apps) + 1
              && OnTop(r, i)
  {
    var z := HighestZIndex(apps) + 1;
    UpdateWhere(apps, id, (a: App) => a.(isMinimized := false, zIndex := z))
  }

  /** `focusApp(id)`: raises the window above all others and changes nothing else. */
  function Focus(apps: seq<App>, id: string): (r: seq<App>)
    ensures SameIds(apps, r) && OthersUnchanged(apps, r, id)
    ensures forall i :: 0 <= i < |apps| && apps[i].id == id ==>
              && r[i].isOpen == apps[i].isOpen && r[i].isMinimized == apps[i].isMinimized
              && SameGeometry(r[i], apps[i]) && r[i].content == apps[i].content
              && r[i].zIndex == HighestZIndex(apps) + 1
              && r[i] == apps[i].(zIndex := HighestZIndex(apps) + 1)
              && OnTop(r, i)
  {
    var z := HighestZIndex(apps) + 1;
    UpdateWhere(apps, id, (a: App) => a.(zIndex := z))
  }

  /** `updateAppPosition(id, position)`: stores the position verbatim, without clamping. */
  function MoveTo(apps: seq<App>, id: string, position: Point): (r: seq<App>)
    ensures SameIds(apps, r) && OthersUnchanged(apps, r, id)
    ensures forall i :: 0 <= i < |apps| && apps[i].id == id ==>
              r[i] == apps[i].(position := position)
  {
    UpdateWhere(apps, id, (a: App) => a.(position := position))
  }

  /** `updateAppSize(id, size)`: stores the size verbatim, without clamping. */
  function Resize(apps: seq<App>, id: string, size: Size): (r: seq<App>)
    ensures SameIds(apps, r) && OthersUnchanged(apps, r, id)
    ensures forall i :: 0 <= i < |apps| && apps[i].id == id ==>
              r[i] == apps[i].(size := size)
  {
    UpdateWhere(apps, id, (a: App) => a.(size := size))
  }

  /** The store's operations, as data, so that sequences of them can be reasoned about. */
  datatype Op =
    | OpenOp(id: string)
    | CloseOp(id: string)
    | MinimizeOp(id: string)
    | RestoreOp(id: string)
    | FocusOp(id: string)
    | MoveOp(id: string, position: Point)
    | ResizeOp(id: string, size: Size)

  function Apply(apps: seq<App>, op: Op): seq<App> {
    match op
    case OpenOp(id) => Open(apps, id)
    case CloseOp(id) => Close(apps, id)
    case MinimizeOp(id) => Minimize(apps, id)
    case RestoreOp(id) => Restore(apps, id)
    case FocusOp(id) => Focus(apps, id)
    case MoveOp(id, p) => MoveTo(apps, id, p)
    case ResizeOp(id, s) => Resize(apps, id, s)
  }

  /** The three operations that compute `getHighestZIndex() + 1`. */
  predicate Raises(op: Op) {
    op.OpenOp? || op.RestoreOp? || op.FocusOp?
  }

  function Run(apps: seq<App>, ops: seq<Op>): seq<App>
    decreases |ops|
  {
    if ops == [] then apps else Run(Apply(apps, ops[0]), ops[1..])
  }

  // ---------------------------------------------------------------------------
  // Properties of the transitions
  // ---------------------------------------------------------------------------

  /** Initially every record is closed, not minimized, at z-index 0, and the ids are distinct. */
  lemma InitialAppsWellFormed()
    ensures |InitialApps()| == 8 && WellFormed(InitialApps())
    ensures forall i :: 0 <= i < |InitialApps()| ==>
              var a := InitialApps()[i]; !a.isOpen && !a.isMinimized && a.zIndex == 0
    ensures HighestZIndex(InitialApps()) == 0
  {
    InitialIdsDistinct();
    InitialAppsAtRest();
    HighestZIndexIs(InitialApps(), 0);
  }

  /** The eight registry ids are pairwise different. */
  lemma InitialIdsDistinct()
    ensures DistinctIds(InitialApps())
  {
  }

  /** Every registry entry starts closed, not minimized and at z-index 0. */
  lemma InitialAppsAtRest()
    ensures forall i :: 0 <= i < |InitialApps()| ==>
              !InitialApps()[i].isOpen && !InitialApps()[i].isMinimized && InitialApps()[i].zIndex == 0
  {
  }

  /** Every operation keeps the list's length, order and ids and leaves other ids' records alone. */
  lemma ApplyFrame(apps: seq<App>, op: Op)
    ensures SameIds(apps, Apply(apps, op))
    ensures OthersUnchanged(apps, Apply(apps, op), op.id)
  {
  }

  /** An operation on an id that is not in the list changes nothing. */
  lemma UnknownIdIsNoOp(apps: seq<App>, op: Op)
    requires !HasId(apps, op.id)
    ensures Apply(apps, op) == apps
  {
    var r := Apply(apps, op);
    ApplyFrame(apps, op);
    assert forall i :: 0 <= i < |apps| ==> r[i] == apps[i];
  }

  /** No operation lowers any record's z-index. */
  lemma ApplyNeverLowersZ(apps: seq<App>, op: Op, i: int)
    requires 0 <= i < |apps|
    ensures apps[i].zIndex <= Apply(apps, op)[i].zIndex
  {
    ApplyFrame(apps, op);
  }

  /** The highest z-index never decreases under any operation. */
  lemma ApplyNeverLowersHighest(apps: seq<App>, op: Op)
    ensures HighestZIndex(apps) <= HighestZIndex(Apply(apps, op))
  {
    var h := HighestZIndex(apps);
    if h != 0 {
      var i :| 0 <= i < |apps| && apps[i].zIndex == h;
      ApplyNeverLowersZ(apps, op, i);
    }
  }

  /** ... and so it never decreases along any sequence of operations. */
  lemma {:induction false} RunNeverLowersHighest(apps: seq<App>, ops: seq<Op>)
    ensures HighestZIndex(apps) <= HighestZIndex(Run(apps, ops))
    decreases |ops|
  {
    if ops != [] {
      ApplyNeverLowersHighest(apps, ops[0]);
      RunNeverLowersHighest(Apply(apps, ops[0]), ops[1..]);
    }
  }

  /** Open, restore and focus of a present id set the highest z-index to exactly one more. */
  lemma RaiseBumpsHighest(apps: seq<App>, op: Op)
    requires Raises(op) && HasId(apps, op.id)
    ensures HighestZIndex(Apply(apps, op)) == HighestZIndex(apps) + 1
  {
    var r := Apply(apps, op);
    var i :| 0 <= i < |apps| && apps[i].id == op.id;
    ApplyFrame(apps, op);
    HighestZIndexIs(r, HighestZIndex(apps) + 1);
  }

  /** The other four operations leave every z-index, and so the highest, as it was. */
  lemma NonRaiseKeepsHighest(apps: seq<App>, op: Op)
    requires !Raises(op)
    ensures forall i :: 0 <= i < |apps| ==> Apply(apps, op)[i].zIndex == apps[i].zIndex
    ensures HighestZIndex(Apply(apps, op)) == HighestZIndex(apps)
  {
    var r := Apply(apps, op);
    ApplyFrame(apps, op);
    assert forall i :: 0 <= i < |apps| ==> r[i].zIndex == apps[i].zIndex;
    HighestZIndexIs(r, HighestZIndex(apps));
  }

  /** Every operation keeps the store's invariant. */
  lemma ApplyPreservesWellFormed(apps: seq<App>, op: Op)
    requires WellFormed(apps)
    ensures WellFormed(Apply(apps, op))
  {
    var r := Apply(apps, op);
    ApplyFrame(apps, op);
    if Raises(op) {
      var h := HighestZIndex(apps);
      forall i, j | 0 <= i < j < |r| && 0 < r[i].zIndex
        ensures r[i].zIndex != r[j].zIndex
      {
        if apps[i].id == op.id {
          assert apps[j].id != op.id;
        } else if apps[j].id == op.id {
          assert r[i].zIndex <= h;
        }
      }
    } else {
      NonRaiseKeepsHighest(apps, op);
    }
  }

  lemma {:induction false} RunPreservesWellFormed(apps: seq<App>, ops: seq<Op>)
    requires WellFormed(apps)
    ensures WellFormed(Run(apps, ops))
    decreases |ops|
  {
    if ops != [] {
      ApplyPreservesWellFormed(apps, ops[0]);
      RunPreservesWellFormed(Apply(apps, ops[0]), ops[1..]);
    }
  }

  /** Closing and reopening a window brings it back with the geometry it had. */
  lemma CloseThenOpenKeepsGeometry(apps: seq<App>, id: string, i: int)
    requires 0 <= i < |apps| && apps[i].id == id
    ensures var r := Open(Close(apps, id), id);
            r[i].isOpen && !r[i].isMinimized && SameGeometry(r[i], apps[i]) && OnTop(r, i)
  {
  }

  /** Minimize then restore: not minimized again, same open flag and geometry, raised to the top. */
  lemma MinimizeThenRestore(apps: seq<App>, id: string, i: int)
    requires 0 <= i < |apps| && apps[i].id == id
    ensures var r := Restore(Minimize(apps, id), id);
            && !r[i].isMinimized && r[i].isOpen == apps[i].isOpen
            && SameGeometry(r[i], apps[i])
            && r[i].zIndex == HighestZIndex(apps) + 1 && OnTop(r, i)
  {
    NonRaiseKeepsHighest(apps, MinimizeOp(id));
  }

  /** Opening twice is opening once, except that the window is raised one step further. */
  lemma OpenTwice(apps: seq<App>, id: string)
    requires HasId(apps, id)
    ensures var once := Open(apps, id);
            var twice := Open(once, id);
            |twice| == |once| &&
            forall i :: 0 <= i < |once| ==>
              twice[i] == if once[i].id == id then once[i].(zIndex := once[i].zIndex + 1) else once[i]
  {
    RaiseBumpsHighest(apps, OpenOp(id));
  }

  /**
   * A closed window can carry `isMinimized`: neither `minimizeApp` nor
   * `closeApp` looks at the other flag.
   */
  lemma ClosedAndMinimizedIsReachable()
    ensures var r := Close(Minimize(Open(InitialApps(), "omne"), "omne"), "omne");
            WellFormed(r) && !r[0].isOpen && r[0].isMinimized
  {
    InitialAppsWellFormed();
    assert InitialApps()[0].id == "omne";
    OpenMinimizeClose(InitialApps(), 0);
  }

  /** Opening, minimizing and closing any record of a well-formed list leaves it closed but minimized. */
  lemma OpenMinimizeClose(apps: seq<App>, i: int)
    requires WellFormed(apps) && 0 <= i < |apps|
    ensures var id := apps[i].id;
            var r := Close(Minimize(Open(apps, id), id), id);
            WellFormed(r) && !r[i].isOpen && r[i].isMinimized
  {
    var id := apps[i].id;
    var a1 := Open(apps, id);
    ApplyPreservesWellFormed(apps, OpenOp(id));
    var a2 := Minimize(a1, id);
    ApplyPreservesWellFormed(a1, MinimizeOp(id));
    ApplyPreservesWellFormed(a2, CloseOp(id));
  }

  // ---------------------------------------------------------------------------
  // The provider
  // ---------------------------------------------------------------------------

  /** `AppProvider`: owns the list and replaces it on every operation. */
  class AppStore {
    var apps: seq<App>

    ghost predicate Valid()
      reads this
    {
      WellFormed(apps)
    }

    constructor ()
      ensures apps == InitialApps() && Valid()
    {
      apps := InitialApps();
      InitialAppsWellFormed();
    }

    method OpenApp(id: string)
      requires Valid()
      modifies this
      ensures Valid() && apps == Open(old(apps), id)
    {
      ApplyPreservesWellFormed(apps, OpenOp(id));
      apps := Open(apps, id);
    }

    method CloseApp(id: string)
      requires Valid()
      modifies this
      ensures Valid() && apps == Close(old(apps), id)
    {
      ApplyPreservesWellFormed(apps, CloseOp(id));
      apps := Close(apps, id);
    }

    method MinimizeApp(id: string)
      requires Valid()
      modifies this
      ensures Valid() && apps == Minimize(old(apps), id)
    {
      ApplyPreservesWellFormed(apps, MinimizeOp(id));
      apps := Minimize(apps, id);
    }

    method RestoreApp(id: string)
      requires Valid()
      modifies this
      ensures Valid() && apps == Restore(old(apps), id)
    {
      ApplyPreservesWellFormed(apps, RestoreOp(id));
      apps := Restore(apps, id);
    }

    method FocusApp(id: string)
      requires Valid()
      modifies this
      ensures Valid() && apps == Focus(old(apps), id)
    {
      ApplyPreservesWellFormed(apps, FocusOp(id));
      apps := Focus(apps, id);
    }

    method UpdateAppPosition(id: string, position: Point)
      requires Valid()
      modifies this
      ensures Valid() && apps == MoveTo(old(apps), id, position)
    {
      ApplyPreservesWellFormed(apps, MoveOp(id, position));
      apps := MoveTo(apps, id, position);
    }

    method UpdateAppSize(id: string, size: Size)
      requires Valid()
      modifies this
      ensures Valid() && apps == Resize(old(apps), id, size)
    {
      ApplyPreservesWellFormed(apps, ResizeOp(id, size));
      apps := Resize(apps, id, size);
    }
  }
}
