/**
 * The home page's scroll tracking: sections register their element under a
 * name, and on every scroll the active section becomes the registered one
 * whose middle is nearest to the middle of the viewport ("home" when none is).
 */
module HomePage {
  import opened Options

  /** The two layout numbers the page reads from a section's element. */
  datatype Section = Section(offsetTop: int, offsetHeight: int)

  /** One entry of the section dictionary; `element` is `None` for a null reference. */
  datatype Entry = Entry(name: string, element: Option<Section>)

  /** The section chosen when no section is registered. */
  const DefaultSection := "home"

  function Abs(x: int): nat {
    if x < 0 then -x else x
  }

  /**
   * Twice the distance from the viewport's middle to the section's middle,
   * given twice the viewport middle `centre2` (`2 * scrollY + innerHeight`);
   * doubling keeps the halves integral and does not change any comparison.
   */
  function Distance2(centre2: int, s: Section): (d: nat)
    ensures d == centre2 - (2 * s.offsetTop + s.offsetHeight) || d == (2 * s.offsetTop + s.offsetHeight) - centre2
  {
    Abs(centre2 - (2 * s.offsetTop + s.offsetHeight))
  }

  predicate Candidate(entries: seq<Entry>, k: int) {
    0 <= k < |entries| && entries[k].element.Some?
  }

  /**
   * Entry `k` is the one the scroll handler picks: a non-null entry at least as
   * near as every other non-null one and strictly nearer than every earlier one
   * (the comparison is a strict `<`, so the earliest of equally near sections wins).
   */
  ghost predicate ChosenAt(entries: seq<Entry>, centre2: int, k: int) {
    && Candidate(entries, k)
    && (forall j :: 0 <= j < |entries| && Candidate(entries, j) ==>
          Distance2(centre2, entries[k].element.value) <= Distance2(centre2, entries[j].element.value))
    && (forall j :: 0 <= j < k && Candidate(entries, j) ==>
          Distance2(centre2, entries[k].element.value) < Distance2(centre2, entries[j].element.value))
  }

  /** At most one entry is chosen. */
  lemma ChosenIsUnique(entries: seq<Entry>, centre2: int, k1: int, k2: int)
    requires ChosenAt(entries, centre2, k1) && ChosenAt(entries, centre2, k2)
    ensures k1 == k2
  {
  }

  /**
   * The loop of `handleScroll` over the dictionary's entries in order: skips
   * null references and keeps the strictly nearest section seen so far.
   */
  method NearestSection(entries: seq<Entry>, centre2: int) returns (section: string)
    ensures (forall k :: !Candidate(entries, k)) ==> section == DefaultSection
    ensures (exists k :: Candidate(entries, k)) ==>
              exists k :: ChosenAt(entries, centre2, k) && section == entries[k].name
  {
    section := DefaultSection;
    var minDistance: Option<nat> := None;
    ghost var at := -1;
    var i := 0;
    while i < |entries|
      invariant 0 <= i <= |entries|
      invariant minDistance.None? ==> section == DefaultSection
      invariant minDistance.None? ==> forall j :: 0 <= j < i ==> !Candidate(entries, j)
      invariant minDistance.Some? ==>
                  && 0 <= at < i && Candidate(entries, at) && section == entries[at].name
                  && minDistance.value == Distance2(centre2, entries[at].element.value)
                  && (forall j :: 0 <= j < i && Candidate(entries, j) ==>
                        minDistance.value <= Distance2(centre2, entries[j].element.value))
                  && (forall j :: 0 <= j < at && Candidate(entries, j) ==>
                        minDistance.value < Distance2(centre2, entries[j].element.value))
    {
      var entry := entries[i];
      if entry.element.Some? {
        var distance := Distance2(centre2, entry.element.value);
        if minDistance.None? || distance < minDistance.value {
          minDistance := Some(distance);
          section := entry.name;
          at := i;
        }
      }
      i := i + 1;
    }
    if minDistance.Some? {
      assert ChosenAt(entries, centre2, at);
    }
  }

  // ---------------------------------------------------------------------------
  // The section dictionary
  // ---------------------------------------------------------------------------

  predicate HasName(entries: seq<Entry>, name: string) {
    exists k :: 0 <= k < |entries| && entries[k].name == name
  }

  predicate DistinctNames(entries: seq<Entry>) {
    forall i, j :: 0 <= i < j < |entries| ==> entries[i].name != entries[j].name
  }

  /** The position of `name` in the iteration order, or -1 when it is not a key. */
  function IndexOfName(entries: seq<Entry>, name: string): (k: int)
    ensures -1 <= k < |entries|
    ensures k == -1 <==> !HasName(entries, name)
    ensures 0 <= k ==> entries[k].name == name && forall j :: 0 <= j < k ==> entries[j].name != name
  {
    if entries == [] then -1
    else if entries[0].name == name then 0
    else
      var k := IndexOfName(entries[1..], name);
      assert !HasName(entries[1..], name) ==> !HasName(entries, name) by {
        if HasName(entries, name) {
          var j :| 0 <= j < |entries| && entries[j].name == name;
          assert entries[1..][j - 1].name == name;
        }
      }
      if k == -1 then -1 else k + 1
  }

  /** Two lists with the same keys at the same positions find a key at the same position. */
  lemma SameNamesSameIndex(a: seq<Entry>, b: seq<Entry>, name: string)
    requires |a| <= |b|
    requires forall k :: 0 <= k < |a| ==> a[k].name == b[k].name
    requires forall k :: |a| <= k < |b| ==> b[k].name != name
    ensures IndexOfName(a, name) == IndexOfName(b, name)
  {
  }

  /** The element stored under `name`, if any. */
  function Lookup(entries: seq<Entry>, name: string): (r: Option<Section>)
    ensures !HasName(entries, name) ==> r.None?
    ensures HasName(entries, name) ==> r == entries[IndexOfName(entries, name)].element
    ensures r.Some? ==> exists k :: 0 <= k < |entries| && entries[k] == Entry(name, r)
  {
    var k := IndexOfName(entries, name);
    if k == -1 then None else entries[k].element
  }

  /**
   * Writing an element under a name in the section dictionary: an existing
   * key keeps its place in the iteration order and gets the new element; a
   * new key goes last.
   */
  function Put(entries: seq<Entry>, name: string, s: Section): (r: seq<Entry>)
    ensures |r| == if HasName(entries, name) then |entries| else |entries| + 1
    ensures forall k :: 0 <= k < |entries| ==> r[k].name == entries[k].name
    ensures forall k :: 0 <= k < |entries| && entries[k].name != name ==> r[k] == entries[k]
    ensures HasName(entries, name) ==> r[IndexOfName(entries, name)] == Entry(name, Some(s))
    ensures !HasName(entries, name) ==> r[|entries|] == Entry(name, Some(s))
    ensures forall k :: 0 <= k < |r| ==> r[k] in entries || r[k] == Entry(name, Some(s))
  {
    var k := IndexOfName(entries, name);
    if k == -1 then entries + [Entry(name, Some(s))] else entries[k := Entry(name, Some(s))]
  }

  /** After a write, looking the name up gives the new element and every other name gives what it gave before. */
  lemma PutLookup(entries: seq<Entry>, name: string, s: Section)
    ensures Lookup(Put(entries, name, s), name) == Some(s)
    ensures forall other :: other != name ==> Lookup(Put(entries, name, s), other) == Lookup(entries, other)
  {
    var r := Put(entries, name, s);
    forall other | other != name
      ensures Lookup(r, other) == Lookup(entries, other)
    {
      SameNamesSameIndex(entries, r, other);
    }
  }

  /** A write keeps the keys distinct. */
  lemma PutKeepsDistinct(entries: seq<Entry>, name: string, s: Section)
    requires DistinctNames(entries)
    ensures DistinctNames(Put(entries, name, s))
  {
  }

  /** `registerSection`: a null reference is not stored; anything else is written under its name. */
  function Register(entries: seq<Entry>, name: string, element: Option<Section>): (r: seq<Entry>)
    ensures element.None? ==> r == entries
    ensures element.Some? ==> r == Put(entries, name, element.value)
    ensures element.Some? ==> Lookup(r, name) == element
    ensures forall other :: other != name ==> Lookup(r, other) == Lookup(entries, other)
    ensures DistinctNames(entries) ==> DistinctNames(r)
  {
    match element
    case None => entries
    case Some(s) =>
      PutLookup(entries, name, s);
      if DistinctNames(entries) then PutKeepsDistinct(entries, name, s); Put(entries, name, s)
      else Put(entries, name, s)
  }

  /** Every entry the page stores holds an element. */
  predicate NoNulls(entries: seq<Entry>) {
    forall k :: 0 <= k < |entries| ==> entries[k].element.Some?
  }

  /** Registering never stores a null reference. */
  lemma RegisterStoresNoNulls(entries: seq<Entry>, name: string, element: Option<Section>)
    requires NoNulls(entries)
    ensures NoNulls(Register(entries, name, element))
  {
    if element.Some? {
      var r := Register(entries, name, element);
      forall k | 0 <= k < |r|
        ensures r[k].element.Some?
      {
        assert r[k] in entries || r[k] == Entry(name, element);
      }
    }
  }

  /** Re-registering a name overwrites its element and changes nothing else. */
  lemma RegisterTwiceOverwrites(entries: seq<Entry>, name: string, a: Section, b: Section)
    ensures Register(Register(entries, name, Some(a)), name, Some(b)) == Register(entries, name, Some(b))
  {
    var k := IndexOfName(entries, name);
    var once := Put(entries, name, a);
    if k == -1 {
      assert once == entries + [Entry(name, Some(a))];
      assert IndexOfName(once, name) == |entries|;
      assert once[|entries| := Entry(name, Some(b))] == entries + [Entry(name, Some(b))];
    } else {
      assert once == entries[k := Entry(name, Some(a))];
      SameNamesSameIndex(entries, once, name);
      assert once[k := Entry(name, Some(b))] == entries[k := Entry(name, Some(b))];
    }
  }

  // ---------------------------------------------------------------------------
  // The page component
  // ---------------------------------------------------------------------------

  /** `Home`: the section dictionary (a ref the page mutates in place) and the active section. */
  class SectionTracker {
    var sections: seq<Entry>
    var activeSection: string

    /** Keys are distinct and no null reference is stored. */
    ghost predicate Valid()
      reads this
    {
      DistinctNames(sections) && NoNulls(sections)
    }

    constructor ()
      ensures sections == [] && activeSection == DefaultSection && Valid()
    {
      sections := [];
      activeSection := DefaultSection;
    }

    /** `registerSection(name, element)`: stores a non-null element under its name. */
    method RegisterSection(name: string, element: Option<Section>)
      requires Valid()
      modifies this
      ensures Valid() && activeSection == old(activeSection)
      ensures sections == Register(old(sections), name, element)
    {
      RegisterStoresNoNulls(sections, name, element);
      sections := Register(sections, name, element);
    }

    /** `handleScroll`, given the scroll offset and the viewport height. */
    method HandleScroll(scrollY: int, innerHeight: int)
      requires Valid()
      modifies this
      ensures Valid() && sections == old(sections)
      ensures sections == [] ==> activeSection == DefaultSection
      ensures sections != [] ==>
                exists k :: ChosenAt(sections, 2 * scrollY + innerHeight, k) && activeSection == sections[k].name
    {
      activeSection := NearestSection(sections, 2 * scrollY + innerHeight);
      if sections != [] {
        assert Candidate(sections, 0);
      }
    }
  }
}
