/**
  What a detail of the document browser lists, and in which order (backend services/document_browser_service.py), said
  of the units and edges themselves.
 */
module DetailContents {
  import opened Prelude
  import opened DocumentTree

  // -- the unit records --------------------------------------------------------------------

  /** The record of a unit is the last one with its id. */
  ghost predicate Recorded(s: Source, id: Id, u: Unit) {
    exists i | 0 <= i < |s.units| ::
      s.units[i] == u && u.id == id && forall j | i < j < |s.units| :: s.units[j].id != id
  }

  ghost predicate IsA(s: Source, id: Id, l: Label) {
    if id == s.document then l == Document else exists u :: Recorded(s, id, u) && u.kind == l
  }

  lemma {:induction false} UnitOfIsLast(units: seq<Unit>, id: Id) returns (i: nat)
    requires UnitOf(units, id).Some?
    ensures i < |units| && units[i] == UnitOf(units, id).value && forall j | i < j < |units| :: units[j].id != id
  {
    var init, last := units[..|units| - 1], units[|units| - 1];
    assert units == init + [last];
    if last.id == id {
      i := |units| - 1;
    } else {
      i := UnitOfIsLast(init, id);
      forall j | i < j < |units| ensures units[j].id != id { if j < |init| { assert units[j] == init[j]; } }
    }
  }

  lemma RecordedIs(s: Source, id: Id, u: Unit)
    ensures Recorded(s, id, u) <==> UnitOf(s.units, id) == Some(u)
  {
    if UnitOf(s.units, id).Some? { var i := UnitOfIsLast(s.units, id); }
    if i :| 0 <= i < |s.units| && s.units[i] == u && u.id == id
            && forall j | i < j < |s.units| :: s.units[j].id != id {
      assert Ids(s.units)[i] == id;
      var k := UnitOfIsLast(s.units, id);
      assert i == k;
    }
  }

  lemma LabelIs(s: Source, id: Id, l: Label)
    ensures IsA(s, id, l) <==> LabelOf(s, id) == l && (id == s.document || id in UnitIds(s))
  {
    forall u ensures Recorded(s, id, u) <==> UnitOf(s.units, id) == Some(u) { RecordedIs(s, id, u); }
    if id in UnitIds(s) { assert Recorded(s, id, UnitOf(s.units, id).value); }
  }

  // -- the chosen parent --------------------------------------------------------------------

  /** The kinds of unit that can hold others, outermost first. */
  const Containers: seq<Label> := [Appendix, Part, Chapter, Section, Subsection, Article, Clause]

  ghost predicate IsContainer(s: Source, id: Id) {
    id == s.document || exists l | l in Containers :: IsA(s, id, l)
  }

  /** `a` is an inner kind of container than `b`; the document is the outermost. */
  ghost predicate Inner(s: Source, a: Id, b: Id) {
    IsContainer(s, a)
    && (!IsContainer(s, b)
        || (a != s.document && b == s.document)
        || exists i, j | 0 <= i < j < |Containers| :: IsA(s, b, Containers[i]) && IsA(s, a, Containers[j]))
  }

  lemma ContainerRank(s: Source, id: Id)
    ensures IsContainer(s, id) <==> Rank(s, id) >= 0
    ensures forall i | 0 <= i < |Containers| :: IsA(s, id, Containers[i]) <==> Rank(s, id) == i + 1
  {
    forall l ensures IsA(s, id, l) <==> LabelOf(s, id) == l && (id == s.document || id in UnitIds(s)) {
      LabelIs(s, id, l);
    }
    if Rank(s, id) > 0 { assert IsA(s, id, LabelOf(s, id)) && LabelOf(s, id) == Containers[Rank(s, id) - 1]; }
  }

  lemma InnerIs(s: Source, a: Id, b: Id)
    ensures Inner(s, a, b) <==> Rank(s, a) > Rank(s, b)
  {
    ContainerRank(s, a);
    ContainerRank(s, b);
    if Rank(s, a) > Rank(s, b) > 0 {
      assert IsA(s, b, Containers[Rank(s, b) - 1]) && IsA(s, a, Containers[Rank(s, a) - 1]);
    }
  }

  /** Of the edges into a unit, the parent's is the first from an innermost container. */
  ghost predicate IsParent(s: Source, parent: Id, id: Id) {
    exists k | 0 <= k < |s.edges| ::
      && s.edges[k] == (parent, id)
      && forall i | 0 <= i < |s.edges| && s.edges[i].1 == id ::
           !Inner(s, s.edges[i].0, parent) && (i < k ==> Inner(s, parent, s.edges[i].0))
  }

  lemma ParentIs(s: Source, parent: Id, id: Id)
    ensures ChosenParent(s, id) == Some(parent) <==> IsParent(s, parent, id)
  {
    forall a, b ensures Inner(s, a, b) <==> Rank(s, a) > Rank(s, b) { InnerIs(s, a, b); }
    ParentIsBest(s, s.edges, id);
    if k :| 0 <= k < |s.edges| && s.edges[k] == (parent, id)
            && forall i | 0 <= i < |s.edges| && s.edges[i].1 == id ::
                 !Inner(s, s.edges[i].0, parent) && (i < k ==> Inner(s, parent, s.edges[i].0)) {
      assert Targets(s.edges)[k] == id;
    }
  }

  // -- the lists of a detail ------------------------------------------------------------------

  /** The kinds a detail has lists for, in the order of its lists, and the details that have them. */
  const Listed: seq<Label> := [Part, Chapter, Article, Section, Subsection, Clause, Point]

  ghost predicate HasList(owner: Label, l: Label) {
    match l
    case Part => owner == Document || owner == Appendix
    case Chapter => owner == Document || owner == Appendix || owner == Part
    case Article =>
      owner == Document || owner == Appendix || owner == Chapter || owner == Section || owner == Subsection
    case Section => owner == Chapter
    case Subsection => owner == Section
    case Clause => owner == Article
    case Point => owner == Clause
    case _ => false
  }

  ghost predicate Lists(s: Source, owner: Id, x: Id) {
    IsParent(s, owner, x) && exists l, m :: IsA(s, owner, l) && IsA(s, x, m) && HasList(l, m)
  }

  /** `a` occurs before `b` does. */
  ghost predicate Earlier(ids: seq<Id>, a: Id, b: Id) {
    exists i | 0 <= i < |ids| :: ids[i] == a && forall j | 0 <= j <= i :: ids[j] != b
  }

  /** The document and the appendices list units as they were returned, other details as the edges name them. */
  ghost function Pool(s: Source, owner: Id): seq<Id> {
    if IsA(s, owner, Document) || IsA(s, owner, Appendix) then Ids(s.units) else Targets(s.edges)
  }

  /** By kind, then by number, then as they come; Points only as they come. */
  ghost predicate Before(s: Source, le: (string, string) -> bool, owner: Id, a: Tree, b: Tree) {
    exists i, j | 0 <= i <= j < |Listed| :: IsA(s, a.id, Listed[i]) && IsA(s, b.id, Listed[j])
      && (i == j ==> if Listed[i] == Point then Earlier(Pool(s, owner), a.id, b.id)
                     else ByNumberThen(le, Pool(s, owner), a, b))
  }

  ghost predicate ByNumberThen(le: (string, string) -> bool, pool: seq<Id>, a: Tree, b: Tree) {
    le(a.number, b.number) && (le(b.number, a.number) ==> Earlier(pool, a.id, b.id))
  }

  /** The tree shows a unit's number and, in order, the details of exactly the units it lists. */
  ghost predicate Shows(s: Source, le: (string, string) -> bool, t: Tree) {
    && (t.id == s.document || exists u :: Recorded(s, t.id, u) && t.number == u.number)
    && (forall x :: (exists i | 0 <= i < |t.below| :: t.below[i].id == x) <==> Lists(s, t.id, x))
    && (forall i, j | 0 <= i < j < |t.below| :: Before(s, le, t.id, t.below[i], t.below[j]))
    && forall i | 0 <= i < |t.below| :: Shows(s, le, t.below[i])
  }

  ghost predicate TotalNumbers(le: (string, string) -> bool) {
    (forall a, b :: le(a, b) || le(b, a)) && forall a, b, c :: le(a, b) && le(b, c) ==> le(a, c)
  }

  // -- order ----------------------------------------------------------------------------------

  ghost predicate AsTheyCome(pool: seq<Id>, ids: seq<Id>) {
    forall i, j | 0 <= i < j < |ids| :: Earlier(pool, ids[i], ids[j])
  }

  lemma UniqueComes(pool: seq<Id>)
    ensures AsTheyCome(pool, Unique(pool))
  {
    var positions := UniqueIs(pool);
    forall i, j | 0 <= i < j < |positions| ensures Earlier(pool, Unique(pool)[i], Unique(pool)[j]) {
      assert positions[i] < positions[j] && positions[j] in positions;
      assert forall k | 0 <= k <= positions[i] :: pool[k] != pool[positions[j]];
    }
  }

  lemma {:induction false} OfParentComes(s: Source, pool: seq<Id>, ids: seq<Id>, owner: Id)
    requires AsTheyCome(pool, ids)
    ensures AsTheyCome(pool, OfParent(s, ids, owner))
  {
    if ids != [] {
      var init, last := ids[..|ids| - 1], ids[|ids| - 1];
      assert ids == init + [last];
      OfParentComes(s, pool, init, owner);
      ComesLast(pool, init, last, OfParent(s, init, owner));
    }
  }

  lemma {:induction false} WithLabelComes(s: Source, pool: seq<Id>, ids: seq<Id>, l: Label)
    requires AsTheyCome(pool, ids)
    ensures AsTheyCome(pool, WithLabel(s, ids, l))
  {
    if ids != [] {
      var init, last := ids[..|ids| - 1], ids[|ids| - 1];
      assert ids == init + [last];
      WithLabelComes(s, pool, init, l);
      ComesLast(pool, init, last, WithLabel(s, init, l));
    }
  }

  lemma ComesLast(pool: seq<Id>, init: seq<Id>, last: Id, kept: seq<Id>)
    requires AsTheyCome(pool, init + [last]) && AsTheyCome(pool, kept) && forall x | x in kept :: x in init
    ensures AsTheyCome(pool, kept + [last])
  {
    forall i | 0 <= i < |kept| ensures Earlier(pool, kept[i], last) {
      assert kept[i] in init;
      var k :| 0 <= k < |init| && init[k] == kept[i];
      assert Earlier(pool, (init + [last])[k], (init + [last])[|init|]);
    }
  }

  lemma MembersCome(s: Source, owner: Id, l: Label)
    requires owner == s.document || owner in UnitIds(s)
    ensures AsTheyCome(Pool(s, owner), Members(s, owner, l))
  {
    LabelIs(s, owner, Document);
    LabelIs(s, owner, Appendix);
    var pool := Pool(s, owner);
    UniqueComes(pool);
    OfParentComes(s, pool, Unique(pool), owner);
    WithLabelComes(s, pool, OfParent(s, Unique(pool), owner), l);
  }

  lemma {:induction false} BuildAllIs(s: Source, le: (string, string) -> bool, ids: seq<Id>, l: Label)
    requires forall id | id in ids :: LabelOf(s, id) == l
    ensures |BuildAll(s, le, ids, l)| == |ids|
    ensures forall i | 0 <= i < |ids| :: BuildAll(s, le, ids, l)[i] == Build(s, le, ids[i])
  {
    if ids != [] {
      var init := ids[..|ids| - 1];
      assert ids == init + [ids[|ids| - 1]];
      BuildAllIs(s, le, init, l);
    }
  }

  ghost predicate AreDetails(s: Source, le: (string, string) -> bool, ids: seq<Id>, ts: seq<Tree>) {
    && (forall t | t in ts :: t.id in ids && t == Build(s, le, t.id))
    && forall id | id in ids :: Build(s, le, id) in ts
  }

  ghost predicate TreesCome(pool: seq<Id>, ts: seq<Tree>) {
    forall i, j | 0 <= i < j < |ts| :: Earlier(pool, ts[i].id, ts[j].id)
  }

  ghost predicate NumbersClimb(le: (string, string) -> bool, pool: seq<Id>, ts: seq<Tree>) {
    forall i, j | 0 <= i < j < |ts| :: ByNumberThen(le, pool, ts[i], ts[j])
  }

  ghost predicate InSlotOrder(le: (string, string) -> bool, pool: seq<Id>, l: Label, ts: seq<Tree>) {
    if l == Point then TreesCome(pool, ts) else NumbersClimb(le, pool, ts)
  }

  lemma ItemsAre(s: Source, le: (string, string) -> bool, pool: seq<Id>, ids: seq<Id>, l: Label)
    requires AsTheyCome(pool, ids) && forall id | id in ids :: LabelOf(s, id) == l
    ensures AreDetails(s, le, ids, BuildAll(s, le, ids, l))
    ensures TreesCome(pool, BuildAll(s, le, ids, l))
  {
    BuildAllIs(s, le, ids, l);
    forall id | id in ids ensures Build(s, le, id) in BuildAll(s, le, ids, l) {
      var i :| 0 <= i < |ids| && ids[i] == id;
      assert BuildAll(s, le, ids, l)[i] == Build(s, le, id);
    }
  }

  lemma SortedInOrder(le: (string, string) -> bool, pool: seq<Id>, items: seq<Tree>)
    requires TotalNumbers(le) && TreesCome(pool, items)
    ensures NumbersClimb(le, pool, Sorted(items, le))
    ensures forall t :: t in Sorted(items, le) <==> t in items
  {
    var earlier := (a: Tree, b: Tree) => Earlier(pool, a.id, b.id);
    assert TotalPreorder(ByNumber(le)) by {
      forall a: Tree, b: Tree ensures ByNumber(le)(a, b) || ByNumber(le)(b, a) {
        assert le(a.number, b.number) || le(b.number, a.number);
      }
      forall a: Tree, b: Tree, c: Tree | ByNumber(le)(a, b) && ByNumber(le)(b, c) ensures ByNumber(le)(a, c) {
        assert le(a.number, b.number) && le(b.number, c.number);
      }
    }
    forall i, j | 0 <= i < j < |items| ensures earlier(items[i], items[j]) {}
    SortByStable(items, ByNumber(le), earlier);
    SortByMembers(items, ByNumber(le));
    var ts := Sorted(items, le);
    forall i, j | 0 <= i < j < |ts| ensures ByNumberThen(le, pool, ts[i], ts[j]) {
      assert ByNumber(le)(ts[i], ts[j]);
      assert ByNumber(le)(ts[j], ts[i]) ==> earlier(ts[i], ts[j]);
    }
  }

  lemma SortedItems(s: Source, le: (string, string) -> bool, pool: seq<Id>, ids: seq<Id>, l: Label)
    requires TotalNumbers(le) && AsTheyCome(pool, ids) && forall id | id in ids :: LabelOf(s, id) == l
    ensures var ts := Sorted(BuildAll(s, le, ids, l), le);
      AreDetails(s, le, ids, ts) && NumbersClimb(le, pool, ts)
  {
    ItemsAre(s, le, pool, ids, l);
    SortedInOrder(le, pool, BuildAll(s, le, ids, l));
    SameDetails(s, le, ids, BuildAll(s, le, ids, l), Sorted(BuildAll(s, le, ids, l), le));
  }

  lemma SameDetails(s: Source, le: (string, string) -> bool, ids: seq<Id>, ts: seq<Tree>, us: seq<Tree>)
    requires AreDetails(s, le, ids, ts) && forall t :: t in us <==> t in ts
    ensures AreDetails(s, le, ids, us)
  {}

  lemma SlotShows(s: Source, le: (string, string) -> bool, owner: Id, l: Label)
    requires TotalNumbers(le) && (owner == s.document || owner in UnitIds(s))
    ensures InSlotOrder(le, Pool(s, owner), l, SlotItems(s, le, owner, l))
    ensures AreDetails(s, le, Members(s, owner, l), SlotItems(s, le, owner, l))
  {
    MembersCome(s, owner, l);
    ItemsShow(s, le, Pool(s, owner), Members(s, owner, l), l, SlotItems(s, le, owner, l));
  }

  lemma ItemsShow(s: Source, le: (string, string) -> bool, pool: seq<Id>, ids: seq<Id>, l: Label, shown: seq<Tree>)
    requires TotalNumbers(le) && AsTheyCome(pool, ids) && forall id | id in ids :: LabelOf(s, id) == l
    requires var items := BuildAll(s, le, ids, l); shown == if l == Point then items else Sorted(items, le)
    ensures InSlotOrder(le, pool, l, shown) && AreDetails(s, le, ids, shown)
  {
    ItemsAre(s, le, pool, ids, l);
    SortedItems(s, le, pool, ids, l);
  }

  // -- details -------------------------------------------------------------------------------

  ghost function PlaceOf(l: Label): (i: nat)
    ensures l in Listed <==> i < |Listed| && Listed[i] == l
  {
    match l
    case Part => 0
    case Chapter => 1
    case Article => 2
    case Section => 3
    case Subsection => 4
    case Clause => 5
    case Point => 6
    case _ => 7
  }

  lemma SlotsAreLists(l: Label)
    ensures forall m :: m in Slots(l) <==> HasList(l, m)
    ensures forall m | m in Slots(l) :: m in Listed
    ensures forall i, j | 0 <= i < j < |Slots(l)| :: PlaceOf(Slots(l)[i]) < PlaceOf(Slots(l)[j])
  {}

  /** The lists of the kinds so far. */
  ghost predicate SlotsShown(s: Source, le: (string, string) -> bool, owner: Id, slots: seq<Label>, ts: seq<Tree>) {
    && (forall t | t in ts :: t == Build(s, le, t.id) && LabelOf(s, t.id) in slots
                              && t.id in Members(s, owner, LabelOf(s, t.id)))
    && (forall l, id | l in slots && id in Members(s, owner, l) :: Build(s, le, id) in ts)
    && forall i, j | 0 <= i < j < |ts| :: Before(s, le, owner, ts[i], ts[j])
  }

  lemma {:induction false} SlotsShow(s: Source, le: (string, string) -> bool, owner: Id, slots: seq<Label>)
    requires TotalNumbers(le) && (owner == s.document || owner in UnitIds(s))
    requires forall l | l in slots :: l in Slots(LabelOf(s, owner))
    requires forall i, j | 0 <= i < j < |slots| :: PlaceOf(slots[i]) < PlaceOf(slots[j])
    ensures SlotsShown(s, le, owner, slots, BuildSlots(s, le, owner, slots))
  {
    if slots != [] {
      var init, l := slots[..|slots| - 1], slots[|slots| - 1];
      assert slots == init + [l];
      SlotsShow(s, le, owner, init);
      SlotShows(s, le, owner, l);
      SlotAdded(s, le, owner, init, l, BuildSlots(s, le, owner, init));
    }
  }

  lemma SlotAdded(s: Source, le: (string, string) -> bool, owner: Id, init: seq<Label>, l: Label, ts: seq<Tree>)
    requires SlotsShown(s, le, owner, init, ts) && l in Slots(LabelOf(s, owner))
    requires forall m | m in init :: m in Slots(LabelOf(s, owner)) && PlaceOf(m) < PlaceOf(l)
    requires InSlotOrder(le, Pool(s, owner), l, SlotItems(s, le, owner, l))
    requires AreDetails(s, le, Members(s, owner, l), SlotItems(s, le, owner, l))
    ensures SlotsShown(s, le, owner, init + [l], ts + SlotItems(s, le, owner, l))
  {
    var more := SlotItems(s, le, owner, l);
    var all := ts + more;
    forall i, j | 0 <= i < j < |all| ensures Before(s, le, owner, all[i], all[j]) {
      if j < |ts| {
        assert all[i] == ts[i] && all[j] == ts[j];
      } else {
        assert all[j] in more;
        if i < |ts| {
          assert all[i] in ts;
          KindsApart(s, le, owner, LabelOf(s, all[i].id), l, all[i], all[j]);
        } else {
          assert all[i] in more;
          WithinKind(s, le, owner, l, all[i], all[j]);
        }
      }
    }
  }

  lemma KindsApart(s: Source, le: (string, string) -> bool, owner: Id, k: Label, l: Label, a: Tree, b: Tree)
    requires k in Slots(LabelOf(s, owner)) && l in Slots(LabelOf(s, owner)) && PlaceOf(k) < PlaceOf(l)
    requires a.id in Members(s, owner, k) && b.id in Members(s, owner, l)
    ensures Before(s, le, owner, a, b)
  {
    MemberIsA(s, owner, k, a.id);
    MemberIsA(s, owner, l, b.id);
  }

  lemma WithinKind(s: Source, le: (string, string) -> bool, owner: Id, l: Label, a: Tree, b: Tree)
    requires l in Slots(LabelOf(s, owner)) && a.id in Members(s, owner, l) && b.id in Members(s, owner, l)
    requires if l == Point then Earlier(Pool(s, owner), a.id, b.id) else ByNumberThen(le, Pool(s, owner), a, b)
    ensures Before(s, le, owner, a, b)
  {
    MemberIsA(s, owner, l, a.id);
    MemberIsA(s, owner, l, b.id);
  }

  lemma MemberIsA(s: Source, owner: Id, l: Label, id: Id)
    requires l in Slots(LabelOf(s, owner)) && id in Members(s, owner, l)
    ensures PlaceOf(l) < |Listed| && IsA(s, id, Listed[PlaceOf(l)])
  {
    SlotsAreLists(LabelOf(s, owner));
    MembersAre(s, owner, l);
    LabelIs(s, id, l);
  }

  lemma ListsAre(s: Source, owner: Id, x: Id)
    requires owner == s.document || owner in UnitIds(s)
    ensures Lists(s, owner, x)
            <==> LabelOf(s, x) in Slots(LabelOf(s, owner)) && x in Members(s, owner, LabelOf(s, x))
  {
    var l, m := LabelOf(s, owner), LabelOf(s, x);
    ParentIs(s, owner, x);
    SlotsAreLists(l);
    forall id, k ensures IsA(s, id, k) <==> LabelOf(s, id) == k && (id == s.document || id in UnitIds(s)) {
      LabelIs(s, id, k);
    }
    if m in Slots(l) { MembersAre(s, owner, m); }
  }

  /** A detail holds the details of exactly the units it lists, in order. */
  lemma {:induction false} DetailShows(s: Source, le: (string, string) -> bool, id: Id)
    requires TotalNumbers(le) && (id == s.document || id in UnitIds(s))
    ensures Shows(s, le, Build(s, le, id)) && Build(s, le, id).id == id
    decreases 9 - Level(LabelOf(s, id))
  {
    var t := Build(s, le, id);
    var slots := Slots(LabelOf(s, id));
    SlotsAreLists(LabelOf(s, id));
    SlotsShow(s, le, id, slots);
    if id != s.document { RecordedIs(s, id, UnitOf(s.units, id).value); }
    forall i | 0 <= i < |t.below| ensures Shows(s, le, t.below[i]) {
      assert t.below[i] in t.below;
      var l := LabelOf(s, t.below[i].id);
      SlotsDescend(LabelOf(s, id), l);
      MembersAre(s, id, l);
      DetailShows(s, le, t.below[i].id);
    }
    forall x ensures (exists i | 0 <= i < |t.below| :: t.below[i].id == x) <==> Lists(s, id, x) {
      ListsAre(s, id, x);
      if Lists(s, id, x) { assert Build(s, le, x) in t.below; }
    }
  }

  /** The document's own lists, and the list of all its appendices. */
  lemma DocumentShows(s: Source, le: (string, string) -> bool)
    requires TotalNumbers(le)
    ensures var d := DocumentDetail(s, le);
      && (exists t: Tree :: t.id == s.document && Shows(s, le, t) && d.owned == t.below)
      && (forall x :: (exists i | 0 <= i < |d.appendices| :: d.appendices[i].id == x) <==> IsA(s, x, Appendix))
      && NumbersClimb(le, Ids(s.units), d.appendices)
      && forall i | 0 <= i < |d.appendices| :: Shows(s, le, d.appendices[i])
  {
    DetailShows(s, le, s.document);
    var ids := WithLabel(s, UnitIds(s), Appendix);
    UniqueComes(Ids(s.units));
    WithLabelComes(s, Ids(s.units), UnitIds(s), Appendix);
    SortedItems(s, le, Ids(s.units), ids, Appendix);
    AppendicesShow(s, le, ids, DocumentDetail(s, le).appendices);
  }

  lemma AppendicesShow(s: Source, le: (string, string) -> bool, ids: seq<Id>, shown: seq<Tree>)
    requires TotalNumbers(le) && AreDetails(s, le, ids, shown)
    requires forall x :: x in ids <==> x in UnitIds(s) && LabelOf(s, x) == Appendix
    ensures forall x :: (exists i | 0 <= i < |shown| :: shown[i].id == x) <==> IsA(s, x, Appendix)
    ensures forall i | 0 <= i < |shown| :: Shows(s, le, shown[i])
  {
    forall x ensures (exists i | 0 <= i < |shown| :: shown[i].id == x) <==> IsA(s, x, Appendix) {
      LabelIs(s, x, Appendix);
      if IsA(s, x, Appendix) { assert Build(s, le, x) in shown; }
    }
    forall i | 0 <= i < |shown| ensures Shows(s, le, shown[i]) {
      assert shown[i] in shown;
      DetailShows(s, le, shown[i].id);
    }
  }

  /**
    An Article that a Section holds, and no unit further in, is shown in that Section and in no other detail, whatever
    Chapter, Part, Appendix or document holds it too.
   */
  lemma ArticleOfSection(s: Source, le: (string, string) -> bool, section: Id, article: Id)
    requires TotalNumbers(le) && IsA(s, section, Section) && IsA(s, article, Article)
    requires exists k | 0 <= k < |s.edges| :: s.edges[k] == (section, article)
    requires forall k, l | 0 <= k < |s.edges| && s.edges[k].1 == article && s.edges[k].0 != section ::
      IsA(s, s.edges[k].0, l) ==> l != Section && l != Subsection && l != Article && l != Clause
    ensures exists i | 0 <= i < |Build(s, le, section).below| :: Build(s, le, section).below[i].id == article
    ensures forall owner: Id, i | (owner == s.document || owner in UnitIds(s)) && owner != section
      && 0 <= i < |Build(s, le, owner).below| :: Build(s, le, owner).below[i].id != article
  {
    SectionIsParent(s, section, article);
    LabelIs(s, section, Section);
    DetailShows(s, le, section);
    assert HasList(Section, Article) && Lists(s, section, article);
    forall owner: Id, i | (owner == s.document || owner in UnitIds(s)) && owner != section
      && 0 <= i < |Build(s, le, owner).below|
      ensures Build(s, le, owner).below[i].id != article
    {
      NotShownBy(s, le, owner, section, article);
    }
  }

  lemma NotShownBy(s: Source, le: (string, string) -> bool, owner: Id, parent: Id, id: Id)
    requires TotalNumbers(le) && (owner == s.document || owner in UnitIds(s))
    requires ChosenParent(s, id) == Some(parent) && parent != owner
    ensures forall i | 0 <= i < |Build(s, le, owner).below| :: Build(s, le, owner).below[i].id != id
  {
    DetailShows(s, le, owner);
    ParentIs(s, owner, id);
    AbsentFrom(s, le, Build(s, le, owner), id);
  }

  lemma AbsentFrom(s: Source, le: (string, string) -> bool, t: Tree, id: Id)
    requires Shows(s, le, t) && !IsParent(s, t.id, id)
    ensures forall i | 0 <= i < |t.below| :: t.below[i].id != id
  {
    assert !Lists(s, t.id, id);
    assert !(exists i | 0 <= i < |t.below| :: t.below[i].id == id);
  }

  lemma SectionIsParent(s: Source, section: Id, article: Id)
    requires IsA(s, section, Section) && exists k | 0 <= k < |s.edges| :: s.edges[k] == (section, article)
    requires forall k, l | 0 <= k < |s.edges| && s.edges[k].1 == article && s.edges[k].0 != section ::
      IsA(s, s.edges[k].0, l) ==> l != Section && l != Subsection && l != Article && l != Clause
    ensures ChosenParent(s, article) == Some(section) && IsParent(s, section, article)
  {
    var k :| 0 <= k < |s.edges| && s.edges[k] == (section, article);
    assert Targets(s.edges)[k] == article;
    ParentIsBest(s, s.edges, article);
    var p := ChosenParent(s, article).value;
    var m :| 0 <= m < |s.edges| && s.edges[m] == (p, article);
    assert IsA(s, section, Containers[3]);
    ContainerRank(s, section);
    if p != section { OutsideSections(s, p); }
    ParentIs(s, section, article);
  }

  lemma OutsideSections(s: Source, id: Id)
    requires forall l | IsA(s, id, l) :: l != Section && l != Subsection && l != Article && l != Clause
    ensures Rank(s, id) < 4
  {
    LabelIs(s, id, LabelOf(s, id));
  }
}
