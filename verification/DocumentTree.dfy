/**
  The document tree of the browser (backend services/document_browser_service.py): one parent per unit, one place per
  unit.
 */
module DocumentTree {
  import opened Prelude

  type Id = string

  datatype Label = Document | Appendix | Part | Chapter | Section | Subsection | Article | Clause | Point
    | Other(name: string)

  datatype Unit = Unit(id: Id, kind: Label, number: string)

  /** Units as the query returns them, possibly repeated, and the CONTAINS edges between them. */
  datatype Source = Source(document: Id, units: seq<Unit>, edges: seq<(Id, Id)>)

  datatype Tree = Tree(id: Id, number: string, below: seq<Tree>)

  datatype Detail = Detail(owned: seq<Tree>, appendices: seq<Tree>)

  // -- units ------------------------------------------------------------------------

  function Ids(units: seq<Unit>): seq<Id> { seq(|units|, i requires 0 <= i < |units| => units[i].id) }

  /** The keys of the unit table, in order. */
  function UnitIds(s: Source): seq<Id> { Unique(Ids(s.units)) }

  /** The unit recorded last for an id. */
  function UnitOf(units: seq<Unit>, id: Id): (r: Option<Unit>)
    ensures r.Some? <==> id in Ids(units)
    ensures r.Some? ==> r.value.id == id
  {
    if units == [] then None
    else
      assert Ids(units) == Ids(units[..|units| - 1]) + [units[|units| - 1].id];
      if units[|units| - 1].id == id then Some(units[|units| - 1]) else UnitOf(units[..|units| - 1], id)
  }

  function LabelOf(s: Source, id: Id): Label {
    if id == s.document then Document
    else match UnitOf(s.units, id)
      case None => Other("")
      case Some(u) => u.kind
  }

  function NumberOf(s: Source, id: Id): string {
    match UnitOf(s.units, id)
    case None => ""
    case Some(u) => u.number
  }

  // -- the chosen parent ----------------------------------------------------------------

  function LabelRank(l: Label): int {
    match l
    case Appendix => 1
    case Part => 2
    case Chapter => 3
    case Section => 4
    case Subsection => 5
    case Article => 6
    case Clause => 7
    case _ => -1
  }

  function Rank(s: Source, id: Id): int {
    if id == s.document then 0
    else match UnitOf(s.units, id)
      case None => -1
      case Some(u) => LabelRank(u.kind)
  }

  /** The parent of `target` after the edges: replaced only by a strictly higher rank. */
  function Parent(s: Source, edges: seq<(Id, Id)>, target: Id): Option<Id> {
    if edges == [] then None
    else
      var before, last := Parent(s, edges[..|edges| - 1], target), edges[|edges| - 1];
      if last.1 == target && (before.None? || Rank(s, last.0) > Rank(s, before.value)) then Some(last.0) else before
  }

  function Targets(edges: seq<(Id, Id)>): seq<Id> { seq(|edges|, i requires 0 <= i < |edges| => edges[i].1) }

  /** The chosen parent has the highest rank among the edges into a unit, and comes first among those of that rank. */
  lemma {:induction false} ParentIsBest(s: Source, edges: seq<(Id, Id)>, target: Id)
    ensures Parent(s, edges, target).None? <==> target !in Targets(edges)
    ensures var p := Parent(s, edges, target);
      p.Some? ==> exists k | 0 <= k < |edges| ::
        && edges[k] == (p.value, target)
        && (forall i | 0 <= i < |edges| && edges[i].1 == target :: Rank(s, edges[i].0) <= Rank(s, p.value))
        && (forall i | 0 <= i < k && edges[i].1 == target :: Rank(s, edges[i].0) < Rank(s, p.value))
  {
    if edges != [] {
      var init, last := edges[..|edges| - 1], edges[|edges| - 1];
      ParentIsBest(s, init, target);
      assert edges == init + [last];
      assert Targets(edges) == Targets(init) + [last.1];
      var before := Parent(s, init, target);
      if last.1 == target && (before.None? || Rank(s, last.0) > Rank(s, before.value)) {
        assert edges[|edges| - 1] == (last.0, target);
        forall i | 0 <= i < |init| && edges[i].1 == target ensures Rank(s, edges[i].0) < Rank(s, last.0) {
          assert init[i] == edges[i] && Targets(init)[i] == target;
        }
      } else if before.Some? {
        var k :| 0 <= k < |init| && init[k] == (before.value, target)
          && (forall i | 0 <= i < |init| && init[i].1 == target :: Rank(s, init[i].0) <= Rank(s, before.value))
          && (forall i | 0 <= i < k && init[i].1 == target :: Rank(s, init[i].0) < Rank(s, before.value));
        assert edges[k] == (before.value, target);
        forall i | 0 <= i < k && edges[i].1 == target ensures Rank(s, edges[i].0) < Rank(s, before.value) {
          assert init[i] == edges[i];
        }
        forall i | 0 <= i < |edges| && edges[i].1 == target ensures Rank(s, edges[i].0) <= Rank(s, before.value) {
          if i < |init| { assert init[i] == edges[i]; }
        }
      }
    }
  }

  function ChosenParent(s: Source, id: Id): Option<Id> { Parent(s, s.edges, id) }

  /** The entries of the parent table with this parent, in table order. */
  function OfParent(s: Source, targets: seq<Id>, parent: Id): (r: seq<Id>)
    ensures forall x :: x in r <==> x in targets && ChosenParent(s, x) == Some(parent)
    ensures NoDup(targets) ==> NoDup(r)
  {
    if targets == [] then []
    else
      var before, last := OfParent(s, targets[..|targets| - 1], parent), targets[|targets| - 1];
      assert targets == targets[..|targets| - 1] + [last];
      if ChosenParent(s, last) == Some(parent) then before + [last] else before
  }

  function WithLabel(s: Source, ids: seq<Id>, l: Label): (r: seq<Id>)
    ensures forall x :: x in r <==> x in ids && LabelOf(s, x) == l
    ensures NoDup(ids) ==> NoDup(r)
  {
    if ids == [] then []
    else
      var before, last := WithLabel(s, ids[..|ids| - 1], l), ids[|ids| - 1];
      assert ids == ids[..|ids| - 1] + [last];
      if LabelOf(s, last) == l then before + [last] else before
  }

  method ChooseParents(s: Source) returns (parent: map<Id, Id>, order: seq<Id>)
    ensures forall id :: Lookup(parent, id) == ChosenParent(s, id)
    ensures order == Unique(Targets(s.edges))
  {
    parent, order := map[], [];
    for i := 0 to |s.edges|
      invariant order == Unique(Targets(s.edges[..i]))
      invariant forall id :: Lookup(parent, id) == Parent(s, s.edges[..i], id)
    {
      var (source, target) := s.edges[i];
      assert s.edges[..i + 1][..i] == s.edges[..i];
      assert Targets(s.edges[..i + 1]) == Targets(s.edges[..i]) + [target];
      ParentIsBest(s, s.edges[..i], target);
      assert Lookup(parent, target) == Parent(s, s.edges[..i], target);
      UniqueGrows(Targets(s.edges[..i]), target);
      if target !in parent {
        order := order + [target];
        parent := parent[target := source];
      } else if Rank(s, source) > Rank(s, parent[target]) {
        parent := parent[target := source];
      }
    }
    assert s.edges[..|s.edges|] == s.edges;
  }

  lemma UniqueGrows(ids: seq<Id>, id: Id)
    ensures Unique(ids + [id]) == if id in ids then Unique(ids) else Unique(ids) + [id]
  {
    assert (ids + [id])[..|ids + [id]| - 1] == ids;
  }

  function Lookup(m: map<Id, Id>, id: Id): Option<Id> { if id in m then Some(m[id]) else None }

  function Get(m: map<Id, seq<Id>>, id: Id): seq<Id> { if id in m then m[id] else [] }

  method CollectChildren(s: Source, parent: map<Id, Id>, order: seq<Id>) returns (children: map<Id, seq<Id>>)
    requires forall id :: Lookup(parent, id) == ChosenParent(s, id)
    requires forall id | id in order :: id in parent
    ensures forall p :: Get(children, p) == OfParent(s, order, p)
  {
    children := map[];
    for i := 0 to |order|
      invariant forall p :: Get(children, p) == OfParent(s, order[..i], p)
    {
      assert order[..i + 1][..i] == order[..i];
      assert order[i] in order && Lookup(parent, order[i]) == ChosenParent(s, order[i]);
      var source := parent[order[i]];
      ghost var was := children;
      assert Get(was, source) == OfParent(s, order[..i], source);
      children := children[source := Get(children, source) + [order[i]]];
      forall p ensures Get(children, p) == OfParent(s, order[..i + 1], p) {
        assert Get(was, p) == OfParent(s, order[..i], p);
      }
    }
    assert order[..|order|] == order;
  }

  // -- the tree -------------------------------------------------------------------------

  /** The kinds of unit a detail has a list for. */
  function Slots(l: Label): seq<Label> {
    match l
    case Document => [Part, Chapter, Article]
    case Appendix => [Part, Chapter, Article]
    case Part => [Chapter]
    case Chapter => [Article, Section]
    case Section => [Article, Subsection]
    case Subsection => [Article]
    case Article => [Clause]
    case Clause => [Point]
    case _ => []
  }

  function Level(l: Label): (r: nat)
    ensures r <= 8
  {
    match l
    case Document => 0
    case Appendix => 0
    case Part => 1
    case Chapter => 2
    case Section => 3
    case Subsection => 4
    case Article => 5
    case Clause => 6
    case Point => 7
    case Other(_) => 8
  }

  lemma SlotsDescend(l: Label, slot: Label)
    requires slot in Slots(l)
    ensures Level(l) < Level(slot) && slot != Document && slot != Appendix
  {}

  /** The document and the appendices look through the unit table, other details through their children list. */
  function Members(s: Source, owner: Id, l: Label): (r: seq<Id>)
    ensures forall x | x in r :: LabelOf(s, x) == l && ChosenParent(s, x) == Some(owner)
    ensures NoDup(r)
  {
    var kind := LabelOf(s, owner);
    var pool := if kind == Document || kind == Appendix then UnitIds(s) else Unique(Targets(s.edges));
    WithLabel(s, OfParent(s, pool, owner), l)
  }

  function Sorted(ts: seq<Tree>, le: (string, string) -> bool): seq<Tree> {
    SortBy(ts, ByNumber(le))
  }

  function ByNumber(le: (string, string) -> bool): (Tree, Tree) -> bool {
    (a: Tree, b: Tree) => le(a.number, b.number)
  }

  /** The detail of a unit; `le` orders numbers. */
  function Build(s: Source, le: (string, string) -> bool, id: Id): Tree
    decreases 9 - Level(LabelOf(s, id)), 2, 0
  {
    Tree(id, NumberOf(s, id), BuildSlots(s, le, id, Slots(LabelOf(s, id))))
  }

  function BuildSlots(s: Source, le: (string, string) -> bool, owner: Id, slots: seq<Label>): seq<Tree>
    requires forall l | l in slots :: l in Slots(LabelOf(s, owner))
    decreases 9 - Level(LabelOf(s, owner)), 1, |slots|
  {
    if slots == [] then []
    else
      var l := slots[|slots| - 1];
      SlotsDescend(LabelOf(s, owner), l);
      var items := BuildAll(s, le, Members(s, owner, l), l);
      BuildSlots(s, le, owner, slots[..|slots| - 1]) + if l == Point then items else Sorted(items, le)
  }

  function BuildAll(s: Source, le: (string, string) -> bool, ids: seq<Id>, l: Label): seq<Tree>
    requires forall id | id in ids :: LabelOf(s, id) == l
    decreases 9 - Level(l), 3, |ids|
  {
    if ids == [] then []
    else BuildAll(s, le, ids[..|ids| - 1], l) + [Build(s, le, ids[|ids| - 1])]
  }

  /** What the document owns, and all appendices at the top level whatever contains them. */
  function DocumentDetail(s: Source, le: (string, string) -> bool): Detail {
    Detail(Build(s, le, s.document).below,
           Sorted(BuildAll(s, le, WithLabel(s, UnitIds(s), Appendix), Appendix), le))
  }

  // -- every unit once ---------------------------------------------------------------------

  function TreeIds(t: Tree): seq<Id> { [t.id] + ForestIds(t.below) }

  function ForestIds(ts: seq<Tree>): seq<Id> {
    if ts == [] then [] else ForestIds(ts[..|ts| - 1]) + TreeIds(ts[|ts| - 1])
  }

  function Count(ids: seq<Id>, x: Id): nat { multiset(ids)[x] }

  lemma {:induction false} ForestJoin(a: seq<Tree>, b: seq<Tree>)
    ensures ForestIds(a + b) == ForestIds(a) + ForestIds(b)
  {
    if b == [] {
      assert a + b == a;
    } else {
      assert (a + b)[..|a + b| - 1] == a + b[..|b| - 1];
      ForestJoin(a, b[..|b| - 1]);
    }
  }

  lemma ForestCons(t: Tree, ts: seq<Tree>)
    ensures ForestIds([t] + ts) == TreeIds(t) + ForestIds(ts)
  {
    ForestJoin([t], ts);
    assert [t][..0] == [] && ForestIds([t]) == [] + TreeIds(t);
  }

  lemma {:induction false} ForestInsert(t: Tree, ts: seq<Tree>, le: (Tree, Tree) -> bool)
    ensures multiset(ForestIds(Insert(t, ts, le))) == multiset(TreeIds(t)) + multiset(ForestIds(ts))
  {
    ForestCons(t, ts);
    if ts != [] && !le(t, ts[0]) {
      ForestInsert(t, ts[1..], le);
      ForestCons(ts[0], ts[1..]);
      ForestCons(ts[0], Insert(t, ts[1..], le));
      assert ts == [ts[0]] + ts[1..];
      assert Insert(t, ts, le) == [ts[0]] + Insert(t, ts[1..], le);
      assert multiset(ForestIds(ts)) == multiset(TreeIds(ts[0])) + multiset(ForestIds(ts[1..]));
    }
  }

  lemma {:induction false} ForestSort(ts: seq<Tree>, le: (Tree, Tree) -> bool)
    ensures multiset(ForestIds(SortBy(ts, le))) == multiset(ForestIds(ts))
  {
    if ts != [] {
      ForestSort(ts[1..], le);
      ForestInsert(ts[0], SortBy(ts[1..], le), le);
      ForestCons(ts[0], ts[1..]);
      assert ts == [ts[0]] + ts[1..];
      assert SortBy(ts, le) == Insert(ts[0], SortBy(ts[1..], le), le);
    }
  }

  lemma CountJoin(a: seq<Id>, b: seq<Id>, x: Id)
    ensures Count(a + b, x) == Count(a, x) + Count(b, x)
  {}

  /** The chosen parent has a list for the unit. */
  predicate HasPlace(s: Source, id: Id) {
    && id in UnitIds(s)
    && ChosenParent(s, id).Some? && LabelOf(s, id) in Slots(LabelOf(s, ChosenParent(s, id).value))
  }

  predicate Under(s: Source, x: Id, root: Id)
    decreases Level(LabelOf(s, x))
  {
    x == root
    || (HasPlace(s, x)
        && (SlotsDescend(LabelOf(s, ChosenParent(s, x).value), LabelOf(s, x));
            Under(s, ChosenParent(s, x).value, root)))
  }

  /** The child of `root` on the way to `x`. */
  function Toward(s: Source, x: Id, root: Id): Id
    requires Under(s, x, root) && x != root
    decreases Level(LabelOf(s, x))
  {
    SlotsDescend(LabelOf(s, ChosenParent(s, x).value), LabelOf(s, x));
    if ChosenParent(s, x).value == root then x else Toward(s, ChosenParent(s, x).value, root)
  }

  lemma {:induction false} TowardIsChild(s: Source, x: Id, root: Id)
    requires Under(s, x, root) && x != root
    ensures var c := Toward(s, x, root); HasPlace(s, c) && ChosenParent(s, c) == Some(root) && Under(s, x, c)
    decreases Level(LabelOf(s, x))
  {
    var p := ChosenParent(s, x).value;
    SlotsDescend(LabelOf(s, p), LabelOf(s, x));
    if p != root { TowardIsChild(s, p, root); }
  }

  lemma {:induction false} UnderLevel(s: Source, x: Id, root: Id)
    requires Under(s, x, root)
    ensures Level(LabelOf(s, root)) <= Level(LabelOf(s, x))
    decreases Level(LabelOf(s, x))
  {
    if x != root {
      var p := ChosenParent(s, x).value;
      SlotsDescend(LabelOf(s, p), LabelOf(s, x));
      UnderLevel(s, p, root);
    }
  }

  lemma {:induction false} UnderChild(s: Source, x: Id, c: Id, root: Id)
    requires Under(s, x, c) && HasPlace(s, c) && ChosenParent(s, c) == Some(root)
    ensures Under(s, x, root) && x != root && Toward(s, x, root) == c
    decreases Level(LabelOf(s, x))
  {
    SlotsDescend(LabelOf(s, root), LabelOf(s, c));
    UnderLevel(s, x, c);
    if x != c {
      var p := ChosenParent(s, x).value;
      SlotsDescend(LabelOf(s, p), LabelOf(s, x));
      UnderLevel(s, p, c);
      UnderChild(s, p, c, root);
    }
  }

  function Flag(b: bool): nat { if b then 1 else 0 }

  /** A detail lists exactly the units below its own, each once. */
  lemma {:induction false} BuildCounts(s: Source, le: (string, string) -> bool, id: Id, x: Id)
    ensures Count(TreeIds(Build(s, le, id)), x) == Flag(Under(s, x, id))
    decreases 9 - Level(LabelOf(s, id)), 2, 0
  {
    var slots := Slots(LabelOf(s, id));
    SlotsCount(s, le, id, slots, x);
    CountJoin([id], ForestIds(BuildSlots(s, le, id, slots)), x);
    AllSlots(s, x, id);
  }

  lemma AllSlots(s: Source, x: Id, id: Id)
    ensures x != id && Under(s, x, id) ==> LabelOf(s, Toward(s, x, id)) in Slots(LabelOf(s, id))
  {
    if Under(s, x, id) && x != id { TowardIsChild(s, x, id); }
  }

  lemma {:induction false} SlotsCount(s: Source, le: (string, string) -> bool, owner: Id, slots: seq<Label>, x: Id)
    requires NoDup(slots)
    requires forall l | l in slots :: l in Slots(LabelOf(s, owner))
    ensures Count(ForestIds(BuildSlots(s, le, owner, slots)), x)
            == Flag(x != owner && Under(s, x, owner) && LabelOf(s, Toward(s, x, owner)) in slots)
    decreases 9 - Level(LabelOf(s, owner)), 1, |slots|
  {
    if slots != [] {
      var init, l := slots[..|slots| - 1], slots[|slots| - 1];
      assert slots == init + [l];
      NoDupPrefix(init, l);
      SlotsDescend(LabelOf(s, owner), l);
      SlotsCount(s, le, owner, init, x);
      SlotCount(s, le, owner, l, x);
      ForestJoin(BuildSlots(s, le, owner, init), SlotItems(s, le, owner, l));
      CountJoin(ForestIds(BuildSlots(s, le, owner, init)), ForestIds(SlotItems(s, le, owner, l)), x);
    }
  }

  function SlotItems(s: Source, le: (string, string) -> bool, owner: Id, l: Label): seq<Tree> {
    var items := BuildAll(s, le, Members(s, owner, l), l);
    if l == Point then items else Sorted(items, le)
  }

  lemma SlotCount(s: Source, le: (string, string) -> bool, owner: Id, l: Label, x: Id)
    requires l in Slots(LabelOf(s, owner))
    ensures Count(ForestIds(SlotItems(s, le, owner, l)), x)
            == Flag(x != owner && Under(s, x, owner) && LabelOf(s, Toward(s, x, owner)) == l)
    decreases 9 - Level(LabelOf(s, owner)), 0
  {
    SlotsDescend(LabelOf(s, owner), l);
    MembersAre(s, owner, l);
    MembersCount(s, le, owner, Members(s, owner, l), l, x);
    SlotOrder(s, le, owner, l);
    TowardMember(s, owner, l, x);
  }

  lemma SlotOrder(s: Source, le: (string, string) -> bool, owner: Id, l: Label)
    ensures multiset(ForestIds(SlotItems(s, le, owner, l)))
            == multiset(ForestIds(BuildAll(s, le, Members(s, owner, l), l)))
  {
    ForestSort(BuildAll(s, le, Members(s, owner, l), l), ByNumber(le));
  }

  lemma TowardMember(s: Source, owner: Id, l: Label, x: Id)
    requires l in Slots(LabelOf(s, owner))
    ensures x != owner && Under(s, x, owner) ==>
              (Toward(s, x, owner) in Members(s, owner, l) <==> LabelOf(s, Toward(s, x, owner)) == l)
  {
    MembersAre(s, owner, l);
    if x != owner && Under(s, x, owner) { TowardIsChild(s, x, owner); }
  }

  lemma MembersAre(s: Source, owner: Id, l: Label)
    requires l in Slots(LabelOf(s, owner))
    ensures forall c :: c in Members(s, owner, l)
                        <==> HasPlace(s, c) && ChosenParent(s, c) == Some(owner) && LabelOf(s, c) == l
  {
    SlotsDescend(LabelOf(s, owner), l);
    forall c
      ensures c in Members(s, owner, l)
              <==> HasPlace(s, c) && ChosenParent(s, c) == Some(owner) && LabelOf(s, c) == l {
      MemberIs(s, owner, l, c);
    }
  }

  lemma MemberIs(s: Source, owner: Id, l: Label, c: Id)
    requires l in Slots(LabelOf(s, owner)) && l != Document && l != Appendix
    ensures c in Members(s, owner, l) <==> HasPlace(s, c) && ChosenParent(s, c) == Some(owner) && LabelOf(s, c) == l
  {
    ParentTargets(s, c);
    if LabelOf(s, c) == l && l != Other("") { LabelledIsUnit(s, c); }
  }

  lemma ParentTargets(s: Source, c: Id)
    ensures ChosenParent(s, c).Some? <==> c in Unique(Targets(s.edges))
  {
    ParentIsBest(s, s.edges, c);
  }

  lemma LabelledIsUnit(s: Source, c: Id)
    requires c != s.document && LabelOf(s, c) != Other("")
    ensures c in UnitIds(s)
  {}

  lemma {:induction false} MembersCount(
      s: Source, le: (string, string) -> bool, owner: Id, ids: seq<Id>, l: Label, x: Id)
    requires NoDup(ids) && l in Slots(LabelOf(s, owner))
    requires forall c | c in ids :: HasPlace(s, c) && ChosenParent(s, c) == Some(owner) && LabelOf(s, c) == l
    ensures Count(ForestIds(BuildAll(s, le, ids, l)), x)
            == Flag(x != owner && Under(s, x, owner) && Toward(s, x, owner) in ids)
    decreases 9 - Level(l), 3, |ids|
  {
    if ids != [] {
      var init, c := ids[..|ids| - 1], ids[|ids| - 1];
      assert ids == init + [c];
      NoDupPrefix(init, c);
      MembersCount(s, le, owner, init, l, x);
      BuildCounts(s, le, c, x);
      CountJoin(ForestIds(BuildAll(s, le, init, l)), TreeIds(Build(s, le, c)), x);
      BuildAllStep(s, le, ids, l);
      if Under(s, x, c) { UnderChild(s, x, c, owner); }
      if x != owner && Under(s, x, owner) && Toward(s, x, owner) == c { TowardIsChild(s, x, owner); }
    }
  }

  lemma BuildAllStep(s: Source, le: (string, string) -> bool, ids: seq<Id>, l: Label)
    requires ids != [] && forall id | id in ids :: LabelOf(s, id) == l
    ensures ForestIds(BuildAll(s, le, ids, l))
            == ForestIds(BuildAll(s, le, ids[..|ids| - 1], l)) + TreeIds(Build(s, le, ids[|ids| - 1]))
  {
    var before := BuildAll(s, le, ids[..|ids| - 1], l);
    assert (before + [Build(s, le, ids[|ids| - 1])])[..|before|] == before;
  }

  /** A unit has a place if every link from it up to the document or to an appendix is one the tree has a list for. */
  predicate Placed(s: Source, x: Id)
    decreases Level(LabelOf(s, x))
  {
    && x in UnitIds(s)
    && (LabelOf(s, x) == Appendix
        || (HasPlace(s, x)
            && (SlotsDescend(LabelOf(s, ChosenParent(s, x).value), LabelOf(s, x));
                ChosenParent(s, x).value == s.document || Placed(s, ChosenParent(s, x).value))))
  }

  /** All units of a detail: those the document owns and those of every appendix. */
  function DetailIds(d: Detail): seq<Id> { ForestIds(d.owned) + ForestIds(d.appendices) }

  /** The top of a unit's chain: an appendix, or the document. */
  function Root(s: Source, x: Id): Id
    requires Placed(s, x)
    decreases Level(LabelOf(s, x))
  {
    if LabelOf(s, x) == Appendix then x
    else
      SlotsDescend(LabelOf(s, ChosenParent(s, x).value), LabelOf(s, x));
      if ChosenParent(s, x).value == s.document then s.document else Root(s, ChosenParent(s, x).value)
  }

  predicate IsRoot(s: Source, id: Id) { id == s.document || (id in UnitIds(s) && LabelOf(s, id) == Appendix) }

  /** A placed unit lies under its own root and no other; a unit without a place under none. */
  lemma {:induction false} UnderRoots(s: Source, x: Id, root: Id)
    requires IsRoot(s, root) && x != s.document
    ensures Under(s, x, root) <==> Placed(s, x) && Root(s, x) == root
    decreases Level(LabelOf(s, x))
  {
    if HasPlace(s, x) {
      var p := ChosenParent(s, x).value;
      SlotsDescend(LabelOf(s, p), LabelOf(s, x));
      if p != s.document {
        UnderRoots(s, p, root);
      } else {
        assert Under(s, p, root) <==> p == root;
      }
    }
  }

  lemma {:induction false} AppendicesCount(s: Source, le: (string, string) -> bool, ids: seq<Id>, x: Id)
    requires NoDup(ids) && x != s.document
    requires forall id | id in ids :: id in UnitIds(s) && LabelOf(s, id) == Appendix
    ensures Count(ForestIds(BuildAll(s, le, ids, Appendix)), x) == Flag(Placed(s, x) && Root(s, x) in ids)
  {
    if ids != [] {
      var init, c := ids[..|ids| - 1], ids[|ids| - 1];
      assert ids == init + [c];
      NoDupPrefix(init, c);
      AppendicesCount(s, le, init, x);
      BuildCounts(s, le, c, x);
      UnderRoots(s, x, c);
      BuildAllStep(s, le, ids, Appendix);
      CountJoin(ForestIds(BuildAll(s, le, init, Appendix)), TreeIds(Build(s, le, c)), x);
    }
  }

  lemma OwnedCount(s: Source, le: (string, string) -> bool, x: Id)
    requires x != s.document
    ensures Count(ForestIds(DocumentDetail(s, le).owned), x) == Flag(Placed(s, x) && Root(s, x) == s.document)
  {
    BuildCounts(s, le, s.document, x);
    UnderRoots(s, x, s.document);
    CountJoin([s.document], ForestIds(DocumentDetail(s, le).owned), x);
  }

  lemma AppendixCount(s: Source, le: (string, string) -> bool, x: Id)
    requires x != s.document
    ensures Count(ForestIds(DocumentDetail(s, le).appendices), x) == Flag(Placed(s, x) && Root(s, x) != s.document)
  {
    var ids := WithLabel(s, UnitIds(s), Appendix);
    AppendicesCount(s, le, ids, x);
    ForestSort(BuildAll(s, le, ids, Appendix), ByNumber(le));
    if Placed(s, x) { RootIsRoot(s, x); }
  }

  lemma {:induction false} RootIsRoot(s: Source, x: Id)
    requires Placed(s, x)
    ensures IsRoot(s, Root(s, x))
    decreases Level(LabelOf(s, x))
  {
    if LabelOf(s, x) != Appendix {
      var p := ChosenParent(s, x).value;
      SlotsDescend(LabelOf(s, p), LabelOf(s, x));
      if p != s.document { RootIsRoot(s, p); }
    }
  }

  /** A unit appears in the document detail once if it has a place, and otherwise not at all. */
  lemma EachUnitOnce(s: Source, le: (string, string) -> bool, x: Id)
    requires x != s.document
    ensures Count(DetailIds(DocumentDetail(s, le)), x) == Flag(Placed(s, x))
  {
    var d := DocumentDetail(s, le);
    OwnedCount(s, le, x);
    AppendixCount(s, le, x);
    CountJoin(ForestIds(d.owned), ForestIds(d.appendices), x);
  }

  /** Every chosen link is one the tree has a list for, up to the document; appendices need none. */
  ghost predicate AllLinksHavePlaces(s: Source) {
    forall x | x in UnitIds(s) && x != s.document && LabelOf(s, x) != Appendix ::
      HasPlace(s, x) && (ChosenParent(s, x).value == s.document || ChosenParent(s, x).value in UnitIds(s))
  }

  lemma {:induction false} PlacedWhenLinked(s: Source, x: Id)
    requires AllLinksHavePlaces(s) && x in UnitIds(s) && x != s.document
    ensures Placed(s, x)
    decreases Level(LabelOf(s, x))
  {
    if LabelOf(s, x) != Appendix {
      var p := ChosenParent(s, x).value;
      SlotsDescend(LabelOf(s, p), LabelOf(s, x));
      if p != s.document { PlacedWhenLinked(s, p); }
    }
  }

  /** Then the detail holds exactly the units of the document, each once. */
  lemma NothingLost(s: Source, le: (string, string) -> bool, x: Id)
    requires AllLinksHavePlaces(s) && x != s.document
    ensures Count(DetailIds(DocumentDetail(s, le)), x) == Flag(x in UnitIds(s))
  {
    EachUnitOnce(s, le, x);
    if x in UnitIds(s) { PlacedWhenLinked(s, x); }
  }
}
