/** What compaction requires, omits and keeps, read off the evidence (generation/evidence_compaction.py). */
module RequiredEvidence {
  import opened Prelude
  import opened Text
  import opened Compaction

  // -- candidates and bundles ---------------------------------------------------------

  /** The candidate a unit id stands for: the last one with that id. */
  ghost predicate Names(cs: seq<Candidate>, id: Id, c: Candidate) {
    exists i | 0 <= i < |cs| :: cs[i] == c && c.unit.id == id && forall j | i < j < |cs| :: cs[j].unit.id != id
  }

  ghost predicate IsKnown(cs: seq<Candidate>, id: Id) { exists c | c in cs :: c.unit.id == id }

  lemma {:induction false} ByIdNames(cs: seq<Candidate>, id: Id, c: Candidate)
    ensures ById(cs, id) == Some(c) <==> Names(cs, id, c)
    ensures ById(cs, id).Some? <==> IsKnown(cs, id)
  {
    if cs != [] {
      var init, last := cs[..|cs| - 1], cs[|cs| - 1];
      ByIdNames(init, id, c);
      assert cs == init + [last];
      if last.unit.id == id {
        assert Names(cs, id, c) <==> last == c;
      } else {
        NamesInit(init, last, id, c);
      }
    }
  }

  lemma NamesInit(init: seq<Candidate>, last: Candidate, id: Id, c: Candidate)
    requires last.unit.id != id
    ensures Names(init + [last], id, c) <==> Names(init, id, c)
  {
    var cs := init + [last];
    if i :| 0 <= i < |cs| && cs[i] == c && c.unit.id == id && forall j | i < j < |cs| :: cs[j].unit.id != id {
      assert init[i] == c;
      forall j | i < j < |init| ensures init[j].unit.id != id { assert cs[j] == init[j]; }
    }
    if i :| 0 <= i < |init| && init[i] == c && c.unit.id == id && forall j | i < j < |init| :: init[j].unit.id != id {
      assert cs[i] == c;
    }
  }

  /** The rank of the best-ranked of some candidates. */
  ghost predicate IsBestRank(rank: nat, cs: seq<Candidate>) {
    (exists c | c in cs :: c.rank == rank) && forall c | c in cs :: rank <= c.rank
  }

  lemma {:induction false} MinRankIs(cs: seq<Candidate>)
    requires cs != []
    ensures IsBestRank(MinRank(cs), cs)
  {
    if |cs| == 1 {
      assert cs[0] in cs;
    } else {
      MinRankIs(cs[1..]);
      assert cs == [cs[0]] + cs[1..];
    }
  }

  /** A bundle of one unit alone. */
  ghost predicate IsSingle(b: Bundle, intent: Intent, c: Candidate, subjects: seq<Id>, versionKeys: seq<string>,
                           operandId: Option<string>)
  {
    b == Bundle(BundleKey(intent, [c.unit.id], [], subjects, versionKeys, operandId), c.rank)
  }

  lemma SingleIs(intent: Intent, c: Candidate, subjects: seq<Id>, versionKeys: seq<string>, operandId: Option<string>)
    ensures IsSingle(MakeBundle(intent, [c], [], subjects, versionKeys, operandId), intent, c, subjects, versionKeys,
                     operandId)
  {
    assert UnitIds([c]) == [c.unit.id];
    UniqueOfNoDup([c.unit.id]);
    assert PathIds([]) == [];
    UniqueOfNoDup<Id>([]);
  }

  // -- composition plans ----------------------------------------------------------------

  /** The `k`-th unit of the operand is this candidate, and eligible. */
  ghost predicate IsHit(cs: seq<Candidate>, operand: Operand, k: nat, c: Candidate) {
    k < |operand.evidenceIds| && Names(cs, operand.evidenceIds[k], c) && c.eligible
  }

  ghost predicate NoHitBefore(cs: seq<Candidate>, operand: Operand, n: nat) {
    forall j: nat, c | j < n :: !IsHit(cs, operand, j, c)
  }

  ghost predicate TopHit(cs: seq<Candidate>, operand: Operand, k: nat, c: Candidate) {
    IsHit(cs, operand, k, c) && NoHitBefore(cs, operand, k)
  }

  ghost predicate HasHit(cs: seq<Candidate>, operand: Operand) { exists k: nat, c :: IsHit(cs, operand, k, c) }

  /** The operand's first eligible unit, whatever its rank among all. */
  ghost predicate HoldsTopHit(intent: Intent, cs: seq<Candidate>, operand: Operand, b: Bundle) {
    exists k: nat, c :: TopHit(cs, operand, k, c) && IsSingle(b, intent, c, [], [], Some(operand.id))
  }

  lemma HitIs(cs: seq<Candidate>, operand: Operand, k: nat, c: Candidate)
    requires k < |operand.evidenceIds|
    ensures IsHit(cs, operand, k, c) <==> ById(cs, operand.evidenceIds[k]) == Some(c) && c.eligible
  {
    ByIdNames(cs, operand.evidenceIds[k], c);
  }

  lemma HitAt(cs: seq<Candidate>, operand: Operand, k: nat)
    requires k < |operand.evidenceIds|
    ensures var c := ById(cs, operand.evidenceIds[k]);
      if c.Some? && c.value.eligible then IsHit(cs, operand, k, c.value) else forall d :: !IsHit(cs, operand, k, d)
  {
    forall c ensures IsHit(cs, operand, k, c) <==> ById(cs, operand.evidenceIds[k]) == Some(c) && c.eligible {
      HitIs(cs, operand, k, c);
    }
  }

  lemma {:induction false} EligibleOfIs(cs: seq<Candidate>, operand: Operand, n: nat) returns (k: nat)
    requires n <= |operand.evidenceIds|
    ensures var own := EligibleOf(cs, operand.evidenceIds[..n]);
      if own == [] then NoHitBefore(cs, operand, n) else k < n && TopHit(cs, operand, k, own[0])
  {
    k := 0;
    if n > 0 {
      var ids := operand.evidenceIds;
      k := EligibleOfIs(cs, operand, n - 1);
      assert ids[..n][..n - 1] == ids[..n - 1];
      HitAt(cs, operand, n - 1);
      if EligibleOf(cs, ids[..n - 1]) == [] { k := n - 1; }
    }
  }

  lemma OperandBundleIs(intent: Intent, cs: seq<Candidate>, operand: Operand)
    ensures var b := OperandBundle(intent, cs, operand);
      if b.None? then !HasHit(cs, operand) else HasHit(cs, operand) && HoldsTopHit(intent, cs, operand, b.value)
  {
    var ids := operand.evidenceIds;
    assert ids[..|ids|] == ids;
    var k := EligibleOfIs(cs, operand, |ids|);
    var own := EligibleOf(cs, ids);
    if own != [] {
      SingleIs(intent, own[0], [], [], Some(operand.id));
      assert IsHit(cs, operand, k, own[0]);
    }
  }

  /** One bundle per operand, on its own top hit; no set at all when some operand has no eligible unit. */
  ghost predicate OperandSets(intent: Intent, cs: seq<Candidate>, operands: seq<Operand>, required: seq<seq<Bundle>>) {
    if exists i | 0 <= i < |operands| :: !HasHit(cs, operands[i]) then required == []
    else |required| == 1 && HoldTopHits(intent, cs, operands, required[0])
  }

  ghost predicate HoldTopHits(intent: Intent, cs: seq<Candidate>, operands: seq<Operand>, bs: seq<Bundle>) {
    |bs| == |operands| && forall i | 0 <= i < |operands| :: HoldsTopHit(intent, cs, operands[i], bs[i])
  }

  lemma {:induction false} OperandBundlesAre(intent: Intent, cs: seq<Candidate>, operands: seq<Operand>)
    ensures var r := OperandBundles(intent, cs, operands);
      if r.None? then exists i | 0 <= i < |operands| :: !HasHit(cs, operands[i])
      else (forall i | 0 <= i < |operands| :: HasHit(cs, operands[i])) && HoldTopHits(intent, cs, operands, r.value)
  {
    if operands != [] {
      var init, last := operands[..|operands| - 1], operands[|operands| - 1];
      OperandBundlesAre(intent, cs, init);
      OperandBundleIs(intent, cs, last);
      var before := OperandBundles(intent, cs, init);
      if before.Some? {
        var own := OperandBundle(intent, cs, last);
        if own.Some? { HitsAppend(intent, cs, init, before.value, last, own.value); }
        assert operands == init + [last];
      } else {
        var i :| 0 <= i < |init| && !HasHit(cs, init[i]);
        assert operands[i] == init[i];
      }
    }
  }

  lemma HitsAppend(
      intent: Intent, cs: seq<Candidate>, operands: seq<Operand>, bs: seq<Bundle>, operand: Operand, b: Bundle)
    requires HoldTopHits(intent, cs, operands, bs) && HoldsTopHit(intent, cs, operand, b)
    ensures HoldTopHits(intent, cs, operands + [operand], bs + [b])
  {}

  // -- single units ----------------------------------------------------------------------

  /** One set for each of the kept elements. */
  ghost predicate OneEach<T>(all: seq<T>, positions: seq<nat>, kept: seq<T>, required: seq<seq<Bundle>>) {
    Selects(all, positions, kept) && |required| == |kept| && forall k | 0 <= k < |required| :: |required[k]| == 1
  }

  ghost predicate EligibleSets(intent: Intent, cs: seq<Candidate>, required: seq<seq<Bundle>>) {
    exists positions: seq<nat>, kept: seq<Candidate> ::
      && OneEach(cs, positions, kept, required)
      && (forall i | 0 <= i < |cs| :: i in positions <==> cs[i].eligible)
      && forall k | 0 <= k < |required| :: IsSingle(required[k][0], intent, kept[k], [], [], None)
  }

  lemma {:induction false} EligibleBundlesAre(intent: Intent, cs: seq<Candidate>)
    returns (positions: seq<nat>, kept: seq<Candidate>)
    ensures var required := EligibleBundles(intent, cs);
      && OneEach(cs, positions, kept, required)
      && (forall i | 0 <= i < |cs| :: i in positions <==> cs[i].eligible)
      && forall k | 0 <= k < |required| :: IsSingle(required[k][0], intent, kept[k], [], [], None)
  {
    positions, kept := [], [];
    if cs != [] {
      var init, last := cs[..|cs| - 1], cs[|cs| - 1];
      positions, kept := EligibleBundlesAre(intent, init);
      assert cs == init + [last];
      SelectsMore(init, positions, kept, last);
      SingleIs(intent, last, [], [], None);
      if last.eligible { positions, kept := positions + [|init|], kept + [last]; }
    }
  }

  /** What a validity question may rest on: a referenced unit with a start, or any unit in force on the day. */
  predicate AnswersValidity(c: Candidate, date: int, referenceIds: seq<Id>) {
    && c.eligible && c.unit.effectiveFrom.Some?
    && (if referenceIds != [] then c.unit.id in referenceIds
        else c.unit.effectiveFrom.value <= date && (c.unit.effectiveTo.Some? ==> date < c.unit.effectiveTo.value))
  }

  ghost predicate ValiditySets(cs: seq<Candidate>, date: int, referenceIds: seq<Id>, required: seq<seq<Bundle>>) {
    exists positions: seq<nat>, kept: seq<Candidate> ::
      && OneEach(cs, positions, kept, required)
      && (forall i | 0 <= i < |cs| :: i in positions <==> AnswersValidity(cs[i], date, referenceIds))
      && forall k | 0 <= k < |required| :: IsSingle(required[k][0], Validity, kept[k], [kept[k].unit.id], [], None)
  }

  lemma {:induction false} ValidityBundlesAre(cs: seq<Candidate>, date: int, referenceIds: seq<Id>)
    returns (positions: seq<nat>, kept: seq<Candidate>)
    ensures var required := ValidityBundles(cs, date, referenceIds);
      && OneEach(cs, positions, kept, required)
      && (forall i | 0 <= i < |cs| :: i in positions <==> AnswersValidity(cs[i], date, referenceIds))
      && forall k | 0 <= k < |required| :: IsSingle(required[k][0], Validity, kept[k], [kept[k].unit.id], [], None)
  {
    positions, kept := [], [];
    if cs != [] {
      var init, last := cs[..|cs| - 1], cs[|cs| - 1];
      positions, kept := ValidityBundlesAre(init, date, referenceIds);
      assert cs == init + [last];
      SelectsMore(init, positions, kept, last);
      SingleIs(Validity, last, [last.unit.id], [], None);
      if AnswersValidity(last, date, referenceIds) { positions, kept := positions + [|init|], kept + [last]; }
    }
  }

  // -- paths -----------------------------------------------------------------------------

  /** The citable units of a path, each once, in the order of its nodes. */
  ghost predicate CitesInOrder(path: Path, ids: seq<Id>) {
    exists cited: seq<Id> :: CitesAll(path, cited) && FirstOccurrences(cited, ids)
  }

  ghost predicate CitesAll(path: Path, cited: seq<Id>) {
    exists positions: seq<nat>, nodes: seq<(Id, Option<Id>)> ::
      Selects(path.nodes, positions, nodes) && CitableExactly(path.nodes, positions) && AreCited(nodes, cited)
  }

  ghost predicate CitableExactly(nodes: seq<(Id, Option<Id>)>, positions: seq<nat>) {
    forall i | 0 <= i < |nodes| :: i in positions <==> nodes[i].1.Some?
  }

  ghost predicate AreCited(nodes: seq<(Id, Option<Id>)>, cited: seq<Id>) {
    |nodes| == |cited| && forall k | 0 <= k < |nodes| :: nodes[k].1 == Some(cited[k])
  }

  lemma {:induction false} CitableAre(nodes: seq<(Id, Option<Id>)>)
    returns (positions: seq<nat>, kept: seq<(Id, Option<Id>)>)
    ensures Selects(nodes, positions, kept) && CitableExactly(nodes, positions) && AreCited(kept, Citable(nodes))
  {
    positions, kept := [], [];
    if nodes != [] {
      var init, last := nodes[..|nodes| - 1], nodes[|nodes| - 1];
      positions, kept := CitableAre(init);
      assert nodes == init + [last];
      SelectsMore(init, positions, kept, last);
      if last.1.Some? { positions, kept := positions + [|init|], kept + [last]; }
    }
  }

  lemma CitableIdsAre(path: Path)
    ensures CitesInOrder(path, CitableIds(path)) && NoDup(CitableIds(path))
  {
    CitesEveryCitable(path);
    UniqueKeepsFirsts(Citable(path.nodes));
  }

  lemma CitesEveryCitable(path: Path)
    ensures CitesAll(path, Citable(path.nodes))
  {
    var positions, nodes := CitableAre(path.nodes);
  }

  ghost predicate HasEdge(path: Path, relation: string) {
    exists i | 0 <= i < |path.edges| :: path.edges[i].relation == relation
  }

  /** The path has the wanted relation, from a referenced unit when the question asks for that relation. */
  ghost predicate IsWanted(context: Context, path: Path) {
    if context.relationGoal.Some? then
      exists i | 0 <= i < |path.edges| ::
        path.edges[i].relation == context.relationGoal.value && path.edges[i].source in context.referenceIds
    else context.intent == Hierarchy ==> HasEdge(path, "CONTAINS")
  }

  /** At least two units are cited, and all of them are known. */
  ghost predicate IsSupported(cs: seq<Candidate>, path: Path) {
    |CitableIds(path)| >= 2 && forall id | id in CitableIds(path) :: IsKnown(cs, id)
  }

  /** The best rank of the candidates with these ids. */
  ghost predicate IsBestOf(rank: nat, cs: seq<Candidate>, ids: seq<Id>) {
    && (exists id, c :: id in ids && Names(cs, id, c) && c.rank == rank)
    && forall id, c | id in ids && Names(cs, id, c) :: rank <= c.rank
  }

  /** A bundle of a whole path: these units of it, and the path itself. */
  ghost predicate IsWhole(b: Bundle, intent: Intent, cs: seq<Candidate>, ids: seq<Id>, path: Path) {
    b.key == BundleKey(intent, ids, [path.id], [], [], None) && IsBestOf(b.sourceRank, cs, ids)
  }

  lemma WholeIs(intent: Intent, cs: seq<Candidate>, ids: seq<Id>, units: seq<Candidate>, path: Path)
    requires ids != [] && NoDup(ids) && |units| == |ids| && forall i | 0 <= i < |ids| :: Names(cs, ids[i], units[i])
    ensures IsWhole(MakeBundle(intent, units, [path]), intent, cs, ids, path)
  {
    assert UnitIds(units) == ids && PathIds([path]) == [path.id];
    UniqueOfNoDup(ids);
    UniqueOfNoDup([path.id]);
    MinRankIs(units);
    BestOfUnits(MinRank(units), cs, ids, units);
  }

  lemma BestOfUnits(rank: nat, cs: seq<Candidate>, ids: seq<Id>, units: seq<Candidate>)
    requires |units| == |ids| && (forall i | 0 <= i < |ids| :: Names(cs, ids[i], units[i])) && IsBestRank(rank, units)
    ensures IsBestOf(rank, cs, ids)
  {
    var c :| c in units && c.rank == rank;
    var k :| 0 <= k < |units| && units[k] == c;
    assert ids[k] in ids;
    forall id, d | id in ids && Names(cs, id, d) ensures rank <= d.rank {
      var i :| 0 <= i < |ids| && ids[i] == id;
      ByIdNames(cs, id, d);
      ByIdNames(cs, id, units[i]);
      assert units[i] in units;
    }
  }

  lemma ResolvedNames(cs: seq<Candidate>, ids: seq<Id>)
    requires AllKnown(cs, ids)
    ensures |Resolve(cs, ids)| == |ids| && forall i | 0 <= i < |ids| :: Names(cs, ids[i], Resolve(cs, ids)[i])
  {
    forall i | 0 <= i < |ids| ensures Names(cs, ids[i], Resolve(cs, ids)[i]) {
      ByIdNames(cs, ids[i], ById(cs, ids[i]).value);
    }
  }

  lemma SupportedIs(cs: seq<Candidate>, path: Path)
    ensures FullyCited(cs, path) <==> IsSupported(cs, path)
  {
    var ids := CitableIds(path);
    forall i | 0 <= i < |ids| ensures ById(cs, ids[i]).Some? <==> IsKnown(cs, ids[i]) {
      if ById(cs, ids[i]).Some? { ByIdNames(cs, ids[i], ById(cs, ids[i]).value); }
    }
    if IsSupported(cs, path) {
      forall i | 0 <= i < |ids| ensures ById(cs, ids[i]).Some? { assert ids[i] in ids; }
    }
    if FullyCited(cs, path) {
      forall id | id in ids ensures IsKnown(cs, id) { var i :| 0 <= i < |ids| && ids[i] == id; }
    }
  }

  lemma WholePathIs(intent: Intent, cs: seq<Candidate>, path: Path)
    requires FullyCited(cs, path)
    ensures var bs := WholePathBundle(intent, cs, path); |bs| == 1 && IsWhole(bs[0], intent, cs, CitableIds(path), path)
  {
    CitableIdsAre(path);
    ResolvedNames(cs, CitableIds(path));
    WholeIs(intent, cs, CitableIds(path), Resolve(cs, CitableIds(path)), path);
  }

  ghost predicate PathSets(context: Context, cs: seq<Candidate>, paths: seq<Path>, required: seq<seq<Bundle>>) {
    exists positions: seq<nat>, kept: seq<Path> :: PathSetsAre(context, cs, paths, required, positions, kept)
  }

  /** One set for each path that is wanted and supported, in their order. */
  ghost predicate PathSetsAre(context: Context, cs: seq<Candidate>, paths: seq<Path>, required: seq<seq<Bundle>>,
                              positions: seq<nat>, kept: seq<Path>)
  {
    && OneEach(paths, positions, kept, required)
    && (forall i | 0 <= i < |paths| :: i in positions <==> IsWanted(context, paths[i]) && IsSupported(cs, paths[i]))
    && forall k | 0 <= k < |required| :: IsWhole(required[k][0], context.intent, cs, CitableIds(kept[k]), kept[k])
  }

  lemma PathSetsUsed(context: Context, cs: seq<Candidate>, init: seq<Path>, last: Path, required: seq<seq<Bundle>>,
                     positions: seq<nat>, kept: seq<Path>, own: seq<Bundle>)
    requires PathSetsAre(context, cs, init, required, positions, kept)
    requires IsWanted(context, last) && IsSupported(cs, last)
    requires |own| == 1 && IsWhole(own[0], context.intent, cs, CitableIds(last), last)
    ensures PathSetsAre(context, cs, init + [last], required + [own], positions + [|init|], kept + [last])
  {
    SelectsMore(init, positions, kept, last);
    var more := positions + [|init|];
    forall i | 0 <= i < |init| ensures i in more <==> i in positions {}
    forall k | 0 <= k < |required| + 1
      ensures IsWhole((required + [own])[k][0], context.intent, cs, CitableIds((kept + [last])[k]), (kept + [last])[k])
    {
      if k < |required| { assert (required + [own])[k] == required[k] && (kept + [last])[k] == kept[k]; }
    }
  }

  lemma PathSetsSkipped(context: Context, cs: seq<Candidate>, init: seq<Path>, last: Path, required: seq<seq<Bundle>>,
                        positions: seq<nat>, kept: seq<Path>)
    requires PathSetsAre(context, cs, init, required, positions, kept)
    requires !(IsWanted(context, last) && IsSupported(cs, last))
    ensures PathSetsAre(context, cs, init + [last], required, positions, kept)
  {
    SelectsMore(init, positions, kept, last);
  }

  lemma {:induction false} PathBundlesAre(context: Context, cs: seq<Candidate>, paths: seq<Path>)
    returns (positions: seq<nat>, kept: seq<Path>)
    requires context.relationGoal.None?
    ensures PathSetsAre(context, cs, paths, PathBundles(context, cs, paths), positions, kept)
  {
    positions, kept := [], [];
    if paths != [] {
      var init, last := paths[..|paths| - 1], paths[|paths| - 1];
      positions, kept := PathBundlesAre(context, cs, init);
      assert paths == init + [last];
      SupportedIs(cs, last);
      if UsablePath(context, cs, last) {
        WholePathIs(context.intent, cs, last);
        PathSetsUsed(context, cs, init, last, PathBundles(context, cs, init), positions, kept,
                     WholePathBundle(context.intent, cs, last));
        positions, kept := positions + [|init|], kept + [last];
      } else {
        PathSetsSkipped(context, cs, init, last, PathBundles(context, cs, init), positions, kept);
      }
    }
  }

  lemma {:induction false} GoalBundlesAre(context: Context, cs: seq<Candidate>, paths: seq<Path>)
    returns (positions: seq<nat>, kept: seq<Path>)
    requires context.relationGoal.Some?
    ensures PathSetsAre(context, cs, paths, GoalBundles(context, cs, paths), positions, kept)
  {
    positions, kept := [], [];
    if paths != [] {
      var init, last := paths[..|paths| - 1], paths[|paths| - 1];
      positions, kept := GoalBundlesAre(context, cs, init);
      assert paths == init + [last];
      SupportedIs(cs, last);
      if ProvesGoal(context, last) && FullyCited(cs, last) {
        WholePathIs(context.intent, cs, last);
        PathSetsUsed(context, cs, init, last, GoalBundles(context, cs, init), positions, kept,
                     WholePathBundle(context.intent, cs, last));
        positions, kept := positions + [|init|], kept + [last];
      } else {
        PathSetsSkipped(context, cs, init, last, GoalBundles(context, cs, init), positions, kept);
      }
    }
  }
}
