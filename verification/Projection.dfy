/** Choosing the required bundle set and packing the evidence budget (generation/context_projection.py). */
module Projection {
  import opened Prelude
  import opened Compaction

  datatype Config = Config(contextMax: nat, reserve: nat, historyMaxMessages: nat, historyMaxChars: nat)

  /** `overhead` is the size of the fixed prompt and its metadata. */
  datatype Request = Request(context: Context, history: seq<string>, overhead: nat)

  datatype Projected = Projected(
    intent: Intent,
    resolvedFrom: Option<int>,
    resolvedTo: Option<int>,
    relationGoal: Option<string>,
    anchors: seq<Id>,
    composition: Option<seq<Operand>>,
    evidence: seq<Unit>,
    paths: seq<Path>,
    admitted: seq<int>,
    selected: seq<Id>,
    omitted: seq<Omission>,
    budget: nat,
    used: nat,
    truncated: bool)

  datatype Outcome =
    | RequestRejected
    | BudgetMisconfigured
    | NoRequiredSet
    | ExceedsBudget
    | Ready(projected: Projected)

  // -- what compaction guarantees to projection -----------------------------------

  /** `{p.path_id: p for p in paths}.get(id)`. */
  function PathById(paths: seq<Path>, id: Id): (r: Option<Path>)
    ensures r.Some? ==> r.value in paths && r.value.id == id
    ensures r.None? ==> forall p | p in paths :: p.id != id
  {
    if paths == [] then None
    else
      assert paths == paths[..|paths| - 1] + [paths[|paths| - 1]];
      if paths[|paths| - 1].id == id then Some(paths[|paths| - 1]) else PathById(paths[..|paths| - 1], id)
  }

  predicate PathsKnown(paths: seq<Path>, ids: seq<Id>) {
    forall i | 0 <= i < |ids| :: PathById(paths, ids[i]).Some?
  }

  predicate BundleBuildable(plan: Plan, b: Bundle) {
    b.key.unitIds != [] && AllKnown(plan.candidates, b.key.unitIds) && PathsKnown(plan.paths, b.key.pathIds)
  }

  /** Every bundle set is non-empty and names candidates and paths of the plan; otherwise projection raises. */
  ghost predicate Buildable(plan: Plan) {
    AllBuildable(plan, plan.required)
  }

  ghost predicate SetBuildable(plan: Plan, bs: seq<Bundle>) {
    bs != [] && BundlesBuildable(plan, bs)
  }

  ghost predicate BundlesBuildable(plan: Plan, bs: seq<Bundle>) {
    forall i | 0 <= i < |bs| :: BundleBuildable(plan, bs[i])
  }

  ghost predicate AllBuildable(plan: Plan, sets: seq<seq<Bundle>>) {
    forall i | 0 <= i < |sets| :: SetBuildable(plan, sets[i])
  }

  // -- alternatives -----------------------------------------------------------------

  function SetUnits(bs: seq<Bundle>): seq<Id> {
    if bs == [] then [] else SetUnits(bs[..|bs| - 1]) + bs[|bs| - 1].key.unitIds
  }

  function SetPaths(bs: seq<Bundle>): seq<Id> {
    if bs == [] then [] else SetPaths(bs[..|bs| - 1]) + bs[|bs| - 1].key.pathIds
  }

  function SetRank(bs: seq<Bundle>): nat
    requires bs != []
  {
    if |bs| == 1 then bs[0].sourceRank
    else
      var rest := SetRank(bs[1..]);
      if bs[0].sourceRank <= rest then bs[0].sourceRank else rest
  }

  function BundleIds(env: Env, bs: seq<Bundle>): seq<int> {
    seq(|bs|, i requires 0 <= i < |bs| => env.digest(bs[i].key))
  }

  function UnitsCost(env: Env, cs: seq<Candidate>, ids: seq<Id>): nat
    requires AllKnown(cs, ids)
  {
    if ids == [] then 0
    else UnitsCost(env, cs, ids[..|ids| - 1]) + env.unitCost(ById(cs, ids[|ids| - 1]).value.unit)
  }

  function PathsCost(env: Env, paths: seq<Path>, ids: seq<Id>): nat
    requires PathsKnown(paths, ids)
  {
    if ids == [] then 0
    else PathsCost(env, paths, ids[..|ids| - 1]) + env.pathCost(PathById(paths, ids[|ids| - 1]).value)
  }

  datatype Alternative = Alternative(
    bundles: seq<Bundle>,
    unitIds: seq<Id>,
    pathIds: seq<Id>,
    cost: nat,
    rank: nat,
    ids: seq<int>)

  predicate IdsLe(a: seq<int>, b: seq<int>) {
    a == [] || (b != [] && (a[0] < b[0] || (a[0] == b[0] && IdsLe(a[1..], b[1..]))))
  }

  /** The sort key: best source rank, then cost, then bundle identifiers. */
  predicate AlternativeLe(a: Alternative, b: Alternative) {
    || a.rank < b.rank
    || (a.rank == b.rank && a.cost < b.cost)
    || (a.rank == b.rank && a.cost == b.cost && IdsLe(a.ids, b.ids))
  }

  lemma {:induction false} IdsLeTotal(a: seq<int>, b: seq<int>)
    ensures IdsLe(a, b) || IdsLe(b, a)
  {
    if a != [] && b != [] && a[0] == b[0] { IdsLeTotal(a[1..], b[1..]); }
  }

  lemma {:induction false} IdsLeTransitive(a: seq<int>, b: seq<int>, c: seq<int>)
    requires IdsLe(a, b) && IdsLe(b, c)
    ensures IdsLe(a, c)
  {
    if a != [] && a[0] == b[0] == c[0] { IdsLeTransitive(a[1..], b[1..], c[1..]); }
  }

  lemma AlternativeLeIsTotal()
    ensures TotalPreorder(AlternativeLe)
  {
    forall a, b ensures AlternativeLe(a, b) || AlternativeLe(b, a) {
      IdsLeTotal(a.ids, b.ids);
    }
    forall a, b, c | AlternativeLe(a, b) && AlternativeLe(b, c) ensures AlternativeLe(a, c) {
      if IdsLe(a.ids, b.ids) && IdsLe(b.ids, c.ids) { IdsLeTransitive(a.ids, b.ids, c.ids); }
    }
  }

  lemma {:induction false} SetUnitsKnown(plan: Plan, bs: seq<Bundle>)
    requires BundlesBuildable(plan, bs)
    ensures AllKnown(plan.candidates, SetUnits(bs)) && PathsKnown(plan.paths, SetPaths(bs))
    ensures forall b | b in bs :: (forall id | id in b.key.unitIds :: id in SetUnits(bs))
                               && (forall id | id in b.key.pathIds :: id in SetPaths(bs))
    ensures forall id | id in SetPaths(bs) :: exists b | b in bs :: id in b.key.pathIds
  {
    if bs != [] {
      var init, last := bs[..|bs| - 1], bs[|bs| - 1];
      assert bs == init + [last];
      SetUnitsKnown(plan, init);
      assert BundleBuildable(plan, last);
    }
  }

  lemma UniqueKnown(plan: Plan, units: seq<Id>, paths: seq<Id>)
    requires AllKnown(plan.candidates, units) && PathsKnown(plan.paths, paths)
    ensures AllKnown(plan.candidates, Unique(units)) && PathsKnown(plan.paths, Unique(paths))
  {
    forall i | 0 <= i < |Unique(units)| ensures ById(plan.candidates, Unique(units)[i]).Some? {
      assert Unique(units)[i] in units;
    }
    forall i | 0 <= i < |Unique(paths)| ensures PathById(plan.paths, Unique(paths)[i]).Some? {
      assert Unique(paths)[i] in paths;
    }
  }

  function MakeAlternative(env: Env, plan: Plan, bs: seq<Bundle>): (a: Alternative)
    requires SetBuildable(plan, bs)
    ensures AllKnown(plan.candidates, a.unitIds) && PathsKnown(plan.paths, a.pathIds)
  {
    SetUnitsKnown(plan, bs);
    UniqueKnown(plan, SetUnits(bs), SetPaths(bs));
    var units, paths := Unique(SetUnits(bs)), Unique(SetPaths(bs));
    Alternative(bs, units, paths, UnitsCost(env, plan.candidates, units) + PathsCost(env, plan.paths, paths),
                SetRank(bs), BundleIds(env, bs))
  }

  function Alternatives(env: Env, plan: Plan, sets: seq<seq<Bundle>>): (r: seq<Alternative>)
    requires AllBuildable(plan, sets)
    ensures |r| == |sets|
  {
    seq(|sets|, i requires 0 <= i < |sets| => MakeAlternative(env, plan, sets[i]))
  }

  function SortedAlternatives(env: Env, plan: Plan): seq<Alternative>
    requires Buildable(plan)
  {
    SortBy(Alternatives(env, plan, plan.required), AlternativeLe)
  }

  function FirstAffordable(alternatives: seq<Alternative>, budget: nat): (r: Option<Alternative>)
    ensures r.Some? ==> r.value in alternatives && r.value.cost <= budget
    ensures r.None? ==> forall a | a in alternatives :: a.cost > budget
  {
    if alternatives == [] then None
    else if alternatives[0].cost <= budget then Some(alternatives[0])
    else FirstAffordable(alternatives[1..], budget)
  }

  // -- packing ------------------------------------------------------------------------

  datatype Packing = Packing(selected: seq<Id>, evidence: seq<Unit>, omitted: seq<Omission>, used: nat)

  function PackOne(env: Env, p: Packing, c: Candidate, budget: nat): Packing {
    var cost := env.unitCost(c.unit);
    if c.unit.id in p.selected then p
    else if p.used + cost > budget then p.(omitted := p.omitted + [Omission(c.unit.id, BudgetExceeded, None)])
    else p.(selected := p.selected + [c.unit.id], evidence := p.evidence + [c.unit], used := p.used + cost)
  }

  function PackAll(env: Env, p: Packing, ordered: seq<Candidate>, budget: nat): Packing {
    if ordered == [] then p
    else PackOne(env, PackAll(env, p, ordered[..|ordered| - 1], budget), ordered[|ordered| - 1], budget)
  }

  function ChosenUnits(plan: Plan, ids: seq<Id>): (r: seq<Unit>)
    requires AllKnown(plan.candidates, ids)
    ensures |r| == |ids| && forall i | 0 <= i < |ids| :: r[i].id == ids[i]
  {
    seq(|ids|, i requires 0 <= i < |ids| => ById(plan.candidates, ids[i]).value.unit)
  }

  function ChosenPaths(plan: Plan, ids: seq<Id>): (r: seq<Path>)
    requires PathsKnown(plan.paths, ids)
    ensures |r| == |ids| && forall i | 0 <= i < |ids| :: r[i].id == ids[i] && r[i] in plan.paths
  {
    seq(|ids|, i requires 0 <= i < |ids| => PathById(plan.paths, ids[i]).value)
  }

  function StartPacking(plan: Plan, chosen: Alternative): Packing
    requires AllKnown(plan.candidates, chosen.unitIds)
  {
    Packing(chosen.unitIds, ChosenUnits(plan, chosen.unitIds), plan.omitted, chosen.cost)
  }

  function Selected(ids: seq<Id>, selected: seq<Id>): (r: seq<Id>)
    ensures forall id :: id in r <==> id in ids && id in selected
  {
    if ids == [] then []
    else
      var before, last := Selected(ids[..|ids| - 1], selected), ids[|ids| - 1];
      assert ids == ids[..|ids| - 1] + [last];
      if last in selected then before + [last] else before
  }

  function ProjectComposition(composition: Option<seq<Operand>>, selected: seq<Id>): Option<seq<Operand>> {
    match composition
    case None => None
    case Some(operands) =>
      Some(seq(|operands|, i requires 0 <= i < |operands| =>
        operands[i].(evidenceIds := Selected(operands[i].evidenceIds, selected))))
  }

  predicate AnyBudgetOmission(omitted: seq<Omission>) {
    exists i | 0 <= i < |omitted| :: omitted[i].reason == BudgetExceeded
  }

  function Assemble(
      env: Env, request: Request, plan: Plan, chosen: Alternative, packed: Packing, budget: nat): Projected
    requires PathsKnown(plan.paths, chosen.pathIds)
  {
    Projected(
      request.context.intent, request.context.resolvedFrom, request.context.resolvedTo, request.context.relationGoal,
      request.context.referenceIds, ProjectComposition(plan.composition, packed.selected), packed.evidence,
      ChosenPaths(plan, chosen.pathIds), chosen.ids, packed.selected, packed.omitted, budget, packed.used,
      AnyBudgetOmission(packed.omitted))
  }

  function HistoryChars(history: seq<string>): nat {
    if history == [] then 0 else |history[0]| + HistoryChars(history[1..])
  }

  predicate HistoryAccepted(config: Config, request: Request) {
    |request.history| <= config.historyMaxMessages && HistoryChars(request.history) <= config.historyMaxChars
  }

  /** What is left of the context once the fixed prompt and the reserve are taken out. */
  function EvidenceBudget(config: Config, request: Request): int {
    config.contextMax - config.reserve - request.overhead
  }

  function ChosenSet(env: Env, plan: Plan, budget: nat): (r: Option<Alternative>)
    requires Buildable(plan)
    ensures r.Some? ==> exists bs | bs in plan.required :: r.value == MakeAlternative(env, plan, bs)
    ensures r.Some? ==> AllKnown(plan.candidates, r.value.unitIds) && PathsKnown(plan.paths, r.value.pathIds)
  {
    var r := FirstAffordable(SortedAlternatives(env, plan), budget);
    SortByMembers(Alternatives(env, plan, plan.required), AlternativeLe);
    r
  }

  function Project(env: Env, config: Config, request: Request, plan: Plan): Outcome
    requires Buildable(plan)
  {
    var budget := EvidenceBudget(config, request);
    if !HistoryAccepted(config, request) then RequestRejected
    else if budget <= 0 then BudgetMisconfigured
    else if plan.required == [] then NoRequiredSet
    else
      match ChosenSet(env, plan, budget)
      case None => ExceedsBudget
      case Some(chosen) =>
        var packed := PackAll(env, StartPacking(plan, chosen), Ordered(plan.candidates), budget);
        Ready(Assemble(env, request, plan, chosen, packed, budget))
  }

  method ProjectEvidence(env: Env, config: Config, request: Request, plan: Plan) returns (outcome: Outcome)
    requires Buildable(plan)
    ensures outcome == Project(env, config, request, plan)
  {
    if !HistoryAccepted(config, request) {
      return RequestRejected;
    }
    var budget := EvidenceBudget(config, request);
    if budget <= 0 {
      return BudgetMisconfigured;
    }
    if plan.required == [] {
      return NoRequiredSet;
    }
    var alternatives := BuildAlternatives(env, plan);
    var chosen := PickFirst(SortBy(alternatives, AlternativeLe), budget);
    assert chosen == ChosenSet(env, plan, budget);
    if chosen.None? {
      return ExceedsBudget;
    }
    var packed := PackCandidates(env, plan, chosen.value, budget);
    outcome := Ready(Assemble(env, request, plan, chosen.value, packed, budget));
  }

  method BuildAlternatives(env: Env, plan: Plan) returns (alternatives: seq<Alternative>)
    requires Buildable(plan)
    ensures alternatives == Alternatives(env, plan, plan.required)
  {
    alternatives := [];
    var i := 0;
    while i < |plan.required|
      invariant i <= |plan.required| && AllBuildable(plan, plan.required[..i])
      invariant alternatives == Alternatives(env, plan, plan.required[..i])
    {
      AlternativesStep(env, plan, plan.required, i);
      alternatives := alternatives + [MakeAlternative(env, plan, plan.required[i])];
      i := i + 1;
    }
    assert plan.required[..i] == plan.required;
  }

  lemma PrefixBuildable(plan: Plan, sets: seq<seq<Bundle>>, i: nat)
    requires AllBuildable(plan, sets) && i <= |sets|
    ensures AllBuildable(plan, sets[..i])
  {}

  lemma AlternativesStep(env: Env, plan: Plan, sets: seq<seq<Bundle>>, i: nat)
    requires AllBuildable(plan, sets) && i < |sets|
    ensures SetBuildable(plan, sets[i]) && AllBuildable(plan, sets[..i]) && AllBuildable(plan, sets[..i + 1])
    ensures Alternatives(env, plan, sets[..i + 1])
            == Alternatives(env, plan, sets[..i]) + [MakeAlternative(env, plan, sets[i])]
  {
    PrefixBuildable(plan, sets, i);
    PrefixBuildable(plan, sets, i + 1);
    assert SetBuildable(plan, sets[i]);
    assert sets[..i + 1] == sets[..i] + [sets[i]];
    AlternativesGrow(env, plan, sets[..i], sets[i]);
  }

  lemma AlternativesGrow(env: Env, plan: Plan, sets: seq<seq<Bundle>>, last: seq<Bundle>)
    requires AllBuildable(plan, sets) && SetBuildable(plan, last) && AllBuildable(plan, sets + [last])
    ensures Alternatives(env, plan, sets + [last]) == Alternatives(env, plan, sets) + [MakeAlternative(env, plan, last)]
  {}

  method PickFirst(sorted: seq<Alternative>, budget: nat) returns (chosen: Option<Alternative>)
    ensures chosen == FirstAffordable(sorted, budget)
  {
    for i := 0 to |sorted|
      invariant FirstAffordable(sorted, budget) == FirstAffordable(sorted[i..], budget)
    {
      if sorted[i].cost <= budget {
        return Some(sorted[i]);
      }
    }
    chosen := None;
  }

  method PackCandidates(env: Env, plan: Plan, chosen: Alternative, budget: nat) returns (packed: Packing)
    requires AllKnown(plan.candidates, chosen.unitIds)
    ensures packed == PackAll(env, StartPacking(plan, chosen), Ordered(plan.candidates), budget)
  {
    packed := StartPacking(plan, chosen);
    var ordered := Ordered(plan.candidates);
    for i := 0 to |ordered|
      invariant packed == PackAll(env, StartPacking(plan, chosen), ordered[..i], budget)
    {
      assert ordered[..i + 1][..i] == ordered[..i];
      packed := PackOne(env, packed, ordered[i], budget);
    }
    assert ordered[..|ordered|] == ordered;
  }

  // -- the choice -----------------------------------------------------------------------

  /** A set is projected exactly when some required set fits, and it is the first in sort order among those that fit. */
  lemma ChoiceIsFirstAffordable(env: Env, plan: Plan, budget: nat)
    requires Buildable(plan)
    ensures var chosen := ChosenSet(env, plan, budget);
      && (chosen.Some? <==> exists bs | bs in plan.required :: MakeAlternative(env, plan, bs).cost <= budget)
      && (chosen.Some? ==>
          && chosen.value.cost <= budget
          && forall bs | bs in plan.required ::
               var other := MakeAlternative(env, plan, bs);
               other.cost <= budget ==> AlternativeLe(chosen.value, other))
  {
    var all := Alternatives(env, plan, plan.required);
    var sorted := SortedAlternatives(env, plan);
    AlternativeLeIsTotal();
    SortBySorted(all, AlternativeLe);
    SortByMembers(all, AlternativeLe);
    forall bs | bs in plan.required ensures MakeAlternative(env, plan, bs) in sorted {
      var i :| 0 <= i < |plan.required| && plan.required[i] == bs;
      assert all[i] in all;
    }
    FirstAffordableIsLeast(sorted, budget);
  }

  lemma {:induction false} FirstAffordableIsLeast(sorted: seq<Alternative>, budget: nat)
    requires SortedBy(sorted, AlternativeLe) && TotalPreorder(AlternativeLe)
    ensures var r := FirstAffordable(sorted, budget);
      r.Some? ==> forall a | a in sorted && a.cost <= budget :: AlternativeLe(r.value, a)
  {
    if sorted != [] {
      if sorted[0].cost <= budget {
        assert AlternativeLe(sorted[0], sorted[0]);
        forall a | a in sorted ensures AlternativeLe(sorted[0], a) {
          var i :| 0 <= i < |sorted| && sorted[i] == a;
        }
      } else {
        FirstAffordableIsLeast(sorted[1..], budget);
      }
    }
  }

  // -- the packing ----------------------------------------------------------------------

  predicate UnitsMatchIds(ids: seq<Id>, units: seq<Unit>) {
    |ids| == |units| && forall i | 0 <= i < |ids| :: units[i].id == ids[i]
  }

  function EvidenceCost(env: Env, units: seq<Unit>): nat {
    if units == [] then 0 else EvidenceCost(env, units[..|units| - 1]) + env.unitCost(units[|units| - 1])
  }

  /** The counter is the size of the selected evidence plus what it started with, and never exceeds the budget. */
  ghost predicate Balanced(env: Env, p: Packing, budget: nat, extra: nat) {
    && NoDup(p.selected) && UnitsMatchIds(p.selected, p.evidence)
    && p.used == EvidenceCost(env, p.evidence) + extra && p.used <= budget
  }

  ghost predicate Grows(p: Packing, r: Packing) {
    p.selected <= r.selected && p.evidence <= r.evidence && p.used <= r.used && p.omitted <= r.omitted
  }

  lemma {:induction false} PackingAccounts(env: Env, p: Packing, ordered: seq<Candidate>, budget: nat, extra: nat)
    requires Balanced(env, p, budget, extra)
    ensures var r := PackAll(env, p, ordered, budget); Balanced(env, r, budget, extra) && Grows(p, r)
  {
    if ordered != [] {
      PackingAccounts(env, p, ordered[..|ordered| - 1], budget, extra);
      PackOneAccounts(env, PackAll(env, p, ordered[..|ordered| - 1], budget), ordered[|ordered| - 1], budget, extra);
    }
  }

  lemma PackOneAccounts(env: Env, p: Packing, c: Candidate, budget: nat, extra: nat)
    requires Balanced(env, p, budget, extra)
    ensures var r := PackOne(env, p, c, budget); Balanced(env, r, budget, extra) && Grows(p, r)
  {
    assert (p.evidence + [c.unit])[..|p.evidence|] == p.evidence;
  }

  function NewOmissions(p: Packing, r: Packing): seq<Omission>
    requires p.omitted <= r.omitted
  {
    r.omitted[|p.omitted|..]
  }

  lemma {:induction false} PackingOmits(env: Env, p: Packing, ordered: seq<Candidate>, budget: nat)
    ensures var r := PackAll(env, p, ordered, budget);
      && p.omitted <= r.omitted && p.selected <= r.selected && p.used <= r.used
      && (forall o | o in NewOmissions(p, r) :: o.reason == BudgetExceeded && o.retainedId == None)
      && (forall o | o in NewOmissions(p, r) ::
            exists c | c in ordered :: c.unit.id == o.unitId && r.used + env.unitCost(c.unit) > budget)
      && (forall c | c in ordered ::
            c.unit.id in r.selected || Omission(c.unit.id, BudgetExceeded, None) in NewOmissions(p, r))
  {
    var r := PackAll(env, p, ordered, budget);
    if ordered == [] {
      assert NewOmissions(p, r) == [];
    } else {
      var init, c := ordered[..|ordered| - 1], ordered[|ordered| - 1];
      assert ordered == init + [c];
      PackingOmits(env, p, init, budget);
      var before := PackAll(env, p, init, budget);
      var o := Omission(c.unit.id, BudgetExceeded, None);
      if c.unit.id !in before.selected && before.used + env.unitCost(c.unit) > budget {
        assert NewOmissions(p, r) == NewOmissions(p, before) + [o];
        assert c in ordered;
      } else {
        assert NewOmissions(p, r) == NewOmissions(p, before);
      }
    }
  }

  /** With distinct unit ids no candidate is both selected and left out for size, and none is left out twice. */
  lemma {:induction false} PackingExcludes(env: Env, p: Packing, ordered: seq<Candidate>, budget: nat)
    requires NoDup(UnitIds(ordered))
    ensures var r := PackAll(env, p, ordered, budget);
      && p.omitted <= r.omitted
      && (forall o | o in NewOmissions(p, r) :: o.unitId !in r.selected && o.unitId in UnitIds(ordered))
      && (forall id | id in r.selected :: id in p.selected || id in UnitIds(ordered))
      && NoDup(NewOmissions(p, r))
  {
    var r := PackAll(env, p, ordered, budget);
    if ordered == [] {
      assert NewOmissions(p, r) == [];
    } else {
      var init, c := ordered[..|ordered| - 1], ordered[|ordered| - 1];
      assert UnitIds(ordered) == UnitIds(init) + [c.unit.id];
      NoDupPrefix(UnitIds(init), c.unit.id);
      PackingExcludes(env, p, init, budget);
      var before := PackAll(env, p, init, budget);
      if c.unit.id !in before.selected && before.used + env.unitCost(c.unit) > budget {
        assert NewOmissions(p, r) == NewOmissions(p, before) + [Omission(c.unit.id, BudgetExceeded, None)];
      } else {
        assert NewOmissions(p, r) == NewOmissions(p, before);
      }
    }
  }

  lemma {:induction false} CostOfChosen(env: Env, plan: Plan, ids: seq<Id>)
    requires AllKnown(plan.candidates, ids)
    ensures UnitsCost(env, plan.candidates, ids) == EvidenceCost(env, ChosenUnits(plan, ids))
  {
    if ids != [] {
      var init := ids[..|ids| - 1];
      CostOfChosen(env, plan, init);
      assert ChosenUnits(plan, ids)[..|ids| - 1] == ChosenUnits(plan, init);
    }
  }

  /** What is used is exactly the size of the selected units and the chosen paths, and everything fits the context. */
  lemma UsedIsExact(env: Env, config: Config, request: Request, plan: Plan)
    requires Buildable(plan) && Project(env, config, request, plan).Ready?
    ensures var p := Project(env, config, request, plan).projected;
      var chosen := ChosenSet(env, plan, p.budget);
      && chosen.Some?
      && p.used == EvidenceCost(env, p.evidence) + PathsCost(env, plan.paths, chosen.value.pathIds)
      && p.used <= p.budget && request.overhead + config.reserve + p.used <= config.contextMax
      && NoDup(p.selected) && |p.selected| == |p.evidence|
      && (forall i | 0 <= i < |p.selected| :: p.evidence[i].id == p.selected[i])
      && chosen.value.unitIds <= p.selected
      && ChosenUnits(plan, chosen.value.unitIds) <= p.evidence
  {
    var p := Project(env, config, request, plan).projected;
    var chosen := ChosenSet(env, plan, p.budget).value;
    CostOfChosen(env, plan, chosen.unitIds);
    PackingAccounts(env, StartPacking(plan, chosen), Ordered(plan.candidates), p.budget,
                    PathsCost(env, plan.paths, chosen.pathIds));
  }

  /** Every candidate is selected or left out for size and not both, and none of those left out would fit at the end. */
  lemma OmittedForSize(env: Env, start: Packing, plan: Plan, budget: nat)
    requires NoDup(UnitIds(plan.candidates))
    requires forall o | o in start.omitted :: o.reason != BudgetExceeded
    ensures var r := PackAll(env, start, Ordered(plan.candidates), budget);
      && start.omitted <= r.omitted && NoDup(NewOmissions(start, r))
      && (forall o | o in r.omitted :: o.reason == BudgetExceeded <==> o in NewOmissions(start, r))
      && (forall c | c in plan.candidates ::
            (c.unit.id in r.selected) != (Omission(c.unit.id, BudgetExceeded, None) in r.omitted))
      && (forall o | o in NewOmissions(start, r) ::
            && o.unitId !in r.selected
            && exists c | c in plan.candidates :: c.unit.id == o.unitId && r.used + env.unitCost(c.unit) > budget)
  {
    var ordered := Ordered(plan.candidates);
    var r := PackAll(env, start, ordered, budget);
    PackingOmits(env, start, ordered, budget);
    SortByMembers(plan.candidates, RankLe);
    OrderedIdsDistinct(plan.candidates);
    PackingExcludes(env, start, ordered, budget);
    assert r.omitted == start.omitted + NewOmissions(start, r);
    forall c | c in plan.candidates
      ensures (c.unit.id in r.selected) != (Omission(c.unit.id, BudgetExceeded, None) in r.omitted)
    {
      assert c in ordered;
    }
    forall o | o in NewOmissions(start, r)
      ensures exists c | c in plan.candidates :: c.unit.id == o.unitId && r.used + env.unitCost(c.unit) > budget
    {
      var c :| c in ordered && c.unit.id == o.unitId && r.used + env.unitCost(c.unit) > budget;
      assert c in plan.candidates;
    }
  }

  /** The packing of a projection is tight, and `truncated` says exactly whether some candidate was left out. */
  lemma PackingIsTight(env: Env, config: Config, request: Request, plan: Plan)
    requires Buildable(plan) && NoDup(UnitIds(plan.candidates))
    requires forall o | o in plan.omitted :: o.reason != BudgetExceeded
    requires Project(env, config, request, plan).Ready?
    ensures var p := Project(env, config, request, plan).projected;
      && (forall c | c in plan.candidates ::
            (c.unit.id in p.selected) != (Omission(c.unit.id, BudgetExceeded, None) in p.omitted))
      && (forall o | o in p.omitted && o.reason == BudgetExceeded ::
            exists c | c in plan.candidates :: c.unit.id == o.unitId && p.used + env.unitCost(c.unit) > p.budget)
      && (p.truncated <==> exists c :: c in plan.candidates && c.unit.id !in p.selected)
  {
    var p := Project(env, config, request, plan).projected;
    var chosen := ChosenSet(env, plan, p.budget).value;
    OmittedForSize(env, StartPacking(plan, chosen), plan, p.budget);
    if c :| c in plan.candidates && c.unit.id !in p.selected {
      var i :| 0 <= i < |p.omitted| && p.omitted[i] == Omission(c.unit.id, BudgetExceeded, None);
    }
    if p.truncated {
      var i :| 0 <= i < |p.omitted| && p.omitted[i].reason == BudgetExceeded;
      var o := p.omitted[i];
      assert o in p.omitted;
      var c :| c in plan.candidates && c.unit.id == o.unitId;
    }
  }

  lemma OrderedIdsDistinct(cs: seq<Candidate>)
    requires NoDup(UnitIds(cs))
    ensures NoDup(UnitIds(Ordered(cs)))
  {
    var sorted := Ordered(cs);
    assert NoDup(cs) by {
      forall i, j | 0 <= i < j < |cs| ensures cs[i] != cs[j] { assert UnitIds(cs)[i] != UnitIds(cs)[j]; }
    }
    SortByNoDup(cs, RankLe);
    SortByMembers(cs, RankLe);
    forall i, j | 0 <= i < j < |sorted| ensures UnitIds(sorted)[i] != UnitIds(sorted)[j] {
      assert sorted[i] in cs && sorted[j] in cs && sorted[i] != sorted[j];
      var a :| 0 <= a < |cs| && cs[a] == sorted[i];
      var b :| 0 <= b < |cs| && cs[b] == sorted[j];
      assert UnitIds(cs)[a] != UnitIds(cs)[b];
    }
  }
}
