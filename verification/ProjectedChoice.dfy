/** What a projection holds, read off the plan and the budget (generation/context_projection.py). */
module ProjectedChoice {
  import opened Prelude
  import opened Text
  import opened Compaction
  import opened Projection
  import opened RequiredEvidence

  // -- sizes ------------------------------------------------------------------------

  function Total(sizes: seq<int>): int { if sizes == [] then 0 else sizes[0] + Total(sizes[1..]) }

  lemma {:induction false} TotalAppend(sizes: seq<int>, last: int)
    ensures Total(sizes + [last]) == Total(sizes) + last
  {
    if sizes == [] {
      assert [] + [last] == [last] && [last][1..] == [];
    } else {
      assert (sizes + [last])[1..] == sizes[1..] + [last];
      TotalAppend(sizes[1..], last);
    }
  }

  function UnitSizes(env: Env, units: seq<Unit>): seq<int> {
    seq(|units|, i requires 0 <= i < |units| => env.unitCost(units[i]))
  }

  function PathSizes(env: Env, paths: seq<Path>): seq<int> {
    seq(|paths|, i requires 0 <= i < |paths| => env.pathCost(paths[i]))
  }

  lemma {:induction false} EvidenceCostIs(env: Env, units: seq<Unit>)
    ensures EvidenceCost(env, units) == Total(UnitSizes(env, units))
  {
    if units != [] {
      var init, last := units[..|units| - 1], units[|units| - 1];
      EvidenceCostIs(env, init);
      assert UnitSizes(env, units) == UnitSizes(env, init) + [env.unitCost(last)];
      TotalAppend(UnitSizes(env, init), env.unitCost(last));
    }
  }

  lemma {:induction false} PathsCostIs(env: Env, plan: Plan, ids: seq<Id>)
    requires PathsKnown(plan.paths, ids)
    ensures PathsCost(env, plan.paths, ids) == Total(PathSizes(env, ChosenPaths(plan, ids)))
  {
    if ids != [] {
      var init, last := ids[..|ids| - 1], ids[|ids| - 1];
      PathsCostIs(env, plan, init);
      var path := PathById(plan.paths, last).value;
      assert PathSizes(env, ChosenPaths(plan, ids)) == PathSizes(env, ChosenPaths(plan, init)) + [env.pathCost(path)];
      TotalAppend(PathSizes(env, ChosenPaths(plan, init)), env.pathCost(path));
    }
  }

  /** The units and paths of a bundle set, each once, as they are first mentioned. */
  ghost predicate Gathers(plan: Plan, bs: seq<Bundle>, units: seq<Candidate>, paths: seq<Path>) {
    && FirstOccurrences(Mentioned(bs), UnitIds(units)) && FirstOccurrences(MentionedPaths(bs), PathIds(paths))
    && (forall k | 0 <= k < |units| :: Names(plan.candidates, units[k].unit.id, units[k]))
    && (forall k | 0 <= k < |paths| :: NamesPath(plan.paths, paths[k]))
  }

  function Mentioned(bs: seq<Bundle>): seq<Id> {
    if bs == [] then [] else bs[0].key.unitIds + Mentioned(bs[1..])
  }

  function MentionedPaths(bs: seq<Bundle>): seq<Id> {
    if bs == [] then [] else bs[0].key.pathIds + MentionedPaths(bs[1..])
  }

  /** The last path with its id. */
  ghost predicate NamesPath(paths: seq<Path>, p: Path) {
    exists i | 0 <= i < |paths| :: paths[i] == p && forall j | i < j < |paths| :: paths[j].id != p.id
  }

  lemma {:induction false} MentionedJoin(a: seq<Bundle>, b: seq<Bundle>)
    ensures Mentioned(a + b) == Mentioned(a) + Mentioned(b)
    ensures MentionedPaths(a + b) == MentionedPaths(a) + MentionedPaths(b)
  {
    if a == [] {
      assert a + b == b;
    } else {
      assert (a + b)[1..] == a[1..] + b;
      MentionedJoin(a[1..], b);
    }
  }

  lemma {:induction false} MentionedAre(bs: seq<Bundle>)
    ensures SetUnits(bs) == Mentioned(bs) && SetPaths(bs) == MentionedPaths(bs)
  {
    if bs != [] {
      var init, last := bs[..|bs| - 1], bs[|bs| - 1];
      MentionedAre(init);
      assert bs == init + [last];
      MentionedJoin(init, [last]);
      assert [last][1..] == [];
    }
  }

  lemma {:induction false} PathByIdNames(paths: seq<Path>, id: Id)
    requires PathById(paths, id).Some?
    ensures NamesPath(paths, PathById(paths, id).value)
  {
    var init, last := paths[..|paths| - 1], paths[|paths| - 1];
    if last.id != id {
      PathByIdNames(init, id);
      var p := PathById(init, id).value;
      var i :| 0 <= i < |init| && init[i] == p && forall j | i < j < |init| :: init[j].id != p.id;
      assert paths[i] == p;
      forall j | i < j < |paths| ensures paths[j].id != p.id { if j < |init| { assert paths[j] == init[j]; } }
    }
  }

  /** The size of a bundle set. */
  ghost predicate IsSize(env: Env, plan: Plan, bs: seq<Bundle>, size: int) {
    exists units: seq<Candidate>, paths: seq<Path> ::
      Gathers(plan, bs, units, paths) && size == SizeOf(env, units, paths)
  }

  function SizeOf(env: Env, units: seq<Candidate>, paths: seq<Path>): int {
    Total(UnitSizes(env, UnitsOf(units))) + Total(PathSizes(env, paths))
  }

  function UnitsOf(cs: seq<Candidate>): seq<Unit> { seq(|cs|, i requires 0 <= i < |cs| => cs[i].unit) }

  lemma AlternativeGathers(env: Env, plan: Plan, bs: seq<Bundle>) returns (units: seq<Candidate>, paths: seq<Path>)
    requires SetBuildable(plan, bs)
    ensures var a := MakeAlternative(env, plan, bs);
      && UnitIds(units) == a.unitIds && UnitsOf(units) == ChosenUnits(plan, a.unitIds)
      && paths == ChosenPaths(plan, a.pathIds)
      && Gathers(plan, bs, units, paths) && a.cost == SizeOf(env, units, paths)
  {
    SetUnitsKnown(plan, bs);
    UniqueKnown(plan, SetUnits(bs), SetPaths(bs));
    units := GatherUnits(env, plan, Unique(SetUnits(bs)));
    paths := ChosenPaths(plan, Unique(SetPaths(bs)));
    GatherPaths(env, plan, Unique(SetPaths(bs)));
    MentionedAre(bs);
    UniqueKeepsFirsts(Mentioned(bs));
    UniqueKeepsFirsts(MentionedPaths(bs));
  }

  lemma GatherUnits(env: Env, plan: Plan, ids: seq<Id>) returns (units: seq<Candidate>)
    requires AllKnown(plan.candidates, ids)
    ensures UnitIds(units) == ids && UnitsOf(units) == ChosenUnits(plan, ids)
    ensures forall k | 0 <= k < |units| :: Names(plan.candidates, units[k].unit.id, units[k])
    ensures UnitsCost(env, plan.candidates, ids) == Total(UnitSizes(env, UnitsOf(units)))
  {
    units := Resolve(plan.candidates, ids);
    ResolvedNames(plan.candidates, ids);
    CostOfChosen(env, plan, ids);
    EvidenceCostIs(env, ChosenUnits(plan, ids));
    assert UnitIds(units) == ids && UnitsOf(units) == ChosenUnits(plan, ids);
  }

  lemma GatherPaths(env: Env, plan: Plan, ids: seq<Id>)
    requires PathsKnown(plan.paths, ids)
    ensures var paths := ChosenPaths(plan, ids);
      && PathIds(paths) == ids && (forall k | 0 <= k < |paths| :: NamesPath(plan.paths, paths[k]))
      && PathsCost(env, plan.paths, ids) == Total(PathSizes(env, paths))
  {
    PathsCostIs(env, plan, ids);
    forall k | 0 <= k < |ids| ensures NamesPath(plan.paths, ChosenPaths(plan, ids)[k]) {
      PathByIdNames(plan.paths, ids[k]);
    }
  }

  lemma SizeIs(env: Env, plan: Plan, bs: seq<Bundle>)
    requires SetBuildable(plan, bs)
    ensures IsSize(env, plan, bs, MakeAlternative(env, plan, bs).cost)
  {
    var units, paths := AlternativeGathers(env, plan, bs);
  }

  // -- preference ---------------------------------------------------------------------

  ghost predicate IsSetRank(bs: seq<Bundle>, rank: nat) {
    (exists b | b in bs :: b.sourceRank == rank) && forall b | b in bs :: rank <= b.sourceRank
  }

  lemma {:induction false} SetRankIs(bs: seq<Bundle>)
    requires bs != []
    ensures IsSetRank(bs, SetRank(bs))
  {
    if |bs| == 1 {
      assert bs[0] in bs;
    } else {
      SetRankIs(bs[1..]);
      assert bs == [bs[0]] + bs[1..];
    }
  }

  /** Identifiers in lexicographic order. */
  ghost predicate NoGreater(a: seq<int>, b: seq<int>) {
    a <= b || exists i | 0 <= i < |a| && i < |b| :: a[..i] == b[..i] && a[i] < b[i]
  }

  lemma {:induction false} IdsLeIs(a: seq<int>, b: seq<int>)
    requires IdsLe(a, b)
    ensures NoGreater(a, b)
  {
    if a != [] && a[0] == b[0] {
      IdsLeIs(a[1..], b[1..]);
      if a[1..] <= b[1..] {
        assert a == [a[0]] + a[1..] && b == [b[0]] + b[1..];
      } else {
        var i :| 0 <= i < |a[1..]| && i < |b[1..]| && a[1..][..i] == b[1..][..i] && a[1..][i] < b[1..][i];
        assert a[..i + 1] == [a[0]] + a[1..][..i] && b[..i + 1] == [b[0]] + b[1..][..i];
        assert a[i + 1] < b[i + 1];
      }
    } else if a != [] {
      assert a[..0] == b[..0];
    }
  }

  /** Better ranked, or smaller at the same rank, or with the smaller identifiers. */
  ghost predicate Preferred(env: Env, plan: Plan, a: seq<Bundle>, b: seq<Bundle>) {
    exists r: nat, s: nat, m: int, n: int ::
      && IsSetRank(a, r) && IsSetRank(b, s) && IsSize(env, plan, a, m) && IsSize(env, plan, b, n)
      && (r < s || (r == s && (m < n || (m == n && NoGreater(BundleIds(env, a), BundleIds(env, b))))))
  }

  lemma PreferredIs(env: Env, plan: Plan, a: seq<Bundle>, b: seq<Bundle>)
    requires SetBuildable(plan, a) && SetBuildable(plan, b)
    requires AlternativeLe(MakeAlternative(env, plan, a), MakeAlternative(env, plan, b))
    ensures Preferred(env, plan, a, b)
  {
    SetRankIs(a);
    SetRankIs(b);
    SizeIs(env, plan, a);
    SizeIs(env, plan, b);
    var x, y := MakeAlternative(env, plan, a), MakeAlternative(env, plan, b);
    if x.rank == y.rank && x.cost == y.cost { IdsLeIs(BundleIds(env, a), BundleIds(env, b)); }
    assert IsSetRank(a, x.rank) && IsSetRank(b, y.rank) && IsSize(env, plan, a, x.cost) && IsSize(env, plan, b, y.cost);
  }

  // -- packing -------------------------------------------------------------------------

  /** The size of the first `i` candidates that are taken. */
  function SizeBefore(env: Env, ordered: seq<Candidate>, taken: seq<nat>, i: nat): int
    requires i <= |ordered|
  {
    if i == 0 then 0
    else SizeBefore(env, ordered, taken, i - 1) + if i - 1 in taken then env.unitCost(ordered[i - 1].unit) else 0
  }

  /** A candidate is taken if it is not there yet and fits with all that was taken before it. */
  ghost predicate TakesGreedily(
      env: Env, ordered: seq<Candidate>, there: seq<Id>, used: int, budget: nat, taken: seq<nat>)
  {
    forall i | 0 <= i < |ordered| :: TakesAt(env, ordered, there, used, budget, taken, i)
  }

  ghost predicate TakesAt(
      env: Env, ordered: seq<Candidate>, there: seq<Id>, used: int, budget: nat, taken: seq<nat>, i: nat)
    requires i < |ordered|
  {
    i in taken <==> && ordered[i].unit.id !in there
                    && used + SizeBefore(env, ordered, taken, i) + env.unitCost(ordered[i].unit) <= budget
  }

  /** The others, unless they were there. */
  ghost predicate LeavesOthers(ordered: seq<Candidate>, there: seq<Id>, taken: seq<nat>, left: seq<nat>) {
    forall i | 0 <= i < |ordered| :: i in left <==> i !in taken && ordered[i].unit.id !in there
  }

  function LeftOut(cs: seq<Candidate>): seq<Omission> {
    seq(|cs|, i requires 0 <= i < |cs| => Omission(cs[i].unit.id, BudgetExceeded, None))
  }

  /** From `p` on, `more` was taken and `rest` left out, in the given order. */
  ghost predicate Packs(env: Env, p: Packing, r: Packing, ordered: seq<Candidate>, budget: nat,
                        taken: seq<nat>, more: seq<Candidate>, left: seq<nat>, rest: seq<Candidate>)
  {
    && Selects(ordered, taken, more) && Selects(ordered, left, rest)
    && TakesGreedily(env, ordered, p.selected, p.used, budget, taken)
    && LeavesOthers(ordered, p.selected, taken, left)
    && r.selected == p.selected + UnitIds(more) && r.evidence == p.evidence + UnitsOf(more)
    && r.omitted == p.omitted + LeftOut(rest) && r.used == p.used + SizeBefore(env, ordered, taken, |ordered|)
  }

  lemma {:induction false} SizeBeforeSame(
      env: Env, a: seq<Candidate>, b: seq<Candidate>, taken: seq<nat>, others: seq<nat>, i: nat)
    requires i <= |a| && i <= |b| && a[..i] == b[..i] && forall j | 0 <= j < i :: j in taken <==> j in others
    ensures SizeBefore(env, a, taken, i) == SizeBefore(env, b, others, i)
  {
    if i > 0 {
      assert a[..i][..i - 1] == a[..i - 1] && b[..i][..i - 1] == b[..i - 1];
      assert a[i - 1] == a[..i][i - 1] && b[i - 1] == b[..i][i - 1];
      SizeBeforeSame(env, a, b, taken, others, i - 1);
    }
  }

  lemma GreedyInit(env: Env, init: seq<Candidate>, last: Candidate, there: seq<Id>, used: int, budget: nat,
                   taken: seq<nat>, more: seq<nat>)
    requires TakesGreedily(env, init, there, used, budget, taken)
    requires forall i | 0 <= i < |init| :: i in taken <==> i in more
    requires |init| in more <==> && last.unit.id !in there
                                 && used + SizeBefore(env, init, taken, |init|) + env.unitCost(last.unit) <= budget
    ensures TakesGreedily(env, init + [last], there, used, budget, more)
    ensures SizeBefore(env, init + [last], more, |init| + 1)
            == SizeBefore(env, init, taken, |init|) + if |init| in more then env.unitCost(last.unit) else 0
  {
    var all := init + [last];
    SizeBeforeInit(env, init, last, taken, more, |init|);
    forall i | 0 <= i < |all| ensures TakesAt(env, all, there, used, budget, more, i) {
      SizeBeforeInit(env, init, last, taken, more, i);
      if i < |init| { assert TakesAt(env, init, there, used, budget, taken, i); }
    }
  }

  lemma SizeBeforeInit(env: Env, init: seq<Candidate>, last: Candidate, taken: seq<nat>, more: seq<nat>, i: nat)
    requires i <= |init| && forall j | 0 <= j < |init| :: j in taken <==> j in more
    ensures SizeBefore(env, init + [last], more, i) == SizeBefore(env, init, taken, i)
  {
    assert (init + [last])[..i] == init[..i];
    SizeBeforeSame(env, init + [last], init, more, taken, i);
  }

  lemma {:induction false} PackAllIs(env: Env, p: Packing, ordered: seq<Candidate>, budget: nat)
    returns (taken: seq<nat>, more: seq<Candidate>, left: seq<nat>, rest: seq<Candidate>)
    requires NoDup(UnitIds(ordered))
    ensures Packs(env, p, PackAll(env, p, ordered, budget), ordered, budget, taken, more, left, rest)
  {
    taken, more, left, rest := [], [], [], [];
    if ordered != [] {
      var init, last := ordered[..|ordered| - 1], ordered[|ordered| - 1];
      assert UnitIds(ordered) == UnitIds(init) + [last.unit.id];
      NoDupPrefix(UnitIds(init), last.unit.id);
      taken, more, left, rest := PackAllIs(env, p, init, budget);
      assert ordered == init + [last];
      NotTakenTwice(init, taken, more, last);
      taken, more, left, rest :=
        PackOneMore(env, p, PackAll(env, p, init, budget), init, last, budget, taken, more, left, rest);
    }
  }

  lemma NotTakenTwice(init: seq<Candidate>, taken: seq<nat>, more: seq<Candidate>, last: Candidate)
    requires Selects(init, taken, more) && last.unit.id !in UnitIds(init)
    ensures last.unit.id !in UnitIds(more)
  {
    forall k | 0 <= k < |more| ensures more[k].unit.id != last.unit.id {
      assert UnitIds(init)[taken[k]] == more[k].unit.id;
    }
  }

  lemma PackOneMore(env: Env, p: Packing, r: Packing, init: seq<Candidate>, last: Candidate, budget: nat,
                    taken: seq<nat>, more: seq<Candidate>, left: seq<nat>, rest: seq<Candidate>)
    returns (taken': seq<nat>, more': seq<Candidate>, left': seq<nat>, rest': seq<Candidate>)
    requires Packs(env, p, r, init, budget, taken, more, left, rest) && last.unit.id !in UnitIds(more)
    ensures Packs(env, p, PackOne(env, r, last, budget), init + [last], budget, taken', more', left', rest')
  {
    taken', more', left', rest' := taken, more, left, rest;
    assert last.unit.id in r.selected <==> last.unit.id in p.selected;
    SelectsMore(init, taken, more, last);
    SelectsMore(init, left, rest, last);
    if last.unit.id in r.selected {
      GreedyInit(env, init, last, p.selected, p.used, budget, taken, taken);
    } else if r.used + env.unitCost(last.unit) > budget {
      GreedyInit(env, init, last, p.selected, p.used, budget, taken, taken);
      left', rest' := left + [|init|], rest + [last];
      LeavesMore(init, last, p.selected, taken, left);
      assert LeftOut(rest') == LeftOut(rest) + [Omission(last.unit.id, BudgetExceeded, None)];
    } else {
      taken', more' := taken + [|init|], more + [last];
      TakesMore(env, init, last, p.selected, p.used, budget, taken, left);
      assert UnitIds(more') == UnitIds(more) + [last.unit.id] && UnitsOf(more') == UnitsOf(more) + [last.unit];
    }
  }

  lemma LeavesMore(init: seq<Candidate>, last: Candidate, there: seq<Id>, taken: seq<nat>, left: seq<nat>)
    requires LeavesOthers(init, there, taken, left) && |init| !in taken && last.unit.id !in there
    ensures LeavesOthers(init + [last], there, taken, left + [|init|])
  {
    forall i | 0 <= i < |init| ensures i in left + [|init|] <==> i in left {}
  }

  lemma TakesMore(env: Env, init: seq<Candidate>, last: Candidate, there: seq<Id>, used: int, budget: nat,
                  taken: seq<nat>, left: seq<nat>)
    requires TakesGreedily(env, init, there, used, budget, taken) && LeavesOthers(init, there, taken, left)
    requires last.unit.id !in there && (forall k | 0 <= k < |left| :: left[k] < |init|)
    requires used + SizeBefore(env, init, taken, |init|) + env.unitCost(last.unit) <= budget
    ensures TakesGreedily(env, init + [last], there, used, budget, taken + [|init|])
    ensures LeavesOthers(init + [last], there, taken + [|init|], left)
    ensures SizeBefore(env, init + [last], taken + [|init|], |init| + 1)
            == SizeBefore(env, init, taken, |init|) + env.unitCost(last.unit)
  {
    var more := taken + [|init|];
    forall i | 0 <= i < |init| ensures i in more <==> i in taken {}
    GreedyInit(env, init, last, there, used, budget, taken, more);
  }

  // -- the whole projection -------------------------------------------------------------

  /** All candidates, by rank and then by unit id. */
  ghost predicate ByRank(cs: seq<Candidate>, ordered: seq<Candidate>) {
    && multiset(ordered) == multiset(cs)
    && forall i, j | 0 <= i < j < |ordered| ::
         || ordered[i].rank < ordered[j].rank
         || (ordered[i].rank == ordered[j].rank && StringLe(ordered[i].unit.id, ordered[j].unit.id))
  }

  lemma OrderedIsByRank(cs: seq<Candidate>)
    ensures ByRank(cs, Ordered(cs))
  {
    RankLeIsTotal();
    SortBySorted(cs, RankLe);
  }

  ghost predicate Fits(env: Env, plan: Plan, bs: seq<Bundle>, budget: int) {
    exists size :: IsSize(env, plan, bs, size) && size <= budget
  }

  /** Sizes are determined by the set. */
  lemma OneSize(env: Env, plan: Plan, bs: seq<Bundle>, size: int)
    requires SetBuildable(plan, bs) && IsSize(env, plan, bs, size)
    ensures size == MakeAlternative(env, plan, bs).cost
  {
    var us: seq<Candidate>, ps: seq<Path> :| Gathers(plan, bs, us, ps) && size == SizeOf(env, us, ps);
    var units, paths := AlternativeGathers(env, plan, bs);
    FirstsAreOne(Mentioned(bs), UnitIds(us), UnitIds(units));
    FirstsAreOne(MentionedPaths(bs), PathIds(ps), PathIds(paths));
    SameUnits(plan, us, units);
    SamePaths(plan, ps, paths);
  }

  lemma SameUnits(plan: Plan, a: seq<Candidate>, b: seq<Candidate>)
    requires UnitIds(a) == UnitIds(b)
    requires forall k | 0 <= k < |a| :: Names(plan.candidates, a[k].unit.id, a[k])
    requires forall k | 0 <= k < |b| :: Names(plan.candidates, b[k].unit.id, b[k])
    ensures a == b
  {
    assert |UnitIds(a)| == |UnitIds(b)|;
    forall k | 0 <= k < |a| ensures a[k] == b[k] {
      assert UnitIds(a)[k] == UnitIds(b)[k];
      ByIdNames(plan.candidates, a[k].unit.id, a[k]);
      ByIdNames(plan.candidates, a[k].unit.id, b[k]);
    }
  }

  lemma SamePaths(plan: Plan, a: seq<Path>, b: seq<Path>)
    requires PathIds(a) == PathIds(b)
    requires forall k | 0 <= k < |a| :: NamesPath(plan.paths, a[k])
    requires forall k | 0 <= k < |b| :: NamesPath(plan.paths, b[k])
    ensures a == b
  {
    assert |PathIds(a)| == |PathIds(b)|;
    forall k | 0 <= k < |a| ensures a[k] == b[k] {
      assert PathIds(a)[k] == PathIds(b)[k];
      assert NamesPath(plan.paths, a[k]) && NamesPath(plan.paths, b[k]);
    }
  }

  lemma {:induction false} FirstsAreOne(all: seq<Id>, a: seq<Id>, b: seq<Id>)
    requires FirstOccurrences(all, a) && FirstOccurrences(all, b)
    ensures a == b
  {
    var p :| Selects(all, p, a) && FirstsExactly(all, p);
    var q :| Selects(all, q, b) && FirstsExactly(all, q);
    SamePositions(|all|, p, q);
  }

  // -- the outcome -----------------------------------------------------------------------

  lemma {:induction false} HistoryCharsIs(history: seq<string>)
    ensures HistoryChars(history) == |Join(history, "")|
  {
    if |history| > 1 {
      HistoryCharsIs(history[1..]);
    } else if |history| == 1 {
      assert history[1..] == [];
    }
  }

  predicate TooMuchHistory(config: Config, request: Request) {
    |request.history| > config.historyMaxMessages || |Join(request.history, "")| > config.historyMaxChars
  }

  /** What the context still holds. */
  function Room(config: Config, request: Request): int { config.contextMax - (config.reserve + request.overhead) }

  ghost predicate AnyFits(env: Env, plan: Plan, budget: int) {
    exists bs | bs in plan.required :: Fits(env, plan, bs, budget)
  }

  lemma ChosenWhenAnyFits(env: Env, plan: Plan, budget: nat)
    requires Buildable(plan)
    ensures ChosenSet(env, plan, budget).Some? <==> AnyFits(env, plan, budget)
  {
    ChoiceIsFirstAffordable(env, plan, budget);
    forall bs | bs in plan.required
      ensures Fits(env, plan, bs, budget) <==> MakeAlternative(env, plan, bs).cost <= budget
    {
      FitsIs(env, plan, bs, budget);
    }
  }

  /** When there is no projection, and why. */
  lemma RefusedExactly(env: Env, config: Config, request: Request, plan: Plan)
    requires Buildable(plan)
    ensures var o := Project(env, config, request, plan);
      if TooMuchHistory(config, request) then o == RequestRejected
      else if Room(config, request) <= 0 then o == BudgetMisconfigured
      else if plan.required == [] then o == NoRequiredSet
      else if !AnyFits(env, plan, Room(config, request)) then o == ExceedsBudget
      else o.Ready?
  {
    HistoryCharsIs(request.history);
    if Room(config, request) > 0 { ChosenWhenAnyFits(env, plan, Room(config, request)); }
  }

  lemma FitsIs(env: Env, plan: Plan, bs: seq<Bundle>, budget: int)
    requires Buildable(plan) && bs in plan.required
    ensures SetBuildable(plan, bs) && (Fits(env, plan, bs, budget) <==> MakeAlternative(env, plan, bs).cost <= budget)
  {
    var i :| 0 <= i < |plan.required| && plan.required[i] == bs;
    assert SetBuildable(plan, plan.required[i]);
    SizeIs(env, plan, bs);
    if size :| IsSize(env, plan, bs, size) && size <= budget { OneSize(env, plan, bs, size); }
  }

  /** The set fits, and it is preferred to every other one that fits. */
  ghost predicate IsChosen(env: Env, plan: Plan, budget: int, bs: seq<Bundle>) {
    && bs in plan.required && Fits(env, plan, bs, budget)
    && forall other | other in plan.required && Fits(env, plan, other, budget) :: Preferred(env, plan, bs, other)
  }

  lemma ChosenIs(env: Env, plan: Plan, budget: nat) returns (bs: seq<Bundle>)
    requires Buildable(plan) && ChosenSet(env, plan, budget).Some?
    ensures IsChosen(env, plan, budget, bs) && SetBuildable(plan, bs)
    ensures ChosenSet(env, plan, budget).value == MakeAlternative(env, plan, bs)
  {
    ChoiceIsFirstAffordable(env, plan, budget);
    bs :| bs in plan.required && ChosenSet(env, plan, budget).value == MakeAlternative(env, plan, bs);
    FitsIs(env, plan, bs, budget);
    forall other | other in plan.required && Fits(env, plan, other, budget) ensures Preferred(env, plan, bs, other) {
      FitsIs(env, plan, other, budget);
      PreferredIs(env, plan, bs, other);
    }
  }

  /** Each operand keeps those of its units that were selected. */
  ghost predicate OperandsProjected(plan: Plan, p: Projected) {
    if plan.composition.None? then p.composition.None?
    else
      && p.composition.Some? && |p.composition.value| == |plan.composition.value|
      && forall k | 0 <= k < |p.composition.value| ::
           OperandProjected(plan.composition.value[k], p.composition.value[k], p.selected)
  }

  ghost predicate OperandProjected(operand: Operand, projected: Operand, selected: seq<Id>) {
    projected.id == operand.id
    && exists positions: seq<nat> ::
         && Selects(operand.evidenceIds, positions, projected.evidenceIds)
         && forall i | 0 <= i < |operand.evidenceIds| :: i in positions <==> operand.evidenceIds[i] in selected
  }

  lemma {:induction false} SelectedAre(ids: seq<Id>, selected: seq<Id>) returns (positions: seq<nat>)
    ensures Selects(ids, positions, Selected(ids, selected))
    ensures forall i | 0 <= i < |ids| :: i in positions <==> ids[i] in selected
  {
    if ids == [] {
      positions := [];
    } else {
      var init, last := ids[..|ids| - 1], ids[|ids| - 1];
      positions := SelectedAre(init, selected);
      assert ids == init + [last];
      SelectsMore(init, positions, Selected(init, selected), last);
      if last in selected { positions := positions + [|init|]; }
    }
  }

  lemma CompositionProjected(plan: Plan, p: Projected)
    requires p.composition == ProjectComposition(plan.composition, p.selected)
    ensures OperandsProjected(plan, p)
  {
    if plan.composition.Some? {
      forall k | 0 <= k < |p.composition.value|
        ensures OperandProjected(plan.composition.value[k], p.composition.value[k], p.selected)
      {
        var positions := SelectedAre(plan.composition.value[k].evidenceIds, p.selected);
      }
    }
  }

  /** What the question asks for is passed on. */
  ghost predicate CarriesQuestion(request: Request, p: Projected) {
    var context := request.context;
    && p.intent == context.intent && p.resolvedFrom == context.resolvedFrom && p.resolvedTo == context.resolvedTo
    && p.relationGoal == context.relationGoal && p.anchors == context.referenceIds
  }

  /** The evidence of `bs`, then what was taken of the rest by rank, and what was left out for size. */
  ghost predicate Holds(env: Env, plan: Plan, budget: int, p: Projected, bs: seq<Bundle>, units: seq<Candidate>,
                        ordered: seq<Candidate>, taken: seq<nat>, more: seq<Candidate>, left: seq<nat>,
                        rest: seq<Candidate>)
  {
    && Gathers(plan, bs, units, p.paths) && ByRank(plan.candidates, ordered)
    && Selects(ordered, taken, more) && Selects(ordered, left, rest)
    && TakesGreedily(env, ordered, UnitIds(units), SizeOf(env, units, p.paths), p.budget, taken)
    && LeavesOthers(ordered, UnitIds(units), taken, left)
    && p.budget == budget && p.used == SizeOf(env, units, p.paths) + SizeBefore(env, ordered, taken, |ordered|)
    && p.selected == UnitIds(units) + UnitIds(more) && p.evidence == UnitsOf(units) + UnitsOf(more)
    && p.omitted == plan.omitted + LeftOut(rest)
    && (p.truncated <==> rest != [] || exists o | o in plan.omitted :: o.reason == BudgetExceeded)
    && |p.admitted| == |bs| && forall k | 0 <= k < |bs| :: p.admitted[k] == env.digest(bs[k].key)
  }

  /**
    The projection: the preferred set that fits, with its units and paths, then every other candidate by rank that still
    fits, the rest being left out for size.
   */
  lemma ProjectedExactly(env: Env, config: Config, request: Request, plan: Plan)
    returns (bs: seq<Bundle>, units: seq<Candidate>, ordered: seq<Candidate>,
             taken: seq<nat>, more: seq<Candidate>, left: seq<nat>, rest: seq<Candidate>)
    requires Buildable(plan) && NoDup(UnitIds(plan.candidates)) && Project(env, config, request, plan).Ready?
    ensures var p := Project(env, config, request, plan).projected;
      && IsChosen(env, plan, Room(config, request), bs)
      && Holds(env, plan, Room(config, request), p, bs, units, ordered, taken, more, left, rest)
      && OperandsProjected(plan, p) && CarriesQuestion(request, p)
  {
    var p := Project(env, config, request, plan).projected;
    var budget := Room(config, request);
    bs := ChosenIs(env, plan, budget);
    var chosen := ChosenSet(env, plan, budget).value;
    var paths;
    units, paths := AlternativeGathers(env, plan, bs);
    ordered := Ordered(plan.candidates);
    OrderedIsByRank(plan.candidates);
    OrderedIdsDistinct(plan.candidates);
    taken, more, left, rest := PackAllIs(env, StartPacking(plan, chosen), ordered, budget);
    CompositionProjected(plan, p);
    PackedHolds(env, plan, chosen, PackAll(env, StartPacking(plan, chosen), ordered, budget), budget, p, bs, units,
                ordered, taken, more, left, rest);
  }

  lemma PackedHolds(
      env: Env, plan: Plan, chosen: Alternative, packed: Packing, budget: nat, p: Projected, bs: seq<Bundle>,
      units: seq<Candidate>, ordered: seq<Candidate>, taken: seq<nat>, more: seq<Candidate>, left: seq<nat>,
      rest: seq<Candidate>)
    requires AllKnown(plan.candidates, chosen.unitIds) && chosen.ids == BundleIds(env, bs)
    requires UnitIds(units) == chosen.unitIds && UnitsOf(units) == ChosenUnits(plan, chosen.unitIds)
    requires Gathers(plan, bs, units, p.paths) && chosen.cost == SizeOf(env, units, p.paths)
    requires ByRank(plan.candidates, ordered)
    requires Packs(env, StartPacking(plan, chosen), packed, ordered, budget, taken, more, left, rest)
    requires p.selected == packed.selected && p.evidence == packed.evidence && p.omitted == packed.omitted
    requires p.used == packed.used && p.budget == budget && p.admitted == chosen.ids
    requires p.truncated == AnyBudgetOmission(packed.omitted)
    ensures Holds(env, plan, budget, p, bs, units, ordered, taken, more, left, rest)
  {
    TruncatedIs(plan.omitted, rest);
  }

  lemma TruncatedIs(omitted: seq<Omission>, rest: seq<Candidate>)
    ensures AnyBudgetOmission(omitted + LeftOut(rest))
            <==> rest != [] || exists o | o in omitted :: o.reason == BudgetExceeded
  {
    var all := omitted + LeftOut(rest);
    if rest != [] { assert all[|omitted|] == LeftOut(rest)[0]; }
    if o :| o in omitted && o.reason == BudgetExceeded {
      var i :| 0 <= i < |omitted| && omitted[i] == o;
      assert all[i] == o;
    }
    if i :| 0 <= i < |all| && all[i].reason == BudgetExceeded {
      if i < |omitted| { assert omitted[i] in omitted; }
    }
  }
}
