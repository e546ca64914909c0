/** The re-check of a projected context (generation/projected_validation.py), and when it agrees with compaction. */
module ProjectedValidation {
  import opened Prelude
  import opened Compaction
  import opened Projection

  datatype Verdict =
    | Sufficient
    | UnknownBundle
    | LostRequired
    | OperandsIncomplete
    | NoDirectEvidence
    | HierarchyIncomplete
    | GraphPathIncomplete
    | OutsideSatisfiedPlan
    | NoTemporalPoint
    | TemporalIncomplete
    | VersionsIncomplete

  function Flatten(sets: seq<seq<Bundle>>): seq<Bundle> {
    if sets == [] then [] else Flatten(sets[..|sets| - 1]) + sets[|sets| - 1]
  }

  /** `{b.bundle_id: b for ... if b.bundle_id in ids}`; on equal identifiers the last bundle stays. */
  function Admitted(env: Env, bundles: seq<Bundle>, ids: seq<int>): (r: map<int, Bundle>)
    ensures forall id :: id in r <==> id in ids && exists b :: b in bundles && env.digest(b.key) == id
    ensures forall id | id in r :: r[id] in bundles && env.digest(r[id].key) == id
  {
    if bundles == [] then map[]
    else
      var before, b := Admitted(env, bundles[..|bundles| - 1], ids), bundles[|bundles| - 1];
      assert bundles == bundles[..|bundles| - 1] + [b];
      if env.digest(b.key) in ids then before[env.digest(b.key) := b] else before
  }

  function ProjectedPathIds(p: Projected): seq<Id> { PathIds(p.paths) }

  predicate Subset(ids: seq<Id>, of: seq<Id>) {
    forall i | 0 <= i < |ids| :: ids[i] in of
  }

  function UnitById(units: seq<Unit>, id: Id): (r: Option<Unit>)
    ensures r.Some? ==> r.value in units && r.value.id == id
    ensures r.None? ==> forall u | u in units :: u.id != id
  {
    if units == [] then None
    else
      assert units == units[..|units| - 1] + [units[|units| - 1]];
      if units[|units| - 1].id == id then Some(units[|units| - 1]) else UnitById(units[..|units| - 1], id)
  }

  predicate HasStart(units: seq<Unit>, id: Id) {
    UnitById(units, id).Some? && UnitById(units, id).value.effectiveFrom.Some?
  }

  function OperandIds(operands: seq<Operand>): set<string> {
    set o | o in operands :: o.id
  }

  function IntentVerdict(p: Projected, plan: Plan, admitted: set<Bundle>): Verdict {
    match p.intent
    case Factual => if p.selected == [] then NoDirectEvidence else Sufficient
    case Definition => if p.selected == [] then NoDirectEvidence else Sufficient
    case Hierarchy =>
      if forall i | 0 <= i < |p.paths| :: !HasRelation(p.paths[i], {"CONTAINS"}) then HierarchyIncomplete
      else Sufficient
    case MultiHop =>
      if p.paths == [] || plan.required == [] then GraphPathIncomplete
      else if plan.authoritative == [] || !Subset(ProjectedPathIds(p), plan.authoritative)
              || exists b | b in admitted :: !Subset(b.key.pathIds, plan.authoritative) then OutsideSatisfiedPlan
      else Sufficient
    case Validity =>
      if p.resolvedFrom.None? then NoTemporalPoint
      else
        var subjects := set b, id | b in admitted && id in b.key.subjects :: id;
        if subjects == {} || exists id | id in subjects :: !HasStart(p.evidence, id) then TemporalIncomplete
        else Sufficient
    case Comparison =>
      if |set b, key | b in admitted && key in b.key.versionKeys :: key| < 2 then VersionsIncomplete else Sufficient
  }

  function Evaluate(env: Env, p: Projected, plan: Plan): Verdict {
    var index := Admitted(env, Flatten(plan.required), p.admitted);
    var admitted := index.Values;
    if (set i | 0 <= i < |p.admitted| :: p.admitted[i]) != index.Keys then UnknownBundle
    else if exists b | b in admitted ::
              !Subset(b.key.unitIds, p.selected) || !Subset(b.key.pathIds, ProjectedPathIds(p))
    then LostRequired
    else if p.composition.Some?
            && (set b | b in admitted && b.key.operandId.Some? :: b.key.operandId.value)
               != OperandIds(p.composition.value)
    then OperandsIncomplete
    else IntentVerdict(p, plan, admitted)
  }

  // -- shapes of the required bundle sets -------------------------------------------

  ghost predicate PathShape(context: Context, cs: seq<Candidate>, paths: seq<Path>, bs: seq<Bundle>, goal: bool) {
    exists path :: path in paths && FullyCited(cs, path)
      && (if goal then ProvesGoal(context, path) else UsablePath(context, cs, path))
      && bs == WholePathBundle(context.intent, cs, path)
  }

  ghost predicate UnitShape(intent: Intent, cs: seq<Candidate>, bs: seq<Bundle>) {
    exists c :: c in cs && c.eligible && bs == [MakeBundle(intent, [c], [])]
  }

  ghost predicate ValidityShape(cs: seq<Candidate>, bs: seq<Bundle>) {
    exists c :: c in cs && c.unit.effectiveFrom.Some? && bs == [MakeBundle(Validity, [c], [], subjects := [c.unit.id])]
  }

  ghost predicate FamilyShape(cs: seq<Candidate>, bs: seq<Bundle>) {
    exists family: string, members: seq<Candidate> ::
      && |members| >= 2 && bs == VersionBundles(family, members)
      && (forall c | c in members :: c in cs)
      && forall i, j | 0 <= i < j < |members| :: members[i].unit.documentId != members[j].unit.documentId
  }

  ghost predicate AmendmentShape(cs: seq<Candidate>, paths: seq<Path>, bs: seq<Bundle>) {
    exists path: Path, known: seq<Candidate> ::
      && path in paths && |known| >= 2 && (forall c | c in known :: c in cs)
      && bs == [MakeBundle(Comparison, known, [path])]
  }

  ghost predicate OperandShape(intent: Intent, cs: seq<Candidate>, operands: seq<Operand>, bs: seq<Bundle>) {
    && |bs| == |operands|
    && forall i | 0 <= i < |bs| :: OperandFits(intent, cs, operands[i], bs[i])
  }

  lemma {:induction false} PathBundlesShape(context: Context, cs: seq<Candidate>, paths: seq<Path>)
    ensures forall bs | bs in PathBundles(context, cs, paths) :: PathShape(context, cs, paths, bs, false)
    ensures forall bs | bs in GoalBundles(context, cs, paths) :: PathShape(context, cs, paths, bs, true)
  {
    if paths != [] {
      var init := paths[..|paths| - 1];
      PathBundlesShape(context, cs, init);
      assert paths == init + [paths[|paths| - 1]];
      forall bs, goal | PathShape(context, cs, init, bs, goal) ensures PathShape(context, cs, paths, bs, goal) {}
      assert paths[|paths| - 1] in paths;
    }
  }

  lemma {:induction false} EligibleBundlesShape(intent: Intent, cs: seq<Candidate>)
    ensures forall bs | bs in EligibleBundles(intent, cs) :: UnitShape(intent, cs, bs)
  {
    if cs != [] {
      var init := cs[..|cs| - 1];
      EligibleBundlesShape(intent, init);
      assert cs == init + [cs[|cs| - 1]];
      forall bs | UnitShape(intent, init, bs) ensures UnitShape(intent, cs, bs) {}
      assert cs[|cs| - 1] in cs;
    }
  }

  lemma {:induction false} ValidityBundlesShape(cs: seq<Candidate>, date: int, referenceIds: seq<Id>)
    ensures forall bs | bs in ValidityBundles(cs, date, referenceIds) :: ValidityShape(cs, bs)
  {
    if cs != [] {
      var init := cs[..|cs| - 1];
      ValidityBundlesShape(init, date, referenceIds);
      assert cs == init + [cs[|cs| - 1]];
      forall bs | ValidityShape(init, bs) ensures ValidityShape(cs, bs) {}
      assert cs[|cs| - 1] in cs;
    }
  }

  ghost predicate VersionsDistinct(versions: seq<Candidate>) {
    forall i, j | 0 <= i < j < |versions| ::
      !(versions[i].unit.familyId == versions[j].unit.familyId
        && versions[i].unit.documentId == versions[j].unit.documentId)
  }

  lemma {:induction false} ByVersionDistinct(cs: seq<Candidate>)
    ensures VersionsDistinct(ByVersion(cs))
    ensures forall c | c in ByVersion(cs) :: c in cs
  {
    if cs != [] {
      var before, c := ByVersion(cs[..|cs| - 1]), cs[|cs| - 1];
      ByVersionDistinct(cs[..|cs| - 1]);
      assert cs == cs[..|cs| - 1] + [c];
    }
  }

  ghost predicate DocumentsDistinct(cs: seq<Candidate>) {
    forall i, j | 0 <= i < j < |cs| :: cs[i].unit.documentId != cs[j].unit.documentId
  }

  lemma {:induction false} OfFamilyMembers(versions: seq<Candidate>, family: string)
    ensures forall c | c in OfFamily(versions, family) :: c in versions && c.unit.familyId == Some(family)
  {
    if versions != [] {
      OfFamilyMembers(versions[..|versions| - 1], family);
      assert versions == versions[..|versions| - 1] + [versions[|versions| - 1]];
    }
  }

  lemma {:induction false} OfFamilyDistinct(versions: seq<Candidate>, family: string)
    requires VersionsDistinct(versions)
    ensures DocumentsDistinct(OfFamily(versions, family))
  {
    if versions != [] {
      var init, last := versions[..|versions| - 1], versions[|versions| - 1];
      OfFamilyDistinct(init, family);
      OfFamilyMembers(init, family);
      if last.unit.familyId == Some(family) {
        forall c | c in OfFamily(init, family) ensures c.unit.documentId != last.unit.documentId {
          var k :| 0 <= k < |init| && init[k] == c;
          assert versions[k] == c && versions[|init|] == last;
        }
        DistinctAppend(OfFamily(init, family), last);
      }
    }
  }

  lemma DistinctAppend(cs: seq<Candidate>, last: Candidate)
    requires DocumentsDistinct(cs) && forall c | c in cs :: c.unit.documentId != last.unit.documentId
    ensures DocumentsDistinct(cs + [last])
  {}

  lemma SortKeepsDocumentsDistinct(members: seq<Candidate>)
    requires forall i, j | 0 <= i < j < |members| :: members[i].unit.documentId != members[j].unit.documentId
    ensures var sorted := Ordered(members);
      && (forall c :: c in sorted <==> c in members)
      && forall i, j | 0 <= i < j < |sorted| :: sorted[i].unit.documentId != sorted[j].unit.documentId
  {
    SortByMembers(members, RankLe);
    assert NoDup(members);
    SortByNoDup(members, RankLe);
    var sorted := Ordered(members);
    forall i, j | 0 <= i < j < |sorted| ensures sorted[i].unit.documentId != sorted[j].unit.documentId {
      assert sorted[i] in members && sorted[j] in members && sorted[i] != sorted[j];
      var a :| 0 <= a < |members| && members[a] == sorted[i];
      var b :| 0 <= b < |members| && members[b] == sorted[j];
    }
  }

  lemma {:induction false} FamilyBundlesShape(cs: seq<Candidate>, families: seq<string>)
    ensures forall bs | bs in FamilyBundles(ByVersion(cs), families) :: FamilyShape(cs, bs)
  {
    if families != [] {
      FamilyBundlesShape(cs, families[..|families| - 1]);
      var family := families[|families| - 1];
      var members := OfFamily(ByVersion(cs), family);
      ByVersionDistinct(cs);
      OfFamilyDistinct(ByVersion(cs), family);
      OfFamilyMembers(ByVersion(cs), family);
      SortKeepsDocumentsDistinct(members);
      if |members| >= 2 {
        assert FamilyShape(cs, VersionBundles(family, Ordered(members)));
      }
    }
  }

  lemma {:induction false} AmendmentBundlesShape(cs: seq<Candidate>, paths: seq<Path>)
    ensures forall bs | bs in AmendmentBundles(cs, paths) :: AmendmentShape(cs, paths, bs)
  {
    if paths != [] {
      var init := paths[..|paths| - 1];
      AmendmentBundlesShape(cs, init);
      assert paths == init + [paths[|paths| - 1]];
      forall bs | AmendmentShape(cs, init, bs) ensures AmendmentShape(cs, paths, bs) {
        var path: Path, known: seq<Candidate> :| path in init && |known| >= 2 && (forall c | c in known :: c in cs)
                           && bs == [MakeBundle(Comparison, known, [path])];
        assert path in paths;
      }
      assert paths[|paths| - 1] in paths;
    }
  }

  ghost predicate OperandFits(intent: Intent, cs: seq<Candidate>, operand: Operand, b: Bundle) {
    exists c :: c in cs && c.unit.id in operand.evidenceIds
      && b == MakeBundle(intent, [c], [], operandId := Some(operand.id))
  }

  lemma {:induction false} OperandBundlesShape(intent: Intent, cs: seq<Candidate>, operands: seq<Operand>)
    ensures var r := OperandBundles(intent, cs, operands); r.Some? ==> OperandShape(intent, cs, operands, r.value)
  {
    if operands != [] && OperandBundles(intent, cs, operands).Some? {
      var init, last := operands[..|operands| - 1], operands[|operands| - 1];
      OperandBundlesShape(intent, cs, init);
      var own := EligibleOf(cs, last.evidenceIds);
      var b := MakeBundle(intent, [own[0]], [], operandId := Some(last.id));
      assert own[0] in own && OperandFits(intent, cs, last, b);
      assert operands == init + [last];
      OperandShapeStep(intent, cs, init, OperandBundles(intent, cs, init).value, last, b);
    }
  }

  lemma OperandShapeStep(
      intent: Intent, cs: seq<Candidate>, operands: seq<Operand>, bs: seq<Bundle>, last: Operand, b: Bundle)
    requires OperandShape(intent, cs, operands, bs) && OperandFits(intent, cs, last, b)
    ensures OperandShape(intent, cs, operands + [last], bs + [b])
  {
    forall i | 0 <= i < |bs| + 1 ensures OperandFits(intent, cs, (operands + [last])[i], (bs + [b])[i]) {
      if i < |bs| { assert OperandFits(intent, cs, operands[i], bs[i]); }
    }
  }

  /** Which shape a required set of a compacted plan has. */
  ghost predicate HasShape(context: Context, plan: Plan, bs: seq<Bundle>) {
    if plan.composition.Some? then OperandShape(context.intent, plan.candidates, plan.composition.value, bs)
    else if context.relationGoal.Some? then PathShape(context, plan.candidates, plan.paths, bs, true)
    else match context.intent
      case Factual => UnitShape(Factual, plan.candidates, bs)
      case Definition => UnitShape(Definition, plan.candidates, bs)
      case Hierarchy => PathShape(context, plan.candidates, plan.paths, bs, false)
      case MultiHop => PathShape(context, plan.candidates, plan.paths, bs, false)
      case Validity => context.resolvedFrom.Some? && ValidityShape(plan.candidates, bs)
      case Comparison => FamilyShape(plan.candidates, bs) || AmendmentShape(plan.candidates, plan.paths, bs)
  }

  lemma CompactedSetsHaveShape(env: Env, context: Context, validated: Validated, composition: Option<seq<Operand>>)
    ensures var plan := CompactPlan(env, context, validated, composition);
      forall bs | bs in plan.required :: HasShape(context, plan, bs)
  {
    var plan := CompactPlan(env, context, validated, composition);
    PathBundlesShape(context, plan.candidates, plan.paths);
    EligibleBundlesShape(context.intent, plan.candidates);
    if context.resolvedFrom.Some? {
      ValidityBundlesShape(plan.candidates, context.resolvedFrom.value, context.referenceIds);
    }
    FamilyBundlesShape(plan.candidates, SortBy(Families(ByVersion(plan.candidates)), StringLe));
    AmendmentBundlesShape(plan.candidates, plan.paths);
    if plan.composition.Some? {
      OperandBundlesShape(context.intent, plan.candidates, plan.composition.value);
    }
  }
}
