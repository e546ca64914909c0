/** Compaction, projection and the projected re-check, taken together: exactly which projections are accepted. */
module ProjectionAgreement {
  import opened Prelude
  import opened Compaction
  import opened Projection
  import opened ProjectedValidation

  /** The digests behind bundle and path identifiers are taken to be injective. */
  ghost predicate InjectiveDigest(env: Env) {
    forall a, b :: env.digest(a) == env.digest(b) ==> a == b
  }

  ghost predicate PathIdsIdentifyTopology(paths: seq<Path>) {
    forall p, q | p in paths && q in paths && p.id == q.id :: p.edges == q.edges
  }

  /** What the request contract enforces on a composition plan. */
  ghost predicate ValidComposition(composition: Option<seq<Operand>>) {
    composition.Some? ==>
      && |composition.value| >= 2
      && forall i, j | 0 <= i < j < |composition.value| :: composition.value[i].id != composition.value[j].id
  }

  lemma KnownMembers(cs: seq<Candidate>, members: seq<Candidate>)
    requires forall c | c in members :: c in cs
    ensures AllKnown(cs, Unique(UnitIds(members)))
  {
    var ids := Unique(UnitIds(members));
    forall i | 0 <= i < |ids| ensures ById(cs, ids[i]).Some? {
      assert ids[i] in UnitIds(members);
      var j :| 0 <= j < |members| && UnitIds(members)[j] == ids[i];
      assert members[j] in members;
    }
  }

  lemma BuiltBundle(plan: Plan, intent: Intent, members: seq<Candidate>, paths: seq<Path>, subjects: seq<Id>,
                    versionKeys: seq<string>, operandId: Option<string>)
    requires members != [] && forall c | c in members :: c in plan.candidates
    requires forall p | p in paths :: p in plan.paths
    ensures BundleBuildable(plan, MakeBundle(intent, members, paths, subjects, versionKeys, operandId))
  {
    KnownMembers(plan.candidates, members);
    assert UnitIds(members)[0] in Unique(UnitIds(members));
    var ids := Unique(PathIds(paths));
    forall i | 0 <= i < |ids| ensures PathById(plan.paths, ids[i]).Some? {
      assert ids[i] in PathIds(paths);
      var j :| 0 <= j < |paths| && PathIds(paths)[j] == ids[i];
      assert paths[j] in paths;
    }
  }

  lemma OperandSetIsBuildable(intent: Intent, plan: Plan, operands: seq<Operand>, bs: seq<Bundle>)
    requires OperandShape(intent, plan.candidates, operands, bs) && operands != []
    ensures SetBuildable(plan, bs)
  {
    forall i | 0 <= i < |bs| ensures BundleBuildable(plan, bs[i]) {
      var c :| c in plan.candidates && c.unit.id in operands[i].evidenceIds
               && bs[i] == MakeBundle(intent, [c], [], operandId := Some(operands[i].id));
      BuiltBundle(plan, intent, [c], [], [], [], Some(operands[i].id));
    }
  }

  lemma PathSetIsBuildable(context: Context, plan: Plan, bs: seq<Bundle>, goal: bool)
    requires PathShape(context, plan.candidates, plan.paths, bs, goal)
    ensures SetBuildable(plan, bs)
  {
    var path :| path in plan.paths && FullyCited(plan.candidates, path)
                && bs == WholePathBundle(context.intent, plan.candidates, path);
    WholePathIsBuildable(context.intent, plan, path);
  }

  lemma WholePathIsBuildable(intent: Intent, plan: Plan, path: Path)
    requires path in plan.paths && FullyCited(plan.candidates, path)
    ensures SetBuildable(plan, WholePathBundle(intent, plan.candidates, path))
  {
    var ids := CitableIds(path);
    var members := Compaction.Resolve(plan.candidates, ids);
    ResolvedMembers(plan.candidates, ids);
    MembersOnOnePath(intent, plan, members, path);
    assert WholePathBundle(intent, plan.candidates, path) == [MakeBundle(intent, members, [path])];
  }

  lemma MembersOnOnePath(intent: Intent, plan: Plan, members: seq<Candidate>, path: Path)
    requires |members| >= 2 && (forall c | c in members :: c in plan.candidates) && path in plan.paths
    ensures SetBuildable(plan, [MakeBundle(intent, members, [path])])
  {
    BuiltBundle(plan, intent, members, [path], [], [], None);
  }

  lemma ResolvedMembers(cs: seq<Candidate>, ids: seq<Id>)
    requires AllKnown(cs, ids)
    ensures |Compaction.Resolve(cs, ids)| == |ids| && forall c | c in Compaction.Resolve(cs, ids) :: c in cs
  {
    var members := Compaction.Resolve(cs, ids);
    forall i | 0 <= i < |members| ensures members[i] in cs {
      assert ById(cs, ids[i]).Some?;
    }
  }

  lemma UnitSetIsBuildable(intent: Intent, plan: Plan, bs: seq<Bundle>)
    requires UnitShape(intent, plan.candidates, bs)
    ensures SetBuildable(plan, bs)
  {
    var c :| c in plan.candidates && bs == [MakeBundle(intent, [c], [])];
    BuiltBundle(plan, intent, [c], [], [], [], None);
  }

  lemma ValiditySetIsBuildable(plan: Plan, bs: seq<Bundle>)
    requires ValidityShape(plan.candidates, bs)
    ensures SetBuildable(plan, bs)
  {
    var c :| c in plan.candidates && bs == [MakeBundle(Validity, [c], [], subjects := [c.unit.id])];
    BuiltBundle(plan, Validity, [c], [], [c.unit.id], [], None);
  }

  lemma ShapedSetIsBuildable(context: Context, plan: Plan, bs: seq<Bundle>)
    requires HasShape(context, plan, bs) && (plan.composition.Some? ==> plan.composition.value != [])
    ensures SetBuildable(plan, bs)
  {
    if plan.composition.Some? {
      OperandSetIsBuildable(context.intent, plan, plan.composition.value, bs);
    } else if context.relationGoal.Some? {
      PathSetIsBuildable(context, plan, bs, true);
    } else {
      match context.intent
      case Factual => UnitSetIsBuildable(Factual, plan, bs);
      case Definition => UnitSetIsBuildable(Definition, plan, bs);
      case Hierarchy => PathSetIsBuildable(context, plan, bs, false);
      case MultiHop => PathSetIsBuildable(context, plan, bs, false);
      case Validity => ValiditySetIsBuildable(plan, bs);
      case Comparison => ComparisonSetIsBuildable(plan, bs);
    }
  }

  lemma ComparisonSetIsBuildable(plan: Plan, bs: seq<Bundle>)
    requires FamilyShape(plan.candidates, bs) || AmendmentShape(plan.candidates, plan.paths, bs)
    ensures SetBuildable(plan, bs)
  {
    if AmendmentShape(plan.candidates, plan.paths, bs) {
      var path: Path, known: seq<Candidate> :| path in plan.paths && |known| >= 2
        && (forall c | c in known :: c in plan.candidates) && bs == [MakeBundle(Comparison, known, [path])];
      BuiltBundle(plan, Comparison, known, [path], [], [], None);
    } else {
      var family: string, members: seq<Candidate> :| |members| >= 2 && bs == VersionBundles(family, members)
        && (forall c | c in members :: c in plan.candidates)
        && forall i, j | 0 <= i < j < |members| :: members[i].unit.documentId != members[j].unit.documentId;
      forall i | 0 <= i < |bs| ensures BundleBuildable(plan, bs[i]) {
        assert members[i] in members;
        BuiltBundle(plan, Comparison, [members[i]], [], [], [family + "|" + members[i].unit.documentId], None);
      }
    }
  }

  /** Projection never meets an unknown unit, an unknown path or an empty bundle set in a compacted plan. */
  lemma CompactedPlanIsBuildable(env: Env, context: Context, validated: Validated, composition: Option<seq<Operand>>)
    requires ValidComposition(composition)
    ensures Buildable(CompactPlan(env, context, validated, composition))
  {
    var plan := CompactPlan(env, context, validated, composition);
    CompactedSetsHaveShape(env, context, validated, composition);
    forall i | 0 <= i < |plan.required| ensures SetBuildable(plan, plan.required[i]) {
      assert plan.required[i] in plan.required;
      ShapedSetIsBuildable(context, plan, plan.required[i]);
    }
  }

  // -- the admitted bundles are the chosen ones ---------------------------------------

  lemma {:induction false} FlattenMembers(sets: seq<seq<Bundle>>)
    ensures forall b :: b in Flatten(sets) <==> exists bs :: bs in sets && b in bs
  {
    if sets != [] {
      FlattenMembers(sets[..|sets| - 1]);
      assert sets == sets[..|sets| - 1] + [sets[|sets| - 1]];
    }
  }

  /** The admitted bundles have the keys of `bs` and no others. */
  ghost predicate SameKeys(admitted: set<Bundle>, bs: seq<Bundle>) {
    && (forall b | b in admitted :: HasKey(bs, b.key))
    && (forall i | 0 <= i < |bs| :: IsAdmitted(admitted, bs[i].key))
  }

  ghost predicate IsAdmitted(admitted: set<Bundle>, key: BundleKey) {
    exists b | b in admitted :: b.key == key
  }

  predicate HasKey(bs: seq<Bundle>, key: BundleKey) {
    exists i | 0 <= i < |bs| :: bs[i].key == key
  }

  lemma AdmittedIndex(env: Env, plan: Plan, bs: seq<Bundle>, i: nat)
    requires InjectiveDigest(env) && bs in plan.required && i < |bs|
    ensures var index := Admitted(env, Flatten(plan.required), BundleIds(env, bs));
      BundleIds(env, bs)[i] in index && index[BundleIds(env, bs)[i]].key == bs[i].key
  {
    FlattenMembers(plan.required);
    assert bs[i] in bs && bs[i] in Flatten(plan.required);
    assert BundleIds(env, bs)[i] in BundleIds(env, bs);
  }

  /** Looking the admitted identifiers up again finds bundles with the keys of the chosen set. */
  lemma AdmittedAreChosen(env: Env, plan: Plan, bs: seq<Bundle>)
    requires InjectiveDigest(env) && bs in plan.required
    ensures var index := Admitted(env, Flatten(plan.required), BundleIds(env, bs));
      && index.Keys == (set i | 0 <= i < |bs| :: BundleIds(env, bs)[i])
      && SameKeys(index.Values, bs)
  {
    var ids := BundleIds(env, bs);
    var index := Admitted(env, Flatten(plan.required), ids);
    forall i | 0 <= i < |bs|
      ensures ids[i] in index && IsAdmitted(index.Values, bs[i].key)
    {
      AdmittedIndex(env, plan, bs, i);
      assert index[ids[i]] in index.Values && index[ids[i]].key == bs[i].key;
    }
    forall b | b in index.Values ensures HasKey(bs, b.key) {
      var id :| id in index && index[id] == b;
      var i :| 0 <= i < |ids| && ids[i] == id;
      AdmittedIndex(env, plan, bs, i);
    }
    assert index.Keys == (set i | 0 <= i < |bs| :: ids[i]);
  }

  // -- what the projection carries ------------------------------------------------------

  ghost predicate EvidenceMatchesSelection(p: Projected) {
    |p.selected| == |p.evidence| && NoDup(p.selected)
      && forall i | 0 <= i < |p.selected| :: p.evidence[i].id == p.selected[i]
  }

  ghost predicate BundlesContained(p: Projected, bs: seq<Bundle>) {
    forall b | b in bs :: Subset(b.key.unitIds, p.selected) && Subset(b.key.pathIds, ProjectedPathIds(p))
  }

  ghost predicate PathsOfSet(plan: Plan, p: Projected, bs: seq<Bundle>) {
    forall q | q in p.paths :: q in plan.paths && exists b | b in bs :: q.id in b.key.pathIds
  }

  ghost predicate UnitsOfSet(plan: Plan, p: Projected, bs: seq<Bundle>) {
    forall b, id | b in bs && id in b.key.unitIds ::
      ById(plan.candidates, id).Some? && ById(plan.candidates, id).value.unit in p.evidence
  }

  /** The chosen set of a projection, its paths and the place of its units in the evidence. */
  ghost predicate Carries(env: Env, request: Request, plan: Plan, p: Projected, bs: seq<Bundle>) {
    && bs in plan.required
    && p.intent == request.context.intent && p.resolvedFrom == request.context.resolvedFrom
    && p.admitted == BundleIds(env, bs)
    && p.composition == ProjectComposition(plan.composition, p.selected)
    && EvidenceMatchesSelection(p)
    && BundlesContained(p, bs)
    && PathsOfSet(plan, p, bs)
    && UnitsOfSet(plan, p, bs)
  }

  lemma SubsetOfChosen(plan: Plan, chosen: Alternative, p: Projected, b: Bundle)
    requires (forall id | id in b.key.unitIds :: id in chosen.unitIds) && chosen.unitIds <= p.selected
    requires forall id | id in b.key.pathIds :: id in chosen.pathIds
    requires |p.paths| == |chosen.pathIds| && forall j | 0 <= j < |p.paths| :: p.paths[j].id == chosen.pathIds[j]
    ensures Subset(b.key.unitIds, p.selected) && Subset(b.key.pathIds, ProjectedPathIds(p))
  {
    forall i | 0 <= i < |b.key.unitIds| ensures b.key.unitIds[i] in p.selected {
      assert b.key.unitIds[i] in b.key.unitIds;
      var j :| 0 <= j < |chosen.unitIds| && chosen.unitIds[j] == b.key.unitIds[i];
      assert p.selected[j] == chosen.unitIds[j];
    }
    forall i | 0 <= i < |b.key.pathIds| ensures b.key.pathIds[i] in ProjectedPathIds(p) {
      assert b.key.pathIds[i] in b.key.pathIds;
      var j :| 0 <= j < |chosen.pathIds| && chosen.pathIds[j] == b.key.pathIds[i];
      assert ProjectedPathIds(p)[j] == chosen.pathIds[j];
    }
  }

  lemma ChosenUnitIsEvidence(plan: Plan, chosen: Alternative, p: Projected, id: Id)
    requires AllKnown(plan.candidates, chosen.unitIds) && id in chosen.unitIds
    requires ChosenUnits(plan, chosen.unitIds) <= p.evidence
    ensures ById(plan.candidates, id).Some? && ById(plan.candidates, id).value.unit in p.evidence
  {
    var j :| 0 <= j < |chosen.unitIds| && chosen.unitIds[j] == id;
    assert p.evidence[j] == ChosenUnits(plan, chosen.unitIds)[j];
  }

  /** The parts of `Carries` that come from how an alternative collects the ids of its bundles. */
  lemma ChosenCarries(env: Env, plan: Plan, chosen: Alternative, p: Projected, bs: seq<Bundle>)
    requires SetBuildable(plan, bs) && chosen == MakeAlternative(env, plan, bs)
    requires chosen.unitIds <= p.selected && ChosenUnits(plan, chosen.unitIds) <= p.evidence
    requires p.paths == ChosenPaths(plan, chosen.pathIds)
    ensures BundlesContained(p, bs) && PathsOfSet(plan, p, bs) && UnitsOfSet(plan, p, bs)
  {
    SetUnitsKnown(plan, bs);
    forall b | b in bs ensures Subset(b.key.unitIds, p.selected) && Subset(b.key.pathIds, ProjectedPathIds(p)) {
      SubsetOfChosen(plan, chosen, p, b);
    }
    forall q | q in p.paths ensures q in plan.paths && exists b | b in bs :: q.id in b.key.pathIds {
      var j :| 0 <= j < |p.paths| && p.paths[j] == q;
      assert chosen.pathIds[j] in chosen.pathIds;
    }
    forall b, id | b in bs && id in b.key.unitIds
      ensures ById(plan.candidates, id).Some? && ById(plan.candidates, id).value.unit in p.evidence
    {
      assert id in chosen.unitIds;
      ChosenUnitIsEvidence(plan, chosen, p, id);
    }
  }

  lemma ChosenIsRequired(env: Env, plan: Plan, budget: nat)
    requires Buildable(plan) && ChosenSet(env, plan, budget).Some?
    ensures var chosen := ChosenSet(env, plan, budget).value;
      && chosen.bundles in plan.required && SetBuildable(plan, chosen.bundles)
      && chosen == MakeAlternative(env, plan, chosen.bundles)
  {
    var chosen := ChosenSet(env, plan, budget).value;
    var bs :| bs in plan.required && chosen == MakeAlternative(env, plan, bs);
    assert chosen.bundles == bs;
  }

  /** How a ready outcome is put together. */
  lemma ReadyIsAssembled(env: Env, config: Config, request: Request, plan: Plan)
    requires Buildable(plan) && Project(env, config, request, plan).Ready?
    ensures var p := Project(env, config, request, plan).projected;
      && ChosenSet(env, plan, p.budget).Some?
      && var chosen := ChosenSet(env, plan, p.budget).value;
      && p.intent == request.context.intent && p.resolvedFrom == request.context.resolvedFrom
      && p.admitted == chosen.ids && p.composition == ProjectComposition(plan.composition, p.selected)
      && p.paths == ChosenPaths(plan, chosen.pathIds)
  {}

  lemma ProjectionCarries(env: Env, config: Config, request: Request, plan: Plan) returns (bs: seq<Bundle>)
    requires Buildable(plan) && Project(env, config, request, plan).Ready?
    ensures Carries(env, request, plan, Project(env, config, request, plan).projected, bs)
    ensures ChosenSet(env, plan, Project(env, config, request, plan).projected.budget).Some?
    ensures bs == ChosenSet(env, plan, Project(env, config, request, plan).projected.budget).value.bundles
  {
    ReadyIsAssembled(env, config, request, plan);
    UsedIsExact(env, config, request, plan);
    var p := Project(env, config, request, plan).projected;
    var chosen := ChosenSet(env, plan, p.budget).value;
    ChosenIsRequired(env, plan, p.budget);
    bs := chosen.bundles;
    CarriesFromParts(env, request, plan, p, chosen);
  }

  lemma CarriesFromParts(env: Env, request: Request, plan: Plan, p: Projected, chosen: Alternative)
    requires chosen.bundles in plan.required && SetBuildable(plan, chosen.bundles)
    requires chosen == MakeAlternative(env, plan, chosen.bundles)
    requires p.intent == request.context.intent && p.resolvedFrom == request.context.resolvedFrom
    requires p.admitted == chosen.ids && p.composition == ProjectComposition(plan.composition, p.selected)
    requires EvidenceMatchesSelection(p)
    requires chosen.unitIds <= p.selected && ChosenUnits(plan, chosen.unitIds) <= p.evidence
    requires p.paths == ChosenPaths(plan, chosen.pathIds)
    ensures Carries(env, request, plan, p, chosen.bundles)
  {
    ChosenCarries(env, plan, chosen, p, chosen.bundles);
  }

  // -- acceptance -------------------------------------------------------------------------

  /**
    What decides acceptance, read off the request and the chosen set alone: comparison needs a set of several version
    bundles, validity a set with a temporal subject, hierarchy and multi-hop a set with paths.
   */
  ghost predicate Acceptable(context: Context, plan: Plan, bs: seq<Bundle>) {
    match context.intent
    case Factual => true
    case Definition => true
    case MultiHop => plan.composition.None?
    case Hierarchy =>
      && plan.composition.None?
      && (context.relationGoal.Some? ==>
            exists q, b :: q in plan.paths && b in bs && q.id in b.key.pathIds && HasRelation(q, {"CONTAINS"}))
    case Validity => plan.composition.None? && context.relationGoal.None?
    case Comparison => plan.composition.None? && context.relationGoal.None? && |bs| >= 2
  }

  /** What a set's keys say, whatever its shape. */
  ghost predicate NoPaths(bs: seq<Bundle>) { forall i | 0 <= i < |bs| :: bs[i].key.pathIds == [] }

  ghost predicate NoSubjects(bs: seq<Bundle>) { forall i | 0 <= i < |bs| :: bs[i].key.subjects == [] }

  ghost predicate NoVersions(bs: seq<Bundle>) { forall i | 0 <= i < |bs| :: bs[i].key.versionKeys == [] }

  ghost predicate OnePath(bs: seq<Bundle>, path: Path) {
    && |bs| == 1 && bs[0].key.pathIds == [path.id]
    && bs[0].key.subjects == [] && bs[0].key.versionKeys == [] && bs[0].key.operandId == None
  }

  lemma PathKeys(
      context: Context, cs: seq<Candidate>, paths: seq<Path>, bs: seq<Bundle>, goal: bool) returns (path: Path)
    requires PathShape(context, cs, paths, bs, goal)
    ensures path in paths && OnePath(bs, path)
    ensures !goal && context.intent == Hierarchy ==> HasRelation(path, {"CONTAINS"})
  {
    path :| path in paths && FullyCited(cs, path)
      && (if goal then ProvesGoal(context, path) else UsablePath(context, cs, path))
      && bs == WholePathBundle(context.intent, cs, path);
    UniqueOfNoDup(PathIds([path]));
    assert PathIds([path]) == [path.id];
  }

  lemma OperandKeys(intent: Intent, cs: seq<Candidate>, operands: seq<Operand>, bs: seq<Bundle>)
    requires OperandShape(intent, cs, operands, bs)
    ensures NoPaths(bs) && NoSubjects(bs) && NoVersions(bs)
    ensures |bs| == |operands| && forall i | 0 <= i < |bs| :: bs[i].key.operandId == Some(operands[i].id)
  {
    forall i | 0 <= i < |bs|
      ensures bs[i].key.pathIds == [] && bs[i].key.subjects == [] && bs[i].key.versionKeys == []
      ensures bs[i].key.operandId == Some(operands[i].id)
    {
      var c :| c in cs && c.unit.id in operands[i].evidenceIds
               && bs[i] == MakeBundle(intent, [c], [], operandId := Some(operands[i].id));
    }
  }

  lemma OperandsMatch(admitted: set<Bundle>, operands: seq<Operand>, projected: seq<Operand>, bs: seq<Bundle>)
    requires SameKeys(admitted, bs) && |bs| == |operands| == |projected|
    requires forall i | 0 <= i < |bs| ::
               bs[i].key.operandId == Some(operands[i].id) && projected[i].id == operands[i].id
    ensures (set b | b in admitted && b.key.operandId.Some? :: b.key.operandId.value) == OperandIds(projected)
  {
    var ids := set b | b in admitted && b.key.operandId.Some? :: b.key.operandId.value;
    forall b | b in admitted && b.key.operandId.Some? ensures b.key.operandId.value in OperandIds(projected) {
      var i :| 0 <= i < |bs| && bs[i].key == b.key;
      assert projected[i] in projected;
    }
    forall o | o in projected ensures o.id in ids {
      var i :| 0 <= i < |projected| && projected[i] == o;
      var b :| b in admitted && b.key == bs[i].key;
    }
    assert ids == OperandIds(projected);
  }

  lemma SharedChecksPass(env: Env, request: Request, plan: Plan, p: Projected, bs: seq<Bundle>)
    requires InjectiveDigest(env) && Carries(env, request, plan, p, bs)
    requires plan.composition.Some? ==>
             OperandShape(request.context.intent, plan.candidates, plan.composition.value, bs)
    ensures SameKeys(Admitted(env, Flatten(plan.required), p.admitted).Values, bs)
    ensures Evaluate(env, p, plan)
         == IntentVerdict(p, plan, Admitted(env, Flatten(plan.required), p.admitted).Values)
  {
    AdmittedAreChosen(env, plan, bs);
    var admitted := Admitted(env, Flatten(plan.required), p.admitted).Values;
    forall b | b in admitted ensures Subset(b.key.unitIds, p.selected) && Subset(b.key.pathIds, ProjectedPathIds(p)) {
      var i :| 0 <= i < |bs| && bs[i].key == b.key;
      assert bs[i] in bs;
    }
    if plan.composition.Some? {
      OperandKeys(request.context.intent, plan.candidates, plan.composition.value, bs);
      OperandsMatch(admitted, plan.composition.value, p.composition.value, bs);
    }
  }

  lemma VersionlessVerdict(p: Projected, plan: Plan, admitted: set<Bundle>, bs: seq<Bundle>)
    requires SameKeys(admitted, bs) && NoVersions(bs) && p.intent == Comparison
    ensures IntentVerdict(p, plan, admitted) != Sufficient
  {
    var keys := set b, key | b in admitted && key in b.key.versionKeys :: key;
    forall b | b in admitted ensures b.key.versionKeys == [] {
      var i :| 0 <= i < |bs| && bs[i].key == b.key;
    }
    assert keys == {};
  }

  lemma FamilyVerdict(p: Projected, plan: Plan, admitted: set<Bundle>, bs: seq<Bundle>)
    requires SameKeys(admitted, bs) && FamilyShape(plan.candidates, bs) && p.intent == Comparison
    ensures IntentVerdict(p, plan, admitted) == Sufficient && |bs| >= 2
  {
    var a, b := TwoVersions(plan.candidates, bs);
    TwoKeysVerdict(p, plan, admitted, bs, a, b);
  }

  lemma TwoVersions(cs: seq<Candidate>, bs: seq<Bundle>) returns (a: string, b: string)
    requires FamilyShape(cs, bs)
    ensures |bs| >= 2 && a != b && bs[0].key.versionKeys == [a] && bs[1].key.versionKeys == [b]
  {
    var family: string, members: seq<Candidate> :| |members| >= 2 && bs == VersionBundles(family, members)
      && forall i, j | 0 <= i < j < |members| :: members[i].unit.documentId != members[j].unit.documentId;
    a, b := family + "|" + members[0].unit.documentId, family + "|" + members[1].unit.documentId;
    SamePrefix(family + "|", members[0].unit.documentId, members[1].unit.documentId);
  }

  lemma TwoKeysVerdict(p: Projected, plan: Plan, admitted: set<Bundle>, bs: seq<Bundle>, a: string, b: string)
    requires SameKeys(admitted, bs) && p.intent == Comparison
    requires |bs| >= 2 && a != b && bs[0].key.versionKeys == [a] && bs[1].key.versionKeys == [b]
    ensures IntentVerdict(p, plan, admitted) == Sufficient
  {
    var keys := set x, key | x in admitted && key in x.key.versionKeys :: key;
    assert IsAdmitted(admitted, bs[0].key) && IsAdmitted(admitted, bs[1].key);
    var x :| x in admitted && x.key == bs[0].key;
    var y :| y in admitted && y.key == bs[1].key;
    assert a in x.key.versionKeys && b in y.key.versionKeys;
    TwoOfSet(keys, a, b);
  }

  lemma AmendmentKeys(cs: seq<Candidate>, paths: seq<Path>, bs: seq<Bundle>)
    requires AmendmentShape(cs, paths, bs)
    ensures |bs| == 1 && NoVersions(bs)
  {
    var path: Path, known: seq<Candidate> :| path in paths && |known| >= 2
      && bs == [MakeBundle(Comparison, known, [path])];
  }

  lemma ComparisonVerdict(request: Request, plan: Plan, p: Projected, admitted: set<Bundle>, bs: seq<Bundle>)
    requires SameKeys(admitted, bs) && HasShape(request.context, plan, bs)
    requires request.context.intent == p.intent == Comparison
    ensures IntentVerdict(p, plan, admitted) == Sufficient <==> Acceptable(request.context, plan, bs)
  {
    if plan.composition.Some? {
      OperandKeys(Comparison, plan.candidates, plan.composition.value, bs);
      VersionlessVerdict(p, plan, admitted, bs);
    } else if request.context.relationGoal.Some? {
      var path := PathKeys(request.context, plan.candidates, plan.paths, bs, true);
      VersionlessVerdict(p, plan, admitted, bs);
    } else if FamilyShape(plan.candidates, bs) {
      FamilyVerdict(p, plan, admitted, bs);
    } else {
      AmendmentKeys(plan.candidates, plan.paths, bs);
      VersionlessVerdict(p, plan, admitted, bs);
    }
  }

  lemma SamePrefix(prefix: string, a: string, b: string)
    requires a != b
    ensures prefix + a != prefix + b
  {
    assert (prefix + a)[|prefix|..] == a && (prefix + b)[|prefix|..] == b;
  }

  lemma TwoOfSet(s: set<string>, a: string, b: string)
    requires a != b && a in s && b in s
    ensures |s| >= 2
  {
    var rest := s - {a};
    assert b in rest;
    assert |s| == |rest| + 1;
    assert |rest - {b}| == |rest| - 1;
  }

  lemma SubjectlessVerdict(p: Projected, plan: Plan, admitted: set<Bundle>, bs: seq<Bundle>)
    requires SameKeys(admitted, bs) && NoSubjects(bs) && p.intent == Validity
    ensures IntentVerdict(p, plan, admitted) != Sufficient
  {
    var subjects := set b, id | b in admitted && id in b.key.subjects :: id;
    forall b | b in admitted ensures b.key.subjects == [] {
      var i :| 0 <= i < |bs| && bs[i].key == b.key;
    }
    assert subjects == {};
  }

  lemma SubjectVerdict(env: Env, request: Request, plan: Plan, p: Projected, admitted: set<Bundle>, bs: seq<Bundle>)
    requires SameKeys(admitted, bs) && Carries(env, request, plan, p, bs) && ValidityShape(plan.candidates, bs)
    requires NoDup(UnitIds(plan.candidates)) && p.intent == Validity && p.resolvedFrom.Some?
    ensures IntentVerdict(p, plan, admitted) == Sufficient
  {
    var subjects := set b, id | b in admitted && id in b.key.subjects :: id;
    var c :| c in plan.candidates && c.unit.effectiveFrom.Some?
             && bs == [MakeBundle(Validity, [c], [], subjects := [c.unit.id])];
    assert bs[0] in bs && UnitIds([c])[0] in bs[0].key.unitIds;
    var x :| x in admitted && x.key == bs[0].key;
    assert c.unit.id in x.key.subjects;
    OneCandidatePerId(plan.candidates, c);
    EvidenceIsFound(p, c.unit);
    forall b | b in admitted ensures b.key.subjects == [c.unit.id] {
      var i :| 0 <= i < |bs| && bs[i].key == b.key;
    }
    assert subjects == {c.unit.id};
  }

  lemma ValidityVerdict(env: Env, request: Request, plan: Plan, p: Projected, admitted: set<Bundle>, bs: seq<Bundle>)
    requires SameKeys(admitted, bs) && Carries(env, request, plan, p, bs) && HasShape(request.context, plan, bs)
    requires NoDup(UnitIds(plan.candidates)) && request.context.intent == Validity
    ensures IntentVerdict(p, plan, admitted) == Sufficient <==> Acceptable(request.context, plan, bs)
  {
    if plan.composition.Some? {
      OperandKeys(Validity, plan.candidates, plan.composition.value, bs);
      SubjectlessVerdict(p, plan, admitted, bs);
    } else if request.context.relationGoal.Some? {
      var path := PathKeys(request.context, plan.candidates, plan.paths, bs, true);
      SubjectlessVerdict(p, plan, admitted, bs);
    } else {
      SubjectVerdict(env, request, plan, p, admitted, bs);
    }
  }

  lemma OneCandidatePerId(cs: seq<Candidate>, c: Candidate)
    requires NoDup(UnitIds(cs)) && c in cs
    ensures ById(cs, c.unit.id) == Some(c)
  {
    var found := ById(cs, c.unit.id).value;
    var i :| 0 <= i < |cs| && cs[i] == c;
    var j :| 0 <= j < |cs| && cs[j] == found;
    assert UnitIds(cs)[i] == UnitIds(cs)[j];
  }

  lemma EvidenceIsFound(p: Projected, u: Unit)
    requires |p.selected| == |p.evidence| && NoDup(p.selected) && u in p.evidence
    requires forall i | 0 <= i < |p.selected| :: p.evidence[i].id == p.selected[i]
    ensures UnitById(p.evidence, u.id) == Some(u)
  {
    var found := UnitById(p.evidence, u.id).value;
    var i :| 0 <= i < |p.evidence| && p.evidence[i] == u;
    var j :| 0 <= j < |p.evidence| && p.evidence[j] == found;
    assert p.selected[i] == p.selected[j];
  }

  lemma PathNeedsBundle(plan: Plan, p: Projected, bs: seq<Bundle>, q: Path)
    requires PathsOfSet(plan, p, bs) && q in p.paths
    ensures !NoPaths(bs)
  {
    var b :| b in bs && q.id in b.key.pathIds;
    var k :| 0 <= k < |bs| && bs[k] == b;
    assert bs[k].key.pathIds != [];
  }

  /** Without paths neither a hierarchy nor a multi-hop projection is accepted. */
  lemma PathlessVerdict(plan: Plan, p: Projected, admitted: set<Bundle>, bs: seq<Bundle>)
    requires PathsOfSet(plan, p, bs) && NoPaths(bs)
    requires p.intent == Hierarchy || p.intent == MultiHop
    ensures IntentVerdict(p, plan, admitted) != Sufficient
  {
    if p.paths != [] {
      PathNeedsBundle(plan, p, bs, p.paths[0]);
    }
  }

  /** With one chosen path, the projected paths are that path, up to parts the identifier does not cover. */
  lemma OnePathProjected(env: Env, request: Request, plan: Plan, p: Projected, bs: seq<Bundle>, path: Path)
    requires Carries(env, request, plan, p, bs) && OnePath(bs, path) && path in plan.paths
    requires PathIdsIdentifyTopology(plan.paths)
    ensures p.paths != [] && forall q | q in p.paths :: q.id == path.id && q.edges == path.edges
  {
    assert bs[0] in bs && bs[0].key.pathIds[0] in ProjectedPathIds(p);
    forall q | q in p.paths ensures q.id == path.id && q.edges == path.edges {
      var b :| b in bs && q.id in b.key.pathIds;
      assert b == bs[0];
    }
  }

  lemma PathVerdict(
      env: Env, request: Request, plan: Plan, p: Projected, admitted: set<Bundle>, bs: seq<Bundle>, path: Path)
    requires SameKeys(admitted, bs) && Carries(env, request, plan, p, bs)
    requires OnePath(bs, path) && path in plan.paths && PathIdsIdentifyTopology(plan.paths)
    requires p.intent == Hierarchy || (p.intent == MultiHop && path.id in plan.authoritative)
    ensures IntentVerdict(p, plan, admitted) == Sufficient
            <==> p.intent == MultiHop || HasRelation(path, {"CONTAINS"})
  {
    OnePathProjected(env, request, plan, p, bs, path);
    assert p.paths[0] in p.paths;
    forall i | 0 <= i < |p.paths|
      ensures p.paths[i].id == path.id && (HasRelation(p.paths[i], {"CONTAINS"}) <==> HasRelation(path, {"CONTAINS"}))
    {
      assert p.paths[i] in p.paths;
    }
    forall b | b in admitted ensures b.key.pathIds == [path.id] {
      var i :| 0 <= i < |bs| && bs[i].key == b.key;
    }
  }

  lemma ContainsIsDecidedByPath(plan: Plan, bs: seq<Bundle>, path: Path)
    requires OnePath(bs, path) && path in plan.paths && PathIdsIdentifyTopology(plan.paths)
    ensures (exists q, b :: q in plan.paths && b in bs && q.id in b.key.pathIds && HasRelation(q, {"CONTAINS"}))
            <==> HasRelation(path, {"CONTAINS"})
  {
    assert bs[0] in bs && path.id in bs[0].key.pathIds;
    forall q, b | q in plan.paths && b in bs && q.id in b.key.pathIds
      ensures HasRelation(q, {"CONTAINS"}) <==> HasRelation(path, {"CONTAINS"})
    {
      assert b == bs[0] && q.id == path.id && q.edges == path.edges;
    }
  }

  lemma StructuralVerdict(env: Env, request: Request, plan: Plan, p: Projected, admitted: set<Bundle>, bs: seq<Bundle>)
    requires SameKeys(admitted, bs) && Carries(env, request, plan, p, bs) && HasShape(request.context, plan, bs)
    requires request.context.intent == Hierarchy || request.context.intent == MultiHop
    requires PathIdsIdentifyTopology(plan.paths)
    requires request.context.intent == MultiHop ==> forall q | q in plan.paths :: q.id in plan.authoritative
    ensures IntentVerdict(p, plan, admitted) == Sufficient <==> Acceptable(request.context, plan, bs)
  {
    if plan.composition.Some? {
      OperandKeys(request.context.intent, plan.candidates, plan.composition.value, bs);
      PathlessVerdict(plan, p, admitted, bs);
    } else {
      var path := PathKeys(request.context, plan.candidates, plan.paths, bs, request.context.relationGoal.Some?);
      PathVerdict(env, request, plan, p, admitted, bs, path);
      ContainsIsDecidedByPath(plan, bs, path);
    }
  }

  lemma DirectVerdict(env: Env, request: Request, plan: Plan, p: Projected, bs: seq<Bundle>)
    requires Carries(env, request, plan, p, bs) && SetBuildable(plan, bs)
    requires request.context.intent == Factual || request.context.intent == Definition
    ensures IntentVerdict(p, plan, Admitted(env, Flatten(plan.required), p.admitted).Values) == Sufficient
  {
    assert bs[0] in bs && bs[0].key.unitIds[0] in p.selected;
  }

  lemma RetainedIdsDistinct(env: Env, context: Context, validated: Validated, composition: Option<seq<Operand>>)
    requires NoDup(UnitIds(validated.candidates))
    ensures NoDup(UnitIds(CompactPlan(env, context, validated, composition).candidates))
  {
    var source := SourceCandidates(context, validated, composition);
    var retained := CompactPlan(env, context, validated, composition).candidates;
    SplitPartitions(env, Ordered(source), ProtectedIds(AuthoritativePaths(context, validated).0));
    SourceIsWithin(context, validated, composition);
    assert multiset(retained) <= multiset(validated.candidates);
    CandidatesDistinct(validated.candidates);
    NoDupMultiset(validated.candidates);
    NoDupMultiset(retained);
    forall i, j | 0 <= i < j < |retained| ensures UnitIds(retained)[i] != UnitIds(retained)[j] {
      assert retained[i] in multiset(retained) && retained[j] in multiset(retained);
      assert retained[i] in validated.candidates && retained[j] in validated.candidates;
      OneCandidatePerId(validated.candidates, retained[i]);
      OneCandidatePerId(validated.candidates, retained[j]);
    }
  }

  lemma {:induction false} WithinKeepsMultiplicity(cs: seq<Candidate>, ids: set<Id>)
    ensures multiset(Within(cs, ids)) <= multiset(cs)
  {
    if cs != [] {
      WithinKeepsMultiplicity(cs[..|cs| - 1], ids);
      assert cs == cs[..|cs| - 1] + [cs[|cs| - 1]];
    }
  }

  /** The verdict on a projection that carries a set of known shape. */
  lemma VerdictOnCarried(env: Env, request: Request, plan: Plan, p: Projected, bs: seq<Bundle>)
    requires InjectiveDigest(env) && Carries(env, request, plan, p, bs)
    requires HasShape(request.context, plan, bs) && SetBuildable(plan, bs)
    requires NoDup(UnitIds(plan.candidates)) && PathIdsIdentifyTopology(plan.paths)
    requires request.context.intent == MultiHop ==> forall q | q in plan.paths :: q.id in plan.authoritative
    ensures Evaluate(env, p, plan) == Sufficient <==> Acceptable(request.context, plan, bs)
  {
    SharedChecksPass(env, request, plan, p, bs);
    var admitted := Admitted(env, Flatten(plan.required), p.admitted).Values;
    match request.context.intent
    case Factual => DirectVerdict(env, request, plan, p, bs);
    case Definition => DirectVerdict(env, request, plan, p, bs);
    case Hierarchy => StructuralVerdict(env, request, plan, p, admitted, bs);
    case MultiHop => StructuralVerdict(env, request, plan, p, admitted, bs);
    case Validity => ValidityVerdict(env, request, plan, p, admitted, bs);
    case Comparison => ComparisonVerdict(request, plan, p, admitted, bs);
  }

  lemma CompactedPaths(env: Env, context: Context, validated: Validated, composition: Option<seq<Operand>>)
    requires PathIdsIdentifyTopology(validated.paths)
    ensures var plan := CompactPlan(env, context, validated, composition);
      && PathIdsIdentifyTopology(plan.paths)
      && (context.intent == MultiHop ==> forall q | q in plan.paths :: q.id in plan.authoritative)
  {}

  /**
    The three stages agree: whatever was compacted and projected is accepted by the re-check exactly under
    `Acceptable`. Without a composition plan and a relation goal that is always so for the factual, definition,
    hierarchy, multi-hop and validity intents, and for comparison exactly when the chosen set is a version-family set.
   */
  lemma AcceptedExactly(
      env: Env, config: Config, request: Request, validated: Validated, composition: Option<seq<Operand>>)
    requires InjectiveDigest(env) && ValidComposition(composition)
    requires NoDup(UnitIds(validated.candidates)) && PathIdsIdentifyTopology(validated.paths)
    ensures var plan := CompactPlan(env, request.context, validated, composition);
      && Buildable(plan)
      && (Project(env, config, request, plan).Ready? ==>
            var p := Project(env, config, request, plan).projected;
            && ChosenSet(env, plan, p.budget).Some?
            && (Evaluate(env, p, plan) == Sufficient
                <==> Acceptable(request.context, plan, ChosenSet(env, plan, p.budget).value.bundles)))
  {
    var plan := CompactPlan(env, request.context, validated, composition);
    CompactedPlanIsBuildable(env, request.context, validated, composition);
    CompactedSetsHaveShape(env, request.context, validated, composition);
    RetainedIdsDistinct(env, request.context, validated, composition);
    CompactedPaths(env, request.context, validated, composition);
    ProjectionVerdict(env, config, request, plan);
  }

  lemma ProjectionVerdict(env: Env, config: Config, request: Request, plan: Plan)
    requires InjectiveDigest(env) && Buildable(plan)
    requires forall bs | bs in plan.required :: HasShape(request.context, plan, bs)
    requires NoDup(UnitIds(plan.candidates)) && PathIdsIdentifyTopology(plan.paths)
    requires request.context.intent == MultiHop ==> forall q | q in plan.paths :: q.id in plan.authoritative
    ensures Project(env, config, request, plan).Ready? ==>
      var p := Project(env, config, request, plan).projected;
      && ChosenSet(env, plan, p.budget).Some?
      && (Evaluate(env, p, plan) == Sufficient
          <==> Acceptable(request.context, plan, ChosenSet(env, plan, p.budget).value.bundles))
  {
    if Project(env, config, request, plan).Ready? {
      var bs := ProjectionCarries(env, config, request, plan);
      var k :| 0 <= k < |plan.required| && plan.required[k] == bs;
      VerdictOnCarried(env, request, plan, Project(env, config, request, plan).projected, bs);
    }
  }

  /**
    In a comparison without composition or goal, a set of several bundles is a version family, never an amendment
    path.
   */
  lemma SeveralBundlesAreAFamily(plan: Plan, bs: seq<Bundle>)
    requires FamilyShape(plan.candidates, bs) || AmendmentShape(plan.candidates, plan.paths, bs)
    ensures |bs| >= 2 <==> FamilyShape(plan.candidates, bs)
  {
    if FamilyShape(plan.candidates, bs) {
      var family: string, members: seq<Candidate> :| |members| >= 2 && bs == VersionBundles(family, members);
    }
  }

  // -- the projected context is well formed ------------------------------------------------

  /** The consistency rules a projected context must meet to be constructed at all. */
  ghost predicate WellFormed(p: Projected) {
    && EvidenceMatchesSelection(p)
    && NoDup(p.admitted)
    && (p.composition.Some? ==>
          forall k | 0 <= k < |p.composition.value| :: OperandSupported(p.composition.value[k], p.selected))
    && (p.truncated <==> AnyBudgetOmission(p.omitted))
  }

  predicate OperandSupported(operand: Operand, selected: seq<Id>) {
    operand.evidenceIds != [] && Subset(operand.evidenceIds, selected)
  }

  lemma DigestsDistinct(env: Env, bs: seq<Bundle>)
    requires InjectiveDigest(env) && forall i, j | 0 <= i < j < |bs| :: bs[i].key != bs[j].key
    ensures NoDup(BundleIds(env, bs))
  {}

  lemma FamilyKeysDistinct(cs: seq<Candidate>, bs: seq<Bundle>)
    requires FamilyShape(cs, bs)
    ensures forall i, j | 0 <= i < j < |bs| :: bs[i].key != bs[j].key
  {
    var family: string, members: seq<Candidate> :| |members| >= 2 && bs == VersionBundles(family, members)
      && forall i, j | 0 <= i < j < |members| :: members[i].unit.documentId != members[j].unit.documentId;
    forall i, j | 0 <= i < j < |bs| ensures bs[i].key != bs[j].key {
      SamePrefix(family + "|", members[i].unit.documentId, members[j].unit.documentId);
      assert bs[i].key.versionKeys[0] != bs[j].key.versionKeys[0];
    }
  }

  /** No set names one bundle twice. */
  lemma ShapedKeysDistinct(context: Context, plan: Plan, bs: seq<Bundle>)
    requires HasShape(context, plan, bs) && ValidComposition(plan.composition)
    ensures forall i, j | 0 <= i < j < |bs| :: bs[i].key != bs[j].key
  {
    if plan.composition.Some? {
      OperandKeys(context.intent, plan.candidates, plan.composition.value, bs);
    } else if context.relationGoal.None? && context.intent == Comparison && FamilyShape(plan.candidates, bs) {
      FamilyKeysDistinct(plan.candidates, bs);
    } else {
      assert |bs| == 1;
    }
  }

  lemma OperandsSupported(intent: Intent, plan: Plan, p: Projected, bs: seq<Bundle>, operands: seq<Operand>, k: nat)
    requires OperandShape(intent, plan.candidates, operands, bs) && BundlesContained(p, bs) && k < |operands|
    ensures OperandSupported(operands[k].(evidenceIds := Selected(operands[k].evidenceIds, p.selected)), p.selected)
  {
    var b := bs[k];
    var c :| c in plan.candidates && c.unit.id in operands[k].evidenceIds
             && b == MakeBundle(intent, [c], [], operandId := Some(operands[k].id));
    assert b in bs && UnitIds([c])[0] in b.key.unitIds;
    assert c.unit.id in Selected(operands[k].evidenceIds, p.selected);
  }

  /** Projection of a compacted plan never breaks a consistency rule of the projected context. */
  lemma ProjectionIsWellFormed(
      env: Env, config: Config, request: Request, validated: Validated, composition: Option<seq<Operand>>)
    requires InjectiveDigest(env) && ValidComposition(composition)
    ensures var plan := CompactPlan(env, request.context, validated, composition);
      && Buildable(plan)
      && (Project(env, config, request, plan).Ready? ==> WellFormed(Project(env, config, request, plan).projected))
  {
    var plan := CompactPlan(env, request.context, validated, composition);
    CompactedPlanIsBuildable(env, request.context, validated, composition);
    CompactedSetsHaveShape(env, request.context, validated, composition);
    ReadyIsWellFormed(env, config, request, plan);
  }

  lemma ReadyIsWellFormed(env: Env, config: Config, request: Request, plan: Plan)
    requires InjectiveDigest(env) && ValidComposition(plan.composition)
    requires Buildable(plan) && forall bs | bs in plan.required :: HasShape(request.context, plan, bs)
    ensures Project(env, config, request, plan).Ready? ==> WellFormed(Project(env, config, request, plan).projected)
  {
    if Project(env, config, request, plan).Ready? {
      var p := Project(env, config, request, plan).projected;
      var bs := ProjectionCarries(env, config, request, plan);
      TruncatedIsExact(env, config, request, plan);
      CarriedIsWellFormed(env, request, plan, p, bs);
    }
  }

  lemma TruncatedIsExact(env: Env, config: Config, request: Request, plan: Plan)
    requires Buildable(plan) && Project(env, config, request, plan).Ready?
    ensures var p := Project(env, config, request, plan).projected; p.truncated <==> AnyBudgetOmission(p.omitted)
  {}

  lemma CarriedIsWellFormed(env: Env, request: Request, plan: Plan, p: Projected, bs: seq<Bundle>)
    requires InjectiveDigest(env) && ValidComposition(plan.composition)
    requires Carries(env, request, plan, p, bs) && HasShape(request.context, plan, bs)
    requires p.truncated <==> AnyBudgetOmission(p.omitted)
    ensures WellFormed(p)
  {
    ShapedKeysDistinct(request.context, plan, bs);
    DigestsDistinct(env, bs);
    if plan.composition.Some? {
      forall k | 0 <= k < |p.composition.value| ensures OperandSupported(p.composition.value[k], p.selected) {
        OperandsSupported(request.context.intent, plan, p, bs, plan.composition.value, k);
      }
    }
  }

  // -- from validated evidence to the prompt -----------------------------------------------

  /**
    Of the candidates compaction started from, each one is selected, left out for size, or dropped as a duplicate of a
    retained one, exactly one of the three; only those left out for size are truncation, and none of them would still
    fit.
   */
  lemma EveryCandidateIsAccountedFor(env: Env, config: Config, request: Request, validated: Validated,
                                     composition: Option<seq<Operand>>)
    requires ValidComposition(composition) && NoDup(UnitIds(validated.candidates))
    ensures var plan := CompactPlan(env, request.context, validated, composition);
      && Buildable(plan)
      && (Project(env, config, request, plan).Ready? ==>
            var p := Project(env, config, request, plan).projected;
            && (forall c | c in SourceCandidates(request.context, validated, composition) :: HasOneFate(plan, p, c))
            && (forall c | c in plan.candidates ::
                  (c.unit.id in p.selected) != (Omission(c.unit.id, BudgetExceeded, None) in p.omitted))
            && (forall o | o in p.omitted && o.reason == BudgetExceeded ::
                  exists c | c in plan.candidates :: c.unit.id == o.unitId && p.used + env.unitCost(c.unit) > p.budget))
  {
    var plan := CompactPlan(env, request.context, validated, composition);
    CompactedPlanIsBuildable(env, request.context, validated, composition);
    RetainedIdsDistinct(env, request.context, validated, composition);
    DuplicatesNameRetained(env, request.context, validated, composition);
    OmissionsAreDuplicates(env, request.context, validated, composition);
    if Project(env, config, request, plan).Ready? {
      var p := Project(env, config, request, plan).projected;
      PackingIsTight(env, config, request, plan);
      SelectedAreCandidates(env, config, request, plan);
      forall c | c in SourceCandidates(request.context, validated, composition) ensures HasOneFate(plan, p, c) {
        if c in plan.candidates { IdOfMember(plan.candidates, c); }
        if o :| o in p.omitted && o.reason == BudgetExceeded && o.unitId == c.unit.id {
          var d :| d in plan.candidates && d.unit.id == o.unitId;
          IdOfMember(plan.candidates, d);
        }
      }
    }
  }

  /** Selected, left out for size, or dropped as a duplicate: one of these and no other. */
  ghost predicate HasOneFate(plan: Plan, p: Projected, c: Candidate) {
    var kept, cut, dropped :=
      c.unit.id in p.selected, Omission(c.unit.id, BudgetExceeded, None) in p.omitted, IsDuplicate(plan, c);
    (kept || cut || dropped) && !(kept && cut) && !(kept && dropped) && !(cut && dropped)
  }

  lemma SelectedAreCandidates(env: Env, config: Config, request: Request, plan: Plan)
    requires Buildable(plan) && NoDup(UnitIds(plan.candidates)) && Project(env, config, request, plan).Ready?
    ensures forall id | id in Project(env, config, request, plan).projected.selected :: id in UnitIds(plan.candidates)
  {
    var p := Project(env, config, request, plan).projected;
    var chosen := ChosenSet(env, plan, p.budget).value;
    var ordered := Ordered(plan.candidates);
    OrderedIdsDistinct(plan.candidates);
    SortByMembers(plan.candidates, RankLe);
    PackingExcludes(env, StartPacking(plan, chosen), ordered, p.budget);
    forall id | id in p.selected ensures id in UnitIds(plan.candidates) {
      if id in UnitIds(ordered) {
        var i :| 0 <= i < |ordered| && UnitIds(ordered)[i] == id;
        IdOfMember(plan.candidates, ordered[i]);
      } else {
        var i :| 0 <= i < |chosen.unitIds| && chosen.unitIds[i] == id;
        IdOfMember(plan.candidates, ById(plan.candidates, id).value);
      }
    }
  }

  /** With distinct ids nothing is both retained and dropped. */
  lemma DroppedNotRetained(cs: seq<Candidate>, retained: seq<Candidate>, dropped: seq<Candidate>, c: Candidate)
    requires NoDup(UnitIds(cs)) && multiset(retained) + multiset(dropped) <= multiset(cs) && c in dropped
    ensures c.unit.id !in UnitIds(retained)
  {
    CandidatesDistinct(cs);
    NoDupMultiset(cs);
    forall r | r in retained ensures r.unit.id != c.unit.id {
      assert multiset(retained)[r] >= 1 && multiset(dropped)[c] >= 1;
      assert multiset(cs)[c] >= multiset(retained)[c] + multiset(dropped)[c];
      assert r in multiset(cs) && c in multiset(cs);
      OneCandidatePerId(cs, r);
      OneCandidatePerId(cs, c);
    }
  }

  lemma CandidatesDistinct(cs: seq<Candidate>)
    requires NoDup(UnitIds(cs))
    ensures NoDup(cs)
  {
    forall i, j | 0 <= i < j < |cs| ensures cs[i] != cs[j] { assert UnitIds(cs)[i] != UnitIds(cs)[j]; }
  }

  /**
    Every omission of a compacted plan names a retained unit, which no omission is about, and is not itself retained.
   */
  lemma OmissionsAreDuplicates(env: Env, context: Context, validated: Validated, composition: Option<seq<Operand>>)
    requires NoDup(UnitIds(validated.candidates))
    ensures var plan := CompactPlan(env, context, validated, composition);
      forall o | o in plan.omitted ::
        && o.unitId !in UnitIds(plan.candidates)
        && o.retainedId.Some? && o.retainedId.value in UnitIds(plan.candidates)
        && forall q | q in plan.omitted :: q.unitId != o.retainedId.value
  {
    var plan := CompactPlan(env, context, validated, composition);
    var source := SourceCandidates(context, validated, composition);
    var protected := ProtectedIds(AuthoritativePaths(context, validated).0);
    var dropped := Split(env, Ordered(source), protected).1;
    SourceIsWithin(context, validated, composition);
    RankLeIsTotal();
    SortBySorted(source, RankLe);
    DroppedNameKeepers(env, Ordered(source), protected);
    SplitPartitions(env, Ordered(source), protected);
    forall o | o in plan.omitted
      ensures o.unitId !in UnitIds(plan.candidates) && o.retainedId.Some?
      ensures o.retainedId.value in UnitIds(plan.candidates)
    {
      var i :| 0 <= i < |dropped| && OmissionOf(dropped[i]) == o;
      assert dropped[i] in dropped && Dropped(dropped)[i] == dropped[i].0;
      DroppedNotRetained(validated.candidates, plan.candidates, Dropped(dropped), dropped[i].0);
      IdOfMember(plan.candidates, dropped[i].1);
    }
  }

  lemma SourceIsWithin(context: Context, validated: Validated, composition: Option<seq<Operand>>)
    ensures multiset(SourceCandidates(context, validated, composition)) <= multiset(validated.candidates)
  {
    WithinKeepsMultiplicity(validated.candidates, ProtectedIds(AuthoritativePaths(context, validated).0));
    if composition.Some? { WithinKeepsMultiplicity(validated.candidates, AssignedIds(composition.value)); }
  }

  /** Dropped with a reason that names a retained candidate. */
  ghost predicate IsDuplicate(plan: Plan, c: Candidate) {
    exists o, keeper | o in plan.omitted && keeper in plan.candidates ::
      o.unitId == c.unit.id && o.reason != BudgetExceeded && o.retainedId == Some(keeper.unit.id)
  }

  lemma DuplicatesNameRetained(env: Env, context: Context, validated: Validated, composition: Option<seq<Operand>>)
    ensures var plan := CompactPlan(env, context, validated, composition);
      && (forall o | o in plan.omitted :: o.reason != BudgetExceeded)
      && (forall c | c in SourceCandidates(context, validated, composition) ::
            c in plan.candidates || IsDuplicate(plan, c))
  {
    var plan := CompactPlan(env, context, validated, composition);
    var source := SourceCandidates(context, validated, composition);
    var protected := ProtectedIds(AuthoritativePaths(context, validated).0);
    var (retained, dropped) := Split(env, Ordered(source), protected);
    RankLeIsTotal();
    SortBySorted(source, RankLe);
    SortByMembers(source, RankLe);
    DroppedNameKeepers(env, Ordered(source), protected);
    SplitPartitions(env, Ordered(source), protected);
    forall c | c in source ensures c in plan.candidates || IsDuplicate(plan, c) {
      DroppedIsDuplicate(plan, source, dropped, c);
    }
    forall o | o in plan.omitted ensures o.reason != BudgetExceeded {
      var i :| 0 <= i < |dropped| && OmissionOf(dropped[i]) == o;
    }
  }

  lemma DroppedIsDuplicate(plan: Plan, source: seq<Candidate>, dropped: seq<(Candidate, Candidate)>, c: Candidate)
    requires plan.omitted == Omissions(dropped) && (forall d | d in dropped :: d.1 in plan.candidates)
    requires c in Ordered(source) && multiset(Ordered(source)) == multiset(plan.candidates) + multiset(Dropped(dropped))
    ensures c in plan.candidates || IsDuplicate(plan, c)
  {
    assert c in multiset(Ordered(source));
    if c !in plan.candidates {
      assert c in multiset(Dropped(dropped));
      var i :| 0 <= i < |Dropped(dropped)| && Dropped(dropped)[i] == c;
      assert dropped[i] in dropped;
      assert plan.omitted[i] == OmissionOf(dropped[i]) && plan.omitted[i] in plan.omitted;
    }
  }
}
