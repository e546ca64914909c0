/** When the re-check accepts a projected context, for any context and plan (generation/projected_validation.py). */
module ProjectedRecheck {
  import opened Prelude
  import opened Compaction
  import opened Projection
  import opened ProjectedValidation

  // -- the admitted bundles --------------------------------------------------------------

  /** Some required bundle has this identifier. */
  ghost predicate IsRequired(env: Env, plan: Plan, id: int) {
    exists bs, b | bs in plan.required && b in bs :: env.digest(b.key) == id
  }

  /** The last of the required bundles with its identifier, which the context admits. */
  ghost predicate IsAdmitted(env: Env, plan: Plan, p: Projected, b: Bundle) {
    env.digest(b.key) in p.admitted && LastOf(env, Flatten(plan.required), b)
  }

  ghost predicate LastOf(env: Env, bs: seq<Bundle>, b: Bundle) {
    exists j | 0 <= j < |bs| ::
      bs[j] == b && forall m | j < m < |bs| :: env.digest(bs[m].key) != env.digest(b.key)
  }

  lemma {:induction false} AdmittedIs(env: Env, bs: seq<Bundle>, ids: seq<int>, b: Bundle)
    ensures b in Admitted(env, bs, ids).Values <==> env.digest(b.key) in ids && LastOf(env, bs, b)
  {
    if bs != [] {
      var init, last := bs[..|bs| - 1], bs[|bs| - 1];
      AdmittedIs(env, init, ids, b);
      assert bs == init + [last];
      LastOfMore(env, init, last, b);
      AdmittedMore(env, init, last, ids, b);
    }
  }

  lemma AdmittedMore(env: Env, init: seq<Bundle>, last: Bundle, ids: seq<int>, b: Bundle)
    ensures var before := Admitted(env, init, ids); var id := env.digest(last.key);
      b in Admitted(env, init + [last], ids).Values
      <==> if env.digest(b.key) == id then b == last && id in ids else b in before.Values
  {
    var before, all := Admitted(env, init, ids), Admitted(env, init + [last], ids);
    assert (init + [last])[..|init|] == init;
    var id := env.digest(b.key);
    assert b in all.Values <==> id in all && all[id] == b;
    assert b in before.Values <==> id in before && before[id] == b;
  }

  lemma LastOfMore(env: Env, init: seq<Bundle>, last: Bundle, b: Bundle)
    ensures LastOf(env, init + [last], b)
            <==> if env.digest(b.key) == env.digest(last.key) then b == last else LastOf(env, init, b)
  {
    var all := init + [last];
    assert all[|init|] == last;
    if j :| 0 <= j < |init| && init[j] == b
              && forall m | j < m < |init| :: env.digest(init[m].key) != env.digest(b.key) {
      assert all[j] == b;
      assert forall m | j < m < |init| :: all[m] == init[m];
    }
    if j :| 0 <= j < |init| && all[j] == b && forall m | j < m < |all| :: env.digest(all[m].key) != env.digest(b.key) {
      assert init[j] == b;
      assert forall m | j < m < |init| :: all[m] == init[m];
    }
  }

  /** The required bundles, set by set. */
  lemma {:induction false} FlattenJoins(a: seq<seq<Bundle>>, b: seq<seq<Bundle>>, bs: seq<Bundle>)
    ensures Flatten(a + b) == Flatten(a) + Flatten(b) && Flatten([bs]) == bs
  {
    assert [bs][..0] == [];
    if b == [] {
      assert a + b == a;
    } else {
      assert (a + b)[..|a + b| - 1] == a + b[..|b| - 1];
      FlattenJoins(a, b[..|b| - 1], bs);
    }
  }

  lemma {:induction false} FlattenedIs(env: Env, sets: seq<seq<Bundle>>, b: Bundle)
    ensures b in Flatten(sets) <==> exists bs | bs in sets :: b in bs
  {
    if sets != [] {
      FlattenedIs(env, sets[..|sets| - 1], b);
      assert sets == sets[..|sets| - 1] + [sets[|sets| - 1]];
    }
  }

  // -- the verdict ------------------------------------------------------------------------

  /** Some admitted identifier is of no required bundle. */
  ghost predicate AdmitsUnknown(env: Env, p: Projected, plan: Plan) {
    exists id | id in p.admitted :: !IsRequired(env, plan, id)
  }

  ghost predicate HasPathId(p: Projected, id: Id) { exists path | path in p.paths :: path.id == id }

  /** An admitted bundle misses a unit or a path. */
  ghost predicate LosesSomething(env: Env, p: Projected, plan: Plan) {
    exists b, id | IsAdmitted(env, plan, p, b) ::
      (id in b.key.unitIds && id !in p.selected) || (id in b.key.pathIds && !HasPathId(p, id))
  }

  /** The admitted bundles are not of exactly the operands. */
  ghost predicate MissesOperands(env: Env, p: Projected, plan: Plan) {
    && p.composition.Some?
    && exists id :: HoldsOperand(env, p, plan, id) != NamesOperand(p.composition.value, id)
  }

  ghost predicate HoldsOperand(env: Env, p: Projected, plan: Plan, id: string) {
    exists b :: IsAdmitted(env, plan, p, b) && b.key.operandId == Some(id)
  }

  ghost predicate NamesOperand(operands: seq<Operand>, id: string) { exists o | o in operands :: o.id == id }

  ghost predicate HasContainment(p: Projected) {
    exists path, i | path in p.paths && 0 <= i < |path.edges| :: path.edges[i].relation == "CONTAINS"
  }

  /** A path of the context or of an admitted bundle is not among those that satisfied the plan. */
  ghost predicate LeavesPlan(env: Env, p: Projected, plan: Plan) {
    || plan.authoritative == []
    || (exists path | path in p.paths :: path.id !in plan.authoritative)
    || exists b, id | IsAdmitted(env, plan, p, b) && id in b.key.pathIds :: id !in plan.authoritative
  }

  ghost predicate IsSubject(env: Env, p: Projected, plan: Plan, id: Id) {
    exists b :: IsAdmitted(env, plan, p, b) && id in b.key.subjects
  }

  /** The unit is in the evidence, and starts on some day. */
  ghost predicate Starts(units: seq<Unit>, id: Id) {
    exists i | 0 <= i < |units| ::
      && units[i].id == id && units[i].effectiveFrom.Some?
      && forall j | i < j < |units| :: units[j].id != id
  }

  ghost predicate IsKey(env: Env, p: Projected, plan: Plan, key: string) {
    exists b :: IsAdmitted(env, plan, p, b) && key in b.key.versionKeys
  }

  ghost predicate HasTwoKeys(env: Env, p: Projected, plan: Plan) {
    exists a, b :: a != b && IsKey(env, p, plan, a) && IsKey(env, p, plan, b)
  }

  /** What the intent calls for. */
  ghost predicate IntentIs(env: Env, p: Projected, plan: Plan, v: Verdict) {
    match p.intent
    case Factual => v == if p.selected == [] then NoDirectEvidence else Sufficient
    case Definition => v == if p.selected == [] then NoDirectEvidence else Sufficient
    case Hierarchy => v == if HasContainment(p) then Sufficient else HierarchyIncomplete
    case MultiHop =>
      v == if p.paths == [] || plan.required == [] then GraphPathIncomplete
           else if LeavesPlan(env, p, plan) then OutsideSatisfiedPlan
           else Sufficient
    case Validity =>
      v == if p.resolvedFrom.None? then NoTemporalPoint
           else if (exists id :: IsSubject(env, p, plan, id))
                   && (forall id | IsSubject(env, p, plan, id) :: Starts(p.evidence, id)) then Sufficient
           else TemporalIncomplete
    case Comparison => v == if HasTwoKeys(env, p, plan) then Sufficient else VersionsIncomplete
  }

  /** The admitted bundles of a context. */
  ghost predicate AdmittedAre(env: Env, p: Projected, plan: Plan, admitted: set<Bundle>) {
    forall b :: b in admitted <==> IsAdmitted(env, plan, p, b)
  }

  lemma {:induction false} HasStartIs(units: seq<Unit>, id: Id)
    ensures HasStart(units, id) <==> Starts(units, id)
  {
    if units != [] {
      var init, last := units[..|units| - 1], units[|units| - 1];
      HasStartIs(init, id);
      assert units == init + [last];
      if last.id == id {
        assert units[|init|] == last;
      } else {
        StartsInit(init, last, id);
      }
    }
  }

  lemma StartsInit(init: seq<Unit>, last: Unit, id: Id)
    requires last.id != id
    ensures Starts(init + [last], id) <==> Starts(init, id)
  {
    var units := init + [last];
    if i :| 0 <= i < |init| && init[i].id == id && init[i].effectiveFrom.Some?
            && forall j | i < j < |init| :: init[j].id != id {
      assert units[i] == init[i];
      assert forall j | i < j < |init| :: units[j] == init[j];
    }
    if i :| 0 <= i < |units| && units[i].id == id && units[i].effectiveFrom.Some?
            && forall j | i < j < |units| :: units[j].id != id {
      assert init[i] == units[i];
      assert forall j | i < j < |init| :: init[j] == units[j];
    }
  }

  lemma UnknownIs(env: Env, p: Projected, plan: Plan)
    ensures var index := Admitted(env, Flatten(plan.required), p.admitted);
      (set i | 0 <= i < |p.admitted| :: p.admitted[i]) != index.Keys <==> AdmitsUnknown(env, p, plan)
  {
    var ids := set i | 0 <= i < |p.admitted| :: p.admitted[i];
    var index := Admitted(env, Flatten(plan.required), p.admitted);
    forall id | id in p.admitted ensures id in index <==> IsRequired(env, plan, id) {
      if id in index {
        FlattenedIs(env, plan.required, index[id]);
        var bs :| bs in plan.required && index[id] in bs;
      }
      if bs, b :| bs in plan.required && b in bs && env.digest(b.key) == id { FlattenedIs(env, plan.required, b); }
    }
    forall id ensures id in ids <==> id in p.admitted {
      if id in p.admitted {
        var i :| 0 <= i < |p.admitted| && p.admitted[i] == id;
        assert p.admitted[i] in ids;
      }
    }
    assert index.Keys <= ids;
    if ids != index.Keys {
      var id :| id in ids && id !in index;
      assert !IsRequired(env, plan, id);
    }
  }

  lemma LosesIs(env: Env, p: Projected, plan: Plan, admitted: set<Bundle>)
    requires AdmittedAre(env, p, plan, admitted)
    ensures LosesSomething(env, p, plan)
            <==> exists b | b in admitted ::
                   !Subset(b.key.unitIds, p.selected) || !Subset(b.key.pathIds, ProjectedPathIds(p))
  {
    forall b | b in admitted
      ensures !Subset(b.key.unitIds, p.selected) || !Subset(b.key.pathIds, ProjectedPathIds(p))
              <==> exists id :: (id in b.key.unitIds && id !in p.selected) || (id in b.key.pathIds && !HasPathId(p, id))
    {
      SubsetIs(b.key.unitIds, p.selected);
      SubsetIs(b.key.pathIds, ProjectedPathIds(p));
      forall id ensures id in ProjectedPathIds(p) <==> HasPathId(p, id) { PathIdIs(p, id); }
    }
  }

  lemma SubsetIs(ids: seq<Id>, of: seq<Id>)
    ensures Subset(ids, of) <==> forall id | id in ids :: id in of
  {
    if forall id | id in ids :: id in of {
      forall i | 0 <= i < |ids| ensures ids[i] in of { assert ids[i] in ids; }
    }
  }

  lemma PathIdIs(p: Projected, id: Id)
    ensures id in ProjectedPathIds(p) <==> HasPathId(p, id)
  {
    if path :| path in p.paths && path.id == id {
      var i :| 0 <= i < |p.paths| && p.paths[i] == path;
      assert ProjectedPathIds(p)[i] == id;
    }
    if id in ProjectedPathIds(p) {
      var i :| 0 <= i < |p.paths| && ProjectedPathIds(p)[i] == id;
      assert p.paths[i] in p.paths;
    }
  }

  lemma OperandsAre(env: Env, p: Projected, plan: Plan, admitted: set<Bundle>)
    requires AdmittedAre(env, p, plan, admitted) && p.composition.Some?
    ensures MissesOperands(env, p, plan)
            <==> (set b | b in admitted && b.key.operandId.Some? :: b.key.operandId.value)
                 != OperandIds(p.composition.value)
  {
    var own := set b | b in admitted && b.key.operandId.Some? :: b.key.operandId.value;
    forall id: string
      ensures id in own <==> HoldsOperand(env, p, plan, id)
      ensures id in OperandIds(p.composition.value) <==> NamesOperand(p.composition.value, id)
    {
      if b :| IsAdmitted(env, plan, p, b) && b.key.operandId == Some(id) { assert b in admitted; }
    }
    if own != OperandIds(p.composition.value) {
      var id :| (id in own) != (id in OperandIds(p.composition.value));
      assert HoldsOperand(env, p, plan, id) != NamesOperand(p.composition.value, id);
    }
  }

  lemma LeavesIs(env: Env, p: Projected, plan: Plan, admitted: set<Bundle>)
    requires AdmittedAre(env, p, plan, admitted)
    ensures LeavesPlan(env, p, plan)
            <==> plan.authoritative == [] || !Subset(ProjectedPathIds(p), plan.authoritative)
                 || exists b | b in admitted :: !Subset(b.key.pathIds, plan.authoritative)
  {
    SubsetIs(ProjectedPathIds(p), plan.authoritative);
    forall id ensures id in ProjectedPathIds(p) <==> HasPathId(p, id) { PathIdIs(p, id); }
    forall b: Bundle
      ensures Subset(b.key.pathIds, plan.authoritative)
              <==> forall id | id in b.key.pathIds :: id in plan.authoritative
    {
      SubsetIs(b.key.pathIds, plan.authoritative);
    }
    if path :| path in p.paths && path.id !in plan.authoritative { assert HasPathId(p, path.id); }
  }

  lemma SubjectsAre(env: Env, p: Projected, plan: Plan, admitted: set<Bundle>)
    requires AdmittedAre(env, p, plan, admitted)
    ensures var subjects := set b, id | b in admitted && id in b.key.subjects :: id;
      (subjects == {} || exists id | id in subjects :: !HasStart(p.evidence, id))
      <==> !((exists id :: IsSubject(env, p, plan, id))
             && forall id | IsSubject(env, p, plan, id) :: Starts(p.evidence, id))
  {
    var subjects := set b, id | b in admitted && id in b.key.subjects :: id;
    forall id ensures id in subjects <==> IsSubject(env, p, plan, id) {
      if b :| IsAdmitted(env, plan, p, b) && id in b.key.subjects { assert b in admitted; }
    }
    forall id ensures HasStart(p.evidence, id) <==> Starts(p.evidence, id) { HasStartIs(p.evidence, id); }
    if subjects != {} { var id :| id in subjects; }
  }

  lemma KeysAre(env: Env, p: Projected, plan: Plan, admitted: set<Bundle>)
    requires AdmittedAre(env, p, plan, admitted)
    ensures |set b, key | b in admitted && key in b.key.versionKeys :: key| >= 2 <==> HasTwoKeys(env, p, plan)
  {
    var keys := set b, key | b in admitted && key in b.key.versionKeys :: key;
    forall key ensures key in keys <==> IsKey(env, p, plan, key) {
      if b :| IsAdmitted(env, plan, p, b) && key in b.key.versionKeys { assert b in admitted; }
    }
    if |keys| >= 2 {
      var a :| a in keys;
      assert keys - {a} == {} ==> keys == {a};
      var b :| b in keys - {a};
    }
    if a, b :| a != b && a in keys && b in keys {
      assert {a, b} <= keys && |{a, b}| == 2;
      SubsetSize({a, b}, keys);
    }
  }

  lemma SubsetSize(a: set<string>, b: set<string>)
    requires a <= b
    ensures |a| <= |b|
  {
    assert b == a + (b - a);
  }

  lemma ContainmentIs(p: Projected)
    ensures HasContainment(p) <==> exists i | 0 <= i < |p.paths| :: HasRelation(p.paths[i], {"CONTAINS"})
  {
    if path, i :| path in p.paths && 0 <= i < |path.edges| && path.edges[i].relation == "CONTAINS" {
      var k :| 0 <= k < |p.paths| && p.paths[k] == path;
      assert p.paths[k].edges[i].relation in {"CONTAINS"};
    }
    if k :| 0 <= k < |p.paths| && HasRelation(p.paths[k], {"CONTAINS"}) {
      var i :| 0 <= i < |p.paths[k].edges| && p.paths[k].edges[i].relation in {"CONTAINS"};
      assert p.paths[k] in p.paths;
    }
  }

  lemma IntentHolds(env: Env, p: Projected, plan: Plan, admitted: set<Bundle>)
    requires AdmittedAre(env, p, plan, admitted)
    ensures IntentIs(env, p, plan, IntentVerdict(p, plan, admitted))
  {
    ContainmentIs(p);
    LeavesIs(env, p, plan, admitted);
    SubjectsAre(env, p, plan, admitted);
    KeysAre(env, p, plan, admitted);
  }

  /** The verdict on any context and plan, in the order of the checks. */
  lemma EvaluatesExactly(env: Env, p: Projected, plan: Plan)
    ensures var v := Evaluate(env, p, plan);
      if AdmitsUnknown(env, p, plan) then v == UnknownBundle
      else if LosesSomething(env, p, plan) then v == LostRequired
      else if MissesOperands(env, p, plan) then v == OperandsIncomplete
      else IntentIs(env, p, plan, v)
  {
    var admitted := Admitted(env, Flatten(plan.required), p.admitted).Values;
    forall b ensures b in admitted <==> IsAdmitted(env, plan, p, b) {
      AdmittedIs(env, Flatten(plan.required), p.admitted, b);
    }
    UnknownIs(env, p, plan);
    LosesIs(env, p, plan, admitted);
    if p.composition.Some? { OperandsAre(env, p, plan, admitted); }
    IntentHolds(env, p, plan, admitted);
  }
}
