/** The compaction plan as a whole, read off the evidence and the question (generation/evidence_compaction.py). */
module CompactedPlan {
  import opened Prelude
  import opened Text
  import opened Compaction
  import opened RequiredEvidence
  import opened ComparisonEvidence

  // -- what compaction starts from ------------------------------------------------------

  /** Some node of some path cites the unit. */
  ghost predicate IsCited(paths: seq<Path>, id: Id) {
    exists p, i | p in paths && 0 <= i < |p.nodes| :: p.nodes[i].1 == Some(id)
  }

  lemma {:induction false} CitableMembers(nodes: seq<(Id, Option<Id>)>, id: Id)
    ensures id in Citable(nodes) <==> exists i | 0 <= i < |nodes| :: nodes[i].1 == Some(id)
  {
    if nodes != [] {
      var init, last := nodes[..|nodes| - 1], nodes[|nodes| - 1];
      CitableMembers(init, id);
      if id in Citable(init) {
        var i :| 0 <= i < |init| && init[i].1 == Some(id);
        assert nodes[i] == init[i];
      }
      if i :| 0 <= i < |nodes| && nodes[i].1 == Some(id) {
        if i < |init| { assert init[i] == nodes[i]; }
      }
    }
  }

  lemma ProtectedIsCited(paths: seq<Path>, id: Id)
    ensures id in ProtectedIds(paths) <==> IsCited(paths, id)
  {
    forall p | p in paths ensures id in CitableIds(p) <==> exists i | 0 <= i < |p.nodes| :: p.nodes[i].1 == Some(id) {
      CitableMembers(p.nodes, id);
    }
    if p, i :| p in paths && 0 <= i < |p.nodes| && p.nodes[i].1 == Some(id) {
      assert id in CitableIds(p);
      var k :| 0 <= k < |CitableIds(p)| && CitableIds(p)[k] == id;
    }
  }

  /** All paths, but for a multi-hop question only those that satisfied its plan. */
  ghost predicate PathsAre(context: Context, validated: Validated, plan: Plan) {
    if context.intent != MultiHop then plan.paths == validated.paths && plan.authoritative == []
    else if context.satisfiedPaths.None? then plan.paths == [] && plan.authoritative == []
    else plan.authoritative == context.satisfiedPaths.value && SatisfiedPaths(validated.paths, plan)
  }

  ghost predicate SatisfiedPaths(paths: seq<Path>, plan: Plan) {
    exists positions: seq<nat> ::
      && Selects(paths, positions, plan.paths)
      && forall i | 0 <= i < |paths| :: i in positions <==> paths[i].id in plan.authoritative
  }

  lemma {:induction false} PathsWithinAre(paths: seq<Path>, ids: seq<Id>) returns (positions: seq<nat>)
    ensures Selects(paths, positions, PathsWithin(paths, ids))
    ensures forall i | 0 <= i < |paths| :: i in positions <==> paths[i].id in ids
  {
    if paths == [] {
      positions := [];
    } else {
      var init, last := paths[..|paths| - 1], paths[|paths| - 1];
      positions := PathsWithinAre(init, ids);
      assert paths == init + [last];
      SelectsMore(init, positions, PathsWithin(init, ids), last);
      if last.id in ids { positions := positions + [|init|]; }
    }
  }

  /** The units a composition plan assigns, the units on the paths of a multi-hop question, or everything. */
  ghost predicate IsSource(
      context: Context, validated: Validated, composition: Option<seq<Operand>>, paths: seq<Path>, c: Candidate)
  {
    && c in validated.candidates
    && (composition.Some? ==>
          exists i | 0 <= i < |composition.value| :: c.unit.id in composition.value[i].evidenceIds)
    && (composition.None? && context.intent == MultiHop ==> IsCited(paths, c.unit.id))
  }

  lemma SourceIs(context: Context, validated: Validated, composition: Option<seq<Operand>>, c: Candidate)
    ensures c in SourceCandidates(context, validated, composition)
            <==> IsSource(context, validated, composition, AuthoritativePaths(context, validated).0, c)
  {
    ProtectedIsCited(AuthoritativePaths(context, validated).0, c.unit.id);
    if composition.Some? { AssignedIs(composition.value, c.unit.id); }
  }

  lemma AssignedIs(operands: seq<Operand>, id: Id)
    ensures id in AssignedIds(operands) <==> exists i | 0 <= i < |operands| :: id in operands[i].evidenceIds
  {
    if i :| 0 <= i < |operands| && id in operands[i].evidenceIds { assert operands[i] in operands; }
  }

  // -- duplicates ---------------------------------------------------------------------------

  /** Same document and family, and the same text up to white space and case. */
  predicate SameContent(env: Env, a: Candidate, b: Candidate) {
    && a.unit.documentId == b.unit.documentId && a.unit.familyId == b.unit.familyId
    && env.casefold(Strip(Collapse(a.unit.content))) == env.casefold(Strip(Collapse(b.unit.content)))
  }

  /** Ranked no later: by rank, and by unit id within a rank. */
  predicate NoLater(a: Candidate, b: Candidate) {
    a.rank < b.rank || (a.rank == b.rank && StringLe(a.unit.id, b.unit.id))
  }

  /** One of the two is above the other, or they are of the same unit of the hierarchy. */
  predicate OneBranch(a: Unit, b: Unit) {
    && a.articleId == b.articleId
    && (a.clauseId.Some? && b.clauseId.Some? ==> a.clauseId == b.clauseId)
  }

  /** `c` was left out for `kept`, which holds the same text and ranks no later; paths cite neither. */
  ghost predicate IsDuplicateOf(env: Env, plan: Plan, c: Candidate, kept: Candidate, o: Omission) {
    && SameContent(env, c, kept) && NoLater(kept, c)
    && kept in plan.candidates && !IsCited(plan.paths, c.unit.id) && !IsCited(plan.paths, kept.unit.id)
    && o == Omission(c.unit.id, if OneBranch(kept.unit, c.unit) then HierarchicalDuplicate else ContentDuplicate,
                     Some(kept.unit.id))
  }

  ghost predicate IsOmitted(env: Env, plan: Plan, c: Candidate) {
    exists o, kept :: o in plan.omitted && IsDuplicateOf(env, plan, c, kept, o)
  }

  /** Candidates by rank, each once, none cited by no path and the same as another. */
  ghost predicate CandidatesAre(env: Env, plan: Plan) {
    forall i, j | 0 <= i < j < |plan.candidates| ::
      && NoLater(plan.candidates[i], plan.candidates[j])
      && (!IsCited(plan.paths, plan.candidates[i].unit.id) && !IsCited(plan.paths, plan.candidates[j].unit.id) ==>
            !SameContent(env, plan.candidates[i], plan.candidates[j]))
  }

  lemma DroppedIs(env: Env, plan: Plan, c: Candidate, kept: Candidate)
    requires Duplicates(env, ProtectedIds(plan.paths), c, kept) && kept in plan.candidates
    ensures IsDuplicateOf(env, plan, c, kept, OmissionOf((c, kept)))
  {
    ProtectedIsCited(plan.paths, c.unit.id);
    ProtectedIsCited(plan.paths, kept.unit.id);
  }

  ghost predicate OmissionsAre(
      env: Env, context: Context, validated: Validated, composition: Option<seq<Operand>>, plan: Plan)
  {
    forall o | o in plan.omitted :: exists c, kept ::
      IsSource(context, validated, composition, plan.paths, c) && IsDuplicateOf(env, plan, c, kept, o)
  }

  lemma OmissionsHold(env: Env, context: Context, validated: Validated, composition: Option<seq<Operand>>)
    ensures OmissionsAre(env, context, validated, composition, CompactPlan(env, context, validated, composition))
  {
    var plan := CompactPlan(env, context, validated, composition);
    var ordered := Ordered(SourceCandidates(context, validated, composition));
    var dropped := Split(env, ordered, ProtectedIds(plan.paths)).1;
    RankLeIsTotal();
    SortBySorted(SourceCandidates(context, validated, composition), RankLe);
    SortByMembers(SourceCandidates(context, validated, composition), RankLe);
    DroppedNameKeepers(env, ordered, ProtectedIds(plan.paths));
    forall o | o in plan.omitted
      ensures exists c, kept ::
                IsSource(context, validated, composition, plan.paths, c) && IsDuplicateOf(env, plan, c, kept, o)
    {
      var i :| 0 <= i < |dropped| && OmissionOf(dropped[i]) == o;
      assert dropped[i] in dropped;
      DroppedIs(env, plan, dropped[i].0, dropped[i].1);
      SourceIs(context, validated, composition, dropped[i].0);
    }
  }

  lemma SourceKeptOrOmitted(
      env: Env, context: Context, validated: Validated, composition: Option<seq<Operand>>, c: Candidate)
    ensures var plan := CompactPlan(env, context, validated, composition);
      && (c in plan.candidates ==> IsSource(context, validated, composition, plan.paths, c))
      && (IsSource(context, validated, composition, plan.paths, c) ==> c in plan.candidates || IsOmitted(env, plan, c))
  {
    var plan := CompactPlan(env, context, validated, composition);
    var source := SourceCandidates(context, validated, composition);
    var (retained, dropped) := Split(env, Ordered(source), ProtectedIds(plan.paths));
    SourceIs(context, validated, composition, c);
    RankLeIsTotal();
    SortBySorted(source, RankLe);
    SortByMembers(source, RankLe);
    DroppedNameKeepers(env, Ordered(source), ProtectedIds(plan.paths));
    SplitPartitions(env, Ordered(source), ProtectedIds(plan.paths));
    if c in source && c !in plan.candidates {
      assert c in multiset(Ordered(source)) && c in multiset(Dropped(dropped));
      var i :| 0 <= i < |dropped| && Dropped(dropped)[i] == c;
      assert dropped[i] in dropped;
      DroppedIs(env, plan, c, dropped[i].1);
      assert Omissions(dropped)[i] in plan.omitted;
    }
  }

  lemma CandidatesHold(env: Env, context: Context, validated: Validated, composition: Option<seq<Operand>>)
    ensures CandidatesAre(env, CompactPlan(env, context, validated, composition))
  {
    var plan := CompactPlan(env, context, validated, composition);
    var source := SourceCandidates(context, validated, composition);
    RankLeIsTotal();
    SortBySorted(source, RankLe);
    DroppedNameKeepers(env, Ordered(source), ProtectedIds(plan.paths));
    RetainedAreDistinct(env, Ordered(source), ProtectedIds(plan.paths));
    forall c | c in plan.candidates ensures c.unit.id in ProtectedIds(plan.paths) <==> IsCited(plan.paths, c.unit.id) {
      ProtectedIsCited(plan.paths, c.unit.id);
    }
    forall i, j | 0 <= i < j < |plan.candidates|
      ensures NoLater(plan.candidates[i], plan.candidates[j])
      ensures !IsCited(plan.paths, plan.candidates[i].unit.id) && !IsCited(plan.paths, plan.candidates[j].unit.id) ==>
                !SameContent(env, plan.candidates[i], plan.candidates[j])
    {
      assert plan.candidates[i] in plan.candidates && plan.candidates[j] in plan.candidates;
      assert RankLe(plan.candidates[i], plan.candidates[j]);
      assert KeyOf(env, plan.candidates[i]) == KeyOf(env, plan.candidates[j])
        <==> SameContent(env, plan.candidates[i], plan.candidates[j]);
    }
  }

  // -- the composition plan --------------------------------------------------------------------

  /** The unit itself, or the one it was left out for. */
  ghost predicate StandsIn(omitted: seq<Omission>, id: Id, r: Id) {
    || (r == id && forall o | o in omitted && o.retainedId.Some? :: o.unitId != id)
    || exists o | o in omitted :: o.unitId == id && o.retainedId == Some(r)
  }

  /** Each operand keeps its id, and its units in order, with duplicates replaced and repeats dropped. */
  ghost predicate IsNormalized(omitted: seq<Omission>, operand: Operand, normalized: Operand) {
    normalized.id == operand.id
    && exists replaced: seq<Id> ::
         && |replaced| == |operand.evidenceIds| && FirstOccurrences(replaced, normalized.evidenceIds)
         && forall i | 0 <= i < |replaced| :: StandsIn(omitted, operand.evidenceIds[i], replaced[i])
  }

  ghost predicate CompositionIs(composition: Option<seq<Operand>>, plan: Plan) {
    if composition.None? then plan.composition.None?
    else
      && plan.composition.Some? && |plan.composition.value| == |composition.value|
      && forall k | 0 <= k < |composition.value| ::
           IsNormalized(plan.omitted, composition.value[k], plan.composition.value[k])
  }

  lemma OperandNormalized(omissions: seq<Omission>, operand: Operand)
    ensures IsNormalized(omissions, operand, operand.(evidenceIds := ReplaceAll(omissions, operand.evidenceIds)))
  {
    var ids := operand.evidenceIds;
    var replaced := seq(|ids|, i requires 0 <= i < |ids| => Replacement(omissions, ids[i]));
    forall i | 0 <= i < |ids| ensures StandsIn(omissions, ids[i], replaced[i]) { ReplacementIs(omissions, ids[i]); }
    UniqueKeepsFirsts(replaced);
    assert ReplaceAll(omissions, ids) == Unique(replaced);
  }

  lemma CompositionHolds(env: Env, context: Context, validated: Validated, composition: Option<seq<Operand>>)
    ensures CompositionIs(composition, CompactPlan(env, context, validated, composition))
  {
    var plan := CompactPlan(env, context, validated, composition);
    if composition.Some? {
      forall k | 0 <= k < |composition.value|
        ensures IsNormalized(plan.omitted, composition.value[k], plan.composition.value[k])
      {
        OperandNormalized(plan.omitted, composition.value[k]);
      }
    }
  }

  // -- what is required ---------------------------------------------------------------------------

  /** The alternatives an answer may rest on. */
  ghost predicate RequiredAre(context: Context, plan: Plan) {
    var cs := plan.candidates;
    if plan.composition.Some? then OperandSets(context.intent, cs, plan.composition.value, plan.required)
    else if context.relationGoal.Some? then PathSets(context, cs, plan.paths, plan.required)
    else
      match context.intent
      case Factual => EligibleSets(Factual, cs, plan.required)
      case Definition => EligibleSets(Definition, cs, plan.required)
      case Hierarchy => PathSets(context, cs, plan.paths, plan.required)
      case MultiHop => PathSets(context, cs, plan.paths, plan.required)
      case Validity =>
        if context.resolvedFrom.None? then plan.required == []
        else ValiditySets(cs, context.resolvedFrom.value, context.referenceIds, plan.required)
      case Comparison => ComparisonSets(cs, plan.paths, plan.required)
  }

  lemma OperandSetsHold(intent: Intent, cs: seq<Candidate>, operands: seq<Operand>)
    ensures var r := OperandBundles(intent, cs, operands);
      OperandSets(intent, cs, operands, if r.Some? then [r.value] else [])
  {
    OperandBundlesAre(intent, cs, operands);
  }

  lemma RequiredHold(context: Context, plan: Plan)
    requires plan.required == RequiredBundles(context, plan.candidates, plan.paths, plan.composition)
    ensures RequiredAre(context, plan)
  {
    var cs, paths, composition := plan.candidates, plan.paths, plan.composition;
    if composition.Some? {
      OperandSetsHold(context.intent, cs, composition.value);
    } else if context.relationGoal.Some? {
      var positions, kept := GoalBundlesAre(context, cs, paths);
    } else {
      match context.intent {
        case Factual => var positions, kept := EligibleBundlesAre(Factual, cs);
        case Definition => var positions, kept := EligibleBundlesAre(Definition, cs);
        case Hierarchy => var positions, kept := PathBundlesAre(context, cs, paths);
        case MultiHop => var positions, kept := PathBundlesAre(context, cs, paths);
        case Validity =>
          if context.resolvedFrom.Some? {
            var positions, kept := ValidityBundlesAre(cs, context.resolvedFrom.value, context.referenceIds);
          }
        case Comparison => ComparisonBundlesAre(cs, paths);
      }
    }
  }

  lemma PathsHold(env: Env, context: Context, validated: Validated, composition: Option<seq<Operand>>)
    ensures PathsAre(context, validated, CompactPlan(env, context, validated, composition))
  {
    if context.intent == MultiHop && context.satisfiedPaths.Some? {
      var positions := PathsWithinAre(validated.paths, context.satisfiedPaths.value);
    }
  }

  /**
    The whole plan: its paths, its candidates in order and without uncited duplicates, what was left out and for which
    candidate, the composition in terms of what is left, and the sets of bundles an answer may rest on.
   */
  lemma PlanIsRight(env: Env, context: Context, validated: Validated, composition: Option<seq<Operand>>)
    ensures var plan := CompactPlan(env, context, validated, composition);
      && PathsAre(context, validated, plan) && CandidatesAre(env, plan)
      && (forall c | c in plan.candidates :: IsSource(context, validated, composition, plan.paths, c))
      && (forall c | IsSource(context, validated, composition, plan.paths, c) ::
            c in plan.candidates || IsOmitted(env, plan, c))
      && OmissionsAre(env, context, validated, composition, plan)
      && CompositionIs(composition, plan) && RequiredAre(context, plan)
  {
    var plan := CompactPlan(env, context, validated, composition);
    PathsHold(env, context, validated, composition);
    CandidatesHold(env, context, validated, composition);
    forall c
      ensures c in plan.candidates ==> IsSource(context, validated, composition, plan.paths, c)
      ensures IsSource(context, validated, composition, plan.paths, c) ==>
                c in plan.candidates || IsOmitted(env, plan, c)
    {
      SourceKeptOrOmitted(env, context, validated, composition, c);
    }
    OmissionsHold(env, context, validated, composition);
    CompositionHolds(env, context, validated, composition);
    RequiredHold(context, plan);
  }
}
