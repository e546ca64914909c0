/** The generation path from retrieved evidence to an answer or a refusal (generation/service.py). */
module AnswerService {
  import opened Prelude
  import E = Compaction
  import P = Projection
  import V = ProjectedValidation
  import A = ProjectionAgreement
  import G = Grounding
  import R = Rendering

  datatype ProviderError = Dependency | Timeout | Output | OtherFailure

  datatype Reply = Candidate(c: R.Candidate) | Failed(e: ProviderError)

  /** The first call carries no feedback, a repair call the error it is to repair. */
  type Feedback = Option<G.Error>

  datatype Refusal =
    | Insufficient(code: string)
    | NoRequiredSet
    | ExceedsBudget
    | Rejected(verdict: V.Verdict)
    | RepairFailed

  datatype Failure = BadRequest | BadBudget | ProviderFailed(e: ProviderError) | NotGrounded(error: G.Error)

  /** `calls` records the provider calls that were made. */
  datatype Outcome =
    | Refused(refusal: Refusal, calls: seq<Feedback>)
    | Answered(response: G.Response, calls: seq<Feedback>)
    | Raised(failure: Failure, calls: seq<Feedback>)

  /** Everything a generation depends on; the sufficiency policy and the evidence validator are their results. */
  datatype Input = Input(
    selection: E.Env,
    text: G.Env,
    config: P.Config,
    request: P.Request,
    insufficient: Option<string>,
    validated: E.Validated,
    composition: Option<seq<E.Operand>>,
    provider: Feedback -> Reply)

  ghost predicate ValidInput(i: Input) { A.ValidComposition(i.composition) }

  function PlanOf(i: Input): E.Plan { E.CompactPlan(i.selection, i.request.context, i.validated, i.composition) }

  function Projection(i: Input): P.Outcome
    requires ValidInput(i)
  {
    A.CompactedPlanIsBuildable(i.selection, i.request.context, i.validated, i.composition);
    P.Project(i.selection, i.config, i.request, PlanOf(i))
  }

  /** The repair call, made once with the error of the first candidate. */
  function Repair(i: Input, p: P.Projected, error: G.Error): Outcome {
    var calls := [None, Some(error)];
    match i.provider(Some(error))
    case Failed(OtherFailure) => Raised(ProviderFailed(OtherFailure), calls)
    case Failed(_) => Refused(RepairFailed, calls)
    case Candidate(c) =>
      match G.Validate(i.text, c, p, G.BuildRegistry(p))
      case Ok(response) => Answered(response, calls)
      case Err(second) => Raised(NotGrounded(second), calls)
  }

  function AskProvider(i: Input, p: P.Projected): Outcome {
    match i.provider(None)
    case Failed(e) => Raised(ProviderFailed(e), [None])
    case Candidate(c) =>
      match G.Validate(i.text, c, p, G.BuildRegistry(p))
      case Ok(response) => Answered(response, [None])
      case Err(error) => Repair(i, p, error)
  }

  function Generate(i: Input): Outcome
    requires ValidInput(i)
  {
    if i.insufficient.Some? then Refused(Insufficient(i.insufficient.value), [])
    else
      match Projection(i)
      case RequestRejected => Raised(BadRequest, [])
      case BudgetMisconfigured => Raised(BadBudget, [])
      case NoRequiredSet => Refused(NoRequiredSet, [])
      case ExceedsBudget => Refused(ExceedsBudget, [])
      case Ready(p) =>
        var verdict := V.Evaluate(i.selection, p, PlanOf(i));
        if verdict != V.Sufficient then Refused(Rejected(verdict), []) else AskProvider(i, p)
  }

  method GenerateAnswer(i: Input) returns (outcome: Outcome)
    requires ValidInput(i)
    ensures outcome == Generate(i)
  {
    if i.insufficient.Some? {
      return Refused(Insufficient(i.insufficient.value), []);
    }
    A.CompactedPlanIsBuildable(i.selection, i.request.context, i.validated, i.composition);
    var plan := E.Compact(i.selection, i.request.context, i.validated, i.composition);
    var projection := P.ProjectEvidence(i.selection, i.config, i.request, plan);
    match projection {
      case RequestRejected => return Raised(BadRequest, []);
      case BudgetMisconfigured => return Raised(BadBudget, []);
      case NoRequiredSet => return Refused(NoRequiredSet, []);
      case ExceedsBudget => return Refused(ExceedsBudget, []);
      case Ready(p) =>
        var verdict := V.Evaluate(i.selection, p, plan);
        if verdict != V.Sufficient {
          return Refused(Rejected(verdict), []);
        }
        outcome := CallProvider(i, p);
    }
  }

  method CallProvider(i: Input, p: P.Projected) returns (outcome: Outcome)
    ensures outcome == AskProvider(i, p)
  {
    var reply := i.provider(None);
    if reply.Failed? {
      return Raised(ProviderFailed(reply.e), [None]);
    }
    var checked := G.ValidateAndRender(i.text, reply.c, p, G.BuildRegistry(p));
    if checked.Ok? {
      return Answered(checked.value, [None]);
    }
    reply := i.provider(Some(checked.error));
    var calls := [None, Some(checked.error)];
    if reply.Failed? {
      return if reply.e == OtherFailure then Raised(ProviderFailed(OtherFailure), calls)
             else Refused(RepairFailed, calls);
    }
    var second := G.ValidateAndRender(i.text, reply.c, p, G.BuildRegistry(p));
    outcome := if second.Ok? then Answered(second.value, calls) else Raised(NotGrounded(second.error), calls);
  }

  // -- what a generation guarantees ------------------------------------------------------

  /** The provider is asked only about a context that passed every gate. */
  ghost predicate Reaches(i: Input, p: P.Projected)
    requires ValidInput(i)
  {
    i.insufficient.None? && Projection(i) == P.Ready(p) && V.Evaluate(i.selection, p, PlanOf(i)) == V.Sufficient
  }

  lemma ReadySelectionMatches(i: Input, p: P.Projected)
    requires ValidInput(i) && Projection(i) == P.Ready(p)
    ensures G.SelectionMatches(p)
  {
    A.CompactedPlanIsBuildable(i.selection, i.request.context, i.validated, i.composition);
    P.UsedIsExact(i.selection, i.config, i.request, PlanOf(i));
  }

  /** An answer that is not a refusal comes from the candidate of the last call and is grounded in the projection. */
  ghost predicate IsGrounded(i: Input, p: P.Projected, outcome: Outcome)
    requires outcome.Answered? && outcome.calls != []
  {
    var reply := i.provider(outcome.calls[|outcome.calls| - 1]);
    reply.Candidate? && (!outcome.response.cannotAnswer ==> G.Supported(i.text, reply.c, p, outcome.response))
  }

  lemma AskedAtMostTwice(i: Input, p: P.Projected)
    requires G.SelectionMatches(p)
    ensures var outcome := AskProvider(i, p);
      && 1 <= |outcome.calls| <= 2 && outcome.calls[0] == None
      && (|outcome.calls| == 2 <==> i.provider(None).Candidate?
                                    && G.Validate(i.text, i.provider(None).c, p, G.BuildRegistry(p)).Err?)
      && (|outcome.calls| == 2 ==>
            outcome.calls[1] == Some(G.Validate(i.text, i.provider(None).c, p, G.BuildRegistry(p)).error))
      && (outcome.Answered? ==> IsGrounded(i, p, outcome))
  {
    var outcome := AskProvider(i, p);
    if outcome.Answered? {
      var reply := i.provider(outcome.calls[|outcome.calls| - 1]);
      if !reply.c.cannotAnswer { G.SupportedAnswer(i.text, reply.c, p); }
    }
  }

  /**
    The provider is called at most twice, the second time only to repair the first candidate's error, and never about a
    context that failed a gate; whatever answer is given is grounded in the projection of the retrieved evidence.
   */
  lemma GenerationIsGrounded(i: Input)
    requires ValidInput(i)
    ensures var outcome := Generate(i);
      && |outcome.calls| <= 2
      && (outcome.calls != [] <==> exists p :: Reaches(i, p))
      && (outcome.Answered? ==> exists p :: Reaches(i, p) && IsGrounded(i, p, outcome))
      && (outcome.Refused? && outcome.refusal != RepairFailed ==> outcome.calls == [])
  {
    Gates(i);
    if p :| Reaches(i, p) {
      ReachedIsGrounded(i, p);
      assert Generate(i) == AskProvider(i, p);
    }
  }

  lemma ReachedIsGrounded(i: Input, p: P.Projected)
    requires ValidInput(i) && Reaches(i, p)
    ensures var outcome := AskProvider(i, p);
      && 1 <= |outcome.calls| <= 2 && (outcome.Answered? ==> IsGrounded(i, p, outcome))
      && (outcome.Refused? ==> outcome.refusal == RepairFailed)
  {
    ReadySelectionMatches(i, p);
    AskedAtMostTwice(i, p);
    OnlyRepairsRefuse(i, p);
  }

  lemma OnlyRepairsRefuse(i: Input, p: P.Projected)
    ensures AskProvider(i, p).Refused? ==> AskProvider(i, p).refusal == RepairFailed
  {}

  /** Past the gates everything is decided by the provider; before them nothing is asked. */
  lemma Gates(i: Input)
    requires ValidInput(i)
    ensures forall p | Reaches(i, p) :: Generate(i) == AskProvider(i, p)
    ensures (forall p :: !Reaches(i, p)) ==> Generate(i).calls == [] && !Generate(i).Answered?
    ensures i.insufficient.None? && Projection(i).Ready?
            && V.Evaluate(i.selection, Projection(i).projected, PlanOf(i)) == V.Sufficient
            ==> Reaches(i, Projection(i).projected)
  {
    var outcome := Projection(i);
    if i.insufficient.None? && outcome.Ready?
       && V.Evaluate(i.selection, outcome.projected, PlanOf(i)) == V.Sufficient {
      assert Reaches(i, outcome.projected);
    }
  }

  /**
    When the provider is reached, in terms of the request and of the chosen bundle set: the re-check stops nothing but
    what `Acceptable` excludes.
   */
  lemma ReachedExactly(i: Input)
    requires ValidInput(i) && A.InjectiveDigest(i.selection)
    requires NoDup(E.UnitIds(i.validated.candidates)) && A.PathIdsIdentifyTopology(i.validated.paths)
    requires i.insufficient.None? && Projection(i).Ready?
    ensures P.Buildable(PlanOf(i))
    ensures var chosen := P.ChosenSet(i.selection, PlanOf(i), Projection(i).projected.budget);
      chosen.Some? && (Generate(i).calls != [] <==> A.Acceptable(i.request.context, PlanOf(i), chosen.value.bundles))
  {
    A.AcceptedExactly(i.selection, i.config, i.request, i.validated, i.composition);
    AskedIffSufficient(i);
  }

  lemma AskedIffSufficient(i: Input)
    requires ValidInput(i) && i.insufficient.None? && Projection(i).Ready?
    ensures Generate(i).calls != []
            <==> V.Evaluate(i.selection, Projection(i).projected, PlanOf(i)) == V.Sufficient
  {
    Gates(i);
    ReadySelectionMatches(i, Projection(i).projected);
    AskedAtMostTwice(i, Projection(i).projected);
  }

  // -- every outcome ------------------------------------------------------------------------

  /** What the checks make of a reply that is a candidate. */
  ghost predicate Passes(i: Input, p: P.Projected, reply: Reply, response: G.Response) {
    reply.Candidate? && G.Validate(i.text, reply.c, p, G.BuildRegistry(p)) == Ok(response)
  }

  ghost predicate Fails(i: Input, p: P.Projected, reply: Reply, error: G.Error) {
    reply.Candidate? && G.Validate(i.text, reply.c, p, G.BuildRegistry(p)) == Err(error)
  }

  /**
    A first candidate that passes is the answer, and a failing provider is an error. A candidate that fails is sent back
    once; then a candidate that passes is the answer, a second failing one an error, and a provider that does not
    deliver one makes the generation refuse, unless its failure is of none of the known kinds.
   */
  lemma RepliesDecide(i: Input, p: P.Projected)
    ensures var outcome, first := AskProvider(i, p), i.provider(None);
      && (forall e :: first == Failed(e) ==> outcome == Raised(ProviderFailed(e), [None]))
      && (forall response :: Passes(i, p, first, response) ==> outcome == Answered(response, [None]))
      && (forall error :: Fails(i, p, first, error) ==>
            var second, calls := i.provider(Some(error)), [None, Some(error)];
            && (second == Failed(Dependency) || second == Failed(Timeout) || second == Failed(Output) ==>
                  outcome == Refused(RepairFailed, calls))
            && (second == Failed(OtherFailure) ==> outcome == Raised(ProviderFailed(OtherFailure), calls))
            && (forall response :: Passes(i, p, second, response) ==> outcome == Answered(response, calls))
            && (forall again :: Fails(i, p, second, again) ==> outcome == Raised(NotGrounded(again), calls)))
  {
    match i.provider(None)
    case Failed(_) =>
    case Candidate(c) =>
      if G.Validate(i.text, c, p, G.BuildRegistry(p)).Err? {
        var error := G.Validate(i.text, c, p, G.BuildRegistry(p)).error;
        assert i.provider(Some(error)).Failed? || i.provider(Some(error)).Candidate?;
      }
  }

  /** Before the provider is asked, the gates end a generation in this order. */
  lemma GatesDecide(i: Input)
    requires ValidInput(i)
    ensures var outcome, projection := Generate(i), Projection(i);
      && (forall code :: i.insufficient == Some(code) ==> outcome == Refused(Insufficient(code), []))
      && (i.insufficient.None? ==>
            && (projection == P.RequestRejected ==> outcome == Raised(BadRequest, []))
            && (projection == P.BudgetMisconfigured ==> outcome == Raised(BadBudget, []))
            && (projection == P.NoRequiredSet ==> outcome == Refused(NoRequiredSet, []))
            && (projection == P.ExceedsBudget ==> outcome == Refused(ExceedsBudget, []))
            && (projection.Ready? ==>
                  var verdict := V.Evaluate(i.selection, projection.projected, PlanOf(i));
                  (verdict != V.Sufficient ==> outcome == Refused(Rejected(verdict), []))
                  && (verdict == V.Sufficient ==> outcome == AskProvider(i, projection.projected))))
  {
    Gates(i);
  }
}
