/**
  Requests for turns, interleaved (conversation/service.py, persistence/lock.py, persistence/repository.py).

  A state holds the rows of every conversation, the advisory locks and one record per request handler. Every event is
  one atomic action of one handler: a read, a try-lock, one committed transaction, an unlock or a crash. Handlers
  interleave freely, retries are further handlers with the same request, and a crash drops the handler's lock.
 */
module TurnProtocol {
  import opened Prelude
  import Text
  import Clarification
  import Focuses
  import Resolver
  import opened Conversation
  import opened ConversationInvariant

  /** What the environment fixes: the Unicode database, the small-talk table and the digest behind the lock key. */
  datatype Env = Env(
    unicode: Text.Unicode,
    greeting: string -> Option<string>,
    lockKey: Uuid -> int)

  datatype Request = Request(conversation: Uuid, owner: Owner, clientTurn: Uuid, message: string)

  datatype Response =
    | StillProcessing
    | Replay(snapshot: Snapshot)
    | MissingSnapshot
    | NotFoundError
    | BusyError
    | UnhandledError

  datatype Phase =
    | PreChecking
    | WaitingForLock
    | ReChecking
    | Beginning
    | Working(begun: Begun)
    | Releasing(response: Response)
    | Done(response: Response)
    | Crashed

  datatype Handler = Handler(request: Request, phase: Phase)

  datatype World = World(db: map<Uuid, Rows>, locks: map<int, Uuid>, handlers: map<Uuid, Handler>)

  const START := World(map[], map[], map[])

  /** How retrieval and generation ended for a turn that the resolver did not already settle. */
  datatype Work =
    | RewriteFailed(code: string)
    | FilterConflict
    | ProcessorFailed
    | ProcessorAsks(question: string)
    | AnswerFailed(code: string)
    | AnswerReady(cannotAnswer: bool, text: string, citations: seq<Focuses.Citation>)
    | Unhandled

  datatype Event =
    | Arrive(handler: Uuid, request: Request)
    | PreCheck(handler: Uuid)
    | TryLock(handler: Uuid)
    | GiveUp(handler: Uuid)
    | ReCheck(handler: Uuid)
    | Begin(handler: Uuid, turn: Uuid)
    | Finish(handler: Uuid, reading: Resolver.Reading, work: Work)
    | Unlock(handler: Uuid)
    | Crash(handler: Uuid)
    | ChangeOwner(conversation: Uuid, owner: Owner)

  /** The one finalize transaction that a branch of `_process_turn` runs, or the exception that escapes it. */
  datatype Finalize =
    | Ask(mode: Resolver.Mode, question: string, candidates: seq<Clarification.Candidate>, snapshot: Snapshot)
    | Reply(status: TurnStatus, kind: MessageKind, content: string, citations: seq<Focuses.Citation>,
            updateFocus: bool, snapshot: Snapshot)
    | Fail(code: string, snapshot: Snapshot)
    | Raise

  const CANCEL_TEXT := "Đã hủy yêu cầu làm rõ. Bạn có thể đặt câu hỏi mới."
  const CONFLICT_QUESTION :=
    "Tham chiếu pháp lý không thuộc bộ lọc tài liệu đã chọn. Bạn muốn đổi tài liệu hay hỏi lại trong phạm vi hiện tại?"

  function AskFor(mode: Resolver.Mode, question: string, candidates: seq<Clarification.Candidate>): Finalize {
    Ask(mode, question, candidates, Snapshot(ClarificationReply, question))
  }

  function Direct(text: string): Finalize {
    Reply(Completed, SmallTalk, text, [], false, Snapshot(SmallTalkReply, text))
  }

  function FromWork(work: Work): Finalize {
    match work
    case RewriteFailed(code) => Fail(code, Snapshot(ErrorReply, code))
    case FilterConflict => AskFor(Resolver.Restate, CONFLICT_QUESTION, [])
    case ProcessorFailed => Fail("QUERY_PROCESSING_FAILED", Snapshot(ErrorReply, "QUERY_PROCESSING_FAILED"))
    case ProcessorAsks(question) => AskFor(Resolver.Restate, question, [])
    case AnswerFailed(code) => Fail(code, Snapshot(ErrorReply, code))
    case AnswerReady(cannot, text, citations) =>
      if cannot then
        Reply(CannotAnswer, CannotAnswerMessage, text, citations, false, Snapshot(CannotAnswerReply, text))
      else
        Reply(Completed, Answer, text, citations, true, Snapshot(AnswerReply, text))
    case Unhandled => Raise
  }

  /** `_process_turn`: which finalize each resolution leads to. */
  function Decide(env: Env, outcome: Resolver.Outcome, message: string, work: Work): Finalize {
    match outcome
    case Cancelled => Direct(CANCEL_TEXT)
    case Clarify(mode, _, _, question, candidates) => AskFor(mode, question, candidates)
    case Raised => Raise
    case Standalone => if env.greeting(message).Some? then Direct(env.greeting(message).value) else FromWork(work)
    case ResolvedTo(_, _, _, _, _) => FromWork(work)
  }

  /** The committed effect of a finalize; an error means that the exception escapes and nothing is written. */
  ghost function Commit(rows: Rows, begun: Begun, f: Finalize): Result<(Rows, Snapshot), StoreError> {
    match f
    case Ask(mode, question, candidates, snapshot) =>
      var r := PersistClarification(rows, begun.turn, mode, question, candidates, snapshot);
      if r.Ok? then Ok((r.value, snapshot)) else Err(r.error)
    case Reply(status, kind, content, citations, updateFocus, snapshot) =>
      Ok((PersistGroundedAnswer(rows, begun.turn, begun.no, status, kind, content, Focuses.FromCitations(citations),
                                updateFocus, snapshot), snapshot))
    case Fail(code, snapshot) => Ok((MarkTurnFailed(rows, begun.turn, code, snapshot), snapshot))
    case Raise => Err(InvalidCandidates)
  }

  /** `_replay_snapshot`. */
  function ReplayOf(turn: Turn): Response {
    if turn.status == Processing then StillProcessing
    else if turn.snapshot.Some? then Replay(turn.snapshot.value)
    else MissingSnapshot
  }

  // -- transitions --------------------------------------------------------------------

  function RowsOf(w: World, conversation: Uuid): Rows {
    if conversation in w.db then w.db[conversation] else NO_ROWS
  }

  predicate HoldsLock(phase: Phase) {
    phase.ReChecking? || phase.Beginning? || phase.Working? || phase.Releasing?
  }

  function Key(env: Env, h: Handler): int { env.lockKey(h.request.conversation) }

  function Outcome(env: Env, h: Handler, reading: Resolver.Reading): Resolver.Outcome
    requires h.phase.Working?
  {
    var context := h.phase.begun.context;
    Resolver.Resolve(env.unicode, h.request.message, context.pending, reading, context.focuses)
  }

  predicate CanonicalCitations(citations: seq<Focuses.Citation>) {
    CanonicalUpserts(Focuses.FromCitations(citations))
  }

  /** When an event can happen, with what is known about its data: fresh ids, canonical lookups and citations. */
  ghost predicate Enabled(env: Env, w: World, e: Event) {
    match e
    case Arrive(c, request) => c !in w.handlers
    case ChangeOwner(conversation, owner) => conversation in w.db && w.db[conversation].header.Some?
    case PreCheck(c) => c in w.handlers && w.handlers[c].phase.PreChecking?
    case TryLock(c) => c in w.handlers && w.handlers[c].phase.WaitingForLock?
    case GiveUp(c) => c in w.handlers && w.handlers[c].phase.WaitingForLock?
    case ReCheck(c) => c in w.handlers && w.handlers[c].phase.ReChecking?
    case Begin(c, turn) =>
      && c in w.handlers && w.handlers[c].phase.Beginning?
      && forall t | t in RowsOf(w, w.handlers[c].request.conversation).turns :: t.id != turn
    case Finish(c, reading, work) =>
      && c in w.handlers && w.handlers[c].phase.Working?
      && Resolver.CanonicalReading(reading)
      && (work.AnswerReady? ==> CanonicalCitations(work.citations))
      && (work.FilterConflict? ==> Outcome(env, w.handlers[c], reading).ResolvedTo?)
    case Unlock(c) => c in w.handlers && w.handlers[c].phase.Releasing?
    case Crash(c) => c in w.handlers && !w.handlers[c].phase.Done? && !w.handlers[c].phase.Crashed?
  }

  function SetPhase(w: World, c: Uuid, phase: Phase): World
    requires c in w.handlers
  {
    w.(handlers := w.handlers[c := w.handlers[c].(phase := phase)])
  }

  function SetRows(w: World, conversation: Uuid, rows: Rows): World {
    w.(db := w.db[conversation := rows])
  }

  /** The owner-scoped read before the lock. */
  function PreCheckPhase(rows: Rows, request: Request): Phase {
    if rows.header.Some? && rows.header.value.owner != request.owner then Done(NotFoundError)
    else
      var found := FindTurn(rows.turns, request.clientTurn);
      if found.Some? then Done(ReplayOf(found.value)) else WaitingForLock
  }

  ghost function Next(env: Env, w: World, e: Event): World
    requires Enabled(env, w, e)
  {
    match e
    case Arrive(c, request) => w.(handlers := w.handlers[c := Handler(request, PreChecking)])
    case ChangeOwner(conversation, owner) =>
      SetRows(w, conversation, w.db[conversation].(header := Some(w.db[conversation].header.value.(owner := owner))))
    case PreCheck(c) =>
      SetPhase(w, c, PreCheckPhase(RowsOf(w, w.handlers[c].request.conversation), w.handlers[c].request))
    case TryLock(c) =>
      var key := Key(env, w.handlers[c]);
      if key in w.locks then w else SetPhase(w.(locks := w.locks[key := c]), c, ReChecking)
    case GiveUp(c) => SetPhase(w, c, Done(BusyError))
    case ReCheck(c) =>
      var found := FindTurn(RowsOf(w, w.handlers[c].request.conversation).turns, w.handlers[c].request.clientTurn);
      SetPhase(w, c, if found.Some? then Releasing(ReplayOf(found.value)) else Beginning)
    case Begin(c, turn) =>
      var request := w.handlers[c].request;
      (match BeginTurn(RowsOf(w, request.conversation), request.owner, request.clientTurn, turn, request.message)
       case Ok((rows, begun)) => SetPhase(SetRows(w, request.conversation, rows), c, Working(begun))
       case Err(error) => SetPhase(w, c, Releasing(if error == NotFound then NotFoundError else UnhandledError)))
    case Finish(c, reading, work) =>
      var h := w.handlers[c];
      (match Commit(RowsOf(w, h.request.conversation), h.phase.begun,
                    Decide(env, Outcome(env, h, reading), h.request.message, work))
       case Ok((rows, snapshot)) => SetPhase(SetRows(w, h.request.conversation, rows), c, Releasing(Replay(snapshot)))
       case Err(_) => SetPhase(w, c, Releasing(UnhandledError)))
    case Unlock(c) =>
      SetPhase(w.(locks := w.locks - {Key(env, w.handlers[c])}), c, Done(w.handlers[c].phase.response))
    case Crash(c) =>
      var released :=
        if HoldsLock(w.handlers[c].phase) then w.(locks := w.locks - {Key(env, w.handlers[c])}) else w;
      SetPhase(released, c, Crashed)
  }

  // -- invariant ------------------------------------------------------------------------

  /** A response is "processing" for a turn that exists, or the snapshot that turn ended with, or an error. */
  ghost predicate Faithful(rows: Rows, clientTurn: Uuid, response: Response) {
    match response
    case StillProcessing => exists t :: t in rows.turns && t.clientTurn == clientTurn
    case Replay(snapshot) => exists t :: t in rows.turns && t.clientTurn == clientTurn && t.snapshot == Some(snapshot)
    case MissingSnapshot => false
    case _ => true
  }

  /** The rows still are what the handler read when it began, apart from the owner. */
  ghost predicate StillOpen(rows: Rows, request: Request, begun: Begun) {
    && Open(rows, begun.turn)
    && begun.no == |rows.turns|
    && rows.turns[|rows.turns| - 1].clientTurn == request.clientTurn
    && begun.context.focuses == Focuses.Load(rows.focuses)
    && LoadPending(rows) == Ok(begun.context.pending)
  }

  ghost predicate PhaseOk(rows: Rows, h: Handler) {
    match h.phase
    case Beginning => forall t | t in rows.turns :: t.clientTurn != h.request.clientTurn
    case Working(begun) => StillOpen(rows, h.request, begun)
    case Releasing(response) => Faithful(rows, h.request.clientTurn, response)
    case Done(response) => Faithful(rows, h.request.clientTurn, response)
    case _ => true
  }

  ghost predicate LocksHeld(env: Env, w: World) {
    forall c | c in w.handlers && HoldsLock(w.handlers[c].phase) ::
      Key(env, w.handlers[c]) in w.locks && w.locks[Key(env, w.handlers[c])] == c
  }

  ghost predicate Inv(env: Env, w: World) {
    && (forall conversation | conversation in w.db :: Sound(w.db[conversation]))
    && LocksHeld(env, w)
    && (forall c | c in w.handlers :: PhaseOk(RowsOf(w, w.handlers[c].request.conversation), w.handlers[c]))
  }

  ghost predicate AllExtend(w: World, later: World) {
    forall conversation :: Extends(RowsOf(w, conversation), RowsOf(later, conversation))
  }

  lemma FaithfulPersists(rows: Rows, later: Rows, clientTurn: Uuid, response: Response)
    requires Faithful(rows, clientTurn, response) && Extends(rows, later) && SnapshotsMatchStatus(rows.turns)
    ensures Faithful(later, clientTurn, response)
  {
    if response.StillProcessing? || response.Replay? {
      var t :| t in rows.turns && t.clientTurn == clientTurn
        && (response.Replay? ==> t.snapshot == Some(response.snapshot));
      var i :| 0 <= i < |rows.turns| && rows.turns[i] == t;
      assert later.turns[i] in later.turns;
    }
  }

  lemma ReplayIsFaithful(rows: Rows, clientTurn: Uuid)
    requires Sound(rows)
    ensures var found := FindTurn(rows.turns, clientTurn);
      found.Some? ==> Faithful(rows, clientTurn, ReplayOf(found.value))
  {
    FindTurnIs(rows.turns, clientTurn);
  }

  lemma SoundRows(env: Env, w: World, conversation: Uuid)
    requires Inv(env, w)
    ensures Sound(RowsOf(w, conversation))
  {
    EmptyIsSound();
  }

  /** What a handler whose lock excludes the others may do: new rows for its conversation and a new phase for itself. */
  lemma HolderStep(env: Env, w: World, c: Uuid, rows: Rows, phase: Phase)
    requires Inv(env, w) && c in w.handlers && HoldsLock(w.handlers[c].phase) && HoldsLock(phase)
    requires Sound(rows) && Extends(RowsOf(w, w.handlers[c].request.conversation), rows)
    requires PhaseOk(rows, w.handlers[c].(phase := phase))
    ensures var later := SetPhase(SetRows(w, w.handlers[c].request.conversation, rows), c, phase);
      Inv(env, later) && AllExtend(w, later)
  {
    var conversation := w.handlers[c].request.conversation;
    var later := SetPhase(SetRows(w, conversation, rows), c, phase);
    forall d | d in later.handlers
      ensures PhaseOk(RowsOf(later, later.handlers[d].request.conversation), later.handlers[d])
    {
      if d != c && w.handlers[d].request.conversation == conversation {
        assert !HoldsLock(w.handlers[d].phase);
        if w.handlers[d].phase.Done? {
          SoundRows(env, w, conversation);
          FaithfulPersists(RowsOf(w, conversation), rows, w.handlers[d].request.clientTurn,
            w.handlers[d].phase.response);
        }
      }
    }
  }

  /** A step that changes only one handler's phase. */
  lemma PhaseStep(env: Env, w: World, c: Uuid, phase: Phase)
    requires Inv(env, w) && c in w.handlers
    requires HoldsLock(phase) ==> HoldsLock(w.handlers[c].phase)
    requires PhaseOk(RowsOf(w, w.handlers[c].request.conversation), w.handlers[c].(phase := phase))
    ensures Inv(env, SetPhase(w, c, phase)) && AllExtend(w, SetPhase(w, c, phase))
  {}

  lemma ReleaseStep(env: Env, w: World, c: Uuid, phase: Phase)
    requires Inv(env, w) && c in w.handlers && HoldsLock(w.handlers[c].phase) && !HoldsLock(phase)
    requires PhaseOk(RowsOf(w, w.handlers[c].request.conversation), w.handlers[c].(phase := phase))
    ensures var later := SetPhase(w.(locks := w.locks - {Key(env, w.handlers[c])}), c, phase);
      Inv(env, later) && AllExtend(w, later)
  {
    var later := SetPhase(w.(locks := w.locks - {Key(env, w.handlers[c])}), c, phase);
    forall d | d in later.handlers && HoldsLock(later.handlers[d].phase)
      ensures Key(env, later.handlers[d]) in later.locks && later.locks[Key(env, later.handlers[d])] == d
    {
      assert d != c && HoldsLock(w.handlers[d].phase);
      assert w.locks[Key(env, w.handlers[d])] == d && w.locks[Key(env, w.handlers[c])] == c;
    }
  }

  lemma ChangeOwnerStep(env: Env, w: World, conversation: Uuid, owner: Owner)
    requires Inv(env, w) && Enabled(env, w, ChangeOwner(conversation, owner))
    ensures var later := Next(env, w, ChangeOwner(conversation, owner)); Inv(env, later) && AllExtend(w, later)
  {
    var rows := w.db[conversation];
    var changed := rows.(header := Some(rows.header.value.(owner := owner)));
    var later := SetRows(w, conversation, changed);
    OwnerKeepsSound(rows, owner);
    forall c | c in later.handlers
      ensures PhaseOk(RowsOf(later, later.handlers[c].request.conversation), later.handlers[c])
    {
      assert PhaseOk(RowsOf(w, w.handlers[c].request.conversation), w.handlers[c]);
      if w.handlers[c].request.conversation == conversation { OwnerKeepsPhase(rows, owner, w.handlers[c]); }
    }
  }

  lemma OwnerKeepsSound(rows: Rows, owner: Owner)
    requires Sound(rows) && rows.header.Some?
    ensures Sound(rows.(header := Some(rows.header.value.(owner := owner))))
  {}

  lemma OwnerKeepsPhase(rows: Rows, owner: Owner, h: Handler)
    requires PhaseOk(rows, h) && rows.header.Some?
    ensures PhaseOk(rows.(header := Some(rows.header.value.(owner := owner))), h)
  {
    assert LoadPending(rows.(header := Some(rows.header.value.(owner := owner)))) == LoadPending(rows);
  }

  /** What every finalize of `_process_turn` satisfies. */
  ghost predicate WellFormed(f: Finalize) {
    match f
    case Ask(_, _, candidates, _) => Resolver.Storable(candidates)
    case Reply(status, _, _, citations, updateFocus, _) =>
      && CanonicalCitations(citations)
      && (status == Completed || (status == CannotAnswer && !updateFocus))
    case _ => true
  }

  lemma DecideIsWellFormed(env: Env, outcome: Resolver.Outcome, message: string, work: Work)
    requires outcome.Clarify? ==> Resolver.Storable(outcome.candidates)
    requires work.AnswerReady? ==> CanonicalCitations(work.citations)
    ensures WellFormed(Decide(env, outcome, message, work))
  {}

  /** Finalizing the open turn yields sound rows in which that turn carries the snapshot that is returned. */
  lemma CommitKeepsSound(rows: Rows, request: Request, begun: Begun, f: Finalize)
    requires Sound(rows) && StillOpen(rows, request, begun) && WellFormed(f)
    ensures var r := Commit(rows, begun, f);
      && (r.Err? <==> f.Raise?)
      && (r.Ok? ==> && Sound(r.value.0) && Extends(rows, r.value.0)
                    && Faithful(r.value.0, request.clientTurn, Replay(r.value.1)))
  {
    match f
    case Ask(mode, question, candidates, snapshot) =>
      ClarificationKeepsSound(rows, begun.turn, mode, question, candidates, snapshot);
      FinishedIsFaithful(rows, Commit(rows, begun, f).value.0, request.clientTurn, snapshot);
    case Reply(status, kind, content, citations, updateFocus, snapshot) =>
      GroundedAnswerKeepsSound(rows, begun.turn, begun.no, status, kind, content, Focuses.FromCitations(citations),
                               updateFocus, snapshot);
      FinishedIsFaithful(rows, Commit(rows, begun, f).value.0, request.clientTurn, snapshot);
    case Fail(code, snapshot) =>
      FailureKeepsSound(rows, begun.turn, code, snapshot);
      FinishedIsFaithful(rows, Commit(rows, begun, f).value.0, request.clientTurn, snapshot);
    case Raise =>
  }

  lemma FinishedIsFaithful(rows: Rows, later: Rows, clientTurn: Uuid, snapshot: Snapshot)
    requires rows.turns != [] && Extends(rows, later) && rows.turns[|rows.turns| - 1].clientTurn == clientTurn
    requires later.turns[|rows.turns| - 1].snapshot == Some(snapshot)
    ensures Faithful(later, clientTurn, Replay(snapshot))
  {
    assert later.turns[|rows.turns| - 1] in later.turns;
  }

  /** What the resolver is given is storable again: the loaded candidates and the loaded focuses. */
  lemma ContextIsStorable(rows: Rows, request: Request, begun: Begun)
    requires Sound(rows) && StillOpen(rows, request, begun)
    ensures begun.context.pending.Some? ==> Resolver.Storable(begun.context.pending.value.candidates)
    ensures Focuses.Keyed(begun.context.focuses)
    ensures forall f | f in begun.context.focuses :: Resolver.CanonicalFocus(f)
  {
    PendingLoads(rows);
    LoadOfPruned(rows.focuses);
  }

  lemma LoadOfPruned(focuses: seq<Focuses.Row>)
    requires Focuses.Keyed(focuses) && |focuses| <= Focuses.MAX_FOCUSES
    ensures Focuses.Keyed(Focuses.Load(focuses))
    ensures forall f | f in Focuses.Load(focuses) :: f in focuses
  {
    SortByMembers(focuses, Focuses.Before);
    Focuses.KeyedNoDup(focuses);
    SortByNoDup(focuses, Focuses.Before);
    var loaded := Focuses.Load(focuses);
    forall i, j | 0 <= i < j < |loaded| ensures loaded[i].data.nodeId != loaded[j].data.nodeId {
      assert loaded[i] in focuses && loaded[j] in focuses && loaded[i] != loaded[j];
    }
  }

  lemma BeginStep(env: Env, w: World, c: Uuid, turn: Uuid)
    requires Inv(env, w) && Enabled(env, w, Begin(c, turn))
    ensures var later := Next(env, w, Begin(c, turn)); Inv(env, later) && AllExtend(w, later)
  {
    var request := w.handlers[c].request;
    var rows := RowsOf(w, request.conversation);
    SoundRows(env, w, request.conversation);
    BeginKeepsSound(rows, request.owner, request.clientTurn, turn, request.message);
    match BeginTurn(rows, request.owner, request.clientTurn, turn, request.message)
    case Ok((started, begun)) =>
      assert StillOpen(started, request, begun);
      HolderStep(env, w, c, started, Working(begun));
    case Err(error) =>
      PhaseStep(env, w, c, Releasing(if error == NotFound then NotFoundError else UnhandledError));
  }

  lemma FinishStep(env: Env, w: World, c: Uuid, reading: Resolver.Reading, work: Work)
    requires Inv(env, w) && Enabled(env, w, Finish(c, reading, work))
    ensures var later := Next(env, w, Finish(c, reading, work)); Inv(env, later) && AllExtend(w, later)
  {
    var h := w.handlers[c];
    var rows := RowsOf(w, h.request.conversation);
    SoundRows(env, w, h.request.conversation);
    var context := h.phase.begun.context;
    ContextIsStorable(rows, h.request, h.phase.begun);
    Resolver.ResolveOffersStorable(env.unicode, h.request.message, context.pending, reading, context.focuses);
    var finalize := Decide(env, Outcome(env, h, reading), h.request.message, work);
    DecideIsWellFormed(env, Outcome(env, h, reading), h.request.message, work);
    CommitKeepsSound(rows, h.request, h.phase.begun, finalize);
    match Commit(rows, h.phase.begun, finalize)
    case Ok((finished, snapshot)) => HolderStep(env, w, c, finished, Releasing(Replay(snapshot)));
    case Err(_) => PhaseStep(env, w, c, Releasing(UnhandledError));
  }

  /** Every event keeps the invariant and never undoes or rewrites a finished turn. */
  lemma StepKeepsInv(env: Env, w: World, e: Event)
    requires Inv(env, w) && Enabled(env, w, e)
    ensures Inv(env, Next(env, w, e)) && AllExtend(w, Next(env, w, e))
  {
    match e
    case Arrive(c, request) => ArriveStep(env, w, c, request);
    case ChangeOwner(conversation, owner) => ChangeOwnerStep(env, w, conversation, owner);
    case PreCheck(c) => PreCheckStep(env, w, c);
    case TryLock(c) => TryLockStep(env, w, c);
    case GiveUp(c) => PhaseStep(env, w, c, Done(BusyError));
    case ReCheck(c) => ReCheckStep(env, w, c);
    case Begin(c, turn) => BeginStep(env, w, c, turn);
    case Finish(c, reading, work) => FinishStep(env, w, c, reading, work);
    case Unlock(c) => ReleaseStep(env, w, c, Done(w.handlers[c].phase.response));
    case Crash(c) => CrashStep(env, w, c);
  }

  lemma ArriveStep(env: Env, w: World, c: Uuid, request: Request)
    requires Inv(env, w) && Enabled(env, w, Arrive(c, request))
    ensures var later := Next(env, w, Arrive(c, request)); Inv(env, later) && AllExtend(w, later)
  {}

  lemma PreCheckStep(env: Env, w: World, c: Uuid)
    requires Inv(env, w) && Enabled(env, w, PreCheck(c))
    ensures var later := Next(env, w, PreCheck(c)); Inv(env, later) && AllExtend(w, later)
  {
    var request := w.handlers[c].request;
    SoundRows(env, w, request.conversation);
    ReplayIsFaithful(RowsOf(w, request.conversation), request.clientTurn);
    PhaseStep(env, w, c, PreCheckPhase(RowsOf(w, request.conversation), request));
  }

  lemma TryLockStep(env: Env, w: World, c: Uuid)
    requires Inv(env, w) && Enabled(env, w, TryLock(c))
    ensures var later := Next(env, w, TryLock(c)); Inv(env, later) && AllExtend(w, later)
  {}

  lemma ReCheckStep(env: Env, w: World, c: Uuid)
    requires Inv(env, w) && Enabled(env, w, ReCheck(c))
    ensures var later := Next(env, w, ReCheck(c)); Inv(env, later) && AllExtend(w, later)
  {
    var request := w.handlers[c].request;
    var rows := RowsOf(w, request.conversation);
    SoundRows(env, w, request.conversation);
    ReplayIsFaithful(rows, request.clientTurn);
    FindTurnIs(rows.turns, request.clientTurn);
    var found := FindTurn(rows.turns, request.clientTurn);
    PhaseStep(env, w, c, if found.Some? then Releasing(ReplayOf(found.value)) else Beginning);
  }

  lemma CrashStep(env: Env, w: World, c: Uuid)
    requires Inv(env, w) && Enabled(env, w, Crash(c))
    ensures var later := Next(env, w, Crash(c)); Inv(env, later) && AllExtend(w, later)
  {
    if HoldsLock(w.handlers[c].phase) { ReleaseStep(env, w, c, Crashed); } else { PhaseStep(env, w, c, Crashed); }
  }

  // -- whole runs ------------------------------------------------------------------------

  ghost predicate Step(env: Env, w: World, e: Event, later: World) {
    Enabled(env, w, e) && later == Next(env, w, e)
  }

  /** States a run passes through: the start state and every next one reached by an enabled event. */
  ghost predicate IsRun(env: Env, states: seq<World>, events: seq<Event>) {
    && |states| == |events| + 1
    && states[0] == START
    && forall i {:trigger events[i]} | 0 <= i < |events| :: Step(env, states[i], events[i], states[i + 1])
  }

  lemma {:induction false} RunKeepsInv(env: Env, states: seq<World>, events: seq<Event>, i: nat)
    requires IsRun(env, states, events) && i < |states|
    ensures Inv(env, states[i])
  {
    if i > 0 {
      RunKeepsInv(env, states, events, i - 1);
      assert Step(env, states[i - 1], events[i - 1], states[i]);
      StepKeepsInv(env, states[i - 1], events[i - 1]);
    }
  }

  lemma RunStep(env: Env, states: seq<World>, events: seq<Event>, i: nat)
    requires IsRun(env, states, events) && i < |events|
    ensures AllExtend(states[i], states[i + 1])
  {
    RunKeepsInv(env, states, events, i);
    assert Step(env, states[i], events[i], states[i + 1]);
    StepKeepsInv(env, states[i], events[i]);
  }

  lemma AllExtendTransitive(a: World, b: World, c: World)
    requires AllExtend(a, b) && AllExtend(b, c)
    ensures AllExtend(a, c)
  {
    forall conversation ensures Extends(RowsOf(a, conversation), RowsOf(c, conversation)) {
      ExtendsTransitive(RowsOf(a, conversation), RowsOf(b, conversation), RowsOf(c, conversation));
    }
  }

  lemma {:induction false} RunExtends(env: Env, states: seq<World>, events: seq<Event>, i: nat, j: nat)
    requires IsRun(env, states, events) && i <= j < |states|
    ensures AllExtend(states[i], states[j])
    decreases j
  {
    if i < j {
      RunExtends(env, states, events, i, j - 1);
      RunStep(env, states, events, j - 1);
      AllExtendTransitive(states[i], states[j - 1], states[j]);
    }
  }

  lemma ExtendsTransitive(a: Rows, b: Rows, c: Rows)
    requires Extends(a, b) && Extends(b, c)
    ensures Extends(a, c)
  {
    forall i | 0 <= i < |a.turns|
      ensures && c.turns[i].id == a.turns[i].id && c.turns[i].clientTurn == a.turns[i].clientTurn
              && c.turns[i].no == a.turns[i].no && (Terminal(a.turns[i].status) ==> c.turns[i] == a.turns[i])
    {
      assert b.turns[i].id == a.turns[i].id;
    }
  }

  /**
    Idempotency without the database's unique constraint: in every state of every run a client turn id has at most one
    turn in its conversation, turns are numbered 1..n, message ordinals are 1..m, and the transcript is exactly one
    user message per turn, directly followed by the reply of each answered turn.
   */
  lemma OneTurnPerClientId(env: Env, states: seq<World>, events: seq<Event>, i: nat, conversation: Uuid)
    requires IsRun(env, states, events) && i < |states|
    ensures var rows := RowsOf(states[i], conversation);
      && (forall a, b | 0 <= a < b < |rows.turns| :: rows.turns[a].clientTurn != rows.turns[b].clientTurn)
      && (forall a | 0 <= a < |rows.turns| :: rows.turns[a].no == a + 1)
      && (forall m | 0 <= m < |rows.messages| :: rows.messages[m].ordinal == m + 1)
      && Transcript(rows.messages) == Expected(rows.turns)
  {
    RunKeepsInv(env, states, events, i);
    SoundRows(env, states[i], conversation);
  }

  /** A turn leaves PROCESSING at most once: once it has, no later state of the run changes any part of it. */
  lemma FinishedTurnsNeverChange(
      env: Env, states: seq<World>, events: seq<Event>, i: nat, j: nat, conversation: Uuid, k: nat)
    requires IsRun(env, states, events) && i <= j < |states|
    requires k < |RowsOf(states[i], conversation).turns|
    requires Terminal(RowsOf(states[i], conversation).turns[k].status)
    ensures var later := RowsOf(states[j], conversation).turns;
      k < |later| && later[k] == RowsOf(states[i], conversation).turns[k]
  {
    RunExtends(env, states, events, i, j);
  }

  /** Two handlers that were given a turn's result were given the same one, however far apart they answered. */
  lemma AllReplaysAgree(env: Env, states: seq<World>, events: seq<Event>, i: nat, j: nat, c: Uuid, d: Uuid)
    requires IsRun(env, states, events) && i <= j < |states|
    requires c in states[i].handlers && states[i].handlers[c].phase.Done?
    requires states[i].handlers[c].phase.response.Replay?
    requires d in states[j].handlers && states[j].handlers[d].phase.Done?
    requires states[j].handlers[d].phase.response.Replay?
    requires states[i].handlers[c].request.conversation == states[j].handlers[d].request.conversation
    requires states[i].handlers[c].request.clientTurn == states[j].handlers[d].request.clientTurn
    ensures states[i].handlers[c].phase.response == states[j].handlers[d].phase.response
  {
    RunKeepsInv(env, states, events, i);
    RunKeepsInv(env, states, events, j);
    RunExtends(env, states, events, i, j);
    var hc, hd := states[i].handlers[c], states[j].handlers[d];
    var early, late := RowsOf(states[i], hc.request.conversation), RowsOf(states[j], hc.request.conversation);
    SoundRows(env, states[i], hc.request.conversation);
    SoundRows(env, states[j], hc.request.conversation);
    FaithfulPersists(early, late, hc.request.clientTurn, hc.phase.response);
    OneSnapshot(late, hc.request.clientTurn, hc.phase.response, hd.phase.response);
  }

  lemma OneSnapshot(rows: Rows, clientTurn: Uuid, a: Response, b: Response)
    requires Sound(rows) && a.Replay? && b.Replay?
    requires Faithful(rows, clientTurn, a) && Faithful(rows, clientTurn, b)
    ensures a == b
  {
    var s :| s in rows.turns && s.clientTurn == clientTurn && s.snapshot == Some(a.snapshot);
    var t :| t in rows.turns && t.clientTurn == clientTurn && t.snapshot == Some(b.snapshot);
    var i :| 0 <= i < |rows.turns| && rows.turns[i] == s;
    var j :| 0 <= j < |rows.turns| && rows.turns[j] == t;
  }

  /** No request is ever answered with the missing-snapshot error, and a replayed one is the stored snapshot. */
  lemma ResponsesAreFaithful(env: Env, states: seq<World>, events: seq<Event>, i: nat, c: Uuid)
    requires IsRun(env, states, events) && i < |states|
    requires c in states[i].handlers && states[i].handlers[c].phase.Done?
    ensures var h := states[i].handlers[c];
      !h.phase.response.MissingSnapshot?
      && Faithful(RowsOf(states[i], h.request.conversation), h.request.clientTurn, h.phase.response)
  {
    RunKeepsInv(env, states, events, i);
  }

  /** Two handlers never work on the same conversation, even when their keys collide with other conversations'. */
  lemma MutualExclusion(env: Env, states: seq<World>, events: seq<Event>, i: nat, c: Uuid, d: Uuid)
    requires IsRun(env, states, events) && i < |states|
    requires c in states[i].handlers && d in states[i].handlers
    requires HoldsLock(states[i].handlers[c].phase) && HoldsLock(states[i].handlers[d].phase)
    requires Key(env, states[i].handlers[c]) == Key(env, states[i].handlers[d])
    ensures c == d
  {
    RunKeepsInv(env, states, events, i);
  }

  /** In every state a stored clarification is the question of the last answered turn, and it can be read back. */
  lemma PendingIsLastQuestion(env: Env, states: seq<World>, events: seq<Event>, i: nat, conversation: Uuid)
    requires IsRun(env, states, events) && i < |states|
    requires RowsOf(states[i], conversation).pending.Some?
    ensures var rows := RowsOf(states[i], conversation);
      && LoadPending(rows).Ok? && LoadPending(rows).value.Some?
      && exists k | 0 <= k < |rows.turns| ::
        && rows.turns[k].id == rows.pending.value.sourceTurn
        && rows.turns[k].status == NeedsClarification
        && forall j | k < j < |rows.turns| :: rows.turns[j].status == Failed || rows.turns[j].status == Processing
  {
    RunKeepsInv(env, states, events, i);
    SoundRows(env, states[i], conversation);
    PendingLoads(RowsOf(states[i], conversation));
    PendingPointsToLastQuestion(RowsOf(states[i], conversation));
  }

  /** At every commit there are at most five focuses, each last grounded by a turn that completed. */
  lemma FocusesAlwaysGrounded(env: Env, states: seq<World>, events: seq<Event>, i: nat, conversation: Uuid)
    requires IsRun(env, states, events) && i < |states|
    ensures FocusesGrounded(RowsOf(states[i], conversation))
  {
    RunKeepsInv(env, states, events, i);
    SoundRows(env, states[i], conversation);
  }

  /** The handler works on a reply to an open SELECT that is no cancel. */
  ghost predicate AnswersSelect(env: Env, h: Handler) {
    && h.phase.Working? && h.phase.begun.context.pending.Some?
    && h.phase.begun.context.pending.value.mode == Resolver.Select
    && !Clarification.IsCancel(env.unicode, h.request.message)
  }

  function ReplyMatch(env: Env, h: Handler): Clarification.Matched
    requires h.phase.Working? && h.phase.begun.context.pending.Some?
  {
    Clarification.Match(env.unicode, h.phase.begun.context.pending.value.candidates, h.request.message)
  }

  /** The same candidates are stored again, as the question of the turn. */
  ghost predicate AsksAgain(before: Rows, after: Rows, turn: Uuid) {
    && before.turns != [] && |after.turns| == |before.turns|
    && before.pending.Some? && after.pending.Some?
    && after.pending.value.payload == before.pending.value.payload
    && after.pending.value.mode == Resolver.Select && after.pending.value.sourceTurn == turn
    && after.turns[|before.turns| - 1].status == NeedsClarification
  }

  /** What finalizing a reply that matches no candidate comes to. */
  lemma UnmatchedIsAskedAgain(env: Env, w: World, c: Uuid, reading: Resolver.Reading, work: Work)
    requires Inv(env, w) && Enabled(env, w, Finish(c, reading, work))
    requires AnswersSelect(env, w.handlers[c]) && ReplyMatch(env, w.handlers[c]) == Clarification.Unmatched
    ensures var h := w.handlers[c];
      var later := Next(env, w, Finish(c, reading, work));
      AsksAgain(RowsOf(w, h.request.conversation), RowsOf(later, h.request.conversation), h.phase.begun.turn)
  {
    var h := w.handlers[c];
    var rows := RowsOf(w, h.request.conversation);
    SoundRows(env, w, h.request.conversation);
    PendingLoads(rows);
    ContextIsStorable(rows, h.request, h.phase.begun);
    AskingAgain(rows, h.phase.begun.turn, h.phase.begun.context.pending.value);
  }

  lemma AskingAgain(rows: Rows, turn: Uuid, pending: Resolver.Pending)
    requires Sound(rows) && Open(rows, turn) && LoadPending(rows) == Ok(Some(pending)) && rows.pending.Some?
    requires Resolver.Storable(pending.candidates)
    requires rows.pending.value.payload == Clarification.JArray(Clarification.ToJsonList(pending.candidates))
    ensures var question := Clarification.SelectQuestion(pending.candidates);
      var r := PersistClarification(rows, turn, Resolver.Select, question, pending.candidates,
                                    Snapshot(ClarificationReply, question));
      r.Ok? && AsksAgain(rows, r.value, turn)
  {
    var snapshot := Snapshot(ClarificationReply, Clarification.SelectQuestion(pending.candidates));
    SetOpenTurn(rows, turn, NeedsClarification, None, snapshot);
  }

  /** A digit string that is no number raises: nothing is written and the turn stays open. */
  lemma NotANumberRaises(env: Env, w: World, c: Uuid, reading: Resolver.Reading, work: Work)
    requires Enabled(env, w, Finish(c, reading, work))
    requires AnswersSelect(env, w.handlers[c]) && ReplyMatch(env, w.handlers[c]) == Clarification.NotANumber
    ensures Next(env, w, Finish(c, reading, work)) == SetPhase(w, c, Releasing(UnhandledError))
  {}

  /**
    A reply to an open SELECT that neither cancels nor selects stores exactly the same candidates again, whatever
    retrieval or generation would have done, if and only if it is not a digit string without a value; such a reply
    writes nothing.
   */
  lemma InvalidReplyRepeatsCandidates(env: Env, w: World, c: Uuid, reading: Resolver.Reading, work: Work)
    requires Inv(env, w) && Enabled(env, w, Finish(c, reading, work))
    requires AnswersSelect(env, w.handlers[c]) && !ReplyMatch(env, w.handlers[c]).Picked?
    ensures var h := w.handlers[c];
      var before := RowsOf(w, h.request.conversation);
      var after := RowsOf(Next(env, w, Finish(c, reading, work)), h.request.conversation);
      && (AsksAgain(before, after, h.phase.begun.turn) <==> ReplyMatch(env, h) != Clarification.NotANumber)
      && (ReplyMatch(env, h) == Clarification.NotANumber ==> after == before)
  {
    var h := w.handlers[c];
    if ReplyMatch(env, h) == Clarification.NotANumber {
      NotANumberRaises(env, w, c, reading, work);
      assert StillOpen(RowsOf(w, h.request.conversation), h.request, h.phase.begun);
    } else {
      UnmatchedIsAskedAgain(env, w, c, reading, work);
    }
  }

  /** A cancel ends the open clarification, and the turn that cancelled completes. */
  lemma CancelEndsPending(env: Env, w: World, c: Uuid, reading: Resolver.Reading, work: Work)
    requires Inv(env, w) && Enabled(env, w, Finish(c, reading, work))
    requires w.handlers[c].phase.begun.context.pending.Some?
    requires Clarification.IsCancel(env.unicode, w.handlers[c].request.message)
    ensures var h := w.handlers[c];
      var before := RowsOf(w, h.request.conversation);
      var after := RowsOf(Next(env, w, Finish(c, reading, work)), h.request.conversation);
      && before.pending.Some? && after.pending.None?
      && after.turns[|before.turns| - 1].status == Completed
      && after.focuses == before.focuses
  {
    var h := w.handlers[c];
    var rows := RowsOf(w, h.request.conversation);
    SoundRows(env, w, h.request.conversation);
    PendingLoads(rows);
    SetOpenTurn(rows, h.phase.begun.turn, Completed, None, Snapshot(SmallTalkReply, CANCEL_TEXT));
  }
}
