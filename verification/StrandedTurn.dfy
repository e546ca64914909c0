/** Turns that nobody will finish (conversation/service.py): what strands them, and what becomes of them. */
module StrandedTurn {
  import opened Prelude
  import Text
  import Clarification
  import Focuses
  import Resolver
  import opened Conversation
  import opened ConversationInvariant
  import opened TurnProtocol

  /** Some handler is still processing this turn. */
  ghost predicate WorkedOn(w: World, conversation: Uuid, turn: Uuid) {
    exists c | c in w.handlers :: WorksOn(w.handlers[c], conversation, turn)
  }

  predicate WorksOn(h: Handler, conversation: Uuid, turn: Uuid) {
    h.request.conversation == conversation && h.phase.Working? && h.phase.begun.turn == turn
  }

  /** The `k`-th turn is PROCESSING, and no handler is processing it. */
  ghost predicate Stranded(w: World, conversation: Uuid, k: nat) {
    var turns := RowsOf(w, conversation).turns;
    k < |turns| && turns[k].status == Processing && !WorkedOn(w, conversation, turns[k].id)
  }

  // -- a stranded turn stays stranded --------------------------------------------------

  /** A step that leaves the turn's row alone and starts no work on it. */
  lemma StaysStranded(w: World, later: World, conversation: Uuid, k: nat)
    requires Stranded(w, conversation, k)
    requires k < |RowsOf(later, conversation).turns|
    requires RowsOf(later, conversation).turns[k] == RowsOf(w, conversation).turns[k]
    requires forall c | c in later.handlers && later.handlers[c].phase.Working? ::
               || (c in w.handlers && w.handlers[c] == later.handlers[c])
               || later.handlers[c].phase.begun.turn != RowsOf(w, conversation).turns[k].id
    ensures Stranded(later, conversation, k)
  {
    var turn := RowsOf(w, conversation).turns[k].id;
    forall c | c in later.handlers ensures !WorksOn(later.handlers[c], conversation, turn) {
      if c in w.handlers && w.handlers[c] == later.handlers[c] {
        assert !WorksOn(w.handlers[c], conversation, turn);
      }
    }
  }

  lemma BeginKeepsStranded(env: Env, w: World, c: Uuid, turn: Uuid, conversation: Uuid, k: nat)
    requires Inv(env, w) && Enabled(env, w, Begin(c, turn)) && Stranded(w, conversation, k)
    ensures Stranded(Next(env, w, Begin(c, turn)), conversation, k)
  {
    var request := w.handlers[c].request;
    var rows := RowsOf(w, request.conversation);
    SoundRows(env, w, request.conversation);
    BeginKeepsSound(rows, request.owner, request.clientTurn, turn, request.message);
    assert request.conversation == conversation ==> rows.turns[k] in rows.turns;
    BeginStrands(env, w, c, turn, conversation, k);
  }

  lemma BeginStrands(env: Env, w: World, c: Uuid, turn: Uuid, conversation: Uuid, k: nat)
    requires Enabled(env, w, Begin(c, turn)) && Stranded(w, conversation, k)
    requires var h := w.handlers[c].request; var rows := RowsOf(w, h.conversation);
      var r := BeginTurn(rows, h.owner, h.clientTurn, turn, h.message);
      && (r.Ok? ==> rows.turns <= r.value.0.turns && r.value.1.turn == turn)
      && (h.conversation == conversation ==> rows.turns[k].id != turn)
    ensures Stranded(Next(env, w, Begin(c, turn)), conversation, k)
  {
    var later := Next(env, w, Begin(c, turn));
    var id := RowsOf(w, conversation).turns[k].id;
    forall d | d in later.handlers ensures !WorksOn(later.handlers[d], conversation, id) {
      if d != c { assert !WorksOn(w.handlers[d], conversation, id); }
    }
  }

  /** Finalizing another turn leaves this one as it is. */
  lemma CommitLeavesOthers(rows: Rows, begun: Begun, f: Finalize, k: nat)
    requires k < |rows.turns| && rows.turns[k].id != begun.turn
    ensures var r := Commit(rows, begun, f);
      r.Ok? ==> k < |r.value.0.turns| && r.value.0.turns[k] == rows.turns[k]
  {}

  lemma FinishKeepsStranded(
      env: Env, w: World, c: Uuid, reading: Resolver.Reading, work: Work, conversation: Uuid, k: nat)
    requires Enabled(env, w, Finish(c, reading, work)) && Stranded(w, conversation, k)
    ensures Stranded(Next(env, w, Finish(c, reading, work)), conversation, k)
  {
    var h := w.handlers[c];
    var rows := RowsOf(w, h.request.conversation);
    if h.request.conversation == conversation {
      assert !WorksOn(h, conversation, rows.turns[k].id);
      CommitLeavesOthers(rows, h.phase.begun, Decide(env, Outcome(env, h, reading), h.request.message, work), k);
    }
    StaysStranded(w, Next(env, w, Finish(c, reading, work)), conversation, k);
  }

  lemma StrandedStep(env: Env, w: World, e: Event, conversation: Uuid, k: nat)
    requires Inv(env, w) && Enabled(env, w, e) && Stranded(w, conversation, k)
    ensures Stranded(Next(env, w, e), conversation, k)
  {
    match e
    case Begin(c, turn) => BeginKeepsStranded(env, w, c, turn, conversation, k);
    case Finish(c, reading, work) => FinishKeepsStranded(env, w, c, reading, work, conversation, k);
    case _ => OtherKeepsStranded(env, w, e, conversation, k);
  }

  lemma OtherKeepsStranded(env: Env, w: World, e: Event, conversation: Uuid, k: nat)
    requires Enabled(env, w, e) && Stranded(w, conversation, k) && !e.Begin? && !e.Finish?
    ensures Stranded(Next(env, w, e), conversation, k)
  {
    StaysStranded(w, Next(env, w, e), conversation, k);
  }

  lemma {:induction false} StrandedStays(
      env: Env, states: seq<World>, events: seq<Event>, i: nat, j: nat, conversation: Uuid, k: nat)
    requires IsRun(env, states, events) && i <= j < |states| && Stranded(states[i], conversation, k)
    ensures Stranded(states[j], conversation, k)
    decreases j
  {
    if i < j {
      StrandedStays(env, states, events, i, j - 1, conversation, k);
      RunKeepsInv(env, states, events, j - 1);
      assert Step(env, states[j - 1], events[j - 1], states[j]);
      StrandedStep(env, states[j - 1], events[j - 1], conversation, k);
    }
  }

  /**
    A PROCESSING turn that no handler works on keeps that status in every later state of the run: no request with its
    client turn id is ever given a result, and one that its owner sends again is told to wait.
   */
  lemma StrandedForever(
      env: Env, states: seq<World>, events: seq<Event>, i: nat, j: nat, conversation: Uuid, k: nat)
    requires IsRun(env, states, events) && i <= j < |states| && Stranded(states[i], conversation, k)
    ensures Stranded(states[j], conversation, k)
    ensures var rows := RowsOf(states[j], conversation);
      && rows.turns[k].clientTurn == RowsOf(states[i], conversation).turns[k].clientTurn
      && (forall c | c in states[j].handlers && states[j].handlers[c].phase.Done? ::
            AsksFor(states[j].handlers[c].request, conversation, rows.turns[k]) ==>
              !states[j].handlers[c].phase.response.Replay?)
      && (forall request | AsksFor(request, conversation, rows.turns[k]) && rows.header.Some?
            && rows.header.value.owner == request.owner :: PreCheckPhase(rows, request) == Done(StillProcessing))
  {
    StrandedStays(env, states, events, i, j, conversation, k);
    RunExtends(env, states, events, i, j);
    RunKeepsInv(env, states, events, j);
    var rows := RowsOf(states[j], conversation);
    SoundRows(env, states[j], conversation);
    OnlyTurn(rows, k);
    forall c | c in states[j].handlers && states[j].handlers[c].phase.Done?
               && AsksFor(states[j].handlers[c].request, conversation, rows.turns[k])
      ensures !states[j].handlers[c].phase.response.Replay?
    {
      ResponsesAreFaithful(env, states, events, j, c);
      NoReplay(rows, k, states[j].handlers[c].phase.response);
    }
  }

  predicate AsksFor(request: Request, conversation: Uuid, turn: Turn) {
    request.conversation == conversation && request.clientTurn == turn.clientTurn
  }

  lemma OnlyTurn(rows: Rows, k: nat)
    requires Sound(rows) && k < |rows.turns|
    ensures FindTurn(rows.turns, rows.turns[k].clientTurn) == Some(rows.turns[k])
  {
    FindTurnIs(rows.turns, rows.turns[k].clientTurn);
    var found := FindTurn(rows.turns, rows.turns[k].clientTurn);
    assert rows.turns[k] in rows.turns;
    var i :| 0 <= i < |rows.turns| && rows.turns[i] == found.value;
  }

  lemma NoReplay(rows: Rows, k: nat, response: Response)
    requires Sound(rows) && k < |rows.turns| && rows.turns[k].status == Processing
    requires Faithful(rows, rows.turns[k].clientTurn, response)
    ensures !response.Replay?
  {
    forall t | t in rows.turns && t.clientTurn == rows.turns[k].clientTurn ensures t.snapshot.None? {
      var i :| 0 <= i < |rows.turns| && rows.turns[i] == t;
    }
  }

  // -- what strands a turn ---------------------------------------------------------------

  /** Only the lock holder works in its conversation. */
  lemma SoleWorker(env: Env, w: World, c: Uuid, d: Uuid)
    requires Inv(env, w) && c in w.handlers && d in w.handlers
    requires w.handlers[c].phase.Working? && w.handlers[d].phase.Working?
    requires w.handlers[c].request.conversation == w.handlers[d].request.conversation
    ensures c == d
  {}

  lemma DroppedIsStranded(env: Env, w: World, later: World, c: Uuid)
    requires Inv(env, w) && c in w.handlers && w.handlers[c].phase.Working?
    requires later.db == w.db && c in later.handlers && !later.handlers[c].phase.Working?
    requires forall d | d in later.handlers && d != c :: d in w.handlers && later.handlers[d] == w.handlers[d]
    ensures var conversation := w.handlers[c].request.conversation;
      Stranded(later, conversation, |RowsOf(w, conversation).turns| - 1)
  {
    var conversation := w.handlers[c].request.conversation;
    var turn := w.handlers[c].phase.begun.turn;
    forall d | d in later.handlers ensures !WorksOn(later.handlers[d], conversation, turn) {
      if WorksOn(later.handlers[d], conversation, turn) { SoleWorker(env, w, c, d); }
    }
  }

  /** The end of processing strands its turn exactly when an exception escapes instead of a finalize. */
  lemma FinishStrandsExactly(env: Env, w: World, c: Uuid, reading: Resolver.Reading, work: Work)
    requires Inv(env, w) && Enabled(env, w, Finish(c, reading, work))
    ensures var h := w.handlers[c];
      var k := |RowsOf(w, h.request.conversation).turns| - 1;
      && k >= 0
      && (Stranded(Next(env, w, Finish(c, reading, work)), h.request.conversation, k)
          <==> Decide(env, Outcome(env, h, reading), h.request.message, work).Raise?)
  {
    var h := w.handlers[c];
    var rows, context := RowsOf(w, h.request.conversation), h.phase.begun.context;
    var finalize := Decide(env, Outcome(env, h, reading), h.request.message, work);
    SoundRows(env, w, h.request.conversation);
    ContextIsStorable(rows, h.request, h.phase.begun);
    Resolver.ResolveOffersStorable(env.unicode, h.request.message, context.pending, reading, context.focuses);
    DecideIsWellFormed(env, Outcome(env, h, reading), h.request.message, work);
    CommitKeepsSound(rows, h.request, h.phase.begun, finalize);
    if finalize.Raise? {
      DroppedIsStranded(env, w, Next(env, w, Finish(c, reading, work)), c);
    } else {
      CommitFinishes(rows, h.phase.begun, finalize);
    }
  }

  lemma CommitFinishes(rows: Rows, begun: Begun, f: Finalize)
    requires TurnsDistinct(rows.turns) && Open(rows, begun.turn) && Commit(rows, begun, f).Ok? && WellFormed(f)
    ensures var turns := Commit(rows, begun, f).value.0.turns;
      |turns| == |rows.turns| && Terminal(turns[|rows.turns| - 1].status)
  {}

  /** A crash strands the turn its handler was processing. */
  lemma CrashStrands(env: Env, w: World, c: Uuid)
    requires Inv(env, w) && Enabled(env, w, Crash(c)) && w.handlers[c].phase.Working?
    ensures var conversation := w.handlers[c].request.conversation;
      Stranded(Next(env, w, Crash(c)), conversation, |RowsOf(w, conversation).turns| - 1)
  {
    DroppedIsStranded(env, w, Next(env, w, Crash(c)), c);
  }

  /** A superscript two in reply to an open SELECT writes nothing and strands its turn. */
  lemma SuperscriptStrands(env: Env, w: World, c: Uuid, reading: Resolver.Reading, work: Work)
    requires Inv(env, w) && Enabled(env, w, Finish(c, reading, work)) && Clarification.KnowsSuperscript(env.unicode)
    requires w.handlers[c].phase.begun.context.pending.Some?
    requires w.handlers[c].phase.begun.context.pending.value.mode == Resolver.Select
    requires w.handlers[c].request.message == Clarification.SuperscriptTwo
    ensures var conversation := w.handlers[c].request.conversation;
      var later := Next(env, w, Finish(c, reading, work));
      && later == SetPhase(w, c, Releasing(UnhandledError))
      && RowsOf(later, conversation) == RowsOf(w, conversation)
      && Stranded(later, conversation, |RowsOf(w, conversation).turns| - 1)
  {
    Clarification.SuperscriptRaises(env.unicode, w.handlers[c].phase.begun.context.pending.value.candidates);
    NotANumberRaises(env, w, c, reading, work);
    DroppedIsStranded(env, w, Next(env, w, Finish(c, reading, work)), c);
  }

  // -- a run that does it ------------------------------------------------------------------

  datatype Trace = Trace(states: seq<World>, events: seq<Event>)

  ghost predicate IsTrace(env: Env, t: Trace) { IsRun(env, t.states, t.events) }

  function Last(t: Trace): World
    requires t.states != []
  {
    t.states[|t.states| - 1]
  }

  lemma Extend(env: Env, t: Trace, e: Event) returns (u: Trace)
    requires IsTrace(env, t) && Enabled(env, Last(t), e)
    ensures IsTrace(env, u) && Last(u) == Next(env, Last(t), e)
  {
    u := Trace(t.states + [Next(env, Last(t), e)], t.events + [e]);
    forall i | 0 <= i < |u.events| ensures Step(env, u.states[i], u.events[i], u.states[i + 1]) {
      if i < |t.events| { assert Step(env, t.states[i], t.events[i], t.states[i + 1]); }
    }
  }

  /** Nobody holds a lock, and the request is new and its owner's. */
  ghost predicate CanServe(w: World, c: Uuid, request: Request, turn: Uuid) {
    var rows := RowsOf(w, request.conversation);
    && w.locks == map[] && c !in w.handlers
    && (rows.header.None? || rows.header.value.owner == request.owner)
    && forall t | t in rows.turns :: t.id != turn && t.clientTurn != request.clientTurn
  }

  /** The handler works on its turn, which is `rows` opened for it, and holds the one lock. */
  ghost predicate Serving(env: Env, w: World, c: Uuid, request: Request, turn: Uuid, rows: Rows) {
    && c in w.handlers && w.handlers[c].request == request && w.handlers[c].phase.Working?
    && w.locks == map[env.lockKey(request.conversation) := c]
    && RowsOf(w, request.conversation).pending == rows.pending
    && RowsOf(w, request.conversation).header.Some?
    && RowsOf(w, request.conversation).header.value.owner == request.owner
    && RowsOf(w, request.conversation).turns
       == rows.turns + [Turn(turn, request.clientTurn, |rows.turns| + 1, Processing, None, None)]
  }

  lemma Lock(env: Env, t: Trace, c: Uuid, request: Request, turn: Uuid) returns (u: Trace)
    requires IsTrace(env, t) && CanServe(Last(t), c, request, turn)
    ensures IsTrace(env, u) && Last(u).db == Last(t).db && Last(u).locks == map[env.lockKey(request.conversation) := c]
    ensures Last(u).handlers == Last(t).handlers[c := Handler(request, Beginning)]
  {
    FindTurnIs(RowsOf(Last(t), request.conversation).turns, request.clientTurn);
    u := Extend(env, t, Arrive(c, request));
    u := Extend(env, u, PreCheck(c));
    u := Extend(env, u, TryLock(c));
    u := Extend(env, u, ReCheck(c));
  }

  lemma BeginServes(env: Env, w: World, c: Uuid, request: Request, turn: Uuid)
    requires Enabled(env, w, Begin(c, turn)) && w.handlers[c].request == request
    requires w.locks == map[env.lockKey(request.conversation) := c]
    requires Sound(RowsOf(w, request.conversation))
    requires var header := RowsOf(w, request.conversation).header; header.None? || header.value.owner == request.owner
    requires forall t | t in RowsOf(w, request.conversation).turns :: t.clientTurn != request.clientTurn
    ensures Serving(env, Next(env, w, Begin(c, turn)), c, request, turn, RowsOf(w, request.conversation))
    ensures Next(env, w, Begin(c, turn)).handlers.Keys == w.handlers.Keys
  {
    var rows := RowsOf(w, request.conversation);
    BeginKeepsSound(rows, request.owner, request.clientTurn, turn, request.message);
    BeginKeepsPending(rows, request, turn);
  }

  lemma BeginKeepsPending(rows: Rows, request: Request, turn: Uuid)
    ensures var r := BeginTurn(rows, request.owner, request.clientTurn, turn, request.message);
      r.Ok? ==>
        r.value.0.pending == rows.pending && r.value.0.header.Some? && r.value.0.header.value.owner == request.owner
  {}

  lemma Serve(env: Env, t: Trace, c: Uuid, request: Request, turn: Uuid) returns (u: Trace)
    requires IsTrace(env, t) && CanServe(Last(t), c, request, turn)
    ensures IsTrace(env, u) && Serving(env, Last(u), c, request, turn, RowsOf(Last(t), request.conversation))
    ensures Last(u).handlers.Keys == Last(t).handlers.Keys + {c}
  {
    RunKeepsInv(env, t.states, t.events, |t.states| - 1);
    SoundRows(env, Last(t), request.conversation);
    u := Lock(env, t, c, request, turn);
    BeginServes(env, Last(u), c, request, turn);
    u := Extend(env, u, Begin(c, turn));
  }

  /** A legal document without a number. */
  function Law(id: string): Clarification.Resolved {
    Clarification.Resolved(id, Clarification.Document, id, id, None, None, None, None, None, None, None, map[])
  }

  /** A message that names two documents. */
  function TwoLaws(): Resolver.Reading { Resolver.Reading([[Law("a"), Law("b")]], Clarification.Document, None, None) }

  lemma BothStay(a: Clarification.Resolved, b: Clarification.Resolved)
    requires a.nodeId != b.nodeId && a.documentNumber.None? && b.documentNumber.None?
    ensures Resolver.ByNumber(Resolver.ByNode([a, b])) == [a, b]
  {
    assert [a, b][..1] == [a] && [a][..0] == [];
    assert Resolver.ByNode([a]) == [a] && Resolver.ByNumber([a]) == [a];
    assert !Resolver.HasNode([a], b.nodeId);
  }

  lemma TwoLawsAreTwo()
    ensures |Resolver.ExplicitUnits(TwoLaws())| == 2
  {
    var units := [Law("a"), Law("b")];
    assert [units][..0] == [] && Resolver.Flatten([]) == [];
    assert Resolver.Flatten([units]) == units;
    BothStay(Law("a"), Law("b"));
  }

  lemma TwoLawsAreCanonical()
    ensures Resolver.CanonicalReading(TwoLaws())
  {}

  /** Whatever was grounded before, such a message is answered with a choice that can be stored. */
  lemma TwoLawsAreOffered(unicode: Text.Unicode, message: string, focuses: seq<Focuses.Row>)
    ensures var o := Resolver.Resolve(unicode, message, None, TwoLaws(), focuses);
      o.Clarify? && o.mode == Resolver.Select && Resolver.Storable(o.candidates)
  {
    TwoLawsAreTwo();
    TwoLawsAreCanonical();
    Resolver.ResolveOffersStorable(unicode, message, None, TwoLaws(), []);
  }

  const Client := Owner("user", 1)

  function Question(): Request { Request(0, Client, 1, "luat") }

  function SuperscriptReply(): Request { Request(0, Client, 2, Clarification.SuperscriptTwo) }

  /** One turn has asked for a selection. */
  ghost predicate HasAsked(rows: Rows) {
    |rows.turns| == 1 && rows.pending.Some? && rows.pending.value.mode == Resolver.Select
  }

  lemma AskCommits(rows: Rows, begun: Begun, question: string, candidates: seq<Clarification.Candidate>)
    requires Resolver.Storable(candidates) && |rows.turns| == 1
    ensures var r := Commit(rows, begun, AskFor(Resolver.Select, question, candidates));
      && r.Ok? && HasAsked(r.value.0) && r.value.0.header == rows.header
      && r.value.0.turns[0].id == rows.turns[0].id && r.value.0.turns[0].clientTurn == rows.turns[0].clientTurn
  {}

  /** The first turn asks which of two documents is meant. */
  lemma AskingRun(env: Env) returns (t: Trace)
    ensures IsTrace(env, t) && CanServe(Last(t), 2, SuperscriptReply(), 2) && HasAsked(RowsOf(Last(t), 0))
  {
    t := Trace([START], []);
    t := Serve(env, t, 1, Question(), 1);
    NothingPending(env, t, 1, Question(), 1);
    TwoLawsAreCanonical();
    Asked(env, Last(t));
    t := Extend(env, t, Finish(1, TwoLaws(), Unhandled));
    NextCanBeServed(env, Last(t));
    t := Extend(env, t, Unlock(1));
  }

  lemma NextCanBeServed(env: Env, w: World)
    requires HasJustAsked(env, w)
    ensures var later := Next(env, w, Unlock(1));
      CanServe(later, 2, SuperscriptReply(), 2) && HasAsked(RowsOf(later, 0))
  {}

  /** The first handler has asked and still holds the lock. */
  ghost predicate HasJustAsked(env: Env, w: World) {
    && w.locks == map[env.lockKey(0) := 1] && w.handlers.Keys == {1} && w.handlers[1].phase.Releasing?
    && w.handlers[1].request == Question() && HasAsked(RowsOf(w, 0))
    && RowsOf(w, 0).header.Some? && RowsOf(w, 0).header.value.owner == Client
    && RowsOf(w, 0).turns[0].id == 1 && RowsOf(w, 0).turns[0].clientTurn == 1
  }

  lemma NothingPending(env: Env, t: Trace, c: Uuid, request: Request, turn: Uuid)
    requires IsTrace(env, t) && Serving(env, Last(t), c, request, turn, NO_ROWS)
    ensures Last(t).handlers[c].phase.begun.context.pending.None?
  {
    RunKeepsInv(env, t.states, t.events, |t.states| - 1);
    ReadsPending(env, Last(t), c);
  }

  lemma ReadsPending(env: Env, w: World, c: Uuid)
    requires Inv(env, w) && c in w.handlers && w.handlers[c].phase.Working?
    ensures LoadPending(RowsOf(w, w.handlers[c].request.conversation)) == Ok(w.handlers[c].phase.begun.context.pending)
  {}

  lemma Asked(env: Env, w: World)
    requires Serving(env, w, 1, Question(), 1, NO_ROWS) && Enabled(env, w, Finish(1, TwoLaws(), Unhandled))
    requires w.handlers[1].phase.begun.context.pending.None?
    requires w.handlers.Keys == {1}
    ensures HasJustAsked(env, Next(env, w, Finish(1, TwoLaws(), Unhandled)))
  {
    var h := w.handlers[1];
    TwoLawsAreOffered(env.unicode, Question().message, h.phase.begun.context.focuses);
    var o := Outcome(env, h, TwoLaws());
    AskCommits(RowsOf(w, 0), h.phase.begun, o.question, o.candidates);
    AskStep(env, w, 1, TwoLaws(), Unhandled);
  }

  lemma AskStep(env: Env, w: World, c: Uuid, reading: Resolver.Reading, work: Work)
    requires Enabled(env, w, Finish(c, reading, work)) && Outcome(env, w.handlers[c], reading).Clarify?
    requires var h := w.handlers[c]; var o := Outcome(env, h, reading);
      Commit(RowsOf(w, h.request.conversation), h.phase.begun, AskFor(o.mode, o.question, o.candidates)).Ok?
    ensures var h := w.handlers[c]; var o := Outcome(env, h, reading);
      var rows := RowsOf(w, h.request.conversation);
      var (after, snapshot) := Commit(rows, h.phase.begun, AskFor(o.mode, o.question, o.candidates)).value;
      Next(env, w, Finish(c, reading, work))
      == SetPhase(SetRows(w, h.request.conversation, after), c, Releasing(Replay(snapshot)))
  {}

  /**
    It happens: after a turn that asks which of two documents is meant, a superscript two is answered with an error, and
    its turn is stranded.
   */
  lemma SuperscriptRun(env: Env) returns (t: Trace)
    requires Clarification.KnowsSuperscript(env.unicode)
    ensures IsRun(env, t.states, t.events) && 2 in Last(t).handlers
    ensures Last(t).handlers[2] == Handler(SuperscriptReply(), Done(UnhandledError))
    ensures |RowsOf(Last(t), 0).turns| == 2 && Stranded(Last(t), 0, 1)
  {
    t := AskingRun(env);
    var rows := RowsOf(Last(t), 0);
    t := Serve(env, t, 2, SuperscriptReply(), 2);
    t := Answered(env, t, rows);
  }

  lemma SelectIsRead(env: Env, w: World, c: Uuid)
    requires Inv(env, w) && c in w.handlers && w.handlers[c].phase.Working?
    requires var p := RowsOf(w, w.handlers[c].request.conversation).pending; p.Some? && p.value.mode == Resolver.Select
    ensures var p := w.handlers[c].phase.begun.context.pending; p.Some? && p.value.mode == Resolver.Select
  {
    ReadsPending(env, w, c);
    SoundRows(env, w, w.handlers[c].request.conversation);
    PendingLoads(RowsOf(w, w.handlers[c].request.conversation));
  }

  /** The reply is no choice, and the exception reaches the client. */
  lemma Answered(env: Env, t: Trace, rows: Rows) returns (u: Trace)
    requires Clarification.KnowsSuperscript(env.unicode)
    requires IsTrace(env, t) && Serving(env, Last(t), 2, SuperscriptReply(), 2, rows) && HasAsked(rows)
    ensures IsTrace(env, u) && 2 in Last(u).handlers
    ensures Last(u).handlers[2] == Handler(SuperscriptReply(), Done(UnhandledError))
    ensures |RowsOf(Last(u), 0).turns| == 2 && Stranded(Last(u), 0, 1)
  {
    var w, reading := Last(t), Resolver.Reading([], Clarification.Document, None, None);
    RunKeepsInv(env, t.states, t.events, |t.states| - 1);
    SelectIsRead(env, w, 2);
    SuperscriptStrands(env, w, 2, reading, Unhandled);
    u := Extend(env, t, Finish(2, reading, Unhandled));
    OtherKeepsStranded(env, Last(u), Unlock(2), 0, 1);
    u := Extend(env, u, Unlock(2));
  }
}
