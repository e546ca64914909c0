/** What each way of processing a turn leaves in the conversation (conversation/service.py). */
module TurnOutcomes {
  import opened Prelude
  import Clarification
  import Focuses
  import Resolver
  import opened Conversation
  import opened ConversationInvariant
  import opened TurnProtocol

  // -- how a turn can end ------------------------------------------------------------

  /** Only the newest turn has changed, to this status, code and snapshot. */
  ghost predicate Ends(before: Rows, after: Rows, status: TurnStatus, code: Option<string>, snapshot: Snapshot) {
    var n := |before.turns| - 1;
    && n >= 0 && after.header == before.header
    && after.turns
       == before.turns[..n]
          + [before.turns[n].(status := status, snapshot := Some(snapshot),
                              errorCode := if code.Some? then code else before.turns[n].errorCode)]
  }

  /** One message was added, as the reply of the newest turn. */
  ghost predicate Replies(before: Rows, after: Rows, kind: MessageKind, content: string) {
    && before.turns != []
    && after.messages
       == before.messages
          + [Message(before.turns[|before.turns| - 1].id, Assistant, kind, content, |before.messages| + 1)]
  }

  /** A question is open: the newest turn asked it, and reading it back gives these candidates. */
  ghost predicate AsksWith(
      before: Rows, after: Rows, mode: Resolver.Mode, question: string, candidates: seq<Clarification.Candidate>)
  {
    && Ends(before, after, NeedsClarification, None, Snapshot(ClarificationReply, question))
    && Replies(before, after, ClarificationMessage, question) && after.focuses == before.focuses
    && LoadPending(after)
       == Ok(Some(Resolver.Pending(mode, question, candidates, before.turns[|before.turns| - 1].id, |before.turns|)))
  }

  ghost predicate RepliesDirectly(before: Rows, after: Rows, text: string) {
    && Ends(before, after, Completed, None, Snapshot(SmallTalkReply, text))
    && Replies(before, after, SmallTalk, text) && after.pending.None? && after.focuses == before.focuses
  }

  ghost predicate FailsWith(before: Rows, after: Rows, code: string) {
    && Ends(before, after, Failed, Some(code), Snapshot(ErrorReply, code))
    && after.messages == before.messages && after.pending == before.pending && after.focuses == before.focuses
  }

  /** The unit a citation is of: its clause, else its article, else its document. */
  ghost predicate CitesUnit(c: Focuses.Citation, id: string, unitType: Clarification.UnitType) {
    var clause := c.clauseId.Some? && c.clauseId.value != "";
    var article := c.articleId.Some? && c.articleId.value != "";
    && (clause ==> id == c.clauseId.value && unitType == Clarification.Clause)
    && (!clause && article ==> id == c.articleId.value && unitType == Clarification.Article)
    && (!clause && !article ==> id == c.documentId && unitType == Clarification.Document)
  }

  ghost predicate FocusOn(c: Focuses.Citation, u: Focuses.Upsert) {
    && CitesUnit(c, u.nodeId, u.nodeType)
    && u.labelText == c.labelText && u.documentId == c.documentId && u.citationOrder == c.ordinal
    && u.articleId == c.articleId && u.clauseId == c.clauseId && u.metadata == c.metadata
  }

  ghost predicate Cited(cs: seq<Focuses.Citation>, id: string) {
    exists i, t :: 0 <= i < |cs| && CitesUnit(cs[i], id, t)
  }

  /** A focus the answer calls for: on a unit as it was cited last, or an old one on a unit that is not cited. */
  ghost predicate Wanted(before: Rows, cs: seq<Focuses.Citation>, row: Focuses.Row) {
    if Cited(cs, row.data.nodeId) then
      && row.lastTurn == |before.turns|
      && exists i | 0 <= i < |cs| ::
        FocusOn(cs[i], row.data) && forall j, t | i < j < |cs| :: !CitesUnit(cs[j], row.data.nodeId, t)
    else row in before.focuses
  }

  /** Grounded later, or cited earlier in the same turn, or with the smaller id. */
  ghost predicate Fresher(a: Focuses.Row, b: Focuses.Row) {
    a.lastTurn > b.lastTurn
    || (a.lastTurn == b.lastTurn
        && (a.data.citationOrder < b.data.citationOrder
            || (a.data.citationOrder == b.data.citationOrder && StringLe(a.data.nodeId, b.data.nodeId))))
  }

  /** The focuses afterwards are the wanted ones, or the five freshest of them. */
  ghost predicate FocusesAre(before: Rows, after: Rows, cs: seq<Focuses.Citation>) {
    && Focuses.Keyed(after.focuses) && |after.focuses| <= 5
    && (forall row | row in after.focuses :: Wanted(before, cs, row))
    && (forall row | Wanted(before, cs, row) && row !in after.focuses ::
          |after.focuses| == 5 && forall kept | kept in after.focuses :: Fresher(kept, row))
  }

  // -- finalizing ------------------------------------------------------------------------

  /** The rows before and after the end of processing. */
  ghost function Earlier(w: World, c: Uuid): Rows
    requires c in w.handlers
  {
    RowsOf(w, w.handlers[c].request.conversation)
  }

  ghost function Later(env: Env, w: World, c: Uuid, reading: Resolver.Reading, work: Work): Rows
    requires Enabled(env, w, Finish(c, reading, work))
  {
    RowsOf(Next(env, w, Finish(c, reading, work)), w.handlers[c].request.conversation)
  }

  /** The client is answered with the snapshot that its turn now carries. */
  ghost predicate AnswersWith(env: Env, w: World, c: Uuid, reading: Resolver.Reading, work: Work, snapshot: Snapshot)
    requires Enabled(env, w, Finish(c, reading, work))
  {
    Next(env, w, Finish(c, reading, work)).handlers[c].phase == Releasing(Replay(snapshot))
  }

  /** The message goes on to retrieval and generation. */
  ghost predicate NeedsWork(env: Env, w: World, c: Uuid, reading: Resolver.Reading)
    requires c in w.handlers && w.handlers[c].phase.Working?
  {
    var outcome := Outcome(env, w.handlers[c], reading);
    outcome.ResolvedTo? || (outcome.Standalone? && env.greeting(w.handlers[c].request.message).None?)
  }

  /** The handler's turn is the newest one, and its rows are sound. */
  lemma Opened(env: Env, w: World, c: Uuid)
    requires Inv(env, w) && c in w.handlers && w.handlers[c].phase.Working?
    ensures var rows := Earlier(w, c);
      && Sound(rows) && Open(rows, w.handlers[c].phase.begun.turn) && w.handlers[c].phase.begun.no == |rows.turns|
  {
    SoundRows(env, w, w.handlers[c].request.conversation);
  }

  lemma FailEnds(rows: Rows, turn: Uuid, code: string)
    requires Sound(rows) && Open(rows, turn)
    ensures FailsWith(rows, MarkTurnFailed(rows, turn, code, Snapshot(ErrorReply, code)), code)
  {
    SetOpenTurn(rows, turn, Failed, Some(code), Snapshot(ErrorReply, code));
  }

  lemma AskEnds(rows: Rows, turn: Uuid, mode: Resolver.Mode, question: string, candidates: seq<Clarification.Candidate>)
    requires Sound(rows) && Open(rows, turn) && Resolver.Storable(candidates)
    ensures var snapshot := Snapshot(ClarificationReply, question);
      var r := PersistClarification(rows, turn, mode, question, candidates, snapshot);
      r.Ok? && AsksWith(rows, r.value, mode, question, candidates)
  {
    var snapshot := Snapshot(ClarificationReply, question);
    var after := PersistClarification(rows, turn, mode, question, candidates, snapshot).value;
    OrderedMax(rows.messages);
    SetOpenTurn(rows, turn, NeedsClarification, None, snapshot);
    ClarificationKeepsSound(rows, turn, mode, question, candidates, snapshot);
    Clarification.ListRoundTrip(candidates);
    AskedTurn(after, turn);
  }

  lemma AskedTurn(after: Rows, turn: Uuid)
    requires Sound(after) && after.turns != [] && after.turns[|after.turns| - 1].id == turn
    ensures FindById(after.turns, turn) == Some(after.turns[|after.turns| - 1])
  {
    FindByIdIs(after.turns, turn);
    var found := FindById(after.turns, turn);
    assert after.turns[|after.turns| - 1] in after.turns;
    var i :| 0 <= i < |after.turns| && after.turns[i] == found.value;
  }

  lemma ReplyEnds(
      rows: Rows, turn: Uuid, status: TurnStatus, kind: MessageKind, text: string, us: seq<Focuses.Upsert>,
      update: bool, snapshot: Snapshot)
    requires Sound(rows) && Open(rows, turn)
    ensures var after := PersistGroundedAnswer(rows, turn, |rows.turns|, status, kind, text, us, update, snapshot);
      && Ends(rows, after, status, None, snapshot) && Replies(rows, after, kind, text) && after.pending.None?
      && (!update || us == [] ==> after.focuses == rows.focuses)
      && (update && us != [] ==> after.focuses == Focuses.Prune(Focuses.UpsertAll(rows.focuses, us, |rows.turns|)))
  {
    OrderedMax(rows.messages);
    SetOpenTurn(rows, turn, status, None, snapshot);
  }

  // -- citations become focuses ------------------------------------------------------------

  lemma CitesOne(c: Focuses.Citation, id: string, t: Clarification.UnitType)
    ensures CitesUnit(c, id, t) <==> Focuses.FromCitation(c).nodeId == id && Focuses.FromCitation(c).nodeType == t
  {}

  lemma FocusOnIs(c: Focuses.Citation, u: Focuses.Upsert)
    ensures FocusOn(c, u) <==> u == Focuses.FromCitation(c)
  {
    CitesOne(c, u.nodeId, u.nodeType);
  }

  lemma WantedIs(before: Rows, cs: seq<Focuses.Citation>, row: Focuses.Row)
    ensures Wanted(before, cs, row)
            <==> Focuses.Overridden(before.focuses, Focuses.FromCitations(cs), |before.turns|, row)
  {
    var us := Focuses.FromCitations(cs);
    forall i, id, t | 0 <= i < |cs|
      ensures CitesUnit(cs[i], id, t) <==> us[i].nodeId == id && us[i].nodeType == t
    {
      CitesOne(cs[i], id, t);
    }
    forall i | 0 <= i < |cs| ensures FocusOn(cs[i], row.data) <==> us[i] == row.data { FocusOnIs(cs[i], row.data); }
    TouchesIsCited(cs, row.data.nodeId);
    LastIsCitedLast(cs, row.data);
  }

  lemma TouchesIsCited(cs: seq<Focuses.Citation>, id: string)
    ensures Focuses.Touches(Focuses.FromCitations(cs), id) <==> Cited(cs, id)
  {
    var us := Focuses.FromCitations(cs);
    if i :| 0 <= i < |us| && us[i].nodeId == id { CitesOne(cs[i], id, us[i].nodeType); }
    if i, t :| 0 <= i < |cs| && CitesUnit(cs[i], id, t) {
      CitesOne(cs[i], id, t);
      assert us[i].nodeId == id;
    }
  }

  lemma LastIsCitedLast(cs: seq<Focuses.Citation>, u: Focuses.Upsert)
    ensures Focuses.LastFor(Focuses.FromCitations(cs), u)
            <==> exists i | 0 <= i < |cs| ::
                   FocusOn(cs[i], u) && forall j, t | i < j < |cs| :: !CitesUnit(cs[j], u.nodeId, t)
  {
    var us := Focuses.FromCitations(cs);
    forall i | 0 <= i < |cs|
      ensures (us[i] == u && forall j | i < j < |us| :: us[j].nodeId != u.nodeId)
              <==> (FocusOn(cs[i], u) && forall j, t | i < j < |cs| :: !CitesUnit(cs[j], u.nodeId, t))
    {
      FocusOnIs(cs[i], u);
      forall j, t | i < j < |cs| ensures CitesUnit(cs[j], u.nodeId, t) ==> us[j].nodeId == u.nodeId {
        CitesOne(cs[j], u.nodeId, t);
      }
      forall j | i < j < |us| && us[j].nodeId == u.nodeId ensures CitesUnit(cs[j], u.nodeId, us[j].nodeType) {
        CitesOne(cs[j], u.nodeId, us[j].nodeType);
      }
    }
  }

  lemma CommittedFocuses(before: Rows, after: Rows, cs: seq<Focuses.Citation>)
    requires Focuses.Keyed(before.focuses)
    requires after.focuses
             == Focuses.Prune(Focuses.UpsertAll(before.focuses, Focuses.FromCitations(cs), |before.turns|))
    ensures FocusesAre(before, after, cs)
  {
    var us := Focuses.FromCitations(cs);
    Focuses.CommitKeepsTopFive(before.focuses, us, |before.turns|);
    forall row ensures Wanted(before, cs, row) <==> Focuses.Overridden(before.focuses, us, |before.turns|, row) {
      WantedIs(before, cs, row);
    }
  }

  /** Of what was cited, the first citation that is not repeated on the same unit is kept: nothing old is fresher. */
  lemma SomethingNewStays(before: Rows, after: Rows, cs: seq<Focuses.Citation>)
    requires FocusesAre(before, after, cs) && cs != []
    requires forall row | row in before.focuses :: row.lastTurn < |before.turns|
    ensures exists row | row in after.focuses :: row.lastTurn == |before.turns|
  {
    var last := |cs| - 1;
    var u := Focuses.FromCitation(cs[last]);
    var row := Focuses.Row(u, |before.turns|);
    FocusOnIs(cs[last], u);
    assert Cited(cs, u.nodeId);
    assert Wanted(before, cs, row);
    if row !in after.focuses {
      var kept := after.focuses[0];
      assert kept in after.focuses && Fresher(kept, row) && Wanted(before, cs, kept);
    }
  }

  // -- the branches --------------------------------------------------------------------------

  /** A cancel and a greeting are answered at once, whatever retrieval would have done. */
  lemma DirectReplies(env: Env, w: World, c: Uuid, reading: Resolver.Reading, work: Work, text: string)
    requires Inv(env, w) && Enabled(env, w, Finish(c, reading, work))
    requires var outcome := Outcome(env, w.handlers[c], reading);
      || (outcome.Cancelled? && text == "Đã hủy yêu cầu làm rõ. Bạn có thể đặt câu hỏi mới.")
      || (outcome.Standalone? && env.greeting(w.handlers[c].request.message) == Some(text))
    ensures RepliesDirectly(Earlier(w, c), Later(env, w, c, reading, work), text)
    ensures AnswersWith(env, w, c, reading, work, Snapshot(SmallTalkReply, text))
  {
    Opened(env, w, c);
    ReplyEnds(Earlier(w, c), w.handlers[c].phase.begun.turn, Completed, SmallTalk, text, [], false,
              Snapshot(SmallTalkReply, text));
  }

  /** A clarification the resolver calls for is asked and can be read back as it was asked. */
  lemma ClarificationIsAsked(env: Env, w: World, c: Uuid, reading: Resolver.Reading, work: Work)
    requires Inv(env, w) && Enabled(env, w, Finish(c, reading, work)) && Outcome(env, w.handlers[c], reading).Clarify?
    ensures var o := Outcome(env, w.handlers[c], reading);
      && AsksWith(Earlier(w, c), Later(env, w, c, reading, work), o.mode, o.question, o.candidates)
      && AnswersWith(env, w, c, reading, work, Snapshot(ClarificationReply, o.question))
  {
    var h := w.handlers[c];
    var context := h.phase.begun.context;
    var o := Outcome(env, h, reading);
    Opened(env, w, c);
    ContextIsStorable(Earlier(w, c), h.request, h.phase.begun);
    Resolver.ResolveOffersStorable(env.unicode, h.request.message, context.pending, reading, context.focuses);
    AskEnds(Earlier(w, c), h.phase.begun.turn, o.mode, o.question, o.candidates);
  }

  /** A filter conflict and the query processor ask for a new wording. */
  lemma WorkAsks(env: Env, w: World, c: Uuid, reading: Resolver.Reading, work: Work, question: string)
    requires Inv(env, w) && Enabled(env, w, Finish(c, reading, work)) && NeedsWork(env, w, c, reading)
    requires work == ProcessorAsks(question) || (work.FilterConflict? && question == CONFLICT_QUESTION)
    ensures AsksWith(Earlier(w, c), Later(env, w, c, reading, work), Resolver.Restate, question, [])
    ensures AnswersWith(env, w, c, reading, work, Snapshot(ClarificationReply, question))
  {
    Opened(env, w, c);
    AskEnds(Earlier(w, c), w.handlers[c].phase.begun.turn, Resolver.Restate, question, []);
  }

  /** A failure finishes the turn with its code and changes nothing else. */
  lemma WorkFails(env: Env, w: World, c: Uuid, reading: Resolver.Reading, work: Work, code: string)
    requires Inv(env, w) && Enabled(env, w, Finish(c, reading, work)) && NeedsWork(env, w, c, reading)
    requires || work == RewriteFailed(code) || work == AnswerFailed(code)
             || (work.ProcessorFailed? && code == "QUERY_PROCESSING_FAILED")
    ensures FailsWith(Earlier(w, c), Later(env, w, c, reading, work), code)
    ensures AnswersWith(env, w, c, reading, work, Snapshot(ErrorReply, code))
  {
    Opened(env, w, c);
    FailEnds(Earlier(w, c), w.handlers[c].phase.begun.turn, code);
  }

  /**
    An answer completes the turn with its text, closes an open question, and makes focuses of the units it cites: what
    is kept is the five freshest of the wanted focuses, one of them from this turn.
   */
  lemma AnswerCompletes(
      env: Env, w: World, c: Uuid, reading: Resolver.Reading, text: string, cs: seq<Focuses.Citation>)
    requires Inv(env, w) && Enabled(env, w, Finish(c, reading, AnswerReady(false, text, cs)))
    requires NeedsWork(env, w, c, reading)
    ensures var before := Earlier(w, c); var after := Later(env, w, c, reading, AnswerReady(false, text, cs));
      && Ends(before, after, Completed, None, Snapshot(AnswerReply, text)) && Replies(before, after, Answer, text)
      && after.pending.None? && FocusesAre(before, after, cs)
      && (cs == [] ==> after.focuses == before.focuses)
      && (cs != [] ==> exists row | row in after.focuses :: row.lastTurn == w.handlers[c].phase.begun.no)
    ensures AnswersWith(env, w, c, reading, AnswerReady(false, text, cs), Snapshot(AnswerReply, text))
  {
    Opened(env, w, c);
    AnsweredRows(Earlier(w, c), w.handlers[c].phase.begun.turn, text, cs);
  }

  lemma AnsweredRows(before: Rows, turn: Uuid, text: string, cs: seq<Focuses.Citation>)
    requires Sound(before) && Open(before, turn)
    ensures var after := PersistGroundedAnswer(before, turn, |before.turns|, Completed, Answer, text,
                                               Focuses.FromCitations(cs), true, Snapshot(AnswerReply, text));
      && Ends(before, after, Completed, None, Snapshot(AnswerReply, text)) && Replies(before, after, Answer, text)
      && after.pending.None? && FocusesAre(before, after, cs)
      && (cs == [] ==> after.focuses == before.focuses)
      && (cs != [] ==> exists row | row in after.focuses :: row.lastTurn == |before.turns|)
  {
    var us, snapshot := Focuses.FromCitations(cs), Snapshot(AnswerReply, text);
    var after := PersistGroundedAnswer(before, turn, |before.turns|, Completed, Answer, text, us, true, snapshot);
    ReplyEnds(before, turn, Completed, Answer, text, us, true, snapshot);
    NoUpserts(before);
    CommittedFocuses(before, after, cs);
    OldFocusesAreOlder(before, turn);
    if cs != [] { SomethingNewStays(before, after, cs); }
  }

  lemma NoUpserts(before: Rows)
    requires Sound(before)
    ensures var us := Focuses.FromCitations([]);
            Focuses.Prune(Focuses.UpsertAll(before.focuses, us, |before.turns|)) == before.focuses
  {}

  lemma OldFocusesAreOlder(before: Rows, turn: Uuid)
    requires Sound(before) && Open(before, turn)
    ensures forall row | row in before.focuses :: row.lastTurn < |before.turns|
  {
    forall row | row in before.focuses ensures row.lastTurn < |before.turns| {
      assert before.turns[row.lastTurn - 1].status == Completed;
    }
  }

  /** An exception, whether the resolver's or a later one, leaves everything as it was. */
  lemma RaisingChangesNothing(env: Env, w: World, c: Uuid, reading: Resolver.Reading, work: Work)
    requires Enabled(env, w, Finish(c, reading, work))
    requires Outcome(env, w.handlers[c], reading).Raised? || (NeedsWork(env, w, c, reading) && work.Unhandled?)
    ensures Next(env, w, Finish(c, reading, work)) == SetPhase(w, c, Releasing(UnhandledError))
  {}

  /** An answer that finds no basis finishes the turn as such and leaves the focuses alone. */
  lemma CannotAnswerLeavesFocuses(
      env: Env, w: World, c: Uuid, reading: Resolver.Reading, text: string, cs: seq<Focuses.Citation>)
    requires Inv(env, w) && Enabled(env, w, Finish(c, reading, AnswerReady(true, text, cs)))
    requires NeedsWork(env, w, c, reading)
    ensures var before := Earlier(w, c); var after := Later(env, w, c, reading, AnswerReady(true, text, cs));
      && Ends(before, after, CannotAnswer, None, Snapshot(CannotAnswerReply, text))
      && Replies(before, after, CannotAnswerMessage, text)
      && after.pending.None? && after.focuses == before.focuses
    ensures AnswersWith(env, w, c, reading, AnswerReady(true, text, cs), Snapshot(CannotAnswerReply, text))
  {
    Opened(env, w, c);
    ReplyEnds(Earlier(w, c), w.handlers[c].phase.begun.turn, CannotAnswer, CannotAnswerMessage, text,
              Focuses.FromCitations(cs), false, Snapshot(CannotAnswerReply, text));
  }

  // -- requests that need no processing ----------------------------------------------------

  /** What a request for a turn that is already there is told. */
  ghost predicate Told(turn: Turn, response: Response) {
    if turn.status == Processing then response == StillProcessing
    else turn.snapshot.Some? && response == Replay(turn.snapshot.value)
  }

  lemma ReplayTells(rows: Rows, k: nat)
    requires Sound(rows) && k < |rows.turns|
    ensures FindTurn(rows.turns, rows.turns[k].clientTurn) == Some(rows.turns[k])
    ensures Told(rows.turns[k], ReplayOf(rows.turns[k]))
  {
    FindTurnIs(rows.turns, rows.turns[k].clientTurn);
    var found := FindTurn(rows.turns, rows.turns[k].clientTurn);
    assert rows.turns[k] in rows.turns;
    var i :| 0 <= i < |rows.turns| && rows.turns[i] == found.value;
  }

  /**
    Before the lock: a stranger is told that there is no such conversation, a request for a known turn is told its
    result or to wait, and only a new one goes on to the lock.
   */
  lemma PreCheckAnswers(env: Env, w: World, c: Uuid)
    requires Inv(env, w) && Enabled(env, w, PreCheck(c))
    ensures var rows := Earlier(w, c); var request := w.handlers[c].request;
      var phase := Next(env, w, PreCheck(c)).handlers[c].phase;
      if rows.header.Some? && rows.header.value.owner != request.owner then phase == Done(NotFoundError)
      else
        && ((forall t | t in rows.turns :: t.clientTurn != request.clientTurn) ==> phase == WaitingForLock)
        && (forall k | 0 <= k < |rows.turns| && rows.turns[k].clientTurn == request.clientTurn ::
              phase.Done? && Told(rows.turns[k], phase.response))
  {
    var rows, request := Earlier(w, c), w.handlers[c].request;
    SoundRows(env, w, request.conversation);
    forall k | 0 <= k < |rows.turns| && rows.turns[k].clientTurn == request.clientTurn
      ensures FindTurn(rows.turns, request.clientTurn) == Some(rows.turns[k])
      ensures Told(rows.turns[k], ReplayOf(rows.turns[k]))
    {
      ReplayTells(rows, k);
    }
    FindTurnIs(rows.turns, request.clientTurn);
  }

  /** Under the lock the same is asked again, and only a turn that is still new is begun. */
  lemma ReCheckAnswers(env: Env, w: World, c: Uuid)
    requires Inv(env, w) && Enabled(env, w, ReCheck(c))
    ensures var rows := Earlier(w, c); var request := w.handlers[c].request;
      var phase := Next(env, w, ReCheck(c)).handlers[c].phase;
      && ((forall t | t in rows.turns :: t.clientTurn != request.clientTurn) ==> phase == Beginning)
      && (forall k | 0 <= k < |rows.turns| && rows.turns[k].clientTurn == request.clientTurn ::
            phase.Releasing? && Told(rows.turns[k], phase.response))
  {
    var rows, request := Earlier(w, c), w.handlers[c].request;
    SoundRows(env, w, request.conversation);
    forall k | 0 <= k < |rows.turns| && rows.turns[k].clientTurn == request.clientTurn
      ensures FindTurn(rows.turns, request.clientTurn) == Some(rows.turns[k])
      ensures Told(rows.turns[k], ReplayOf(rows.turns[k]))
    {
      ReplayTells(rows, k);
    }
    FindTurnIs(rows.turns, request.clientTurn);
  }

  /** Once the lock is given back the client has its response; a request that never got it is told to come again. */
  lemma LockAnswers(env: Env, w: World, c: Uuid)
    ensures Enabled(env, w, Unlock(c)) ==>
      var later := Next(env, w, Unlock(c));
      && later.handlers[c].phase == Done(w.handlers[c].phase.response)
      && env.lockKey(w.handlers[c].request.conversation) !in later.locks
    ensures Enabled(env, w, GiveUp(c)) ==> Next(env, w, GiveUp(c)).handlers[c].phase == Done(BusyError)
    ensures Enabled(env, w, TryLock(c)) ==>
      var later := Next(env, w, TryLock(c)); var key := env.lockKey(w.handlers[c].request.conversation);
      if key in w.locks then later == w else later.locks == w.locks[key := c] && later.handlers[c].phase == ReChecking
  {}
}
