/** Every transaction of the lock holder keeps a conversation sound and never touches a finished turn. */
module ConversationInvariant {
  import opened Prelude
  import Clarification
  import Focuses
  import Resolver
  import opened Conversation

  lemma EmptyIsSound()
    ensures Sound(NO_ROWS)
  {}

  /** Rewriting the open turn changes the last row only. */
  lemma SetOpenTurn(rows: Rows, turn: Uuid, status: TurnStatus, errorCode: Option<string>, snapshot: Snapshot)
    requires TurnsDistinct(rows.turns) && Open(rows, turn)
    ensures var n := |rows.turns| - 1;
      SetTurn(rows.turns, turn, status, errorCode, snapshot)
      == rows.turns[..n] + [rows.turns[n].(status := status, snapshot := Some(snapshot),
           errorCode := if errorCode.Some? then errorCode else rows.turns[n].errorCode)]
  {
    var n := |rows.turns| - 1;
    forall i | 0 <= i < n ensures rows.turns[i].id != turn {
      assert rows.turns[i].id != rows.turns[n].id;
    }
  }

  lemma TranscriptAppend(messages: seq<Message>, m: Message)
    ensures Transcript(messages + [m]) == Transcript(messages) + [(m.turn, m.role)]
  {}

  /** Finishing the open turn keeps numbering, identities and snapshots, and extends the conversation. */
  lemma FinishKeepsTurns(
      rows: Rows, later: Rows, turn: Uuid, status: TurnStatus, errorCode: Option<string>, snapshot: Snapshot)
    requires Sound(rows) && Open(rows, turn) && Terminal(status)
    requires later.turns == SetTurn(rows.turns, turn, status, errorCode, snapshot) && later.header == rows.header
    ensures TurnsNumbered(later) && TurnsDistinct(later.turns) && SnapshotsMatchStatus(later.turns)
    ensures Extends(rows, later)
    ensures |later.turns| == |rows.turns|
    ensures later.turns[..|rows.turns| - 1] == rows.turns[..|rows.turns| - 1]
    ensures later.turns[|rows.turns| - 1] == rows.turns[|rows.turns| - 1].(status := status, snapshot := Some(snapshot),
              errorCode := if errorCode.Some? then errorCode else rows.turns[|rows.turns| - 1].errorCode)
  {
    SetOpenTurn(rows, turn, status, errorCode, snapshot);
    forall i, j | 0 <= i < j < |later.turns|
      ensures later.turns[i].id != later.turns[j].id && later.turns[i].clientTurn != later.turns[j].clientTurn
    {
      assert later.turns[i].id == rows.turns[i].id && later.turns[j].id == rows.turns[j].id;
      assert later.turns[i].clientTurn == rows.turns[i].clientTurn
        && later.turns[j].clientTurn == rows.turns[j].clientTurn;
    }
  }

  /** Appending the reply of the open turn keeps the transcript in step with the turns. */
  lemma ReplyKeepsTranscript(rows: Rows, later: Rows, turn: Uuid, m: Message)
    requires Sound(rows) && Open(rows, turn)
    requires later.messages == rows.messages + [m]
    requires m.turn == turn && m.role == Assistant && m.ordinal == NextOrdinal(rows.messages)
    requires |later.turns| == |rows.turns|
    requires later.turns[..|rows.turns| - 1] == rows.turns[..|rows.turns| - 1]
    requires later.turns[|rows.turns| - 1].id == turn && Answered(later.turns[|rows.turns| - 1].status)
    ensures MessagesOrdered(later.messages) && Transcript(later.messages) == Expected(later.turns)
  {
    OrderedMax(rows.messages);
    TranscriptAppend(rows.messages, m);
    var before := Expected(rows.turns[..|rows.turns| - 1]);
    assert Expected(rows.turns) == before + [(turn, User)];
    assert Expected(later.turns) == before + [(turn, User)] + [(turn, Assistant)];
  }

  /** Focuses whose turns keep their status stay grounded. */
  lemma FocusesStayGrounded(rows: Rows, later: Rows)
    requires FocusesGrounded(rows) && Extends(rows, later)
    requires |later.focuses| <= Focuses.MAX_FOCUSES && Focuses.Keyed(later.focuses)
    requires forall f | f in later.focuses :: f in rows.focuses
    ensures FocusesGrounded(later)
  {
    forall f | f in later.focuses
      ensures Resolver.CanonicalFocus(f) && 1 <= f.lastTurn <= |later.turns|
      ensures later.turns[f.lastTurn - 1].status == Completed
    {
      assert f in rows.focuses;
      assert later.turns[f.lastTurn - 1] == rows.turns[f.lastTurn - 1];
    }
  }

  // -- begin ------------------------------------------------------------------------------

  lemma OpenTurnKeepsSound(rows: Rows, owner: Owner, clientTurn: Uuid, turn: Uuid, message: string)
    requires Sound(rows)
    requires forall t | t in rows.turns :: t.id != turn && t.clientTurn != clientTurn
    ensures var started := OpenTurn(rows, owner, |rows.turns| + 1, clientTurn, turn, message);
      Sound(started) && Open(started, turn) && Extends(rows, started)
  {
    var started := OpenTurn(rows, owner, |rows.turns| + 1, clientTurn, turn, message);
    OpenTurnKeepsTurns(rows, owner, clientTurn, turn, message);
    OrderedMax(rows.messages);
    TranscriptAppend(rows.messages, started.messages[|rows.messages|]);
    assert started.turns[..|rows.turns|] == rows.turns;
    assert Expected(started.turns) == Expected(rows.turns) + [(turn, User)];
    assert LastAnswered(started.turns) == LastAnswered(rows.turns);
    FocusesStayGrounded(rows, started);
  }

  lemma OpenTurnKeepsTurns(rows: Rows, owner: Owner, clientTurn: Uuid, turn: Uuid, message: string)
    requires Sound(rows)
    requires forall t | t in rows.turns :: t.id != turn && t.clientTurn != clientTurn
    ensures var started := OpenTurn(rows, owner, |rows.turns| + 1, clientTurn, turn, message);
      TurnsNumbered(started) && TurnsDistinct(started.turns) && SnapshotsMatchStatus(started.turns)
        && Extends(rows, started)
  {
    forall i | 0 <= i < |rows.turns| ensures rows.turns[i].id != turn && rows.turns[i].clientTurn != clientTurn {
      assert rows.turns[i] in rows.turns;
    }
  }

  lemma BeginKeepsSound(rows: Rows, owner: Owner, clientTurn: Uuid, turn: Uuid, message: string)
    requires Sound(rows)
    requires forall t | t in rows.turns :: t.id != turn && t.clientTurn != clientTurn
    ensures var r := BeginTurn(rows, owner, clientTurn, turn, message);
      && (r.Ok? <==> rows.header.None? || rows.header.value.owner == owner)
      && (r.Ok? ==>
          && Sound(r.value.0) && Open(r.value.0, turn) && Extends(rows, r.value.0)
          && r.value.1.turn == turn && r.value.1.no == |rows.turns| + 1 == |r.value.0.turns|
          && r.value.0.turns == rows.turns + [Turn(turn, clientTurn, r.value.1.no, Processing, None, None)]
          && r.value.1.context.focuses == Focuses.Load(r.value.0.focuses)
          && LoadPending(r.value.0) == Ok(r.value.1.context.pending))
  {
    var started := OpenTurn(rows, owner, |rows.turns| + 1, clientTurn, turn, message);
    OpenTurnKeepsSound(rows, owner, clientTurn, turn, message);
    PendingLoads(started);
  }

  /** The stored clarification of a sound conversation always loads, and it loads what was stored. */
  lemma PendingLoads(rows: Rows)
    requires Sound(rows)
    ensures LoadPending(rows).Ok?
    ensures LoadPending(rows).value.Some? <==> rows.pending.Some?
    ensures rows.pending.Some? ==>
      var p := LoadPending(rows).value.value;
      && p.mode == rows.pending.value.mode && p.sourceTurn == rows.pending.value.sourceTurn
      && Resolver.Storable(p.candidates)
      && rows.pending.value.payload == Clarification.JArray(Clarification.ToJsonList(p.candidates))
  {
    if rows.pending.Some? {
      LastAnsweredIs(rows.turns);
      var i :| 0 <= i < |rows.turns| && rows.turns[i] == LastAnswered(rows.turns).value;
      assert rows.turns[i] in rows.turns;
      FindByIdIs(rows.turns, rows.pending.value.sourceTurn);
    }
  }

  /** After the load, every focus handed to the resolver was grounded by a completed turn at most five turns back. */
  lemma LoadedFocusesAreRecent(rows: Rows, owner: Owner, clientTurn: Uuid, turn: Uuid, message: string, f: Focuses.Row)
    requires Sound(rows)
    requires forall t | t in rows.turns :: t.id != turn && t.clientTurn != clientTurn
    requires var r := BeginTurn(rows, owner, clientTurn, turn, message); r.Ok? && f in r.value.1.context.focuses
    ensures var r := BeginTurn(rows, owner, clientTurn, turn, message).value;
      && f in rows.focuses
      && r.1.no - f.lastTurn <= Focuses.TTL_USER_TURNS
      && 1 <= f.lastTurn < r.1.no && rows.turns[f.lastTurn - 1].status == Completed
  {
    BeginKeepsSound(rows, owner, clientTurn, turn, message);
    Focuses.LoadIsExact(rows.focuses, |rows.turns| + 1);
  }

  // -- finalize -----------------------------------------------------------------------------

  lemma ClarificationKeepsSound(rows: Rows, turn: Uuid, mode: Resolver.Mode, question: string,
                                candidates: seq<Clarification.Candidate>, snapshot: Snapshot)
    requires Sound(rows) && Open(rows, turn) && Resolver.Storable(candidates)
    ensures var r := PersistClarification(rows, turn, mode, question, candidates, snapshot);
      && r.Ok? && Sound(r.value) && Extends(rows, r.value)
      && r.value.turns[|rows.turns| - 1].snapshot == Some(snapshot)
  {
    var later := PersistClarification(rows, turn, mode, question, candidates, snapshot).value;
    FinishKeepsTurns(rows, later, turn, NeedsClarification, None, snapshot);
    ReplyKeepsTranscript(rows, later, turn,
      Message(turn, Assistant, ClarificationMessage, question, NextOrdinal(rows.messages)));
    FocusesStayGrounded(rows, later);
    Clarification.ListRoundTrip(candidates);
    assert LastAnswered(later.turns) == Some(later.turns[|later.turns| - 1]);
  }

  predicate CanonicalUpserts(upserts: seq<Focuses.Upsert>) {
    forall i | 0 <= i < |upserts| :: Resolver.CanonicalFocus(Focuses.Row(upserts[i], 0))
  }

  lemma GroundedAnswerKeepsSound(
      rows: Rows, turn: Uuid, no: nat, status: TurnStatus, kind: MessageKind, content: string,
      upserts: seq<Focuses.Upsert>, updateFocus: bool, snapshot: Snapshot)
    requires Sound(rows) && Open(rows, turn) && no == |rows.turns|
    requires status == Completed || (status == CannotAnswer && !updateFocus)
    requires CanonicalUpserts(upserts)
    ensures var later := PersistGroundedAnswer(rows, turn, no, status, kind, content, upserts, updateFocus, snapshot);
      Sound(later) && Extends(rows, later) && later.turns[|rows.turns| - 1].snapshot == Some(snapshot)
  {
    var later := PersistGroundedAnswer(rows, turn, no, status, kind, content, upserts, updateFocus, snapshot);
    FinishKeepsTurns(rows, later, turn, status, None, snapshot);
    ReplyKeepsTranscript(rows, later, turn, Message(turn, Assistant, kind, content, NextOrdinal(rows.messages)));
    assert LastAnswered(later.turns) == Some(later.turns[|later.turns| - 1]);
    if updateFocus && upserts != [] {
      UpsertKeepsGrounded(rows, later, upserts, no);
    } else {
      FocusesStayGrounded(rows, later);
    }
  }

  lemma UpsertedFocusIsGrounded(rows: Rows, later: Rows, upserts: seq<Focuses.Upsert>, no: nat, f: Focuses.Row)
    requires FocusesGrounded(rows) && Extends(rows, later) && CanonicalUpserts(upserts)
    requires 1 <= no <= |later.turns| && later.turns[no - 1].status == Completed
    requires f in Focuses.UpsertAll(rows.focuses, upserts, no)
    ensures Resolver.CanonicalFocus(f) && 1 <= f.lastTurn <= |later.turns|
    ensures later.turns[f.lastTurn - 1].status == Completed
  {
    Focuses.UpsertOverrides(rows.focuses, upserts, no, f);
    if Focuses.Touches(upserts, f.data.nodeId) {
      var i :| 0 <= i < |upserts| && upserts[i] == f.data;
      assert Resolver.CanonicalFocus(Focuses.Row(upserts[i], 0));
    } else {
      assert later.turns[f.lastTurn - 1] == rows.turns[f.lastTurn - 1];
    }
  }

  /** Upserting the citations of the turn just completed and pruning leaves only grounded focuses, at most five. */
  lemma UpsertKeepsGrounded(rows: Rows, later: Rows, upserts: seq<Focuses.Upsert>, no: nat)
    requires FocusesGrounded(rows) && Extends(rows, later) && CanonicalUpserts(upserts)
    requires 1 <= no <= |later.turns| && later.turns[no - 1].status == Completed
    requires later.focuses == Focuses.Prune(Focuses.UpsertAll(rows.focuses, upserts, no))
    ensures FocusesGrounded(later)
  {
    Focuses.PruneKeepsTopFive(Focuses.UpsertAll(rows.focuses, upserts, no));
    forall f | f in later.focuses
      ensures Resolver.CanonicalFocus(f) && 1 <= f.lastTurn <= |later.turns|
      ensures later.turns[f.lastTurn - 1].status == Completed
    {
      UpsertedFocusIsGrounded(rows, later, upserts, no, f);
    }
  }

  lemma FailureKeepsSound(rows: Rows, turn: Uuid, errorCode: string, snapshot: Snapshot)
    requires Sound(rows) && Open(rows, turn)
    ensures var later := MarkTurnFailed(rows, turn, errorCode, snapshot);
      Sound(later) && Extends(rows, later) && later.turns[|rows.turns| - 1].snapshot == Some(snapshot)
  {
    var later := MarkTurnFailed(rows, turn, errorCode, snapshot);
    FinishKeepsTurns(rows, later, turn, Failed, Some(errorCode), snapshot);
    FocusesStayGrounded(rows, later);
    var init := rows.turns[..|rows.turns| - 1];
    assert Expected(later.turns) == Expected(init) + [(turn, User)] == Expected(rows.turns);
    assert LastAnswered(later.turns) == LastAnswered(init) == LastAnswered(rows.turns);
  }
}
