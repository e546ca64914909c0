/**
  The rows of one conversation and what each committed transaction does to them (persistence/repository.py).
  `Sound` is the condition that every transaction keeps when it is run by the holder of the conversation's lock.
 */
module Conversation {
  import opened Prelude
  import Clarification
  import Focuses
  import Resolver

  const MAX_RECENT_MESSAGES: nat := 6
  const MAX_RECENT_CHARS: nat := 4000

  datatype TurnStatus = Processing | Completed | CannotAnswer | NeedsClarification | Failed

  datatype SnapshotKind = AnswerReply | CannotAnswerReply | SmallTalkReply | ClarificationReply | ErrorReply

  datatype Snapshot = Snapshot(kind: SnapshotKind, text: string)

  datatype Turn = Turn(
    id: Uuid,
    clientTurn: Uuid,
    no: nat,
    status: TurnStatus,
    errorCode: Option<string>,
    snapshot: Option<Snapshot>)

  datatype Role = User | Assistant

  datatype MessageKind = UserQuery | Answer | CannotAnswerMessage | ClarificationMessage | SmallTalk

  datatype Message = Message(turn: Uuid, role: Role, kind: MessageKind, content: string, ordinal: nat)

  datatype PendingRow = PendingRow(sourceTurn: Uuid, mode: Resolver.Mode, question: string, payload: Clarification.Json)

  datatype Owner = Owner(kind: string, principal: Uuid)

  datatype Header = Header(owner: Owner, nextTurnNo: nat)

  datatype Rows = Rows(
    header: Option<Header>,
    turns: seq<Turn>,
    messages: seq<Message>,
    focuses: seq<Focuses.Row>,
    pending: Option<PendingRow>)

  const NO_ROWS := Rows(None, [], [], [], None)

  datatype StoreError = NotFound | InvalidCandidates

  datatype Context = Context(
    recent: seq<Message>,
    focuses: seq<Focuses.Row>,
    pending: Option<Resolver.Pending>)

  datatype Begun = Begun(turn: Uuid, no: nat, ordinal: nat, context: Context)

  predicate Terminal(status: TurnStatus) { status != Processing }

  /** Turns that ended with an assistant message; the repository calls them completed turns. */
  predicate Answered(status: TurnStatus) {
    status == Completed || status == CannotAnswer || status == NeedsClarification
  }

  // -- reads --------------------------------------------------------------------

  function MaxOrdinal(messages: seq<Message>): nat {
    if messages == [] then 0
    else
      var before := MaxOrdinal(messages[..|messages| - 1]);
      if messages[|messages| - 1].ordinal > before then messages[|messages| - 1].ordinal else before
  }

  function NextOrdinal(messages: seq<Message>): nat { MaxOrdinal(messages) + 1 }

  function FindTurn(turns: seq<Turn>, clientTurn: Uuid): Option<Turn> {
    if turns == [] then None
    else if turns[0].clientTurn == clientTurn then Some(turns[0])
    else FindTurn(turns[1..], clientTurn)
  }

  function FindById(turns: seq<Turn>, id: Uuid): Option<Turn> {
    if turns == [] then None
    else if turns[0].id == id then Some(turns[0])
    else FindById(turns[1..], id)
  }

  /** Messages of answered turns other than the current one. */
  function History(messages: seq<Message>, turns: seq<Turn>, current: Uuid): seq<Message> {
    if messages == [] then []
    else
      var before := History(messages[..|messages| - 1], turns, current);
      var last := messages[|messages| - 1];
      var turn := FindById(turns, last.turn);
      if last.turn != current && turn.Some? && Answered(turn.value.status) then before + [last] else before
  }

  predicate Newer(a: Message, b: Message) { a.ordinal >= b.ordinal }

  /** ORDER BY ordinal DESC LIMIT 6. */
  function NewestHistory(messages: seq<Message>, turns: seq<Turn>, current: Uuid): seq<Message> {
    var rows := SortBy(History(messages, turns, current), Newer);
    if |rows| <= MAX_RECENT_MESSAGES then rows else rows[..MAX_RECENT_MESSAGES]
  }

  /** How many leading rows fit the character budget; the first one always does. */
  function Affordable(rows: seq<Message>, total: nat, any: bool): (k: nat)
    ensures k <= |rows|
  {
    if rows == [] then 0
    else if any && total + |rows[0].content| > MAX_RECENT_CHARS then 0
    else 1 + Affordable(rows[1..], total + |rows[0].content|, true)
  }

  function Reverse(rows: seq<Message>): (r: seq<Message>)
    ensures |r| == |rows|
  {
    if rows == [] then [] else Reverse(rows[1..]) + [rows[0]]
  }

  function Recent(messages: seq<Message>, turns: seq<Turn>, current: Uuid): seq<Message> {
    var rows := NewestHistory(messages, turns, current);
    Reverse(rows[..Affordable(rows, 0, false)])
  }

  ghost function LoadPending(rows: Rows): Result<Option<Resolver.Pending>, StoreError> {
    match rows.pending
    case None => Ok(None)
    case Some(p) =>
      match FindById(rows.turns, p.sourceTurn)
      case None => Ok(None)
      case Some(turn) =>
        match Clarification.FromJsonList(p.payload)
        case Err(e) => Err(InvalidCandidates)
        case Ok(cs) => Ok(Some(Resolver.Pending(p.mode, p.question, cs, p.sourceTurn, turn.no)))
  }

  // -- transactions ---------------------------------------------------------------

  /** The rows the begin transaction inserts, updates and deletes. */
  function OpenTurn(rows: Rows, owner: Owner, no: nat, clientTurn: Uuid, turn: Uuid, message: string): Rows {
    Rows(
      Some(Header(owner, no + 1)),
      rows.turns + [Turn(turn, clientTurn, no, Processing, None, None)],
      rows.messages + [Message(turn, User, UserQuery, message, NextOrdinal(rows.messages))],
      Focuses.Expire(rows.focuses, no),
      rows.pending)
  }

  /** The begin transaction; an error rolls it back. */
  ghost function BeginTurn(rows: Rows, owner: Owner, clientTurn: Uuid, turn: Uuid, message: string)
    : Result<(Rows, Begun), StoreError>
  {
    if rows.header.Some? && rows.header.value.owner != owner then Err(NotFound)
    else
      var no := if rows.header.None? then 1 else rows.header.value.nextTurnNo;
      var started := OpenTurn(rows, owner, no, clientTurn, turn, message);
      match LoadPending(started)
      case Err(e) => Err(e)
      case Ok(pending) =>
        Ok((started, Begun(turn, no, NextOrdinal(rows.messages),
                          Context(
                            Recent(started.messages, started.turns, turn), Focuses.Load(started.focuses), pending))))
  }

  function SetTurn(
      turns: seq<Turn>, id: Uuid, status: TurnStatus, errorCode: Option<string>, snapshot: Snapshot): seq<Turn> {
    seq(|turns|, i requires 0 <= i < |turns| =>
      if turns[i].id == id
      then turns[i].(status := status, errorCode := if errorCode.Some? then errorCode else turns[i].errorCode,
                     snapshot := Some(snapshot))
      else turns[i])
  }

  ghost function PersistClarification(
      rows: Rows, turn: Uuid, mode: Resolver.Mode, question: string,
      candidates: seq<Clarification.Candidate>, snapshot: Snapshot): Result<Rows, StoreError>
  {
    if !Clarification.ValidCandidates(candidates) then Err(InvalidCandidates)
    else Ok(rows.(
      messages := rows.messages
        + [Message(turn, Assistant, ClarificationMessage, question, NextOrdinal(rows.messages))],
      pending := Some(PendingRow(turn, mode, question, Clarification.JArray(Clarification.ToJsonList(candidates)))),
      turns := SetTurn(rows.turns, turn, NeedsClarification, None, snapshot)))
  }

  function PersistGroundedAnswer(
      rows: Rows, turn: Uuid, no: nat, status: TurnStatus, kind: MessageKind, content: string,
      upserts: seq<Focuses.Upsert>, updateFocus: bool, snapshot: Snapshot): Rows
  {
    rows.(
      messages := rows.messages + [Message(turn, Assistant, kind, content, NextOrdinal(rows.messages))],
      pending := None,
      focuses := if updateFocus && upserts != [] then Focuses.Prune(Focuses.UpsertAll(rows.focuses, upserts, no))
                 else rows.focuses,
      turns := SetTurn(rows.turns, turn, status, None, snapshot))
  }

  function MarkTurnFailed(rows: Rows, turn: Uuid, errorCode: string, snapshot: Snapshot): Rows {
    rows.(turns := SetTurn(rows.turns, turn, Failed, Some(errorCode), snapshot))
  }

  // -- what every transaction keeps --------------------------------------------------

  ghost predicate TurnsNumbered(rows: Rows) {
    && (forall i | 0 <= i < |rows.turns| :: rows.turns[i].no == i + 1)
    && (rows.header.None? ==> rows.turns == [])
    && (rows.header.Some? ==> rows.header.value.nextTurnNo == |rows.turns| + 1)
  }

  ghost predicate TurnsDistinct(turns: seq<Turn>) {
    forall i, j | 0 <= i < j < |turns| :: turns[i].id != turns[j].id && turns[i].clientTurn != turns[j].clientTurn
  }

  ghost predicate SnapshotsMatchStatus(turns: seq<Turn>) {
    forall i | 0 <= i < |turns| :: turns[i].snapshot.Some? <==> Terminal(turns[i].status)
  }

  /** The transcript the turns call for: a user message each, directly followed by the reply of an answered turn. */
  function Expected(turns: seq<Turn>): seq<(Uuid, Role)> {
    if turns == [] then []
    else
      var last := turns[|turns| - 1];
      Expected(turns[..|turns| - 1]) + [(last.id, User)]
      + (if Answered(last.status) then [(last.id, Assistant)] else [])
  }

  function Transcript(messages: seq<Message>): seq<(Uuid, Role)> {
    seq(|messages|, i requires 0 <= i < |messages| => (messages[i].turn, messages[i].role))
  }

  ghost predicate MessagesOrdered(messages: seq<Message>) {
    forall i | 0 <= i < |messages| :: messages[i].ordinal == i + 1
  }

  /** The last turn that was answered; turns after it are failed or still processing. */
  function LastAnswered(turns: seq<Turn>): Option<Turn> {
    if turns == [] then None
    else if Answered(turns[|turns| - 1].status) then Some(turns[|turns| - 1])
    else LastAnswered(turns[..|turns| - 1])
  }

  /** A clarification is open exactly when the last answered turn asked one, and then it is that turn's. */
  ghost predicate PendingTracksTurns(rows: Rows) {
    var last := LastAnswered(rows.turns);
    && (rows.pending.Some? <==> last.Some? && last.value.status == NeedsClarification)
    && (rows.pending.Some? ==> rows.pending.value.sourceTurn == last.value.id)
  }

  /** The stored candidates read back, and writing them again would store the same JSON. */
  ghost predicate PendingReadable(rows: Rows) {
    rows.pending.Some? ==>
      var loaded := Clarification.FromJsonList(rows.pending.value.payload);
      && loaded.Ok? && Resolver.Storable(loaded.value)
      && rows.pending.value.payload == Clarification.JArray(Clarification.ToJsonList(loaded.value))
  }

  ghost predicate FocusesGrounded(rows: Rows) {
    && |rows.focuses| <= Focuses.MAX_FOCUSES
    && Focuses.Keyed(rows.focuses)
    && forall f | f in rows.focuses ::
         && Resolver.CanonicalFocus(f)
         && 1 <= f.lastTurn <= |rows.turns| && rows.turns[f.lastTurn - 1].status == Completed
  }

  ghost predicate Sound(rows: Rows) {
    && TurnsNumbered(rows)
    && TurnsDistinct(rows.turns)
    && SnapshotsMatchStatus(rows.turns)
    && MessagesOrdered(rows.messages)
    && Transcript(rows.messages) == Expected(rows.turns)
    && PendingTracksTurns(rows)
    && PendingReadable(rows)
    && FocusesGrounded(rows)
  }

  /** The turn a lock holder is working on: the newest one, unfinished, and its user message is the newest message. */
  ghost predicate Open(rows: Rows, turn: Uuid) {
    && rows.turns != []
    && rows.turns[|rows.turns| - 1].id == turn
    && rows.turns[|rows.turns| - 1].status == Processing
  }

  /** Turns are never removed or renumbered, and one that has left PROCESSING never changes again. */
  ghost predicate Extends(rows: Rows, later: Rows) {
    && |rows.turns| <= |later.turns|
    && forall i | 0 <= i < |rows.turns| ::
         && later.turns[i].id == rows.turns[i].id
         && later.turns[i].clientTurn == rows.turns[i].clientTurn
         && later.turns[i].no == rows.turns[i].no
         && (Terminal(rows.turns[i].status) ==> later.turns[i] == rows.turns[i])
  }

  // -- lemmas about the reads -----------------------------------------------------------

  lemma {:induction false} OrderedMax(messages: seq<Message>)
    requires MessagesOrdered(messages)
    ensures NextOrdinal(messages) == |messages| + 1
  {
    if messages != [] { OrderedMax(messages[..|messages| - 1]); }
  }

  lemma {:induction false} FindTurnIs(turns: seq<Turn>, clientTurn: Uuid)
    ensures var r := FindTurn(turns, clientTurn);
      && (r.Some? ==> r.value in turns && r.value.clientTurn == clientTurn)
      && (r.None? ==> forall t | t in turns :: t.clientTurn != clientTurn)
  {
    if turns != [] { FindTurnIs(turns[1..], clientTurn); }
  }

  lemma {:induction false} FindByIdIs(turns: seq<Turn>, id: Uuid)
    ensures var r := FindById(turns, id);
      && (r.Some? ==> r.value in turns && r.value.id == id)
      && (r.None? ==> forall t | t in turns :: t.id != id)
  {
    if turns != [] { FindByIdIs(turns[1..], id); }
  }

  lemma {:induction false} LastAnsweredIs(turns: seq<Turn>)
    ensures var r := LastAnswered(turns);
      && (r.None? ==> forall t | t in turns :: !Answered(t.status))
      && (r.Some? ==> exists i | 0 <= i < |turns| ::
            turns[i] == r.value && Answered(turns[i].status)
            && forall j | i < j < |turns| :: !Answered(turns[j].status))
  {
    if turns != [] && !Answered(turns[|turns| - 1].status) {
      var init := turns[..|turns| - 1];
      LastAnsweredIs(init);
      if LastAnswered(init).Some? {
        var i :| 0 <= i < |init| && init[i] == LastAnswered(init).value && Answered(init[i].status)
                 && forall j | i < j < |init| :: !Answered(init[j].status);
        assert turns[i] == init[i];
        assert forall j | i < j < |init| :: turns[j] == init[j];
      }
    }
  }

  /** A stored clarification belongs to a turn that asked one, and every later turn failed or is unfinished. */
  lemma PendingPointsToLastQuestion(rows: Rows)
    requires Sound(rows) && rows.pending.Some?
    ensures exists i | 0 <= i < |rows.turns| ::
      && rows.turns[i].id == rows.pending.value.sourceTurn
      && rows.turns[i].status == NeedsClarification
      && forall j | i < j < |rows.turns| :: rows.turns[j].status == Failed || rows.turns[j].status == Processing
  {
    LastAnsweredIs(rows.turns);
    var i :| 0 <= i < |rows.turns| && rows.turns[i] == LastAnswered(rows.turns).value
             && forall j | i < j < |rows.turns| :: !Answered(rows.turns[j].status);
  }

  /** In a sound conversation the message after an answered turn's user message is that turn's reply. */
  lemma {:induction false} ReplyFollowsQuestion(turns: seq<Turn>, i: nat)
    requires i < |turns|
    ensures exists k | 0 <= k < |Expected(turns)| ::
      && Expected(turns)[k] == (turns[i].id, User)
      && (Answered(turns[i].status) ==> k + 1 < |Expected(turns)| && Expected(turns)[k + 1] == (turns[i].id, Assistant))
  {
    var init := turns[..|turns| - 1];
    var before := Expected(init);
    var last := turns[|turns| - 1];
    var tail := [(last.id, User)] + (if Answered(last.status) then [(last.id, Assistant)] else []);
    assert Expected(turns) == before + tail;
    if i == |turns| - 1 {
      assert Expected(turns)[|before|] == (turns[i].id, User);
      assert Answered(last.status) ==> (before + tail)[|before| + 1] == (last.id, Assistant);
    } else {
      ReplyFollowsQuestion(init, i);
      var k :| 0 <= k < |before| && before[k] == (init[i].id, User)
        && (Answered(init[i].status) ==> k + 1 < |before| && before[k + 1] == (init[i].id, Assistant));
      assert (before + tail)[k] == before[k];
      assert Answered(turns[i].status) ==> (before + tail)[k + 1] == before[k + 1];
    }
  }

  function TotalChars(rows: seq<Message>): nat {
    if rows == [] then 0 else |rows[0].content| + TotalChars(rows[1..])
  }

  /** The context takes the longest run of newest messages that fits the budget, but always the newest one. */
  lemma {:induction false} AffordableIsLongestRun(rows: seq<Message>, total: nat, any: bool)
    ensures var k := Affordable(rows, total, any);
      && (k == 0 || (k == 1 && !any) || total + TotalChars(rows[..k]) <= MAX_RECENT_CHARS)
      && (k < |rows| ==> (any || k >= 1) && total + TotalChars(rows[..k + 1]) > MAX_RECENT_CHARS)
  {
    if rows != [] && !(any && total + |rows[0].content| > MAX_RECENT_CHARS) {
      var rest, sum := rows[1..], total + |rows[0].content|;
      AffordableIsLongestRun(rest, sum, true);
      var k := Affordable(rest, sum, true);
      assert rows[..k + 1][1..] == rest[..k];
      if k < |rest| {
        assert rows[..k + 2][1..] == rest[..k + 1];
      }
      assert TotalChars(rest[..0]) == 0;
    } else if rows != [] {
      assert rows[..1][1..] == [];
    }
  }
}
