/** The repository operations run under the conversation lock, as updates in place of the conversation's tables. */
module LockedTurn {
  import opened Prelude
  import Clarification
  import Focuses
  import Resolver
  import opened Conversation

  class Tables {
    var header: Option<Header>
    var turns: seq<Turn>
    var messages: seq<Message>
    var focuses: seq<Focuses.Row>
    var pending: Option<PendingRow>

    constructor ()
      ensures State() == NO_ROWS
    {
      header, turns, messages, focuses, pending := None, [], [], [], None;
    }

    function State(): Rows
      reads this
    {
      Rows(header, turns, messages, focuses, pending)
    }

    method FindTurnByClientId(clientTurn: Uuid) returns (r: Option<Turn>)
      ensures r == FindTurn(turns, clientTurn)
    {
      for i := 0 to |turns|
        invariant FindTurn(turns, clientTurn) == FindTurn(turns[i..], clientTurn)
      {
        if turns[i].clientTurn == clientTurn {
          return Some(turns[i]);
        }
      }
      r := None;
    }

    /** On an error the transaction rolls back and nothing has changed. */
    method BeginTurnAndLoadContext(owner: Owner, clientTurn: Uuid, turn: Uuid, message: string)
      returns (r: Result<Begun, StoreError>)
      modifies this
      ensures var spec := BeginTurn(old(State()), owner, clientTurn, turn, message);
        && (spec.Err? ==> r == Err(spec.error) && State() == old(State()))
        && (spec.Ok? ==> r == Ok(spec.value.1) && State() == spec.value.0)
    {
      if header.Some? && header.value.owner != owner {
        return Err(NotFound);
      }
      var saved := State();
      var no := if header.None? then 1 else header.value.nextTurnNo;
      var ordinal := NextOrdinal(messages);
      var recent, loadedFocuses := OpenAndLoad(owner, no, clientTurn, turn, message);
      var loadedPending := LoadPendingClarification();
      match loadedPending
      case Err(e) =>
        Rollback(saved);
        r := Err(e);
      case Ok(p) =>
        r := Ok(Begun(turn, no, ordinal, Context(recent, loadedFocuses, p)));
    }

    method Rollback(saved: Rows)
      modifies this
      ensures State() == saved
    {
      header, turns, messages, focuses, pending
        := saved.header, saved.turns, saved.messages, saved.focuses, saved.pending;
    }

    /** The writes of the begin transaction and the reads that follow them. */
    method OpenAndLoad(owner: Owner, no: nat, clientTurn: Uuid, turn: Uuid, message: string)
      returns (recent: seq<Message>, loaded: seq<Focuses.Row>)
      modifies this
      ensures State() == OpenTurn(old(State()), owner, no, clientTurn, turn, message)
      ensures recent == Recent(messages, turns, turn) && loaded == Focuses.Load(focuses)
    {
      InsertTurn(owner, no, clientTurn, turn, message);
      recent := LoadRecentMessages(turn);
      loaded := LoadFocuses(no);
    }

    method InsertTurn(owner: Owner, no: nat, clientTurn: Uuid, turn: Uuid, message: string)
      modifies this
      ensures State() == OpenTurn(old(State()), owner, no, clientTurn, turn, message).(focuses := old(focuses))
    {
      header := Some(Header(owner, no + 1));
      turns := turns + [Turn(turn, clientTurn, no, Processing, None, None)];
      messages := messages + [Message(turn, User, UserQuery, message, NextOrdinal(messages))];
    }

    method LoadRecentMessages(current: Uuid) returns (recent: seq<Message>)
      ensures recent == Recent(messages, turns, current)
    {
      var selected := TakeAffordable(NewestHistory(messages, turns, current));
      recent := Reverse(selected);
    }

    method TakeAffordable(rows: seq<Message>) returns (selected: seq<Message>)
      ensures selected == rows[..Affordable(rows, 0, false)]
    {
      selected := [];
      var total: nat := 0;
      var i := 0;
      while i < |rows|
        invariant 0 <= i <= |rows| && selected == rows[..i]
        invariant Affordable(rows, 0, false) == i + Affordable(rows[i..], total, i > 0)
      {
        AffordableStep(rows, i, total);
        var length := |rows[i].content|;
        if selected != [] && total + length > MAX_RECENT_CHARS {
          break;
        }
        selected := selected + [rows[i]];
        total := total + length;
        i := i + 1;
      }
    }

    /** Deletes the focuses idle for too long and reads back the rest in order, losing none of a pruned table. */
    method LoadFocuses(currentTurn: int) returns (loaded: seq<Focuses.Row>)
      modifies this`focuses
      ensures focuses == Focuses.Expire(old(focuses), currentTurn) && loaded == Focuses.Load(focuses)
      ensures forall f :: f in focuses <==> f in old(focuses) && currentTurn - f.lastTurn <= Focuses.TTL_USER_TURNS
      ensures SortedBy(loaded, Focuses.Before) && forall f | f in loaded :: f in focuses
      ensures Focuses.Keyed(old(focuses)) && |old(focuses)| <= Focuses.MAX_FOCUSES ==>
        Focuses.Keyed(loaded) && forall f :: f in loaded <==> f in focuses
    {
      focuses := Focuses.Expire(focuses, currentTurn);
      loaded := Focuses.Load(focuses);
      Focuses.BeforeIsTotal();
      SortBySorted(focuses, Focuses.Before);
      SortByMembers(focuses, Focuses.Before);
      if Focuses.Keyed(old(focuses)) && |old(focuses)| <= Focuses.MAX_FOCUSES {
        Focuses.LoadIsExact(old(focuses), currentTurn);
      }
    }

    method LoadPendingClarification() returns (r: Result<Option<Resolver.Pending>, StoreError>)
      ensures r == LoadPending(State())
    {
      if pending.None? {
        return Ok(None);
      }
      var source := FindById(turns, pending.value.sourceTurn);
      if source.None? {
        return Ok(None);
      }
      if !pending.value.payload.JArray? {
        return Err(InvalidCandidates);
      }
      var read := Clarification.FromJsonItems(pending.value.payload.items);
      if read.Err? {
        return Err(InvalidCandidates);
      }
      var checked := Clarification.ValidateCandidates(read.value);
      if checked.Err? {
        return Err(InvalidCandidates);
      }
      r := Ok(Some(Resolver.Pending(pending.value.mode, pending.value.question, checked.value,
                                    pending.value.sourceTurn, source.value.no)));
    }

    method SetTurnStatus(turn: Uuid, status: TurnStatus, errorCode: Option<string>, snapshot: Snapshot)
      modifies this`turns
      ensures turns == SetTurn(old(turns), turn, status, errorCode, snapshot)
    {
      turns := SetTurn(turns, turn, status, errorCode, snapshot);
    }

    /** Invalid candidates raise before the transaction is opened. */
    method PersistClarificationTurn(turn: Uuid, mode: Resolver.Mode, question: string,
                                    candidates: seq<Clarification.Candidate>, snapshot: Snapshot)
      returns (r: Result<(), StoreError>)
      modifies this
      ensures var spec := PersistClarification(old(State()), turn, mode, question, candidates, snapshot);
        && (spec.Err? ==> r == Err(spec.error) && State() == old(State()))
        && (spec.Ok? ==> r == Ok(()) && State() == spec.value)
    {
      var valid := Clarification.ValidateCandidates(candidates);
      if valid.Err? {
        return Err(InvalidCandidates);
      }
      var payload := Clarification.JArray(Clarification.ToJsonList(valid.value));
      messages := messages + [Message(turn, Assistant, ClarificationMessage, question, NextOrdinal(messages))];
      pending := Some(PendingRow(turn, mode, question, payload));
      SetTurnStatus(turn, NeedsClarification, None, snapshot);
      r := Ok(());
    }

    method PersistGroundedAnswerTurn(turn: Uuid, no: nat, status: TurnStatus, kind: MessageKind, content: string,
                                     upserts: seq<Focuses.Upsert>, updateFocus: bool, snapshot: Snapshot)
      modifies this
      ensures State()
              == PersistGroundedAnswer(old(State()), turn, no, status, kind, content, upserts, updateFocus, snapshot)
    {
      messages := messages + [Message(turn, Assistant, kind, content, NextOrdinal(messages))];
      pending := None;
      CommitFocuses(upserts, no, updateFocus);
      SetTurnStatus(turn, status, None, snapshot);
    }

    method CommitFocuses(upserts: seq<Focuses.Upsert>, no: nat, updateFocus: bool)
      modifies this`focuses
      ensures focuses == if updateFocus && upserts != []
                         then Focuses.Prune(Focuses.UpsertAll(old(focuses), upserts, no))
                         else old(focuses)
    {
      if updateFocus && upserts != [] {
        UpsertFocuses(upserts, no);
        PruneFocuses();
      }
    }

    method MarkFailed(turn: Uuid, errorCode: string, snapshot: Snapshot)
      modifies this
      ensures State() == MarkTurnFailed(old(State()), turn, errorCode, snapshot)
    {
      SetTurnStatus(turn, Failed, Some(errorCode), snapshot);
    }

    method UpsertFocuses(upserts: seq<Focuses.Upsert>, no: nat)
      modifies this`focuses
      ensures focuses == Focuses.UpsertAll(old(focuses), upserts, no)
    {
      for i := 0 to |upserts|
        invariant focuses == Focuses.UpsertAll(old(focuses), upserts[..i], no)
      {
        focuses := Focuses.UpsertOne(focuses, upserts[i], no);
        assert upserts[..i + 1][..i] == upserts[..i];
      }
      assert upserts[..|upserts|] == upserts;
    }

    method PruneFocuses()
      modifies this`focuses
      ensures focuses == Focuses.Prune(old(focuses))
    {
      focuses := Focuses.Prune(focuses);
    }
  }

  /** Whether the next newest message is taken into the context as well. */
  lemma AffordableStep(rows: seq<Message>, i: nat, total: nat)
    requires i < |rows|
    ensures Affordable(rows[i..], total, i > 0)
            == if i > 0 && total + |rows[i].content| > MAX_RECENT_CHARS then 0
               else 1 + Affordable(rows[i + 1..], total + |rows[i].content|, true)
  {
    assert rows[i..][1..] == rows[i + 1..];
  }
}
