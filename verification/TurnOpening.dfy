/** What a turn begins with: its own rows, and the recent messages it is given (persistence/repository.py). */
module TurnOpening {
  import opened Prelude
  import Focuses
  import opened Conversation
  import opened ConversationInvariant

  // -- recent messages --------------------------------------------------------------

  /** The message belongs to another turn, and that turn has an assistant's reply. */
  ghost predicate IsHistory(rows: Rows, m: Message, current: Uuid) {
    && m.turn != current
    && exists t | t in rows.turns ::
         t.id == m.turn && (t.status == Completed || t.status == CannotAnswer || t.status == NeedsClarification)
  }

  ghost predicate HistoryExactly(rows: Rows, positions: seq<nat>, current: Uuid) {
    forall i | 0 <= i < |rows.messages| :: i in positions <==> IsHistory(rows, rows.messages[i], current)
  }

  lemma TurnOf(rows: Rows, m: Message, current: Uuid)
    requires TurnsDistinct(rows.turns)
    ensures var turn := FindById(rows.turns, m.turn);
      m.turn != current && turn.Some? && Answered(turn.value.status) <==> IsHistory(rows, m, current)
  {
    FindByIdIs(rows.turns, m.turn);
    var found := FindById(rows.turns, m.turn);
    if t :| t in rows.turns && t.id == m.turn {
      var i :| 0 <= i < |rows.turns| && rows.turns[i] == t;
      var j :| 0 <= j < |rows.turns| && rows.turns[j] == found.value;
      assert t == found.value;
    }
  }

  lemma {:induction false} HistoryIs(rows: Rows, messages: seq<Message>, current: Uuid) returns (positions: seq<nat>)
    requires TurnsDistinct(rows.turns)
    ensures Selects(messages, positions, History(messages, rows.turns, current))
    ensures forall i | 0 <= i < |messages| :: i in positions <==> IsHistory(rows, messages[i], current)
  {
    if messages == [] {
      positions := [];
    } else {
      var init, last := messages[..|messages| - 1], messages[|messages| - 1];
      positions := HistoryIs(rows, init, current);
      assert messages == init + [last];
      SelectsMore(init, positions, History(init, rows.turns, current), last);
      TurnOf(rows, last, current);
      forall i | 0 <= i < |init| ensures messages[i] == init[i] {}
      if IsHistory(rows, last, current) { positions := positions + [|init|]; }
    }
  }

  ghost predicate Rising(messages: seq<Message>) {
    forall i, j | 0 <= i < j < |messages| :: messages[i].ordinal < messages[j].ordinal
  }

  lemma {:induction false} InsertOldest(m: Message, rows: seq<Message>)
    requires forall x | x in rows :: m.ordinal < x.ordinal
    ensures Insert(m, rows, Newer) == rows + [m]
  {
    if rows != [] {
      assert rows[0] in rows;
      InsertOldest(m, rows[1..]);
      assert rows + [m] == [rows[0]] + (rows[1..] + [m]);
    }
  }

  /** Sorting by newest first reverses messages in the order of their ordinals. */
  lemma {:induction false} NewestFirst(messages: seq<Message>)
    requires Rising(messages)
    ensures SortBy(messages, Newer) == Reverse(messages)
  {
    if messages != [] {
      NewestFirst(messages[1..]);
      OldestIsLess(messages);
      InsertOldest(messages[0], SortBy(messages[1..], Newer));
    }
  }

  lemma OldestIsLess(messages: seq<Message>)
    requires messages != [] && Rising(messages)
    ensures forall x | x in SortBy(messages[1..], Newer) :: messages[0].ordinal < x.ordinal
  {
    var rest := messages[1..];
    SortByMembers(rest, Newer);
    forall x | x in SortBy(rest, Newer) ensures messages[0].ordinal < x.ordinal {
      var k :| 0 <= k < |rest| && rest[k] == x;
      assert messages[k + 1] == x;
    }
  }

  lemma {:induction false} ReverseJoin(a: seq<Message>, b: seq<Message>)
    ensures Reverse(a + b) == Reverse(b) + Reverse(a)
  {
    if a == [] {
      assert a + b == b;
    } else {
      assert (a + b)[1..] == a[1..] + b;
      ReverseJoin(a[1..], b);
    }
  }

  lemma {:induction false} ReverseTwice(rows: seq<Message>)
    ensures Reverse(Reverse(rows)) == rows
  {
    if rows != [] {
      ReverseTwice(rows[1..]);
      ReverseJoin(Reverse(rows[1..]), [rows[0]]);
      assert [rows[0]][1..] == [];
    }
  }

  /** The front of the reversed messages is their end reversed. */
  lemma EndOf(rows: seq<Message>, k: nat)
    requires k <= |rows|
    ensures Reverse(rows)[..k] == Reverse(rows[|rows| - k..]) && Reverse(Reverse(rows)[..k]) == rows[|rows| - k..]
  {
    assert rows == rows[..|rows| - k] + rows[|rows| - k..];
    ReverseJoin(rows[..|rows| - k], rows[|rows| - k..]);
    ReverseTwice(rows[|rows| - k..]);
  }

  lemma {:induction false} CharsJoin(a: seq<Message>, b: seq<Message>)
    ensures TotalChars(a + b) == TotalChars(a) + TotalChars(b)
  {
    if a == [] {
      assert a + b == b;
    } else {
      assert (a + b)[1..] == a[1..] + b;
      CharsJoin(a[1..], b);
    }
  }

  lemma {:induction false} CharsReversed(rows: seq<Message>)
    ensures TotalChars(Reverse(rows)) == TotalChars(rows)
  {
    if rows != [] {
      CharsReversed(rows[1..]);
      CharsJoin(Reverse(rows[1..]), [rows[0]]);
      assert [rows[0]][1..] == [];
    }
  }

  /** The end of the history is as long as it may be: at most six messages, and 4000 characters unless it is one. */
  ghost predicate LongestEnd(history: seq<Message>, recent: seq<Message>) {
    var k := |recent|;
    && k <= |history| && recent == history[|history| - k..]
    && k <= 6 && (history != [] ==> k >= 1) && (k <= 1 || TotalChars(recent) <= 4000)
    && (k == |history| || k == 6 || TotalChars(history[|history| - k - 1..]) > 4000)
  }

  lemma SelectedRise(rows: Rows, positions: seq<nat>, history: seq<Message>)
    requires MessagesOrdered(rows.messages) && Selects(rows.messages, positions, history)
    ensures Rising(history)
  {}

  lemma RecentIs(rows: Rows, current: Uuid) returns (positions: seq<nat>, history: seq<Message>)
    requires TurnsDistinct(rows.turns) && MessagesOrdered(rows.messages)
    ensures Selects(rows.messages, positions, history) && HistoryExactly(rows, positions, current)
    ensures LongestEnd(history, Recent(rows.messages, rows.turns, current))
  {
    positions := HistoryIs(rows, rows.messages, current);
    history := History(rows.messages, rows.turns, current);
    SelectedRise(rows, positions, history);
    var n := NewestIs(rows, current, history);
    NewestMirrors(history, n);
    AffordableEnd(NewestHistory(rows.messages, rows.turns, current), history);
  }

  lemma NewestIs(rows: Rows, current: Uuid, history: seq<Message>) returns (n: nat)
    requires history == History(rows.messages, rows.turns, current) && Rising(history)
    ensures n <= |history| && (n == 6 || n == |history| < 6)
    ensures NewestHistory(rows.messages, rows.turns, current) == Reverse(history)[..n]
  {
    NewestFirst(history);
    n := if |history| <= 6 then |history| else 6;
    assert Reverse(history)[..|history|] == Reverse(history);
  }

  /** The fronts of `newest` are the ends of `history` in reverse. */
  ghost predicate Mirrors(newest: seq<Message>, history: seq<Message>) {
    && |newest| <= |history|
    && forall k | 0 <= k <= |newest| :: MirrorsAt(newest, history, k)
  }

  ghost predicate MirrorsAt(newest: seq<Message>, history: seq<Message>, k: nat)
    requires k <= |newest| <= |history|
  {
    && Reverse(newest[..k]) == history[|history| - k..]
    && TotalChars(newest[..k]) == TotalChars(history[|history| - k..])
  }

  lemma NewestMirrors(history: seq<Message>, n: nat)
    requires n <= |history|
    ensures |Reverse(history)[..n]| == n && Mirrors(Reverse(history)[..n], history)
  {
    forall k | 0 <= k <= n ensures MirrorsAt(Reverse(history)[..n], history, k) { FrontIsEnd(history, n, k); }
  }

  /** What is affordable of the newest messages. */
  lemma AffordableEnd(newest: seq<Message>, history: seq<Message>)
    requires Mirrors(newest, history) && (|newest| == 6 || |newest| == |history| < 6)
    ensures LongestEnd(history, Reverse(newest[..Affordable(newest, 0, false)]))
  {
    var k := Affordable(newest, 0, false);
    AffordableIsLongestRun(newest, 0, false);
    MirroredEnd(newest, history, k);
  }

  lemma MirroredEnd(newest: seq<Message>, history: seq<Message>, k: nat)
    requires Mirrors(newest, history) && (|newest| == 6 || |newest| == |history| < 6) && k <= |newest|
    requires k <= 1 || TotalChars(newest[..k]) <= 4000
    requires k < |newest| ==> k >= 1 && TotalChars(newest[..k + 1]) > 4000
    ensures LongestEnd(history, Reverse(newest[..k]))
  {
    assert MirrorsAt(newest, history, k);
    assert k < |newest| ==> MirrorsAt(newest, history, k + 1);
    LongestWhen(history, Reverse(newest[..k]), |newest|, k);
  }

  lemma LongestWhen(history: seq<Message>, recent: seq<Message>, n: nat, k: nat)
    requires k <= n <= |history| && (n == 6 || n == |history| < 6) && recent == history[|history| - k..]
    requires k <= 1 || TotalChars(recent) <= 4000
    requires k < n ==> k >= 1 && TotalChars(history[|history| - k - 1..]) > 4000
    ensures LongestEnd(history, recent)
  {}

  lemma FrontIsEnd(history: seq<Message>, n: nat, k: nat)
    requires k <= n <= |history|
    ensures var end := history[|history| - k..];
      Reverse(Reverse(history)[..n][..k]) == end && TotalChars(Reverse(history)[..n][..k]) == TotalChars(end)
  {
    FrontOfFront(Reverse(history), n, k);
    EndOf(history, k);
    CharsReversed(history[|history| - k..]);
  }

  lemma FrontOfFront(rows: seq<Message>, n: nat, k: nat)
    requires k <= n <= |rows|
    ensures rows[..n][..k] == rows[..k]
  {}

  // -- the turn's own rows -----------------------------------------------------------------

  /**
    A begun turn is the next one and comes with its user message; focuses idle for more than five turns are gone, and
    the context holds the rest in order, the open question, and the end of the history before this turn.
   */
  lemma BeginOpens(rows: Rows, owner: Owner, clientTurn: Uuid, turn: Uuid, message: string)
    returns (after: Rows, begun: Begun, positions: seq<nat>, history: seq<Message>)
    requires Sound(rows) && forall t | t in rows.turns :: t.id != turn && t.clientTurn != clientTurn
    requires rows.header.None? || rows.header.value.owner == owner
    ensures BeginTurn(rows, owner, clientTurn, turn, message) == Ok((after, begun))
    ensures after.header == Some(Header(owner, |rows.turns| + 2))
    ensures begun.turn == turn && begun.no == |rows.turns| + 1 && begun.ordinal == |rows.messages| + 1
    ensures after.turns == rows.turns + [Turn(turn, clientTurn, begun.no, Processing, None, None)]
    ensures after.messages == rows.messages + [Message(turn, User, UserQuery, message, begun.ordinal)]
    ensures after.pending == rows.pending && LoadPending(after) == Ok(begun.context.pending)
    ensures forall f :: f in after.focuses <==> f in rows.focuses && begun.no - f.lastTurn <= 5
    ensures forall f :: f in begun.context.focuses <==> f in after.focuses
    ensures SortedBy(begun.context.focuses, Focuses.Before)
    ensures Selects(after.messages, positions, history) && HistoryExactly(after, positions, turn)
    ensures LongestEnd(history, begun.context.recent)
  {
    BeginKeepsSound(rows, owner, clientTurn, turn, message);
    after, begun := BeginWrites(rows, owner, clientTurn, turn, message);
    Focuses.LoadIsExact(rows.focuses, |rows.turns| + 1);
    positions, history := RecentIs(after, turn);
  }

  lemma BeginWrites(rows: Rows, owner: Owner, clientTurn: Uuid, turn: Uuid, message: string)
    returns (after: Rows, begun: Begun)
    requires Sound(rows) && BeginTurn(rows, owner, clientTurn, turn, message).Ok?
    ensures BeginTurn(rows, owner, clientTurn, turn, message) == Ok((after, begun))
    ensures after.header == Some(Header(owner, |rows.turns| + 2))
    ensures begun.ordinal == |rows.messages| + 1
    ensures after.messages == rows.messages + [Message(turn, User, UserQuery, message, begun.ordinal)]
    ensures after.pending == rows.pending && after.focuses == Focuses.Expire(rows.focuses, |rows.turns| + 1)
    ensures begun.context.focuses == Focuses.Load(after.focuses)
    ensures begun.context.recent == Recent(after.messages, after.turns, turn)
  {
    OrderedMax(rows.messages);
    var started := OpenTurn(rows, owner, |rows.turns| + 1, clientTurn, turn, message);
    var context := Context(
      Recent(started.messages, started.turns, turn), Focuses.Load(started.focuses), LoadPending(started).value);
    after, begun := started, Begun(turn, |rows.turns| + 1, |rows.messages| + 1, context);
  }
}
