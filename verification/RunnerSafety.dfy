/** What holds after every interleaving of calls, timeouts, cancellations, thread progress and shutdown. */
module RunnerSafety {
  import opened Prelude
  import opened RetrievalRunner

  // -- the semaphore --------------------------------------------------------------

  function Held(w: Waiter): nat { if w.wait.Granted? || w.wait.Revoked? then 1 else 0 }

  lemma {:induction false} HoldingAt(ws: seq<Waiter>, i: nat, w: Waiter)
    requires i < |ws|
    ensures Holding(ws[i := w]) == Holding(ws) - Held(ws[i]) + Held(w)
    ensures Holding(Without(ws, i)) == Holding(ws) - Held(ws[i])
  {
    if i == 0 {
      assert Without(ws, 0) == ws[1..];
      assert ws[0 := w][1..] == ws[1..];
    } else {
      HoldingAt(ws[1..], i - 1, w);
      assert ws[i := w][1..] == ws[1..][i - 1 := w];
      assert Without(ws, i)[1..] == Without(ws[1..], i - 1);
    }
  }

  lemma {:induction false} HoldingAppend(ws: seq<Waiter>, w: Waiter)
    ensures Holding(ws + [w]) == Holding(ws) + Held(w)
  {
    if ws != [] {
      HoldingAppend(ws[1..], w);
      assert (ws + [w])[1..] == ws[1..] + [w];
    } else {
      assert (ws + [w])[1..] == [];
    }
  }

  predicate AnyWaiting(ws: seq<Waiter>) { exists i | 0 <= i < |ws| :: ws[i].wait == Waiting }

  /** Some waiter will run again on its own. */
  predicate SomeoneAwake(ws: seq<Waiter>) { exists i | 0 <= i < |ws| :: ws[i].wait != Waiting }

  /** Whenever a permit is free and someone waits for one, a waiter is about to run that will hand it on. */
  predicate NoLostWakeup(s: State) {
    s.free > 0 && AnyWaiting(s.waiters) ==> SomeoneAwake(s.waiters)
  }

  /** Waking changes nothing but who holds a permit. */
  ghost predicate Woken(s: State, t: State) {
    && t == s.(free := t.free, waiters := t.waiters)
    && t.free + Holding(t.waiters) == s.free + Holding(s.waiters)
    && |t.waiters| == |s.waiters|
    && forall i | 0 <= i < |s.waiters| ::
         t.waiters[i] == s.waiters[i]
           || (s.waiters[i].wait == Waiting && t.waiters[i] == s.waiters[i].(wait := Granted))
  }

  lemma WakeNextWakes(s: State)
    ensures Woken(s, WakeNext(s))
  {
    var first := FirstWaiting(s.waiters);
    if s.free > 0 && first.Some? {
      HoldingAt(s.waiters, first.value, s.waiters[first.value].(wait := Granted));
    }
  }

  lemma {:induction false} WakeAllWakes(s: State)
    ensures Woken(s, WakeAll(s)) && (WakeAll(s).free == 0 || !AnyWaiting(WakeAll(s).waiters))
    decreases s.free
  {
    if s.free != 0 && FirstWaiting(s.waiters).Some? {
      WakeNextWakes(s);
      WakeAllWakes(WakeNext(s));
    }
  }

  lemma ReleaseWakes(s: State)
    ensures Woken(s.(free := s.free + 1), Release(s)) && NoLostWakeup(Release(s))
  {
    WakeNextWakes(s.(free := s.free + 1));
    var first := FirstWaiting(s.waiters);
    if first.Some? { assert Release(s).waiters[first.value].wait == Granted; }
  }

  // -- the calls ----------------------------------------------------------------------

  ghost predicate Conserved(s: State, max: nat) {
    s.free + Holding(s.waiters) + |s.active| == max
  }

  /** Every accepted call is either tracked or settled, and what is settled is over for good. */
  ghost predicate Tracked(s: State) {
    && NoDup(s.active)
    && (forall id :: id in s.futures <==> id in s.active || id in s.settled)
    && (forall id | id in s.active :: id !in s.settled)
    && (forall id | id in s.settled :: s.settled[id] == s.futures[id] && IsDone(s.futures[id]))
    && (!s.accepting ==> forall id | id in s.futures :: s.futures[id] != Queued)
  }

  ghost predicate WaitersParked(s: State) {
    && (forall i, j | 0 <= i < j < |s.waiters| :: s.waiters[i].id != s.waiters[j].id)
    && (forall i | 0 <= i < |s.waiters| :: s.waiters[i].id in s.callers && s.callers[s.waiters[i].id] == Parked)
    && (forall id | id in s.callers && s.callers[id] == Parked :: Position(s.waiters, id).Some?)
  }

  predicate OutcomeFits(s: State, id: CallId, outcome: Outcome) {
    match outcome
    case Succeeded => id in s.settled && s.settled[id] == Finished(Value)
    case Failed => id in s.settled && s.settled[id] == Finished(OtherError)
    case Closed => id !in s.futures && !s.accepting
    case Refused => id !in s.futures
    case TimedOut => id in s.futures ==> s.futures[id] != Queued
    case CancelledCall => id in s.futures ==> s.futures[id] != Queued
  }

  /** A caller that waits for a result has submitted; one that has returned was told the truth. */
  ghost predicate CallersFaithful(s: State) {
    && (forall id | id in s.futures :: id in s.callers && s.callers[id] != Parked)
    && (forall id | id in s.callers && s.callers[id].Awaiting? :: id in s.futures)
    && (forall id | id in s.callers && s.callers[id].Returned? :: OutcomeFits(s, id, s.callers[id].outcome))
  }

  ghost predicate Inv(s: State, max: nat) {
    Conserved(s, max) && NoLostWakeup(s) && Tracked(s) && WaitersParked(s) && CallersFaithful(s)
  }

  lemma InitInv(max: nat)
    ensures Inv(Init(max), max)
  {}

  lemma PositionIn(ws: seq<Waiter>, i: nat)
    requires i < |ws|
    ensures Position(ws, ws[i].id).Some?
  {}

  lemma WokenKeepsParked(s: State, t: State)
    requires Woken(s, t) && WaitersParked(s)
    ensures WaitersParked(t)
  {
    forall id | id in t.callers && t.callers[id] == Parked ensures Position(t.waiters, id).Some? {
      PositionIn(t.waiters, Position(s.waiters, id).value);
    }
  }

  /** The part of the invariant that leaves permits aside. */
  ghost predicate CallsInv(s: State) {
    Tracked(s) && WaitersParked(s) && CallersFaithful(s)
  }

  lemma WokenKeepsCalls(s: State, t: State)
    requires Woken(s, t) && CallsInv(s)
    ensures CallsInv(t)
  {
    WokenKeepsParked(s, t);
  }

  lemma RemoveNoDup(ids: seq<CallId>, id: CallId)
    requires NoDup(ids) && id in ids
    ensures NoDup(Remove(ids, id)) && |Remove(ids, id)| == |ids| - 1
    ensures forall x :: x in Remove(ids, id) <==> x in ids && x != id
  {
    if ids[0] != id {
      assert ids == [ids[0]] + ids[1..];
      RemoveNoDup(ids[1..], id);
      assert ids[0] !in ids[1..];
    } else {
      assert ids == [id] + ids[1..];
      assert forall i | 0 <= i < |ids[1..]| :: ids[1..][i] == ids[i + 1];
    }
  }

  lemma {:induction false} CancelAllIs(futures: map<CallId, FutureState>, ids: seq<CallId>)
    ensures var r := CancelAll(futures, ids);
      && r.Keys == futures.Keys
      && forall id | id in futures :: r[id] == if id in ids && futures[id] == Queued then Cancelled else futures[id]
  {
    if ids != [] {
      assert ids == ids[..|ids| - 1] + [ids[|ids| - 1]];
      CancelAllIs(futures, ids[..|ids| - 1]);
    }
  }

  // -- the pieces of a step ---------------------------------------------------------------

  /** A caller that is out of the queue and holds a permit; everything else is as usual. */
  ghost predicate Entering(s: State, max: nat, id: CallId) {
    && s.free + Holding(s.waiters) + |s.active| + 1 == max && NoLostWakeup(s)
    && id !in s.futures && Tracked(s) && FaithfulBut(s, id) && WaitersParked(Forget(s, id))
  }

  /** `CallersFaithful` for every caller except `but`. */
  ghost predicate FaithfulBut(s: State, but: CallId) {
    && (forall id | id in s.futures && id != but :: id in s.callers && s.callers[id] != Parked)
    && (forall id | id in s.callers && id != but && s.callers[id].Awaiting? :: id in s.futures)
    && (forall id | id in s.callers && id != but && s.callers[id].Returned? ::
          OutcomeFits(s, id, s.callers[id].outcome))
  }

  function Forget(s: State, id: CallId): State { s.(callers := s.callers - {id}) }

  lemma SubmitKeeps(s: State, max: nat, id: CallId)
    requires Entering(s, max, id) && s.accepting
    ensures Inv(Proceed(s, id, true), max)
  {
    var t := Proceed(s, id, true);
    assert id !in s.active && id !in s.settled;
    assert Tracked(t);
    assert WaitersParked(t) by {
      forall x | x in t.callers && t.callers[x] == Parked ensures Position(t.waiters, x).Some? {
        assert x in Forget(s, id).callers;
      }
      forall i | 0 <= i < |t.waiters| ensures t.waiters[i].id in t.callers && t.callers[t.waiters[i].id] == Parked {
        assert s.waiters[i].id in Forget(s, id).callers;
      }
    }
    assert CallersFaithful(t) by { SubmitKeepsCallers(s, id); }
  }

  lemma SubmitKeepsCallers(s: State, id: CallId)
    requires s.accepting && id !in s.futures && Tracked(s) && FaithfulBut(s, id)
    ensures CallersFaithful(Proceed(s, id, true))
  {
    var t := Proceed(s, id, true);
    forall x | x in t.callers && t.callers[x].Returned? ensures OutcomeFits(t, x, t.callers[x].outcome) {
      assert OutcomeFits(s, x, s.callers[x].outcome);
    }
  }

  /** A caller that leaves with an outcome that fits keeps what is known about the calls. */
  lemma LeaveKeepsCalls(s: State, id: CallId, outcome: Outcome)
    requires Tracked(s) && FaithfulBut(s, id) && WaitersParked(Forget(s, id)) && OutcomeFits(s, id, outcome)
    ensures CallsInv(s.(callers := s.callers[id := Returned(outcome)]))
  {
    LeaveKeepsFaithful(s, id, outcome);
    LeaveKeepsParked(s, id, outcome);
  }

  lemma LeaveKeepsFaithful(s: State, id: CallId, outcome: Outcome)
    requires FaithfulBut(s, id) && OutcomeFits(s, id, outcome)
    ensures CallersFaithful(s.(callers := s.callers[id := Returned(outcome)]))
  {
    var t := s.(callers := s.callers[id := Returned(outcome)]);
    forall x | x in t.callers && t.callers[x].Returned? ensures OutcomeFits(t, x, t.callers[x].outcome) {
      if x != id { assert OutcomeFits(s, x, s.callers[x].outcome); }
    }
  }

  lemma LeaveKeepsParked(s: State, id: CallId, outcome: Outcome)
    requires WaitersParked(Forget(s, id))
    ensures WaitersParked(s.(callers := s.callers[id := Returned(outcome)]))
  {
    var t := s.(callers := s.callers[id := Returned(outcome)]);
    forall i | 0 <= i < |t.waiters| ensures t.waiters[i].id in t.callers && t.callers[t.waiters[i].id] == Parked {
      assert s.waiters[i].id in Forget(s, id).callers;
    }
    forall x | x in t.callers && t.callers[x] == Parked ensures Position(t.waiters, x).Some? {
      assert x in Forget(s, id).callers && Forget(s, id).callers[x] == Parked;
    }
  }

  lemma RefuseKeeps(s: State, max: nat, id: CallId, outcome: Outcome)
    requires Entering(s, max, id) && OutcomeFits(s, id, outcome)
    ensures Inv(Release(s).(callers := s.callers[id := Returned(outcome)]), max)
  {
    var base := s.(callers := s.callers[id := Returned(outcome)]);
    LeaveKeepsCalls(s, id, outcome);
    ReleaseKeeps(base, max);
    ReleaseCommutes(s, base.callers);
  }

  lemma ReleaseCommutes(s: State, callers: map<CallId, Caller>)
    ensures Release(s).(callers := callers) == Release(s.(callers := callers))
  {}

  lemma ReleaseKeeps(s: State, max: nat)
    requires s.free + Holding(s.waiters) + |s.active| + 1 == max && CallsInv(s)
    ensures Inv(Release(s), max)
  {
    ReleaseWakes(s);
    WokenKeepsCalls(s.(free := s.free + 1), Release(s));
  }

  /** A caller holding a permit outside the queue either submits or gives the permit back. */
  lemma ProceedKeeps(s: State, max: nat, id: CallId, accepted: bool)
    requires Entering(s, max, id)
    ensures Inv(Proceed(s, id, accepted), max)
  {
    if s.accepting && accepted {
      SubmitKeeps(s, max, id);
    } else {
      RefuseKeeps(s, max, id, if s.accepting then Refused else Closed);
    }
  }

  // -- the steps ----------------------------------------------------------------------------

  lemma CallKeeps(s: State, max: nat, id: CallId, accepted: bool)
    requires Inv(s, max) && id !in s.callers
    ensures Inv(StartCall(s, id, accepted), max)
  {
    if Locked(s) {
      QueueKeeps(s, max, id);
    } else {
      TakePermit(s, max, id);
      ProceedKeeps(s.(free := s.free - 1), max, id, accepted);
    }
  }

  lemma TakePermit(s: State, max: nat, id: CallId)
    requires Inv(s, max) && id !in s.callers && !Locked(s)
    ensures Entering(s.(free := s.free - 1), max, id)
  {
    assert Forget(s.(free := s.free - 1), id) == s.(free := s.free - 1);
    FreeIsIrrelevant(s, s.free - 1);
    NoneLeftWaiting(s, s.free - 1);
  }

  lemma NoneLeftWaiting(s: State, free: nat)
    requires !Locked(s)
    ensures NoLostWakeup(s.(free := free))
  {
    assert forall i | 0 <= i < |s.waiters| :: s.waiters[i].wait.Dropped?;
  }

  lemma QueueKeeps(s: State, max: nat, id: CallId)
    requires Inv(s, max) && id !in s.callers && Locked(s)
    ensures Inv(s.(waiters := s.waiters + [Waiter(id, Waiting)], callers := s.callers[id := Parked]), max)
  {
    HoldingAppend(s.waiters, Waiter(id, Waiting));
    QueueKeepsWakeup(s, id);
    QueueKeepsParked(s, id);
    QueueKeepsFaithful(s, id);
  }

  lemma QueueKeepsWakeup(s: State, id: CallId)
    requires NoLostWakeup(s) && Locked(s)
    ensures s.free > 0 ==> SomeoneAwake(s.waiters + [Waiter(id, Waiting)])
  {
    if s.free > 0 {
      var i :| 0 <= i < |s.waiters| && !s.waiters[i].wait.Dropped?;
      if s.waiters[i].wait == Waiting { assert AnyWaiting(s.waiters); }
      var j :| 0 <= j < |s.waiters| && s.waiters[j].wait != Waiting;
      assert (s.waiters + [Waiter(id, Waiting)])[j].wait != Waiting;
    }
  }

  lemma QueueKeepsParked(s: State, id: CallId)
    requires WaitersParked(s) && id !in s.callers
    ensures WaitersParked(s.(waiters := s.waiters + [Waiter(id, Waiting)], callers := s.callers[id := Parked]))
  {
    var t := s.(waiters := s.waiters + [Waiter(id, Waiting)], callers := s.callers[id := Parked]);
    PositionIn(t.waiters, |s.waiters|);
    forall x | x in t.callers && t.callers[x] == Parked ensures Position(t.waiters, x).Some? {
      if x != id { PositionIn(t.waiters, Position(s.waiters, x).value); }
    }
  }

  lemma QueueKeepsFaithful(s: State, id: CallId)
    requires CallersFaithful(s) && id !in s.callers
    ensures CallersFaithful(s.(waiters := s.waiters + [Waiter(id, Waiting)], callers := s.callers[id := Parked]))
  {
    var t := s.(waiters := s.waiters + [Waiter(id, Waiting)], callers := s.callers[id := Parked]);
    forall x | x in t.callers && t.callers[x].Returned? ensures OutcomeFits(t, x, t.callers[x].outcome) {
      assert OutcomeFits(s, x, s.callers[x].outcome);
    }
  }

  /** Taking a waiter out of the queue leaves its caller unaccounted for and nothing else. */
  lemma LeaveQueue(s: State, i: nat)
    requires CallsInv(s) && i < |s.waiters|
    ensures var id := s.waiters[i].id;
      var left := s.(waiters := Without(s.waiters, i));
      && id !in s.futures && id in s.callers && s.callers[id] == Parked
      && Tracked(left) && FaithfulBut(left, id) && WaitersParked(Forget(left, id))
  {
    assert s.callers[s.waiters[i].id] == Parked;
    LeaveQueueFaithful(s, i);
    LeaveQueueParked(s, i);
  }

  lemma LeaveQueueFaithful(s: State, i: nat)
    requires CallersFaithful(s) && i < |s.waiters|
    ensures FaithfulBut(s.(waiters := Without(s.waiters, i)), s.waiters[i].id)
  {
    var left := s.(waiters := Without(s.waiters, i));
    forall x | x in left.callers && left.callers[x].Returned? ensures OutcomeFits(left, x, left.callers[x].outcome) {
      assert OutcomeFits(s, x, s.callers[x].outcome);
    }
  }

  lemma LeaveQueueParked(s: State, i: nat)
    requires WaitersParked(s) && i < |s.waiters|
    ensures WaitersParked(Forget(s.(waiters := Without(s.waiters, i)), s.waiters[i].id))
  {
    var left := Forget(s.(waiters := Without(s.waiters, i)), s.waiters[i].id);
    forall x | x in left.callers && left.callers[x] == Parked ensures Position(left.waiters, x).Some? {
      StillWaiting(s.waiters, i, Position(s.waiters, x).value);
    }
  }

  lemma StillWaiting(ws: seq<Waiter>, i: nat, j: nat)
    requires i < |ws| && j < |ws| && i != j
    ensures Position(Without(ws, i), ws[j].id).Some?
  {
    PositionIn(Without(ws, i), if j < i then j else j - 1);
  }

  lemma ResumeKeeps(s: State, max: nat, i: nat, accepted: bool)
    requires Inv(s, max) && i < |s.waiters| && s.waiters[i].wait != Waiting
    ensures Inv(ResumeWaiter(s, i, accepted), max)
  {
    if s.waiters[i].wait.Granted? {
      ResumeGrantedKeeps(s, max, i, accepted);
    } else {
      ResumeCancelledKeeps(s, max, i, accepted);
    }
  }

  lemma ResumeGrantedKeeps(s: State, max: nat, i: nat, accepted: bool)
    requires Inv(s, max) && i < |s.waiters| && s.waiters[i].wait.Granted?
    ensures Inv(ResumeWaiter(s, i, accepted), max)
  {
    var id := s.waiters[i].id;
    var left := s.(waiters := Without(s.waiters, i));
    LeaveQueue(s, i);
    HoldingAt(s.waiters, i, s.waiters[i]);
    WakeAllWakes(left);
    WokenKeepsFaithful(left, WakeAll(left), id);
    WokenKeepsParked(Forget(left, id), Forget(WakeAll(left), id));
    ProceedKeeps(WakeAll(left), max, id, accepted);
  }

  lemma ResumeCancelledKeeps(s: State, max: nat, i: nat, accepted: bool)
    requires Inv(s, max) && i < |s.waiters| && (s.waiters[i].wait.Dropped? || s.waiters[i].wait.Revoked?)
    ensures Inv(ResumeWaiter(s, i, accepted), max)
  {
    LeaveCancelledKeepsCalls(s, i);
    HoldingAt(s.waiters, i, s.waiters[i]);
    WakeAllKeeps(LeaveCancelled(s, i), max);
  }

  lemma LeaveCancelledKeepsCalls(s: State, i: nat)
    requires CallsInv(s) && i < |s.waiters| && (s.waiters[i].wait.Dropped? || s.waiters[i].wait.Revoked?)
    ensures CallsInv(LeaveCancelled(s, i))
  {
    var outcome := OutcomeOf(s.waiters[i].wait.reason);
    LeaveQueueKeepsCalls(s, i, outcome);
    FreeIsIrrelevant(s.(waiters := Without(s.waiters, i), callers := s.callers[s.waiters[i].id := Returned(outcome)]),
                     LeaveCancelled(s, i).free);
  }

  lemma LeaveQueueKeepsCalls(s: State, i: nat, outcome: Outcome)
    requires CallsInv(s) && i < |s.waiters| && (outcome.TimedOut? || outcome.CancelledCall?)
    ensures CallsInv(s.(waiters := Without(s.waiters, i), callers := s.callers[s.waiters[i].id := Returned(outcome)]))
  {
    LeaveQueue(s, i);
    LeaveKeepsCalls(s.(waiters := Without(s.waiters, i)), s.waiters[i].id, outcome);
  }

  lemma FreeIsIrrelevant(s: State, free: nat)
    requires CallsInv(s)
    ensures CallsInv(s.(free := free))
  {
    RelabelFree(s, free);
  }

  lemma RelabelFree(s: State, free: nat)
    requires CallersFaithful(s)
    ensures CallersFaithful(s.(free := free))
  {
    var t := s.(free := free);
    forall x | x in t.callers && t.callers[x].Returned? ensures OutcomeFits(t, x, t.callers[x].outcome) {
      assert OutcomeFits(s, x, s.callers[x].outcome);
    }
  }

  lemma WokenKeepsFaithful(s: State, t: State, id: CallId)
    requires Woken(s, t) && FaithfulBut(s, id)
    ensures FaithfulBut(t, id)
  {}

  lemma WakeAllKeeps(s: State, max: nat)
    requires Conserved(s, max) && CallsInv(s)
    ensures Inv(WakeAll(s), max)
  {
    WakeAllWakes(s);
    WokenKeepsCalls(s, WakeAll(s));
  }

  lemma InterruptKeeps(s: State, max: nat, id: CallId, reason: Reason)
    requires Inv(s, max) && Enabled(s, max, Interrupt(id, reason))
    ensures Inv(InterruptCaller(s, id, reason), max)
  {
    var at := Position(s.waiters, id);
    if at.Some? {
      InterruptWaiterKeeps(s, max, at.value, reason);
    }
  }

  lemma InterruptWaiterKeeps(s: State, max: nat, i: nat, reason: Reason)
    requires Inv(s, max) && i < |s.waiters|
    requires s.waiters[i].wait == Waiting || s.waiters[i].wait == Granted
    ensures Inv(s.(waiters := s.waiters[i := InterruptWaiter(s.waiters[i], reason)]), max)
  {
    var w := InterruptWaiter(s.waiters[i], reason);
    var t := s.(waiters := s.waiters[i := w]);
    HoldingAt(s.waiters, i, w);
    assert t.waiters[i].wait != Waiting;
    RelabelKeepsParked(s, i, w);
    RelabelKeepsFaithful(s, t.waiters);
  }

  lemma RelabelKeepsParked(s: State, i: nat, w: Waiter)
    requires WaitersParked(s) && i < |s.waiters| && w.id == s.waiters[i].id
    ensures WaitersParked(s.(waiters := s.waiters[i := w]))
  {
    var t := s.(waiters := s.waiters[i := w]);
    forall x | x in t.callers && t.callers[x] == Parked ensures Position(t.waiters, x).Some? {
      PositionIn(t.waiters, Position(s.waiters, x).value);
    }
  }

  lemma RelabelKeepsFaithful(s: State, waiters: seq<Waiter>)
    requires CallersFaithful(s)
    ensures CallersFaithful(s.(waiters := waiters))
  {
    var t := s.(waiters := waiters);
    forall x | x in t.callers && t.callers[x].Returned? ensures OutcomeFits(t, x, t.callers[x].outcome) {
      assert OutcomeFits(s, x, s.callers[x].outcome);
    }
  }

  /** Futures only move forward, and those whose monitor has ended do not move. */
  ghost predicate FuturesAdvance(s: State, t: State) {
    && s.futures.Keys == t.futures.Keys
    && (forall id | id in s.settled && id in s.futures :: t.futures[id] == s.futures[id])
    && (forall id | id in s.futures && s.futures[id] != Queued :: t.futures[id] != Queued)
    && ((!t.accepting && s.accepting) ==> forall id | id in t.futures :: t.futures[id] != Queued)
  }

  lemma AdvanceKeeps(s: State, max: nat, t: State)
    requires Inv(s, max) && FuturesAdvance(s, t) && (t.accepting ==> s.accepting)
    requires t == s.(futures := t.futures, accepting := t.accepting)
    ensures Inv(t, max)
  {
    forall x | x in t.callers && t.callers[x].Returned? ensures OutcomeFits(t, x, t.callers[x].outcome) {
      assert OutcomeFits(s, x, s.callers[x].outcome);
    }
  }

  lemma DeliverKeeps(s: State, max: nat, id: CallId)
    requires Inv(s, max) && Enabled(s, max, Deliver(id))
    ensures Inv(ResumeCaller(s, id), max)
  {
    var t := s.(futures := if s.callers[id].interrupted.Some? then CancelQueued(s.futures, id) else s.futures);
    AdvanceKeeps(s, max, t);
    ForgetKeeps(t, id);
    var outcome := if s.callers[id].interrupted.Some? then OutcomeOf(s.callers[id].interrupted.value)
                   else SettledOutcome(s.settled[id]);
    OutcomeIsFit(t, id, outcome);
    LeaveKeepsCalls(t, id, outcome);
    assert ResumeCaller(s, id) == t.(callers := s.callers[id := Returned(outcome)]);
  }

  lemma OutcomeIsFit(s: State, id: CallId, outcome: Outcome)
    requires Tracked(s)
    requires || (id in s.futures && s.futures[id] != Queued && (outcome.TimedOut? || outcome.CancelledCall?))
             || (id in s.settled && outcome == SettledOutcome(s.settled[id]))
    ensures OutcomeFits(s, id, outcome)
  {}

  lemma ForgetKeeps(s: State, id: CallId)
    requires CallsInv(s) && id in s.callers && s.callers[id].Awaiting?
    ensures FaithfulBut(s, id) && WaitersParked(Forget(s, id))
  {
    forall x | x in s.callers && s.callers[x].Returned? ensures OutcomeFits(s, x, s.callers[x].outcome) {
      assert OutcomeFits(s, x, s.callers[x].outcome);
    }
  }

  lemma ThreadKeeps(s: State, max: nat, id: CallId, f: FutureState)
    requires Inv(s, max) && id in s.futures && !IsDone(s.futures[id]) && f != Queued
    ensures Inv(s.(futures := s.futures[id := f]), max)
  {
    AdvanceKeeps(s, max, s.(futures := s.futures[id := f]));
  }

  lemma CancelAllKeeps(s: State, max: nat, accepting: bool)
    requires Inv(s, max) && (accepting ==> s.accepting)
    ensures Inv(s.(accepting := accepting, futures := CancelAll(s.futures, s.active)), max)
  {
    CancelAllIs(s.futures, s.active);
    AdvanceKeeps(s, max, s.(accepting := accepting, futures := CancelAll(s.futures, s.active)));
  }

  lemma MonitorKeeps(s: State, max: nat, id: CallId)
    requires Inv(s, max) && Enabled(s, max, Monitor(id))
    ensures Inv(EndMonitor(s, id), max)
  {
    RemoveNoDup(s.active, id);
    var base := s.(active := Remove(s.active, id), settled := s.settled[id := s.futures[id]]);
    forall x | x in base.callers && base.callers[x].Returned? ensures OutcomeFits(base, x, base.callers[x].outcome) {
      assert OutcomeFits(s, x, s.callers[x].outcome);
    }
    ReleaseKeeps(base, max);
  }

  /** Every step keeps the invariant. */
  lemma StepKeepsInv(s: State, max: nat, e: Event)
    requires Inv(s, max) && Enabled(s, max, e)
    ensures Inv(Next(s, max, e), max)
  {
    match e
    case Call(id, accepted) => CallKeeps(s, max, id, accepted);
    case Resume(id, accepted) => ResumeKeeps(s, max, Position(s.waiters, id).value, accepted);
    case Interrupt(id, reason) => InterruptKeeps(s, max, id, reason);
    case Deliver(id) => DeliverKeeps(s, max, id);
    case ThreadStart(id) => ThreadKeeps(s, max, id, Running);
    case ThreadFinish(id, result) => ThreadKeeps(s, max, id, Finished(result));
    case Monitor(id) => MonitorKeeps(s, max, id);
    case CloseStart => CancelAllKeeps(s, max, false);
    case CloseEnd => CancelAllKeeps(s, max, s.accepting);
  }

  // -- whole runs ---------------------------------------------------------------------------

  /** The state after the events, which must each have been possible; `None` when one was not. */
  function After(max: nat, events: seq<Event>): (r: Option<State>) {
    if events == [] then Some(Init(max))
    else
      match After(max, events[..|events| - 1])
      case None => None
      case Some(s) =>
        var e := events[|events| - 1];
        if Enabled(s, max, e) then Some(Next(s, max, e)) else None
  }

  lemma {:induction false} RunKeepsInv(max: nat, events: seq<Event>)
    ensures After(max, events).Some? ==> Inv(After(max, events).value, max)
  {
    if events == [] {
      InitInv(max);
    } else if After(max, events).Some? {
      var init := events[..|events| - 1];
      RunKeepsInv(max, init);
      StepKeepsInv(After(max, init).value, max, events[|events| - 1]);
    }
  }

  lemma RunningAreActive(s: State, max: nat)
    requires Inv(s, max)
    ensures |RunningIds(s)| <= |s.active| <= max
  {
    NoDupCard(s.active);
    SubsetCard(RunningIds(s), Elements(s.active));
  }

  function Elements(ids: seq<CallId>): set<CallId> { set id | id in ids }

  lemma {:induction false} NoDupCard(ids: seq<CallId>)
    requires NoDup(ids)
    ensures |Elements(ids)| == |ids|
  {
    if ids != [] {
      var init, last := ids[..|ids| - 1], ids[|ids| - 1];
      assert ids == init + [last];
      NoDupPrefix(init, last);
      NoDupCard(init);
      assert Elements(ids) == Elements(init) + {last};
    }
  }

  lemma SubsetCard<T>(a: set<T>, b: set<T>)
    requires a <= b
    ensures |a| <= |b|
  {
    if a != {} {
      var x :| x in a;
      SubsetCard(a - {x}, b - {x});
    }
  }

  /**
    Permits are conserved over every interleaving of successes, failures, timeouts, cancellations and shutdown: each
    one is free, held by a woken waiter, or held by a tracked call. So no more than `max` calls are tracked or run at
    a time.
   */
  lemma PermitsConserved(max: nat, events: seq<Event>)
    requires After(max, events).Some?
    ensures var s := After(max, events).value;
      && s.free + Holding(s.waiters) + |s.active| == max
      && |RunningIds(s)| <= |s.active| <= max
      && (s.waiters == [] && s.active == [] ==> s.free == max)
  {
    RunKeepsInv(max, events);
    RunningAreActive(After(max, events).value, max);
  }

  function Settlements(events: seq<Event>, id: CallId): nat {
    if events == [] then 0
    else Settlements(events[..|events| - 1], id) + if events[|events| - 1] == Monitor(id) then 1 else 0
  }

  /** No monitor ended: the tracked calls are the same, or one new call was submitted while the runner was open. */
  ghost predicate NoneSettled(s: State, t: State) {
    && t.settled == s.settled && t.futures.Keys == s.futures.Keys + Elements(t.active)
    && (t.active == s.active || (s.accepting && exists id :: id !in s.futures && t.active == s.active + [id]))
  }

  lemma ActiveChanges(s: State, max: nat, e: Event)
    requires Inv(s, max) && Enabled(s, max, e) && !e.Monitor?
    ensures NoneSettled(s, Next(s, max, e))
  {
    match e
    case Call(id, accepted) => CallActive(s, max, id, accepted);
    case Resume(id, accepted) => ResumeActive(s, Position(s.waiters, id).value, accepted);
    case CloseStart => CancelAllIs(s.futures, s.active);
    case CloseEnd => CancelAllIs(s.futures, s.active);
    case _ =>
  }

  lemma CallActive(s: State, max: nat, id: CallId, accepted: bool)
    requires Inv(s, max) && id !in s.callers
    ensures NoneSettled(s, StartCall(s, id, accepted))
  {}

  lemma ResumeActive(s: State, i: nat, accepted: bool)
    requires CallsInv(s) && i < |s.waiters| && s.waiters[i].wait != Waiting
    ensures NoneSettled(s, ResumeWaiter(s, i, accepted)) && ResumeWaiter(s, i, accepted).accepting == s.accepting
  {
    LeaveQueue(s, i);
    WakeAllWakes(s.(waiters := Without(s.waiters, i)));
    if s.waiters[i].wait.Granted? {
      ProceedActive(WakeAll(s.(waiters := Without(s.waiters, i))), s.waiters[i].id, accepted);
    } else {
      WakeAllWakes(LeaveCancelled(s, i));
    }
  }

  lemma ProceedActive(s: State, id: CallId, accepted: bool)
    requires Tracked(s) && id !in s.futures
    ensures NoneSettled(s, Proceed(s, id, accepted)) && Proceed(s, id, accepted).accepting == s.accepting
  {}

  /**
    Each accepted call gives its permit back exactly once, in its monitor's last step, when its thread has finished or
    its queued call was cancelled; until then it is tracked and holds the permit, whether or not its caller has timed
    out.
   */
  lemma {:induction false} EachCallSettlesOnce(max: nat, events: seq<Event>, id: CallId)
    requires After(max, events).Some?
    ensures var s := After(max, events).value;
      && Settlements(events, id) == (if id in s.futures && id !in s.active then 1 else 0)
      && (Settlements(events, id) == 1 ==> IsDone(s.futures[id]))
  {
    RunKeepsInv(max, events);
    if events != [] {
      var init, e := events[..|events| - 1], events[|events| - 1];
      EachCallSettlesOnce(max, init, id);
      RunKeepsInv(max, init);
      var s := After(max, init).value;
      SettlesAtMost(s, max, e, id);
    }
  }

  lemma SettlesAtMost(s: State, max: nat, e: Event, id: CallId)
    requires Inv(s, max) && Enabled(s, max, e)
    ensures var t := Next(s, max, e);
      var before, after := id in s.futures && id !in s.active, id in t.futures && id !in t.active;
      if e == Monitor(id) then !before && after else before == after
  {
    if e.Monitor? { RemoveNoDup(s.active, e.id); } else { ActiveChanges(s, max, e); }
  }

  ghost predicate ClosedWith(s: Option<State>, calls: set<CallId>) {
    s.Some? && !s.value.accepting && s.value.futures.Keys == calls
  }

  /** Once closing has started it stays so, and no call is submitted any more. */
  lemma {:induction false} NothingSubmittedAfterClose(
      max: nat, events: seq<Event>, more: seq<Event>, calls: set<CallId>)
    requires ClosedWith(After(max, events), calls) && After(max, events + more).Some?
    ensures ClosedWith(After(max, events + more), calls)
  {
    if more == [] {
      assert events + more == events;
    } else {
      var init := more[..|more| - 1];
      LastStep(max, events, more);
      NothingSubmittedAfterClose(max, events, init, calls);
      RunKeepsInv(max, events + init);
      StaysClosed(After(max, events + init).value, max, more[|more| - 1]);
    }
  }

  lemma LastStep(max: nat, events: seq<Event>, more: seq<Event>)
    requires more != [] && After(max, events + more).Some?
    ensures var before, e := After(max, events + more[..|more| - 1]), more[|more| - 1];
            && before.Some? && Enabled(before.value, max, e)
            && After(max, events + more).value == Next(before.value, max, e)
  {
    assert (events + more)[..|events + more| - 1] == events + more[..|more| - 1];
  }

  /** While closing, no call is left for a thread to pick up. */
  lemma NothingQueuedAfterClose(max: nat, events: seq<Event>)
    requires After(max, events).Some? && !After(max, events).value.accepting
    ensures forall id :: !Enabled(After(max, events).value, max, ThreadStart(id))
  {
    RunKeepsInv(max, events);
  }

  lemma StaysClosed(s: State, max: nat, e: Event)
    requires Inv(s, max) && Enabled(s, max, e) && !s.accepting
    ensures !Next(s, max, e).accepting && Next(s, max, e).futures.Keys == s.futures.Keys
  {
    if e.Resume? { ResumeActive(s, Position(s.waiters, e.id).value, e.accepted); }
    if !e.Monitor? { ActiveChanges(s, max, e); }
  }

  // -- what callers are told -----------------------------------------------------------

  ghost predicate Started(s: State, id: CallId) {
    id in s.futures && (s.futures[id].Running? || s.futures[id].Finished?)
  }

  lemma StartsAt(s: State, max: nat, e: Event, id: CallId)
    requires Inv(s, max) && Enabled(s, max, e)
    ensures Started(Next(s, max, e), id) <==> Started(s, id) || e == ThreadStart(id)
    ensures forall r :: Ended(Next(s, max, e), id, r) <==> Ended(s, id, r) || e == ThreadFinish(id, r)
  {
    if !e.ThreadStart? && !e.ThreadFinish? {
      QuietFutures(s, max, e);
    }
  }

  /** Calls are added queued, and only queued ones are cancelled. */
  ghost predicate OnlyQueuedChanges(s: State, t: State) {
    && (forall id | id in s.futures :: id in t.futures)
    && forall id | id in t.futures ::
         if id !in s.futures then t.futures[id] == Queued
         else t.futures[id] == s.futures[id] || (s.futures[id] == Queued && t.futures[id] == Cancelled)
  }

  lemma QuietFutures(s: State, max: nat, e: Event)
    requires Inv(s, max) && Enabled(s, max, e) && !e.ThreadStart? && !e.ThreadFinish?
    ensures OnlyQueuedChanges(s, Next(s, max, e))
  {
    if e.Resume? {
      ResumeFutures(s, Position(s.waiters, e.id).value, e.accepted);
    } else if e.CloseStart? || e.CloseEnd? {
      CancelAllIs(s.futures, s.active);
    } else if e.Call? {
      CallFutures(s, max, e.id, e.accepted);
    } else {
      CalmFutures(s, max, e);
    }
  }

  lemma CallFutures(s: State, max: nat, id: CallId, accepted: bool)
    requires Inv(s, max) && id !in s.callers
    ensures var t := StartCall(s, id, accepted);
      id !in s.futures && (t.futures == s.futures || t.futures == s.futures[id := Queued])
  {}

  lemma CalmFutures(s: State, max: nat, e: Event)
    requires Enabled(s, max, e) && (e.Interrupt? || e.Deliver? || e.Monitor?)
    ensures var t := Next(s, max, e);
            t.futures == s.futures || (e.Deliver? && t.futures == CancelQueued(s.futures, e.id))
  {}

  predicate Ended(s: State, id: CallId, result: CallResult) { id in s.futures && s.futures[id] == Finished(result) }

  lemma ResumeFutures(s: State, i: nat, accepted: bool)
    requires CallsInv(s) && i < |s.waiters| && s.waiters[i].wait != Waiting
    ensures var t := ResumeWaiter(s, i, accepted); var id := s.waiters[i].id;
      id !in s.futures && (t.futures == s.futures || t.futures == s.futures[id := Queued])
  {
    LeaveQueue(s, i);
    WakeAllWakes(s.(waiters := Without(s.waiters, i)));
    if !s.waiters[i].wait.Granted? {
      WakeAllWakes(LeaveCancelled(s, i));
    }
  }

  lemma InHistory(events: seq<Event>, e: Event)
    requires events != []
    ensures e in events <==> e in events[..|events| - 1] || e == events[|events| - 1]
  {
    assert events == events[..|events| - 1] + [events[|events| - 1]];
  }

  /** A thread ran a call iff the call's future says so: a cancelled future was never picked up. */
  lemma {:induction false} FuturesTellHistory(max: nat, events: seq<Event>, id: CallId)
    requires After(max, events).Some?
    ensures var s := After(max, events).value;
      && (Started(s, id) <==> ThreadStart(id) in events)
      && (forall r :: Ended(s, id, r) <==> ThreadFinish(id, r) in events)
  {
    if events != [] {
      var init, e := events[..|events| - 1], events[|events| - 1];
      FuturesTellHistory(max, init, id);
      RunKeepsInv(max, init);
      StartsAt(After(max, init).value, max, e, id);
      InHistory(events, ThreadStart(id));
      InHistory(events, ThreadFinish(id, Value));
      InHistory(events, ThreadFinish(id, TimeoutError));
      InHistory(events, ThreadFinish(id, OtherError));
    }
  }

  /**
    A caller is given a result only if its thread finished with it, and is refused only if no thread ever ran its
    call.
   */
  lemma OutcomesAreTrue(max: nat, events: seq<Event>, id: CallId)
    requires After(max, events).Some?
    ensures var s := After(max, events).value;
      id in s.callers && s.callers[id].Returned? ==>
        var outcome := s.callers[id].outcome;
        && (outcome == Succeeded ==> ThreadFinish(id, Value) in events)
        && (outcome == Failed ==> ThreadFinish(id, OtherError) in events)
        && (outcome == Closed || outcome == Refused ==> ThreadStart(id) !in events)
  {
    RunKeepsInv(max, events);
    FuturesTellHistory(max, events, id);
    var s := After(max, events).value;
    if id in s.callers && s.callers[id].Returned? {
      assert OutcomeFits(s, id, s.callers[id].outcome);
      assert Ended(s, id, Value) <==> ThreadFinish(id, Value) in events;
      assert Ended(s, id, OtherError) <==> ThreadFinish(id, OtherError) in events;
    }
  }

  // -- why callers are timed out or cancelled ----------------------------------------------

  /** A cancelled waiter was interrupted, for the reason it records. */
  ghost predicate WaitersTold(waiters: seq<Waiter>, events: seq<Event>) {
    forall i | 0 <= i < |waiters| && (waiters[i].wait.Dropped? || waiters[i].wait.Revoked?) ::
      Interrupt(waiters[i].id, waiters[i].wait.reason) in events
  }

  predicate WasCancelled(s: State, id: CallId) { id in s.futures && s.futures[id] == Cancelled }

  predicate CallerTold(s: State, id: CallId, caller: Caller, events: seq<Event>) {
    match caller
    case Awaiting(Some(reason)) => Interrupt(id, reason) in events
    case Returned(TimedOut) => Interrupt(id, Deadline) in events || Ended(s, id, TimeoutError)
    case Returned(CancelledCall) => Interrupt(id, CallerCancelled) in events || WasCancelled(s, id)
    case _ => true
  }

  ghost predicate Told(s: State, events: seq<Event>) {
    WaitersTold(s.waiters, events) && forall id | id in s.callers :: CallerTold(s, id, s.callers[id], events)
  }

  /** What a thread did or never came to do is never undone. */
  lemma OverStays(s: State, max: nat, e: Event, id: CallId)
    requires Inv(s, max) && Enabled(s, max, e)
    ensures Ended(s, id, TimeoutError) ==> Ended(Next(s, max, e), id, TimeoutError)
    ensures WasCancelled(s, id) ==> WasCancelled(Next(s, max, e), id)
  {
    if !e.ThreadStart? && !e.ThreadFinish? { QuietFutures(s, max, e); }
  }

  /** A step after which at most one caller has changed, and that one was told why. */
  lemma OneCallerTold(s: State, max: nat, e: Event, events: seq<Event>, id: CallId)
    requires Inv(s, max) && Enabled(s, max, e) && Told(s, events)
    requires var t := Next(s, max, e);
      && WaitersTold(t.waiters, events + [e])
      && (forall x | x in t.callers && x != id :: x in s.callers && t.callers[x] == s.callers[x])
      && (id in t.callers ==> CallerTold(t, id, t.callers[id], events + [e]))
    ensures Told(Next(s, max, e), events + [e])
  {
    var t := Next(s, max, e);
    forall x | x in t.callers ensures CallerTold(t, x, t.callers[x], events + [e]) {
      if x != id {
        assert CallerTold(s, x, s.callers[x], events);
        OverStays(s, max, e, x);
      }
    }
  }

  lemma WokenTold(s: State, t: State, events: seq<Event>)
    requires Woken(s, t) && WaitersTold(s.waiters, events)
    ensures WaitersTold(t.waiters, events)
  {}

  lemma LaterTold(waiters: seq<Waiter>, events: seq<Event>, e: Event)
    requires WaitersTold(waiters, events)
    ensures WaitersTold(waiters, events + [e])
  {}

  lemma WithoutTold(waiters: seq<Waiter>, i: nat, events: seq<Event>)
    requires WaitersTold(waiters, events) && i < |waiters|
    ensures WaitersTold(Without(waiters, i), events)
  {}

  lemma ProceedTold(s: State, id: CallId, accepted: bool, events: seq<Event>)
    requires WaitersTold(s.waiters, events)
    ensures var t := Proceed(s, id, accepted);
      && WaitersTold(t.waiters, events)
      && t.callers.Keys == s.callers.Keys + {id} && CallerTold(t, id, t.callers[id], events)
      && forall x | x in s.callers && x != id :: t.callers[x] == s.callers[x]
  {
    ReleaseWakes(s);
    WokenTold(s.(free := s.free + 1), Release(s), events);
  }

  lemma CallTold(s: State, max: nat, id: CallId, accepted: bool, events: seq<Event>)
    requires Inv(s, max) && Enabled(s, max, Call(id, accepted)) && Told(s, events)
    ensures Told(Next(s, max, Call(id, accepted)), events + [Call(id, accepted)])
  {
    var e := Call(id, accepted);
    LaterTold(s.waiters, events, e);
    StartTold(s, id, accepted, events + [e]);
    OneCallerTold(s, max, e, events, id);
  }

  lemma StartTold(s: State, id: CallId, accepted: bool, events: seq<Event>)
    requires WaitersTold(s.waiters, events)
    ensures var t := StartCall(s, id, accepted);
      && WaitersTold(t.waiters, events)
      && t.callers.Keys == s.callers.Keys + {id} && CallerTold(t, id, t.callers[id], events)
      && forall x | x in s.callers && x != id :: t.callers[x] == s.callers[x]
  {
    if !Locked(s) { ProceedTold(s.(free := s.free - 1), id, accepted, events); }
  }

  lemma ResumeTold(s: State, i: nat, accepted: bool, events: seq<Event>)
    requires i < |s.waiters| && s.waiters[i].wait != Waiting && WaitersTold(s.waiters, events)
    ensures var t := ResumeWaiter(s, i, accepted); var id := s.waiters[i].id;
      && WaitersTold(t.waiters, events)
      && t.callers.Keys == s.callers.Keys + {id} && CallerTold(t, id, t.callers[id], events)
      && forall x | x in s.callers && x != id :: t.callers[x] == s.callers[x]
  {
    WithoutTold(s.waiters, i, events);
    var left := if s.waiters[i].wait.Granted? then s.(waiters := Without(s.waiters, i)) else LeaveCancelled(s, i);
    WakeAllWakes(left);
    WokenTold(left, WakeAll(left), events);
    if s.waiters[i].wait.Granted? { ProceedTold(WakeAll(left), s.waiters[i].id, accepted, events); }
  }

  lemma InterruptTold(s: State, max: nat, id: CallId, reason: Reason, events: seq<Event>)
    requires Inv(s, max) && Enabled(s, max, Interrupt(id, reason)) && Told(s, events)
    ensures Told(Next(s, max, Interrupt(id, reason)), events + [Interrupt(id, reason)])
  {
    var e := Interrupt(id, reason);
    LaterTold(s.waiters, events, e);
    assert e in events + [e];
    var i := Position(s.waiters, id);
    assert i.Some? ==> s.waiters[i.value].id == id && s.callers[id] == Parked;
    OneCallerTold(s, max, e, events, id);
  }

  lemma DeliverTold(s: State, max: nat, id: CallId, events: seq<Event>)
    requires Inv(s, max) && Enabled(s, max, Deliver(id)) && Told(s, events)
    ensures Told(Next(s, max, Deliver(id)), events + [Deliver(id)])
  {
    LaterTold(s.waiters, events, Deliver(id));
    assert CallerTold(s, id, s.callers[id], events);
    DeliveredTold(s, max, id, events, events + [Deliver(id)]);
    OneCallerTold(s, max, Deliver(id), events, id);
  }

  lemma DeliveredTold(s: State, max: nat, id: CallId, events: seq<Event>, later: seq<Event>)
    requires Tracked(s) && Enabled(s, max, Deliver(id)) && CallerTold(s, id, s.callers[id], events)
    requires events <= later
    ensures var t := Next(s, max, Deliver(id)); CallerTold(t, id, t.callers[id], later)
  {}

  lemma ToldStep(s: State, max: nat, e: Event, events: seq<Event>)
    requires Inv(s, max) && Enabled(s, max, e) && Told(s, events)
    ensures Told(Next(s, max, e), events + [e])
  {
    LaterTold(s.waiters, events, e);
    match e
    case Call(id, accepted) => CallTold(s, max, id, accepted, events);
    case Resume(id, accepted) =>
      ResumeTold(s, Position(s.waiters, id).value, accepted, events + [e]);
      OneCallerTold(s, max, e, events, id);
    case Interrupt(id, reason) => InterruptTold(s, max, id, reason, events);
    case Deliver(id) => DeliverTold(s, max, id, events);
    case Monitor(id) =>
      var base := s.(active := Remove(s.active, id), settled := s.settled[id := s.futures[id]]);
      ReleaseWakes(base);
      WokenTold(base.(free := base.free + 1), Release(base), events + [e]);
      SameCallersTold(s, max, e, events);
    case _ => SameCallersTold(s, max, e, events);
  }

  lemma SameCallersTold(s: State, max: nat, e: Event, events: seq<Event>)
    requires Inv(s, max) && Enabled(s, max, e) && Told(s, events)
    requires Next(s, max, e).callers == s.callers && WaitersTold(Next(s, max, e).waiters, events + [e])
    ensures Told(Next(s, max, e), events + [e])
  {
    forall x | x in s.callers ensures CallerTold(Next(s, max, e), x, s.callers[x], events + [e]) {
      assert CallerTold(s, x, s.callers[x], events);
      OverStays(s, max, e, x);
    }
  }

  lemma {:induction false} RunTold(max: nat, events: seq<Event>)
    ensures After(max, events).Some? ==> Told(After(max, events).value, events)
  {
    if events != [] && After(max, events).Some? {
      var init, e := events[..|events| - 1], events[|events| - 1];
      RunTold(max, init);
      RunKeepsInv(max, init);
      ToldStep(After(max, init).value, max, e, init);
      assert init + [e] == events;
    }
  }

  /**
    A caller is timed out only if its deadline passed or its call raised a TimeoutError of its own, and cancelled only
    if it was, or if its queued call was cancelled before any thread ran it.
   */
  lemma InterruptionsAreTrue(max: nat, events: seq<Event>, id: CallId)
    requires After(max, events).Some?
    ensures var s := After(max, events).value;
      id in s.callers && s.callers[id].Returned? ==>
        var outcome := s.callers[id].outcome;
        && (outcome == TimedOut ==> Interrupt(id, Deadline) in events || ThreadFinish(id, TimeoutError) in events)
        && (outcome == CancelledCall ==> Interrupt(id, CallerCancelled) in events || ThreadStart(id) !in events)
  {
    RunTold(max, events);
    FuturesTellHistory(max, events, id);
    var s := After(max, events).value;
    assert id in s.callers ==> CallerTold(s, id, s.callers[id], events);
    assert Ended(s, id, TimeoutError) <==> ThreadFinish(id, TimeoutError) in events;
  }

  // -- no deadlock ------------------------------------------------------------------------------

  /** No waiter, thread or monitor can take a step. */
  ghost predicate Stuck(s: State, max: nat) {
    && (forall id :: !Enabled(s, max, Resume(id, true)))
    && (forall id :: !Enabled(s, max, ThreadStart(id)))
    && (forall id :: !Enabled(s, max, ThreadFinish(id, Value)))
    && (forall id :: !Enabled(s, max, Monitor(id)))
  }

  lemma IdleIsStuck(s: State, max: nat)
    requires Inv(s, max) && s.waiters == [] && s.active == []
    ensures Stuck(s, max)
  {}

  lemma StuckHasNoActive(s: State, max: nat)
    requires Inv(s, max) && Stuck(s, max)
    ensures s.active == []
  {
    if s.active != [] {
      ActiveCanMove(s, max, s.active[0]);
    }
  }

  lemma StuckHasNoWaiters(s: State, max: nat)
    requires max > 0 && Inv(s, max) && Stuck(s, max) && s.active == []
    ensures s.waiters == []
  {
    forall i | 0 <= i < |s.waiters| ensures s.waiters[i].wait == Waiting {
      PositionIs(s.waiters, i);
      assert !Enabled(s, max, Resume(s.waiters[i].id, true));
    }
    NoneHolding(s.waiters);
    assert s.waiters != [] ==> AnyWaiting(s.waiters);
  }

  /**
    A waiter, thread or monitor can always make progress until no call waits, none is tracked and all permits are
    free.
   */
  lemma StuckOnlyWhenIdle(max: nat, events: seq<Event>)
    requires max > 0 && After(max, events).Some?
    ensures var s := After(max, events).value;
      && (Stuck(s, max) <==> s.waiters == [] && s.active == [])
      && (Stuck(s, max) ==> s.free == max)
  {
    var s := After(max, events).value;
    RunKeepsInv(max, events);
    if s.waiters == [] && s.active == [] {
      IdleIsStuck(s, max);
    }
    if Stuck(s, max) {
      StuckHasNoActive(s, max);
      StuckHasNoWaiters(s, max);
    }
  }

  lemma {:induction false} NoneHolding(ws: seq<Waiter>)
    requires forall i | 0 <= i < |ws| :: ws[i].wait == Waiting
    ensures Holding(ws) == 0
  {
    if ws != [] { NoneHolding(ws[1..]); }
  }

  lemma PositionIs(ws: seq<Waiter>, i: nat)
    requires i < |ws| && forall a, b | 0 <= a < b < |ws| :: ws[a].id != ws[b].id
    ensures Position(ws, ws[i].id) == Some(i)
  {
    PositionIn(ws, i);
  }

  lemma ActiveCanMove(s: State, max: nat, id: CallId)
    requires Inv(s, max) && id in s.active
    ensures Enabled(s, max, ThreadStart(id)) || Enabled(s, max, ThreadFinish(id, Value)) || Enabled(s, max, Monitor(id))
  {
    if s.futures[id] == Queued {
      NoDupCard(s.active);
      SubsetCard(RunningIds(s), Elements(s.active) - {id});
      assert |Elements(s.active) - {id}| == |s.active| - 1;
    }
  }
}
