/** What one event does to the runner, and when it can happen (backend services/retrieval_runner.py). */
module RunnerSteps {
  import opened Prelude
  import opened RetrievalRunner
  import opened RunnerSafety

  // -- permits --------------------------------------------------------------------------------

  /** Permits go to the waiters first in the queue until none is left or no one waits. */
  ghost predicate HandsOut(s: State, t: State) {
    && Woken(s, t)
    && (forall i, j | 0 <= i < j < |t.waiters| && t.waiters[i].wait == Waiting :: t.waiters[j] == s.waiters[j])
    && (t.free == 0 || forall i | 0 <= i < |t.waiters| :: t.waiters[i].wait != Waiting)
  }

  lemma {:induction false} WakeAllHandsOut(s: State)
    ensures HandsOut(s, WakeAll(s))
    decreases s.free
  {
    WakeAllWakes(s);
    if s.free != 0 && FirstWaiting(s.waiters).Some? {
      WakeNextWakes(s);
      WakeAllHandsOut(WakeNext(s));
    }
  }

  /** One permit more, for the first in the queue if anyone waits. */
  ghost predicate HandsOne(s: State, t: State) {
    if forall i | 0 <= i < |s.waiters| :: s.waiters[i].wait != Waiting then t == s.(free := s.free + 1)
    else exists k | 0 <= k < |s.waiters| ::
      && s.waiters[k].wait == Waiting && (forall i | 0 <= i < k :: s.waiters[i].wait != Waiting)
      && t == s.(waiters := s.waiters[k := Waiter(s.waiters[k].id, Granted)])
  }

  lemma ReleaseHandsOne(s: State)
    ensures HandsOne(s, Release(s))
  {
    var first := FirstWaiting(s.waiters);
    if first.Some? {
      assert Grant(s.waiters, first.value) == s.waiters[first.value := Waiter(s.waiters[first.value].id, Granted)];
    }
  }

  // -- arriving and resuming ---------------------------------------------------------------------

  /** Someone in the queue still wants a permit or is about to take or return one. */
  ghost predicate QueueInUse(s: State) {
    exists i | 0 <= i < |s.waiters| ::
      s.waiters[i].wait == Waiting || s.waiters[i].wait.Granted? || s.waiters[i].wait.Revoked?
  }

  ghost predicate Submitted(s: State, t: State, id: CallId) {
    && t == s.(futures := t.futures, active := t.active, callers := t.callers)
    && t.futures == s.futures[id := Queued] && t.active == s.active + [id]
    && t.callers == s.callers[id := Awaiting(None)]
  }

  /** A new call queues behind others or for want of a permit; otherwise it is submitted, or turned away. */
  lemma ArrivalIs(s: State, max: nat, id: CallId, accepted: bool)
    requires id !in s.callers
    ensures var t := Next(s, max, Call(id, accepted));
      if s.free == 0 || QueueInUse(s)
      then t == s.(waiters := s.waiters + [Waiter(id, Waiting)], callers := s.callers[id := Parked])
      else if !s.accepting then t == s.(callers := s.callers[id := Returned(Closed)])
      else if !accepted then t == s.(callers := s.callers[id := Returned(Refused)])
      else Submitted(s.(free := s.free - 1), t, id)
  {
    assert Locked(s) <==> s.free == 0 || QueueInUse(s) by {
      if i :| 0 <= i < |s.waiters| && !s.waiters[i].wait.Dropped? {
        assert s.waiters[i].wait == Waiting || s.waiters[i].wait.Granted? || s.waiters[i].wait.Revoked?;
      }
    }
    if !Locked(s) {
      assert forall i | 0 <= i < |s.waiters| :: s.waiters[i].wait.Dropped?;
      ReleaseHandsOne(s.(free := s.free - 1));
    }
  }

  /** A waiter that holds a permit is submitted or turned away. */
  lemma GrantedResumes(s: State, i: nat, accepted: bool) returns (u: State)
    requires i < |s.waiters| && s.waiters[i].wait == Granted
    ensures HandsOut(s.(waiters := s.waiters[..i] + s.waiters[i + 1..]), u)
    ensures var id, t := s.waiters[i].id, ResumeWaiter(s, i, accepted);
      if s.accepting && accepted then Submitted(u, t, id)
      else TurnedAway(u, t, id, if s.accepting then Refused else Closed)
  {
    var left := s.(waiters := Without(s.waiters, i));
    u := WakeAll(left);
    WakeAllHandsOut(left);
    ReleaseHandsOne(u);
    var t := ResumeWaiter(s, i, accepted);
    assert t == Proceed(u, s.waiters[i].id, accepted) && u.accepting == s.accepting;
    if !s.accepting || !accepted {
      assert HandsOne(u, Release(u));
      assert TurnedAway(u, t, s.waiters[i].id, if s.accepting then Refused else Closed);
    } else {
      assert Submitted(u, t, s.waiters[i].id);
    }
    assert HandsOut(s.(waiters := s.waiters[..i] + s.waiters[i + 1..]), u);
  }

  /** The call gives its permit back and returns. */
  ghost predicate TurnedAway(s: State, t: State, id: CallId, outcome: Outcome) {
    exists u :: HandsOne(s, u) && t == u.(callers := u.callers[id := Returned(outcome)])
  }

  /** A cancelled waiter returns, and hands on the permit that it had already been given. */
  lemma CancelledResumes(s: State, i: nat, accepted: bool)
    requires i < |s.waiters| && (s.waiters[i].wait.Dropped? || s.waiters[i].wait.Revoked?)
    ensures var w, t := s.waiters[i], ResumeWaiter(s, i, accepted);
      HandsOut(s.(free := s.free + (if w.wait.Revoked? then 1 else 0),
                  waiters := s.waiters[..i] + s.waiters[i + 1..],
                  callers := s.callers[w.id :=
                    Returned(if w.wait.reason == Deadline then TimedOut else CancelledCall)]),
               t)
  {
    WakeAllHandsOut(LeaveCancelled(s, i));
  }

  // -- interruptions and results --------------------------------------------------------------------

  /** An interruption reaches the waiter, permit or not, or the caller that awaits its result. */
  lemma InterruptionIs(s: State, max: nat, id: CallId, reason: Reason)
    requires Enabled(s, max, Interrupt(id, reason)) && WaitersParked(s)
    ensures var t := Next(s, max, Interrupt(id, reason));
      (exists i | 0 <= i < |s.waiters| ::
         && s.waiters[i].id == id && (s.waiters[i].wait == Waiting || s.waiters[i].wait == Granted)
         && t == s.(waiters := s.waiters[i := Waiter(id, if s.waiters[i].wait == Waiting then Dropped(reason)
                                                         else Revoked(reason))]))
      || (id in s.callers && s.callers[id] == Awaiting(None)
          && t == s.(callers := s.callers[id := Awaiting(Some(reason))]))
  {
    var i := Position(s.waiters, id);
    if i.Some? { assert s.callers[s.waiters[i.value].id] == Parked; }
  }

  /** A caller returns with its interruption, cancelling a call not yet begun, or with what the monitor has settled. */
  lemma DeliveryIs(s: State, max: nat, id: CallId)
    requires Enabled(s, max, Deliver(id))
    ensures var t := Next(s, max, Deliver(id));
      match s.callers[id].interrupted
      case Some(reason) =>
        && t == s.(futures := t.futures, callers := t.callers)
        && t.callers == s.callers[id := Returned(if reason == Deadline then TimedOut else CancelledCall)]
        && t.futures == (if id in s.futures && s.futures[id] == Queued then s.futures[id := Cancelled] else s.futures)
      case None =>
        && t == s.(callers := t.callers)
        && t.callers.Keys == s.callers.Keys && (forall x | x in s.callers && x != id :: t.callers[x] == s.callers[x])
        && (s.settled[id] == Finished(Value) <==> t.callers[id] == Returned(Succeeded))
        && (s.settled[id] == Finished(OtherError) <==> t.callers[id] == Returned(Failed))
        && (s.settled[id] == Finished(TimeoutError) <==> t.callers[id] == Returned(TimedOut))
        && (!s.settled[id].Finished? <==> t.callers[id] == Returned(CancelledCall))
  {}

  /** The monitor of a call settles it once and gives back its permit. */
  lemma MonitorIs(s: State, max: nat, id: CallId)
    requires Enabled(s, max, Monitor(id)) && Tracked(s)
    ensures exists k | 0 <= k < |s.active| ::
      && s.active[k] == id
      && HandsOne(s.(active := s.active[..k] + s.active[k + 1..], settled := s.settled[id := s.futures[id]]),
                  Next(s, max, Monitor(id)))
  {
    var k :| 0 <= k < |s.active| && s.active[k] == id;
    RemoveAt(s.active, k);
    ReleaseHandsOne(s.(active := Remove(s.active, id), settled := s.settled[id := s.futures[id]]));
  }

  lemma {:induction false} RemoveAt(ids: seq<CallId>, k: nat)
    requires NoDup(ids) && k < |ids|
    ensures Remove(ids, ids[k]) == ids[..k] + ids[k + 1..]
  {
    if k > 0 {
      assert ids[0] != ids[k];
      assert forall i, j | 0 <= i < j < |ids[1..]| :: ids[1..][i] == ids[i + 1] && ids[1..][j] == ids[j + 1];
      RemoveAt(ids[1..], k - 1);
    }
  }

  /** Closing turns new calls away and cancels the tracked calls that no thread has begun. */
  lemma ClosingIs(s: State, max: nat)
    requires s.accepting
    ensures var t := Next(s, max, CloseStart);
      && t == s.(accepting := false, futures := t.futures) && t.futures.Keys == s.futures.Keys
      && forall id | id in s.futures ::
           t.futures[id] == if id in s.active && s.futures[id] == Queued then Cancelled else s.futures[id]
  {
    CancelAllIs(s.futures, s.active);
  }
}
