/**
  The bounded retrieval runner (backend services/retrieval_runner.py) as event-loop steps. Code between two awaits is
  one step; the semaphore is the fair one of asyncio, whose woken waiters hold a permit before they resume.
 */
module RetrievalRunner {
  import opened Prelude

  type CallId = nat

  datatype Reason = Deadline | CallerCancelled

  /** A semaphore waiter: not woken, woken, cancelled, or woken and then cancelled before it could resume. */
  datatype Wait = Waiting | Granted | Dropped(reason: Reason) | Revoked(reason: Reason)

  datatype Waiter = Waiter(id: CallId, wait: Wait)

  /** What a call returned or raised. */
  datatype CallResult = Value | TimeoutError | OtherError

  datatype FutureState = Queued | Running | Finished(result: CallResult) | Cancelled

  datatype Outcome = Succeeded | Failed | TimedOut | CancelledCall | Closed | Refused

  datatype Caller = Parked | Awaiting(interrupted: Option<Reason>) | Returned(outcome: Outcome)

  /** `settled` holds the result future of every call whose monitor has ended: the thread's future as it was then. */
  datatype State = State(
    accepting: bool,
    free: nat,
    waiters: seq<Waiter>,
    futures: map<CallId, FutureState>,
    active: seq<CallId>,
    settled: map<CallId, FutureState>,
    callers: map<CallId, Caller>)

  function Init(max: nat): State {
    State(true, max, [], map[], [], map[], map[])
  }

  // -- the semaphore ------------------------------------------------------------

  /** The first waiter that has not been woken or cancelled. */
  function FirstWaiting(ws: seq<Waiter>): (r: Option<nat>)
    ensures r.Some? ==> r.value < |ws| && ws[r.value].wait == Waiting
    ensures r.Some? ==> forall i | 0 <= i < r.value :: ws[i].wait != Waiting
    ensures r.None? ==> forall i | 0 <= i < |ws| :: ws[i].wait != Waiting
  {
    if ws == [] then None
    else if ws[0].wait == Waiting then Some(0)
    else
      var rest := FirstWaiting(ws[1..]);
      if rest.Some? then Some(rest.value + 1) else None
  }

  function WaitingCount(ws: seq<Waiter>): nat {
    if ws == [] then 0 else (if ws[0].wait == Waiting then 1 else 0) + WaitingCount(ws[1..])
  }

  /** Woken waiters, cancelled or not, that have not resumed: each holds a permit. */
  function Holding(ws: seq<Waiter>): nat {
    if ws == [] then 0 else (if ws[0].wait.Granted? || ws[0].wait.Revoked? then 1 else 0) + Holding(ws[1..])
  }

  function Grant(ws: seq<Waiter>, i: nat): seq<Waiter>
    requires i < |ws|
  {
    ws[i := ws[i].(wait := Granted)]
  }

  function WakeNext(s: State): State {
    var first := FirstWaiting(s.waiters);
    if s.free == 0 || first.None? then s
    else s.(free := s.free - 1, waiters := Grant(s.waiters, first.value))
  }

  /** `while self._value > 0: if not self._wake_up_next(): break`. */
  function WakeAll(s: State): State
    decreases s.free
  {
    if s.free == 0 || FirstWaiting(s.waiters).None? then s else WakeAll(WakeNext(s))
  }

  function Release(s: State): State {
    WakeNext(s.(free := s.free + 1))
  }

  predicate Locked(s: State) {
    s.free == 0 || exists i | 0 <= i < |s.waiters| :: !s.waiters[i].wait.Dropped?
  }

  function Position(ws: seq<Waiter>, id: CallId): (r: Option<nat>)
    ensures r.Some? ==> r.value < |ws| && ws[r.value].id == id
    ensures r.None? ==> forall i | 0 <= i < |ws| :: ws[i].id != id
  {
    if ws == [] then None
    else if ws[0].id == id then Some(0)
    else
      var rest := Position(ws[1..], id);
      if rest.Some? then Some(rest.value + 1) else None
  }

  function Without<T>(s: seq<T>, i: nat): seq<T>
    requires i < |s|
  {
    s[..i] + s[i + 1..]
  }

  // -- the steps of run ----------------------------------------------------------

  /** From the acquired permit to the next await: refuse when closing, otherwise submit and track. */
  function Proceed(s: State, id: CallId, accepted: bool): State {
    if !s.accepting then Release(s).(callers := s.callers[id := Returned(Closed)])
    else if !accepted then Release(s).(callers := s.callers[id := Returned(Refused)])
    else s.(futures := s.futures[id := Queued], active := s.active + [id], callers := s.callers[id := Awaiting(None)])
  }

  function StartCall(s: State, id: CallId, accepted: bool): State {
    if Locked(s) then s.(waiters := s.waiters + [Waiter(id, Waiting)], callers := s.callers[id := Parked])
    else Proceed(s.(free := s.free - 1), id, accepted)
  }

  function OutcomeOf(reason: Reason): Outcome {
    match reason
    case Deadline => TimedOut
    case CallerCancelled => CancelledCall
  }

  /** A cancelled waiter leaves the queue; if it had been woken it puts the permit back. */
  function LeaveCancelled(s: State, i: nat): State
    requires i < |s.waiters| && (s.waiters[i].wait.Dropped? || s.waiters[i].wait.Revoked?)
  {
    var w := s.waiters[i];
    s.(free := if w.wait.Revoked? then s.free + 1 else s.free,
       waiters := Without(s.waiters, i),
       callers := s.callers[w.id := Returned(OutcomeOf(w.wait.reason))])
  }

  /** A waiter runs again: it leaves the queue, hands on what it can, and goes on or raises. */
  function ResumeWaiter(s: State, i: nat, accepted: bool): State
    requires i < |s.waiters| && s.waiters[i].wait != Waiting
  {
    if s.waiters[i].wait.Granted?
    then Proceed(WakeAll(s.(waiters := Without(s.waiters, i))), s.waiters[i].id, accepted)
    else WakeAll(LeaveCancelled(s, i))
  }

  function InterruptWaiter(w: Waiter, reason: Reason): Waiter {
    match w.wait
    case Waiting => w.(wait := Dropped(reason))
    case Granted => w.(wait := Revoked(reason))
    case _ => w
  }

  /** `Future.cancel()` succeeds only before a thread has picked the call up. */
  function CancelQueued(futures: map<CallId, FutureState>, id: CallId): map<CallId, FutureState> {
    if id in futures && futures[id] == Queued then futures[id := Cancelled] else futures
  }

  function CancelAll(futures: map<CallId, FutureState>, ids: seq<CallId>): map<CallId, FutureState> {
    if ids == [] then futures else CancelQueued(CancelAll(futures, ids[..|ids| - 1]), ids[|ids| - 1])
  }

  predicate IsDone(f: FutureState) { f.Finished? || f.Cancelled? }

  function Remove(ids: seq<CallId>, id: CallId): seq<CallId> {
    if ids == [] then [] else if ids[0] == id then ids[1..] else [ids[0]] + Remove(ids[1..], id)
  }

  function EndMonitor(s: State, id: CallId): State
    requires id in s.futures
  {
    Release(s.(active := Remove(s.active, id), settled := s.settled[id := s.futures[id]]))
  }

  /** A TimeoutError of the call itself reads like a passed deadline. */
  function SettledOutcome(f: FutureState): Outcome {
    match f
    case Finished(Value) => Succeeded
    case Finished(TimeoutError) => TimedOut
    case Finished(OtherError) => Failed
    case _ => CancelledCall
  }

  function RunningIds(s: State): set<CallId> {
    set id | id in s.futures && s.futures[id] == Running
  }

  // -- events -----------------------------------------------------------------------

  datatype Event =
    | Call(id: CallId, accepted: bool)
    | Resume(id: CallId, accepted: bool)
    | Interrupt(id: CallId, reason: Reason)
    | Deliver(id: CallId)
    | ThreadStart(id: CallId)
    | ThreadFinish(id: CallId, result: CallResult)
    | Monitor(id: CallId)
    | CloseStart
    | CloseEnd

  predicate Enabled(s: State, max: nat, e: Event) {
    match e
    case Call(id, _) => id !in s.callers
    case Resume(id, _) => Position(s.waiters, id).Some? && s.waiters[Position(s.waiters, id).value].wait != Waiting
    case Interrupt(id, _) =>
      || (Position(s.waiters, id).Some?
          && var w := s.waiters[Position(s.waiters, id).value]; w.wait == Waiting || w.wait == Granted)
      || (id in s.callers && s.callers[id] == Awaiting(None))
    case Deliver(id) =>
      id in s.callers && s.callers[id].Awaiting? && (s.callers[id].interrupted.Some? || id in s.settled)
    case ThreadStart(id) => id in s.futures && s.futures[id] == Queued && |RunningIds(s)| < max
    case ThreadFinish(id, _) => id in s.futures && s.futures[id] == Running
    case Monitor(id) => id in s.active && id in s.futures && IsDone(s.futures[id])
    case CloseStart => s.accepting
    case CloseEnd => !s.accepting
  }

  /** The awaiting caller runs again, with its result or with the interruption that reached it first. */
  function ResumeCaller(s: State, id: CallId): State
    requires id in s.callers && s.callers[id].Awaiting? && (s.callers[id].interrupted.Some? || id in s.settled)
  {
    match s.callers[id].interrupted
    case Some(reason) =>
      s.(futures := CancelQueued(s.futures, id), callers := s.callers[id := Returned(OutcomeOf(reason))])
    case None => s.(callers := s.callers[id := Returned(SettledOutcome(s.settled[id]))])
  }

  function InterruptCaller(s: State, id: CallId, reason: Reason): State {
    var i := Position(s.waiters, id);
    if i.Some? then s.(waiters := s.waiters[i.value := InterruptWaiter(s.waiters[i.value], reason)])
    else s.(callers := s.callers[id := Awaiting(Some(reason))])
  }

  function Next(s: State, max: nat, e: Event): State
    requires Enabled(s, max, e)
  {
    match e
    case Call(id, accepted) => StartCall(s, id, accepted)
    case Resume(id, accepted) => ResumeWaiter(s, Position(s.waiters, id).value, accepted)
    case Interrupt(id, reason) => InterruptCaller(s, id, reason)
    case Deliver(id) => ResumeCaller(s, id)
    case ThreadStart(id) => s.(futures := s.futures[id := Running])
    case ThreadFinish(id, result) => s.(futures := s.futures[id := Finished(result)])
    case Monitor(id) => EndMonitor(s, id)
    case CloseStart => s.(accepting := false, futures := CancelAll(s.futures, s.active))
    case CloseEnd => s.(futures := CancelAll(s.futures, s.active))
  }

  // -- the object ---------------------------------------------------------------------

  /** The runner with its semaphore, its futures and the tasks awaiting them, updated in place. */
  class BoundedRetrievalRunner {
    var accepting: bool
    var free: nat
    var waiters: seq<Waiter>
    var futures: map<CallId, FutureState>
    var active: seq<CallId>
    var settled: map<CallId, FutureState>
    var callers: map<CallId, Caller>

    constructor (maxConcurrency: nat)
      ensures Snapshot() == Init(maxConcurrency)
    {
      accepting, free, waiters := true, maxConcurrency, [];
      futures, active, settled, callers := map[], [], map[], map[];
    }

    function Snapshot(): State
      reads this
    {
      State(accepting, free, waiters, futures, active, settled, callers)
    }

    /** `_wake_up_next`: hands a free permit to the first waiter still waiting. */
    method WakeUpNext() returns (woken: bool)
      requires free > 0
      modifies this`free, this`waiters
      ensures Snapshot() == WakeNext(old(Snapshot()))
      ensures woken <==> FirstWaiting(old(waiters)).Some?
    {
      for i := 0 to |waiters|
        invariant waiters == old(waiters) && free == old(free)
        invariant forall j | 0 <= j < i :: waiters[j].wait != Waiting
      {
        if waiters[i].wait == Waiting {
          free := free - 1;
          waiters := Grant(waiters, i);
          return true;
        }
      }
      woken := false;
    }

    method WakeUpAll()
      modifies this`free, this`waiters
      ensures Snapshot() == WakeAll(old(Snapshot()))
    {
      while free > 0
        invariant WakeAll(Snapshot()) == WakeAll(old(Snapshot()))
        decreases free
      {
        var woken := WakeUpNext();
        if !woken {
          return;
        }
      }
    }

    method ReleasePermit()
      modifies this`free, this`waiters
      ensures Snapshot() == Release(old(Snapshot()))
    {
      free := free + 1;
      var _ := WakeUpNext();
    }

    /** `run` from its acquired permit up to the next await. */
    method Submit(id: CallId, accepted: bool)
      modifies this
      ensures Snapshot() == Proceed(old(Snapshot()), id, accepted)
    {
      if !accepting {
        ReleasePermit();
        callers := callers[id := Returned(Closed)];
      } else if !accepted {
        ReleasePermit();
        callers := callers[id := Returned(Refused)];
      } else {
        futures := futures[id := Queued];
        active := active + [id];
        callers := callers[id := Awaiting(None)];
      }
    }

    method Run(id: CallId, accepted: bool)
      modifies this
      ensures Snapshot() == StartCall(old(Snapshot()), id, accepted)
    {
      if Locked(Snapshot()) {
        waiters := waiters + [Waiter(id, Waiting)];
        callers := callers[id := Parked];
      } else {
        free := free - 1;
        Submit(id, accepted);
      }
    }

    method RunOn(i: nat, accepted: bool)
      requires i < |waiters| && waiters[i].wait != Waiting
      modifies this
      ensures Snapshot() == ResumeWaiter(old(Snapshot()), i, accepted)
    {
      var w := waiters[i];
      waiters := Without(waiters, i);
      if w.wait.Granted? {
        WakeUpAll();
        Submit(w.id, accepted);
      } else {
        if w.wait.Revoked? {
          free := free + 1;
        }
        callers := callers[w.id := Returned(OutcomeOf(w.wait.reason))];
        WakeUpAll();
      }
    }

    method ReturnTo(id: CallId)
      requires id in callers && callers[id].Awaiting? && (callers[id].interrupted.Some? || id in settled)
      modifies this`futures, this`callers
      ensures Snapshot() == ResumeCaller(old(Snapshot()), id)
    {
      match callers[id].interrupted
      case Some(reason) =>
        CancelIfQueued(id);
        callers := callers[id := Returned(OutcomeOf(reason))];
      case None =>
        callers := callers[id := Returned(SettledOutcome(settled[id]))];
    }

    method CancelIfQueued(id: CallId)
      modifies this`futures
      ensures futures == CancelQueued(old(futures), id)
    {
      if id in futures && futures[id] == Queued {
        futures := futures[id := Cancelled];
      }
    }

    method FinishMonitor(id: CallId)
      requires id in futures && IsDone(futures[id])
      modifies this`active, this`settled, this`free, this`waiters
      ensures Snapshot() == EndMonitor(old(Snapshot()), id)
    {
      settled := settled[id := futures[id]];
      active := Remove(active, id);
      ReleasePermit();
    }

    /** `aclose` up to its wait; the result is what a second closing call reports at once. */
    method BeginClose() returns (alreadyClosing: Option<nat>)
      modifies this`accepting, this`futures
      ensures old(accepting) ==> alreadyClosing.None? && Snapshot() == Next(old(Snapshot()), 0, CloseStart)
      ensures !old(accepting) ==> alreadyClosing == Some(|active|) && Snapshot() == old(Snapshot())
    {
      if !accepting {
        return Some(|active|);
      }
      accepting := false;
      CancelTracked();
      alreadyClosing := None;
    }

    method CancelTracked()
      modifies this`futures
      ensures futures == CancelAll(old(futures), active)
    {
      for i := 0 to |active|
        invariant futures == CancelAll(old(futures), active[..i])
      {
        assert active[..i + 1][..i] == active[..i];
        CancelIfQueued(active[i]);
      }
      assert active[..|active|] == active;
    }

    /** The end of `aclose`: the executor drops whatever is still queued; the count is of calls still unfinished. */
    method EndClose() returns (unfinished: nat)
      requires !accepting
      modifies this`futures
      ensures Snapshot() == Next(old(Snapshot()), 0, CloseEnd) && unfinished == |active|
    {
      unfinished := |active|;
      CancelTracked();
    }
  }
}
