/** Permits are given in the order in which the calls came (asyncio.Semaphore under services/retrieval_runner.py). */
module RunnerFairness {
  import opened Prelude
  import opened RetrievalRunner
  import opened RunnerSafety

  /** The calls of a run, in order. */
  function Calls(events: seq<Event>): seq<CallId> {
    if events == [] then [] else Calls(events[..|events| - 1]) + Coming(events[|events| - 1])
  }

  ghost predicate CameBefore(order: seq<CallId>, a: CallId, b: CallId) {
    exists i, j | 0 <= i < j < |order| :: order[i] == a && order[j] == b
  }

  ghost predicate IsWaiting(ws: seq<Waiter>, id: CallId) { exists i | 0 <= i < |ws| :: ws[i] == Waiter(id, Waiting) }

  ghost predicate HoldsPermit(ws: seq<Waiter>, id: CallId) {
    exists i | 0 <= i < |ws| :: ws[i].id == id && (ws[i].wait.Granted? || ws[i].wait.Revoked?)
  }

  /** The call was given a permit: it holds one, was submitted, or was turned away after it had got one. */
  ghost predicate Served(s: State, id: CallId) {
    || HoldsPermit(s.waiters, id) || id in s.futures
    || (id in s.callers && (s.callers[id] == Returned(Closed) || s.callers[id] == Returned(Refused)))
  }

  ghost predicate InOrder(ws: seq<Waiter>, order: seq<CallId>) {
    forall i, j | 0 <= i < j < |ws| :: CameBefore(order, ws[i].id, ws[j].id)
  }

  /** No one in `served` came after a call that still waits. */
  ghost predicate FirstCome(ws: seq<Waiter>, order: seq<CallId>, served: set<CallId>) {
    forall a, b | IsWaiting(ws, a) && b in served :: !CameBefore(order, a, b)
  }

  ghost predicate Covers(s: State, served: set<CallId>) {
    forall b | Served(s, b) :: b in served
  }

  ghost predicate Fair(s: State, order: seq<CallId>, served: set<CallId>) {
    && NoDup(order) && InOrder(s.waiters, order) && FirstCome(s.waiters, order, served) && Covers(s, served)
    && (forall id | id in served :: id in s.callers)
    && (forall i | 0 <= i < |s.waiters| :: s.waiters[i].id in s.callers)
  }

  ghost predicate AllCalled(s: State, order: seq<CallId>) { forall id :: id in s.callers <==> id in order }

  lemma NotBoth(order: seq<CallId>, a: CallId, b: CallId)
    requires NoDup(order) && CameBefore(order, a, b)
    ensures !CameBefore(order, b, a) && a in order && b in order
  {}

  // -- waking ---------------------------------------------------------------------------------

  lemma WakeNextFair(s: State, order: seq<CallId>, served: set<CallId>) returns (more: set<CallId>)
    requires Fair(s, order, served)
    ensures served <= more && Fair(WakeNext(s), order, more)
  {
    more := served;
    var first := FirstWaiting(s.waiters);
    if s.free > 0 && first.Some? {
      var k := first.value;
      var woken := s.waiters[k].id;
      more := served + {woken};
      var t := WakeNext(s);
      forall a, b | IsWaiting(t.waiters, a) && b in more ensures !CameBefore(order, a, b) {
        var i :| 0 <= i < |t.waiters| && t.waiters[i] == Waiter(a, Waiting);
        assert i > k && s.waiters[i] == Waiter(a, Waiting);
        if b == woken {
          assert CameBefore(order, s.waiters[k].id, s.waiters[i].id);
          NotBoth(order, woken, a);
        }
      }
      GrantCovers(s, served, k);
    }
  }

  lemma GrantCovers(s: State, served: set<CallId>, k: nat)
    requires k < |s.waiters| && Covers(s, served)
    ensures Covers(s.(free := 0, waiters := Grant(s.waiters, k)), served + {s.waiters[k].id})
  {
    var t := s.(free := 0, waiters := Grant(s.waiters, k));
    forall b | Served(t, b) ensures b in served + {s.waiters[k].id} {
      if HoldsPermit(t.waiters, b) {
        var i :| 0 <= i < |t.waiters| && t.waiters[i].id == b
                 && (t.waiters[i].wait.Granted? || t.waiters[i].wait.Revoked?);
        assert i != k ==> s.waiters[i] == t.waiters[i] && HoldsPermit(s.waiters, b);
      }
      assert b != s.waiters[k].id ==> Served(s, b);
    }
  }

  lemma {:induction false} WakeAllFair(s: State, order: seq<CallId>, served: set<CallId>) returns (more: set<CallId>)
    requires Fair(s, order, served)
    ensures served <= more && Fair(WakeAll(s), order, more)
    decreases s.free
  {
    more := served;
    if s.free != 0 && FirstWaiting(s.waiters).Some? {
      more := WakeNextFair(s, order, served);
      more := WakeAllFair(WakeNext(s), order, more);
    }
  }

  lemma ReleaseFair(s: State, order: seq<CallId>, served: set<CallId>) returns (more: set<CallId>)
    requires Fair(s, order, served)
    ensures served <= more && Fair(Release(s), order, more)
  {
    more := WakeNextFair(s.(free := s.free + 1), order, served);
  }

  // -- the other steps ---------------------------------------------------------------------------

  lemma ProceedFair(s: State, id: CallId, accepted: bool, order: seq<CallId>, served: set<CallId>)
    returns (more: set<CallId>)
    requires Fair(s, order, served) && id in served
    ensures served <= more && Fair(Proceed(s, id, accepted), order, more)
  {
    more := served;
    if !s.accepting || !accepted { more := ReleaseFair(s, order, served); }
    var t := Proceed(s, id, accepted);
    forall b | Served(t, b) ensures b in more {
      if b != id { assert Served(if !s.accepting || !accepted then Release(s) else s, b); }
    }
  }

  lemma LeaveFair(s: State, i: nat, order: seq<CallId>, served: set<CallId>)
    requires Fair(s, order, served) && i < |s.waiters|
    ensures Fair(s.(waiters := Without(s.waiters, i)), order, served)
    ensures HoldsPermit(s.waiters, s.waiters[i].id) ==> s.waiters[i].id in served
  {
    var left := Without(s.waiters, i);
    forall j | 0 <= j < |left| ensures left[j] == s.waiters[if j < i then j else j + 1] {}
    forall a | IsWaiting(left, a) ensures IsWaiting(s.waiters, a) {
      var j :| 0 <= j < |left| && left[j] == Waiter(a, Waiting);
      assert s.waiters[if j < i then j else j + 1] == left[j];
    }
    var t := s.(waiters := left);
    forall b | Served(t, b) ensures b in served {
      if HoldsPermit(left, b) {
        var j :| 0 <= j < |left| && left[j].id == b && (left[j].wait.Granted? || left[j].wait.Revoked?);
        assert s.waiters[if j < i then j else j + 1] == left[j];
      }
      assert Served(s, b);
    }
    if HoldsPermit(s.waiters, s.waiters[i].id) { assert Served(s, s.waiters[i].id); }
  }

  lemma ResumeFair(s: State, i: nat, accepted: bool, order: seq<CallId>, served: set<CallId>)
    returns (more: set<CallId>)
    requires Fair(s, order, served) && i < |s.waiters| && s.waiters[i].wait != Waiting
    ensures served <= more && Fair(ResumeWaiter(s, i, accepted), order, more)
  {
    LeaveFair(s, i, order, served);
    var w := s.waiters[i];
    var left := s.(waiters := Without(s.waiters, i));
    if w.wait.Granted? {
      assert HoldsPermit(s.waiters, w.id);
      more := WakeAllFair(left, order, served);
      more := ProceedFair(WakeAll(left), w.id, accepted, order, more);
    } else {
      ReturnFair(left, LeaveCancelled(s, i), order, served);
      more := WakeAllFair(LeaveCancelled(s, i), order, served);
    }
  }

  /** A caller that returns without a permit is not served, whatever becomes of the permits. */
  lemma ReturnFair(s: State, t: State, order: seq<CallId>, served: set<CallId>)
    requires Fair(s, order, served) && t.waiters == s.waiters && t.futures.Keys == s.futures.Keys
    requires s.callers.Keys <= t.callers.Keys
    requires forall x | x in t.callers && (t.callers[x] == Returned(Closed) || t.callers[x] == Returned(Refused)) ::
               x in s.callers && s.callers[x] == t.callers[x]
    ensures Fair(t, order, served)
  {
    forall b | Served(t, b) ensures b in served { assert Served(s, b); }
  }

  lemma InterruptFair(s: State, i: nat, reason: Reason, order: seq<CallId>, served: set<CallId>)
    requires Fair(s, order, served) && i < |s.waiters|
    ensures Fair(s.(waiters := s.waiters[i := InterruptWaiter(s.waiters[i], reason)]), order, served)
  {
    var t := s.(waiters := s.waiters[i := InterruptWaiter(s.waiters[i], reason)]);
    forall a | IsWaiting(t.waiters, a) ensures IsWaiting(s.waiters, a) {
      var j :| 0 <= j < |t.waiters| && t.waiters[j] == Waiter(a, Waiting);
      assert j != i && s.waiters[j] == t.waiters[j];
    }
    forall b | Served(t, b) ensures b in served {
      if HoldsPermit(t.waiters, b) {
        var j :| 0 <= j < |t.waiters| && t.waiters[j].id == b
                 && (t.waiters[j].wait.Granted? || t.waiters[j].wait.Revoked?);
        assert s.waiters[j].id == b && (s.waiters[j].wait.Granted? || s.waiters[j].wait.Revoked?);
      }
      assert Served(s, b);
    }
  }

  lemma OrderGrows(order: seq<CallId>, id: CallId, a: CallId, b: CallId)
    requires b != id
    ensures CameBefore(order + [id], a, b) <==> CameBefore(order, a, b)
  {
    var more := order + [id];
    if CameBefore(order, a, b) {
      var i, j :| 0 <= i < j < |order| && order[i] == a && order[j] == b;
      assert more[i] == a && more[j] == b;
    }
    if CameBefore(more, a, b) {
      var i, j :| 0 <= i < j < |more| && more[i] == a && more[j] == b;
      assert order[i] == a && order[j] == b;
    }
  }

  /** A call that has only just come. */
  lemma KnownFair(s: State, id: CallId, order: seq<CallId>, served: set<CallId>)
    requires Fair(s, order, served) && AllCalled(s, order) && id !in s.callers
    ensures Fair(s.(callers := s.callers[id := Parked]), order + [id], served)
  {
    var known := s.(callers := s.callers[id := Parked]);
    forall a, b | b != id ensures CameBefore(order + [id], a, b) <==> CameBefore(order, a, b) {
      OrderGrows(order, id, a, b);
    }
    forall b | Served(known, b) ensures b in served { assert Served(s, b); }
    assert FirstCome(known.waiters, order + [id], served) by {
      forall a, b | IsWaiting(s.waiters, a) && b in served ensures !CameBefore(order + [id], a, b) { assert b != id; }
    }
  }

  lemma CallFair(s: State, id: CallId, accepted: bool, order: seq<CallId>, served: set<CallId>)
    returns (more: set<CallId>)
    requires Fair(s, order, served) && AllCalled(s, order) && id !in s.callers
    ensures Fair(StartCall(s, id, accepted), order + [id], more)
  {
    KnownFair(s, id, order, served);
    var known := s.(callers := s.callers[id := Parked]);
    if Locked(s) {
      more := served;
      QueuedFair(known, id, order + [id], served);
    } else {
      NoneWaitingFair(known, id, order + [id], served);
      more := ProceedFair(known.(free := s.free - 1), id, accepted, order + [id], served + {id});
      SameProceed(s.(free := s.free - 1), id, accepted);
    }
  }

  lemma NoneWaitingFair(s: State, id: CallId, order: seq<CallId>, served: set<CallId>)
    requires Fair(s, order, served) && !Locked(s) && id in s.callers
    ensures Fair(s.(free := s.free - 1), order, served + {id})
  {
    assert forall i | 0 <= i < |s.waiters| :: s.waiters[i].wait.Dropped?;
    forall b | Served(s.(free := s.free - 1), b) ensures b in served { assert Served(s, b); }
  }

  lemma SameProceed(s: State, id: CallId, accepted: bool)
    ensures Proceed(s.(callers := s.callers[id := Parked]), id, accepted) == Proceed(s, id, accepted)
  {}

  lemma QueuedFair(s: State, id: CallId, order: seq<CallId>, served: set<CallId>)
    requires Fair(s, order, served) && order != [] && order[|order| - 1] == id && id in s.callers
    requires forall i | 0 <= i < |s.waiters| :: s.waiters[i].id in order && s.waiters[i].id != id
    ensures Fair(s.(waiters := s.waiters + [Waiter(id, Waiting)]), order, served)
  {
    var t := s.(waiters := s.waiters + [Waiter(id, Waiting)]);
    forall i | 0 <= i < |s.waiters| ensures CameBefore(order, s.waiters[i].id, id) {
      var k :| 0 <= k < |order| && order[k] == s.waiters[i].id;
      assert k < |order| - 1;
    }
    forall a, b | IsWaiting(t.waiters, a) && b in served ensures !CameBefore(order, a, b) {
      if a != id {
        var j :| 0 <= j < |t.waiters| && t.waiters[j] == Waiter(a, Waiting);
        assert s.waiters[j] == Waiter(a, Waiting);
      }
    }
    forall b | Served(t, b) ensures b in served {
      if HoldsPermit(t.waiters, b) {
        var j :| 0 <= j < |t.waiters| && t.waiters[j].id == b
                 && (t.waiters[j].wait.Granted? || t.waiters[j].wait.Revoked?);
        assert s.waiters[j] == t.waiters[j];
      }
      assert Served(s, b);
    }
  }

  /** The call that an event brings. */
  function Coming(e: Event): seq<CallId> {
    match e
    case Call(id, _) => [id]
    case _ => []
  }

  lemma QuietFair(s: State, max: nat, e: Event, order: seq<CallId>, served: set<CallId>)
    requires Enabled(s, max, e) && Fair(s, order, served)
    requires e.CloseStart? || e.CloseEnd? || e.Deliver? || e.ThreadStart? || e.ThreadFinish?
    ensures Fair(Next(s, max, e), order, served) && Next(s, max, e).callers.Keys == s.callers.Keys
  {
    CancelAllIs(s.futures, s.active);
    ReturnFair(s, Next(s, max, e), order, served);
  }

  lemma InterruptedFair(s: State, max: nat, id: CallId, reason: Reason, order: seq<CallId>, served: set<CallId>)
    requires Enabled(s, max, Interrupt(id, reason)) && Fair(s, order, served)
    ensures var t := InterruptCaller(s, id, reason); Fair(t, order, served) && t.callers.Keys == s.callers.Keys
  {
    var i := Position(s.waiters, id);
    if i.Some? {
      InterruptFair(s, i.value, reason, order, served);
    } else {
      ReturnFair(s, InterruptCaller(s, id, reason), order, served);
    }
  }

  lemma MonitorFair(s: State, id: CallId, order: seq<CallId>, served: set<CallId>) returns (more: set<CallId>)
    requires id in s.futures && Fair(s, order, served)
    ensures Fair(EndMonitor(s, id), order, more) && EndMonitor(s, id).callers == s.callers
  {
    var t := s.(active := Remove(s.active, id), settled := s.settled[id := s.futures[id]]);
    ReturnFair(s, t, order, served);
    more := ReleaseFair(t, order, served);
  }

  lemma StepFair(s: State, max: nat, e: Event, order: seq<CallId>, served: set<CallId>) returns (more: set<CallId>)
    requires Inv(s, max) && Enabled(s, max, e) && Fair(s, order, served) && AllCalled(s, order)
    ensures Fair(Next(s, max, e), order + Coming(e), more) && AllCalled(Next(s, max, e), order + Coming(e))
  {
    more := served;
    assert order + [] == order;
    match e {
      case Call(id, accepted) =>
        more := CallFair(s, id, accepted, order, served);
        CalledOne(s, id, accepted);
      case Resume(id, accepted) =>
        var i := Position(s.waiters, id).value;
        more := ResumeFair(s, i, accepted, order, served);
        ResumedOne(s, i, accepted);
      case Interrupt(id, reason) => InterruptedFair(s, max, id, reason, order, served);
      case Monitor(id) => more := MonitorFair(s, id, order, served);
      case _ => QuietFair(s, max, e, order, served);
    }
  }

  lemma CalledOne(s: State, id: CallId, accepted: bool)
    ensures StartCall(s, id, accepted).callers.Keys == s.callers.Keys + {id}
  {}

  lemma ResumedOne(s: State, i: nat, accepted: bool)
    requires WaitersParked(s) && i < |s.waiters| && s.waiters[i].wait != Waiting
    ensures ResumeWaiter(s, i, accepted).callers.Keys == s.callers.Keys
  {
    WakeAllWakes(s.(waiters := Without(s.waiters, i)));
    if !s.waiters[i].wait.Granted? { WakeAllWakes(LeaveCancelled(s, i)); }
  }

  lemma {:induction false} RunFair(max: nat, events: seq<Event>) returns (served: set<CallId>)
    requires After(max, events).Some?
    ensures Fair(After(max, events).value, Calls(events), served) && AllCalled(After(max, events).value, Calls(events))
  {
    served := {};
    if events != [] {
      var init, e := events[..|events| - 1], events[|events| - 1];
      served := RunFair(max, init);
      RunKeepsInv(max, init);
      served := StepFair(After(max, init).value, max, e, Calls(init), served);
      assert Calls(events) == Calls(init) + Coming(e);
    }
  }

  /** While a call waits for a permit, no call that came later has been given one. */
  lemma FirstComeFirstServed(max: nat, events: seq<Event>, a: CallId, b: CallId)
    requires After(max, events).Some? && CameBefore(Calls(events), a, b)
    ensures var s := After(max, events).value; IsWaiting(s.waiters, a) ==> !Served(s, b)
  {
    var served := RunFair(max, events);
  }
}
