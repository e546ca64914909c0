/** Polling the advisory lock until a deadline (persistence/lock.py). */
module AdvisoryLock {
  /**
    What the loop sees: `free(k)` is the outcome of the k-th try-lock, `clock(0)` the reading the deadline is set from
    and `clock(k + 1)` the reading after the k-th failed try.
   */
  datatype Environment = Environment(free: nat -> bool, clock: nat -> int)

  /** A sleep lasts at least as long as asked. */
  ghost predicate ClockRuns(env: Environment, poll: int) {
    forall k: nat :: env.clock(k) <= env.clock(k + 1) && (k > 0 ==> env.clock(k) + poll <= env.clock(k + 1))
  }

  /** All tries before the k-th failed and left time for another. */
  ghost predicate StillTrying(env: Environment, deadline: int, k: nat) {
    forall j: nat | j < k :: !env.free(j) && env.clock(j + 1) < deadline
  }

  ghost predicate GrantedAt(env: Environment, deadline: int, k: nat) {
    env.free(k) && StillTrying(env, deadline, k)
  }

  ghost predicate GivesUpAt(env: Environment, deadline: int, k: nat) {
    !env.free(k) && env.clock(k + 1) >= deadline && StillTrying(env, deadline, k)
  }

  ghost predicate Grantable(env: Environment, deadline: int) { exists k: nat :: GrantedAt(env, deadline, k) }

  /**
    The lock is acquired exactly when some try succeeds whose predecessors all failed before the deadline; there is
    always at least one try, even with no time left, and never another one after a failure past the deadline.
   */
  method AcquireWithDeadline(env: Environment, timeout: int, poll: int) returns (acquired: bool, tries: nat)
    requires poll > 0 && ClockRuns(env, poll)
    ensures tries > 0
    ensures acquired ==> GrantedAt(env, env.clock(0) + timeout, tries - 1)
    ensures !acquired ==> GivesUpAt(env, env.clock(0) + timeout, tries - 1)
    ensures acquired <==> Grantable(env, env.clock(0) + timeout)
  {
    var deadline := env.clock(0) + timeout;
    tries := 0;
    while true
      invariant StillTrying(env, deadline, tries)
      invariant tries > 0 ==> env.clock(tries) < deadline
      decreases deadline - env.clock(tries), if tries == 0 then 1 else 0
    {
      var k := tries;
      tries := k + 1;
      if env.free(k) {
        assert GrantedAt(env, deadline, k);
        return true, tries;
      }
      if env.clock(k + 1) >= deadline {
        OnlyOneEnd(env, deadline, k);
        return false, tries;
      }
      TryAgain(env, deadline, k);
    }
  }

  lemma TryAgain(env: Environment, deadline: int, k: nat)
    requires StillTrying(env, deadline, k) && !env.free(k) && env.clock(k + 1) < deadline
    ensures StillTrying(env, deadline, k + 1)
  {
    forall j: nat | j < k + 1 ensures !env.free(j) && env.clock(j + 1) < deadline {
      if j < k { assert !env.free(j); }
    }
  }

  /** Giving up at one try rules out a grant at any other. */
  lemma OnlyOneEnd(env: Environment, deadline: int, k: nat)
    requires GivesUpAt(env, deadline, k)
    ensures !Grantable(env, deadline)
  {
    forall j: nat ensures !GrantedAt(env, deadline, j) {
      if j <= k {
        assert j < k ==> !env.free(j);
      } else {
        assert env.clock(k + 1) >= deadline;
      }
    }
  }
}
