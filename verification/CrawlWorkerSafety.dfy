/** What a worker run reports, and how many claims repeated runs can make. */
module CrawlWorkerSafety {
  import opened Prelude
  import opened CrawlJobs
  import opened CrawlWorker

  // -- one pass ---------------------------------------------------------------------------

  /** A pass claims one job and leaves its record in the status of the attempt; no other record changes. */
  lemma PassIs(r: Run, limits: Limits, oracle: JobId -> Attempt, now: nat)
    requires WellFormed(r.bundle)
    ensures var p := Pass(r, limits, oracle, now); var claim := Claim(r.bundle, Ids(r.claimed), now).1;
      && WellFormed(p.bundle) && p.bundle.refs == r.bundle.refs
      && (claim.None? ==> p == r)
      && (claim.Some? ==>
            var id := claim.value;
            && id !in r.claimed && Names(r.bundle.refs, id) && id in r.bundle.jobs
            && Claimable(r.bundle.jobs[id].status)
            && p.claimed == r.claimed + [id]
            && p.bundle.jobs.Keys == r.bundle.jobs.Keys
            && (forall x | x in r.bundle.jobs && x != id :: p.bundle.jobs[x] == r.bundle.jobs[x])
            && p.bundle.jobs[id].attempts == r.bundle.jobs[id].attempts + 1
            && p.bundle.jobs[id].status
               == StatusAfter(Effective(id, oracle(id)), r.bundle.jobs[id].attempts + 1, limits.maxAttempts))
  {
    PassKeepsWellFormed(r, limits, oracle, now);
    SortedRefsKnown(r.bundle);
    var (b, claim) := Claim(r.bundle, Ids(r.claimed), now);
    if claim.Some? {
      ClaimedIsKnown(r.bundle, Ids(r.claimed), now);
      var id := claim.value;
      RecordIs(r.(bundle := b, claimed := r.claimed + [id]), id, Effective(id, oracle(id)), limits, now);
    }
  }

  lemma RecordIs(r: Run, id: JobId, a: Attempt, limits: Limits, now: nat)
    requires id in r.bundle.jobs && (SafeJobId(id) || a.HandlerFailed?)
    requires r.bundle.jobs[id].status == InProgress && r.bundle.jobs[id].startedAt.Some?
    ensures var p := Record(r, id, a, limits, now);
      && p.claimed == r.claimed && p.bundle.refs == r.bundle.refs && p.bundle.jobs.Keys == r.bundle.jobs.Keys
      && (forall x | x in r.bundle.jobs && x != id :: p.bundle.jobs[x] == r.bundle.jobs[x])
      && p.bundle.jobs[id].attempts == r.bundle.jobs[id].attempts
      && p.bundle.jobs[id].status == StatusAfter(a, r.bundle.jobs[id].attempts, limits.maxAttempts)
  {}

  // -- the report --------------------------------------------------------------------------

  function Reported(r: Run): seq<JobId> { r.completed + r.unavailable + r.skipped + r.retryable + r.failed }

  /** The job a raising attempt was for is claimed but in no list. */
  function Unreported(r: Run): seq<JobId>
    requires r.raised.Some? ==> r.claimed != []
  {
    if r.raised.Some? then [r.claimed[|r.claimed| - 1]] else []
  }

  ghost predicate HaveStatus(ids: seq<JobId>, b: Bundle, s: Status) {
    forall i | 0 <= i < |ids| :: ids[i] in b.jobs && b.jobs[ids[i]].status == s
  }

  ghost predicate Faithful(r: Run) {
    && HaveStatus(r.completed, r.bundle, Completed)
    && HaveStatus(r.unavailable, r.bundle, ContentUnavailable)
    && HaveStatus(r.skipped, r.bundle, Skipped)
    && HaveStatus(r.retryable, r.bundle, Retryable)
    && HaveStatus(r.failed, r.bundle, Failed)
  }

  ghost predicate Accounted(r: Run) {
    && NoDup(r.claimed) && (r.raised.Some? ==> r.claimed != [])
    && multiset(r.claimed) == multiset(Reported(r)) + multiset(Unreported(r))
  }

  lemma Kept(ids: seq<JobId>, b: Bundle, c: Bundle, id: JobId, s: Status)
    requires HaveStatus(ids, b, s) && id !in ids
    requires c.jobs.Keys == b.jobs.Keys && forall x | x in b.jobs && x != id :: c.jobs[x] == b.jobs[x]
    ensures HaveStatus(ids, c, s)
  {
    forall i | 0 <= i < |ids| ensures ids[i] in c.jobs && c.jobs[ids[i]].status == s { assert ids[i] in ids; }
  }

  /** Which list an attempt goes to. */
  lemma RecordLists(r: Run, id: JobId, a: Attempt, limits: Limits, now: nat)
    requires id in r.bundle.jobs && r.raised.None?
    ensures var p := Record(r, id, a, limits, now);
            var s := StatusAfter(a, r.bundle.jobs[id].attempts, limits.maxAttempts);
      var listed := !a.PageBlocked? && !a.HandlerFailed?;
      && p.completed == r.completed + (if listed && s == Completed then [id] else [])
      && p.unavailable == r.unavailable + (if listed && s == ContentUnavailable then [id] else [])
      && p.skipped == r.skipped + (if listed && s == Skipped then [id] else [])
      && p.retryable == r.retryable + (if listed && s == Retryable then [id] else [])
      && p.failed == r.failed + (if listed && s == Failed then [id] else [])
      && (p.raised.Some? <==> !listed)
      && (listed ==> s == Completed || s == ContentUnavailable || s == Skipped || s == Retryable || s == Failed)
  {}

  lemma RecordAccounts(r: Run, id: JobId, a: Attempt, limits: Limits, now: nat, before: Run)
    requires id in r.bundle.jobs && r.raised.None? && Accounted(before) && before.raised.None?
    requires r == before.(bundle := r.bundle, claimed := before.claimed + [id]) && id !in before.claimed
    ensures Accounted(Record(r, id, a, limits, now))
  {
    RecordLists(r, id, a, limits, now);
    var p := Record(r, id, a, limits, now);
    assert p.claimed == before.claimed + [id];
    if p.raised.Some? {
      SameListsAccounted(before, p, id);
    } else {
      ReportedGrows(before, p, id);
      GrownListsAccounted(before, p, id);
    }
  }

  lemma SameListsAccounted(r: Run, p: Run, id: JobId)
    requires Accounted(r) && r.raised.None? && p.raised.Some? && id !in r.claimed && p.claimed == r.claimed + [id]
    requires Reported(p) == Reported(r)
    ensures Accounted(p)
  {
    assert Unreported(p) == [id];
    assert multiset(p.claimed) == multiset(r.claimed) + multiset{id};
  }

  lemma GrownListsAccounted(r: Run, p: Run, id: JobId)
    requires Accounted(r) && r.raised.None? && p.raised.None? && id !in r.claimed && p.claimed == r.claimed + [id]
    requires multiset(Reported(p)) == multiset(Reported(r)) + multiset{id}
    ensures Accounted(p)
  {
    assert multiset(p.claimed) == multiset(r.claimed) + multiset{id};
  }

  lemma ReportedGrows(r: Run, p: Run, id: JobId)
    requires (p.completed == r.completed + [id] && p.unavailable == r.unavailable && p.skipped == r.skipped
              && p.retryable == r.retryable && p.failed == r.failed)
          || (p.completed == r.completed && p.unavailable == r.unavailable + [id] && p.skipped == r.skipped
              && p.retryable == r.retryable && p.failed == r.failed)
          || (p.completed == r.completed && p.unavailable == r.unavailable && p.skipped == r.skipped + [id]
              && p.retryable == r.retryable && p.failed == r.failed)
          || (p.completed == r.completed && p.unavailable == r.unavailable && p.skipped == r.skipped
              && p.retryable == r.retryable + [id] && p.failed == r.failed)
          || (p.completed == r.completed && p.unavailable == r.unavailable && p.skipped == r.skipped
              && p.retryable == r.retryable && p.failed == r.failed + [id])
    ensures multiset(Reported(p)) == multiset(Reported(r)) + multiset{id}
  {}

  lemma PassAccounts(r: Run, limits: Limits, oracle: JobId -> Attempt, now: nat)
    requires WellFormed(r.bundle) && !Over(r) && Accounted(r)
    ensures Accounted(Pass(r, limits, oracle, now))
  {
    var (b, claim) := Claim(r.bundle, Ids(r.claimed), now);
    if claim.Some? {
      PassIs(r, limits, oracle, now);
      SortedRefsKnown(r.bundle);
      var id := claim.value;
      RecordAccounts(r.(bundle := b, claimed := r.claimed + [id]), id, Effective(id, oracle(id)), limits, now, r);
    }
  }

  lemma ListedWereClaimed(r: Run, id: JobId)
    requires Accounted(r) && id !in r.claimed
    ensures id !in r.completed && id !in r.unavailable && id !in r.skipped && id !in r.retryable && id !in r.failed
  {
    assert id !in multiset(r.claimed);
    assert id !in multiset(Reported(r));
    assert id !in Reported(r);
  }

  lemma PassFaithful(r: Run, limits: Limits, oracle: JobId -> Attempt, now: nat)
    requires WellFormed(r.bundle) && !Over(r) && Accounted(r) && Faithful(r)
    ensures Faithful(Pass(r, limits, oracle, now))
  {
    var (b, claim) := Claim(r.bundle, Ids(r.claimed), now);
    var p := Pass(r, limits, oracle, now);
    PassIs(r, limits, oracle, now);
    if claim.Some? {
      SortedRefsKnown(r.bundle);
      var id := claim.value;
      ListedWereClaimed(r, id);
      Kept(r.completed, r.bundle, p.bundle, id, Completed);
      Kept(r.unavailable, r.bundle, p.bundle, id, ContentUnavailable);
      Kept(r.skipped, r.bundle, p.bundle, id, Skipped);
      Kept(r.retryable, r.bundle, p.bundle, id, Retryable);
      Kept(r.failed, r.bundle, p.bundle, id, Failed);
      RecordLists(r.(bundle := b, claimed := r.claimed + [id]), id, Effective(id, oracle(id)), limits, now);
    }
  }

  ghost predicate ReportOk(r: Run) {
    WellFormed(r.bundle) && Accounted(r) && Faithful(r)
  }

  lemma {:induction false} WorkReports(b: Bundle, n: nat, limits: Limits, oracle: JobId -> Attempt, now: nat)
    requires WellFormed(b)
    ensures var r := Work(Start(b), n, limits, oracle, now); ReportOk(r) && |r.claimed| <= n
  {
    if n > 0 {
      WorkReports(b, n - 1, limits, oracle, now);
      var before := Work(Start(b), n - 1, limits, oracle, now);
      if !Over(before) {
        PassIs(before, limits, oracle, now);
        PassAccounts(before, limits, oracle, now);
        PassFaithful(before, limits, oracle, now);
      }
    }
  }

  /**
    The report of a worker run: no job is claimed twice or listed twice, the lists together are exactly the claimed jobs
    but for the one whose attempt raised, at most `maxJobs` are claimed, and every list matches the persisted statuses.
   */
  lemma ReportIsExact(b: Bundle, limits: Limits, oracle: JobId -> Attempt, now: nat)
    requires WellFormed(b)
    ensures var (r, error) := Crawl(b, limits, oracle, now);
      && NoDup(r.claimed) && NoDup(Reported(r)) && Faithful(r)
      && (ValidLimits(limits) ==> |r.claimed| <= limits.maxJobs)
      && (r.raised.Some? ==> r.claimed != [])
      && (forall id :: id in r.claimed <==> id in Reported(r) || id in Unreported(r))
      && (r.raised.Some? ==> r.claimed[|r.claimed| - 1] !in Reported(r))
  {
    var n: nat := if ValidLimits(limits) then limits.maxJobs else 0;
    WorkReports(b, n, limits, oracle, now);
    var r := Work(Start(b), n, limits, oracle, now);
    assert Crawl(b, limits, oracle, now).0 == r;
    ReportedDistinct(r);
  }

  lemma ReportedDistinct(r: Run)
    requires Accounted(r)
    ensures NoDup(Reported(r))
    ensures forall id :: id in r.claimed <==> id in Reported(r) || id in Unreported(r)
    ensures r.raised.Some? ==> r.claimed[|r.claimed| - 1] !in Reported(r)
  {
    NoDupMultiset(r.claimed);
    NoDupMultiset(Reported(r));
    forall x ensures multiset(Reported(r))[x] <= 1 {
      assert multiset(Reported(r))[x] <= multiset(r.claimed)[x];
    }
    forall id ensures id in r.claimed <==> id in Reported(r) || id in Unreported(r) {
      assert id in r.claimed <==> id in multiset(r.claimed);
      assert id in Reported(r) <==> id in multiset(Reported(r));
      assert id in Unreported(r) <==> id in multiset(Unreported(r));
    }
    if r.raised.Some? {
      var last := r.claimed[|r.claimed| - 1];
      assert multiset(r.claimed)[last] == multiset(Reported(r))[last] + 1;
      assert multiset(r.claimed)[last] <= 1;
      assert last !in multiset(Reported(r));
    }
  }

  // -- how many claims there can be ------------------------------------------------------------

  /** Attempts a claimable job has left. */
  function Left(job: Job, max: nat): nat {
    if Claimable(job.status) && job.attempts < max then max - job.attempts else 0
  }

  function Remaining(refs: seq<Ref>, jobs: map<JobId, Job>, max: nat): nat
    requires AllKnown(refs, jobs)
  {
    if refs == [] then 0
    else Remaining(refs[..|refs| - 1], jobs, max) + Left(jobs[refs[|refs| - 1].id], max)
  }

  /** Jobs that can still be claimed have attempts left. */
  ghost predicate BelowLimit(b: Bundle, max: nat) {
    forall i | 0 <= i < |b.refs| && b.refs[i].id in b.jobs && Claimable(b.jobs[b.refs[i].id].status) ::
      b.jobs[b.refs[i].id].attempts < max
  }

  lemma {:induction false} RemainingSame(
      refs: seq<Ref>, jobs: map<JobId, Job>, after: map<JobId, Job>, max: nat, id: JobId)
    requires AllKnown(refs, jobs) && AllKnown(refs, after) && !Names(refs, id)
    requires forall x | x in jobs && x != id :: x in after && after[x] == jobs[x]
    ensures Remaining(refs, after, max) == Remaining(refs, jobs, max)
  {
    if refs != [] {
      var init := refs[..|refs| - 1];
      assert refs[|refs| - 1].id != id;
      NamesGrow(init, refs, id);
      RemainingSame(init, jobs, after, max, id);
    }
  }

  /** Changing one referenced job changes the sum by that job's share. */
  lemma {:induction false} RemainingChanges(
      refs: seq<Ref>, jobs: map<JobId, Job>, after: map<JobId, Job>, max: nat, id: JobId)
    requires AllKnown(refs, jobs) && AllKnown(refs, after) && Names(refs, id) && id in jobs && id in after
    requires forall x | x in jobs && x != id :: x in after && after[x] == jobs[x]
    requires forall i, j | 0 <= i < j < |refs| :: refs[i].id != refs[j].id
    ensures Remaining(refs, after, max) + Left(jobs[id], max) == Remaining(refs, jobs, max) + Left(after[id], max)
  {
    var init, last := refs[..|refs| - 1], refs[|refs| - 1];
    if last.id == id {
      forall i | 0 <= i < |init| ensures init[i].id != id { assert refs[i].id != refs[|refs| - 1].id; }
      RemainingSame(init, jobs, after, max, id);
    } else {
      var i :| 0 <= i < |refs| && refs[i].id == id;
      assert init[i].id == id;
      RemainingChanges(init, jobs, after, max, id);
    }
  }

  /** The worker meets a page block on this job and can record it. */
  predicate PageBlocks(oracle: JobId -> Attempt, id: JobId) { Effective(id, oracle(id)).PageBlocked? }

  /** No referenced job meets a page block. */
  predicate Unblocked(refs: seq<Ref>, oracle: JobId -> Attempt) {
    forall i | 0 <= i < |refs| :: !PageBlocks(oracle, refs[i].id)
  }

  /** What is left after a pass that claimed something is less than before. */
  lemma PassSpends(r: Run, limits: Limits, oracle: JobId -> Attempt, now: nat)
    requires WellFormed(r.bundle) && ValidLimits(limits) && BelowLimit(r.bundle, limits.maxAttempts)
    requires Unblocked(r.bundle.refs, oracle)
    ensures var p := Pass(r, limits, oracle, now); var max: nat := limits.maxAttempts;
      && WellFormed(p.bundle) && BelowLimit(p.bundle, max)
      && Remaining(p.bundle.refs, p.bundle.jobs, max) + |p.claimed|
         <= Remaining(r.bundle.refs, r.bundle.jobs, max) + |r.claimed|
  {
    PassIs(r, limits, oracle, now);
    var p := Pass(r, limits, oracle, now);
    var claim := Claim(r.bundle, Ids(r.claimed), now).1;
    if claim.Some? {
      var id := claim.value;
      RemainingChanges(r.bundle.refs, r.bundle.jobs, p.bundle.jobs, limits.maxAttempts, id);
      var i :| 0 <= i < |r.bundle.refs| && r.bundle.refs[i].id == id;
      assert r.bundle.jobs[id].attempts < limits.maxAttempts;
      assert !PageBlocks(oracle, r.bundle.refs[i].id);
      AttemptSpends(Effective(id, oracle(id)), r.bundle.jobs[id], p.bundle.jobs[id], limits.maxAttempts);
      StaysBelow(r.bundle, p.bundle, id, limits.maxAttempts);
    }
  }

  /** An attempt that is no page block leaves its job with less to spend, and claimable only below the limit. */
  lemma AttemptSpends(a: Attempt, before: Job, after: Job, max: nat)
    requires !a.PageBlocked? && Claimable(before.status) && before.attempts < max
    requires after.attempts == before.attempts + 1 && after.status == StatusAfter(a, before.attempts + 1, max)
    ensures Left(after, max) + 1 <= Left(before, max) && (Claimable(after.status) ==> after.attempts < max)
  {}

  lemma StaysBelow(b: Bundle, c: Bundle, id: JobId, max: nat)
    requires BelowLimit(b, max) && c.refs == b.refs && c.jobs.Keys == b.jobs.Keys && id in b.jobs
    requires forall x | x in b.jobs && x != id :: c.jobs[x] == b.jobs[x]
    requires Claimable(c.jobs[id].status) ==> c.jobs[id].attempts < max
    ensures BelowLimit(c, max)
  {}

  lemma {:induction false} WorkSpends(b: Bundle, n: nat, limits: Limits, oracle: JobId -> Attempt, now: nat)
    requires WellFormed(b) && ValidLimits(limits) && BelowLimit(b, limits.maxAttempts)
    requires Unblocked(b.refs, oracle)
    ensures var r := Work(Start(b), n, limits, oracle, now); var max: nat := limits.maxAttempts;
      && WellFormed(r.bundle) && BelowLimit(r.bundle, max) && r.bundle.refs == b.refs
      && Remaining(r.bundle.refs, r.bundle.jobs, max) + |r.claimed| <= Remaining(b.refs, b.jobs, max)
  {
    if n > 0 {
      WorkSpends(b, n - 1, limits, oracle, now);
      var before := Work(Start(b), n - 1, limits, oracle, now);
      if !Over(before) { PassSpends(before, limits, oracle, now); }
    }
  }

  lemma {:induction false} WorkGrows(b: Bundle, n: nat, limits: Limits, oracle: JobId -> Attempt, now: nat)
    requires WellFormed(b) && NextJob(b, {}).Some? && n > 0
    ensures |Work(Start(b), n, limits, oracle, now).claimed| > 0
  {
    if n == 1 {
      assert Ids([]) == {};
      assert Work(Start(b), 0, limits, oracle, now) == Start(b);
      PassIs(Start(b), limits, oracle, now);
    } else {
      WorkGrows(b, n - 1, limits, oracle, now);
      var before := Work(Start(b), n - 1, limits, oracle, now);
      if !Over(before) {
        WorkReports(b, n - 1, limits, oracle, now);
        PassIs(before, limits, oracle, now);
      }
    }
  }

  /** One worker run in a series; the attempt limit is the series'. */
  datatype Shift = Shift(maxJobs: nat, maxFailures: nat, oracle: JobId -> Attempt, now: nat)

  function LimitsOf(shift: Shift, max: nat): Limits { Limits(shift.maxJobs, max, shift.maxFailures) }

  function After(b: Bundle, shifts: seq<Shift>, max: nat): (c: Bundle)
    requires WellFormed(b)
    ensures WellFormed(c) && c.refs == b.refs
  {
    if shifts == [] then b
    else
      var before, shift := After(b, shifts[..|shifts| - 1], max), shifts[|shifts| - 1];
      Work(Start(before), shift.maxJobs, LimitsOf(shift, max), shift.oracle, shift.now).bundle
  }

  function TotalClaims(b: Bundle, shifts: seq<Shift>, max: nat): nat
    requires WellFormed(b)
  {
    if shifts == [] then 0
    else
      var before, shift := After(b, shifts[..|shifts| - 1], max), shifts[|shifts| - 1];
      TotalClaims(b, shifts[..|shifts| - 1], max)
      + |Work(Start(before), shift.maxJobs, LimitsOf(shift, max), shift.oracle, shift.now).claimed|
  }

  ghost predicate Quiet(refs: seq<Ref>, shifts: seq<Shift>) {
    forall i | 0 <= i < |shifts| :: QuietShift(refs, shifts[i])
  }

  /** A run with valid limits that meets no page block. */
  ghost predicate QuietShift(refs: seq<Ref>, shift: Shift) {
    shift.maxJobs >= 1 && shift.maxFailures >= 1 && Unblocked(refs, shift.oracle)
  }

  lemma QuietPrefix(refs: seq<Ref>, shifts: seq<Shift>)
    requires Quiet(refs, shifts) && shifts != []
    ensures Quiet(refs, shifts[..|shifts| - 1])
  {
    var init := shifts[..|shifts| - 1];
    forall i | 0 <= i < |init| ensures QuietShift(refs, init[i]) { assert init[i] == shifts[i]; }
  }

  lemma {:induction false} SeriesSpends(b: Bundle, shifts: seq<Shift>, max: nat)
    requires WellFormed(b) && max >= 1 && BelowLimit(b, max) && Quiet(b.refs, shifts)
    ensures var c := After(b, shifts, max);
      && WellFormed(c) && BelowLimit(c, max)
      && Remaining(c.refs, c.jobs, max) + TotalClaims(b, shifts, max) <= Remaining(b.refs, b.jobs, max)
  {
    if shifts != [] {
      var init, shift := shifts[..|shifts| - 1], shifts[|shifts| - 1];
      QuietPrefix(b.refs, shifts);
      assert QuietShift(b.refs, shifts[|shifts| - 1]);
      SeriesSpends(b, init, max);
      WorkSpends(After(b, init, max), shift.maxJobs, LimitsOf(shift, max), shift.oracle, shift.now);
    }
  }

  /** As long as something can be claimed, every run of the series has claimed at least one job. */
  lemma {:induction false} SeriesProgresses(b: Bundle, shifts: seq<Shift>, max: nat)
    requires WellFormed(b) && max >= 1 && BelowLimit(b, max) && Quiet(b.refs, shifts)
    ensures NextJob(After(b, shifts, max), {}).Some? ==> TotalClaims(b, shifts, max) >= |shifts|
  {
    if shifts != [] {
      var init, shift := shifts[..|shifts| - 1], shifts[|shifts| - 1];
      QuietPrefix(b.refs, shifts);
      assert QuietShift(b.refs, shifts[|shifts| - 1]);
      SeriesSpends(b, init, max);
      SeriesProgresses(b, init, max);
      var before := After(b, init, max);
      if NextJob(before, {}).None? {
        IdleWork(before, shift.maxJobs, LimitsOf(shift, max), shift.oracle, shift.now);
      } else {
        WorkGrows(before, shift.maxJobs, LimitsOf(shift, max), shift.oracle, shift.now);
      }
    }
  }

  lemma {:induction false} IdleWork(b: Bundle, n: nat, limits: Limits, oracle: JobId -> Attempt, now: nat)
    requires WellFormed(b) && NextJob(b, {}).None?
    ensures Work(Start(b), n, limits, oracle, now) == Start(b)
  {
    if n > 0 {
      IdleWork(b, n - 1, limits, oracle, now);
      assert Ids([]) == {};
    }
  }

  ghost predicate Fresh(b: Bundle) {
    forall i | 0 <= i < |b.refs| && b.refs[i].id in b.jobs ::
      b.jobs[b.refs[i].id].status == Pending && b.jobs[b.refs[i].id].attempts == 0
  }

  lemma {:induction false} FreshRemaining(refs: seq<Ref>, jobs: map<JobId, Job>, max: nat)
    requires AllKnown(refs, jobs)
    requires forall i | 0 <= i < |refs| && refs[i].id in jobs ::
               jobs[refs[i].id].status == Pending && jobs[refs[i].id].attempts == 0
    ensures Remaining(refs, jobs, max) == |refs| * max
  {
    if refs != [] {
      var init := refs[..|refs| - 1];
      forall i | 0 <= i < |init| && init[i].id in jobs
        ensures jobs[init[i].id].status == Pending && jobs[init[i].id].attempts == 0
      {
        assert init[i] == refs[i];
      }
      FreshRemaining(init, jobs, max);
    }
  }

  lemma {:induction false} SomethingRemains(refs: seq<Ref>, jobs: map<JobId, Job>, max: nat, id: JobId)
    requires AllKnown(refs, jobs) && Names(refs, id) && id in jobs && Left(jobs[id], max) > 0
    ensures Remaining(refs, jobs, max) > 0
  {
    if refs[|refs| - 1].id != id {
      var i :| 0 <= i < |refs| && refs[i].id == id;
      assert refs[..|refs| - 1][i].id == id;
      SomethingRemains(refs[..|refs| - 1], jobs, max, id);
    }
  }

  /**
    From a fresh bundle, any series of worker runs without a page block claims at most job_count * max_attempts times in
    all, and after that many runs no job is claimable.
   */
  lemma SeriesDrains(b: Bundle, shifts: seq<Shift>, max: nat)
    requires WellFormed(b) && Fresh(b) && max >= 1 && Quiet(b.refs, shifts)
    ensures TotalClaims(b, shifts, max) <= |b.refs| * max
    ensures |shifts| >= |b.refs| * max ==> NextJob(After(b, shifts, max), {}).None?
  {
    FreshRemaining(b.refs, b.jobs, max);
    SeriesSpends(b, shifts, max);
    SeriesProgresses(b, shifts, max);
    var c := After(b, shifts, max);
    if NextJob(c, {}).Some? {
      ClaimedIsKnown(c, {}, 0);
      SortedRefsKnown(c);
      var id := NextJob(c, {}).value.id;
      var i :| 0 <= i < |c.refs| && c.refs[i].id == id;
      SomethingRemains(c.refs, c.jobs, max, id);
    }
  }

  // -- page blocks ------------------------------------------------------------------------------------

  /** A referenced job that can be claimed. */
  predicate CanBeClaimed(b: Bundle, id: JobId) {
    Names(b.refs, id) && id in b.jobs && Claimable(b.jobs[id].status)
  }

  /**
    What a run does to a job whose page is blocked: nothing until it claims it; then it ends at once with that job
    retryable and one attempt further, however many attempts it has had.
   */
  ghost predicate BlockedOutcome(b: Bundle, r: Run, id: JobId)
    requires id in b.jobs
  {
    && CanBeClaimed(r.bundle, id)
    && (id !in r.claimed ==> r.bundle.jobs[id] == b.jobs[id])
    && (id in r.claimed ==>
          && r.raised == Some(Blocked) && r.claimed[|r.claimed| - 1] == id
          && r.bundle.jobs[id].status == Retryable && r.bundle.jobs[id].attempts == b.jobs[id].attempts + 1)
  }

  lemma PassBlocked(b: Bundle, r: Run, limits: Limits, oracle: JobId -> Attempt, now: nat, id: JobId)
    requires WellFormed(r.bundle) && !Over(r) && id in b.jobs && PageBlocks(oracle, id) && BlockedOutcome(b, r, id)
    ensures BlockedOutcome(b, Pass(r, limits, oracle, now), id)
  {
    PassIs(r, limits, oracle, now);
    if Claim(r.bundle, Ids(r.claimed), now).1 == Some(id) { BlockedPassRaises(r, limits, oracle, now, id); }
  }

  lemma BlockedPassRaises(r: Run, limits: Limits, oracle: JobId -> Attempt, now: nat, id: JobId)
    requires WellFormed(r.bundle) && Claim(r.bundle, Ids(r.claimed), now).1 == Some(id) && PageBlocks(oracle, id)
    ensures Pass(r, limits, oracle, now).raised == Some(Blocked)
  {
    SortedRefsKnown(r.bundle);
  }

  lemma {:induction false} WorkBlocked(b: Bundle, n: nat, limits: Limits, oracle: JobId -> Attempt, now: nat, id: JobId)
    requires WellFormed(b) && CanBeClaimed(b, id) && PageBlocks(oracle, id)
    ensures BlockedOutcome(b, Work(Start(b), n, limits, oracle, now), id)
  {
    if n > 0 {
      WorkBlocked(b, n - 1, limits, oracle, now, id);
      var before := Work(Start(b), n - 1, limits, oracle, now);
      if !Over(before) { PassBlocked(b, before, limits, oracle, now, id); }
    }
  }

  /** A page block leaves its job claimable, whatever its attempt count and whatever becomes of the other jobs. */
  lemma BlockLeavesClaimable(b: Bundle, limits: Limits, oracle: JobId -> Attempt, now: nat, id: JobId)
    requires WellFormed(b) && CanBeClaimed(b, id) && PageBlocks(oracle, id)
    ensures BlockedOutcome(b, Crawl(b, limits, oracle, now).0, id)
  {
    WorkBlocked(b, if ValidLimits(limits) then limits.maxJobs else 0, limits, oracle, now, id);
  }

  lemma {:induction false} SeriesBlocked(b: Bundle, shifts: seq<Shift>, max: nat, id: JobId)
    requires WellFormed(b) && CanBeClaimed(b, id)
    requires forall i | 0 <= i < |shifts| :: PageBlocks(shifts[i].oracle, id)
    ensures CanBeClaimed(After(b, shifts, max), id)
  {
    if shifts != [] {
      var init, shift := shifts[..|shifts| - 1], shifts[|shifts| - 1];
      forall i | 0 <= i < |init| ensures PageBlocks(init[i].oracle, id) { assert init[i] == shifts[i]; }
      SeriesBlocked(b, init, max, id);
      assert PageBlocks(shifts[|shifts| - 1].oracle, id);
      WorkBlocked(After(b, init, max), shift.maxJobs, LimitsOf(shift, max), shift.oracle, shift.now, id);
    }
  }

  /**
    When a series drains: from a fresh bundle, runs that meet the same pages leave nothing to claim after
    job_count * max_attempts of them if and only if no referenced job meets a page block.
   */
  lemma SeriesDrainsExactly(b: Bundle, shifts: seq<Shift>, max: nat, oracle: JobId -> Attempt)
    requires WellFormed(b) && Fresh(b) && max >= 1 && |shifts| >= |b.refs| * max
    requires forall i | 0 <= i < |shifts| ::
      shifts[i].oracle == oracle && shifts[i].maxJobs >= 1 && shifts[i].maxFailures >= 1
    ensures NextJob(After(b, shifts, max), {}).None? <==> Unblocked(b.refs, oracle)
  {
    if Unblocked(b.refs, oracle) {
      SeriesDrains(b, shifts, max);
    } else {
      var k :| 0 <= k < |b.refs| && PageBlocks(oracle, b.refs[k].id);
      SeriesBlocked(b, shifts, max, b.refs[k].id);
      StillOffered(After(b, shifts, max), b.refs[k].id);
    }
  }

  lemma StillOffered(b: Bundle, id: JobId)
    requires WellFormed(b) && CanBeClaimed(b, id)
    ensures NextJob(b, {}).Some?
  {
    ClaimTakesTheFirst(b, {}, 0);
    var i :| 0 <= i < |b.refs| && b.refs[i].id == id;
    assert Offered(b, b.refs[i], {});
  }

  // -- a bundle created from a discovery ----------------------------------------------------------

  /** The first creation of a bundle gives the worker a fresh bundle it can drain. */
  lemma CreatedIsFresh(items: seq<Item>)
    requires Create(Bundle([], map[]), items).1.None?
    ensures var b := Create(Bundle([], map[]), items).0;
      WellFormed(b) && Fresh(b) && |b.refs| == |items| && forall i | 0 <= i < |b.refs| :: SafeJobId(b.refs[i].id)
  {
    var empty := Bundle([], map[]);
    CreatedIsGood(empty, items);
    Written(empty.jobs, items);
    var w := WriteAll(empty.jobs, items);
    SortByMembers(w.refs, RankLe);
    var b := Create(empty, items).0;
    forall i | 0 <= i < |b.refs|
      ensures SafeJobId(b.refs[i].id) && b.jobs[b.refs[i].id].status == Pending && b.jobs[b.refs[i].id].attempts == 0
    {
      assert b.refs[i] in w.refs;
      var k :| 0 <= k < |w.refs| && w.refs[k] == b.refs[i];
      assert ValidItem(items[k]);
      WrittenFresh(items, k);
    }
  }

  lemma {:induction false} WrittenFresh(items: seq<Item>, k: nat)
    requires WriteAll(map[], items).error.None? && k < |items|
    ensures IdOf(items[k].source) in WriteAll(map[], items).jobs
    ensures WriteAll(map[], items).jobs[IdOf(items[k].source)].status == Pending
            && WriteAll(map[], items).jobs[IdOf(items[k].source)].attempts == 0
  {
    var init, last := items[..|items| - 1], items[|items| - 1];
    var before := WriteAll(map[], init);
    Written(map[], items);
    if k == |items| - 1 {
      OnlyWritten(init, IdOf(last.source));
    } else {
      assert init[k] == items[k];
      WrittenFresh(init, k);
    }
  }

  lemma NamesGrow(refs: seq<Ref>, more: seq<Ref>, id: JobId)
    requires refs <= more
    ensures Names(refs, id) ==> Names(more, id)
  {
    if i :| 0 <= i < |refs| && refs[i].id == id { assert more[i].id == id; }
  }

  lemma {:induction false} OnlyWritten(items: seq<Item>, id: JobId)
    requires !Names(WriteAll(map[], items).refs, id)
    ensures id !in WriteAll(map[], items).jobs
  {
    if items != [] {
      var before, after := WriteAll(map[], items[..|items| - 1]), WriteAll(map[], items);
      assert before.refs <= after.refs;
      NamesGrow(before.refs, after.refs, id);
      OnlyWritten(items[..|items| - 1], id);
      if after.refs != before.refs {
        assert after.refs[|before.refs|].id == IdOf(items[|items| - 1].source);
      }
    }
  }
}
