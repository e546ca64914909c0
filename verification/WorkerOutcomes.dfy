/** What the crawl worker does with each job it claims, and when a run ends (luatvietnam_crawler/crawler.py). */
module WorkerOutcomes {
  import opened Prelude
  import opened CrawlJobs
  import opened CrawlWorker
  import opened JobOutcomes

  /** The job of the pass has been tried once more; only its record is written. */
  ghost predicate TriedOnceMore(r: Run, p: Run, id: JobId, now: nat) {
    && id in r.bundle.jobs && id in p.bundle.jobs && Writes(r.bundle, p.bundle, id, p.bundle.jobs[id])
    && SameOrigin(r.bundle.jobs[id], p.bundle.jobs[id])
    && p.bundle.jobs[id].attempts == r.bundle.jobs[id].attempts + 1 && p.bundle.jobs[id].startedAt == Some(now)
  }

  /** The record of a job left in progress by an exception that no handler caught. */
  ghost predicate LeftInProgress(before: Job, job: Job) {
    && job.status == InProgress && job.completedAt.None? && job.lastError.None? && job.artifacts == before.artifacts
    && job.current == before.current
  }

  ghost predicate Settled(job: Job, status: Status, completed: Option<nat>, error: Option<string>) {
    job.status == status && job.completedAt == completed && job.lastError == error && job.current
  }

  /** What a page comes to in its job's record and in the lists of the report. */
  ghost predicate Outcome(r: Run, p: Run, id: JobId, a: Attempt, limits: Limits, now: nat)
    requires id in r.bundle.jobs && id in p.bundle.jobs
  {
    var before, job := r.bundle.jobs[id], p.bundle.jobs[id];
    var tried := r.(bundle := p.bundle, claimed := r.claimed + [id]);
    if !IsJobId(id) then LeftInProgress(before, job) && p == tried.(raised := Some(Unhandled))
    else match a
      case NotApproved(directory) =>
        && Settled(job, Skipped, Some(now), Some("not_approved"))
        && job.artifacts == before.artifacts.(metadataDirectory := Val(directory))
        && p == tried.(skipped := r.skipped + [id])
      case Saved(directory, serializer, characters, articles, markers) =>
        && Settled(job, Completed, Some(now), None)
        && job.artifacts == Artifacts(Val(directory), before.artifacts.metadataDirectory, Some(serializer),
                                      Some(characters), Some(articles), Some(markers), Some(true))
        && p == tried.(completed := r.completed + [id])
      case NoContent(message, directory) =>
        && Settled(job, ContentUnavailable, Some(now), Some("ContentUnavailableError: " + message))
        && job.artifacts == before.artifacts.(metadataDirectory := Val(directory))
        && p == tried.(unavailable := r.unavailable + [id])
      case HandlerFailed => LeftInProgress(before, job) && p == tried.(raised := Some(Unhandled))
      case PageBlocked(message) =>
        && Settled(job, Retryable, None, Some(message)) && job.artifacts == before.artifacts
        && p == tried.(raised := Some(Blocked))
      case Broken(message) =>
        var stop := |r.retryable| + |r.failed| + 1 >= limits.maxFailures;
        && job.artifacts == before.artifacts
        && if before.attempts + 1 < limits.maxAttempts
           then Settled(job, Retryable, None, Some(message))
                && p == tried.(retryable := r.retryable + [id], stopped := stop)
           else Settled(job, Failed, None, Some(message))
                && p == tried.(failed := r.failed + [id], stopped := stop)
  }

  /** The pass took the job that goes first among those not tried in this run. */
  ghost predicate Passes(r: Run, p: Run, limits: Limits, oracle: JobId -> Attempt, now: nat) {
    exists q: Ref ::
      && FirstAmong(r.bundle, [Pending, Retryable], Ids(r.claimed), Some(q))
      && TriedOnceMore(r, p, q.id, now) && Outcome(r, p, q.id, oracle(q.id), limits, now)
  }

  ghost predicate NothingToClaim(r: Run) { FirstAmong(r.bundle, [Pending, Retryable], Ids(r.claimed), None) }

  ghost predicate Ended(r: Run, limits: Limits) {
    r.raised.Some? || |r.retryable| + |r.failed| >= limits.maxFailures
  }

  lemma RecordWrites(r: Run, c: Bundle, id: JobId, a: Attempt, limits: Limits, now: nat)
    requires id in r.bundle.jobs && c.refs == r.bundle.refs
    requires c.jobs == r.bundle.jobs[id := ClaimedJob(r.bundle.jobs[id], now)]
    ensures var p := Record(r.(bundle := c, claimed := r.claimed + [id]), id, Effective(id, a), limits, now);
      TriedOnceMore(r, p, id, now) && Outcome(r, p, id, a, limits, now)
  {
    SafeIdsAre(id);
  }

  lemma PassIs(r: Run, limits: Limits, oracle: JobId -> Attempt, now: nat)
    requires WellFormed(r.bundle)
    ensures var p := Pass(r, limits, oracle, now);
      if NothingToClaim(r) then p == r else Passes(r, p, limits, oracle, now)
  {
    NextIs(r.bundle, Ids(r.claimed));
    var next := NextJob(r.bundle, Ids(r.claimed));
    SortedRefsKnown(r.bundle);
    if next.Some? {
      var id := next.value.id;
      RecordWrites(r, Claim(r.bundle, Ids(r.claimed), now).0, id, oracle(id), limits, now);
    }
  }

  /** The passes of a run: none follows its end, and each takes a job. */
  ghost predicate AreRuns(
      b: Bundle, limits: Limits, oracle: JobId -> Attempt, now: nat, runs: seq<Run>, last: Run)
  {
    && runs != [] && runs[0] == Run(b, [], [], [], [], [], [], false, None) && runs[|runs| - 1] == last
    && (forall i | 0 <= i < |runs| :: runs[i].stopped <==> |runs[i].retryable| + |runs[i].failed| >= limits.maxFailures)
    && (forall i | 0 <= i < |runs| :: WellFormed(runs[i].bundle))
    && forall i | 0 <= i < |runs| - 1 :: !Ended(runs[i], limits) && Passes(runs[i], runs[i + 1], limits, oracle, now)
  }

  lemma PassStops(r: Run, p: Run, limits: Limits, oracle: JobId -> Attempt, now: nat)
    requires Passes(r, p, limits, oracle, now) && !Ended(r, limits) && !r.stopped
    ensures p.stopped <==> |p.retryable| + |p.failed| >= limits.maxFailures
  {}

  lemma RunsMore(
      b: Bundle, limits: Limits, oracle: JobId -> Attempt, now: nat, runs: seq<Run>, r: Run, p: Run)
    requires AreRuns(b, limits, oracle, now, runs, r) && !Ended(r, limits) && WellFormed(p.bundle)
    requires Passes(r, p, limits, oracle, now)
    ensures AreRuns(b, limits, oracle, now, runs + [p], p)
  {
    PassStops(r, p, limits, oracle, now);
    var more := runs + [p];
    forall i | 0 <= i < |more| - 1
      ensures !Ended(more[i], limits) && Passes(more[i], more[i + 1], limits, oracle, now) {
      if i < |runs| - 1 { assert more[i] == runs[i] && more[i + 1] == runs[i + 1]; }
    }
  }

  lemma RunsEnd(b: Bundle, limits: Limits, oracle: JobId -> Attempt, now: nat, runs: seq<Run>, r: Run)
    requires AreRuns(b, limits, oracle, now, runs, r)
    ensures Ended(r, limits) <==> Over(r)
  {}

  lemma {:induction false} WorkRuns(b: Bundle, n: nat, limits: Limits, oracle: JobId -> Attempt, now: nat)
    returns (runs: seq<Run>)
    requires WellFormed(b) && ValidLimits(limits)
    ensures var r := Work(Start(b), n, limits, oracle, now);
      && AreRuns(b, limits, oracle, now, runs, r) && |runs| <= n + 1
      && (|runs| == n + 1 || Ended(r, limits) || NothingToClaim(r))
  {
    if n == 0 {
      runs := [Start(b)];
    } else {
      runs := WorkRuns(b, n - 1, limits, oracle, now);
      var r := Work(Start(b), n - 1, limits, oracle, now);
      RunsEnd(b, limits, oracle, now, runs, r);
      PassIs(r, limits, oracle, now);
      PassKeepsWellFormed(r, limits, oracle, now);
      if !Ended(r, limits) && !NothingToClaim(r) {
        RunsMore(b, limits, oracle, now, runs, r, Pass(r, limits, oracle, now));
        runs := runs + [Pass(r, limits, oracle, now)];
      }
    }
  }

  /** A run makes passes until a limit is reached, an exception escapes or no untried job is left to claim. */
  lemma CrawlRuns(b: Bundle, limits: Limits, oracle: JobId -> Attempt, now: nat) returns (runs: seq<Run>)
    requires WellFormed(b)
    ensures var (r, error) := Crawl(b, limits, oracle, now);
      if limits.maxJobs < 1 || limits.maxAttempts < 1 || limits.maxFailures < 1
      then r.bundle == b && r.claimed == [] && error == Some(InvalidLimits)
      else
        && AreRuns(b, limits, oracle, now, runs, r) && |runs| <= limits.maxJobs + 1
        && (|runs| == limits.maxJobs + 1 || Ended(r, limits) || NothingToClaim(r))
        && error == (if r.raised.Some? then Some(Raise(r.raised.value)) else None)
  {
    runs := [];
    if ValidLimits(limits) { runs := WorkRuns(b, limits.maxJobs, limits, oracle, now); }
  }
}
