/** The detail crawl worker over a job bundle (luatvietnam_crawler/crawler.py). */
module CrawlWorker {
  import opened Prelude
  import opened CrawlJobs

  /** What fetching, parsing and saving one page comes to; `HandlerFailed` is an exception that escapes the handlers. */
  datatype Attempt =
    | NotApproved(directory: string)
    | Saved(directory: string, serializer: string, characters: nat, articles: nat, markers: nat)
    | NoContent(message: string, directory: string)
    | HandlerFailed
    | PageBlocked(message: string)
    | Broken(message: string)

  datatype Limits = Limits(maxJobs: int, maxAttempts: int, maxFailures: int)

  predicate ValidLimits(l: Limits) { l.maxJobs >= 1 && l.maxAttempts >= 1 && l.maxFailures >= 1 }

  /** Why a run ended with an exception. */
  datatype Raised = Blocked | Unhandled

  datatype Run = Run(
    bundle: Bundle,
    claimed: seq<JobId>,
    completed: seq<JobId>,
    unavailable: seq<JobId>,
    skipped: seq<JobId>,
    retryable: seq<JobId>,
    failed: seq<JobId>,
    stopped: bool,
    raised: Option<Raised>)

  function Start(b: Bundle): Run { Run(b, [], [], [], [], [], [], false, None) }

  const NoChanges := Changes(None, None, None, None, None, None, None)

  /** The status an attempt gives its job, with the job's attempt counter after the claim. */
  function StatusAfter(a: Attempt, attempts: nat, maxAttempts: int): Status {
    match a
    case NotApproved(_) => Skipped
    case Saved(_, _, _, _, _) => Completed
    case NoContent(_, _) => ContentUnavailable
    case HandlerFailed => InProgress
    case PageBlocked(_) => Retryable
    case Broken(_) => if attempts >= maxAttempts then Failed else Retryable
  }

  /** The store refuses to update an unsafe id, in the attempt and again in its handler, so that the refusal escapes. */
  function Effective(id: JobId, a: Attempt): Attempt { if SafeJobId(id) then a else HandlerFailed }

  function ErrorOf(a: Attempt): Option<string> {
    match a
    case NotApproved(_) => Some("not_approved")
    case Saved(_, _, _, _, _) => None
    case NoContent(message, _) => Some("ContentUnavailableError: " + message)
    case HandlerFailed => None
    case PageBlocked(message) => Some(message)
    case Broken(message) => Some(message)
  }

  function ChangesOf(a: Attempt): Changes {
    match a
    case NotApproved(directory) => NoChanges.(metadataDirectory := Some(directory))
    case Saved(directory, serializer, characters, articles, markers) =>
      Changes(Some(directory), None, Some(serializer), Some(characters), Some(articles), Some(markers), Some(true))
    case NoContent(_, directory) => NoChanges.(metadataDirectory := Some(directory))
    case _ => NoChanges
  }

  /** Recording the attempt of a job that has just been claimed. */
  function Record(r: Run, id: JobId, a: Attempt, limits: Limits, now: nat): Run
    requires id in r.bundle.jobs
  {
    var status := StatusAfter(a, r.bundle.jobs[id].attempts, limits.maxAttempts);
    var after := r.(bundle := Update(r.bundle, id, status, ErrorOf(a), ChangesOf(a), now).0);
    var stop := |r.retryable| + |r.failed| + 1 >= limits.maxFailures;
    match a
    case NotApproved(_) => after.(skipped := r.skipped + [id])
    case Saved(_, _, _, _, _) => after.(completed := r.completed + [id])
    case NoContent(_, _) => after.(unavailable := r.unavailable + [id])
    case HandlerFailed => r.(raised := Some(Unhandled))
    case PageBlocked(_) => after.(raised := Some(Blocked))
    case Broken(_) =>
      if status == Failed then after.(failed := r.failed + [id], stopped := stop)
      else after.(retryable := r.retryable + [id], stopped := stop)
  }

  function Ids(s: seq<JobId>): set<JobId> { set id | id in s }

  /** One pass of the loop; nothing happens when no job is left to claim. */
  function Pass(r: Run, limits: Limits, oracle: JobId -> Attempt, now: nat): Run
    requires WellFormed(r.bundle)
  {
    var (b, id) := Claim(r.bundle, Ids(r.claimed), now);
    match id
    case None => r
    case Some(id) =>
      SortedRefsKnown(r.bundle);
      Record(r.(bundle := b, claimed := r.claimed + [id]), id, Effective(id, oracle(id)), limits, now)
  }

  predicate Over(r: Run) { r.stopped || r.raised.Some? }

  /** Up to `n` passes; none after a raise or too many failures. */
  function Work(r: Run, n: nat, limits: Limits, oracle: JobId -> Attempt, now: nat): (s: Run)
    requires WellFormed(r.bundle)
    ensures WellFormed(s.bundle) && s.bundle.refs == r.bundle.refs
    decreases n
  {
    if n == 0 then r
    else
      var before := Work(r, n - 1, limits, oracle, now);
      PassKeepsWellFormed(before, limits, oracle, now);
      if Over(before) then before else Pass(before, limits, oracle, now)
  }

  lemma PassKeepsWellFormed(r: Run, limits: Limits, oracle: JobId -> Attempt, now: nat)
    requires WellFormed(r.bundle)
    ensures WellFormed(Pass(r, limits, oracle, now).bundle)
    ensures Pass(r, limits, oracle, now).bundle.refs == r.bundle.refs
  {
    SortedRefsKnown(r.bundle);
    var (b, id) := Claim(r.bundle, Ids(r.claimed), now);
    if id.Some? {
      var a := Effective(id.value, oracle(id.value));
      RecordKeepsWellFormed(r.(bundle := b, claimed := r.claimed + [id.value]), id.value, a, limits, now);
    }
  }

  lemma RecordKeepsWellFormed(r: Run, id: JobId, a: Attempt, limits: Limits, now: nat)
    requires WellFormed(r.bundle) && id in r.bundle.jobs
    ensures WellFormed(Record(r, id, a, limits, now).bundle)
    ensures Record(r, id, a, limits, now).bundle.refs == r.bundle.refs
  {}

  datatype WorkerError = InvalidLimits | Raise(raised: Raised)

  function Crawl(b: Bundle, limits: Limits, oracle: JobId -> Attempt, now: nat): (Run, Option<WorkerError>)
    requires WellFormed(b)
  {
    if !ValidLimits(limits) then (Start(b), Some(InvalidLimits))
    else
      var run := Work(Start(b), limits.maxJobs, limits, oracle, now);
      (run, if run.raised.Some? then Some(Raise(run.raised.value)) else None)
  }

  /** Records what became of a claimed job; a refused update is an exception that no handler gets to record. */
  method RecordAttempt(store: JobStore, run: Run, id: JobId, a: Attempt, limits: Limits, now: nat) returns (after: Run)
    requires run.bundle == store.Contents() && id in store.jobs
    modifies store`jobs
    ensures after == Record(run, id, Effective(id, a), limits, now) && after.bundle == store.Contents()
  {
    after := run;
    var update: Result<Job, UpdateError> := Ok(store.jobs[id]);
    match a {
      case NotApproved(_) =>
        update := store.UpdateStatus(id, Skipped, ErrorOf(a), ChangesOf(a), now);
        after := after.(skipped := after.skipped + [id]);
      case Saved(_, _, _, _, _) =>
        update := store.UpdateStatus(id, Completed, None, ChangesOf(a), now);
        after := after.(completed := after.completed + [id]);
      case NoContent(_, _) =>
        update := store.UpdateStatus(id, ContentUnavailable, ErrorOf(a), ChangesOf(a), now);
        after := after.(unavailable := after.unavailable + [id]);
      case HandlerFailed =>
        after := after.(raised := Some(Unhandled));
      case PageBlocked(message) =>
        update := store.UpdateStatus(id, Retryable, Some(message), NoChanges, now);
        after := after.(raised := Some(Blocked));
      case Broken(message) =>
        if store.jobs[id].attempts >= limits.maxAttempts {
          update := store.UpdateStatus(id, Failed, Some(message), NoChanges, now);
          after := after.(failed := after.failed + [id]);
        } else {
          update := store.UpdateStatus(id, Retryable, Some(message), NoChanges, now);
          after := after.(retryable := after.retryable + [id]);
        }
        after := after.(stopped := |after.retryable| + |after.failed| >= limits.maxFailures);
    }
    if update.Err? {
      return run.(raised := Some(Unhandled));
    }
    after := after.(bundle := store.Contents());
  }

  /** The loop of the worker. */
  method CrawlBundle(store: JobStore, limits: Limits, oracle: JobId -> Attempt, now: nat)
    returns (run: Run, error: Option<WorkerError>)
    requires WellFormed(store.Contents())
    modifies store`jobs
    ensures (run, error) == Crawl(old(store.Contents()), limits, oracle, now) && run.bundle == store.Contents()
  {
    run := Start(store.Contents());
    if !ValidLimits(limits) {
      return run, Some(InvalidLimits);
    }
    run := Loop(store, run, limits.maxJobs, limits, oracle, now);
    error := if run.raised.Some? then Some(Raise(run.raised.value)) else None;
  }

  method Loop(
      store: JobStore, start: Run, n: nat, limits: Limits, oracle: JobId -> Attempt, now: nat) returns (run: Run)
    requires WellFormed(store.Contents()) && start.bundle == store.Contents()
    requires !Over(start)
    modifies store`jobs
    ensures run == Work(start, n, limits, oracle, now) && run.bundle == store.Contents()
  {
    run := start;
    for i := 0 to n
      invariant run.bundle == store.Contents() && WellFormed(run.bundle)
      invariant run == Work(start, i, limits, oracle, now) && !Over(run)
    {
      var settled;
      run, settled := OnePass(store, run, limits, oracle, now);
      if settled {
        Settled(start, i + 1, n, limits, oracle, now);
        return;
      }
    }
  }

  /** No further pass changes anything once the run is over or no job is left to claim. */
  predicate IsSettled(r: Run, now: nat)
    requires WellFormed(r.bundle)
  {
    Over(r) || Claim(r.bundle, Ids(r.claimed), now).1.None?
  }

  lemma {:induction false} Settled(r: Run, i: nat, n: nat, limits: Limits, oracle: JobId -> Attempt, now: nat)
    requires WellFormed(r.bundle) && i <= n && IsSettled(Work(r, i, limits, oracle, now), now)
    ensures Work(r, n, limits, oracle, now) == Work(r, i, limits, oracle, now)
  {
    if i < n {
      Settled(r, i, n - 1, limits, oracle, now);
    }
  }

  method OnePass(store: JobStore, run: Run, limits: Limits, oracle: JobId -> Attempt, now: nat)
    returns (after: Run, settled: bool)
    requires WellFormed(store.Contents()) && run.bundle == store.Contents() && !Over(run)
    modifies store`jobs
    ensures after == Pass(run, limits, oracle, now) && after.bundle == store.Contents() && WellFormed(after.bundle)
    ensures settled ==> IsSettled(after, now)
    ensures !settled ==> !Over(after)
  {
    SortedRefsKnown(run.bundle);
    PassKeepsWellFormed(run, limits, oracle, now);
    var claimed := store.ClaimNext(Ids(run.claimed), now);
    if claimed.None? {
      return run, true;
    }
    ClaimedIsKnown(run.bundle, Ids(run.claimed), now);
    after := run.(bundle := store.Contents(), claimed := run.claimed + [claimed.value]);
    after := RecordAttempt(store, after, claimed.value, oracle(claimed.value), limits, now);
    settled := Over(after);
  }

  lemma ClaimedIsKnown(b: Bundle, exclude: set<JobId>, now: nat)
    requires WellFormed(b) && Claim(b, exclude, now).1.Some?
    ensures var id := Claim(b, exclude, now).1.value; id in b.jobs && Names(b.refs, id) && id !in exclude
  {
    SortedRefsKnown(b);
    var r := NextJob(b, exclude).value;
    assert r in b.refs;
    var i :| 0 <= i < |b.refs| && b.refs[i] == r;
  }
}
