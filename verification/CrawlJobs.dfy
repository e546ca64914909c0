/** The crawler's job bundle: a manifest of references and one record per job (luatvietnam_crawler/jobs.py). */
module CrawlJobs {
  import opened Prelude
  import opened Text

  type JobId = string

  datatype Status = Pending | InProgress | Completed | ContentUnavailable | Skipped | Retryable | Failed

  /** An artifact key that legacy records may lack altogether. */
  datatype Field = Missing | Null | Val(value: string)

  datatype Artifacts = Artifacts(
    outputDirectory: Field,
    metadataDirectory: Field,
    serializer: Option<string>,
    characters: Option<nat>,
    articles: Option<nat>,
    markers: Option<nat>,
    rawHtmlSaved: Option<bool>)

  /** Times are numbers of some clock; `current` says whether the record has the current schema version. */
  datatype Job = Job(
    current: bool,
    source: Source,
    rank: int,
    pageIndex: int,
    status: Status,
    attempts: nat,
    startedAt: Option<nat>,
    completedAt: Option<nat>,
    lastError: Option<string>,
    artifacts: Artifacts)

  datatype Source = Source(externalId: string, variant: string, kind: string, title: string, url: string)

  datatype Ref = Ref(id: JobId, rank: int, pageIndex: int)

  datatype Bundle = Bundle(refs: seq<Ref>, jobs: map<JobId, Job>)

  datatype Item = Item(source: Source, rank: int, pageIndex: int)

  predicate TerminalSuccess(s: Status) { s == Completed || s == ContentUnavailable || s == Skipped }

  predicate Claimable(s: Status) { s == Pending || s == Retryable }

  predicate RankLe(a: Ref, b: Ref) { a.rank <= b.rank }

  function SortedRefs(b: Bundle): seq<Ref> { SortBy(b.refs, RankLe) }

  predicate AllKnown(refs: seq<Ref>, jobs: map<JobId, Job>) {
    forall i | 0 <= i < |refs| :: refs[i].id in jobs
  }

  /** Job files exist for all references, and no job is referenced twice. */
  ghost predicate WellFormed(b: Bundle) {
    AllKnown(b.refs, b.jobs) && forall i, j | 0 <= i < j < |b.refs| :: b.refs[i].id != b.refs[j].id
  }

  lemma SortedRefsKnown(b: Bundle)
    requires WellFormed(b)
    ensures AllKnown(SortedRefs(b), b.jobs)
    ensures forall r :: r in SortedRefs(b) <==> r in b.refs
  {
    SortByMembers(b.refs, RankLe);
    forall i | 0 <= i < |SortedRefs(b)| ensures SortedRefs(b)[i].id in b.jobs {
      assert SortedRefs(b)[i] in b.refs;
    }
  }

  // -- summary ------------------------------------------------------------------------

  function Count(refs: seq<Ref>, jobs: map<JobId, Job>, status: Status): nat
    requires AllKnown(refs, jobs)
  {
    if refs == [] then 0
    else Count(refs[..|refs| - 1], jobs, status) + if jobs[refs[|refs| - 1].id].status == status then 1 else 0
  }

  /** The first reference in order with this status that is not excluded. */
  function FirstWith(refs: seq<Ref>, jobs: map<JobId, Job>, status: Status, exclude: set<JobId>): (r: Option<Ref>)
    requires AllKnown(refs, jobs)
    ensures r.Some? ==> r.value in refs && jobs[r.value.id].status == status && r.value.id !in exclude
    ensures r.None? ==> forall i | 0 <= i < |refs| :: refs[i].id in exclude || jobs[refs[i].id].status != status
  {
    if refs == [] then None
    else
      var before, last := FirstWith(refs[..|refs| - 1], jobs, status, exclude), refs[|refs| - 1];
      assert refs == refs[..|refs| - 1] + [last];
      if before.Some? then before
      else if last.id !in exclude && jobs[last.id].status == status then Some(last)
      else None
  }

  function OrElse(a: Option<Ref>, b: Option<Ref>): Option<Ref> { if a.Some? then a else b }

  datatype Summary = Summary(
    counts: map<Status, nat>,
    nextJob: Option<Ref>,
    firstUnfinished: Option<Ref>,
    firstInProgress: Option<Ref>,
    complete: bool)

  function Statuses(): set<Status> {
    {Pending, InProgress, Completed, ContentUnavailable, Skipped, Retryable, Failed}
  }

  lemma EveryStatus(s: Status)
    ensures s in Statuses()
  {
    match s
    case Pending =>
    case InProgress =>
    case Completed =>
    case ContentUnavailable =>
    case Skipped =>
    case Retryable =>
    case Failed =>
  }

  function CountsOf(refs: seq<Ref>, jobs: map<JobId, Job>): map<Status, nat>
    requires AllKnown(refs, jobs)
  {
    map s | s in Statuses() :: Count(refs, jobs, s)
  }

  function NextJob(b: Bundle, exclude: set<JobId>): Option<Ref>
    requires WellFormed(b)
  {
    SortedRefsKnown(b);
    OrElse(FirstWith(SortedRefs(b), b.jobs, Pending, exclude), FirstWith(SortedRefs(b), b.jobs, Retryable, exclude))
  }

  function FirstUnfinished(b: Bundle): Option<Ref>
    requires WellFormed(b)
  {
    SortedRefsKnown(b);
    OrElse(FirstWith(SortedRefs(b), b.jobs, InProgress, {}), OrElse(NextJob(b, {}),
           FirstWith(SortedRefs(b), b.jobs, Failed, {})))
  }

  function Summarize(b: Bundle): Summary
    requires WellFormed(b)
  {
    SortedRefsKnown(b);
    var refs := SortedRefs(b);
    Summary(
      CountsOf(refs, b.jobs),
      NextJob(b, {}),
      FirstUnfinished(b),
      FirstWith(refs, b.jobs, InProgress, {}),
      Count(refs, b.jobs, Completed) + Count(refs, b.jobs, ContentUnavailable) + Count(refs, b.jobs, Skipped)
        == |b.refs|)
  }

  // -- claim and update ---------------------------------------------------------------

  function ClaimedJob(job: Job, now: nat): Job {
    job.(status := InProgress, attempts := job.attempts + 1, startedAt := Some(now), completedAt := None,
      lastError := None)
  }

  function Claim(b: Bundle, exclude: set<JobId>, now: nat): (Bundle, Option<JobId>)
    requires WellFormed(b)
  {
    SortedRefsKnown(b);
    match NextJob(b, exclude)
    case None => (b, None)
    case Some(r) => (b.(jobs := b.jobs[r.id := ClaimedJob(b.jobs[r.id], now)]), Some(r.id))
  }

  /** The artifact values of an update; `None` leaves the stored value alone. */
  datatype Changes = Changes(
    outputDirectory: Option<string>,
    metadataDirectory: Option<string>,
    serializer: Option<string>,
    characters: Option<nat>,
    articles: Option<nat>,
    markers: Option<nat>,
    rawHtmlSaved: Option<bool>)

  function Overriding<T>(new': Option<T>, old': Option<T>): Option<T> { if new'.Some? then new' else old' }

  function Changed(a: Artifacts, c: Changes): Artifacts {
    Artifacts(
      if c.outputDirectory.Some? then Val(c.outputDirectory.value) else a.outputDirectory,
      if c.metadataDirectory.Some? then Val(c.metadataDirectory.value) else a.metadataDirectory,
      Overriding(c.serializer, a.serializer), Overriding(c.characters, a.characters),
      Overriding(c.articles, a.articles),
      Overriding(c.markers, a.markers), Overriding(c.rawHtmlSaved, a.rawHtmlSaved))
  }

  function UpdatedJob(job: Job, status: Status, error: Option<string>, changes: Changes, now: nat): Job {
    var restarted := status == InProgress && job.startedAt.None?;
    job.(
      current := true,
      status := status,
      completedAt := if TerminalSuccess(status) then Some(now) else None,
      lastError := error,
      startedAt := if restarted then Some(now) else job.startedAt,
      attempts := if restarted then job.attempts + 1 else job.attempts,
      artifacts := Changed(job.artifacts, changes))
  }

  datatype UpdateError = UnsafeJobId | UnknownJob

  /** `LTV_[0-9]+-d(?:1|5|10)`. */
  predicate SafeJobId(id: JobId) {
    |id| >= 4 && id[..4] == "LTV_" && exists n | 5 <= n <= |id| :: AllDigits(id[4..n]) && IsVariant(id[n..])
  }

  predicate IsVariant(s: string) { s == "-d1" || s == "-d5" || s == "-d10" }

  function Update(b: Bundle, id: JobId, status: Status, error: Option<string>, changes: Changes, now: nat)
    : (Bundle, Result<Job, UpdateError>)
  {
    if !SafeJobId(id) then (b, Err(UnsafeJobId))
    else if id !in b.jobs then (b, Err(UnknownJob))
    else
      var job := UpdatedJob(b.jobs[id], status, error, changes, now);
      (b.(jobs := b.jobs[id := job]), Ok(job))
  }

  // -- requeue and migrate --------------------------------------------------------------

  predicate Stale(job: Job, version: string) {
    job.status == Completed && !(job.artifacts.serializer == Some(version) && job.artifacts.rawHtmlSaved == Some(true))
  }

  function StaleIds(refs: seq<Ref>, jobs: map<JobId, Job>, version: string): seq<JobId>
    requires AllKnown(refs, jobs)
  {
    if refs == [] then []
    else
      var before, id := StaleIds(refs[..|refs| - 1], jobs, version), refs[|refs| - 1].id;
      if Stale(jobs[id], version) then before + [id] else before
  }

  function Candidates(b: Bundle, version: string): seq<JobId>
    requires WellFormed(b)
  {
    SortedRefsKnown(b);
    StaleIds(SortedRefs(b), b.jobs, version)
  }

  function RequeuedJob(job: Job): Job {
    job.(status := Pending, startedAt := None, completedAt := None, lastError := None,
         artifacts := Artifacts(Null, job.artifacts.metadataDirectory, None, None, None, None, None))
  }

  function RequeueJobs(jobs: map<JobId, Job>, ids: seq<JobId>): map<JobId, Job> {
    if ids == [] then jobs
    else
      var before, id := RequeueJobs(jobs, ids[..|ids| - 1]), ids[|ids| - 1];
      if id in before then before[id := RequeuedJob(before[id])] else before
  }

  /** The result is the requeued job ids. */
  function Requeue(b: Bundle, version: string): (Bundle, Result<seq<JobId>, string>)
    requires WellFormed(b)
  {
    if IsBlank(version) then (b, Err("empty version"))
    else (b.(jobs := RequeueJobs(b.jobs, Candidates(b, version))), Ok(Candidates(b, version)))
  }

  const LegacyError := "ContentUnavailableError:"

  predicate LegacyFailure(job: Job) {
    && (job.status == Retryable || job.status == Failed)
    && job.lastError.Some? && LegacyError <= job.lastError.value
  }

  function OrNull(f: Field): Field { if f.Missing? then Null else f }

  function MigratedJob(job: Job, now: nat): Job {
    if !LegacyFailure(job) && job.status != ContentUnavailable then job
    else
      var base := if LegacyFailure(job) then job.(status := ContentUnavailable, completedAt := Some(now)) else job;
      base.(
        current := true,
        artifacts := base.artifacts.(
          outputDirectory := OrNull(base.artifacts.outputDirectory),
          metadataDirectory := OrNull(base.artifacts.metadataDirectory)))
  }

  datatype Migration = Migration(jobs: map<JobId, Job>, migrated: seq<JobId>, normalized: seq<JobId>)

  function MigrateOne(m: Migration, id: JobId, now: nat): Migration {
    if id !in m.jobs then m
    else
      var job := m.jobs[id];
      Migration(m.jobs[id := MigratedJob(job, now)],
                if LegacyFailure(job) then m.migrated + [id] else m.migrated,
                if MigratedJob(job, now) != job then m.normalized + [id] else m.normalized)
  }

  function MigrateAll(jobs: map<JobId, Job>, refs: seq<Ref>, now: nat): Migration {
    if refs == [] then Migration(jobs, [], [])
    else MigrateOne(MigrateAll(jobs, refs[..|refs| - 1], now), refs[|refs| - 1].id, now)
  }

  function Migrate(b: Bundle, now: nat): (Bundle, Migration) {
    var m := MigrateAll(b.jobs, b.refs, now);
    (b.(jobs := m.jobs), m)
  }

  // -- create ------------------------------------------------------------------------------

  datatype CreateError =
    | MissingString(key: string)
    | MissingPositive(key: string)
    | UnsafeItem
    | DuplicateJob(id: JobId)
    | IdentityConflict(id: JobId)

  function IdOf(s: Source): JobId { "LTV_" + s.externalId + "-" + s.variant }

  predicate ValidItem(item: Item) {
    && item.source.externalId != "" && item.source.variant != "" && SafeJobId(IdOf(item.source))
    && item.rank >= 1 && item.pageIndex >= 1
    && item.source.kind != "" && item.source.title != "" && item.source.url != ""
  }

  function DefaultArtifacts(): Artifacts { Artifacts(Null, Null, None, None, None, None, None) }

  /** A fresh record, or the stored state under the item's current source and position. */
  function CreatedJob(jobs: map<JobId, Job>, item: Item): Job {
    var id := IdOf(item.source);
    if id in jobs then
      var a := jobs[id].artifacts;
      jobs[id].(current := true, source := item.source, rank := item.rank, pageIndex := item.pageIndex,
                artifacts := a.(outputDirectory := OrNull(a.outputDirectory),
                                metadataDirectory := OrNull(a.metadataDirectory)))
    else Job(true, item.source, item.rank, item.pageIndex, Pending, 0, None, None, None, DefaultArtifacts())
  }

  function RefOf(item: Item): Ref { Ref(IdOf(item.source), item.rank, item.pageIndex) }

  datatype Writing = Writing(jobs: map<JobId, Job>, refs: seq<Ref>, error: Option<CreateError>)

  predicate Names(refs: seq<Ref>, id: JobId) { exists i | 0 <= i < |refs| :: refs[i].id == id }

  /** The first thing wrong with an item, in the order in which it is looked at. */
  function ItemError(jobs: map<JobId, Job>, refs: seq<Ref>, item: Item): (e: Option<CreateError>)
    ensures e.None? <==>
      && ValidItem(item) && !Names(refs, IdOf(item.source))
      && (IdOf(item.source) in jobs ==> jobs[IdOf(item.source)].source.url == item.source.url)
  {
    var id := IdOf(item.source);
    if item.source.externalId == "" then Some(MissingString("external_id"))
    else if item.source.variant == "" then Some(MissingString("detail_variant"))
    else if !SafeJobId(id) then Some(UnsafeItem)
    else if Names(refs, id) then Some(DuplicateJob(id))
    else if item.rank < 1 then Some(MissingPositive("rank"))
    else if item.pageIndex < 1 then Some(MissingPositive("page_index"))
    else if id in jobs && jobs[id].source.url != item.source.url then Some(IdentityConflict(id))
    else if item.source.kind == "" then Some(MissingString("source_kind"))
    else if item.source.title == "" then Some(MissingString("title"))
    else if item.source.url == "" then Some(MissingString("url"))
    else None
  }

  function WriteOne(w: Writing, item: Item): Writing {
    if w.error.Some? then w
    else
      match ItemError(w.jobs, w.refs, item)
      case Some(e) => w.(error := Some(e))
      case None => w.(jobs := w.jobs[IdOf(item.source) := CreatedJob(w.jobs, item)], refs := w.refs + [RefOf(item)])
  }

  function WriteAll(jobs: map<JobId, Job>, items: seq<Item>): Writing {
    if items == [] then Writing(jobs, [], None) else WriteOne(WriteAll(jobs, items[..|items| - 1]), items[|items| - 1])
  }

  /** A failing creation leaves the job files written so far, and the old manifest. */
  function Create(b: Bundle, items: seq<Item>): (Bundle, Option<CreateError>) {
    var w := WriteAll(b.jobs, items);
    if w.error.Some? then (b.(jobs := w.jobs), w.error) else (Bundle(SortBy(w.refs, RankLe), w.jobs), None)
  }

  // -- the stored bundle ---------------------------------------------------------------------

  ghost predicate FirstRefs(m: map<Status, Ref>, refs: seq<Ref>, jobs: map<JobId, Job>)
    requires AllKnown(refs, jobs)
  {
    forall s :: Lookup(m, s) == FirstWith(refs, jobs, s, {})
  }

  lemma SummaryStep(refs: seq<Ref>, jobs: map<JobId, Job>, i: nat, m: map<Status, Ref>)
    requires AllKnown(refs, jobs) && i < |refs| && FirstRefs(m, refs[..i], jobs)
    ensures var status := jobs[refs[i].id].status; var counts := CountsOf(refs[..i], jobs);
      && status in counts && CountsOf(refs[..i + 1], jobs) == counts[status := counts[status] + 1]
      && FirstRefs(if status in m then m else m[status := refs[i]], refs[..i + 1], jobs)
  {
    var status := jobs[refs[i].id].status;
    EveryStatus(status);
    assert refs[..i + 1][..i] == refs[..i];
    var after := if status in m then m else m[status := refs[i]];
    forall s ensures Lookup(after, s) == FirstWith(refs[..i + 1], jobs, s, {}) {
      assert FirstWith(refs[..i], jobs, s, {}) == Lookup(m, s);
    }
  }

  class JobStore {
    var refs: seq<Ref>
    var jobs: map<JobId, Job>

    constructor ()
      ensures Contents() == Bundle([], map[])
    {
      refs, jobs := [], map[];
    }

    function Contents(): Bundle
      reads this
    {
      Bundle(refs, jobs)
    }

    method CreateBundle(items: seq<Item>) returns (error: Option<CreateError>)
      modifies this
      ensures (Contents(), error) == Create(old(Contents()), items)
    {
      var jobRefs: seq<Ref> := [];
      for i := 0 to |items|
        invariant refs == old(refs)
        invariant WriteAll(old(jobs), items[..i]) == Writing(jobs, jobRefs, None)
      {
        assert items[..i + 1][..i] == items[..i];
        var item := items[i];
        var id := IdOf(item.source);
        error := ItemError(jobs, jobRefs, item);
        if error.Some? {
          FirstErrorStays(old(jobs), items, i + 1);
          return;
        }
        jobs := jobs[id := CreatedJob(jobs, item)];
        jobRefs := jobRefs + [RefOf(item)];
      }
      assert items[..|items|] == items;
      refs := SortBy(jobRefs, RankLe);
      error := None;
    }

    method SummarizeBundle() returns (summary: Summary)
      requires WellFormed(Contents())
      ensures summary == Summarize(Contents())
    {
      SortedRefsKnown(Contents());
      var sorted := SortBy(refs, RankLe);
      var counts: map<Status, nat> := map s | s in Statuses() :: 0;
      var nextByStatus: map<Status, Ref> := map[];
      for i := 0 to |sorted|
        invariant counts == CountsOf(sorted[..i], jobs)
        invariant FirstRefs(nextByStatus, sorted[..i], jobs)
      {
        SummaryStep(sorted, jobs, i, nextByStatus);
        var status := jobs[sorted[i].id].status;
        counts := counts[status := counts[status] + 1];
        if status !in nextByStatus {
          nextByStatus := nextByStatus[status := sorted[i]];
        }
      }
      assert sorted[..|sorted|] == sorted;
      var nextJob := OrElse(Lookup(nextByStatus, Pending), Lookup(nextByStatus, Retryable));
      summary := Summary(
        counts,
        nextJob,
        OrElse(Lookup(nextByStatus, InProgress), OrElse(nextJob, Lookup(nextByStatus, Failed))),
        Lookup(nextByStatus, InProgress),
        counts[Completed] + counts[ContentUnavailable] + counts[Skipped] == |refs|);
    }

    method FindFirst(sorted: seq<Ref>, status: Status, exclude: set<JobId>) returns (found: Option<Ref>)
      requires AllKnown(sorted, jobs)
      ensures found == FirstWith(sorted, jobs, status, exclude)
    {
      for i := 0 to |sorted|
        invariant FirstWith(sorted[..i], jobs, status, exclude) == None
      {
        assert sorted[..i + 1][..i] == sorted[..i];
        if sorted[i].id !in exclude && jobs[sorted[i].id].status == status {
          FirstFoundStays(sorted, jobs, status, exclude, i + 1);
          return Some(sorted[i]);
        }
      }
      assert sorted[..|sorted|] == sorted;
      found := None;
    }

    method ClaimNext(exclude: set<JobId>, now: nat) returns (claimed: Option<JobId>)
      requires WellFormed(Contents())
      modifies this`jobs
      ensures (Contents(), claimed) == Claim(old(Contents()), exclude, now)
    {
      SortedRefsKnown(Contents());
      var sorted := SortBy(refs, RankLe);
      var found := FindFirst(sorted, Pending, exclude);
      if found.None? {
        found := FindFirst(sorted, Retryable, exclude);
      }
      if found.None? {
        return None;
      }
      var id := found.value.id;
      jobs := jobs[id := ClaimedJob(jobs[id], now)];
      claimed := Some(id);
    }

    method UpdateStatus(id: JobId, status: Status, error: Option<string>, changes: Changes, now: nat)
      returns (r: Result<Job, UpdateError>)
      modifies this`jobs
      ensures (Contents(), r) == Update(old(Contents()), id, status, error, changes, now)
    {
      if !SafeJobId(id) {
        return Err(UnsafeJobId);
      }
      if id !in jobs {
        return Err(UnknownJob);
      }
      var job := jobs[id];
      job := job.(
        status := status,
        completedAt := if TerminalSuccess(status) then Some(now) else None,
        lastError := error);
      if status == InProgress && job.startedAt.None? {
        job := job.(startedAt := Some(now), attempts := job.attempts + 1);
      }
      job := job.(artifacts := Changed(job.artifacts, changes), current := true);
      jobs := jobs[id := job];
      r := Ok(job);
    }

    method RequeueStale(version: string, apply: bool) returns (r: Result<seq<JobId>, string>)
      requires WellFormed(Contents())
      modifies this`jobs
      ensures r == Requeue(old(Contents()), version).1
      ensures Contents() == if apply then Requeue(old(Contents()), version).0 else old(Contents())
    {
      if IsBlank(version) {
        return Err("empty version");
      }
      SortedRefsKnown(Contents());
      var sorted := SortBy(refs, RankLe);
      var ids: seq<JobId> := [];
      for i := 0 to |sorted|
        invariant jobs == old(jobs) && ids == StaleIds(sorted[..i], jobs, version)
      {
        assert sorted[..i + 1][..i] == sorted[..i];
        if Stale(jobs[sorted[i].id], version) {
          ids := ids + [sorted[i].id];
        }
      }
      assert sorted[..|sorted|] == sorted;
      if apply {
        for i := 0 to |ids|
          invariant jobs == RequeueJobs(old(jobs), ids[..i])
        {
          assert ids[..i + 1][..i] == ids[..i];
          if ids[i] in jobs {
            jobs := jobs[ids[i] := RequeuedJob(jobs[ids[i]])];
          }
        }
        assert ids[..|ids|] == ids;
      }
      r := Ok(ids);
    }

    method MigrateUnavailable(now: nat) returns (migrated: seq<JobId>, normalized: seq<JobId>)
      requires WellFormed(Contents())
      modifies this`jobs
      ensures Contents() == Migrate(old(Contents()), now).0
      ensures Migrate(old(Contents()), now).1 == Migration(jobs, migrated, normalized)
    {
      migrated, normalized := [], [];
      for i := 0 to |refs|
        invariant MigrateAll(old(jobs), refs[..i], now) == Migration(jobs, migrated, normalized)
        invariant jobs.Keys == old(jobs).Keys
      {
        assert refs[..i + 1][..i] == refs[..i];
        var id := refs[i].id;
        var job := jobs[id];
        if !LegacyFailure(job) && job.status != ContentUnavailable {
          continue;
        }
        var changed := MigratedJob(job, now);
        if LegacyFailure(job) {
          migrated := migrated + [id];
        }
        if changed != job {
          normalized := normalized + [id];
        }
        jobs := jobs[id := changed];
      }
      assert refs[..|refs|] == refs;
    }
  }

  function Lookup(m: map<Status, Ref>, s: Status): Option<Ref> { if s in m then Some(m[s]) else None }

  lemma {:induction false} FirstErrorStays(jobs: map<JobId, Job>, items: seq<Item>, i: nat)
    requires i <= |items| && WriteAll(jobs, items[..i]).error.Some?
    ensures WriteAll(jobs, items) == WriteAll(jobs, items[..i])
  {
    if i == |items| {
      assert items[..i] == items;
    } else {
      assert items[..|items| - 1][..i] == items[..i];
      FirstErrorStays(jobs, items[..|items| - 1], i);
    }
  }

  lemma {:induction false} FirstFoundStays(
      refs: seq<Ref>, jobs: map<JobId, Job>, status: Status, exclude: set<JobId>, i: nat)
    requires AllKnown(refs, jobs) && i <= |refs| && FirstWith(refs[..i], jobs, status, exclude).Some?
    ensures FirstWith(refs, jobs, status, exclude) == FirstWith(refs[..i], jobs, status, exclude)
  {
    if i == |refs| {
      assert refs[..i] == refs;
    } else {
      assert refs[..|refs| - 1][..i] == refs[..i];
      FirstFoundStays(refs[..|refs| - 1], jobs, status, exclude, i);
    }
  }

  // -- what every operation keeps -----------------------------------------------------------

  /** Completion times belong to terminal successes, and started or running jobs have been attempted. */
  predicate JobOk(job: Job) {
    && (job.completedAt.Some? <==> TerminalSuccess(job.status))
    && (job.startedAt.Some? ==> job.attempts >= 1)
    && (job.status == InProgress ==> job.startedAt.Some?)
  }

  ghost predicate AllOk(b: Bundle) { forall id | id in b.jobs :: JobOk(b.jobs[id]) }

  ghost predicate Good(b: Bundle) { WellFormed(b) && AllOk(b) }

  /** No attempt is forgotten and no job's source changes. */
  ghost predicate Progressed(b: Bundle, c: Bundle) {
    && c.refs == b.refs && c.jobs.Keys == b.jobs.Keys
    && forall id | id in b.jobs :: Advances(b.jobs[id], c.jobs[id])
  }

  predicate Advances(a: Job, b: Job) {
    b.attempts >= a.attempts && b.source == a.source && b.rank == a.rank && b.pageIndex == a.pageIndex
  }

  datatype Op =
    | OpClaim(exclude: set<JobId>, now: nat)
    | OpUpdate(id: JobId, status: Status, error: Option<string>, changes: Changes, now: nat)
    | OpRequeue(version: string)
    | OpMigrate(now: nat)

  function Do(b: Bundle, op: Op): Bundle
    requires WellFormed(b)
  {
    match op
    case OpClaim(exclude, now) => Claim(b, exclude, now).0
    case OpUpdate(id, status, error, changes, now) => Update(b, id, status, error, changes, now).0
    case OpRequeue(version) => Requeue(b, version).0
    case OpMigrate(now) => Migrate(b, now).0
  }

  /** Every operation on a bundle keeps the record invariant, forgets no attempt and keeps the manifest. */
  lemma OpKeepsGood(b: Bundle, op: Op)
    requires Good(b)
    ensures Good(Do(b, op)) && Progressed(b, Do(b, op))
  {
    match op
    case OpClaim(exclude, now) => ClaimKeepsGood(b, exclude, now);
    case OpUpdate(id, status, error, changes, now) => UpdateKeepsGood(b, id, status, error, changes, now);
    case OpRequeue(version) => RequeueKeepsGood(b, version);
    case OpMigrate(now) => MigrateIs(b.jobs, b.refs, now);
  }

  lemma ClaimKeepsGood(b: Bundle, exclude: set<JobId>, now: nat)
    requires Good(b)
    ensures Good(Claim(b, exclude, now).0) && Progressed(b, Claim(b, exclude, now).0)
  {
    SortedRefsKnown(b);
  }

  lemma UpdateKeepsGood(b: Bundle, id: JobId, status: Status, error: Option<string>, changes: Changes, now: nat)
    requires Good(b)
    ensures var c := Update(b, id, status, error, changes, now).0; Good(c) && Progressed(b, c)
  {
    if id in b.jobs {
      assert JobOk(UpdatedJob(b.jobs[id], status, error, changes, now));
    }
  }

  lemma RequeueKeepsGood(b: Bundle, version: string)
    requires Good(b)
    ensures Good(Requeue(b, version).0) && Progressed(b, Requeue(b, version).0)
  {
    RequeueIs(b.jobs, Candidates(b, version));
  }

  lemma {:induction false} RequeueIs(jobs: map<JobId, Job>, ids: seq<JobId>)
    ensures var r := RequeueJobs(jobs, ids);
      && r.Keys == jobs.Keys
      && forall id | id in jobs :: r[id] == if id in ids then RequeuedJob(jobs[id]) else jobs[id]
  {
    if ids != [] {
      assert ids == ids[..|ids| - 1] + [ids[|ids| - 1]];
      RequeueIs(jobs, ids[..|ids| - 1]);
    }
  }

  lemma {:induction false} StaleIdsAre(refs: seq<Ref>, jobs: map<JobId, Job>, version: string)
    requires AllKnown(refs, jobs)
    ensures forall id :: id in StaleIds(refs, jobs, version)
                         <==> Names(refs, id) && id in jobs && Stale(jobs[id], version)
  {
    if refs != [] {
      var init, last := refs[..|refs| - 1], refs[|refs| - 1];
      StaleIdsAre(init, jobs, version);
      forall id ensures Names(refs, id) <==> Names(init, id) || id == last.id {
        if Names(init, id) {
          var i :| 0 <= i < |init| && init[i].id == id;
          assert refs[i].id == id;
        }
        assert refs[|refs| - 1].id == last.id;
      }
    }
  }

  lemma StaleOnly(b: Bundle, version: string)
    requires WellFormed(b)
    ensures forall id :: id in Candidates(b, version)
                         <==> Names(b.refs, id) && id in b.jobs && Stale(b.jobs[id], version)
  {
    SortedRefsKnown(b);
    StaleIdsAre(SortedRefs(b), b.jobs, version);
    forall id ensures Names(SortedRefs(b), id) <==> Names(b.refs, id) {
      if i :| 0 <= i < |b.refs| && b.refs[i].id == id { assert b.refs[i] in SortedRefs(b); }
      if i :| 0 <= i < |SortedRefs(b)| && SortedRefs(b)[i].id == id { assert SortedRefs(b)[i] in b.refs; }
    }
  }

  lemma {:induction false} MigrateIs(jobs: map<JobId, Job>, refs: seq<Ref>, now: nat)
    ensures var m := MigrateAll(jobs, refs, now);
      && m.jobs.Keys == jobs.Keys
      && (forall id | id in jobs :: m.jobs[id] == if Names(refs, id) then MigratedJob(jobs[id], now) else jobs[id])
  {
    if refs != [] {
      var init, last := refs[..|refs| - 1], refs[|refs| - 1];
      MigrateIs(jobs, init, now);
      forall id ensures Names(refs, id) <==> Names(init, id) || id == last.id {
        if Names(init, id) {
          var i :| 0 <= i < |init| && init[i].id == id;
          assert refs[i].id == id;
        }
        assert refs[|refs| - 1].id == last.id;
      }
      forall id | id in jobs ensures MigratedJob(MigratedJob(jobs[id], now), now) == MigratedJob(jobs[id], now) {}
    }
  }

  // -- summary and claim -----------------------------------------------------------------------

  function SumCounts(counts: map<Status, nat>): nat
    requires counts.Keys == Statuses()
  {
    EveryStatus(Pending);
    counts[Pending] + counts[InProgress] + counts[Completed] + counts[ContentUnavailable] + counts[Skipped]
    + counts[Retryable] + counts[Failed]
  }

  lemma {:induction false} CountsAddUp(refs: seq<Ref>, jobs: map<JobId, Job>)
    requires AllKnown(refs, jobs)
    ensures SumCounts(CountsOf(refs, jobs)) == |refs|
  {
    if refs != [] {
      CountsAddUp(refs[..|refs| - 1], jobs);
    }
  }

  function Successes(refs: seq<Ref>, jobs: map<JobId, Job>): nat
    requires AllKnown(refs, jobs)
  {
    Count(refs, jobs, Completed) + Count(refs, jobs, ContentUnavailable) + Count(refs, jobs, Skipped)
  }

  predicate AllSucceeded(refs: seq<Ref>, jobs: map<JobId, Job>)
    requires AllKnown(refs, jobs)
  {
    forall i | 0 <= i < |refs| :: TerminalSuccess(jobs[refs[i].id].status)
  }

  lemma {:induction false} SuccessesCount(refs: seq<Ref>, jobs: map<JobId, Job>)
    requires AllKnown(refs, jobs)
    ensures Successes(refs, jobs) <= |refs| && (Successes(refs, jobs) == |refs| <==> AllSucceeded(refs, jobs))
  {
    if refs != [] {
      var init := refs[..|refs| - 1];
      SuccessesCount(init, jobs);
      assert AllSucceeded(refs, jobs)
        <==> AllSucceeded(init, jobs) && TerminalSuccess(jobs[refs[|refs| - 1].id].status) by {
        if AllSucceeded(refs, jobs) {
          forall i | 0 <= i < |init| ensures TerminalSuccess(jobs[init[i].id].status) { assert init[i] == refs[i]; }
        }
      }
    }
  }

  /** The counts sum to the number of jobs, and a bundle is complete exactly when every job succeeded for good. */
  lemma SummaryIsExact(b: Bundle)
    requires WellFormed(b)
    ensures var s := Summarize(b);
      && s.counts.Keys == Statuses() && SumCounts(s.counts) == |b.refs|
      && (s.complete <==> AllSucceeded(b.refs, b.jobs))
  {
    SortedRefsKnown(b);
    var sorted := SortedRefs(b);
    CountsAddUp(sorted, b.jobs);
    SuccessesCount(sorted, b.jobs);
    if AllSucceeded(sorted, b.jobs) { SucceededInAnyOrder(sorted, b.refs, b.jobs); }
    if AllSucceeded(b.refs, b.jobs) { SucceededInAnyOrder(b.refs, sorted, b.jobs); }
  }

  lemma SucceededInAnyOrder(refs: seq<Ref>, others: seq<Ref>, jobs: map<JobId, Job>)
    requires AllKnown(refs, jobs) && AllKnown(others, jobs) && AllSucceeded(refs, jobs)
    requires forall r | r in others :: r in refs
    ensures AllSucceeded(others, jobs)
  {
    forall i | 0 <= i < |others| ensures TerminalSuccess(jobs[others[i].id].status) {
      assert others[i] in refs;
    }
  }

  predicate Offered(b: Bundle, r: Ref, exclude: set<JobId>)
    requires WellFormed(b)
  {
    r in b.refs && r.id in b.jobs && r.id !in exclude && Claimable(b.jobs[r.id].status)
  }

  /** Pending jobs come before retryable ones, and lower ranks first. */
  predicate ClaimedBefore(b: Bundle, r: Ref, other: Ref)
    requires r.id in b.jobs && other.id in b.jobs
  {
    || (b.jobs[r.id].status == Pending && b.jobs[other.id].status == Retryable)
    || (b.jobs[r.id].status == b.jobs[other.id].status && r.rank <= other.rank)
  }

  lemma {:induction false} FirstWithIsLeast(refs: seq<Ref>, jobs: map<JobId, Job>, status: Status, exclude: set<JobId>)
    requires AllKnown(refs, jobs) && SortedBy(refs, RankLe)
    ensures var r := FirstWith(refs, jobs, status, exclude);
      r.Some? ==>
        forall x | x in refs && x.id !in exclude && x.id in jobs && jobs[x.id].status == status ::
          r.value.rank <= x.rank
  {
    if refs != [] {
      var init, last := refs[..|refs| - 1], refs[|refs| - 1];
      FirstWithIsLeast(init, jobs, status, exclude);
      assert refs == init + [last];
      var before := FirstWith(init, jobs, status, exclude);
      if before.Some? {
        var k :| 0 <= k < |init| && init[k] == before.value;
        assert RankLe(refs[k], refs[|refs| - 1]);
      }
    }
  }

  /**
    A claim returns the job the summary announces; it takes one whenever one is offered, and the one that goes first.
   */
  lemma ClaimTakesTheFirst(b: Bundle, exclude: set<JobId>, now: nat)
    requires WellFormed(b)
    ensures var (c, id) := Claim(b, exclude, now);
      && (exclude == {} ==> (id.Some? <==> Summarize(b).nextJob.Some?)
                            && (id.Some? ==> id.value == Summarize(b).nextJob.value.id))
      && (id.None? <==> forall r | r in b.refs :: !Offered(b, r, exclude))
      && (id.None? ==> c == b)
      && (id.Some? ==> exists r | r in b.refs ::
            && r.id == id.value && Offered(b, r, exclude)
            && (forall x | x in b.refs && Offered(b, x, exclude) :: ClaimedBefore(b, r, x))
            && c == b.(jobs := b.jobs[r.id := ClaimedJob(b.jobs[r.id], now)]))
  {
    SortedRefsKnown(b);
    var sorted := SortedRefs(b);
    assert TotalPreorder(RankLe);
    SortBySorted(b.refs, RankLe);
    FirstWithIsLeast(sorted, b.jobs, Pending, exclude);
    FirstWithIsLeast(sorted, b.jobs, Retryable, exclude);
    forall r | r in b.refs ensures exists i | 0 <= i < |sorted| :: sorted[i] == r {
      assert r in sorted;
    }
  }

  // -- requeue, migrate and create again ----------------------------------------------------------

  /** Requeueing leaves nothing to requeue. */
  lemma RequeueThenNothing(b: Bundle, version: string)
    requires WellFormed(b) && !IsBlank(version)
    ensures var c := Requeue(b, version).0; WellFormed(c) && Candidates(c, version) == []
  {
    var c := Requeue(b, version).0;
    RequeueIs(b.jobs, Candidates(b, version));
    StaleOnly(b, version);
    StaleOnly(c, version);
    SomeMember(Candidates(c, version));
  }

  lemma SomeMember(ids: seq<JobId>)
    ensures ids != [] ==> exists id :: id in ids
  {
    if ids != [] { assert ids[0] in ids; }
  }

  lemma {:induction false} NothingToMigrate(jobs: map<JobId, Job>, refs: seq<Ref>, now: nat)
    requires forall i | 0 <= i < |refs| && refs[i].id in jobs ::
      MigratedJob(jobs[refs[i].id], now) == jobs[refs[i].id] && !LegacyFailure(jobs[refs[i].id])
    ensures MigrateAll(jobs, refs, now) == Migration(jobs, [], [])
  {
    if refs != [] {
      forall i | 0 <= i < |refs| - 1 ensures refs[i] == refs[..|refs| - 1][i] {}
      NothingToMigrate(jobs, refs[..|refs| - 1], now);
      if refs[|refs| - 1].id in jobs {
        assert MigratedJob(jobs[refs[|refs| - 1].id], now) == jobs[refs[|refs| - 1].id];
      }
    }
  }

  /** Migrating a second time, at whatever time, changes and reports nothing. */
  lemma MigrateTwice(b: Bundle, now: nat, later: nat)
    ensures var c := Migrate(b, now).0; Migrate(c, later) == (c, Migration(c.jobs, [], []))
  {
    var c := Migrate(b, now).0;
    MigrateIs(b.jobs, b.refs, now);
    forall i | 0 <= i < |c.refs| && c.refs[i].id in c.jobs
      ensures MigratedJob(c.jobs[c.refs[i].id], later) == c.jobs[c.refs[i].id] && !LegacyFailure(c.jobs[c.refs[i].id])
    {
      assert Names(b.refs, c.refs[i].id);
    }
    NothingToMigrate(c.jobs, c.refs, later);
  }

  /** Same manifest, and every referenced record keeps its source and position and is in the current schema. */
  ghost predicate SameJobs(b: Bundle, c: Bundle) {
    && c.refs == b.refs && AllKnown(b.refs, b.jobs) && AllKnown(b.refs, c.jobs)
    && forall i | 0 <= i < |b.refs| :: SameJob(b.jobs[b.refs[i].id], c.jobs[b.refs[i].id])
  }

  predicate SameJob(a: Job, b: Job) {
    && b.source == a.source && b.rank == a.rank && b.pageIndex == a.pageIndex && b.current
    && !b.artifacts.outputDirectory.Missing? && !b.artifacts.metadataDirectory.Missing?
  }

  lemma OpKeepsSameJobs(b: Bundle, c: Bundle, op: Op)
    requires SameJobs(b, c) && WellFormed(c)
    ensures SameJobs(b, Do(c, op))
  {
    match op
    case OpClaim(exclude, now) => ClaimKeepsSameJobs(b, c, exclude, now);
    case OpUpdate(id, status, error, changes, now) => UpdateKeepsSameJobs(b, c, id, status, error, changes, now);
    case OpRequeue(version) => RequeueIs(c.jobs, Candidates(c, version));
    case OpMigrate(now) => MigrateIs(c.jobs, c.refs, now);
  }

  lemma ClaimKeepsSameJobs(b: Bundle, c: Bundle, exclude: set<JobId>, now: nat)
    requires SameJobs(b, c) && WellFormed(c)
    ensures SameJobs(b, Claim(c, exclude, now).0)
  {
    SortedRefsKnown(c);
  }

  lemma UpdateKeepsSameJobs(
      b: Bundle, c: Bundle, id: JobId, status: Status, error: Option<string>, changes: Changes, now: nat)
    requires SameJobs(b, c) && WellFormed(c)
    ensures SameJobs(b, Update(c, id, status, error, changes, now).0)
  {}

  /** A history of operations; records stay well formed through it. */
  function DoAll(b: Bundle, ops: seq<Op>): (c: Bundle)
    requires Good(b)
    ensures Good(c) && Progressed(b, c)
  {
    if ops == [] then b
    else
      var before := DoAll(b, ops[..|ops| - 1]);
      OpKeepsGood(before, ops[|ops| - 1]);
      Do(before, ops[|ops| - 1])
  }

  lemma {:induction false} HistoryKeepsSameJobs(b: Bundle, ops: seq<Op>)
    requires Good(b) && SameJobs(b, b)
    ensures SameJobs(b, DoAll(b, ops))
  {
    if ops != [] {
      HistoryKeepsSameJobs(b, ops[..|ops| - 1]);
      OpKeepsSameJobs(b, DoAll(b, ops[..|ops| - 1]), ops[|ops| - 1]);
    }
  }

  /** What a creation that succeeded has written. */
  lemma {:induction false} Written(jobs: map<JobId, Job>, items: seq<Item>)
    requires WriteAll(jobs, items).error.None?
    ensures var w := WriteAll(jobs, items);
      && |w.refs| == |items|
      && (forall i | 0 <= i < |items| :: w.refs[i] == RefOf(items[i]) && ValidItem(items[i]))
      && (forall i, j | 0 <= i < j < |items| :: IdOf(items[i].source) != IdOf(items[j].source))
      && (forall i | 0 <= i < |items| :: Describes(w.jobs, items[i]))
  {
    if items != [] {
      var init, last := items[..|items| - 1], items[|items| - 1];
      var before := WriteAll(jobs, init);
      Written(jobs, init);
      WriteStep(before, last);
      forall i | 0 <= i < |init|
        ensures IdOf(items[i].source) != IdOf(last.source) && Describes(WriteOne(before, last).jobs, items[i]) {
        assert before.refs[i].id == IdOf(init[i].source) && Describes(before.jobs, init[i]);
      }
    }
  }

  /** A successful write adds one reference under a new id and leaves the other records alone. */
  lemma WriteStep(w: Writing, item: Item)
    requires WriteOne(w, item).error.None?
    ensures var after := WriteOne(w, item);
      && w.error.None? && ValidItem(item) && after.refs == w.refs + [RefOf(item)] && Describes(after.jobs, item)
      && (forall id | id in w.jobs && id != IdOf(item.source) :: id in after.jobs && after.jobs[id] == w.jobs[id])
      && (forall i | 0 <= i < |w.refs| :: w.refs[i].id != IdOf(item.source))
  {}

  predicate Describes(jobs: map<JobId, Job>, item: Item) {
    var id := IdOf(item.source);
    && id in jobs && jobs[id].source == item.source && jobs[id].rank == item.rank
    && jobs[id].pageIndex == item.pageIndex
    && jobs[id].current
    && !jobs[id].artifacts.outputDirectory.Missing? && !jobs[id].artifacts.metadataDirectory.Missing?
  }

  lemma {:induction false} WriteAgain(jobs: map<JobId, Job>, items: seq<Item>)
    requires forall i | 0 <= i < |items| :: ValidItem(items[i]) && Describes(jobs, items[i])
    requires forall i, j | 0 <= i < j < |items| :: IdOf(items[i].source) != IdOf(items[j].source)
    ensures WriteAll(jobs, items).jobs == jobs && WriteAll(jobs, items).error.None?
    ensures |WriteAll(jobs, items).refs| == |items|
    ensures forall i | 0 <= i < |items| :: WriteAll(jobs, items).refs[i] == RefOf(items[i])
  {
    if items != [] {
      var init, last := items[..|items| - 1], items[|items| - 1];
      WriteAgain(jobs, init);
      var before := WriteAll(jobs, init);
      var id := IdOf(last.source);
      assert Describes(jobs, items[|items| - 1]);
      forall i | 0 <= i < |before.refs| ensures before.refs[i].id != id {
        assert before.refs[i] == RefOf(items[i]);
      }
      assert CreatedJob(jobs, last) == jobs[id];
      assert jobs[id := jobs[id]] == jobs;
    }
  }

  /** Creating a bundle again from the same discovery, whatever was done to its jobs in between, changes nothing. */
  lemma CreateAgain(b: Bundle, items: seq<Item>, ops: seq<Op>)
    requires Create(b, items).1.None? && AllOk(b)
    ensures Good(Create(b, items).0)
    ensures var c := DoAll(Create(b, items).0, ops); Create(c, items) == (c, None)
  {
    CreatedIsGood(b, items);
    CreatedIsCurrent(b, items);
    HistoryKeepsSameJobs(Create(b, items).0, ops);
    RecreateUnchanged(b, items, DoAll(Create(b, items).0, ops));
  }

  lemma CreatedIsCurrent(b: Bundle, items: seq<Item>)
    requires Create(b, items).1.None?
    ensures SameJobs(Create(b, items).0, Create(b, items).0)
  {
    Written(b.jobs, items);
    var w := WriteAll(b.jobs, items);
    var c := Create(b, items).0;
    SortByMembers(w.refs, RankLe);
    forall i | 0 <= i < |c.refs| ensures c.refs[i].id in c.jobs && SameJob(c.jobs[c.refs[i].id], c.jobs[c.refs[i].id]) {
      assert c.refs[i] in w.refs;
      var k :| 0 <= k < |w.refs| && w.refs[k] == c.refs[i];
      assert Describes(w.jobs, items[k]);
    }
  }

  lemma RecreateUnchanged(b: Bundle, items: seq<Item>, c: Bundle)
    requires Create(b, items).1.None? && SameJobs(Create(b, items).0, c)
    ensures Create(c, items) == (c, None)
  {
    Written(b.jobs, items);
    var first := WriteAll(b.jobs, items);
    SortByMembers(first.refs, RankLe);
    forall i | 0 <= i < |items| ensures ValidItem(items[i]) && Describes(c.jobs, items[i]) {
      assert Describes(first.jobs, items[i]);
      assert first.refs[i] in c.refs;
      var k :| 0 <= k < |c.refs| && c.refs[k] == first.refs[i];
      assert SameJob(first.jobs[c.refs[k].id], c.jobs[c.refs[k].id]);
    }
    WriteAgain(c.jobs, items);
    assert WriteAll(c.jobs, items).refs == first.refs;
  }

  lemma SortedRefsDistinct(refs: seq<Ref>)
    requires forall i, j | 0 <= i < j < |refs| :: refs[i].id != refs[j].id
    ensures var sorted := SortBy(refs, RankLe);
      && (forall r :: r in sorted <==> r in refs)
      && forall i, j | 0 <= i < j < |sorted| :: sorted[i].id != sorted[j].id
  {
    var sorted := SortBy(refs, RankLe);
    SortByMembers(refs, RankLe);
    assert NoDup(refs);
    SortByNoDup(refs, RankLe);
    forall i, j | 0 <= i < j < |sorted| ensures sorted[i].id != sorted[j].id {
      assert sorted[i] in refs && sorted[j] in refs && sorted[i] != sorted[j];
    }
  }

  lemma WrittenRefs(jobs: map<JobId, Job>, items: seq<Item>)
    requires WriteAll(jobs, items).error.None?
    ensures var w := WriteAll(jobs, items);
      && (forall i, j | 0 <= i < j < |w.refs| :: w.refs[i].id != w.refs[j].id)
      && forall r | r in w.refs :: r.id in w.jobs
  {
    Written(jobs, items);
    var w := WriteAll(jobs, items);
    forall r | r in w.refs ensures r.id in w.jobs {
      var k :| 0 <= k < |w.refs| && w.refs[k] == r;
      assert Describes(w.jobs, items[k]);
    }
    forall i, j | 0 <= i < j < |w.refs| ensures w.refs[i].id != w.refs[j].id {
      assert w.refs[i] == RefOf(items[i]) && w.refs[j] == RefOf(items[j]);
    }
  }

  /** A created bundle is well formed and its records are consistent. */
  lemma CreatedIsGood(b: Bundle, items: seq<Item>)
    requires Create(b, items).1.None? && AllOk(b)
    ensures Good(Create(b, items).0)
  {
    var w := WriteAll(b.jobs, items);
    WrittenRefs(b.jobs, items);
    WrittenOk(b.jobs, items);
    SortedRefsDistinct(w.refs);
    var c := Create(b, items).0;
    forall i | 0 <= i < |c.refs| ensures c.refs[i].id in c.jobs { assert c.refs[i] in w.refs; }
  }

  lemma {:induction false} WrittenOk(jobs: map<JobId, Job>, items: seq<Item>)
    requires forall id | id in jobs :: JobOk(jobs[id])
    ensures forall id | id in WriteAll(jobs, items).jobs :: JobOk(WriteAll(jobs, items).jobs[id])
  {
    if items != [] { WrittenOk(jobs, items[..|items| - 1]); }
  }
}
