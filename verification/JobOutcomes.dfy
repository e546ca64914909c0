/** What each operation on the crawl jobs writes and reports, field by field (luatvietnam_crawler/jobs.py). */
module JobOutcomes {
  import opened Prelude
  import opened Text
  import opened CrawlJobs

  // -- manifest order ----------------------------------------------------------------------

  /** By rank, and among equal ranks as in the manifest. */
  ghost predicate Precedes(refs: seq<Ref>, a: Ref, b: Ref) {
    exists i, j | 0 <= i < |refs| && 0 <= j < |refs| ::
      refs[i] == a && refs[j] == b && (a.rank < b.rank || (a.rank == b.rank && i < j))
  }

  ghost predicate ComesBefore(refs: seq<Ref>, a: Ref, b: Ref) {
    exists i, j | 0 <= i < j < |refs| :: refs[i] == a && refs[j] == b
  }

  /** The same references by rank. */
  ghost predicate InRankOrder(refs: seq<Ref>, sorted: seq<Ref>) {
    && multiset(sorted) == multiset(refs)
    && (forall r :: r in sorted <==> r in refs)
    && forall i, j | 0 <= i < j < |sorted| :: Precedes(refs, sorted[i], sorted[j])
  }

  lemma SortsByRank(refs: seq<Ref>)
    ensures InRankOrder(refs, SortBy(refs, RankLe))
  {
    var earlier := (a: Ref, b: Ref) => ComesBefore(refs, a, b);
    assert TotalPreorder(RankLe);
    forall i, j | 0 <= i < j < |refs| ensures earlier(refs[i], refs[j]) {}
    SortByStable(refs, RankLe, earlier);
    SortByMembers(refs, RankLe);
    var sorted := SortBy(refs, RankLe);
    forall i, j | 0 <= i < j < |sorted| ensures Precedes(refs, sorted[i], sorted[j]) {
      assert RankLe(sorted[i], sorted[j]) && (RankLe(sorted[j], sorted[i]) ==> earlier(sorted[i], sorted[j]));
      assert sorted[i] in refs && sorted[j] in refs;
    }
  }

  // -- the first job of a status --------------------------------------------------------------

  ghost predicate HasStatus(b: Bundle, r: Ref, s: Status, exclude: set<JobId>) {
    r in b.refs && r.id in b.jobs && b.jobs[r.id].status == s && r.id !in exclude
  }

  ghost predicate FirstOf(b: Bundle, s: Status, exclude: set<JobId>, r: Option<Ref>) {
    match r
    case None => forall q :: !HasStatus(b, q, s, exclude)
    case Some(q) => HasStatus(b, q, s, exclude)
                    && forall p | HasStatus(b, p, s, exclude) && p != q :: Precedes(b.refs, q, p)
  }

  /** The first of these statuses that some job has, and the first job that has it. */
  ghost predicate FirstAmong(b: Bundle, statuses: seq<Status>, exclude: set<JobId>, r: Option<Ref>) {
    || (r.None? && forall i | 0 <= i < |statuses| :: FirstOf(b, statuses[i], exclude, None))
    || (r.Some? && exists i | 0 <= i < |statuses| ::
          && FirstOf(b, statuses[i], exclude, r)
          && forall j | 0 <= j < i :: FirstOf(b, statuses[j], exclude, None))
  }

  lemma {:induction false} FirstWithAt(refs: seq<Ref>, jobs: map<JobId, Job>, s: Status, exclude: set<JobId>)
    returns (k: nat)
    requires AllKnown(refs, jobs) && FirstWith(refs, jobs, s, exclude).Some?
    ensures k < |refs| && refs[k] == FirstWith(refs, jobs, s, exclude).value
    ensures forall i | 0 <= i < k :: refs[i].id in exclude || jobs[refs[i].id].status != s
  {
    var init, last := refs[..|refs| - 1], refs[|refs| - 1];
    assert refs == init + [last];
    if FirstWith(init, jobs, s, exclude).Some? {
      k := FirstWithAt(init, jobs, s, exclude);
      forall i | 0 <= i < k ensures refs[i].id in exclude || jobs[refs[i].id].status != s { assert init[i] == refs[i]; }
    } else {
      k := |refs| - 1;
      forall i | 0 <= i < k ensures refs[i].id in exclude || jobs[refs[i].id].status != s { assert init[i] == refs[i]; }
    }
  }

  lemma FirstWithIs(b: Bundle, s: Status, exclude: set<JobId>)
    requires WellFormed(b)
    ensures AllKnown(SortedRefs(b), b.jobs)
    ensures FirstOf(b, s, exclude, FirstWith(SortedRefs(b), b.jobs, s, exclude))
  {
    SortedRefsKnown(b);
    SortsByRank(b.refs);
    var sorted := SortedRefs(b);
    var r := FirstWith(sorted, b.jobs, s, exclude);
    if r.Some? {
      var k := FirstWithAt(sorted, b.jobs, s, exclude);
      forall p | HasStatus(b, p, s, exclude) && p != r.value ensures Precedes(b.refs, r.value, p) {
        assert p in sorted;
        var m :| 0 <= m < |sorted| && sorted[m] == p;
        assert k < m;
        assert Precedes(b.refs, sorted[k], sorted[m]);
      }
    } else {
      forall q ensures !HasStatus(b, q, s, exclude) { assert q in b.refs <==> q in sorted; }
    }
  }

  // -- summary ----------------------------------------------------------------------------------

  ghost function WithStatus(refs: seq<Ref>, jobs: map<JobId, Job>, s: Status): set<Ref> {
    set r | r in refs && r.id in jobs && jobs[r.id].status == s
  }

  lemma {:induction false} CountIs(refs: seq<Ref>, jobs: map<JobId, Job>, s: Status)
    requires AllKnown(refs, jobs) && NoDup(refs)
    ensures Count(refs, jobs, s) == |WithStatus(refs, jobs, s)|
  {
    if refs != [] {
      var init, last := refs[..|refs| - 1], refs[|refs| - 1];
      assert refs == init + [last];
      NoDupPrefix(init, last);
      CountIs(init, jobs, s);
      WithStatusStep(init, last, jobs, s);
    }
  }

  lemma WithStatusStep(init: seq<Ref>, last: Ref, jobs: map<JobId, Job>, s: Status)
    requires last.id in jobs && last !in init
    ensures |WithStatus(init + [last], jobs, s)|
            == |WithStatus(init, jobs, s)| + if jobs[last.id].status == s then 1 else 0
  {
    if jobs[last.id].status == s {
      assert WithStatus(init + [last], jobs, s) == WithStatus(init, jobs, s) + {last};
    } else {
      assert WithStatus(init + [last], jobs, s) == WithStatus(init, jobs, s);
    }
  }

  lemma CountsHold(b: Bundle, s: Status)
    requires WellFormed(b)
    ensures s in Summarize(b).counts && Summarize(b).counts[s] == |WithStatus(b.refs, b.jobs, s)|
  {
    EveryStatus(s);
    SortedRefsKnown(b);
    assert NoDup(b.refs);
    SortByNoDup(b.refs, RankLe);
    CountIs(SortedRefs(b), b.jobs, s);
    assert WithStatus(SortedRefs(b), b.jobs, s) == WithStatus(b.refs, b.jobs, s);
  }

  /** The summary counts the jobs of every status and announces the first one to claim, to finish and in progress. */
  lemma SummaryReports(b: Bundle)
    requires WellFormed(b)
    ensures var s := Summarize(b);
      && (forall t :: t in s.counts && s.counts[t] == |WithStatus(b.refs, b.jobs, t)|)
      && FirstAmong(b, [Pending, Retryable], {}, s.nextJob)
      && FirstAmong(b, [InProgress, Pending, Retryable, Failed], {}, s.firstUnfinished)
      && FirstOf(b, InProgress, {}, s.firstInProgress)
      && (s.complete <==> forall i | 0 <= i < |b.refs| :: var t := b.jobs[b.refs[i].id].status;
            t == Completed || t == ContentUnavailable || t == Skipped)
  {
    forall t ensures t in Summarize(b).counts && Summarize(b).counts[t] == |WithStatus(b.refs, b.jobs, t)| {
      CountsHold(b, t);
    }
    SummaryIsExact(b);
    NextIs(b, {});
    UnfinishedIs(b);
    FirstWithIs(b, InProgress, {});
  }

  lemma NextIs(b: Bundle, exclude: set<JobId>)
    requires WellFormed(b)
    ensures FirstAmong(b, [Pending, Retryable], exclude, NextJob(b, exclude))
  {
    FirstWithIs(b, Pending, exclude);
    FirstWithIs(b, Retryable, exclude);
    NoneAmong(b, exclude);
    var sorted := SortedRefs(b);
    OneMore(b, Retryable, [], exclude, FirstWith(sorted, b.jobs, Retryable, exclude), None);
    OneMore(b, Pending, [Retryable], exclude, FirstWith(sorted, b.jobs, Pending, exclude),
            FirstWith(sorted, b.jobs, Retryable, exclude));
    assert [Pending] + [Retryable] == [Pending, Retryable] && [Retryable] + [] == [Retryable];
  }

  lemma UnfinishedIs(b: Bundle)
    requires WellFormed(b)
    ensures FirstAmong(b, [InProgress, Pending, Retryable, Failed], {}, FirstUnfinished(b))
  {
    var sorted := SortedRefs(b);
    FirstWithIs(b, InProgress, {});
    FirstWithIs(b, Pending, {});
    FirstWithIs(b, Retryable, {});
    FirstWithIs(b, Failed, {});
    NoneAmong(b, {});
    var failed := FirstWith(sorted, b.jobs, Failed, {});
    var retryable := OrElse(FirstWith(sorted, b.jobs, Retryable, {}), failed);
    OneMore(b, Failed, [], {}, failed, None);
    assert [Failed] + [] == [Failed];
    OneMore(b, Retryable, [Failed], {}, FirstWith(sorted, b.jobs, Retryable, {}), failed);
    assert [Retryable] + [Failed] == [Retryable, Failed];
    OneMore(b, Pending, [Retryable, Failed], {}, FirstWith(sorted, b.jobs, Pending, {}), retryable);
    assert [Pending] + [Retryable, Failed] == [Pending, Retryable, Failed];
    OneMore(b, InProgress, [Pending, Retryable, Failed], {}, FirstWith(sorted, b.jobs, InProgress, {}),
            OrElse(FirstWith(sorted, b.jobs, Pending, {}), retryable));
    assert [InProgress] + [Pending, Retryable, Failed] == [InProgress, Pending, Retryable, Failed];
  }

  lemma NoneAmong(b: Bundle, exclude: set<JobId>)
    ensures FirstAmong(b, [], exclude, None)
  {}

  lemma OneMore(
      b: Bundle, s: Status, statuses: seq<Status>, exclude: set<JobId>, first: Option<Ref>, others: Option<Ref>)
    requires FirstOf(b, s, exclude, first) && FirstAmong(b, statuses, exclude, others)
    ensures FirstAmong(b, [s] + statuses, exclude, OrElse(first, others))
  {
    var all := [s] + statuses;
    assert forall i | 0 <= i < |statuses| :: all[i + 1] == statuses[i];
    if first.Some? {
      assert FirstOf(b, all[0], exclude, first);
    } else if others.Some? {
      var i :| && 0 <= i < |statuses| && FirstOf(b, statuses[i], exclude, others)
               && forall j | 0 <= j < i :: FirstOf(b, statuses[j], exclude, None);
      assert FirstOf(b, all[i + 1], exclude, others);
      forall j | 0 <= j < i + 1 ensures FirstOf(b, all[j], exclude, None) {
        if j > 0 { assert all[j] == statuses[j - 1]; }
      }
    } else {
      forall j | 0 <= j < |all| ensures FirstOf(b, all[j], exclude, None) {
        if j > 0 { assert all[j] == statuses[j - 1]; }
      }
    }
  }

  // -- one record --------------------------------------------------------------------------------

  /** Only the record under `id` is written. */
  ghost predicate Writes(b: Bundle, c: Bundle, id: JobId, job: Job) {
    && c.refs == b.refs && c.jobs.Keys == b.jobs.Keys && id in c.jobs && c.jobs[id] == job
    && forall x | x in b.jobs && x != id :: c.jobs[x] == b.jobs[x]
  }

  ghost predicate SameOrigin(a: Job, b: Job) {
    b.source == a.source && b.rank == a.rank && b.pageIndex == a.pageIndex
  }

  /** A claim starts the first pending job, or else the first retryable one, on one more attempt. */
  lemma ClaimStarts(b: Bundle, exclude: set<JobId>, now: nat)
    requires WellFormed(b)
    ensures var (c, id) := Claim(b, exclude, now);
      if id.None? then c == b && FirstAmong(b, [Pending, Retryable], exclude, None)
      else exists r: Ref, job: Job ::
        && r.id == id.value && FirstAmong(b, [Pending, Retryable], exclude, Some(r)) && Writes(b, c, r.id, job)
        && job.status == InProgress && job.attempts == b.jobs[r.id].attempts + 1 && job.startedAt == Some(now)
        && job.completedAt.None? && job.lastError.None? && job.artifacts == b.jobs[r.id].artifacts
        && job.current == b.jobs[r.id].current && SameOrigin(b.jobs[r.id], job)
  {
    NextIs(b, exclude);
    var next := NextJob(b, exclude);
    if next.Some? {
      var c := Claim(b, exclude, now).0;
      assert next.value.id in b.jobs by { FirstWithIs(b, Pending, exclude); FirstWithIs(b, Retryable, exclude); }
      assert Writes(b, c, next.value.id, c.jobs[next.value.id]);
    }
  }

  /** `LTV_`, one or more digits, and one of the three variants. */
  ghost predicate IsJobId(id: JobId) {
    exists digits, variant :: id == "LTV_" + digits + variant && digits != ""
      && (forall i | 0 <= i < |digits| :: '0' <= digits[i] <= '9')
      && (variant == "-d1" || variant == "-d5" || variant == "-d10")
  }

  lemma SafeIdsAre(id: JobId)
    ensures SafeJobId(id) <==> IsJobId(id)
  {
    if SafeJobId(id) {
      var n :| 5 <= n <= |id| && AllDigits(id[4..n]) && IsVariant(id[n..]);
      assert id == id[..4] + id[4..n] + id[n..];
    }
    if IsJobId(id) {
      var digits, variant :| && id == "LTV_" + digits + variant && digits != ""
                             && (forall i | 0 <= i < |digits| :: '0' <= digits[i] <= '9')
                             && (variant == "-d1" || variant == "-d5" || variant == "-d10");
      assert id[..4] == "LTV_";
      var n := 4 + |digits|;
      assert id[4..n] == digits && id[n..] == variant;
    }
  }

  /** A value that is given replaces the stored one. */
  ghost predicate Updates<T>(given: Option<T>, stored: Option<T>, now: Option<T>) {
    (given.Some? ==> now == given) && (given.None? ==> now == stored)
  }

  ghost predicate UpdatesField(given: Option<string>, stored: Field, now: Field) {
    (given.Some? ==> now == Val(given.value)) && (given.None? ==> now == stored)
  }

  ghost predicate UpdatesArtifacts(given: Changes, stored: Artifacts, now: Artifacts) {
    && UpdatesField(given.outputDirectory, stored.outputDirectory, now.outputDirectory)
    && UpdatesField(given.metadataDirectory, stored.metadataDirectory, now.metadataDirectory)
    && Updates(given.serializer, stored.serializer, now.serializer)
    && Updates(given.characters, stored.characters, now.characters)
    && Updates(given.articles, stored.articles, now.articles)
    && Updates(given.markers, stored.markers, now.markers)
    && Updates(given.rawHtmlSaved, stored.rawHtmlSaved, now.rawHtmlSaved)
  }

  /** An update refuses an unsafe or unknown id and otherwise writes that record. */
  lemma UpdateWrites(b: Bundle, id: JobId, status: Status, error: Option<string>, changes: Changes, now: nat)
    ensures var (c, r) := Update(b, id, status, error, changes, now);
      && (r == Err(UnsafeJobId) <==> !IsJobId(id))
      && (r == Err(UnknownJob) <==> IsJobId(id) && id !in b.jobs)
      && (r.Err? ==> c == b)
      && (r.Ok? ==>
            && Writes(b, c, id, r.value) && r.value.status == status && r.value.lastError == error && r.value.current
            && r.value.completedAt
               == (if status == Completed || status == ContentUnavailable || status == Skipped then Some(now) else None)
            && SameOrigin(b.jobs[id], r.value) && UpdatesArtifacts(changes, b.jobs[id].artifacts, r.value.artifacts)
            && if status == InProgress && b.jobs[id].startedAt.None?
               then r.value.startedAt == Some(now) && r.value.attempts == b.jobs[id].attempts + 1
               else r.value.startedAt == b.jobs[id].startedAt && r.value.attempts == b.jobs[id].attempts)
  {
    SafeIdsAre(id);
  }

  // -- requeueing ------------------------------------------------------------------------------------

  /** A completed job that lacks the content of this serializer version or its raw page. */
  ghost predicate Outdated(b: Bundle, id: JobId, version: string) {
    && (exists i | 0 <= i < |b.refs| :: b.refs[i].id == id) && id in b.jobs && b.jobs[id].status == Completed
    && (b.jobs[id].artifacts.serializer != Some(version) || b.jobs[id].artifacts.rawHtmlSaved != Some(true))
  }

  ghost predicate ResetTo(a: Job, b: Job) {
    && b.status == Pending && b.startedAt.None? && b.completedAt.None? && b.lastError.None?
    && b.attempts == a.attempts && b.current == a.current && SameOrigin(a, b)
    && b.artifacts.metadataDirectory == a.artifacts.metadataDirectory && b.artifacts.outputDirectory == Null
    && b.artifacts.serializer.None? && b.artifacts.characters.None? && b.artifacts.articles.None?
    && b.artifacts.markers.None? && b.artifacts.rawHtmlSaved.None?
  }

  ghost predicate RankedBefore(refs: seq<Ref>, x: JobId, y: JobId) {
    exists p: Ref, q: Ref :: p.id == x && q.id == y && Precedes(refs, p, q)
  }

  ghost predicate ListedByRank(refs: seq<Ref>, ids: seq<JobId>) {
    forall i, j | 0 <= i < j < |ids| :: RankedBefore(refs, ids[i], ids[j])
  }

  lemma {:induction false} StaleIdsListed(refs: seq<Ref>, sorted: seq<Ref>, jobs: map<JobId, Job>, version: string)
    requires AllKnown(sorted, jobs)
    requires forall i, j | 0 <= i < j < |sorted| :: Precedes(refs, sorted[i], sorted[j])
    ensures ListedByRank(refs, StaleIds(sorted, jobs, version))
    ensures forall id | id in StaleIds(sorted, jobs, version) :: Names(sorted, id)
  {
    StaleIdsAre(sorted, jobs, version);
    if sorted != [] {
      var init := sorted[..|sorted| - 1];
      StaleIdsListed(refs, init, jobs, version);
      ListedMore(refs, sorted, StaleIds(init, jobs, version));
    }
  }

  lemma ListedMore(refs: seq<Ref>, sorted: seq<Ref>, before: seq<JobId>)
    requires sorted != [] && forall i, j | 0 <= i < j < |sorted| :: Precedes(refs, sorted[i], sorted[j])
    requires ListedByRank(refs, before) && forall id | id in before :: Names(sorted[..|sorted| - 1], id)
    ensures ListedByRank(refs, before + [sorted[|sorted| - 1].id])
  {
    var init, last := sorted[..|sorted| - 1], sorted[|sorted| - 1];
    forall i | 0 <= i < |before| ensures RankedBefore(refs, before[i], last.id) {
      assert before[i] in before && Names(init, before[i]);
      var k :| 0 <= k < |init| && init[k].id == before[i];
      assert Precedes(refs, sorted[k], sorted[|sorted| - 1]);
    }
  }

  /** Requeueing lists the outdated jobs by rank and resets exactly those. */
  lemma RequeueResets(b: Bundle, version: string)
    requires WellFormed(b)
    ensures var (c, r) := Requeue(b, version);
      && (r.Err? <==> forall i | 0 <= i < |version| :: IsSpace(version[i])) && (r.Err? ==> c == b)
      && (r.Ok? ==>
            && c.refs == b.refs && c.jobs.Keys == b.jobs.Keys
            && (forall id :: id in r.value <==> Outdated(b, id, version))
            && ListedByRank(b.refs, r.value)
            && forall id | id in b.jobs ::
                 if Outdated(b, id, version) then ResetTo(b.jobs[id], c.jobs[id]) else c.jobs[id] == b.jobs[id])
  {
    BlankIs(version);
    RequeueIs(b.jobs, Candidates(b, version));
    StaleOnly(b, version);
    SortedRefsKnown(b);
    SortsByRank(b.refs);
    StaleIdsListed(b.refs, SortedRefs(b), b.jobs, version);
    forall id ensures id in Candidates(b, version) <==> Outdated(b, id, version) {
      assert id in Candidates(b, version) <==> Names(b.refs, id) && id in b.jobs && Stale(b.jobs[id], version);
    }
  }

  // -- migration -----------------------------------------------------------------------------------

  /** A failure recorded by name before there was a status for unavailable content. */
  ghost predicate OldUnavailable(job: Job) {
    && (job.status == Retryable || job.status == Failed)
    && exists rest :: job.lastError == Some("ContentUnavailableError:" + rest)
  }

  /** An unavailable job whose record is not in the current form. */
  ghost predicate OldForm(job: Job) {
    && job.status == ContentUnavailable
    && (!job.current || job.artifacts.outputDirectory.Missing? || job.artifacts.metadataDirectory.Missing?)
  }

  ghost predicate Filled(a: Field, b: Field) { if a.Missing? then b == Null else b == a }

  ghost predicate MigratesTo(a: Job, b: Job, now: nat) {
    if !OldUnavailable(a) && a.status != ContentUnavailable then b == a
    else
      && b.status == ContentUnavailable && b.current && SameOrigin(a, b) && b.attempts == a.attempts
      && b.startedAt == a.startedAt && b.lastError == a.lastError
      && b.completedAt == (if OldUnavailable(a) then Some(now) else a.completedAt)
      && Filled(a.artifacts.outputDirectory, b.artifacts.outputDirectory)
      && Filled(a.artifacts.metadataDirectory, b.artifacts.metadataDirectory)
      && b.artifacts.serializer == a.artifacts.serializer && b.artifacts.characters == a.artifacts.characters
      && b.artifacts.articles == a.artifacts.articles && b.artifacts.markers == a.artifacts.markers
      && b.artifacts.rawHtmlSaved == a.artifacts.rawHtmlSaved
  }

  lemma LegacyIs(job: Job)
    ensures LegacyFailure(job) <==> OldUnavailable(job)
  {
    if LegacyFailure(job) {
      assert job.lastError.value == "ContentUnavailableError:" + job.lastError.value[|LegacyError|..];
    }
  }

  lemma MigratedIs(job: Job, now: nat)
    ensures MigratesTo(job, MigratedJob(job, now), now)
    ensures MigratedJob(job, now) != job <==> OldUnavailable(job) || OldForm(job)
  {
    LegacyIs(job);
  }

  ghost predicate Picks(refs: seq<Ref>, positions: seq<nat>, ids: seq<JobId>) {
    && |ids| == |positions|
    && (forall k | 0 <= k < |positions| :: positions[k] < |refs| && ids[k] == refs[positions[k]].id)
    && forall j, k | 0 <= j < k < |positions| :: positions[j] < positions[k]
  }

  ghost predicate IsMigrated(refs: seq<Ref>, jobs: map<JobId, Job>, i: nat)
    requires AllKnown(refs, jobs) && i < |refs|
  {
    OldUnavailable(jobs[refs[i].id])
  }

  ghost predicate IsNormalized(refs: seq<Ref>, jobs: map<JobId, Job>, i: nat)
    requires AllKnown(refs, jobs) && i < |refs|
  {
    OldUnavailable(jobs[refs[i].id]) || OldForm(jobs[refs[i].id])
  }

  lemma {:induction false} MigrateAllIs(jobs: map<JobId, Job>, refs: seq<Ref>, now: nat)
    returns (migrated: seq<nat>, normalized: seq<nat>)
    requires AllKnown(refs, jobs) && forall i, j | 0 <= i < j < |refs| :: refs[i].id != refs[j].id
    ensures var m := MigrateAll(jobs, refs, now);
      Picks(refs, migrated, m.migrated) && Picks(refs, normalized, m.normalized)
    ensures forall i | 0 <= i < |refs| :: i in migrated <==> IsMigrated(refs, jobs, i)
    ensures forall i | 0 <= i < |refs| :: i in normalized <==> IsNormalized(refs, jobs, i)
  {
    migrated, normalized := [], [];
    if refs != [] {
      var init, last := refs[..|refs| - 1], refs[|refs| - 1];
      assert refs == init + [last];
      migrated, normalized := MigrateAllIs(jobs, init, now);
      MigrateLast(jobs, init, last, now);
      PicksMore(init, migrated, MigrateAll(jobs, init, now).migrated, last);
      PicksMore(init, normalized, MigrateAll(jobs, init, now).normalized, last);
      forall i | 0 <= i < |init|
        ensures IsMigrated(refs, jobs, i) == IsMigrated(init, jobs, i)
        ensures IsNormalized(refs, jobs, i) == IsNormalized(init, jobs, i)
      {
        assert refs[i] == init[i];
      }
      if IsMigrated(refs, jobs, |init|) { migrated := migrated + [|init|]; }
      if IsNormalized(refs, jobs, |init|) { normalized := normalized + [|init|]; }
    }
  }

  lemma MigrateLast(jobs: map<JobId, Job>, init: seq<Ref>, last: Ref, now: nat)
    requires last.id in jobs && forall i | 0 <= i < |init| :: init[i].id != last.id
    ensures var m, n := MigrateAll(jobs, init, now), MigrateAll(jobs, init + [last], now);
      && n.migrated == m.migrated + (if OldUnavailable(jobs[last.id]) then [last.id] else [])
      && n.normalized == m.normalized
         + (if OldUnavailable(jobs[last.id]) || OldForm(jobs[last.id]) then [last.id] else [])
  {
    MigrateIs(jobs, init, now);
    assert !Names(init, last.id);
    assert (init + [last])[..|init|] == init;
    LegacyIs(jobs[last.id]);
    MigratedIs(jobs[last.id], now);
  }

  lemma PicksMore(refs: seq<Ref>, positions: seq<nat>, ids: seq<JobId>, last: Ref)
    requires Picks(refs, positions, ids)
    ensures Picks(refs + [last], positions, ids)
    ensures Picks(refs + [last], positions + [|refs|], ids + [last.id])
    ensures |refs| !in positions
  {
    forall k | 0 <= k < |positions| ensures (refs + [last])[positions[k]] == refs[positions[k]] {}
  }

  /** A migration reclassifies the old failures, brings unavailable jobs into the current form and lists both. */
  lemma MigrationWrites(b: Bundle, now: nat) returns (migrated: seq<nat>, normalized: seq<nat>)
    requires WellFormed(b)
    ensures var (c, m) := Migrate(b, now);
      && c.refs == b.refs && c.jobs.Keys == b.jobs.Keys
      && (forall id | id in b.jobs ::
            if exists i | 0 <= i < |b.refs| :: b.refs[i].id == id then MigratesTo(b.jobs[id], c.jobs[id], now)
            else c.jobs[id] == b.jobs[id])
      && Picks(b.refs, migrated, m.migrated) && Picks(b.refs, normalized, m.normalized)
    ensures forall i | 0 <= i < |b.refs| :: i in migrated <==> IsMigrated(b.refs, b.jobs, i)
    ensures forall i | 0 <= i < |b.refs| :: i in normalized <==> IsNormalized(b.refs, b.jobs, i)
  {
    migrated, normalized := MigrateAllIs(b.jobs, b.refs, now);
    MigrateIs(b.jobs, b.refs, now);
    forall id | id in b.jobs ensures MigratesTo(b.jobs[id], MigratedJob(b.jobs[id], now), now) {
      MigratedIs(b.jobs[id], now);
    }
  }

  // -- creation -------------------------------------------------------------------------------------

  function JobIdOf(item: Item): JobId { "LTV_" + item.source.externalId + "-" + item.source.variant }

  ghost predicate Named(items: seq<Item>, n: nat, id: JobId)
    requires n <= |items|
  {
    exists i | 0 <= i < n :: JobIdOf(items[i]) == id
  }

  /** What is looked at in an item, in order; the first that is at fault is reported. */
  ghost function Checks(jobs: map<JobId, Job>, items: seq<Item>, k: nat): seq<(bool, CreateError)>
    requires k < |items|
  {
    var item, source, id := items[k], items[k].source, JobIdOf(items[k]);
    [(source.externalId == "", MissingString("external_id")),
     (source.variant == "", MissingString("detail_variant")),
     (!IsJobId(id), UnsafeItem),
     (Named(items, k, id), DuplicateJob(id)),
     (item.rank < 1, MissingPositive("rank")),
     (item.pageIndex < 1, MissingPositive("page_index")),
     (id in jobs && jobs[id].source.url != source.url, IdentityConflict(id)),
     (source.kind == "", MissingString("source_kind")),
     (source.title == "", MissingString("title")),
     (source.url == "", MissingString("url"))]
  }

  ghost predicate Faultless(jobs: map<JobId, Job>, items: seq<Item>, k: nat)
    requires k < |items|
  {
    forall i | 0 <= i < 10 :: !Checks(jobs, items, k)[i].0
  }

  ghost predicate FirstFault(jobs: map<JobId, Job>, items: seq<Item>, k: nat, e: CreateError)
    requires k < |items|
  {
    exists i | 0 <= i < 10 ::
      Checks(jobs, items, k)[i] == (true, e) && forall j | 0 <= j < i :: !Checks(jobs, items, k)[j].0
  }

  /** A new record is pending; a stored one keeps its state under the item's source and position. */
  ghost predicate RecordOf(jobs: map<JobId, Job>, item: Item, job: Job) {
    && job.current && job.source == item.source && job.rank == item.rank && job.pageIndex == item.pageIndex
    && if JobIdOf(item) in jobs then
         var old' := jobs[JobIdOf(item)];
         && job.status == old'.status && job.attempts == old'.attempts && job.startedAt == old'.startedAt
         && job.completedAt == old'.completedAt && job.lastError == old'.lastError
         && Filled(old'.artifacts.outputDirectory, job.artifacts.outputDirectory)
         && Filled(old'.artifacts.metadataDirectory, job.artifacts.metadataDirectory)
         && job.artifacts.serializer == old'.artifacts.serializer
         && job.artifacts.characters == old'.artifacts.characters && job.artifacts.articles == old'.artifacts.articles
         && job.artifacts.markers == old'.artifacts.markers
         && job.artifacts.rawHtmlSaved == old'.artifacts.rawHtmlSaved
       else
         && job.status == Pending && job.attempts == 0 && job.startedAt.None? && job.completedAt.None?
         && job.lastError.None? && job.artifacts == Artifacts(Null, Null, None, None, None, None, None)
  }

  /** The records of the first `n` items are written and no others. */
  ghost predicate WrittenFor(jobs: map<JobId, Job>, items: seq<Item>, n: nat, after: map<JobId, Job>)
    requires n <= |items|
  {
    && (forall i | 0 <= i < n :: JobIdOf(items[i]) in after && RecordOf(jobs, items[i], after[JobIdOf(items[i])]))
    && forall id | !Named(items, n, id) :: (id in after <==> id in jobs) && (id in jobs ==> after[id] == jobs[id])
  }

  ghost predicate ReferencesOf(items: seq<Item>, refs: seq<Ref>) {
    && |refs| == |items|
    && forall i | 0 <= i < |items| ::
         refs[i].id == JobIdOf(items[i]) && refs[i].rank == items[i].rank && refs[i].pageIndex == items[i].pageIndex
  }

  lemma NamesAre(items: seq<Item>, k: nat, refs: seq<Ref>, id: JobId)
    requires k <= |items| && ReferencesOf(items[..k], refs)
    ensures Names(refs, id) <==> Named(items, k, id)
  {
    assert forall j | 0 <= j < k :: refs[j].id == JobIdOf(items[..k][j]) == JobIdOf(items[j]);
  }

  lemma ItemErrorIs(jobs: map<JobId, Job>, items: seq<Item>, k: nat, w: Writing)
    requires k < |items| && WrittenFor(jobs, items, k, w.jobs) && ReferencesOf(items[..k], w.refs)
    ensures var e := ItemError(w.jobs, w.refs, items[k]);
      if e.None? then Faultless(jobs, items, k) else FirstFault(jobs, items, k, e.value)
  {
    var id := JobIdOf(items[k]);
    SafeIdsAre(id);
    NamesAre(items, k, w.refs, id);
    var checks := Checks(jobs, items, k);
    ChainIs(checks, ItemError(w.jobs, w.refs, items[k]));
  }

  /** The first true entry of ten. */
  lemma ChainIs(checks: seq<(bool, CreateError)>, e: Option<CreateError>)
    requires |checks| == 10
    requires e == if checks[0].0 then Some(checks[0].1)
      else if checks[1].0 then Some(checks[1].1)
      else if checks[2].0 then Some(checks[2].1)
      else if checks[3].0 then Some(checks[3].1)
      else if checks[4].0 then Some(checks[4].1)
      else if checks[5].0 then Some(checks[5].1)
      else if checks[6].0 then Some(checks[6].1)
      else if checks[7].0 then Some(checks[7].1)
      else if checks[8].0 then Some(checks[8].1)
      else if checks[9].0 then Some(checks[9].1)
      else None
    ensures if e.None? then forall i | 0 <= i < 10 :: !checks[i].0
      else exists i | 0 <= i < 10 :: checks[i] == (true, e.value) && forall j | 0 <= j < i :: !checks[j].0
  {
    assert checks[0].0 || checks[1].0 || checks[2].0 || checks[3].0 || checks[4].0 || checks[5].0 || checks[6].0
      || checks[7].0 || checks[8].0 || checks[9].0 || e.None?;
  }

  /** The items before `k` have no fault and are written. */
  ghost predicate WroteTo(jobs: map<JobId, Job>, items: seq<Item>, k: nat, w: Writing) {
    && k <= |items| && (forall i | 0 <= i < k :: Faultless(jobs, items, i))
    && WrittenFor(jobs, items, k, w.jobs) && ReferencesOf(items[..k], w.refs)
  }

  lemma {:induction false} WriteAllIs(jobs: map<JobId, Job>, items: seq<Item>, n: nat) returns (k: nat)
    requires n <= |items|
    ensures WroteOrFailed(jobs, items, n, k, WriteAll(jobs, items[..n]))
  {
    k := 0;
    if n > 0 {
      k := WriteAllIs(jobs, items, n - 1);
      var w := WriteAll(jobs, items[..n - 1]);
      WriteAllStep(jobs, items, n);
      if w.error.None? {
        ItemErrorIs(jobs, items, k, w);
        if ItemError(w.jobs, w.refs, items[k]).None? {
          WriteOneIs(jobs, items, k, w);
          k := n;
        }
      }
    }
  }

  ghost predicate WroteOrFailed(jobs: map<JobId, Job>, items: seq<Item>, n: nat, k: nat, w: Writing) {
    && WroteTo(jobs, items, k, w) && n <= |items|
    && if w.error.None? then k == n else k < n && FirstFault(jobs, items, k, w.error.value)
  }

  lemma WriteAllStep(jobs: map<JobId, Job>, items: seq<Item>, n: nat)
    requires 0 < n <= |items|
    ensures WriteAll(jobs, items[..n]) == WriteOne(WriteAll(jobs, items[..n - 1]), items[n - 1])
  {
    assert items[..n][..n - 1] == items[..n - 1];
  }

  lemma WriteOneIs(jobs: map<JobId, Job>, items: seq<Item>, k: nat, w: Writing)
    requires WroteTo(jobs, items, k, w) && k < |items| && Faultless(jobs, items, k)
    requires w.error.None? && ItemError(w.jobs, w.refs, items[k]).None?
    ensures WriteOne(w, items[k]).error.None? && WroteTo(jobs, items, k + 1, WriteOne(w, items[k]))
  {
    var after := WriteOne(w, items[k]);
    assert items[..k + 1] == items[..k] + [items[k]];
    assert !Named(items, k, JobIdOf(items[k])) by { assert !Checks(jobs, items, k)[3].0; }
    WrittenOne(jobs, items, k, w.jobs, after.jobs);
  }

  lemma WrittenOne(jobs: map<JobId, Job>, items: seq<Item>, k: nat, before: map<JobId, Job>, after: map<JobId, Job>)
    requires k < |items| && WrittenFor(jobs, items, k, before) && !Named(items, k, JobIdOf(items[k]))
    requires after == before[JobIdOf(items[k]) := CreatedJob(before, items[k])]
    ensures WrittenFor(jobs, items, k + 1, after)
  {
    var id := JobIdOf(items[k]);
    assert RecordOf(jobs, items[k], after[id]);
    forall i | 0 <= i < k + 1
      ensures JobIdOf(items[i]) in after && RecordOf(jobs, items[i], after[JobIdOf(items[i])]) {
      if i < k { assert JobIdOf(items[i]) != id; }
    }
    forall x | !Named(items, k + 1, x) ensures !Named(items, k, x) && x != id { assert JobIdOf(items[k]) == id; }
  }

  /** A creation writes the items up to the first at fault, and the manifest when none is. */
  lemma CreationWrites(b: Bundle, items: seq<Item>) returns (k: nat)
    ensures var (c, e) := Create(b, items);
      && k <= |items| && (forall i | 0 <= i < k :: Faultless(b.jobs, items, i)) && WrittenFor(b.jobs, items, k, c.jobs)
      && (e.Some? ==> k < |items| && FirstFault(b.jobs, items, k, e.value) && c.refs == b.refs)
      && (e.None? ==> k == |items| && exists refs :: ReferencesOf(items, refs) && InRankOrder(refs, c.refs))
  {
    k := WriteAllIs(b.jobs, items, |items|);
    assert items[..|items|] == items;
    var w := WriteAll(b.jobs, items);
    SortsByRank(w.refs);
  }
}
