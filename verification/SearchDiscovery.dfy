/** Collecting search results page by page (luatvietnam_crawler/crawler.py). */
module SearchDiscovery {
  import opened Prelude

  type Url = string

  datatype Meta = Meta(currentPage: int, totalPages: int, pageSize: int)

  /** What parsing one search page yields. */
  datatype Page = Page(entries: seq<Url>, meta: Option<Meta>)

  datatype Duplicate = Duplicate(url: Url, firstPage: nat, page: nat)

  datatype Limits = Limits(maxPages: Option<int>, maxDocuments: Option<int>)

  datatype Error = InvalidLimit | WrongPage(expected: nat, got: int)

  /** `found` holds each new URL with the page it was first seen on. */
  datatype State = State(found: seq<(Url, nat)>, duplicates: seq<Duplicate>, visited: nat, over: bool,
    error: Option<Error>)

  const START := State([], [], 0, false, None)

  predicate ValidLimits(l: Limits) {
    && (l.maxPages.Some? ==> l.maxPages.value >= 1)
    && (l.maxDocuments.Some? ==> l.maxDocuments.value >= 1)
  }

  predicate ValidMeta(p: Page) { p.meta.Some? ==> p.meta.value.pageSize >= 1 && p.meta.value.totalPages >= 0 }

  function Min(a: int, b: int): int { if a <= b then a else b }

  /** How many pages to visit, from the first page's own count and the two limits. */
  function Planned(first: Page, l: Limits): int
    requires ValidMeta(first)
  {
    var all := if first.meta.Some? then first.meta.value.totalPages
               else if l.maxPages.Some? then l.maxPages.value else 1;
    var paged := if l.maxPages.Some? then Min(all, l.maxPages.value) else all;
    if l.maxDocuments.Some? && first.meta.Some?
    then Min(paged, (l.maxDocuments.value + first.meta.value.pageSize - 1) / first.meta.value.pageSize)
    else paged
  }

  function Urls(found: seq<(Url, nat)>): seq<Url> { seq(|found|, i requires 0 <= i < |found| => found[i].0) }

  /** The page a URL was first seen on. */
  function FirstPage(found: seq<(Url, nat)>, url: Url): (r: Option<nat>)
    ensures r.None? <==> url !in Urls(found)
  {
    if found == [] then None
    else
      assert Urls(found) == Urls(found[..|found| - 1]) + [found[|found| - 1].0];
      var before := FirstPage(found[..|found| - 1], url);
      if before.Some? then before
      else if found[|found| - 1].0 == url then Some(found[|found| - 1].1)
      else None
  }

  predicate Full(s: State, l: Limits) { l.maxDocuments.Some? && |s.found| >= l.maxDocuments.value }

  function AddEntry(s: State, url: Url, page: nat): State {
    match FirstPage(s.found, url)
    case None => s.(found := s.found + [(url, page)])
    case Some(first) => s.(duplicates := s.duplicates + [Duplicate(url, first, page)])
  }

  /** Entries in order until the document limit is reached. */
  function AddEntries(s: State, entries: seq<Url>, page: nat, l: Limits): State {
    if entries == [] then s
    else
      var before := AddEntries(s, entries[..|entries| - 1], page, l);
      if Full(before, l) then before else AddEntry(before, entries[|entries| - 1], page)
  }

  /** One page: a wrong page number is an error; nothing new, no entries or a reached limit end the collection. */
  function VisitPage(s: State, p: Page, index: nat, l: Limits): State {
    if p.meta.Some? && p.meta.value.currentPage != index then
      s.(over := true, error := Some(WrongPage(index, p.meta.value.currentPage)))
    else
      var after := AddEntries(s, p.entries, index, l);
      after.(visited := s.visited + 1, over := Full(after, l) || p.entries == [] || |after.found| == |s.found|)
  }

  function VisitPages(pages: nat -> Page, k: nat, l: Limits): State {
    if k == 0 then START
    else
      var before := VisitPages(pages, k - 1, l);
      if before.over then before else VisitPage(before, pages(k), k, l)
  }

  function Collected(pages: nat -> Page, l: Limits): Result<State, Error>
    requires ValidMeta(pages(1))
  {
    if !ValidLimits(l) then Err(InvalidLimit)
    else
      var planned := Planned(pages(1), l);
      var s := VisitPages(pages, if planned >= 0 then planned else 0, l);
      if s.error.Some? then Err(s.error.value) else Ok(s)
  }

  method CollectSearchResults(pages: nat -> Page, l: Limits) returns (r: Result<State, Error>)
    requires ValidMeta(pages(1))
    ensures r == Collected(pages, l)
  {
    if !ValidLimits(l) {
      return Err(InvalidLimit);
    }
    var planned := Planned(pages(1), l);
    var s := START;
    var index: nat := 0;
    while index < planned
      invariant s == VisitPages(pages, index, l) && !s.over && s.error.None?
      invariant index <= planned || index == 0
    {
      index := index + 1;
      s := ReadPage(s, pages(index), index, l);
      if s.over {
        OverStays(pages, index, planned, l);
        break;
      }
      NoErrorWhileRunning(pages, index, l);
    }
    r := if s.error.Some? then Err(s.error.value) else Ok(s);
  }

  method ReadPage(s: State, p: Page, index: nat, l: Limits) returns (after: State)
    requires !Full(s, l)
    ensures after == VisitPage(s, p, index, l)
  {
    if p.meta.Some? && p.meta.value.currentPage != index {
      return s.(over := true, error := Some(WrongPage(index, p.meta.value.currentPage)));
    }
    after := s;
    for i := 0 to |p.entries|
      invariant after == AddEntries(s, p.entries[..i], index, l) && !Full(after, l)
    {
      assert p.entries[..i + 1][..i] == p.entries[..i];
      after := AddEntry(after, p.entries[i], index);
      if Full(after, l) {
        FullStays(s, p.entries, i + 1, index, l);
        break;
      }
    }
    assert p.entries[..|p.entries|] == p.entries;
    after := after.(visited := s.visited + 1, over := Full(after, l) || p.entries == [] || |after.found| == |s.found|);
  }

  lemma {:induction false} FullStays(s: State, entries: seq<Url>, i: nat, page: nat, l: Limits)
    requires i <= |entries| && Full(AddEntries(s, entries[..i], page, l), l)
    ensures AddEntries(s, entries, page, l) == AddEntries(s, entries[..i], page, l)
  {
    if i == |entries| {
      assert entries[..i] == entries;
    } else {
      assert entries[..|entries| - 1][..i] == entries[..i];
      FullStays(s, entries[..|entries| - 1], i, page, l);
    }
  }

  lemma {:induction false} OverStays(pages: nat -> Page, i: nat, k: nat, l: Limits)
    requires i <= k && VisitPages(pages, i, l).over
    ensures VisitPages(pages, k, l) == VisitPages(pages, i, l)
  {
    if i < k { OverStays(pages, i, k - 1, l); }
  }

  lemma {:induction false} NoErrorWhileRunning(pages: nat -> Page, k: nat, l: Limits)
    requires !VisitPages(pages, k, l).over
    ensures VisitPages(pages, k, l).error.None? && VisitPages(pages, k, l).visited == k
    ensures ValidLimits(l) ==> !Full(VisitPages(pages, k, l), l)
  {
    if k > 0 {
      NoErrorWhileRunning(pages, k - 1, l);
      AddEntriesKeeps(VisitPages(pages, k - 1, l), pages(k).entries, k, l);
    }
  }

  lemma {:induction false} AddEntriesKeeps(s: State, entries: seq<Url>, page: nat, l: Limits)
    ensures var r := AddEntries(s, entries, page, l); r.error == s.error && r.visited == s.visited && r.over == s.over
  {
    if entries != [] { AddEntriesKeeps(s, entries[..|entries| - 1], page, l); }
  }

  // -- what is collected ---------------------------------------------------------------------

  /** All entries of the first `k` pages, in reading order. */
  function AllEntries(pages: nat -> Page, k: nat): seq<Url> {
    if k == 0 then [] else AllEntries(pages, k - 1) + pages(k).entries
  }

  /** `found` is the distinct URLs of `urls` in order of first occurrence, cut off at the document limit. */
  ghost predicate FirstOf(found: seq<Url>, urls: seq<Url>, l: Limits) {
    && found <= Unique(urls)
    && (found != Unique(urls) ==> l.maxDocuments.Some? && |found| == l.maxDocuments.value)
    && (l.maxDocuments.Some? ==> |found| <= l.maxDocuments.value)
  }

  lemma UniqueAppend(urls: seq<Url>, url: Url)
    ensures Unique(urls + [url]) == if url in urls then Unique(urls) else Unique(urls) + [url]
  {
    assert (urls + [url])[..|urls + [url]| - 1] == urls;
  }

  lemma AddEntryIsFirst(s: State, urls: seq<Url>, url: Url, page: nat, l: Limits)
    requires ValidLimits(l) && FirstOf(Urls(s.found), urls, l)
    ensures FirstOf(Urls((if Full(s, l) then s else AddEntry(s, url, page)).found), urls + [url], l)
  {
    UniqueAppend(urls, url);
    var after := AddEntry(s, url, page);
    if !Full(s, l) {
      assert Urls(s.found) == Unique(urls);
      assert url in urls <==> url in Unique(urls);
      if FirstPage(s.found, url).None? { assert Urls(after.found) == Urls(s.found) + [url]; }
    }
  }

  lemma {:induction false} AddEntriesAreFirst(s: State, urls: seq<Url>, entries: seq<Url>, page: nat, l: Limits)
    requires ValidLimits(l) && FirstOf(Urls(s.found), urls, l)
    ensures FirstOf(Urls(AddEntries(s, entries, page, l).found), urls + entries, l)
  {
    if entries == [] {
      assert urls + entries == urls;
    } else {
      var init, last := entries[..|entries| - 1], entries[|entries| - 1];
      AddEntriesAreFirst(s, urls, init, page, l);
      AddEntryIsFirst(AddEntries(s, init, page, l), urls + init, last, page, l);
      assert urls + entries == urls + init + [last];
    }
  }

  /**
    The collection is exactly the distinct URLs of the visited pages in order of first occurrence, cut off at the
    document limit, and never visits more pages than planned.
   */
  lemma {:induction false} CollectedIsExact(pages: nat -> Page, k: nat, l: Limits)
    requires ValidLimits(l)
    ensures var s := VisitPages(pages, k, l);
      s.visited <= k && FirstOf(Urls(s.found), AllEntries(pages, s.visited), l)
  {
    if k > 0 {
      CollectedIsExact(pages, k - 1, l);
      var before := VisitPages(pages, k - 1, l);
      if !before.over {
        NoErrorWhileRunning(pages, k - 1, l);
        VisitIsExact(before, pages, k, l);
      }
    }
  }

  lemma VisitIsExact(s: State, pages: nat -> Page, k: nat, l: Limits)
    requires ValidLimits(l) && k > 0 && s.visited == k - 1 && FirstOf(Urls(s.found), AllEntries(pages, k - 1), l)
    ensures var t := VisitPage(s, pages(k), k, l);
            t.visited <= k && FirstOf(Urls(t.found), AllEntries(pages, t.visited), l)
  {
    var all := AllEntries(pages, k - 1);
    AddEntriesAreFirst(s, all, pages(k).entries, k, l);
    VisitFields(s, pages(k), k, l);
  }

  lemma VisitFields(s: State, p: Page, k: nat, l: Limits)
    ensures var t := VisitPage(s, p, k, l);
      || (t.found == s.found && t.duplicates == s.duplicates && t.visited == s.visited)
      || (t.found == AddEntries(s, p.entries, k, l).found && t.duplicates == AddEntries(s, p.entries, k, l).duplicates
          && t.visited == s.visited + 1)
  {}

  /**
    Every found URL is on the page it is recorded with, and every duplicate was found on a page no later than its own.
   */
  ghost predicate Traced(s: State, pages: nat -> Page, upTo: nat) {
    && (forall i | 0 <= i < |s.found| :: 1 <= s.found[i].1 <= upTo && s.found[i].0 in pages(s.found[i].1).entries)
    && (forall d | d in s.duplicates ::
          (d.url, d.firstPage) in s.found && d.firstPage <= d.page <= upTo && d.url in pages(d.page).entries)
  }

  lemma {:induction false} FirstPageIs(found: seq<(Url, nat)>, url: Url)
    ensures FirstPage(found, url).Some? ==> (url, FirstPage(found, url).value) in found
  {
    if found != [] {
      FirstPageIs(found[..|found| - 1], url);
      assert found == found[..|found| - 1] + [found[|found| - 1]];
    }
  }

  lemma {:induction false} AddEntriesTraced(s: State, pages: nat -> Page, entries: seq<Url>, page: nat, l: Limits)
    requires page >= 1 && Traced(s, pages, page) && forall e | e in entries :: e in pages(page).entries
    ensures Traced(AddEntries(s, entries, page, l), pages, page)
  {
    if entries != [] {
      var init, last := entries[..|entries| - 1], entries[|entries| - 1];
      assert entries == init + [last];
      AddEntriesTraced(s, pages, init, page, l);
      var before := AddEntries(s, init, page, l);
      FirstPageIs(before.found, last);
      if !Full(before, l) { AddEntryTraced(before, pages, last, page); }
    }
  }

  lemma AddEntryTraced(s: State, pages: nat -> Page, url: Url, page: nat)
    requires page >= 1 && Traced(s, pages, page) && url in pages(page).entries
    ensures Traced(AddEntry(s, url, page), pages, page)
  {
    FirstPageIs(s.found, url);
  }

  /** What the manifest counts as result occurrences. */
  function Occurrences(s: State): nat { |s.found| + |s.duplicates| }

  lemma {:induction false} EverythingTraced(pages: nat -> Page, k: nat, l: Limits)
    ensures Traced(VisitPages(pages, k, l), pages, k)
  {
    if k > 0 {
      var s := VisitPages(pages, k - 1, l);
      EverythingTraced(pages, k - 1, l);
      TracedFurther(s, pages, k - 1, k);
      if !s.over {
        var after := AddEntries(s, pages(k).entries, k, l);
        AddEntriesTraced(s, pages, pages(k).entries, k, l);
        VisitFields(s, pages(k), k, l);
        SameTrace(after, VisitPage(s, pages(k), k, l), pages, k);
        SameTrace(s, VisitPage(s, pages(k), k, l), pages, k);
      }
    }
  }

  lemma TracedFurther(s: State, pages: nat -> Page, j: nat, k: nat)
    requires Traced(s, pages, j) && j <= k
    ensures Traced(s, pages, k)
  {}

  lemma SameTrace(s: State, t: State, pages: nat -> Page, k: nat)
    ensures Traced(s, pages, k) && t.found == s.found && t.duplicates == s.duplicates ==> Traced(t, pages, k)
  {}

  /** As long as the document limit is not reached, every occurrence on the visited pages is counted. */
  predicate AllCounted(s: State, pages: nat -> Page, l: Limits) {
    !Full(s, l) ==> Occurrences(s) == |AllEntries(pages, s.visited)|
  }

  lemma {:induction false} AddEntriesCount(s: State, entries: seq<Url>, page: nat, l: Limits)
    ensures var r := AddEntries(s, entries, page, l);
      |r.found| >= |s.found| && (!Full(r, l) ==> Occurrences(r) == Occurrences(s) + |entries|)
  {
    if entries != [] { AddEntriesCount(s, entries[..|entries| - 1], page, l); }
  }

  lemma VisitCounts(s: State, pages: nat -> Page, k: nat, l: Limits)
    requires k > 0 && s.visited == k - 1 && !Full(s, l) && AllCounted(s, pages, l)
    ensures AllCounted(VisitPage(s, pages(k), k, l), pages, l) && VisitPage(s, pages(k), k, l).visited <= k
  {
    AddEntriesCount(s, pages(k).entries, k, l);
    VisitFields(s, pages(k), k, l);
  }

  lemma {:induction false} AlwaysCounted(pages: nat -> Page, k: nat, l: Limits)
    requires ValidLimits(l)
    ensures VisitPages(pages, k, l).visited <= k && AllCounted(VisitPages(pages, k, l), pages, l)
  {
    if k > 0 {
      AlwaysCounted(pages, k - 1, l);
      var before := VisitPages(pages, k - 1, l);
      if !before.over {
        NoErrorWhileRunning(pages, k - 1, l);
        VisitCounts(before, pages, k, l);
      }
    }
  }

  /**
    Sources are right, and unless the document limit cut the last page short every occurrence on the pages is counted.
   */
  lemma OccurrencesCounted(pages: nat -> Page, k: nat, l: Limits)
    requires ValidLimits(l)
    ensures var s := VisitPages(pages, k, l); s.visited <= k && Traced(s, pages, k) && AllCounted(s, pages, l)
  {
    EverythingTraced(pages, k, l);
    AlwaysCounted(pages, k, l);
  }
}
