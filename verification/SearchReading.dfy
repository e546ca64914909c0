/** Which search pages are read, and what becomes of every result on them (luatvietnam_crawler/crawler.py). */
module SearchReading {
  import opened Prelude
  import opened SearchDiscovery

  // -- how many pages ------------------------------------------------------------------------

  /** Whole pages that hold the documents. */
  ghost predicate HoldsJust(pages: int, size: int, documents: int) {
    (pages - 1) * size < documents <= pages * size
  }

  ghost predicate IsLeast(n: int, bounds: set<int>) { n in bounds && forall b | b in bounds :: n <= b }

  /** The least of the pages there are, the pages allowed, and the pages that hold the documents allowed. */
  ghost predicate IsPlanned(first: Page, l: Limits, n: int) {
    var there := if first.meta.Some? then {first.meta.value.totalPages} else {};
    var allowed := if l.maxPages.Some? then {l.maxPages.value} else {};
    if first.meta.None? then n == if l.maxPages.Some? then l.maxPages.value else 1
    else if l.maxDocuments.None? then IsLeast(n, there + allowed)
    else exists held :: HoldsJust(held, first.meta.value.pageSize, l.maxDocuments.value)
                        && IsLeast(n, there + allowed + {held})
  }

  lemma CeilHoldsJust(size: int, documents: int)
    requires size >= 1
    ensures HoldsJust((documents + size - 1) / size, size, documents)
  {
    var n := (documents + size - 1) / size;
    assert n * size <= documents + size - 1 < n * size + size;
    assert (n - 1) * size == n * size - size;
  }

  lemma PlannedIs(first: Page, l: Limits)
    requires ValidMeta(first)
    ensures IsPlanned(first, l, Planned(first, l))
  {
    if first.meta.Some? && l.maxDocuments.Some? {
      CeilHoldsJust(first.meta.value.pageSize, l.maxDocuments.value);
    }
  }

  // -- which pages ---------------------------------------------------------------------------

  /** The page says that it is another one. */
  ghost predicate IsWrong(p: Page, index: nat) { p.meta.Some? && p.meta.value.currentPage != index }

  ghost predicate Enough(pages: nat -> Page, k: nat, l: Limits) {
    l.maxDocuments.Some? && |Unique(AllEntries(pages, k))| >= l.maxDocuments.value
  }

  ghost predicate AllIn(some: seq<Url>, all: seq<Url>) { forall i | 0 <= i < |some| :: some[i] in all }

  /** The page had a new result, and more documents are wanted. */
  ghost predicate GoesOn(pages: nat -> Page, k: nat, l: Limits)
    requires k > 0
  {
    !AllIn(pages(k).entries, AllEntries(pages, k - 1)) && !Enough(pages, k, l)
  }

  ghost predicate ReadsOnAt(pages: nat -> Page, j: nat, l: Limits)
    requires j > 0
  {
    !IsWrong(pages(j), j) && GoesOn(pages, j, l)
  }

  ghost predicate ReadOn(pages: nat -> Page, k: nat, l: Limits) { forall j | 0 < j <= k :: ReadsOnAt(pages, j, l) }

  lemma {:induction false} UniqueGrows(a: seq<Url>, b: seq<Url>)
    ensures |Unique(a)| <= |Unique(a + b)|
    ensures |Unique(a)| == |Unique(a + b)| <==> AllIn(b, a)
  {
    if b == [] {
      assert a + b == a;
    } else {
      var init, last := b[..|b| - 1], b[|b| - 1];
      UniqueGrows(a, init);
      assert a + b == a + init + [last] && b == init + [last];
      UniqueAppend(a + init, last);
      AllInMore(init, last, a);
    }
  }

  lemma AllInMore(init: seq<Url>, last: Url, all: seq<Url>)
    ensures AllIn(init + [last], all) <==> AllIn(init, all) && last in all
    ensures AllIn(init, all) && last in all + init ==> last in all
  {
    assert forall i | 0 <= i < |init| :: (init + [last])[i] == init[i];
    assert (init + [last])[|init|] == last;
  }

  /** What a page that is not wrong makes of a run that has read on so far. */
  lemma PageRead(pages: nat -> Page, k: nat, l: Limits)
    requires ValidLimits(l) && k > 0 && !VisitPages(pages, k - 1, l).over && !IsWrong(pages(k), k)
    ensures var s := VisitPages(pages, k, l); s.visited == k && s.error.None? && (s.over <==> !GoesOn(pages, k, l))
  {
    NoErrorWhileRunning(pages, k - 1, l);
    CollectedIsExact(pages, k - 1, l);
    CollectedIsExact(pages, k, l);
    NextPage(VisitPages(pages, k - 1, l), pages, k, l);
  }

  lemma NextPage(before: State, pages: nat -> Page, k: nat, l: Limits)
    requires ValidLimits(l) && k > 0 && !IsWrong(pages(k), k)
    requires before.visited == k - 1 && before.error.None? && !Full(before, l)
    requires FirstOf(Urls(before.found), AllEntries(pages, k - 1), l)
    requires FirstOf(Urls(VisitPage(before, pages(k), k, l).found), AllEntries(pages, k), l)
    ensures var s := VisitPage(before, pages(k), k, l);
            s.visited == k && s.error.None? && (s.over <==> !GoesOn(pages, k, l))
  {
    VisitsPage(before, pages(k), k, l);
    EndsPage(before, VisitPage(before, pages(k), k, l), pages, k, l);
  }

  lemma EndsPage(before: State, after: State, pages: nat -> Page, k: nat, l: Limits)
    requires ValidLimits(l) && k > 0 && !Full(before, l)
    requires FirstOf(Urls(before.found), AllEntries(pages, k - 1), l)
    requires FirstOf(Urls(after.found), AllEntries(pages, k), l)
    ensures (Full(after, l) || pages(k).entries == [] || |after.found| == |before.found|) <==> !GoesOn(pages, k, l)
  {
    FullIsEnough(before, pages, k - 1, l);
    FullIsEnough(after, pages, k, l);
    NewIsGrowth(pages, k);
  }

  lemma VisitsPage(s: State, p: Page, k: nat, l: Limits)
    requires !IsWrong(p, k)
    ensures var t := VisitPage(s, p, k, l);
      && t.visited == s.visited + 1 && t.error == s.error
      && (t.over <==> Full(t, l) || p.entries == [] || |t.found| == |s.found|)
  {
    AddEntriesKeeps(s, p.entries, k, l);
  }

  lemma NewIsGrowth(pages: nat -> Page, k: nat)
    requires k > 0
    ensures |Unique(AllEntries(pages, k - 1))| == |Unique(AllEntries(pages, k))|
            <==> AllIn(pages(k).entries, AllEntries(pages, k - 1))
    ensures pages(k).entries == [] ==> AllIn(pages(k).entries, AllEntries(pages, k - 1))
  {
    UniqueGrows(AllEntries(pages, k - 1), pages(k).entries);
  }

  lemma FullIsEnough(s: State, pages: nat -> Page, k: nat, l: Limits)
    requires ValidLimits(l) && FirstOf(Urls(s.found), AllEntries(pages, k), l)
    ensures Full(s, l) <==> Enough(pages, k, l)
    ensures !Full(s, l) ==> |s.found| == |Unique(AllEntries(pages, k))|
  {
    assert |Urls(s.found)| == |s.found|;
  }

  /** The run has read on to `n`, and at most that page has ended it. */
  ghost predicate RunsTo(s: State, pages: nat -> Page, n: nat, l: Limits) {
    if !s.over then s.visited == n && s.error.None? && ReadOn(pages, n, l)
    else
      && n > 0 && ReadOn(pages, n - 1, l)
      && if IsWrong(pages(n), n) then s.error == Some(WrongPage(n, pages(n).meta.value.currentPage))
         else s.visited == n && s.error.None? && !GoesOn(pages, n, l)
  }

  lemma {:induction false} PagesRead(pages: nat -> Page, k: nat, l: Limits) returns (n: nat)
    requires ValidLimits(l)
    ensures n <= k && RunsTo(VisitPages(pages, k, l), pages, n, l) && (!VisitPages(pages, k, l).over ==> n == k)
  {
    n := 0;
    if k > 0 {
      n := PagesRead(pages, k - 1, l);
      if !VisitPages(pages, k - 1, l).over {
        RunsOn(pages, k, l);
        n := k;
      }
    }
  }

  lemma RunsOn(pages: nat -> Page, k: nat, l: Limits)
    requires ValidLimits(l) && k > 0 && !VisitPages(pages, k - 1, l).over
    requires RunsTo(VisitPages(pages, k - 1, l), pages, k - 1, l)
    ensures RunsTo(VisitPages(pages, k, l), pages, k, l)
  {
    if !IsWrong(pages(k), k) {
      PageRead(pages, k, l);
      assert GoesOn(pages, k, l) ==> ReadsOnAt(pages, k, l);
    }
  }

  // -- every result ------------------------------------------------------------------------------

  function OnPage(entries: seq<Url>, page: nat): seq<(Url, nat)> {
    seq(|entries|, i requires 0 <= i < |entries| => (entries[i], page))
  }

  /** The results of the first `k` pages with their pages, in reading order. */
  function Results(pages: nat -> Page, k: nat): seq<(Url, nat)> {
    if k == 0 then [] else Results(pages, k - 1) + OnPage(pages(k).entries, k)
  }

  ghost predicate IsFirst(r: seq<(Url, nat)>, i: nat)
    requires i < |r|
  {
    forall j | 0 <= j < i :: r[j].0 != r[i].0
  }

  /** The duplicate names the page of the first result with its URL. */
  ghost predicate Repeats(r: seq<(Url, nat)>, i: nat, d: Duplicate)
    requires i < |r|
  {
    && d.url == r[i].0 && d.page == r[i].1
    && exists j | 0 <= j < i :: IsFirst(r, j) && r[j] == (d.url, d.firstPage)
  }

  ghost predicate FoundAt(r: seq<(Url, nat)>, firsts: seq<nat>, found: seq<(Url, nat)>) {
    Selects(r, firsts, found) && forall i | 0 <= i < |r| :: i in firsts <==> IsFirst(r, i)
  }

  ghost predicate RepeatedAt(r: seq<(Url, nat)>, repeats: seq<nat>, duplicates: seq<Duplicate>) {
    && Climbs(repeats, |r|) && (forall i | 0 <= i < |r| :: i in repeats <==> !IsFirst(r, i))
    && |duplicates| == |repeats| && forall k | 0 <= k < |repeats| :: Repeats(r, repeats[k], duplicates[k])
  }

  /** First results are found, later ones with the same URL are duplicates. */
  ghost predicate Sorts(r: seq<(Url, nat)>, s: State) {
    (exists firsts :: FoundAt(r, firsts, s.found)) && exists repeats :: RepeatedAt(r, repeats, s.duplicates)
  }

  lemma FoundMore(r: seq<(Url, nat)>, firsts: seq<nat>, found: seq<(Url, nat)>, last: (Url, nat))
    requires FoundAt(r, firsts, found)
    ensures if forall j | 0 <= j < |r| :: r[j].0 != last.0 then FoundAt(r + [last], firsts + [|r|], found + [last])
            else FoundAt(r + [last], firsts, found)
  {
    SelectsMore(r, firsts, found, last);
    var more := r + [last];
    assert forall i | 0 <= i < |r| :: more[i] == r[i];
    assert forall i | 0 <= i < |r| :: IsFirst(more, i) <==> IsFirst(r, i);
    assert |r| !in firsts;
  }

  lemma RepeatedMore(r: seq<(Url, nat)>, repeats: seq<nat>, duplicates: seq<Duplicate>, last: (Url, nat), d: Duplicate)
    requires RepeatedAt(r, repeats, duplicates)
    ensures (forall j | 0 <= j < |r| :: r[j].0 != last.0) ==> RepeatedAt(r + [last], repeats, duplicates)
    ensures Repeats(r + [last], |r|, d) ==> RepeatedAt(r + [last], repeats + [|r|], duplicates + [d])
  {
    var more := r + [last];
    assert forall i | 0 <= i < |r| :: more[i] == r[i];
    forall i | 0 <= i < |r| ensures IsFirst(more, i) <==> IsFirst(r, i) {}
    assert |r| !in repeats;
    forall k | 0 <= k < |repeats| ensures Repeats(more, repeats[k], duplicates[k]) {
      assert Repeats(r, repeats[k], duplicates[k]);
      var j :| 0 <= j < repeats[k] && IsFirst(r, j) && r[j] == (duplicates[k].url, duplicates[k].firstPage);
      assert IsFirst(more, j);
    }
    if Repeats(more, |r|, d) {
      assert !IsFirst(more, |r|);
    }
  }

  lemma FirstPageFound(r: seq<(Url, nat)>, firsts: seq<nat>, found: seq<(Url, nat)>, url: Url)
    requires FoundAt(r, firsts, found)
    ensures match FirstPage(found, url)
            case None => forall j | 0 <= j < |r| :: r[j].0 != url
            case Some(p) => exists j | 0 <= j < |r| :: IsFirst(r, j) && r[j] == (url, p)
  {
    FirstPageIs(found, url);
    if FirstPage(found, url).None? {
      forall j | 0 <= j < |r| ensures r[j].0 != url {
        var i := FirstWith(r, j);
        var k :| 0 <= k < |firsts| && firsts[k] == i;
        assert Urls(found)[k] == r[i].0;
      }
    } else {
      var k :| 0 <= k < |found| && found[k] == (url, FirstPage(found, url).value);
      assert firsts[k] in firsts;
    }
  }

  lemma {:induction false} FirstWith(r: seq<(Url, nat)>, j: nat) returns (i: nat)
    requires j < |r|
    ensures i <= j && r[i].0 == r[j].0 && IsFirst(r, i)
  {
    i := j;
    if k :| 0 <= k < j && r[k].0 == r[j].0 { i := FirstWith(r, k); }
  }

  lemma EntrySorted(r: seq<(Url, nat)>, s: State, url: Url, page: nat)
    requires Sorts(r, s)
    ensures Sorts(r + [(url, page)], AddEntry(s, url, page))
  {
    var firsts :| FoundAt(r, firsts, s.found);
    var repeats :| RepeatedAt(r, repeats, s.duplicates);
    FirstPageFound(r, firsts, s.found, url);
    FoundMore(r, firsts, s.found, (url, page));
    match FirstPage(s.found, url) {
      case None => RepeatedMore(r, repeats, s.duplicates, (url, page), Duplicate(url, 0, page));
      case Some(first) =>
        RepeatsLast(r, url, first, page);
        RepeatedMore(r, repeats, s.duplicates, (url, page), Duplicate(url, first, page));
    }
  }

  lemma RepeatsLast(r: seq<(Url, nat)>, url: Url, first: nat, page: nat)
    requires exists j | 0 <= j < |r| :: IsFirst(r, j) && r[j] == (url, first)
    ensures Repeats(r + [(url, page)], |r|, Duplicate(url, first, page))
  {
    var j :| 0 <= j < |r| && IsFirst(r, j) && r[j] == (url, first);
    var more := r + [(url, page)];
    assert more[j] == r[j] && IsFirst(more, j);
  }

  /** The state reflects all results, or just enough to reach the limit. */
  ghost predicate Covers(s: State, results: seq<(Url, nat)>, l: Limits) {
    exists r :: Sorts(r, s) && CoversWith(s, results, l, r)
  }

  ghost predicate CoversWith(s: State, results: seq<(Url, nat)>, l: Limits, r: seq<(Url, nat)>) {
    r <= results && if Full(s, l) then r != [] && IsFirst(r, |r| - 1) else r == results
  }

  lemma EntryCovered(s: State, results: seq<(Url, nat)>, url: Url, page: nat, l: Limits)
    requires Covers(s, results, l) && ValidLimits(l)
    ensures Covers(if Full(s, l) then s else AddEntry(s, url, page), results + [(url, page)], l)
  {
    var r :| Sorts(r, s) && CoversWith(s, results, l, r);
    var more := results + [(url, page)];
    if Full(s, l) {
      assert CoversWith(s, more, l, r);
    } else {
      EntrySorted(r, s, url, page);
      var firsts :| FoundAt(r, firsts, s.found);
      FirstPageFound(r, firsts, s.found, url);
      assert CoversWith(AddEntry(s, url, page), more, l, more);
    }
  }

  lemma {:induction false} EntriesCovered(s: State, results: seq<(Url, nat)>, entries: seq<Url>, page: nat, l: Limits)
    requires Covers(s, results, l) && ValidLimits(l)
    ensures Covers(AddEntries(s, entries, page, l), results + OnPage(entries, page), l)
  {
    if entries == [] {
      assert results + OnPage(entries, page) == results;
    } else {
      var init, last := entries[..|entries| - 1], entries[|entries| - 1];
      EntriesCovered(s, results, init, page, l);
      EntryCovered(AddEntries(s, init, page, l), results + OnPage(init, page), last, page, l);
      OnPageMore(results, init, last, page);
      assert entries == init + [last];
    }
  }

  lemma OnPageMore(results: seq<(Url, nat)>, init: seq<Url>, last: Url, page: nat)
    ensures results + OnPage(init + [last], page) == results + OnPage(init, page) + [(last, page)]
  {}

  lemma SameCovers(s: State, t: State, results: seq<(Url, nat)>, l: Limits)
    requires Covers(s, results, l) && t.found == s.found && t.duplicates == s.duplicates
    ensures Covers(t, results, l)
  {
    var r :| Sorts(r, s) && CoversWith(s, results, l, r);
    assert Sorts(r, t) && CoversWith(t, results, l, r);
  }

  lemma {:induction false} PagesCovered(pages: nat -> Page, k: nat, l: Limits)
    requires ValidLimits(l)
    ensures var s := VisitPages(pages, k, l); Covers(s, Results(pages, s.visited), l)
  {
    if k == 0 {
      assert FoundAt([], [], []) && RepeatedAt([], [], []);
      assert Sorts([], START) && CoversWith(START, [], l, []);
    } else {
      PagesCovered(pages, k - 1, l);
      var s := VisitPages(pages, k - 1, l);
      if !s.over {
        NoErrorWhileRunning(pages, k - 1, l);
        var t := VisitPages(pages, k, l);
        if IsWrong(pages(k), k) {
          SameCovers(s, t, Results(pages, k - 1), l);
        } else {
          var added := AddEntries(s, pages(k).entries, k, l);
          EntriesCovered(s, Results(pages, k - 1), pages(k).entries, k, l);
          SameCovers(added, t, Results(pages, k), l);
        }
      }
    }
  }

  // -- the collection --------------------------------------------------------------------------------

  /**
    Collecting fails on a limit below one or on the first wrong page; otherwise it has read the planned pages, or those
    up to the first that brought nothing new or enough, and sorted their results.
   */
  lemma CollectionIs(pages: nat -> Page, l: Limits) returns (planned: int, n: nat)
    requires ValidMeta(pages(1))
    ensures var r := Collected(pages, l);
      && (r == Err(InvalidLimit) <==>
            (l.maxPages.Some? && l.maxPages.value < 1) || (l.maxDocuments.Some? && l.maxDocuments.value < 1))
      && (r != Err(InvalidLimit) ==>
            && IsPlanned(pages(1), l, planned) && ReadOn(pages, if n == 0 then 0 else n - 1, l)
            && (n > 0 ==> n <= planned)
            && (r.Err? ==> n > 0 && IsWrong(pages(n), n)
                           && r.error == WrongPage(n, pages(n).meta.value.currentPage))
            && (r.Ok? ==>
                  && r.value.visited == n && Covers(r.value, Results(pages, n), l)
                  && (n > 0 ==> !IsWrong(pages(n), n))
                  && (n == planned || (n == 0 && planned < 0) || (n > 0 && !GoesOn(pages, n, l)))))
  {
    planned, n := Planned(pages(1), l), 0;
    if ValidLimits(l) {
      var k: nat := if planned >= 0 then planned else 0;
      PlannedIs(pages(1), l);
      n := PagesRead(pages, k, l);
      PagesCovered(pages, k, l);
    }
  }
}
