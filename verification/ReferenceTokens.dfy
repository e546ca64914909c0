/** Reference tokens in the content serializer (luatvietnam_crawler/parser.py): rendering, cleaning and substitution. */
module ReferenceTokens {
  import opened Prelude
  import opened Text

  // -- tokens ---------------------------------------------------------------------

  const TokenPrefix := "LTVREFTOKEN"

  function PadLeft(s: string, width: nat): string
    decreases width - |s|
  {
    if |s| >= width then s else PadLeft("0" + s, width)
  }

  predicate IsHex(c: char) { IsDigit(c) || 'a' <= c <= 'f' }

  predicate AllHex(s: string) { forall i | 0 <= i < |s| :: IsHex(s[i]) }

  /** `f"LTVREFTOKEN{index:08d}{uuid.uuid4().hex}"`. */
  function TokenOf(index: nat, hex: string): string {
    TokenPrefix + PadLeft(Numeral(index), 8) + hex
  }

  /** Starts with an `L`, has no other, and contains no white space. */
  predicate IsToken(t: string) {
    && t != "" && t[0] == 'L'
    && (forall i | 0 < i < |t| :: t[i] != 'L')
    && (forall i | 0 <= i < |t| :: !IsSpace(t[i]))
  }

  ghost predicate AllTokens(ts: seq<string>) { forall i | 0 <= i < |ts| :: IsToken(ts[i]) }

  lemma {:induction false} PadDigits(s: string, width: nat)
    requires AllDigits(s)
    ensures AllDigits(PadLeft(s, width))
    decreases width - |s|
  {
    if |s| < width { PadDigits("0" + s, width); }
  }

  lemma TokenIsToken(index: nat, hex: string)
    requires AllHex(hex)
    ensures IsToken(TokenOf(index, hex))
  {
    PadDigits(Numeral(index), 8);
  }

  // -- searching and substituting ------------------------------------------------------

  /** `str.find`. */
  function Find(s: string, t: string, from: nat := 0): (r: Option<nat>)
    requires from <= |s|
    ensures r.Some? ==>
            from <= r.value && OccursAt(s, t, r.value) && forall i | from <= i < r.value :: !OccursAt(s, t, i)
    ensures r.None? ==> forall i | from <= i <= |s| :: !OccursAt(s, t, i)
    decreases |s| - from
  {
    if OccursAt(s, t, from) then Some(from)
    else if from == |s| then None
    else Find(s, t, from + 1)
  }

  datatype Span = Span(start: nat, end: nat)

  datatype Resolved = Lost(token: string) | Resolved(text: string, spans: seq<Span>)

  function ReplaceAt(s: string, start: nat, t: string, m: string): string
    requires OccursAt(s, t, start)
  {
    s[..start] + m + s[start + |t|..]
  }

  function ReplaceFirst(s: string, spans: seq<Span>, t: string, m: string): Resolved {
    match Find(s, t)
    case None => Lost(t)
    case Some(start) => Resolved(ReplaceAt(s, start, t, m), spans + [Span(start, start + |m|)])
  }

  /** The first `k` tokens replaced in turn. */
  function Substituted(text: string, ts: seq<string>, ms: seq<string>, k: nat): Resolved
    requires k <= |ts| == |ms|
  {
    if k == 0 then Resolved(text, [])
    else
      match Substituted(text, ts, ms, k - 1)
      case Lost(t) => Lost(t)
      case Resolved(s, spans) => ReplaceFirst(s, spans, ts[k - 1], ms[k - 1])
  }

  method Substitute(text: string, ts: seq<string>, ms: seq<string>) returns (r: Resolved)
    requires |ts| == |ms|
    ensures r == Substituted(text, ts, ms, |ts|)
  {
    r := Resolved(text, []);
    for i := 0 to |ts|
      invariant r.Resolved? && r == Substituted(text, ts, ms, i)
    {
      r := ReplaceOne(r.text, r.spans, ts[i], ms[i]);
      if r.Lost? {
        LostStays(text, ts, ms, i + 1, |ts|);
        return;
      }
    }
  }

  method ReplaceOne(s: string, spans: seq<Span>, t: string, m: string) returns (r: Resolved)
    ensures r == ReplaceFirst(s, spans, t, m)
  {
    var found := Find(s, t);
    if found.None? {
      return Lost(t);
    }
    var start := found.value;
    r := Resolved(s[..start] + m + s[start + |t|..], spans + [Span(start, start + |m|)]);
  }

  lemma {:induction false} LostStays(text: string, ts: seq<string>, ms: seq<string>, i: nat, k: nat)
    requires i <= k <= |ts| == |ms| && Substituted(text, ts, ms, i).Lost?
    ensures Substituted(text, ts, ms, k) == Substituted(text, ts, ms, i)
  {
    if i < k { LostStays(text, ts, ms, i, k - 1); }
  }

  // -- text with tokens in it ------------------------------------------------------------

  /** The text up to and including the `k`-th gap. */
  function Before(gaps: seq<string>, xs: seq<string>, k: nat): string
    requires |gaps| == |xs| + 1 && k <= |xs|
  {
    if k == 0 then gaps[0] else Before(gaps, xs, k - 1) + xs[k - 1] + gaps[k]
  }

  /** The text from the `k`-th inserted string on. */
  function From(gaps: seq<string>, xs: seq<string>, k: nat): string
    requires |gaps| == |xs| + 1 && k <= |xs|
    decreases |xs| - k
  {
    if k == |xs| then "" else xs[k] + gaps[k + 1] + From(gaps, xs, k + 1)
  }

  /** `xs` placed between the gaps. */
  function Interleave(gaps: seq<string>, xs: seq<string>): string
    requires |gaps| == |xs| + 1
  {
    Before(gaps, xs, |xs|)
  }

  lemma {:induction false} InterleaveSplits(gaps: seq<string>, xs: seq<string>, k: nat)
    requires |gaps| == |xs| + 1 && k <= |xs|
    ensures Interleave(gaps, xs) == Before(gaps, xs, k) + From(gaps, xs, k)
    decreases |xs| - k
  {
    if k < |xs| {
      InterleaveSplits(gaps, xs, k + 1);
      assert Before(gaps, xs, k + 1) + From(gaps, xs, k + 1)
             == Before(gaps, xs, k) + (xs[k] + gaps[k + 1] + From(gaps, xs, k + 1));
    }
  }

  /** `t` is not a substring of `s`. */
  ghost predicate NotIn(t: string, s: string) { forall p: nat :: !OccursAt(s, t, p) }

  ghost predicate TokenFree(s: string, ts: seq<string>) { forall i | 0 <= i < |ts| :: NotIn(ts[i], s) }

  lemma OccursInPrefix(s: string, rest: string, t: string, p: nat)
    requires OccursAt(s, t, p)
    ensures OccursAt(s + rest, t, p)
  {
    assert (s + rest)[p..p + |t|] == s[p..p + |t|];
  }

  /** A token that follows text without it is found where it stands. */
  lemma FindsToken(before: string, t: string, after: string)
    requires IsToken(t) && NotIn(t, before)
    ensures Find(before + t + after, t) == Some(|before|)
  {
    var s := before + t + after;
    assert s[|before|..|before| + |t|] == t;
    assert OccursAt(s, t, |before|) && s[|before|] == 'L';
    forall p: nat | p < |before| ensures !OccursAt(s, t, p) {
      if p + |t| <= |before| {
        assert before[p..p + |t|] == s[p..p + |t|];
        assert !OccursAt(before, t, p);
      } else {
        assert t[|before| - p] != 'L';
        assert p + |t| <= |s| ==> s[p..p + |t|][|before| - p] == 'L';
      }
    }
  }

  function Spans(gaps: seq<string>, ms: seq<string>, k: nat): (r: seq<Span>)
    requires |gaps| == |ms| + 1 && k <= |ms|
    ensures |r| == k
  {
    if k == 0 then []
    else
      var start := |Before(gaps, ms, k - 1)|;
      Spans(gaps, ms, k - 1) + [Span(start, start + |ms[k - 1]|)]
  }

  lemma {:induction false} SubstitutedIs(gaps: seq<string>, ts: seq<string>, ms: seq<string>, k: nat)
    requires |gaps| == |ts| + 1 && |ms| == |ts| && k <= |ts| && AllTokens(ts)
    requires TokenFree(Interleave(gaps, ms), ts)
    ensures Substituted(Interleave(gaps, ts), ts, ms, k)
            == Resolved(Before(gaps, ms, k) + From(gaps, ts, k), Spans(gaps, ms, k))
  {
    if k == 0 {
      InterleaveSplits(gaps, ts, 0);
    } else {
      SubstitutedIs(gaps, ts, ms, k - 1);
      TokenStep(gaps, ts, ms, k);
    }
  }

  /** Replacing the next token in text whose earlier tokens are all replaced. */
  lemma TokenStep(gaps: seq<string>, ts: seq<string>, ms: seq<string>, k: nat)
    requires |gaps| == |ts| + 1 && |ms| == |ts| && 0 < k <= |ts| && AllTokens(ts)
    requires TokenFree(Interleave(gaps, ms), ts)
    ensures ReplaceFirst(Before(gaps, ms, k - 1) + From(gaps, ts, k - 1), Spans(gaps, ms, k - 1), ts[k - 1], ms[k - 1])
            == Resolved(Before(gaps, ms, k) + From(gaps, ts, k), Spans(gaps, ms, k))
  {
    var before, t, rest := Before(gaps, ms, k - 1), ts[k - 1], gaps[k] + From(gaps, ts, k);
    NotBefore(gaps, ms, k - 1, t);
    FirstReplaced(before, t, rest, ms[k - 1], Spans(gaps, ms, k - 1));
    Regroup(before, t, gaps[k], From(gaps, ts, k));
    Regroup(before, ms[k - 1], gaps[k], From(gaps, ts, k));
  }

  lemma NotBefore(gaps: seq<string>, ms: seq<string>, k: nat, t: string)
    requires |gaps| == |ms| + 1 && k <= |ms| && NotIn(t, Interleave(gaps, ms))
    ensures NotIn(t, Before(gaps, ms, k))
  {
    InterleaveSplits(gaps, ms, k);
    forall p: nat ensures !OccursAt(Before(gaps, ms, k), t, p) {
      if OccursAt(Before(gaps, ms, k), t, p) { OccursInPrefix(Before(gaps, ms, k), From(gaps, ms, k), t, p); }
    }
  }

  lemma Regroup(a: string, b: string, c: string, d: string)
    ensures a + (b + c + d) == a + b + (c + d)
    ensures a + b + (c + d) == (a + b + c) + d
  {}

  /** What one round does to the first occurrence. */
  lemma FirstReplaced(before: string, t: string, rest: string, m: string, spans: seq<Span>)
    requires IsToken(t) && NotIn(t, before)
    ensures ReplaceFirst(before + t + rest, spans, t, m)
            == Resolved(before + m + rest, spans + [Span(|before|, |before| + |m|)])
  {
    FindsToken(before, t, rest);
    var s := before + t + rest;
    assert s[|before|..|before| + |t|] == t;
    assert s[..|before|] == before && s[|before| + |t|..] == rest;
  }

  /** Spans are in order and disjoint, and each one covers its marker. */
  ghost predicate SpansCover(text: string, spans: seq<Span>, ms: seq<string>) {
    && |spans| == |ms|
    && (forall i | 0 <= i < |spans| ::
          spans[i].start <= spans[i].end <= |text| && text[spans[i].start..spans[i].end] == ms[i])
    && (forall i | 0 < i < |spans| :: spans[i - 1].end <= spans[i].start)
  }

  /** The text is the markers between the gaps, and the spans cover them. */
  ghost predicate Replaced(r: Resolved, gaps: seq<string>, ms: seq<string>)
    requires |gaps| == |ms| + 1
  {
    r.Resolved? && r.text == Interleave(gaps, ms) && SpansCover(r.text, r.spans, ms)
  }

  lemma {:induction false} SpansAre(gaps: seq<string>, ms: seq<string>, k: nat)
    requires |gaps| == |ms| + 1 && k <= |ms|
    ensures SpansCover(Before(gaps, ms, k), Spans(gaps, ms, k), ms[..k])
    ensures k > 0 ==> Spans(gaps, ms, k)[k - 1].end + |gaps[k]| == |Before(gaps, ms, k)|
  {
    if k > 0 {
      SpansAre(gaps, ms, k - 1);
      var before, text := Before(gaps, ms, k - 1), Before(gaps, ms, k);
      var spans := Spans(gaps, ms, k - 1);
      assert text == before + (ms[k - 1] + gaps[k]);
      forall i | 0 <= i < k - 1 ensures text[spans[i].start..spans[i].end] == ms[i] {
        assert ms[..k - 1][i] == ms[i];
        assert before[spans[i].start..spans[i].end] == text[spans[i].start..spans[i].end];
      }
      assert text[|before|..|before| + |ms[k - 1]|] == ms[k - 1];
    }
  }

  /**
    Offsets recorded while later tokens are still in the text are right in the final text, which is the simultaneous
    substitution of all tokens, as long as no token occurs in that text.
   */
  lemma SubstitutionIsExact(gaps: seq<string>, ts: seq<string>, ms: seq<string>)
    requires |gaps| == |ts| + 1 && |ms| == |ts| && AllTokens(ts)
    requires TokenFree(Interleave(gaps, ms), ts)
    ensures Replaced(Substituted(Interleave(gaps, ts), ts, ms, |ts|), gaps, ms)
  {
    SubstitutedIs(gaps, ts, ms, |ts|);
    SpansAre(gaps, ms, |ms|);
    assert ms[..|ms|] == ms;
  }

  // -- tokens that are not in the text ------------------------------------------------------

  /** Neither of the two begins with the other. */
  predicate Apart(t: string, u: string) { !OccursAt(t, u, 0) && !OccursAt(u, t, 0) }

  /** A token that neither the text before nor the text after another one holds does not appear across it either. */
  lemma NotAcross(g: string, x: string, rest: string, t: string)
    requires IsToken(t) && IsToken(x) && Apart(t, x) && NotIn(t, g) && NotIn(t, rest)
    ensures NotIn(t, g + x + rest)
  {
    var s := g + x + rest;
    forall p: nat ensures !OccursAt(s, t, p) {
      if p + |t| <= |g| {
        assert g[p..p + |t|] == s[p..p + |t|];
        assert !OccursAt(g, t, p);
      } else if p < |g| {
        assert t[|g| - p] != 'L' && s[|g|] == 'L';
        assert p + |t| <= |s| ==> s[p..p + |t|][|g| - p] == 'L';
      } else if p == |g| {
        BeginsApart(g, x, rest, t);
      } else if p < |g| + |x| {
        assert x[p - |g|] != 'L' && s[p] == x[p - |g|];
        assert p + |t| <= |s| ==> s[p..p + |t|][0] == s[p];
      } else {
        assert p + |t| <= |s| ==> s[p..p + |t|] == rest[p - |g| - |x|..p - |g| - |x| + |t|];
        assert !OccursAt(rest, t, p - |g| - |x|);
      }
    }
  }

  lemma BeginsApart(g: string, x: string, rest: string, t: string)
    requires Apart(t, x)
    ensures !OccursAt(g + x + rest, t, |g|)
  {
    var s := g + x + rest;
    if |g| + |t| <= |s| {
      if |t| <= |x| {
        assert s[|g|..|g| + |t|] == x[..|t|];
        assert !OccursAt(x, t, 0);
      } else {
        assert s[|g|..|g| + |t|][..|x|] == x;
        assert !OccursAt(t, x, 0);
      }
    }
  }

  lemma {:induction false} NotAmong(g: string, gaps: seq<string>, xs: seq<string>, k: nat, t: string)
    requires |gaps| == |xs| + 1 && k <= |xs| && IsToken(t) && AllTokens(xs)
    requires NotIn(t, g) && (forall i | k < i < |gaps| :: NotIn(t, gaps[i]))
             && forall i | k <= i < |xs| :: Apart(t, xs[i])
    ensures NotIn(t, g + From(gaps, xs, k))
    decreases |xs| - k
  {
    if k == |xs| {
      assert g + From(gaps, xs, k) == g;
    } else {
      NotAmong(gaps[k + 1], gaps, xs, k + 1, t);
      NotAcross(g, xs[k], gaps[k + 1] + From(gaps, xs, k + 1), t);
      assert g + From(gaps, xs, k) == g + xs[k] + (gaps[k + 1] + From(gaps, xs, k + 1));
    }
  }

  /** Every gap is a part of the text, and so is every beginning of it. */
  lemma PartsOfText(gaps: seq<string>, xs: seq<string>, k: nat, t: string)
    requires |gaps| == |xs| + 1 && k <= |xs| && NotIn(t, Interleave(gaps, xs))
    ensures NotIn(t, Before(gaps, xs, k)) && NotIn(t, gaps[k])
  {
    NotBefore(gaps, xs, k, t);
    var before := Before(gaps, xs, k);
    GapEndsBefore(gaps, xs, k);
    var head := before[..|before| - |gaps[k]|];
    forall p: nat ensures !OccursAt(gaps[k], t, p) {
      if p + |t| <= |gaps[k]| {
        assert before[|head| + p..|head| + p + |t|] == gaps[k][p..p + |t|];
        assert !OccursAt(before, t, |head| + p);
      }
    }
  }

  lemma GapEndsBefore(gaps: seq<string>, xs: seq<string>, k: nat)
    requires |gaps| == |xs| + 1 && k <= |xs|
    ensures |gaps[k]| <= |Before(gaps, xs, k)|
    ensures Before(gaps, xs, k) == Before(gaps, xs, k)[..|Before(gaps, xs, k)| - |gaps[k]|] + gaps[k]
  {}

  // -- some tokens missing ------------------------------------------------------------------

  /** The strings of the given indices. */
  function Strings(ks: seq<nat>, xs: seq<string>): seq<string>
    requires forall i | 0 <= i < |ks| :: ks[i] < |xs|
  {
    seq(|ks|, i requires 0 <= i < |ks| => xs[ks[i]])
  }

  /** Indices in increasing order. */
  ghost predicate Increasing(ks: seq<nat>, n: nat) {
    && (forall i | 0 <= i < |ks| :: ks[i] < n)
    && (forall i, j | 0 <= i < j < |ks| :: ks[i] < ks[j])
  }

  ghost predicate AllApart(ts: seq<string>) {
    forall i, j | 0 <= i < |ts| && 0 <= j < |ts| && i != j :: Apart(ts[i], ts[j])
  }

  /** The first `m` indices are there. */
  ghost predicate Starts(ks: seq<nat>, m: nat) { m <= |ks| && forall i | 0 <= i < m :: ks[i] == i }

  /** The least index that is missing. */
  function FirstMissing(ks: seq<nat>, from: nat := 0): (m: nat)
    requires from <= |ks|
    ensures from <= m <= |ks| && (m < |ks| ==> ks[m] != m) && forall i | from <= i < m :: ks[i] == i
    decreases |ks| - from
  {
    if from == |ks| || ks[from] != from then from else FirstMissing(ks, from + 1)
  }

  lemma TokensOfStrings(ks: seq<nat>, ts: seq<string>, text: string)
    requires Increasing(ks, |ts|) && AllTokens(ts) && TokenFree(text, ts)
    ensures AllTokens(Strings(ks, ts)) && TokenFree(text, Strings(ks, ts))
  {
    var xs := Strings(ks, ts);
    forall i | 0 <= i < |xs| ensures IsToken(xs[i]) && NotIn(xs[i], text) { assert xs[i] == ts[ks[i]]; }
  }

  lemma {:induction false} PresentAreSubstituted(
      gaps: seq<string>, ks: seq<nat>, ts: seq<string>, ms: seq<string>, k: nat)
    requires |ms| == |ts| && Increasing(ks, |ts|) && |gaps| == |ks| + 1 && Starts(ks, k) && AllTokens(ts)
    requires TokenFree(Interleave(gaps, Strings(ks, ms)), ts)
    ensures k <= |ts|
    ensures Substituted(Interleave(gaps, Strings(ks, ts)), ts, ms, k)
            == Resolved(Before(gaps, Strings(ks, ms), k) + From(gaps, Strings(ks, ts), k),
                        Spans(gaps, Strings(ks, ms), k))
  {
    var xs, ys := Strings(ks, ts), Strings(ks, ms);
    if k == 0 {
      InterleaveSplits(gaps, xs, 0);
    } else {
      PresentAreSubstituted(gaps, ks, ts, ms, k - 1);
      assert ks[k - 1] == k - 1;
      TokensOfStrings(ks, ts, Interleave(gaps, ys));
      TokenStep(gaps, xs, ys, k);
    }
  }

  /**
    The result is lost exactly when some index is missing from the text, and then it names the first missing token;
    otherwise it is the simultaneous substitution of all tokens with the spans of their markers.
   */
  lemma SubstitutionIsDecided(gaps: seq<string>, ks: seq<nat>, ts: seq<string>, ms: seq<string>)
    requires |ms| == |ts| && Increasing(ks, |ts|) && |gaps| == |ks| + 1
    requires AllTokens(ts) && AllApart(ts) && TokenFree(Interleave(gaps, Strings(ks, ms)), ts)
    ensures |ks| <= |ts|
    ensures |ks| == |ts| ==> Replaced(Substituted(Interleave(gaps, Strings(ks, ts)), ts, ms, |ts|), gaps, ms)
    ensures |ks| < |ts| ==>
              && FirstMissing(ks) < |ts|
              && Substituted(Interleave(gaps, Strings(ks, ts)), ts, ms, |ts|) == Lost(ts[FirstMissing(ks)])
  {
    IncreasingIsShort(ks, |ts|);
    if |ks| == |ts| {
      AllArePresent(ks, ts);
      AllArePresent(ks, ms);
      SubstitutionIsExact(gaps, ts, ms);
    } else {
      FirstMissingIsSmall(ks, |ts|);
      MissingIsLost(gaps, ks, ts, ms, FirstMissing(ks));
    }
  }

  lemma AllArePresent(ks: seq<nat>, xs: seq<string>)
    requires Increasing(ks, |xs|) && |ks| == |xs|
    ensures Strings(ks, xs) == xs
  {
    IncreasingIsAll(ks, |xs|);
  }

  lemma {:induction false} IncreasingIsShort(ks: seq<nat>, n: nat)
    requires Increasing(ks, n)
    ensures |ks| <= n && forall i | 0 <= i < |ks| :: i <= ks[i]
  {
    if ks != [] {
      var last := ks[|ks| - 1];
      forall i, j | 0 <= i < j < |ks| ensures ks[i] < ks[j] {}
      assert Increasing(ks[..|ks| - 1], last);
      IncreasingIsShort(ks[..|ks| - 1], last);
    }
  }

  lemma {:induction false} IncreasingIsAll(ks: seq<nat>, n: nat)
    requires Increasing(ks, n) && |ks| == n
    ensures FirstMissing(ks) == n && forall i | 0 <= i < n :: ks[i] == i
  {
    if n > 0 {
      var init := ks[..n - 1];
      assert Increasing(init, ks[n - 1]);
      IncreasingIsShort(init, ks[n - 1]);
      IncreasingIsAll(init, n - 1);
      assert forall i | 0 <= i < n - 1 :: ks[i] == init[i];
    }
  }

  lemma FirstMissingIsSmall(ks: seq<nat>, n: nat)
    requires Increasing(ks, n) && |ks| < n
    ensures FirstMissing(ks) < n && forall i | FirstMissing(ks) <= i < |ks| :: ks[i] > FirstMissing(ks)
  {
    IncreasingIsShort(ks, n);
  }

  lemma MissingIsLost(gaps: seq<string>, ks: seq<nat>, ts: seq<string>, ms: seq<string>, m: nat)
    requires |ms| == |ts| && Increasing(ks, |ts|) && |gaps| == |ks| + 1 && Starts(ks, m) && m < |ts|
    requires forall i | m <= i < |ks| :: ks[i] > m
    requires AllTokens(ts) && AllApart(ts) && TokenFree(Interleave(gaps, Strings(ks, ms)), ts)
    ensures Substituted(Interleave(gaps, Strings(ks, ts)), ts, ms, |ts|) == Lost(ts[m])
  {
    PresentAreSubstituted(gaps, ks, ts, ms, m);
    MissingIsNotThere(gaps, ks, ts, ms, m);
    LostThere(Interleave(gaps, Strings(ks, ts)), ts, ms, m,
      Before(gaps, Strings(ks, ms), m) + From(gaps, Strings(ks, ts), m));
  }

  lemma LostThere(text: string, ts: seq<string>, ms: seq<string>, m: nat, s: string)
    requires m < |ts| == |ms| && NotIn(ts[m], s)
    requires Substituted(text, ts, ms, m).Resolved? && Substituted(text, ts, ms, m).text == s
    ensures Substituted(text, ts, ms, |ts|) == Lost(ts[m])
  {
    NotFound(s, ts[m]);
    LostStays(text, ts, ms, m + 1, |ts|);
  }

  lemma MissingIsNotThere(gaps: seq<string>, ks: seq<nat>, ts: seq<string>, ms: seq<string>, m: nat)
    requires |ms| == |ts| && Increasing(ks, |ts|) && |gaps| == |ks| + 1 && m <= |ks| && m < |ts|
    requires forall i | m <= i < |ks| :: ks[i] > m
    requires AllTokens(ts) && AllApart(ts) && TokenFree(Interleave(gaps, Strings(ks, ms)), ts)
    ensures NotIn(ts[m], Before(gaps, Strings(ks, ms), m) + From(gaps, Strings(ks, ts), m))
  {
    var xs, ys, t := Strings(ks, ts), Strings(ks, ms), ts[m];
    forall i | m <= i < |gaps| ensures NotIn(t, gaps[i]) { PartsOfText(gaps, ys, i, t); }
    PartsOfText(gaps, ys, m, t);
    TokensOfStrings(ks, ts, Interleave(gaps, ys));
    forall i | m <= i < |xs| ensures Apart(t, xs[i]) { assert xs[i] == ts[ks[i]]; }
    NotAmong(Before(gaps, ys, m), gaps, xs, m, t);
  }

  lemma NotFound(s: string, t: string)
    requires NotIn(t, s)
    ensures Find(s, t) == None
  {}

  // -- generated tokens are apart -----------------------------------------------------------

  lemma {:induction false} NumeralWidth(n: nat, width: nat, bound: nat)
    requires width > 0 && bound == Power(width) && n < bound
    ensures |Numeral(n)| <= width
  {
    if n >= 10 { NumeralWidth(n / 10, width - 1, bound / 10); }
  }

  /** Ten to the given power. */
  function Power(k: nat): nat { if k == 0 then 1 else 10 * Power(k - 1) }

  lemma {:induction false} PadIs(s: string, width: nat)
    requires |s| <= width && AllDigits(s)
    ensures |PadLeft(s, width)| == width && AllDigits(PadLeft(s, width))
    ensures ParseNumeral(PadLeft(s, width)) == ParseNumeral(s)
    decreases width - |s|
  {
    if |s| < width {
      LeadingZero(s);
      PadIs("0" + s, width);
    }
  }

  lemma {:induction false} LeadingZero(s: string)
    requires AllDigits(s)
    ensures AllDigits("0" + s) && ParseNumeral("0" + s) == ParseNumeral(s)
  {
    if s != "" {
      LeadingZero(s[..|s| - 1]);
      assert ("0" + s)[..|s|] == "0" + s[..|s| - 1];
    }
  }

  /** Tokens of different indices below 10^8 are apart, whatever their random parts are, if these have one length. */
  lemma TokensAreApart(i: nat, j: nat, a: string, b: string)
    requires i != j && i < 100_000_000 && j < 100_000_000 && |a| == |b|
    ensures Apart(TokenOf(i, a), TokenOf(j, b))
  {
    assert Power(8) == 100_000_000;
    NumeralWidth(i, 8, Power(8));
    NumeralWidth(j, 8, Power(8));
    PadIs(Numeral(i), 8);
    PadIs(Numeral(j), 8);
    NumeralRoundTrip(i);
    NumeralRoundTrip(j);
    var t, u := TokenOf(i, a), TokenOf(j, b);
    var k := |TokenPrefix|;
    assert t[k..k + 8] == PadLeft(Numeral(i), 8) && u[k..k + 8] == PadLeft(Numeral(j), 8);
    assert |t| == |u| && t != u;
    assert t[0..0 + |t|] == t && u[0..0 + |u|] == u;
  }
}
