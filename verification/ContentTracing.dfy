/** How cleaned text with tokens in it traces back to the page's text (luatvietnam_crawler/parser.py). */
module ContentTracing {
  import opened Text
  import opened ReferenceTokens

  // -- thinning ---------------------------------------------------------------------

  /**
    `x` is `y` changed at white space only: a space of `x` stands for any part of `y`, other characters for
    themselves.
   */
  ghost predicate Thins(x: string, y: string)
    decreases |x|, 1
  {
    if x == "" then y == ""
    else if IsSpace(x[0]) then exists k: nat :: SkipsTo(x, y, k)
    else y != "" && y[0] == x[0] && Thins(x[1..], y[1..])
  }

  ghost predicate SkipsTo(x: string, y: string, k: nat)
    requires x != ""
    decreases |x|, 0
  {
    k <= |y| && Thins(x[1..], y[k..])
  }

  lemma {:induction false} ThinsSame(x: string)
    ensures Thins(x, x)
  {
    if x != "" {
      ThinsSame(x[1..]);
      assert IsSpace(x[0]) ==> SkipsTo(x, x, 1);
    }
  }

  lemma SpaceThins(c: char, y: string)
    requires IsSpace(c)
    ensures Thins([c], y)
  {
    assert [c][1..] == "" && y[|y|..] == "";
    assert SkipsTo([c], y, |y|);
  }

  /** What the first character of `x` stands for. */
  lemma PeelThin(x: string, y: string) returns (k: nat)
    requires x != "" && Thins(x, y)
    ensures k <= |y| && Thins([x[0]], y[..k]) && Thins(x[1..], y[k..])
    ensures !IsSpace(x[0]) ==> k == 1 && y[0] == x[0]
  {
    if IsSpace(x[0]) {
      k :| SkipsTo(x, y, k);
      SpaceThins(x[0], y[..k]);
    } else {
      k := 1;
      assert y[..1] == [x[0]];
      ThinsSame([x[0]]);
    }
  }

  lemma PrependThin(x: string, y: string, k: nat)
    requires x != "" && k <= |y| && Thins([x[0]], y[..k]) && Thins(x[1..], y[k..])
    ensures Thins(x, y)
  {
    if IsSpace(x[0]) {
      assert SkipsTo(x, y, k);
    } else {
      assert [x[0]][1..] == "" && y[..k][1..] == "";
      assert k == 1;
    }
  }

  lemma {:induction false} ThinsJoin(a: string, b: string, c: string, d: string)
    requires Thins(a, b) && Thins(c, d)
    ensures Thins(a + c, b + d)
    decreases |a|
  {
    if a == "" {
      assert a + c == c && b + d == d;
    } else {
      var k := PeelThin(a, b);
      ThinsJoin(a[1..], b[k..], c, d);
      assert (a + c)[1..] == a[1..] + c && (b + d)[k..] == b[k..] + d && (b + d)[..k] == b[..k];
      PrependThin(a + c, b + d, k);
    }
  }

  /** Where the rest of `x` begins in `y`. */
  lemma {:induction false} ThinsTail(x: string, y: string, n: nat) returns (k: nat)
    requires Thins(x, y) && n <= |x|
    ensures k <= |y| && Thins(x[..n], y[..k]) && Thins(x[n..], y[k..]) && (n == 0 ==> k == 0) && (n == |x| ==> k == |y|)
    decreases n
  {
    if n == 0 {
      k := 0;
      assert x[n..] == x && y[k..] == y && x[..n] == "" && y[..k] == "";
      assert x == "" ==> y == "";
    } else {
      var first := PeelThin(x, y);
      var rest := ThinsTail(x[1..], y[first..], n - 1);
      k := first + rest;
      assert x[1..][n - 1..] == x[n..] && y[first..][rest..] == y[k..];
      ThinsJoin([x[0]], y[..first], x[1..][..n - 1], y[first..][..rest]);
      assert [x[0]] + x[1..][..n - 1] == x[..n] && y[..first] + y[first..][..rest] == y[..k];
    }
  }

  lemma {:induction false} ThinsTransitive(x: string, y: string, z: string)
    requires Thins(x, y) && Thins(y, z)
    ensures Thins(x, z)
    decreases |x|
  {
    if x != "" {
      var k := PeelThin(x, y);
      var n := ThinsTail(y, z, k);
      ThinsTransitive(x[1..], y[k..], z[n..]);
      if IsSpace(x[0]) {
        SpaceThins(x[0], z[..n]);
      } else {
        assert y[..k] == [x[0]];
      }
      PrependThin(x, z, n);
    }
  }

  // -- text without white space -----------------------------------------------------------

  predicate Solid(t: string) { forall i | 0 <= i < |t| :: !IsSpace(t[i]) }

  /** A string without white space that occurs in thinned text occurs in the text it comes from. */
  lemma {:induction false} SolidOccurs(x: string, y: string, t: string, p: nat) returns (q: nat)
    requires Thins(x, y) && Solid(t) && OccursAt(x, t, p)
    ensures OccursAt(y, t, q)
  {
    q := ThinsTail(x, y, p);
    SolidBegins(x[p..], y[q..], t);
    assert y[q..][..|t|] == y[q..q + |t|];
  }

  lemma {:induction false} SolidBegins(x: string, y: string, t: string)
    requires Thins(x, y) && Solid(t) && |t| <= |x| && x[..|t|] == t
    ensures |t| <= |y| && y[..|t|] == t
  {
    if t != "" {
      assert x[0] == t[0];
      SolidBegins(x[1..], y[1..], t[1..]);
      assert y[..|t|] == [y[0]] + y[1..][..|t| - 1];
    }
  }

  // -- text with tokens -----------------------------------------------------------------------

  /** `s` is `y` with the tokens in the place of the markers, in this order, and thinned between them. */
  ghost predicate Carries(s: string, ts: seq<string>, ms: seq<string>, y: string)
    requires |ts| == |ms|
    decreases |ts|, 1
  {
    if ts == [] then Thins(s, y) else exists i: nat, j: nat :: CarriesAt(s, ts, ms, y, i, j)
  }

  /** The first token stands at `i` and its marker at `j`; the others follow. */
  ghost predicate CarriesAt(s: string, ts: seq<string>, ms: seq<string>, y: string, i: nat, j: nat)
    requires |ts| == |ms| > 0
    decreases |ts|, 0
  {
    && OccursAt(s, ts[0], i) && OccursAt(y, ms[0], j)
    && Thins(s[..i], y[..j])
    && Carries(s[i + |ts[0]|..], ts[1..], ms[1..], y[j + |ms[0]|..])
  }

  /** What stands before and after the first token and its marker. */
  datatype Split = Split(gap: string, rest: string, source: string, tail: string)

  ghost predicate Splits(p: Split, s: string, ts: seq<string>, ms: seq<string>, y: string)
    requires |ts| == |ms| > 0
  {
    && s == p.gap + ts[0] + p.rest && y == p.source + ms[0] + p.tail
    && Thins(p.gap, p.source) && Carries(p.rest, ts[1..], ms[1..], p.tail)
  }

  lemma SplitFirst(s: string, ts: seq<string>, ms: seq<string>, y: string) returns (p: Split)
    requires |ts| == |ms| > 0 && Carries(s, ts, ms, y)
    ensures Splits(p, s, ts, ms, y)
  {
    var i: nat, j: nat :| CarriesAt(s, ts, ms, y, i, j);
    p := Split(s[..i], s[i + |ts[0]|..], y[..j], y[j + |ms[0]|..]);
  }

  lemma SplitCarries(p: Split, s: string, ts: seq<string>, ms: seq<string>, y: string)
    requires |ts| == |ms| > 0 && Splits(p, s, ts, ms, y)
    ensures Carries(s, ts, ms, y)
  {
    var i, j := |p.gap|, |p.source|;
    assert s[..i] == p.gap && s[i..i + |ts[0]|] == ts[0] && s[i + |ts[0]|..] == p.rest;
    assert y[..j] == p.source && y[j..j + |ms[0]|] == ms[0] && y[j + |ms[0]|..] == p.tail;
    assert CarriesAt(s, ts, ms, y, i, j);
  }

  lemma CarriesNothing(s: string, y: string)
    requires Thins(s, y)
    ensures Carries(s, [], [], y)
  {}

  lemma CarriesToken(t: string, m: string)
    ensures Carries(t, [t], [m], m)
  {
    assert [t][1..] == [] && [m][1..] == [];
    SplitCarries(Split("", "", "", ""), t, [t], [m], m);
  }

  lemma {:induction false} CarriesAfter(a: string, b: string, s: string, ts: seq<string>, ms: seq<string>, y: string)
    requires Thins(a, b) && |ts| == |ms| && Carries(s, ts, ms, y)
    ensures Carries(a + s, ts, ms, b + y)
  {
    if ts == [] {
      ThinsJoin(a, b, s, y);
    } else {
      var p := SplitFirst(s, ts, ms, y);
      ThinsJoin(a, b, p.gap, p.source);
      Prepend(a, p.gap, ts[0], p.rest);
      Prepend(b, p.source, ms[0], p.tail);
      SplitCarries(Split(a + p.gap, p.rest, b + p.source, p.tail), a + s, ts, ms, b + y);
    }
  }

  lemma Prepend(a: string, b: string, c: string, d: string)
    ensures a + (b + c + d) == a + b + c + d
  {}

  lemma {:induction false} CarriesJoin(
      a: string, ts: seq<string>, ms: seq<string>, y: string, b: string, us: seq<string>, ns: seq<string>, z: string)
    requires |ts| == |ms| && |us| == |ns| && Carries(a, ts, ms, y) && Carries(b, us, ns, z)
    ensures Carries(a + b, ts + us, ms + ns, y + z)
    decreases |ts|
  {
    if ts == [] {
      CarriesAfter(a, y, b, us, ns, z);
      assert ts + us == us && ms + ns == ns;
    } else {
      var p := SplitFirst(a, ts, ms, y);
      CarriesJoin(p.rest, ts[1..], ms[1..], p.tail, b, us, ns, z);
      assert (ts + us)[1..] == ts[1..] + us && (ms + ns)[1..] == ms[1..] + ns;
      assert a + b == p.gap + ts[0] + (p.rest + b) && y + z == p.source + ms[0] + (p.tail + z);
      SplitCarries(Split(p.gap, p.rest + b, p.source, p.tail + z), a + b, ts + us, ms + ns, y + z);
    }
  }

  /**
    Text that carries the tokens is the tokens between some gaps, and with the markers there it is the thinned source.
   */
  lemma {:induction false} CarriesGaps(
      s: string, ts: seq<string>, ms: seq<string>, y: string) returns (gaps: seq<string>)
    requires |ts| == |ms| && Carries(s, ts, ms, y)
    ensures |gaps| == |ts| + 1 && s == Interleave(gaps, ts) && Thins(Interleave(gaps, ms), y)
    decreases |ts|
  {
    if ts == [] {
      gaps := [s];
    } else {
      var p := SplitFirst(s, ts, ms, y);
      var others := CarriesGaps(p.rest, ts[1..], ms[1..], p.tail);
      gaps := [p.gap] + others;
      BeforeShift(p.gap, others, ts, |ts|);
      BeforeShift(p.gap, others, ms, |ms|);
      ThinsSame(ms[0]);
      ThinsJoin(p.gap, p.source, ms[0], ms[0]);
      ThinsJoin(p.gap + ms[0], p.source + ms[0], Interleave(others, ms[1..]), p.tail);
    }
  }

  lemma {:induction false} BeforeShift(g: string, others: seq<string>, ts: seq<string>, k: nat)
    requires ts != [] && |others| == |ts| && 1 <= k <= |ts|
    ensures Before([g] + others, ts, k) == g + ts[0] + Before(others, ts[1..], k - 1)
  {
    var gaps := [g] + others;
    if k == 1 {
      assert Before(gaps, ts, 0) == g;
    } else {
      BeforeShift(g, others, ts, k - 1);
      assert ts[1..][k - 2] == ts[k - 1] && gaps[k] == others[k - 1];
    }
  }

  // -- a part of the source ------------------------------------------------------------------

  /** `s` carries the tokens of a part of the source; what is left out of the source stands at its ends. */
  ghost predicate CarriesPart(s: string, ts: seq<string>, ms: seq<string>, y: string)
    requires |ts| == |ms|
  {
    exists k: nat, n: nat :: IsPart(s, ts, ms, y, k, n)
  }

  ghost predicate IsPart(s: string, ts: seq<string>, ms: seq<string>, y: string, k: nat, n: nat)
    requires |ts| == |ms|
  {
    k <= n <= |y| && Carries(s, ts, ms, y[k..n])
  }

  lemma WholeIsPart(s: string, ts: seq<string>, ms: seq<string>, y: string)
    requires |ts| == |ms| && Carries(s, ts, ms, y)
    ensures CarriesPart(s, ts, ms, y)
  {
    assert y[0..|y|] == y;
    assert IsPart(s, ts, ms, y, 0, |y|);
  }

  lemma PartOfMore(a: string, s: string, ts: seq<string>, ms: seq<string>, y: string)
    requires |ts| == |ms| && CarriesPart(s, ts, ms, y)
    ensures CarriesPart(s, ts, ms, a + y)
  {
    var k: nat, n: nat :| IsPart(s, ts, ms, y, k, n);
    assert (a + y)[|a| + k..|a| + n] == y[k..n];
    assert IsPart(s, ts, ms, a + y, |a| + k, |a| + n);
  }

  lemma PartOfLess(b: string, s: string, ts: seq<string>, ms: seq<string>, y: string)
    requires |ts| == |ms| && CarriesPart(s, ts, ms, y)
    ensures CarriesPart(s, ts, ms, y + b)
  {
    var k: nat, n: nat :| IsPart(s, ts, ms, y, k, n);
    assert (y + b)[k..n] == y[k..n];
    assert IsPart(s, ts, ms, y + b, k, n);
  }

  lemma Across(y: string, k: nat, n: nat, z: string, i: nat, j: nat)
    requires k <= n <= |y| && i <= j <= |z|
    ensures y[k..n] + (y[n..] + z[..i] + z[i..j]) == (y + z)[k..|y| + j]
  {
    assert y[k..n] + y[n..] == y[k..] && z[..i] + z[i..j] == z[..j];
    assert y[k..n] + (y[n..] + z[..i] + z[i..j]) == y[k..] + z[..j];
  }

  /** A space between two parts stands for whatever lies between them in the source. */
  lemma PartsJoin(
      a: string, ts: seq<string>, ms: seq<string>, y: string, c: char, b: string, us: seq<string>, ns: seq<string>,
      z: string)
    requires IsSpace(c) && |ts| == |ms| && |us| == |ns| && CarriesPart(a, ts, ms, y) && CarriesPart(b, us, ns, z)
    ensures CarriesPart(a + [c] + b, ts + us, ms + ns, y + z)
  {
    var k: nat, n: nat :| IsPart(a, ts, ms, y, k, n);
    var i: nat, j: nat :| IsPart(b, us, ns, z, i, j);
    SpaceThins(c, y[n..] + z[..i]);
    CarriesAfter([c], y[n..] + z[..i], b, us, ns, z[i..j]);
    CarriesJoin(a, ts, ms, y[k..n], [c] + b, us, ns, y[n..] + z[..i] + z[i..j]);
    assert a + [c] + b == a + ([c] + b);
    Across(y, k, n, z, i, j);
    assert IsPart(a + [c] + b, ts + us, ms + ns, y + z, k, |y| + j);
  }

  lemma SliceOfSlice(y: string, k: nat, n: nat, i: nat, j: nat)
    requires k <= n <= |y| && i <= j <= n - k
    ensures y[k..n][i..j] == y[k + i..k + j]
  {
    var part, whole := y[k..n][i..j], y[k + i..k + j];
    assert |part| == |whole|;
    forall x | 0 <= x < |part| ensures part[x] == whole[x] {
      assert part[x] == y[k..n][i + x] == y[k + i + x];
    }
  }

  lemma SolidInPart(s: string, y: string, k: nat, n: nat, t: string)
    requires k <= n <= |y| && Thins(s, y[k..n]) && Solid(t) && NotIn(t, y)
    ensures NotIn(t, s)
  {
    forall p: nat ensures !OccursAt(s, t, p) {
      if OccursAt(s, t, p) {
        var q := SolidOccurs(s, y[k..n], t, p);
        SliceOfSlice(y, k, n, q, q + |t|);
        assert OccursAt(y, t, k + q);
      }
    }
  }

  /** With the markers in their place, thinned text holds none of the tokens `us` that its source does not hold. */
  lemma PartIsFree(s: string, ts: seq<string>, ms: seq<string>, y: string, us: seq<string>) returns (gaps: seq<string>)
    requires |ts| == |ms| && CarriesPart(s, ts, ms, y) && AllTokens(us) && TokenFree(y, us)
    ensures |gaps| == |ts| + 1 && s == Interleave(gaps, ts) && TokenFree(Interleave(gaps, ms), us)
    ensures CarriesPart(Interleave(gaps, ms), [], [], y)
  {
    var k: nat, n: nat :| IsPart(s, ts, ms, y, k, n);
    gaps := CarriesGaps(s, ts, ms, y[k..n]);
    var x := Interleave(gaps, ms);
    assert IsPart(x, [], [], y, k, n);
    forall i | 0 <= i < |us| ensures NotIn(us[i], x) { SolidInPart(x, y, k, n, us[i]); }
  }
}
