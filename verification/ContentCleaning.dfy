/** Cleaning the lines of rendered content (luatvietnam_crawler/parser.py) keeps every reference token in order. */
module ContentCleaning {
  import opened Text
  import opened ReferenceTokens
  import opened ContentTracing

  // -- the operations -----------------------------------------------------------------

  /** The characters `str.splitlines` breaks at. */
  predicate IsBreak(c: char) {
    || c == '\n' || c == '\r' || c == '\U{000B}' || c == '\U{000C}'
    || '\U{001C}' <= c <= '\U{001E}'
    || c == '\U{0085}' || c == '\U{2028}' || c == '\U{2029}'
  }

  /** `splitlines`, with the characters of the current line so far. */
  function Lines(s: string, line: string := ""): seq<string> {
    if s == "" then (if line == "" then [] else [line])
    else if IsBreak(s[0]) then [line] + Lines(s[BreakWidth(s)..], "")
    else Lines(s[1..], line + [s[0]])
  }

  /** A carriage return and a line feed are one break. */
  function BreakWidth(s: string): (n: nat)
    requires s != ""
    ensures 1 <= n <= |s| && n <= 2
  {
    if s[0] == '\r' && |s| > 1 && s[1] == '\n' then 2 else 1
  }

  const NoiseLines := {"Đang theo dõi", "Theo dõi văn bản"}

  function CleanText(line: string): string { Strip(Collapse(line)) }

  predicate Kept(line: string) { line != "" && line !in NoiseLines }

  function KeptLines(lines: seq<string>): seq<string> {
    if lines == [] then []
    else
      var line := CleanText(lines[0]);
      (if Kept(line) then [line] else []) + KeptLines(lines[1..])
  }

  function JoinLines(lines: seq<string>): string { Join(lines, "\n") }

  function CleanMultiline(s: string): string { JoinLines(KeptLines(Lines(s))) }

  // -- collapsing ---------------------------------------------------------------------

  /** Whether a run of white space is open after `s`. */
  function InRun(s: string, inRun: bool): bool {
    if s == "" then inRun else IsSpace(s[|s| - 1])
  }

  lemma {:induction false} CollapseAppend(a: string, b: string, inRun: bool)
    ensures Collapse(a + b, inRun) == Collapse(a, inRun) + Collapse(b, InRun(a, inRun))
  {
    if a == "" {
      assert a + b == b;
    } else {
      var space, h := IsSpace(a[0]), Head(a[0], inRun);
      CollapseAppend(a[1..], b, space);
      CollapseStep(a, inRun);
      CollapseStep(a + b, inRun);
      InRunStep(a, inRun);
      assert (a + b)[1..] == a[1..] + b;
      Associative(h, Collapse(a[1..], space), Collapse(b, InRun(a, inRun)));
    }
  }

  lemma InRunStep(a: string, inRun: bool)
    requires a != ""
    ensures InRun(a[1..], IsSpace(a[0])) == InRun(a, inRun)
  {}

  lemma Associative(a: string, b: string, c: string)
    ensures a + (b + c) == a + b + c
  {}

  /** What one character contributes to collapsed text. */
  function Head(c: char, inRun: bool): string {
    if !IsSpace(c) then [c] else if inRun then "" else " "
  }

  lemma CollapseStep(s: string, inRun: bool)
    requires s != ""
    ensures Collapse(s, inRun) == Head(s[0], inRun) + Collapse(s[1..], IsSpace(s[0]))
  {}

  lemma {:induction false} CollapseSolid(t: string, inRun: bool)
    requires Solid(t)
    ensures Collapse(t, inRun) == t
  {
    if t != "" {
      CollapseSolid(t[1..], false);
      assert t == [t[0]] + t[1..];
    }
  }

  /** Collapsed text is thinned text; inside a run it may begin later in its source. */
  lemma {:induction false} CollapseThins(s: string, inRun: bool) returns (k: nat)
    ensures k <= |s| && Thins(Collapse(s, inRun), s[k..]) && (!inRun ==> k == 0)
  {
    if s == "" {
      k := 0;
      ThinsSame("");
    } else {
      var next := CollapseThins(s[1..], IsSpace(s[0]));
      CollapseStep(s, inRun);
      assert s[1..][next..] == s[next + 1..];
      k := if IsSpace(s[0]) && inRun then next + 1 else 0;
      HeadThins(s, inRun, next + 1, k);
      ThinsJoin(Head(s[0], inRun), s[k..next + 1], Collapse(s[1..], IsSpace(s[0])), s[next + 1..]);
      assert s[k..next + 1] + s[next + 1..] == s[k..];
    }
  }

  lemma HeadThins(s: string, inRun: bool, n: nat, k: nat)
    requires 1 <= n <= |s| && (!IsSpace(s[0]) ==> n == 1) && k == if IsSpace(s[0]) && inRun then n else 0
    ensures Thins(Head(s[0], inRun), s[k..n])
  {
    if !IsSpace(s[0]) {
      ThinsSame([s[0]]);
      assert s[0..1] == [s[0]];
    } else if !inRun {
      SpaceThins(' ', s[0..n]);
    } else {
      assert s[k..n] == "";
    }
  }

  lemma CollapsedGap(g: string, y: string)
    requires Thins(g, y)
    ensures Thins(Collapse(g), y)
  {
    var k := CollapseThins(g, false);
    assert g[0..] == g;
    ThinsTransitive(Collapse(g), g, y);
  }

  lemma {:induction false} CollapseCarries(s: string, ts: seq<string>, ms: seq<string>, y: string)
    requires |ts| == |ms| && Carries(s, ts, ms, y) && AllTokens(ts)
    ensures Carries(Collapse(s), ts, ms, y)
    decreases |ts|
  {
    if ts == [] {
      CollapsedGap(s, y);
    } else {
      var p := SplitFirst(s, ts, ms, y);
      var t := ts[0];
      CollapsedGap(p.gap, p.source);
      CollapseCarries(p.rest, ts[1..], ms[1..], p.tail);
      CollapseAppend(p.gap + t, p.rest, false);
      CollapseAppend(p.gap, t, false);
      CollapseSolid(t, InRun(p.gap, false));
      SplitCarries(Split(Collapse(p.gap), Collapse(p.rest), p.source, p.tail), Collapse(s), ts, ms, y);
    }
  }

  // -- stripping ----------------------------------------------------------------------

  lemma {:induction false} DropLeftIsTail(s: string) returns (k: nat)
    ensures k <= |s| && DropLeft(s, IsSpace) == s[k..] && (s != "" && !IsSpace(s[0]) ==> k == 0)
  {
    if s != "" && IsSpace(s[0]) {
      var next := DropLeftIsTail(s[1..]);
      k := next + 1;
      assert s[1..][next..] == s[k..];
    } else {
      k := 0;
    }
  }

  lemma {:induction false} DropLeftAppend(g: string, s: string)
    requires s != "" && !IsSpace(s[0])
    ensures DropLeft(g + s, IsSpace) == DropLeft(g, IsSpace) + s
  {
    if g == "" {
      assert g + s == s;
    } else {
      assert (g + s)[1..] == g[1..] + s;
      if IsSpace(g[0]) { DropLeftAppend(g[1..], s); }
    }
  }

  lemma {:induction false} DropRightAppend(s: string, g: string)
    requires s != "" && !IsSpace(s[|s| - 1])
    ensures DropRight(s + g, IsSpace) == s + DropRight(g, IsSpace)
  {
    if g == "" {
      assert s + g == s;
    } else {
      assert (s + g)[..|s + g| - 1] == s + g[..|g| - 1];
      if IsSpace(g[|g| - 1]) { DropRightAppend(s, g[..|g| - 1]); }
    }
  }

  lemma DropLeftGap(s: string, y: string) returns (k: nat)
    requires Thins(s, y)
    ensures k <= |y| && Thins(DropLeft(s, IsSpace), y[k..]) && (s != "" && !IsSpace(s[0]) ==> k == 0)
  {
    var n := DropLeftIsTail(s);
    k := ThinsTail(s, y, n);
  }

  lemma DropRightGap(s: string, y: string) returns (k: nat)
    requires Thins(s, y)
    ensures k <= |y| && Thins(DropRight(s, IsSpace), y[..k]) && (s != "" && !IsSpace(s[|s| - 1]) ==> k == |y|)
  {
    DropRightKeepsHead(s, IsSpace);
    k := ThinsTail(s, y, |DropRight(s, IsSpace)|);
  }

  lemma DropLeftBefore(g: string, t: string, rest: string)
    requires t != "" && !IsSpace(t[0])
    ensures DropLeft(g + t + rest, IsSpace) == DropLeft(g, IsSpace) + t + rest
  {
    DropLeftAppend(g, t + rest);
    Associative(g, t, rest);
    Associative(DropLeft(g, IsSpace), t, rest);
  }

  lemma DropLeftCarries(s: string, ts: seq<string>, ms: seq<string>, y: string) returns (k: nat)
    requires |ts| == |ms| && Carries(s, ts, ms, y) && AllTokens(ts)
    ensures k <= |y| && Carries(DropLeft(s, IsSpace), ts, ms, y[k..])
  {
    if ts == [] {
      k := DropLeftGap(s, y);
    } else {
      var p := SplitFirst(s, ts, ms, y);
      k := DropLeftGap(p.gap, p.source);
      DropLeftBefore(p.gap, ts[0], p.rest);
      assert y[k..] == p.source[k..] + ms[0] + p.tail;
      SplitCarries(
        Split(DropLeft(p.gap, IsSpace), p.rest, p.source[k..], p.tail), DropLeft(s, IsSpace), ts, ms, y[k..]);
    }
  }

  lemma {:induction false} DropRightCarries(s: string, ts: seq<string>, ms: seq<string>, y: string) returns (k: nat)
    requires |ts| == |ms| && Carries(s, ts, ms, y) && AllTokens(ts)
    ensures k <= |y| && Carries(DropRight(s, IsSpace), ts, ms, y[..k])
    decreases |ts|
  {
    if ts == [] {
      k := DropRightGap(s, y);
    } else {
      var p := SplitFirst(s, ts, ms, y);
      var next := DropRightCarries(p.rest, ts[1..], ms[1..], p.tail);
      k := |p.source| + |ms[0]| + next;
      DropRightAppend(p.gap + ts[0], p.rest);
      assert y[..k] == p.source + ms[0] + p.tail[..next];
      SplitCarries(
        Split(p.gap, DropRight(p.rest, IsSpace), p.source, p.tail[..next]), DropRight(s, IsSpace), ts, ms, y[..k]);
    }
  }

  lemma CleanTextCarries(s: string, ts: seq<string>, ms: seq<string>, y: string)
    requires |ts| == |ms| && Carries(s, ts, ms, y) && AllTokens(ts)
    ensures CarriesPart(CleanText(s), ts, ms, y)
  {
    CollapseCarries(s, ts, ms, y);
    var k := DropLeftCarries(Collapse(s), ts, ms, y);
    var n := DropRightCarries(DropLeft(Collapse(s), IsSpace), ts, ms, y[k..]);
    assert y[k..][..n] == y[k..k + n];
    assert IsPart(CleanText(s), ts, ms, y, k, k + n);
  }

  // -- lines --------------------------------------------------------------------------

  lemma PartHasL(s: string, ts: seq<string>, ms: seq<string>, y: string)
    requires |ts| == |ms| > 0 && CarriesPart(s, ts, ms, y) && AllTokens(ts)
    ensures 'L' in s
  {
    var k: nat, n: nat :| IsPart(s, ts, ms, y, k, n);
    var p := SplitFirst(s, ts, ms, y[k..n]);
    assert s[|p.gap|] == ts[0][0];
  }

  lemma TokenLinesAreKept(line: string)
    requires 'L' in line
    ensures Kept(line)
  {
    assert forall i | 0 <= i < 13 :: "Đang theo dõi"[i] != 'L';
    assert forall i | 0 <= i < 16 :: "Theo dõi văn bản"[i] != 'L';
  }

  /** One more line before lines whose kept text is known. */
  lemma KeptLinesCarry(
      line: string, ts: seq<string>, ms: seq<string>, y: string,
      lines: seq<string>, us: seq<string>, ns: seq<string>, z: string)
    requires |ts| == |ms| && |us| == |ns| && AllTokens(ts) && AllTokens(us)
    requires Carries(line, ts, ms, y) && CarriesPart(JoinLines(KeptLines(lines)), us, ns, z)
    ensures CarriesPart(JoinLines(KeptLines([line] + lines)), ts + us, ms + ns, y + z)
  {
    var clean, rest := CleanText(line), KeptLines(lines);
    CleanTextCarries(line, ts, ms, y);
    assert ([line] + lines)[1..] == lines;
    if Kept(clean) {
      assert KeptLines([line] + lines) == [clean] + rest;
      JoinCarries(clean, ts, ms, y, rest, us, ns, z);
    } else {
      if ts != [] {
        PartHasL(clean, ts, ms, y);
        TokenLinesAreKept(clean);
      }
      assert ts + us == us && ms + ns == ns && KeptLines([line] + lines) == rest;
      PartOfMore(y, JoinLines(rest), us, ns, z);
    }
  }

  lemma JoinCarries(
      line: string, ts: seq<string>, ms: seq<string>, y: string,
      rest: seq<string>, us: seq<string>, ns: seq<string>, z: string)
    requires |ts| == |ms| && |us| == |ns| && AllTokens(us)
    requires CarriesPart(line, ts, ms, y) && CarriesPart(JoinLines(rest), us, ns, z)
    ensures CarriesPart(JoinLines([line] + rest), ts + us, ms + ns, y + z)
  {
    assert ([line] + rest)[1..] == rest;
    if rest == [] {
      if us != [] { PartHasL("", us, ns, z); }
      assert ts + us == ts && ms + ns == ms;
      PartOfLess(z, line, ts, ms, y);
    } else {
      PartsJoin(line, ts, ms, y, '\n', JoinLines(rest), us, ns, z);
    }
  }

  lemma {:induction false} LinesOfSolid(t: string, rest: string, line: string)
    requires forall i | 0 <= i < |t| :: !IsBreak(t[i])
    ensures Lines(t + rest, line) == Lines(rest, line + t)
  {
    if t == "" {
      assert t + rest == rest && line + t == line;
    } else {
      assert (t + rest)[0] == t[0] && (t + rest)[1..] == t[1..] + rest;
      LinesOfSolid(t[1..], rest, line + [t[0]]);
      assert line + [t[0]] + t[1..] == line + t;
    }
  }

  /** No token stands at the front. */
  ghost predicate BeginsInGap(s: string, ts: seq<string>, ms: seq<string>, y: string)
    requires |ts| == |ms|
  {
    s != "" && if ts == [] then Thins(s, y) else exists p :: Splits(p, s, ts, ms, y) && p.gap != ""
  }

  lemma DropFront(a: string, b: string, c: string, k: nat)
    requires k <= |a|
    ensures (a + b + c)[k..] == a[k..] + b + c && (a + b + c)[..k] == a[..k]
  {}

  /** What the first character, which is not part of a token, stands for. */
  lemma PeelGap(s: string, ts: seq<string>, ms: seq<string>, y: string) returns (k: nat)
    requires |ts| == |ms| && BeginsInGap(s, ts, ms, y)
    ensures k <= |y| && Thins([s[0]], y[..k]) && Carries(s[1..], ts, ms, y[k..])
  {
    if ts == [] {
      k := PeelThin(s, y);
    } else {
      var p :| Splits(p, s, ts, ms, y) && p.gap != "";
      k := PeelThin(p.gap, p.source);
      DropFront(p.gap, ts[0], p.rest, 1);
      DropFront(p.source, ms[0], p.tail, k);
      assert s[0] == p.gap[0];
      SplitCarries(Split(p.gap[1..], p.rest, p.source[k..], p.tail), s[1..], ts, ms, y[k..]);
    }
  }

  /** A space is not part of a token. */
  lemma SpaceBeginsInGap(s: string, ts: seq<string>, ms: seq<string>, y: string)
    requires |ts| == |ms| && AllTokens(ts) && Carries(s, ts, ms, y) && s != "" && IsSpace(s[0])
    ensures BeginsInGap(s, ts, ms, y)
  {
    if ts != [] {
      var p := SplitFirst(s, ts, ms, y);
      assert s[|p.gap|] == ts[0][0];
    }
  }

  /** A line break stands for some part of the source. */
  lemma PeelBreak(s: string, ts: seq<string>, ms: seq<string>, y: string) returns (k: nat)
    requires |ts| == |ms| && AllTokens(ts) && BeginsInGap(s, ts, ms, y) && IsBreak(s[0])
    ensures k <= |y| && Carries(s[BreakWidth(s)..], ts, ms, y[k..])
  {
    k := PeelGap(s, ts, ms, y);
    if BreakWidth(s) == 2 {
      SpaceBeginsInGap(s[1..], ts, ms, y[k..]);
      var n := PeelGap(s[1..], ts, ms, y[k..]);
      assert s[1..][1..] == s[2..] && y[k..][n..] == y[k + n..];
      k := k + n;
    }
  }

  /** The line so far carries `ts`, and the rest of the text carries `us`. */
  lemma {:induction false} LinesCarry(
      line: string, ts: seq<string>, ms: seq<string>, y: string, s: string, us: seq<string>, ns: seq<string>, z: string)
    requires |ts| == |ms| && |us| == |ns| && AllTokens(ts) && AllTokens(us)
    requires Carries(line, ts, ms, y) && Carries(s, us, ns, z)
    ensures CarriesPart(JoinLines(KeptLines(Lines(s, line))), ts + us, ms + ns, y + z)
    decreases |s|, 2
  {
    if s == "" {
      LastLineCarries(line, ts, ms, y, us, ns, z);
    } else if us == [] {
      CharCarries(line, ts, ms, y, s, us, ns, z);
    } else {
      var p := SplitFirst(s, us, ns, z);
      if p.gap == "" {
        TokenCarries(line, ts, ms, y, s, us, ns, z, p);
      } else {
        CharCarries(line, ts, ms, y, s, us, ns, z);
      }
    }
  }

  /** A token at the front of the text joins the line. */
  lemma {:induction false} TokenCarries(
      line: string, ts: seq<string>, ms: seq<string>, y: string,
      s: string, us: seq<string>, ns: seq<string>, z: string, p: Split)
    requires |ts| == |ms| && |us| == |ns| > 0 && AllTokens(ts) && AllTokens(us)
    requires Carries(line, ts, ms, y) && Splits(p, s, us, ns, z) && p.gap == ""
    ensures CarriesPart(JoinLines(KeptLines(Lines(s, line))), ts + us, ms + ns, y + z)
    decreases |s|, 0
  {
    var t, m := us[0], ns[0];
    assert s == t + p.rest;
    LinesOfSolid(t, p.rest, line);
    CarriesToken(t, m);
    CarriesJoin(line, ts, ms, y, t, [t], [m], m);
    LinesCarry(line + t, ts + [t], ms + [m], y + m, p.rest, us[1..], ns[1..], p.tail);
    assert ts + [t] + us[1..] == ts + us && ms + [m] + ns[1..] == ms + ns && y + m + p.tail == y + z;
  }

  lemma LastLineCarries(
      line: string, ts: seq<string>, ms: seq<string>, y: string, us: seq<string>, ns: seq<string>, z: string)
    requires |ts| == |ms| && |us| == |ns| && AllTokens(ts) && AllTokens(us)
    requires Carries(line, ts, ms, y) && Carries("", us, ns, z)
    ensures CarriesPart(JoinLines(KeptLines(Lines("", line))), ts + us, ms + ns, y + z)
  {
    WholeIsPart("", us, ns, z);
    if us != [] { PartHasL("", us, ns, z); }
    if line == "" {
      WholeIsPart("", ts, ms, y);
      if ts != [] { PartHasL("", ts, ms, y); }
      PartOfMore(y, "", us, ns, z);
    } else {
      KeptLinesCarry(line, ts, ms, y, [], us, ns, z);
      assert [line] + [] == [line];
    }
  }

  /** One character, or one line break, that is not part of a token. */
  lemma {:induction false} CharCarries(
      line: string, ts: seq<string>, ms: seq<string>, y: string, s: string, us: seq<string>, ns: seq<string>, z: string)
    requires |ts| == |ms| && |us| == |ns| && AllTokens(ts) && AllTokens(us)
    requires Carries(line, ts, ms, y) && BeginsInGap(s, us, ns, z)
    ensures CarriesPart(JoinLines(KeptLines(Lines(s, line))), ts + us, ms + ns, y + z)
    decreases |s|, 1
  {
    if IsBreak(s[0]) {
      var k := PeelBreak(s, us, ns, z);
      FreshLineCarries(s[BreakWidth(s)..], us, ns, z[k..]);
      BreakCarries(line, ts, ms, y, Lines(s[BreakWidth(s)..], ""), us, ns, z, k);
    } else {
      CharJoinsLine(line, ts, ms, y, s, us, ns, z);
    }
  }

  lemma {:induction false} CharJoinsLine(
      line: string, ts: seq<string>, ms: seq<string>, y: string, s: string, us: seq<string>, ns: seq<string>, z: string)
    requires |ts| == |ms| && |us| == |ns| && AllTokens(ts) && AllTokens(us)
    requires Carries(line, ts, ms, y) && BeginsInGap(s, us, ns, z) && !IsBreak(s[0])
    ensures CarriesPart(JoinLines(KeptLines(Lines(s, line))), ts + us, ms + ns, y + z)
    decreases |s|, 0
  {
    var k := PeelGap(s, us, ns, z);
    LineGrows(line, ts, ms, y, s[0], z[..k]);
    LinesCarry(line + [s[0]], ts, ms, y + z[..k], s[1..], us, ns, z[k..]);
    assert z[..k] + z[k..] == z;
    Associative(y, z[..k], z[k..]);
  }

  lemma {:induction false} FreshLineCarries(s: string, us: seq<string>, ns: seq<string>, z: string)
    requires |us| == |ns| && AllTokens(us) && Carries(s, us, ns, z)
    ensures CarriesPart(CleanMultiline(s), us, ns, z)
    decreases |s|, 3
  {
    CarriesNothing("", "");
    LinesCarry("", [], [], "", s, us, ns, z);
    assert [] + us == us && [] + ns == ns && "" + z == z;
  }

  lemma BreakCarries(
      line: string, ts: seq<string>, ms: seq<string>, y: string,
      lines: seq<string>, us: seq<string>, ns: seq<string>, z: string, k: nat)
    requires |ts| == |ms| && |us| == |ns| && AllTokens(ts) && AllTokens(us) && k <= |z|
    requires Carries(line, ts, ms, y) && CarriesPart(JoinLines(KeptLines(lines)), us, ns, z[k..])
    ensures CarriesPart(JoinLines(KeptLines([line] + lines)), ts + us, ms + ns, y + z)
  {
    assert z == z[..k] + z[k..];
    PartOfMore(z[..k], JoinLines(KeptLines(lines)), us, ns, z[k..]);
    KeptLinesCarry(line, ts, ms, y, lines, us, ns, z);
  }

  lemma LineGrows(line: string, ts: seq<string>, ms: seq<string>, y: string, c: char, z: string)
    requires |ts| == |ms| && Carries(line, ts, ms, y) && Thins([c], z)
    ensures Carries(line + [c], ts, ms, y + z)
  {
    CarriesNothing([c], z);
    CarriesJoin(line, ts, ms, y, [c], [], [], z);
    assert ts + [] == ts && ms + [] == ms;
  }

  /** Cleaning keeps the tokens and their order, and thins the text between them. */
  lemma CleaningCarries(s: string, ts: seq<string>, ms: seq<string>, y: string)
    requires |ts| == |ms| && Carries(s, ts, ms, y) && AllTokens(ts)
    ensures CarriesPart(CleanMultiline(s), ts, ms, y)
  {
    FreshLineCarries(s, ts, ms, y);
  }
}
