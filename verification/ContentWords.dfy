/**
  Cleaned text by its words and lines (luatvietnam_crawler/parser.py): which words, lines and separators of a page are
  in the text that is kept.
 */
module ContentWords {
  import opened Prelude
  import opened Text
  import opened ContentTracing
  import opened ContentCleaning

  // -- words ------------------------------------------------------------------------------

  ghost predicate AreWords(ws: seq<string>) { forall i | 0 <= i < |ws| :: ws[i] != "" && Solid(ws[i]) }

  /** White space around the words, and at least some between any two. */
  ghost predicate AreSpaces(gaps: seq<string>) {
    && (forall i | 0 <= i < |gaps| :: !HasText(gaps[i]))
    && forall i | 0 < i < |gaps| - 1 :: gaps[i] != ""
  }

  /** The words with the gaps around them. */
  function Spread(gaps: seq<string>, ws: seq<string>): string
    requires |gaps| == |ws| + 1
  {
    if ws == [] then gaps[0] else gaps[0] + ws[0] + Spread(gaps[1..], ws[1..])
  }

  /** `ws` are the words of `s`. */
  ghost predicate HasWords(s: string, ws: seq<string>) {
    exists gaps :: |gaps| == |ws| + 1 && s == Spread(gaps, ws) && AreWords(ws) && AreSpaces(gaps)
  }

  lemma {:induction false} WordsExist(s: string) returns (gaps: seq<string>, ws: seq<string>)
    ensures |gaps| == |ws| + 1 && s == Spread(gaps, ws) && AreWords(ws) && AreSpaces(gaps)
  {
    if s == "" {
      gaps, ws := [""], [];
    } else {
      var g, w := WordsExist(s[1..]);
      assert s == [s[0]] + s[1..];
      if IsSpace(s[0]) {
        gaps, ws := g[0 := [s[0]] + g[0]], w;
        assert gaps[1..] == g[1..];
        assert forall i | 0 < i < |gaps[0]| :: gaps[0][i] == g[0][i - 1];
      } else if g[0] == "" && w != [] {
        gaps, ws := g, w[0 := [s[0]] + w[0]];
        assert ws[1..] == w[1..];
        assert g[0] + ws[0] == [s[0]] + (g[0] + w[0]);
      } else {
        gaps, ws := [""] + g, [[s[0]]] + w;
        assert gaps[1..] == g && ws[1..] == w;
      }
    }
  }

  lemma {:induction false} CollapseBlank(g: string, inRun: bool)
    requires !HasText(g)
    ensures Collapse(g, inRun) == if g == "" || inRun then "" else " "
  {
    if g != "" {
      assert IsSpace(g[0]);
      assert forall i | 0 <= i < |g[1..]| :: g[1..][i] == g[i + 1];
      CollapseBlank(g[1..], true);
    }
  }

  lemma PastWord(w: string, rest: string, inRun: bool)
    requires w != "" && Solid(w)
    ensures Collapse(w + rest, inRun) == w + Collapse(rest, false)
  {
    CollapseAppend(w, rest, inRun);
    CollapseSolid(w, inRun);
    assert !InRun(w, inRun);
  }

  lemma AfterWord(g: string, w: string, rest: string, inRun: bool)
    requires !HasText(g) && w != "" && Solid(w)
    ensures Collapse(g + w + rest, inRun) == (if g == "" || inRun then "" else " ") + w + Collapse(rest, false)
  {
    CollapseBlank(g, inRun);
    CollapseAppend(g, w + rest, inRun);
    PastWord(w, rest, InRun(g, inRun));
    assert g + w + rest == g + (w + rest);
    Associative(if g == "" || inRun then "" else " ", w, Collapse(rest, false));
  }

  function Tail(gap: string): string { if gap == "" then "" else " " }

  /** Collapsed text is its words with single spaces between them, and at an end that had any. */
  lemma {:induction false} CollapsedWords(gaps: seq<string>, ws: seq<string>)
    requires |gaps| == |ws| + 1 && ws != [] && AreWords(ws) && AreSpaces(gaps)
    ensures Collapse(Spread(gaps, ws)) == Tail(gaps[0]) + Join(ws, " ") + Tail(gaps[|gaps| - 1])
  {
    var g, w := gaps[1..], ws[1..];
    AfterWord(gaps[0], ws[0], Spread(g, w), false);
    assert forall i | 0 <= i < |g| :: g[i] == gaps[i + 1];
    if w == [] {
      CollapseBlank(g[0], false);
      assert Join(ws, " ") == ws[0];
    } else {
      CollapsedWords(g, w);
      assert Tail(g[0]) == " ";
      assert Join(ws, " ") == ws[0] + " " + Join(w, " ");
    }
  }

  lemma {:induction false} JoinEnds(ws: seq<string>)
    requires ws != [] && AreWords(ws)
    ensures var s := Join(ws, " "); s != "" && !IsSpace(s[0]) && !IsSpace(s[|s| - 1])
  {
    if |ws| > 1 { JoinEnds(ws[1..]); }
  }

  /** Cleaned text is the words with single spaces between them. */
  lemma CleanTextOf(s: string, ws: seq<string>)
    requires HasWords(s, ws)
    ensures CleanText(s) == Join(ws, " ")
  {
    var gaps :| |gaps| == |ws| + 1 && s == Spread(gaps, ws) && AreWords(ws) && AreSpaces(gaps);
    if ws == [] {
      CollapseBlank(s, false);
      assert Strip("") == "" && Strip(" ") == "";
    } else {
      CollapsedWords(gaps, ws);
      JoinEnds(ws);
      StripAround(Tail(gaps[0]), Join(ws, " "), Tail(gaps[|gaps| - 1]));
    }
  }

  lemma StripAround(lead: string, s: string, trail: string)
    requires (lead == "" || lead == " ") && (trail == "" || trail == " ")
    requires s != "" && !IsSpace(s[0]) && !IsSpace(s[|s| - 1])
    ensures Strip(lead + s + trail) == s
  {
    var all := lead + s + trail;
    assert lead == " " ==> all[1..] == s + trail;
    assert lead == "" ==> all == s + trail;
    assert DropLeft(s + trail, IsSpace) == s + trail;
    assert DropLeft(all, IsSpace) == s + trail;
    assert trail == " " ==> (s + trail)[..|s + trail| - 1] == s;
    assert trail == "" ==> s + trail == s;
    assert DropRight(s, IsSpace) == s;
  }

  /** Cleaning keeps all words of a text, in order, and no other white space than single spaces between them. */
  lemma CleanTextKeepsWords(s: string) returns (ws: seq<string>)
    ensures HasWords(s, ws) && CleanText(s) == Join(ws, " ")
  {
    var gaps;
    gaps, ws := WordsExist(s);
    CleanTextOf(s, ws);
  }

  // -- words of several texts ------------------------------------------------------------------

  /** The gaps of one text after another with `sep` between them. */
  function Merged(g: seq<string>, sep: string, h: seq<string>): seq<string>
    requires g != [] && h != []
  {
    g[..|g| - 1] + [g[|g| - 1] + sep + h[0]] + h[1..]
  }

  lemma {:induction false} SpreadJoin(g: seq<string>, w: seq<string>, sep: string, h: seq<string>, v: seq<string>)
    requires |g| == |w| + 1 && |h| == |v| + 1
    ensures Spread(Merged(g, sep, h), w + v) == Spread(g, w) + sep + Spread(h, v)
  {
    var gaps := Merged(g, sep, h);
    if w == [] {
      assert w + v == v && gaps == [g[0] + sep + h[0]] + h[1..] && gaps[1..] == h[1..];
    } else {
      SpreadJoin(g[1..], w[1..], sep, h, v);
      assert (w + v)[1..] == w[1..] + v;
      assert gaps[1..] == Merged(g[1..], sep, h);
    }
  }

  lemma BlankJoin(a: string, b: string)
    ensures !HasText(a + b) <==> !HasText(a) && !HasText(b)
  {
    if i :| 0 <= i < |a| && !IsSpace(a[i]) { assert (a + b)[i] == a[i]; }
    if i :| 0 <= i < |b| && !IsSpace(b[i]) { assert (a + b)[|a| + i] == b[i]; }
  }

  lemma MergedSpaces(g: seq<string>, sep: string, h: seq<string>)
    requires g != [] && h != [] && AreSpaces(g) && AreSpaces(h) && !HasText(sep)
    requires sep != "" || |g| == 1 || |h| == 1
    ensures AreSpaces(Merged(g, sep, h))
  {
    var gaps, n := Merged(g, sep, h), |g| - 1;
    BlankJoin(g[n], sep);
    BlankJoin(g[n] + sep, h[0]);
    forall i | 0 <= i < |gaps| ensures !HasText(gaps[i]) && (0 < i < |gaps| - 1 ==> gaps[i] != "") {
      if i < n {
        assert gaps[i] == g[i];
      } else if i > n {
        assert gaps[i] == h[i - n];
      }
    }
  }

  /** Texts with white space between them have the words of both. */
  lemma WordsJoin(s: string, a: seq<string>, sep: string, t: string, b: seq<string>)
    requires HasWords(s, a) && HasWords(t, b) && !HasText(sep) && (sep != "" || a == [] || b == [])
    ensures HasWords(s + sep + t, a + b)
  {
    var g :| |g| == |a| + 1 && s == Spread(g, a) && AreWords(a) && AreSpaces(g);
    var h :| |h| == |b| + 1 && t == Spread(h, b) && AreWords(b) && AreSpaces(h);
    SpreadJoin(g, a, sep, h, b);
    MergedSpaces(g, sep, h);
    AllWords(a, b);
    var gaps := Merged(g, sep, h);
    assert |gaps| == |a + b| + 1;
  }

  lemma AllWords(a: seq<string>, b: seq<string>)
    requires AreWords(a) && AreWords(b)
    ensures AreWords(a + b)
  {}

  lemma BlankHasNoWords(s: string)
    requires !HasText(s)
    ensures HasWords(s, [])
  {
    assert s == Spread([s], []) && AreSpaces([s]);
  }

  lemma NothingBetween(s: string, t: string)
    ensures s + "" + t == s + t && "" + t == t
  {}

  lemma BlankBefore(before: string, s: string, ws: seq<string>)
    requires HasWords(s, ws) && !HasText(before)
    ensures HasWords(before + s, ws)
  {
    BlankHasNoWords(before);
    WordsJoin(before, [], "", s, ws);
    NothingBetween(before, s);
    assert [] + ws == ws;
  }

  lemma BlankAfter(s: string, after: string, ws: seq<string>)
    requires HasWords(s, ws) && !HasText(after)
    ensures HasWords(s + after, ws)
  {
    BlankHasNoWords(after);
    WordsJoin(s, ws, "", after, []);
    NothingBetween(s, after);
    assert ws + [] == ws;
  }

  /** Stripping keeps the words. */
  lemma StrippedWords(s: string) returns (ws: seq<string>)
    ensures HasWords(Strip(s), ws) && HasWords(s, ws) && (Strip(s) == "" <==> ws == [])
  {
    var gaps;
    gaps, ws := WordsExist(Strip(s));
    assert HasWords(Strip(s), ws);
    StripIs(s);
    var before, after :| s == before + Strip(s) + after && !HasText(before) && !HasText(after);
    BlankBefore(before, Strip(s), ws);
    BlankAfter(before + Strip(s), after, ws);
    NoWords(Strip(s), gaps, ws);
  }

  lemma NoWords(s: string, gaps: seq<string>, ws: seq<string>)
    requires |gaps| == |ws| + 1 && s == Spread(gaps, ws) && AreWords(ws) && AreSpaces(gaps)
    requires s == "" || !IsSpace(s[0])
    ensures s == "" <==> ws == []
  {
    if ws == [] {
      assert s == gaps[0];
    } else {
      assert ws[0] != "";
    }
  }

  // -- lines --------------------------------------------------------------------------------------

  /** The separators of `str.splitlines`. */
  const Breaks: set<string> := {
    "\r\n", "\n", "\r", "\U{000B}", "\U{000C}", "\U{001C}", "\U{001D}", "\U{001E}", "\U{0085}", "\U{2028}",
    "\U{2029}"}

  ghost predicate Unbroken(line: string) { forall i | 0 <= i < |line| :: [line[i]] !in Breaks }

  /** The lines with the separators that ended them; only the last line can do without. */
  ghost predicate Splits(s: string, ls: seq<string>, breaks: seq<string>)
    requires |ls| == |breaks|
  {
    if ls == [] then s == ""
    else
      var chunk := ls[0] + breaks[0];
      && Unbroken(ls[0]) && chunk <= s && Splits(s[|chunk|..], ls[1..], breaks[1..])
      && if breaks[0] == "" then ls[0] != "" && |ls| == 1
         else breaks[0] in Breaks && (breaks[0] == "\r" ==> !("\n" <= s[|chunk|..]))
  }

  lemma BreakIs(c: char)
    ensures IsBreak(c) <==> [c] in Breaks
  {
    assert [c] in Breaks ==> |[c]| == 1 && (exists b | b in Breaks :: b == [c] && b[0] == c);
  }

  lemma UnbrokenMore(line: string, c: char)
    requires Unbroken(line) && !IsBreak(c)
    ensures Unbroken(line + [c])
  {
    BreakIs(c);
  }

  lemma {:induction false} LinesSplit(s: string, line: string) returns (breaks: seq<string>)
    requires Unbroken(line)
    ensures |breaks| == |Lines(s, line)| && Splits(line + s, Lines(s, line), breaks)
    decreases |s|
  {
    if s == "" {
      breaks := if line == "" then [] else [""];
      assert line + "" == line && line[|line|..] == "";
    } else if IsBreak(s[0]) {
      var rest := s[BreakWidth(s)..];
      breaks := LinesSplit(rest, "");
      BreakIs(s[0]);
      BreakAt(s);
      NothingBetween("", rest);
      ChunkSplits(line, s[..BreakWidth(s)], rest, Lines(rest, ""), breaks);
      Rejoins(line, s, BreakWidth(s));
      breaks := [s[..BreakWidth(s)]] + breaks;
    } else {
      UnbrokenMore(line, s[0]);
      breaks := LinesSplit(s[1..], line + [s[0]]);
      assert line + [s[0]] + s[1..] == line + s;
    }
  }

  lemma BreakAt(s: string)
    requires s != "" && [s[0]] in Breaks
    ensures var w := BreakWidth(s);
      s[..w] in Breaks && s[..w] != "" && (s[..w] == "\r" ==> !("\n" <= s[w..]))
  {
    var w := BreakWidth(s);
    assert w == 2 ==> s[..w] == "\r\n";
    assert w == 1 ==> s[..w] == [s[0]];
    assert w == 1 && s[1..] != "" ==> s[1..][0] == s[1];
  }

  lemma Rejoins(line: string, s: string, n: nat)
    requires n <= |s|
    ensures line + s[..n] + s[n..] == line + s
  {}

  lemma ChunkSplits(line: string, end: string, rest: string, ls: seq<string>, breaks: seq<string>)
    requires |ls| == |breaks| && Unbroken(line) && Splits(rest, ls, breaks)
    requires end in Breaks && end != "" && (end == "\r" ==> !("\n" <= rest))
    ensures Splits(line + end + rest, [line] + ls, [end] + breaks)
  {
    assert (line + end + rest)[|line + end|..] == rest;
    assert ([line] + ls)[1..] == ls && ([end] + breaks)[1..] == breaks;
  }

  /** A cleaned line that is kept. */
  ghost predicate IsKept(line: string) { line != "" && line != "Đang theo dõi" && line != "Theo dõi văn bản" }

  ghost predicate KeepsLines(ls: seq<string>, positions: seq<nat>, kept: seq<string>) {
    && |kept| == |positions| && Climbs(positions, |ls|)
    && (forall k | 0 <= k < |positions| :: kept[k] == CleanText(ls[positions[k]]))
    && forall i | 0 <= i < |ls| :: i in positions <==> IsKept(CleanText(ls[i]))
  }

  function KeptLine(line: string): seq<string> { if Kept(CleanText(line)) then [CleanText(line)] else [] }

  lemma {:induction false} KeptSnoc(ls: seq<string>, last: string)
    ensures KeptLines(ls + [last]) == KeptLines(ls) + KeptLine(last)
  {
    if ls == [] {
      assert ([] + [last])[1..] == [] && ([] + [last])[0] == last;
    } else {
      KeptSnoc(ls[1..], last);
      assert (ls + [last])[1..] == ls[1..] + [last];
    }
  }

  lemma {:induction false} KeptLinesAre(ls: seq<string>) returns (positions: seq<nat>)
    ensures KeepsLines(ls, positions, KeptLines(ls))
  {
    positions := [];
    if ls != [] {
      var init, last := ls[..|ls| - 1], ls[|ls| - 1];
      positions := KeptLinesAre(init);
      assert ls == init + [last];
      KeptSnoc(init, last);
      KeepsMore(init, positions, KeptLines(init), last);
      if Kept(CleanText(last)) { positions := positions + [|init|]; }
    }
  }

  lemma KeepsMore(ls: seq<string>, positions: seq<nat>, kept: seq<string>, last: string)
    requires KeepsLines(ls, positions, kept)
    ensures if IsKept(CleanText(last)) then KeepsLines(ls + [last], positions + [|ls|], kept + [CleanText(last)])
            else KeepsLines(ls + [last], positions, kept)
  {
    assert |ls| !in positions;
    assert forall i | 0 <= i < |ls| :: (ls + [last])[i] == ls[i];
  }

  /** Cleaned content is the lines of the text, cleaned, without blank and noise lines, one below the other. */
  lemma CleanMultilineIs(s: string)
    returns (ls: seq<string>, breaks: seq<string>, positions: seq<nat>, kept: seq<string>)
    ensures |ls| == |breaks| && Splits(s, ls, breaks) && KeepsLines(ls, positions, kept)
    ensures CleanMultiline(s) == Join(kept, "\n")
  {
    ls, kept := Lines(s), KeptLines(Lines(s));
    breaks := LinesSplit(s, "");
    assert "" + s == s;
    positions := KeptLinesAre(ls);
  }
}
