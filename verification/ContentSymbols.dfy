/**
  Text with references in it, whatever strings stand for them (luatvietnam_crawler/parser.py): rendering and cleaning
  treat a token as they treat the marker that replaces it.
 */
module ContentSymbols {
  import opened Text
  import opened ContentCleaning
  import opened ContentRendering

  datatype Sym = Ch(c: char) | Ref(k: nat)

  function One(a: Sym, xs: seq<string>): string {
    match a
    case Ch(c) => [c]
    case Ref(k) => if k < |xs| then xs[k] else ""
  }

  /** The text with these strings for the references. */
  function Expand(y: seq<Sym>, xs: seq<string>): string {
    if y == [] then "" else One(y[0], xs) + Expand(y[1..], xs)
  }

  function Chars(s: string): (y: seq<Sym>)
    ensures |y| == |s|
  {
    seq(|s|, i requires 0 <= i < |s| => Ch(s[i]))
  }

  function SymRefs(y: seq<Sym>): seq<nat> {
    if y == [] then [] else (if y[0].Ref? then [y[0].k] else []) + SymRefs(y[1..])
  }

  predicate InRange(y: seq<Sym>, n: nat) { forall i | 0 <= i < |y| && y[i].Ref? :: y[i].k < n }

  /** What cleaning passes over unchanged and never takes for noise. */
  predicate Fit(x: string) {
    && x != "" && Collapse(x) == x && !IsSpace(x[0]) && !IsSpace(x[|x| - 1])
    && (forall i | 0 <= i < |x| :: !IsBreak(x[i])) && (x[0] == 'L' || x[0] == '[')
  }

  ghost predicate AllFit(xs: seq<string>) { forall i | 0 <= i < |xs| :: Fit(xs[i]) }

  lemma {:induction false} ExpandJoin(a: seq<Sym>, b: seq<Sym>, xs: seq<string>)
    ensures Expand(a + b, xs) == Expand(a, xs) + Expand(b, xs)
    ensures SymRefs(a + b) == SymRefs(a) + SymRefs(b)
  {
    RefsJoin(a, b);
    if a == [] {
      assert a + b == b;
    } else {
      ExpandJoin(a[1..], b, xs);
      assert (a + b)[1..] == a[1..] + b && (a + b)[0] == a[0];
      Associative(One(a[0], xs), Expand(a[1..], xs), Expand(b, xs));
    }
  }

  lemma {:induction false} RefsJoin(a: seq<Sym>, b: seq<Sym>)
    ensures SymRefs(a + b) == SymRefs(a) + SymRefs(b)
  {
    if a == [] {
      assert a + b == b;
    } else {
      RefsJoin(a[1..], b);
      assert (a + b)[1..] == a[1..] + b && (a + b)[0] == a[0];
      AppendAssociates(if a[0].Ref? then [a[0].k] else [], SymRefs(a[1..]), SymRefs(b));
    }
  }

  lemma ExpandOne(a: Sym, xs: seq<string>)
    ensures Expand([a], xs) == One(a, xs) && SymRefs([a]) == if a.Ref? then [a.k] else []
  {
    assert [a][1..] == [];
    assert One(a, xs) + "" == One(a, xs);
  }

  lemma {:induction false} ExpandChars(s: string, xs: seq<string>)
    ensures Expand(Chars(s), xs) == s && SymRefs(Chars(s)) == [] && InRange(Chars(s), 0)
  {
    if s != "" {
      ExpandChars(s[1..], xs);
      assert Chars(s)[1..] == Chars(s[1..]);
      assert [s[0]] + s[1..] == s;
    }
  }

  /** Expanded text that is there begins and ends as its first and last symbol do. */
  lemma {:induction false} ExpandEnds(y: seq<Sym>, xs: seq<string>)
    requires InRange(y, |xs|) && AllFit(xs)
    ensures Expand(y, xs) == "" <==> y == []
    ensures y != [] ==> Expand(y, xs)[0] == One(y[0], xs)[0]
  {}

  // -- collapsing and stripping ------------------------------------------------------------------

  function SymCollapse(y: seq<Sym>, inRun: bool): seq<Sym> {
    if y == [] then []
    else if y[0].Ch? && IsSpace(y[0].c) then (if inRun then [] else [Ch(' ')]) + SymCollapse(y[1..], true)
    else [y[0]] + SymCollapse(y[1..], false)
  }

  lemma PastFit(x: string, rest: string, inRun: bool)
    requires Fit(x)
    ensures Collapse(x + rest, inRun) == x + Collapse(rest, false)
  {
    CollapseAppend(x, rest, inRun);
    CollapseStep(x, inRun);
    CollapseStep(x, false);
    assert !InRun(x, inRun);
  }

  lemma {:induction false} CollapseExpand(y: seq<Sym>, inRun: bool, xs: seq<string>)
    requires InRange(y, |xs|) && AllFit(xs)
    ensures Collapse(Expand(y, xs), inRun) == Expand(SymCollapse(y, inRun), xs)
    ensures SymRefs(SymCollapse(y, inRun)) == SymRefs(y) && InRange(SymCollapse(y, inRun), |xs|)
  {
    if y != [] {
      var rest := y[1..];
      if y[0].Ref? {
        CollapseExpand(rest, false, xs);
        PastFit(xs[y[0].k], Expand(rest, xs), inRun);
        ExpandOne(y[0], xs);
        ExpandJoin([y[0]], SymCollapse(rest, false), xs);
      } else {
        var space := IsSpace(y[0].c);
        CollapseExpand(rest, space, xs);
        var s := Expand(y, xs);
        assert s[1..] == Expand(rest, xs);
        CollapseStep(s, inRun);
        var head := if !space then [y[0]] else if inRun then [] else [Ch(' ')];
        HeadExpands(y[0].c, inRun, head, xs);
        ExpandJoin(head, SymCollapse(rest, space), xs);
        assert [y[0]] + rest == y;
      }
    }
  }

  lemma HeadExpands(c: char, inRun: bool, head: seq<Sym>, xs: seq<string>)
    requires head == if !IsSpace(c) then [Ch(c)] else if inRun then [] else [Ch(' ')]
    ensures Expand(head, xs) == Head(c, inRun) && SymRefs(head) == []
  {
    ExpandOne(Ch(c), xs);
    ExpandOne(Ch(' '), xs);
  }

  function SymDropLeft(y: seq<Sym>): seq<Sym> {
    if y != [] && y[0].Ch? && IsSpace(y[0].c) then SymDropLeft(y[1..]) else y
  }

  function SymDropRight(y: seq<Sym>): seq<Sym> {
    if y != [] && y[|y| - 1].Ch? && IsSpace(y[|y| - 1].c) then SymDropRight(y[..|y| - 1]) else y
  }

  lemma {:induction false} DropLeftExpand(y: seq<Sym>, xs: seq<string>)
    requires InRange(y, |xs|) && AllFit(xs)
    ensures DropLeft(Expand(y, xs), IsSpace) == Expand(SymDropLeft(y), xs)
    ensures SymRefs(SymDropLeft(y)) == SymRefs(y) && InRange(SymDropLeft(y), |xs|)
  {
    if y != [] {
      var s := Expand(y, xs);
      assert s[0] == One(y[0], xs)[0];
      if y[0].Ch? && IsSpace(y[0].c) {
        assert s[1..] == Expand(y[1..], xs);
        DropLeftExpand(y[1..], xs);
      }
    }
  }

  lemma ExpandSnoc(init: seq<Sym>, last: Sym, xs: seq<string>)
    ensures Expand(init + [last], xs) == Expand(init, xs) + One(last, xs)
    ensures last.Ch? ==> SymRefs(init + [last]) == SymRefs(init)
  {
    ExpandJoin(init, [last], xs);
    ExpandOne(last, xs);
    assert SymRefs(init) + [] == SymRefs(init);
  }

  lemma {:induction false} DropRightExpand(y: seq<Sym>, xs: seq<string>)
    requires InRange(y, |xs|) && AllFit(xs)
    ensures DropRight(Expand(y, xs), IsSpace) == Expand(SymDropRight(y), xs)
    ensures SymRefs(SymDropRight(y)) == SymRefs(y) && InRange(SymDropRight(y), |xs|)
  {
    if y != [] {
      var init, last := y[..|y| - 1], y[|y| - 1];
      assert y == init + [last];
      ExpandSnoc(init, last, xs);
      if last.Ch? && IsSpace(last.c) {
        DropRightExpand(init, xs);
        LastDropped(Expand(init, xs), last.c);
      } else {
        assert !IsSpace(One(last, xs)[|One(last, xs)| - 1]);
        LastStays(Expand(init, xs), One(last, xs));
      }
    }
  }

  lemma LastDropped(s: string, c: char)
    requires IsSpace(c)
    ensures DropRight(s + [c], IsSpace) == DropRight(s, IsSpace)
  {
    assert (s + [c])[..|s|] == s;
  }

  lemma LastStays(s: string, x: string)
    requires x != "" && !IsSpace(x[|x| - 1])
    ensures DropRight(s + x, IsSpace) == s + x
  {}

  function SymClean(y: seq<Sym>): seq<Sym> { SymDropRight(SymDropLeft(SymCollapse(y, false))) }

  lemma CleanExpand(y: seq<Sym>, xs: seq<string>)
    requires InRange(y, |xs|) && AllFit(xs)
    ensures CleanText(Expand(y, xs)) == Expand(SymClean(y), xs)
    ensures SymRefs(SymClean(y)) == SymRefs(y) && InRange(SymClean(y), |xs|)
  {
    CollapseExpand(y, false, xs);
    DropLeftExpand(SymCollapse(y, false), xs);
    DropRightExpand(SymDropLeft(SymCollapse(y, false)), xs);
  }

  // -- lines ------------------------------------------------------------------------------------

  /** A carriage return and a line feed are one break. */
  function SymBreakWidth(y: seq<Sym>): (n: nat)
    requires y != []
    ensures 1 <= n <= |y|
  {
    if y[0] == Ch('\r') && |y| > 1 && y[1] == Ch('\n') then 2 else 1
  }

  function SymLines(y: seq<Sym>, line: seq<Sym>): seq<seq<Sym>> {
    if y == [] then (if line == [] then [] else [line])
    else if y[0].Ch? && IsBreak(y[0].c) then [line] + SymLines(y[SymBreakWidth(y)..], [])
    else SymLines(y[1..], line + [y[0]])
  }

  function ExpandAll(ls: seq<seq<Sym>>, xs: seq<string>): seq<string> {
    if ls == [] then [] else [Expand(ls[0], xs)] + ExpandAll(ls[1..], xs)
  }

  function AllRefs(ls: seq<seq<Sym>>): seq<nat> { if ls == [] then [] else SymRefs(ls[0]) + AllRefs(ls[1..]) }

  predicate AllInRange(ls: seq<seq<Sym>>, n: nat) { forall i | 0 <= i < |ls| :: InRange(ls[i], n) }

  lemma {:induction false} LinesPast(x: string, rest: string, line: string)
    requires forall i | 0 <= i < |x| :: !IsBreak(x[i])
    ensures Lines(x + rest, line) == Lines(rest, line + x)
  {
    if x == "" {
      assert x + rest == rest && line + x == line;
    } else {
      assert (x + rest)[1..] == x[1..] + rest && line + [x[0]] + x[1..] == line + x;
      LinesPast(x[1..], rest, line + [x[0]]);
    }
  }

  lemma BreakExpands(y: seq<Sym>, xs: seq<string>)
    requires y != [] && y[0].Ch? && IsBreak(y[0].c) && InRange(y, |xs|) && AllFit(xs)
    ensures var s := Expand(y, xs);
      s != "" && s[0] == y[0].c && BreakWidth(s) == SymBreakWidth(y)
      && s[BreakWidth(s)..] == Expand(y[SymBreakWidth(y)..], xs)
    ensures SymRefs(y[SymBreakWidth(y)..]) == SymRefs(y)
  {
    var s, rest := Expand(y, xs), Expand(y[1..], xs);
    assert s == [y[0].c] + rest && s[1..] == rest;
    ExpandEnds(y[1..], xs);
    if |y| > 1 && y[1] == Ch('\n') {
      assert rest == ['\n'] + Expand(y[1..][1..], xs);
      assert y[1..][1..] == y[2..] && s[2..] == rest[1..] == Expand(y[2..], xs);
    }
  }

  lemma {:induction false} LinesExpand(y: seq<Sym>, line: seq<Sym>, xs: seq<string>)
    requires InRange(y, |xs|) && InRange(line, |xs|) && AllFit(xs)
    ensures Lines(Expand(y, xs), Expand(line, xs)) == ExpandAll(SymLines(y, line), xs)
    ensures AllInRange(SymLines(y, line), |xs|)
    decreases |y|
  {
    ExpandEnds(line, xs);
    if y == [] {
      if line != [] { assert [line][1..] == []; }
    } else if y[0].Ch? && IsBreak(y[0].c) {
      BreakExpands(y, xs);
      LinesExpand(y[SymBreakWidth(y)..], [], xs);
      LineFirst(line, SymLines(y[SymBreakWidth(y)..], []), xs);
    } else {
      ExpandSnoc(line, y[0], xs);
      LinesPast(One(y[0], xs), Expand(y[1..], xs), Expand(line, xs));
      LinesExpand(y[1..], line + [y[0]], xs);
    }
  }

  lemma LineFirst(line: seq<Sym>, ls: seq<seq<Sym>>, xs: seq<string>)
    ensures ExpandAll([line] + ls, xs) == [Expand(line, xs)] + ExpandAll(ls, xs)
    ensures AllRefs([line] + ls) == SymRefs(line) + AllRefs(ls)
  {
    assert ([line] + ls)[1..] == ls;
  }

  lemma RefsShift(y: seq<Sym>, line: seq<Sym>)
    requires y != []
    ensures SymRefs(line + [y[0]]) + SymRefs(y[1..]) == SymRefs(line) + SymRefs(y)
  {
    RefsJoin(line, [y[0]]);
    RefsJoin([y[0]], y[1..]);
    assert [y[0]] + y[1..] == y;
    AppendAssociates(SymRefs(line), SymRefs([y[0]]), SymRefs(y[1..]));
  }

  lemma BreakRefs(y: seq<Sym>)
    requires y != [] && y[0].Ch?
    ensures SymRefs(y[SymBreakWidth(y)..]) == SymRefs(y)
  {
    if SymBreakWidth(y) == 2 { assert y[1..][1..] == y[2..]; }
  }

  lemma {:induction false} LinesRefs(y: seq<Sym>, line: seq<Sym>)
    ensures AllRefs(SymLines(y, line)) == SymRefs(line) + SymRefs(y)
    decreases |y|
  {
    if y == [] {
      if line != [] { LineFirst(line, [], []); }
    } else if y[0].Ch? && IsBreak(y[0].c) {
      var rest := y[SymBreakWidth(y)..];
      LinesRefs(rest, []);
      LineFirst(line, SymLines(rest, []), []);
      BreakRefs(y);
    } else {
      LinesRefs(y[1..], line + [y[0]]);
      RefsShift(y, line);
    }
  }

  // -- the lines that are kept -------------------------------------------------------------------

  predicate SymKept(y: seq<Sym>) { y != [] && (SymRefs(y) != [] || Expand(y, []) !in NoiseLines) }

  function SymKeptLines(ls: seq<seq<Sym>>): seq<seq<Sym>> {
    if ls == [] then [] else (if SymKept(SymClean(ls[0])) then [SymClean(ls[0])] else []) + SymKeptLines(ls[1..])
  }

  lemma {:induction false} NoRefs(y: seq<Sym>, xs: seq<string>)
    requires SymRefs(y) == []
    ensures Expand(y, xs) == Expand(y, [])
  {
    if y != [] { NoRefs(y[1..], xs); }
  }

  /** Whoever holds a reference holds the first character of its string. */
  lemma {:induction false} HoldsRef(y: seq<Sym>, xs: seq<string>) returns (i: nat)
    requires SymRefs(y) != [] && InRange(y, |xs|) && AllFit(xs)
    ensures i < |Expand(y, xs)| && (Expand(y, xs)[i] == 'L' || Expand(y, xs)[i] == '[')
  {
    if y[0].Ref? {
      i := 0;
      assert Expand(y, xs)[0] == xs[y[0].k][0];
    } else {
      var j := HoldsRef(y[1..], xs);
      i := j + 1;
      assert Expand(y, xs)[i] == Expand(y[1..], xs)[j];
    }
  }

  lemma KeptExpands(y: seq<Sym>, xs: seq<string>)
    requires InRange(y, |xs|) && AllFit(xs)
    ensures Kept(Expand(y, xs)) <==> SymKept(y)
  {
    ExpandEnds(y, xs);
    if SymRefs(y) == [] {
      NoRefs(y, xs);
    } else {
      var i := HoldsRef(y, xs);
      NoiseIsPlain();
      assert Expand(y, xs) !in NoiseLines;
    }
  }

  lemma NoiseIsPlain()
    ensures forall s, i | s in NoiseLines && 0 <= i < |s| :: s[i] != 'L' && s[i] != '['
  {}

  lemma {:induction false} KeptLinesExpand(ls: seq<seq<Sym>>, xs: seq<string>)
    requires AllInRange(ls, |xs|) && AllFit(xs)
    ensures KeptLines(ExpandAll(ls, xs)) == ExpandAll(SymKeptLines(ls), xs)
    ensures AllRefs(SymKeptLines(ls)) == AllRefs(ls)
  {
    if ls != [] {
      var clean, rest := SymClean(ls[0]), SymKeptLines(ls[1..]);
      KeptLinesExpand(ls[1..], xs);
      CleanExpand(ls[0], xs);
      KeptExpands(clean, xs);
      LineFirst(clean, rest, xs);
      assert ExpandAll(ls, xs)[1..] == ExpandAll(ls[1..], xs);
      if !SymKept(clean) { assert [] + rest == rest && [] + AllRefs(rest) == AllRefs(rest); }
    }
  }

  function SymJoin(ls: seq<seq<Sym>>): seq<Sym> {
    if ls == [] then [] else if |ls| == 1 then ls[0] else ls[0] + [Ch('\n')] + SymJoin(ls[1..])
  }

  lemma {:induction false} JoinExpands(ls: seq<seq<Sym>>, xs: seq<string>)
    ensures Join(ExpandAll(ls, xs), "\n") == Expand(SymJoin(ls), xs) && SymRefs(SymJoin(ls)) == AllRefs(ls)
    ensures |ExpandAll(ls, xs)| == |ls|
  {
    if ls != [] {
      JoinExpands(ls[1..], xs);
      assert ExpandAll(ls, xs)[1..] == ExpandAll(ls[1..], xs);
      if |ls| == 1 {
        assert ls[1..] == [] && SymRefs(ls[0]) + [] == SymRefs(ls[0]);
      } else {
        ExpandJoin(ls[0] + [Ch('\n')], SymJoin(ls[1..]), xs);
        ExpandSnoc(ls[0], Ch('\n'), xs);
      }
    }
  }

  function SymCleaned(y: seq<Sym>): seq<Sym> { SymJoin(SymKeptLines(SymLines(y, []))) }

  /** Cleaning is the same whatever fitting strings stand for the references, and keeps all of them. */
  lemma CleanedExpands(y: seq<Sym>, xs: seq<string>)
    requires InRange(y, |xs|) && AllFit(xs)
    ensures CleanMultiline(Expand(y, xs)) == Expand(SymCleaned(y), xs) && SymRefs(SymCleaned(y)) == SymRefs(y)
  {
    var ls := SymLines(y, []);
    LinesExpand(y, [], xs);
    LinesRefs(y, []);
    KeptLinesExpand(ls, xs);
    JoinExpands(SymKeptLines(ls), xs);
  }
}
