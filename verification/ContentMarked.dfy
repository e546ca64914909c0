/**
  The serialized text of a page (luatvietnam_crawler/parser.py): that of the same page with every reference's marker
  written in its place from the start.
 */
module ContentMarked {
  import opened Text
  import opened ReferenceTokens
  import opened ContentTracing
  import opened ContentCleaning
  import opened ContentRendering
  import opened ContentWords
  import opened ContentSymbols

  // -- rendering ----------------------------------------------------------------------------

  function SymRender(node: Node): seq<Sym>
    decreases node
  {
    match node
    case TextNode(text, inline) => Chars(RenderText(text, inline))
    case RefNode(index, _) => [Ref(index)]
    case Element(name, children) =>
      if name == "br" then [Ch('\n')]
      else
        var rendered := SymRenderAll(children);
        if name == "td" || name == "th" then rendered + [Ch('\t')]
        else if name in BlockTags then [Ch('\n')] + rendered + [Ch('\n')]
        else rendered
  }

  function SymRenderAll(nodes: seq<Node>): seq<Sym>
    decreases nodes
  {
    if nodes == [] then [] else SymRender(nodes[0]) + SymRenderAll(nodes[1..])
  }

  lemma FitInline(x: string)
    requires Fit(x)
    ensures InlineText(x) == x
  {
    assert DropLeft(x, IsSpace) == x && DropRight(x, IsSpace) == x;
    assert "" + x + "" == x;
  }

  lemma {:induction false} RenderExpands(node: Node, xs: seq<string>)
    requires Within(Refs(node), |xs|) && AllFit(xs)
    ensures Render(node, xs) == Expand(SymRender(node), xs)
    ensures SymRefs(SymRender(node)) == Refs(node) && InRange(SymRender(node), |xs|)
    decreases node
  {
    match node
    case TextNode(text, inline) => ExpandChars(RenderText(text, inline), xs);
    case RefNode(index, inline) =>
      assert Refs(node)[0] == index;
      ExpandOne(Ref(index), xs);
      FitInline(xs[index]);
    case Element(name, children) =>
      if name == "br" {
        ExpandOne(Ch('\n'), xs);
      } else {
        RenderAllExpands(children, xs);
        Framed(SymRenderAll(children), xs);
      }
  }

  lemma Framed(y: seq<Sym>, xs: seq<string>)
    ensures Expand(y + [Ch('\t')], xs) == Expand(y, xs) + "\t" && SymRefs(y + [Ch('\t')]) == SymRefs(y)
    ensures Expand([Ch('\n')] + y + [Ch('\n')], xs) == "\n" + Expand(y, xs) + "\n"
    ensures SymRefs([Ch('\n')] + y + [Ch('\n')]) == SymRefs(y)
  {
    ExpandSnoc(y, Ch('\t'), xs);
    ExpandSnoc([Ch('\n')] + y, Ch('\n'), xs);
    assert ([Ch('\n')] + y)[1..] == y;
  }

  lemma {:induction false} RenderAllExpands(nodes: seq<Node>, xs: seq<string>)
    requires Within(RefsOfAll(nodes), |xs|) && AllFit(xs)
    ensures RenderAll(nodes, xs) == Expand(SymRenderAll(nodes), xs)
    ensures SymRefs(SymRenderAll(nodes)) == RefsOfAll(nodes) && InRange(SymRenderAll(nodes), |xs|)
    decreases nodes
  {
    if nodes != [] {
      WithinSplit(Refs(nodes[0]), RefsOfAll(nodes[1..]), |xs|);
      RenderExpands(nodes[0], xs);
      RenderAllExpands(nodes[1..], xs);
      ExpandJoin(SymRender(nodes[0]), SymRenderAll(nodes[1..]), xs);
    }
  }

  // -- what fits ------------------------------------------------------------------------------

  lemma TokenFits(t: string)
    requires IsToken(t)
    ensures Fit(t)
  {
    CollapseSolid(t, false);
  }

  lemma {:induction false} CollapseJoin(ws: seq<string>)
    requires AreWords(ws)
    ensures var s := Join(ws, " "); Collapse(s) == s && forall i | 0 <= i < |s| :: !IsBreak(s[i])
  {
    if |ws| == 1 {
      CollapseSolid(ws[0], false);
    } else if ws != [] {
      var rest := Join(ws[1..], " ");
      CollapseJoin(ws[1..]);
      JoinEnds(ws[1..]);
      PastWord(ws[0], " " + rest, false);
      CollapseStep(" " + rest, false);
      CollapseStep(rest, true);
      CollapseStep(rest, false);
      assert (" " + rest)[1..] == rest && ws[0] + " " + rest == ws[0] + (" " + rest);
    }
  }

  lemma BracketsCollapse(s: string)
    requires Collapse(s) == s
    ensures Collapse("[" + s + "]") == "[" + s + "]"
  {
    PastWord("[", s + "]", false);
    CollapseAppend(s, "]", false);
    CollapseSolid("]", InRun(s, false));
    assert "[" + s + "]" == "[" + (s + "]");
  }

  lemma BracketsUnbroken(s: string)
    requires forall i | 0 <= i < |s| :: !IsBreak(s[i])
    ensures var m := "[" + s + "]"; forall i | 0 <= i < |m| :: !IsBreak(m[i])
  {}

  lemma BracketsFit(s: string)
    requires Collapse(s) == s && forall i | 0 <= i < |s| :: !IsBreak(s[i])
    ensures Fit("[" + s + "]")
  {
    BracketsCollapse(s);
    BracketsUnbroken(s);
  }

  /** A marker, bracketed already or not, is cleaned text and begins with a bracket. */
  lemma MarkerFits(s: string)
    requires CleanText(s) != ""
    ensures Fit(Marker(CleanText(s)))
  {
    var ws := CleanTextKeepsWords(s);
    assert ws == [] ==> Join(ws, " ") == "";
    JoinEnds(ws);
    CollapseJoin(ws);
    BracketsFit(CleanText(s));
  }

  lemma {:induction false} MarkersFit(page: Html)
    ensures AllFit(Markers(page))
    decreases page
  {
    match page
    case PlainText(_, _) =>
    case Reference(children, _) =>
      MarkersOfAllFit(children);
      if ReferenceText(children) != "" { MarkerFits(Join(WordsOfAll(children), " ")); }
    case Tag(_, children) => MarkersOfAllFit(children);
  }

  lemma {:induction false} MarkersOfAllFit(pages: seq<Html>)
    ensures AllFit(MarkersOfAll(pages))
    decreases pages
  {
    if pages != [] {
      MarkersFit(pages[0]);
      MarkersOfAllFit(pages[1..]);
    }
  }

  // -- the page with its markers ----------------------------------------------------------------

  /** The page with the marker of each outermost reference as plain text. */
  function Marked(page: Html): seq<Node>
    decreases page
  {
    match page
    case PlainText(text, inline) => [TextNode(text, inline)]
    case Reference(children, inline) =>
      if ReferenceText(children) == "" then [] else [TextNode(Marker(ReferenceText(children)), inline)]
    case Tag(name, children) => [Element(name, MarkedAll(children))]
  }

  function MarkedAll(pages: seq<Html>): seq<Node>
    decreases pages
  {
    if pages == [] then [] else Marked(pages[0]) + MarkedAll(pages[1..])
  }

  lemma {:induction false} RenderAllJoin(a: seq<Node>, b: seq<Node>, xs: seq<string>)
    ensures RenderAll(a + b, xs) == RenderAll(a, xs) + RenderAll(b, xs)
  {
    if a == [] {
      assert a + b == b;
    } else {
      RenderAllJoin(a[1..], b, xs);
      assert (a + b)[1..] == a[1..] + b && (a + b)[0] == a[0];
      Associative(Render(a[0], xs), RenderAll(a[1..], xs), RenderAll(b, xs));
    }
  }

  lemma RenderOne(node: Node, xs: seq<string>)
    ensures RenderAll([node], xs) == Render(node, xs) && RefsOfAll([node]) == Refs(node)
    ensures TextOfAll([node], xs) == TextOf(node, xs)
  {
    assert Render(node, xs) + "" == Render(node, xs) && TextOf(node, xs) + "" == TextOf(node, xs);
  }

  /** `marked` has no references, this text, and is rendered like `nodes` with `ms` for its references. */
  ghost predicate SameMarked(nodes: seq<Node>, ms: seq<string>, marked: seq<Node>, text: string) {
    RenderAll(nodes, ms) == RenderAll(marked, []) && RefsOfAll(marked) == [] && TextOfAll(marked, []) == text
  }

  /** Rendering the page with its markers for its references is rendering the marked page. */
  lemma {:induction false} MarkedRenders(page: Html, n: nat, ms: seq<string>)
    requires StandsAt(Markers(page), ms, n)
    ensures SameMarked(Replace(page, n), ms, Marked(page), PageText(page))
    decreases page
  {
    match page
    case PlainText(text, inline) =>
      RenderOne(TextNode(text, inline), ms);
      RenderOne(TextNode(text, inline), []);
    case Reference(children, inline) =>
      if ReferenceText(children) != "" {
        assert ms[n] == Markers(page)[0];
        RenderOne(RefNode(n, inline), ms);
        RenderOne(TextNode(Marker(ReferenceText(children)), inline), []);
      }
    case Tag(name, children) =>
      MarkedAllRenders(children, n, ms);
      RenderOne(Element(name, ReplaceAll(children, n)), ms);
      RenderOne(Element(name, MarkedAll(children)), []);
  }

  lemma {:induction false} MarkedAllRenders(pages: seq<Html>, n: nat, ms: seq<string>)
    requires StandsAt(MarkersOfAll(pages), ms, n)
    ensures SameMarked(ReplaceAll(pages, n), ms, MarkedAll(pages), PageTextOfAll(pages))
    decreases pages
  {
    if pages != [] {
      var first, middle := Markers(pages[0]), n + |Markers(pages[0])|;
      StandsSplit(first, MarkersOfAll(pages[1..]), ms, n);
      MarkedRenders(pages[0], n, ms);
      MarkedAllRenders(pages[1..], middle, ms);
      var nodes, later := Replace(pages[0], n), ReplaceAll(pages[1..], middle);
      var text, more := PageText(pages[0]), PageTextOfAll(pages[1..]);
      MarkedJoin(nodes, Marked(pages[0]), text, later, MarkedAll(pages[1..]), more, ms);
    }
  }

  lemma MarkedJoin(
      a: seq<Node>, x: seq<Node>, s: string, b: seq<Node>, y: seq<Node>, t: string, ms: seq<string>)
    requires SameMarked(a, ms, x, s) && SameMarked(b, ms, y, t)
    ensures SameMarked(a + b, ms, x + y, s + t)
  {
    RenderAllJoin(a, b, ms);
    RenderAllJoin(x, y, []);
    RefsOfAllJoin(x, y);
    TextOfAllJoin(x, y, []);
  }

  // -- the serialized text ------------------------------------------------------------------------

  function GapsOf(y: seq<Sym>): (gaps: seq<string>)
    ensures |gaps| == |SymRefs(y)| + 1
  {
    if y == [] then [""]
    else
      var g := GapsOf(y[1..]);
      match y[0]
      case Ch(c) => g[0 := [c] + g[0]]
      case Ref(_) => [""] + g
  }

  lemma FrontGap(g: seq<string>, w: seq<string>, c: char)
    requires |g| == |w| + 1
    ensures Spread(g[0 := [c] + g[0]], w) == [c] + Spread(g, w)
  {
    assert g[0 := [c] + g[0]][1..] == g[1..];
    if w != [] { assert [c] + g[0] + w[0] + Spread(g[1..], w[1..]) == [c] + (g[0] + w[0] + Spread(g[1..], w[1..])); }
  }

  lemma FrontRef(g: seq<string>, w: seq<string>, x: string)
    requires |g| == |w| + 1
    ensures Spread([""] + g, [x] + w) == x + Spread(g, w)
  {
    var gaps, ws := [""] + g, [x] + w;
    assert gaps[1..] == g && ws[1..] == w && gaps[0] == "" && ws[0] == x;
    assert Spread(gaps, ws) == "" + x + Spread(g, w);
  }

  lemma StringsCons(k: nat, refs: seq<nat>, xs: seq<string>)
    requires Within(refs, |xs|) && k < |xs| && Within([k] + refs, |xs|)
    ensures Strings([k] + refs, xs) == [xs[k]] + Strings(refs, xs)
  {}

  lemma {:induction false} GapsSpread(y: seq<Sym>, xs: seq<string>)
    requires InRange(y, |xs|) && Within(SymRefs(y), |xs|)
    ensures Expand(y, xs) == Spread(GapsOf(y), Strings(SymRefs(y), xs))
  {
    if y != [] {
      var g, refs := GapsOf(y[1..]), SymRefs(y[1..]);
      WithinSplit(if y[0].Ref? then [y[0].k] else [], refs, |xs|);
      GapsSpread(y[1..], xs);
      if y[0].Ch? {
        assert SymRefs(y) == refs;
        FrontGap(g, Strings(refs, xs), y[0].c);
      } else {
        StringsCons(y[0].k, refs, xs);
        FrontRef(g, Strings(refs, xs), xs[y[0].k]);
      }
    }
  }

  lemma {:induction false} SpreadFrom(gaps: seq<string>, xs: seq<string>, k: nat)
    requires |gaps| == |xs| + 1 && k <= |xs|
    ensures Spread(gaps[k..], xs[k..]) == gaps[k] + From(gaps, xs, k)
    decreases |xs| - k
  {
    if k < |xs| {
      SpreadFrom(gaps, xs, k + 1);
      assert gaps[k..][1..] == gaps[k + 1..] && xs[k..][1..] == xs[k + 1..];
      assert gaps[k] + xs[k] + (gaps[k + 1] + From(gaps, xs, k + 1))
             == gaps[k] + (xs[k] + gaps[k + 1] + From(gaps, xs, k + 1));
    }
  }

  lemma ExpandIsInterleave(y: seq<Sym>, xs: seq<string>)
    requires InRange(y, |xs|) && Within(SymRefs(y), |xs|)
    ensures Expand(y, xs) == Interleave(GapsOf(y), Strings(SymRefs(y), xs))
  {
    var gaps, refs := GapsOf(y), Strings(SymRefs(y), xs);
    GapsSpread(y, xs);
    SpreadFrom(gaps, refs, 0);
    assert gaps[0..] == gaps && refs[0..] == refs;
    InterleaveSplits(gaps, refs, 0);
  }

  function MarkedText(page: Html): string { CleanMultiline(RenderAll(Marked(page), [])) }

  lemma MarkedTextIsFree(page: Html, ts: seq<string>)
    requires AllTokens(ts) && TokenFree(PageText(page), ts)
    ensures TokenFree(MarkedText(page), ts)
  {
    var ms := Markers(page);
    assert ms[0..0 + |ms|] == ms;
    MarkedRenders(page, 0, ms);
    RenderAllCarries(Marked(page), [], []);
    assert Strings([], []) == [];
    CleaningCarries(RenderAll(Marked(page), []), [], [], PageText(page));
    var gaps := PartIsFree(MarkedText(page), [], [], PageText(page), ts);
  }

  lemma {:induction false} RefsInRange(y: seq<Sym>, n: nat)
    requires Within(SymRefs(y), n)
    ensures InRange(y, n)
  {
    if y != [] {
      var rest := SymRefs(y[1..]);
      WithinSplit(if y[0].Ref? then [y[0].k] else [], rest, n);
      RefsInRange(y[1..], n);
      assert y[0].Ref? ==> [y[0].k][0] < n;
      forall i | 0 <= i < |y| && y[i].Ref? ensures y[i].k < n { if i > 0 { assert y[1..][i - 1] == y[i]; } }
    }
  }

  /** The cleaned text, whatever strings stand for the references. */
  lemma CleanedIs(nodes: seq<Node>, xs: seq<string>)
    requires Within(RefsOfAll(nodes), |xs|) && AllFit(xs)
    ensures var z := SymCleaned(SymRenderAll(nodes));
      SymRefs(z) == RefsOfAll(nodes)
      && CleanMultiline(RenderAll(nodes, xs)) == Interleave(GapsOf(z), Strings(RefsOfAll(nodes), xs))
  {
    var y := SymRenderAll(nodes);
    RenderAllExpands(nodes, xs);
    CleanedExpands(y, xs);
    RefsInRange(SymCleaned(y), |xs|);
    ExpandIsInterleave(SymCleaned(y), xs);
  }

  /**
    When no reference is hidden, serializing by way of tokens gives the text of the page with its markers written into
    it from the start, rendered and cleaned.
   */
  lemma SerializedAsMarked(page: Html, ts: seq<string>)
    requires |ts| == |Markers(page)| && AllTokens(ts) && AllApart(ts) && TokenFree(PageText(page), ts) && !Hides(page)
    ensures var r := Substituted(CleanedText(page, ts), ts, Markers(page), |ts|);
            r.Resolved? && r.text == MarkedText(page)
  {
    var nodes, ms := Replace(page, 0), Markers(page);
    var refs, z := RefsOfAll(nodes), SymCleaned(SymRenderAll(nodes));
    RefsLeft(page, 0);
    forall i | 0 <= i < |ts| ensures Fit(ts[i]) { TokenFits(ts[i]); }
    MarkersFit(page);
    CleanedIs(nodes, ts);
    CleanedIs(nodes, ms);
    assert ms[0..0 + |ms|] == ms;
    MarkedRenders(page, 0, ms);
    MarkedTextIsFree(page, ts);
    SubstitutionIsDecided(GapsOf(z), refs, ts, ms);
    AllArePresent(refs, ms);
  }

  // -- what rendering writes ------------------------------------------------------------------------

  ghost predicate IsBlock(name: string) {
    || name == "address" || name == "article" || name == "blockquote" || name == "dd" || name == "div" || name == "dl"
    || name == "dt" || name == "figcaption" || name == "figure" || name == "footer" || name == "h1" || name == "h2"
    || name == "h3" || name == "h4" || name == "h5" || name == "h6" || name == "header" || name == "li"
    || name == "main" || name == "ol" || name == "p" || name == "pre" || name == "section" || name == "table"
    || name == "tbody" || name == "tfoot" || name == "thead" || name == "tr" || name == "ul"
  }

  /** Inline text is its words with single spaces between them, and one at an end where it had any. */
  ghost predicate IsInline(text: string, s: string) {
    exists gaps, ws ::
      && |gaps| == |ws| + 1 && text == Spread(gaps, ws) && AreWords(ws) && AreSpaces(gaps)
      && s == if ws == [] then Tail(text) else Tail(gaps[0]) + Join(ws, " ") + Tail(gaps[|gaps| - 1])
  }

  /** Rendered nodes: line breaks for `br` and around blocks, a tab after a table cell, and nothing else between. */
  ghost predicate IsRendered(node: Node, s: string)
    decreases node
  {
    match node
    case TextNode(text, inline) => if inline then IsInline(text, s) else s == text
    case RefNode(_, _) => s == ""
    case Element(name, children) =>
      if name == "br" then s == "\n"
      else
        exists inner ::
          && AreRendered(children, inner)
          && s == if name == "td" || name == "th" then inner + "\t"
                  else if IsBlock(name) then "\n" + inner + "\n"
                  else inner
  }

  ghost predicate AreRendered(nodes: seq<Node>, s: string)
    decreases nodes
  {
    if nodes == [] then s == ""
    else exists first, rest :: IsRendered(nodes[0], first) && AreRendered(nodes[1..], rest) && s == first + rest
  }

  lemma InlineIs(text: string)
    ensures IsInline(text, InlineText(text))
  {
    var gaps, ws := WordsExist(text);
    assert HasWords(text, ws);
    CleanTextOf(text, ws);
    if ws == [] {
      assert text == gaps[0] && Join(ws, " ") == "";
      assert text != "" ==> IsSpace(text[0]);
    } else {
      JoinEnds(ws);
      InlineEnds(text, gaps, ws);
    }
  }

  lemma InlineEnds(text: string, gaps: seq<string>, ws: seq<string>)
    requires |gaps| == |ws| + 1 && ws != [] && text == Spread(gaps, ws) && AreWords(ws) && AreSpaces(gaps)
    ensures text != "" && (IsSpace(text[0]) <==> gaps[0] != "")
    ensures IsSpace(text[|text| - 1]) <==> gaps[|gaps| - 1] != ""
  {
    assert gaps[0] != "" ==> IsSpace(gaps[0][0]);
    SpreadEnd(gaps, ws);
  }

  lemma {:induction false} SpreadEnd(gaps: seq<string>, ws: seq<string>)
    requires |gaps| == |ws| + 1 && ws != [] && AreWords(ws) && AreSpaces(gaps)
    ensures var s := Spread(gaps, ws); s != "" && (IsSpace(s[|s| - 1]) <==> gaps[|gaps| - 1] != "")
  {
    var last := gaps[|gaps| - 1];
    assert last != "" ==> IsSpace(last[|last| - 1]);
    if |ws| == 1 {
      assert Spread(gaps, ws) == gaps[0] + ws[0] + Spread(gaps[1..], []);
    } else {
      assert forall i | 0 <= i < |gaps| - 1 :: gaps[1..][i] == gaps[i + 1];
      SpreadEnd(gaps[1..], ws[1..]);
    }
  }

  lemma {:induction false} RenderIs(node: Node)
    ensures IsRendered(node, Render(node, []))
    decreases node
  {
    match node
    case TextNode(text, _) => InlineIs(text);
    case RefNode(_, _) =>
    case Element(name, children) =>
      RenderAllIs(children);
      assert name in BlockTags <==> IsBlock(name);
  }

  lemma {:induction false} RenderAllIs(nodes: seq<Node>)
    ensures AreRendered(nodes, RenderAll(nodes, []))
    decreases nodes
  {
    if nodes != [] {
      RenderIs(nodes[0]);
      RenderAllIs(nodes[1..]);
    }
  }

  // -- markers ------------------------------------------------------------------------------------

  /** The words of a page, in document order. */
  ghost predicate PageWords(page: Html, ws: seq<string>)
    decreases page
  {
    match page
    case PlainText(text, _) => HasWords(text, ws)
    case Reference(children, _) => AllPageWords(children, ws)
    case Tag(_, children) => AllPageWords(children, ws)
  }

  ghost predicate AllPageWords(pages: seq<Html>, ws: seq<string>)
    decreases pages
  {
    if pages == [] then ws == []
    else exists a, b :: PageWords(pages[0], a) && AllPageWords(pages[1..], b) && ws == a + b
  }

  lemma {:induction false} JoinBoth(a: seq<string>, b: seq<string>, sep: string)
    ensures Join(a + b, sep) == if a == [] then Join(b, sep) else if b == [] then Join(a, sep)
                                else Join(a, sep) + sep + Join(b, sep)
  {
    if a == [] {
      assert a + b == b;
    } else if b == [] {
      assert a + b == a;
    } else {
      JoinBoth(a[1..], b, sep);
      assert (a + b)[1..] == a[1..] + b && (a + b)[0] == a[0];
      assert |a| > 1 ==> a[0] + sep + (Join(a[1..], sep) + sep + Join(b, sep))
                         == a[0] + sep + Join(a[1..], sep) + sep + Join(b, sep);
    }
  }

  /** The stripped strings of a page, joined, have the words of the page. */
  lemma {:induction false} WordsOfPage(page: Html) returns (ws: seq<string>)
    ensures PageWords(page, ws) && HasWords(Join(Words(page), " "), ws)
    decreases page
  {
    match page {
      case PlainText(text, _) =>
        ws := StrippedWords(text);
        if Strip(text) == "" { BlankHasNoWords(""); }
      case Reference(children, _) => ws := WordsOfPages(children);
      case Tag(_, children) => ws := WordsOfPages(children);
    }
  }

  lemma {:induction false} WordsOfPages(pages: seq<Html>) returns (ws: seq<string>)
    ensures AllPageWords(pages, ws) && HasWords(Join(WordsOfAll(pages), " "), ws)
    decreases pages
  {
    ws := [];
    if pages == [] {
      BlankHasNoWords("");
    } else {
      var a := WordsOfPage(pages[0]);
      var b := WordsOfPages(pages[1..]);
      ws := a + b;
      var first, rest := Words(pages[0]), WordsOfAll(pages[1..]);
      JoinBoth(first, rest, " ");
      JoinWords(first, a, rest, b);
    }
  }

  lemma JoinWords(first: seq<string>, a: seq<string>, rest: seq<string>, b: seq<string>)
    requires HasWords(Join(first, " "), a) && HasWords(Join(rest, " "), b)
    ensures HasWords(Join(first + rest, " "), a + b)
  {
    JoinBoth(first, rest, " ");
    var s, t := Join(first, " "), Join(rest, " ");
    if first == [] {
      NoneOfNothing(a);
      assert a + b == b;
    } else if rest == [] {
      NoneOfNothing(b);
      assert a + b == a;
    } else {
      WordsJoin(s, a, " ", t, b);
    }
  }

  lemma NoneOfNothing(ws: seq<string>)
    requires HasWords("", ws)
    ensures ws == []
  {
    var gaps :| |gaps| == |ws| + 1 && "" == Spread(gaps, ws) && AreWords(ws) && AreSpaces(gaps);
    NoWords("", gaps, ws);
  }

  /**
    The marker of a reference is its words with single spaces between them, in brackets unless it has them; a
    reference without words has none.
   */
  lemma MarkerIs(children: seq<Html>, inline: bool) returns (ws: seq<string>)
    ensures AllPageWords(children, ws)
    ensures var text := Join(ws, " ");
      && (text == "" ==> Marked(Reference(children, inline)) == [])
      && (text != "" ==>
            var bracketed := "[" <= text && text[|text| - 1] == ']';
            Marked(Reference(children, inline))
            == [TextNode(if bracketed then text else "[" + text + "]", inline)])
  {
    ws := WordsOfPages(children);
    CleanTextOf(Join(WordsOfAll(children), " "), ws);
  }
}
