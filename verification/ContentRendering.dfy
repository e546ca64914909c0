/** Serializing page content (luatvietnam_crawler/parser.py): references become tokens, text is rendered and cleaned. */
module ContentRendering {
  import opened Text
  import opened ReferenceTokens
  import opened ContentTracing
  import opened ContentCleaning

  // -- the page and its references ----------------------------------------------------

  /** A page; `inline` says that the parent element is one whose text is collapsed. */
  datatype Html =
    | PlainText(text: string, inline: bool)
    | Reference(children: seq<Html>, inline: bool)
    | Tag(name: string, children: seq<Html>)

  /** `get_text(" ", strip=True)` before joining. */
  function Words(page: Html): seq<string>
    decreases page
  {
    match page
    case PlainText(text, _) => if Strip(text) == "" then [] else [Strip(text)]
    case Reference(children, _) => WordsOfAll(children)
    case Tag(_, children) => WordsOfAll(children)
  }

  function WordsOfAll(pages: seq<Html>): seq<string>
    decreases pages
  {
    if pages == [] then [] else Words(pages[0]) + WordsOfAll(pages[1..])
  }

  function ReferenceText(children: seq<Html>): string { CleanText(Join(WordsOfAll(children), " ")) }

  function Marker(text: string): string {
    if text != "" && text[0] == '[' && text[|text| - 1] == ']' then text else "[" + text + "]"
  }

  /** The markers of the references that have text, in document order: the outer reference before those inside it. */
  function Markers(page: Html): seq<string>
    decreases page
  {
    match page
    case PlainText(_, _) => []
    case Reference(children, _) =>
      if ReferenceText(children) == "" then [] else [Marker(ReferenceText(children))] + MarkersOfAll(children)
    case Tag(_, children) => MarkersOfAll(children)
  }

  function MarkersOfAll(pages: seq<Html>): seq<string>
    decreases pages
  {
    if pages == [] then [] else Markers(pages[0]) + MarkersOfAll(pages[1..])
  }

  /** A reference with text stands inside another one, or where nothing is rendered. */
  predicate Hides(page: Html)
    decreases page
  {
    match page
    case PlainText(_, _) => false
    case Reference(children, _) => ReferenceText(children) != "" && MarkersOfAll(children) != []
    case Tag(name, children) => if name == "br" then MarkersOfAll(children) != [] else AnyHides(children)
  }

  predicate AnyHides(pages: seq<Html>)
    decreases pages
  {
    pages != [] && (Hides(pages[0]) || AnyHides(pages[1..]))
  }

  /** The text of the page with each outermost reference's marker in its place. */
  function PageText(page: Html): string
    decreases page
  {
    match page
    case PlainText(text, _) => text
    case Reference(children, _) => if ReferenceText(children) == "" then "" else Marker(ReferenceText(children))
    case Tag(_, children) => PageTextOfAll(children)
  }

  function PageTextOfAll(pages: seq<Html>): string
    decreases pages
  {
    if pages == [] then "" else PageText(pages[0]) + PageTextOfAll(pages[1..])
  }

  // -- references replaced by tokens ------------------------------------------------------

  /** The page after the loop over its references: an index stands for the token that replaced a reference. */
  datatype Node =
    | TextNode(text: string, inline: bool)
    | RefNode(index: nat, inline: bool)
    | Element(name: string, children: seq<Node>)

  /**
    References are numbered from `n` in document order; one without text is removed, one inside another goes with it.
   */
  function Replace(page: Html, n: nat): seq<Node>
    decreases page
  {
    match page
    case PlainText(text, inline) => [TextNode(text, inline)]
    case Reference(children, inline) => if ReferenceText(children) == "" then [] else [RefNode(n, inline)]
    case Tag(name, children) => [Element(name, ReplaceAll(children, n))]
  }

  function ReplaceAll(pages: seq<Html>, n: nat): seq<Node>
    decreases pages
  {
    if pages == [] then [] else Replace(pages[0], n) + ReplaceAll(pages[1..], n + |Markers(pages[0])|)
  }

  /** The references left in a tree, in document order; `br` renders none of its content. */
  function Refs(node: Node): seq<nat>
    decreases node
  {
    match node
    case TextNode(_, _) => []
    case RefNode(index, _) => [index]
    case Element(name, children) => if name == "br" then [] else RefsOfAll(children)
  }

  function RefsOfAll(nodes: seq<Node>): seq<nat>
    decreases nodes
  {
    if nodes == [] then [] else Refs(nodes[0]) + RefsOfAll(nodes[1..])
  }

  /** Increasing numbers from `low` up to `high`. */
  ghost predicate Ranges(ks: seq<nat>, low: nat, high: nat) {
    && (forall i | 0 <= i < |ks| :: low <= ks[i] < high)
    && (forall i, j | 0 <= i < j < |ks| :: ks[i] < ks[j])
  }

  /** Of `count` references numbered from `n`, these are left; all of them unless one hides. */
  ghost predicate Leaves(refs: seq<nat>, n: nat, count: nat, hides: bool) {
    Ranges(refs, n, n + count) && |refs| <= count && (|refs| == count <==> !hides)
  }

  lemma LeavesJoin(a: seq<nat>, b: seq<nat>, n: nat, m: nat, k: nat, x: bool, y: bool)
    requires Leaves(a, n, m, x) && Leaves(b, n + m, k, y)
    ensures Leaves(a + b, n, m + k, x || y)
  {}

  lemma {:induction false} RefsOfAllJoin(a: seq<Node>, b: seq<Node>)
    ensures RefsOfAll(a + b) == RefsOfAll(a) + RefsOfAll(b)
  {
    if a == [] {
      assert a + b == b;
    } else {
      RefsOfAllJoin(a[1..], b);
      assert (a + b)[1..] == a[1..] + b;
      AppendAssociates(Refs(a[0]), RefsOfAll(a[1..]), RefsOfAll(b));
    }
  }

  lemma AppendAssociates(a: seq<nat>, b: seq<nat>, c: seq<nat>)
    ensures a + (b + c) == a + b + c
  {}

  /** Each reference keeps its number, and all of them are left exactly when none is hidden. */
  lemma {:induction false} RefsLeft(page: Html, n: nat)
    ensures Leaves(RefsOfAll(Replace(page, n)), n, |Markers(page)|, Hides(page))
    decreases page
  {
    match page
    case PlainText(_, _) =>
      assert RefsOfAll(Replace(page, n)) == [];
    case Reference(children, inline) =>
      if ReferenceText(children) != "" {
        assert RefsOfAll([RefNode(n, inline)]) == [n];
      }
    case Tag(name, children) =>
      var node := Element(name, ReplaceAll(children, n));
      assert RefsOfAll([node]) == Refs(node);
      RefsOfAllLeft(children, n);
  }

  lemma {:induction false} RefsOfAllLeft(pages: seq<Html>, n: nat)
    ensures Leaves(RefsOfAll(ReplaceAll(pages, n)), n, |MarkersOfAll(pages)|, AnyHides(pages))
    decreases pages
  {
    if pages != [] {
      var middle := n + |Markers(pages[0])|;
      RefsLeft(pages[0], n);
      RefsOfAllLeft(pages[1..], middle);
      RefsOfAllJoin(Replace(pages[0], n), ReplaceAll(pages[1..], middle));
      LeavesJoin(
        RefsOfAll(Replace(pages[0], n)), RefsOfAll(ReplaceAll(pages[1..], middle)),
        n, |Markers(pages[0])|, |MarkersOfAll(pages[1..])|, Hides(pages[0]), AnyHides(pages[1..]));
    }
  }

  // -- rendering --------------------------------------------------------------------------

  const BlockTags := {
    "address", "article", "blockquote", "dd", "div", "dl", "dt", "figcaption", "figure", "footer",
    "h1", "h2", "h3", "h4", "h5", "h6", "header", "li", "main", "ol", "p", "pre", "section", "table",
    "tbody", "tfoot", "thead", "tr", "ul"}

  function InlineText(value: string): string {
    var lead := if value != "" && IsSpace(value[0]) then " " else "";
    var trail := if value != "" && IsSpace(value[|value| - 1]) then " " else "";
    var core := CleanText(value);
    if core == "" then (if lead != "" || trail != "" then " " else "") else lead + core + trail
  }

  function RenderText(text: string, inline: bool): string { if inline then InlineText(text) else text }

  /** Token strings stand where the references were. */
  function Render(node: Node, ts: seq<string>): string
    decreases node
  {
    match node
    case TextNode(text, inline) => RenderText(text, inline)
    case RefNode(index, inline) => if index < |ts| then RenderText(ts[index], inline) else ""
    case Element(name, children) =>
      if name == "br" then "\n"
      else
        var rendered := RenderAll(children, ts);
        if name == "td" || name == "th" then rendered + "\t"
        else if name in BlockTags then "\n" + rendered + "\n"
        else rendered
  }

  function RenderAll(nodes: seq<Node>, ts: seq<string>): string
    decreases nodes
  {
    if nodes == [] then "" else Render(nodes[0], ts) + RenderAll(nodes[1..], ts)
  }

  /** The text of a tree with the strings `ms` in the place of its references. */
  function TextOf(node: Node, ms: seq<string>): string
    decreases node
  {
    match node
    case TextNode(text, _) => text
    case RefNode(index, _) => if index < |ms| then ms[index] else ""
    case Element(_, children) => TextOfAll(children, ms)
  }

  function TextOfAll(nodes: seq<Node>, ms: seq<string>): string
    decreases nodes
  {
    if nodes == [] then "" else TextOf(nodes[0], ms) + TextOfAll(nodes[1..], ms)
  }

  lemma {:induction false} TextOfAllJoin(a: seq<Node>, b: seq<Node>, ms: seq<string>)
    ensures TextOfAll(a + b, ms) == TextOfAll(a, ms) + TextOfAll(b, ms)
  {
    if a == [] {
      assert a + b == b;
    } else {
      TextOfAllJoin(a[1..], b, ms);
      assert (a + b)[1..] == a[1..] + b;
      Associative(TextOf(a[0], ms), TextOfAll(a[1..], ms), TextOfAll(b, ms));
    }
  }

  /** `part` stands in `whole` from `n` on. */
  predicate StandsAt(part: seq<string>, whole: seq<string>, n: nat) {
    n + |part| <= |whole| && whole[n..n + |part|] == part
  }

  lemma StandsSplit(a: seq<string>, b: seq<string>, whole: seq<string>, n: nat)
    requires StandsAt(a + b, whole, n)
    ensures StandsAt(a, whole, n) && StandsAt(b, whole, n + |a|)
  {
    assert whole[n..n + |a|] == (a + b)[..|a|];
    assert whole[n + |a|..n + |a| + |b|] == (a + b)[|a|..];
  }

  /** With the markers back, the tree has the text of the page. */
  lemma {:induction false} TextOfPage(page: Html, n: nat, ms: seq<string>)
    requires StandsAt(Markers(page), ms, n)
    ensures TextOfAll(Replace(page, n), ms) == PageText(page)
    decreases page
  {
    match page
    case PlainText(text, inline) =>
      assert TextOfAll([TextNode(text, inline)], ms) == text + "";
    case Reference(children, inline) =>
      if ReferenceText(children) != "" {
        assert ms[n] == Markers(page)[0];
        assert TextOfAll([RefNode(n, inline)], ms) == ms[n] + "";
      }
    case Tag(name, children) =>
      var node := Element(name, ReplaceAll(children, n));
      TextOfPages(children, n, ms);
      assert TextOfAll([node], ms) == TextOf(node, ms) + "";
  }

  lemma {:induction false} TextOfPages(pages: seq<Html>, n: nat, ms: seq<string>)
    requires StandsAt(MarkersOfAll(pages), ms, n)
    ensures TextOfAll(ReplaceAll(pages, n), ms) == PageTextOfAll(pages)
    decreases pages
  {
    if pages != [] {
      var first := Markers(pages[0]);
      StandsSplit(first, MarkersOfAll(pages[1..]), ms, n);
      TextOfPage(pages[0], n, ms);
      TextOfPages(pages[1..], n + |first|, ms);
      TextOfAllJoin(Replace(pages[0], n), ReplaceAll(pages[1..], n + |first|), ms);
    }
  }

  // -- rendering keeps tokens -----------------------------------------------------------------

  lemma {:induction false} DropSolid(t: string)
    requires Solid(t)
    ensures DropLeft(t, IsSpace) == t && DropRight(t, IsSpace) == t
  {}

  lemma InlineToken(t: string)
    requires IsToken(t)
    ensures InlineText(t) == t
  {
    SolidCore(t);
    EndsSolid(t);
    assert "" + t + "" == t;
  }

  lemma SolidCore(t: string)
    requires Solid(t)
    ensures CleanText(t) == t
  {
    CollapseSolid(t, false);
    DropSolid(t);
  }

  lemma EndsSolid(t: string)
    requires IsToken(t)
    ensures t != "" && !IsSpace(t[0]) && !IsSpace(t[|t| - 1])
  {}

  /** Text collapsed between its own ends. */
  lemma InlineThins(v: string)
    ensures Thins(InlineText(v), v)
  {
    if v == "" {
      ThinsSame("");
    } else {
      var k, n := CoreThins(v);
      if CleanText(v) == "" {
        SpaceThins(' ', v);
      } else {
        EndsThin(v, k, n, CleanText(v), IsSpace(v[0]), IsSpace(v[|v| - 1]));
      }
    }
  }

  lemma CoreThins(v: string) returns (k: nat, n: nat)
    requires v != ""
    ensures k <= n <= |v| && Thins(CleanText(v), v[k..n])
    ensures CleanText(v) == "" ==> IsSpace(v[0])
    ensures CleanText(v) != "" ==> (!IsSpace(v[0]) ==> k == 0) && (!IsSpace(v[|v| - 1]) ==> n == |v|)
  {
    ThinsSame(v);
    CollapsedGap(v, v);
    CollapsedEnds(v);
    CoreEnds(v);
    k := DropLeftGap(Collapse(v), v);
    var m := DropRightGap(DropLeft(Collapse(v), IsSpace), v[k..]);
    n := k + m;
    assert v[k..][..m] == v[k..n];
  }

  lemma EndsThin(v: string, k: nat, n: nat, core: string, lead: bool, trail: bool)
    requires k <= n <= |v| && Thins(core, v[k..n]) && (!lead ==> k == 0) && (!trail ==> n == |v|)
    ensures Thins(End(lead) + core + End(trail), v)
  {
    EndThins(v[..k], lead);
    EndThins(v[n..], trail);
    ThinsJoin(End(lead), v[..k], core, v[k..n]);
    ThinsJoin(End(lead) + core, v[..k] + v[k..n], End(trail), v[n..]);
    assert v[..k] + v[k..n] + v[n..] == v;
  }

  function End(space: bool): string { if space then " " else "" }

  lemma EndThins(y: string, space: bool)
    requires !space ==> y == ""
    ensures Thins(End(space), y)
  {
    if space { SpaceThins(' ', y); }
  }

  lemma {:induction false} CollapsedEnds(v: string)
    requires v != ""
    ensures var c := Collapse(v);
            && c != "" && IsSpace(c[0]) == IsSpace(v[0])
            && IsSpace(c[|c| - 1]) == IsSpace(v[|v| - 1])
  {
    var init, last := v[..|v| - 1], [v[|v| - 1]];
    assert v == init + last;
    CollapseAppend(init, last, false);
    CollapseStep(v, false);
    LastCollapsed(v, init, last);
  }

  /** The last character of a string that ends in a space was collapsed into one before it. */
  lemma {:induction false} LastCollapsed(v: string, init: string, last: string)
    requires |last| == 1 && v == init + last
    ensures var c := Collapse(v); c != "" && IsSpace(c[|c| - 1]) == IsSpace(last[0])
    decreases |init|
  {
    CollapseAppend(init, last, false);
    CollapseStep(last, InRun(init, false));
    assert last[1..] == "";
    if init != "" && IsSpace(init[|init| - 1]) && IsSpace(last[0]) {
      LastCollapsed(init, init[..|init| - 1], init[|init| - 1..]);
      assert Collapse(last, true) == "";
    }
  }

  /** Where stripping begins and ends. */
  lemma CoreEnds(v: string)
    requires v != ""
    ensures var rest := DropLeft(Collapse(v), IsSpace);
            && (!IsSpace(v[0]) ==> rest == Collapse(v) && CleanText(v) != "")
            && (CleanText(v) != "" && !IsSpace(v[|v| - 1]) ==> rest != "" && !IsSpace(rest[|rest| - 1]))
            && (CleanText(v) == "" ==> IsSpace(v[0]))
  {
    CollapsedEnds(v);
    var c := Collapse(v);
    var k := DropLeftIsTail(c);
    assert DropLeft(c, IsSpace) != "" ==> c[k..][|c| - k - 1] == c[|c| - 1];
    DropRightKeepsHead(DropLeft(c, IsSpace), IsSpace);
    assert IsSpace(v[0]) || DropLeft(c, IsSpace) == c;
  }

  ghost predicate Within(refs: seq<nat>, n: nat) { forall i | 0 <= i < |refs| :: refs[i] < n }

  /** Rendering puts the tokens of the tree's references in document order and thins the text between them. */
  lemma {:induction false} RenderCarries(node: Node, ts: seq<string>, ms: seq<string>)
    requires AllTokens(ts) && |ts| == |ms| && Within(Refs(node), |ts|)
    ensures Carries(Render(node, ts), Strings(Refs(node), ts), Strings(Refs(node), ms), TextOf(node, ms))
    decreases node
  {
    match node
    case TextNode(text, _) =>
      InlineThins(text);
      ThinsSame(text);
    case RefNode(index, inline) =>
      assert Refs(node)[0] == index;
      InlineToken(ts[index]);
      CarriesToken(ts[index], ms[index]);
      assert Strings(Refs(node), ts) == [ts[index]] && Strings(Refs(node), ms) == [ms[index]];
    case Element(name, children) =>
      if name == "br" {
        SpaceThins('\n', TextOf(node, ms));
      } else {
        RenderAllCarries(children, ts, ms);
        var refs := RefsOfAll(children);
        Surrounded(RenderAll(children, ts), Strings(refs, ts), Strings(refs, ms), TextOf(node, ms));
      }
  }

  /** White space around rendered text. */
  lemma Surrounded(s: string, ts: seq<string>, ms: seq<string>, y: string)
    requires |ts| == |ms| && Carries(s, ts, ms, y)
    ensures Carries(s + "\t", ts, ms, y) && Carries("\n" + s + "\n", ts, ms, y)
  {
    SpaceThins('\t', "");
    SpaceThins('\n', "");
    assert ts + [] == ts && ms + [] == ms && y + "" == y && "" + y == y;
    CarriesJoin(s, ts, ms, y, "\t", [], [], "");
    CarriesAfter("\n", "", s, ts, ms, y);
    CarriesJoin("\n" + s, ts, ms, y, "\n", [], [], "");
  }

  lemma {:induction false} RenderAllCarries(nodes: seq<Node>, ts: seq<string>, ms: seq<string>)
    requires AllTokens(ts) && |ts| == |ms| && Within(RefsOfAll(nodes), |ts|)
    ensures Carries(
              RenderAll(nodes, ts), Strings(RefsOfAll(nodes), ts), Strings(RefsOfAll(nodes), ms), TextOfAll(nodes, ms))
    decreases nodes
  {
    if nodes == [] {
      ThinsSame("");
    } else {
      var first, rest := Refs(nodes[0]), RefsOfAll(nodes[1..]);
      WithinSplit(first, rest, |ts|);
      RenderCarries(nodes[0], ts, ms);
      RenderAllCarries(nodes[1..], ts, ms);
      CarriesJoin(
        Render(nodes[0], ts), Strings(first, ts), Strings(first, ms), TextOf(nodes[0], ms),
        RenderAll(nodes[1..], ts), Strings(rest, ts), Strings(rest, ms), TextOfAll(nodes[1..], ms));
      StringsJoin(first, rest, ts);
      StringsJoin(first, rest, ms);
    }
  }

  lemma WithinSplit(a: seq<nat>, b: seq<nat>, n: nat)
    requires Within(a + b, n)
    ensures Within(a, n) && Within(b, n)
  {
    forall i | 0 <= i < |a| ensures a[i] < n { assert (a + b)[i] == a[i]; }
    forall i | 0 <= i < |b| ensures b[i] < n { assert (a + b)[|a| + i] == b[i]; }
  }

  lemma StringsJoin(a: seq<nat>, b: seq<nat>, ts: seq<string>)
    requires Within(a, |ts|) && Within(b, |ts|) && Within(a + b, |ts|)
    ensures Strings(a + b, ts) == Strings(a, ts) + Strings(b, ts)
  {}

  // -- the serializer ------------------------------------------------------------------------

  function CleanedText(page: Html, ts: seq<string>): string { CleanMultiline(RenderAll(Replace(page, 0), ts)) }

  /** One token for each reference that has text. */
  method Serialize(page: Html, ts: seq<string>) returns (r: Resolved)
    requires |ts| == |Markers(page)|
    ensures r == Substituted(CleanedText(page, ts), ts, Markers(page), |ts|)
  {
    var text := CleanMultiline(RenderAll(Replace(page, 0), ts));
    r := Substitute(text, ts, Markers(page));
  }

  /** The text left of a page: its cleaned text with every token replaced by its marker, and the markers' spans. */
  ghost predicate Serializes(r: Resolved, page: Html, ts: seq<string>, gaps: seq<string>)
    requires |ts| == |Markers(page)|
  {
    && |gaps| == |ts| + 1 && CleanedText(page, ts) == Interleave(gaps, ts)
    && Replaced(r, gaps, Markers(page))
    && CarriesPart(r.text, [], [], PageText(page))
  }

  /** The cleaned text is the left tokens between gaps, and it brings up no token the page does not hold. */
  lemma CleanedTextIs(page: Html, ts: seq<string>) returns (gaps: seq<string>, refs: seq<nat>)
    requires |ts| == |Markers(page)| && AllTokens(ts) && TokenFree(PageText(page), ts)
    ensures refs == RefsOfAll(Replace(page, 0)) && |gaps| == |refs| + 1
    ensures Increasing(refs, |ts|) && |refs| <= |ts| && (|refs| == |ts| <==> !Hides(page))
    ensures CleanedText(page, ts) == Interleave(gaps, Strings(refs, ts))
    ensures TokenFree(Interleave(gaps, Strings(refs, Markers(page))), ts)
    ensures CarriesPart(Interleave(gaps, Strings(refs, Markers(page))), [], [], PageText(page))
  {
    var ms, nodes := Markers(page), Replace(page, 0);
    refs := RefsOfAll(nodes);
    RefsLeft(page, 0);
    RenderAllCarries(nodes, ts, ms);
    TextOfPage(page, 0, ms);
    var xs, ys := Strings(refs, ts), Strings(refs, ms);
    assert AllTokens(xs);
    CleaningCarries(RenderAll(nodes, ts), xs, ys, PageText(page));
    gaps := PartIsFree(CleanedText(page, ts), xs, ys, PageText(page), ts);
  }

  /**
    Tokens that the page's text does not hold: serializing loses a reference exactly when one is hidden, and the error
    names the first hidden one. Otherwise every token gives way to its marker, the recorded offsets of the references,
    in document order, cover exactly their markers, and the text is that of the page but for white space and dropped
    lines.
   */
  lemma SerializationIsExact(page: Html, ts: seq<string>)
    requires |ts| == |Markers(page)| && AllTokens(ts) && AllApart(ts) && TokenFree(PageText(page), ts)
    ensures var r := Substituted(CleanedText(page, ts), ts, Markers(page), |ts|);
            && (r.Lost? <==> Hides(page))
            && (Hides(page) ==> exists i :: 0 <= i < |ts| && r == Lost(ts[i]) && FirstHidden(page, i))
            && (!Hides(page) ==> exists gaps :: Serializes(r, page, ts, gaps))
  {
    if Hides(page) {
      var i := HiddenIsLost(page, ts);
    } else {
      var gaps := ShownIsReplaced(page, ts);
    }
  }

  lemma HiddenIsLost(page: Html, ts: seq<string>) returns (i: nat)
    requires |ts| == |Markers(page)| && AllTokens(ts) && AllApart(ts) && TokenFree(PageText(page), ts) && Hides(page)
    ensures i < |ts| && FirstHidden(page, i)
    ensures Substituted(CleanedText(page, ts), ts, Markers(page), |ts|) == Lost(ts[i])
  {
    var gaps, refs := CleanedTextIs(page, ts);
    SubstitutionIsDecided(gaps, refs, ts, Markers(page));
    i := FirstMissing(refs);
    FirstIsMissing(refs, |ts|);
  }

  lemma FirstIsMissing(refs: seq<nat>, n: nat)
    requires Increasing(refs, n) && |refs| < n
    ensures FirstMissing(refs) !in refs && forall j: nat | j < FirstMissing(refs) :: j in refs
  {
    FirstMissingIsSmall(refs, n);
    var i := FirstMissing(refs);
    forall j: nat | j < i ensures j in refs { assert refs[j] == j; }
  }

  lemma ShownIsReplaced(page: Html, ts: seq<string>) returns (gaps: seq<string>)
    requires |ts| == |Markers(page)| && AllTokens(ts) && AllApart(ts) && TokenFree(PageText(page), ts) && !Hides(page)
    ensures Serializes(Substituted(CleanedText(page, ts), ts, Markers(page), |ts|), page, ts, gaps)
  {
    var refs;
    gaps, refs := CleanedTextIs(page, ts);
    SubstitutionIsDecided(gaps, refs, ts, Markers(page));
    AllArePresent(refs, ts);
    AllArePresent(refs, Markers(page));
  }

  /** The references before the `i`-th are left in the tree, and it is not. */
  ghost predicate FirstHidden(page: Html, i: nat) {
    var refs := RefsOfAll(Replace(page, 0));
    i !in refs && forall j: nat | j < i :: j in refs
  }

  // -- a page that loses a reference -----------------------------------------------------------

  /** Two words, the second one a reference inside the reference around both. */
  function Inner(inner: string): Html { Reference([PlainText(inner, true)], true) }

  function Nested(outer: string, inner: string): Html { Reference([PlainText(outer, true), Inner(inner)], true) }

  lemma BeginsWithText(v: string)
    requires v != "" && !IsSpace(v[0])
    ensures CleanText(v) != ""
  {
    CoreEnds(v);
  }

  lemma WordsOfOne(t: string)
    requires t != "" && Solid(t)
    ensures Words(PlainText(t, true)) == [t] && Words(Inner(t)) == [t]
    ensures ReferenceText([PlainText(t, true)]) != ""
    ensures Markers(Inner(t)) == [Marker(ReferenceText([PlainText(t, true)]))]
  {
    DropSolid(t);
    var text := PlainText(t, true);
    assert WordsOfAll([text]) == Words(text) + [];
    BeginsWithText(t);
    assert MarkersOfAll([text]) == [];
  }

  lemma NestedMarkers(outer: string, inner: string)
    requires outer != "" && inner != "" && Solid(outer) && Solid(inner)
    ensures |Markers(Nested(outer, inner))| == 2 && Hides(Nested(outer, inner))
    ensures Replace(Nested(outer, inner), 0) == [RefNode(0, true)]
  {
    WordsOfOne(outer);
    WordsOfOne(inner);
    var text, children := PlainText(outer, true), [PlainText(outer, true), Inner(inner)];
    assert children[1..] == [Inner(inner)];
    assert WordsOfAll([Inner(inner)]) == [inner] + [];
    assert WordsOfAll(children) == [outer] + [inner];
    var words := [outer] + [inner];
    assert words[1..] == [inner];
    assert Join(words, " ") == outer + " " + inner;
    BeginsWithText(outer + " " + inner);
    assert MarkersOfAll([Inner(inner)]) == Markers(Inner(inner)) + [];
    assert MarkersOfAll(children) == [] + Markers(Inner(inner));
  }

  /** The token of the inner reference is detached with the outer one, and serializing fails on it. */
  lemma NestedReferenceIsLost(outer: string, inner: string, ts: seq<string>)
    requires outer != "" && inner != "" && Solid(outer) && Solid(inner)
    requires |ts| == 2 && AllTokens(ts) && AllApart(ts) && TokenFree(PageText(Nested(outer, inner)), ts)
    ensures |Markers(Nested(outer, inner))| == 2
    ensures Substituted(CleanedText(Nested(outer, inner), ts), ts, Markers(Nested(outer, inner)), 2) == Lost(ts[1])
  {
    var page := Nested(outer, inner);
    NestedMarkers(outer, inner);
    assert RefsOfAll([RefNode(0, true)]) == [0] + [];
    var i := HiddenIsLost(page, ts);
    assert RefsOfAll(Replace(page, 0)) == [0];
  }
}
