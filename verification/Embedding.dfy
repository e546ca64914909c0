/** Which units are embedded and with what text (infrastructure/embedding/embedding_generator.py). */
module Embedding {
  import opened Prelude
  import opened Text

  type Id = string

  datatype Kind = Appendix | Article | Clause | OtherKind(name: string)

  /** The fields the embedding texts read; absent fields are blank. */
  datatype Node = Node(id: Id, kind: Kind, number: string, heading: string, title: string, contentRaw: string,
    content: string)

  datatype Relation = Relation(contains: bool, head: Id, tail: Id)

  datatype Payload = Payload(nodes: seq<Node>, relations: seq<Relation>)

  // -- containment ------------------------------------------------------------------

  predicate Contains(rs: seq<Relation>, a: Id, b: Id) {
    exists i | 0 <= i < |rs| :: rs[i].contains && rs[i].head == a && rs[i].tail == b
  }

  /** One or more CONTAINS edges lead from the first node of the walk to the last. */
  ghost predicate IsWalk(rs: seq<Relation>, w: seq<Id>) {
    |w| >= 2 && forall i | 0 <= i < |w| - 1 :: Contains(rs, w[i], w[i + 1])
  }

  ghost predicate Below(rs: seq<Relation>, a: Id, b: Id) {
    exists w :: IsWalk(rs, w) && w[0] == a && w[|w| - 1] == b
  }

  lemma BelowDirect(rs: seq<Relation>, a: Id, b: Id)
    requires Contains(rs, a, b)
    ensures Below(rs, a, b)
  {
    assert IsWalk(rs, [a, b]);
  }

  lemma BelowStep(rs: seq<Relation>, a: Id, b: Id, c: Id)
    requires Below(rs, a, b) && Contains(rs, b, c)
    ensures Below(rs, a, c)
  {
    var w :| IsWalk(rs, w) && w[0] == a && w[|w| - 1] == b;
    var v := w + [c];
    forall i | 0 <= i < |v| - 1 ensures Contains(rs, v[i], v[i + 1]) {
      if i < |w| - 1 { assert Contains(rs, w[i], w[i + 1]); }
    }
    assert IsWalk(rs, v);
  }

  /** The type recorded last for an id. */
  function KindOf(nodes: seq<Node>, id: Id): Option<Kind> {
    if nodes == [] then None
    else if nodes[|nodes| - 1].id == id then Some(nodes[|nodes| - 1].kind)
    else KindOf(nodes[..|nodes| - 1], id)
  }

  ghost predicate HasArticleBelow(p: Payload, id: Id) {
    exists x :: Below(p.relations, id, x) && KindOf(p.nodes, x) == Some(Article)
  }

  /** Articles and Clauses, and Appendices that contain no Article at any depth. */
  ghost predicate IsTarget(p: Payload, n: Node) {
    n.kind == Article || n.kind == Clause || (n.kind == Appendix && !HasArticleBelow(p, n.id))
  }

  ghost function Filtered(p: Payload, nodes: seq<Node>): (r: seq<Node>)
    ensures forall n :: n in r <==> n in nodes && IsTarget(p, n)
  {
    if nodes == [] then []
    else
      var before, last := Filtered(p, nodes[..|nodes| - 1]), nodes[|nodes| - 1];
      assert nodes == nodes[..|nodes| - 1] + [last];
      if IsTarget(p, last) then before + [last] else before
  }

  // -- the search --------------------------------------------------------------------

  function Get(m: map<Id, seq<Id>>, id: Id): seq<Id> { if id in m then m[id] else [] }

  /** The children lists are those of the relations. */
  ghost predicate ChildrenOf(children: map<Id, seq<Id>>, rs: seq<Relation>) {
    forall a, b :: b in Get(children, a) <==> Contains(rs, a, b)
  }

  method CollectChildren(rs: seq<Relation>) returns (children: map<Id, seq<Id>>)
    ensures ChildrenOf(children, rs)
  {
    children := map[];
    for i := 0 to |rs|
      invariant ChildrenOf(children, rs[..i])
    {
      NoteKeeps(children, rs, i);
      if !rs[i].contains {
        continue;
      }
      children := Noted(children, rs[i]);
    }
    assert rs[..|rs|] == rs;
  }

  function Noted(children: map<Id, seq<Id>>, r: Relation): map<Id, seq<Id>> {
    children[r.head := Get(children, r.head) + [r.tail]]
  }

  lemma NoteKeeps(children: map<Id, seq<Id>>, rs: seq<Relation>, i: nat)
    requires i < |rs| && ChildrenOf(children, rs[..i])
    ensures ChildrenOf(if rs[i].contains then Noted(children, rs[i]) else children, rs[..i + 1])
  {
    ContainsStep(rs, i);
    var after := if rs[i].contains then Noted(children, rs[i]) else children;
    forall a, b ensures b in Get(after, a) <==> Contains(rs[..i + 1], a, b) {
      assert b in Get(children, a) <==> Contains(rs[..i], a, b);
    }
  }

  lemma ContainsStep(rs: seq<Relation>, i: nat)
    requires i < |rs|
    ensures forall a, b :: Contains(rs[..i + 1], a, b)
                           <==> Contains(rs[..i], a, b) || (rs[i].contains && a == rs[i].head && b == rs[i].tail)
  {
    forall a, b ensures Contains(rs[..i + 1], a, b)
                        <==> Contains(rs[..i], a, b) || (rs[i].contains && a == rs[i].head && b == rs[i].tail)
    {
      assert forall j | 0 <= j < i :: rs[..i + 1][j] == rs[..i][j];
      assert rs[..i + 1][i] == rs[i];
    }
  }

  function Tails(rs: seq<Relation>): set<Id> { set r | r in rs :: r.tail }

  lemma ContainedIsTail(rs: seq<Relation>, a: Id, b: Id)
    requires Contains(rs, a, b)
    ensures b in Tails(rs)
  {}

  /** Everything directly below the start or below a seen node has been seen or is still to be visited. */
  ghost predicate Closed(rs: seq<Relation>, start: Id, seen: set<Id>, pending: seq<Id>) {
    forall a, b | (a == start || a in seen) && Contains(rs, a, b) :: b in seen || b in pending
  }

  ghost predicate AllBelow(rs: seq<Relation>, start: Id, seen: set<Id>, pending: seq<Id>) {
    && (forall x | x in seen :: Below(rs, start, x))
    && (forall x | x in pending :: Below(rs, start, x))
  }

  lemma {:induction false} WalkIsSeen(rs: seq<Relation>, start: Id, seen: set<Id>, w: seq<Id>)
    requires Closed(rs, start, seen, []) && IsWalk(rs, w) && w[0] == start
    ensures w[|w| - 1] in seen
  {
    var n := |w| - 2;
    assert Contains(rs, w[n], w[n + 1]);
    if n > 0 {
      WalkIsSeen(rs, start, seen, w[..|w| - 1]);
    }
  }

  /** Depth-first over an explicit stack; cycles are cut by the seen set. */
  method ReachesArticle(p: Payload, children: map<Id, seq<Id>>, start: Id) returns (found: bool)
    requires ChildrenOf(children, p.relations)
    ensures found <==> HasArticleBelow(p, start)
  {
    var pending := Get(children, start);
    var seen: set<Id> := {};
    StartClosed(p.relations, children, start);
    while pending != []
      invariant Closed(p.relations, start, seen, pending) && AllBelow(p.relations, start, seen, pending)
      invariant seen <= Tails(p.relations)
      invariant forall x | x in seen :: KindOf(p.nodes, x) != Some(Article)
      decreases Tails(p.relations) - seen, |pending|
    {
      var child := pending[|pending| - 1];
      var rest := pending[..|pending| - 1];
      assert pending == rest + [child];
      if child in seen {
        pending := rest;
        continue;
      }
      BelowIsTail(p.relations, start, child);
      if KindOf(p.nodes, child) == Some(Article) {
        return true;
      }
      VisitKeepsClosed(p.relations, children, start, seen, rest, child);
      seen := seen + {child};
      pending := rest + Get(children, child);
    }
    found := false;
    if x :| Below(p.relations, start, x) && KindOf(p.nodes, x) == Some(Article) {
      var w :| IsWalk(p.relations, w) && w[0] == start && w[|w| - 1] == x;
      WalkIsSeen(p.relations, start, seen, w);
      assert false;
    }
  }

  lemma BelowIsTail(rs: seq<Relation>, a: Id, b: Id)
    requires Below(rs, a, b)
    ensures b in Tails(rs)
  {
    var w :| IsWalk(rs, w) && w[0] == a && w[|w| - 1] == b;
    assert Contains(rs, w[|w| - 2], w[|w| - 2 + 1]);
    ContainedIsTail(rs, w[|w| - 2], b);
  }

  lemma StartClosed(rs: seq<Relation>, children: map<Id, seq<Id>>, start: Id)
    requires ChildrenOf(children, rs)
    ensures Closed(rs, start, {}, Get(children, start)) && AllBelow(rs, start, {}, Get(children, start))
  {
    forall x | x in Get(children, start) ensures Below(rs, start, x) { BelowDirect(rs, start, x); }
  }

  lemma VisitKeepsClosed(
      rs: seq<Relation>, children: map<Id, seq<Id>>, start: Id, seen: set<Id>, rest: seq<Id>, child: Id)
    requires ChildrenOf(children, rs)
    requires Closed(rs, start, seen, rest + [child]) && AllBelow(rs, start, seen, rest + [child])
    ensures Closed(rs, start, seen + {child}, rest + Get(children, child))
    ensures AllBelow(rs, start, seen + {child}, rest + Get(children, child))
  {
    assert child in rest + [child];
    forall x | x in rest + Get(children, child) ensures Below(rs, start, x) {
      if x in rest {
        assert x in rest + [child];
      } else {
        BelowStep(rs, start, child, x);
      }
    }
    forall a, b | (a == start || a in seen + {child}) && Contains(rs, a, b)
      ensures b in seen + {child} || b in rest + Get(children, child)
    {
      if a == start || a in seen { assert b in seen || b in rest + [child]; }
    }
  }

  method EmbeddingTargets(p: Payload) returns (targets: seq<Node>)
    ensures targets == Filtered(p, p.nodes)
  {
    var children := CollectChildren(p.relations);
    var withArticles: set<Id> := {};
    for i := 0 to |p.nodes|
      invariant forall id :: id in withArticles ==> HasArticleBelow(p, id)
      invariant forall j | 0 <= j < i && p.nodes[j].kind == Appendix ::
        p.nodes[j].id in withArticles <==> HasArticleBelow(p, p.nodes[j].id)
    {
      if p.nodes[i].kind != Appendix {
        continue;
      }
      var found := ReachesArticle(p, children, p.nodes[i].id);
      if found {
        withArticles := withArticles + {p.nodes[i].id};
      }
    }
    targets := [];
    for i := 0 to |p.nodes|
      invariant targets == Filtered(p, p.nodes[..i])
    {
      assert p.nodes[..i + 1][..i] == p.nodes[..i];
      var n := p.nodes[i];
      if n.kind == Article || n.kind == Clause || (n.kind == Appendix && n.id !in withArticles) {
        targets := targets + [n];
      }
    }
    assert p.nodes[..|p.nodes|] == p.nodes;
  }

  // -- texts ------------------------------------------------------------------------------

  function CleanParts(parts: seq<string>): seq<string> {
    if parts == [] then []
    else (if IsBlank(parts[0]) then [] else [Strip(parts[0])]) + CleanParts(parts[1..])
  }

  function ArticleText(a: Node): string { Join(CleanParts([a.title, a.contentRaw]), "\n") }

  function AppendixText(a: Node): string { Join(CleanParts([a.heading, a.title, a.contentRaw]), "\n") }

  function Numbered(word: string, number: string): string { if number == "" then "" else word + " " + number + "." }

  function ClauseText(article: Option<Node>, clause: Node): string {
    var header := match article
      case None => ""
      case Some(a) => Join(CleanParts([Numbered("Điều", a.number), a.title]), " ");
    var body := Join(CleanParts([Numbered("Khoản", clause.number),
                                     if clause.contentRaw != "" then clause.contentRaw else clause.content]), " ");
    Join(CleanParts([header, body]), "\n")
  }

  /** The node recorded last for an id. */
  function NodeOf(nodes: seq<Node>, id: Id): (r: Option<Node>)
    ensures r.Some? ==> r.value in nodes && r.value.id == id
    ensures r.None? ==> forall n | n in nodes :: n.id != id
  {
    if nodes == [] then None
    else
      assert nodes == nodes[..|nodes| - 1] + [nodes[|nodes| - 1]];
      if nodes[|nodes| - 1].id == id then Some(nodes[|nodes| - 1]) else NodeOf(nodes[..|nodes| - 1], id)
  }

  predicate GivesParent(nodes: seq<Node>, r: Relation, clause: Id) {
    && r.contains && r.tail == clause
    && NodeOf(nodes, r.head).Some? && NodeOf(nodes, r.head).value.kind == Article
    && NodeOf(nodes, r.tail).Some? && NodeOf(nodes, r.tail).value.kind == Clause
  }

  /** The Article of the last relation that puts the clause in one. */
  function ParentArticle(nodes: seq<Node>, rs: seq<Relation>, clause: Id): (r: Option<Node>)
    ensures r.Some? <==> exists i | 0 <= i < |rs| :: GivesParent(nodes, rs[i], clause)
    ensures r.Some? ==> exists i | 0 <= i < |rs| :: GivesParent(nodes, rs[i], clause) && r == NodeOf(nodes, rs[i].head)
  {
    if rs == [] then None
    else
      var init, last := rs[..|rs| - 1], rs[|rs| - 1];
      assert forall i | 0 <= i < |init| :: init[i] == rs[i];
      if GivesParent(nodes, last, clause) then NodeOf(nodes, last.head) else ParentArticle(nodes, init, clause)
  }

  function TextOf(p: Payload, n: Node): string {
    match n.kind
    case Article => ArticleText(n)
    case Appendix => AppendixText(n)
    case _ => ClauseText(ParentArticle(p.nodes, p.relations, n.id), n)
  }

  function LastText(p: Payload, targets: seq<Node>, id: Id): Option<string> {
    match NodeOf(targets, id)
    case None => None
    case Some(n) => Some(TextOf(p, n))
  }

  /** Two parts with the glue between them, if both are there. */
  function Beside(a: string, glue: string, b: string): string {
    if a == "" then b else if b == "" then a else a + glue + b
  }

  /** The node recorded last for an id. */
  ghost predicate IsNode(nodes: seq<Node>, id: Id, n: Node) {
    exists i | 0 <= i < |nodes| :: nodes[i] == n && n.id == id && forall j | i < j < |nodes| :: nodes[j].id != id
  }

  /** The relation puts the clause in the Article. */
  ghost predicate PutsIn(p: Payload, r: Relation, clause: Id, article: Node) {
    && r.contains && r.tail == clause && IsNode(p.nodes, r.head, article) && article.kind == Article
    && exists c :: IsNode(p.nodes, clause, c) && c.kind == Clause
  }

  /** The Article a clause is in, by the last relation that puts it in one. */
  ghost predicate IsIn(p: Payload, clause: Id, article: Node) {
    exists i | 0 <= i < |p.relations| ::
      && PutsIn(p, p.relations[i], clause, article)
      && forall j, a | i < j < |p.relations| :: !PutsIn(p, p.relations[j], clause, a)
  }

  ghost predicate IsInNone(p: Payload, clause: Id) {
    forall j, a | 0 <= j < |p.relations| :: !PutsIn(p, p.relations[j], clause, a)
  }

  function Line(word: string, number: string, text: string): string {
    Beside(if number == "" then "" else word + " " + number + ".", " ", Strip(text))
  }

  function ArticleHeader(a: Node): string { Line("Điều", a.number, a.title) }

  /** A clause's own line; the plain content is used only when there is no raw content. */
  function ClauseLine(c: Node): string {
    Line("Khoản", c.number, if c.contentRaw != "" then c.contentRaw else c.content)
  }

  /** What is embedded of a unit: its own text, a clause's under the header of the Article it is in. */
  ghost predicate IsTextOf(p: Payload, n: Node, text: string) {
    match n.kind
    case Article => text == Beside(Strip(n.title), "\n", Strip(n.contentRaw))
    case Appendix => text == Beside(Strip(n.heading), "\n", Beside(Strip(n.title), "\n", Strip(n.contentRaw)))
    case _ =>
      || (IsInNone(p, n.id) && text == ClauseLine(n))
      || exists a :: IsIn(p, n.id, a) && text == Beside(ArticleHeader(a), "\n", ClauseLine(n))
  }

  /** The last target with the id. */
  ghost predicate IsTargetOf(p: Payload, id: Id, n: Node) {
    exists i | 0 <= i < |p.nodes| ::
      && p.nodes[i] == n && n.id == id && IsTarget(p, n)
      && forall j | i < j < |p.nodes| && IsTarget(p, p.nodes[j]) :: p.nodes[j].id != id
  }

  lemma {:induction false} NodeOfIs(nodes: seq<Node>, id: Id, n: Node)
    ensures NodeOf(nodes, id) == Some(n) <==> IsNode(nodes, id, n)
  {
    if nodes != [] {
      var init, last := nodes[..|nodes| - 1], nodes[|nodes| - 1];
      NodeOfIs(init, id, n);
      assert nodes == init + [last];
      if last.id == id {
        assert nodes[|init|] == last;
        if i :| 0 <= i < |nodes| && nodes[i] == n && n.id == id && forall j | i < j < |nodes| :: nodes[j].id != id {
          assert i == |init|;
        }
      } else {
        NodeInit(init, last, id, n);
      }
    }
  }

  lemma NodeInit(init: seq<Node>, last: Node, id: Id, n: Node)
    requires last.id != id
    ensures IsNode(init + [last], id, n) <==> IsNode(init, id, n)
  {
    var nodes := init + [last];
    if i :| 0 <= i < |init| && init[i] == n && n.id == id && forall j | i < j < |init| :: init[j].id != id {
      assert nodes[i] == n;
      assert forall j | i < j < |init| :: nodes[j] == init[j];
    }
    if i :| 0 <= i < |nodes| && nodes[i] == n && n.id == id && forall j | i < j < |nodes| :: nodes[j].id != id {
      assert init[i] == n;
      assert forall j | i < j < |init| :: init[j] == nodes[j];
    }
  }

  lemma {:induction false} TargetOfIs(p: Payload, nodes: seq<Node>, id: Id, n: Node)
    ensures NodeOf(Filtered(p, nodes), id) == Some(n)
            <==> exists i | 0 <= i < |nodes| ::
                   && nodes[i] == n && n.id == id && IsTarget(p, n)
                   && forall j | i < j < |nodes| && IsTarget(p, nodes[j]) :: nodes[j].id != id
  {
    if nodes != [] {
      var init, last := nodes[..|nodes| - 1], nodes[|nodes| - 1];
      TargetOfIs(p, init, id, n);
      assert nodes == init + [last];
      var targets := Filtered(p, init);
      if IsTarget(p, last) { assert (targets + [last])[..|targets|] == targets; }
      TargetInit(p, init, last, id, n);
    }
  }

  lemma TargetInit(p: Payload, init: seq<Node>, last: Node, id: Id, n: Node)
    ensures var nodes := init + [last];
      (exists i | 0 <= i < |nodes| ::
         && nodes[i] == n && n.id == id && IsTarget(p, n)
         && forall j | i < j < |nodes| && IsTarget(p, nodes[j]) :: nodes[j].id != id)
      <==> if IsTarget(p, last) && last.id == id then n == last
           else exists i | 0 <= i < |init| ::
                  && init[i] == n && n.id == id && IsTarget(p, n)
                  && forall j | i < j < |init| && IsTarget(p, init[j]) :: init[j].id != id
  {
    var nodes := init + [last];
    assert nodes[|init|] == last;
    if i :| 0 <= i < |init| && init[i] == n && n.id == id && IsTarget(p, n)
            && forall j | i < j < |init| && IsTarget(p, init[j]) :: init[j].id != id {
      assert nodes[i] == n;
      assert forall j | i < j < |init| :: nodes[j] == init[j];
    }
    if i :| 0 <= i < |init| && nodes[i] == n && n.id == id && IsTarget(p, n)
            && forall j | i < j < |nodes| && IsTarget(p, nodes[j]) :: nodes[j].id != id {
      assert init[i] == n;
      assert forall j | i < j < |init| :: nodes[j] == init[j];
    }
  }

  lemma GivesParentIs(p: Payload, r: Relation, clause: Id)
    ensures if GivesParent(p.nodes, r, clause)
            then NodeOf(p.nodes, r.head).Some? && PutsIn(p, r, clause, NodeOf(p.nodes, r.head).value)
            else forall a :: !PutsIn(p, r, clause, a)
    ensures forall a | PutsIn(p, r, clause, a) :: NodeOf(p.nodes, r.head) == Some(a)
  {
    forall id, n ensures NodeOf(p.nodes, id) == Some(n) <==> IsNode(p.nodes, id, n) { NodeOfIs(p.nodes, id, n); }
    if GivesParent(p.nodes, r, clause) {
      assert IsNode(p.nodes, r.head, NodeOf(p.nodes, r.head).value);
      assert IsNode(p.nodes, r.tail, NodeOf(p.nodes, r.tail).value);
    }
  }

  lemma {:induction false} ParentArticleIs(p: Payload, rs: seq<Relation>, clause: Id)
    ensures match ParentArticle(p.nodes, rs, clause)
            case None => forall j, a | 0 <= j < |rs| :: !PutsIn(p, rs[j], clause, a)
            case Some(a) => exists i | 0 <= i < |rs| ::
                              && PutsIn(p, rs[i], clause, a)
                              && forall j, b | i < j < |rs| :: !PutsIn(p, rs[j], clause, b)
  {
    if rs != [] {
      var init, last := rs[..|rs| - 1], rs[|rs| - 1];
      ParentArticleIs(p, init, clause);
      GivesParentIs(p, last, clause);
      assert rs == init + [last];
      if !GivesParent(p.nodes, last, clause) && ParentArticle(p.nodes, init, clause).Some? {
        var a := ParentArticle(p.nodes, init, clause).value;
        var i :| 0 <= i < |init| && PutsIn(p, init[i], clause, a)
                 && forall j, b | i < j < |init| :: !PutsIn(p, init[j], clause, b);
        assert rs[i] == init[i];
        forall j, b | i < j < |rs| ensures !PutsIn(p, rs[j], clause, b) { if j < |init| { assert rs[j] == init[j]; } }
      } else if GivesParent(p.nodes, last, clause) {
        assert rs[|init|] == last;
      }
    }
  }

  // -- joining parts ---------------------------------------------------------------------

  lemma {:induction false} CleanPartsVisible(parts: seq<string>)
    ensures forall i | 0 <= i < |CleanParts(parts)| :: CleanParts(parts)[i] != ""
  {
    if parts != [] { CleanPartsVisible(parts[1..]); }
  }

  /** The first part is stripped and set before the others, if it is there and they are. */
  lemma FirstBeside(first: string, rest: seq<string>, glue: string)
    ensures Join(CleanParts([first] + rest), glue) == Beside(Strip(first), glue, Join(CleanParts(rest), glue))
  {
    assert ([first] + rest)[1..] == rest;
    var others := CleanParts(rest);
    assert CleanParts([first] + rest) == (if IsBlank(first) then [] else [Strip(first)]) + others;
    CleanPartsVisible(rest);
    if others == [] {
      assert [Strip(first)] + others == [Strip(first)];
    } else {
      assert Join(others, glue) != "" by { assert others[0] != ""; }
      if IsBlank(first) {
        assert [] + others == others;
      } else {
        assert ([Strip(first)] + others)[1..] == others;
      }
    }
  }

  lemma BesideIs(a: string, b: string, glue: string)
    ensures Join(CleanParts([a, b]), glue) == Beside(Strip(a), glue, Strip(b))
  {
    FirstBeside(a, [b], glue);
    FirstBeside(b, [], glue);
    assert [a] + [b] == [a, b] && [b] + [] == [b];
  }

  lemma BesideThreeIs(a: string, b: string, c: string, glue: string)
    ensures Join(CleanParts([a, b, c]), glue) == Beside(Strip(a), glue, Beside(Strip(b), glue, Strip(c)))
  {
    FirstBeside(a, [b, c], glue);
    BesideIs(b, c, glue);
    assert [a] + [b, c] == [a, b, c];
  }

  lemma VisibleEnds(s: string)
    requires s == "" || (!IsSpace(s[0]) && !IsSpace(s[|s| - 1]))
    ensures Strip(s) == s
  {}

  lemma StrippedEnds(s: string)
    ensures var r := Strip(s); r == "" || (!IsSpace(r[0]) && !IsSpace(r[|r| - 1]))
  {
    DropLeftStable(s, IsSpace);
    DropRightKeepsHead(DropLeft(s, IsSpace), IsSpace);
  }

  lemma LineIsStripped(word: string, number: string, text: string)
    requires word != "" && !IsSpace(word[0])
    ensures Join(CleanParts([Numbered(word, number), text]), " ") == Line(word, number, text)
    ensures Strip(Line(word, number, text)) == Line(word, number, text)
  {
    var head := if number == "" then "" else word + " " + number + ".";
    VisibleEnds(head);
    StrippedEnds(text);
    BesideIs(Numbered(word, number), text, " ");
    VisibleEnds(Beside(head, " ", Strip(text)));
  }

  lemma HeaderIs(a: Node)
    ensures Join(CleanParts([Numbered("Điều", a.number), a.title]), " ") == ArticleHeader(a) == Strip(ArticleHeader(a))
  {
    LineIsStripped("Điều", a.number, a.title);
  }

  lemma ClauseLineIs(c: Node)
    ensures var body := if c.contentRaw != "" then c.contentRaw else c.content;
            Join(CleanParts([Numbered("Khoản", c.number), body]), " ") == ClauseLine(c) == Strip(ClauseLine(c))
  {
    LineIsStripped("Khoản", c.number, if c.contentRaw != "" then c.contentRaw else c.content);
  }

  lemma ClauseTextIs(article: Option<Node>, clause: Node)
    ensures ClauseText(article, clause)
            == Beside(if article.None? then "" else ArticleHeader(article.value), "\n", ClauseLine(clause))
  {
    ClauseLineIs(clause);
    if article.Some? {
      HeaderIs(article.value);
      BesideIs(ArticleHeader(article.value), ClauseLine(clause), "\n");
    } else {
      VisibleEnds("");
      BesideIs("", ClauseLine(clause), "\n");
    }
  }

  lemma TextOfIs(p: Payload, n: Node)
    ensures IsTextOf(p, n, TextOf(p, n))
  {
    BesideIs(n.title, n.contentRaw, "\n");
    BesideThreeIs(n.heading, n.title, n.contentRaw, "\n");
    ClauseTextIs(ParentArticle(p.nodes, p.relations, n.id), n);
    ParentArticleIs(p, p.relations, n.id);
  }

  /** Under an Article with a title, a clause is embedded as the header line and its own line. */
  lemma ClauseUnderTitle(p: Payload, clause: Node, article: Node, text: string)
    requires clause.kind == Clause && IsIn(p, clause.id, article) && IsTextOf(p, clause, text)
    requires !IsBlank(article.title) && !IsBlank(if clause.contentRaw != "" then clause.contentRaw else clause.content)
    ensures text == (if article.number == "" then "" else "Điều " + article.number + ". ") + Strip(article.title)
                    + "\n" + (if clause.number == "" then "" else "Khoản " + clause.number + ". ")
                    + Strip(if clause.contentRaw != "" then clause.contentRaw else clause.content)
  {
    TextOfClause(p, clause, article, text);
    HeaderShown(article);
    ClauseLineShown(clause);
  }

  lemma TextOfClause(p: Payload, clause: Node, article: Node, text: string)
    requires clause.kind == Clause && IsIn(p, clause.id, article) && IsTextOf(p, clause, text)
    ensures text == Beside(ArticleHeader(article), "\n", ClauseLine(clause))
  {
    OneArticle(p, clause.id, article, article);
    var a :| IsIn(p, clause.id, a) && text == Beside(ArticleHeader(a), "\n", ClauseLine(clause));
    OneArticle(p, clause.id, a, article);
  }

  lemma HeaderShown(a: Node)
    requires !IsBlank(a.title)
    ensures ArticleHeader(a) == (if a.number == "" then "" else "Điều " + a.number + ". ") + Strip(a.title) != ""
  {
    assert "Điều " + a.number + ". " == "Điều " + a.number + "." + " ";
  }

  lemma ClauseLineShown(c: Node)
    requires !IsBlank(if c.contentRaw != "" then c.contentRaw else c.content)
    ensures ClauseLine(c) == (if c.number == "" then "" else "Khoản " + c.number + ". ")
                             + Strip(if c.contentRaw != "" then c.contentRaw else c.content) != ""
  {
    assert "Khoản " + c.number + ". " == "Khoản " + c.number + "." + " ";
  }

  lemma OneArticle(p: Payload, clause: Id, a: Node, b: Node)
    requires IsIn(p, clause, a) && IsIn(p, clause, b)
    ensures a == b && !IsInNone(p, clause)
  {
    var i :| 0 <= i < |p.relations| && PutsIn(p, p.relations[i], clause, a)
             && forall j, c | i < j < |p.relations| :: !PutsIn(p, p.relations[j], clause, c);
    var k :| 0 <= k < |p.relations| && PutsIn(p, p.relations[k], clause, b)
             && forall j, c | k < j < |p.relations| :: !PutsIn(p, p.relations[j], clause, c);
    assert i == k;
    GivesParentIs(p, p.relations[i], clause);
  }

  lemma TextsHold(p: Payload, texts: map<Id, string>, id: Id)
    requires id in texts && LastText(p, Filtered(p, p.nodes), id) == Some(texts[id])
    ensures exists n :: IsTargetOf(p, id, n) && IsTextOf(p, n, texts[id])
  {
    var n := NodeOf(Filtered(p, p.nodes), id).value;
    TargetOfIs(p, p.nodes, id, n);
    TextOfIs(p, n);
  }

  /** Every target has its text and nothing else has one. */
  method EmbeddingTexts(p: Payload) returns (texts: map<Id, string>)
    ensures texts.Keys == set n | n in p.nodes && IsTarget(p, n) :: n.id
    ensures forall id | id in texts :: LastText(p, Filtered(p, p.nodes), id) == Some(texts[id])
    ensures forall id | id in texts :: exists n :: IsTargetOf(p, id, n) && IsTextOf(p, n, texts[id])
  {
    var parents := CollectParents(p);
    var targets := EmbeddingTargets(p);
    texts := map[];
    for i := 0 to |targets|
      invariant TextsOf(p, targets[..i], texts)
    {
      assert targets[i] in targets && IsTarget(p, targets[i]);
      var n := targets[i];
      var text: string;
      if n.kind == Article {
        text := ArticleText(n);
      } else if n.kind == Appendix {
        text := AppendixText(n);
      } else {
        text := ClauseText(if n.id in parents then Some(parents[n.id]) else None, n);
      }
      TextAdded(p, targets, i, texts);
      texts := texts[n.id := text];
    }
    assert targets[..|targets|] == targets;
    forall id | id in texts ensures exists n :: IsTargetOf(p, id, n) && IsTextOf(p, n, texts[id]) {
      TextsHold(p, texts, id);
    }
  }

  ghost predicate TextsOf(p: Payload, targets: seq<Node>, texts: map<Id, string>) {
    && texts.Keys == (set n | n in targets :: n.id)
    && forall id | id in texts :: LastText(p, targets, id) == Some(texts[id])
  }

  lemma TextAdded(p: Payload, targets: seq<Node>, i: nat, texts: map<Id, string>)
    requires i < |targets| && TextsOf(p, targets[..i], texts)
    ensures TextsOf(p, targets[..i + 1], texts[targets[i].id := TextOf(p, targets[i])])
  {
    assert targets[..i + 1] == targets[..i] + [targets[i]];
    assert targets[..i + 1][..i] == targets[..i];
  }

  ghost predicate ParentsOf(parents: map<Id, Node>, nodes: seq<Node>, rs: seq<Relation>) {
    forall id :: (if id in parents then Some(parents[id]) else None) == ParentArticle(nodes, rs, id)
  }

  method CollectParents(p: Payload) returns (parents: map<Id, Node>)
    ensures ParentsOf(parents, p.nodes, p.relations)
  {
    parents := map[];
    for i := 0 to |p.relations|
      invariant ParentsOf(parents, p.nodes, p.relations[..i])
    {
      ParentAdded(parents, p.nodes, p.relations, i);
      var r := p.relations[i];
      var head, tail := NodeOf(p.nodes, r.head), NodeOf(p.nodes, r.tail);
      if r.contains && head.Some? && tail.Some? && head.value.kind == Article && tail.value.kind == Clause {
        parents := parents[r.tail := head.value];
      }
    }
    assert p.relations[..|p.relations|] == p.relations;
  }

  lemma ParentAdded(parents: map<Id, Node>, nodes: seq<Node>, rs: seq<Relation>, i: nat)
    requires i < |rs| && ParentsOf(parents, nodes, rs[..i])
    ensures ParentsOf(if GivesParent(nodes, rs[i], rs[i].tail)
                      then parents[rs[i].tail := NodeOf(nodes, rs[i].head).value] else parents,
                      nodes, rs[..i + 1])
  {
    assert rs[..i + 1][..i] == rs[..i];
    var after := if GivesParent(nodes, rs[i], rs[i].tail)
                 then parents[rs[i].tail := NodeOf(nodes, rs[i].head).value] else parents;
    forall id ensures (if id in after then Some(after[id]) else None) == ParentArticle(nodes, rs[..i + 1], id) {
      assert (if id in parents then Some(parents[id]) else None) == ParentArticle(nodes, rs[..i], id);
    }
  }
}
