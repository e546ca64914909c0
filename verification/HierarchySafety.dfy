/** Reconciliation keeps reachability, deletes exactly the shortcuts it may, and when it can be run again. */
module HierarchySafety {
  import opened Prelude
  import opened Hierarchy

  // -- reachability ------------------------------------------------------------------

  ghost predicate IsWalk(edges: set<Edge>, w: seq<Node>) {
    w != [] && forall i | 0 <= i < |w| - 1 :: Linked(edges, w[i], w[i + 1])
  }

  /** Containment, directly or through other nodes. */
  ghost predicate Reach(edges: set<Edge>, a: Node, b: Node) {
    exists w :: IsWalk(edges, w) && w[0] == a && w[|w| - 1] == b
  }

  lemma ReachJoin(edges: set<Edge>, a: Node, b: Node, c: Node)
    requires Reach(edges, a, b) && Reach(edges, b, c)
    ensures Reach(edges, a, c)
  {
    var v :| IsWalk(edges, v) && v[0] == a && v[|v| - 1] == b;
    var w :| IsWalk(edges, w) && w[0] == b && w[|w| - 1] == c;
    var u := v + w[1..];
    forall i | 0 <= i < |u| - 1 ensures Linked(edges, u[i], u[i + 1]) {
      if i < |v| - 1 {
        assert Linked(edges, v[i], v[i + 1]);
      } else {
        assert u[i] == w[i + 1 - |v|] && u[i + 1] == w[i + 2 - |v|];
        assert Linked(edges, w[i + 1 - |v|], w[i + 1 - |v| + 1]);
      }
    }
    assert IsWalk(edges, u);
  }

  /** A link can be replaced whenever its ends stay connected. */
  ghost predicate Rerouted(edges: set<Edge>, kept: set<Edge>) {
    forall a, b | Linked(edges, a, b) :: Reach(kept, a, b)
  }

  lemma {:induction false} WalkRerouted(edges: set<Edge>, kept: set<Edge>, w: seq<Node>)
    requires Rerouted(edges, kept) && IsWalk(edges, w)
    ensures Reach(kept, w[0], w[|w| - 1])
  {
    if |w| == 1 {
      assert IsWalk(kept, w);
    } else {
      var init := w[..|w| - 1];
      WalkRerouted(edges, kept, init);
      assert Linked(edges, w[|w| - 2], w[|w| - 2 + 1]);
      ReachJoin(kept, w[0], w[|w| - 2], w[|w| - 1]);
    }
  }

  ghost predicate SameReach(edges: set<Edge>, kept: set<Edge>) {
    forall a, b :: Reach(edges, a, b) <==> Reach(kept, a, b)
  }

  lemma ReroutedKeepsReach(edges: set<Edge>, kept: set<Edge>)
    requires kept <= edges && Rerouted(edges, kept)
    ensures SameReach(edges, kept)
  {
    forall a, b ensures Reach(edges, a, b) <==> Reach(kept, a, b) {
      if Reach(edges, a, b) {
        var w :| IsWalk(edges, w) && w[0] == a && w[|w| - 1] == b;
        WalkRerouted(edges, kept, w);
      }
      if w :| IsWalk(kept, w) && w[0] == a && w[|w| - 1] == b {
        forall i | 0 <= i < |w| - 1 ensures Linked(edges, w[i], w[i + 1]) {
          assert Linked(kept, w[i], w[i + 1]);
        }
        assert IsWalk(edges, w);
      }
    }
  }

  lemma LinkReaches(edges: set<Edge>, a: Node, b: Node)
    requires Linked(edges, a, b)
    ensures Reach(edges, a, b)
  {
    assert IsWalk(edges, [a, b]);
  }

  // -- one group -----------------------------------------------------------------------

  /** Deleting shortcuts takes away no link of a chain, of this group or of another. */
  lemma ChainSurvives(edges: set<Edge>, g: Group, ms: seq<Mapping>, h: Group, m: Mapping)
    requires h == g || g != SubsectionGroup || h != SectionGroup
    ensures ChainExists(edges - AllShortcuts(edges, g, ms), h, m) <==> ChainExists(edges, h, m)
  {
    var kept := edges - AllShortcuts(edges, g, ms);
    LinkSurvives(edges, g, ms, Node(Top(h), m.top), Node(Middle(h), m.middle));
    LinkSurvives(edges, g, ms, Node(Middle(h), m.middle), Node(Bottom(h), m.bottom));
  }

  lemma LinkSurvives(edges: set<Edge>, g: Group, ms: seq<Mapping>, a: Node, b: Node)
    requires a.kind != Top(g) || b.kind != Bottom(g)
    ensures Linked(edges - AllShortcuts(edges, g, ms), a, b) <==> Linked(edges, a, b)
  {
    if e :| e in edges && e.head == a && e.tail == b {
      assert e in edges - AllShortcuts(edges, g, ms);
    }
  }

  lemma CleanupKeepsReach(edges: set<Edge>, g: Group, ms: seq<Mapping>)
    ensures SameReach(edges, Cleanup(edges, g, ms).0)
  {
    if ms != [] && AllChains(edges, g, ms) {
      var kept := edges - AllShortcuts(edges, g, ms);
      forall a, b | Linked(edges, a, b) ensures Reach(kept, a, b) {
        var e :| e in edges && e.head == a && e.tail == b;
        if e in kept {
          LinkReaches(kept, a, b);
        } else {
          var i :| 0 <= i < |ms| && e in Shortcuts(edges, g, ms[i]);
          ChainSurvives(edges, g, ms, g, ms[i]);
          LinkReaches(kept, a, Node(Middle(g), ms[i].middle));
          LinkReaches(kept, Node(Middle(g), ms[i].middle), b);
          ReachJoin(kept, a, Node(Middle(g), ms[i].middle), b);
        }
      }
      ReroutedKeepsReach(edges, kept);
    }
  }

  // -- all groups ------------------------------------------------------------------------

  lemma SameReachJoin(a: set<Edge>, b: set<Edge>, c: set<Edge>)
    requires SameReach(a, b) && SameReach(b, c)
    ensures SameReach(a, c)
  {}

  lemma ApplyKeepsReach(edges: set<Edge>, sections: seq<Mapping>, parts: seq<Mapping>, subsections: seq<Mapping>)
    ensures SameReach(edges, Apply(edges, sections, parts, subsections).0)
  {
    var e1 := Cleanup(edges, SectionGroup, sections).0;
    var e2 := Cleanup(e1, PartGroup, parts).0;
    var e3 := Cleanup(e2, SubsectionGroup, subsections).0;
    CleanupKeepsReach(edges, SectionGroup, sections);
    CleanupKeepsReach(e1, PartGroup, parts);
    CleanupKeepsReach(e2, SubsectionGroup, subsections);
    SameReachJoin(edges, e1, e2);
    SameReachJoin(edges, e2, e3);
    assert Apply(edges, sections, parts, subsections).0 in {e1, e2, e3};
  }

  /** Whatever fails and wherever it fails, no node becomes reachable or unreachable from another. */
  lemma ReachabilityKept(rs: seq<Relation>, edges: set<Edge>)
    ensures SameReach(edges, Reconcile(rs, edges).0)
  {
    if SectionMappings(rs).Ok? && PartMappings(rs).Ok? && SubsectionMappings(rs).Ok? {
      ApplyKeepsReach(edges, SectionMappings(rs).value, PartMappings(rs).value, SubsectionMappings(rs).value);
    }
  }

  predicate Chains(edges: set<Edge>, g: Group, ms: seq<Mapping>) { ms == [] || AllChains(edges, g, ms) }

  function Gone(edges: set<Edge>, g: Group, ms: seq<Mapping>, when: bool): set<Edge> {
    if when then AllShortcuts(edges, g, ms) else {}
  }

  lemma ChainsAfter(edges: set<Edge>, g: Group, ms: seq<Mapping>, h: Group, others: seq<Mapping>)
    requires h == g || g != SubsectionGroup || h != SectionGroup
    ensures Chains(Cleanup(edges, g, ms).0, h, others) <==> Chains(edges, h, others)
  {
    forall i | 0 <= i < |others|
      ensures ChainExists(Cleanup(edges, g, ms).0, h, others[i]) <==> ChainExists(edges, h, others[i])
    {
      ChainSurvives(edges, g, ms, h, others[i]);
    }
  }

  lemma ShortcutsAfter(edges: set<Edge>, g: Group, ms: seq<Mapping>, h: Group, others: seq<Mapping>)
    requires g != h
    ensures AllShortcuts(Cleanup(edges, g, ms).0, h, others) == AllShortcuts(edges, h, others)
  {
    var kept := Cleanup(edges, g, ms).0;
    assert kept == edges || kept == edges - AllShortcuts(edges, g, ms);
    forall e | e in AllShortcuts(edges, h, others) ensures e in AllShortcuts(kept, h, others) {
      var i :| 0 <= i < |others| && e in Shortcuts(edges, h, others[i]);
      assert e in Shortcuts(kept, h, others[i]);
    }
    forall e | e in AllShortcuts(kept, h, others) ensures e in AllShortcuts(edges, h, others) {
      var i :| 0 <= i < |others| && e in Shortcuts(kept, h, others[i]);
      assert e in Shortcuts(edges, h, others[i]);
    }
  }

  /**
    The whole effect, read off the graph as it was before: a group deletes its shortcuts if and only if its own chains
    and those of the groups before it were all present, and the run succeeds if and only if that holds of every group.
   */
  lemma ExactEffect(edges: set<Edge>, sections: seq<Mapping>, parts: seq<Mapping>, subsections: seq<Mapping>)
    ensures var first := Chains(edges, SectionGroup, sections);
      var second := first && Chains(edges, PartGroup, parts);
      var third := second && Chains(edges, SubsectionGroup, subsections);
      var (after, r) := Apply(edges, sections, parts, subsections);
      && after == edges - Gone(edges, SectionGroup, sections, first) - Gone(edges, PartGroup, parts, second)
                  - Gone(edges, SubsectionGroup, subsections, third)
      && (r.Ok? <==> third)
      && (r.Err? ==>
            r.error == ChainMissing(if !first then SectionGroup else if !second then PartGroup else SubsectionGroup))
  {
    var (e1, r1) := Cleanup(edges, SectionGroup, sections);
    var (e2, r2) := Cleanup(e1, PartGroup, parts);
    ChainsAfter(edges, SectionGroup, sections, PartGroup, parts);
    ChainsAfter(edges, SectionGroup, sections, SubsectionGroup, subsections);
    ChainsAfter(e1, PartGroup, parts, SubsectionGroup, subsections);
    ShortcutsAfter(edges, SectionGroup, sections, PartGroup, parts);
    ShortcutsAfter(edges, SectionGroup, sections, SubsectionGroup, subsections);
    ShortcutsAfter(e1, PartGroup, parts, SubsectionGroup, subsections);
  }

  ghost predicate MappingsOk(rs: seq<Relation>) {
    SectionMappings(rs).Ok? && PartMappings(rs).Ok? && SubsectionMappings(rs).Ok?
  }

  /** After success no shortcut of any mapping is left. */
  lemma SuccessLeavesNoShortcut(rs: seq<Relation>, edges: set<Edge>, g: Group, m: Mapping)
    requires Reconcile(rs, edges).1.Ok?
    requires m in MappingsOf(rs, g)
    ensures !Linked(Reconcile(rs, edges).0, Node(Top(g), m.top), Node(Bottom(g), m.bottom))
  {
    SuccessEffect(rs, edges);
    ShortcutsOf(edges, g, MappingsOf(rs, g), m);
  }

  lemma ShortcutsOf(edges: set<Edge>, g: Group, ms: seq<Mapping>, m: Mapping)
    requires m in ms
    ensures forall e | e in edges && e.head == Node(Top(g), m.top) && e.tail == Node(Bottom(g), m.bottom) ::
      e in AllShortcuts(edges, g, ms)
  {
    var i :| 0 <= i < |ms| && ms[i] == m;
    forall e | e in edges && e.head == Node(Top(g), m.top) && e.tail == Node(Bottom(g), m.bottom)
      ensures e in AllShortcuts(edges, g, ms)
    {
      assert e in Shortcuts(edges, g, ms[i]);
    }
  }

  function MappingsOf(rs: seq<Relation>, g: Group): seq<Mapping>
    requires MappingsOk(rs)
  {
    match g
    case SectionGroup => SectionMappings(rs).value
    case PartGroup => PartMappings(rs).value
    case SubsectionGroup => SubsectionMappings(rs).value
  }

  // -- what the mappings are ----------------------------------------------------------------

  predicate HasRelation(rs: seq<Relation>, head: Kind, headId: Id, tail: Kind, tailId: Id) {
    exists r | r in rs :: Joins(r, head, tail) && r.headId == headId && r.tailId == tailId
  }

  lemma {:induction false} HeadsAre(rs: seq<Relation>, head: Kind, tail: Kind, tailId: Id)
    ensures forall h :: h in Heads(rs, head, tail, tailId) <==> HasRelation(rs, head, h, tail, tailId)
  {
    if rs != [] {
      var init, r := rs[..|rs| - 1], rs[|rs| - 1];
      HeadsAre(init, head, tail, tailId);
      assert rs == init + [r];
      forall h ensures HasRelation(rs, head, h, tail, tailId)
                       <==> HasRelation(init, head, h, tail, tailId)
                            || (Joins(r, head, tail) && r.headId == h && r.tailId == tailId)
      {
        assert r in rs;
      }
    }
  }

  lemma {:induction false} PairsAre(rs: seq<Relation>, head: Kind, tail: Kind)
    ensures forall p :: p in Pairs(rs, head, tail) <==> HasRelation(rs, head, p.0, tail, p.1)
  {
    if rs != [] {
      var init, r := rs[..|rs| - 1], rs[|rs| - 1];
      PairsAre(init, head, tail);
      assert rs == init + [r];
      forall p: (Id, Id) ensures HasRelation(rs, head, p.0, tail, p.1)
                       <==> HasRelation(init, head, p.0, tail, p.1)
                            || (Joins(r, head, tail) && p == (r.headId, r.tailId))
      {
        assert r in rs;
      }
    }
  }

  /** What a mapping of a group means in the payload. */
  predicate ChainInPayload(rs: seq<Relation>, g: Group, m: Mapping) {
    && HasRelation(rs, Top(g), m.top, Middle(g), m.middle)
    && HasRelation(rs, Middle(g), m.middle, Bottom(g), m.bottom)
  }

  lemma {:induction false} WithParentAre(rs: seq<Relation>, g: Group, pairs: seq<(Id, Id)>)
    requires WithParent(rs, g, pairs).Ok?
    ensures var ms := WithParent(rs, g, pairs).value;
      forall m :: m in ms <==> (m.middle, m.bottom) in pairs && HasRelation(rs, Top(g), m.top, Middle(g), m.middle)
  {
    if pairs != [] {
      var init, p := pairs[..|pairs| - 1], pairs[|pairs| - 1];
      WithParentAre(rs, g, init);
      assert pairs == init + [p];
      OneParent(rs, Top(g), Middle(g), p.0);
    }
  }

  lemma OneParent(rs: seq<Relation>, head: Kind, tail: Kind, id: Id)
    ensures var parents := Parents(rs, head, tail, id);
      && (forall h :: h in parents <==> HasRelation(rs, head, h, tail, id))
      && (|parents| == 1 ==> forall h :: HasRelation(rs, head, h, tail, id) <==> h == parents[0])
  {
    HeadsAre(rs, head, tail, id);
    var parents := Parents(rs, head, tail, id);
    if |parents| == 1 { assert parents[0] in parents; }
  }

  lemma {:induction false} WithChapterAre(rs: seq<Relation>, pairs: seq<(Id, Id)>)
    requires WithChapter(rs, pairs).Ok?
    ensures var ms := WithChapter(rs, pairs).value;
      forall m :: m in ms <==> (m.middle, m.bottom) in pairs && HasRelation(rs, Chapter, m.top, Section, m.middle)
  {
    if pairs != [] {
      var init, p := pairs[..|pairs| - 1], pairs[|pairs| - 1];
      WithChapterAre(rs, init);
      assert pairs == init + [p];
      var parents := Parents(rs, Chapter, Section, p.0);
      ChapterOf(rs, p.0);
      var before, after := WithChapter(rs, init).value, WithChapter(rs, pairs).value;
      assert after == if |parents| == 1 then before + [Mapping(parents[0], p.0, p.1)] else before;
    }
  }

  /** A Section with at most one Chapter: none, or the one recorded. */
  lemma ChapterOf(rs: seq<Relation>, id: Id)
    requires |Parents(rs, Chapter, Section, id)| <= 1
    ensures forall h :: HasRelation(rs, Chapter, h, Section, id)
                        <==> |Parents(rs, Chapter, Section, id)| == 1 && h == Parents(rs, Chapter, Section, id)[0]
  {
    OneParent(rs, Chapter, Section, id);
  }

  /** The Part and Subsection groups map exactly the chains of the payload. */
  lemma ParentedMappingsAre(rs: seq<Relation>, g: Group)
    requires g != SectionGroup && MappingsOk(rs)
    ensures forall m :: m in MappingsOf(rs, g) <==> ChainInPayload(rs, g, m)
  {
    var pairs := Pairs(rs, Middle(g), Bottom(g));
    PairsAre(rs, Middle(g), Bottom(g));
    WithParentAre(rs, g, pairs);
    SortByMembers(WithParent(rs, g, pairs).value, MappingLe);
  }

  /** A Section-group mapping names an article the payload puts in the Section, directly or under a Subsection of it. */
  predicate SectionChain(rs: seq<Relation>, m: Mapping) {
    HasRelation(rs, Chapter, m.top, Section, m.middle) && ArticleOfSection(rs, m.middle, m.bottom)
  }

  predicate ArticleOfSection(rs: seq<Relation>, section: Id, article: Id) {
    HasRelation(rs, Section, section, Article, article) || NestedInSection(rs, section, article)
  }

  predicate NestedInSection(rs: seq<Relation>, section: Id, article: Id) {
    exists sub | sub in TailIds(rs) :: ChainInPayload(rs, SubsectionGroup, Mapping(section, sub, article))
  }

  function TailIds(rs: seq<Relation>): set<Id> { set r | r in rs :: r.tailId }

  lemma FlattenedAre(ms: seq<Mapping>)
    ensures forall p :: p in Flattened(ms) <==> exists m | m in ms :: (m.top, m.bottom) == p
  {
    forall m | m in ms ensures (m.top, m.bottom) in Flattened(ms) {
      var i :| 0 <= i < |ms| && ms[i] == m;
      assert Flattened(ms)[i] == (m.top, m.bottom);
    }
  }

  lemma SectionMappingsAre(rs: seq<Relation>)
    requires MappingsOk(rs)
    ensures forall m :: m in MappingsOf(rs, SectionGroup) <==> SectionChain(rs, m)
  {
    var pairs := Pairs(rs, Section, Article) + Flattened(NestedArticles(rs).value);
    SectionPairsAre(rs);
    WithChapterAre(rs, pairs);
    SortByMembers(WithChapter(rs, pairs).value, MappingLe);
    forall m ensures m in MappingsOf(rs, SectionGroup) <==> SectionChain(rs, m) {
      assert (m.middle, m.bottom) in pairs <==> ArticleOfSection(rs, m.middle, m.bottom);
    }
  }

  lemma SectionPairsAre(rs: seq<Relation>)
    requires NestedArticles(rs).Ok?
    ensures var pairs := Pairs(rs, Section, Article) + Flattened(NestedArticles(rs).value);
      forall s, a :: (s, a) in pairs <==> ArticleOfSection(rs, s, a)
  {
    var nested := NestedArticles(rs).value;
    PairsAre(rs, Section, Article);
    PairsAre(rs, Subsection, Article);
    WithParentAre(rs, SubsectionGroup, Pairs(rs, Subsection, Article));
    FlattenedAre(nested);
    forall s, a ensures (s, a) in Flattened(nested) <==> NestedInSection(rs, s, a) {
      NestedPair(rs, nested, s, a);
    }
  }

  lemma NestedPair(rs: seq<Relation>, nested: seq<Mapping>, s: Id, a: Id)
    requires forall m :: m in nested <==> ChainInPayload(rs, SubsectionGroup, m)
    requires forall p :: p in Flattened(nested) <==> exists m | m in nested :: (m.top, m.bottom) == p
    ensures (s, a) in Flattened(nested) <==> NestedInSection(rs, s, a)
  {
    if (s, a) in Flattened(nested) {
      var m :| m in nested && (m.top, m.bottom) == (s, a);
      assert m == Mapping(s, m.middle, a);
      var r :| r in rs && Joins(r, Section, Subsection) && r.headId == s && r.tailId == m.middle;
      assert m.middle in TailIds(rs);
    }
    if sub :| sub in TailIds(rs) && ChainInPayload(rs, SubsectionGroup, Mapping(s, sub, a)) {
      assert Mapping(s, sub, a) in nested;
    }
  }

  // -- the reported count -------------------------------------------------------------------------

  lemma NewShortcuts(edges: set<Edge>, g: Group, ms: seq<Mapping>)
    requires ms != []
    ensures AllShortcuts(edges, g, ms)
            == AllShortcuts(edges, g, ms[..|ms| - 1]) + Shortcuts(edges, g, ms[|ms| - 1])
  {
    var init, last := ms[..|ms| - 1], ms[|ms| - 1];
    forall e | e in Shortcuts(edges, g, last) ensures e in AllShortcuts(edges, g, ms) {
      assert ms[|ms| - 1] == last;
    }
    forall e | e in AllShortcuts(edges, g, init) ensures e in AllShortcuts(edges, g, ms) {
      var i :| 0 <= i < |init| && e in Shortcuts(edges, g, init[i]);
      assert ms[i] == init[i];
    }
  }

  /**
    The reported number is at least the number of deleted edges, and equal to it when no two mappings share top and
    bottom; the query collects a shortcut once per mapping.
   */
  lemma {:induction false} CountBoundsDeleted(edges: set<Edge>, g: Group, ms: seq<Mapping>)
    ensures |AllShortcuts(edges, g, ms)| <= RowCount(edges, g, ms)
    ensures (forall i, j | 0 <= i < j < |ms| :: ms[i].top != ms[j].top || ms[i].bottom != ms[j].bottom)
            ==> RowCount(edges, g, ms) == |AllShortcuts(edges, g, ms)|
  {
    if ms == [] {
      assert AllShortcuts(edges, g, ms) == {};
    } else {
      var init, last := ms[..|ms| - 1], ms[|ms| - 1];
      CountBoundsDeleted(edges, g, init);
      NewShortcuts(edges, g, ms);
      var before, own := AllShortcuts(edges, g, init), Shortcuts(edges, g, last);
      assert |before + own| == |before| + |own| - |before * own|;
      if forall i, j | 0 <= i < j < |ms| :: ms[i].top != ms[j].top || ms[i].bottom != ms[j].bottom {
        forall e | e in before ensures e !in own {
          var i :| 0 <= i < |init| && e in Shortcuts(edges, g, init[i]);
          assert ms[i].top != ms[|ms| - 1].top || ms[i].bottom != ms[|ms| - 1].bottom;
        }
        assert before * own == {};
      }
    }
  }

  // -- running it again ---------------------------------------------------------------------

  /** Some article below a Subsection lies in a Section that has a Chapter. */
  predicate NestedUnderChapter(rs: seq<Relation>) {
    exists c, r | c in rs && r in rs ::
      Joins(c, Chapter, Section) && Joins(r, Subsection, Article) && NestedInSection(rs, c.tailId, r.tailId)
  }

  lemma NestedCollides(rs: seq<Relation>, chapter: Id, section: Id, article: Id)
    requires NestedInSection(rs, section, article) && HasRelation(rs, Chapter, chapter, Section, section)
    ensures NestedUnderChapter(rs)
  {
    var c :| c in rs && Joins(c, Chapter, Section) && c.headId == chapter && c.tailId == section;
    var sub :| sub in TailIds(rs) && ChainInPayload(rs, SubsectionGroup, Mapping(section, sub, article));
    var r :| r in rs && Joins(r, Subsection, Article) && r.headId == sub && r.tailId == article;
  }

  /** A first run that deletes a shortcut the second run's Section group needs makes that group fail. */
  lemma NestedBreaksChain(rs: seq<Relation>, edges: set<Edge>)
    requires Reconcile(rs, edges).1.Ok? && NestedUnderChapter(rs)
    ensures !Chains(Reconcile(rs, edges).0, SectionGroup, SectionMappings(rs).value)
  {
    var after := Reconcile(rs, edges).0;
    var c, r :| c in rs && r in rs && Joins(c, Chapter, Section) && Joins(r, Subsection, Article)
                && NestedInSection(rs, c.tailId, r.tailId);
    var sub :| sub in TailIds(rs) && ChainInPayload(rs, SubsectionGroup, Mapping(c.tailId, sub, r.tailId));
    var low, high := Mapping(c.tailId, sub, r.tailId), Mapping(c.headId, c.tailId, r.tailId);
    ParentedMappingsAre(rs, SubsectionGroup);
    SuccessLeavesNoShortcut(rs, edges, SubsectionGroup, low);
    NestedIsMapped(rs, c, r);
    MissingLink(after, SectionMappings(rs).value, high);
  }

  lemma NestedIsMapped(rs: seq<Relation>, c: Relation, r: Relation)
    requires MappingsOk(rs) && c in rs && Joins(c, Chapter, Section) && NestedInSection(rs, c.tailId, r.tailId)
    ensures Mapping(c.headId, c.tailId, r.tailId) in MappingsOf(rs, SectionGroup)
  {
    SectionMappingsAre(rs);
    assert HasRelation(rs, Chapter, c.headId, Section, c.tailId);
  }

  lemma MissingLink(edges: set<Edge>, ms: seq<Mapping>, m: Mapping)
    requires m in ms && !Linked(edges, Node(Section, m.middle), Node(Article, m.bottom))
    ensures !Chains(edges, SectionGroup, ms)
  {
    var i :| 0 <= i < |ms| && ms[i] == m;
    assert !ChainExists(edges, SectionGroup, ms[i]);
  }

  lemma SectionChainStays(rs: seq<Relation>, edges: set<Edge>, m: Mapping)
    requires Reconcile(rs, edges).1.Ok? && !NestedUnderChapter(rs)
    requires m in MappingsOf(rs, SectionGroup) && ChainExists(edges, SectionGroup, m)
    ensures ChainExists(Reconcile(rs, edges).0, SectionGroup, m)
  {
    var upper, lower := Node(Section, m.middle), Node(Article, m.bottom);
    var e :| e in edges && e.head == upper && e.tail == lower;
    NotASubsectionShortcut(rs, edges, m, e);
    EdgeStays(rs, edges, e);
    var f :| f in edges && f.head == Node(Chapter, m.top) && f.tail == upper;
    EdgeStays(rs, edges, f);
  }

  lemma NotASubsectionShortcut(rs: seq<Relation>, edges: set<Edge>, m: Mapping, e: Edge)
    requires MappingsOk(rs) && !NestedUnderChapter(rs) && m in MappingsOf(rs, SectionGroup)
    requires e.head == Node(Section, m.middle) && e.tail == Node(Article, m.bottom)
    ensures e !in AllShortcuts(edges, SubsectionGroup, MappingsOf(rs, SubsectionGroup))
  {
    SectionMappingsAre(rs);
    ParentedMappingsAre(rs, SubsectionGroup);
    var subsections := MappingsOf(rs, SubsectionGroup);
    if e in AllShortcuts(edges, SubsectionGroup, subsections) {
      var i :| 0 <= i < |subsections| && e in Shortcuts(edges, SubsectionGroup, subsections[i]);
      assert subsections[i] in subsections;
      NestedByChain(rs, subsections[i]);
      NestedCollides(rs, m.top, m.middle, m.bottom);
    }
  }

  /** An edge that is not a shortcut of any kind stays. */
  lemma EdgeStays(rs: seq<Relation>, edges: set<Edge>, e: Edge)
    requires Reconcile(rs, edges).1.Ok? && e in edges
    requires e.head.kind == Chapter ==> e.tail.kind != Article
    requires e.head.kind != Document
    requires e !in AllShortcuts(edges, SubsectionGroup, MappingsOf(rs, SubsectionGroup))
    ensures e in Reconcile(rs, edges).0
  {
    SuccessEffect(rs, edges);
    OtherKind(edges, SectionGroup, MappingsOf(rs, SectionGroup), e);
    OtherKind(edges, PartGroup, MappingsOf(rs, PartGroup), e);
  }

  lemma OtherKind(edges: set<Edge>, g: Group, ms: seq<Mapping>, e: Edge)
    requires e.head.kind != Top(g) || e.tail.kind != Bottom(g)
    ensures e !in AllShortcuts(edges, g, ms)
  {}

  lemma SuccessEffect(rs: seq<Relation>, edges: set<Edge>)
    requires Reconcile(rs, edges).1.Ok?
    ensures Reconcile(rs, edges).0
            == edges - AllShortcuts(edges, SectionGroup, MappingsOf(rs, SectionGroup))
                     - AllShortcuts(edges, PartGroup, MappingsOf(rs, PartGroup))
                     - AllShortcuts(edges, SubsectionGroup, MappingsOf(rs, SubsectionGroup))
  {
    ExactEffect(edges, SectionMappings(rs).value, PartMappings(rs).value, SubsectionMappings(rs).value);
  }

  lemma NestedByChain(rs: seq<Relation>, m: Mapping)
    requires ChainInPayload(rs, SubsectionGroup, m)
    ensures NestedInSection(rs, m.top, m.bottom)
  {
    var r :| r in rs && Joins(r, Section, Subsection) && r.headId == m.top && r.tailId == m.middle;
    assert m.middle in TailIds(rs) && m == Mapping(m.top, m.middle, m.bottom);
  }

  lemma OtherChainsStay(rs: seq<Relation>, edges: set<Edge>, g: Group)
    requires Reconcile(rs, edges).1.Ok? && g != SectionGroup
    ensures Chains(Reconcile(rs, edges).0, g, MappingsOf(rs, g))
  {
    var sections, parts, subsections := SectionMappings(rs).value, PartMappings(rs).value, SubsectionMappings(rs).value;
    var e1 := Cleanup(edges, SectionGroup, sections).0;
    var e2 := Cleanup(e1, PartGroup, parts).0;
    ChainsAfter(edges, SectionGroup, sections, g, MappingsOf(rs, g));
    ChainsAfter(e1, PartGroup, parts, g, MappingsOf(rs, g));
    ChainsAfter(e2, SubsectionGroup, subsections, g, MappingsOf(rs, g));
    ExactEffect(edges, sections, parts, subsections);
  }

  lemma SectionChainsStay(rs: seq<Relation>, edges: set<Edge>)
    requires Reconcile(rs, edges).1.Ok?
    ensures Chains(Reconcile(rs, edges).0, SectionGroup, MappingsOf(rs, SectionGroup)) <==> !NestedUnderChapter(rs)
  {
    var ms := MappingsOf(rs, SectionGroup);
    ExactEffect(edges, SectionMappings(rs).value, PartMappings(rs).value, SubsectionMappings(rs).value);
    if NestedUnderChapter(rs) {
      NestedBreaksChain(rs, edges);
    } else {
      forall i | 0 <= i < |ms| ensures ChainExists(Reconcile(rs, edges).0, SectionGroup, ms[i]) {
        SectionChainStays(rs, edges, ms[i]);
      }
    }
  }

  /**
    After a success, running the same payload again succeeds if and only if no article under a Subsection lies in a
    Section with a Chapter; then it changes nothing, and otherwise it reports the Section group and changes nothing
    either.
   */
  lemma RunAgain(rs: seq<Relation>, edges: set<Edge>)
    requires Reconcile(rs, edges).1.Ok?
    ensures var after := Reconcile(rs, edges).0;
      && Reconcile(rs, after).0 == after
      && (Reconcile(rs, after).1.Ok? <==> !NestedUnderChapter(rs))
      && (NestedUnderChapter(rs) ==> Reconcile(rs, after).1 == Err(ChainMissing(SectionGroup)))
  {
    var after := Reconcile(rs, edges).0;
    SectionChainsStay(rs, edges);
    OtherChainsStay(rs, edges, PartGroup);
    OtherChainsStay(rs, edges, SubsectionGroup);
    ExactEffect(after, SectionMappings(rs).value, PartMappings(rs).value, SubsectionMappings(rs).value);
    NoShortcutsLeft(rs, edges, SectionGroup);
    NoShortcutsLeft(rs, edges, PartGroup);
    NoShortcutsLeft(rs, edges, SubsectionGroup);
  }

  lemma NoShortcutsLeft(rs: seq<Relation>, edges: set<Edge>, g: Group)
    requires Reconcile(rs, edges).1.Ok?
    ensures AllShortcuts(Reconcile(rs, edges).0, g, MappingsOf(rs, g)) == {}
  {
    var after, ms := Reconcile(rs, edges).0, MappingsOf(rs, g);
    if e :| e in AllShortcuts(after, g, ms) {
      var i :| 0 <= i < |ms| && e in Shortcuts(after, g, ms[i]);
      SuccessLeavesNoShortcut(rs, edges, g, ms[i]);
    }
  }

  // -- a graph that holds the payload ------------------------------------------------------------

  /** Every containment of the payload is stored, as it is once the payload has been written. */
  ghost predicate HoldsPayload(edges: set<Edge>, rs: seq<Relation>) {
    forall r | r in rs && r.contains :: Linked(edges, Node(r.headKind, r.headId), Node(r.tailKind, r.tailId))
  }

  /** Every article under a Subsection of a Section with a Chapter is stored in that Section directly as well. */
  ghost predicate FlatEdgesStored(edges: set<Edge>, rs: seq<Relation>) {
    forall c, r | c in rs && r in rs && Joins(c, Chapter, Section) && Joins(r, Subsection, Article)
                  && NestedInSection(rs, c.tailId, r.tailId) ::
      Linked(edges, Node(Section, c.tailId), Node(Article, r.tailId))
  }

  /**
    On a graph that holds its payload, whose parents are unambiguous, a run succeeds if and only if those flat edges are
    stored; otherwise it reports the Section group and changes nothing.
   */
  lemma RunSucceeds(rs: seq<Relation>, edges: set<Edge>)
    requires MappingsOk(rs) && HoldsPayload(edges, rs)
    ensures Reconcile(rs, edges).1.Ok? <==> FlatEdgesStored(edges, rs)
    ensures !FlatEdgesStored(edges, rs) ==> Reconcile(rs, edges) == (edges, Err(ChainMissing(SectionGroup)))
  {
    ExactEffect(edges, SectionMappings(rs).value, PartMappings(rs).value, SubsectionMappings(rs).value);
    StoredChains(rs, edges, PartGroup);
    StoredChains(rs, edges, SubsectionGroup);
    StoredSectionChains(rs, edges);
  }

  lemma StoredChains(rs: seq<Relation>, edges: set<Edge>, g: Group)
    requires MappingsOk(rs) && HoldsPayload(edges, rs) && g != SectionGroup
    ensures Chains(edges, g, MappingsOf(rs, g))
  {
    ParentedMappingsAre(rs, g);
    var ms := MappingsOf(rs, g);
    forall i | 0 <= i < |ms| ensures ChainExists(edges, g, ms[i]) {
      assert ms[i] in ms;
      StoredLink(rs, edges, Node(Top(g), ms[i].top), Node(Middle(g), ms[i].middle));
      StoredLink(rs, edges, Node(Middle(g), ms[i].middle), Node(Bottom(g), ms[i].bottom));
    }
  }

  lemma StoredLink(rs: seq<Relation>, edges: set<Edge>, a: Node, b: Node)
    requires HoldsPayload(edges, rs) && HasRelation(rs, a.kind, a.id, b.kind, b.id)
    ensures Linked(edges, a, b)
  {}

  lemma StoredSectionChains(rs: seq<Relation>, edges: set<Edge>)
    requires MappingsOk(rs) && HoldsPayload(edges, rs)
    ensures Chains(edges, SectionGroup, MappingsOf(rs, SectionGroup)) <==> FlatEdgesStored(edges, rs)
  {
    SectionMappingsAre(rs);
    var ms := MappingsOf(rs, SectionGroup);
    if FlatEdgesStored(edges, rs) {
      forall i | 0 <= i < |ms| ensures ChainExists(edges, SectionGroup, ms[i]) {
        assert ms[i] in ms;
        StoredLink(rs, edges, Node(Chapter, ms[i].top), Node(Section, ms[i].middle));
        StoredArticle(rs, edges, ms[i]);
      }
    }
    if Chains(edges, SectionGroup, ms) {
      forall c, r | c in rs && r in rs && Joins(c, Chapter, Section) && Joins(r, Subsection, Article)
                    && NestedInSection(rs, c.tailId, r.tailId)
        ensures Linked(edges, Node(Section, c.tailId), Node(Article, r.tailId))
      {
        NestedIsMapped(rs, c, r);
        var i :| 0 <= i < |ms| && ms[i] == Mapping(c.headId, c.tailId, r.tailId);
        assert ChainExists(edges, SectionGroup, ms[i]);
      }
    }
  }

  lemma StoredArticle(rs: seq<Relation>, edges: set<Edge>, m: Mapping)
    requires HoldsPayload(edges, rs) && FlatEdgesStored(edges, rs) && SectionChain(rs, m)
    ensures Linked(edges, Node(Section, m.middle), Node(Article, m.bottom))
  {
    var c :| c in rs && Joins(c, Chapter, Section) && c.headId == m.top && c.tailId == m.middle;
    if NestedInSection(rs, m.middle, m.bottom) {
      var sub :| sub in TailIds(rs) && ChainInPayload(rs, SubsectionGroup, Mapping(m.middle, sub, m.bottom));
      var r :| r in rs && Joins(r, Subsection, Article) && r.headId == sub && r.tailId == m.bottom;
    } else {
      StoredLink(rs, edges, Node(Section, m.middle), Node(Article, m.bottom));
    }
  }

  // -- a graph that holds just the payload ------------------------------------------------------

  ghost predicate HoldsJust(edges: set<Edge>, rs: seq<Relation>) {
    forall a, b :: Linked(edges, a, b) <==> HasRelation(rs, a.kind, a.id, b.kind, b.id)
  }

  /** Those flat edges are in the payload itself. */
  ghost predicate FlatEdgesPresent(rs: seq<Relation>) {
    forall c, r | c in rs && r in rs && Joins(c, Chapter, Section) && Joins(r, Subsection, Article)
                  && NestedInSection(rs, c.tailId, r.tailId) ::
      HasRelation(rs, Section, c.tailId, Article, r.tailId)
  }

  lemma JustPayload(rs: seq<Relation>, edges: set<Edge>)
    requires HoldsJust(edges, rs)
    ensures HoldsPayload(edges, rs) && (FlatEdgesStored(edges, rs) <==> FlatEdgesPresent(rs))
  {
    forall r | r in rs && r.contains
      ensures Linked(edges, Node(r.headKind, r.headId), Node(r.tailKind, r.tailId))
    {
      assert Joins(r, r.headKind, r.tailKind);
      HeldLink(rs, edges, Node(r.headKind, r.headId), Node(r.tailKind, r.tailId));
    }
    forall c, r | c in rs && r in rs && Joins(c, Chapter, Section) && Joins(r, Subsection, Article)
      ensures Linked(edges, Node(Section, c.tailId), Node(Article, r.tailId))
              <==> HasRelation(rs, Section, c.tailId, Article, r.tailId)
    {
      HeldLink(rs, edges, Node(Section, c.tailId), Node(Article, r.tailId));
    }
  }

  lemma HeldLink(rs: seq<Relation>, edges: set<Edge>, a: Node, b: Node)
    requires HoldsJust(edges, rs)
    ensures Linked(edges, a, b) <==> HasRelation(rs, a.kind, a.id, b.kind, b.id)
  {}

  /** Right after a first ingestion such a payload reconciles if and only if those flat edges are in it. */
  lemma FreshRunSucceeds(rs: seq<Relation>, edges: set<Edge>)
    requires MappingsOk(rs) && HoldsJust(edges, rs)
    ensures Reconcile(rs, edges).1.Ok? <==> FlatEdgesPresent(rs)
  {
    JustPayload(rs, edges);
    RunSucceeds(rs, edges);
  }
}
