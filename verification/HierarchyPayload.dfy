/**
  What the consistency check lets through (shared/ontology/payload_consistency_validator.py), and how it then
  reconciles.
 */
module HierarchyPayload {
  import opened Prelude
  import opened Hierarchy
  import opened HierarchySafety

  // -- the check on containments ----------------------------------------------------

  const Appendix := OtherKind("Appendix")
  const Instrument := OtherKind("AttachedInstrument")
  const Clause := OtherKind("Clause")
  const Point := OtherKind("Point")

  predicate Structural(k: Kind) {
    k in {Document, Appendix, Instrument, Part, Chapter, Section, Subsection, Article, Clause, Point}
  }

  /** The pairs a containment may join. */
  predicate MayContain(head: Kind, tail: Kind) {
    match head
    case Document => tail in {Part, Chapter, Section, Article, Appendix, Instrument}
    case Part => tail in {Chapter, Section, Article}
    case Chapter => tail in {Section, Article}
    case Section => tail in {Subsection, Article}
    case Subsection => tail == Article
    case Article => tail == Clause
    case OtherKind(_) =>
      || (head == Instrument && tail in {Appendix, Part, Chapter, Section, Article})
      || (head == Appendix && tail in {Part, Chapter, Section, Article})
      || (head == Clause && tail == Point)
  }

  function Ends(r: Relation): set<Node> { {Node(r.headKind, r.headId), Node(r.tailKind, r.tailId)} }

  /** Each id is declared once, with one kind. */
  ghost predicate OneKindEach(rs: seq<Relation>) {
    forall p, q | p in rs && q in rs :: forall a, b | a in Ends(p) && b in Ends(q) :: a.id == b.id ==> a.kind == b.kind
  }

  /** No node is contained twice. */
  ghost predicate ContainedOnce(rs: seq<Relation>) {
    forall i, j | 0 <= i < j < |rs| && rs[i].contains && rs[j].contains :: rs[i].tailId != rs[j].tailId
  }

  ghost predicate Contained(rs: seq<Relation>, id: Id) { exists q | q in rs :: q.contains && q.tailId == id }

  /** Every structural node but a Document is contained in another one. */
  ghost predicate AllContained(rs: seq<Relation>) {
    forall r | r in rs :: forall a | a in Ends(r) && Structural(a.kind) && a.kind != Document :: Contained(rs, a.id)
  }

  /** A Section has Subsections or Articles of its own, not both. */
  ghost predicate Unmixed(rs: seq<Relation>) {
    forall p, q | p in rs && q in rs && Joins(p, Section, Subsection) && Joins(q, Section, Article) ::
      p.headId != q.headId
  }

  /** The payload passes, but for what the check reads off article numbers and other relations. */
  ghost predicate Consistent(rs: seq<Relation>) {
    && OneKindEach(rs) && ContainedOnce(rs) && AllContained(rs) && Unmixed(rs)
    && forall r | r in rs && r.contains :: MayContain(r.headKind, r.tailKind)
  }

  lemma SameContainment(rs: seq<Relation>, p: Relation, q: Relation)
    requires ContainedOnce(rs) && p in rs && q in rs && p.contains && q.contains && p.tailId == q.tailId
    ensures p == q
  {
    var i :| 0 <= i < |rs| && rs[i] == p;
    var j :| 0 <= j < |rs| && rs[j] == q;
  }

  // -- parents of a consistent payload ---------------------------------------------------

  /** Every Part with a Chapter is contained in a Document, not in an appendix or an attached instrument. */
  ghost predicate PartsInDocuments(rs: seq<Relation>) {
    forall r | r in rs && Joins(r, Part, Chapter) :: HasParent(rs, Document, Part, r.headId)
  }

  ghost predicate HasParent(rs: seq<Relation>, head: Kind, tail: Kind, id: Id) {
    exists q | q in rs :: Joins(q, head, tail) && q.tailId == id
  }

  lemma TwoMembers(ids: seq<Id>)
    requires NoDup(ids)
    ensures (forall h, k | h in ids && k in ids :: h == k) ==> |ids| <= 1
  {
    if |ids| > 1 { assert ids[0] in ids && ids[1] in ids && ids[0] != ids[1]; }
  }

  lemma SameParent(rs: seq<Relation>, head: Kind, tail: Kind, id: Id, h: Id, k: Id)
    requires ContainedOnce(rs) && HasRelation(rs, head, h, tail, id) && HasRelation(rs, head, k, tail, id)
    ensures h == k
  {
    var p :| p in rs && Joins(p, head, tail) && p.headId == h && p.tailId == id;
    var q :| q in rs && Joins(q, head, tail) && q.headId == k && q.tailId == id;
    SameContainment(rs, p, q);
  }

  lemma ParentsCount(rs: seq<Relation>, head: Kind, tail: Kind, id: Id)
    requires ContainedOnce(rs)
    ensures |Parents(rs, head, tail, id)| <= 1
    ensures |Parents(rs, head, tail, id)| == 1 <==> HasParent(rs, head, tail, id)
  {
    var parents := Parents(rs, head, tail, id);
    OneParent(rs, head, tail, id);
    forall h, k | h in parents && k in parents ensures h == k { SameParent(rs, head, tail, id, h, k); }
    TwoMembers(parents);
    ParentsHeld(rs, head, tail, id, parents);
  }

  lemma ParentsHeld(rs: seq<Relation>, head: Kind, tail: Kind, id: Id, parents: seq<Id>)
    requires forall h :: h in parents <==> HasRelation(rs, head, h, tail, id)
    ensures parents != [] <==> HasParent(rs, head, tail, id)
  {
    if parents != [] { assert parents[0] in parents; }
    if q :| q in rs && Joins(q, head, tail) && q.tailId == id {
      assert HasRelation(rs, head, q.headId, tail, id);
    }
  }

  predicate OneParentOf(rs: seq<Relation>, g: Group, id: Id) { |Parents(rs, Top(g), Middle(g), id)| == 1 }

  /** Building mappings fails on a pair whose head has not exactly one parent, and only then. */
  lemma {:induction false} WithParentExactly(rs: seq<Relation>, g: Group, pairs: seq<(Id, Id)>)
    ensures WithParent(rs, g, pairs).Ok? ==> forall p | p in pairs :: OneParentOf(rs, g, p.0)
    ensures WithParent(rs, g, pairs).Err? ==>
              exists p | p in pairs :: !OneParentOf(rs, g, p.0) && WithParent(rs, g, pairs).error == ParentError(g, p.0)
  {
    if pairs != [] {
      var init, last := pairs[..|pairs| - 1], pairs[|pairs| - 1];
      WithParentExactly(rs, g, init);
      assert pairs == init + [last] && last in pairs;
      WithParentStep(rs, g, pairs);
    }
  }

  lemma WithParentStep(rs: seq<Relation>, g: Group, pairs: seq<(Id, Id)>)
    requires pairs != []
    ensures var r, init := WithParent(rs, g, pairs), WithParent(rs, g, pairs[..|pairs| - 1]);
            var last := pairs[|pairs| - 1].0;
            && (r.Ok? <==> init.Ok? && OneParentOf(rs, g, last))
            && (r.Err? ==> r.error == if init.Err? then init.error else ParentError(g, last))
  {}

  lemma {:induction false} WithChapterIsOk(rs: seq<Relation>, pairs: seq<(Id, Id)>)
    requires ContainedOnce(rs)
    ensures WithChapter(rs, pairs).Ok?
  {
    if pairs != [] {
      WithChapterIsOk(rs, pairs[..|pairs| - 1]);
      ParentsCount(rs, Chapter, Section, pairs[|pairs| - 1].0);
    }
  }

  /** Only a Section may contain a Subsection. */
  lemma SubsectionsHaveParents(rs: seq<Relation>)
    requires Consistent(rs)
    ensures NestedArticles(rs).Ok?
  {
    var pairs := Pairs(rs, Subsection, Article);
    PairsAre(rs, Subsection, Article);
    forall p | p in pairs ensures OneParentOf(rs, SubsectionGroup, p.0) {
      var r :| r in rs && Joins(r, Subsection, Article) && r.headId == p.0 && r.tailId == p.1;
      SubsectionHasParent(rs, r);
      ParentsCount(rs, Section, Subsection, p.0);
    }
    WithParentExactly(rs, SubsectionGroup, pairs);
  }

  lemma SubsectionHasParent(rs: seq<Relation>, r: Relation)
    requires Consistent(rs) && r in rs && Joins(r, Subsection, Article)
    ensures HasParent(rs, Section, Subsection, r.headId)
  {
    assert MayContain(Section, Subsection) && Structural(Subsection);
    var a := Node(Subsection, r.headId);
    assert a in Ends(r);
    var q :| q in rs && q.contains && q.tailId == r.headId;
    var b := Node(q.tailKind, q.tailId);
    assert b in Ends(q) && b.kind == a.kind;
    assert MayContain(q.headKind, Subsection);
  }

  lemma PartMappingsExactly(rs: seq<Relation>)
    requires ContainedOnce(rs)
    ensures PartMappings(rs).Ok? <==> PartsInDocuments(rs)
    ensures PartMappings(rs).Err? ==>
              exists r | r in rs ::
                Joins(r, Part, Chapter) && !HasParent(rs, Document, Part, r.headId)
                && PartMappings(rs).error == PartParents(r.headId)
  {
    var pairs := Pairs(rs, Part, Chapter);
    PairsAre(rs, Part, Chapter);
    WithParentExactly(rs, PartGroup, pairs);
    forall p | p in pairs ensures OneParentOf(rs, PartGroup, p.0) <==> HasParent(rs, Document, Part, p.0) {
      ParentsCount(rs, Document, Part, p.0);
    }
    if PartMappings(rs).Ok? {
      forall r | r in rs && Joins(r, Part, Chapter) ensures HasParent(rs, Document, Part, r.headId) {
        assert HasRelation(rs, Part, r.headId, Chapter, r.tailId);
        assert (r.headId, r.tailId) in pairs;
      }
    } else {
      var p :| p in pairs && !OneParentOf(rs, PartGroup, p.0) && PartMappings(rs).error == PartParents(p.0);
      var r :| r in rs && Joins(r, Part, Chapter) && r.headId == p.0 && r.tailId == p.1;
    }
  }

  /** The mappings of a consistent payload can be built exactly when its Parts with Chapters are in Documents. */
  lemma MappingsOkExactly(rs: seq<Relation>)
    requires Consistent(rs)
    ensures SectionMappings(rs).Ok? && SubsectionMappings(rs).Ok?
    ensures MappingsOk(rs) <==> PartsInDocuments(rs)
  {
    SubsectionsHaveParents(rs);
    WithChapterIsOk(rs, Pairs(rs, Section, Article) + Flattened(NestedArticles(rs).value));
    PartMappingsExactly(rs);
  }

  // -- reconciling a consistent payload ------------------------------------------------------

  /** A Part outside a Document, with a Chapter, is what the error names. */
  ghost predicate NamesPart(rs: seq<Relation>, error: Error) {
    exists r | r in rs ::
      Joins(r, Part, Chapter) && !HasParent(rs, Document, Part, r.headId) && error == PartParents(r.headId)
  }

  /**
    Any run after a consistent payload has been written: it succeeds if and only if the Parts with Chapters are in
    Documents and every article under a Subsection of a Section with a Chapter is still stored in that Section directly
    as well.
   */
  lemma WrittenRunSucceeds(rs: seq<Relation>, edges: set<Edge>)
    requires Consistent(rs) && HoldsPayload(edges, rs)
    ensures Reconcile(rs, edges).1.Ok? <==> PartsInDocuments(rs) && FlatEdgesStored(edges, rs)
    ensures !PartsInDocuments(rs) ==> Reconcile(rs, edges).0 == edges && NamesPart(rs, Reconcile(rs, edges).1.error)
    ensures PartsInDocuments(rs) && !FlatEdgesStored(edges, rs) ==>
              Reconcile(rs, edges) == (edges, Err(ChainMissing(SectionGroup)))
  {
    MappingsOkExactly(rs);
    if PartsInDocuments(rs) {
      RunSucceeds(rs, edges);
    } else {
      PartMappingsExactly(rs);
    }
  }

  /** A consistent payload has no flat edge of its own. */
  lemma NoFlatEdges(rs: seq<Relation>)
    requires Consistent(rs)
    ensures FlatEdgesPresent(rs) <==> !NestedUnderChapter(rs)
  {
    forall c, r | c in rs && r in rs && Joins(c, Chapter, Section) && Joins(r, Subsection, Article)
      ensures !HasRelation(rs, Section, c.tailId, Article, r.tailId)
    {
      ContainedByOneKind(rs, r, Section, c.tailId);
    }
  }

  lemma ContainedByOneKind(rs: seq<Relation>, r: Relation, head: Kind, id: Id)
    requires ContainedOnce(rs) && r in rs && r.contains && r.headKind != head
    ensures !HasRelation(rs, head, id, r.tailKind, r.tailId)
  {
    forall q | q in rs && Joins(q, head, r.tailKind) ensures q.tailId != r.tailId {
      if q.tailId == r.tailId { SameContainment(rs, q, r); }
    }
  }

  /**
    The first ingestion of a consistent payload reconciles if and only if its Parts with Chapters are in Documents and
    no article under a Subsection lies in a Section with a Chapter.
   */
  lemma FirstIngestionSucceeds(rs: seq<Relation>, edges: set<Edge>)
    requires Consistent(rs) && HoldsJust(edges, rs)
    ensures Reconcile(rs, edges).1.Ok? <==> PartsInDocuments(rs) && !NestedUnderChapter(rs)
  {
    JustPayload(rs, edges);
    NoFlatEdges(rs);
    WrittenRunSucceeds(rs, edges);
  }
}
