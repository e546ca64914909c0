/** Payloads that pass the consistency check and do not reconcile: at first, on a second run, and for a Part. */
module HierarchyExample {
  import opened Prelude
  import opened Hierarchy
  import opened HierarchySafety
  import opened HierarchyPayload

  // -- a graph right after ingestion --------------------------------------------------------

  function EdgeOf(key: nat, r: Relation): Edge { Edge(key, Node(r.headKind, r.headId), Node(r.tailKind, r.tailId)) }

  /** One stored edge per relation of the payload. */
  function Ingested(rs: seq<Relation>): set<Edge> { set i | 0 <= i < |rs| :: EdgeOf(i, rs[i]) }

  lemma IngestedHoldsJust(rs: seq<Relation>)
    requires forall r | r in rs :: r.contains
    ensures HoldsJust(Ingested(rs), rs)
  {
    forall a, b ensures Linked(Ingested(rs), a, b) <==> HasRelation(rs, a.kind, a.id, b.kind, b.id) {
      if e :| e in Ingested(rs) && e.head == a && e.tail == b {
        var i :| 0 <= i < |rs| && EdgeOf(i, rs[i]) == e;
        assert rs[i] in rs && Joins(rs[i], a.kind, b.kind);
      }
      if r :| r in rs && Joins(r, a.kind, b.kind) && r.headId == a.id && r.tailId == b.id {
        var i :| 0 <= i < |rs| && rs[i] == r;
        assert EdgeOf(i, rs[i]) in Ingested(rs);
      }
    }
  }

  // -- the payloads -------------------------------------------------------------------------------

  function Inside(headKind: Kind, headId: Id, tailKind: Kind, tailId: Id): Relation {
    Relation(true, headKind, headId, tailKind, tailId)
  }

  /** A Document with a Chapter, its Section, a Subsection of that and an Article of it. */
  function Nested(): seq<Relation> {
    [Inside(Document, "d", Chapter, "c"), Inside(Chapter, "c", Section, "s"),
     Inside(Section, "s", Subsection, "u"), Inside(Subsection, "u", Article, "a")]
  }

  /** A Document with an attached instrument, its Part, a Chapter of that and an Article of it. */
  function PartInInstrument(): seq<Relation> {
    [Inside(Document, "d", Instrument, "i"), Inside(Instrument, "i", Part, "p"),
     Inside(Part, "p", Chapter, "c"), Inside(Chapter, "c", Article, "a")]
  }

  /** What an ingestion from before Subsections left in the graph: the Article directly in its Section and Chapter. */
  function Legacy(): set<Edge> {
    {Edge(4, Node(Section, "s"), Node(Article, "a")), Edge(5, Node(Chapter, "c"), Node(Article, "a"))}
  }

  /** Each containment is inside the one before it. */
  ghost predicate IsChain(rs: seq<Relation>) {
    && (forall i | 0 <= i < |rs| :: rs[i].contains && MayContain(rs[i].headKind, rs[i].tailKind))
    && (rs != [] ==> rs[0].headKind == Document)
    && (forall i | 0 < i < |rs| :: rs[i].headKind == rs[i - 1].tailKind && rs[i].headId == rs[i - 1].tailId)
    && (forall i, j | 0 <= i < j < |rs| :: rs[i].tailId != rs[j].tailId)
    && (forall i | 0 <= i < |rs| :: rs[i].tailId != rs[0].headId)
  }

  /** A chain of containments below a Document passes the check. */
  lemma ChainIsConsistent(rs: seq<Relation>)
    requires IsChain(rs)
    ensures Consistent(rs)
  {
    ChainHasOneKindEach(rs);
    forall r | r in rs
      ensures forall a | a in Ends(r) && a.kind != Document :: Contained(rs, a.id)
    {
      var i :| 0 <= i < |rs| && rs[i] == r;
      assert i > 0 ==> rs[i - 1] in rs;
    }
    forall p, q | p in rs && q in rs && Joins(p, Section, Subsection) && Joins(q, Section, Article)
      ensures p.headId != q.headId
    {
      ChainHeads(rs, p, q);
    }
  }

  /** The number of the node in the chain, the Document being the first. */
  lemma EndAt(rs: seq<Relation>, r: Relation, a: Node) returns (k: nat)
    requires IsChain(rs) && r in rs && a in Ends(r)
    ensures k <= |rs|
    ensures a == if k == 0 then Node(Document, rs[0].headId) else Node(rs[k - 1].tailKind, rs[k - 1].tailId)
  {
    var i :| 0 <= i < |rs| && rs[i] == r;
    k := if a == Node(r.tailKind, r.tailId) then i + 1 else i;
  }

  lemma ChainHasOneKindEach(rs: seq<Relation>)
    requires IsChain(rs)
    ensures OneKindEach(rs)
  {
    forall p, q, a, b | p in rs && q in rs && a in Ends(p) && b in Ends(q) && a.id == b.id ensures a.kind == b.kind {
      var i := EndAt(rs, p, a);
      var j := EndAt(rs, q, b);
      assert i == j;
    }
  }

  /** A node of a chain contains one other node. */
  lemma ChainHeads(rs: seq<Relation>, p: Relation, q: Relation)
    requires IsChain(rs) && p in rs && q in rs
    ensures p.headId == q.headId ==> p == q
  {
    var i :| 0 <= i < |rs| && rs[i] == p;
    var j :| 0 <= j < |rs| && rs[j] == q;
    assert i > 0 ==> rs[i - 1].tailId != rs[0].headId;
    assert j > 0 ==> rs[j - 1].tailId != rs[0].headId;
    assert i > 0 && j > 0 && i != j ==> rs[i - 1].tailId != rs[j - 1].tailId;
  }

  lemma ExamplesAreChains()
    ensures IsChain(Nested()) && IsChain(PartInInstrument())
  {}

  lemma IngestedChain(rs: seq<Relation>)
    requires IsChain(rs)
    ensures HoldsJust(Ingested(rs), rs)
  {
    IngestedHoldsJust(rs);
  }

  lemma NestedHasNoPart()
    ensures PartsInDocuments(Nested())
  {}

  lemma NestedIsNested()
    ensures NestedUnderChapter(Nested())
  {
    var rs := Nested();
    SubsectionNests(rs, rs[1], rs[2], rs[3]);
  }

  lemma SubsectionNests(rs: seq<Relation>, c: Relation, p: Relation, r: Relation)
    requires c in rs && p in rs && r in rs && c.tailId == p.headId && p.tailId == r.headId
    requires Joins(c, Chapter, Section) && Joins(p, Section, Subsection) && Joins(r, Subsection, Article)
    ensures NestedUnderChapter(rs)
  {
    assert HasRelation(rs, Section, c.tailId, Subsection, p.tailId);
    assert HasRelation(rs, Subsection, p.tailId, Article, r.tailId);
    assert ChainInPayload(rs, SubsectionGroup, Mapping(c.tailId, p.tailId, r.tailId)) && p.tailId in TailIds(rs);
  }

  /** The first ingestion of an Article under a Subsection of a Section with a Chapter fails. */
  lemma FreshRunFails()
    ensures var rs := Nested();
      Consistent(rs) && Reconcile(rs, Ingested(rs)) == (Ingested(rs), Err(ChainMissing(SectionGroup)))
  {
    ExamplesAreChains();
    NestedHasNoPart();
    NestedIsNested();
    NestedChainFails(Nested());
  }

  lemma NestedChainFails(rs: seq<Relation>)
    requires IsChain(rs) && PartsInDocuments(rs) && NestedUnderChapter(rs)
    ensures Consistent(rs) && Reconcile(rs, Ingested(rs)) == (Ingested(rs), Err(ChainMissing(SectionGroup)))
  {
    ChainIsConsistent(rs);
    IngestedChain(rs);
    JustPayload(rs, Ingested(rs));
    NoFlatEdges(rs);
    WrittenRunSucceeds(rs, Ingested(rs));
  }

  lemma LegacyIsFlat()
    ensures var rs := Nested(); var edges := Ingested(rs) + Legacy();
      HoldsPayload(edges, rs) && FlatEdgesStored(edges, rs)
  {
    var rs := Nested();
    var edges := Ingested(rs) + Legacy();
    forall i | 0 <= i < |rs| ensures EdgeOf(i, rs[i]) in edges {}
    forall c, r | c in rs && r in rs && Joins(c, Chapter, Section) && Joins(r, Subsection, Article)
      ensures Linked(edges, Node(Section, c.tailId), Node(Article, r.tailId))
    {
      assert Edge(4, Node(Section, "s"), Node(Article, "a")) in edges;
    }
  }

  /** Where the flat edges are still stored the first run succeeds, and running the same payload again fails. */
  lemma SecondRunFails()
    ensures var rs := Nested(); var (after, first) := Reconcile(rs, Ingested(rs) + Legacy());
      Consistent(rs) && first.Ok? && Reconcile(rs, after) == (after, Err(ChainMissing(SectionGroup)))
  {
    ExamplesAreChains();
    ChainIsConsistent(Nested());
    NestedHasNoPart();
    NestedIsNested();
    LegacyIsFlat();
    WrittenRunSucceeds(Nested(), Ingested(Nested()) + Legacy());
    RunAgain(Nested(), Ingested(Nested()) + Legacy());
  }

  lemma InstrumentHasNoDocument()
    ensures var rs := PartInInstrument();
      && rs[2] in rs && Joins(rs[2], Part, Chapter) && !HasParent(rs, Document, Part, rs[2].headId)
      && forall r | r in rs && Joins(r, Part, Chapter) :: r.headId == "p"
  {}

  /** A Part of an attached instrument, with a Chapter, fails on every graph. */
  lemma InstrumentFails(edges: set<Edge>)
    ensures Consistent(PartInInstrument())
    ensures Reconcile(PartInInstrument(), edges) == (edges, Err(PartParents("p")))
  {
    ExamplesAreChains();
    ChainIsConsistent(PartInInstrument());
    InstrumentHasNoDocument();
    MappingsOkExactly(PartInInstrument());
    PartMappingsExactly(PartInInstrument());
  }
}
