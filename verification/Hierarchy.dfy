/** Reconciliation of superseded flattened hierarchy edges (infrastructure/neo4j/hierarchy_reconciler.py). */
module Hierarchy {
  import opened Prelude

  type Id = string

  datatype Kind = Document | Part | Chapter | Section | Subsection | Article | OtherKind(name: string)

  datatype Relation = Relation(contains: bool, headKind: Kind, headId: Id, tailKind: Kind, tailId: Id)

  datatype Node = Node(kind: Kind, id: Id)

  /** A stored CONTAINS edge; several may join the same two nodes. */
  datatype Edge = Edge(key: nat, head: Node, tail: Node)

  datatype Mapping = Mapping(top: Id, middle: Id, bottom: Id)

  datatype Error =
    | SectionParents(id: Id)
    | PartParents(id: Id)
    | SubsectionParents(id: Id)
    | ChainMissing(group: Group)

  datatype Group = SectionGroup | PartGroup | SubsectionGroup

  datatype Report = Report(mappings: nat, deleted: nat, parts: nat, subsections: nat)

  // -- mappings read off the payload ------------------------------------------------

  predicate Joins(r: Relation, head: Kind, tail: Kind) { r.contains && r.headKind == head && r.tailKind == tail }

  /** The heads recorded for one tail, in payload order. */
  function Heads(rs: seq<Relation>, head: Kind, tail: Kind, tailId: Id): seq<Id> {
    if rs == [] then []
    else
      var before, r := Heads(rs[..|rs| - 1], head, tail, tailId), rs[|rs| - 1];
      if Joins(r, head, tail) && r.tailId == tailId then before + [r.headId] else before
  }

  function Pairs(rs: seq<Relation>, head: Kind, tail: Kind): seq<(Id, Id)> {
    if rs == [] then []
    else
      var before, r := Pairs(rs[..|rs| - 1], head, tail), rs[|rs| - 1];
      if Joins(r, head, tail) then before + [(r.headId, r.tailId)] else before
  }

  /** The distinct parents of a node; ambiguous when there is more than one. */
  function Parents(rs: seq<Relation>, head: Kind, tail: Kind, tailId: Id): seq<Id> {
    Unique(Heads(rs, head, tail, tailId))
  }

  function ParentError(g: Group, id: Id): Error {
    match g
    case SectionGroup => SectionParents(id)
    case PartGroup => PartParents(id)
    case SubsectionGroup => SubsectionParents(id)
  }

  /** Every pair with the one parent of its head put in front; an error when that parent is not unique. */
  function WithParent(rs: seq<Relation>, g: Group, pairs: seq<(Id, Id)>): Result<seq<Mapping>, Error> {
    if pairs == [] then Ok([])
    else
      match WithParent(rs, g, pairs[..|pairs| - 1])
      case Err(e) => Err(e)
      case Ok(before) =>
        var (id, bottom) := pairs[|pairs| - 1];
        var parents := Parents(rs, Top(g), Middle(g), id);
        if |parents| != 1 then Err(ParentError(g, id)) else Ok(before + [Mapping(parents[0], id, bottom)])
  }

  /** Pairs of a Section with at most one Chapter; those without one need no mapping. */
  function WithChapter(rs: seq<Relation>, pairs: seq<(Id, Id)>): Result<seq<Mapping>, Error> {
    if pairs == [] then Ok([])
    else
      match WithChapter(rs, pairs[..|pairs| - 1])
      case Err(e) => Err(e)
      case Ok(before) =>
        var (id, bottom) := pairs[|pairs| - 1];
        var parents := Parents(rs, Chapter, Section, id);
        if |parents| > 1 then Err(SectionParents(id))
        else if |parents| == 1 then Ok(before + [Mapping(parents[0], id, bottom)])
        else Ok(before)
  }

  predicate MappingLe(a: Mapping, b: Mapping) {
    if a.top != b.top then StringLe(a.top, b.top)
    else if a.middle != b.middle then StringLe(a.middle, b.middle)
    else StringLe(a.bottom, b.bottom)
  }

  function Sorted(r: Result<seq<Mapping>, Error>): Result<seq<Mapping>, Error> {
    match r
    case Err(e) => Err(e)
    case Ok(ms) => Ok(SortBy(ms, MappingLe))
  }

  function SubsectionMappings(rs: seq<Relation>): Result<seq<Mapping>, Error> {
    Sorted(NestedArticles(rs))
  }

  /** Articles below a Subsection, with the Section above it. */
  function NestedArticles(rs: seq<Relation>): Result<seq<Mapping>, Error> {
    WithParent(rs, SubsectionGroup, Pairs(rs, Subsection, Article))
  }

  function PartMappings(rs: seq<Relation>): Result<seq<Mapping>, Error> {
    Sorted(WithParent(rs, PartGroup, Pairs(rs, Part, Chapter)))
  }

  function Flattened(ms: seq<Mapping>): seq<(Id, Id)> {
    seq(|ms|, i requires 0 <= i < |ms| => (ms[i].top, ms[i].bottom))
  }

  /** The Section group covers the articles of a Section and those one Subsection further down. */
  function SectionMappings(rs: seq<Relation>): Result<seq<Mapping>, Error> {
    match NestedArticles(rs)
    case Err(e) => Err(e)
    case Ok(nested) => Sorted(WithChapter(rs, Pairs(rs, Section, Article) + Flattened(nested)))
  }

  // -- the three queries ----------------------------------------------------------------

  function Top(g: Group): Kind {
    match g
    case SectionGroup => Chapter
    case PartGroup => Document
    case SubsectionGroup => Section
  }

  function Middle(g: Group): Kind {
    match g
    case SectionGroup => Section
    case PartGroup => Part
    case SubsectionGroup => Subsection
  }

  function Bottom(g: Group): Kind {
    match g
    case SectionGroup => Article
    case PartGroup => Chapter
    case SubsectionGroup => Article
  }

  predicate Linked(edges: set<Edge>, a: Node, b: Node) {
    exists e | e in edges :: e.head == a && e.tail == b
  }

  predicate ChainExists(edges: set<Edge>, g: Group, m: Mapping) {
    && Linked(edges, Node(Top(g), m.top), Node(Middle(g), m.middle))
    && Linked(edges, Node(Middle(g), m.middle), Node(Bottom(g), m.bottom))
  }

  predicate AllChains(edges: set<Edge>, g: Group, ms: seq<Mapping>) {
    forall i | 0 <= i < |ms| :: ChainExists(edges, g, ms[i])
  }

  /** The direct edges from the top to the bottom of a mapping. */
  function Shortcuts(edges: set<Edge>, g: Group, m: Mapping): set<Edge> {
    set e | e in edges && e.head == Node(Top(g), m.top) && e.tail == Node(Bottom(g), m.bottom)
  }

  function AllShortcuts(edges: set<Edge>, g: Group, ms: seq<Mapping>): set<Edge> {
    set e, i | 0 <= i < |ms| && e in Shortcuts(edges, g, ms[i]) :: e
  }

  /** One row per mapping and shortcut, so a repeated mapping counts its shortcuts again. */
  function RowCount(edges: set<Edge>, g: Group, ms: seq<Mapping>): nat {
    if ms == [] then 0 else RowCount(edges, g, ms[..|ms| - 1]) + |Shortcuts(edges, g, ms[|ms| - 1])|
  }

  function Cleanup(edges: set<Edge>, g: Group, ms: seq<Mapping>): (set<Edge>, Result<nat, Error>) {
    if ms == [] then (edges, Ok(0))
    else if !AllChains(edges, g, ms) then (edges, Err(ChainMissing(g)))
    else (edges - AllShortcuts(edges, g, ms), Ok(RowCount(edges, g, ms)))
  }

  // -- reconcile --------------------------------------------------------------------------

  /** The three groups in turn; a group that fails keeps what earlier groups deleted. */
  function Apply(edges: set<Edge>, sections: seq<Mapping>, parts: seq<Mapping>, subsections: seq<Mapping>)
    : (set<Edge>, Result<Report, Error>)
  {
    var (e1, r1) := Cleanup(edges, SectionGroup, sections);
    if r1.Err? then (e1, Err(r1.error)) else
    var (e2, r2) := Cleanup(e1, PartGroup, parts);
    if r2.Err? then (e2, Err(r2.error)) else
    var (e3, r3) := Cleanup(e2, SubsectionGroup, subsections);
    if r3.Err? then (e3, Err(r3.error)) else
    (e3, Ok(Report(|sections| + |parts| + |subsections|, r1.value + r2.value + r3.value, |parts|, |subsections|)))
  }

  function Reconcile(rs: seq<Relation>, edges: set<Edge>): (set<Edge>, Result<Report, Error>) {
    var sections := SectionMappings(rs);
    if sections.Err? then (edges, Err(sections.error)) else
    var parts := PartMappings(rs);
    if parts.Err? then (edges, Err(parts.error)) else
    var subsections := SubsectionMappings(rs);
    if subsections.Err? then (edges, Err(subsections.error)) else
    Apply(edges, sections.value, parts.value, subsections.value)
  }

  // -- the reconciler object -----------------------------------------------------------------

  function Get(m: map<Id, seq<Id>>, id: Id): seq<Id> { if id in m then m[id] else [] }

  function Record(m: map<Id, seq<Id>>, r: Relation): map<Id, seq<Id>> {
    m[r.tailId := Get(m, r.tailId) + [r.headId]]
  }

  /** `m` holds the parents collected from `rs`. */
  ghost predicate Collected(m: map<Id, seq<Id>>, rs: seq<Relation>, head: Kind, tail: Kind) {
    forall id :: Get(m, id) == Heads(rs, head, tail, id)
  }

  function Note(m: map<Id, seq<Id>>, r: Relation, head: Kind, tail: Kind): map<Id, seq<Id>> {
    if Joins(r, head, tail) then Record(m, r) else m
  }

  lemma NoteCollects(m: map<Id, seq<Id>>, rs: seq<Relation>, i: nat, head: Kind, tail: Kind)
    requires i < |rs| && Collected(m, rs[..i], head, tail)
    ensures Collected(Note(m, rs[i], head, tail), rs[..i + 1], head, tail)
  {
    var rs', r := rs[..i + 1], rs[i];
    assert rs'[..i] == rs[..i];
    forall id ensures Get(Note(m, r, head, tail), id) == Heads(rs', head, tail, id) {
      assert Get(m, id) == Heads(rs[..i], head, tail, id);
    }
  }

  lemma PairsStep(rs: seq<Relation>, i: nat, head: Kind, tail: Kind)
    requires i < |rs|
    ensures Pairs(rs[..i + 1], head, tail)
            == if Joins(rs[i], head, tail) then Pairs(rs[..i], head, tail) + [(rs[i].headId, rs[i].tailId)]
               else Pairs(rs[..i], head, tail)
  {
    assert rs[..i + 1][..i] == rs[..i];
  }

  class SectionHierarchyReconciler {
    /** The stored CONTAINS edges. */
    var edges: set<Edge>

    constructor (stored: set<Edge>)
      ensures edges == stored
    {
      edges := stored;
    }

    method SectionArticleMappings(rs: seq<Relation>) returns (r: Result<seq<Mapping>, Error>)
      ensures r == SectionMappings(rs)
    {
      var chapterParents, sectionArticles := CollectUnder(rs, Chapter, Section, Article);
      var subsectionParents, subsectionArticles := CollectUnder(rs, Section, Subsection, Article);
      var nested := AttachParents(rs, SubsectionGroup, subsectionParents, subsectionArticles);
      if nested.Err? {
        return Err(nested.error);
      }
      r := AttachChapters(rs, chapterParents, sectionArticles + Flattened(nested.value));
    }

    /** One pass over the payload: the parents of the middle nodes and the pairs below them. */
    method CollectUnder(rs: seq<Relation>, top: Kind, middle: Kind, bottom: Kind)
      returns (parentsOf: map<Id, seq<Id>>, pairs: seq<(Id, Id)>)
      requires top != middle
      ensures Collected(parentsOf, rs, top, middle) && pairs == Pairs(rs, middle, bottom)
    {
      parentsOf, pairs := map[], [];
      var i := 0;
      while i < |rs|
        invariant i <= |rs|
        invariant Collected(parentsOf, rs[..i], top, middle)
        invariant pairs == Pairs(rs[..i], middle, bottom)
      {
        NoteCollects(parentsOf, rs, i, top, middle);
        PairsStep(rs, i, middle, bottom);
        var r := rs[i];
        i := i + 1;
        if r.contains && r.headKind == top && r.tailKind == middle {
          parentsOf := Record(parentsOf, r);
        } else if r.contains && r.headKind == middle && r.tailKind == bottom {
          pairs := pairs + [(r.headId, r.tailId)];
        }
      }
      assert rs[..i] == rs;
    }

    method AttachParents(rs: seq<Relation>, g: Group, parentsOf: map<Id, seq<Id>>, pairs: seq<(Id, Id)>)
      returns (r: Result<seq<Mapping>, Error>)
      requires Collected(parentsOf, rs, Top(g), Middle(g))
      ensures r == WithParent(rs, g, pairs)
    {
      var mappings: seq<Mapping> := [];
      for i := 0 to |pairs|
        invariant WithParent(rs, g, pairs[..i]) == Ok(mappings)
      {
        assert pairs[..i + 1][..i] == pairs[..i];
        var (id, bottom) := pairs[i];
        var parents := Unique(Get(parentsOf, id));
        if |parents| != 1 {
          NoParentFails(rs, g, pairs, i);
          return Err(ParentError(g, id));
        }
        mappings := mappings + [Mapping(parents[0], id, bottom)];
      }
      assert pairs[..|pairs|] == pairs;
      r := Ok(mappings);
    }

    method AttachChapters(rs: seq<Relation>, parentsOf: map<Id, seq<Id>>, pairs: seq<(Id, Id)>)
      returns (r: Result<seq<Mapping>, Error>)
      requires Collected(parentsOf, rs, Chapter, Section)
      ensures r == Sorted(WithChapter(rs, pairs))
    {
      var mappings: seq<Mapping> := [];
      for i := 0 to |pairs|
        invariant WithChapter(rs, pairs[..i]) == Ok(mappings)
      {
        assert pairs[..i + 1][..i] == pairs[..i];
        var (id, article) := pairs[i];
        var parents := Unique(Get(parentsOf, id));
        if |parents| > 1 {
          TwoChaptersFail(rs, pairs, i);
          return Err(SectionParents(id));
        }
        if |parents| == 1 {
          mappings := mappings + [Mapping(parents[0], id, article)];
        }
      }
      assert pairs[..|pairs|] == pairs;
      r := Ok(SortBy(mappings, MappingLe));
    }

    method PartChapterMappings(rs: seq<Relation>) returns (r: Result<seq<Mapping>, Error>)
      ensures r == PartMappings(rs)
    {
      r := ParentedMappings(rs, PartGroup);
    }

    method SubsectionArticleMappings(rs: seq<Relation>) returns (r: Result<seq<Mapping>, Error>)
      ensures r == SubsectionMappings(rs)
    {
      r := ParentedMappings(rs, SubsectionGroup);
    }

    method ParentedMappings(rs: seq<Relation>, g: Group) returns (r: Result<seq<Mapping>, Error>)
      requires g != SectionGroup
      ensures r == Sorted(WithParent(rs, g, Pairs(rs, Middle(g), Bottom(g))))
    {
      var parentsOf, pairs := CollectUnder(rs, Top(g), Middle(g), Bottom(g));
      r := AttachParents(rs, g, parentsOf, pairs);
      r := Sorted(r);
    }

    /** One query: all chains are checked before any shortcut is deleted. */
    method ReconcileMappings(g: Group, ms: seq<Mapping>) returns (r: Result<nat, Error>)
      modifies this
      ensures (edges, r) == Cleanup(old(edges), g, ms)
    {
      if ms == [] {
        return Ok(0);
      }
      var exists' := AllChains(edges, g, ms);
      if !exists' {
        return Err(ChainMissing(g));
      }
      r := Ok(RowCount(edges, g, ms));
      edges := edges - AllShortcuts(edges, g, ms);
    }

    method Run(rs: seq<Relation>) returns (r: Result<Report, Error>)
      modifies this
      ensures (edges, r) == Reconcile(rs, old(edges))
    {
      var sections := SectionArticleMappings(rs);
      if sections.Err? {
        return Err(sections.error);
      }
      var parts := PartChapterMappings(rs);
      if parts.Err? {
        return Err(parts.error);
      }
      var subsections := SubsectionArticleMappings(rs);
      if subsections.Err? {
        return Err(subsections.error);
      }
      r := ApplyGroups(sections.value, parts.value, subsections.value);
    }

    method ApplyGroups(sections: seq<Mapping>, parts: seq<Mapping>, subsections: seq<Mapping>)
      returns (r: Result<Report, Error>)
      modifies this
      ensures (edges, r) == Apply(old(edges), sections, parts, subsections)
    {
      if sections == [] && parts == [] && subsections == [] {
        return Ok(Report(0, 0, 0, 0));
      }
      var deleted := 0;
      var step := ReconcileMappings(SectionGroup, sections);
      if step.Err? {
        return Err(step.error);
      }
      deleted := deleted + step.value;
      step := ReconcileMappings(PartGroup, parts);
      if step.Err? {
        return Err(step.error);
      }
      deleted := deleted + step.value;
      step := ReconcileMappings(SubsectionGroup, subsections);
      if step.Err? {
        return Err(step.error);
      }
      deleted := deleted + step.value;
      r := Ok(Report(|sections| + |parts| + |subsections|, deleted, |parts|, |subsections|));
    }
  }

  /** The first pair without a unique parent decides the result, whatever follows it. */
  lemma {:induction false} NoParentFails(rs: seq<Relation>, g: Group, pairs: seq<(Id, Id)>, i: nat)
    requires i < |pairs| && WithParent(rs, g, pairs[..i]).Ok?
    requires |Parents(rs, Top(g), Middle(g), pairs[i].0)| != 1
    ensures WithParent(rs, g, pairs) == Err(ParentError(g, pairs[i].0))
  {
    var init := pairs[..|pairs| - 1];
    if i == |pairs| - 1 {
      assert init == pairs[..i];
    } else {
      assert init[..i] == pairs[..i];
      NoParentFails(rs, g, init, i);
    }
  }

  lemma {:induction false} TwoChaptersFail(rs: seq<Relation>, pairs: seq<(Id, Id)>, i: nat)
    requires i < |pairs| && WithChapter(rs, pairs[..i]).Ok? && |Parents(rs, Chapter, Section, pairs[i].0)| > 1
    ensures WithChapter(rs, pairs) == Err(SectionParents(pairs[i].0))
  {
    var init := pairs[..|pairs| - 1];
    if i == |pairs| - 1 {
      assert init == pairs[..i];
    } else {
      assert init[..i] == pairs[..i];
      TwoChaptersFail(rs, init, i);
    }
  }
}
