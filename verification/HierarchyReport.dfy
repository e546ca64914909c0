/**
  What a reconciliation deletes, reports and refuses (infrastructure/neo4j/hierarchy_reconciler.py), said of the payload
  relations and the stored edges.
 */
module HierarchyReport {
  import opened Prelude
  import opened Hierarchy
  import opened HierarchySafety

  // -- parents in the payload ----------------------------------------------------------------

  ghost predicate IsLink(r: Relation, head: Kind, tail: Kind) { r.contains && r.headKind == head && r.tailKind == tail }

  ghost predicate IsParent(rs: seq<Relation>, head: Kind, parent: Id, tail: Kind, id: Id) {
    exists i | 0 <= i < |rs| :: IsLink(rs[i], head, tail) && rs[i].headId == parent && rs[i].tailId == id
  }

  ghost predicate OnlyParent(rs: seq<Relation>, head: Kind, parent: Id, tail: Kind, id: Id) {
    IsParent(rs, head, parent, tail, id) && forall p | IsParent(rs, head, p, tail, id) :: p == parent
  }

  ghost predicate HasOneParent(rs: seq<Relation>, head: Kind, tail: Kind, id: Id) {
    exists p :: OnlyParent(rs, head, p, tail, id)
  }

  ghost predicate NoParent(rs: seq<Relation>, head: Kind, tail: Kind, id: Id) {
    forall p :: !IsParent(rs, head, p, tail, id)
  }

  lemma ParentsAre(rs: seq<Relation>, head: Kind, tail: Kind, id: Id)
    ensures forall p :: p in Parents(rs, head, tail, id) <==> IsParent(rs, head, p, tail, id)
  {
    HeadsAre(rs, head, tail, id);
    forall p ensures HasRelation(rs, head, p, tail, id) <==> IsParent(rs, head, p, tail, id) {
      if i :| 0 <= i < |rs| && IsLink(rs[i], head, tail) && rs[i].headId == p && rs[i].tailId == id {
        assert rs[i] in rs;
      }
    }
  }

  lemma ParentsHold(rs: seq<Relation>, head: Kind, tail: Kind, id: Id)
    ensures var parents := Parents(rs, head, tail, id);
      && (|parents| == 0 <==> NoParent(rs, head, tail, id))
      && (|parents| == 1 <==> HasOneParent(rs, head, tail, id))
      && (|parents| == 1 ==> OnlyParent(rs, head, parents[0], tail, id))
  {
    var parents := Parents(rs, head, tail, id);
    ParentsAre(rs, head, tail, id);
    if parents != [] { assert IsParent(rs, head, parents[0], tail, id); }
    if |parents| == 1 { assert OnlyParent(rs, head, parents[0], tail, id); }
    if HasOneParent(rs, head, tail, id) {
      var p :| OnlyParent(rs, head, p, tail, id);
      AllOne(parents, p);
    }
  }

  lemma AllOne(ids: seq<Id>, id: Id)
    requires NoDup(ids) && id in ids && forall x | x in ids :: x == id
    ensures |ids| == 1
  {
    forall i | 0 <= i < |ids| ensures ids[i] == id { assert ids[i] in ids; }
    var last := |ids| - 1;
    assert ids[0] == id == ids[last];
  }

  // -- the rows of a group ----------------------------------------------------------------------

  /** The relations that join two kinds, in payload order. */
  ghost predicate LinksAt(rs: seq<Relation>, head: Kind, tail: Kind, positions: seq<nat>, pairs: seq<(Id, Id)>) {
    && Climbs(positions, |rs|) && (forall i | 0 <= i < |rs| :: i in positions <==> IsLink(rs[i], head, tail))
    && |pairs| == |positions|
    && forall k | 0 <= k < |positions| :: pairs[k] == (rs[positions[k]].headId, rs[positions[k]].tailId)
  }

  lemma {:induction false} PairsLie(rs: seq<Relation>, head: Kind, tail: Kind) returns (positions: seq<nat>)
    ensures LinksAt(rs, head, tail, positions, Pairs(rs, head, tail))
  {
    positions := [];
    if rs != [] {
      var init, last := rs[..|rs| - 1], rs[|rs| - 1];
      positions := PairsLie(init, head, tail);
      LinksMore(init, last, head, tail, positions, Pairs(init, head, tail));
      assert rs == init + [last];
      if Joins(last, head, tail) { positions := positions + [|init|]; }
    }
  }

  lemma LinksMore(
      init: seq<Relation>, last: Relation, head: Kind, tail: Kind, positions: seq<nat>, pairs: seq<(Id, Id)>)
    requires LinksAt(init, head, tail, positions, pairs)
    ensures if IsLink(last, head, tail)
            then LinksAt(init + [last], head, tail, positions + [|init|], pairs + [(last.headId, last.tailId)])
            else LinksAt(init + [last], head, tail, positions, pairs)
  {
    assert |init| !in positions;
  }

  /** Every pair under the one parent of its first node. */
  ghost predicate Parented(rs: seq<Relation>, top: Kind, middle: Kind, pairs: seq<(Id, Id)>, ms: seq<Mapping>) {
    && |ms| == |pairs|
    && forall k | 0 <= k < |pairs| ::
         ms[k].middle == pairs[k].0 && ms[k].bottom == pairs[k].1
         && OnlyParent(rs, top, ms[k].top, middle, ms[k].middle)
  }

  /** The first node without exactly one parent. */
  ghost predicate FirstUnparented(rs: seq<Relation>, top: Kind, middle: Kind, pairs: seq<(Id, Id)>, id: Id) {
    exists k | 0 <= k < |pairs| ::
      && pairs[k].0 == id && !HasOneParent(rs, top, middle, id)
      && forall j | 0 <= j < k :: HasOneParent(rs, top, middle, pairs[j].0)
  }

  ghost predicate ParentFails(rs: seq<Relation>, g: Group, pairs: seq<(Id, Id)>, e: Error) {
    !e.ChainMissing? && e == ParentError(g, e.id) && FirstUnparented(rs, Top(g), Middle(g), pairs, e.id)
  }

  lemma {:induction false} WithParentIs(rs: seq<Relation>, g: Group, pairs: seq<(Id, Id)>)
    ensures WithParent(rs, g, pairs).Ok? ==> Parented(rs, Top(g), Middle(g), pairs, WithParent(rs, g, pairs).value)
    ensures WithParent(rs, g, pairs).Err? ==> ParentFails(rs, g, pairs, WithParent(rs, g, pairs).error)
  {
    if pairs != [] {
      var init, last := pairs[..|pairs| - 1], pairs[|pairs| - 1];
      WithParentIs(rs, g, init);
      ParentsHold(rs, Top(g), Middle(g), last.0);
      assert pairs == init + [last];
      if WithParent(rs, g, init).Err? {
        UnparentedMore(rs, Top(g), Middle(g), init, last, WithParent(rs, g, init).error.id);
      } else if |Parents(rs, Top(g), Middle(g), last.0)| != 1 {
        UnparentedLast(rs, Top(g), Middle(g), init, last, WithParent(rs, g, init).value);
      }
    }
  }

  lemma UnparentedLast(
      rs: seq<Relation>, top: Kind, middle: Kind, init: seq<(Id, Id)>, last: (Id, Id), ms: seq<Mapping>)
    requires Parented(rs, top, middle, init, ms) && !HasOneParent(rs, top, middle, last.0)
    ensures FirstUnparented(rs, top, middle, init + [last], last.0)
  {
    forall j | 0 <= j < |init| ensures HasOneParent(rs, top, middle, (init + [last])[j].0) {
      assert OnlyParent(rs, top, ms[j].top, middle, init[j].0);
    }
    assert (init + [last])[|init|].0 == last.0;
  }

  lemma UnparentedMore(
      rs: seq<Relation>, top: Kind, middle: Kind, init: seq<(Id, Id)>, last: (Id, Id), id: Id)
    requires FirstUnparented(rs, top, middle, init, id)
    ensures FirstUnparented(rs, top, middle, init + [last], id)
  {
    var k :| 0 <= k < |init| && init[k].0 == id && !HasOneParent(rs, top, middle, id)
             && forall j | 0 <= j < k :: HasOneParent(rs, top, middle, init[j].0);
    assert (init + [last])[k].0 == id;
  }

  /** Sections may lack a Chapter; their pairs are left out. */
  ghost predicate UnderChapters(
      rs: seq<Relation>, pairs: seq<(Id, Id)>, positions: seq<nat>, kept: seq<(Id, Id)>, ms: seq<Mapping>)
  {
    && Selects(pairs, positions, kept) && Parented(rs, Chapter, Section, kept, ms)
    && forall k | 0 <= k < |pairs| ::
         if k in positions then HasOneParent(rs, Chapter, Section, pairs[k].0)
         else NoParent(rs, Chapter, Section, pairs[k].0)
  }

  /** The first Section with several Chapters. */
  ghost predicate FirstAmbiguous(rs: seq<Relation>, pairs: seq<(Id, Id)>, id: Id) {
    exists k | 0 <= k < |pairs| :: pairs[k].0 == id && IsAmbiguous(rs, id)
      && forall j | 0 <= j < k :: !IsAmbiguous(rs, pairs[j].0)
  }

  ghost predicate IsAmbiguous(rs: seq<Relation>, section: Id) {
    !HasOneParent(rs, Chapter, Section, section) && !NoParent(rs, Chapter, Section, section)
  }

  lemma {:induction false} WithChapterHolds(rs: seq<Relation>, pairs: seq<(Id, Id)>)
    returns (positions: seq<nat>, kept: seq<(Id, Id)>)
    ensures WithChapter(rs, pairs).Ok? ==> UnderChapters(rs, pairs, positions, kept, WithChapter(rs, pairs).value)
    ensures WithChapter(rs, pairs).Err? ==> ChapterFails(rs, pairs, WithChapter(rs, pairs).error)
  {
    positions, kept := [], [];
    if pairs != [] {
      var init, last := pairs[..|pairs| - 1], pairs[|pairs| - 1];
      positions, kept := WithChapterHolds(rs, init);
      ParentsHold(rs, Chapter, Section, last.0);
      assert pairs == init + [last];
      if WithChapter(rs, init).Err? {
        AmbiguousMore(rs, init, last, WithChapter(rs, init).error.id);
      } else if |Parents(rs, Chapter, Section, last.0)| > 1 {
        AmbiguousLast(rs, init, last, positions, kept, WithChapter(rs, init).value);
      } else {
        UnderMore(rs, init, last, positions, kept, WithChapter(rs, init).value);
        if |Parents(rs, Chapter, Section, last.0)| == 1 {
          positions, kept := positions + [|init|], kept + [last];
        }
      }
    }
  }

  ghost predicate ChapterFails(rs: seq<Relation>, pairs: seq<(Id, Id)>, e: Error) {
    e.SectionParents? && FirstAmbiguous(rs, pairs, e.id)
  }

  lemma AmbiguousMore(rs: seq<Relation>, init: seq<(Id, Id)>, last: (Id, Id), id: Id)
    requires FirstAmbiguous(rs, init, id)
    ensures FirstAmbiguous(rs, init + [last], id)
  {
    var k :| 0 <= k < |init| && init[k].0 == id && IsAmbiguous(rs, id)
             && forall j | 0 <= j < k :: !IsAmbiguous(rs, init[j].0);
    assert (init + [last])[k].0 == id;
  }

  lemma AmbiguousLast(
      rs: seq<Relation>, init: seq<(Id, Id)>, last: (Id, Id), positions: seq<nat>, kept: seq<(Id, Id)>,
      ms: seq<Mapping>)
    requires UnderChapters(rs, init, positions, kept, ms) && IsAmbiguous(rs, last.0)
    ensures FirstAmbiguous(rs, init + [last], last.0)
  {
    assert (init + [last])[|init|].0 == last.0;
  }

  lemma UnderMore(
      rs: seq<Relation>, init: seq<(Id, Id)>, last: (Id, Id), positions: seq<nat>, kept: seq<(Id, Id)>,
      ms: seq<Mapping>)
    requires UnderChapters(rs, init, positions, kept, ms)
    ensures NoParent(rs, Chapter, Section, last.0) ==> UnderChapters(rs, init + [last], positions, kept, ms)
    ensures forall p | OnlyParent(rs, Chapter, p, Section, last.0) ::
      UnderChapters(rs, init + [last], positions + [|init|], kept + [last], ms + [Mapping(p, last.0, last.1)])
  {
    SelectsMore(init, positions, kept, last);
    assert |init| !in positions;
    assert forall k | 0 <= k < |init| :: (init + [last])[k] == init[k];
  }

  // -- the mappings of a payload ------------------------------------------------------------------

  /** Articles below a Subsection, paired with its Section. */
  ghost predicate NestedRows(rs: seq<Relation>, pairs: seq<(Id, Id)>, ms: seq<Mapping>, flat: seq<(Id, Id)>) {
    && (exists at :: LinksAt(rs, Subsection, Article, at, pairs)) && Parented(rs, Section, Subsection, pairs, ms)
    && |flat| == |ms| && forall k | 0 <= k < |ms| :: flat[k] == (ms[k].top, ms[k].bottom)
  }

  ghost predicate PartRows(rs: seq<Relation>, ms: seq<Mapping>) {
    exists at, pairs, rows ::
      LinksAt(rs, Part, Chapter, at, pairs) && Parented(rs, Document, Part, pairs, rows)
      && multiset(rows) == multiset(ms)
  }

  ghost predicate SubsectionRows(rs: seq<Relation>, ms: seq<Mapping>) {
    exists pairs, rows, flat :: NestedRows(rs, pairs, rows, flat) && multiset(rows) == multiset(ms)
  }

  ghost predicate SectionRows(rs: seq<Relation>, ms: seq<Mapping>) {
    exists at, direct, pairs, rows, flat, kept, positions, all ::
      && LinksAt(rs, Section, Article, at, direct) && NestedRows(rs, pairs, rows, flat)
      && UnderChapters(rs, direct + flat, positions, kept, all) && multiset(all) == multiset(ms)
  }

  /** Some Part with a Chapter is not in just one Document; the error names the first. */
  ghost predicate PartsFail(rs: seq<Relation>, e: Error) {
    e.PartParents? && exists at, pairs ::
      LinksAt(rs, Part, Chapter, at, pairs) && FirstUnparented(rs, Document, Part, pairs, e.id)
  }

  lemma PartRowsHold(rs: seq<Relation>)
    ensures PartMappings(rs).Ok? ==> PartRows(rs, PartMappings(rs).value)
    ensures PartMappings(rs).Err? ==> PartsFail(rs, PartMappings(rs).error)
  {
    var at := PairsLie(rs, Part, Chapter);
    WithParentIs(rs, PartGroup, Pairs(rs, Part, Chapter));
  }

  lemma NestedRowsHold(rs: seq<Relation>)
    ensures NestedArticles(rs).Ok? ==>
              var ms := NestedArticles(rs).value; NestedRows(rs, Pairs(rs, Subsection, Article), ms, Flattened(ms))
    ensures NestedArticles(rs).Err? ==> NestedFails(rs, NestedArticles(rs).error)
  {
    var at := PairsLie(rs, Subsection, Article);
    WithParentIs(rs, SubsectionGroup, Pairs(rs, Subsection, Article));
  }

  ghost predicate NestedFails(rs: seq<Relation>, e: Error) {
    e.SubsectionParents? && exists at, pairs ::
      LinksAt(rs, Subsection, Article, at, pairs) && FirstUnparented(rs, Section, Subsection, pairs, e.id)
  }

  lemma SubsectionRowsHold(rs: seq<Relation>)
    ensures SubsectionMappings(rs).Ok? ==> SubsectionRows(rs, SubsectionMappings(rs).value)
    ensures SubsectionMappings(rs).Err? ==> NestedFails(rs, SubsectionMappings(rs).error)
  {
    NestedRowsHold(rs);
  }

  /** Some Section is in several Chapters; the error names the first. */
  ghost predicate SectionsFail(rs: seq<Relation>, e: Error) {
    e.SectionParents? && exists at, direct, pairs, rows, flat ::
      && LinksAt(rs, Section, Article, at, direct) && NestedRows(rs, pairs, rows, flat)
      && FirstAmbiguous(rs, direct + flat, e.id)
  }

  lemma SectionRowsHold(rs: seq<Relation>)
    ensures SectionMappings(rs).Ok? ==> SectionRows(rs, SectionMappings(rs).value)
    ensures SectionMappings(rs).Err? ==>
              NestedFails(rs, SectionMappings(rs).error) || SectionsFail(rs, SectionMappings(rs).error)
  {
    NestedRowsHold(rs);
    if NestedArticles(rs).Ok? {
      var rows := NestedArticles(rs).value;
      var direct, flat := Pairs(rs, Section, Article), Flattened(rows);
      var at := PairsLie(rs, Section, Article);
      var positions, kept := WithChapterHolds(rs, direct + flat);
      if WithChapter(rs, direct + flat).Ok? {
        var all := WithChapter(rs, direct + flat).value;
        assert multiset(all) == multiset(SectionMappings(rs).value);
      }
    }
  }

  // -- the stored edges ---------------------------------------------------------------------------

  ghost predicate Stored(edges: set<Edge>, a: Node, b: Node) { exists e | e in edges :: e.head == a && e.tail == b }

  /** Both links of a mapping are stored. */
  ghost predicate ChainStored(edges: set<Edge>, top: Kind, middle: Kind, bottom: Kind, m: Mapping) {
    && Stored(edges, Node(top, m.top), Node(middle, m.middle))
    && Stored(edges, Node(middle, m.middle), Node(bottom, m.bottom))
  }

  ghost predicate AllStored(edges: set<Edge>, top: Kind, middle: Kind, bottom: Kind, ms: seq<Mapping>) {
    forall k | 0 <= k < |ms| :: ChainStored(edges, top, middle, bottom, ms[k])
  }

  /** A mapping and a stored edge that skips its middle. */
  ghost function Skips(edges: set<Edge>, top: Kind, bottom: Kind, ms: seq<Mapping>): set<(nat, Edge)> {
    set k: nat, e | k < |ms| && e in edges && Skipped(e, top, bottom, ms[k]) :: (k, e)
  }

  ghost predicate Skipped(e: Edge, top: Kind, bottom: Kind, m: Mapping) {
    e.head == Node(top, m.top) && e.tail == Node(bottom, m.bottom)
  }

  ghost predicate IsSkip(e: Edge, top: Kind, bottom: Kind, ms: seq<Mapping>) {
    exists k | 0 <= k < |ms| :: Skipped(e, top, bottom, ms[k])
  }

  lemma {:induction false} RowsAreSkips(edges: set<Edge>, g: Group, ms: seq<Mapping>)
    ensures RowCount(edges, g, ms) == |Skips(edges, Top(g), Bottom(g), ms)|
  {
    if ms == [] {
      assert Skips(edges, Top(g), Bottom(g), ms) == {};
    } else {
      var init, last := ms[..|ms| - 1], ms[|ms| - 1];
      RowsAreSkips(edges, g, init);
      var own := Shortcuts(edges, g, last);
      var new' := Paired(own, |init|);
      PairedCount(own, |init|);
      assert forall k | 0 <= k < |init| :: ms[k] == init[k];
      assert Skips(edges, Top(g), Bottom(g), ms) == Skips(edges, Top(g), Bottom(g), init) + new';
      assert Skips(edges, Top(g), Bottom(g), init) !! new';
    }
  }

  ghost function Paired(own: set<Edge>, k: nat): set<(nat, Edge)> { set e | e in own :: (k, e) }

  lemma {:induction false} PairedCount(own: set<Edge>, k: nat)
    ensures |Paired(own, k)| == |own|
  {
    if own != {} {
      var e :| e in own;
      PairedCount(own - {e}, k);
      assert Paired(own, k) == Paired(own - {e}, k) + {(k, e)};
    } else {
      assert Paired(own, k) == {};
    }
  }

  lemma ChainsAre(edges: set<Edge>, g: Group, ms: seq<Mapping>)
    ensures Chains(edges, g, ms) <==> AllStored(edges, Top(g), Middle(g), Bottom(g), ms)
  {
    forall i | 0 <= i < |ms|
      ensures ChainExists(edges, g, ms[i]) <==> ChainStored(edges, Top(g), Middle(g), Bottom(g), ms[i]) {}
  }

  lemma ShortcutsAre(edges: set<Edge>, g: Group, ms: seq<Mapping>)
    ensures forall e | e in edges :: e in AllShortcuts(edges, g, ms) <==> IsSkip(e, Top(g), Bottom(g), ms)
  {
    forall e | e in edges ensures e in AllShortcuts(edges, g, ms) <==> IsSkip(e, Top(g), Bottom(g), ms) {
      if IsSkip(e, Top(g), Bottom(g), ms) {
        var k :| 0 <= k < |ms| && Skipped(e, Top(g), Bottom(g), ms[k]);
        assert e in Shortcuts(edges, g, ms[k]);
      }
    }
  }

  lemma {:induction false} RowsAfter(edges: set<Edge>, g: Group, ms: seq<Mapping>, h: Group, others: seq<Mapping>)
    requires g != h
    ensures RowCount(Cleanup(edges, g, ms).0, h, others) == RowCount(edges, h, others)
  {
    if others != [] {
      RowsAfter(edges, g, ms, h, others[..|others| - 1]);
      var m := others[|others| - 1];
      assert Shortcuts(Cleanup(edges, g, ms).0, h, m) == Shortcuts(edges, h, m);
    }
  }

  /** The edges a run deletes and what it reports, by the mappings of its three groups. */
  ghost predicate Effect(
      edges: set<Edge>, after: set<Edge>, r: Result<Report, Error>, sections: seq<Mapping>, parts: seq<Mapping>,
      subsections: seq<Mapping>)
  {
    var first := AllStored(edges, Chapter, Section, Article, sections);
    var second := first && AllStored(edges, Document, Part, Chapter, parts);
    var third := second && AllStored(edges, Section, Subsection, Article, subsections);
    && after <= edges
    && (forall e | e in edges ::
          e !in after <==> (first && IsSkip(e, Chapter, Article, sections))
                           || (second && IsSkip(e, Document, Chapter, parts))
                           || (third && IsSkip(e, Section, Article, subsections)))
    && (!first ==> r == Err(ChainMissing(SectionGroup)))
    && (first && !second ==> r == Err(ChainMissing(PartGroup)))
    && (second && !third ==> r == Err(ChainMissing(SubsectionGroup)))
    && (third ==> r.Ok? && r.value.mappings == |sections| + |parts| + |subsections| && r.value.parts == |parts|
                  && r.value.subsections == |subsections|
                  && r.value.deleted == |Skips(edges, Chapter, Article, sections)|
                                        + |Skips(edges, Document, Chapter, parts)|
                                        + |Skips(edges, Section, Article, subsections)|)
  }

  lemma ApplyHas(edges: set<Edge>, sections: seq<Mapping>, parts: seq<Mapping>, subsections: seq<Mapping>)
    ensures var (after, r) := Apply(edges, sections, parts, subsections);
      Effect(edges, after, r, sections, parts, subsections)
  {
    ExactEffect(edges, sections, parts, subsections);
    ChainsAre(edges, SectionGroup, sections);
    ChainsAre(edges, PartGroup, parts);
    ChainsAre(edges, SubsectionGroup, subsections);
    ShortcutsAre(edges, SectionGroup, sections);
    ShortcutsAre(edges, PartGroup, parts);
    ShortcutsAre(edges, SubsectionGroup, subsections);
    if Apply(edges, sections, parts, subsections).1.Ok? { ApplyReports(edges, sections, parts, subsections); }
  }

  lemma ApplyReports(edges: set<Edge>, sections: seq<Mapping>, parts: seq<Mapping>, subsections: seq<Mapping>)
    requires Apply(edges, sections, parts, subsections).1.Ok?
    ensures var r := Apply(edges, sections, parts, subsections).1.value;
      && r.mappings == |sections| + |parts| + |subsections| && r.parts == |parts| && r.subsections == |subsections|
      && r.deleted == |Skips(edges, Chapter, Article, sections)| + |Skips(edges, Document, Chapter, parts)|
                      + |Skips(edges, Section, Article, subsections)|
  {
    var e1 := Cleanup(edges, SectionGroup, sections).0;
    RowsAfter(edges, SectionGroup, sections, PartGroup, parts);
    RowsAfter(edges, SectionGroup, sections, SubsectionGroup, subsections);
    RowsAfter(e1, PartGroup, parts, SubsectionGroup, subsections);
    RowsAreSkips(edges, SectionGroup, sections);
    RowsAreSkips(edges, PartGroup, parts);
    RowsAreSkips(edges, SubsectionGroup, subsections);
  }

  /** A payload with an ambiguous or missing parent changes nothing; the error names the first such node. */
  ghost predicate Refuses(rs: seq<Relation>, e: Error) {
    NestedFails(rs, e) || SectionsFail(rs, e) || PartsFail(rs, e)
  }

  /** A reconciliation is refused by the payload, or works through the mappings the payload lists. */
  lemma ReconciliationIs(rs: seq<Relation>, edges: set<Edge>)
    returns (sections: seq<Mapping>, parts: seq<Mapping>, subsections: seq<Mapping>)
    ensures var (after, r) := Reconcile(rs, edges);
      || (after == edges && r.Err? && !r.error.ChainMissing? && Refuses(rs, r.error))
      || (SectionRows(rs, sections) && PartRows(rs, parts) && SubsectionRows(rs, subsections)
          && Effect(edges, after, r, sections, parts, subsections))
  {
    SectionRowsHold(rs);
    PartRowsHold(rs);
    SubsectionRowsHold(rs);
    sections, parts, subsections := [], [], [];
    if MappingsOk(rs) {
      sections, parts, subsections := SectionMappings(rs).value, PartMappings(rs).value, SubsectionMappings(rs).value;
      ApplyHas(edges, sections, parts, subsections);
    }
  }
}
