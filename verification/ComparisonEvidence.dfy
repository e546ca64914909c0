/** What a comparison requires: the versions of a family, or the units of an amending path (evidence_compaction.py). */
module ComparisonEvidence {
  import opened Prelude
  import opened Compaction
  import opened RequiredEvidence

  // -- versions -----------------------------------------------------------------------

  predicate SameVersion(a: Candidate, b: Candidate) {
    a.unit.familyId == b.unit.familyId && a.unit.documentId == b.unit.documentId
  }

  /** The first candidate of its document in a version family. */
  ghost predicate IsVersion(cs: seq<Candidate>, i: nat)
    requires i < |cs|
  {
    cs[i].unit.familyId.Some? && forall j | 0 <= j < i :: !SameVersion(cs[j], cs[i])
  }

  ghost predicate VersionsExactly(cs: seq<Candidate>, positions: seq<nat>) {
    forall i | 0 <= i < |cs| :: i in positions <==> IsVersion(cs, i)
  }

  lemma {:induction false} FirstVersion(cs: seq<Candidate>, j: nat) returns (i: nat)
    requires j < |cs| && cs[j].unit.familyId.Some?
    ensures i <= j && IsVersion(cs, i) && SameVersion(cs[i], cs[j])
  {
    i := j;
    if k :| 0 <= k < j && SameVersion(cs[k], cs[j]) { i := FirstVersion(cs, k); }
  }

  lemma {:induction false} VersionsAre(cs: seq<Candidate>) returns (positions: seq<nat>)
    ensures Selects(cs, positions, ByVersion(cs)) && VersionsExactly(cs, positions)
  {
    if cs == [] {
      positions := [];
    } else {
      var init, last := cs[..|cs| - 1], cs[|cs| - 1];
      positions := VersionsAre(init);
      assert cs == init + [last];
      SelectsMore(init, positions, ByVersion(init), last);
      if last.unit.familyId.Some? { SeenVersion(init, positions, last); }
      forall i | 0 <= i < |init| ensures IsVersion(cs, i) <==> IsVersion(init, i) {}
      if last.unit.familyId.Some? && !HasVersion(ByVersion(init), last.unit.familyId, last.unit.documentId) {
        positions := positions + [|init|];
      }
    }
  }

  lemma SeenVersion(cs: seq<Candidate>, positions: seq<nat>, c: Candidate)
    requires Selects(cs, positions, ByVersion(cs)) && VersionsExactly(cs, positions) && c.unit.familyId.Some?
    ensures HasVersion(ByVersion(cs), c.unit.familyId, c.unit.documentId)
            <==> exists j | 0 <= j < |cs| :: SameVersion(cs[j], c)
  {
    var versions := ByVersion(cs);
    if j :| 0 <= j < |cs| && SameVersion(cs[j], c) {
      var i := FirstVersion(cs, j);
      var k :| 0 <= k < |positions| && positions[k] == i;
      assert versions[k] == cs[i];
    }
    if k :| 0 <= k < |versions| && versions[k].unit.familyId == c.unit.familyId
            && versions[k].unit.documentId == c.unit.documentId {
      assert SameVersion(cs[positions[k]], c);
    }
  }

  /** The versions of one family, by rank and then by id. */
  ghost predicate VersionsOf(cs: seq<Candidate>, family: string, members: seq<Candidate>) {
    && (forall c :: c in members <==> exists i | 0 <= i < |cs| ::
                      cs[i] == c && IsVersion(cs, i) && c.unit.familyId == Some(family))
    && (forall j, k | 0 <= j < k < |members| ::
          && members[j].unit.documentId != members[k].unit.documentId
          && (members[j].rank < members[k].rank
              || (members[j].rank == members[k].rank && StringLe(members[j].unit.id, members[k].unit.id))))
  }

  /** One bundle for each version, keyed by family and document. */
  ghost predicate IsVersionSet(cs: seq<Candidate>, family: string, bs: seq<Bundle>) {
    exists members: seq<Candidate> :: VersionsOf(cs, family, members) && OnePerVersion(family, members, bs)
  }

  ghost predicate OnePerVersion(family: string, members: seq<Candidate>, bs: seq<Bundle>) {
    && |bs| == |members|
    && forall k | 0 <= k < |bs| ::
         IsSingle(bs[k], Comparison, members[k], [], [family + "|" + members[k].unit.documentId], None)
  }

  /** The family has two documents among the candidates. */
  ghost predicate HasTwoDocuments(cs: seq<Candidate>, family: string) {
    exists i, j | 0 <= i < |cs| && 0 <= j < |cs| ::
      && cs[i].unit.familyId == Some(family) && cs[j].unit.familyId == Some(family)
      && cs[i].unit.documentId != cs[j].unit.documentId
  }

  ghost predicate SortedFamilies(families: seq<string>) {
    forall j, k | 0 <= j < k < |families| :: families[j] != families[k] && StringLe(families[j], families[k])
  }

  /** One set for each family with two documents, in the order of the family ids. */
  ghost predicate FamilySets(cs: seq<Candidate>, required: seq<seq<Bundle>>) {
    exists families: seq<string> :: FamilySetsAre(cs, required, families)
  }

  ghost predicate FamilySetsAre(cs: seq<Candidate>, required: seq<seq<Bundle>>, families: seq<string>) {
    && SortedFamilies(families) && (forall f :: f in families <==> HasTwoDocuments(cs, f))
    && |required| == |families| && forall k | 0 <= k < |families| :: IsVersionSet(cs, families[k], required[k])
  }

  lemma {:induction false} OfFamilyIs(versions: seq<Candidate>, family: string) returns (positions: seq<nat>)
    ensures Selects(versions, positions, OfFamily(versions, family))
    ensures forall i | 0 <= i < |versions| :: i in positions <==> versions[i].unit.familyId == Some(family)
  {
    if versions == [] {
      positions := [];
    } else {
      var init, last := versions[..|versions| - 1], versions[|versions| - 1];
      positions := OfFamilyIs(init, family);
      assert versions == init + [last];
      SelectsMore(init, positions, OfFamily(init, family), last);
      if last.unit.familyId == Some(family) { positions := positions + [|init|]; }
    }
  }

  ghost predicate DocumentsDiffer(cs: seq<Candidate>) {
    forall j, k | 0 <= j < k < |cs| :: cs[j].unit.documentId != cs[k].unit.documentId
  }

  lemma MembersAre(cs: seq<Candidate>, family: string)
    ensures var members := OfFamily(ByVersion(cs), family);
      && DocumentsDiffer(members)
      && forall c :: c in members <==> exists i | 0 <= i < |cs| ::
                       cs[i] == c && IsVersion(cs, i) && c.unit.familyId == Some(family)
  {
    var versions := ByVersion(cs);
    var p := VersionsAre(cs);
    var q := OfFamilyIs(versions, family);
    var members := OfFamily(versions, family);
    forall j, k | 0 <= j < k < |members| ensures members[j].unit.documentId != members[k].unit.documentId {
      assert p[q[k]] in p && p[q[j]] < p[q[k]];
      assert IsVersion(cs, p[q[k]]) && !SameVersion(cs[p[q[j]]], cs[p[q[k]]]);
      assert q[j] in q && q[k] in q;
    }
    forall c | c in members
      ensures exists i | 0 <= i < |cs| :: cs[i] == c && IsVersion(cs, i) && c.unit.familyId == Some(family)
    {
      var k :| 0 <= k < |members| && members[k] == c;
      assert q[k] in q && p[q[k]] in p;
    }
    forall i | 0 <= i < |cs| && IsVersion(cs, i) && cs[i].unit.familyId == Some(family) ensures cs[i] in members {
      var m :| 0 <= m < |p| && p[m] == i;
      assert versions[m] == cs[i];
      var k :| 0 <= k < |q| && q[k] == m;
      assert members[k] == cs[i];
    }
  }

  lemma MemberVersion(cs: seq<Candidate>, family: string, c: Candidate) returns (i: nat)
    requires c in OfFamily(ByVersion(cs), family)
    ensures i < |cs| && cs[i] == c && c.unit.familyId == Some(family)
  {
    MembersAre(cs, family);
    i :| 0 <= i < |cs| && cs[i] == c && IsVersion(cs, i) && c.unit.familyId == Some(family);
  }

  lemma VersionMember(cs: seq<Candidate>, family: string, i: nat) returns (c: Candidate)
    requires i < |cs| && cs[i].unit.familyId == Some(family)
    ensures c in OfFamily(ByVersion(cs), family) && c.unit.documentId == cs[i].unit.documentId
  {
    MembersAre(cs, family);
    var a := FirstVersion(cs, i);
    c := cs[a];
  }

  lemma TwoIn(members: seq<Candidate>, a: Candidate, b: Candidate)
    requires a in members && b in members && a != b
    ensures |members| >= 2
  {}

  lemma TwoDocumentsIs(cs: seq<Candidate>, family: string)
    ensures |OfFamily(ByVersion(cs), family)| >= 2 <==> HasTwoDocuments(cs, family)
  {
    var members := OfFamily(ByVersion(cs), family);
    if |members| >= 2 {
      MembersAre(cs, family);
      var i := MemberVersion(cs, family, members[0]);
      var j := MemberVersion(cs, family, members[1]);
      assert members[0].unit.documentId != members[1].unit.documentId;
    }
    if i, j :| 0 <= i < |cs| && 0 <= j < |cs| && cs[i].unit.familyId == Some(family)
               && cs[j].unit.familyId == Some(family) && cs[i].unit.documentId != cs[j].unit.documentId {
      var a := VersionMember(cs, family, i);
      var b := VersionMember(cs, family, j);
      TwoIn(members, a, b);
    }
  }

  lemma SortedDiffer(members: seq<Candidate>)
    requires DocumentsDiffer(members)
    ensures DocumentsDiffer(Ordered(members))
  {
    forall i, j | 0 <= i < j < |members| ensures members[i] != members[j] {}
    SortByNoDup(members, RankLe);
    SortByMembers(members, RankLe);
    var sorted := Ordered(members);
    forall j, k | 0 <= j < k < |sorted| ensures sorted[j].unit.documentId != sorted[k].unit.documentId {
      assert sorted[j] in members && sorted[k] in members && sorted[j] != sorted[k];
    }
  }

  lemma VersionSetIs(cs: seq<Candidate>, family: string)
    ensures IsVersionSet(cs, family, VersionBundles(family, Ordered(OfFamily(ByVersion(cs), family))))
  {
    var members := OfFamily(ByVersion(cs), family);
    var sorted := Ordered(members);
    MembersAre(cs, family);
    SortedDiffer(members);
    RankLeIsTotal();
    SortBySorted(members, RankLe);
    SortByMembers(members, RankLe);
    assert VersionsOf(cs, family, sorted);
    forall k | 0 <= k < |sorted|
      ensures IsSingle(VersionBundles(family, sorted)[k], Comparison, sorted[k], [],
                       [family + "|" + sorted[k].unit.documentId], None)
    {
      SingleIs(Comparison, sorted[k], [], [family + "|" + sorted[k].unit.documentId], None);
    }
    assert OnePerVersion(family, sorted, VersionBundles(family, sorted));
  }

  lemma {:induction false} FamiliesAre(versions: seq<Candidate>)
    ensures NoDup(Families(versions))
    ensures forall f :: f in Families(versions) <==> exists c | c in versions :: c.unit.familyId == Some(f)
  {
    if versions != [] {
      FamiliesAre(versions[..|versions| - 1]);
      assert versions == versions[..|versions| - 1] + [versions[|versions| - 1]];
    }
  }

  lemma {:induction false} FamilyBundlesAre(cs: seq<Candidate>, families: seq<string>) returns (used: seq<string>)
    requires SortedFamilies(families)
    ensures SortedFamilies(used) && (forall f :: f in used <==> f in families && HasTwoDocuments(cs, f))
    ensures var required := FamilyBundles(ByVersion(cs), families);
      |required| == |used| && forall k | 0 <= k < |used| :: IsVersionSet(cs, used[k], required[k])
  {
    used := [];
    if families != [] {
      var init, last := families[..|families| - 1], families[|families| - 1];
      used := FamilyBundlesAre(cs, init);
      assert families == init + [last];
      TwoDocumentsIs(cs, last);
      VersionSetIs(cs, last);
      if HasTwoDocuments(cs, last) {
        AfterAll(families, used);
        used := used + [last];
      }
    }
  }

  lemma AfterAll(families: seq<string>, used: seq<string>)
    requires families != [] && SortedFamilies(families) && SortedFamilies(used)
    requires forall f | f in used :: f in families[..|families| - 1]
    ensures SortedFamilies(used + [families[|families| - 1]])
  {
    var init, last := families[..|families| - 1], families[|families| - 1];
    forall k | 0 <= k < |used| ensures used[k] != last && StringLe(used[k], last) {
      assert used[k] in used;
      var i :| 0 <= i < |init| && init[i] == used[k];
      assert families[i] == used[k];
    }
  }

  lemma FamilySetsHold(cs: seq<Candidate>)
    ensures FamilySets(cs, FamilyBundles(ByVersion(cs), SortBy(Families(ByVersion(cs)), StringLe)))
  {
    var versions := ByVersion(cs);
    var all := Families(versions);
    var sorted := SortBy(all, StringLe);
    FamiliesAre(versions);
    SortFamilies(all);
    var used := FamilyBundlesAre(cs, sorted);
    SortByMembers(all, StringLe);
    forall f | HasTwoDocuments(cs, f) ensures f in sorted {
      TwoDocumentsIs(cs, f);
      var members := OfFamily(versions, f);
      var positions := OfFamilyIs(versions, f);
      assert members[0] == versions[positions[0]] && positions[0] in positions && versions[positions[0]] in versions;
    }
    assert FamilySetsAre(cs, FamilyBundles(versions, sorted), used);
  }

  lemma SortFamilies(all: seq<string>)
    requires NoDup(all)
    ensures SortedFamilies(SortBy(all, StringLe))
  {
    forall a, b ensures StringLe(a, b) || StringLe(b, a) { StringLeTotal(a, b); }
    forall a, b, c | StringLe(a, b) && StringLe(b, c) ensures StringLe(a, c) { StringLeTransitive(a, b, c); }
    SortBySorted(all, StringLe);
    SortByNoDup(all, StringLe);
  }

  // -- amendments ------------------------------------------------------------------------

  /** The known ones of the units a path cites, in its order. */
  ghost predicate KnownOf(cs: seq<Candidate>, cited: seq<Id>, ids: seq<Id>) {
    exists positions: seq<nat> :: Selects(cited, positions, ids) && KnownAt(cs, cited, positions)
  }

  ghost predicate KnownAt(cs: seq<Candidate>, cited: seq<Id>, positions: seq<nat>) {
    forall i | 0 <= i < |cited| :: i in positions <==> IsKnown(cs, cited[i])
  }

  ghost predicate AllNames(cs: seq<Candidate>, ids: seq<Id>, units: seq<Candidate>) {
    |units| == |ids| && forall k | 0 <= k < |ids| :: Names(cs, ids[k], units[k])
  }

  lemma {:induction false} KnownAre(cs: seq<Candidate>, cited: seq<Id>) returns (positions: seq<nat>, ids: seq<Id>)
    requires NoDup(cited)
    ensures Selects(cited, positions, ids)
    ensures KnownAt(cs, cited, positions)
    ensures NoDup(ids) && AllNames(cs, ids, Known(cs, cited))
  {
    positions, ids := [], [];
    if cited != [] {
      var init, last := cited[..|cited| - 1], cited[|cited| - 1];
      assert cited == init + [last];
      NoDupPrefix(init, last);
      positions, ids := KnownAre(cs, init);
      SelectsMore(init, positions, ids, last);
      KnownMore(cs, init, last, positions);
      NamesMore(cs, cited, ids);
      SelectedNoDup(init, positions, ids, last);
      if IsKnown(cs, last) { positions, ids := positions + [|init|], ids + [last]; }
    }
  }

  lemma SelectedNoDup(init: seq<Id>, positions: seq<nat>, ids: seq<Id>, last: Id)
    requires Selects(init, positions, ids) && NoDup(ids) && last !in init
    ensures NoDup(ids + [last])
  {
    forall k | 0 <= k < |ids| ensures ids[k] != last { assert init[positions[k]] in init; }
  }

  lemma NamesMore(cs: seq<Candidate>, cited: seq<Id>, ids: seq<Id>)
    requires cited != [] && AllNames(cs, ids, Known(cs, cited[..|cited| - 1]))
    ensures var last := cited[|cited| - 1];
      AllNames(cs, if IsKnown(cs, last) then ids + [last] else ids, Known(cs, cited))
  {
    KnownLast(cs, cited[|cited| - 1]);
  }

  lemma KnownMore(cs: seq<Candidate>, init: seq<Id>, last: Id, positions: seq<nat>)
    requires Climbs(positions, |init|) && KnownAt(cs, init, positions)
    ensures KnownAt(cs, init + [last], if IsKnown(cs, last) then positions + [|init|] else positions)
  {
    assert |init| !in positions;
    assert forall i | 0 <= i < |init| :: (init + [last])[i] == init[i];
  }

  lemma KnownLast(cs: seq<Candidate>, id: Id)
    ensures if IsKnown(cs, id) then ById(cs, id).Some? && Names(cs, id, ById(cs, id).value) else ById(cs, id).None?
  {
    if ById(cs, id).Some? { ByIdNames(cs, id, ById(cs, id).value); }
  }

  ghost predicate Amends(path: Path) { HasEdge(path, "AMENDS") || HasEdge(path, "REPLACES") }

  ghost predicate CitesTwoKnown(cs: seq<Candidate>, path: Path) {
    exists ids: seq<Id> :: KnownOf(cs, CitableIds(path), ids) && |ids| >= 2
  }

  ghost predicate IsUsable(cs: seq<Candidate>, path: Path) { Amends(path) && CitesTwoKnown(cs, path) }

  ghost predicate IsAmendmentSet(cs: seq<Candidate>, path: Path, bs: seq<Bundle>) {
    |bs| == 1 && exists ids: seq<Id> :: KnownOf(cs, CitableIds(path), ids) && IsWhole(bs[0], Comparison, cs, ids, path)
  }

  /** One set for each amending or replacing path that cites two known units, in their order. */
  ghost predicate AmendmentSets(cs: seq<Candidate>, paths: seq<Path>, required: seq<seq<Bundle>>) {
    exists positions: seq<nat>, kept: seq<Path> :: AmendmentSetsAre(cs, paths, required, positions, kept)
  }

  ghost predicate AmendmentSetsAre(cs: seq<Candidate>, paths: seq<Path>, required: seq<seq<Bundle>>,
                                   positions: seq<nat>, kept: seq<Path>)
  {
    && Selects(paths, positions, kept) && |required| == |kept|
    && (forall i | 0 <= i < |paths| :: i in positions <==> IsUsable(cs, paths[i]))
    && forall k | 0 <= k < |kept| :: IsAmendmentSet(cs, kept[k], required[k])
  }

  lemma AmendsIs(path: Path)
    ensures HasRelation(path, {"AMENDS", "REPLACES"}) <==> Amends(path)
  {}

  lemma {:induction false} KnownCount(cs: seq<Candidate>, cited: seq<Id>, ids: seq<Id>)
    requires NoDup(cited) && KnownOf(cs, cited, ids)
    ensures |Known(cs, cited)| == |ids|
  {
    var p: seq<nat> :| Selects(cited, p, ids) && KnownAt(cs, cited, p);
    var q, others := KnownAre(cs, cited);
    SamePositions(|cited|, p, q);
  }

  lemma AmendmentIs(cs: seq<Candidate>, path: Path)
    ensures |Known(cs, CitableIds(path))| >= 2 <==> CitesTwoKnown(cs, path)
    ensures CitesTwoKnown(cs, path) ==>
              IsAmendmentSet(cs, path, [MakeBundle(Comparison, Known(cs, CitableIds(path)), [path])])
  {
    CitableIdsAre(path);
    var cited := CitableIds(path);
    var positions, ids := KnownAre(cs, cited);
    assert KnownOf(cs, cited, ids);
    if others :| KnownOf(cs, cited, others) && |others| >= 2 { KnownCount(cs, cited, others); }
    if |ids| >= 2 { WholeIs(Comparison, cs, ids, Known(cs, cited), path); }
  }

  lemma {:induction false} AmendmentBundlesAre(cs: seq<Candidate>, paths: seq<Path>)
    returns (positions: seq<nat>, kept: seq<Path>)
    ensures AmendmentSetsAre(cs, paths, AmendmentBundles(cs, paths), positions, kept)
  {
    positions, kept := [], [];
    if paths != [] {
      var init, last := paths[..|paths| - 1], paths[|paths| - 1];
      positions, kept := AmendmentBundlesAre(cs, init);
      assert paths == init + [last];
      AmendsIs(last);
      AmendmentIs(cs, last);
      if IsUsable(cs, last) {
        AmendmentUsed(cs, init, last, AmendmentBundles(cs, init), positions, kept,
                      [MakeBundle(Comparison, Known(cs, CitableIds(last)), [last])]);
        positions, kept := positions + [|init|], kept + [last];
      } else {
        AmendmentUnused(cs, init, last, AmendmentBundles(cs, init), positions, kept);
      }
    }
  }

  lemma AmendmentUnused(cs: seq<Candidate>, init: seq<Path>, last: Path, required: seq<seq<Bundle>>,
                        positions: seq<nat>, kept: seq<Path>)
    requires AmendmentSetsAre(cs, init, required, positions, kept) && !IsUsable(cs, last)
    ensures AmendmentSetsAre(cs, init + [last], required, positions, kept)
  {
    SelectsMore(init, positions, kept, last);
    assert |init| !in positions;
    assert forall i | 0 <= i < |init| :: (init + [last])[i] == init[i];
  }

  lemma AmendmentUsed(cs: seq<Candidate>, init: seq<Path>, last: Path, required: seq<seq<Bundle>>,
                      positions: seq<nat>, kept: seq<Path>, own: seq<Bundle>)
    requires AmendmentSetsAre(cs, init, required, positions, kept)
    requires IsUsable(cs, last) && IsAmendmentSet(cs, last, own)
    ensures AmendmentSetsAre(cs, init + [last], required + [own], positions + [|init|], kept + [last])
  {
    SelectsMore(init, positions, kept, last);
    UsableMore(cs, init, last, positions);
    SetsMore(cs, kept, last, required, own);
  }

  lemma UsableMore(cs: seq<Candidate>, init: seq<Path>, last: Path, positions: seq<nat>)
    requires IsUsable(cs, last) && forall i | 0 <= i < |init| :: i in positions <==> IsUsable(cs, init[i])
    ensures var more, paths := positions + [|init|], init + [last];
      forall i | 0 <= i < |paths| :: i in more <==> IsUsable(cs, paths[i])
  {
    var more, paths := positions + [|init|], init + [last];
    forall i | 0 <= i < |paths| ensures i in more <==> IsUsable(cs, paths[i]) {
      if i < |init| {
        assert paths[i] == init[i];
        assert i in more <==> i in positions;
      }
    }
  }

  lemma SetsMore(cs: seq<Candidate>, kept: seq<Path>, last: Path, required: seq<seq<Bundle>>, own: seq<Bundle>)
    requires |required| == |kept| && IsAmendmentSet(cs, last, own)
    requires forall k | 0 <= k < |kept| :: IsAmendmentSet(cs, kept[k], required[k])
    ensures forall k | 0 <= k < |kept| + 1 :: IsAmendmentSet(cs, (kept + [last])[k], (required + [own])[k])
  {
    forall k | 0 <= k < |kept| + 1 ensures IsAmendmentSet(cs, (kept + [last])[k], (required + [own])[k]) {
      if k < |kept| { assert (kept + [last])[k] == kept[k] && (required + [own])[k] == required[k]; }
    }
  }

  /** First the families, then the amendments. */
  ghost predicate ComparisonSets(cs: seq<Candidate>, paths: seq<Path>, required: seq<seq<Bundle>>) {
    exists n: nat | n <= |required| :: FamilySets(cs, required[..n]) && AmendmentSets(cs, paths, required[n..])
  }

  lemma ComparisonBundlesAre(cs: seq<Candidate>, paths: seq<Path>)
    ensures ComparisonSets(cs, paths, ComparisonBundles(cs, paths))
  {
    var families := FamilyBundles(ByVersion(cs), SortBy(Families(ByVersion(cs)), StringLe));
    var required := ComparisonBundles(cs, paths);
    FamilySetsHold(cs);
    var positions, kept := AmendmentBundlesAre(cs, paths);
    assert required[..|families|] == families && required[|families|..] == AmendmentBundles(cs, paths);
  }
}
