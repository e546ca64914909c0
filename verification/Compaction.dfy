/**
  Evidence compaction: duplicates, the required bundle sets and the composition plan
  (generation/evidence_compaction.py).
 */
module Compaction {
  import opened Prelude
  import opened Text

  type Id = string

  datatype Intent = Factual | Definition | Hierarchy | MultiHop | Validity | Comparison

  /** The fields of a retrieved unit that generation reads; dates are day numbers. */
  datatype Unit = Unit(
    id: Id,
    documentId: string,
    familyId: Option<string>,
    articleId: Option<string>,
    clauseId: Option<string>,
    citationLabel: string,
    deepLink: string,
    content: string,
    effectiveFrom: Option<int>,
    effectiveTo: Option<int>)

  datatype Candidate = Candidate(unit: Unit, rank: nat, eligible: bool)

  datatype Edge = Edge(relation: string, source: Id, target: Id)

  datatype Path = Path(id: Id, nodes: seq<(Id, Option<Id>)>, edges: seq<Edge>, description: string)

  datatype Context = Context(
    intent: Intent,
    resolvedFrom: Option<int>,
    resolvedTo: Option<int>,
    referenceIds: seq<Id>,
    relationGoal: Option<string>,
    satisfiedPaths: Option<seq<Id>>)

  datatype Validated = Validated(candidates: seq<Candidate>, paths: seq<Path>)

  datatype Operand = Operand(id: string, evidenceIds: seq<Id>)

  datatype OmissionReason = HierarchicalDuplicate | ContentDuplicate | BudgetExceeded

  datatype Omission = Omission(unitId: Id, reason: OmissionReason, retainedId: Option<Id>)

  /** Everything the bundle identifier is a digest of. */
  datatype BundleKey = BundleKey(
    intent: Intent,
    unitIds: seq<Id>,
    pathIds: seq<Id>,
    subjects: seq<Id>,
    versionKeys: seq<string>,
    operandId: Option<string>)

  datatype Bundle = Bundle(key: BundleKey, sourceRank: nat)

  datatype Plan = Plan(
    candidates: seq<Candidate>,
    paths: seq<Path>,
    authoritative: seq<Id>,
    required: seq<seq<Bundle>>,
    omitted: seq<Omission>,
    composition: Option<seq<Operand>>)

  /** Case folding, the digest and the serialized sizes are left abstract. */
  datatype Env = Env(
    casefold: string -> string,
    digest: BundleKey -> int,
    unitCost: Unit -> nat,
    pathCost: Path -> nat)

  // -- ordering and lookup ------------------------------------------------------

  predicate RankLe(a: Candidate, b: Candidate) {
    a.rank < b.rank || (a.rank == b.rank && StringLe(a.unit.id, b.unit.id))
  }

  lemma RankLeIsTotal()
    ensures TotalPreorder(RankLe)
  {
    forall a, b ensures RankLe(a, b) || RankLe(b, a) {
      StringLeTotal(a.unit.id, b.unit.id);
    }
    forall a, b, c | RankLe(a, b) && RankLe(b, c) ensures RankLe(a, c) {
      if StringLe(a.unit.id, b.unit.id) && StringLe(b.unit.id, c.unit.id) {
        StringLeTransitive(a.unit.id, b.unit.id, c.unit.id);
      }
    }
  }

  function Ordered(cs: seq<Candidate>): seq<Candidate> {
    SortBy(cs, RankLe)
  }

  /** `{c.unit.id: c for c in cs}.get(id)`: the last candidate with that id. */
  function ById(cs: seq<Candidate>, id: Id): (r: Option<Candidate>)
    ensures r.Some? ==> r.value in cs && r.value.unit.id == id
    ensures r.None? ==> forall c | c in cs :: c.unit.id != id
  {
    if cs == [] then None
    else
      assert cs == cs[..|cs| - 1] + [cs[|cs| - 1]];
      if cs[|cs| - 1].unit.id == id then Some(cs[|cs| - 1]) else ById(cs[..|cs| - 1], id)
  }

  predicate AllKnown(cs: seq<Candidate>, ids: seq<Id>) {
    forall i | 0 <= i < |ids| :: ById(cs, ids[i]).Some?
  }

  function Resolve(cs: seq<Candidate>, ids: seq<Id>): seq<Candidate>
    requires AllKnown(cs, ids)
  {
    seq(|ids|, i requires 0 <= i < |ids| => ById(cs, ids[i]).value)
  }

  function UnitIds(cs: seq<Candidate>): seq<Id> {
    seq(|cs|, i requires 0 <= i < |cs| => cs[i].unit.id)
  }

  function MinRank(cs: seq<Candidate>): nat
    requires cs != []
  {
    if |cs| == 1 then cs[0].rank
    else
      var rest := MinRank(cs[1..]);
      if cs[0].rank <= rest then cs[0].rank else rest
  }

  // -- duplicates -----------------------------------------------------------------

  function NormalContent(env: Env, content: string): string {
    env.casefold(Strip(Collapse(content)))
  }

  datatype ContentKey = ContentKey(documentId: string, familyId: Option<string>, content: string)

  function KeyOf(env: Env, c: Candidate): ContentKey {
    ContentKey(c.unit.documentId, c.unit.familyId, NormalContent(env, c.unit.content))
  }

  predicate SameBranch(a: Unit, b: Unit) {
    && a.articleId == b.articleId
    && (a.clauseId == b.clauseId || a.clauseId.None? || b.clauseId.None?)
  }

  function OmissionOf(dropped: (Candidate, Candidate)): Omission {
    Omission(dropped.0.unit.id,
             if SameBranch(dropped.1.unit, dropped.0.unit) then HierarchicalDuplicate else ContentDuplicate,
             Some(dropped.1.unit.id))
  }

  function Omissions(dropped: seq<(Candidate, Candidate)>): seq<Omission> {
    seq(|dropped|, i requires 0 <= i < |dropped| => OmissionOf(dropped[i]))
  }

  /** The first retained candidate that is not protected and has this content. */
  function Keeper(env: Env, retained: seq<Candidate>, protected: set<Id>, key: ContentKey): (r: Option<Candidate>)
    ensures r.Some? ==> r.value in retained && r.value.unit.id !in protected && KeyOf(env, r.value) == key
    ensures r.None? ==> forall c | c in retained && c.unit.id !in protected :: KeyOf(env, c) != key
  {
    if retained == [] then None
    else
      var init, last := retained[..|retained| - 1], retained[|retained| - 1];
      assert retained == init + [last];
      var before := Keeper(env, init, protected, key);
      if before.Some? then before
      else if last.unit.id !in protected && KeyOf(env, last) == key then Some(last)
      else None
  }

  /** One pass over ordered candidates: what is retained, and every dropped one with the candidate it duplicates. */
  function Split(env: Env, ordered: seq<Candidate>, protected: set<Id>): (seq<Candidate>, seq<(Candidate, Candidate)>) {
    if ordered == [] then ([], [])
    else
      var c := ordered[|ordered| - 1];
      var (retained, dropped) := Split(env, ordered[..|ordered| - 1], protected);
      var keeper := Keeper(env, retained, protected, KeyOf(env, c));
      if c.unit.id !in protected && keeper.Some? then (retained, dropped + [(c, keeper.value)])
      else (retained + [c], dropped)
  }

  method Deduplicate(env: Env, candidates: seq<Candidate>, protected: set<Id>)
    returns (retained: seq<Candidate>, omissions: seq<Omission>)
    ensures retained == Split(env, Ordered(candidates), protected).0
    ensures omissions == Omissions(Split(env, Ordered(candidates), protected).1)
  {
    var ordered := Ordered(candidates);
    var seen: map<ContentKey, Candidate> := map[];
    retained, omissions := [], [];
    for i := 0 to |ordered|
      invariant retained == Split(env, ordered[..i], protected).0
      invariant omissions == Omissions(Split(env, ordered[..i], protected).1)
      invariant forall key :: (if key in seen then Some(seen[key]) else None) == Keeper(env, retained, protected, key)
    {
      var c := ordered[i];
      assert ordered[..i + 1][..i] == ordered[..i];
      ghost var before := Split(env, ordered[..i], protected);
      var key := KeyOf(env, c);
      assert key in seen <==> Keeper(env, retained, protected, key).Some?;
      if c.unit.id !in protected && key in seen {
        omissions := omissions + [OmissionOf((c, seen[key]))];
      } else {
        KeeperAppend(env, retained, protected, c);
        if c.unit.id !in protected {
          seen := seen[key := c];
        }
        retained := retained + [c];
      }
    }
    assert ordered[..|ordered|] == ordered;
  }

  lemma KeeperAppend(env: Env, retained: seq<Candidate>, protected: set<Id>, c: Candidate)
    ensures forall key ::
      Keeper(env, retained + [c], protected, key)
      == (if Keeper(env, retained, protected, key).Some? then Keeper(env, retained, protected, key)
          else if c.unit.id !in protected && KeyOf(env, c) == key then Some(c) else None)
  {
    assert (retained + [c])[..|retained|] == retained;
  }

  function Dropped(dropped: seq<(Candidate, Candidate)>): seq<Candidate> {
    seq(|dropped|, i requires 0 <= i < |dropped| => dropped[i].0)
  }

  /** Deduplication splits the candidates: each occurrence is retained or dropped, never both. */
  lemma {:induction false} SplitPartitions(env: Env, ordered: seq<Candidate>, protected: set<Id>)
    ensures var (retained, dropped) := Split(env, ordered, protected);
      multiset(ordered) == multiset(retained) + multiset(Dropped(dropped))
  {
    if ordered != [] {
      var init, c := ordered[..|ordered| - 1], ordered[|ordered| - 1];
      SplitPartitions(env, init, protected);
      assert ordered == init + [c];
      var (retained, dropped) := Split(env, init, protected);
      var keeper := Keeper(env, retained, protected, KeyOf(env, c));
      if c.unit.id !in protected && keeper.Some? {
        assert Dropped(dropped + [(c, keeper.value)]) == Dropped(dropped) + [c];
      }
    }
  }

  /** Every dropped candidate names a retained one with the same content that comes no later in the order. */
  lemma {:induction false} DroppedNameKeepers(env: Env, ordered: seq<Candidate>, protected: set<Id>)
    requires SortedBy(ordered, RankLe)
    ensures var (retained, dropped) := Split(env, ordered, protected);
      && SortedBy(retained, RankLe)
      && (forall c | c in retained :: c in ordered)
      && (forall d | d in dropped :: d.0 in ordered && d.1 in retained && Duplicates(env, protected, d.0, d.1))
  {
    if ordered != [] {
      var init, c := ordered[..|ordered| - 1], ordered[|ordered| - 1];
      DroppedNameKeepers(env, init, protected);
      assert ordered == init + [c];
      var (retained, dropped) := Split(env, init, protected);
      LastIsGreatest(ordered, retained);
      var keeper := Keeper(env, retained, protected, KeyOf(env, c));
      if c.unit.id !in protected && keeper.Some? {
        assert Duplicates(env, protected, c, keeper.value);
        assert Split(env, ordered, protected) == (retained, dropped + [(c, keeper.value)]);
      } else {
        SortedAppend(retained, c);
        assert Split(env, ordered, protected) == (retained + [c], dropped);
      }
    }
  }

  lemma SortedAppend(cs: seq<Candidate>, c: Candidate)
    requires SortedBy(cs, RankLe) && forall r | r in cs :: RankLe(r, c)
    ensures SortedBy(cs + [c], RankLe)
  {}

  /** `keeper` has the same content, comes no later, and neither of the two is protected. */
  ghost predicate Duplicates(env: Env, protected: set<Id>, c: Candidate, keeper: Candidate) {
    && c.unit.id !in protected && keeper.unit.id !in protected
    && KeyOf(env, keeper) == KeyOf(env, c) && RankLe(keeper, c)
  }

  lemma LastIsGreatest(ordered: seq<Candidate>, some: seq<Candidate>)
    requires ordered != [] && SortedBy(ordered, RankLe) && forall r | r in some :: r in ordered[..|ordered| - 1]
    ensures forall r | r in some :: RankLe(r, ordered[|ordered| - 1])
  {
    var init := ordered[..|ordered| - 1];
    forall r | r in some ensures RankLe(r, ordered[|ordered| - 1]) {
      var i :| 0 <= i < |init| && init[i] == r;
      assert RankLe(ordered[i], ordered[|ordered| - 1]);
    }
  }

  /** Protected candidates always stay, and no two unprotected ones that stay have the same content. */
  lemma {:induction false} RetainedAreDistinct(env: Env, ordered: seq<Candidate>, protected: set<Id>)
    ensures var retained := Split(env, ordered, protected).0;
      && (forall c | c in ordered && c.unit.id in protected :: c in retained)
      && ContentsDistinct(env, retained, protected)
  {
    if ordered != [] {
      var init, c := ordered[..|ordered| - 1], ordered[|ordered| - 1];
      RetainedAreDistinct(env, init, protected);
      assert ordered == init + [c];
      var retained := Split(env, init, protected).0;
      if c.unit.id in protected || Keeper(env, retained, protected, KeyOf(env, c)).None? {
        ContentsDistinctAppend(env, retained, protected, c);
      }
    }
  }

  ghost predicate ContentsDistinct(env: Env, cs: seq<Candidate>, protected: set<Id>) {
    forall i, j | 0 <= i < j < |cs| && cs[i].unit.id !in protected && cs[j].unit.id !in protected ::
      KeyOf(env, cs[i]) != KeyOf(env, cs[j])
  }

  lemma ContentsDistinctAppend(env: Env, cs: seq<Candidate>, protected: set<Id>, c: Candidate)
    requires ContentsDistinct(env, cs, protected)
    requires c.unit.id in protected || forall r | r in cs && r.unit.id !in protected :: KeyOf(env, r) != KeyOf(env, c)
    ensures ContentsDistinct(env, cs + [c], protected)
  {}

  lemma {:induction false} SortedStays(s: seq<Candidate>)
    requires SortedBy(s, RankLe)
    ensures Ordered(s) == s
  {
    if |s| > 1 {
      SortedStays(s[1..]);
      assert RankLe(s[0], s[1]);
    }
  }

  lemma {:induction false} DistinctSplitsWhole(env: Env, s: seq<Candidate>, protected: set<Id>)
    requires ContentsDistinct(env, s, protected)
    ensures Split(env, s, protected) == (s, [])
  {
    if s != [] {
      var init, c := s[..|s| - 1], s[|s| - 1];
      assert s == init + [c];
      ContentsDistinctSplit(env, init, protected, c);
      DistinctSplitsWhole(env, init, protected);
    }
  }

  lemma ContentsDistinctSplit(env: Env, cs: seq<Candidate>, protected: set<Id>, c: Candidate)
    requires ContentsDistinct(env, cs + [c], protected)
    ensures ContentsDistinct(env, cs, protected)
    ensures c.unit.id !in protected ==> Keeper(env, cs, protected, KeyOf(env, c)).None?
  {
    var all := cs + [c];
    forall i, j | 0 <= i < j < |cs| && cs[i].unit.id !in protected && cs[j].unit.id !in protected
      ensures KeyOf(env, cs[i]) != KeyOf(env, cs[j])
    {
      assert KeyOf(env, all[i]) != KeyOf(env, all[j]);
    }
    if c.unit.id !in protected {
      forall r | r in cs && r.unit.id !in protected ensures KeyOf(env, r) != KeyOf(env, c) {
        var i :| 0 <= i < |cs| && cs[i] == r;
        assert KeyOf(env, all[i]) != KeyOf(env, all[|cs|]);
      }
    }
  }

  /** A second pass over what was retained drops nothing. */
  lemma SecondPassDropsNothing(env: Env, candidates: seq<Candidate>, protected: set<Id>)
    ensures var retained := Split(env, Ordered(candidates), protected).0;
      Split(env, Ordered(retained), protected) == (retained, [])
  {
    RankLeIsTotal();
    SortBySorted(candidates, RankLe);
    DroppedNameKeepers(env, Ordered(candidates), protected);
    RetainedAreDistinct(env, Ordered(candidates), protected);
    var retained := Split(env, Ordered(candidates), protected).0;
    SortedStays(retained);
    DistinctSplitsWhole(env, retained, protected);
  }

  // -- composition plan -------------------------------------------------------------

  /** `{o.unit_id: o.retained_unit_id for o in omissions}.get(id, id)`. */
  function Replacement(omissions: seq<Omission>, id: Id): Id {
    if omissions == [] then id
    else
      var o := omissions[|omissions| - 1];
      if o.unitId == id && o.retainedId.Some? then o.retainedId.value
      else Replacement(omissions[..|omissions| - 1], id)
  }

  function ReplaceAll(omissions: seq<Omission>, ids: seq<Id>): seq<Id> {
    Unique(seq(|ids|, i requires 0 <= i < |ids| => Replacement(omissions, ids[i])))
  }

  function NormalizeComposition(composition: Option<seq<Operand>>, omissions: seq<Omission>): Option<seq<Operand>> {
    match composition
    case None => None
    case Some(operands) =>
      Some(seq(|operands|, i requires 0 <= i < |operands| =>
        operands[i].(evidenceIds := ReplaceAll(omissions, operands[i].evidenceIds))))
  }

  lemma {:induction false} ReplacementIs(omissions: seq<Omission>, id: Id)
    ensures var r := Replacement(omissions, id);
      || (r == id && forall o | o in omissions && o.retainedId.Some? :: o.unitId != id)
      || exists o | o in omissions :: o.unitId == id && o.retainedId == Some(r)
  {
    if omissions != [] {
      var init, o := omissions[..|omissions| - 1], omissions[|omissions| - 1];
      assert omissions == init + [o];
      if !(o.unitId == id && o.retainedId.Some?) {
        ReplacementIs(init, id);
      } else {
        assert o in omissions;
      }
    }
  }

  /**
    The normalised plan names only retained units and repeats none, when every operand named source candidates: a
    duplicate is replaced by the unit that stands for it.
   */
  lemma NormalizedNamesRetained(env: Env, source: seq<Candidate>, protected: set<Id>, operands: seq<Operand>, k: nat)
    requires k < |operands|
    requires forall id | id in operands[k].evidenceIds :: id in UnitIds(source)
    ensures var (retained, dropped) := Split(env, Ordered(source), protected);
      var ids := NormalizeComposition(Some(operands), Omissions(dropped)).value[k].evidenceIds;
      NoDup(ids) && forall id | id in ids :: id in UnitIds(retained)
  {
    var (retained, dropped) := Split(env, Ordered(source), protected);
    var omissions := Omissions(dropped);
    var ids := ReplaceAll(omissions, operands[k].evidenceIds);
    RankLeIsTotal();
    SortBySorted(source, RankLe);
    SortByMembers(source, RankLe);
    DroppedNameKeepers(env, Ordered(source), protected);
    SplitPartitions(env, Ordered(source), protected);
    forall id | id in ids ensures id in UnitIds(retained) {
      var i :| 0 <= i < |operands[k].evidenceIds| && Replacement(omissions, operands[k].evidenceIds[i]) == id;
      ReplacementIsRetained(source, retained, dropped, operands[k].evidenceIds[i]);
    }
  }

  lemma ReplacementIsRetained(
      source: seq<Candidate>, retained: seq<Candidate>, dropped: seq<(Candidate, Candidate)>, id: Id)
    requires id in UnitIds(source)
    requires forall c | c in source :: c in Ordered(source)
    requires multiset(Ordered(source)) == multiset(retained) + multiset(Dropped(dropped))
    requires forall d | d in dropped :: d.1 in retained
    ensures Replacement(Omissions(dropped), id) in UnitIds(retained)
  {
    var omissions := Omissions(dropped);
    var replaced := Replacement(omissions, id);
    ReplacementIs(omissions, id);
    if o :| o in omissions && o.unitId == id && o.retainedId == Some(replaced) {
      var d :| 0 <= d < |omissions| && omissions[d] == o;
      assert dropped[d] in dropped;
      IdOfMember(retained, dropped[d].1);
    } else {
      var s :| 0 <= s < |source| && UnitIds(source)[s] == id;
      assert source[s] in source;
      NotDroppedIsRetained(source, retained, dropped, source[s]);
      IdOfMember(retained, source[s]);
    }
  }

  lemma IdOfMember(cs: seq<Candidate>, c: Candidate)
    requires c in cs
    ensures c.unit.id in UnitIds(cs)
  {
    var i :| 0 <= i < |cs| && cs[i] == c;
    assert UnitIds(cs)[i] == c.unit.id;
  }

  lemma NotDroppedIsRetained(source: seq<Candidate>, retained: seq<Candidate>, dropped: seq<(Candidate, Candidate)>,
                             c: Candidate)
    requires c in Ordered(source)
    requires multiset(Ordered(source)) == multiset(retained) + multiset(Dropped(dropped))
    requires forall o | o in Omissions(dropped) && o.retainedId.Some? :: o.unitId != c.unit.id
    ensures c in retained
  {
    assert c in multiset(Ordered(source));
    forall d | 0 <= d < |dropped| ensures Dropped(dropped)[d] != c {
      assert Omissions(dropped)[d] in Omissions(dropped);
    }
    assert c !in multiset(Dropped(dropped));
  }

  // -- bundles ------------------------------------------------------------------------

  function MakeBundle(intent: Intent, cs: seq<Candidate>, paths: seq<Path>, subjects: seq<Id> := [],
                      versionKeys: seq<string> := [], operandId: Option<string> := None): Bundle
    requires cs != []
  {
    Bundle(BundleKey(intent, Unique(UnitIds(cs)), Unique(PathIds(paths)), subjects, versionKeys, operandId),
      MinRank(cs))
  }

  function PathIds(paths: seq<Path>): seq<Id> {
    seq(|paths|, i requires 0 <= i < |paths| => paths[i].id)
  }

  function Citable(nodes: seq<(Id, Option<Id>)>): seq<Id> {
    if nodes == [] then []
    else
      var before, last := Citable(nodes[..|nodes| - 1]), nodes[|nodes| - 1].1;
      if last.Some? then before + [last.value] else before
  }

  function CitableIds(path: Path): seq<Id> { Unique(Citable(path.nodes)) }

  predicate HasRelation(path: Path, relations: set<string>) {
    exists i | 0 <= i < |path.edges| :: path.edges[i].relation in relations
  }

  /** Every citable node known and at least two of them. */
  predicate FullyCited(cs: seq<Candidate>, path: Path) {
    |CitableIds(path)| >= 2 && AllKnown(cs, CitableIds(path))
  }

  predicate UsablePath(context: Context, cs: seq<Candidate>, path: Path) {
    && (context.intent == Hierarchy ==> HasRelation(path, {"CONTAINS"}))
    && FullyCited(cs, path)
  }

  predicate ProvesGoal(context: Context, path: Path) {
    context.relationGoal.Some?
    && exists i | 0 <= i < |path.edges| ::
         path.edges[i].relation == context.relationGoal.value && path.edges[i].source in context.referenceIds
  }

  function WholePathBundle(intent: Intent, cs: seq<Candidate>, path: Path): seq<Bundle>
    requires FullyCited(cs, path)
  {
    [MakeBundle(intent, Resolve(cs, CitableIds(path)), [path])]
  }

  function PathBundles(context: Context, cs: seq<Candidate>, paths: seq<Path>): seq<seq<Bundle>> {
    if paths == [] then []
    else
      var before, path := PathBundles(context, cs, paths[..|paths| - 1]), paths[|paths| - 1];
      if UsablePath(context, cs, path) then before + [WholePathBundle(context.intent, cs, path)] else before
  }

  function GoalBundles(context: Context, cs: seq<Candidate>, paths: seq<Path>): seq<seq<Bundle>> {
    if paths == [] then []
    else
      var before, path := GoalBundles(context, cs, paths[..|paths| - 1]), paths[|paths| - 1];
      if ProvesGoal(context, path) && FullyCited(cs, path)
      then before + [WholePathBundle(context.intent, cs, path)] else before
  }

  function EligibleBundles(intent: Intent, cs: seq<Candidate>): seq<seq<Bundle>> {
    if cs == [] then []
    else
      var before, c := EligibleBundles(intent, cs[..|cs| - 1]), cs[|cs| - 1];
      if c.eligible then before + [[MakeBundle(intent, [c], [])]] else before
  }

  predicate ValidOn(u: Unit, date: int) {
    u.effectiveFrom.Some? && u.effectiveFrom.value <= date && (u.effectiveTo.None? || date < u.effectiveTo.value)
  }

  predicate ValiditySubject(c: Candidate, date: int, referenceIds: seq<Id>) {
    && c.eligible
    && (if referenceIds != [] then c.unit.id in referenceIds && c.unit.effectiveFrom.Some? else ValidOn(c.unit, date))
  }

  function ValidityBundles(cs: seq<Candidate>, date: int, referenceIds: seq<Id>): seq<seq<Bundle>> {
    if cs == [] then []
    else
      var before, c := ValidityBundles(cs[..|cs| - 1], date, referenceIds), cs[|cs| - 1];
      if ValiditySubject(c, date, referenceIds)
      then before + [[MakeBundle(Validity, [c], [], subjects := [c.unit.id])]] else before
  }

  predicate HasVersion(cs: seq<Candidate>, familyId: Option<string>, documentId: string) {
    exists i | 0 <= i < |cs| :: cs[i].unit.familyId == familyId && cs[i].unit.documentId == documentId
  }

  /** `by_version`: the first candidate of every document that belongs to a version family. */
  function ByVersion(cs: seq<Candidate>): seq<Candidate> {
    if cs == [] then []
    else
      var before, c := ByVersion(cs[..|cs| - 1]), cs[|cs| - 1];
      if c.unit.familyId.Some? && !HasVersion(before, c.unit.familyId, c.unit.documentId) then before + [c] else before
  }

  function Families(versions: seq<Candidate>): seq<string> {
    if versions == [] then []
    else
      var before, c := Families(versions[..|versions| - 1]), versions[|versions| - 1];
      if c.unit.familyId.Some? && c.unit.familyId.value !in before then before + [c.unit.familyId.value] else before
  }

  function OfFamily(versions: seq<Candidate>, family: string): seq<Candidate> {
    if versions == [] then []
    else
      var before, c := OfFamily(versions[..|versions| - 1], family), versions[|versions| - 1];
      if c.unit.familyId == Some(family) then before + [c] else before
  }

  function VersionBundle(family: string, c: Candidate): Bundle {
    MakeBundle(Comparison, [c], [], versionKeys := [family + "|" + c.unit.documentId])
  }

  function VersionBundles(family: string, cs: seq<Candidate>): seq<Bundle> {
    seq(|cs|, i requires 0 <= i < |cs| => VersionBundle(family, cs[i]))
  }

  function FamilyBundles(versions: seq<Candidate>, families: seq<string>): seq<seq<Bundle>> {
    if families == [] then []
    else
      var before, family := FamilyBundles(versions, families[..|families| - 1]), families[|families| - 1];
      var members := OfFamily(versions, family);
      if |members| < 2 then before else before + [VersionBundles(family, Ordered(members))]
  }

  function Known(cs: seq<Candidate>, ids: seq<Id>): (r: seq<Candidate>)
    ensures forall c | c in r :: c in cs && c.unit.id in ids
  {
    if ids == [] then []
    else
      var before, last := Known(cs, ids[..|ids| - 1]), ids[|ids| - 1];
      assert ids == ids[..|ids| - 1] + [last];
      if ById(cs, last).Some? then before + [ById(cs, last).value] else before
  }

  function AmendmentBundles(cs: seq<Candidate>, paths: seq<Path>): seq<seq<Bundle>> {
    if paths == [] then []
    else
      var before, path := AmendmentBundles(cs, paths[..|paths| - 1]), paths[|paths| - 1];
      var known := Known(cs, CitableIds(path));
      if HasRelation(path, {"AMENDS", "REPLACES"}) && |known| >= 2
      then before + [[MakeBundle(Comparison, known, [path])]] else before
  }

  function ComparisonBundles(cs: seq<Candidate>, paths: seq<Path>): seq<seq<Bundle>> {
    var versions := ByVersion(cs);
    FamilyBundles(versions, SortBy(Families(versions), StringLe)) + AmendmentBundles(cs, paths)
  }

  function EligibleOf(cs: seq<Candidate>, ids: seq<Id>): (r: seq<Candidate>)
    ensures forall c | c in r :: c in cs && c.unit.id in ids
  {
    if ids == [] then []
    else
      var before, last := EligibleOf(cs, ids[..|ids| - 1]), ids[|ids| - 1];
      assert ids == ids[..|ids| - 1] + [last];
      var c := ById(cs, last);
      if c.Some? && c.value.eligible then before + [c.value] else before
  }

  /** The bundle of an operand's own best eligible unit. */
  function OperandBundle(intent: Intent, cs: seq<Candidate>, operand: Operand): Option<Bundle> {
    var own := EligibleOf(cs, operand.evidenceIds);
    if own == [] then None else Some(MakeBundle(intent, [own[0]], [], operandId := Some(operand.id)))
  }

  /** One bundle per operand; `None` when some operand has no eligible unit. */
  function OperandBundles(intent: Intent, cs: seq<Candidate>, operands: seq<Operand>): (r: Option<seq<Bundle>>)
    ensures r.Some? ==> |r.value| == |operands|
  {
    if operands == [] then Some([])
    else
      match OperandBundles(intent, cs, operands[..|operands| - 1])
      case None => None
      case Some(before) =>
        match OperandBundle(intent, cs, operands[|operands| - 1])
        case None => None
        case Some(b) => Some(before + [b])
  }

  function RequiredBundles(context: Context, cs: seq<Candidate>, paths: seq<Path>, composition: Option<seq<Operand>>)
    : seq<seq<Bundle>>
  {
    match composition
    case Some(operands) =>
      (match OperandBundles(context.intent, cs, operands)
       case None => []
       case Some(bundles) => [bundles])
    case None =>
      if context.relationGoal.Some? then GoalBundles(context, cs, paths)
      else match context.intent
        case Factual => EligibleBundles(Factual, cs)
        case Definition => EligibleBundles(Definition, cs)
        case Hierarchy => PathBundles(context, cs, paths)
        case MultiHop => PathBundles(context, cs, paths)
        case Validity =>
          if context.resolvedFrom.None? then []
          else ValidityBundles(cs, context.resolvedFrom.value, context.referenceIds)
        case Comparison => ComparisonBundles(cs, paths)
  }

  // -- compact --------------------------------------------------------------------------

  function PathsWithin(paths: seq<Path>, ids: seq<Id>): (r: seq<Path>)
    ensures forall p :: p in r <==> p in paths && p.id in ids
  {
    if paths == [] then []
    else
      var before, last := PathsWithin(paths[..|paths| - 1], ids), paths[|paths| - 1];
      assert paths == paths[..|paths| - 1] + [last];
      if last.id in ids then before + [last] else before
  }

  function AuthoritativePaths(context: Context, validated: Validated): (seq<Path>, seq<Id>) {
    if context.intent != MultiHop then (validated.paths, [])
    else if context.satisfiedPaths.None? then ([], [])
    else (PathsWithin(validated.paths, context.satisfiedPaths.value), context.satisfiedPaths.value)
  }

  function ProtectedIds(paths: seq<Path>): set<Id> {
    set p, i | p in paths && 0 <= i < |CitableIds(p)| :: CitableIds(p)[i]
  }

  function AssignedIds(operands: seq<Operand>): set<Id> {
    set o, id | o in operands && id in o.evidenceIds :: id
  }

  function Within(cs: seq<Candidate>, ids: set<Id>): (r: seq<Candidate>)
    ensures forall c :: c in r <==> c in cs && c.unit.id in ids
  {
    if cs == [] then []
    else
      var before, last := Within(cs[..|cs| - 1], ids), cs[|cs| - 1];
      assert cs == cs[..|cs| - 1] + [last];
      if last.unit.id in ids then before + [last] else before
  }

  function SourceCandidates(context: Context, validated: Validated, composition: Option<seq<Operand>>): seq<Candidate> {
    var paths := AuthoritativePaths(context, validated).0;
    match composition
    case Some(operands) => Within(validated.candidates, AssignedIds(operands))
    case None =>
      if context.intent == MultiHop then Within(validated.candidates, ProtectedIds(paths))
      else validated.candidates
  }

  function CompactPlan(env: Env, context: Context, validated: Validated, composition: Option<seq<Operand>>): Plan {
    var (paths, authoritative) := AuthoritativePaths(context, validated);
    var (retained, dropped) :=
      Split(env, Ordered(SourceCandidates(context, validated, composition)), ProtectedIds(paths));
    var normalized := NormalizeComposition(composition, Omissions(dropped));
    Plan(retained, paths, authoritative, RequiredBundles(context, retained, paths, normalized), Omissions(dropped),
      normalized)
  }

  method ResolvePathBundles(
      context: Context, cs: seq<Candidate>, paths: seq<Path>) returns (alternatives: seq<seq<Bundle>>)
    ensures alternatives == if context.relationGoal.Some? then GoalBundles(context, cs, paths)
                            else PathBundles(context, cs, paths)
  {
    alternatives := [];
    for i := 0 to |paths|
      invariant alternatives == if context.relationGoal.Some? then GoalBundles(context, cs, paths[..i])
                                else PathBundles(context, cs, paths[..i])
    {
      assert paths[..i + 1][..i] == paths[..i];
      var wanted := if context.relationGoal.Some? then ProvesGoal(context, paths[i]) && FullyCited(cs, paths[i])
                    else UsablePath(context, cs, paths[i]);
      if !wanted {
        continue;
      }
      alternatives := alternatives + [WholePathBundle(context.intent, cs, paths[i])];
    }
    assert paths[..|paths|] == paths;
  }

  method ResolveOperandBundles(intent: Intent, cs: seq<Candidate>, operands: seq<Operand>)
    returns (required: seq<seq<Bundle>>)
    ensures var bundles := OperandBundles(intent, cs, operands);
      required == if bundles.Some? then [bundles.value] else []
  {
    var collected := CollectOperandBundles(intent, cs, operands);
    required := if collected.Some? then [collected.value] else [];
  }

  method CollectOperandBundles(intent: Intent, cs: seq<Candidate>, operands: seq<Operand>)
    returns (collected: Option<seq<Bundle>>)
    ensures collected == OperandBundles(intent, cs, operands)
  {
    collected := Some([]);
    for i := 0 to |operands|
      invariant collected.Some? && collected == OperandBundles(intent, cs, operands[..i])
    {
      OperandStep(intent, cs, operands, i);
      match OperandBundle(intent, cs, operands[i]) {
        case None =>
          MissingOperand(intent, cs, operands, i + 1);
          return None;
        case Some(own) =>
          collected := Some(collected.value + [own]);
      }
    }
    assert operands[..|operands|] == operands;
  }

  lemma OperandStep(intent: Intent, cs: seq<Candidate>, operands: seq<Operand>, i: nat)
    requires i < |operands| && OperandBundles(intent, cs, operands[..i]).Some?
    ensures var own := OperandBundle(intent, cs, operands[i]);
      OperandBundles(intent, cs, operands[..i + 1])
      == if own.None? then None else Some(OperandBundles(intent, cs, operands[..i]).value + [own.value])
  {
    assert operands[..i + 1][..i] == operands[..i];
  }

  lemma {:induction false} MissingOperand(intent: Intent, cs: seq<Candidate>, operands: seq<Operand>, i: nat)
    requires i <= |operands| && OperandBundles(intent, cs, operands[..i]).None?
    ensures OperandBundles(intent, cs, operands).None?
  {
    if i < |operands| {
      assert operands[..|operands| - 1][..i] == operands[..i];
      MissingOperand(intent, cs, operands[..|operands| - 1], i);
    } else {
      assert operands[..i] == operands;
    }
  }

  method ResolveComparisonBundles(cs: seq<Candidate>, paths: seq<Path>) returns (alternatives: seq<seq<Bundle>>)
    ensures alternatives == ComparisonBundles(cs, paths)
  {
    var versions: seq<Candidate> := [];
    for i := 0 to |cs|
      invariant versions == ByVersion(cs[..i])
    {
      assert cs[..i + 1][..i] == cs[..i];
      if cs[i].unit.familyId.None? {
        continue;
      }
      if !HasVersion(versions, cs[i].unit.familyId, cs[i].unit.documentId) {
        versions := versions + [cs[i]];
      }
    }
    assert cs[..|cs|] == cs;
    var families := SortBy(Families(versions), StringLe);
    alternatives := [];
    for i := 0 to |families|
      invariant alternatives == FamilyBundles(versions, families[..i])
    {
      assert families[..i + 1][..i] == families[..i];
      var members := OfFamily(versions, families[i]);
      if |members| < 2 {
        continue;
      }
      alternatives := alternatives + [VersionBundles(families[i], Ordered(members))];
    }
    assert families[..|families|] == families;
    var amendments := ResolveAmendmentBundles(cs, paths);
    alternatives := alternatives + amendments;
  }

  method ResolveAmendmentBundles(cs: seq<Candidate>, paths: seq<Path>) returns (alternatives: seq<seq<Bundle>>)
    ensures alternatives == AmendmentBundles(cs, paths)
  {
    alternatives := [];
    for i := 0 to |paths|
      invariant alternatives == AmendmentBundles(cs, paths[..i])
    {
      assert paths[..i + 1][..i] == paths[..i];
      var known := Known(cs, CitableIds(paths[i]));
      if HasRelation(paths[i], {"AMENDS", "REPLACES"}) && |known| >= 2 {
        alternatives := alternatives + [[MakeBundle(Comparison, known, [paths[i]])]];
      }
    }
    assert paths[..|paths|] == paths;
  }

  method Compact(
      env: Env, context: Context, validated: Validated, composition: Option<seq<Operand>>) returns (plan: Plan)
    ensures plan == CompactPlan(env, context, validated, composition)
  {
    var (paths, authoritative) := AuthoritativePaths(context, validated);
    var retained, omissions :=
      Deduplicate(env, SourceCandidates(context, validated, composition), ProtectedIds(paths));
    var normalized := NormalizeComposition(composition, omissions);
    var required: seq<seq<Bundle>>;
    if normalized.Some? {
      required := ResolveOperandBundles(context.intent, retained, normalized.value);
    } else if context.relationGoal.Some? || context.intent == Hierarchy || context.intent == MultiHop {
      required := ResolvePathBundles(context, retained, paths);
    } else if context.intent == Comparison {
      required := ResolveComparisonBundles(retained, paths);
    } else {
      required := RequiredBundles(context, retained, paths, None);
    }
    plan := Plan(retained, paths, authoritative, required, omissions, normalized);
  }
}
