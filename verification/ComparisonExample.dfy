/** A comparison that compaction and projection let through and the re-check refuses. */
module ComparisonExample {
  import opened Prelude
  import opened Text
  import opened Compaction
  import opened Projection
  import opened ProjectedValidation
  import opened ProjectionAgreement

  // -- what reaches compaction -----------------------------------------------------------

  predicate IsAlphanumeric(c: char) { IsDigit(c) || 'A' <= c <= 'Z' || 'a' <= c <= 'z' }

  /** `[A-Za-z0-9][A-Za-z0-9_.:-]*`. */
  predicate CanonicalId(id: string) {
    && id != "" && IsAlphanumeric(id[0])
    && forall i | 0 <= i < |id| :: IsAlphanumeric(id[i]) || id[i] in {'_', '.', ':', '-'}
  }

  /** A unit that is a whole document passes the evidence validator, if its content has no prompt marker. */
  predicate ValidDocument(u: Unit) {
    && CanonicalId(u.id) && u.documentId == u.id && u.articleId.None? && u.clauseId.None?
    && !IsBlank(u.content) && !IsBlank(u.citationLabel) && !IsBlank(u.deepLink)
  }

  const Relations := {"ISSUED_BY", "CONTAINS", "AMENDS", "REPEALS", "REPLACES", "GUIDES", "REFERS_TO", "DEFINES",
                      "REGULATES", "REQUIRES", "HAS_CONDITION", "HAS_EXCEPTION"}

  predicate ValidPath(p: Path) {
    && |p.nodes| == |p.edges| + 1 && p.edges != []
    && (forall i | 0 <= i < |p.nodes| ::
          CanonicalId(p.nodes[i].0) && (p.nodes[i].1.Some? ==> CanonicalId(p.nodes[i].1.value)))
    && (forall i | 0 <= i < |p.edges| ::
          && p.edges[i].relation in Relations
          && CanonicalId(p.edges[i].source) && CanonicalId(p.edges[i].target)
          && {p.edges[i].source, p.edges[i].target} == {p.nodes[i].0, p.nodes[i + 1].0})
    && !IsBlank(p.description)
  }

  /** The sufficiency policy lets a comparison through that has eligible evidence and an amending or replacing path. */
  predicate SufficientByPath(v: Validated) {
    && (exists c | c in v.candidates :: c.eligible)
    && exists p | p in v.paths :: HasRelation(p, {"AMENDS", "REPLACES"})
  }

  predicate ReachesCompaction(v: Validated) {
    && (forall c | c in v.candidates :: ValidDocument(c.unit))
    && (forall p | p in v.paths :: ValidPath(p))
    && SufficientByPath(v)
  }

  lemma BeginsVisibly(s: string)
    requires s != "" && !IsSpace(s[0])
    ensures !IsBlank(s)
  {
    DropRightKeepsHead(s, IsSpace);
  }

  lemma LoneUnitIsValid(id: Id)
    requires CanonicalId(id)
    ensures ValidDocument(LoneUnit(id))
  {
    var u := LoneUnit(id);
    assert u.citationLabel[0] == 'L' && u.deepLink[0] == '/' && u.content[0] == 'N';
    BeginsVisibly(u.citationLabel);
    BeginsVisibly(u.deepLink);
    BeginsVisibly(u.content);
  }

  lemma AmendmentPathIsValid()
    ensures ValidPath(AmendmentPath())
  {
    BeginsVisibly(AmendmentPath().description);
  }

  lemma AmendmentReachesCompaction()
    ensures ReachesCompaction(AmendmentEvidence())
  {
    LoneUnitIsValid("new");
    LoneUnitIsValid("old");
    AmendmentPathIsValid();
    Amends(AmendmentPath());
    assert Amending() in AmendmentEvidence().candidates && AmendmentPath() in AmendmentEvidence().paths;
  }

  // -- the evidence ------------------------------------------------------------------------

  /** A document outside any version family. */
  function LoneUnit(id: Id): Unit {
    Unit(id, id, None, None, None, "Luật " + id, "/van-ban/" + id, "Nội dung của luật", None, None)
  }

  function Amending(): Candidate { Candidate(LoneUnit("new"), 0, true) }

  function Amended(): Candidate { Candidate(LoneUnit("old"), 1, true) }

  function AmendmentPath(): Path {
    Path("p", [("new", Some("new")), ("old", Some("old"))], [Edge("AMENDS", "new", "old")], "new amends old")
  }

  function AmendmentEvidence(): Validated { Validated([Amending(), Amended()], [AmendmentPath()]) }

  function ComparisonRequest(overhead: nat): Request {
    Request(Context(Comparison, None, None, [], None, None), [], overhead)
  }

  /** What the two units and the path take up. */
  function AmendmentCost(env: Env): nat {
    env.unitCost(LoneUnit("new")) + env.unitCost(LoneUnit("old")) + env.pathCost(AmendmentPath())
  }

  function AmendmentPlan(): Plan {
    var cs := [Amending(), Amended()];
    Plan(cs, [AmendmentPath()], [], [[MakeBundle(Comparison, cs, [AmendmentPath()])]], [], None)
  }

  lemma AmendmentCitations()
    ensures CitableIds(AmendmentPath()) == ["new", "old"]
  {
    var nodes := AmendmentPath().nodes;
    assert nodes[..1] == [("new", Some("new"))] && nodes[..1][..0] == [];
    assert Citable(nodes[..1]) == ["new"];
    UniqueOfNoDup(["new", "old"]);
  }

  lemma AmendmentRetained(env: Env)
    ensures Split(env, Ordered([Amending(), Amended()]), ProtectedIds([AmendmentPath()]))
            == ([Amending(), Amended()], [])
  {
    var cs, protected := [Amending(), Amended()], ProtectedIds([AmendmentPath()]);
    AmendmentCitations();
    var path := AmendmentPath();
    assert path in [path] && CitableIds(path)[0] == "new" && CitableIds(path)[1] == "old";
    assert "new" in protected && "old" in protected;
    SortedStays(cs);
    DistinctSplitsWhole(env, cs, protected);
  }

  lemma AmendmentKnown()
    ensures Known([Amending(), Amended()], ["new", "old"]) == [Amending(), Amended()]
  {
    var cs, ids := [Amending(), Amended()], ["new", "old"];
    assert cs[..1] == [Amending()] && cs[..1][..0] == [];
    assert ids[..1] == ["new"] && ids[..1][..0] == [];
    assert ById(cs[..1], "new") == Some(Amending());
    assert Known(cs, ids[..1]) == [Amending()];
  }

  lemma NoVersionFamilies()
    ensures ByVersion([Amending(), Amended()]) == []
  {
    var cs := [Amending(), Amended()];
    assert cs[..1] == [Amending()] && cs[..1][..0] == [];
    assert ByVersion(cs[..1]) == [];
  }

  lemma AmendmentBundle()
    ensures ComparisonBundles([Amending(), Amended()], [AmendmentPath()]) == AmendmentPlan().required
  {
    var cs, paths := [Amending(), Amended()], [AmendmentPath()];
    NoVersionFamilies();
    AmendmentCitations();
    AmendmentKnown();
    AmendmentPathBundles(cs, AmendmentPath());
    NoFamilies();
    assert ComparisonBundles(cs, paths) == [] + AmendmentBundles(cs, paths);
  }

  lemma NoFamilies()
    ensures FamilyBundles([], SortBy(Families([]), StringLe)) == []
  {
    assert Families([]) == [];
  }

  lemma AmendmentPathBundles(cs: seq<Candidate>, path: Path)
    requires path.edges != [] && path.edges[0].relation == "AMENDS"
    requires Known(cs, CitableIds(path)) == cs && |cs| >= 2
    ensures AmendmentBundles(cs, [path]) == [[MakeBundle(Comparison, cs, [path])]]
  {
    Amends(path);
    var paths := [path];
    assert paths[..|paths| - 1] == [] && paths[|paths| - 1] == path;
    assert AmendmentBundles(cs, []) == [];
  }

  lemma Amends(path: Path)
    requires path.edges != [] && path.edges[0].relation == "AMENDS"
    ensures HasRelation(path, {"AMENDS", "REPLACES"})
  {
    assert path.edges[0].relation in {"AMENDS", "REPLACES"};
  }

  lemma AmendmentIsCompacted(env: Env, overhead: nat)
    ensures CompactPlan(env, ComparisonRequest(overhead).context, AmendmentEvidence(), None) == AmendmentPlan()
  {
    var context, validated := ComparisonRequest(overhead).context, AmendmentEvidence();
    AmendmentRetained(env);
    AmendmentBundle();
    ComparisonPlan(env, context, validated, [Amending(), Amended()]);
  }

  /** The plan of a comparison without composition or goal that has no duplicates. */
  lemma ComparisonPlan(env: Env, context: Context, validated: Validated, retained: seq<Candidate>)
    requires context.intent == Comparison && context.relationGoal.None?
    requires Split(env, Ordered(validated.candidates), ProtectedIds(validated.paths)) == (retained, [])
    ensures CompactPlan(env, context, validated, None)
            == Plan(retained, validated.paths, [], ComparisonBundles(retained, validated.paths), [], None)
  {}

  lemma AmendmentKeys()
    ensures var b := AmendmentPlan().required[0][0]; b.key.unitIds == ["new", "old"] && b.key.pathIds == ["p"]
  {
    assert UnitIds([Amending(), Amended()]) == ["new", "old"] && PathIds([AmendmentPath()]) == ["p"];
    UniqueOfNoDup(["new", "old"]);
    UniqueOfNoDup(["p"]);
  }

  lemma AmendmentLookups()
    ensures var plan := AmendmentPlan();
      && ById(plan.candidates, "new") == Some(Amending()) && ById(plan.candidates, "old") == Some(Amended())
      && PathById(plan.paths, "p") == Some(AmendmentPath())
  {
    assert [Amending(), Amended()][..1] == [Amending()];
  }

  lemma AmendmentUnitsCost(env: Env)
    ensures AllKnown(AmendmentPlan().candidates, ["new", "old"])
    ensures UnitsCost(env, AmendmentPlan().candidates, ["new", "old"])
            == env.unitCost(LoneUnit("new")) + env.unitCost(LoneUnit("old"))
  {
    var cs, ids := AmendmentPlan().candidates, ["new", "old"];
    AmendmentLookups();
    assert ids[..1] == ["new"] && ids[..1][..0] == [];
    assert UnitsCost(env, cs, ids[..1]) == env.unitCost(LoneUnit("new"));
  }

  lemma AmendmentPathCost(env: Env)
    ensures PathsKnown(AmendmentPlan().paths, ["p"])
    ensures PathsCost(env, AmendmentPlan().paths, ["p"]) == env.pathCost(AmendmentPath())
  {
    AmendmentLookups();
    assert ["p"][..0] == [];
  }

  lemma AmendmentIsBuildable()
    ensures Buildable(AmendmentPlan())
  {
    var plan := AmendmentPlan();
    MembersOnOnePath(Comparison, plan, plan.candidates, plan.paths[0]);
  }

  lemma AmendmentSetIds()
    ensures var bs := AmendmentPlan().required[0];
      Unique(SetUnits(bs)) == ["new", "old"] && Unique(SetPaths(bs)) == ["p"]
  {
    var bs := AmendmentPlan().required[0];
    AmendmentKeys();
    assert bs[..0] == [];
    assert SetUnits(bs) == ["new", "old"] && SetPaths(bs) == ["p"];
    UniqueOfNoDup(["new", "old"]);
    UniqueOfNoDup(["p"]);
  }

  lemma AmendmentSetCost(env: Env)
    requires SetBuildable(AmendmentPlan(), AmendmentPlan().required[0])
    ensures MakeAlternative(env, AmendmentPlan(), AmendmentPlan().required[0]).cost == AmendmentCost(env)
  {
    AmendmentSetIds();
    AmendmentUnitsCost(env);
    AmendmentPathCost(env);
  }

  lemma AmendmentIsAffordable(env: Env, budget: nat)
    requires budget >= AmendmentCost(env)
    ensures Buildable(AmendmentPlan()) && ChosenSet(env, AmendmentPlan(), budget).Some?
  {
    var plan := AmendmentPlan();
    AmendmentIsBuildable();
    assert SetBuildable(plan, plan.required[0]);
    AmendmentSetCost(env);
    assert plan.required[0] in plan.required;
    ChoiceIsFirstAffordable(env, plan, budget);
  }

  /**
    The re-check does reject: with a context large enough for its evidence, a comparison that rests on an AMENDS path
    between two documents outside any version family passes the sufficiency policy and the evidence validator, is
    projected, and then refused.
   */
  lemma AmendmentComparisonIsRejected(env: Env, config: Config, overhead: nat)
    requires InjectiveDigest(env) && config.contextMax >= config.reserve + overhead + AmendmentCost(env) + 1
    ensures var request := ComparisonRequest(overhead);
      var plan := CompactPlan(env, request.context, AmendmentEvidence(), None);
      && ReachesCompaction(AmendmentEvidence())
      && Buildable(plan) && Project(env, config, request, plan).Ready?
      && Evaluate(env, Project(env, config, request, plan).projected, plan) == VersionsIncomplete
  {
    AmendmentReachesCompaction();
    var request := ComparisonRequest(overhead);
    var plan := CompactPlan(env, request.context, AmendmentEvidence(), None);
    var budget := EvidenceBudget(config, request);
    AmendmentIsReady(env, overhead, budget);
    assert HistoryChars([]) == 0 && HistoryAccepted(config, request);
    SoleSetIsRejected(env, config, request, plan, budget);
  }

  lemma AmendmentIsReady(env: Env, overhead: nat, budget: nat)
    requires budget >= AmendmentCost(env)
    ensures var plan := CompactPlan(env, ComparisonRequest(overhead).context, AmendmentEvidence(), None);
      && Buildable(plan) && ChosenSet(env, plan, budget).Some? && plan.composition.None?
      && |plan.required| == 1 && NoVersions(plan.required[0])
  {
    AmendmentIsCompacted(env, overhead);
    AmendmentIsAffordable(env, budget);
  }

  /** A comparison whose only required set has no version keys is projected when the set fits, and then refused. */
  lemma SoleSetIsRejected(env: Env, config: Config, request: Request, plan: Plan, budget: nat)
    requires InjectiveDigest(env) && plan.composition.None? && request.context.intent == Comparison
    requires HistoryAccepted(config, request) && budget == EvidenceBudget(config, request) && budget > 0
    requires Buildable(plan) && |plan.required| == 1 && NoVersions(plan.required[0])
    requires ChosenSet(env, plan, budget).Some?
    ensures Project(env, config, request, plan).Ready?
    ensures Evaluate(env, Project(env, config, request, plan).projected, plan) == VersionsIncomplete
  {
    ReadyWhenChosen(env, config, request, plan, budget);
    var bs := ProjectionCarries(env, config, request, plan);
    assert bs in plan.required && bs == plan.required[0];
    VersionlessIsRejected(env, request, plan, Project(env, config, request, plan).projected, bs);
  }

  lemma ReadyWhenChosen(env: Env, config: Config, request: Request, plan: Plan, budget: nat)
    requires HistoryAccepted(config, request) && budget == EvidenceBudget(config, request) && budget > 0
    requires Buildable(plan) && plan.required != [] && ChosenSet(env, plan, budget).Some?
    ensures Project(env, config, request, plan).Ready?
  {}

  lemma VersionlessIsRejected(env: Env, request: Request, plan: Plan, p: Projected, bs: seq<Bundle>)
    requires InjectiveDigest(env) && Carries(env, request, plan, p, bs) && NoVersions(bs)
    requires plan.composition.None? && p.intent == Comparison
    ensures Evaluate(env, p, plan) == VersionsIncomplete
  {
    SharedChecksPass(env, request, plan, p, bs);
    VersionlessVerdict(p, plan, Admitted(env, Flatten(plan.required), p.admitted).Values, bs);
  }
}
