/** Validation and rendering of a candidate answer (generation/grounding.py). */
module Grounding {
  import opened Prelude
  import opened Text
  import opened Rendering
  import E = Compaction
  import P = Projection
  import V = ProjectedValidation

  /** Unicode normalisation and the date format are left abstract. */
  datatype Env = Env(nfc: string -> string, iso: int -> string)

  /** `build_registry`: what the answer may cite. */
  datatype Registry = Registry(entries: seq<E.Unit>, citationIds: seq<Id>, pathIds: seq<Id>)

  function BuildRegistry(p: P.Projected): Registry { Registry(p.evidence, p.selected, V.ProjectedPathIds(p)) }

  datatype Error =
    | BlankStatement
    | UnknownCitation(id: Id)
    | NotVerbatim(id: Id)
    | NoReasoningPath
    | UnknownPath(id: Id)
    | PathMissesGoal(id: Id)
    | NoAssertion
    | UnknownAssertion(id: Id)
    | UnlinkedAssertion
    | NoQueryDate
    | DateMismatch
    | UnknownSubject(id: Id)
    | WrongValidity(id: Id)

  datatype AnswerCitation = AnswerCitation(
    unitId: Id,
    citationLabel: string,
    documentId: string,
    articleId: Option<string>,
    clauseId: Option<string>,
    deepLink: string,
    quote: string)

  datatype Response = Response(
    text: string,
    citations: seq<AnswerCitation>,
    paths: seq<E.Path>,
    notes: seq<string>,
    cannotAnswer: bool,
    reason: Option<string>)

  // -- citations -----------------------------------------------------------------------

  function Normalized(env: Env, s: string): string { Strip(Collapse(env.nfc(s))) }

  predicate IsSubstring(s: string, of: string) {
    exists i: nat | i <= |of| :: OccursAt(of, s, i)
  }

  predicate IsVerbatim(env: Env, quote: string, content: string) {
    IsSubstring(Normalized(env, quote), Normalized(env, content))
  }

  /** The cited ids in order of first use, each with the quote it was first used with. */
  datatype Cited = Cited(order: seq<Id>, quotes: map<Id, string>)

  function AddCitation(env: Env, units: seq<E.Unit>, acc: Cited, c: Citation): Result<Cited, Error> {
    match V.UnitById(units, c.id)
    case None => Err(UnknownCitation(c.id))
    case Some(u) =>
      if !IsVerbatim(env, c.quote, u.content) then Err(NotVerbatim(c.id))
      else if c.id in acc.order then Ok(acc)
      else Ok(Cited(acc.order + [c.id], acc.quotes[c.id := c.quote]))
  }

  function AddCitations(env: Env, units: seq<E.Unit>, acc: Cited, cs: seq<Citation>): Result<Cited, Error> {
    if cs == [] then Ok(acc)
    else
      match AddCitations(env, units, acc, cs[..|cs| - 1])
      case Err(e) => Err(e)
      case Ok(before) => AddCitation(env, units, before, cs[|cs| - 1])
  }

  function AddStatements(env: Env, units: seq<E.Unit>, ss: seq<Statement>): Result<Cited, Error> {
    if ss == [] then Ok(Cited([], map[]))
    else
      match AddStatements(env, units, ss[..|ss| - 1])
      case Err(e) => Err(e)
      case Ok(before) =>
        if IsBlank(ss[|ss| - 1].text) then Err(BlankStatement)
        else AddCitations(env, units, before, ss[|ss| - 1].citations)
  }

  method CollectCitations(env: Env, units: seq<E.Unit>, ss: seq<Statement>) returns (r: Result<Cited, Error>)
    ensures r == AddStatements(env, units, ss)
  {
    var acc := Cited([], map[]);
    for i := 0 to |ss|
      invariant AddStatements(env, units, ss[..i]) == Ok(acc)
    {
      assert ss[..i + 1][..i] == ss[..i];
      if IsBlank(ss[i].text) {
        StatementErrorStays(env, units, ss, i + 1);
        return Err(BlankStatement);
      }
      var next := CollectStatement(env, units, acc, ss[i].citations);
      if next.Err? {
        StatementErrorStays(env, units, ss, i + 1);
        return Err(next.error);
      }
      acc := next.value;
    }
    assert ss[..|ss|] == ss;
    r := Ok(acc);
  }

  method CollectStatement(
      env: Env, units: seq<E.Unit>, start: Cited, cs: seq<Citation>) returns (r: Result<Cited, Error>)
    ensures r == AddCitations(env, units, start, cs)
  {
    var order, quotes := start.order, start.quotes;
    for i := 0 to |cs|
      invariant AddCitations(env, units, start, cs[..i]) == Ok(Cited(order, quotes))
    {
      assert cs[..i + 1][..i] == cs[..i];
      var evidence := V.UnitById(units, cs[i].id);
      if evidence.None? {
        CitationErrorStays(env, units, start, cs, i + 1);
        return Err(UnknownCitation(cs[i].id));
      }
      if !IsVerbatim(env, cs[i].quote, evidence.value.content) {
        CitationErrorStays(env, units, start, cs, i + 1);
        return Err(NotVerbatim(cs[i].id));
      }
      if cs[i].id !in order {
        order := order + [cs[i].id];
        quotes := quotes[cs[i].id := cs[i].quote];
      }
    }
    assert cs[..|cs|] == cs;
    r := Ok(Cited(order, quotes));
  }

  lemma {:induction false} CitationErrorStays(env: Env, units: seq<E.Unit>, acc: Cited, cs: seq<Citation>, i: nat)
    requires i <= |cs| && AddCitations(env, units, acc, cs[..i]).Err?
    ensures AddCitations(env, units, acc, cs) == AddCitations(env, units, acc, cs[..i])
  {
    if i == |cs| {
      assert cs[..i] == cs;
    } else {
      assert cs[..|cs| - 1][..i] == cs[..i];
      CitationErrorStays(env, units, acc, cs[..|cs| - 1], i);
    }
  }

  lemma {:induction false} StatementErrorStays(env: Env, units: seq<E.Unit>, ss: seq<Statement>, i: nat)
    requires i <= |ss| && AddStatements(env, units, ss[..i]).Err?
    ensures AddStatements(env, units, ss) == AddStatements(env, units, ss[..i])
  {
    if i == |ss| {
      assert ss[..i] == ss;
    } else {
      assert ss[..|ss| - 1][..i] == ss[..i];
      StatementErrorStays(env, units, ss[..|ss| - 1], i);
    }
  }

  // -- reasoning paths ------------------------------------------------------------------

  function LinkedPaths(ss: seq<Statement>): seq<Id> {
    if ss == [] then [] else LinkedPaths(ss[..|ss| - 1]) + ss[|ss| - 1].pathIds
  }

  /** The allowed path recorded last for an id. */
  function AllowedPath(p: P.Projected, registry: Registry, id: Id): (r: Option<E.Path>)
    ensures r.Some? ==> r.value in p.paths && r.value.id == id && id in registry.pathIds
  {
    if id in registry.pathIds then P.PathById(p.paths, id) else None
  }

  predicate ProvesGoal(p: P.Projected, path: E.Path) {
    p.relationGoal.None?
    || exists i | 0 <= i < |path.edges| ::
         path.edges[i].relation == p.relationGoal.value && path.edges[i].source in p.anchors
  }

  function SelectPaths(p: P.Projected, registry: Registry, ids: seq<Id>): Result<seq<E.Path>, Error> {
    if ids == [] then Ok([])
    else
      match SelectPaths(p, registry, ids[..|ids| - 1])
      case Err(e) => Err(e)
      case Ok(before) =>
        var id := ids[|ids| - 1];
        match AllowedPath(p, registry, id)
        case None => Err(UnknownPath(id))
        case Some(path) => if ProvesGoal(p, path) then Ok(before + [path]) else Err(PathMissesGoal(id))
  }

  method CollectPaths(p: P.Projected, registry: Registry, ids: seq<Id>) returns (r: Result<seq<E.Path>, Error>)
    ensures r == SelectPaths(p, registry, ids)
  {
    var selected: seq<E.Path> := [];
    for i := 0 to |ids|
      invariant SelectPaths(p, registry, ids[..i]) == Ok(selected)
    {
      assert ids[..i + 1][..i] == ids[..i];
      var path := AllowedPath(p, registry, ids[i]);
      if path.None? {
        PathErrorStays(p, registry, ids, i + 1);
        return Err(UnknownPath(ids[i]));
      }
      if !ProvesGoal(p, path.value) {
        PathErrorStays(p, registry, ids, i + 1);
        return Err(PathMissesGoal(ids[i]));
      }
      selected := selected + [path.value];
    }
    assert ids[..|ids|] == ids;
    r := Ok(selected);
  }

  lemma {:induction false} PathErrorStays(p: P.Projected, registry: Registry, ids: seq<Id>, i: nat)
    requires i <= |ids| && SelectPaths(p, registry, ids[..i]).Err?
    ensures SelectPaths(p, registry, ids) == SelectPaths(p, registry, ids[..i])
  {
    if i == |ids| {
      assert ids[..i] == ids;
    } else {
      assert ids[..|ids| - 1][..i] == ids[..i];
      PathErrorStays(p, registry, ids[..|ids| - 1], i);
    }
  }

  // -- temporal assertions -----------------------------------------------------------------

  function LinkedAssertions(ss: seq<Statement>): seq<Id> {
    if ss == [] then [] else LinkedAssertions(ss[..|ss| - 1]) + ss[|ss| - 1].assertionIds
  }

  function AssertionOf(declared: seq<Assertion>, id: Id): (r: Option<Assertion>)
    ensures r.Some? ==> r.value in declared && r.value.id == id
    ensures r.None? ==> forall a | a in declared :: a.id != id
  {
    if declared == [] then None
    else
      assert declared == declared[..|declared| - 1] + [declared[|declared| - 1]];
      if declared[|declared| - 1].id == id then Some(declared[|declared| - 1])
      else AssertionOf(declared[..|declared| - 1], id)
  }

  predicate InForce(u: E.Unit, date: int) {
    u.effectiveFrom.Some? && u.effectiveFrom.value <= date && (u.effectiveTo.None? || date < u.effectiveTo.value)
  }

  function ValidateTemporal(env: Env, a: Assertion, p: P.Projected, units: seq<E.Unit>): Result<string, Error> {
    if p.resolvedFrom.None? || p.resolvedTo != p.resolvedFrom then Err(NoQueryDate)
    else if a.date != p.resolvedFrom.value then Err(DateMismatch)
    else
      match V.UnitById(units, a.subject)
      case None => Err(UnknownSubject(a.subject))
      case Some(u) =>
        if a.valid != InForce(u, a.date) then Err(WrongValidity(a.subject))
        else Ok("Theo phạm vi dữ liệu truy xuất, " + u.citationLabel
                + (if InForce(u, a.date) then " có hiệu lực" else " không có hiệu lực")
                + " tại ngày " + env.iso(a.date) + ".")
  }

  function Notes(env: Env, declared: seq<Assertion>, ids: seq<Id>, p: P.Projected, units: seq<E.Unit>)
    : Result<seq<string>, Error>
    requires forall i | 0 <= i < |ids| :: AssertionOf(declared, ids[i]).Some?
  {
    if ids == [] then Ok([])
    else
      match Notes(env, declared, ids[..|ids| - 1], p, units)
      case Err(e) => Err(e)
      case Ok(before) =>
        match ValidateTemporal(env, AssertionOf(declared, ids[|ids| - 1]).value, p, units)
        case Err(e) => Err(e)
        case Ok(note) => Ok(before + [note])
  }

  /** The first linked assertion that is not declared. */
  function FirstUndeclared(declared: seq<Assertion>, ids: seq<Id>): (r: Option<Id>)
    ensures r.Some? ==> r.value in ids
    ensures r.None? <==> forall i | 0 <= i < |ids| :: AssertionOf(declared, ids[i]).Some?
  {
    if ids == [] then None
    else if AssertionOf(declared, ids[0]).None? then Some(ids[0])
    else FirstUndeclared(declared, ids[1..])
  }

  predicate AllLinked(declared: seq<Assertion>, ids: seq<Id>) {
    forall i | 0 <= i < |declared| :: declared[i].id in ids
  }

  function TemporalNotes(env: Env, c: Candidate, p: P.Projected, units: seq<E.Unit>): Result<seq<string>, Error> {
    var ids := Unique(LinkedAssertions(Statements(c)));
    if p.intent == E.Validity && ids == [] then Err(NoAssertion)
    else if FirstUndeclared(c.assertions, ids).Some? then
      Err(UnknownAssertion(FirstUndeclared(c.assertions, ids).value))
    else if !AllLinked(c.assertions, ids) then Err(UnlinkedAssertion)
    else Notes(env, c.assertions, ids, p, units)
  }

  // -- validate and render --------------------------------------------------------------------

  /** `{citation_id: ordinal for ordinal, citation_id in enumerate(order, start=1)}`. */
  function OrdinalsOf(order: seq<Id>): (r: map<Id, nat>)
    ensures forall id :: id in r <==> id in order
  {
    if order == [] then map[]
    else
      assert order == order[..|order| - 1] + [order[|order| - 1]];
      OrdinalsOf(order[..|order| - 1])[order[|order| - 1] := |order|]
  }

  function CitationOf(units: seq<E.Unit>, id: Id, quotes: map<Id, string>): AnswerCitation
    requires V.UnitById(units, id).Some? && id in quotes
  {
    var u := V.UnitById(units, id).value;
    AnswerCitation(u.id, u.citationLabel, u.documentId, u.articleId, u.clauseId, u.deepLink, quotes[id])
  }

  predicate CitedKnown(units: seq<E.Unit>, cited: Cited) {
    forall i | 0 <= i < |cited.order| :: V.UnitById(units, cited.order[i]).Some? && cited.order[i] in cited.quotes
  }

  function CitationsOf(units: seq<E.Unit>, cited: Cited): seq<AnswerCitation>
    requires CitedKnown(units, cited)
  {
    seq(|cited.order|, i requires 0 <= i < |cited.order| => CitationOf(units, cited.order[i], cited.quotes))
  }

  const RefusalText := "Không đủ căn cứ trong dữ liệu truy xuất để trả lời chắc chắn."

  /** The order holds the distinct ids cited so far, all known, and every recorded quote fits its unit. */
  ghost predicate Tallied(env: Env, units: seq<E.Unit>, acc: Cited, ids: seq<Id>) {
    acc.order == Unique(ids) && CitedKnown(units, acc) && QuotesOk(env, units, acc)
  }

  lemma CitationChecked(env: Env, units: seq<E.Unit>, acc: Cited, ids: seq<Id>, c: Citation)
    requires Tallied(env, units, acc, ids) && AddCitation(env, units, acc, c).Ok?
    ensures Tallied(env, units, AddCitation(env, units, acc, c).value, ids + [c.id]) && CitationOk(env, units, c)
  {
    UniqueOneMore(ids, c.id);
    var r := AddCitation(env, units, acc, c).value;
    if c.id in acc.order {
      assert r == acc;
    } else {
      AddedIsKnown(env, units, acc, c);
    }
  }

  lemma AddedIsKnown(env: Env, units: seq<E.Unit>, acc: Cited, c: Citation)
    requires CitedKnown(units, acc) && QuotesOk(env, units, acc) && CitationOk(env, units, c)
    ensures CitedKnown(units, Cited(acc.order + [c.id], acc.quotes[c.id := c.quote]))
    ensures QuotesOk(env, units, Cited(acc.order + [c.id], acc.quotes[c.id := c.quote]))
  {
    var r := Cited(acc.order + [c.id], acc.quotes[c.id := c.quote]);
    forall id | id in r.quotes ensures CitationOk(env, units, Citation(id, r.quotes[id])) {
      if id != c.id { assert CitationOk(env, units, Citation(id, acc.quotes[id])); }
    }
  }

  /** A citation check passes only if every citation names a known unit and quotes it. */
  lemma {:induction false} CitationsChecked(env: Env, units: seq<E.Unit>, acc: Cited, ids: seq<Id>, cs: seq<Citation>)
    requires Tallied(env, units, acc, ids) && AddCitations(env, units, acc, cs).Ok?
    ensures Tallied(env, units, AddCitations(env, units, acc, cs).value, ids + IdsOf(cs)) && CitationsOk(env, units, cs)
  {
    if cs == [] {
      assert ids + IdsOf(cs) == ids;
    } else {
      var init, c := cs[..|cs| - 1], cs[|cs| - 1];
      CitationsChecked(env, units, acc, ids, init);
      CitationChecked(env, units, AddCitations(env, units, acc, init).value, ids + IdsOf(init), c);
      assert ids + IdsOf(cs) == ids + IdsOf(init) + [c.id];
      CitationsOkStep(env, units, cs);
    }
  }

  lemma CitationsOkStep(env: Env, units: seq<E.Unit>, cs: seq<Citation>)
    requires cs != []
    ensures CitationsOk(env, units, cs)
            <==> CitationsOk(env, units, cs[..|cs| - 1]) && CitationOk(env, units, cs[|cs| - 1])
  {
    var init := cs[..|cs| - 1];
    assert cs == init + [cs[|cs| - 1]];
    if CitationsOk(env, units, cs) {
      forall i | 0 <= i < |init| ensures CitationOk(env, units, init[i]) { assert CitationOk(env, units, cs[i]); }
    }
  }

  predicate CitationsOk(env: Env, units: seq<E.Unit>, cs: seq<Citation>) {
    forall i | 0 <= i < |cs| :: CitationOk(env, units, cs[i])
  }

  lemma UniqueOneMore(ids: seq<Id>, id: Id)
    ensures Unique(ids + [id]) == if id in ids then Unique(ids) else Unique(ids) + [id]
  {
    assert (ids + [id])[..|ids + [id]| - 1] == ids;
  }

  predicate CitationOk(env: Env, units: seq<E.Unit>, c: Citation) {
    V.UnitById(units, c.id).Some? && IsVerbatim(env, c.quote, V.UnitById(units, c.id).value.content)
  }

  /** Every recorded quote is a normalised excerpt of its unit. */
  ghost predicate QuotesOk(env: Env, units: seq<E.Unit>, cited: Cited) {
    forall id | id in cited.quotes :: CitationOk(env, units, Citation(id, cited.quotes[id]))
  }

  predicate StatementOk(env: Env, units: seq<E.Unit>, s: Statement) {
    !IsBlank(s.text) && CitationsOk(env, units, s.citations)
  }

  predicate AllStatementsOk(env: Env, units: seq<E.Unit>, ss: seq<Statement>) {
    forall i | 0 <= i < |ss| :: StatementOk(env, units, ss[i])
  }

  lemma {:induction false} StatementsChecked(env: Env, units: seq<E.Unit>, ss: seq<Statement>)
    requires AddStatements(env, units, ss).Ok?
    ensures Tallied(env, units, AddStatements(env, units, ss).value, CitedIds(ss)) && AllStatementsOk(env, units, ss)
  {
    if ss != [] {
      var init, s := ss[..|ss| - 1], ss[|ss| - 1];
      StatementsChecked(env, units, init);
      CitationsChecked(env, units, AddStatements(env, units, init).value, CitedIds(init), s.citations);
      StatementsOkStep(env, units, ss);
    }
  }

  lemma StatementsOkStep(env: Env, units: seq<E.Unit>, ss: seq<Statement>)
    requires ss != []
    ensures AllStatementsOk(env, units, ss)
            <==> AllStatementsOk(env, units, ss[..|ss| - 1]) && StatementOk(env, units, ss[|ss| - 1])
  {
    var init := ss[..|ss| - 1];
    assert ss == init + [ss[|ss| - 1]];
    if AllStatementsOk(env, units, ss) {
      forall i | 0 <= i < |init| ensures StatementOk(env, units, init[i]) { assert StatementOk(env, units, ss[i]); }
    }
  }

  lemma {:induction false} CitationsPass(env: Env, units: seq<E.Unit>, acc: Cited, cs: seq<Citation>)
    requires CitationsOk(env, units, cs)
    ensures AddCitations(env, units, acc, cs).Ok?
  {
    if cs != [] {
      CitationsOkStep(env, units, cs);
      CitationsPass(env, units, acc, cs[..|cs| - 1]);
    }
  }

  /** The check of the statements passes exactly when each has text and only citations that quote known units. */
  lemma {:induction false} StatementsPass(env: Env, units: seq<E.Unit>, ss: seq<Statement>)
    ensures AddStatements(env, units, ss).Ok? <==> AllStatementsOk(env, units, ss)
  {
    if AddStatements(env, units, ss).Ok? {
      StatementsChecked(env, units, ss);
    }
    if AllStatementsOk(env, units, ss) && ss != [] {
      var init, s := ss[..|ss| - 1], ss[|ss| - 1];
      StatementsOkStep(env, units, ss);
      StatementsPass(env, units, init);
      CitationsPass(env, units, AddStatements(env, units, init).value, s.citations);
    }
  }

  // -- paths and assertions that passed -----------------------------------------------------------

  ghost predicate PathsMatch(p: P.Projected, ids: seq<Id>, paths: seq<E.Path>) {
    && |paths| == |ids|
    && forall i | 0 <= i < |ids| :: paths[i].id == ids[i] && paths[i] in p.paths && ProvesGoal(p, paths[i])
  }

  lemma {:induction false} PathsChecked(p: P.Projected, registry: Registry, ids: seq<Id>)
    requires SelectPaths(p, registry, ids).Ok?
    ensures PathsMatch(p, ids, SelectPaths(p, registry, ids).value)
  {
    if ids != [] { PathsChecked(p, registry, ids[..|ids| - 1]); }
  }

  /** A linked assertion is about the query date and agrees with the interval of its subject. */
  ghost predicate AssertionHolds(p: P.Projected, units: seq<E.Unit>, a: Assertion) {
    && p.resolvedFrom == Some(a.date) && p.resolvedTo == p.resolvedFrom
    && V.UnitById(units, a.subject).Some? && (a.valid <==> InForce(V.UnitById(units, a.subject).value, a.date))
  }

  lemma {:induction false} NotesChecked(
      env: Env, declared: seq<Assertion>, ids: seq<Id>, p: P.Projected, units: seq<E.Unit>)
    requires forall i | 0 <= i < |ids| :: AssertionOf(declared, ids[i]).Some?
    requires Notes(env, declared, ids, p, units).Ok?
    ensures |Notes(env, declared, ids, p, units).value| == |ids|
    ensures forall i | 0 <= i < |ids| :: AssertionHolds(p, units, AssertionOf(declared, ids[i]).value)
  {
    if ids != [] {
      assert forall i | 0 <= i < |ids| - 1 :: ids[..|ids| - 1][i] == ids[i];
      NotesChecked(env, declared, ids[..|ids| - 1], p, units);
    }
  }

  ghost predicate AssertionsOk(c: Candidate, p: P.Projected, units: seq<E.Unit>) {
    && (p.intent == E.Validity ==> LinkedAssertions(Statements(c)) != [])
    && (forall id | id in LinkedAssertions(Statements(c)) ::
          AssertionOf(c.assertions, id).Some? && AssertionHolds(p, units, AssertionOf(c.assertions, id).value))
    && (forall a | a in c.assertions :: a.id in LinkedAssertions(Statements(c)))
  }

  lemma TemporalChecked(env: Env, c: Candidate, p: P.Projected, units: seq<E.Unit>)
    requires TemporalNotes(env, c, p, units).Ok?
    ensures AssertionsOk(c, p, units)
  {
    var linked := LinkedAssertions(Statements(c));
    var ids := Unique(linked);
    NotesChecked(env, c.assertions, ids, p, units);
    forall id | id in linked
      ensures AssertionOf(c.assertions, id).Some? && AssertionHolds(p, units, AssertionOf(c.assertions, id).value)
    {
      assert id in ids;
      var i :| 0 <= i < |ids| && ids[i] == id;
    }
    forall a | a in c.assertions ensures a.id in linked {
      var i :| 0 <= i < |c.assertions| && c.assertions[i] == a;
      assert c.assertions[i].id in ids;
    }
  }

  // -- the answer -----------------------------------------------------------------------------

  lemma CitedCanBeRendered(env: Env, units: seq<E.Unit>, c: Candidate)
    requires AddStatements(env, units, Statements(c)).Ok?
    ensures var cited := AddStatements(env, units, Statements(c)).value;
      CitedKnown(units, cited) && Numbered(c, OrdinalsOf(cited.order))
  {
    StatementsChecked(env, units, Statements(c));
    NumberedWhenCited(c, OrdinalsOf(AddStatements(env, units, Statements(c)).value.order));
  }

  function LinkedPathNotes(
      env: Env, c: Candidate, p: P.Projected, registry: Registry): Result<(seq<E.Path>, seq<string>), Error> {
    var linked := Unique(LinkedPaths(Statements(c)));
    if p.relationGoal.Some? && linked == [] then Err(NoReasoningPath)
    else
      match SelectPaths(p, registry, linked)
      case Err(e) => Err(e)
      case Ok(paths) =>
        match TemporalNotes(env, c, p, registry.entries)
        case Err(e) => Err(e)
        case Ok(notes) => Ok((paths, notes))
  }

  function Validate(env: Env, c: Candidate, p: P.Projected, registry: Registry): Result<Response, Error> {
    if c.cannotAnswer then Ok(Response(RefusalText, [], [], [], true, c.reason))
    else
      match AddStatements(env, registry.entries, Statements(c))
      case Err(e) => Err(e)
      case Ok(cited) =>
        match LinkedPathNotes(env, c, p, registry)
        case Err(e) => Err(e)
        case Ok((paths, notes)) =>
          CitedCanBeRendered(env, registry.entries, c);
          Ok(Response(
               AnswerText(c, OrdinalsOf(cited.order)), CitationsOf(registry.entries, cited), paths, notes, false, None))
  }

  method ValidateAndRender(
      env: Env, c: Candidate, p: P.Projected, registry: Registry) returns (r: Result<Response, Error>)
    ensures r == Validate(env, c, p, registry)
  {
    if c.cannotAnswer {
      return Ok(Response(RefusalText, [], [], [], true, c.reason));
    }
    var statements := Statements(c);
    var cited := CollectCitations(env, registry.entries, statements);
    if cited.Err? {
      return Err(cited.error);
    }
    var linked := Unique(LinkedPaths(statements));
    if p.relationGoal.Some? && linked == [] {
      return Err(NoReasoningPath);
    }
    var paths := CollectPaths(p, registry, linked);
    if paths.Err? {
      return Err(paths.error);
    }
    var notes := TemporalNotes(env, c, p, registry.entries);
    if notes.Err? {
      return Err(notes.error);
    }
    CitedCanBeRendered(env, registry.entries, c);
    var text := Render(c, OrdinalsOf(cited.value.order));
    r := Ok(Response(text, CitationsOf(registry.entries, cited.value), paths.value, notes.value, false, None));
  }

  lemma {:induction false} OrdinalsAre(order: seq<Id>)
    requires NoDup(order)
    ensures forall i | 0 <= i < |order| :: order[i] in OrdinalsOf(order) && OrdinalsOf(order)[order[i]] == i + 1
  {
    if order != [] {
      var init, last := order[..|order| - 1], order[|order| - 1];
      assert order == init + [last];
      NoDupPrefix(init, last);
      OrdinalsAre(init);
      forall i | 0 <= i < |init| ensures OrdinalsOf(order)[order[i]] == i + 1 { assert init[i] == order[i]; }
    }
  }

  function CitationIds(cs: seq<AnswerCitation>): seq<Id> { seq(|cs|, i requires 0 <= i < |cs| => cs[i].unitId) }

  /** The k-th number read from the text is the place, from one, of the k-th cited unit in the citation list. */
  ghost predicate NumbersName(numbers: seq<nat>, citations: seq<AnswerCitation>, cited: seq<Id>) {
    |numbers| == |cited|
    && forall k | 0 <= k < |cited| :: 1 <= numbers[k] <= |citations| && citations[numbers[k] - 1].unitId == cited[k]
  }

  /** Every citation names a unit of the projection and carries a normalised excerpt of it. */
  ghost predicate CitationsGrounded(env: Env, p: P.Projected, cs: seq<AnswerCitation>) {
    forall i | 0 <= i < |cs| ::
      cs[i].unitId in p.selected
      && exists u | u in p.evidence :: u.id == cs[i].unitId && IsVerbatim(env, cs[i].quote, u.content)
  }

  ghost predicate Supported(env: Env, c: Candidate, p: P.Projected, r: Response) {
    && CitationIds(r.citations) == Unique(CitedIds(Statements(c)))
    && CitationsGrounded(env, p, r.citations)
    && NumbersName(Scan(r.text), r.citations, CitedIds(Statements(c)))
    && PathsMatch(p, Unique(LinkedPaths(Statements(c))), r.paths)
    && (p.relationGoal.Some? ==> r.paths != [])
    && AssertionsOk(c, p, p.evidence)
    && AllStatementsOk(env, p.evidence, Statements(c))
  }

  ghost predicate SelectionMatches(p: P.Projected) {
    |p.selected| == |p.evidence| && forall i | 0 <= i < |p.selected| :: p.evidence[i].id == p.selected[i]
  }

  lemma CitationsAreGrounded(env: Env, p: P.Projected, cited: Cited, ids: seq<Id>)
    requires SelectionMatches(p) && Tallied(env, p.evidence, cited, ids)
    ensures CitationIds(CitationsOf(p.evidence, cited)) == cited.order
    ensures CitationsGrounded(env, p, CitationsOf(p.evidence, cited))
  {
    var cs := CitationsOf(p.evidence, cited);
    forall i | 0 <= i < |cs|
      ensures cs[i].unitId == cited.order[i] && cs[i].unitId in p.selected
        && exists u | u in p.evidence :: u.id == cs[i].unitId && IsVerbatim(env, cs[i].quote, u.content)
    {
      var id := cited.order[i];
      assert id in cited.quotes;
      assert CitationOk(env, p.evidence, Citation(id, cited.quotes[id]));
      var u := V.UnitById(p.evidence, id).value;
      var k :| 0 <= k < |p.evidence| && p.evidence[k] == u;
      assert p.selected[k] == id;
    }
  }

  lemma NumbersNameCited(c: Candidate, units: seq<E.Unit>, cited: Cited)
    requires cited.order == Unique(CitedIds(Statements(c))) && CitedKnown(units, cited)
    requires Numbered(c, OrdinalsOf(cited.order)) && CitationIds(CitationsOf(units, cited)) == cited.order
    ensures NumbersName(Scan(AnswerText(c, OrdinalsOf(cited.order))), CitationsOf(units, cited),
            CitedIds(Statements(c)))
  {
    var ids, cs := CitedIds(Statements(c)), CitationsOf(units, cited);
    AnswerReadsBack(c, OrdinalsOf(cited.order));
    NumbersFollow(cited.order, ids, cs);
  }

  lemma OrdinalNames(order: seq<Id>, cs: seq<AnswerCitation>, id: Id)
    requires NoDup(order) && CitationIds(cs) == order && id in order
    ensures 1 <= OrdinalsOf(order)[id] <= |cs| && cs[OrdinalsOf(order)[id] - 1].unitId == id
  {
    OrdinalsAre(order);
    var i :| 0 <= i < |order| && order[i] == id;
    assert CitationIds(cs)[i] == order[i];
  }

  lemma NumbersFollow(order: seq<Id>, ids: seq<Id>, cs: seq<AnswerCitation>)
    requires NoDup(order) && CitationIds(cs) == order && forall id :: id in order <==> id in ids
    ensures AllNumbered(ids, OrdinalsOf(order)) && NumbersName(Ordinals(ids, OrdinalsOf(order)), cs, ids)
  {
    forall k | 0 <= k < |ids|
      ensures ids[k] in OrdinalsOf(order)
      ensures 1 <= OrdinalsOf(order)[ids[k]] <= |cs| && cs[OrdinalsOf(order)[ids[k]] - 1].unitId == ids[k]
    {
      assert ids[k] in ids;
      OrdinalNames(order, cs, ids[k]);
    }
  }

  lemma PathsAreLinked(env: Env, c: Candidate, p: P.Projected, registry: Registry)
    requires LinkedPathNotes(env, c, p, registry).Ok?
    ensures var (paths, notes) := LinkedPathNotes(env, c, p, registry).value;
      && PathsMatch(p, Unique(LinkedPaths(Statements(c))), paths) && (p.relationGoal.Some? ==> paths != [])
      && AssertionsOk(c, p, registry.entries)
  {
    PathsChecked(p, registry, Unique(LinkedPaths(Statements(c))));
    TemporalChecked(env, c, p, registry.entries);
  }

  /**
    Every supported answer is grounded: its citations are the distinct cited units in order of first use, all inside the
    projection and quoted, its text numbers them statement by statement, and its paths and temporal claims hold.
   */
  lemma SupportedAnswer(env: Env, c: Candidate, p: P.Projected)
    requires SelectionMatches(p) && !c.cannotAnswer && Validate(env, c, p, BuildRegistry(p)).Ok?
    ensures var r := Validate(env, c, p, BuildRegistry(p)).value; !r.cannotAnswer && Supported(env, c, p, r)
  {
    var units := p.evidence;
    var cited := AddStatements(env, units, Statements(c)).value;
    StatementsChecked(env, units, Statements(c));
    CitedCanBeRendered(env, units, c);
    CitationsAreGrounded(env, p, cited, CitedIds(Statements(c)));
    NumbersNameCited(c, units, cited);
    PathsAreLinked(env, c, p, BuildRegistry(p));
  }
}
