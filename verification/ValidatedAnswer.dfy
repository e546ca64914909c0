/** Which candidate answers pass, why the others fail, and what a passed one says (generation/grounding.py). */
module ValidatedAnswer {
  import opened Prelude
  import opened Text
  import opened Rendering
  import opened Grounding
  import opened ReadableAnswer
  import E = Compaction
  import P = Projection
  import V = ProjectedValidation

  // -- statements in order ---------------------------------------------------------------

  function OfAll(ps: seq<Paragraph>): seq<Statement> {
    if ps == [] then [] else ps[0].statements + OfAll(ps[1..])
  }

  function OfEach(ss: seq<AnswerSection>): seq<Statement> {
    if ss == [] then [] else OfAll(ss[0].paragraphs) + OfEach(ss[1..])
  }

  /** The statements of the direct answer, of the sections, and of the caveats. */
  function InOrder(c: Candidate): seq<Statement> {
    OfAll(if c.direct.Some? then c.direct.value else []) + OfEach(c.sections) + OfAll(c.caveats)
  }

  lemma {:induction false} OfAllJoin(a: seq<Paragraph>, b: seq<Paragraph>)
    ensures OfAll(a + b) == OfAll(a) + OfAll(b)
  {
    if a == [] {
      assert a + b == b;
    } else {
      assert (a + b)[1..] == a[1..] + b;
      OfAllJoin(a[1..], b);
    }
  }

  lemma {:induction false} OfAllIs(ps: seq<Paragraph>)
    ensures OfParagraphs(ps) == OfAll(ps)
  {
    if ps != [] {
      var init, last := ps[..|ps| - 1], ps[|ps| - 1];
      OfAllIs(init);
      assert ps == init + [last] && [last][1..] == [];
      OfAllJoin(init, [last]);
    }
  }

  lemma {:induction false} OfEachJoin(a: seq<AnswerSection>, b: seq<AnswerSection>)
    ensures OfEach(a + b) == OfEach(a) + OfEach(b)
  {
    if a == [] {
      assert a + b == b;
    } else {
      assert (a + b)[1..] == a[1..] + b;
      OfEachJoin(a[1..], b);
    }
  }

  lemma {:induction false} OfEachIs(ss: seq<AnswerSection>)
    ensures OfSections(ss) == OfEach(ss)
  {
    if ss != [] {
      var init, last := ss[..|ss| - 1], ss[|ss| - 1];
      OfEachIs(init);
      OfAllIs(last.paragraphs);
      assert ss == init + [last] && [last][1..] == [];
      OfEachJoin(init, [last]);
    }
  }

  lemma StatementsInOrder(c: Candidate)
    ensures Statements(c) == InOrder(c)
  {
    OfAllIs(DirectParagraphs(c));
    OfEachIs(c.sections);
    OfAllIs(c.caveats);
  }

  // -- what is linked ---------------------------------------------------------------------

  function CitedBy(ss: seq<Statement>): seq<Citation> {
    if ss == [] then [] else ss[0].citations + CitedBy(ss[1..])
  }

  function PathsBy(ss: seq<Statement>): seq<Id> { if ss == [] then [] else ss[0].pathIds + PathsBy(ss[1..]) }

  function AssertionsBy(ss: seq<Statement>): seq<Id> {
    if ss == [] then [] else ss[0].assertionIds + AssertionsBy(ss[1..])
  }

  lemma {:induction false} CitedJoin(a: seq<Statement>, b: seq<Statement>)
    ensures CitedBy(a + b) == CitedBy(a) + CitedBy(b)
  {
    if a == [] {
      assert a + b == b;
    } else {
      assert (a + b)[1..] == a[1..] + b;
      CitedJoin(a[1..], b);
    }
  }

  lemma CitedStep(ss: seq<Statement>)
    requires ss != []
    ensures CitedBy(ss) == CitedBy(ss[..|ss| - 1]) + ss[|ss| - 1].citations
  {
    var init, last := ss[..|ss| - 1], ss[|ss| - 1];
    assert ss == init + [last] && [last][1..] == [];
    CitedJoin(init, [last]);
    assert CitedBy([last]) == last.citations;
  }

  lemma {:induction false} IdsJoin(a: seq<Statement>, b: seq<Statement>)
    ensures PathsBy(a + b) == PathsBy(a) + PathsBy(b) && AssertionsBy(a + b) == AssertionsBy(a) + AssertionsBy(b)
  {
    if a == [] {
      assert a + b == b;
    } else {
      assert (a + b)[1..] == a[1..] + b;
      IdsJoin(a[1..], b);
    }
  }

  lemma {:induction false} LinkedAre(ss: seq<Statement>)
    ensures CitedIds(ss) == IdsOf(CitedBy(ss))
    ensures LinkedPaths(ss) == PathsBy(ss) && LinkedAssertions(ss) == AssertionsBy(ss)
  {
    if ss != [] {
      var init, last := ss[..|ss| - 1], ss[|ss| - 1];
      LinkedAre(init);
      CitedStep(ss);
      assert ss == init + [last] && [last][1..] == [];
      IdsJoin(init, [last]);
      assert IdsOf(CitedBy(init) + last.citations) == IdsOf(CitedBy(init)) + IdsOf(last.citations);
    }
  }

  // -- grounded statements ------------------------------------------------------------------

  /** The evidence an id stands for: the last unit with that id. */
  ghost predicate IsUnit(units: seq<E.Unit>, id: Id, u: E.Unit) {
    exists i | 0 <= i < |units| :: units[i] == u && u.id == id && forall j | i < j < |units| :: units[j].id != id
  }

  lemma {:induction false} UnitByIdIs(units: seq<E.Unit>, id: Id, u: E.Unit)
    ensures V.UnitById(units, id) == Some(u) <==> IsUnit(units, id, u)
  {
    if units != [] {
      var init, last := units[..|units| - 1], units[|units| - 1];
      UnitByIdIs(init, id, u);
      assert units == init + [last];
      if last.id == id {
        assert units[|init|] == last;
        if i :| 0 <= i < |units| && units[i] == u && u.id == id && forall j | i < j < |units| :: units[j].id != id {
          assert i == |init|;
        }
      } else {
        UnitInit(init, last, id, u);
      }
    }
  }

  lemma UnitInit(init: seq<E.Unit>, last: E.Unit, id: Id, u: E.Unit)
    requires last.id != id
    ensures IsUnit(init + [last], id, u) <==> IsUnit(init, id, u)
  {
    var units := init + [last];
    if i :| 0 <= i < |init| && init[i] == u && u.id == id && forall j | i < j < |init| :: init[j].id != id {
      assert units[i] == u;
      assert forall j | i < j < |init| :: units[j] == init[j];
    }
    if i :| 0 <= i < |units| && units[i] == u && u.id == id && forall j | i < j < |units| :: units[j].id != id {
      assert init[i] == u;
      assert forall j | i < j < |init| :: init[j] == units[j];
    }
  }

  /** The text up to composition and white space. */
  function Plainly(env: Env, s: string): string { Strip(Collapse(env.nfc(s))) }

  /** The quote stands in the content. */
  ghost predicate Quotes(env: Env, quote: string, content: string) {
    exists a: string, b: string :: Plainly(env, content) == a + Plainly(env, quote) + b
  }

  lemma VerbatimIs(env: Env, quote: string, content: string)
    ensures IsVerbatim(env, quote, content) <==> Quotes(env, quote, content)
  {
    var q, s := Plainly(env, quote), Plainly(env, content);
    if i: nat :| i <= |s| && OccursAt(s, q, i) { assert s == s[..i] + q + s[i + |q|..]; }
    if a: string, b: string :| s == a + q + b {
      assert s[|a|..|a| + |q|] == q;
      assert OccursAt(s, q, |a|);
    }
  }

  ghost predicate IsGrounded(env: Env, units: seq<E.Unit>, c: Citation) {
    exists u :: IsUnit(units, c.id, u) && Quotes(env, c.quote, u.content)
  }

  lemma CitationOkIs(env: Env, units: seq<E.Unit>, c: Citation)
    ensures CitationOk(env, units, c) <==> IsGrounded(env, units, c)
    ensures V.UnitById(units, c.id).None? <==> forall u :: !IsUnit(units, c.id, u)
  {
    forall u ensures V.UnitById(units, c.id) == Some(u) <==> IsUnit(units, c.id, u) { UnitByIdIs(units, c.id, u); }
    forall u: E.Unit ensures IsVerbatim(env, c.quote, u.content) <==> Quotes(env, c.quote, u.content) {
      VerbatimIs(env, c.quote, u.content);
    }
    if V.UnitById(units, c.id).Some? { assert IsUnit(units, c.id, V.UnitById(units, c.id).value); }
  }

  ghost predicate SaysSomethingGrounded(env: Env, units: seq<E.Unit>, s: Statement) {
    HasText(s.text) && forall i | 0 <= i < |s.citations| :: IsGrounded(env, units, s.citations[i])
  }

  lemma StatementOkIs(env: Env, units: seq<E.Unit>, s: Statement)
    ensures StatementOk(env, units, s) <==> SaysSomethingGrounded(env, units, s)
  {
    BlankIs(s.text);
    forall i | 0 <= i < |s.citations|
      ensures CitationOk(env, units, s.citations[i]) <==> IsGrounded(env, units, s.citations[i])
    {
      CitationOkIs(env, units, s.citations[i]);
    }
  }

  /** The first citation at fault, and its fault. */
  ghost predicate FirstBadCitation(env: Env, units: seq<E.Unit>, cs: seq<Citation>, e: Error) {
    exists i | 0 <= i < |cs| ::
      && !IsGrounded(env, units, cs[i]) && (forall j | 0 <= j < i :: IsGrounded(env, units, cs[j]))
      && e == if exists u :: IsUnit(units, cs[i].id, u) then NotVerbatim(cs[i].id) else UnknownCitation(cs[i].id)
  }

  /** The first statement at fault, and its fault. */
  ghost predicate FirstBadStatement(env: Env, units: seq<E.Unit>, ss: seq<Statement>, e: Error) {
    exists i | 0 <= i < |ss| ::
      && (forall j | 0 <= j < i :: SaysSomethingGrounded(env, units, ss[j]))
      && (if HasText(ss[i].text) then FirstBadCitation(env, units, ss[i].citations, e) else e == BlankStatement)
  }

  lemma {:induction false} CitationFault(env: Env, units: seq<E.Unit>, acc: Cited, cs: seq<Citation>)
    requires AddCitations(env, units, acc, cs).Err?
    ensures FirstBadCitation(env, units, cs, AddCitations(env, units, acc, cs).error)
  {
    var init, last := cs[..|cs| - 1], cs[|cs| - 1];
    var before := AddCitations(env, units, acc, init);
    assert cs == init + [last];
    if before.Err? {
      CitationFault(env, units, acc, init);
      FaultStays(env, units, init, last, before.error);
    } else {
      forall j | 0 <= j < |init| ensures IsGrounded(env, units, cs[j]) {
        CitationsAllOk(env, units, acc, init);
        CitationOkIs(env, units, init[j]);
        assert cs[j] == init[j];
      }
      CitationOkIs(env, units, last);
      assert cs[|init|] == last;
    }
  }

  lemma FaultStays(env: Env, units: seq<E.Unit>, init: seq<Citation>, last: Citation, e: Error)
    requires FirstBadCitation(env, units, init, e)
    ensures FirstBadCitation(env, units, init + [last], e)
  {
    var cs := init + [last];
    var i :| 0 <= i < |init| && !IsGrounded(env, units, init[i])
      && (forall j | 0 <= j < i :: IsGrounded(env, units, init[j]))
      && e == if exists u :: IsUnit(units, init[i].id, u) then NotVerbatim(init[i].id) else UnknownCitation(init[i].id);
    assert cs[i] == init[i];
    assert forall j | 0 <= j < i :: cs[j] == init[j];
  }

  lemma {:induction false} CitationsAllOk(env: Env, units: seq<E.Unit>, acc: Cited, cs: seq<Citation>)
    requires AddCitations(env, units, acc, cs).Ok?
    ensures CitationsOk(env, units, cs)
  {
    if cs != [] {
      CitationsAllOk(env, units, acc, cs[..|cs| - 1]);
      CitationsOkStep(env, units, cs);
    }
  }

  lemma {:induction false} StatementFault(env: Env, units: seq<E.Unit>, ss: seq<Statement>)
    requires AddStatements(env, units, ss).Err?
    ensures FirstBadStatement(env, units, ss, AddStatements(env, units, ss).error)
  {
    var init, last := ss[..|ss| - 1], ss[|ss| - 1];
    var before := AddStatements(env, units, init);
    assert ss == init + [last];
    if before.Err? {
      StatementFault(env, units, init);
      BadStatementStays(env, units, init, last, before.error);
    } else {
      StatementsChecked(env, units, init);
      forall j | 0 <= j < |init| ensures SaysSomethingGrounded(env, units, ss[j]) {
        StatementOkIs(env, units, init[j]);
        assert ss[j] == init[j];
      }
      BlankIs(last.text);
      if HasText(last.text) { CitationFault(env, units, before.value, last.citations); }
      assert ss[|init|] == last;
    }
  }

  lemma BadStatementStays(env: Env, units: seq<E.Unit>, init: seq<Statement>, last: Statement, e: Error)
    requires FirstBadStatement(env, units, init, e)
    ensures FirstBadStatement(env, units, init + [last], e)
  {
    var ss := init + [last];
    var i :| 0 <= i < |init| && (forall j | 0 <= j < i :: SaysSomethingGrounded(env, units, init[j]))
      && (if HasText(init[i].text) then FirstBadCitation(env, units, init[i].citations, e) else e == BlankStatement);
    assert ss[i] == init[i];
    assert forall j | 0 <= j < i :: ss[j] == init[j];
  }

  // -- reasoning paths ----------------------------------------------------------------------

  /** The projected path an id stands for: the last one with that id. */
  ghost predicate IsPath(paths: seq<E.Path>, id: Id, q: E.Path) {
    exists i | 0 <= i < |paths| :: paths[i] == q && q.id == id && forall j | i < j < |paths| :: paths[j].id != id
  }

  ghost predicate ShowsGoal(p: P.Projected, q: E.Path) {
    p.relationGoal.Some? ==>
      exists i | 0 <= i < |q.edges| :: q.edges[i].relation == p.relationGoal.value && q.edges[i].source in p.anchors
  }

  ghost predicate IsReasoning(p: P.Projected, id: Id, q: E.Path) { IsPath(p.paths, id, q) && ShowsGoal(p, q) }

  ghost predicate CanReason(p: P.Projected, id: Id) { exists q :: IsReasoning(p, id, q) }

  /** The first path at fault, and its fault. */
  ghost predicate FirstBadPath(p: P.Projected, ids: seq<Id>, e: Error) {
    exists i | 0 <= i < |ids| ::
      && !CanReason(p, ids[i]) && (forall j | 0 <= j < i :: CanReason(p, ids[j]))
      && e == if exists q :: IsPath(p.paths, ids[i], q) then PathMissesGoal(ids[i]) else UnknownPath(ids[i])
  }

  lemma {:induction false} PathByIdIs(paths: seq<E.Path>, id: Id, q: E.Path)
    ensures P.PathById(paths, id) == Some(q) <==> IsPath(paths, id, q)
  {
    if paths != [] {
      var init, last := paths[..|paths| - 1], paths[|paths| - 1];
      PathByIdIs(init, id, q);
      assert paths == init + [last];
      if last.id == id {
        assert paths[|init|] == last;
        if i :| 0 <= i < |paths| && paths[i] == q && q.id == id && forall j | i < j < |paths| :: paths[j].id != id {
          assert i == |init|;
        }
      } else {
        PathInit(init, last, id, q);
      }
    }
  }

  lemma PathInit(init: seq<E.Path>, last: E.Path, id: Id, q: E.Path)
    requires last.id != id
    ensures IsPath(init + [last], id, q) <==> IsPath(init, id, q)
  {
    var paths := init + [last];
    if i :| 0 <= i < |init| && init[i] == q && q.id == id && forall j | i < j < |init| :: init[j].id != id {
      assert paths[i] == q;
      assert forall j | i < j < |init| :: paths[j] == init[j];
    }
    if i :| 0 <= i < |paths| && paths[i] == q && q.id == id && forall j | i < j < |paths| :: paths[j].id != id {
      assert init[i] == q;
      assert forall j | i < j < |init| :: init[j] == paths[j];
    }
  }

  lemma AllowedIs(p: P.Projected, id: Id)
    ensures var r := AllowedPath(p, BuildRegistry(p), id);
      && (r.None? <==> forall q :: !IsPath(p.paths, id, q)) && (r.Some? ==> IsPath(p.paths, id, r.value))
      && (CanReason(p, id) <==> r.Some? && ProvesGoal(p, r.value))
  {
    forall q ensures P.PathById(p.paths, id) == Some(q) <==> IsPath(p.paths, id, q) { PathByIdIs(p.paths, id, q); }
    var found := P.PathById(p.paths, id);
    if found.Some? {
      var i :| 0 <= i < |p.paths| && p.paths[i] == found.value;
      assert V.ProjectedPathIds(p)[i] == id;
      assert ShowsGoal(p, found.value) <==> ProvesGoal(p, found.value);
      if ProvesGoal(p, found.value) { assert IsReasoning(p, id, found.value); }
    }
  }

  lemma {:induction false} SelectPathsIs(p: P.Projected, ids: seq<Id>)
    ensures var r := SelectPaths(p, BuildRegistry(p), ids);
      match r
      case Err(e) => FirstBadPath(p, ids, e)
      case Ok(paths) => |paths| == |ids| && forall i | 0 <= i < |ids| :: IsReasoning(p, ids[i], paths[i])
  {
    if ids != [] {
      var init, last := ids[..|ids| - 1], ids[|ids| - 1];
      SelectPathsIs(p, init);
      assert ids == init + [last];
      AllowedIs(p, last);
      match SelectPaths(p, BuildRegistry(p), init)
      case Err(e) => BadPathStays(p, init, last, e);
      case Ok(before) =>
        forall i | 0 <= i < |init| ensures CanReason(p, ids[i]) { assert IsReasoning(p, init[i], before[i]); }
        assert ids[|init|] == last;
    }
  }

  lemma BadPathStays(p: P.Projected, init: seq<Id>, last: Id, e: Error)
    requires FirstBadPath(p, init, e)
    ensures FirstBadPath(p, init + [last], e)
  {
    var ids := init + [last];
    var i :| 0 <= i < |init| && !CanReason(p, init[i]) && (forall j | 0 <= j < i :: CanReason(p, init[j]))
      && e == if exists q :: IsPath(p.paths, init[i], q) then PathMissesGoal(init[i]) else UnknownPath(init[i]);
    assert ids[i] == init[i];
    assert forall j | 0 <= j < i :: ids[j] == init[j];
  }

  // -- temporal assertions -------------------------------------------------------------------

  /** The declared assertion an id stands for: the last one with that id. */
  ghost predicate IsDeclared(declared: seq<Assertion>, id: Id, a: Assertion) {
    exists i | 0 <= i < |declared| ::
      declared[i] == a && a.id == id && forall j | i < j < |declared| :: declared[j].id != id
  }

  /** In force from its start up to, and not on, its end. */
  predicate InForceOn(u: E.Unit, date: int) {
    && u.effectiveFrom.Some? && u.effectiveFrom.value <= date
    && (u.effectiveTo.Some? ==> date < u.effectiveTo.value)
  }

  /** What an assertion comes to: a note in the words of the renderer, or what is wrong with it. */
  ghost predicate ComesTo(env: Env, p: P.Projected, a: Assertion, r: Result<string, Error>) {
    if p.resolvedFrom.None? || p.resolvedTo != p.resolvedFrom then r == Err(NoQueryDate)
    else if a.date != p.resolvedFrom.value then r == Err(DateMismatch)
    else if forall u :: !IsUnit(p.evidence, a.subject, u) then r == Err(UnknownSubject(a.subject))
    else
      exists u :: IsUnit(p.evidence, a.subject, u) &&
        r == if a.valid != InForceOn(u, a.date) then Err(WrongValidity(a.subject))
             else Ok("Theo phạm vi dữ liệu truy xuất, " + u.citationLabel
                     + (if a.valid then " có hiệu lực" else " không có hiệu lực")
                     + " tại ngày " + env.iso(a.date) + ".")
  }

  ghost predicate IdComesTo(env: Env, c: Candidate, p: P.Projected, id: Id, r: Result<string, Error>) {
    exists a :: IsDeclared(c.assertions, id, a) && ComesTo(env, p, a, r)
  }

  lemma {:induction false} AssertionOfIs(declared: seq<Assertion>, id: Id, a: Assertion)
    ensures AssertionOf(declared, id) == Some(a) <==> IsDeclared(declared, id, a)
  {
    if declared != [] {
      var init, last := declared[..|declared| - 1], declared[|declared| - 1];
      AssertionOfIs(init, id, a);
      assert declared == init + [last];
      if last.id == id {
        assert declared[|init|] == last;
        if i :| 0 <= i < |declared| && declared[i] == a && a.id == id
                && forall j | i < j < |declared| :: declared[j].id != id {
          assert i == |init|;
        }
      } else {
        DeclaredInit(init, last, id, a);
      }
    }
  }

  lemma DeclaredInit(init: seq<Assertion>, last: Assertion, id: Id, a: Assertion)
    requires last.id != id
    ensures IsDeclared(init + [last], id, a) <==> IsDeclared(init, id, a)
  {
    var declared := init + [last];
    if i :| 0 <= i < |init| && init[i] == a && a.id == id && forall j | i < j < |init| :: init[j].id != id {
      assert declared[i] == a;
      assert forall j | i < j < |init| :: declared[j] == init[j];
    }
    if i :| 0 <= i < |declared| && declared[i] == a && a.id == id
            && forall j | i < j < |declared| :: declared[j].id != id {
      assert init[i] == a;
      assert forall j | i < j < |init| :: init[j] == declared[j];
    }
  }

  lemma ValidateTemporalIs(env: Env, a: Assertion, p: P.Projected)
    ensures ComesTo(env, p, a, ValidateTemporal(env, a, p, p.evidence))
  {
    forall u ensures V.UnitById(p.evidence, a.subject) == Some(u) <==> IsUnit(p.evidence, a.subject, u) {
      UnitByIdIs(p.evidence, a.subject, u);
    }
    var found := V.UnitById(p.evidence, a.subject);
    if found.Some? { assert IsUnit(p.evidence, a.subject, found.value); }
  }

  /** The linked assertions come to these notes, or the first one that does not to this error. */
  ghost predicate NotesAre(env: Env, c: Candidate, p: P.Projected, ids: seq<Id>, r: Result<seq<string>, Error>) {
    match r
    case Ok(notes) => |notes| == |ids| && forall i | 0 <= i < |ids| :: IdComesTo(env, c, p, ids[i], Ok(notes[i]))
    case Err(e) =>
      exists i | 0 <= i < |ids| ::
        && IdComesTo(env, c, p, ids[i], Err(e))
        && forall j | 0 <= j < i :: exists note :: IdComesTo(env, c, p, ids[j], Ok(note))
  }

  lemma {:induction false} NotesHold(env: Env, c: Candidate, p: P.Projected, ids: seq<Id>)
    requires forall i | 0 <= i < |ids| :: AssertionOf(c.assertions, ids[i]).Some?
    ensures NotesAre(env, c, p, ids, Notes(env, c.assertions, ids, p, p.evidence))
  {
    if ids != [] {
      var init, last := ids[..|ids| - 1], ids[|ids| - 1];
      assert forall i | 0 <= i < |init| :: init[i] == ids[i];
      NotesHold(env, c, p, init);
      assert ids == init + [last];
      var a := AssertionOf(c.assertions, last).value;
      AssertionOfIs(c.assertions, last, a);
      ValidateTemporalIs(env, a, p);
      NotesMore(env, c, p, init, last, Notes(env, c.assertions, init, p, p.evidence),
                ValidateTemporal(env, a, p, p.evidence));
    }
  }

  lemma NotesMore(env: Env, c: Candidate, p: P.Projected, init: seq<Id>, last: Id, before: Result<seq<string>, Error>,
                  own: Result<string, Error>)
    requires NotesAre(env, c, p, init, before) && IdComesTo(env, c, p, last, own)
    ensures NotesAre(env, c, p, init + [last], if before.Err? then before
                                               else if own.Err? then Err(own.error)
                                               else Ok(before.value + [own.value]))
  {
    var ids := init + [last];
    match before
    case Err(e) =>
      var i :| 0 <= i < |init| && IdComesTo(env, c, p, init[i], Err(e))
               && forall j | 0 <= j < i :: exists note :: IdComesTo(env, c, p, init[j], Ok(note));
      assert ids[i] == init[i];
      forall j | 0 <= j < i ensures exists note :: IdComesTo(env, c, p, ids[j], Ok(note)) { assert ids[j] == init[j]; }
    case Ok(notes) =>
      forall j | 0 <= j < |init| ensures IdComesTo(env, c, p, ids[j], Ok(notes[j])) { assert ids[j] == init[j]; }
      assert ids[|init|] == last;
  }

  ghost predicate IsUndeclared(declared: seq<Assertion>, id: Id) { forall a :: !IsDeclared(declared, id, a) }

  /** The first linked assertion that is not declared. */
  ghost predicate FirstMissing(declared: seq<Assertion>, ids: seq<Id>, e: Error) {
    exists i | 0 <= i < |ids| ::
      && IsUndeclared(declared, ids[i]) && (forall j | 0 <= j < i :: !IsUndeclared(declared, ids[j]))
      && e == UnknownAssertion(ids[i])
  }

  /** The notes of an answer, or the first thing wrong with its assertions. */
  ghost predicate TemporalIs(env: Env, c: Candidate, p: P.Projected, ids: seq<Id>, r: Result<seq<string>, Error>) {
    if p.intent == E.Validity && ids == [] then r == Err(NoAssertion)
    else if exists i | 0 <= i < |ids| :: IsUndeclared(c.assertions, ids[i]) then
      r.Err? && FirstMissing(c.assertions, ids, r.error)
    else if exists a | a in c.assertions :: a.id !in ids then r == Err(UnlinkedAssertion)
    else NotesAre(env, c, p, ids, r)
  }

  lemma UndeclaredIs(declared: seq<Assertion>, id: Id)
    ensures AssertionOf(declared, id).None? <==> IsUndeclared(declared, id)
  {
    forall a ensures AssertionOf(declared, id) == Some(a) <==> IsDeclared(declared, id, a) {
      AssertionOfIs(declared, id, a);
    }
    if AssertionOf(declared, id).Some? { assert IsDeclared(declared, id, AssertionOf(declared, id).value); }
  }

  lemma {:induction false} FirstUndeclaredIs(declared: seq<Assertion>, ids: seq<Id>)
    requires FirstUndeclared(declared, ids).Some?
    ensures FirstMissing(declared, ids, UnknownAssertion(FirstUndeclared(declared, ids).value))
  {
    UndeclaredIs(declared, ids[0]);
    if AssertionOf(declared, ids[0]).Some? {
      var rest, e := ids[1..], UnknownAssertion(FirstUndeclared(declared, ids).value);
      FirstUndeclaredIs(declared, rest);
      var i :| 0 <= i < |rest| && IsUndeclared(declared, rest[i])
               && (forall j | 0 <= j < i :: !IsUndeclared(declared, rest[j])) && e == UnknownAssertion(rest[i]);
      assert ids[i + 1] == rest[i];
      forall j | 0 <= j < i + 1 ensures !IsUndeclared(declared, ids[j]) { if j > 0 { assert ids[j] == rest[j - 1]; } }
    }
  }

  lemma TemporalHolds(env: Env, c: Candidate, p: P.Projected)
    ensures var ids := Unique(LinkedAssertions(Statements(c)));
      TemporalIs(env, c, p, ids, TemporalNotes(env, c, p, p.evidence))
  {
    var ids := Unique(LinkedAssertions(Statements(c)));
    forall i | 0 <= i < |ids| ensures AssertionOf(c.assertions, ids[i]).None? <==> IsUndeclared(c.assertions, ids[i]) {
      UndeclaredIs(c.assertions, ids[i]);
    }
    if FirstUndeclared(c.assertions, ids).Some? {
      FirstUndeclaredIs(c.assertions, ids);
      var k :| 0 <= k < |ids| && ids[k] == FirstUndeclared(c.assertions, ids).value;
    } else {
      LinkedIs(c.assertions, ids);
      NotesHold(env, c, p, ids);
    }
  }

  lemma LinkedIs(declared: seq<Assertion>, ids: seq<Id>)
    ensures AllLinked(declared, ids) <==> !exists a | a in declared :: a.id !in ids
  {
    if a :| a in declared && a.id !in ids {
      var i :| 0 <= i < |declared| && declared[i] == a;
    }
    if i :| 0 <= i < |declared| && declared[i].id !in ids { assert declared[i] in declared; }
  }

  // -- citations of the answer -----------------------------------------------------------------

  /** The quote an id was first cited with. */
  ghost predicate FirstQuote(cs: seq<Citation>, id: Id, quote: string) {
    exists k | 0 <= k < |cs| :: cs[k] == Citation(id, quote) && forall j | 0 <= j < k :: cs[j].id != id
  }

  ghost predicate QuotesFirst(acc: Cited, cs: seq<Citation>) {
    forall id | id in acc.order :: id in acc.quotes && FirstQuote(cs, id, acc.quotes[id])
  }

  lemma QuoteStays(cs: seq<Citation>, c: Citation, id: Id, quote: string)
    requires FirstQuote(cs, id, quote)
    ensures FirstQuote(cs + [c], id, quote)
  {
    var k :| 0 <= k < |cs| && cs[k] == Citation(id, quote) && forall j | 0 <= j < k :: cs[j].id != id;
    assert (cs + [c])[k] == cs[k];
    assert forall j | 0 <= j < k :: (cs + [c])[j] == cs[j];
  }

  lemma NewQuote(cs: seq<Citation>, c: Citation)
    requires c.id !in IdsOf(cs)
    ensures FirstQuote(cs + [c], c.id, c.quote)
  {
    forall j | 0 <= j < |cs| ensures (cs + [c])[j].id != c.id { assert IdsOf(cs)[j] == cs[j].id; }
    assert (cs + [c])[|cs|] == c;
  }

  lemma {:induction false} QuotedAre(env: Env, units: seq<E.Unit>, acc: Cited, sofar: seq<Citation>, cs: seq<Citation>)
    requires AddCitations(env, units, acc, cs).Ok? && QuotesFirst(acc, sofar)
    requires forall id :: id in acc.order <==> id in IdsOf(sofar)
    ensures var r := AddCitations(env, units, acc, cs).value;
      QuotesFirst(r, sofar + cs) && forall id :: id in r.order <==> id in IdsOf(sofar + cs)
  {
    if cs == [] {
      assert sofar + cs == sofar;
    } else {
      var init, last := cs[..|cs| - 1], cs[|cs| - 1];
      QuotedAre(env, units, acc, sofar, init);
      assert sofar + cs == sofar + init + [last];
      QuotedMore(env, units, AddCitations(env, units, acc, init).value, sofar + init, last);
    }
  }

  lemma QuotedMore(env: Env, units: seq<E.Unit>, acc: Cited, cs: seq<Citation>, c: Citation)
    requires AddCitation(env, units, acc, c).Ok? && QuotesFirst(acc, cs)
    requires forall id :: id in acc.order <==> id in IdsOf(cs)
    ensures var r := AddCitation(env, units, acc, c).value;
      QuotesFirst(r, cs + [c]) && forall id :: id in r.order <==> id in IdsOf(cs + [c])
  {
    var r := AddCitation(env, units, acc, c).value;
    assert IdsOf(cs + [c]) == IdsOf(cs) + [c.id];
    if c.id !in acc.order { NewQuote(cs, c); }
    forall id | id in r.order ensures id in r.quotes && FirstQuote(cs + [c], id, r.quotes[id]) {
      if id in acc.order { QuoteStays(cs, c, id, acc.quotes[id]); }
    }
  }

  lemma {:induction false} StatementsQuoted(env: Env, units: seq<E.Unit>, ss: seq<Statement>)
    requires AddStatements(env, units, ss).Ok?
    ensures var r := AddStatements(env, units, ss).value;
      QuotesFirst(r, CitedBy(ss)) && forall id :: id in r.order <==> id in IdsOf(CitedBy(ss))
  {
    if ss != [] {
      var init, last := ss[..|ss| - 1], ss[|ss| - 1];
      StatementsQuoted(env, units, init);
      QuotedAre(env, units, AddStatements(env, units, init).value, CitedBy(init), last.citations);
      CitedStep(ss);
    }
  }

  /** A citation as the reader gets it: the unit's labels and places, and the quote it was first cited with. */
  ghost predicate IsCitation(p: P.Projected, cs: seq<Citation>, id: Id, a: AnswerCitation) {
    exists u, quote ::
      && IsUnit(p.evidence, id, u) && FirstQuote(cs, id, quote)
      && a == AnswerCitation(u.id, u.citationLabel, u.documentId, u.articleId, u.clauseId, u.deepLink, quote)
  }

  ghost predicate CitationsAre(p: P.Projected, cs: seq<Citation>, order: seq<Id>, citations: seq<AnswerCitation>) {
    && FirstOccurrences(IdsOf(cs), order) && |citations| == |order|
    && forall i | 0 <= i < |order| :: IsCitation(p, cs, order[i], citations[i])
  }

  /** The text reads as the candidate, with each citation numbered by its place in the list. */
  ghost predicate ReadsAs(c: Candidate, order: seq<Id>, text: string) {
    exists ordinals: map<Id, nat> ::
      && Numbered(c, ordinals) && (forall i | 0 <= i < |order| :: order[i] in ordinals && ordinals[order[i]] == i + 1)
      && Read(text) == Between(AnswerMarks(c, ordinals), "\n\n")
  }

  lemma CitationsHold(env: Env, p: P.Projected, c: Candidate)
    requires AddStatements(env, p.evidence, Statements(c)).Ok?
    ensures var cited := AddStatements(env, p.evidence, Statements(c)).value;
      && CitedKnown(p.evidence, cited)
      && CitationsAre(p, CitedBy(InOrder(c)), cited.order, CitationsOf(p.evidence, cited))
  {
    var ss := Statements(c);
    var cited := AddStatements(env, p.evidence, ss).value;
    StatementsInOrder(c);
    StatementsChecked(env, p.evidence, ss);
    StatementsQuoted(env, p.evidence, ss);
    LinkedAre(ss);
    UniqueKeepsFirsts(CitedIds(ss));
    forall i | 0 <= i < |cited.order|
      ensures IsCitation(p, CitedBy(ss), cited.order[i], CitationOf(p.evidence, cited.order[i], cited.quotes))
    {
      var id := cited.order[i];
      assert id in cited.order;
      UnitByIdIs(p.evidence, id, V.UnitById(p.evidence, id).value);
    }
  }

  lemma TextHolds(env: Env, p: P.Projected, c: Candidate)
    requires AddStatements(env, p.evidence, Statements(c)).Ok?
    ensures var cited := AddStatements(env, p.evidence, Statements(c)).value;
      Numbered(c, OrdinalsOf(cited.order)) && ReadsAs(c, cited.order, AnswerText(c, OrdinalsOf(cited.order)))
  {
    var cited := AddStatements(env, p.evidence, Statements(c)).value;
    CitedCanBeRendered(env, p.evidence, c);
    StatementsChecked(env, p.evidence, Statements(c));
    OrdinalsAre(cited.order);
    AnswerIsReadable(c, OrdinalsOf(cited.order));
  }

  // -- the whole validation ----------------------------------------------------------------------

  /** What a passed candidate is answered with. */
  ghost predicate IsResponse(env: Env, c: Candidate, p: P.Projected, pathIds: seq<Id>, assertionIds: seq<Id>,
                             r: Response)
  {
    && !r.cannotAnswer && r.reason.None?
    && (exists order: seq<Id> ::
          CitationsAre(p, CitedBy(InOrder(c)), order, r.citations) && ReadsAs(c, order, r.text))
    && |r.paths| == |pathIds| && (forall i | 0 <= i < |pathIds| :: IsReasoning(p, pathIds[i], r.paths[i]))
    && TemporalIs(env, c, p, assertionIds, Ok(r.notes))
  }

  /** The checks in their order: statements, reasoning paths, temporal assertions. */
  ghost predicate ValidatesTo(env: Env, c: Candidate, p: P.Projected, pathIds: seq<Id>, assertionIds: seq<Id>,
                              r: Result<Response, Error>)
  {
    var ss := InOrder(c);
    if exists s | s in ss :: !SaysSomethingGrounded(env, p.evidence, s) then
      r.Err? && FirstBadStatement(env, p.evidence, ss, r.error)
    else if p.relationGoal.Some? && pathIds == [] then r == Err(NoReasoningPath)
    else if exists id | id in pathIds :: !CanReason(p, id) then r.Err? && FirstBadPath(p, pathIds, r.error)
    else
      match r
      case Err(e) => TemporalIs(env, c, p, assertionIds, Err(e))
      case Ok(response) => IsResponse(env, c, p, pathIds, assertionIds, response)
  }

  lemma StatementsDecide(env: Env, p: P.Projected, c: Candidate)
    ensures var r := AddStatements(env, p.evidence, Statements(c));
      && Statements(c) == InOrder(c)
      && (r.Ok? <==> forall s | s in InOrder(c) :: SaysSomethingGrounded(env, p.evidence, s))
      && (r.Err? ==> FirstBadStatement(env, p.evidence, InOrder(c), r.error))
  {
    var ss := Statements(c);
    StatementsInOrder(c);
    StatementsPass(env, p.evidence, ss);
    forall i | 0 <= i < |ss|
      ensures StatementOk(env, p.evidence, ss[i]) <==> SaysSomethingGrounded(env, p.evidence, ss[i])
    {
      StatementOkIs(env, p.evidence, ss[i]);
    }
    if AddStatements(env, p.evidence, ss).Err? { StatementFault(env, p.evidence, ss); }
    if forall s | s in ss :: SaysSomethingGrounded(env, p.evidence, s) {
      forall i | 0 <= i < |ss| ensures StatementOk(env, p.evidence, ss[i]) { assert ss[i] in ss; }
    }
  }

  lemma PathsDecide(p: P.Projected, ids: seq<Id>)
    ensures var r := SelectPaths(p, BuildRegistry(p), ids);
      && (r.Ok? <==> forall id | id in ids :: CanReason(p, id))
      && (r.Err? ==> FirstBadPath(p, ids, r.error))
      && (r.Ok? ==> |r.value| == |ids| && forall i | 0 <= i < |ids| :: IsReasoning(p, ids[i], r.value[i]))
  {
    SelectPathsIs(p, ids);
    var r := SelectPaths(p, BuildRegistry(p), ids);
    if r.Ok? {
      forall id | id in ids ensures CanReason(p, id) {
        var i :| 0 <= i < |ids| && ids[i] == id;
        assert IsReasoning(p, ids[i], r.value[i]);
      }
    } else {
      var i :| 0 <= i < |ids| && !CanReason(p, ids[i]);
      assert ids[i] in ids;
    }
  }

  /**
    Validation, exactly: a refusal is passed on; otherwise the first fault in the order of the checks is reported, and a
    candidate without one is answered with its text, its citations, its paths and its notes.
   */
  lemma ValidatesExactly(env: Env, c: Candidate, p: P.Projected) returns (pathIds: seq<Id>, assertionIds: seq<Id>)
    ensures FirstOccurrences(PathsBy(InOrder(c)), pathIds) && FirstOccurrences(AssertionsBy(InOrder(c)), assertionIds)
    ensures var r := Validate(env, c, p, BuildRegistry(p));
      if c.cannotAnswer then
        r == Ok(Response("Không đủ căn cứ trong dữ liệu truy xuất để trả lời chắc chắn.", [], [], [], true, c.reason))
      else ValidatesTo(env, c, p, pathIds, assertionIds, r)
  {
    var ss := Statements(c);
    StatementsDecide(env, p, c);
    LinkedAre(ss);
    pathIds, assertionIds := Unique(LinkedPaths(ss)), Unique(LinkedAssertions(ss));
    UniqueKeepsFirsts(LinkedPaths(ss));
    UniqueKeepsFirsts(LinkedAssertions(ss));
    PathsDecide(p, pathIds);
    TemporalHolds(env, c, p);
    if AddStatements(env, p.evidence, ss).Ok? {
      CitationsHold(env, p, c);
      TextHolds(env, p, c);
    }
  }
}
