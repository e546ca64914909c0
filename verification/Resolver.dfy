/** The deterministic reference resolver (resolution/resolver.py). */
module Resolver {
  import opened Prelude
  import opened Text
  import opened Clarification
  import Focuses

  datatype Mode = Select | Restate

  datatype Status = WasResolved | Ambiguous | Unresolved

  datatype Reason =
    | ExplicitFound | AnaphoraResolved | AnaphoraAmbiguous | NoAnaphora
    | ReferentNotFound | UserCancelled | SelectInputInvalid | ReferenceFilterConflict | QueryProcessorClarification

  datatype Pending = Pending(
    mode: Mode,
    question: string,
    candidates: seq<Candidate>,
    sourceTurn: Uuid,
    sourceTurnNo: nat)

  datatype Outcome =
    | Standalone
    | ResolvedTo(unit: Resolved, how: ResolutionMethod, source: ReferenceSource,
                 goal: Option<RelationGoal>, sourceMessage: Option<string>)
    | Clarify(mode: Mode, status: Status, reason: Reason, question: string, candidates: seq<Candidate>)
    | Cancelled
    | Raised

  /**
    What parsing the message and asking the graph yield: the units found for each explicit reference, the kind of
    the first reference, an anaphora with its expected kind, and the relation the message asks about.
   */
  datatype Reading = Reading(
    lookups: seq<seq<Resolved>>,
    deepest: UnitType,
    anaphora: Option<Option<UnitType>>,
    goal: Option<RelationGoal>)

  // -- explicit references ------------------------------------------------------

  function Flatten(lookups: seq<seq<Resolved>>): seq<Resolved> {
    if lookups == [] then [] else Flatten(lookups[..|lookups| - 1]) + lookups[|lookups| - 1]
  }

  predicate HasNode(units: seq<Resolved>, nodeId: string) {
    exists i | 0 <= i < |units| :: units[i].nodeId == nodeId
  }

  predicate HasNumber(units: seq<Resolved>, number: string) {
    exists i | 0 <= i < |units| :: units[i].documentNumber == Some(number)
  }

  /** First occurrence of every node id. */
  function ByNode(units: seq<Resolved>): seq<Resolved> {
    if units == [] then []
    else
      var before, last := ByNode(units[..|units| - 1]), units[|units| - 1];
      if HasNode(before, last.nodeId) then before else before + [last]
  }

  predicate Numbered(u: Resolved) {
    u.documentNumber.Some? && u.documentNumber.value != ""
  }

  /** First occurrence of every document number; units without one all stay. */
  function ByNumber(units: seq<Resolved>): seq<Resolved> {
    if units == [] then []
    else
      var before, last := ByNumber(units[..|units| - 1]), units[|units| - 1];
      if Numbered(last) && HasNumber(before, last.documentNumber.value) then before else before + [last]
  }

  function ExplicitUnits(reading: Reading): seq<Resolved> {
    ByNumber(ByNode(Flatten(reading.lookups)))
  }

  function AsCandidates(units: seq<Resolved>, how: ResolutionMethod, source: ReferenceSource, message: string,
                        goal: Option<RelationGoal>): seq<Candidate>
  {
    seq(|units|, i requires 0 <= i < |units| => ToCandidate(units[i], how, source, message, goal))
  }

  function ClarifyFrom(candidates: seq<Candidate>): Outcome {
    var bounded := if |candidates| <= MAX_CANDIDATES then candidates else candidates[..MAX_CANDIDATES];
    Clarify(Select, Ambiguous, AnaphoraAmbiguous, SelectQuestion(bounded), bounded)
  }

  function ExplicitOutcome(units: seq<Resolved>, reading: Reading, message: string): Outcome {
    if |units| == 1 then
      ResolvedTo(units[0], ExactStructuralLookup, CurrentMessage, reading.goal, Some(message))
    else if |units| > 1 then
      ClarifyFrom(AsCandidates(units, ExactStructuralLookup, CurrentMessage, message, reading.goal))
    else
      Clarify(Restate, Unresolved, ReferentNotFound, RestateQuestion(Some(reading.deepest)), [])
  }

  ghost predicate SeenNodes(seen: set<string>, units: seq<Resolved>) {
    forall id :: id in seen <==> HasNode(units, id)
  }

  lemma ByNodeStep(before: seq<Resolved>, u: Resolved)
    ensures ByNode(before + [u]) == if HasNode(ByNode(before), u.nodeId) then ByNode(before) else ByNode(before) + [u]
  {
    assert (before + [u])[..|before|] == before;
  }

  method CollectByNode(lookups: seq<seq<Resolved>>) returns (candidates: seq<Resolved>)
    ensures candidates == ByNode(Flatten(lookups))
  {
    candidates := [];
    var seen: set<string> := {};
    ghost var flat: seq<Resolved> := [];
    for i := 0 to |lookups|
      invariant flat == Flatten(lookups[..i]) && candidates == ByNode(flat) && SeenNodes(seen, candidates)
    {
      candidates, seen := AddByNode(flat, candidates, seen, lookups[i]);
      flat := flat + lookups[i];
      assert lookups[..i + 1][..i] == lookups[..i];
    }
    assert lookups[..|lookups|] == lookups;
  }

  method AddByNode(ghost flat: seq<Resolved>, start: seq<Resolved>, known: set<string>, found: seq<Resolved>)
    returns (candidates: seq<Resolved>, seen: set<string>)
    requires start == ByNode(flat) && SeenNodes(known, start)
    ensures candidates == ByNode(flat + found) && SeenNodes(seen, candidates)
  {
    candidates, seen := start, known;
    assert flat + found[..0] == flat;
    for k := 0 to |found|
      invariant candidates == ByNode(flat + found[..k]) && SeenNodes(seen, candidates)
    {
      ByNodeStep(flat + found[..k], found[k]);
      assert flat + found[..k + 1] == flat + found[..k] + [found[k]];
      if found[k].nodeId !in seen {
        HasNodeAppend(candidates, found[k]);
        seen := seen + {found[k].nodeId};
        candidates := candidates + [found[k]];
      }
    }
    assert found[..|found|] == found;
  }

  method KeepByNumber(candidates: seq<Resolved>) returns (distinct: seq<Resolved>)
    ensures distinct == ByNumber(candidates)
  {
    distinct := [];
    var seenNumbers: set<string> := {};
    for i := 0 to |candidates|
      invariant distinct == ByNumber(candidates[..i])
      invariant forall n :: n in seenNumbers <==> n != "" && HasNumber(distinct, n)
    {
      var c := candidates[i];
      assert candidates[..i + 1][..i] == candidates[..i];
      HasNumberAppend(distinct, c);
      if Numbered(c) {
        if c.documentNumber.value !in seenNumbers {
          seenNumbers := seenNumbers + {c.documentNumber.value};
          distinct := distinct + [c];
        }
      } else {
        distinct := distinct + [c];
      }
    }
    assert candidates[..|candidates|] == candidates;
  }

  /** `_resolve_explicit`. */
  method ResolveExplicit(reading: Reading, message: string) returns (r: Outcome)
    ensures r == ExplicitOutcome(ExplicitUnits(reading), reading, message)
  {
    var candidates := CollectByNode(reading.lookups);
    candidates := KeepByNumber(candidates);
    r := ExplicitOutcome(candidates, reading, message);
  }

  lemma HasNodeAppend(units: seq<Resolved>, u: Resolved)
    ensures forall id :: HasNode(units + [u], id) <==> id == u.nodeId || HasNode(units, id)
  {
    forall id ensures HasNode(units + [u], id) <==> id == u.nodeId || HasNode(units, id) {
      assert (units + [u])[|units|] == u;
      if HasNode(units, id) {
        var i :| 0 <= i < |units| && units[i].nodeId == id;
        assert (units + [u])[i].nodeId == id;
      }
    }
  }

  lemma HasNumberAppend(units: seq<Resolved>, u: Resolved)
    ensures forall n :: HasNumber(units + [u], n) <==> u.documentNumber == Some(n) || HasNumber(units, n)
  {
    forall n ensures HasNumber(units + [u], n) <==> u.documentNumber == Some(n) || HasNumber(units, n) {
      assert (units + [u])[|units|] == u;
      if HasNumber(units, n) {
        var i :| 0 <= i < |units| && units[i].documentNumber == Some(n);
        assert (units + [u])[i].documentNumber == Some(n);
      }
    }
  }

  // -- anaphora -------------------------------------------------------------------

  /** `from_grounded_focus`. */
  function FromFocus(row: Focuses.Row): Resolved {
    var d := row.data;
    Resolved(d.nodeId, d.nodeType, d.labelText, d.documentId,
             JsonOpt(Get(d.metadata, DocumentNumber)),
             d.articleId, JsonOpt(Get(d.metadata, ArticleNumber)),
             d.clauseId, JsonOpt(Get(d.metadata, ClauseNumber)),
             JsonOpt(Get(d.metadata, PointId)), JsonOpt(Get(d.metadata, PointLabel)), d.metadata)
  }

  function MatchingFocuses(focuses: seq<Focuses.Row>, expected: Option<UnitType>): (r: seq<Resolved>)
    ensures forall u | u in r :: exists f | f in focuses :: u == FromFocus(f)
    ensures |r| <= |focuses|
  {
    if focuses == [] then []
    else
      var before := MatchingFocuses(focuses[..|focuses| - 1], expected);
      var last := focuses[|focuses| - 1];
      assert last in focuses;
      assert forall f | f in focuses[..|focuses| - 1] :: f in focuses;
      if expected.None? || last.data.nodeType == expected.value then before + [FromFocus(last)] else before
  }

  function AnaphoraOutcome(
      units: seq<Resolved>, expected: Option<UnitType>, reading: Reading, message: string): Outcome {
    if |units| == 1 then
      ResolvedTo(units[0], GroundedHistoryFocus, GroundedHistory, reading.goal, Some(message))
    else if |units| > 1 then
      ClarifyFrom(AsCandidates(units, GroundedHistoryFocus, GroundedHistory, message, reading.goal))
    else
      Clarify(Restate, Unresolved, ReferentNotFound, RestateQuestion(expected), [])
  }

  // -- resolve ----------------------------------------------------------------------

  function ResolveFresh(reading: Reading, message: string, focuses: seq<Focuses.Row>): Outcome {
    if reading.lookups != [] then ExplicitOutcome(ExplicitUnits(reading), reading, message)
    else if reading.anaphora.Some? then
      AnaphoraOutcome(MatchingFocuses(focuses, reading.anaphora.value), reading.anaphora.value, reading, message)
    else Standalone
  }

  function Chosen(c: Candidate): Outcome {
    var how := if Method !in c.metadata then Some(GroundedHistoryFocus)
               else if c.metadata[Method].JString? then ParseMethod(c.metadata[Method].s) else None;
    var goal := Get(c.metadata, Goal);
    var parsedGoal := if !Truthy(goal) then Some(None)
                      else if goal.JString? && ParseGoal(goal.s).Some? then Some(ParseGoal(goal.s)) else None;
    var message := Get(c.metadata, SourceMessage);
    var unit := FromCandidate(c);
    if how.None? || parsedGoal.None? || unit.None? then Raised
    else
      ResolvedTo(unit.value, how.value, ReferenceSource.PendingClarification, parsedGoal.value,
                 if message.JString? && !IsBlank(message.s) then Some(message.s) else None)
  }

  /** An open SELECT is only ever answered by a cancel or a selection; any other reply repeats it. */
  function ResolvePending(unicode: Unicode, message: string, pending: Pending, reading: Reading,
                          focuses: seq<Focuses.Row>): Outcome
  {
    if IsCancel(unicode, message) then Cancelled
    else if pending.mode == Select then
      match Match(unicode, pending.candidates, message)
      case Picked(c) => Chosen(c)
      case Unmatched =>
        Clarify(Select, Ambiguous, SelectInputInvalid, SelectQuestion(pending.candidates), pending.candidates)
      case NotANumber => Raised
    else ResolveFresh(reading, message, focuses)
  }

  function Resolve(unicode: Unicode, message: string, pending: Option<Pending>, reading: Reading,
                   focuses: seq<Focuses.Row>): Outcome
  {
    match pending
    case Some(p) => ResolvePending(unicode, message, p, reading, focuses)
    case None => ResolveFresh(reading, message, focuses)
  }

  // -- what is offered can always be stored, read back and selected -----------------

  predicate CanonicalReading(reading: Reading) {
    forall i, j | 0 <= i < |reading.lookups| && 0 <= j < |reading.lookups[i]| :: Canonical(reading.lookups[i][j])
  }

  predicate CanonicalFocus(row: Focuses.Row) {
    Canonical(FromFocus(row))
  }

  /** Candidates that validate on writing and come back unchanged from the stored JSON. */
  ghost predicate Storable(cs: seq<Candidate>) {
    ValidCandidates(cs) && forall c | c in cs :: Normal(c)
  }

  ghost predicate DistinctNodes(units: seq<Resolved>) {
    forall i, j | 0 <= i < j < |units| :: units[i].nodeId != units[j].nodeId
  }

  lemma CanonicalGivesNormal(u: Resolved, how: ResolutionMethod, source: ReferenceSource, message: string,
                             goal: Option<RelationGoal>)
    requires Canonical(u)
    ensures Normal(ToCandidate(u, how, source, message, goal))
  {
    EnumValuesParse(u.nodeType, how, RefersTo);
  }

  lemma OfferIsStorable(units: seq<Resolved>, how: ResolutionMethod, source: ReferenceSource, message: string,
                        goal: Option<RelationGoal>)
    requires DistinctNodes(units) && forall u | u in units :: Canonical(u)
    ensures Storable(ClarifyFrom(AsCandidates(units, how, source, message, goal)).candidates)
  {
    var cs := AsCandidates(units, how, source, message, goal);
    var offered := ClarifyFrom(cs).candidates;
    forall i | 0 <= i < |cs| ensures Normal(cs[i]) && cs[i].id == units[i].nodeId {
      assert units[i] in units;
      CanonicalGivesNormal(units[i], how, source, message, goal);
    }
    PrefixIsStorable(cs, |offered|);
    assert offered == cs[..|offered|];
  }

  lemma PrefixIsStorable(cs: seq<Candidate>, n: nat)
    requires n <= |cs| && n <= MAX_CANDIDATES
    requires (forall i | 0 <= i < |cs| :: Normal(cs[i])) && forall i, j | 0 <= i < j < |cs| :: cs[i].id != cs[j].id
    ensures Storable(cs[..n])
  {
    forall c | c in cs[..n] ensures Normal(c) {
      var i :| 0 <= i < n && cs[..n][i] == c;
      assert Normal(cs[i]);
    }
  }

  lemma {:induction false} FlattenMembers(lookups: seq<seq<Resolved>>, u: Resolved)
    requires u in Flatten(lookups)
    ensures exists i, j :: 0 <= i < |lookups| && 0 <= j < |lookups[i]| && lookups[i][j] == u
  {
    var n := |lookups| - 1;
    if u in lookups[n] {
      var j :| 0 <= j < |lookups[n]| && lookups[n][j] == u;
    } else {
      FlattenMembers(lookups[..n], u);
      var i, j :| 0 <= i < n && 0 <= j < |lookups[..n][i]| && lookups[..n][i][j] == u;
      assert lookups[i][j] == u;
    }
  }

  lemma {:induction false} ByNodeDistinct(units: seq<Resolved>)
    ensures DistinctNodes(ByNode(units)) && forall u | u in ByNode(units) :: u in units
  {
    if units != [] {
      ByNodeDistinct(units[..|units| - 1]);
      assert units == units[..|units| - 1] + [units[|units| - 1]];
    }
  }

  lemma {:induction false} ByNumberDistinct(units: seq<Resolved>)
    requires DistinctNodes(units)
    ensures DistinctNodes(ByNumber(units)) && forall u | u in ByNumber(units) :: u in units
  {
    if units != [] {
      var init, last := units[..|units| - 1], units[|units| - 1];
      ByNumberDistinct(init);
      assert units == init + [last];
      var before := ByNumber(init);
      forall i | 0 <= i < |before| ensures before[i].nodeId != last.nodeId {
        assert before[i] in init;
        var k :| 0 <= k < |init| && init[k] == before[i];
        assert units[k].nodeId != units[|units| - 1].nodeId;
      }
    }
  }

  /**
    Explicit candidates cover every found unit up to sharing a node id or a document number: nothing else is lost.
   */
  lemma ExplicitUnitsCover(reading: Reading, u: Resolved)
    requires u in Flatten(reading.lookups)
    ensures exists v | v in ByNode(Flatten(reading.lookups)) ::
              v.nodeId == u.nodeId
              && exists w | w in ExplicitUnits(reading) ::
                   w == v || (Numbered(v) && w.documentNumber == v.documentNumber)
  {
    var nodes := ByNode(Flatten(reading.lookups));
    ByNodeCovers(Flatten(reading.lookups), u);
    var v :| v in nodes && v.nodeId == u.nodeId;
    ByNumberCovers(nodes, v);
  }

  lemma {:induction false} ByNodeCovers(units: seq<Resolved>, u: Resolved)
    requires u in units
    ensures exists v | v in ByNode(units) :: v.nodeId == u.nodeId
  {
    var init, last := units[..|units| - 1], units[|units| - 1];
    assert units == init + [last];
    if u in init {
      ByNodeCovers(init, u);
      var v :| v in ByNode(init) && v.nodeId == u.nodeId;
      assert v in ByNode(units);
    } else if HasNode(ByNode(init), last.nodeId) {
      var i :| 0 <= i < |ByNode(init)| && ByNode(init)[i].nodeId == last.nodeId;
      assert ByNode(init)[i] in ByNode(units);
    } else {
      assert last in ByNode(units);
    }
  }

  lemma {:induction false} ByNumberCovers(units: seq<Resolved>, v: Resolved)
    requires v in units
    ensures exists w | w in ByNumber(units) :: w == v || (Numbered(v) && w.documentNumber == v.documentNumber)
  {
    var init, last := units[..|units| - 1], units[|units| - 1];
    assert units == init + [last];
    var before := ByNumber(init);
    if v in init {
      ByNumberCovers(init, v);
      var w :| w in before && (w == v || (Numbered(v) && w.documentNumber == v.documentNumber));
      assert w in ByNumber(units);
    } else if Numbered(last) && HasNumber(before, last.documentNumber.value) {
      var i :| 0 <= i < |before| && before[i].documentNumber == Some(last.documentNumber.value);
      assert before[i] in ByNumber(units);
    } else {
      assert last in ByNumber(units);
    }
  }

  lemma {:induction false} MatchingDistinct(focuses: seq<Focuses.Row>, expected: Option<UnitType>)
    requires Focuses.Keyed(focuses)
    ensures DistinctNodes(MatchingFocuses(focuses, expected))
  {
    if focuses != [] {
      var init := focuses[..|focuses| - 1];
      MatchingDistinct(init, expected);
      var before := MatchingFocuses(init, expected);
      forall i | 0 <= i < |before| ensures before[i].nodeId != focuses[|focuses| - 1].data.nodeId {
        assert before[i] in before;
        var f :| f in init && before[i] == FromFocus(f);
        var k :| 0 <= k < |init| && init[k] == f;
        assert focuses[k].data.nodeId != focuses[|focuses| - 1].data.nodeId;
      }
    }
  }

  /** Whatever the resolver asks the user to choose from passes validation and survives storage. */
  lemma ResolveOffersStorable(unicode: Unicode, message: string, pending: Option<Pending>, reading: Reading,
                              focuses: seq<Focuses.Row>)
    requires CanonicalReading(reading)
    requires Focuses.Keyed(focuses) && forall f | f in focuses :: CanonicalFocus(f)
    requires pending.Some? ==> Storable(pending.value.candidates)
    ensures var o := Resolve(unicode, message, pending, reading, focuses); o.Clarify? ==> Storable(o.candidates)
  {
    if reading.lookups != [] {
      var all := Flatten(reading.lookups);
      ByNodeDistinct(all);
      ByNumberDistinct(ByNode(all));
      var units := ExplicitUnits(reading);
      forall u | u in units ensures Canonical(u) {
        FlattenMembers(reading.lookups, u);
      }
      OfferIsStorable(units, ExactStructuralLookup, CurrentMessage, message, reading.goal);
    } else if reading.anaphora.Some? {
      MatchingDistinct(focuses, reading.anaphora.value);
      OfferIsStorable(MatchingFocuses(focuses, reading.anaphora.value), GroundedHistoryFocus, GroundedHistory,
                      message, reading.goal);
    }
  }

  lemma NumeralIsNotCancel(i: nat)
    ensures Numeral(i) !in CANCEL_PHRASES
  {
    assert IsDigit(Numeral(i)[0]);
    assert forall p | p in CANCEL_PHRASES :: p != "" && !IsDigit(p[0]);
  }

  lemma OptJsonReadsBack(value: Option<string>)
    ensures JsonOpt(OptJson(value)) == value
  {}

  lemma CandidateRecoversUnit(u: Resolved, how: ResolutionMethod, source: ReferenceSource, message: string,
                              goal: Option<RelationGoal>)
    ensures FromCandidate(ToCandidate(u, how, source, message, goal)) == Some(u)
  {
    EnumValuesParse(u.nodeType, how, RefersTo);
    OptJsonReadsBack(u.documentNumber);
    OptJsonReadsBack(u.articleNumber);
    OptJsonReadsBack(u.clauseNumber);
    OptJsonReadsBack(u.pointId);
    OptJsonReadsBack(u.pointLabel);
  }

  /** Converting a unit to a candidate and choosing that candidate gives the unit, method and goal back. */
  lemma ChosenRecovers(u: Resolved, how: ResolutionMethod, source: ReferenceSource, message: string,
                       goal: Option<RelationGoal>)
    ensures Chosen(ToCandidate(u, how, source, message, goal))
         == ResolvedTo(
              u, how, ReferenceSource.PendingClarification, goal, if IsBlank(message) then None else Some(message))
  {
    EnumValuesParse(u.nodeType, how, if goal.Some? then goal.value else RefersTo);
    CandidateRecoversUnit(u, how, source, message, goal);
    var m := ToCandidate(u, how, source, message, goal).metadata;
    assert m[Method] == JString(how.Value()) && m[SourceMessage] == JString(message);
    assert m[Goal] == if goal.Some? then JString(goal.value.Value()) else JNull;
  }

  /**
    The whole round trip: units are offered, stored as JSON, loaded for the next turn, and the reply `i` resolves to
    exactly the i-th offered unit with its resolution method, relation goal and original message.
   */
  lemma SelectionRoundTrip(unicode: Unicode, units: seq<Resolved>, how: ResolutionMethod,
                           source: ReferenceSource, message: string, goal: Option<RelationGoal>,
                           reply: string, i: nat, reading: Reading, focuses: seq<Focuses.Row>, turn: Uuid, turnNo: nat)
    requires DistinctNodes(units) && forall u | u in units :: Canonical(u)
    requires 1 <= i <= |units| && i <= MAX_CANDIDATES
    requires Normalize(unicode, reply) == Numeral(i)
    ensures var asked := ClarifyFrom(AsCandidates(units, how, source, message, goal));
      && ValidCandidates(asked.candidates)
      && var stored := FromJsonList(JArray(ToJsonList(asked.candidates)));
      && stored.Ok?
      && var pending := Pending(Select, asked.question, stored.value, turn, turnNo);
      && Resolve(unicode, reply, Some(pending), reading, focuses)
         == ResolvedTo(units[i - 1], how, ReferenceSource.PendingClarification, goal,
                       if IsBlank(message) then None else Some(message))
  {
    var asked := ClarifyFrom(AsCandidates(units, how, source, message, goal));
    OfferIsStorable(units, how, source, message, goal);
    ListRoundTrip(asked.candidates);
    OrdinalReplyPicks(unicode, asked.candidates, reply, i);
    NumeralIsNotCancel(i);
    assert units[i - 1] in units;
    ChosenRecovers(units[i - 1], how, source, message, goal);
  }
}
