/** What the resolver makes of a message, read off its references and the focuses (resolution/resolver.py). */
module ResolverOutcomes {
  import opened Prelude
  import opened Text
  import opened Clarification
  import opened Resolver
  import Focuses

  // -- which units an explicit reference comes to ------------------------------------------

  /** No earlier unit has the same node. */
  ghost predicate NewNode(all: seq<Resolved>, i: nat)
    requires i < |all|
  {
    forall j | 0 <= j < i :: all[j].nodeId != all[i].nodeId
  }

  /** Nor has one, that counts, the same document number. */
  ghost predicate Counts(all: seq<Resolved>, i: nat)
    requires i < |all|
  {
    && NewNode(all, i)
    && (all[i].documentNumber.Some? && all[i].documentNumber.value != "" ==>
          forall j | 0 <= j < i && NewNode(all, j) :: all[j].documentNumber != all[i].documentNumber)
  }

  ghost predicate CountsExactly(all: seq<Resolved>, positions: seq<nat>) {
    forall i | 0 <= i < |all| :: i in positions <==> Counts(all, i)
  }

  lemma {:induction false} NewNodesAre(all: seq<Resolved>) returns (positions: seq<nat>)
    ensures Selects(all, positions, ByNode(all))
    ensures forall i | 0 <= i < |all| :: i in positions <==> NewNode(all, i)
  {
    if all == [] {
      positions := [];
    } else {
      var init, last := all[..|all| - 1], all[|all| - 1];
      positions := NewNodesAre(init);
      assert all == init + [last];
      SelectsMore(init, positions, ByNode(init), last);
      ByNodeCoversAll(init, last.nodeId);
      forall i | 0 <= i < |init| ensures NewNode(all, i) <==> NewNode(init, i) {}
      if !HasNode(ByNode(init), last.nodeId) { positions := positions + [|init|]; }
    }
  }

  lemma ByNodeCoversAll(units: seq<Resolved>, id: string)
    ensures HasNode(ByNode(units), id) <==> exists j | 0 <= j < |units| :: units[j].nodeId == id
  {
    ByNodeDistinct(units);
    if j :| 0 <= j < |units| && units[j].nodeId == id {
      ByNodeCovers(units, units[j]);
      var v :| v in ByNode(units) && v.nodeId == id;
      var k :| 0 <= k < |ByNode(units)| && ByNode(units)[k] == v;
    }
    if k :| 0 <= k < |ByNode(units)| && ByNode(units)[k].nodeId == id {
      assert ByNode(units)[k] in units;
    }
  }

  lemma ByNumberCoversAll(units: seq<Resolved>, number: string)
    requires number != ""
    ensures HasNumber(ByNumber(units), number)
            <==> exists j | 0 <= j < |units| :: units[j].documentNumber == Some(number)
  {
    ByNumberMembers(units);
    if j :| 0 <= j < |units| && units[j].documentNumber == Some(number) {
      ByNumberCovers(units, units[j]);
      var w :| w in ByNumber(units) && (w == units[j] || w.documentNumber == units[j].documentNumber);
      var k :| 0 <= k < |ByNumber(units)| && ByNumber(units)[k] == w;
    }
    if k :| 0 <= k < |ByNumber(units)| && ByNumber(units)[k].documentNumber == Some(number) {
      assert ByNumber(units)[k] in units;
    }
  }

  lemma {:induction false} ByNumberMembers(units: seq<Resolved>)
    ensures forall u | u in ByNumber(units) :: u in units
  {
    if units != [] {
      ByNumberMembers(units[..|units| - 1]);
      assert units == units[..|units| - 1] + [units[|units| - 1]];
    }
  }

  /** No earlier unit has the same document number. */
  ghost predicate NewNumber(units: seq<Resolved>, i: nat)
    requires i < |units|
  {
    units[i].documentNumber.Some? && units[i].documentNumber.value != "" ==>
      forall j | 0 <= j < i :: units[j].documentNumber != units[i].documentNumber
  }

  lemma {:induction false} NewNumbersAre(units: seq<Resolved>) returns (positions: seq<nat>)
    ensures Selects(units, positions, ByNumber(units))
    ensures forall i | 0 <= i < |units| :: i in positions <==> NewNumber(units, i)
  {
    if units == [] {
      positions := [];
    } else {
      var init, last := units[..|units| - 1], units[|units| - 1];
      positions := NewNumbersAre(init);
      assert units == init + [last];
      SelectsMore(init, positions, ByNumber(init), last);
      if Numbered(last) { ByNumberCoversAll(init, last.documentNumber.value); }
      forall i | 0 <= i < |init| ensures NewNumber(units, i) <==> NewNumber(init, i) {}
      if !(Numbered(last) && HasNumber(ByNumber(init), last.documentNumber.value)) {
        positions := positions + [|init|];
      }
    }
  }

  lemma SelectsTwice(all: seq<Resolved>, p: seq<nat>, mid: seq<Resolved>, q: seq<nat>, kept: seq<Resolved>)
    returns (r: seq<nat>)
    requires Selects(all, p, mid) && Selects(mid, q, kept)
    ensures Selects(all, r, kept) && |r| == |q| && forall k | 0 <= k < |q| :: r[k] == p[q[k]]
  {
    r := seq(|q|, k requires 0 <= k < |q| => p[q[k]]);
  }

  /** The units of explicit references are the found ones that count, in the order they were found. */
  lemma ExplicitUnitsAre(reading: Reading) returns (positions: seq<nat>)
    ensures var all := Flatten(reading.lookups);
      Selects(all, positions, ExplicitUnits(reading)) && CountsExactly(all, positions)
  {
    var all := Flatten(reading.lookups);
    var p := NewNodesAre(all);
    var q := NewNumbersAre(ByNode(all));
    positions := SelectsTwice(all, p, ByNode(all), q, ExplicitUnits(reading));
    forall i | 0 <= i < |all| ensures i in positions <==> Counts(all, i) {
      CountsAt(all, p, q, positions, i);
    }
  }

  lemma CountsAt(all: seq<Resolved>, p: seq<nat>, q: seq<nat>, positions: seq<nat>, i: nat)
    requires i < |all| && Selects(all, p, ByNode(all)) && |positions| == |q|
    requires forall j | 0 <= j < |all| :: j in p <==> NewNode(all, j)
    requires forall k | 0 <= k < |q| :: q[k] < |p| && positions[k] == p[q[k]]
    requires forall k | 0 <= k < |p| :: k in q <==> NewNumber(ByNode(all), k)
    ensures i in positions <==> Counts(all, i)
  {
    if NewNode(all, i) {
      var k :| 0 <= k < |p| && p[k] == i;
      PositionOf(all, p, q, positions, k);
      NumberAt(all, p, ByNode(all), k);
    }
  }

  lemma PositionOf(all: seq<Resolved>, p: seq<nat>, q: seq<nat>, positions: seq<nat>, k: nat)
    requires Selects(all, p, ByNode(all)) && |positions| == |q| && k < |p|
    requires forall m | 0 <= m < |q| :: q[m] < |p| && positions[m] == p[q[m]]
    ensures p[k] in positions <==> k in q
  {
    if p[k] in positions {
      var m :| 0 <= m < |positions| && positions[m] == p[k];
      assert q[m] == k;
    }
    if k in q {
      var m :| 0 <= m < |q| && q[m] == k;
      assert positions[m] == p[k];
    }
  }

  lemma NumberAt(all: seq<Resolved>, p: seq<nat>, nodes: seq<Resolved>, k: nat)
    requires Selects(all, p, nodes) && k < |p|
    requires forall j | 0 <= j < |all| :: j in p <==> NewNode(all, j)
    ensures NewNumber(nodes, k) <==> Counts(all, p[k])
  {
    assert p[k] in p;
    forall j | 0 <= j < p[k] && NewNode(all, j) ensures exists m | 0 <= m < k :: p[m] == j {
      var m :| 0 <= m < |p| && p[m] == j;
    }
    if NewNumber(nodes, k) && Numbered(nodes[k]) {
      forall j | 0 <= j < p[k] && NewNode(all, j) ensures all[j].documentNumber != nodes[k].documentNumber {
        var m :| 0 <= m < k && p[m] == j;
        assert nodes[m] == all[j];
      }
    }
    if Counts(all, p[k]) && Numbered(nodes[k]) {
      forall m | 0 <= m < k ensures nodes[m].documentNumber != nodes[k].documentNumber {
        assert p[m] in p && p[m] < p[k];
        assert NewNode(all, p[m]);
      }
    }
  }

  // -- what is offered ---------------------------------------------------------------------

  /** The first five units, each of which is had back from its candidate, with how and for what it was found. */
  ghost predicate Offers(cs: seq<Candidate>, units: seq<Resolved>, how: ResolutionMethod, message: string,
                         goal: Option<RelationGoal>)
  {
    && |cs| == (if |units| < 5 then |units| else 5)
    && forall k | 0 <= k < |cs| ::
         && cs[k].id == units[k].nodeId && cs[k].labelText == units[k].labelText
         && Chosen(cs[k])
            == ResolvedTo(units[k], how, ReferenceSource.PendingClarification, goal,
                          if IsBlank(message) then None else Some(message))
  }

  /** A question that lists the labels with the numbers that choose them. */
  ghost predicate AsksForOne(question: string, cs: seq<Candidate>) {
    exists lines: seq<string> ::
      && |lines| == |cs| && (forall k | 0 <= k < |cs| :: lines[k] == Numeral(k + 1) + ". " + cs[k].labelText)
      && question == "Ý bạn là văn bản nào? " + Join(lines, " ")
                     + " Vui lòng trả lời bằng số thứ tự hoặc tên, hoặc gõ 'hủy' để bỏ qua."
  }

  lemma {:induction false} ListingIs(cs: seq<Candidate>, from: nat) returns (lines: seq<string>)
    ensures |lines| == |cs| && forall k | 0 <= k < |cs| :: lines[k] == Numeral(from + k) + ". " + cs[k].labelText
    ensures Listing(cs, from) == Join(lines, " ")
  {
    if cs == [] {
      lines := [];
    } else {
      var rest := ListingIs(cs[1..], from + 1);
      lines := [Numeral(from) + ". " + cs[0].labelText] + rest;
      assert lines[1..] == rest;
    }
  }

  lemma SelectAsksForOne(cs: seq<Candidate>)
    ensures AsksForOne(SelectQuestion(cs), cs)
  {
    var lines := ListingIs(cs, 1);
    assert forall k | 0 <= k < |cs| :: lines[k] == Numeral(k + 1) + ". " + cs[k].labelText;
  }

  /** The outcome is a choice among these units, or the only one, or a request to say it differently. */
  ghost predicate ComesTo(o: Outcome, units: seq<Resolved>, how: ResolutionMethod, source: ReferenceSource,
                          message: string, goal: Option<RelationGoal>, missing: string)
  {
    if |units| == 1 then o == ResolvedTo(units[0], how, source, goal, Some(message))
    else if units == [] then o == Clarify(Restate, Unresolved, ReferentNotFound, missing, [])
    else
      && o.Clarify? && o.mode == Select && o.status == Ambiguous && o.reason == AnaphoraAmbiguous
      && Offers(o.candidates, units, how, message, goal) && AsksForOne(o.question, o.candidates)
  }

  lemma OfferedIs(units: seq<Resolved>, how: ResolutionMethod, source: ReferenceSource, message: string,
                  goal: Option<RelationGoal>, missing: string)
    requires |units| > 1
    ensures ComesTo(ClarifyFrom(AsCandidates(units, how, source, message, goal)), units, how, source, message, goal,
                    missing)
  {
    var o := ClarifyFrom(AsCandidates(units, how, source, message, goal));
    OfferedAre(units, how, source, message, goal);
    SelectAsksForOne(o.candidates);
  }

  lemma OfferedAre(units: seq<Resolved>, how: ResolutionMethod, source: ReferenceSource, message: string,
                   goal: Option<RelationGoal>)
    ensures Offers(ClarifyFrom(AsCandidates(units, how, source, message, goal)).candidates, units, how, message, goal)
  {
    var cs := ClarifyFrom(AsCandidates(units, how, source, message, goal)).candidates;
    forall k | 0 <= k < |cs|
      ensures cs[k].id == units[k].nodeId && cs[k].labelText == units[k].labelText
      ensures Chosen(cs[k])
              == ResolvedTo(units[k], how, ReferenceSource.PendingClarification, goal,
                            if IsBlank(message) then None else Some(message))
    {
      assert cs[k] == ToCandidate(units[k], how, source, message, goal);
      ChosenRecovers(units[k], how, source, message, goal);
    }
  }

  // -- resolving -----------------------------------------------------------------------------

  /** No question is open, or one that calls for a new wording and is not cancelled. */
  ghost predicate IsFresh(unicode: Unicode, message: string, pending: Option<Pending>) {
    pending.Some? ==> pending.value.mode == Restate && !IsCancel(unicode, message)
  }

  /** Explicit references come first, and the found units that count decide. */
  lemma ExplicitComesTo(unicode: Unicode, message: string, pending: Option<Pending>, reading: Reading,
                        focuses: seq<Focuses.Row>) returns (units: seq<Resolved>, positions: seq<nat>)
    requires IsFresh(unicode, message, pending) && reading.lookups != []
    ensures Selects(Flatten(reading.lookups), positions, units) && CountsExactly(Flatten(reading.lookups), positions)
    ensures ComesTo(Resolve(unicode, message, pending, reading, focuses), units, ExactStructuralLookup, CurrentMessage,
                    message, reading.goal, RestateQuestion(Some(reading.deepest)))
  {
    units := ExplicitUnits(reading);
    positions := ExplicitUnitsAre(reading);
    if |units| > 1 {
      OfferedIs(units, ExactStructuralLookup, CurrentMessage, message, reading.goal,
                RestateQuestion(Some(reading.deepest)));
    }
  }

  /** The unit a focus stands for: numbers and the point are kept in its metadata. */
  ghost predicate Recalls(u: Resolved, row: Focuses.Row) {
    var m := row.data.metadata;
    && u.nodeId == row.data.nodeId && u.nodeType == row.data.nodeType && u.labelText == row.data.labelText
    && u.documentId == row.data.documentId && u.articleId == row.data.articleId && u.clauseId == row.data.clauseId
    && Holds(m, DocumentNumber, u.documentNumber) && Holds(m, ArticleNumber, u.articleNumber)
    && Holds(m, ClauseNumber, u.clauseNumber) && Holds(m, PointId, u.pointId) && Holds(m, PointLabel, u.pointLabel)
    && u.documentMetadata == m
  }

  ghost predicate Holds(m: Fields, key: Key, value: Option<string>) {
    if key in m && m[key].JString? then value == Some(m[key].s) else value.None?
  }

  ghost predicate RecallsAll(units: seq<Resolved>, rows: seq<Focuses.Row>) {
    |units| == |rows| && forall k | 0 <= k < |units| :: Recalls(units[k], rows[k])
  }

  /** Focuses of the expected kind, or all when no kind is expected. */
  ghost predicate OfKind(focuses: seq<Focuses.Row>, positions: seq<nat>, expected: Option<UnitType>) {
    forall i | 0 <= i < |focuses| ::
      i in positions <==> expected.None? || focuses[i].data.nodeType == expected.value
  }

  lemma {:induction false} MatchesAre(focuses: seq<Focuses.Row>, expected: Option<UnitType>)
    returns (positions: seq<nat>, rows: seq<Focuses.Row>)
    ensures Selects(focuses, positions, rows) && OfKind(focuses, positions, expected)
    ensures RecallsAll(MatchingFocuses(focuses, expected), rows)
  {
    positions, rows := [], [];
    if focuses != [] {
      var init, last := focuses[..|focuses| - 1], focuses[|focuses| - 1];
      positions, rows := MatchesAre(init, expected);
      assert focuses == init + [last];
      SelectsMore(init, positions, rows, last);
      if expected.None? || last.data.nodeType == expected.value {
        FocusRecalled(last);
        positions, rows := positions + [|init|], rows + [last];
      }
    }
  }

  lemma FocusRecalled(row: Focuses.Row)
    ensures Recalls(FromFocus(row), row)
  {}

  /** Without an explicit reference an anaphora is resolved among the focuses of the expected kind, in their order. */
  lemma AnaphoraComesTo(unicode: Unicode, message: string, pending: Option<Pending>, reading: Reading,
                        focuses: seq<Focuses.Row>)
    returns (units: seq<Resolved>, positions: seq<nat>, rows: seq<Focuses.Row>)
    requires IsFresh(unicode, message, pending) && reading.lookups == [] && reading.anaphora.Some?
    ensures Selects(focuses, positions, rows) && OfKind(focuses, positions, reading.anaphora.value)
    ensures RecallsAll(units, rows)
    ensures ComesTo(Resolve(unicode, message, pending, reading, focuses), units, GroundedHistoryFocus, GroundedHistory,
                    message, reading.goal, RestateQuestion(reading.anaphora.value))
  {
    units := MatchingFocuses(focuses, reading.anaphora.value);
    positions, rows := MatchesAre(focuses, reading.anaphora.value);
    AnaphoraOutcomeIs(units, reading, message);
  }

  lemma AnaphoraOutcomeIs(units: seq<Resolved>, reading: Reading, message: string)
    requires reading.anaphora.Some?
    ensures ComesTo(AnaphoraOutcome(units, reading.anaphora.value, reading, message), units, GroundedHistoryFocus,
                    GroundedHistory, message, reading.goal, RestateQuestion(reading.anaphora.value))
  {
    if |units| > 1 {
      OfferedIs(units, GroundedHistoryFocus, GroundedHistory, message, reading.goal,
                RestateQuestion(reading.anaphora.value));
    }
  }

  /** The rest: no reference at all, a cancel, and a choice that was asked for. */
  lemma OtherOutcomes(unicode: Unicode, message: string, pending: Option<Pending>, reading: Reading,
                      focuses: seq<Focuses.Row>)
    ensures var o := Resolve(unicode, message, pending, reading, focuses);
      && (IsFresh(unicode, message, pending) && reading.lookups == [] && reading.anaphora.None? ==> o == Standalone)
      && (pending.Some? && IsCancel(unicode, message) ==> o == Cancelled)
      && (pending.Some? && pending.value.mode == Select && !IsCancel(unicode, message) ==>
            var cs := pending.value.candidates;
            match Match(unicode, cs, message)
            case Picked(c) => o == Chosen(c)
            case Unmatched =>
              o.Clarify? && o.mode == Select && o.status == Ambiguous && o.reason == SelectInputInvalid
              && o.candidates == cs && AsksForOne(o.question, cs)
            case NotANumber => o == Raised)
  {
    if pending.Some? { SelectAsksForOne(pending.value.candidates); }
  }
}
