/**
  Clarification candidates: their persisted JSON form (persistence/domain.py), their conversion from and to
  resolved units (resolution/models.py) and the matching of a reply (resolution/clarification.py).
 */
module Clarification {
  import opened Prelude
  import opened Text

  const MAX_CANDIDATES: nat := 5

  /** The keys the code reads from JSON objects; every other key is `Other`. */
  datatype Key =
    | CandidateId | Label | NodeType | DocumentId | ArticleId | ClauseId | Metadata
    | DocumentNumber | ArticleNumber | ClauseNumber | PointId | PointLabel | DocumentMetadata
    | Method | Source | SourceMessage | Goal
    | Other(name: string)

  datatype Json =
    | JNull
    | JBool(b: bool)
    | JNumber(n: int)
    | JString(s: string)
    | JArray(items: seq<Json>)
    | JObject(fields: map<Key, Json>)

  type Fields = map<Key, Json>

  /** Python truthiness of a JSON value. */
  predicate Truthy(j: Json) {
    match j
    case JNull => false
    case JBool(b) => b
    case JNumber(n) => n != 0
    case JString(s) => s != ""
    case JArray(items) => items != []
    case JObject(fields) => fields != map[]
  }

  /** `fields.get(key)`. */
  function Get(fields: Fields, key: Key): Json {
    if key in fields then fields[key] else JNull
  }

  datatype InvalidCandidates = InvalidCandidates

  datatype Candidate = Candidate(
    id: string,
    labelText: string,
    nodeType: Option<string>,
    documentId: Option<string>,
    articleId: Option<string>,
    clauseId: Option<string>,
    metadata: Fields)

  function Put(fields: Fields, key: Key, value: Option<string>): Fields {
    match value
    case None => fields
    case Some(s) => fields[key := JString(s)]
  }

  function ToJson(c: Candidate): Json {
    var base: Fields := map[CandidateId := JString(c.id), Label := JString(c.labelText)];
    var typed := Put(base, NodeType, c.nodeType);
    var doc := Put(typed, DocumentId, c.documentId);
    var article := Put(doc, ArticleId, c.articleId);
    var clause := Put(article, ClauseId, c.clauseId);
    JObject(if c.metadata != map[] then clause[Metadata := JObject(c.metadata)] else clause)
  }

  /** `_optional_str`: absent, null and blank all read as absent; other text is stripped. */
  function OptionalString(j: Json): Result<Option<string>, InvalidCandidates> {
    match j
    case JNull => Ok(None)
    case JString(s) => Ok(if Strip(s) == "" then None else Some(Strip(s)))
    case _ => Err(InvalidCandidates)
  }

  function FromJson(raw: Json): Result<Candidate, InvalidCandidates> {
    if !raw.JObject? then Err(InvalidCandidates)
    else
      var id, labelText := Get(raw.fields, CandidateId), Get(raw.fields, Label);
      var metadata := Get(raw.fields, Metadata);
      if !id.JString? || IsBlank(id.s) || !labelText.JString? || IsBlank(labelText.s) then Err(InvalidCandidates)
      else if Truthy(metadata) && !metadata.JObject? then Err(InvalidCandidates)
      else
        match (OptionalString(Get(raw.fields, NodeType)), OptionalString(Get(raw.fields, DocumentId)),
               OptionalString(Get(raw.fields, ArticleId)), OptionalString(Get(raw.fields, ClauseId)))
        case (Ok(nodeType), Ok(documentId), Ok(articleId), Ok(clauseId)) =>
          Ok(Candidate(id.s, labelText.s, nodeType, documentId, articleId, clauseId,
                       if Truthy(metadata) then metadata.fields else map[]))
        case _ => Err(InvalidCandidates)
  }

  predicate Trimmed(value: Option<string>) {
    value.Some? ==> value.value != "" && Strip(value.value) == value.value
  }

  /** What reading back guarantees: a visible id and label, and optional fields without surrounding space. */
  predicate Normal(c: Candidate) {
    && !IsBlank(c.id) && !IsBlank(c.labelText)
    && Trimmed(c.nodeType) && Trimmed(c.documentId) && Trimmed(c.articleId) && Trimmed(c.clauseId)
  }

  function OptJson(value: Option<string>): Json {
    match value
    case None => JNull
    case Some(s) => JString(s)
  }

  lemma PutReadsBack(fields: Fields, key: Key, value: Option<string>, other: Key)
    requires key !in fields
    ensures Get(Put(fields, key, value), key) == OptJson(value)
    ensures other != key ==> Get(Put(fields, key, value), other) == Get(fields, other)
    ensures other != key && other !in fields ==> other !in Put(fields, key, value)
  {}

  /** What each key of the written object holds. */
  lemma WrittenFields(c: Candidate)
    ensures var f := ToJson(c).fields;
            && Get(f, CandidateId) == JString(c.id) && Get(f, Label) == JString(c.labelText)
            && Get(f, NodeType) == OptJson(c.nodeType) && Get(f, DocumentId) == OptJson(c.documentId)
            && Get(f, ArticleId) == OptJson(c.articleId) && Get(f, ClauseId) == OptJson(c.clauseId)
            && Get(f, Metadata) == if c.metadata == map[] then JNull else JObject(c.metadata)
  {
    var base: Fields := map[CandidateId := JString(c.id), Label := JString(c.labelText)];
    var typed := Put(base, NodeType, c.nodeType);
    var doc := Put(typed, DocumentId, c.documentId);
    var article := Put(doc, ArticleId, c.articleId);
    var clause := Put(article, ClauseId, c.clauseId);
    forall key ensures key != Metadata ==> Get(ToJson(c).fields, key) == Get(clause, key) {}
    forall key | key in {CandidateId, Label} ensures Get(clause, key) == Get(base, key) {
      PutReadsBack(base, NodeType, c.nodeType, key);
      PutReadsBack(typed, DocumentId, c.documentId, key);
      PutReadsBack(doc, ArticleId, c.articleId, key);
      PutReadsBack(article, ClauseId, c.clauseId, key);
    }
    PutReadsBack(base, NodeType, c.nodeType, NodeType);
    PutReadsBack(typed, DocumentId, c.documentId, NodeType);
    PutReadsBack(doc, ArticleId, c.articleId, NodeType);
    PutReadsBack(article, ClauseId, c.clauseId, NodeType);
    PutReadsBack(doc, ArticleId, c.articleId, DocumentId);
    PutReadsBack(article, ClauseId, c.clauseId, DocumentId);
    PutReadsBack(article, ClauseId, c.clauseId, ArticleId);
  }

  lemma OptionalStringReadsBack(value: Option<string>)
    ensures OptionalString(OptJson(value)).Ok?
    ensures OptionalString(OptJson(value)).value == value <==> Trimmed(value)
  {}

  /** Writing and reading a candidate gives it back exactly when it is normal. */
  lemma CandidateRoundTrip(c: Candidate)
    ensures FromJson(ToJson(c)) == Ok(c) <==> Normal(c)
  {
    WrittenFields(c);
    OptionalStringReadsBack(c.nodeType);
    OptionalStringReadsBack(c.documentId);
    OptionalStringReadsBack(c.articleId);
    OptionalStringReadsBack(c.clauseId);
    ReadOf(ToJson(c).fields, c);
  }

  /** Reading an object whose keys are known. */
  lemma ReadOf(f: Fields, c: Candidate)
    requires Get(f, CandidateId) == JString(c.id) && Get(f, Label) == JString(c.labelText)
    requires OptionalString(Get(f, NodeType)).Ok? && OptionalString(Get(f, DocumentId)).Ok?
    requires OptionalString(Get(f, ArticleId)).Ok? && OptionalString(Get(f, ClauseId)).Ok?
    requires Get(f, Metadata) == if c.metadata == map[] then JNull else JObject(c.metadata)
    ensures FromJson(JObject(f)) ==
      if IsBlank(c.id) || IsBlank(c.labelText) then Err(InvalidCandidates)
      else Ok(Candidate(c.id, c.labelText,
                        OptionalString(Get(f, NodeType)).value, OptionalString(Get(f, DocumentId)).value,
                        OptionalString(Get(f, ArticleId)).value, OptionalString(Get(f, ClauseId)).value, c.metadata))
  {}

  lemma ReadCandidateIsNormal(raw: Json)
    ensures var r := FromJson(raw); r.Ok? ==> Normal(r.value)
  {
    if raw.JObject? {
      forall key ensures var j := Get(raw.fields, key); j.JString? ==> Strip(Strip(j.s)) == Strip(j.s) {
        var j := Get(raw.fields, key);
        if j.JString? { StripIdempotent(j.s); }
      }
    }
  }

  // -- lists of candidates --------------------------------------------------

  ghost predicate ValidCandidates(cs: seq<Candidate>) {
    |cs| <= MAX_CANDIDATES && NoDup(Ids(cs))
  }

  function Ids(cs: seq<Candidate>): seq<string> {
    seq(|cs|, i requires 0 <= i < |cs| => cs[i].id)
  }

  method ValidateCandidates(cs: seq<Candidate>) returns (r: Result<seq<Candidate>, InvalidCandidates>)
    ensures r == if ValidCandidates(cs) then Ok(cs) else Err(InvalidCandidates)
  {
    if |cs| > MAX_CANDIDATES {
      return Err(InvalidCandidates);
    }
    var seen: set<string> := {};
    for i := 0 to |cs|
      invariant NoDup(Ids(cs)[..i])
      invariant forall id :: id in seen <==> id in Ids(cs)[..i]
    {
      if cs[i].id in seen {
        var j :| 0 <= j < i && Ids(cs)[..i][j] == cs[i].id;
        assert Ids(cs)[j] == Ids(cs)[i];
        return Err(InvalidCandidates);
      }
      seen := seen + {cs[i].id};
      assert Ids(cs)[..i + 1] == Ids(cs)[..i] + [cs[i].id];
    }
    assert Ids(cs)[..|cs|] == Ids(cs);
    r := Ok(cs);
  }

  function ToJsonList(cs: seq<Candidate>): seq<Json> {
    seq(|cs|, i requires 0 <= i < |cs| => ToJson(cs[i]))
  }

  function FromJsonItems(items: seq<Json>): (r: Result<seq<Candidate>, InvalidCandidates>)
    ensures r.Ok? ==> |r.value| == |items| && forall i | 0 <= i < |items| :: FromJson(items[i]) == Ok(r.value[i])
    ensures r.Err? ==> exists i | 0 <= i < |items| :: FromJson(items[i]).Err?
  {
    if items == [] then Ok([])
    else
      match (FromJsonItems(items[..|items| - 1]), FromJson(items[|items| - 1]))
      case (Ok(cs), Ok(c)) => Ok(cs + [c])
      case (Err(e), _) =>
        var i :| 0 <= i < |items| - 1 && FromJson(items[..|items| - 1][i]).Err?;
        assert FromJson(items[i]).Err?;
        Err(InvalidCandidates)
      case _ => Err(InvalidCandidates)
  }

  /** `candidates_from_json`. */
  ghost function FromJsonList(raw: Json): Result<seq<Candidate>, InvalidCandidates> {
    if !raw.JArray? then Err(InvalidCandidates)
    else
      match FromJsonItems(raw.items)
      case Err(e) => Err(e)
      case Ok(cs) => if ValidCandidates(cs) then Ok(cs) else Err(InvalidCandidates)
  }

  /** Anything that was ever read back survives another write and read unchanged. */
  lemma ListRoundTrip(cs: seq<Candidate>)
    requires ValidCandidates(cs)
    requires forall c | c in cs :: Normal(c)
    ensures FromJsonList(JArray(ToJsonList(cs))) == Ok(cs)
  {
    var items := ToJsonList(cs);
    forall i | 0 <= i < |cs| ensures FromJson(items[i]) == Ok(cs[i]) {
      CandidateRoundTrip(cs[i]);
    }
    assert FromJsonItems(items).Ok?;
    assert FromJsonItems(items).value == cs;
  }

  lemma ReadListIsNormal(raw: Json)
    ensures var r := FromJsonList(raw);
            r.Ok? ==> ValidCandidates(r.value) && forall c | c in r.value :: Normal(c)
  {
    var r := FromJsonList(raw);
    if r.Ok? {
      forall c | c in r.value ensures Normal(c) {
        var i :| 0 <= i < |r.value| && r.value[i] == c;
        ReadCandidateIsNormal(raw.items[i]);
      }
    }
  }

  // -- resolved units ---------------------------------------------------------

  datatype UnitType = Document | Article | Clause | Point {
    function Value(): string {
      match this
      case Document => "Document"
      case Article => "Article"
      case Clause => "Clause"
      case Point => "Point"
    }
  }

  /** `ExpectedUnitType(value)`; an unknown value raises. */
  function ParseUnitType(value: string): Option<UnitType> {
    if value == "Document" then Some(Document)
    else if value == "Article" then Some(Article)
    else if value == "Clause" then Some(Clause)
    else if value == "Point" then Some(Point)
    else None
  }

  datatype ResolutionMethod = ExactStructuralLookup | GroundedHistoryFocus {
    function Value(): string {
      match this
      case ExactStructuralLookup => "EXACT_STRUCTURAL_LOOKUP"
      case GroundedHistoryFocus => "GROUNDED_HISTORY_FOCUS"
    }
  }

  function ParseMethod(value: string): Option<ResolutionMethod> {
    if value == "EXACT_STRUCTURAL_LOOKUP" then Some(ExactStructuralLookup)
    else if value == "GROUNDED_HISTORY_FOCUS" then Some(GroundedHistoryFocus)
    else None
  }

  datatype ReferenceSource = CurrentMessage | GroundedHistory | PendingClarification {
    function Value(): string {
      match this
      case CurrentMessage => "CURRENT_MESSAGE"
      case GroundedHistory => "GROUNDED_HISTORY"
      case PendingClarification => "PENDING_CLARIFICATION"
    }
  }

  datatype RelationGoal = RefersTo | Defines | Regulates | Guides {
    function Value(): string {
      match this
      case RefersTo => "REFERS_TO"
      case Defines => "DEFINES"
      case Regulates => "REGULATES"
      case Guides => "GUIDES"
    }
  }

  function ParseGoal(value: string): Option<RelationGoal> {
    if value == "REFERS_TO" then Some(RefersTo)
    else if value == "DEFINES" then Some(Defines)
    else if value == "REGULATES" then Some(Regulates)
    else if value == "GUIDES" then Some(Guides)
    else None
  }

  lemma EnumValuesParse(t: UnitType, m: ResolutionMethod, g: RelationGoal)
    ensures ParseUnitType(t.Value()) == Some(t) && t.Value() != "" && Strip(t.Value()) == t.Value()
    ensures ParseMethod(m.Value()) == Some(m)
    ensures ParseGoal(g.Value()) == Some(g) && g.Value() != ""
  {
    assert "Clause"[0] != "Point"[0];
    assert "GUIDES"[0] != "REGULATES"[0] && "DEFINES"[0] != "GUIDES"[0];
    var v := t.Value();
    assert !IsSpace(v[0]) && !IsSpace(v[|v| - 1]);
  }

  datatype Resolved = Resolved(
    nodeId: string,
    nodeType: UnitType,
    labelText: string,
    documentId: string,
    documentNumber: Option<string>,
    articleId: Option<string>,
    articleNumber: Option<string>,
    clauseId: Option<string>,
    clauseNumber: Option<string>,
    pointId: Option<string>,
    pointLabel: Option<string>,
    documentMetadata: Fields)

  function JsonOpt(j: Json): Option<string> {
    if j.JString? then Some(j.s) else None
  }

  function ToCandidate(r: Resolved, m: ResolutionMethod, source: ReferenceSource, message: string,
                       goal: Option<RelationGoal>): Candidate
  {
    Candidate(r.nodeId, r.labelText, Some(r.nodeType.Value()), Some(r.documentId), r.articleId, r.clauseId,
      map[
        DocumentNumber := OptJson(r.documentNumber),
        ArticleNumber := OptJson(r.articleNumber),
        ClauseNumber := OptJson(r.clauseNumber),
        PointId := OptJson(r.pointId),
        PointLabel := OptJson(r.pointLabel),
        DocumentMetadata := JObject(r.documentMetadata),
        Method := JString(m.Value()),
        Source := JString(source.Value()),
        SourceMessage := JString(message),
        Goal := if goal.Some? then JString(goal.value.Value()) else JNull
      ])
  }

  /** `from_clarification_candidate`; `None` where the enum conversion raises. */
  function FromCandidate(c: Candidate): Option<Resolved> {
    var nodeType := match c.nodeType
                    case None => Some(Document)
                    case Some(t) => if t == "" then Some(Document) else ParseUnitType(t);
    if nodeType.None? then None
    else
      var documentMetadata := Get(c.metadata, DocumentMetadata);
      Some(Resolved(
        c.id, nodeType.value, c.labelText,
        if c.documentId.Some? then c.documentId.value else "",
        JsonOpt(Get(c.metadata, DocumentNumber)),
        c.articleId, JsonOpt(Get(c.metadata, ArticleNumber)),
        c.clauseId, JsonOpt(Get(c.metadata, ClauseNumber)),
        JsonOpt(Get(c.metadata, PointId)), JsonOpt(Get(c.metadata, PointLabel)),
        if documentMetadata.JObject? then documentMetadata.fields else map[]))
  }

  /** The canonical lookup and the citation contract give visible ids and labels and untrimmed-free fields. */
  predicate Canonical(r: Resolved) {
    && !IsBlank(r.nodeId) && !IsBlank(r.labelText)
    && r.documentId != "" && Strip(r.documentId) == r.documentId
    && Trimmed(r.articleId) && Trimmed(r.clauseId)
  }

  // -- matching a reply -------------------------------------------------------

  predicate IsReplyPunctuation(c: char) {
    c in {' ', '\t', '\r', '\n', '!', '?', '.', ','}
  }

  /** `_normalize`. */
  function Normalize(unicode: Unicode, text: string): string {
    StripOf(Collapse(unicode.casefold(text)), IsReplyPunctuation)
  }

  const CANCEL_PHRASES: set<string> := {"hủy", "huỷ", "bỏ qua", "hủy bỏ", "huỷ bỏ", "thôi"}

  predicate IsCancel(unicode: Unicode, message: string) {
    Normalize(unicode, message) in CANCEL_PHRASES
  }

  /** A reply picks a candidate or none; a digit string that is no number raises. */
  datatype Matched = Picked(c: Candidate) | Unmatched | NotANumber

  /** `match_select`: by ordinal when the reply is a digit string, otherwise by the first equal label. */
  method MatchSelect(unicode: Unicode, candidates: seq<Candidate>, message: string) returns (r: Matched)
    ensures r == Match(unicode, candidates, message)
  {
    var normalized := Normalize(unicode, message);
    if IsDigitString(unicode, normalized) {
      var parsed := ParseInt(unicode, normalized);
      if parsed.None? {
        return NotANumber;
      }
      var index := parsed.value;
      if 1 <= index <= |candidates| {
        return Picked(candidates[index - 1]);
      }
      return Unmatched;
    }
    for i := 0 to |candidates|
      invariant FirstLabelled(unicode, candidates, normalized)
             == FirstLabelled(unicode, candidates[i..], normalized)
    {
      if Normalize(unicode, candidates[i].labelText) == normalized {
        return Picked(candidates[i]);
      }
    }
    r := Unmatched;
  }

  function FirstLabelled(unicode: Unicode, candidates: seq<Candidate>, normalized: string): Option<Candidate> {
    if candidates == [] then None
    else if Normalize(unicode, candidates[0].labelText) == normalized then Some(candidates[0])
    else FirstLabelled(unicode, candidates[1..], normalized)
  }

  function Match(unicode: Unicode, candidates: seq<Candidate>, message: string): Matched {
    var normalized := Normalize(unicode, message);
    if IsDigitString(unicode, normalized) then
      match ParseInt(unicode, normalized)
      case None => NotANumber
      case Some(index) => if 1 <= index <= |candidates| then Picked(candidates[index - 1]) else Unmatched
    else
      match FirstLabelled(unicode, candidates, normalized)
      case Some(c) => Picked(c)
      case None => Unmatched
  }

  /** A reply that is the numeral of `i` picks the i-th candidate, whatever the labels are. */
  lemma OrdinalReplyPicks(unicode: Unicode, candidates: seq<Candidate>, message: string, i: nat)
    requires 1 <= i <= |candidates| && Normalize(unicode, message) == Numeral(i)
    ensures Match(unicode, candidates, message) == Picked(candidates[i - 1])
  {
    NumeralRoundTrip(i);
    ParseIntOfAscii(unicode, Numeral(i));
  }

  /** Matching raises exactly on a digit string with a character, such as a superscript, that has no decimal value. */
  lemma MatchRaisesExactly(unicode: Unicode, candidates: seq<Candidate>, message: string)
    ensures var normalized := Normalize(unicode, message);
      Match(unicode, candidates, message) == NotANumber
      <==> IsDigitString(unicode, normalized)
           && exists i | 0 <= i < |normalized| :: DecimalValue(unicode, normalized[i]).None?
  {
    ParseIntFails(unicode, Normalize(unicode, message));
  }

  const SuperscriptTwo := "\U{00B2}"

  /** What the Unicode database says of a superscript two: it folds to itself and is a digit, but no decimal one. */
  predicate KnowsSuperscript(unicode: Unicode) {
    && unicode.casefold(SuperscriptTwo) == SuperscriptTwo
    && unicode.digit('\U{00B2}') && unicode.decimal('\U{00B2}').None?
  }

  /** Such a reply does raise, whatever was offered, and it is no cancel. */
  lemma SuperscriptRaises(unicode: Unicode, candidates: seq<Candidate>)
    requires KnowsSuperscript(unicode)
    ensures Match(unicode, candidates, SuperscriptTwo) == NotANumber && !IsCancel(unicode, SuperscriptTwo)
  {
    assert Collapse(SuperscriptTwo) == SuperscriptTwo;
    assert Normalize(unicode, SuperscriptTwo) == SuperscriptTwo;
    assert DecimalValue(unicode, SuperscriptTwo[0]).None?;
    MatchRaisesExactly(unicode, candidates, SuperscriptTwo);
  }

  /** A match is always one of the stored candidates. */
  lemma {:induction false} MatchIsOffered(unicode: Unicode, candidates: seq<Candidate>, message: string)
    ensures var r := Match(unicode, candidates, message); r.Picked? ==> r.c in candidates
  {
    var normalized := Normalize(unicode, message);
    if !IsDigitString(unicode, normalized) { FirstLabelledIsMember(unicode, candidates, normalized); }
  }

  /** What a reply that is no digit string picks: the first candidate whose label reads the same, if there is one. */
  lemma LabelReplyPicks(unicode: Unicode, candidates: seq<Candidate>, message: string)
    requires !IsDigitString(unicode, Normalize(unicode, message))
    ensures Match(unicode, candidates, message) == Unmatched
            <==> forall c | c in candidates :: Normalize(unicode, c.labelText) != Normalize(unicode, message)
    ensures forall i | 0 <= i < |candidates| ::
              Normalize(unicode, candidates[i].labelText) == Normalize(unicode, message)
              && (forall j | 0 <= j < i :: Normalize(unicode, candidates[j].labelText) != Normalize(unicode, message))
              ==> Match(unicode, candidates, message) == Picked(candidates[i])
  {
    var normalized := Normalize(unicode, message);
    FirstLabelledIsMember(unicode, candidates, normalized);
    forall i | 0 <= i < |candidates| && Normalize(unicode, candidates[i].labelText) == normalized
               && forall j | 0 <= j < i :: Normalize(unicode, candidates[j].labelText) != normalized
      ensures FirstLabelled(unicode, candidates, normalized) == Some(candidates[i])
    {
      FirstLabelledIs(unicode, candidates, normalized, i);
    }
  }

  lemma {:induction false} FirstLabelledIs(unicode: Unicode, candidates: seq<Candidate>, normalized: string, i: nat)
    requires i < |candidates| && Normalize(unicode, candidates[i].labelText) == normalized
    requires forall j | 0 <= j < i :: Normalize(unicode, candidates[j].labelText) != normalized
    ensures FirstLabelled(unicode, candidates, normalized) == Some(candidates[i])
  {
    if i > 0 { FirstLabelledIs(unicode, candidates[1..], normalized, i - 1); }
  }

  /** A number that no candidate has picks nothing. */
  lemma NumberOutOfRange(unicode: Unicode, candidates: seq<Candidate>, message: string, i: nat)
    requires Normalize(unicode, message) == Numeral(i) && !(1 <= i <= |candidates|)
    ensures Match(unicode, candidates, message) == Unmatched
  {
    NumeralRoundTrip(i);
    ParseIntOfAscii(unicode, Numeral(i));
  }

  lemma {:induction false} FirstLabelledIsMember(unicode: Unicode, candidates: seq<Candidate>, normalized: string)
    ensures var r := FirstLabelled(unicode, candidates, normalized);
            && (r.Some? ==> r.value in candidates && Normalize(unicode, r.value.labelText) == normalized)
            && (r.None? ==> forall c | c in candidates :: Normalize(unicode, c.labelText) != normalized)
  {
    if candidates != [] { FirstLabelledIsMember(unicode, candidates[1..], normalized); }
  }

  // -- questions ----------------------------------------------------------------

  function Listing(candidates: seq<Candidate>, from: nat): string {
    if candidates == [] then ""
    else
      var line := Numeral(from) + ". " + candidates[0].labelText;
      if |candidates| == 1 then line else line + " " + Listing(candidates[1..], from + 1)
  }

  function SelectQuestion(candidates: seq<Candidate>): string {
    "Ý bạn là văn bản nào? " + Listing(candidates, 1)
    + " Vui lòng trả lời bằng số thứ tự hoặc tên, hoặc gõ 'hủy' để bỏ qua."
  }

  function RestateQuestion(expected: Option<UnitType>): string {
    var noun := match expected
                case None => "nội dung"
                case Some(Document) => "văn bản"
                case Some(Article) => "điều"
                case Some(Clause) => "khoản"
                case Some(Point) => "điểm";
    "Tôi chưa xác định được " + noun + " bạn đang nhắc đến. Bạn vui lòng nêu rõ hơn hoặc đặt lại câu hỏi đầy đủ."
  }
}
