/** The answer candidate and its deterministic Markdown (generation/models.py, generation/renderer.py). */
module Rendering {
  import opened Prelude
  import opened Text

  type Id = string

  datatype Citation = Citation(id: Id, quote: string)

  datatype Statement = Statement(text: string, citations: seq<Citation>, pathIds: seq<Id>, assertionIds: seq<Id>)

  datatype Paragraph = Paragraph(statements: seq<Statement>)

  datatype AnswerSection = AnswerSection(heading: string, paragraphs: seq<Paragraph>)

  datatype Assertion = Assertion(id: Id, subject: Id, date: int, valid: bool)

  datatype Candidate = Candidate(
    direct: Option<seq<Paragraph>>,
    sections: seq<AnswerSection>,
    caveats: seq<Paragraph>,
    assertions: seq<Assertion>,
    cannotAnswer: bool,
    reason: Option<string>)

  // -- statements in order ---------------------------------------------------------

  function OfParagraphs(ps: seq<Paragraph>): seq<Statement> {
    if ps == [] then [] else OfParagraphs(ps[..|ps| - 1]) + ps[|ps| - 1].statements
  }

  function OfSections(ss: seq<AnswerSection>): seq<Statement> {
    if ss == [] then [] else OfSections(ss[..|ss| - 1]) + OfParagraphs(ss[|ss| - 1].paragraphs)
  }

  function DirectParagraphs(c: Candidate): seq<Paragraph> { if c.direct.Some? then c.direct.value else [] }

  function Statements(c: Candidate): seq<Statement> {
    OfParagraphs(DirectParagraphs(c)) + OfSections(c.sections) + OfParagraphs(c.caveats)
  }

  function IdsOf(cs: seq<Citation>): seq<Id> { seq(|cs|, i requires 0 <= i < |cs| => cs[i].id) }

  /** All cited ids in statement order, with repetitions. */
  function CitedIds(ss: seq<Statement>): seq<Id> {
    if ss == [] then [] else CitedIds(ss[..|ss| - 1]) + IdsOf(ss[|ss| - 1].citations)
  }

  // -- rendering -------------------------------------------------------------------------

  /** The Markdown characters the renderer puts a backslash before. */
  predicate IsSpecial(c: char) {
    || c == '\\' || c == '`' || c == '*' || c == '_' || c == '<' || c == '>'
    || c == '{' || c == '}' || c == '[' || c == ']' || c == '#'
  }

  function Escape(s: string): string {
    if s == "" then "" else (if IsSpecial(s[0]) then ['\\', s[0]] else [s[0]]) + Escape(s[1..])
  }

  predicate AllNumbered(ids: seq<Id>, ordinals: map<Id, nat>) {
    forall i | 0 <= i < |ids| :: ids[i] in ordinals
  }

  function Ordinals(ids: seq<Id>, ordinals: map<Id, nat>): seq<nat>
    requires AllNumbered(ids, ordinals)
  {
    seq(|ids|, i requires 0 <= i < |ids| => ordinals[ids[i]])
  }

  function Brackets(ks: seq<nat>): string {
    if ks == [] then "" else "[" + Numeral(ks[0]) + "]" + Brackets(ks[1..])
  }

  function StatementText(s: Statement, ordinals: map<Id, nat>): string
    requires AllNumbered(IdsOf(s.citations), ordinals)
  {
    Escape(Strip(s.text)) + " " + Brackets(Ordinals(IdsOf(s.citations), ordinals))
  }

  predicate StatementsNumbered(ss: seq<Statement>, ordinals: map<Id, nat>) {
    forall i | 0 <= i < |ss| :: AllNumbered(IdsOf(ss[i].citations), ordinals)
  }

  function StatementTexts(ss: seq<Statement>, ordinals: map<Id, nat>): seq<string>
    requires StatementsNumbered(ss, ordinals)
  {
    seq(|ss|, i requires 0 <= i < |ss| => StatementText(ss[i], ordinals))
  }

  function ParagraphText(p: Paragraph, ordinals: map<Id, nat>): string
    requires StatementsNumbered(p.statements, ordinals)
  {
    Join(StatementTexts(p.statements, ordinals), " ")
  }

  predicate ParagraphsNumbered(ps: seq<Paragraph>, ordinals: map<Id, nat>) {
    forall i | 0 <= i < |ps| :: StatementsNumbered(ps[i].statements, ordinals)
  }

  predicate SectionsNumbered(ss: seq<AnswerSection>, ordinals: map<Id, nat>) {
    forall i | 0 <= i < |ss| :: ParagraphsNumbered(ss[i].paragraphs, ordinals)
  }

  predicate Numbered(c: Candidate, ordinals: map<Id, nat>) {
    && ParagraphsNumbered(DirectParagraphs(c), ordinals) && SectionsNumbered(c.sections, ordinals)
    && ParagraphsNumbered(c.caveats, ordinals)
  }

  function ParagraphBlocks(ps: seq<Paragraph>, ordinals: map<Id, nat>): seq<string>
    requires ParagraphsNumbered(ps, ordinals)
  {
    seq(|ps|, i requires 0 <= i < |ps| => ParagraphText(ps[i], ordinals))
  }

  function Heading(s: AnswerSection): string { "## " + Escape(Strip(s.heading)) }

  function SectionBlocks(ss: seq<AnswerSection>, ordinals: map<Id, nat>): seq<string>
    requires SectionsNumbered(ss, ordinals)
  {
    if ss == [] then []
    else
      var last := ss[|ss| - 1];
      SectionBlocks(ss[..|ss| - 1], ordinals) + [Heading(last)] + ParagraphBlocks(last.paragraphs, ordinals)
  }

  const CaveatHeading := "## Lưu ý"

  function CaveatBlocks(c: Candidate, ordinals: map<Id, nat>): seq<string>
    requires ParagraphsNumbered(c.caveats, ordinals)
  {
    if c.caveats == [] then [] else [CaveatHeading] + ParagraphBlocks(c.caveats, ordinals)
  }

  function Blocks(c: Candidate, ordinals: map<Id, nat>): seq<string>
    requires Numbered(c, ordinals)
  {
    ParagraphBlocks(DirectParagraphs(c), ordinals) + SectionBlocks(c.sections, ordinals) + CaveatBlocks(c, ordinals)
  }

  function AnswerText(c: Candidate, ordinals: map<Id, nat>): string
    requires Numbered(c, ordinals)
  {
    Join(Blocks(c, ordinals), "\n\n")
  }

  method Render(c: Candidate, ordinals: map<Id, nat>) returns (text: string)
    requires Numbered(c, ordinals)
    ensures text == AnswerText(c, ordinals)
  {
    var blocks: seq<string> := [];
    if c.direct.Some? {
      blocks := ParagraphBlocks(c.direct.value, ordinals);
    }
    var sections := RenderSections(c.sections, ordinals);
    blocks := blocks + sections;
    var caveats := RenderCaveats(c, ordinals);
    blocks := blocks + caveats;
    text := Join(blocks, "\n\n");
  }

  method RenderCaveats(c: Candidate, ordinals: map<Id, nat>) returns (blocks: seq<string>)
    requires ParagraphsNumbered(c.caveats, ordinals)
    ensures blocks == CaveatBlocks(c, ordinals)
  {
    blocks := [];
    if c.caveats != [] {
      blocks := blocks + [CaveatHeading];
      blocks := blocks + ParagraphBlocks(c.caveats, ordinals);
    }
  }

  method RenderSections(ss: seq<AnswerSection>, ordinals: map<Id, nat>) returns (blocks: seq<string>)
    requires SectionsNumbered(ss, ordinals)
    ensures blocks == SectionBlocks(ss, ordinals)
  {
    blocks := [];
    for i := 0 to |ss|
      invariant blocks == SectionBlocks(ss[..i], ordinals)
    {
      assert ss[..i + 1][..i] == ss[..i];
      blocks := blocks + [Heading(ss[i])];
      blocks := blocks + ParagraphBlocks(ss[i].paragraphs, ordinals);
    }
    assert ss[..|ss|] == ss;
  }

  // -- reading the citations back -----------------------------------------------------------

  function DigitsIn(s: string): nat {
    if s != "" && IsDigit(s[0]) then 1 + DigitsIn(s[1..]) else 0
  }

  lemma {:induction false} DigitsInBound(s: string)
    ensures DigitsIn(s) <= |s| && AllDigits(s[..DigitsIn(s)])
    ensures DigitsIn(s) < |s| ==> !IsDigit(s[DigitsIn(s)])
  {
    if s != "" && IsDigit(s[0]) {
      DigitsInBound(s[1..]);
      var n := DigitsIn(s[1..]);
      assert s[..n + 1] == [s[0]] + s[1..][..n];
    }
  }

  /** The numbers in the bracket groups of a text, a character after a backslash being no bracket. */
  function Scan(s: string): seq<nat>
    decreases |s|
  {
    if s == "" then []
    else if s[0] == '\\' then (if |s| == 1 then [] else Scan(s[2..]))
    else if s[0] == '[' then
      DigitsInBound(s[1..]);
      var n := DigitsIn(s[1..]);
      if n > 0 && n + 1 < |s| && s[n + 1] == ']' then [ParseNumeral(s[1..][..n])] + Scan(s[n + 2..]) else Scan(s[1..])
    else Scan(s[1..])
  }

  /** Escaped text hides every bracket in it, whatever comes next. */
  lemma {:induction false} ScanEscaped(s: string, rest: string)
    ensures Scan(Escape(s) + rest) == Scan(rest)
  {
    if s == "" {
      assert Escape(s) + rest == rest;
    } else {
      ScanEscaped(s[1..], rest);
      var head := if IsSpecial(s[0]) then ['\\', s[0]] else [s[0]];
      var tail := Escape(s[1..]) + rest;
      assert Escape(s) + rest == head + tail;
      assert (head + tail)[|head|..] == tail;
    }
  }

  predicate Plain(s: string) { forall i | 0 <= i < |s| :: s[i] != '\\' && s[i] != '[' }

  lemma {:induction false} ScanPlain(s: string, rest: string)
    requires Plain(s)
    ensures Scan(s + rest) == Scan(rest)
  {
    if s == "" {
      assert s + rest == rest;
    } else {
      assert (s + rest)[1..] == s[1..] + rest;
      ScanPlain(s[1..], rest);
    }
  }

  lemma {:induction false} DigitsOf(d: string, rest: string)
    requires AllDigits(d) && (rest == "" || !IsDigit(rest[0]))
    ensures DigitsIn(d + rest) == |d|
  {
    if d == "" {
      assert d + rest == rest;
    } else {
      assert (d + rest)[1..] == d[1..] + rest;
      DigitsOf(d[1..], rest);
    }
  }

  lemma ScanBracket(k: nat, rest: string)
    ensures Scan("[" + Numeral(k) + "]" + rest) == [k] + Scan(rest)
  {
    var d := Numeral(k);
    var s := "[" + d + "]" + rest;
    assert s[1..] == d + ("]" + rest);
    DigitsOf(d, "]" + rest);
    DigitsInBound(s[1..]);
    assert s[1..][..|d|] == d && s[|d| + 2..] == rest && s[|d| + 1] == ']';
    NumeralRoundTrip(k);
  }

  lemma HeadAndTail(ks: seq<nat>, others: seq<nat>)
    requires ks != []
    ensures [ks[0]] + (ks[1..] + others) == ks + others
  {}

  lemma BracketsStep(ks: seq<nat>, rest: string)
    requires ks != []
    ensures Brackets(ks) + rest == "[" + Numeral(ks[0]) + "]" + (Brackets(ks[1..]) + rest)
  {}

  lemma {:induction false} ScanBrackets(ks: seq<nat>, rest: string)
    ensures Scan(Brackets(ks) + rest) == ks + Scan(rest)
  {
    if ks == [] {
      assert Brackets(ks) + rest == rest;
    } else {
      ScanBrackets(ks[1..], rest);
      var tail := Brackets(ks[1..]) + rest;
      ScanBracket(ks[0], tail);
      BracketsStep(ks, rest);
      HeadAndTail(ks, Scan(rest));
    }
  }

  lemma ScanStatement(s: Statement, ordinals: map<Id, nat>, rest: string)
    requires AllNumbered(IdsOf(s.citations), ordinals)
    ensures Scan(StatementText(s, ordinals) + rest) == Ordinals(IdsOf(s.citations), ordinals) + Scan(rest)
  {
    var ks := Ordinals(IdsOf(s.citations), ordinals);
    var text := Escape(Strip(s.text));
    ScanEscaped(Strip(s.text), " " + (Brackets(ks) + rest));
    ScanPlain(" ", Brackets(ks) + rest);
    ScanBrackets(ks, rest);
    assert StatementText(s, ordinals) + rest == text + (" " + (Brackets(ks) + rest));
  }

  /** Reading `parts` in order gives `tags` in order. */
  ghost predicate Reads(part: string, tags: seq<nat>) {
    forall rest :: Scan(part + rest) == tags + Scan(rest)
  }

  lemma ReadsStatement(s: Statement, ordinals: map<Id, nat>)
    requires AllNumbered(IdsOf(s.citations), ordinals)
    ensures Reads(StatementText(s, ordinals), Ordinals(IdsOf(s.citations), ordinals))
  {
    forall rest ensures Scan(StatementText(s, ordinals) + rest) == Ordinals(IdsOf(s.citations), ordinals) + Scan(rest) {
      ScanStatement(s, ordinals, rest);
    }
  }

  lemma ReadsJoin(a: string, b: string, s: seq<nat>, t: seq<nat>)
    requires Reads(a, s) && Reads(b, t)
    ensures Reads(a + b, s + t)
  {
    forall rest ensures Scan(a + b + rest) == s + t + Scan(rest) {
      assert a + b + rest == a + (b + rest);
      assert Scan(a + (b + rest)) == s + Scan(b + rest);
      assert s + (t + Scan(rest)) == s + t + Scan(rest);
    }
  }

  lemma ReadsPlain(s: string)
    requires Plain(s)
    ensures Reads(s, [])
  {
    forall rest ensures Scan(s + rest) == [] + Scan(rest) { ScanPlain(s, rest); }
  }

  function Flatten(tags: seq<seq<nat>>): seq<nat> {
    if tags == [] then [] else tags[0] + Flatten(tags[1..])
  }

  ghost predicate AllRead(parts: seq<string>, tags: seq<seq<nat>>) {
    |parts| == |tags| && forall i | 0 <= i < |parts| :: Reads(parts[i], tags[i])
  }

  lemma {:induction false} ReadsJoined(parts: seq<string>, tags: seq<seq<nat>>, glue: string)
    requires AllRead(parts, tags) && Plain(glue)
    ensures Reads(Join(parts, glue), Flatten(tags))
  {
    if parts == [] {
      ReadsPlain("");
    } else {
      forall i | 0 <= i < |parts| - 1
        ensures Reads(parts[1..][i], tags[1..][i]) { assert Reads(parts[i + 1], tags[i + 1]); }
      ReadsJoined(parts[1..], tags[1..], glue);
      assert Reads(parts[0], tags[0]);
      if |parts| == 1 {
        assert tags[1..] == [] && tags[0] + [] == tags[0];
      } else {
        ReadsPlain(glue);
        ReadsJoin(glue, Join(parts[1..], glue), [], Flatten(tags[1..]));
        ReadsJoin(parts[0], glue + Join(parts[1..], glue), tags[0], [] + Flatten(tags[1..]));
        assert parts[0] + glue + Join(parts[1..], glue) == parts[0] + (glue + Join(parts[1..], glue));
        assert [] + Flatten(tags[1..]) == Flatten(tags[1..]);
      }
    }
  }

  /** The ordinals of all citations of the statements, in order. */
  function OrdinalList(ss: seq<Statement>, ordinals: map<Id, nat>): seq<nat>
    requires StatementsNumbered(ss, ordinals)
  {
    if ss == [] then [] else Ordinals(IdsOf(ss[0].citations), ordinals) + OrdinalList(ss[1..], ordinals)
  }

  lemma {:induction false} OrdinalListJoin(a: seq<Statement>, b: seq<Statement>, ordinals: map<Id, nat>)
    requires StatementsNumbered(a, ordinals) && StatementsNumbered(b, ordinals)
    ensures StatementsNumbered(a + b, ordinals)
    ensures OrdinalList(a + b, ordinals) == OrdinalList(a, ordinals) + OrdinalList(b, ordinals)
  {
    if a == [] {
      assert a + b == b;
    } else {
      assert (a + b)[1..] == a[1..] + b;
      OrdinalListJoin(a[1..], b, ordinals);
    }
  }

  function StatementTags(ss: seq<Statement>, ordinals: map<Id, nat>): seq<seq<nat>>
    requires StatementsNumbered(ss, ordinals)
  {
    seq(|ss|, i requires 0 <= i < |ss| => Ordinals(IdsOf(ss[i].citations), ordinals))
  }

  lemma {:induction false} StatementTagsFlat(ss: seq<Statement>, ordinals: map<Id, nat>)
    requires StatementsNumbered(ss, ordinals)
    ensures Flatten(StatementTags(ss, ordinals)) == OrdinalList(ss, ordinals)
  {
    if ss != [] {
      StatementTagsFlat(ss[1..], ordinals);
      assert StatementTags(ss, ordinals)[1..] == StatementTags(ss[1..], ordinals);
    }
  }

  lemma ReadsParagraph(p: Paragraph, ordinals: map<Id, nat>)
    requires StatementsNumbered(p.statements, ordinals)
    ensures Reads(ParagraphText(p, ordinals), OrdinalList(p.statements, ordinals))
  {
    var ss := p.statements;
    forall i | 0 <= i < |ss| ensures Reads(StatementTexts(ss, ordinals)[i], StatementTags(ss, ordinals)[i]) {
      ReadsStatement(ss[i], ordinals);
    }
    ReadsJoined(StatementTexts(ss, ordinals), StatementTags(ss, ordinals), " ");
    StatementTagsFlat(ss, ordinals);
  }

  lemma {:induction false} FlattenJoin(a: seq<seq<nat>>, b: seq<seq<nat>>)
    ensures Flatten(a + b) == Flatten(a) + Flatten(b)
  {
    if a == [] {
      assert a + b == b;
    } else {
      assert (a + b)[1..] == a[1..] + b;
      FlattenJoin(a[1..], b);
    }
  }

  lemma AllReadJoin(a: seq<string>, b: seq<string>, s: seq<seq<nat>>, t: seq<seq<nat>>)
    requires AllRead(a, s) && AllRead(b, t)
    ensures AllRead(a + b, s + t)
  {}

  /** The blocks of paragraphs read as the ordinals of their statements. */
  lemma {:induction false} ParagraphBlocksRead(ps: seq<Paragraph>, ordinals: map<Id, nat>) returns (tags: seq<seq<nat>>)
    requires ParagraphsNumbered(ps, ordinals)
    ensures StatementsNumbered(OfParagraphs(ps), ordinals)
    ensures AllRead(ParagraphBlocks(ps, ordinals), tags) && Flatten(tags) == OrdinalList(OfParagraphs(ps), ordinals)
  {
    tags := [];
    if ps != [] {
      var init, last := ps[..|ps| - 1], ps[|ps| - 1];
      var before := ParagraphBlocksRead(init, ordinals);
      OrdinalListJoin(OfParagraphs(init), last.statements, ordinals);
      LastBlockRead(ps, ordinals, before);
      tags := before + [OrdinalList(last.statements, ordinals)];
      LastTag(before, OrdinalList(last.statements, ordinals));
    }
  }

  lemma LastBlockRead(ps: seq<Paragraph>, ordinals: map<Id, nat>, before: seq<seq<nat>>)
    requires ps != [] && ParagraphsNumbered(ps, ordinals)
    requires AllRead(ParagraphBlocks(ps[..|ps| - 1], ordinals), before)
    ensures AllRead(ParagraphBlocks(ps, ordinals), before + [OrdinalList(ps[|ps| - 1].statements, ordinals)])
  {
    var init, last := ps[..|ps| - 1], ps[|ps| - 1];
    ReadsParagraph(last, ordinals);
    var block := [ParagraphText(last, ordinals)];
    AllReadJoin(ParagraphBlocks(init, ordinals), block, before, [OrdinalList(last.statements, ordinals)]);
    assert ParagraphBlocks(ps, ordinals) == ParagraphBlocks(init, ordinals) + block;
  }

  lemma LastTag(before: seq<seq<nat>>, tag: seq<nat>)
    ensures Flatten(before + [tag]) == Flatten(before) + tag
  {
    OneTag(tag);
    FlattenJoin(before, [tag]);
  }

  lemma OneTag(tag: seq<nat>)
    ensures Flatten([tag]) == tag
  {
    assert [tag][1..] == [] && tag + [] == tag;
  }

  lemma HeadingReads(s: AnswerSection)
    ensures Reads(Heading(s), [])
  {
    var h := Escape(Strip(s.heading));
    forall rest ensures Scan(Heading(s) + rest) == [] + Scan(rest) {
      assert Heading(s) + rest == "## " + (h + rest);
      ScanPlain("## ", h + rest);
      ScanEscaped(Strip(s.heading), rest);
    }
  }

  lemma {:induction false} SectionBlocksRead(
      ss: seq<AnswerSection>, ordinals: map<Id, nat>) returns (tags: seq<seq<nat>>)
    requires SectionsNumbered(ss, ordinals)
    ensures StatementsNumbered(OfSections(ss), ordinals)
    ensures AllRead(SectionBlocks(ss, ordinals), tags) && Flatten(tags) == OrdinalList(OfSections(ss), ordinals)
  {
    tags := [];
    if ss != [] {
      var init, last := ss[..|ss| - 1], ss[|ss| - 1];
      var before := SectionBlocksRead(init, ordinals);
      var own := ParagraphBlocksRead(last.paragraphs, ordinals);
      SectionReads(last, ordinals, own);
      AllReadJoin(SectionBlocks(init, ordinals), [Heading(last)] + ParagraphBlocks(last.paragraphs, ordinals),
                  before, [[]] + own);
      SectionBlocksStep(ss, ordinals);
      tags := before + ([[]] + own);
      FlattenJoin(before, [[]] + own);
      OrdinalListJoin(OfSections(init), OfParagraphs(last.paragraphs), ordinals);
    }
  }

  lemma SectionBlocksStep(ss: seq<AnswerSection>, ordinals: map<Id, nat>)
    requires ss != [] && SectionsNumbered(ss, ordinals)
    ensures var init, last := ss[..|ss| - 1], ss[|ss| - 1];
      SectionBlocks(ss, ordinals)
      == SectionBlocks(init, ordinals) + ([Heading(last)] + ParagraphBlocks(last.paragraphs, ordinals))
  {}

  lemma SectionReads(s: AnswerSection, ordinals: map<Id, nat>, own: seq<seq<nat>>)
    requires ParagraphsNumbered(s.paragraphs, ordinals) && AllRead(ParagraphBlocks(s.paragraphs, ordinals), own)
    ensures AllRead([Heading(s)] + ParagraphBlocks(s.paragraphs, ordinals), [[]] + own)
    ensures Flatten([[]] + own) == Flatten(own)
  {
    HeadingReads(s);
    AllReadJoin([Heading(s)], ParagraphBlocks(s.paragraphs, ordinals), [[]], own);
    FlattenJoin([[]], own);
    OneTag([]);
  }

  lemma CaveatBlocksRead(c: Candidate, ordinals: map<Id, nat>) returns (tags: seq<seq<nat>>)
    requires ParagraphsNumbered(c.caveats, ordinals)
    ensures StatementsNumbered(OfParagraphs(c.caveats), ordinals)
    ensures AllRead(CaveatBlocks(c, ordinals), tags) && Flatten(tags) == OrdinalList(OfParagraphs(c.caveats), ordinals)
  {
    var own := ParagraphBlocksRead(c.caveats, ordinals);
    if c.caveats == [] {
      tags := [];
    } else {
      ReadsPlain(CaveatHeading);
      tags := [[]] + own;
      AllReadJoin([CaveatHeading], ParagraphBlocks(c.caveats, ordinals), [[]], own);
      OneTag([]);
      FlattenJoin([[]], own);
    }
  }

  lemma {:induction false} OrdinalsOfCited(ss: seq<Statement>, ordinals: map<Id, nat>)
    requires StatementsNumbered(ss, ordinals)
    ensures AllNumbered(CitedIds(ss), ordinals) && Ordinals(CitedIds(ss), ordinals) == OrdinalList(ss, ordinals)
  {
    if ss != [] {
      var init, last := ss[..|ss| - 1], ss[|ss| - 1];
      OrdinalsOfCited(init, ordinals);
      OrdinalListJoin(init, [last], ordinals);
      assert ss == init + [last];
      assert [last][1..] == [] && OrdinalList([last], ordinals) == Ordinals(IdsOf(last.citations), ordinals) + [];
    }
  }

  /**
    Reading the unescaped bracket groups of a rendered answer gives, statement by statement, the ordinals of its
    citations and nothing else, whatever text the statements and headings contain.
   */
  lemma AnswerReadsBack(c: Candidate, ordinals: map<Id, nat>)
    requires Numbered(c, ordinals)
    ensures AllNumbered(CitedIds(Statements(c)), ordinals)
    ensures Scan(AnswerText(c, ordinals)) == Ordinals(CitedIds(Statements(c)), ordinals)
  {
    var direct := ParagraphBlocksRead(DirectParagraphs(c), ordinals);
    var sections := SectionBlocksRead(c.sections, ordinals);
    var caveats := CaveatBlocksRead(c, ordinals);
    AllReadJoin(ParagraphBlocks(DirectParagraphs(c), ordinals), SectionBlocks(c.sections, ordinals), direct, sections);
    AllReadJoin(ParagraphBlocks(DirectParagraphs(c), ordinals) + SectionBlocks(c.sections, ordinals),
                CaveatBlocks(c, ordinals), direct + sections, caveats);
    ReadsJoined(Blocks(c, ordinals), direct + sections + caveats, "\n\n");
    FlattenJoin(direct + sections, caveats);
    FlattenJoin(direct, sections);
    OrdinalListJoin(OfParagraphs(DirectParagraphs(c)), OfSections(c.sections), ordinals);
    OrdinalListJoin(OfParagraphs(DirectParagraphs(c)) + OfSections(c.sections), OfParagraphs(c.caveats), ordinals);
    OrdinalsOfCited(Statements(c), ordinals);
    ReadsAlone(AnswerText(c, ordinals), Flatten(direct + sections + caveats));
  }

  lemma ReadsAlone(text: string, tags: seq<nat>)
    requires Reads(text, tags)
    ensures Scan(text) == tags
  {
    assert Scan(text + "") == tags + Scan("");
    assert text + "" == text;
  }

  // -- numbering every cited id is enough ---------------------------------------------------

  lemma StatementsNumberedSplit(a: seq<Statement>, b: seq<Statement>, ordinals: map<Id, nat>)
    requires StatementsNumbered(a + b, ordinals)
    ensures StatementsNumbered(a, ordinals) && StatementsNumbered(b, ordinals)
  {
    forall i | 0 <= i < |a| ensures AllNumbered(IdsOf(a[i].citations), ordinals) { assert (a + b)[i] == a[i]; }
    forall i | 0 <= i < |b| ensures AllNumbered(IdsOf(b[i].citations), ordinals) { assert (a + b)[|a| + i] == b[i]; }
  }

  lemma {:induction false} StatementsNumberedWhen(ss: seq<Statement>, ordinals: map<Id, nat>)
    requires forall id | id in CitedIds(ss) :: id in ordinals
    ensures StatementsNumbered(ss, ordinals)
  {
    if ss != [] {
      var init, last := ss[..|ss| - 1], ss[|ss| - 1];
      StatementsNumberedWhen(init, ordinals);
      forall i | 0 <= i < |ss| ensures AllNumbered(IdsOf(ss[i].citations), ordinals) {
        if i < |init| {
          assert init[i] == ss[i];
        } else {
          forall j | 0 <= j < |IdsOf(last.citations)| ensures IdsOf(last.citations)[j] in ordinals {
            assert IdsOf(last.citations)[j] in CitedIds(ss);
          }
        }
      }
    }
  }

  lemma {:induction false} ParagraphsNumberedWhen(ps: seq<Paragraph>, ordinals: map<Id, nat>)
    requires StatementsNumbered(OfParagraphs(ps), ordinals)
    ensures ParagraphsNumbered(ps, ordinals)
  {
    if ps != [] {
      var init, last := ps[..|ps| - 1], ps[|ps| - 1];
      StatementsNumberedSplit(OfParagraphs(init), last.statements, ordinals);
      ParagraphsNumberedWhen(init, ordinals);
      assert ps == init + [last];
    }
  }

  lemma {:induction false} SectionsNumberedWhen(ss: seq<AnswerSection>, ordinals: map<Id, nat>)
    requires StatementsNumbered(OfSections(ss), ordinals)
    ensures SectionsNumbered(ss, ordinals)
  {
    if ss != [] {
      var init, last := ss[..|ss| - 1], ss[|ss| - 1];
      StatementsNumberedSplit(OfSections(init), OfParagraphs(last.paragraphs), ordinals);
      SectionsNumberedWhen(init, ordinals);
      ParagraphsNumberedWhen(last.paragraphs, ordinals);
      assert ss == init + [last];
    }
  }

  /** Rendering never meets a citation without an ordinal when every cited id has one. */
  lemma NumberedWhenCited(c: Candidate, ordinals: map<Id, nat>)
    requires forall id | id in CitedIds(Statements(c)) :: id in ordinals
    ensures Numbered(c, ordinals)
  {
    var direct, sections := OfParagraphs(DirectParagraphs(c)), OfSections(c.sections);
    StatementsNumberedWhen(Statements(c), ordinals);
    StatementsNumberedSplit(direct + sections, OfParagraphs(c.caveats), ordinals);
    StatementsNumberedSplit(direct, sections, ordinals);
    ParagraphsNumberedWhen(DirectParagraphs(c), ordinals);
    SectionsNumberedWhen(c.sections, ordinals);
    ParagraphsNumberedWhen(c.caveats, ordinals);
  }
}
