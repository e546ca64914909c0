/** What a reader of a rendered answer sees (generation/renderer.py). */
module ReadableAnswer {
  import opened Text
  import opened Rendering

  /** A visible character, a character that formats, or the number of a citation. */
  datatype Mark = Letter(c: char) | Markup(c: char) | Number(k: nat)

  const Formatting: string := "\\`*_<>{}[]#"

  predicate Formats(c: char) { c in Formatting }

  /**
    Markdown as it is read: a backslash shows the formatting character after it, a number in brackets is a citation, and
    any other formatting character formats.
   */
  function Read(s: string): seq<Mark>
    decreases |s|
  {
    if s == "" then []
    else if s[0] == '\\' then
      if |s| > 1 && Formats(s[1]) then [Letter(s[1])] + Read(s[2..]) else [Letter('\\')] + Read(s[1..])
    else if s[0] == '[' then
      DigitsInBound(s[1..]);
      var n := DigitsIn(s[1..]);
      if n > 0 && n + 1 < |s| && s[n + 1] == ']' then [Number(ParseNumeral(s[1..][..n]))] + Read(s[n + 2..])
      else [Markup(s[0])] + Read(s[1..])
    else [if Formats(s[0]) then Markup(s[0]) else Letter(s[0])] + Read(s[1..])
  }

  /** What marks a heading. */
  const Hashes: seq<Mark> := [Markup('#'), Markup('#'), Letter(' ')]

  function Letters(s: string): seq<Mark> { seq(|s|, i requires 0 <= i < |s| => Letter(s[i])) }

  function Numbers(ks: seq<nat>): seq<Mark> { seq(|ks|, i requires 0 <= i < |ks| => Number(ks[i])) }

  function Between(parts: seq<seq<Mark>>, glue: string): seq<Mark> {
    if parts == [] then []
    else if |parts| == 1 then parts[0]
    else parts[0] + Letters(glue) + Between(parts[1..], glue)
  }

  // -- what is to be seen -------------------------------------------------------------

  /** A statement is its stripped text, a space, and the numbers of what it cites. */
  function StatementMarks(s: Statement, ordinals: map<Id, nat>): seq<Mark>
    requires AllNumbered(IdsOf(s.citations), ordinals)
  {
    Letters(Strip(s.text)) + [Letter(' ')]
    + seq(|s.citations|, i requires 0 <= i < |s.citations| => Number(NumberOf(s, i, ordinals)))
  }

  function NumberOf(s: Statement, i: nat, ordinals: map<Id, nat>): nat
    requires i < |s.citations| && AllNumbered(IdsOf(s.citations), ordinals)
  {
    assert IdsOf(s.citations)[i] == s.citations[i].id;
    ordinals[s.citations[i].id]
  }

  function ParagraphMarks(p: Paragraph, ordinals: map<Id, nat>): seq<Mark>
    requires StatementsNumbered(p.statements, ordinals)
  {
    Between(StatementsMarks(p.statements, ordinals), " ")
  }

  function StatementsMarks(ss: seq<Statement>, ordinals: map<Id, nat>): seq<seq<Mark>>
    requires StatementsNumbered(ss, ordinals)
  {
    seq(|ss|, i requires 0 <= i < |ss| => StatementMarks(ss[i], ordinals))
  }

  function ParagraphsMarks(ps: seq<Paragraph>, ordinals: map<Id, nat>): seq<seq<Mark>>
    requires ParagraphsNumbered(ps, ordinals)
  {
    seq(|ps|, i requires 0 <= i < |ps| => ParagraphMarks(ps[i], ordinals))
  }

  /** Each section has its heading before its paragraphs. */
  function SectionsMarks(ss: seq<AnswerSection>, ordinals: map<Id, nat>): seq<seq<Mark>>
    requires SectionsNumbered(ss, ordinals)
  {
    if ss == [] then []
    else
      var last := ss[|ss| - 1];
      SectionsMarks(ss[..|ss| - 1], ordinals)
      + ([Hashes + Letters(Strip(last.heading))] + ParagraphsMarks(last.paragraphs, ordinals))
  }

  /** The direct answer, the sections, and the caveats under their heading. */
  function AnswerMarks(c: Candidate, ordinals: map<Id, nat>): seq<seq<Mark>>
    requires Numbered(c, ordinals)
  {
    (if c.direct.Some? then ParagraphsMarks(c.direct.value, ordinals) else [])
    + SectionsMarks(c.sections, ordinals)
    + (if c.caveats == [] then [] else [Hashes + Letters("Lưu ý")] + ParagraphsMarks(c.caveats, ordinals))
  }

  // -- reading parts --------------------------------------------------------------------

  ghost predicate Shows(part: string, marks: seq<Mark>) {
    forall rest :: Read(part + rest) == marks + Read(rest)
  }

  lemma ShowsJoin(a: string, b: string, s: seq<Mark>, t: seq<Mark>)
    requires Shows(a, s) && Shows(b, t)
    ensures Shows(a + b, s + t)
  {
    forall rest ensures Read(a + b + rest) == s + t + Read(rest) {
      assert a + b + rest == a + (b + rest);
      assert Read(a + (b + rest)) == s + Read(b + rest);
      Grouped(s, t, Read(rest));
    }
  }

  lemma Grouped(a: seq<Mark>, b: seq<Mark>, c: seq<Mark>)
    ensures a + (b + c) == a + b + c
  {}

  lemma ShowsNothing()
    ensures Shows("", [])
  {
    forall rest ensures Read("" + rest) == [] + Read(rest) { assert "" + rest == rest; }
  }

  lemma LettersStep(s: string)
    requires s != ""
    ensures Letters(s) == [Letter(s[0])] + Letters(s[1..])
  {}

  predicate Unformatted(s: string) { forall i | 0 <= i < |s| :: !Formats(s[i]) }

  lemma SpecialFormats(c: char)
    ensures IsSpecial(c) <==> Formats(c)
  {
    assert Formatting == ['\\', '`', '*', '_', '<', '>', '{', '}', '[', ']', '#'];
  }

  lemma ReadSpecial(c: char, tail: string)
    requires Formats(c)
    ensures Read(['\\', c] + tail) == [Letter(c)] + Read(tail)
  {
    assert (['\\', c] + tail)[2..] == tail;
  }

  lemma ReadOrdinary(c: char, tail: string)
    requires !Formats(c)
    ensures Read([c] + tail) == [Letter(c)] + Read(tail)
  {
    assert Formatting[0] == '\\' && Formatting[8] == '[';
    assert ([c] + tail)[1..] == tail;
  }

  lemma EscapeStep(s: string, rest: string)
    requires s != ""
    ensures Escape(s) + rest == (if IsSpecial(s[0]) then ['\\', s[0]] else [s[0]]) + (Escape(s[1..]) + rest)
  {}

  lemma {:induction false} ReadEscaped(s: string, rest: string)
    ensures Read(Escape(s) + rest) == Letters(s) + Read(rest)
  {
    if s == "" {
      assert Escape(s) + rest == rest;
    } else {
      var tail := Escape(s[1..]) + rest;
      ReadEscaped(s[1..], rest);
      EscapeStep(s, rest);
      SpecialFormats(s[0]);
      if IsSpecial(s[0]) { ReadSpecial(s[0], tail); } else { ReadOrdinary(s[0], tail); }
      LettersStep(s);
      Grouped([Letter(s[0])], Letters(s[1..]), Read(rest));
    }
  }

  lemma {:induction false} ReadPlain(s: string, rest: string)
    requires Unformatted(s)
    ensures Read(s + rest) == Letters(s) + Read(rest)
  {
    if s == "" {
      assert s + rest == rest;
    } else {
      assert s + rest == [s[0]] + (s[1..] + rest);
      ReadPlain(s[1..], rest);
      ReadOrdinary(s[0], s[1..] + rest);
      LettersStep(s);
      Grouped([Letter(s[0])], Letters(s[1..]), Read(rest));
    }
  }

  lemma ReadBracket(k: nat, rest: string)
    ensures Read("[" + Numeral(k) + "]" + rest) == [Number(k)] + Read(rest)
  {
    var d := Numeral(k);
    var s := "[" + d + "]" + rest;
    assert s[1..] == d + ("]" + rest);
    DigitsOf(d, "]" + rest);
    DigitsInBound(s[1..]);
    assert s[1..][..|d|] == d && s[|d| + 2..] == rest && s[|d| + 1] == ']';
    NumeralRoundTrip(k);
  }

  lemma {:induction false} ReadBrackets(ks: seq<nat>, rest: string)
    ensures Read(Brackets(ks) + rest) == Numbers(ks) + Read(rest)
  {
    if ks == [] {
      assert Brackets(ks) + rest == rest;
    } else {
      ReadBrackets(ks[1..], rest);
      ReadBracket(ks[0], Brackets(ks[1..]) + rest);
      BracketsStep(ks, rest);
      NumbersStep(ks);
      Grouped([Number(ks[0])], Numbers(ks[1..]), Read(rest));
    }
  }

  lemma NumbersStep(ks: seq<nat>)
    requires ks != []
    ensures Numbers(ks) == [Number(ks[0])] + Numbers(ks[1..])
  {}

  lemma ShowsPlain(s: string)
    requires Unformatted(s)
    ensures Shows(s, Letters(s))
  {
    forall rest ensures Read(s + rest) == Letters(s) + Read(rest) { ReadPlain(s, rest); }
  }

  lemma ShowsEscaped(s: string)
    ensures Shows(Escape(s), Letters(s))
  {
    forall rest ensures Read(Escape(s) + rest) == Letters(s) + Read(rest) { ReadEscaped(s, rest); }
  }

  lemma ShowsStatement(s: Statement, ordinals: map<Id, nat>)
    requires AllNumbered(IdsOf(s.citations), ordinals)
    ensures Shows(StatementText(s, ordinals), StatementMarks(s, ordinals))
  {
    var ks := Ordinals(IdsOf(s.citations), ordinals);
    forall rest ensures Read(Brackets(ks) + rest) == Numbers(ks) + Read(rest) { ReadBrackets(ks, rest); }
    ShowsEscaped(Strip(s.text));
    ShowsPlain(" ");
    ShowsJoin(Escape(Strip(s.text)), " ", Letters(Strip(s.text)), Letters(" "));
    ShowsJoin(Escape(Strip(s.text)) + " ", Brackets(ks), Letters(Strip(s.text)) + Letters(" "), Numbers(ks));
    assert Letters(" ") == [Letter(' ')];
    assert Numbers(ks) == seq(|s.citations|, i requires 0 <= i < |s.citations| => Number(NumberOf(s, i, ordinals)));
  }

  ghost predicate AllShow(parts: seq<string>, marks: seq<seq<Mark>>) {
    |parts| == |marks| && forall i | 0 <= i < |parts| :: Shows(parts[i], marks[i])
  }

  lemma {:induction false} ShowsJoined(parts: seq<string>, marks: seq<seq<Mark>>, glue: string)
    requires AllShow(parts, marks) && Unformatted(glue)
    ensures Shows(Join(parts, glue), Between(marks, glue))
  {
    if parts == [] {
      ShowsNothing();
    } else if |parts| > 1 {
      forall i | 0 <= i < |parts| - 1 ensures Shows(parts[1..][i], marks[1..][i]) {
        assert Shows(parts[i + 1], marks[i + 1]);
      }
      ShowsJoined(parts[1..], marks[1..], glue);
      ShowsPlain(glue);
      assert Shows(parts[0], marks[0]);
      ShowsJoin(parts[0], glue, marks[0], Letters(glue));
      ShowsJoin(parts[0] + glue, Join(parts[1..], glue), marks[0] + Letters(glue), Between(marks[1..], glue));
    } else {
      assert Shows(parts[0], marks[0]);
    }
  }

  lemma AllShowJoin(a: seq<string>, b: seq<string>, s: seq<seq<Mark>>, t: seq<seq<Mark>>)
    requires AllShow(a, s) && AllShow(b, t)
    ensures AllShow(a + b, s + t)
  {}

  // -- reading the answer --------------------------------------------------------------------

  lemma ShowsParagraph(p: Paragraph, ordinals: map<Id, nat>)
    requires StatementsNumbered(p.statements, ordinals)
    ensures Shows(ParagraphText(p, ordinals), ParagraphMarks(p, ordinals))
  {
    var ss := p.statements;
    forall i | 0 <= i < |ss| ensures Shows(StatementTexts(ss, ordinals)[i], StatementsMarks(ss, ordinals)[i]) {
      ShowsStatement(ss[i], ordinals);
    }
    ShowsJoined(StatementTexts(ss, ordinals), StatementsMarks(ss, ordinals), " ");
  }

  lemma ShowsParagraphs(ps: seq<Paragraph>, ordinals: map<Id, nat>)
    requires ParagraphsNumbered(ps, ordinals)
    ensures AllShow(ParagraphBlocks(ps, ordinals), ParagraphsMarks(ps, ordinals))
  {
    forall i | 0 <= i < |ps| ensures Shows(ParagraphBlocks(ps, ordinals)[i], ParagraphsMarks(ps, ordinals)[i]) {
      ShowsParagraph(ps[i], ordinals);
    }
  }

  lemma ShowsHeading(s: AnswerSection)
    ensures Shows(Heading(s), Hashes + Letters(Strip(s.heading)))
  {
    ShowsHashes();
    ShowsEscaped(Strip(s.heading));
    ShowsJoin("## ", Escape(Strip(s.heading)), Hashes, Letters(Strip(s.heading)));
  }

  lemma ShowsHashes()
    ensures Shows("## ", Hashes)
  {
    assert Formatting[10] == '#' && Formats('#');
    forall rest ensures Read("## " + rest) == Hashes + Read(rest) {
      var s := "## " + rest;
      assert s[1..] == "# " + rest && s[1..][1..] == " " + rest;
      ReadOrdinary(' ', rest);
    }
  }

  lemma {:induction false} ShowsSections(ss: seq<AnswerSection>, ordinals: map<Id, nat>)
    requires SectionsNumbered(ss, ordinals)
    ensures AllShow(SectionBlocks(ss, ordinals), SectionsMarks(ss, ordinals))
  {
    if ss != [] {
      var init, last := ss[..|ss| - 1], ss[|ss| - 1];
      var heading := Hashes + Letters(Strip(last.heading));
      ShowsSections(init, ordinals);
      ShowsHeading(last);
      ShowsParagraphs(last.paragraphs, ordinals);
      AllShowJoin([Heading(last)], ParagraphBlocks(last.paragraphs, ordinals),
                  [heading], ParagraphsMarks(last.paragraphs, ordinals));
      AllShowJoin(SectionBlocks(init, ordinals), [Heading(last)] + ParagraphBlocks(last.paragraphs, ordinals),
                  SectionsMarks(init, ordinals), [heading] + ParagraphsMarks(last.paragraphs, ordinals));
      SectionBlocksStep(ss, ordinals);
    }
  }

  lemma ShowsCaveats(c: Candidate, ordinals: map<Id, nat>)
    requires ParagraphsNumbered(c.caveats, ordinals)
    ensures AllShow(CaveatBlocks(c, ordinals),
                    if c.caveats == [] then [] else [Hashes + Letters("Lưu ý")] + ParagraphsMarks(c.caveats, ordinals))
  {
    if c.caveats != [] {
      ShowsHashes();
      ShowsPlain("Lưu ý");
      ShowsJoin("## ", "Lưu ý", Hashes, Letters("Lưu ý"));
      assert "## " + "Lưu ý" == "## Lưu ý";
      ShowsParagraphs(c.caveats, ordinals);
      AllShowJoin(["## Lưu ý"], ParagraphBlocks(c.caveats, ordinals),
                  [Hashes + Letters("Lưu ý")], ParagraphsMarks(c.caveats, ordinals));
    }
  }

  /**
    Every word of a candidate reaches the reader: the rendered answer reads as its paragraphs, section headings and
    caveats in order, each statement with its stripped text followed by the numbers of its own citations.
   */
  lemma AnswerIsReadable(c: Candidate, ordinals: map<Id, nat>)
    requires Numbered(c, ordinals)
    ensures Read(AnswerText(c, ordinals)) == Between(AnswerMarks(c, ordinals), "\n\n")
  {
    var caveats := if c.caveats == [] then [] else [Hashes + Letters("Lưu ý")] + ParagraphsMarks(c.caveats, ordinals);
    var direct := ParagraphsMarks(DirectParagraphs(c), ordinals);
    ShowsParagraphs(DirectParagraphs(c), ordinals);
    ShowsSections(c.sections, ordinals);
    ShowsCaveats(c, ordinals);
    AllShowJoin(ParagraphBlocks(DirectParagraphs(c), ordinals), SectionBlocks(c.sections, ordinals),
                direct, SectionsMarks(c.sections, ordinals));
    AllShowJoin(ParagraphBlocks(DirectParagraphs(c), ordinals) + SectionBlocks(c.sections, ordinals),
                CaveatBlocks(c, ordinals), direct + SectionsMarks(c.sections, ordinals), caveats);
    assert AnswerMarks(c, ordinals) == direct + SectionsMarks(c.sections, ordinals) + caveats;
    ShowsJoined(Blocks(c, ordinals), AnswerMarks(c, ordinals), "\n\n");
    ShowsAlone(AnswerText(c, ordinals), Between(AnswerMarks(c, ordinals), "\n\n"));
  }

  lemma ShowsAlone(text: string, marks: seq<Mark>)
    requires Shows(text, marks)
    ensures Read(text) == marks
  {
    assert Read(text + "") == marks + Read("");
    assert text + "" == text;
  }
}
