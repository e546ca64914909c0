/** The string operations the repository relies on, over Python's code-point strings. */
module Text {
  import opened Prelude

  /** `str.isspace` for one character; `\s` in a `str` pattern matches the same set. */
  predicate IsSpace(c: char) {
    || '\U{0009}' <= c <= '\U{000D}'
    || '\U{001C}' <= c <= ' '
    || c == '\U{0085}' || c == '\U{00A0}' || c == '\U{1680}'
    || '\U{2000}' <= c <= '\U{200A}'
    || c == '\U{2028}' || c == '\U{2029}' || c == '\U{202F}' || c == '\U{205F}' || c == '\U{3000}'
  }

  function DropLeft(s: string, p: char -> bool): string {
    if s != "" && p(s[0]) then DropLeft(s[1..], p) else s
  }

  function DropRight(s: string, p: char -> bool): string {
    if s != "" && p(s[|s| - 1]) then DropRight(s[..|s| - 1], p) else s
  }

  /** `str.strip()` with the characters to drop given by `p`. */
  function StripOf(s: string, p: char -> bool): string {
    DropRight(DropLeft(s, p), p)
  }

  function Strip(s: string): string {
    StripOf(s, IsSpace)
  }

  predicate IsBlank(s: string) {
    Strip(s) == ""
  }

  /** `re.sub(r"\s+", " ", s)`; `inRun` says that the run before `s` has already been written. */
  function Collapse(s: string, inRun: bool := false): string {
    if s == "" then ""
    else if IsSpace(s[0]) then (if inRun then "" else " ") + Collapse(s[1..], true)
    else [s[0]] + Collapse(s[1..], false)
  }

  lemma {:induction false} DropLeftStable(s: string, p: char -> bool)
    ensures var r := DropLeft(s, p); r == "" || !p(r[0])
    ensures |DropLeft(s, p)| <= |s|
  {
    if s != "" && p(s[0]) { DropLeftStable(s[1..], p); }
  }

  lemma {:induction false} DropRightKeepsHead(s: string, p: char -> bool)
    ensures var r := DropRight(s, p);
            && |r| <= |s| && r == s[..|r|]
            && (r == "" || !p(r[|r| - 1]))
            && (s != "" && !p(s[0]) ==> r != "")
  {
    if s != "" && p(s[|s| - 1]) {
      DropRightKeepsHead(s[..|s| - 1], p);
      var r := DropRight(s[..|s| - 1], p);
      assert r == s[..|s| - 1][..|r|] == s[..|r|];
    } else {
      assert s == s[..|s|];
    }
  }

  /** Stripping twice is stripping once. */
  lemma StripIdempotent(s: string)
    ensures Strip(Strip(s)) == Strip(s)
  {
    DropLeftStable(s, IsSpace);
    DropRightKeepsHead(DropLeft(s, IsSpace), IsSpace);
  }

  ghost predicate HasText(s: string) { exists i | 0 <= i < |s| :: !IsSpace(s[i]) }

  lemma {:induction false} BlankIs(s: string)
    ensures IsBlank(s) <==> !HasText(s)
  {
    if s != "" {
      if IsSpace(s[0]) {
        BlankIs(s[1..]);
        if i :| 0 <= i < |s| && !IsSpace(s[i]) { assert s[1..][i - 1] == s[i]; }
        if i :| 0 <= i < |s[1..]| && !IsSpace(s[1..][i]) { assert s[i + 1] == s[1..][i]; }
      } else {
        DropRightKeepsHead(s, IsSpace);
      }
    }
  }

  /** What is left of `s` without the white space around it. */
  ghost predicate IsStripped(s: string, r: string) {
    && (r == "" || (!IsSpace(r[0]) && !IsSpace(r[|r| - 1])))
    && exists before, after :: s == before + r + after && !HasText(before) && !HasText(after)
  }

  /** Stripping takes away the white space around the text and nothing else. */
  lemma StripIs(s: string)
    ensures IsStripped(s, Strip(s))
  {
    var rest := DropLeft(s, IsSpace);
    DropLeftStable(s, IsSpace);
    var before := DroppedLeft(s);
    DropRightKeepsHead(rest, IsSpace);
    var after := DroppedRight(rest);
    assert s == before + Strip(s) + after;
  }

  lemma {:induction false} DroppedLeft(s: string) returns (before: string)
    ensures s == before + DropLeft(s, IsSpace) && !HasText(before)
  {
    before := "";
    if s != "" && IsSpace(s[0]) {
      before := DroppedLeft(s[1..]);
      before := [s[0]] + before;
    }
  }

  lemma {:induction false} DroppedRight(s: string) returns (after: string)
    ensures s == DropRight(s, IsSpace) + after && !HasText(after)
  {
    after := "";
    if s != "" && IsSpace(s[|s| - 1]) {
      after := DroppedRight(s[..|s| - 1]);
      after := after + [s[|s| - 1]];
    }
  }

  /** `glue.join(parts)`. */
  function Join(parts: seq<string>, glue: string): string {
    if parts == [] then "" else if |parts| == 1 then parts[0] else parts[0] + glue + Join(parts[1..], glue)
  }

  /** `t` is the substring of `s` that starts at `i`. */
  predicate OccursAt(s: string, t: string, i: nat) { i + |t| <= |s| && s[i..i + |t|] == t }

  // -- decimal numerals -----------------------------------------------------

  predicate IsDigit(c: char) { '0' <= c <= '9' }

  predicate AllDigits(s: string) {
    forall i | 0 <= i < |s| :: IsDigit(s[i])
  }

  /** `str(n)`. */
  function Numeral(n: nat): (s: string)
    ensures s != "" && AllDigits(s)
  {
    var digit := ['0' + (n % 10) as char];
    if n < 10 then digit else Numeral(n / 10) + digit
  }

  /** `int(s)` on ASCII digits. */
  function ParseNumeral(s: string): nat
    requires AllDigits(s)
  {
    if s == "" then 0
    else 10 * ParseNumeral(s[..|s| - 1]) + (s[|s| - 1] - '0') as nat
  }

  lemma {:induction false} NumeralRoundTrip(n: nat)
    ensures ParseNumeral(Numeral(n)) == n
  {
    var s := Numeral(n);
    if n < 10 {
      assert s[..|s| - 1] == "";
    } else {
      NumeralRoundTrip(n / 10);
      assert s[..|s| - 1] == Numeral(n / 10);
    }
  }

  // -- the Unicode database ----------------------------------------------------------

  /**
    What Python takes from the Unicode database: case folding, the characters besides the ASCII digits that `isdigit`
    accepts, and the values of those that `int` accepts. Superscripts and circled numbers are digits without a value.
   */
  datatype Unicode = Unicode(casefold: string -> string, digit: char -> bool, decimal: char -> Option<nat>)

  predicate IsDigitChar(u: Unicode, c: char) { IsDigit(c) || u.digit(c) || u.decimal(c).Some? }

  /** `str.isdigit`. */
  predicate IsDigitString(u: Unicode, s: string) {
    s != "" && forall i | 0 <= i < |s| :: IsDigitChar(u, s[i])
  }

  function DecimalValue(u: Unicode, c: char): Option<nat> {
    if IsDigit(c) then Some((c - '0') as nat) else u.decimal(c)
  }

  /** `int(s)` on a digit string; `None` is the ValueError for a character that has no decimal value. */
  function ParseInt(u: Unicode, s: string): Option<nat> {
    if s == "" then Some(0)
    else
      match (ParseInt(u, s[..|s| - 1]), DecimalValue(u, s[|s| - 1]))
      case (Some(high), Some(low)) => Some(10 * high + low)
      case _ => None
  }

  lemma {:induction false} ParseIntOfAscii(u: Unicode, s: string)
    requires AllDigits(s)
    ensures ParseInt(u, s) == Some(ParseNumeral(s))
  {
    if s != "" { ParseIntOfAscii(u, s[..|s| - 1]); }
  }

  /** `int` raises exactly when some character of the string has no decimal value. */
  lemma {:induction false} ParseIntFails(u: Unicode, s: string)
    ensures ParseInt(u, s).None? <==> exists i | 0 <= i < |s| :: DecimalValue(u, s[i]).None?
  {
    if s != "" {
      ParseIntFails(u, s[..|s| - 1]);
      assert forall i | 0 <= i < |s| - 1 :: s[..|s| - 1][i] == s[i];
    }
  }
}
