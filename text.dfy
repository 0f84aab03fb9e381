/**
 * Text handling of the scorekeeper: trimming as JavaScript's `String.prototype.trim`
 * does it, the strict integer parser used for every score input, and the decimal
 * rendering of an integer that the edit form pre-fills (`String(n)`).
 */
module Text {
  import opened Common

  /** The code points `trim` removes: ECMAScript WhiteSpace and LineTerminator. */
  predicate IsSpace(c: char) {
    || c == '\t' || c == '\n' || c == '\U{000B}' || c == '\U{000C}' || c == '\r'
    || c == ' ' || c == '\U{00A0}' || c == '\U{1680}'
    || ('\U{2000}' <= c <= '\U{200A}')
    || c == '\U{2028}' || c == '\U{2029}' || c == '\U{202F}' || c == '\U{205F}'
    || c == '\U{3000}' || c == '\U{FEFF}'
  }

  /** `s` with its leading white space removed. */
  function TrimStart(s: string): (r: string)
    ensures |r| <= |s|
  {
    if s != [] && IsSpace(s[0]) then TrimStart(s[1..]) else s
  }

  /** `TrimStart` drops a prefix of white space and stops at the first other character. */
  lemma {:induction false} TrimStartFacts(s: string)
    ensures var r := TrimStart(s);
      && r == s[|s| - |r|..]
      && (forall i :: 0 <= i < |s| - |r| ==> IsSpace(s[i]))
      && (r != [] ==> !IsSpace(r[0]))
  {
    if s != [] && IsSpace(s[0]) {
      TrimStartFacts(s[1..]);
    }
  }

  /** `s` with its trailing white space removed. */
  function TrimEnd(s: string): (r: string)
    ensures |r| <= |s|
  {
    if s != [] && IsSpace(s[|s| - 1]) then TrimEnd(s[..|s| - 1]) else s
  }

  /** `TrimEnd` drops a suffix of white space and stops at the last other character. */
  lemma {:induction false} TrimEndFacts(s: string)
    ensures var r := TrimEnd(s);
      && r == s[..|r|]
      && (forall i :: |r| <= i < |s| ==> IsSpace(s[i]))
      && (r != [] ==> !IsSpace(r[|r| - 1]))
  {
    if s != [] && IsSpace(s[|s| - 1]) {
      TrimEndFacts(s[..|s| - 1]);
    }
  }

  /** `s.trim()`. */
  function Trim(s: string): string {
    TrimEnd(TrimStart(s))
  }

  /** A string made only of white space. */
  predicate AllSpace(s: string) {
    forall i :: 0 <= i < |s| ==> IsSpace(s[i])
  }

  /** A string that neither starts nor ends with white space. */
  predicate Tight(s: string) {
    s == [] || (!IsSpace(s[0]) && !IsSpace(s[|s| - 1]))
  }

  lemma {:induction false} TrimStartOfPadded(pad: string, core: string)
    requires AllSpace(pad)
    requires core == [] || !IsSpace(core[0])
    ensures TrimStart(pad + core) == core
  {
    if pad != [] {
      assert (pad + core)[1..] == pad[1..] + core;
      TrimStartOfPadded(pad[1..], core);
    } else {
      assert pad + core == core;
    }
  }

  lemma {:induction false} TrimEndOfPadded(core: string, pad: string)
    requires AllSpace(pad)
    requires core == [] || !IsSpace(core[|core| - 1])
    ensures TrimEnd(core + pad) == core
  {
    if pad != [] {
      assert (core + pad)[..|core + pad| - 1] == core + pad[..|pad| - 1];
      TrimEndOfPadded(core, pad[..|pad| - 1]);
    } else {
      assert core + pad == core;
    }
  }

  /** Trimming removes exactly the surrounding white space and nothing else. */
  lemma TrimOfPadded(before: string, core: string, after: string)
    requires AllSpace(before) && AllSpace(after) && Tight(core)
    ensures Trim(before + core + after) == core
  {
    assert before + core + after == before + (core + after);
    if core == [] {
      assert core + after == after;
      if after == [] {
        TrimStartOfPadded(before, []);
        assert before + [] == before;
      } else {
        assert AllSpace(before + after);
        TrimStartOfPadded(before + after, []);
        assert before + after + [] == before + after;
      }
    } else {
      assert (core + after)[0] == core[0];
      TrimStartOfPadded(before, core + after);
      TrimEndOfPadded(core, after);
    }
  }

  /** The result of trimming is tight, and trimming it again changes nothing. */
  lemma TrimIsTightAndIdempotent(s: string)
    ensures Tight(Trim(s))
    ensures Trim(Trim(s)) == Trim(s)
  {
    var t := Trim(s);
    var u := TrimStart(s);
    TrimStartFacts(s);
    TrimEndFacts(u);
    if t != [] {
      assert t[0] == u[0];
    }
    TrimOfPadded([], t, []);
    assert [] + t + [] == t;
  }

  predicate IsDigit(c: char) {
    '0' <= c <= '9'
  }

  /** One or more decimal digits: `\d+` (without the `u` flag, `\d` is ASCII only). */
  predicate IsDigits(d: string) {
    |d| > 0 && forall i :: 0 <= i < |d| ==> IsDigit(d[i])
  }

  /** The whole of `t` matches `-?\d+`. */
  predicate IsIntLiteral(t: string) {
    if |t| > 0 && t[0] == '-' then IsDigits(t[1..]) else IsDigits(t)
  }

  function DigitValue(c: char): int {
    c as int - '0' as int
  }

  /** The decimal value of a string of digits, most significant first. */
  function DigitsValue(d: string): int {
    if d == [] then 0 else DigitsValue(d[..|d| - 1]) * 10 + DigitValue(d[|d| - 1])
  }

  /** The value of a literal matching `-?\d+`. */
  function LiteralValue(t: string): int {
    if |t| > 0 && t[0] == '-' then -DigitsValue(t[1..]) else DigitsValue(t)
  }

  /**
   * `parseIntStrict`: trim, then accept only an optional minus sign followed by
   * one or more digits; anything else, including the empty string, is `None`.
   */
  function ParseIntStrict(s: string): Option<int> {
    var t := Trim(s);
    if t == "" then None
    else if !IsIntLiteral(t) then None
    else Some(LiteralValue(t))
  }

  /**
   * An input parses exactly when its trimmed form is a non-empty `-?\d+`
   * literal, and then to that literal's decimal value; a white-space-padded
   * literal parses to its value.
   */
  lemma ParseIntStrictMeans(s: string)
    ensures ParseIntStrict(s).Some? <==> Trim(s) != [] && IsIntLiteral(Trim(s))
    ensures ParseIntStrict(s).Some? ==> ParseIntStrict(s).value == LiteralValue(Trim(s))
    ensures forall before, after :: AllSpace(before) && AllSpace(after) && IsIntLiteral(s) ==>
      ParseIntStrict(before + s + after) == Some(LiteralValue(s))
  {
    forall before, after | AllSpace(before) && AllSpace(after) && IsIntLiteral(s)
      ensures ParseIntStrict(before + s + after) == Some(LiteralValue(s))
    {
      ParseIgnoresPadding(before, s, after);
      assert Tight(s) by {
        if |s| > 0 && s[0] == '-' {
          assert s[|s| - 1] == s[1..][|s| - 2];
        }
      }
      TrimOfTight(s);
    }
  }

  /** Blank and white-space-only inputs never parse. */
  lemma ParseRejectsBlank(s: string)
    requires AllSpace(s)
    ensures ParseIntStrict(s) == None
  {
    TrimStartOfPadded(s, []);
    assert s + [] == s;
  }

  /** Every string is its trimmed form between two runs of white space. */
  lemma TrimSplit(s: string) returns (lead: string, trail: string)
    ensures AllSpace(lead) && AllSpace(trail)
    ensures s == lead + Trim(s) + trail
  {
    var u := TrimStart(s);
    var t := TrimEnd(u);
    TrimStartFacts(s);
    TrimEndFacts(u);
    lead := s[..|s| - |u|];
    trail := u[|t|..];
    assert AllSpace(lead);
    assert forall i :: 0 <= i < |trail| ==> trail[i] == u[|t| + i];
    assert s == lead + u;
    assert u == t + trail;
    assert t == Trim(s);
    assert lead + t + trail == lead + (t + trail);
  }

  /** Surrounding white space does not change what an input parses to. */
  lemma ParseIgnoresPadding(before: string, s: string, after: string)
    requires AllSpace(before) && AllSpace(after)
    ensures ParseIntStrict(before + s + after) == ParseIntStrict(s)
  {
    var t := Trim(s);
    TrimIsTightAndIdempotent(s);
    var lead, trail := TrimSplit(s);
    assert before + (lead + t + trail) + after == (before + lead) + t + (trail + after);
    assert AllSpace(before + lead);
    assert AllSpace(trail + after);
    TrimOfPadded(before + lead, t, trail + after);
  }

  function DigitChar(d: int): (c: char)
    requires 0 <= d < 10
    ensures IsDigit(c) && DigitValue(c) == d
  {
    ('0' as int + d) as char
  }

  /** The decimal digits of `n`, without leading zeros. */
  function NatToString(n: nat): string {
    if n < 10 then [DigitChar(n)] else NatToString(n / 10) + [DigitChar(n % 10)]
  }

  /** `String(n)` for an integer `n`. */
  function IntToString(n: int): string {
    if n < 0 then "-" + NatToString(-n) else NatToString(n)
  }

  lemma {:induction false} NatToStringDigits(n: nat)
    ensures IsDigits(NatToString(n))
    ensures DigitsValue(NatToString(n)) == n
  {
    if n >= 10 {
      NatToStringDigits(n / 10);
      var a := NatToString(n / 10);
      var s := NatToString(n);
      assert s == a + [DigitChar(n % 10)];
      assert s[..|s| - 1] == a;
    }
  }

  /** A tight string is its own trimmed form. */
  lemma TrimOfTight(s: string)
    requires Tight(s)
    ensures Trim(s) == s
  {
    TrimOfPadded([], s, []);
    assert [] + s + [] == s;
  }

  /** `String(n)` is a tight literal matching `-?\d+` whose value is `n`. */
  lemma IntToStringIsLiteral(n: int)
    ensures Tight(IntToString(n))
    ensures IsIntLiteral(IntToString(n)) && LiteralValue(IntToString(n)) == n
  {
    var s := IntToString(n);
    var d := NatToString(if n < 0 then -n else n);
    NatToStringDigits(if n < 0 then -n else n);
    if n < 0 {
      assert s == "-" + d;
      assert s[1..] == d;
      assert s[|s| - 1] == d[|d| - 1];
    }
  }

  /** What the edit form pre-fills with `String(n)` parses back to `n`. */
  lemma ParseFormatRoundTrip(n: int)
    ensures ParseIntStrict(IntToString(n)) == Some(n)
  {
    IntToStringIsLiteral(n);
    TrimOfTight(IntToString(n));
  }

  /** The reset value `"0"` is accepted as 0. */
  lemma ParseAcceptsZero()
    ensures ParseIntStrict("0") == Some(0)
  {
    TrimOfTight("0");
    assert "0"[..0] == [];
  }

  /** Letters, a leading `+`, a decimal point and a lone minus sign are refused. */
  lemma ParseRefusesExamples()
    ensures ParseIntStrict("abc") == None
    ensures ParseIntStrict("+5") == None
    ensures ParseIntStrict("1.5") == None
    ensures ParseIntStrict("-") == None
  {
    TrimOfTight("abc");
    assert !IsDigit("abc"[0]);
    TrimOfTight("+5");
    assert !IsDigit("+5"[0]);
    TrimOfTight("1.5");
    assert !IsDigit("1.5"[1]);
    TrimOfTight("-");
    assert "-"[1..] == [];
  }
}
