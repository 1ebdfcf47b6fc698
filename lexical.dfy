/** The three library routines the core relies on for its lexical rules:
    strconv.ParseBool, strconv.ParseInt with base 0 and bit size 0 (and its
    inverse strconv.FormatInt in base 10), and strings.Fields.
 */
module Lexical {
  import opened Values

  // ---------------------------------------------------------------- ParseBool

  const TrueWords: set<string> := {"1", "t", "T", "TRUE", "true", "True"}
  const FalseWords: set<string> := {"0", "f", "F", "FALSE", "false", "False"}

  /** strconv.ParseBool: the twelve accepted spellings; anything else is a
      syntax error whose value is false. */
  function ParseBool(str: string): (r: Cast<bool>)
    ensures r.ok <==> str in TrueWords + FalseWords
    ensures r.value <==> str in TrueWords
  {
    if str == "1" || str == "t" || str == "T" || str == "TRUE" || str == "true" || str == "True" then
      Ok(true)
    else if str == "0" || str == "f" || str == "F" || str == "FALSE" || str == "false" || str == "False" then
      Ok(false)
    else
      Fail(false)
  }

  // ----------------------------------------------------------------- ParseInt

  /** The value of one digit character, for any base up to 36. */
  function Digit(c: char): (d: Option<nat>)
    ensures d.Some? ==> d.value < 36
    ensures '0' <= c <= '9' ==> d == Some(c as int - '0' as int)
  {
    if '0' <= c <= '9' then Some(c as int - '0' as int)
    else if 'a' <= c <= 'z' then Some(c as int - 'a' as int + 10)
    else if 'A' <= c <= 'Z' then Some(c as int - 'A' as int + 10)
    else None
  }

  /** The value of a digit string in `base`, read most significant digit
      first; None if some character is not a digit of that base. */
  function Digits(s: string, base: nat): Option<nat>
    decreases |s|
  {
    if s == [] then Some(0)
    else
      match Digits(s[..|s| - 1], base)
      case None => None
      case Some(high) =>
        match Digit(s[|s| - 1])
        case Some(d) =>
          if d < base then
            var shifted: nat := high * base;
            Some(shifted + d)
          else None
        case None => None
  }

  /** strconv.ParseUint with base 0, without its 64-bit bound: "0x"/"0X"
      selects hex, a leading "0" octal, anything else decimal. */
  function ParseUintAutoBase(s: string): Option<nat>
  {
    if s == [] then None
    else if s[0] == '0' && |s| > 1 && (s[1] == 'x' || s[1] == 'X') then
      if |s| < 3 then None else Digits(s[2..], 16)
    else if s[0] == '0' then Digits(s, 8)
    else Digits(s, 10)
  }

  /** "0x" or "0X" selects base 16 for the digits after it; the prefix
      alone is a syntax error. */
  lemma {:induction false} ParseUintHex(x: char, d: string)
    requires x == 'x' || x == 'X'
    ensures ParseUintAutoBase(['0', x] + d) == if d == [] then None else Digits(d, 16)
  {
    assert (['0', x] + d)[2..] == d;
  }

  /** Any other literal with a leading "0" is read whole in base 8. */
  lemma {:induction false} ParseUintOctal(d: string)
    requires d == [] || (d[0] != 'x' && d[0] != 'X')
    ensures ParseUintAutoBase("0" + d) == Digits("0" + d, 8)
  {
    assert |"0" + d| > 1 ==> ("0" + d)[1] == d[0];
  }

  /** A literal that does not start with "0" is read in base 10, and the
      empty literal is a syntax error. */
  lemma ParseUintDecimal(d: string)
    requires d == [] || d[0] != '0'
    ensures ParseUintAutoBase(d) == if d == [] then None else Digits(d, 10)
  {
  }

  const Int64Bound: nat := 0x8000_0000_0000_0000

  /** strconv.ParseInt(s, 0, 0) on a 64-bit platform: an optional sign, then
      an unsigned literal in its inferred base; a syntax error or a value
      outside the range of int gives None. */
  function ParseInt(s: string): (r: Option<int>)
    ensures r.Some? ==> InRange(Native, r.value)
  {
    if s == [] then None
    else
      var neg := s[0] == '-';
      var rest := if s[0] == '+' || s[0] == '-' then s[1..] else s;
      match ParseUintAutoBase(rest)
      case None => None
      case Some(un) =>
        if !neg && un >= Int64Bound then None
        else if neg && un > Int64Bound then None
        else
          var n: int := if neg then -(un as int) else un;
          Some(n)
  }

  // ---------------------------------------------------------------- FormatInt

  predicate IsDecimalDigit(c: char)
  {
    '0' <= c <= '9'
  }

  function DigitChar(d: nat): (c: char)
    requires d < 10
    ensures IsDecimalDigit(c) && Digit(c) == Some(d)
  {
    ('0' as int + d) as char
  }

  /** The decimal digits of n, without leading zeros. */
  function FormatNat(n: nat): (r: string)
    ensures |r| >= 1
    ensures forall i :: 0 <= i < |r| ==> IsDecimalDigit(r[i])
    ensures r[0] == '0' <==> n == 0
    ensures n == 0 ==> r == "0"
  {
    if n < 10 then [DigitChar(n)] else FormatNat(n / 10) + [DigitChar(n % 10)]
  }

  /** strconv.FormatInt(n, 10): a minus sign for negatives, then the digits. */
  function FormatInt(n: int): (r: string)
    ensures |r| >= 1
    ensures r[0] == '-' <==> n < 0
    ensures n < 0 ==> r[1..] == FormatNat(-n)
    ensures n >= 0 ==> r == FormatNat(n)
  {
    if n < 0 then "-" + FormatNat(-n) else FormatNat(n)
  }

  lemma {:induction false} DigitsOfFormatNat(n: nat)
    ensures Digits(FormatNat(n), 10) == Some(n)
  {
    if n >= 10 {
      DigitsOfFormatNat(n / 10);
      var s := FormatNat(n);
      assert s[..|s| - 1] == FormatNat(n / 10);
      assert s[|s| - 1] == DigitChar(n % 10);
    }
  }

  /** Decimal rendering and base-0 parsing are inverse on the range of int. */
  lemma ParseFormatInt(n: int)
    requires InRange(Native, n)
    ensures ParseInt(FormatInt(n)) == Some(n)
  {
    var s := FormatInt(n);
    if n == 0 {
      assert s == "0";
      assert Digits(s, 8) == Some(0) by {
        assert s[..0] == [];
      }
    } else if n > 0 {
      DigitsOfFormatNat(n);
      assert ParseUintAutoBase(s) == Some(n);
    } else {
      DigitsOfFormatNat(-n);
      assert s[1..] == FormatNat(-n);
      assert ParseUintAutoBase(s[1..]) == Some(-n);
    }
  }

  /** The base follows the prefix: "0x" hex, a leading "0" octal, otherwise
      decimal, and a sign may precede it. */
  lemma ParseIntExamples()
    ensures ParseInt("0x1F") == Some(31)
    ensures ParseInt("-010") == Some(-8)
    ensures ParseInt("+42") == Some(42)
    ensures ParseInt("08") == None
    ensures ParseInt("0x") == None
    ensures ParseInt("") == None && ParseInt("-") == None
  {
    assert "0x1F"[2..] == "1F" && "1F"[..1] == "1" && "1"[..0] == [];
    assert Digits("1", 16) == Some(1);
    assert Digits("1F", 16) == Some(31);
    assert ParseUintAutoBase("0x1F") == Some(31);
    assert "+42"[1..] == "42" && "42"[..1] == "4" && "4"[..0] == [];
    assert Digits("4", 10) == Some(4);
    assert Digits("42", 10) == Some(42);
    assert ParseUintAutoBase("42") == Some(42);
    assert "-010"[1..] == "010" && "010"[..2] == "01" && "01"[..1] == "0" && "0"[..0] == [];
    assert Digits("0", 8) == Some(0);
    assert Digits("01", 8) == Some(1);
    assert Digits("010", 8) == Some(8);
    assert ParseUintAutoBase("010") == Some(8);
    assert "08"[..1] == "0";
    assert Digits("08", 8) == None;
    assert ParseUintAutoBase("0x") == None;
    assert "-"[1..] == [];
  }

  /** The sign prefixes ParseInt strips: none, "+" or "-". */
  predicate IsSign(p: string)
  {
    p == "" || p == "+" || p == "-"
  }

  /** The int with magnitude `un` and sign prefix `p`, when it fits in 64
      bits: up to 2^63 - 1 unsigned, down to -2^63 with a minus sign. */
  function Signed(p: string, un: Option<nat>): (r: Option<int>)
    ensures r.Some? ==> un.Some? && InRange(Native, r.value)
    ensures r.Some? ==> r.value == if p == "-" then -(un.value as int) else un.value
    ensures un.Some? && (if p == "-" then un.value <= Int64Bound else un.value < Int64Bound) ==> r.Some?
  {
    match un
    case None => None
    case Some(u) =>
      if p == "-" then (if u <= Int64Bound then Some(-(u as int)) else None)
      else if u < Int64Bound then Some(u) else None
  }

  /** ParseInt of a sign followed by a literal that does not itself start
      with a sign reads the literal with ParseUintAutoBase. */
  lemma {:induction false} ParseIntSigned(p: string, lit: string)
    requires IsSign(p) && lit != [] && lit[0] != '+' && lit[0] != '-'
    ensures ParseInt(p + lit) == Signed(p, ParseUintAutoBase(lit))
  {
    if p == "" {
      assert p + lit == lit;
    } else {
      assert (p + lit)[0] == p[0] && (p + lit)[1..] == lit;
    }
  }

  /** "0x" or "0X" after the sign: the rest in base 16. */
  lemma {:induction false} ParseIntHex(p: string, x: char, d: string)
    requires IsSign(p) && (x == 'x' || x == 'X') && d != []
    ensures ParseInt(p + ['0', x] + d) == Signed(p, Digits(d, 16))
  {
    var lit := ['0', x] + d;
    assert p + ['0', x] + d == p + lit;
    ParseIntSigned(p, lit);
    ParseUintHex(x, d);
  }

  /** A leading "0" not followed by an x: the whole literal in base 8. */
  lemma {:induction false} ParseIntOctal(p: string, d: string)
    requires IsSign(p) && (d == [] || (d[0] != 'x' && d[0] != 'X'))
    ensures ParseInt(p + "0" + d) == Signed(p, Digits("0" + d, 8))
  {
    var lit := "0" + d;
    assert p + "0" + d == p + lit;
    ParseIntSigned(p, lit);
    ParseUintOctal(d);
  }

  /** Any other literal: base 10. */
  lemma {:induction false} ParseIntDecimal(p: string, d: string)
    requires IsSign(p) && d != [] && d[0] != '0' && d[0] != '+' && d[0] != '-'
    ensures ParseInt(p + d) == Signed(p, Digits(d, 10))
  {
    ParseIntSigned(p, d);
    ParseUintDecimal(d);
  }

  /** A leading zero does not change the value of a digit string. */
  lemma {:induction false} DigitsLeadingZero(d: string, base: nat)
    requires base > 0
    ensures Digits("0" + d, base) == Digits(d, base)
    decreases |d|
  {
    if d == [] {
      assert ("0" + d)[..0] == [];
    } else {
      var init := d[..|d| - 1];
      assert ("0" + d)[..|"0" + d| - 1] == "0" + init;
      assert ("0" + d)[|"0" + d| - 1] == d[|d| - 1];
      DigitsLeadingZero(init, base);
    }
  }

  /** A string whose first character is not a decimal digit is not decimal. */
  lemma {:induction false} NotDecimal(s: string)
    requires s != [] && (Digit(s[0]) == None || Digit(s[0]).value >= 10)
    ensures Digits(s, 10) == None
    decreases |s|
  {
    if |s| > 1 {
      assert s[..|s| - 1][0] == s[0];
      NotDecimal(s[..|s| - 1]);
    }
  }

  // ------------------------------------------------------------ strings.Fields

  /** The ASCII white space of strings.Fields: \t \n \v \f \r and space. */
  predicate IsSpace(c: char)
  {
    c == ' ' || '\t' <= c <= '\r'
  }

  predicate AllSpace(s: string)
  {
    forall i :: 0 <= i < |s| ==> IsSpace(s[i])
  }

  /** A field: a non-empty run of non-space characters. */
  predicate IsWord(w: string)
  {
    w != [] && forall i :: 0 <= i < |w| ==> !IsSpace(w[i])
  }

  /** The longest prefix of s without white space. */
  function LeadingWord(s: string): (w: string)
    ensures |w| <= |s| && w == s[..|w|]
    ensures forall i :: 0 <= i < |w| ==> !IsSpace(w[i])
    ensures |w| < |s| ==> IsSpace(s[|w|])
  {
    if s == [] || IsSpace(s[0]) then [] else [s[0]] + LeadingWord(s[1..])
  }

  /** strings.Fields: the maximal runs of non-space characters, in order. */
  function Fields(s: string): (r: seq<string>)
    ensures forall i :: 0 <= i < |r| ==> IsWord(r[i])
    decreases |s|
  {
    if s == [] then []
    else if IsSpace(s[0]) then Fields(s[1..])
    else
      var w := LeadingWord(s);
      [w] + Fields(s[|w|..])
  }

  lemma {:induction false} FieldsEmptyIffAllSpace(s: string)
    ensures Fields(s) == [] <==> AllSpace(s)
    decreases |s|
  {
    if s != [] && IsSpace(s[0]) {
      FieldsEmptyIffAllSpace(s[1..]);
      assert forall i :: 1 <= i < |s| ==> s[i] == s[1..][i - 1];
    }
  }

  lemma {:induction false} FieldsSkipSpace(p: string, x: string)
    requires AllSpace(p)
    ensures Fields(p + x) == Fields(x)
    decreases |p|
  {
    if p != [] {
      assert (p + x)[0] == p[0] && IsSpace(p[0]);
      assert (p + x)[1..] == p[1..] + x;
      assert Fields(p + x) == Fields(p[1..] + x);
      FieldsSkipSpace(p[1..], x);
    } else {
      assert p + x == x;
    }
  }

  lemma {:induction false} LeadingWordOf(w: string, x: string)
    requires forall i :: 0 <= i < |w| ==> !IsSpace(w[i])
    requires x == [] || IsSpace(x[0])
    ensures LeadingWord(w + x) == w
    decreases |w|
  {
    if w != [] {
      assert (w + x)[1..] == w[1..] + x;
      LeadingWordOf(w[1..], x);
    }
  }

  lemma FieldsAfterWord(w: string, x: string)
    requires IsWord(w)
    requires x == [] || IsSpace(x[0])
    ensures Fields(w + x) == [w] + Fields(x)
  {
    LeadingWordOf(w, x);
    assert (w + x)[|w|..] == x;
  }

  /** Words separated by white space: pads[0] + words[0] + pads[1] + ... + pads[k]. */
  function Interleave(pads: seq<string>, words: seq<string>): string
    requires |pads| == |words| + 1
  {
    if words == [] then pads[0]
    else pads[0] + (words[0] + Interleave(pads[1..], words[1..]))
  }

  /** Fields recovers the words from any string built by separating them
      with white space, so every field is a maximal non-space run. */
  lemma {:induction false} FieldsOfInterleave(pads: seq<string>, words: seq<string>)
    requires |pads| == |words| + 1
    requires forall i :: 0 <= i < |pads| ==> AllSpace(pads[i])
    requires forall i :: 0 < i < |words| ==> pads[i] != []
    requires forall i :: 0 <= i < |words| ==> IsWord(words[i])
    ensures Fields(Interleave(pads, words)) == words
    decreases |words|
  {
    if words == [] {
      FieldsEmptyIffAllSpace(pads[0]);
    } else {
      var rest := Interleave(pads[1..], words[1..]);
      FieldsSkipSpace(pads[0], words[0] + rest);
      if words[1..] != [] {
        assert pads[1..][0] == pads[1] && pads[1] != [];
        assert rest == pads[1] + (words[1] + Interleave(pads[2..], words[2..]));
        assert rest[0] == pads[1][0];
      } else {
        assert rest == pads[1];
      }
      assert rest == [] || IsSpace(rest[0]);
      FieldsAfterWord(words[0], rest);
      FieldsOfInterleave(pads[1..], words[1..]);
    }
  }

  /** g holds the white space around and between the fields of s: one run
      more than there are fields, non-empty between two fields and at a
      leading space, rebuilding s when interleaved with the fields. */
  ghost predicate IsGapsOf(g: seq<string>, s: string)
  {
    && |g| == |Fields(s)| + 1
    && (forall i :: 0 <= i < |g| ==> AllSpace(g[i]))
    && (forall i :: 0 < i < |Fields(s)| ==> g[i] != [])
    && (s != [] && IsSpace(s[0]) ==> g[0] != [])
    && Interleave(g, Fields(s)) == s
  }

  /** The white space around and between the fields of s. */
  function Gaps(s: string): (g: seq<string>)
    ensures IsGapsOf(g, s)
    decreases |s|
  {
    if s == [] then [[]]
    else if IsSpace(s[0]) then
      var g := Gaps(s[1..]);
      GapsAfterSpace(s, g);
      g[0 := [s[0]] + g[0]]
    else
      var w := LeadingWord(s);
      var g := Gaps(s[|w|..]);
      GapsAfterWord(s, g);
      [[]] + g
  }

  /** A leading space joins the first gap of the rest. */
  lemma GapsAfterSpace(s: string, g: seq<string>)
    requires s != [] && IsSpace(s[0]) && IsGapsOf(g, s[1..])
    ensures IsGapsOf(g[0 := [s[0]] + g[0]], s)
  {
    var g' := g[0 := [s[0]] + g[0]];
    InterleaveWiderPad(s[0], g, Fields(s));
    assert AllSpace(g'[0]) by {
      assert forall i :: 1 <= i < |g'[0]| ==> g'[0][i] == g[0][i - 1];
    }
  }

  /** A leading word is preceded by an empty gap. */
  lemma GapsAfterWord(s: string, g: seq<string>)
    requires s != [] && !IsSpace(s[0]) && IsGapsOf(g, s[|LeadingWord(s)|..])
    ensures IsGapsOf([[]] + g, s)
  {
    var w := LeadingWord(s);
    var rest := s[|w|..];
    var f := Fields(rest);
    assert w + rest == s;
    assert f != [] ==> g[0] != [] by {
      if f != [] {
        assert rest != [] && rest[0] == s[|w|];
      }
    }
    EmptyGapFirst(g, |f|);
  }

  /** Putting an empty gap in front keeps every gap white space and moves
      the inner gaps one place on. */
  lemma EmptyGapFirst(g: seq<string>, n: nat)
    requires |g| == n + 1
    requires forall i :: 0 <= i < |g| ==> AllSpace(g[i])
    requires forall i :: 0 < i < n ==> g[i] != []
    requires n > 0 ==> g[0] != []
    ensures forall i :: 0 <= i < |[[]] + g| ==> AllSpace(([[]] + g)[i])
    ensures forall i :: 0 < i < n + 1 ==> ([[]] + g)[i] != []
  {
    assert forall i :: 0 < i < |[[]] + g| ==> ([[]] + g)[i] == g[i - 1];
  }

  /** Widening the first pad by one character widens the whole string by it. */
  lemma InterleaveWiderPad(c: char, g: seq<string>, words: seq<string>)
    requires |g| == |words| + 1
    ensures Interleave(g[0 := [c] + g[0]], words) == [c] + Interleave(g, words)
  {
  }

  /** Every string is its fields separated by its gaps: together with
      FieldsOfInterleave this pins Fields down as the maximal non-space runs. */
  lemma FieldsDecompose(s: string)
    ensures exists pads ::
              && |pads| == |Fields(s)| + 1
              && (forall i :: 0 <= i < |pads| ==> AllSpace(pads[i]))
              && (forall i :: 0 < i < |Fields(s)| ==> pads[i] != [])
              && Interleave(pads, Fields(s)) == s
  {
    var g := Gaps(s);
  }

  /** The concrete case: splitting "  a  b " gives ["a", "b"]. */
  lemma FieldsExample()
    ensures Fields("  a  b ") == ["a", "b"]
  {
    var pads, words := ["  ", "  ", " "], ["a", "b"];
    assert Interleave(pads, words) == "  a  b ";
    FieldsOfInterleave(pads, words);
  }
}
