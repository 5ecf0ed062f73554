/**
  The pieces of JavaScript string and number behaviour that the bug-tracker
  handlers rely on: `parseInt` on a string (decimal prefix), `String(n)` of an
  integer number, `String(undefined)`, `toLowerCase` (its ASCII part) and
  `String.prototype.includes`.
 */
module JsText {

  /** A query or body field that may be absent (`undefined` in JavaScript). */
  datatype Option<T> = None | Some(value: T)

  /** A JavaScript number as the handlers produce it: NaN or an integer. */
  datatype Num = NaN | Int(n: int)

  /** `String(v)` of a possibly absent string: `undefined` prints as "undefined". */
  function ToJsString(q: Option<string>): (s: string)
    ensures q.Some? ==> s == q.value
    ensures q.None? ==> s == "undefined"
  {
    match q
    case None => "undefined"
    case Some(v) => v
  }

  // ---------------------------------------------------------------------
  // parseInt

  /** The white space and line terminators that `parseInt` skips at the start. */
  predicate IsSpace(c: char) {
    ('\t' <= c <= '\r') || c == ' '
    || ('\U{A0}' <= c
        && (c == '\U{A0}' || c == '\U{1680}' || ('\U{2000}' <= c <= '\U{200A}')
            || ('\U{2028}' <= c <= '\U{2029}') || c == '\U{202F}' || c == '\U{205F}'
            || c == '\U{3000}' || c == '\U{FEFF}'))
  }

  predicate IsDigit(c: char) {
    '0' <= c <= '9'
  }

  predicate AllDigits(s: string) {
    forall i :: 0 <= i < |s| ==> IsDigit(s[i])
  }

  /** `s` without its leading white space. */
  function TrimStart(s: string): (t: string)
    ensures |t| <= |s|
    ensures t == [] || !IsSpace(t[0])
  {
    if s != [] && IsSpace(s[0]) then TrimStart(s[1..]) else s
  }

  /** The longest prefix of `s` that consists of decimal digits. */
  function DigitPrefix(s: string): (d: string)
    ensures d <= s
    ensures AllDigits(d)
    ensures |d| < |s| ==> !IsDigit(s[|d|])
  {
    if s != [] && IsDigit(s[0]) then [s[0]] + DigitPrefix(s[1..]) else []
  }

  function DigitValue(c: char): nat
    requires IsDigit(c)
  {
    (c as int) - ('0' as int)
  }

  /** The value of a string of decimal digits, most significant digit first. */
  function DecimalValue(ds: string): nat
    requires AllDigits(ds)
  {
    if ds == [] then 0 else 10 * DecimalValue(ds[..|ds| - 1]) + DigitValue(ds[|ds| - 1])
  }

  /** The number a run of leading digits denotes, NaN when there are none. */
  function ParseDigits(u: string): Num {
    var ds := DigitPrefix(u);
    if ds == [] then NaN else Int(DecimalValue(ds))
  }

  /** Unary minus on a parsed number; NaN stays NaN. */
  function Negate(x: Num): Num {
    match x
    case NaN => NaN
    case Int(v) => Int(0 - v)
  }

  /** What `parseInt` does once the leading white space is gone: an optional sign, then digits. */
  function ParseSigned(t: string): Num {
    if t != [] && t[0] == '-' then Negate(ParseDigits(t[1..]))
    else if t != [] && t[0] == '+' then ParseDigits(t[1..])
    else ParseDigits(t)
  }

  /**
    JavaScript `parseInt(s)` with the default radix: skip leading white space,
    take an optional sign, then the longest run of decimal digits; no digits
    means NaN. Anything after the digits is ignored.
   */
  function ParseInt(s: string): Num {
    ParseSigned(TrimStart(s))
  }

  /** `parseInt(q)` for a possibly absent query value (`parseInt(undefined)`). */
  function ParseQuery(q: Option<string>): Num {
    ParseInt(ToJsString(q))
  }

  // ---------------------------------------------------------------------
  // String(n)

  function DigitChar(d: nat): (c: char)
    requires d < 10
    ensures IsDigit(c) && DigitValue(c) == d
  {
    ('0' as int + d) as char
  }

  /** The decimal digits of `n`, without leading zeros. */
  function NatToDigits(n: nat): (ds: string)
    ensures ds != [] && AllDigits(ds)
    ensures DecimalValue(ds) == n
    ensures ds[0] == '0' ==> n == 0
    ensures |ds| > 1 ==> ds[0] != '0'
  {
    if n < 10 then [DigitChar(n)]
    else
      var front := NatToDigits(n / 10);
      var ds := front + [DigitChar(n % 10)];
      assert ds[..|ds| - 1] == front;
      ds
  }

  /** `String(n)` for an integer number: an optional minus sign and the digits. */
  function IntToString(n: int): (s: string)
    ensures s != [] && (s[0] == '-' <==> n < 0)
    ensures AllDigits(s[1..]) && (n >= 0 ==> AllDigits(s))
    ensures n >= 0 && |s| > 1 ==> s[0] != '0'
    ensures n < 0 ==> |s| > 1 && s[1] != '0'
  {
    if n < 0 then "-" + NatToDigits(-n) else NatToDigits(n)
  }

  /** `String(x)` for a number that may be NaN. */
  function NumToString(x: Num): string {
    match x
    case NaN => "NaN"
    case Int(n) => IntToString(n)
  }

  /** The digit prefix of a string of digits followed by a non-digit is those digits. */
  lemma {:induction false} DigitPrefixOfDigits(ds: string, rest: string)
    requires AllDigits(ds)
    requires rest == [] || !IsDigit(rest[0])
    ensures DigitPrefix(ds + rest) == ds
  {
    if ds != [] {
      assert (ds + rest)[1..] == ds[1..] + rest;
      DigitPrefixOfDigits(ds[1..], rest);
    } else {
      assert ds + rest == rest;
    }
  }

  /**
    `TrimStart` removes exactly the leading white space: the result is a
    suffix of the input and everything before it is white space.
   */
  lemma {:induction false} TrimStartDropsSpace(s: string)
    ensures TrimStart(s) == s[|s| - |TrimStart(s)|..]
    ensures forall j :: 0 <= j < |s| - |TrimStart(s)| ==> IsSpace(s[j])
  {
    if s != [] && IsSpace(s[0]) {
      var t := TrimStart(s);
      TrimStartDropsSpace(s[1..]);
      assert s[1..][|s| - 1 - |t|..] == s[|s| - |t|..];
      forall j | 0 <= j < |s| - |t|
        ensures IsSpace(s[j])
      {
        if j > 0 {
          assert s[j] == s[1..][j - 1];
        }
      }
    }
  }

  /** The white space `TrimStart` removes, as a prefix of the input. */
  lemma LeadingSpace(s: string) returns (ws: string)
    ensures s == ws + TrimStart(s)
    ensures forall j :: 0 <= j < |ws| ==> IsSpace(ws[j])
  {
    var t := TrimStart(s);
    TrimStartDropsSpace(s);
    ws := s[..|s| - |t|];
    forall j | 0 <= j < |ws|
      ensures IsSpace(ws[j])
    {
      assert ws[j] == s[j];
    }
  }

  /** White space in front of text that does not start with white space is trimmed off. */
  lemma {:induction false} TrimStartOfSpaces(ws: string, t: string)
    requires forall j :: 0 <= j < |ws| ==> IsSpace(ws[j])
    requires t == [] || !IsSpace(t[0])
    ensures TrimStart(ws + t) == t
  {
    if ws == [] {
      assert ws + t == t;
    } else {
      assert (ws + t)[1..] == ws[1..] + t;
      TrimStartOfSpaces(ws[1..], t);
    }
  }

  /** Text that does not start with white space is not trimmed. */
  lemma TrimStartOfNonSpace(s: string)
    requires s != [] && !IsSpace(s[0])
    ensures TrimStart(s) == s
  {
  }

  /** A run of digits followed by a non-digit parses as its value. */
  lemma ParseDigitsOfDigits(ds: string, rest: string)
    requires ds != [] && AllDigits(ds)
    requires rest == [] || !IsDigit(rest[0])
    ensures ParseDigits(ds + rest) == Int(DecimalValue(ds))
  {
    DigitPrefixOfDigits(ds, rest);
  }

  /** `parseInt(String(m) + rest)` for a natural number m. */
  lemma ParseIntOfNatToDigits(m: nat, rest: string)
    requires rest == [] || !IsDigit(rest[0])
    ensures ParseInt(NatToDigits(m) + rest) == Int(m)
  {
    var ds := NatToDigits(m);
    var s := ds + rest;
    ParseDigitsOfDigits(ds, rest);
    assert s[0] == ds[0];
    TrimStartOfNonSpace(s);
  }

  /** `parseInt("-" + String(m) + rest)` for a natural number m. */
  lemma ParseIntOfNegative(m: nat, rest: string)
    requires rest == [] || !IsDigit(rest[0])
    ensures ParseInt("-" + (NatToDigits(m) + rest)) == Int(0 - m)
  {
    var ds := NatToDigits(m);
    var s := "-" + (ds + rest);
    ParseDigitsOfDigits(ds, rest);
    assert s[1..] == ds + rest;
    TrimStartOfNonSpace(s);
  }

  /**
    `parseInt` reads back what `String(n)` printed, also when anything that
    does not start with a digit follows it ("12px" reads as 12).
   */
  lemma ParseIntOfIntToString(n: int, rest: string)
    requires rest == [] || !IsDigit(rest[0])
    ensures ParseInt(IntToString(n) + rest) == Int(n)
  {
    if n < 0 {
      assert IntToString(n) + rest == "-" + (NatToDigits(-n) + rest);
      ParseIntOfNegative(-n, rest);
    } else {
      ParseIntOfNatToDigits(n, rest);
    }
  }

  /** The three sign prefixes `parseInt` accepts: none, "+" and "-". */
  predicate IsSign(sign: string) {
    sign == "" || sign == "+" || sign == "-"
  }

  /** The value of a run of digits under a sign prefix. */
  function SignedValue(sign: string, ds: string): int
    requires AllDigits(ds)
  {
    if sign == "-" then 0 - DecimalValue(ds) else DecimalValue(ds)
  }

  /**
    White space, a sign, digits, then anything that does not start with a
    digit: `parseInt` reads the signed value of the digits.
   */
  lemma ParseIntOfParts(ws: string, sign: string, ds: string, rest: string)
    requires forall j :: 0 <= j < |ws| ==> IsSpace(ws[j])
    requires IsSign(sign)
    requires ds != [] && AllDigits(ds)
    requires rest == [] || !IsDigit(rest[0])
    ensures ParseInt(ws + (sign + (ds + rest))) == Int(SignedValue(sign, ds))
  {
    var u := ds + rest;
    var t := sign + u;
    assert t[0] == if sign == "" then ds[0] else sign[0];
    TrimStartOfSpaces(ws, t);
    ParseDigitsOfDigits(ds, rest);
    if sign != "" {
      assert t[1..] == u;
    } else {
      assert t == u;
    }
  }

  /** What `ParseSigned` reads when it finds a number: a sign, digits and the rest. */
  lemma ParseSignedSplit(t: string) returns (sign: string, ds: string, rest: string)
    requires ParseSigned(t).Int?
    ensures t == sign + (ds + rest)
    ensures IsSign(sign) && ds != [] && AllDigits(ds)
    ensures rest == [] || !IsDigit(rest[0])
    ensures ParseSigned(t) == Int(SignedValue(sign, ds))
  {
    var u;
    if t != [] && t[0] == '-' {
      sign, u := "-", t[1..];
      assert ParseSigned(t) == Negate(ParseDigits(u));
    } else if t != [] && t[0] == '+' {
      sign, u := "+", t[1..];
      assert ParseSigned(t) == ParseDigits(u);
    } else {
      sign, u := "", t;
      assert ParseSigned(t) == ParseDigits(u);
    }
    assert t == sign + u;
    ds := DigitPrefix(u);
    rest := u[|ds|..];
    assert u == ds + rest;
  }

  /**
    Every number `parseInt` returns comes from such a split of the input: if
    the result is not NaN, the input is white space, a sign and at least one
    digit, followed by anything that does not start with a digit.
   */
  lemma ParseIntSplit(s: string) returns (ws: string, sign: string, ds: string, rest: string)
    requires ParseInt(s).Int?
    ensures s == ws + (sign + (ds + rest))
    ensures forall j :: 0 <= j < |ws| ==> IsSpace(ws[j])
    ensures IsSign(sign) && ds != [] && AllDigits(ds)
    ensures rest == [] || !IsDigit(rest[0])
    ensures ParseInt(s) == Int(SignedValue(sign, ds))
  {
    var t := TrimStart(s);
    ws := LeadingSpace(s);
    sign, ds, rest := ParseSignedSplit(t);
  }

  /** Parsing the printed form of a number gives the number back, NaN included. */
  lemma ReparseNum(x: Num)
    ensures ParseInt(NumToString(x)) == x
  {
    match x
    case NaN =>
      assert TrimStart("NaN") == "NaN";
      assert DigitPrefix("NaN") == [];
    case Int(n) =>
      ParseIntOfIntToString(n, []);
      assert IntToString(n) + [] == IntToString(n);
  }

  /** An absent query value parses as NaN. */
  lemma ParseQueryOfAbsent()
    ensures ParseQuery(None) == NaN
  {
    assert TrimStart("undefined") == "undefined";
    assert DigitPrefix("undefined") == [];
  }

  /**
    Leading zeros, white space, a sign and trailing text are all accepted,
    so different strings parse to the same number.
   */
  lemma ParseIntExamples()
    ensures ParseInt("01") == Int(1) && "01" != IntToString(1)
    ensures ParseInt(" -7x") == Int(-7)
    ensures ParseInt("") == NaN && ParseInt("abc") == NaN && ParseInt("-") == NaN
  {
    assert DigitPrefix("01") == "01" by {
      DigitPrefixOfDigits("01", []);
      assert "01" + [] == "01";
    }
    assert DecimalValue("01") == 1 by {
      assert "01"[..1] == "0";
    }
    assert TrimStart(" -7x") == "-7x";
    assert DigitPrefix("7x") == "7";
    assert DigitPrefix("abc") == [];
    assert DigitPrefix("") == [];
    assert IntToString(1) == "1";
  }

  // ---------------------------------------------------------------------
  // toLowerCase and includes

  function LowerChar(c: char): char {
    if 'A' <= c <= 'Z' then (c as int + 32) as char else c
  }

  /**
    `s.toLowerCase()` restricted to ASCII letters: the result has no capital
    letter, each capital becomes the small letter at the same place in the
    alphabet, and every other character is kept.
   */
  function Lower(s: string): (t: string)
    ensures |t| == |s|
    ensures forall i :: 0 <= i < |t| ==> !('A' <= t[i] <= 'Z')
    ensures forall i :: 0 <= i < |s| && !('A' <= s[i] <= 'Z') ==> t[i] == s[i]
    ensures forall i :: 0 <= i < |s| && 'A' <= s[i] <= 'Z' ==>
      'a' <= t[i] <= 'z' && t[i] as int - 'a' as int == s[i] as int - 'A' as int
  {
    seq(|s|, i requires 0 <= i < |s| => LowerChar(s[i]))
  }

  /** `needle` occurs in `s` starting at position `i`. */
  predicate OccursAt(s: string, needle: string, i: int) {
    0 <= i && i + |needle| <= |s| && s[i..i + |needle|] == needle
  }

  /** `s.includes(needle)`, computed by trying every starting position in turn. */
  function Includes(s: string, needle: string): bool
    decreases |s|
  {
    (|needle| <= |s| && s[..|needle|] == needle) || (s != [] && Includes(s[1..], needle))
  }

  /** `Includes` holds exactly when `needle` occurs at some position of `s`. */
  lemma {:induction false} IncludesIff(s: string, needle: string)
    ensures Includes(s, needle) <==> exists i :: OccursAt(s, needle, i)
  {
    if |needle| <= |s| && s[..|needle|] == needle {
      assert OccursAt(s, needle, 0);
    } else if s == [] {
      forall i | OccursAt(s, needle, i) ensures false {
      }
    } else {
      IncludesIff(s[1..], needle);
      if Includes(s[1..], needle) {
        var i :| OccursAt(s[1..], needle, i);
        assert s[1..][i..i + |needle|] == s[i + 1..i + 1 + |needle|];
        assert OccursAt(s, needle, i + 1);
      } else {
        forall i | OccursAt(s, needle, i) ensures false {
          if i > 0 {
            var tail := s[1..];
            assert i - 1 + |needle| <= |tail|;
            assert tail[i - 1..i - 1 + |needle|] == s[i..i + |needle|];
            assert OccursAt(tail, needle, i - 1);
          }
        }
      }
    }
  }

  /** Every string includes the empty string and itself. */
  lemma IncludesTrivial(s: string)
    ensures Includes(s, [])
    ensures Includes(s, s)
  {
    assert s[..0] == [];
    assert s[..|s|] == s;
  }

  /** Lower-casing is idempotent: a lower-cased string has nothing left to lower-case. */
  lemma LowerIdempotent(s: string)
    ensures Lower(Lower(s)) == Lower(s)
  {
  }

  /** `c` is the capital letter whose small letter is `d`. */
  predicate CapitalOf(c: char, d: char) {
    'A' <= c <= 'Z' && d as int == c as int + 32
  }

  /**
    Two strings that differ only in the case of some ASCII letters lower-case
    to the same string.
   */
  lemma {:induction false} LowerIgnoresCase(s: string, u: string)
    requires |s| == |u|
    requires forall i :: 0 <= i < |s| ==> s[i] == u[i] || CapitalOf(s[i], u[i]) || CapitalOf(u[i], s[i])
    ensures Lower(s) == Lower(u)
  {
    forall i | 0 <= i < |s|
      ensures Lower(s)[i] == Lower(u)[i]
    {
      if CapitalOf(s[i], u[i]) {
        assert !('A' <= u[i] <= 'Z');
      } else if CapitalOf(u[i], s[i]) {
        assert !('A' <= s[i] <= 'Z');
      }
    }
  }

  /** Lower-casing matches regardless of the case of the keyword or the title. */
  lemma LowerExamples()
    ensures Lower("BUG") == "bug"
    ensures Includes(Lower("bug report"), Lower("BUG"))
    ensures Lower(Lower("Bug Report")) == Lower("Bug Report")
  {
    assert Lower("bug report")[..3] == "bug";
  }
}
