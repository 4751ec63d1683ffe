/**
  The text that Rust's `f64::from_str` accepts, and the number it denotes.

  After lower-casing its letters, an accepted string matches

      Float    ::= Sign? ( "inf" | "infinity" | "nan" | Number )
      Number   ::= ( Digit+ | Digit+ "." Digit* | Digit* "." Digit+ ) Exponent?
      Exponent ::= "e" Sign? Digit+
      Sign     ::= "+" | "-"

  and nothing else is accepted: no surrounding blanks, no digit separators.
  A `Number` is given its exact decimal value (a real); rounding it to the
  nearest binary64 value is not modelled.

  `Literal` is the parse tree of a `Number`, `Render` writes one back as text,
  and `Scan` is the recogniser; `Scan` and `Render` are inverse to each other
  (`Scan`'s postcondition and `ScanRender`).
*/
module FloatLiteral {
  import opened Wrappers

  datatype Sign = NoSign | Plus | Minus

  datatype Exponent = Exponent(marker: char, sign: Sign, digits: string)

  datatype Literal = Literal(
    sign: Sign,
    intDigits: string,
    point: bool,
    fracDigits: string,
    exponent: Option<Exponent>)

  /** The outcome of a successful parse. */
  datatype Float = Finite(value: real) | Infinite(negative: bool) | NaN

  predicate IsDigit(c: char) {
    '0' <= c <= '9'
  }

  predicate IsDigits(s: string) {
    forall i :: 0 <= i < |s| ==> IsDigit(s[i])
  }

  predicate IsMarker(c: char) {
    c == 'e' || c == 'E'
  }

  /** A parse tree that the grammar of `Number` can produce. */
  predicate WellFormed(lit: Literal) {
    && IsDigits(lit.intDigits)
    && IsDigits(lit.fracDigits)
    && (lit.point || lit.fracDigits == [])
    && |lit.intDigits| + |lit.fracDigits| > 0
    && (lit.exponent.Some? ==>
          && IsMarker(lit.exponent.value.marker)
          && IsDigits(lit.exponent.value.digits)
          && |lit.exponent.value.digits| > 0)
  }

  // ---------------------------------------------------------------------------
  // Text of a literal

  function SignText(sign: Sign): string {
    match sign
    case NoSign => ""
    case Plus => "+"
    case Minus => "-"
  }

  function ExponentText(e: Option<Exponent>): string {
    match e
    case None => ""
    case Some(x) => [x.marker] + SignText(x.sign) + x.digits
  }

  function MantissaText(lit: Literal): string {
    lit.intDigits + (if lit.point then "." + lit.fracDigits else "")
  }

  function Render(lit: Literal): string {
    SignText(lit.sign) + MantissaText(lit) + ExponentText(lit.exponent)
  }

  // ---------------------------------------------------------------------------
  // Value of a literal

  function DigitValue(c: char): nat
    requires IsDigit(c)
  {
    (c as int - '0' as int) as nat
  }

  /** The natural number a string of decimal digits denotes (most significant first). */
  function DigitsValue(s: string): nat
    requires IsDigits(s)
  {
    if s == [] then 0 else DigitsValue(s[..|s| - 1]) * 10 + DigitValue(s[|s| - 1])
  }

  function Pow10(n: nat): (p: nat)
    ensures p >= 1
  {
    if n == 0 then 1 else 10 * Pow10(n - 1)
  }

  /** x times ten to the power e. */
  function Scale(x: real, e: int): real
    decreases if e >= 0 then e else -e
  {
    if e == 0 then x
    else if e > 0 then Scale(x, e - 1) * 10.0
    else Scale(x, e + 1) / 10.0
  }

  function Signed(sign: Sign, x: real): real {
    if sign == Minus then -x else x
  }

  function ExponentValue(e: Option<Exponent>): int
    requires e.Some? ==> IsDigits(e.value.digits)
  {
    match e
    case None => 0
    case Some(x) => if x.sign == Minus then -(DigitsValue(x.digits) as int) else DigitsValue(x.digits)
  }

  /**
    The value of a `Number`: all its digits read as one integer, scaled down by
    the number of fraction digits and up by the exponent.
  */
  function LiteralValue(lit: Literal): (v: real)
    requires WellFormed(lit)
    ensures lit.sign != Minus ==> v >= 0.0
    ensures lit.sign == Minus ==> v <= 0.0
    ensures v == 0.0 <==> AllZeros(lit.intDigits + lit.fracDigits)
  {
    var digits := lit.intDigits + lit.fracDigits;
    assert IsDigits(digits) by {
      forall i | 0 <= i < |digits| ensures IsDigit(digits[i]) {
        if i >= |lit.intDigits| { assert digits[i] == lit.fracDigits[i - |lit.intDigits|]; }
      }
    }
    DigitsZero(digits);
    ScaleKeepsSign(DigitsValue(digits) as real, ExponentValue(lit.exponent) - |lit.fracDigits|);
    Signed(lit.sign, Scale(DigitsValue(digits) as real, ExponentValue(lit.exponent) - |lit.fracDigits|))
  }

  predicate AllZeros(s: string) {
    forall i :: 0 <= i < |s| ==> s[i] == '0'
  }

  /** A string of digits denotes zero exactly when every digit is `0`. */
  lemma {:induction false} DigitsZero(s: string)
    requires IsDigits(s)
    ensures DigitsValue(s) == 0 <==> AllZeros(s)
  {
    if s != [] {
      var init := s[..|s| - 1];
      DigitsZero(init);
      assert AllZeros(s) <==> AllZeros(init) && s[|s| - 1] == '0' by {
        if AllZeros(init) && s[|s| - 1] == '0' {
          forall i | 0 <= i < |s| ensures s[i] == '0' {
            if i < |s| - 1 { assert s[i] == init[i]; }
          }
        }
      }
    }
  }

  /** Scaling by a power of ten keeps a number positive, or zero. */
  lemma {:induction false} ScaleKeepsSign(x: real, e: int)
    requires x >= 0.0
    ensures x > 0.0 ==> Scale(x, e) > 0.0
    ensures x == 0.0 ==> Scale(x, e) == 0.0
    decreases if e >= 0 then e else -e
  {
    if e > 0 {
      ScaleKeepsSign(x, e - 1);
    } else if e < 0 {
      ScaleKeepsSign(x, e + 1);
    }
  }

  // ---------------------------------------------------------------------------
  // Recognising a literal

  /** The position of the first character of `s` that is in `cs`, or `|s|` if there is none. */
  function IndexOfAny(s: string, cs: set<char>): (i: nat)
    ensures i <= |s|
    ensures forall j :: 0 <= j < i ==> s[j] !in cs
    ensures i < |s| ==> s[i] in cs
  {
    if s == [] || s[0] in cs then 0 else 1 + IndexOfAny(s[1..], cs)
  }

  /** An optional leading sign, and the rest of the text. */
  function SplitSign(s: string): (Sign, string) {
    if |s| > 0 && s[0] == '+' then (Plus, s[1..])
    else if |s| > 0 && s[0] == '-' then (Minus, s[1..])
    else (NoSign, s)
  }

  lemma SplitSignText(s: string)
    ensures SignText(SplitSign(s).0) + SplitSign(s).1 == s
  {
  }

  /** The part of an exponent after its marker: an optional sign and at least one digit. */
  function ScanExponent(marker: char, rest: string): (r: Option<Exponent>)
    ensures r.Some? ==> r.value.marker == marker && IsDigits(r.value.digits) && |r.value.digits| > 0
    ensures r.Some? ==> SignText(r.value.sign) + r.value.digits == rest
  {
    var (sign, digits) := SplitSign(rest);
    SplitSignText(rest);
    if |digits| > 0 && IsDigits(digits) then Some(Exponent(marker, sign, digits)) else None
  }

  /** The parse tree of `s` as a `Number` with its optional sign, if `s` is one. */
  function Scan(s: string): (r: Option<Literal>)
    ensures r.Some? ==> WellFormed(r.value) && Render(r.value) == s
  {
    var (sign, body) := SplitSign(s);
    match ScanNumber(body)
    case None => None
    case Some(n) =>
      SplitSignText(s);
      SignedRender(n, sign);
      Some(n.(sign := sign))
  }

  /** The parse tree of an unsigned `Number`, if `body` is one. */
  function ScanNumber(body: string): (r: Option<Literal>)
    ensures r.Some? ==> WellFormed(r.value) && r.value.sign == NoSign
    ensures r.Some? ==> MantissaText(r.value) + ExponentText(r.value.exponent) == body
  {
    var e := IndexOfAny(body, {'e', 'E'});
    match ScanMantissa(body[..e])
    case None => None
    case Some(lit) =>
      if e == |body| then
        assert body[..e] == body;
        Some(lit)
      else
        match ScanExponent(body[e], body[e + 1..])
        case None => None
        case Some(x) =>
          WithExponent(lit, x, body, e);
          Some(lit.(exponent := Some(x)))
  }

  /** Attaching the exponent found at `e` to the mantissa before it gives back all of `body`. */
  lemma WithExponent(lit: Literal, x: Exponent, body: string, e: nat)
    requires e < |body| && IsMarker(body[e])
    requires WellFormed(lit) && lit.exponent.None? && MantissaText(lit) == body[..e]
    requires ScanExponent(body[e], body[e + 1..]) == Some(x)
    ensures WellFormed(lit.(exponent := Some(x)))
    ensures MantissaText(lit.(exponent := Some(x))) + ExponentText(Some(x)) == body
  {
    assert MantissaText(lit.(exponent := Some(x))) == MantissaText(lit);
    ExponentTextOfScan(body[e], body[e + 1..]);
    SplitAround(body, e);
  }

  lemma SplitAround(s: string, e: nat)
    requires e < |s|
    ensures s[..e] + ([s[e]] + s[e + 1..]) == s
  {
  }

  /** The parse tree of a `Number` without sign and exponent, if `mantissa` is one. */
  function ScanMantissa(mantissa: string): (r: Option<Literal>)
    ensures r.Some? ==> WellFormed(r.value) && r.value.sign == NoSign && r.value.exponent.None?
    ensures r.Some? ==> MantissaText(r.value) == mantissa
  {
    var split := SplitMantissa(mantissa);
    if IsDigits(split.1) && IsDigits(split.2) && |split.1| + |split.2| > 0
    then Some(Literal(NoSign, split.1, split.0, split.2, None))
    else None
  }

  lemma ExponentTextOfScan(marker: char, rest: string)
    requires ScanExponent(marker, rest).Some?
    ensures ExponentText(ScanExponent(marker, rest)) == [marker] + rest
  {
  }

  /** A mantissa cut at its first point: whether there is one, the digits before it and after it. */
  function SplitMantissa(mantissa: string): (r: (bool, string, string))
    ensures r.0 <==> exists i :: 0 <= i < |mantissa| && mantissa[i] == '.'
    ensures forall i :: 0 <= i < |r.1| ==> r.1[i] != '.'
    ensures r.1 + (if r.0 then "." + r.2 else "") == mantissa
    ensures !r.0 ==> r.2 == ""
  {
    var p := IndexOfAny(mantissa, {'.'});
    if p < |mantissa| then
      assert mantissa == mantissa[..p] + "." + mantissa[p + 1..];
      (true, mantissa[..p], mantissa[p + 1..])
    else
      (false, mantissa, "")
  }

  /** A sign in front of the text of a literal. */
  lemma SignedRender(lit: Literal, sign: Sign)
    ensures Render(lit.(sign := sign)) == SignText(sign) + (MantissaText(lit) + ExponentText(lit.exponent))
  {
    var m, x := MantissaText(lit), ExponentText(lit.exponent);
    assert MantissaText(lit.(sign := sign)) == m;
    assert SignText(sign) + m + x == SignText(sign) + (m + x);
  }

  /** `IndexOfAny` finds exactly the first position holding one of `cs`. */
  lemma IndexOfAnyIs(s: string, cs: set<char>, k: nat)
    requires k <= |s|
    requires forall j :: 0 <= j < k ==> s[j] !in cs
    requires k < |s| ==> s[k] in cs
    ensures IndexOfAny(s, cs) == k
  {
  }

  lemma MantissaShape(lit: Literal)
    requires WellFormed(lit)
    ensures forall j :: 0 <= j < |MantissaText(lit)| ==> IsDigit(MantissaText(lit)[j]) || MantissaText(lit)[j] == '.'
  {
    var m := MantissaText(lit);
    forall j | 0 <= j < |m| ensures IsDigit(m[j]) || m[j] == '.' {
      if j >= |lit.intDigits| + 1 {
        assert m[j] == lit.fracDigits[j - |lit.intDigits| - 1];
      }
    }
  }

  lemma SplitMantissaOf(lit: Literal)
    requires WellFormed(lit)
    ensures SplitMantissa(MantissaText(lit)) == (lit.point, lit.intDigits, lit.fracDigits)
  {
    var m := MantissaText(lit);
    IndexOfAnyIs(m, {'.'}, |lit.intDigits|);
    assert m[..|lit.intDigits|] == lit.intDigits;
    if lit.point {
      assert m[|lit.intDigits| + 1..] == lit.fracDigits;
    }
  }

  lemma ScanExponentOf(x: Exponent)
    requires IsDigits(x.digits) && |x.digits| > 0
    ensures ScanExponent(x.marker, SignText(x.sign) + x.digits) == Some(x)
  {
    var rest := SignText(x.sign) + x.digits;
    assert rest[|SignText(x.sign)|] == x.digits[0];
    assert rest[|SignText(x.sign)|..] == x.digits;
  }

  lemma ScanMantissaOf(lit: Literal)
    requires WellFormed(lit) && lit.sign == NoSign
    ensures ScanMantissa(MantissaText(lit)) == Some(lit.(exponent := None))
  {
    SplitMantissaOf(lit);
  }

  lemma ScanNumberOf(lit: Literal)
    requires WellFormed(lit) && lit.sign == NoSign
    ensures ScanNumber(MantissaText(lit) + ExponentText(lit.exponent)) == Some(lit)
  {
    var m := MantissaText(lit);
    var body := m + ExponentText(lit.exponent);
    MarkerAfterMantissa(lit);
    ScanMantissaOf(lit);
    assert ScanMantissa(body[..|m|]) == Some(lit.(exponent := None));
    if lit.exponent.Some? {
      var ex := lit.exponent.value;
      assert body[|m| + 1..] == SignText(ex.sign) + ex.digits;
      ScanExponentOf(ex);
      assert ScanExponent(body[|m|], body[|m| + 1..]) == Some(ex);
    } else {
      assert body == m;
    }
  }

  /** In the text of a literal, the first exponent marker is the one right after the mantissa. */
  lemma MarkerAfterMantissa(lit: Literal)
    requires WellFormed(lit)
    ensures IndexOfAny(MantissaText(lit) + ExponentText(lit.exponent), {'e', 'E'}) == |MantissaText(lit)|
    ensures (MantissaText(lit) + ExponentText(lit.exponent))[..|MantissaText(lit)|] == MantissaText(lit)
    ensures lit.exponent.Some? ==> (MantissaText(lit) + ExponentText(lit.exponent))[|MantissaText(lit)|] == lit.exponent.value.marker
  {
    var m := MantissaText(lit);
    var body := m + ExponentText(lit.exponent);
    MantissaShape(lit);
    assert body[..|m|] == m;
    forall j | 0 <= j < |m| ensures body[j] !in {'e', 'E'} {
      assert body[j] == m[j];
    }
    IndexOfAnyIs(body, {'e', 'E'}, |m|);
  }

  /**
    Every well-formed parse tree is recognised from its text, and as itself:
    with the contract of `Scan`, `Scan` and `Render` are inverse to each other.
  */
  lemma ScanRender(lit: Literal)
    requires WellFormed(lit)
    ensures Scan(Render(lit)) == Some(lit)
  {
    SplitSignOfRender(lit);
    ScanNumberOf(lit.(sign := NoSign));
    assert MantissaText(lit.(sign := NoSign)) == MantissaText(lit);
  }

  predicate NoPoint(t: string) {
    forall k :: 0 <= k < |t| ==> t[k] != '.'
  }

  lemma SignAndExponentHaveNoPoint(lit: Literal)
    requires WellFormed(lit)
    ensures NoPoint(SignText(lit.sign)) && NoPoint(ExponentText(lit.exponent))
  {
    if lit.exponent.Some? {
      var x := lit.exponent.value;
      var t := ExponentText(lit.exponent);
      var n := 1 + |SignText(x.sign)|;
      assert t == [x.marker] + SignText(x.sign) + x.digits;
      assert forall k :: n <= k < |t| ==> t[k] == x.digits[k - n];
    }
  }

  /** The only point in the text of a literal is the one between its integer and fraction digits. */
  lemma PointPosition(lit: Literal, k: int)
    requires WellFormed(lit) && 0 <= k < |Render(lit)| && Render(lit)[k] == '.'
    ensures lit.point && k == |SignText(lit.sign)| + |lit.intDigits|
  {
    var s, m, x := SignText(lit.sign), MantissaText(lit), ExponentText(lit.exponent);
    var r, n := Render(lit), |lit.intDigits|;
    SignAndExponentHaveNoPoint(lit);
    assert r == s + m + x;
    assert forall q :: 0 <= q < |s| ==> r[q] == s[q];
    assert forall q :: |s| <= q < |s| + |m| ==> r[q] == m[q - |s|];
    assert forall q :: |s| + |m| <= q < |r| ==> r[q] == x[q - |s| - |m|];
    assert forall q :: 0 <= q < n ==> m[q] == lit.intDigits[q];
    assert forall q :: n < q < |m| ==> m[q] == lit.fracDigits[q - n - 1];
  }

  /** A `Number` has at most one point: two points in a text that scans are one and the same. */
  lemma ScannedPointIsUnique(s: string, i: int, j: int)
    requires 0 <= i < |s| && 0 <= j < |s| && s[i] == '.' && s[j] == '.'
    ensures Scan(s).Some? ==> i == j
  {
    if Scan(s).Some? {
      PointPosition(Scan(s).value, i);
      PointPosition(Scan(s).value, j);
    }
  }

  /** The sign of a literal's text is read off as the literal's own sign. */
  lemma SplitSignOfRender(lit: Literal)
    requires WellFormed(lit)
    ensures SplitSign(Render(lit)) == (lit.sign, MantissaText(lit) + ExponentText(lit.exponent))
  {
    var m := MantissaText(lit);
    var body := m + ExponentText(lit.exponent);
    MantissaStart(lit);
    assert body[0] != '+' && body[0] != '-' by {
      assert body[0] == m[0];
    }
    SignedRender(lit, lit.sign);
    assert lit.(sign := lit.sign) == lit;
    SplitSignOf(lit.sign, body);
  }

  /** A sign written in front of a text that does not start with one is read back. */
  lemma SplitSignOf(sign: Sign, body: string)
    requires |body| > 0 && body[0] != '+' && body[0] != '-'
    ensures SplitSign(SignText(sign) + body) == (sign, body)
  {
    if sign == NoSign {
      assert SignText(sign) + body == body;
    } else {
      assert (SignText(sign) + body)[1..] == body;
    }
  }

  /** The text of a mantissa is not empty and starts with a digit or a point. */
  lemma MantissaStart(lit: Literal)
    requires WellFormed(lit)
    ensures |MantissaText(lit)| > 0
    ensures IsDigit(MantissaText(lit)[0]) || MantissaText(lit)[0] == '.'
  {
    if |lit.intDigits| > 0 {
      assert MantissaText(lit)[0] == lit.intDigits[0];
    }
  }

  /** After its optional sign, a text that scans starts with a digit or a point. */
  lemma ScannedStart(s: string)
    ensures Scan(s).Some? ==> |SplitSign(s).1| > 0 && (IsDigit(SplitSign(s).1[0]) || SplitSign(s).1[0] == '.')
  {
    if Scan(s).Some? {
      var lit := Scan(s).value;
      var m := MantissaText(lit);
      SplitSignOfRender(lit);
      MantissaStart(lit);
      assert (m + ExponentText(lit.exponent))[0] == m[0];
    }
  }

  // ---------------------------------------------------------------------------
  // The special spellings

  function LowerAscii(c: char): char {
    if 'A' <= c <= 'Z' then (c as int + 32) as char else c
  }

  function LowerAsciiText(s: string): (r: string)
    ensures |r| == |s|
    ensures forall i :: 0 <= i < |s| ==> r[i] == LowerAscii(s[i])
  {
    seq(|s|, i requires 0 <= i < |s| => LowerAscii(s[i]))
  }

  predicate IsInfinityWord(s: string) {
    LowerAsciiText(s) == "inf" || LowerAsciiText(s) == "infinity"
  }

  predicate IsNaNWord(s: string) {
    LowerAsciiText(s) == "nan"
  }

  // ---------------------------------------------------------------------------
  // The parser

  /**
    What `f64::from_str` returns, with a `Number` kept at its exact value: a
    special spelling after the optional sign, or else whatever the scanner
    recognises, read as the value it denotes.
  */
  function ParseFloat(s: string): (r: Option<Float>)
    ensures r.Some? <==> IsInfinityWord(SplitSign(s).1) || IsNaNWord(SplitSign(s).1) || Scan(s).Some?
    ensures r.Some? && r.value.Finite? ==> Scan(s).Some? && r.value.value == LiteralValue(Scan(s).value)
    ensures IsInfinityWord(SplitSign(s).1) ==> r == Some(Infinite(SplitSign(s).0 == Minus))
    ensures IsNaNWord(SplitSign(s).1) ==> r == Some(NaN)
  {
    var (sign, body) := SplitSign(s);
    if IsInfinityWord(body) then Some(Infinite(sign == Minus))
    else if IsNaNWord(body) then Some(NaN)
    else
      match Scan(s)
      case None => None
      case Some(lit) => Some(Finite(LiteralValue(lit)))
  }

  // ---------------------------------------------------------------------------
  // What the parser accepts and returns

  /** The text of a `Number` is not one of the special spellings: it starts with a digit or a point. */
  lemma NumberIsNotSpecial(lit: Literal)
    requires WellFormed(lit)
    ensures !IsInfinityWord(MantissaText(lit) + ExponentText(lit.exponent))
    ensures !IsNaNWord(MantissaText(lit) + ExponentText(lit.exponent))
  {
    var body := MantissaText(lit) + ExponentText(lit.exponent);
    MantissaStart(lit);
    assert body[0] == MantissaText(lit)[0];
    assert LowerAsciiText(body)[0] == body[0];
  }

  /** The text of every well-formed `Number` parses, to exactly the value it denotes. */
  lemma ParseRendered(lit: Literal)
    requires WellFormed(lit)
    ensures ParseFloat(Render(lit)) == Some(Finite(LiteralValue(lit)))
  {
    RenderedIsNumber(lit);
  }

  /** A finite result is always the value of a well-formed `Number` whose text is the input. */
  lemma ParseFiniteSound(s: string)
    requires ParseFloat(s).Some? && ParseFloat(s).value.Finite?
    ensures exists lit :: WellFormed(lit) && Render(lit) == s && LiteralValue(lit) == ParseFloat(s).value.value
  {
    var lit := Scan(s).value;
    assert WellFormed(lit) && Render(lit) == s && LiteralValue(lit) == ParseFloat(s).value.value;
  }

  /**
    The parser accepts exactly the grammar: a signed special spelling, or the
    text of some well-formed `Number`.
  */
  lemma ParseFloatAccepts(s: string)
    ensures ParseFloat(s).Some? <==>
      || IsInfinityWord(SplitSign(s).1)
      || IsNaNWord(SplitSign(s).1)
      || exists lit :: WellFormed(lit) && Render(lit) == s
  {
    if exists lit :: WellFormed(lit) && Render(lit) == s {
      var lit :| WellFormed(lit) && Render(lit) == s;
      ScanRender(lit);
    }
  }

  /** The text of a well-formed `Number` is no special spelling, and scans back to the `Number`. */
  lemma RenderedIsNumber(lit: Literal)
    requires WellFormed(lit)
    ensures !IsInfinityWord(SplitSign(Render(lit)).1) && !IsNaNWord(SplitSign(Render(lit)).1)
    ensures Scan(Render(lit)) == Some(lit)
  {
    SplitSignOfRender(lit);
    NumberIsNotSpecial(lit);
    ScanRender(lit);
  }

  // ---------------------------------------------------------------------------
  // The value of a literal, read the schoolbook way

  lemma DigitsOfConcat(a: string, b: string)
    requires IsDigits(a) && IsDigits(b)
    ensures IsDigits(a + b)
  {
    forall i | 0 <= i < |a + b| ensures IsDigit((a + b)[i]) {
      if i >= |a| { assert (a + b)[i] == b[i - |a|]; }
    }
  }

  /** Appending digits shifts the value of the leading ones by ten per appended digit. */
  lemma {:induction false} DigitsConcat(a: string, b: string)
    requires IsDigits(a) && IsDigits(b)
    ensures IsDigits(a + b)
    ensures DigitsValue(a + b) == DigitsValue(a) * Pow10(|b|) + DigitsValue(b)
  {
    DigitsOfConcat(a, b);
    if b == [] {
      assert a + b == a;
    } else {
      var b' := b[..|b| - 1];
      assert IsDigits(b');
      DigitsOfConcat(a, b');
      var d := DigitValue(b[|b| - 1]);
      assert (a + b)[..|a + b| - 1] == a + b';
      assert DigitsValue(a + b) == DigitsValue(a + b') * 10 + d;
      DigitsConcat(a, b');
      AppendDigit(DigitsValue(a), Pow10(|b'|), DigitsValue(b'), d);
    }
  }

  lemma AppendDigit(va: int, pw: int, vb: int, d: int)
    ensures (va * pw + vb) * 10 + d == va * (pw * 10) + (vb * 10 + d)
  {
  }

  lemma ScaleStep(x: real, e: int)
    ensures Scale(x, e + 1) == Scale(x, e) * 10.0
  {
  }

  lemma {:induction false} ScaleAdd(x: real, a: int, b: int)
    ensures Scale(Scale(x, a), b) == Scale(x, a + b)
    decreases if b >= 0 then b else -b
  {
    if b > 0 {
      ScaleAdd(x, a, b - 1);
      ScaleStep(x, a + b - 1);
    } else if b < 0 {
      ScaleAdd(x, a, b + 1);
      ScaleStep(x, a + b);
    }
  }

  lemma {:induction false} ScaleSum(x: real, y: real, e: int)
    ensures Scale(x + y, e) == Scale(x, e) + Scale(y, e)
    decreases if e >= 0 then e else -e
  {
    if e > 0 {
      ScaleSum(x, y, e - 1);
    } else if e < 0 {
      ScaleSum(x, y, e + 1);
    }
  }

  lemma {:induction false} ScaleOfNat(n: nat, k: nat)
    ensures (n * Pow10(k)) as real == Scale(n as real, k)
  {
    if k > 0 {
      ScaleOfNat(n, k - 1);
      assert n * Pow10(k) == (n * Pow10(k - 1)) * 10;
    }
  }

  /** Digits followed by more digits: the leading ones count ten times per trailing digit. */
  lemma ConcatAsReal(a: string, b: string)
    requires IsDigits(a) && IsDigits(b) && IsDigits(a + b)
    ensures DigitsValue(a + b) as real == Scale(DigitsValue(a) as real, |b|) + DigitsValue(b) as real
  {
    DigitsConcat(a, b);
    var shifted := DigitsValue(a) * Pow10(|b|);
    ScaleOfNat(DigitsValue(a), |b|);
    SumAsReal(shifted, DigitsValue(b));
  }

  lemma SumAsReal(x: int, y: int)
    ensures (x + y) as real == x as real + y as real
  {
  }

  /** Scaling all the digits down by the fraction's length leaves the integer part whole. */
  lemma FractionShift(i: string, f: string)
    requires IsDigits(i) && IsDigits(f) && IsDigits(i + f)
    ensures Scale(DigitsValue(i + f) as real, -|f|) == DigitsValue(i) as real + Scale(DigitsValue(f) as real, -|f|)
  {
    var k, vi, vf := |f|, DigitsValue(i) as real, DigitsValue(f) as real;
    ConcatAsReal(i, f);
    ScaleSum(Scale(vi, k), vf, -k);
    ScaleAdd(vi, k, -k);
  }

  /**
    The value of a `Number` read positionally: its integer digits plus its
    fraction digits scaled down by their count, then scaled by the exponent,
    and negated under a minus sign.
  */
  lemma LiteralValueIsPositional(lit: Literal)
    requires WellFormed(lit)
    ensures LiteralValue(lit) == Signed(lit.sign, Scale(
      DigitsValue(lit.intDigits) as real + Scale(DigitsValue(lit.fracDigits) as real, -|lit.fracDigits|),
      ExponentValue(lit.exponent)))
  {
    var i, f := lit.intDigits, lit.fracDigits;
    DigitsOfConcat(i, f);
    var n := DigitsValue(i + f) as real;
    FractionShift(i, f);
    ScaleAdd(n, -|f|, ExponentValue(lit.exponent));
  }
}
