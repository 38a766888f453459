/**
  The key by which the form compares a typed number with the number it would commit, without
  rounding.

  The texts are those of the form's number grammar, and what a text denotes is an exact
  rational (`Denotes`).  `KeysDecideValues`: two texts have equal keys exactly when they denote
  the same rational.
*/
module DecimalKeys {
  import opened Seqs
  import opened Strings
  import opened Decimals
  import opened JsonSyntax
  import opened JsonCompact

  // ---- the number grammar ------------------------------------------------------------------------------

  datatype Exponent = NoExponent | Exponent(mark: char, sign: string, digits: string)

  datatype Parts = Parts(sign: string, whole: string, point: bool, fraction: string, exponent: Exponent)

  predicate IsSign(s: string) {
    s == "" || s == "+" || s == "-"
  }

  predicate WfExponent(e: Exponent) {
    e.Exponent? ==> (e.mark == 'e' || e.mark == 'E') && IsSign(e.sign) && e.digits != "" && AllDigitChars(e.digits)
  }

  /** An optional sign, digits with an optional point among or around them, an optional exponent. */
  predicate WfParts(p: Parts) {
    IsSign(p.sign) && AllDigitChars(p.whole) && AllDigitChars(p.fraction) && WfExponent(p.exponent) &&
    (p.whole != "" || p.fraction != "") && (p.fraction != "" ==> p.point)
  }

  function ExponentText(e: Exponent): string {
    if e.NoExponent? then "" else [e.mark] + (e.sign + e.digits)
  }

  function Point(point: bool): string {
    if point then "." else ""
  }

  function Spell(p: Parts): string {
    p.sign + (p.whole + (Point(p.point) + (p.fraction + ExponentText(p.exponent))))
  }

  // ---- what a text denotes ----------------------------------------------------------------------------------

  function Pow10(k: int): real
    decreases if k >= 0 then k else -k
  {
    if k == 0 then 1.0 else if k > 0 then 10.0 * Pow10(k - 1) else Pow10(k + 1) / 10.0
  }

  function Signed(sign: string, n: nat): int {
    var v: int := n;
    if sign == "-" then -v else v
  }

  function ExponentValue(e: Exponent): int
    requires WfExponent(e)
  {
    if e.NoExponent? then 0 else Signed(e.sign, DecimalValue(e.digits))
  }

  function Digits(p: Parts): (s: string)
    requires WfParts(p)
    ensures AllDigitChars(s) && s != ""
  {
    p.whole + p.fraction
  }

  function Times(n: int, x: real): real {
    (n as real) * x
  }

  /** The number: all digits as a whole number, scaled by the exponent less the digits after the point. */
  function Value(p: Parts): real
    requires WfParts(p)
  {
    Times(Signed(p.sign, DecimalValue(Digits(p))), Pow10(ExponentValue(p.exponent) - |p.fraction|))
  }

  ghost predicate Denotes(text: string, v: real) {
    exists p :: WfParts(p) && Spell(p) == text && Value(p) == v
  }

  // ---- the key ---------------------------------------------------------------------------------------------------

  function LowerChar(c: char): char {
    if 'A' <= c <= 'Z' then c + ' ' else c
  }

  function ToLower(s: string): (r: string)
    ensures |r| == |s| && forall i :: 0 <= i < |s| ==> r[i] == LowerChar(s[i])
  {
    seq(|s|, i requires 0 <= i < |s| => LowerChar(s[i]))
  }

  function DropPlus(s: string): string {
    if s != "" && s[0] == '+' then s[1..] else s
  }

  function RemoveFirst(s: string, c: char): string {
    var at := IndexOf(s, c);
    if at.None? then s else s[..at.value] + s[at.value + 1..]
  }

  function DropZeros(s: string): string {
    if s != "" && s[0] == '0' then DropZeros(s[1..]) else s
  }

  /** Drops leading zeros, kept behind a minus sign. */
  function DropLeading(s: string): string {
    if s != "" && s[0] == '-' then "-" + DropZeros(s[1..]) else DropZeros(s)
  }

  function DropTrailing(s: string): (r: string)
    ensures |r| <= |s|
  {
    if s != "" && s[|s| - 1] == '0' then DropTrailing(s[..|s| - 1]) else s
  }

  /** A signed whole number as text. */
  function IntText(n: int): string {
    if n < 0 then "-" + Decimal(-n) else Decimal(n)
  }

  /** The whole number an optionally signed text of digits spells. */
  function BigInt(s: string): int {
    var sign := if s != "" && (s[0] == '-' || s[0] == '+') then s[..1] else "";
    var digits := s[|sign|..];
    if AllDigitChars(digits) then Signed(sign, DecimalValue(digits)) else 0
  }

  function DecimalKey(text: string): string {
    var pieces := SplitOn(DropPlus(ToLower(text)), 'e');
    var mantissa := pieces[0];
    var exponent := if |pieces| > 1 then pieces[1] else "0";
    var around := SplitOn(mantissa, '.');
    var fraction := if |around| > 1 then |around[1]| else 0;
    var digits := DropLeading(RemoveFirst(mantissa, '.'));
    var trimmed := DropTrailing(digits);
    if trimmed == "" || trimmed == "-" then "0"
    else trimmed + "e" + IntText(BigInt(exponent) - fraction + (|digits| - |trimmed|))
  }

  // ---- digits and their value --------------------------------------------------------------------------------------

  function NatPow10(n: nat): nat {
    if n == 0 then 1 else 10 * NatPow10(n - 1)
  }

  lemma {:induction false} DropZerosKeeps(s: string)
    requires AllDigitChars(s)
    ensures AllDigitChars(DropZeros(s)) && DecimalValue(DropZeros(s)) == DecimalValue(s)
    ensures DropZeros(s) != "" ==> DropZeros(s)[0] != '0'
  {
    if s != "" && s[0] == '0' {
      DropZerosKeeps(s[1..]);
      LeadingZero(s[1..]);
      assert s == "0" + s[1..];
    }
  }

  lemma {:induction false} LeadingZero(s: string)
    requires AllDigitChars(s)
    ensures DecimalValue("0" + s) == DecimalValue(s)
    decreases |s|
  {
    var t := "0" + s;
    if s == "" {
      assert t == "0" && t[..0] == "";
    } else {
      LeadingZero(s[..|s| - 1]);
      assert t[..|t| - 1] == "0" + s[..|s| - 1];
    }
  }

  lemma {:induction false} DropTrailingScales(s: string)
    requires AllDigitChars(s)
    ensures AllDigitChars(DropTrailing(s)) && DropTrailing(s) == s[..|DropTrailing(s)|]
    ensures DecimalValue(s) == DecimalValue(DropTrailing(s)) * NatPow10(|s| - |DropTrailing(s)|)
    ensures DropTrailing(s) != "" ==> DecimalValue(DropTrailing(s)) % 10 != 0
    decreases |s|
  {
    if s != "" {
      var init := s[..|s| - 1];
      if s[|s| - 1] == '0' {
        DropTrailingScales(init);
        var t := DropTrailing(init);
        assert t == s[..|t|];
        assert DecimalValue(s) == 10 * DecimalValue(init);
        var d := DecimalValue(t);
        assert DecimalValue(init) == d * NatPow10(|init| - |t|);
        MulScale(d, NatPow10(|init| - |t|));
      } else {
        assert DropTrailing(s) == s && s[..|s|] == s;
        assert DigitValue(s[|s| - 1]) != 0;
      }
    } else {
      assert s[..0] == s;
    }
  }

  lemma MulScale(d: nat, p: nat)
    ensures 10 * (d * p) == d * (10 * p)
  {
  }

  /** The significant digits of a number text and the power of ten they are scaled by. */
  function Core(p: Parts): string
    requires WfParts(p)
  {
    DropTrailing(DropZeros(Digits(p)))
  }

  function Scale(p: Parts): int
    requires WfParts(p)
  {
    ExponentValue(p.exponent) - |p.fraction| + (|DropZeros(Digits(p))| - |Core(p)|)
  }

  lemma CoreFacts(p: Parts)
    requires WfParts(p)
    ensures AllDigitChars(Core(p)) && (Core(p) != "" ==> Core(p)[0] != '0' && DecimalValue(Core(p)) % 10 != 0)
    ensures DecimalValue(Digits(p)) == DecimalValue(Core(p)) * NatPow10(|DropZeros(Digits(p))| - |Core(p)|)
  {
    hide DecimalValue, DropTrailing, DropZeros;
    DropZerosKeeps(Digits(p));
    DropTrailingScales(DropZeros(Digits(p)));
  }

  // ---- powers of ten ---------------------------------------------------------------------------------------------------

  lemma Pow10Next(k: int)
    ensures Pow10(k + 1) == 10.0 * Pow10(k)
  {
  }

  lemma {:induction false} Pow10Positive(k: int)
    ensures Pow10(k) > 0.0
    decreases if k >= 0 then k else -k
  {
    if k > 0 {
      Pow10Positive(k - 1);
    } else if k < 0 {
      Pow10Positive(k + 1);
    }
  }

  lemma {:induction false} Pow10Add(k: int, n: nat)
    ensures Pow10(k + n) == (NatPow10(n) as real) * Pow10(k)
    decreases n
  {
    hide Pow10;
    if n > 0 {
      Pow10Add(k, n - 1);
      Pow10Next(k + n - 1);
      TimesTen(NatPow10(n - 1), Pow10(k));
    }
  }

  lemma TimesTen(a: nat, x: real)
    ensures ((10 * a) as real) * x == 10.0 * ((a as real) * x)
  {
  }

  lemma MulAssoc(a: nat, b: nat, x: real)
    ensures ((a * b) as real) * x == (a as real) * ((b as real) * x)
  {
  }

  lemma MulSigned(sign: string, a: nat, x: real)
    ensures Times(Signed(sign, a), x) == if sign == "-" then -((a as real) * x) else (a as real) * x
  {
  }

  lemma MoveScale(sign: string, m: nat, p: nat, x: real, y: real)
    requires y == (p as real) * x
    ensures Times(Signed(sign, m * p), x) == Times(Signed(sign, m), y)
  {
    hide Signed, Times;
    MulAssoc(m, p, x);
    MulSigned(sign, m, y);
    MulSigned(sign, m * p, x);
  }

  /** A text denotes its significant digits, scaled. */
  lemma ValueIsCore(p: Parts)
    requires WfParts(p)
    ensures AllDigitChars(Core(p))
    ensures Value(p) == Times(Signed(p.sign, DecimalValue(Core(p))), Pow10(Scale(p)))
  {
    CoreFacts(p);
    CoreShorter(p);
    hide Core, DropZeros, Pow10, NatPow10, DecimalValue, Signed, Times;
    var e := ExponentValue(p.exponent) - |p.fraction|;
    var z := |DropZeros(Digits(p))| - |Core(p)|;
    Pow10Add(e, z);
    MoveScale(p.sign, DecimalValue(Core(p)), NatPow10(z), Pow10(e), Pow10(e + z));
  }

  lemma CoreShorter(p: Parts)
    requires WfParts(p)
    ensures |Core(p)| <= |DropZeros(Digits(p))|
  {
  }

  lemma NatCancel(m: nat, n: nat, a: nat, x: real)
    requires x > 0.0 && (m as real) * x == (n as real) * ((a as real) * x)
    ensures m == n * a
  {
    MulAssoc(n, a, x);
    var k := n * a;
    assert (m as real) * x == (k as real) * x;
    assert (m as real - k as real) * x == 0.0;
    assert m as real == k as real;
  }

  lemma {:induction false} ScaledDivisible(n: nat, d: nat)
    requires d > 0
    ensures (n * NatPow10(d)) % 10 == 0
  {
    MulScale(n, NatPow10(d - 1));
    var k := n * NatPow10(d - 1);
    assert n * NatPow10(d) == 10 * k;
  }

  /** A number that ends in no zero fixes its scale. */
  lemma ScaleUnique(m: nat, a: int, n: nat, b: int)
    requires m % 10 != 0 && n % 10 != 0 && (m as real) * Pow10(a) == (n as real) * Pow10(b) && a <= b
    ensures m == n && a == b
  {
    hide Pow10, NatPow10;
    Pow10Positive(a);
    Pow10Add(a, b - a);
    NatCancel(m, n, NatPow10(b - a), Pow10(a));
    if b > a {
      ScaledDivisible(n, b - a);
    }
    NoScale();
  }

  lemma NoScale()
    ensures NatPow10(0) == 1
  {
  }

  lemma Positive(m: nat, x: real)
    requires m > 0 && x > 0.0
    ensures (m as real) * x > 0.0
  {
  }

  /** Nonzero numbers in this form are equal only when their signs, digits and scales are. */
  lemma FormUnique(s: string, m: nat, a: int, t: string, n: nat, b: int)
    requires m % 10 != 0 && n % 10 != 0
    requires Times(Signed(s, m), Pow10(a)) == Times(Signed(t, n), Pow10(b))
    ensures (s == "-") == (t == "-") && m == n && a == b
  {
    hide Pow10, Signed, Times;
    MulSigned(s, m, Pow10(a));
    MulSigned(t, n, Pow10(b));
    Pow10Positive(a);
    Pow10Positive(b);
    Positive(m, Pow10(a));
    Positive(n, Pow10(b));
    if a <= b {
      ScaleUnique(m, a, n, b);
    } else {
      ScaleUnique(n, b, m, a);
    }
  }

  // ---- what the key is made of ---------------------------------------------------------------------------------------------

  function Minus(sign: string): string {
    if sign == "-" then "-" else ""
  }

  /** The key of a text, by its parts. */
  function KeyOf(p: Parts): string
    requires WfParts(p)
  {
    if Core(p) == "" then "0" else Minus(p.sign) + Core(p) + "e" + IntText(Scale(p))
  }

  function LowerExponent(e: Exponent): string {
    if e.NoExponent? then "" else "e" + (e.sign + e.digits)
  }

  lemma LowerConcat(a: string, b: string)
    ensures ToLower(a + b) == ToLower(a) + ToLower(b)
  {
  }

  lemma LowerPlain(s: string)
    requires forall i :: 0 <= i < |s| ==> !('A' <= s[i] <= 'Z')
    ensures ToLower(s) == s
  {
  }

  /** The sign, digits and point, without a plus sign. */
  function Mantissa(p: Parts): string {
    Minus(p.sign) + (p.whole + (Point(p.point) + p.fraction))
  }

  lemma LowerText(p: Parts)
    requires WfParts(p)
    ensures ToLower(Spell(p)) == p.sign + (p.whole + (Point(p.point) + (p.fraction + LowerExponent(p.exponent))))
  {
    var e := ExponentText(p.exponent);
    assert ToLower(e) == LowerExponent(p.exponent);
    hide ToLower, ExponentText, LowerExponent;
    LowerPlain(p.sign);
    LowerPlain(p.whole);
    LowerPlain(Point(p.point));
    LowerPlain(p.fraction);
    LowerConcat(p.fraction, e);
    LowerConcat(Point(p.point), p.fraction + e);
    LowerConcat(p.whole, Point(p.point) + (p.fraction + e));
    LowerConcat(p.sign, p.whole + (Point(p.point) + (p.fraction + e)));
  }

  lemma PlusDropped(p: Parts)
    requires WfParts(p)
    ensures DropPlus(ToLower(Spell(p))) == Mantissa(p) + LowerExponent(p.exponent)
  {
    LowerText(p);
    hide ToLower, Spell, LowerExponent;
    var e := LowerExponent(p.exponent);
    var tail := p.whole + (Point(p.point) + (p.fraction + e));
    assert tail != "" && tail[0] != '+' by { TailStart(p, e); }
    assert DropPlus(p.sign + tail) == Minus(p.sign) + tail by {
      Unit(tail);
    }
    Assoc(Point(p.point), p.fraction, e);
    Assoc(p.whole, Point(p.point) + p.fraction, e);
    Assoc(Minus(p.sign), p.whole + (Point(p.point) + p.fraction), e);
  }

  lemma TailStart(p: Parts, e: string)
    requires WfParts(p)
    ensures var tail := p.whole + (Point(p.point) + (p.fraction + e)); tail != "" && tail[0] != '+'
  {
    var tail := p.whole + (Point(p.point) + (p.fraction + e));
    if p.whole != "" {
      assert tail[0] == p.whole[0];
    } else {
      assert tail[0] == '.';
    }
  }

  lemma MantissaPlain(p: Parts)
    requires WfParts(p)
    ensures 'e' !in Mantissa(p)
  {
  }

  lemma ExponentPlain(e: Exponent)
    requires WfExponent(e) && e.Exponent?
    ensures 'e' !in e.sign + e.digits && BigInt(e.sign + e.digits) == ExponentValue(e)
  {
    var s := e.sign + e.digits;
    assert s[|e.sign|..] == e.digits && s[..|e.sign|] == e.sign;
    hide DecimalValue;
    if e.sign == "" {
      Unit(e.digits);
      assert s[0] == e.digits[0];
      assert s[0..] == e.digits;
    } else {
      assert s[0] == e.sign[0];
      assert s[..1] == e.sign;
    }
  }

  lemma ExponentSplit(p: Parts)
    requires WfParts(p)
    ensures var pieces := SplitOn(Mantissa(p) + LowerExponent(p.exponent), 'e');
            pieces[0] == Mantissa(p) && BigInt(if |pieces| > 1 then pieces[1] else "0") == ExponentValue(p.exponent)
  {
    hide Mantissa, SplitOn, BigInt;
    MantissaPlain(p);
    if p.exponent.NoExponent? {
      Unit(Mantissa(p));
      SplitNone(Mantissa(p), 'e');
      BigZero();
    } else {
      var x := p.exponent.sign + p.exponent.digits;
      ExponentPlain(p.exponent);
      Assoc(Mantissa(p), "e", x);
      SplitFirst(Mantissa(p), 'e', x);
      SplitNone(x, 'e');
    }
  }

  lemma BigZero()
    ensures BigInt("0") == 0
  {
    assert "0"[0..] == "0" && "0"[..0] == "";
  }

  lemma PointSplit(p: Parts)
    requires WfParts(p)
    ensures var around := SplitOn(Mantissa(p), '.'); (if |around| > 1 then |around[1]| else 0) == |p.fraction|
    ensures RemoveFirst(Mantissa(p), '.') == Minus(p.sign) + Digits(p)
  {
    var a := Minus(p.sign) + p.whole;
    hide SplitOn, IndexOf;
    assert '.' !in a && '.' !in p.fraction;
    IndexOfIs(a, '.');
    if p.point {
      assert Mantissa(p) == a + "." + p.fraction by {
        Assoc(Minus(p.sign), p.whole, "." + p.fraction);
        Assoc(a, ".", p.fraction);
      }
      SplitFirst(a, '.', p.fraction);
      SplitNone(p.fraction, '.');
      IndexOfConcat(a, "." + p.fraction, '.');
      Assoc(a, ".", p.fraction);
      PointFirst(p.fraction);
      assert Mantissa(p)[..|a|] == a && Mantissa(p)[|a| + 1..] == p.fraction;
      Assoc(Minus(p.sign), p.whole, p.fraction);
    } else {
      assert Mantissa(p) == a by {
        Unit(p.whole);
        assert p.fraction == "";
      }
      SplitNone(a, '.');
      Unit(p.whole);
      assert Digits(p) == p.whole;
    }
  }

  lemma PointFirst(s: string)
    ensures IndexOf("." + s, '.') == Some(0)
  {
    assert ("." + s)[0] == '.';
  }

  lemma LeadingDropped(sign: string, ds: string)
    requires AllDigitChars(ds) && ds != ""
    ensures DropLeading(Minus(sign) + ds) == Minus(sign) + DropZeros(ds)
  {
    if sign == "-" {
      Tail('-', ds);
    } else {
      Unit(ds);
      Unit(DropZeros(ds));
    }
  }

  lemma {:induction false} TrailingDropped(sign: string, ds: string)
    ensures DropTrailing(Minus(sign) + ds) == Minus(sign) + DropTrailing(ds)
    decreases |ds|
  {
    var s := Minus(sign) + ds;
    if ds == "" {
      Unit(Minus(sign));
    } else {
      assert s[|s| - 1] == ds[|ds| - 1];
      assert s[..|s| - 1] == Minus(sign) + ds[..|ds| - 1];
      TrailingDropped(sign, ds[..|ds| - 1]);
    }
  }

  /** The string steps of the key compute sign, significant digits and scale. */
  lemma KeyIsParts(p: Parts)
    requires WfParts(p)
    ensures DecimalKey(Spell(p)) == KeyOf(p)
  {
    hide ToLower, DropPlus, Spell, Mantissa, SplitOn, BigInt, RemoveFirst, DropLeading, DropTrailing, DropZeros, IntText, ExponentValue;
    PlusDropped(p);
    ExponentSplit(p);
    PointSplit(p);
    LeadingDropped(p.sign, Digits(p));
    TrailingDropped(p.sign, DropZeros(Digits(p)));
    CoreFacts(p);
    var t := Minus(p.sign) + Core(p);
    KeyEmpty(p.sign, Core(p));
  }

  lemma KeyEmpty(sign: string, core: string)
    requires AllDigitChars(core)
    ensures (Minus(sign) + core == "" || Minus(sign) + core == "-") <==> core == ""
    ensures |Minus(sign) + core| == |Minus(sign)| + |core|
  {
    var s := Minus(sign) + core;
    if core != "" {
      assert s[|s| - 1] == core[|core| - 1];
    }
  }

  // ---- equal keys, equal numbers ----------------------------------------------------------------------------------------------

  lemma IntTextInjective(a: int, b: int)
    requires IntText(a) == IntText(b)
    ensures a == b
  {
    hide Decimal;
    if a < 0 {
      assert IntText(a)[0] == '-';
    }
    if b < 0 {
      assert IntText(b)[0] == '-';
    }
    if a < 0 && b < 0 {
      assert IntText(a)[1..] == Decimal(-a) && IntText(b)[1..] == Decimal(-b);
      DecimalInjective(-a, -b);
    } else if a >= 0 && b >= 0 {
      DecimalInjective(a, b);
    }
  }

  /** A key takes apart into sign and digits before its `e`, and the scale after it. */
  lemma KeyInjective(s: string, c: string, a: int, t: string, d: string, b: int)
    requires AllDigitChars(c) && AllDigitChars(d) && c != "" && d != ""
    requires Minus(s) + c + "e" + IntText(a) == Minus(t) + d + "e" + IntText(b)
    ensures (s == "-") == (t == "-") && c == d && a == b
  {
    hide IntText;
    var x, y := Minus(s) + c, Minus(t) + d;
    assert 'e' !in x && 'e' !in y;
    SplitFirst(x, 'e', IntText(a));
    SplitFirst(y, 'e', IntText(b));
    hide SplitOn;
    assert ([x] + SplitOn(IntText(a), 'e'))[0] == x && ([y] + SplitOn(IntText(b), 'e'))[0] == y;
    assert x == y;
    assert (x + "e" + IntText(a))[|x| + 1..] == IntText(a) && (y + "e" + IntText(b))[|y| + 1..] == IntText(b);
    IntTextInjective(a, b);
    assert x[0] == '-' <==> s == "-";
    assert y[0] == '-' <==> t == "-";
    assert x[|Minus(s)|..] == c && y[|Minus(t)|..] == d;
  }

  lemma KeyHasE(s: string, c: string, a: int)
    ensures Minus(s) + c + "e" + IntText(a) != "0"
  {
    hide IntText;
    var k := Minus(s) + c + "e" + IntText(a);
    assert k[|Minus(s) + c|] == 'e';
  }

  lemma ZeroValue(p: Parts)
    requires WfParts(p)
    ensures AllDigitChars(Core(p)) && (Value(p) == 0.0 <==> Core(p) == "")
  {
    CoreFacts(p);
    ValueIsCore(p);
    hide Core, Pow10, Scale, Signed, Value, Times;
    var m := DecimalValue(Core(p));
    Pow10Positive(Scale(p));
    MulSigned(p.sign, m, Pow10(Scale(p)));
    if Core(p) != "" {
      Positive(m, Pow10(Scale(p)));
    }
  }

  lemma PartsDecide(p: Parts, q: Parts)
    requires WfParts(p) && WfParts(q)
    ensures KeyOf(p) == KeyOf(q) <==> Value(p) == Value(q)
  {
    hide Core, Scale, Value, Pow10, Signed, IntText, DecimalValue, Times;
    CoreFacts(p);
    CoreFacts(q);
    ZeroValue(p);
    ZeroValue(q);
    ValueIsCore(p);
    ValueIsCore(q);
    var c, d, a, b := Core(p), Core(q), Scale(p), Scale(q);
    KeyHasE(p.sign, c, a);
    KeyHasE(q.sign, d, b);
    if c != "" && d != "" {
      if KeyOf(p) == KeyOf(q) {
        KeyInjective(p.sign, c, a, q.sign, d, b);
        SameSigned(p.sign, q.sign, DecimalValue(c));
      }
      if Value(p) == Value(q) {
        FormUnique(p.sign, DecimalValue(c), a, q.sign, DecimalValue(d), b);
        DecimalCanonical(c);
        DecimalCanonical(d);
      }
    }
  }

  lemma SameSigned(s: string, t: string, n: nat)
    requires (s == "-") == (t == "-")
    ensures Signed(s, n) == Signed(t, n)
  {
  }

  /** Two number texts have equal keys exactly when they denote the same rational. */
  lemma KeysDecideValues(a: string, x: real, b: string, y: real)
    requires Denotes(a, x) && Denotes(b, y)
    ensures DecimalKey(a) == DecimalKey(b) <==> x == y
  {
    hide DecimalKey, KeyOf, Value, Spell, WfParts;
    var p :| WfParts(p) && Spell(p) == a && Value(p) == x;
    var q :| WfParts(q) && Spell(q) == b && Value(q) == y;
    KeyIsParts(p);
    KeyIsParts(q);
    PartsDecide(p, q);
  }

  // ---- the form's number field --------------------------------------------------------------------------------------------------

  /** The host's numbers: parsing (none when not finite), the whole-number test and the default spelling. */
  datatype Numbers<!N> = Numbers(parse: string -> Option<N>, isInteger: N -> bool, spell: N -> string)

  datatype Draft<N> = Draft(value: Option<N>, error: Option<string>)

  function TrimStart(s: string): string {
    if s != "" && IsSpace(s[0]) then TrimStart(s[1..]) else s
  }

  function TrimEnd(s: string): string {
    if s != "" && IsSpace(s[|s| - 1]) then TrimEnd(s[..|s| - 1]) else s
  }

  function Trim(s: string): string {
    TrimEnd(TrimStart(s))
  }

  ghost predicate IsNumberText(text: string) {
    exists p :: WfParts(p) && Spell(p) == text
  }

  ghost function ParseNumberDraft<N>(text: string, integer: bool, numbers: Numbers<N>): Draft<N> {
    var trimmed := Trim(text);
    if trimmed == "" then Draft(None, None)
    else if numbers.parse(trimmed).None? || !IsNumberText(trimmed) then Draft(None, Some("must be a number"))
    else if integer && !numbers.isInteger(numbers.parse(trimmed).value) then Draft(None, Some("must be a whole number"))
    else Draft(numbers.parse(trimmed), None)
  }

  ghost function ParseFormNumber<N>(text: string, integer: bool, numbers: Numbers<N>): Draft<N> {
    var result := ParseNumberDraft(text, integer, numbers);
    if result.error.None? && result.value.Some? && DecimalKey(Trim(text)) != DecimalKey(numbers.spell(result.value.value)) then
      Draft(None, Some("Use JSON to preserve this number's exact precision."))
    else result
  }

  /**
    A typed number is committed exactly when it is a number text that parses (to a whole number,
    if one is asked for) and the exact value typed is that of the spelling of the number parsed.
  */
  lemma CommitsExactValues<N>(text: string, integer: bool, numbers: Numbers<N>, n: N, x: real, y: real)
    requires numbers.parse(Trim(text)) == Some(n) && Denotes(Trim(text), x) && Denotes(numbers.spell(n), y)
    ensures ParseFormNumber(text, integer, numbers) == Draft(Some(n), None) <==>
            (integer ==> numbers.isInteger(n)) && x == y
  {
    hide DecimalKey, Trim, Spell, WfParts, Value;
    var p :| WfParts(p) && Spell(p) == Trim(text) && Value(p) == x;
    SpellsSomething(p);
    KeysDecideValues(Trim(text), x, numbers.spell(n), y);
  }

  lemma SpellsSomething(p: Parts)
    requires WfParts(p)
    ensures Spell(p) != ""
  {
  }
}
