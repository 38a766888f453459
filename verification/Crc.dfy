/**
  The CRC-32 of the ZIP writer: a table of 256 entries and one look-up per byte.

  The reference is the definition behind section 8 of RFC 1952: the remainder of the message
  under long division by the generator polynomial, over bits.  The running register of the
  table-driven loop is proved equal to a register fed one bit at a time, and that register
  to the remainder (`CrcIsRemainder`).
*/
module Crc {
  import opened Seqs

  type Byte = v: nat | v < 256

  const POLY: bv32 := 0xedb88320

  // ---- words -------------------------------------------------------------------------------------------

  function Xor(a: bv32, b: bv32): bv32 {
    a ^ b
  }

  function Half(a: bv32): bv32 {
    a >> 1
  }

  predicate Odd(a: bv32) {
    a & 1 != 0
  }

  function Word(b: bv8): bv32 {
    b as bv32
  }

  function Low(x: bv32): bv8 {
    (x & 0xff) as bv8
  }

  function High(x: bv32): bv32 {
    x & 0xffffff00
  }

  function Upper(x: bv32): bv32 {
    x >> 8
  }

  lemma XorSwap(a: bv32, b: bv32, c: bv32)
    ensures Xor(Xor(a, b), c) == Xor(Xor(a, c), b) && Xor(a, b) == Xor(b, a)
  {
  }

  lemma XorAssoc(a: bv32, b: bv32, c: bv32)
    ensures Xor(Xor(a, b), c) == Xor(a, Xor(b, c))
  {
  }

  lemma XorSelf(p: bv32)
    ensures Xor(p, p) == 0
  {
  }

  lemma XorTwice(p: bv32, a: bv32, b: bv32)
    ensures Xor(Xor(p, a), Xor(p, b)) == Xor(a, b)
  {
    hide Xor;
    XorAssoc(Xor(p, a), p, b);
    XorSwap(p, a, p);
    XorSelf(p);
    XorSwap(0, a, 0);
    XorZero(a);
  }

  lemma XorHalf(a: bv32, b: bv32)
    ensures Half(Xor(a, b)) == Xor(Half(a), Half(b))
  {
  }

  lemma XorOdd(a: bv32, b: bv32)
    ensures Odd(Xor(a, b)) <==> Odd(a) != Odd(b)
  {
  }

  lemma XorZero(a: bv32)
    ensures Xor(a, 0) == a
  {
  }

  // ---- one shift, many shifts ----------------------------------------------------------------------

  function Shift(r: bv32): bv32 {
    if Odd(r) then Xor(POLY, Half(r)) else Half(r)
  }

  function Shifts(r: bv32, n: nat): bv32
    decreases n
  {
    if n == 0 then r else Shifts(Shift(r), n - 1)
  }

  lemma ShiftLinear(a: bv32, b: bv32)
    ensures Shift(Xor(a, b)) == Xor(Shift(a), Shift(b))
  {
    hide Xor, Half, Odd;
    XorHalf(a, b);
    XorOdd(a, b);
    var x, y := Half(a), Half(b);
    XorAssoc(POLY, x, y);
    XorSwap(POLY, x, y);
    XorSwap(Xor(POLY, y), x, 0);
    XorTwice(POLY, x, y);
    XorSwap(x, Xor(POLY, y), 0);
  }

  lemma {:induction false} ShiftsLinear(a: bv32, b: bv32, n: nat)
    ensures Shifts(Xor(a, b), n) == Xor(Shifts(a, n), Shifts(b, n))
    decreases n
  {
    if n > 0 {
      hide Shift, Xor;
      ShiftLinear(a, b);
      ShiftsLinear(Shift(a), Shift(b), n - 1);
    }
  }

  // ---- the table step ----------------------------------------------------------------------------------

  lemma LowHigh(x: bv32)
    ensures x == Xor(Word(Low(x)), High(x)) && Upper(High(x)) == Upper(x)
  {
  }

  lemma EightShifts(x: bv32)
    ensures Shifts(x, 8) == Shift(Shift(Shift(Shift(Shift(Shift(Shift(Shift(x))))))))
  {
    hide Shift;
    FourShifts(x, 8);
    FourShifts(Shift(Shift(Shift(Shift(x)))), 4);
  }

  lemma FourShifts(x: bv32, n: nat)
    requires n >= 4
    ensures Shifts(x, n) == Shifts(Shift(Shift(Shift(Shift(x)))), n - 4)
  {
    hide Shift;
    var a := Shift(x);
    var b := Shift(a);
    var c := Shift(b);
    assert Shifts(x, n) == Shifts(a, n - 1);
    assert Shifts(a, n - 1) == Shifts(b, n - 2);
    assert Shifts(b, n - 2) == Shifts(c, n - 3);
  }

  lemma HighFallsThrough(x: bv32)
    ensures Shift(Shift(Shift(Shift(Shift(Shift(Shift(Shift(High(x))))))))) == Upper(x)
  {
  }

  lemma ByteBelow(crc: bv32, b: bv8)
    ensures Upper(Xor(crc, Word(b))) == Upper(crc)
  {
  }

  /** A look-up and an eight-bit shift do the work of eight shifts. */
  lemma TableStep(crc: bv32, b: bv8)
    ensures Xor(Shifts(Word(Low(Xor(crc, Word(b)))), 8), Upper(crc)) == Shifts(Xor(crc, Word(b)), 8)
  {
    hide *;
    var x := Xor(crc, Word(b));
    LowHigh(x);
    ByteBelow(crc, b);
    HighFallsThrough(x);
    EightShifts(High(x));
    ShiftsLinear(Word(Low(x)), High(x), 8);
  }

  // ---- bit by bit ------------------------------------------------------------------------------------------

  /** The lowest `n` bits, lowest first. */
  function BitsOf(r: bv32, n: nat): (s: seq<bool>)
    ensures |s| == n
    decreases n
  {
    if n == 0 then [] else [Odd(r)] + BitsOf(Half(r), n - 1)
  }

  function Bit(b: bool): bv32 {
    if b then 1 else 0
  }

  /** The register after one message bit. */
  function BitStep(r: bv32, b: bool): bv32 {
    Shift(Xor(r, Bit(b)))
  }

  function FeedBits(r: bv32, bits: seq<bool>): bv32
    decreases |bits|
  {
    if bits == [] then r else FeedBits(BitStep(r, bits[0]), bits[1..])
  }

  /** `n` halvings leave nothing. */
  predicate Fits(v: bv32, n: nat)
    decreases n
  {
    if n == 0 then v == 0 else Fits(Half(v), n - 1)
  }

  function Even(v: bv32): bv32 {
    v & 0xfffffffe
  }

  lemma EvenPart(v: bv32)
    ensures v == Xor(Bit(Odd(v)), Even(v)) && Shift(Even(v)) == Half(v)
  {
  }

  lemma PeelBit(r: bv32, v: bv32)
    ensures Shift(Xor(r, v)) == Xor(BitStep(r, Odd(v)), Half(v))
  {
    hide Xor, Half, Odd, Even, Shift, Bit;
    EvenPart(v);
    XorAssoc(r, Bit(Odd(v)), Even(v));
    ShiftLinear(Xor(r, Bit(Odd(v))), Even(v));
  }

  /** Feeding the bits of `v` one at a time is adding `v` and shifting. */
  lemma {:induction false} FeedIsShifts(r: bv32, v: bv32, n: nat)
    requires Fits(v, n)
    ensures FeedBits(r, BitsOf(v, n)) == Shifts(Xor(r, v), n)
    decreases n
  {
    hide Xor, Half, Odd, Shift, BitStep;
    if n == 0 {
      XorZero(r);
    } else {
      Tail(Odd(v), BitsOf(Half(v), n - 1));
      PeelBit(r, v);
      FeedIsShifts(BitStep(r, Odd(v)), Half(v), n - 1);
    }
  }

  lemma EightHalves(b: bv8)
    ensures Half(Half(Half(Half(Half(Half(Half(Half(Word(b))))))))) == 0
  {
  }

  lemma ByteFits(b: bv8)
    ensures Fits(Word(b), 8)
  {
    EightHalves(b);
    hide Half, Word;
    var v := Word(b);
    FitsBy4(v, 8);
    FitsBy4(Half(Half(Half(Half(v)))), 4);
  }

  lemma FitsBy4(v: bv32, n: nat)
    requires n >= 4
    ensures Fits(v, n) == Fits(Half(Half(Half(Half(v)))), n - 4)
  {
    hide Half;
    var a := Half(v);
    var b := Half(a);
    var c := Half(b);
    assert Fits(v, n) == Fits(a, n - 1);
    assert Fits(a, n - 1) == Fits(b, n - 2);
    assert Fits(b, n - 2) == Fits(c, n - 3);
  }

  function ByteBits(b: bv8): seq<bool> {
    BitsOf(Word(b), 8)
  }

  /** The bits of a message, lowest bit of each byte first. */
  function MessageBits(bytes: seq<Byte>): seq<bool> {
    if bytes == [] then [] else MessageBits(bytes[..|bytes| - 1]) + ByteBits(ByteOf(bytes[|bytes| - 1]))
  }

  lemma {:induction false} FeedConcat(r: bv32, a: seq<bool>, b: seq<bool>)
    ensures FeedBits(r, a + b) == FeedBits(FeedBits(r, a), b)
    decreases |a|
  {
    hide BitStep;
    if a == [] {
      Unit(b);
    } else {
      Cons(a, b);
      FeedConcat(BitStep(r, a[0]), a[1..], b);
    }
  }

  // ---- the loops ------------------------------------------------------------------------------------------------

  function ByteOf(v: Byte): bv8 {
    v as bv8
  }

  function Index(b: bv8): Byte {
    b as int
  }

  lemma ByteOfIndex(b: bv8)
    ensures ByteOf(Index(b)) == b
  {
  }

  function TableEntry(v: Byte): bv32 {
    Shifts(Word(ByteOf(v)), 8)
  }

  ghost predicate IsTable(t: seq<bv32>, n: nat) {
    |t| == 256 && forall v: Byte :: v < n ==> t[v] == TableEntry(v)
  }

  method BuildTable() returns (table: array<bv32>)
    ensures fresh(table) && IsTable(table[..], 256)
  {
    hide Shifts, Shift, Xor, Half, Odd, Word, ByteOf;
    table := new bv32[256];
    for value := 0 to 256
      invariant table.Length == 256 && IsTable(table[..], value)
    {
      var crc := TableValue(value);
      table[value] := crc;
    }
  }

  /** The inner loop. */
  method TableValue(value: Byte) returns (crc: bv32)
    ensures crc == TableEntry(value)
  {
    hide Shifts, Shift, Xor, Half, Odd, Word, ByteOf;
    crc := Word(ByteOf(value));
    for bit := 0 to 8
      invariant Shifts(crc, 8 - bit) == TableEntry(value)
    {
      NextShift(crc, 8 - bit);
      crc := if Odd(crc) then Xor(POLY, Half(crc)) else Half(crc);
    }
    NoShifts(crc);
  }

  lemma NoShifts(r: bv32)
    ensures Shifts(r, 0) == r
  {
  }

  lemma NextShift(r: bv32, n: nat)
    requires n > 0
    ensures Shifts(r, n) == Shifts(if Odd(r) then Xor(POLY, Half(r)) else Half(r), n - 1)
  {
    hide Odd, Xor, Half;
  }

  /** The register complemented at both ends. */
  function CrcOf(bits: seq<bool>): bv32 {
    Xor(FeedBits(0xffffffff, bits), 0xffffffff)
  }

  method Crc32(bytes: seq<Byte>) returns (r: bv32)
    ensures r == CrcOf(MessageBits(bytes))
  {
    hide Shifts, FeedBits, ByteBits, Low, Xor, Upper, Word, TableEntry, Index, ByteOf;
    var table := BuildTable();
    ghost var t := table[..];
    var crc: bv32 := 0xffffffff;
    assert bytes[..0] == [];
    FeedNothing(crc);
    for k := 0 to |bytes|
      invariant table[..] == t
      invariant crc == FeedBits(0xffffffff, MessageBits(bytes[..k]))
    {
      var byte := ByteOf(bytes[k]);
      var low := Low(Xor(crc, Word(byte)));
      LookUp(t, low);
      assert bytes[..k + 1][..k] == bytes[..k];
      FeedConcat(0xffffffff, MessageBits(bytes[..k]), ByteBits(byte));
      ByteStep(crc, byte);
      crc := Xor(table[Index(low)], Upper(crc));
    }
    assert bytes[..|bytes|] == bytes;
    r := Xor(crc, 0xffffffff);
  }

  lemma LookUp(t: seq<bv32>, low: bv8)
    requires IsTable(t, 256)
    ensures t[Index(low)] == Shifts(Word(low), 8)
  {
    hide Shifts, Word, ByteOf, Index;
    ByteOfIndex(low);
  }

  lemma FeedNothing(r: bv32)
    ensures MessageBits([]) == [] && FeedBits(r, []) == r
  {
  }

  lemma ByteStep(crc: bv32, b: bv8)
    ensures Xor(Shifts(Word(Low(Xor(crc, Word(b)))), 8), Upper(crc)) == FeedBits(crc, ByteBits(b))
  {
    assert ByteBits(b) == BitsOf(Word(b), 8);
    hide *;
    TableStep(crc, b);
    ByteFits(b);
    FeedIsShifts(crc, Word(b), 8);
  }

  // ---- long division ----------------------------------------------------------------------------------------------

  /** Exponents of the generator polynomial. */
  const EXPONENTS := {32, 26, 23, 22, 16, 12, 11, 10, 8, 7, 5, 4, 2, 1, 0}

  /** Its coefficients, highest first. */
  function Generator(): (g: seq<bool>)
    ensures |g| == 33 && g[0]
  {
    seq(33, i requires 0 <= i < 33 => (32 - i) in EXPONENTS)
  }

  function Add(a: seq<bool>, b: seq<bool>): (c: seq<bool>)
    requires |a| == |b|
    ensures |c| == |a| && forall i :: 0 <= i < |a| ==> c[i] == (a[i] != b[i])
  {
    seq(|a|, i requires 0 <= i < |a| => a[i] != b[i])
  }

  /** The remainder of a polynomial over bits, highest coefficient first, by the generator. */
  function Remainder(bits: seq<bool>): (r: seq<bool>)
    requires |bits| >= 32
    ensures |r| == 32
    decreases |bits|
  {
    if |bits| == 32 then bits
    else if bits[0] then Remainder(Add(bits[..33], Generator())[1..] + bits[33..])
    else Remainder(bits[1..])
  }

  function Zeros(n: nat): (z: seq<bool>)
    ensures |z| == n && forall i :: 0 <= i < n ==> !z[i]
  {
    seq(n, i => false)
  }

  /** A message with 32 zeros after it, and a register added to its first 32 bits. */
  function Loaded(r: seq<bool>, m: seq<bool>): (p: seq<bool>)
    requires |r| == 32
    ensures |p| == |m| + 32
  {
    Add(r + Zeros(|m|), m + Zeros(32))
  }

  /** The register, highest coefficient first, after one message bit. */
  function Divide(r: seq<bool>, b: bool): (s: seq<bool>)
    requires |r| == 32
    ensures |s| == 32
  {
    if r[0] != b then Add(r[1..] + [false], Generator()[1..]) else r[1..] + [false]
  }

  lemma LoadedStep(r: seq<bool>, m: seq<bool>)
    requires |r| == 32 && m != []
    ensures Loaded(r, m)[0] == (r[0] != m[0])
    ensures !Loaded(r, m)[0] ==> Loaded(r, m)[1..] == Loaded(Divide(r, m[0]), m[1..])
    ensures Loaded(r, m)[0] ==>
              Add(Loaded(r, m)[..33], Generator())[1..] + Loaded(r, m)[33..] == Loaded(Divide(r, m[0]), m[1..])
  {
    hide Generator;
    var p, q := Loaded(r, m), Loaded(Divide(r, m[0]), m[1..]);
    forall i | 0 <= i < |q|
      ensures q[i] == (p[i + 1] != (p[0] && i < 32 && Generator()[i + 1]))
    {
      LoadedAt(r, m, i + 1);
      LoadedAt(Divide(r, m[0]), m[1..], i);
    }
  }

  lemma LoadedAt(r: seq<bool>, m: seq<bool>, i: nat)
    requires |r| == 32 && i < |m| + 32
    ensures Loaded(r, m)[i] == ((i < 32 && r[i]) != (i < |m| && m[i]))
  {
  }

  function DivideAll(r: seq<bool>, m: seq<bool>): (s: seq<bool>)
    requires |r| == 32
    ensures |s| == 32
    decreases |m|
  {
    if m == [] then r else DivideAll(Divide(r, m[0]), m[1..])
  }

  lemma {:induction false} DivideIsRemainder(r: seq<bool>, m: seq<bool>)
    requires |r| == 32
    ensures Remainder(Loaded(r, m)) == DivideAll(r, m)
    decreases |m|
  {
    if m == [] {
      assert Loaded(r, m) == r by {
        forall i | 0 <= i < 32
          ensures Loaded(r, m)[i] == r[i]
        {
          LoadedAt(r, m, i);
        }
      }
    } else {
      LoadedStep(r, m);
      hide Loaded, Divide, Add, Generator;
      DivideIsRemainder(Divide(r, m[0]), m[1..]);
    }
  }

  // ---- the register is the remainder --------------------------------------------------------------------------------

  function EightBits(r: bv32): seq<bool> {
    var a := Half(r);
    var b := Half(a);
    var c := Half(b);
    var d := Half(c);
    var e := Half(d);
    var f := Half(e);
    var g := Half(f);
    [Odd(r), Odd(a), Odd(b), Odd(c), Odd(d), Odd(e), Odd(f), Odd(g)]
  }

  function Drop8(r: bv32): bv32 {
    Half(Half(Half(Half(Half(Half(Half(Half(r))))))))
  }

  lemma PolyByte0()
    ensures EightBits(0xedb88320) == [false, false, false, false, false, true, false, false] && Drop8(0xedb88320) == 0xedb883
  {
  }

  lemma PolyByte1()
    ensures EightBits(0xedb883) == [true, true, false, false, false, false, false, true] && Drop8(0xedb883) == 0xedb8
  {
  }

  lemma PolyByte2()
    ensures EightBits(0xedb8) == [false, false, false, true, true, true, false, true] && Drop8(0xedb8) == 0xed
  {
  }

  lemma PolyByte3()
    ensures EightBits(0xed) == [true, false, true, true, false, true, true, true] && Drop8(0xed) == 0x0
  {
  }

  lemma TwoBits(r: bv32, n: nat)
    requires n >= 2
    ensures BitsOf(r, n) == [Odd(r), Odd(Half(r))] + BitsOf(Half(Half(r)), n - 2)
  {
    hide Odd, Half;
    assert BitsOf(Half(r), n - 1) == [Odd(Half(r))] + BitsOf(Half(Half(r)), n - 2);
  }

  lemma PairsOf8<T>(a: T, b: T, c: T, d: T, e: T, f: T, g: T, h: T, t: seq<T>)
    ensures [a, b] + ([c, d] + ([e, f] + ([g, h] + t))) == [a, b, c, d, e, f, g, h] + t
  {
  }

  lemma BitsBy8(r: bv32, n: nat)
    requires n >= 8
    ensures BitsOf(r, n) == EightBits(r) + BitsOf(Drop8(r), n - 8)
  {
    hide Odd, Half, BitsOf;
    var c := Half(Half(r));
    var e := Half(Half(c));
    var g := Half(Half(e));
    TwoBits(r, n);
    TwoBits(c, n - 2);
    TwoBits(e, n - 4);
    TwoBits(g, n - 6);
    PairsOf8(Odd(r), Odd(Half(r)), Odd(c), Odd(Half(c)), Odd(e), Odd(Half(e)), Odd(g), Odd(Half(g)), BitsOf(Drop8(r), n - 8));
  }

  lemma PolyIsGenerator()
    ensures [true] + BitsOf(POLY, 32) == Generator()
  {
    hide Odd, Half, EightBits, Drop8, BitsOf;
    PolyByte0();
    PolyByte1();
    PolyByte2();
    PolyByte3();
    BitsBy8(0xedb88320, 32);
    BitsBy8(0xedb883, 24);
    BitsBy8(0xedb8, 16);
    BitsBy8(0xed, 8);
    assert BitsOf(0, 0) == [];
  }

  lemma {:induction false} BitsXor(a: bv32, b: bv32, n: nat)
    ensures BitsOf(Xor(a, b), n) == Add(BitsOf(a, n), BitsOf(b, n))
    decreases n
  {
    if n > 0 {
      hide Odd, Half, Xor;
      XorHalf(a, b);
      XorOdd(a, b);
      BitsXor(Half(a), Half(b), n - 1);
    }
  }

  /** The bit after the `n` lowest. */
  function BitAt(r: bv32, n: nat): bool
    decreases n
  {
    if n == 0 then Odd(r) else BitAt(Half(r), n - 1)
  }

  lemma {:induction false} BitsSnoc(r: bv32, n: nat)
    ensures BitsOf(r, n + 1) == BitsOf(r, n) + [BitAt(r, n)]
    decreases n
  {
    hide Odd, Half;
    if n > 0 {
      BitsSnoc(Half(r), n - 1);
      Assoc([Odd(r)], BitsOf(Half(r), n - 1), [BitAt(Half(r), n - 1)]);
    } else {
      assert BitsOf(Half(r), 0) == [];
    }
  }

  lemma BitAtBy8(r: bv32, n: nat)
    requires n >= 8
    ensures BitAt(r, n) == BitAt(Drop8(r), n - 8)
  {
    hide Half, Odd;
    var a := Half(Half(r));
    var b := Half(Half(a));
    var c := Half(Half(b));
    BitAtBy2(r, n);
    BitAtBy2(a, n - 2);
    BitAtBy2(b, n - 4);
    BitAtBy2(c, n - 6);
  }

  lemma BitAtBy2(r: bv32, n: nat)
    requires n >= 2
    ensures BitAt(r, n) == BitAt(Half(Half(r)), n - 2)
  {
    hide Half, Odd;
    assert BitAt(r, n) == BitAt(Half(r), n - 1);
  }

  lemma AllDropped(r: bv32)
    ensures !Odd(Drop8(Drop8(Drop8(Drop8(r)))))
  {
    EightAreUpper(r);
    EightAreUpper(Upper(r));
    EightAreUpper(Upper(Upper(r)));
    EightAreUpper(Upper(Upper(Upper(r))));
    assert Upper(Upper(Upper(Upper(r)))) == 0;
  }

  lemma EightAreUpper(r: bv32)
    ensures Drop8(r) == Upper(r)
  {
  }

  lemma NoBit32(r: bv32)
    ensures !BitAt(r, 32)
  {
    hide Odd, Drop8;
    AllDropped(r);
    BitAtBy8(r, 32);
    BitAtBy8(Drop8(r), 24);
    BitAtBy8(Drop8(Drop8(r)), 16);
    BitAtBy8(Drop8(Drop8(Drop8(r))), 8);
  }

  lemma BitsCons(r: bv32, n: nat)
    requires n > 0
    ensures BitsOf(r, n) == [Odd(r)] + BitsOf(Half(r), n - 1)
  {
    hide Odd, Half;
  }

  /** Halving drops the highest coefficient and brings in a zero. */
  lemma HalfBits(r: bv32)
    ensures BitsOf(Half(r), 32) == BitsOf(r, 32)[1..] + [false] && BitsOf(r, 32)[0] == Odd(r)
  {
    hide BitsOf, BitAt, Odd, Half;
    BitsCons(r, 33);
    BitsCons(r, 32);
    BitsSnoc(r, 32);
    NoBit32(r);
    Tail(Odd(r), BitsOf(Half(r), 32));
    Cons(BitsOf(r, 32), [false]);
  }

  lemma BitAdds(r: bv32, b: bool)
    ensures Half(Xor(r, Bit(b))) == Half(r) && Odd(Xor(r, Bit(b))) == (Odd(r) != b)
  {
  }

  /** One message bit does to the register what it does to the remainder. */
  lemma StepDivides(r: bv32, b: bool)
    ensures BitsOf(BitStep(r, b), 32) == Divide(BitsOf(r, 32), b)
  {
    hide BitsOf, Odd, Half, Xor, Bit, Generator;
    BitAdds(r, b);
    HalfBits(r);
    BitsXor(POLY, Half(r), 32);
    PolyIsGenerator();
    Tail(true, BitsOf(POLY, 32));
    AddCommutes(BitsOf(POLY, 32), BitsOf(Half(r), 32));
  }

  lemma AddCommutes(a: seq<bool>, b: seq<bool>)
    requires |a| == |b|
    ensures Add(a, b) == Add(b, a)
  {
  }

  lemma {:induction false} FeedDivides(r: bv32, m: seq<bool>)
    ensures BitsOf(FeedBits(r, m), 32) == DivideAll(BitsOf(r, 32), m)
    decreases |m|
  {
    hide BitsOf, BitStep, Divide;
    if m != [] {
      StepDivides(r, m[0]);
      FeedDivides(BitStep(r, m[0]), m[1..]);
    }
  }

  function Ones(): (s: seq<bool>)
    ensures |s| == 32
  {
    seq(32, i => true)
  }

  lemma OnesBits()
    ensures BitsOf(0xffffffff, 32) == Ones()
  {
    hide Odd, Half, EightBits, Drop8, BitsOf;
    OnesByte0();
    OnesByte1();
    OnesByte2();
    OnesByte3();
    BitsBy8(0xffffffff, 32);
    BitsBy8(0xffffff, 24);
    BitsBy8(0xffff, 16);
    BitsBy8(0xff, 8);
    assert BitsOf(0, 0) == [];
  }

  lemma OnesByte0()
    ensures EightBits(0xffffffff) == [true, true, true, true, true, true, true, true] && Drop8(0xffffffff) == 0xffffff
  {
  }

  lemma OnesByte1()
    ensures EightBits(0xffffff) == [true, true, true, true, true, true, true, true] && Drop8(0xffffff) == 0xffff
  {
  }

  lemma OnesByte2()
    ensures EightBits(0xffff) == [true, true, true, true, true, true, true, true] && Drop8(0xffff) == 0xff
  {
  }

  lemma OnesByte3()
    ensures EightBits(0xff) == [true, true, true, true, true, true, true, true] && Drop8(0xff) == 0
  {
  }

  /**
    The checksum, lowest bit first, is the complement of the remainder that the message,
    lowest bit of each byte first, times x^32 and with its first 32 bits complemented, leaves
    on division by the generator.
  */
  lemma CrcIsRemainder(bytes: seq<Byte>)
    ensures BitsOf(CrcOf(MessageBits(bytes)), 32) == Add(Remainder(Loaded(Ones(), MessageBits(bytes))), Ones())
  {
    hide BitsOf, FeedBits, Remainder, Loaded, Xor, Ones;
    var m := MessageBits(bytes);
    OnesBits();
    FeedDivides(0xffffffff, m);
    DivideIsRemainder(Ones(), m);
    BitsXor(FeedBits(0xffffffff, m), 0xffffffff, 32);
  }
}
