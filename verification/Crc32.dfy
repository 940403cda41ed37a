/** CRC-32 (src/utils.cpp:43-68): from the look-up table to the bit-serial register,
    and from the register to the remainder of a division by the generator. */
module Crc32 {
  // The table-driven update, the bit-serial register of section 8.1.1.6.2 of
  // ITU-T V.42, and division over GF(2).

  import opened Bytes

  const POLY: bv32 := 0xEDB88320

  /** The generator polynomial, as the set of its exponents. */
  const G: set<nat> := {0, 1, 2, 4, 5, 7, 8, 10, 11, 12, 16, 22, 23, 26, 32}

  // ---------------------------------------------------------- table and steps

  function Xor(a: bv32, b: bv32): bv32 {
    a ^ b
  }

  function Not(a: bv32): bv32 {
    !a
  }

  function Odd(a: bv32): bool {
    a & 1 == 1
  }

  function Half(a: bv32): bv32 {
    a >> 1
  }

  function Step(c: bv32): bv32 {
    if Odd(c) then Xor(POLY, Half(c)) else Half(c)
  }

  function Steps(c: bv32, n: nat): bv32
    decreases n
  {
    if n == 0 then c else Steps(Step(c), n - 1)
  }

  function TableEntry(i: bv32): bv32 {
    Steps(i, 8)
  }

  /** One byte through the table. */
  function TableUpdate(c: bv32, b: bv32): bv32 {
    Xor(TableEntry(Xor(c, b) & 0xFF), c >> 8)
  }

  // Facts about words, each small enough to be decided on its own.

  lemma XorHalf(a: bv32, b: bv32)
    ensures Half(Xor(a, b)) == Xor(Half(a), Half(b))
  {
  }

  lemma XorOdd(a: bv32, b: bv32)
    ensures Odd(Xor(a, b)) <==> Odd(a) != Odd(b)
  {
    assert a & 1 == 0 || a & 1 == 1;
    assert b & 1 == 0 || b & 1 == 1;
    assert (a ^ b) & 1 == (a & 1) ^ (b & 1);
  }

  lemma XorCancel(p: bv32, a: bv32, b: bv32)
    ensures Xor(Xor(p, a), Xor(p, b)) == Xor(a, b)
  {
    assert (p ^ a) ^ (p ^ b) == a ^ b;
  }

  lemma XorAssoc(a: bv32, b: bv32, c: bv32)
    ensures Xor(Xor(a, b), c) == Xor(a, Xor(b, c))
  {
  }

  lemma XorSwap(p: bv32, a: bv32, b: bv32)
    ensures Xor(a, Xor(p, b)) == Xor(p, Xor(a, b))
  {
  }

  lemma XorZero(a: bv32)
    ensures Xor(a, 0) == a
  {
  }

  lemma NotNot(a: bv32)
    ensures Not(Not(a)) == a
  {
  }

  lemma StepLinear(a: bv32, b: bv32)
    ensures Step(Xor(a, b)) == Xor(Step(a), Step(b))
  {
    hide Xor, Odd, Half;
    XorHalf(a, b);
    XorOdd(a, b);
    XorCancel(POLY, Half(a), Half(b));
    XorAssoc(POLY, Half(a), Half(b));
    XorSwap(POLY, Half(a), Half(b));
  }

  lemma {:induction false} StepsLinear(a: bv32, b: bv32, n: nat)
    ensures Steps(Xor(a, b), n) == Xor(Steps(a, n), Steps(b, n))
    decreases n
  {
    hide Step, Xor;
    if n > 0 {
      StepLinear(a, b);
      StepsLinear(Step(a), Step(b), n - 1);
    }
  }

  function ShiftRight(b: bv32, n: nat): bv32
    decreases n
  {
    if n == 0 then b else ShiftRight(Half(b), n - 1)
  }

  /** The low `n` bits are clear. */
  predicate Clear(c: bv32, n: nat)
    decreases n
  {
    n == 0 || (!Odd(c) && Clear(Half(c), n - 1))
  }

  /** A word whose low bits are clear just shifts. */
  lemma {:induction false} ClearBitsShift(c: bv32, n: nat)
    requires Clear(c, n)
    ensures Steps(c, n) == ShiftRight(c, n)
    decreases n
  {
    hide Odd, Half, Xor;
    if n > 0 { ClearBitsShift(Half(c), n - 1); }
  }

  // ------------------------------------------------------- one bit at a time

  /** The V.42 shift register: feed one message bit. */
  function FeedBit(c: bv32, bit: bool): bv32 {
    if Odd(c) != bit then Xor(POLY, Half(c)) else Half(c)
  }

  function FeedBits(c: bv32, bits: seq<bool>): bv32
    decreases |bits|
  {
    if |bits| == 0 then c else FeedBits(FeedBit(c, bits[0]), bits[1..])
  }

  /** The low `n` bits of `b`, lowest first: the order they are transmitted in. */
  function BitsOf(b: bv32, n: nat): seq<bool>
    decreases n
  {
    if n == 0 then [] else [Odd(b)] + BitsOf(Half(b), n - 1)
  }

  lemma FeedIsStep(c: bv32, b: bv32)
    ensures Step(Xor(c, b)) == Xor(FeedBit(c, Odd(b)), Half(b))
  {
    hide Xor, Odd, Half;
    XorHalf(c, b);
    XorOdd(c, b);
    XorCancel(POLY, Half(c), Half(b));
    XorAssoc(POLY, Half(c), Half(b));
    XorSwap(POLY, Half(c), Half(b));
  }

  lemma {:induction false} FeedIsSteps(c: bv32, b: bv32, n: nat)
    ensures Steps(Xor(c, b), n) == Xor(FeedBits(c, BitsOf(b, n)), ShiftRight(b, n))
    decreases n
  {
    hide Step, FeedBit, Xor, Odd, Half;
    if n > 0 {
      FeedIsStep(c, b);
      FeedIsSteps(FeedBit(c, Odd(b)), Half(b), n - 1);
      assert BitsOf(b, n)[1..] == BitsOf(Half(b), n - 1);
    }
  }

  lemma SplitWord(x: bv32)
    ensures x == Xor(x & 0xFF, x & 0xFFFF_FF00)
    ensures (x & 0xFFFF_FF00) >> 8 == x >> 8
  {
  }

  lemma ByteShiftsOut(c: bv32, b: bv32)
    requires b < 0x100
    ensures b >> 8 == 0 && Xor(c, b) >> 8 == c >> 8
  {
  }

  lemma ShiftOnce(b: bv32)
    ensures Half(b) == b >> 1 && Half(b >> 1) == b >> 2 && Half(b >> 2) == b >> 3 && Half(b >> 3) == b >> 4
    ensures Half(b >> 4) == b >> 5 && Half(b >> 5) == b >> 6 && Half(b >> 6) == b >> 7 && Half(b >> 7) == b >> 8
  {
  }

  lemma HalfEight(b: bv32)
    ensures Half(Half(Half(Half(Half(Half(Half(Half(b)))))))) == b >> 8
  {
    ShiftOnce(b);
  }

  lemma EightShifts(b: bv32)
    ensures ShiftRight(b, 8) == b >> 8
  {
    HalfEight(b);
    hide Half;
    var b1 := Half(b);
    var b2 := Half(b1);
    var b3 := Half(b2);
    var b4 := Half(b3);
    assert ShiftRight(b, 8) == ShiftRight(b1, 7) == ShiftRight(b2, 6) == ShiftRight(b3, 5) == ShiftRight(b4, 4);
    var b5 := Half(b4);
    var b6 := Half(b5);
    assert ShiftRight(b4, 4) == ShiftRight(b5, 3) == ShiftRight(b6, 2);
  }

  function LowMask(n: nat): bv32
    requires n <= 8
  {
    if n == 0 then 0 else if n == 1 then 0x1 else if n == 2 then 0x3 else if n == 3 then 0x7
    else if n == 4 then 0xF else if n == 5 then 0x1F else if n == 6 then 0x3F else if n == 7 then 0x7F else 0xFF
  }

  predicate LowZero(y: bv32, n: nat)
    requires n <= 8
  {
    y & LowMask(n) == 0
  }

  lemma LowZeroStep(y: bv32, n: nat)
    requires 0 < n <= 8 && LowZero(y, n)
    ensures !Odd(y) && LowZero(Half(y), n - 1)
  {
    LowBits(y);
    hide Odd, Half;
  }

  lemma LowBits(y: bv32)
    ensures y & 0x1 == 0 ==> !Odd(y)
    ensures y & 0x3 == 0 ==> !Odd(y) && Half(y) & 0x1 == 0
    ensures y & 0x7 == 0 ==> !Odd(y) && Half(y) & 0x3 == 0
    ensures y & 0xF == 0 ==> !Odd(y) && Half(y) & 0x7 == 0
    ensures y & 0x1F == 0 ==> !Odd(y) && Half(y) & 0xF == 0
    ensures y & 0x3F == 0 ==> !Odd(y) && Half(y) & 0x1F == 0
    ensures y & 0x7F == 0 ==> !Odd(y) && Half(y) & 0x3F == 0
    ensures y & 0xFF == 0 ==> !Odd(y) && Half(y) & 0x7F == 0
  {
  }

  lemma {:induction false} LowZeroClear(y: bv32, n: nat)
    requires n <= 8 && LowZero(y, n)
    ensures Clear(y, n)
    decreases n
  {
    hide LowZero, Odd, Half;
    if n > 0 {
      LowZeroStep(y, n);
      LowZeroClear(Half(y), n - 1);
    }
  }

  lemma ClearByte(x: bv32)
    ensures Clear(x & 0xFFFF_FF00, 8)
  {
    assert (x & 0xFFFF_FF00) & 0xFF == 0;
    assert LowZero(x & 0xFFFF_FF00, 8);
    hide Clear;
    LowZeroClear(x & 0xFFFF_FF00, 8);
  }

  /** A table look-up is eight turns of the register, lowest bit first. */
  lemma TableIsBitSerial(c: bv32, b: bv32)
    requires b < 0x100
    ensures TableUpdate(c, b) == FeedBits(c, BitsOf(b, 8))
  {
    hide Steps, FeedBits, BitsOf, ShiftRight, Xor, Clear;
    var x := Xor(c, b);
    SplitWord(x);
    var low, high := x & 0xFF, x & 0xFFFF_FF00;
    StepsLinear(low, high, 8);
    ClearByte(x);
    ClearBitsShift(high, 8);
    EightShifts(high);
    ByteShiftsOut(c, b);
    FeedIsSteps(c, b, 8);
    EightShifts(b);
    XorZero(FeedBits(c, BitsOf(b, 8)));
  }

  // -------------------------------------------------------- whole byte strings

  function Fold(c: bv32, data: seq<byte>): bv32
  {
    if |data| == 0 then c
    else TableUpdate(Fold(c, data[..|data| - 1]), data[|data| - 1] as bv32)
  }

  /** `crc32_update`. */
  function Update(crc: bv32, data: seq<byte>): bv32 {
    Not(Fold(Not(crc), data))
  }

  /** `crc32`. */
  function Crc(data: seq<byte>): bv32 {
    Update(0, data)
  }

  lemma {:induction false} FoldAppend(c: bv32, a: seq<byte>, b: seq<byte>)
    ensures Fold(c, a + b) == Fold(Fold(c, a), b)
  {
    hide TableUpdate;
    if |b| == 0 {
      assert a + b == a;
    } else {
      assert (a + b)[..|a + b| - 1] == a + b[..|b| - 1];
      FoldAppend(c, a, b[..|b| - 1]);
    }
  }

  /** Updating piece by piece is one pass over the concatenation. */
  lemma UpdateAppend(crc: bv32, a: seq<byte>, b: seq<byte>)
    ensures Update(Update(crc, a), b) == Update(crc, a + b)
  {
    hide Fold, Not;
    FoldAppend(Not(crc), a, b);
    NotNot(Fold(Not(crc), a));
  }

  /** The message as the register sees it. */
  function MessageBits(data: seq<byte>): seq<bool>
  {
    if |data| == 0 then []
    else MessageBits(data[..|data| - 1]) + BitsOf(data[|data| - 1] as bv32, 8)
  }

  lemma {:induction false} FeedAppend(c: bv32, a: seq<bool>, b: seq<bool>)
    ensures FeedBits(c, a + b) == FeedBits(FeedBits(c, a), b)
    decreases |a|
  {
    hide FeedBit;
    if |a| == 0 {
      assert a + b == b;
    } else {
      assert (a + b)[1..] == a[1..] + b;
      FeedAppend(FeedBit(c, a[0]), a[1..], b);
    }
  }

  lemma ByteBelow(b: byte)
    ensures b as bv32 < 0x100
  {
  }

  /** The table-driven pass equals the bit-serial register on every message. */
  lemma {:induction false} FoldIsBitSerial(c: bv32, data: seq<byte>)
    ensures Fold(c, data) == FeedBits(c, MessageBits(data))
  {
    hide TableUpdate, BitsOf;
    if |data| > 0 {
      var n := |data| - 1;
      FoldIsBitSerial(c, data[..n]);
      ByteBelow(data[n]);
      TableIsBitSerial(Fold(c, data[..n]), data[n] as bv32);
      FeedAppend(c, MessageBits(data[..n]), BitsOf(data[n] as bv32, 8));
    }
  }

  // -------------------------------------------------- polynomial division

  /** Addition of polynomials over GF(2). */
  function Add(p: set<nat>, q: set<nat>): set<nat> {
    (p - q) + (q - p)
  }

  function TimesX(p: set<nat>): set<nat> {
    set e | e in p :: e + 1
  }

  function Term(bit: bool, e: nat): set<nat> {
    if bit then {e} else {}
  }

  /** q(x) * G(x), for a quotient given by its coefficients, highest first. */
  function TimesG(q: seq<bool>): set<nat>
  {
    if |q| == 0 then {}
    else Add(TimesX(TimesG(q[..|q| - 1])), if q[|q| - 1] then G else {})
  }

  /** The register bit that holds the coefficient of x^e (reflected order). */
  function Mask(e: nat): bv32
    requires e < 32
    decreases 31 - e
  {
    if e == 31 then 1 else Mask(e + 1) << 1
  }

  /** The polynomial in the register. */
  function Poly(c: bv32): set<nat> {
    set e: nat | e < 32 && Has(c, e)
  }

  predicate Has(c: bv32, e: nat)
    requires e < 32
  {
    c & Mask(e) != 0
  }

  /** The start register followed by the message, times x^32: what is divided. */
  function Dividend(c: bv32, bits: seq<bool>): set<nat>
  {
    if |bits| == 0 then Poly(c)
    else Add(TimesX(Dividend(c, bits[..|bits| - 1])), Term(bits[|bits| - 1], 32))
  }

  ghost predicate OneHot(m: bv32) {
    m != 0 && m & (m - 1) == 0
  }

  lemma OneHotShift(m: bv32)
    requires OneHot(m) && m != 0x8000_0000
    ensures OneHot(m << 1)
  {
  }

  lemma {:induction false} MaskIsBit(e: nat)
    requires e < 32
    ensures OneHot(Mask(e)) && (Mask(e) == 0x8000_0000 <==> e == 0)
    ensures Mask(e) == 1 <==> e == 31
    decreases 31 - e
  {
    MaskValues();
    if e < 31 {
      MaskIsBit(e + 1);
      OneHotShift(Mask(e + 1));
    }
  }

  /** The thirty-two masks, written out. */
  lemma MaskValues()
    ensures Mask(31) == 0x1 && Mask(30) == 0x2 && Mask(29) == 0x4 && Mask(28) == 0x8
    ensures Mask(27) == 0x10 && Mask(26) == 0x20 && Mask(25) == 0x40 && Mask(24) == 0x80
    ensures Mask(23) == 0x100 && Mask(22) == 0x200 && Mask(21) == 0x400 && Mask(20) == 0x800
    ensures Mask(19) == 0x1000 && Mask(18) == 0x2000 && Mask(17) == 0x4000 && Mask(16) == 0x8000
    ensures Mask(15) == 0x1_0000 && Mask(14) == 0x2_0000 && Mask(13) == 0x4_0000 && Mask(12) == 0x8_0000
    ensures Mask(11) == 0x10_0000 && Mask(10) == 0x20_0000 && Mask(9) == 0x40_0000 && Mask(8) == 0x80_0000
    ensures Mask(7) == 0x100_0000 && Mask(6) == 0x200_0000 && Mask(5) == 0x400_0000 && Mask(4) == 0x800_0000
    ensures Mask(3) == 0x1000_0000 && Mask(2) == 0x2000_0000 && Mask(1) == 0x4000_0000 && Mask(0) == 0x8000_0000
  {
  }

  lemma MaskedBit(a: bv32, m: bv32)
    requires OneHot(m)
    ensures a & m == 0 || a & m == m
  {
  }

  lemma XorMasked(a: bv32, b: bv32, m: bv32)
    ensures (a ^ b) & m == (a & m) ^ (b & m)
  {
  }

  lemma XorBit(a: bv32, b: bv32, m: bv32)
    requires OneHot(m)
    ensures (a ^ b) & m != 0 <==> (a & m != 0) != (b & m != 0)
  {
    MaskedBit(a, m);
    MaskedBit(b, m);
    XorMasked(a, b, m);
  }

  lemma HasXor(a: bv32, b: bv32, e: nat)
    requires e < 32
    ensures Has(Xor(a, b), e) <==> Has(a, e) != Has(b, e)
  {
    hide Mask;
    MaskIsBit(e);
    XorBit(a, b, Mask(e));
  }

  lemma PolyXor(a: bv32, b: bv32)
    ensures Poly(Xor(a, b)) == Add(Poly(a), Poly(b))
  {
    hide Has, Xor;
    forall e: nat | e < 32 ensures Has(Xor(a, b), e) <==> Has(a, e) != Has(b, e) {
      HasXor(a, b, e);
    }
  }

  lemma ShiftBit(c: bv32, m: bv32)
    requires m != 0x8000_0000 && OneHot(m)
    ensures Half(c) & m != 0 <==> c & (m << 1) != 0
  {
    assert ((c >> 1) & m) << 1 == c & (m << 1);
    assert m << 1 != 0;
    MaskedBit(c >> 1, m);
  }

  lemma TopBitGone(c: bv32)
    ensures Half(c) & 0x8000_0000 == 0
    ensures c & 1 != 0 <==> Odd(c)
  {
  }

  lemma MaskNext(e: nat)
    requires 0 < e < 32
    ensures Mask(e - 1) == Mask(e) << 1
  {
    hide Mask;
    if e == 31 { MaskValues(); }
    MaskStep(e - 1);
  }

  lemma MaskStep(e: nat)
    requires e < 31
    ensures Mask(e) == Mask(e + 1) << 1
  {
  }

  lemma HalfHas(c: bv32, e: nat)
    requires 0 < e < 32
    ensures Has(Half(c), e) <==> Has(c, e - 1)
  {
    hide Half, Mask;
    MaskIsBit(e);
    MaskNext(e);
    ShiftBit(c, Mask(e));
  }

  lemma EndsHas(c: bv32)
    ensures !Has(Half(c), 0) && (Has(c, 31) <==> Odd(c))
  {
    hide Half, Odd, Mask;
    TopBitGone(c);
    MaskIsBit(0);
    MaskIsBit(31);
  }

  /** Shifting the register multiplies by x and drops x^32. */
  lemma PolyShift(c: bv32)
    ensures TimesX(Poly(c)) == Poly(Half(c)) + Term(Odd(c), 32)
    ensures 32 !in Poly(Half(c))
  {
    hide Has, Half, Odd;
    EndsHas(c);
    forall e: nat ensures e in TimesX(Poly(c)) <==> e in Poly(Half(c)) + Term(Odd(c), 32) {
      TimesXMember(Poly(c), e);
      if 0 < e < 32 { HalfHas(c, e); }
    }
  }

  lemma TimesXMember(p: set<nat>, e: nat)
    ensures e in TimesX(p) <==> e > 0 && e - 1 in p
  {
    if e > 0 && e - 1 in p { assert (e - 1) + 1 in TimesX(p); }
  }

  /** 0xEDB88320 is the generator without its leading term, reflected. */
  lemma PolyOfGenerator()
    ensures Poly(POLY) == G - {32}
  {
    hide Mask;
    forall e: nat | e < 32 ensures Has(POLY, e) <==> e in G {
      if e < 8 { GeneratorBits0(e); } else if e < 16 { GeneratorBits1(e); }
      else if e < 24 { GeneratorBits2(e); } else { GeneratorBits3(e); }
    }
  }

  lemma GeneratorBits0(e: nat)
    requires e < 8
    ensures Has(POLY, e) <==> e in G
  {
    MaskValues();
    hide Mask;
    assert POLY & 0x8000_0000 != 0 && POLY & 0x4000_0000 != 0 && POLY & 0x2000_0000 != 0 && POLY & 0x1000_0000 == 0;
    assert POLY & 0x800_0000 != 0 && POLY & 0x400_0000 != 0 && POLY & 0x200_0000 == 0 && POLY & 0x100_0000 != 0;
  }

  lemma GeneratorBits1(e: nat)
    requires 8 <= e < 16
    ensures Has(POLY, e) <==> e in G
  {
    MaskValues();
    hide Mask;
    assert POLY & 0x80_0000 != 0 && POLY & 0x40_0000 == 0 && POLY & 0x20_0000 != 0 && POLY & 0x10_0000 != 0;
    assert POLY & 0x8_0000 != 0 && POLY & 0x4_0000 == 0 && POLY & 0x2_0000 == 0 && POLY & 0x1_0000 == 0;
  }

  lemma GeneratorBits2(e: nat)
    requires 16 <= e < 24
    ensures Has(POLY, e) <==> e in G
  {
    MaskValues();
    hide Mask;
    assert POLY & 0x8000 != 0 && POLY & 0x4000 == 0 && POLY & 0x2000 == 0 && POLY & 0x1000 == 0;
    assert POLY & 0x800 == 0 && POLY & 0x400 == 0 && POLY & 0x200 != 0 && POLY & 0x100 != 0;
  }

  lemma GeneratorBits3(e: nat)
    requires 24 <= e < 32
    ensures Has(POLY, e) <==> e in G
  {
    MaskValues();
    hide Mask;
    assert POLY & 0x80 == 0 && POLY & 0x40 == 0 && POLY & 0x20 != 0 && POLY & 0x10 == 0;
    assert POLY & 0x8 == 0 && POLY & 0x4 == 0 && POLY & 0x2 == 0 && POLY & 0x1 == 0;
  }

  /** One turn: x * R + bit * x^32 == feedback * G + R'. */
  lemma FeedDivides(c: bv32, bit: bool)
    ensures var feedback := Odd(c) != bit;
            Add(TimesX(Poly(c)), Term(bit, 32)) == Add(if feedback then G else {}, Poly(FeedBit(c, bit)))
  {
    hide Poly, TimesX, Half, Odd, Xor;
    PolyShift(c);
    PolyBound(Half(c));
    if Odd(c) != bit {
      PolyXor(POLY, Half(c));
      PolyOfGenerator();
    }
  }

  lemma PolyBound(c: bv32)
    ensures forall e :: e in Poly(c) ==> e < 32
  {
  }

  lemma TimesXAdd(p: set<nat>, q: set<nat>)
    ensures TimesX(Add(p, q)) == Add(TimesX(p), TimesX(q))
  {
    hide TimesX;
    forall e: nat ensures e in TimesX(Add(p, q)) <==> e in Add(TimesX(p), TimesX(q)) {
      TimesXMember(p, e);
      TimesXMember(q, e);
      TimesXMember(Add(p, q), e);
    }
  }

  lemma AddRegroup(a: set<nat>, b: set<nat>, t: set<nat>, g: set<nat>, r: set<nat>)
    requires Add(b, t) == Add(g, r)
    ensures Add(Add(a, b), t) == Add(Add(a, g), r)
  {
    forall e: nat ensures e in Add(Add(a, b), t) <==> e in Add(Add(a, g), r) {
      assert e in Add(b, t) <==> e in Add(g, r);
    }
  }

  /** The register holds the remainder of dividing by the generator: there is a
      quotient, and what is left has degree below 32. */
  lemma {:induction false} RegisterIsRemainder(c: bv32, bits: seq<bool>) returns (q: seq<bool>)
    ensures |q| == |bits|
    ensures Dividend(c, bits) == Add(TimesG(q), Poly(FeedBits(c, bits)))
    ensures forall e :: e in Poly(FeedBits(c, bits)) ==> e < 32
  {
    hide Poly, FeedBit, TimesX;
    PolyBound(FeedBits(c, bits));
    if |bits| == 0 {
      q := [];
    } else {
      var n := |bits| - 1;
      var before, bit := bits[..n], bits[n];
      var q0 := RegisterIsRemainder(c, before);
      var r := FeedBits(c, before);
      FeedAppend(c, before, [bit]);
      assert bits == before + [bit];
      assert FeedBits(c, bits) == FeedBit(r, bit) by { assert [bit][1..] == []; }
      var feedback := Odd(r) != bit;
      q := q0 + [feedback];
      assert q[..n] == q0;
      TimesXAdd(TimesG(q0), Poly(r));
      FeedDivides(r, bit);
      AddRegroup(TimesX(TimesG(q0)), TimesX(Poly(r)), Term(bit, 32), if feedback then G else {}, Poly(FeedBit(r, bit)));
    }
  }

  /** CRC-32 as V.42 defines it: the complement of the remainder left by the
      message divided by the generator, the register preset to ones. */
  lemma CrcIsRemainder(data: seq<byte>) returns (q: seq<bool>)
    ensures Dividend(0xFFFF_FFFF, MessageBits(data)) == Add(TimesG(q), Poly(Not(Crc(data))))
  {
    hide Poly, FeedBits, TimesG, Dividend, Fold, MessageBits;
    q := RegisterIsRemainder(0xFFFF_FFFF, MessageBits(data));
    FoldIsBitSerial(0xFFFF_FFFF, data);
    assert Not(0) == 0xFFFF_FFFF;
    hide Not;
    NotNot(Fold(0xFFFF_FFFF, data));
  }

  // ----------------------------------------------------------------- methods

  method InitTable() returns (table: seq<bv32>)
    ensures |table| == 256
    ensures forall i :: 0 <= i < 256 ==> table[i] == TableEntry(i as bv32)
  {
    hide Step;
    var entries := new bv32[256];
    for i := 0 to 256
      invariant forall k :: 0 <= k < i ==> entries[k] == TableEntry(k as bv32)
    {
      var c: bv32 := i as bv32;
      for j := 0 to 8
        invariant Steps(c, 8 - j) == TableEntry(i as bv32)
      {
        c := Step(c);
      }
      entries[i] := c;
    }
    table := entries[..];
  }

  /** `crc32_update`. */
  method UpdateCrc(crc: bv32, data: seq<byte>) returns (r: bv32)
    ensures r == Update(crc, data)
  {
    hide TableUpdate, TableEntry, Not;
    var table := InitTable();
    r := Not(crc);
    for i := 0 to |data|
      invariant r == Fold(Not(crc), data[..i])
    {
      assert data[..i + 1][..i] == data[..i];
      r := LookUp(table, r, data[i] as bv32);
    }
    assert data[..|data|] == data;
    r := Not(r);
  }

  method LookUp(table: seq<bv32>, c: bv32, b: bv32) returns (r: bv32)
    requires |table| == 256
    requires forall i :: 0 <= i < 256 ==> table[i] == TableEntry(i as bv32)
    ensures r == TableUpdate(c, b)
  {
    hide TableEntry, Xor;
    var index := Xor(c, b) & 0xFF;
    LowByteIndex(Xor(c, b));
    r := Xor(table[index as int], c >> 8);
  }

  lemma LowByteIndex(x: bv32)
    ensures 0 <= (x & 0xFF) as int < 256 && ((x & 0xFF) as int) as bv32 == x & 0xFF
  {
    var y := x & 0xFF;
    LowByteBound(x);
    SmallInt(y);
    IntRoundTrip(y);
  }

  lemma LowByteBound(x: bv32)
    ensures x & 0xFF < 0x100
  {
  }

  lemma SmallInt(y: bv32)
    requires y < 0x100
    ensures y as int < 256
  {
  }

  lemma IntRoundTrip(y: bv32)
    ensures (y as int) as bv32 == y
  {
  }
}
