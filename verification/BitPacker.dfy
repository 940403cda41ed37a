/** Bit packing of bytes that take few different values (src/bitpack.cpp), the stage
    that runs first on a chunk. */
module BitPacker {
  // The width is chosen from the number of different bytes, and a bit buffer
  // strings their codes together.

  import opened Bytes
  import opened Radix

  // ------------------------------------------------------------- value table

  /** The distinct values below `n`, ascending; a value's code is its rank. */
  function ValuesBelow(data: seq<byte>, n: nat): (s: seq<byte>)
    requires n <= 256
    ensures |s| <= n
  {
    if n == 0 then []
    else ValuesBelow(data, n - 1) + if n - 1 in data then [n - 1] else []
  }

  function Values(data: seq<byte>): seq<byte> {
    ValuesBelow(data, 256)
  }

  function CodeOf(data: seq<byte>, b: byte): nat {
    |ValuesBelow(data, b)|
  }

  lemma {:induction false} CodeFindsValue(data: seq<byte>, b: byte, n: nat)
    requires b in data && b < n <= 256
    ensures CodeOf(data, b) < |ValuesBelow(data, n)| && ValuesBelow(data, n)[CodeOf(data, b)] == b
  {
    if b < n - 1 { CodeFindsValue(data, b, n - 1); }
  }

  /** A new byte adds one distinct value, a repeated one none. */
  lemma {:induction false} ValuesGrow(data: seq<byte>, b: byte, n: nat)
    requires n <= 256
    ensures |ValuesBelow(data + [b], n)| == |ValuesBelow(data, n)| + if b < n && b !in data then 1 else 0
  {
    if n > 0 { ValuesGrow(data, b, n - 1); }
  }

  lemma {:induction false} ValuesMono(data: seq<byte>, i: nat)
    requires i <= |data|
    ensures |Values(data[..i])| <= |Values(data)|
    decreases |data| - i
  {
    if i == |data| {
      assert data[..i] == data;
    } else {
      assert data[..i + 1] == data[..i] + [data[i]];
      ValuesGrow(data[..i], data[i], 256);
      ValuesMono(data, i + 1);
    }
  }

  function BitsFor(distinct: nat): nat {
    if distinct <= 2 then 1 else if distinct <= 4 then 2 else if distinct <= 16 then 4 else if distinct <= 64 then 6 else 8
  }

  function PackedBytes(len: nat, bits: nat): nat {
    (len * bits + 7) / 8
  }

  /** `detect_bits_needed`: 8 means that packing would not pay. */
  function DetectBits(data: seq<byte>): (bits: nat)
    ensures bits in {1, 2, 4, 6, 8}
  {
    var d := |Values(data)|;
    var bits := BitsFor(d);
    if |data| == 0 || bits == 8 || 6 + d + PackedBytes(|data|, bits) >= |data| then 8 else bits
  }

  /** Packed output is shorter than the input. */
  lemma PackingShrinks(data: seq<byte>)
    requires DetectBits(data) != 8
    ensures 6 + |Values(data)| + PackedBytes(|data|, DetectBits(data)) < |data|
    ensures |Values(data)| <= 64 && |Values(data)| <= Pow(2, DetectBits(data))
  {
    assert Pow(2, 1) == 2 && Pow(2, 2) == 4 && Pow(2, 4) == 16 && Pow(2, 6) == 64;
  }

  ghost function Different(data: seq<byte>, n: nat): set<byte> {
    set b: byte | b in data && b < n
  }

  lemma {:induction false} ValuesAreDifferent(data: seq<byte>, n: nat)
    requires n <= 256
    ensures |ValuesBelow(data, n)| == |Different(data, n)|
  {
    if n == 0 {
      assert Different(data, 0) == {};
    } else {
      ValuesAreDifferent(data, n - 1);
      if n - 1 in data {
        assert Different(data, n) == Different(data, n - 1) + {n - 1};
      } else {
        assert Different(data, n) == Different(data, n - 1);
      }
    }
  }

  /** The width is the least of 1, 2, 4 and 6 bits that tells the different bytes apart,
      unless no such width would make the output shorter than the input. */
  lemma DetectBitsExact(data: seq<byte>)
    ensures var d, n, bits := |set b: byte | b in data|, |data|, DetectBits(data);
            if bits == 8 then forall w: nat :: w in {1, 2, 4, 6} && d <= Pow(2, w) ==> 6 + d + PackedBytes(n, w) >= n
            else
              && d <= Pow(2, bits) && 6 + d + PackedBytes(n, bits) < n
              && forall w: nat :: w in {1, 2, 4, 6} && w < bits ==> Pow(2, w) < d
  {
    ValuesAreDifferent(data, 256);
    assert Different(data, 256) == set b: byte | b in data;
    assert Pow(2, 1) == 2 && Pow(2, 2) == 4 && Pow(2, 4) == 16 && Pow(2, 6) == 64;
    var d, n := |Values(data)|, |data|;
    if DetectBits(data) == 8 {
      forall w: nat | w in {1, 2, 4, 6} && d <= Pow(2, w) ensures 6 + d + PackedBytes(n, w) >= n {
        assert BitsFor(d) <= w;
        MulLe(n, BitsFor(d), w);
      }
    }
  }

  method DetectBitsNeeded(data: seq<byte>) returns (bits: nat)
    ensures bits == DetectBits(data)
  {
    if |data| == 0 { return 8; }
    var seen := new bool[256](_ => false);
    var distinct := 0;
    NoValues(256);
    for i := 0 to |data|
      invariant forall b: byte :: seen[b] <==> b in data[..i]
      invariant distinct == |Values(data[..i])| <= 64
    {
      assert data[..i + 1] == data[..i] + [data[i]];
      ValuesGrow(data[..i], data[i], 256);
      if !seen[data[i]] {
        seen[data[i]] := true;
        distinct := distinct + 1;
        if distinct > 64 {
          ValuesMono(data, i + 1);
          return 8;
        }
      }
    }
    assert data[..|data|] == data;
    if distinct <= 2 {
      bits := 1;
    } else if distinct <= 4 {
      bits := 2;
    } else if distinct <= 16 {
      bits := 4;
    } else {
      bits := 6;
    }
    if 6 + distinct + PackedBytes(|data|, bits) >= |data| { bits := 8; }
  }

  lemma {:induction false} NoValues(n: nat)
    requires n <= 256
    ensures ValuesBelow([], n) == []
  {
    if n > 0 { NoValues(n - 1); }
  }

  // ----------------------------------------------------------------- packing

  function Codes(data: seq<byte>): (cs: seq<nat>)
    ensures |cs| == |data|
  {
    seq(|data|, i requires 0 <= i < |data| => CodeOf(data, data[i]))
  }

  lemma CodesFit(data: seq<byte>)
    requires DetectBits(data) != 8
    ensures DigitsBelow(Codes(data), Pow(2, DetectBits(data)))
  {
    PackingShrinks(data);
    forall i | 0 <= i < |data| ensures Codes(data)[i] < Pow(2, DetectBits(data)) {
      CodeFindsValue(data, data[i], 256);
    }
  }

  function Header(data: seq<byte>, bits: byte): seq<byte>
    requires |Values(data)| < 256
  {
    [bits] + LE(|data|, 4) + [|Values(data)|] + Values(data)
  }

  /** `pack`: the codes are the digits, in base 2^bits, of one long number. */
  function Pack(data: seq<byte>): seq<byte>
  {
    var bits := DetectBits(data);
    if bits == 8 then [8] + data
    else
      PackingShrinks(data);
      Header(data, bits) + LE(Val(Codes(data), Pow(2, bits)), PackedBytes(|data|, bits))
  }

  // --------------------------------------------------------------- unpacking

  /** The bit buffer: `have` is how many bits it is owed, which goes negative
      once the input has run out. */
  datatype Buffer = Buffer(pos: nat, bits: nat, have: int)

  /** The next byte OR-ed in above the bits held; the word is 32 bits wide. */
  function Grown(d: seq<byte>, b: Buffer): Buffer
    requires b.pos < |d| && b.have >= 0
  {
    Buffer(b.pos + 1, Or(b.bits, d[b.pos] * Pow(2, b.have) % U32), b.have + 8)
  }

  /** Top the buffer up to `need` bits. */
  function Fill(d: seq<byte>, b: Buffer, need: nat): (r: Buffer)
    requires b.have >= 0 || b.pos >= |d|
    ensures r.have >= need || r.pos >= |d|
    decreases |d| - b.pos
  {
    if b.have < need && b.pos < |d| then
      Fill(d, Grown(d, b), need)
    else b
  }

  /** The code at the low end of the buffer, cut to a byte as the source cuts it. */
  function LowCode(bits: nat, need: nat): nat {
    PowPositive(2, need);
    bits % Pow(2, need) % 256
  }

  function DropCode(b: Buffer, need: nat): (r: Buffer)
    ensures r.pos == b.pos && r.have == b.have - need
  {
    PowPositive(2, need);
    Buffer(b.pos, b.bits / Pow(2, need), b.have - need)
  }

  function Lookup(values: seq<byte>, code: nat): byte {
    if code < |values| then values[code] else 0
  }

  function UnpackFrom(d: seq<byte>, b: Buffer, need: nat, values: seq<byte>, n: nat): (out: seq<byte>)
    requires b.have >= 0 || b.pos >= |d|
    ensures |out| == n
    decreases n
  {
    if n == 0 then []
    else
      var f := Fill(d, b, need);
      [Lookup(values, LowCode(f.bits, need))] + UnpackFrom(d, DropCode(f, need), need, values, n - 1)
  }

  /** `unpack`. A width byte of 32 or more, which no packer writes, shifts by
      the width of the word in the source and is refused here. */
  function Unpack(d: seq<byte>): seq<byte>
  {
    if |d| < 1 then []
    else if d[0] == 8 then d[1..]
    else if |d| < 6 then []
    else
      var distinct: nat := d[5];
      if |d| < 6 + distinct || d[0] >= 32 then []
      else UnpackFrom(d, Buffer(6 + distinct, 0, 0), d[0], d[6..6 + distinct], FromLE(d[1..5]))
  }

  // -------------------------------------------------------------- round trip

  /** What the buffer and the unread bytes are still worth. */
  ghost function Worth(d: seq<byte>, b: Buffer): nat
    requires b.pos <= |d|
  {
    if b.pos < |d| && b.have >= 0 then b.bits + Pow(2, b.have) * FromLE(d[b.pos..]) else b.bits
  }

  ghost predicate Sound(d: seq<byte>, b: Buffer) {
    b.pos <= |d| && (b.pos < |d| ==> 0 <= b.have && b.bits < Pow(2, b.have))
  }

  /** One more byte in the buffer: the OR adds it above the bits already there. */
  lemma GrowKeepsWorth(d: seq<byte>, b: Buffer)
    requires Sound(d, b) && b.pos < |d| && b.have < 8
    ensures Sound(d, Grown(d, b)) && Worth(d, Grown(d, b)) == Worth(d, b)
  {
    hide Or, Pow, FromLE;
    var x, p := d[b.pos], Pow(2, b.have);
    PowMono(2, b.have, 8);
    PowTwoEight();
    ByteTimes(x, p);
    OrAdds(b.bits, b.have, x);
    PowAdd(2, b.have, 8);
    BelowProduct(p, 256, x, b.bits);
    FromLEHead(d, b.pos);
    FillStep(b.bits, p, x, FromLE(d[b.pos + 1..]));
    if b.pos + 1 == |d| { FromLENothing(d); }
  }

  lemma FromLENothing(d: seq<byte>)
    ensures FromLE(d[|d|..]) == 0
  {
  }

  lemma FromLEHead(d: seq<byte>, i: nat)
    requires i < |d|
    ensures FromLE(d[i..]) == d[i] + 256 * FromLE(d[i + 1..])
  {
    assert d[i..][1..] == d[i + 1..];
  }

  lemma ByteTimes(x: nat, p: nat)
    requires x < 256 && p <= 256
    ensures x * p == p * x && x * p % U32 == p * x
  {
    MulLe(x, p, 256);
  }

  lemma FillStep(bits: int, p: int, x: int, t: int)
    ensures bits + p * (x + 256 * t) == (p * x + bits) + (p * 256) * t
  {
    MulDistributes(p, x, 256 * t);
    MulAssoc(p, 256, t);
  }

  lemma {:induction false} FillKeepsWorth(d: seq<byte>, b: Buffer, need: nat)
    requires Sound(d, b) && need <= 8
    ensures Sound(d, Fill(d, b, need)) && Worth(d, Fill(d, b, need)) == Worth(d, b)
    decreases |d| - b.pos
  {
    hide Worth, Or, Pow;
    if b.have < need && b.pos < |d| {
      GrowKeepsWorth(d, b);
      FillKeepsWorth(d, Grown(d, b), need);
    }
  }

  /** Taking the low digit off the buffer takes it off what remains. */
  lemma TakeDigit(d: seq<byte>, f: Buffer, need: nat)
    requires Sound(d, f) && (f.have >= need || f.pos == |d|)
    ensures 0 < Pow(2, need)
    ensures f.bits % Pow(2, need) == Worth(d, f) % Pow(2, need)
    ensures Sound(d, DropCode(f, need)) && Worth(d, DropCode(f, need)) == Worth(d, f) / Pow(2, need)
  {
    hide Pow, FromLE;
    PowPositive(2, need);
    if f.pos < |d| {
      var m, r, rest := Pow(2, need), Pow(2, f.have - need), FromLE(d[f.pos..]);
      PowAdd(2, need, f.have - need);
      MulAssoc(m, r, rest);
      ModAddMultiple(f.bits, m, r * rest);
      DivAddMultiple(f.bits, m, r * rest);
      DivIsBelow(f.bits, m, r);
    }
  }

  /** A sound buffer worth a string of codes gives up its first code. */
  lemma TakeCode(d: seq<byte>, b: Buffer, need: nat, codes: seq<nat>)
    requires Sound(d, b) && 0 < need <= 8 && |codes| > 0 && codes[0] < Pow(2, need)
    requires Worth(d, b) == Val(codes, Pow(2, need))
    ensures b.have >= 0 || b.pos >= |d|
    ensures var f := Fill(d, b, need);
            && LowCode(f.bits, need) == codes[0]
            && Sound(d, DropCode(f, need))
            && Worth(d, DropCode(f, need)) == Val(codes[1..], Pow(2, need))
  {
    hide Fill, Worth, Pow, DropCode, Val;
    FillKeepsWorth(d, b, need);
    TakeDigit(d, Fill(d, b, need), need);
    PowMono(2, need, 8);
    PowTwoEight();
    ValDigits(codes, Pow(2, need));
  }

  lemma ValDigits(codes: seq<nat>, b: nat)
    requires |codes| > 0 && codes[0] < b
    ensures Val(codes, b) % b == codes[0] && Val(codes, b) / b == Val(codes[1..], b)
  {
    DivModOf(codes[0], Val(codes[1..], b), b);
  }

  function Decoded(values: seq<byte>, codes: seq<nat>): (s: seq<byte>)
    ensures |s| == |codes|
  {
    seq(|codes|, i requires 0 <= i < |codes| => Lookup(values, codes[i]))
  }

  lemma {:induction false} UnpackReads(d: seq<byte>, b: Buffer, need: nat, values: seq<byte>, codes: seq<nat>)
    requires Sound(d, b) && 0 < need <= 8 && DigitsBelow(codes, Pow(2, need))
    requires Worth(d, b) == Val(codes, Pow(2, need))
    ensures b.have >= 0 || b.pos >= |d|
    ensures UnpackFrom(d, b, need, values, |codes|) == Decoded(values, codes)
    decreases |codes|
  {
    hide Fill, Worth, Pow, Val, LowCode, DropCode, Lookup;
    if |codes| > 0 {
      TakeCode(d, b, need, codes);
      UnpackReads(d, DropCode(Fill(d, b, need), need), need, values, codes[1..]);
    }
  }

  lemma PowTwoEight()
    ensures Pow(2, 8) == 256
  {
  }

  lemma CodesDecode(data: seq<byte>)
    ensures Decoded(Values(data), Codes(data)) == data
  {
    forall i | 0 <= i < |data| ensures Lookup(Values(data), Codes(data)[i]) == data[i] {
      CodeFindsValue(data, data[i], 256);
    }
  }

  lemma {:induction false} CodeBytesFit(codes: seq<nat>, bits: nat)
    requires 0 < bits && DigitsBelow(codes, Pow(2, bits))
    ensures Val(codes, Pow(2, bits)) < Pow(256, PackedBytes(|codes|, bits))
  {
    PowPositive(2, bits);
    ValBound(codes, Pow(2, bits));
    PowMul(2, bits, |codes|);
    BytePow(PackedBytes(|codes|, bits));
    assert bits * |codes| == |codes| * bits;
    PowMono(2, bits * |codes|, 8 * PackedBytes(|codes|, bits));
  }

  lemma HeaderSlices(data: seq<byte>, bits: byte, stream: seq<byte>)
    requires |Values(data)| < 256
    ensures var d := Header(data, bits) + stream;
            && |d| == 6 + |Values(data)| + |stream|
            && d[0] == bits && d[1..5] == LE(|data|, 4) && d[5] == |Values(data)|
            && d[6..6 + |Values(data)|] == Values(data) && d[6 + |Values(data)|..] == stream
  {
    hide LE, Values;
  }

  lemma ParseHeader(data: seq<byte>, bits: byte, stream: seq<byte>)
    requires |Values(data)| < 256 && |data| < U32 && bits < 8
    ensures Unpack(Header(data, bits) + stream)
            == UnpackFrom(Header(data, bits) + stream, Buffer(6 + |Values(data)|, 0, 0), bits, Values(data), |data|)
  {
    hide LE, FromLE, Values, Header, UnpackFrom;
    HeaderSlices(data, bits, stream);
    U32RoundTrip(|data|);
  }

  /** Bit packing loses nothing, unless it packs 2^32 bytes or more: their number
      does not fit the length field, and fewer come back. */
  lemma BitPackRoundTrip(data: seq<byte>)
    ensures Unpack(Pack(data)) == data <==> DetectBits(data) == 8 || |data| < U32
  {
    var bits := DetectBits(data);
    if bits == 8 {
      assert Pack(data)[1..] == data;
    } else if |data| >= U32 {
      PackedIsShort(data);
    } else {
      hide LE, FromLE, Val, Pow, Header, DetectBits, Values, Codes, Unpack, UnpackFrom, Decoded, Sound, Worth;
      BitsRange(data);
      PackingShrinks(data);
      CodesFit(data);
      CodesDecode(data);
      var v, codes := Values(data), Codes(data);
      var stream := LE(Val(codes, Pow(2, bits)), PackedBytes(|data|, bits));
      HeaderSlices(data, bits, stream);
      ParseHeader(data, bits, stream);
      CodeBytesFit(codes, bits);
      FromLEOfLE(Val(codes, Pow(2, bits)), PackedBytes(|data|, bits));
      StartOfStream(Pack(data), 6 + |v|);
      UnpackReads(Pack(data), Buffer(6 + |v|, 0, 0), bits, v, codes);
    }
  }

  lemma PackedIsShort(data: seq<byte>)
    requires DetectBits(data) != 8
    ensures |Unpack(Pack(data))| < U32
  {
    hide LE, FromLE, Val, Pow, Header, DetectBits, Values, Codes, UnpackFrom;
    BitsRange(data);
    PackingShrinks(data);
    var d := Pack(data);
    var bits := DetectBits(data);
    HeaderSlices(data, bits, LE(Val(Codes(data), Pow(2, bits)), PackedBytes(|data|, bits)));
    FieldIsWord(d[1..5]);
  }

  lemma FieldIsWord(s: seq<byte>)
    requires |s| == 4
    ensures FromLE(s) < U32
  {
    FromLEBound(s);
    PowValues();
  }

  lemma StartOfStream(d: seq<byte>, pos: nat)
    requires pos <= |d|
    ensures Sound(d, Buffer(pos, 0, 0)) && Worth(d, Buffer(pos, 0, 0)) == FromLE(d[pos..])
  {
    assert Pow(2, 0) == 1;
  }

  // ----------------------------------------------------------------- methods

  method BuildValueMap(data: seq<byte>) returns (values: seq<byte>, codes: seq<byte>)
    ensures values == Values(data)
    ensures |codes| == 256 && forall b: byte :: b in data && CodeOf(data, b) < 256 ==> codes[b] == CodeOf(data, b)
  {
    values, codes := [], [];
    for i := 0 to 256
      invariant values == ValuesBelow(data, i)
      invariant |codes| == i && forall b: byte :: b < i && b in data ==> codes[b] == CodeOf(data, b)
    {
      if i in data {
        codes := codes + [|values|];
        values := values + [i];
      } else {
        codes := codes + [0];
      }
    }
  }

  /** The packing loop: whole bytes leave the buffer as they fill. */
  method PackCodes(codes: seq<nat>, bits: nat) returns (stream: seq<byte>)
    requires 0 < bits <= 8 && DigitsBelow(codes, Pow(2, bits))
    ensures stream == LE(Val(codes, Pow(2, bits)), PackedBytes(|codes|, bits))
  {
    hide Pow, Val, LE, FromLE;
    stream := [];
    var buffer, have := 0, 0;
    PackStart(bits);
    for i := 0 to |codes|
      invariant 0 <= have < 8 && 8 * |stream| + have == bits * i
      invariant 0 <= buffer < Pow(2, have)
      invariant FromLE(stream) + Pow(256, |stream|) * buffer == Val(codes[..i], Pow(2, bits))
    {
      ghost var s0, b0, h0 := stream, buffer, have;
      buffer := Or(buffer, Pow(2, have) * codes[i]);
      PackCode(codes, bits, i, s0, b0, h0);
      have := have + bits;
      MulDistributes(bits, i, 1);
      while have >= 8
        invariant 0 <= have && 8 * |stream| + have == bits * (i + 1)
        invariant 0 <= buffer < Pow(2, have)
        invariant FromLE(stream) + Pow(256, |stream|) * buffer == Val(codes[..i + 1], Pow(2, bits))
      {
        FlushByte(stream, buffer, have);
        stream := stream + [buffer % 256];
        buffer := buffer / 256;
        have := have - 8;
      }
    }
    assert codes[..|codes|] == codes;
    assert bits * |codes| == |codes| * bits;
    if have > 0 {
      PowMono(2, have, 8);
      PowTwoEight();
      FlushByte(stream, buffer, have);
      ghost var before := stream;
      stream := stream + [buffer % 256];
      assert buffer / 256 == 0;
    } else {
      PowZero();
    }
    FromLEBound(stream);
    LEUnique(stream);
  }

  lemma PowZero()
    ensures Pow(2, 0) == 1
  {
  }

  lemma PackStart(bits: nat)
    ensures Pow(2, 0) == 1 && FromLE([]) == 0 && Val([], Pow(2, bits)) == 0
  {
  }

  lemma LEUnique(s: seq<byte>)
    ensures LE(FromLE(s), |s|) == s
  {
    FromLEBound(s);
    FromLEOfLE(FromLE(s), |s|);
    ValInjective(LE(FromLE(s), |s|), s, 256);
  }

  lemma PackCode(codes: seq<nat>, bits: nat, i: nat, stream: seq<byte>, buffer: nat, have: nat)
    requires i < |codes| && DigitsBelow(codes, Pow(2, bits))
    requires 8 * |stream| + have == bits * i && buffer < Pow(2, have)
    requires FromLE(stream) + Pow(256, |stream|) * buffer == Val(codes[..i], Pow(2, bits))
    ensures var b := Or(buffer, Pow(2, have) * codes[i]);
            && b < Pow(2, have + bits)
            && FromLE(stream) + Pow(256, |stream|) * b == Val(codes[..i + 1], Pow(2, bits))
  {
    hide Val, FromLE, Pow, Or;
    var p, q, c := Pow(256, |stream|), Pow(2, have), codes[i];
    OrAdds(buffer, have, c);
    PowAdd(2, have, bits);
    BelowProduct(q, Pow(2, bits), c, buffer);
    assert codes[..i + 1] == codes[..i] + [c];
    ValSnoc(codes[..i], c, Pow(2, bits));
    PowMul(2, bits, i);
    BytePow(|stream|);
    PowAdd(2, 8 * |stream|, have);
    MulDistributes(p, buffer, q * c);
    MulAssoc(p, q, c);
    assert c * (p * q) == (p * q) * c;
  }

  lemma FlushByte(stream: seq<byte>, buffer: nat, have: nat)
    requires buffer < Pow(2, have)
    ensures FromLE(stream + [buffer % 256]) + Pow(256, |stream| + 1) * (buffer / 256)
            == FromLE(stream) + Pow(256, |stream|) * buffer
    ensures have >= 8 ==> buffer / 256 < Pow(2, have - 8)
  {
    var p, x, y := Pow(256, |stream|), buffer % 256, buffer / 256;
    ValSnoc(stream, x, 256);
    assert buffer == x + 256 * y;
    FlushStep(p, x, y);
    if have >= 8 {
      PowAdd(2, 8, have - 8);
      PowTwoEight();
      DivIsBelow(buffer, 256, Pow(2, have - 8));
    }
  }

  lemma FlushStep(p: int, x: int, y: int)
    ensures x * p + (256 * p) * y == p * (x + 256 * y)
  {
  }

  /** `pack`. */
  method PackBytes(data: seq<byte>) returns (out: seq<byte>)
    ensures out == Pack(data)
  {
    hide LE, Val, Pow, ValuesBelow, DetectBits;
    var bits := DetectBitsNeeded(data);
    if bits == 8 { return [8] + data; }
    PackingShrinks(data);
    var values, codes := BuildValueMap(data);
    var sequence: seq<nat> := [];
    for i := 0 to |data|
      invariant sequence == Codes(data)[..i]
    {
      CodeFindsValue(data, data[i], 256);
      sequence := sequence + [codes[data[i]]];
    }
    assert sequence == Codes(data);
    CodesFit(data);
    BitsRange(data);
    var stream := PackCodes(sequence, bits);
    out := [bits] + LE(|data|, 4) + [|values|] + values + stream;
  }

  lemma BitsRange(data: seq<byte>)
    ensures 0 < DetectBits(data) <= 8
  {
  }

  /** `unpack`, on every byte string. */
  method UnpackBytes(d: seq<byte>) returns (out: seq<byte>)
    ensures out == Unpack(d)
  {
    hide FromLE, Fill, Lookup, LowCode, DropCode;
    if |d| < 1 { return []; }
    var bits := d[0];
    if bits == 8 { return d[1..]; }
    if |d| < 6 { return []; }
    var count, distinct: nat := FromLE(d[1..5]), d[5];
    if |d| < 6 + distinct || bits >= 32 { return []; }
    var values := d[6..6 + distinct];
    out := [];
    var b := Buffer(6 + distinct, 0, 0);
    for i := 0 to count
      invariant b.have >= 0 || b.pos >= |d|
      invariant out + UnpackFrom(d, b, bits, values, count - i) == Unpack(d)
    {
      b := FillBuffer(d, b, bits);
      out := out + [Lookup(values, LowCode(b.bits, bits))];
      b := DropCode(b, bits);
    }
  }

  method FillBuffer(d: seq<byte>, start: Buffer, need: nat) returns (b: Buffer)
    requires start.have >= 0 || start.pos >= |d|
    ensures b == Fill(d, start, need)
  {
    hide Or, Pow;
    b := start;
    while b.have < need && b.pos < |d|
      invariant b.have >= 0 || b.pos >= |d|
      invariant Fill(d, b, need) == Fill(d, start, need)
      decreases |d| - b.pos
    {
      b := Buffer(b.pos + 1, Or(b.bits, d[b.pos] * Pow(2, b.have) % U32), b.have + 8);
    }
  }
}
