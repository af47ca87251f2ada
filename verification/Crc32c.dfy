/**
 CRC32C: the table-driven checksum refines the bit-serial one (section 12.1 of RFC 3720).
 A register is its 32 bits, least significant first, so that shifting right drops the first.
 */
module Crc32c {
  import opened Base

  type Register = s: seq<bool> | |s| == 32 witness seq(32, i => false)

  function Zeros(n: nat): (s: seq<bool>)
    ensures |s| == n && forall i :: 0 <= i < n ==> !s[i]
  {
    seq(n, i => false)
  }

  /** The `n` low bits of a number. */
  function BitsOf(n: nat, value: nat): (s: seq<bool>)
    ensures |s| == n
    decreases n
  {
    if n == 0 then [] else [value % 2 == 1] + BitsOf(n - 1, value / 2)
  }

  function Power2(n: nat): nat {
    if n == 0 then 1 else 2 * Power2(n - 1)
  }

  function ToNat(bits: seq<bool>): (v: nat)
    ensures v < Power2(|bits|)
  {
    if bits == [] then 0 else (if bits[0] then 1 else 0) + 2 * ToNat(bits[1..])
  }

  lemma {:induction false} BitsRoundTrip(bits: seq<bool>)
    ensures BitsOf(|bits|, ToNat(bits)) == bits
  {
    if bits != [] {
      BitsRoundTrip(bits[1..]);
      assert bits == [bits[0]] + bits[1..];
    }
  }

  /** A number that fits in `n` bits has only zeros above them. */
  lemma {:induction false} HighBitsAreZero(n: nat, m: nat, value: nat)
    requires value < Power2(n)
    ensures BitsOf(n + m, value) == BitsOf(n, value) + Zeros(m)
    decreases n
  {
    if n == 0 {
      ZeroBits(m);
    } else {
      HighBitsAreZero(n - 1, m, value / 2);
    }
  }

  lemma {:induction false} ZeroBits(m: nat)
    ensures BitsOf(m, 0) == Zeros(m)
  {
    if m != 0 {
      ZeroBits(m - 1);
      assert Zeros(m) == [false] + Zeros(m - 1);
    }
  }

  function ByteBits(b: byte): (r: Register) {
    BitsOf(32, b)
  }

  lemma ByteIsLow(b: byte)
    ensures forall i :: 8 <= i < 32 ==> !ByteBits(b)[i]
  {
    assert Power2(8) == 256 by {
      assert Power2(4) == 16;
    }
    HighBitsAreZero(8, 24, b);
  }

  // ---- The register ---------------------------------------------------------------------------------------

  function Xor(a: Register, b: Register): (r: Register)
    ensures forall i :: 0 <= i < 32 ==> r[i] == (a[i] != b[i])
  {
    seq(32, i requires 0 <= i < 32 => a[i] != b[i])
  }

  function Not(a: Register): (r: Register)
    ensures forall i :: 0 <= i < 32 ==> r[i] == !a[i]
  {
    seq(32, i requires 0 <= i < 32 => !a[i])
  }

  /** Shift right by `n` bits. */
  function Shift(a: Register, n: nat): (r: Register)
    requires n <= 32
    ensures forall i :: 0 <= i < 32 ==> r[i] == (i + n < 32 && a[i + n])
  {
    a[n..] + Zeros(n)
  }

  /** The low byte alone. */
  function LowByte(a: Register): (r: Register)
    ensures forall i :: 0 <= i < 32 ==> r[i] == (i < 8 && a[i])
  {
    a[..8] + Zeros(24)
  }

  /** The reflected Castagnoli polynomial. */
  const POLYNOMIAL: Register := BitsOf(32, 0x82F63B78)

  /** One bit-serial step of the reflected polynomial division. */
  function Bit(v: Register): Register {
    if v[0] then Xor(Shift(v, 1), POLYNOMIAL) else Shift(v, 1)
  }

  function Bits(v: Register, n: nat): Register
    decreases n
  {
    if n == 0 then v else Bits(Bit(v), n - 1)
  }

  /** Bit-serial: the byte is mixed into the register and divided out in eight steps. */
  function SerialStep(crc: Register, b: byte): Register {
    Bits(Xor(crc, ByteBits(b)), 8)
  }

  /** Table-driven: the low byte selects one of 256 precomputed results. */
  function TableStep(crc: Register, b: byte): Register {
    Xor(Bits(LowByte(Xor(crc, ByteBits(b))), 8), Shift(crc, 8))
  }

  // ---- Linearity ----------------------------------------------------------------------------------------------

  lemma BitIsLinear(x: Register, y: Register)
    ensures Bit(Xor(x, y)) == Xor(Bit(x), Bit(y))
  {
  }

  lemma {:induction false} BitsAreLinear(x: Register, y: Register, n: nat)
    ensures Bits(Xor(x, y), n) == Xor(Bits(x, n), Bits(y, n))
    decreases n
  {
    if n != 0 {
      BitIsLinear(x, y);
      BitsAreLinear(Bit(x), Bit(y), n - 1);
    }
  }

  /** As long as the bits shifted out are clear, the polynomial never enters. */
  lemma {:induction false} ClearBitsShift(h: Register, n: nat)
    requires n <= 32 && forall i :: 0 <= i < n ==> !h[i]
    ensures Bits(h, n) == Shift(h, n)
    decreases n
  {
    if n == 0 {
      assert Shift(h, 0) == h;
    } else {
      ClearBitsShift(Shift(h, 1), n - 1);
      assert Shift(Shift(h, 1), n - 1) == Shift(h, n);
    }
  }

  /** The refinement: for every register and every byte, one table step is eight bit-serial steps. */
  lemma TableRefinesSerial(crc: Register, b: byte)
    ensures TableStep(crc, b) == SerialStep(crc, b)
  {
    var v := Xor(crc, ByteBits(b));
    var high := Xor(v, LowByte(v));
    assert v == Xor(LowByte(v), high);
    BitsAreLinear(LowByte(v), high, 8);
    ClearBitsShift(high, 8);
    ByteIsLow(b);
    assert Shift(high, 8) == Shift(crc, 8);
  }

  // ---- Checksums ------------------------------------------------------------------------------------------------

  /** Feeds the bytes of `data` to the register, one after the other. */
  function Feed(crc: Register, data: seq<byte>): Register {
    if data == [] then crc else TableStep(Feed(crc, data[..|data| - 1]), data[|data| - 1])
  }

  function FeedSerially(crc: Register, data: seq<byte>): Register {
    if data == [] then crc else SerialStep(FeedSerially(crc, data[..|data| - 1]), data[|data| - 1])
  }

  function Extend(seed: Register, data: seq<byte>): Register {
    Not(Feed(Not(seed), data))
  }

  function Checksum(data: seq<byte>): Register {
    Extend(Zeros(32), data)
  }

  /** The checksum by the book: all ones, divide bit by bit, complement. */
  function SerialChecksum(data: seq<byte>): Register {
    Not(FeedSerially(Not(Zeros(32)), data))
  }

  lemma {:induction false} FeedRefinesSerial(crc: Register, data: seq<byte>)
    ensures Feed(crc, data) == FeedSerially(crc, data)
  {
    if data != [] {
      FeedRefinesSerial(crc, data[..|data| - 1]);
      TableRefinesSerial(Feed(crc, data[..|data| - 1]), data[|data| - 1]);
    }
  }

  /** Over whole messages, the table-driven checksum is the bit-serial one. */
  lemma ChecksumRefinesSerial(data: seq<byte>)
    ensures Checksum(data) == SerialChecksum(data)
  {
    FeedRefinesSerial(Not(Zeros(32)), data);
  }

  lemma {:induction false} FeedConcat(crc: Register, a: seq<byte>, b: seq<byte>)
    ensures Feed(crc, a + b) == Feed(Feed(crc, a), b)
  {
    if b == [] {
      assert a + b == a;
    } else {
      var n := |b| - 1;
      assert (a + b)[..|a + b| - 1] == a + b[..n];
      FeedConcat(crc, a, b[..n]);
    }
  }

  /** Extending the checksum of `a` by `b` is the checksum of `a + b`. */
  lemma ExtendIsConcatenation(seed: Register, a: seq<byte>, b: seq<byte>)
    ensures Extend(Extend(seed, a), b) == Extend(seed, a + b)
  {
    FeedConcat(Not(seed), a, b);
    assert Not(Not(Feed(Not(seed), a))) == Feed(Not(seed), a);
  }

  // ---- The table and the byte loop as the runtime performs them --------------------------------------------------

  /** Entry `i` is the eight-step result of register `i`. */
  ghost predicate IsTable(table: seq<Register>) {
    |table| == 256 && forall i :: 0 <= i < 256 ==> table[i] == Bits(BitsOf(32, i), 8)
  }

  method Divide(index: Register, steps: nat) returns (value: Register)
    ensures value == Bits(index, steps)
  {
    value := index;
    for bit := 0 to steps
      invariant Bits(index, steps) == Bits(value, steps - bit)
    {
      value := if value[0] then Xor(Shift(value, 1), POLYNOMIAL) else Shift(value, 1);
    }
  }

  method BuildTable() returns (table: seq<Register>)
    ensures IsTable(table)
  {
    table := [];
    for index := 0 to 256
      invariant |table| == index && forall i :: 0 <= i < index ==> table[i] == Bits(BitsOf(32, i), 8)
    {
      var value := Divide(BitsOf(32, index), 8);
      table := table + [value];
    }
  }

  lemma LowByteIndex(v: Register)
    ensures ToNat(v[..8]) < 256 && BitsOf(32, ToNat(v[..8])) == LowByte(v)
  {
    assert Power2(8) == 256 by {
      assert Power2(4) == 16;
    }
    HighBitsAreZero(8, 24, ToNat(v[..8]));
    BitsRoundTrip(v[..8]);
  }

  method ExtendWith(table: seq<Register>, seed: Register, data: seq<byte>) returns (r: Register)
    requires IsTable(table)
    ensures r == Extend(seed, data)
  {
    var crc := Not(seed);
    for i := 0 to |data|
      invariant crc == Feed(Not(seed), data[..i])
    {
      assert data[..i + 1][..i] == data[..i];
      var mixed := Xor(crc, ByteBits(data[i]));
      LowByteIndex(mixed);
      crc := Xor(table[ToNat(mixed[..8])], Shift(crc, 8));
    }
    assert data[..|data|] == data;
    r := Not(crc);
  }
}
