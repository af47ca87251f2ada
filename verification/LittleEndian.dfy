/** Little-endian words, the only number format of the wire and of the state file. */
module LittleEndian {
  import opened Base

  function Power256(n: nat): (p: nat)
    ensures p >= 1
  {
    if n == 0 then 1 else 256 * Power256(n - 1)
  }

  /** The `n` low bytes of `value`, least significant first. */
  function Le(n: nat, value: nat): (s: seq<byte>)
    ensures |s| == n
  {
    if n == 0 then [] else [value % 256] + Le(n - 1, value / 256)
  }

  function FromLe(s: seq<byte>): nat {
    if s == [] then 0 else s[0] + 256 * FromLe(s[1..])
  }

  /** Reading back a word that fits gives the word. */
  lemma {:induction false} LeRoundTrip(n: nat, value: nat)
    requires value < Power256(n)
    ensures FromLe(Le(n, value)) == value
  {
    if n != 0 {
      assert Le(n, value)[1..] == Le(n - 1, value / 256);
      LeRoundTrip(n - 1, value / 256);
    }
  }

  /** Writing back what was read gives the same bytes, and what was read fits. */
  lemma {:induction false} FromLeRoundTrip(s: seq<byte>)
    ensures FromLe(s) < Power256(|s|) && Le(|s|, FromLe(s)) == s
  {
    if s != [] {
      FromLeRoundTrip(s[1..]);
      assert s == [s[0]] + s[1..];
    }
  }

  lemma Widths()
    ensures Power256(1) == U8_MAX + 1 && Power256(2) == U16_MAX + 1 && Power256(4) == U32_MAX + 1 && Power256(8) == U64_MAX + 1
  {
    assert Power256(3) == 0x100_0000;
    assert Power256(5) == 0x100_0000_0000 && Power256(6) == 0x1_0000_0000_0000 && Power256(7) == 0x100_0000_0000_0000;
  }

  /** Byte `i` of a word is its `8 * i`-bit shift, truncated. */
  lemma {:induction false} LeAt(n: nat, value: nat, i: nat)
    requires i < n
    ensures Le(n, value)[i] == (value / Power256(i)) % 256
  {
    if i > 0 {
      LeAt(n - 1, value / 256, i - 1);
      DivideTwice(value, Power256(i - 1));
    }
  }

  lemma DivideTwice(value: nat, p: nat)
    requires p >= 1
    ensures (value / 256) / p == value / (256 * p)
  {
    var q, r := (value / 256) / p, (value / 256) % p;
    var rest := 256 * r + value % 256;
    assert value / 256 == p * q + r;
    assert value == (256 * p) * q + rest by {
      assert 256 * (p * q + r) == (256 * p) * q + 256 * r;
    }
    QuotientIs(value, 256 * p, q, rest);
  }

  lemma QuotientIs(value: nat, d: nat, q: nat, rest: nat)
    requires d >= 1 && value == d * q + rest && rest < d
    ensures value / d == q
  {
    var other, remainder := value / d, value % d;
    SameQuotient(d, q, rest, other, remainder);
  }

  lemma SameQuotient(d: nat, q: nat, r: nat, q': nat, r': nat)
    requires r < d && r' < d && d * q + r == d * q' + r'
    ensures q == q'
  {
    if q < q' {
      NextMultiple(d, q, r, q');
    } else if q' < q {
      NextMultiple(d, q', r', q);
    }
  }

  lemma {:induction false} NextMultiple(d: nat, q: nat, r: nat, q': nat)
    requires r < d && q < q'
    ensures d * q + r < d * q'
    decreases q'
  {
    assert d * q' == d * (q' - 1) + d;
    if q + 1 < q' {
      NextMultiple(d, q, r, q' - 1);
    }
  }

  // ---- The store and load loops ------------------------------------------------------------------------

  method StoreLe(out: array<byte>, offset: nat, n: nat, value: nat)
    requires offset + n <= out.Length
    modifies out
    ensures out[..] == old(out[..offset]) + Le(n, value) + old(out[offset + n..])
  {
    for i := 0 to n
      invariant out[..offset] == old(out[..offset])
      invariant out[offset + n..] == old(out[offset + n..])
      invariant forall j :: 0 <= j < i ==> out[offset + j] == Le(n, value)[j]
    {
      LeAt(n, value, i);
      out[offset + i] := (value / Power256(i)) % 256;
    }
    assert out[offset..offset + n] == Le(n, value);
    assert out[..] == out[..offset] + out[offset..offset + n] + out[offset + n..];
  }

  lemma {:induction false} FromLeSnoc(s: seq<byte>, b: byte)
    ensures FromLe(s + [b]) == FromLe(s) + b * Power256(|s|)
  {
    if s != [] {
      assert (s + [b])[1..] == s[1..] + [b];
      FromLeSnoc(s[1..], b);
      Distribute(b, Power256(|s| - 1), FromLe(s[1..]));
    } else {
      assert (s + [b])[1..] == [];
    }
  }

  lemma Distribute(b: nat, p: nat, rest: nat)
    ensures 256 * (rest + b * p) == 256 * rest + b * (256 * p)
  {
  }

  method LoadLe(data: seq<byte>, offset: nat, n: nat) returns (value: nat)
    requires offset + n <= |data|
    ensures value == FromLe(data[offset..offset + n])
  {
    value := 0;
    for i := 0 to n
      invariant value == FromLe(data[offset..offset + i])
    {
      assert data[offset..offset + i + 1] == data[offset..offset + i] + [data[offset + i]];
      FromLeSnoc(data[offset..offset + i], data[offset + i]);
      value := value + data[offset + i] * Power256(i);
    }
  }
}
