/** Base-128 varints as the remote-write receiver reads them: the loop shifts seven bits at a time
    into a 64-bit register, reads at most ten bytes and drops the bits that fall off the register. */
module Varint {

  type Byte = b: int | 0 <= b < 256

  const TWO_64: int := 0x1_0000_0000_0000_0000
  const TWO_63: int := 0x8000_0000_0000_0000
  const MAX_VARINT_BYTES: nat := 10

  /** Go's conversion of a uint64 to a 64-bit int. */
  function ToInt64(v: int): int
    requires 0 <= v < TWO_64
  {
    if v < TWO_63 then v else v - TWO_64
  }

  /** Go's conversion of a 64-bit int to a uint64. */
  function ToUint64(v: int): int
    requires -TWO_63 <= v < TWO_63
  {
    if v < 0 then v + TWO_64 else v
  }

  /** The number whose base-128 digits are the low seven bits of `s`, least significant first. */
  function Base128(s: seq<Byte>): nat {
    if s == [] then 0 else s[0] % 128 + 128 * Base128(s[1..])
  }

  /** Length of the shortest prefix of at most `limit` bytes that ends in a byte below 0x80; 0 if there is none. */
  function VarintLength(data: seq<Byte>, limit: nat): (n: nat)
    ensures n <= |data| && n <= limit
  {
    if limit == 0 || data == [] then 0
    else if data[0] < 128 then 1
    else
      var n := VarintLength(data[1..], limit - 1);
      if n == 0 then 0 else n + 1
  }

  lemma {:induction false} LengthIsFirstEnd(data: seq<Byte>, limit: nat, k: nat)
    requires k < |data| && k < limit && data[k] < 128 && forall j :: 0 <= j < k ==> data[j] >= 128
    ensures VarintLength(data, limit) == k + 1
  {
    if k > 0 {
      LengthIsFirstEnd(data[1..], limit - 1, k - 1);
    }
  }

  lemma {:induction false} NoEndNoLength(data: seq<Byte>, limit: nat)
    requires forall j :: 0 <= j < |data| && j < limit ==> data[j] >= 128
    ensures VarintLength(data, limit) == 0
  {
    if limit > 0 && data != [] {
      NoEndNoLength(data[1..], limit - 1);
    }
  }

  /** What a varint means: the value modulo 2^64 and the number of bytes read, or (0, 0) when no
      byte among the first ten ends it. */
  function Decode(data: seq<Byte>): (r: (int, nat))
    ensures 0 <= r.0 < TWO_64 && r.1 <= |data| && r.1 <= MAX_VARINT_BYTES
  {
    var n := VarintLength(data, MAX_VARINT_BYTES);
    if n == 0 then (0, 0) else (Base128(data[..n]) % TWO_64, n)
  }

  /** Minimal base-128 encoding, as `binary.PutUvarint` writes it. */
  function Encode(v: nat): (s: seq<Byte>)
    ensures |s| > 0
  {
    if v < 128 then [v] else [128 + v % 128] + Encode(v / 128)
  }

  function Shift(i: nat): nat {
    if i == 0 then 1 else 128 * Shift(i - 1)
  }

  lemma {:induction false} ShiftValues()
    ensures Shift(0) == 1 && Shift(1) == 0x80 && Shift(2) == 0x4000 && Shift(3) == 0x20_0000
    ensures Shift(4) == 0x1000_0000 && Shift(5) == 0x8_0000_0000 && Shift(6) == 0x400_0000_0000
    ensures Shift(7) == 0x2_0000_0000_0000 && Shift(8) == 0x100_0000_0000_0000 && Shift(9) == TWO_63
  {
    assert Shift(2) == 128 * Shift(1);
    assert Shift(3) == 128 * Shift(2);
    assert Shift(4) == 128 * Shift(3);
    assert Shift(5) == 128 * Shift(4);
    assert Shift(6) == 128 * Shift(5);
    assert Shift(7) == 128 * Shift(6);
    assert Shift(8) == 128 * Shift(7);
    assert Shift(9) == 128 * Shift(8);
  }

  /** `uint64(digit) << 7*i`: the bits above the 64th are lost. */
  function ShiftLeft(digit: nat, i: nat): nat {
    digit * Shift(i) % TWO_64
  }

  /** The digit's bits that stay in the register: the tenth byte has room for one. */
  function KeptBits(digit: nat, i: nat): nat {
    if i == 9 then digit % 2 else digit
  }

  /** `x | y` for a register `x` that only has bits below `unit` and a `y` that is a multiple of it:
      with no bit in common, or is addition. */
  function OrDisjoint(x: nat, y: nat, unit: nat, ghost k: nat): nat
    requires x < unit && y == k * unit
  {
    x + y
  }

  lemma {:induction false} ShiftedDigit(digit: nat, i: nat)
    requires i < MAX_VARINT_BYTES && digit < 128
    ensures ShiftLeft(digit, i) == KeptBits(digit, i) * Shift(i)
  {
    ShiftValues();
    if i == 9 {
      assert digit * TWO_63 == digit / 2 * TWO_64 + digit % 2 * TWO_63;
    } else {
      ProductBelow(digit, Shift(i), 0x100_0000_0000_0000);
    }
  }

  /** Appending a most significant digit. */
  lemma {:induction false} Base128Append(s: seq<Byte>, b: Byte)
    ensures Base128(s + [b]) == Base128(s) + b % 128 * Shift(|s|)
    ensures Base128(s) < Shift(|s|)
  {
    if s == [] {
      assert s + [b] == [b];
      assert Base128([b][1..]) == 0;
    } else {
      assert (s + [b])[1..] == s[1..] + [b];
      Base128Append(s[1..], b);
      var d, unit := b % 128, Shift(|s| - 1);
      assert 128 * (d * unit) == d * (128 * unit);
    }
  }

  lemma {:induction false} RegisterArithmetic(x: nat, d: nat, i: nat)
    requires i < MAX_VARINT_BYTES && d < 128 && x < Shift(i)
    ensures x + KeptBits(d, i) * Shift(i) == (x + d * Shift(i)) % TWO_64
    ensures i < 9 ==> x + d * Shift(i) < TWO_64
  {
    ShiftValues();
    if i == 9 {
      var r := x + d % 2 * TWO_63;
      assert x + d * TWO_63 == d / 2 * TWO_64 + r;
      assert r < TWO_64;
    } else {
      ProductBelow(d, Shift(i), 0x100_0000_0000_0000);
    }
  }

  lemma {:induction false} ProductBelow(d: nat, unit: nat, bound: nat)
    requires d < 128 && unit <= bound
    ensures d * unit <= 127 * bound
  {
    assert d * unit <= 127 * unit;
  }

  /** One more digit or-ed into the register, when the register holds all digits so far. */
  lemma {:induction false} RegisterStep(s: seq<Byte>, b: Byte)
    requires |s| < MAX_VARINT_BYTES
    ensures ShiftLeft(b % 128, |s|) == KeptBits(b % 128, |s|) * Shift(|s|)
    ensures Base128(s) < Shift(|s|)
    ensures Base128(s) + ShiftLeft(b % 128, |s|) == Base128(s + [b]) % TWO_64
    ensures |s| < 9 ==> Base128(s) + ShiftLeft(b % 128, |s|) == Base128(s + [b])
  {
    Base128Append(s, b);
    ShiftedDigit(b % 128, |s|);
    RegisterArithmetic(Base128(s), b % 128, |s|);
  }

  /** `x | uint64(digit) << 7*i` for a register `x` with bits below the shift only. */
  function OrDigit(x: nat, digit: nat, i: nat): nat
    requires i < MAX_VARINT_BYTES && digit < 128 && x < Shift(i)
  {
    ShiftedDigit(digit, i);
    OrDisjoint(x, ShiftLeft(digit, i), Shift(i), KeptBits(digit, i))
  }

  lemma {:induction false} DigitFits(data: seq<Byte>, i: nat)
    requires i < |data| && i < MAX_VARINT_BYTES
    ensures Base128(data[..i]) < Shift(i)
    ensures OrDigit(Base128(data[..i]), data[i] % 128, i) == Base128(data[..i + 1]) % TWO_64
    ensures i + 1 < MAX_VARINT_BYTES ==> OrDigit(Base128(data[..i]), data[i] % 128, i) == Base128(data[..i + 1])
  {
    RegisterStep(data[..i], data[i]);
    assert data[..i] + [data[i]] == data[..i + 1];
  }

  /** The digit that ends a varint completes its value. */
  lemma {:induction false} LastDigit(data: seq<Byte>, i: nat, x: nat)
    requires i < |data| && i < MAX_VARINT_BYTES && data[i] < 128 && forall k :: 0 <= k < i ==> data[k] >= 128
    requires x == Base128(data[..i])
    ensures x < Shift(i) && Decode(data) == (OrDigit(x, data[i], i), i + 1)
  {
    LengthIsFirstEnd(data, MAX_VARINT_BYTES, i);
    DigitFits(data, i);
    assert data[i] % 128 == data[i];
  }

  /** The decoding loop computes the meaning `Decode` gives a varint. */
  method DecodeVarint(data: seq<Byte>) returns (value: int, n: nat)
    ensures (value, n) == Decode(data)
  {
    var x: nat := 0;
    var i: nat := 0;
    while i < |data|
      invariant i <= |data| && i <= MAX_VARINT_BYTES
      invariant forall k :: 0 <= k < i ==> data[k] >= 128
      invariant i < MAX_VARINT_BYTES ==> x == Base128(data[..i])
    {
      if i >= MAX_VARINT_BYTES {
        NoEndNoLength(data, MAX_VARINT_BYTES);
        return 0, 0;
      }
      var b := data[i];
      if b < 128 {
        LastDigit(data, i, x);
        return OrDigit(x, b, i), i + 1;
      }
      DigitFits(data, i);
      x := OrDigit(x, b % 128, i);
      i := i + 1;
    }
    NoEndNoLength(data, MAX_VARINT_BYTES);
    return 0, 0;
  }

  lemma {:induction false} EncodeValue(v: nat)
    ensures Base128(Encode(v)) == v
  {
    if v < 128 {
      assert Base128([v][1..]) == 0;
    } else {
      EncodeValue(v / 128);
      assert Encode(v)[1..] == Encode(v / 128);
      assert Encode(v)[0] % 128 == v % 128;
    }
  }

  lemma {:induction false} EncodeLength(v: nat, n: nat, rest: seq<Byte>)
    requires 0 < n && v < Shift(n)
    ensures |Encode(v)| <= n && VarintLength(Encode(v) + rest, n) == |Encode(v)|
  {
    if v >= 128 {
      assert n > 1 by { assert Shift(1) == 128 * Shift(0); }
      QuotientBelow(v, Shift(n - 1));
      EncodeLength(v / 128, n - 1, rest);
      assert (Encode(v) + rest)[1..] == Encode(v / 128) + rest;
    }
  }

  lemma {:induction false} QuotientBelow(v: nat, m: nat)
    requires v < 128 * m
    ensures v / 128 < m
  {
  }

  /** Decoding inverts minimal encoding for every 64-bit value, whatever bytes follow it. */
  lemma {:induction false} RoundTrip(v: nat, rest: seq<Byte>)
    requires v < TWO_64
    ensures Decode(Encode(v) + rest) == (v, |Encode(v)|)
  {
    ShiftValues();
    assert Shift(10) == 128 * Shift(9);
    EncodeLength(v, MAX_VARINT_BYTES, rest);
    EncodeValue(v);
    assert (Encode(v) + rest)[..|Encode(v)|] == Encode(v);
  }

  /** A varint that ends inside `data` reads the same when bytes are appended. */
  lemma {:induction false} LengthStable(data: seq<Byte>, more: seq<Byte>, limit: nat)
    requires VarintLength(data, limit) != 0
    ensures VarintLength(data + more, limit) == VarintLength(data, limit)
  {
    if data[0] >= 128 {
      assert (data + more)[1..] == data[1..] + more;
      LengthStable(data[1..], more, limit - 1);
    }
  }

  lemma {:induction false} DecodeStable(data: seq<Byte>, more: seq<Byte>)
    requires Decode(data).1 != 0
    ensures Decode(data + more) == Decode(data)
  {
    LengthStable(data, more, MAX_VARINT_BYTES);
    var n := Decode(data).1;
    assert (data + more)[..n] == data[..n];
  }
}
