/** Bytes, machine integers and the little-endian number codec of trace files.

    A byte is an 8-bit vector, so that checksums can work on its bits; every other machine
    integer is a bounded natural number. */
module Bytes {

  datatype Option<+T> = None | Some(value: T)

  type Byte = bv8
  type U16 = n: nat | n < 0x1_0000
  type U32 = n: nat | n < 0x1_0000_0000
  type U64 = n: nat | n < 0x1_0000_0000_0000_0000
  type I32 = n: int | -0x8000_0000 <= n < 0x8000_0000

  const TWO32: nat := 0x1_0000_0000
  const TWO64: nat := 0x1_0000_0000_0000_0000

  function Pow256(w: nat): nat {
    if w == 0 then 1 else 256 * Pow256(w - 1)
  }

  // ----- bytes and numbers: an eight-bit vector is the number its bits weigh -----

  function Bit(on: bool): nat {
    if on then 1 else 0
  }

  /** The number of some bits, the lowest first. */
  function Weight(bits: seq<bool>): nat {
    if bits == [] then 0 else Bit(bits[0]) + 2 * Weight(bits[1..])
  }

  function Bits(b: Byte): (bits: seq<bool>)
    ensures |bits| == 8
  {
    [b & 1 != 0, b & 2 != 0, b & 4 != 0, b & 8 != 0, b & 16 != 0, b & 32 != 0, b & 64 != 0, b & 128 != 0]
  }

  function Pick(on: bool, mask: Byte): Byte {
    if on then mask else 0
  }

  function Pack(x: seq<bool>): Byte
    requires |x| == 8
  {
    Pick(x[0], 1) | Pick(x[1], 2) | Pick(x[2], 4) | Pick(x[3], 8)
    | Pick(x[4], 16) | Pick(x[5], 32) | Pick(x[6], 64) | Pick(x[7], 128)
  }

  /** The lowest bits of a number. */
  function LowBits(n: nat, count: nat): (bits: seq<bool>)
    ensures |bits| == count
  {
    if count == 0 then [] else [n % 2 == 1] + LowBits(n / 2, count - 1)
  }

  function Value(b: Byte): (n: nat)
    ensures n < 256
  {
    WeightBound(Bits(b));
    assert Pow2(8) == 256 by { Pow2Of8(); }
    Weight(Bits(b))
  }

  function ToByte(n: nat): Byte {
    Pack(LowBits(n, 8))
  }

  function Pow2(k: nat): nat {
    if k == 0 then 1 else 2 * Pow2(k - 1)
  }

  lemma Pow2Of8()
    ensures Pow2(8) == 256
  {
    assert Pow2(4) == 2 * Pow2(3) && Pow2(5) == 2 * Pow2(4) && Pow2(6) == 2 * Pow2(5);
    assert Pow2(7) == 2 * Pow2(6) && Pow2(8) == 2 * Pow2(7);
  }

  lemma {:induction false} WeightBound(bits: seq<bool>)
    ensures Weight(bits) < Pow2(|bits|)
  {
    if bits != [] {
      WeightBound(bits[1..]);
    }
  }

  lemma PackOfBits(b: Byte)
    ensures Pack(Bits(b)) == b
  {
  }

  lemma BitsOfPack(x: seq<bool>)
    requires |x| == 8
    ensures Bits(Pack(x)) == x
  {
  }

  /** A number is what its lowest bits weigh, and the rest. */
  lemma {:induction false} WeightOfLowBits(n: nat, count: nat) returns (rest: nat)
    ensures n == Weight(LowBits(n, count)) + Pow2(count) * rest
  {
    if count == 0 {
      rest := n;
    } else {
      rest := WeightOfLowBits(n / 2, count - 1);
      assert LowBits(n, count)[1..] == LowBits(n / 2, count - 1);
      Doubled(Pow2(count - 1), rest);
    }
  }

  lemma Doubled(p: nat, rest: nat)
    ensures 2 * (p * rest) == (2 * p) * rest
  {
  }

  lemma {:induction false} LowBitsOfWeight(bits: seq<bool>, rest: nat)
    ensures LowBits(Weight(bits) + Pow2(|bits|) * rest, |bits|) == bits
  {
    if bits != [] {
      LowBitsOfWeight(bits[1..], rest);
      var n := Weight(bits) + Pow2(|bits|) * rest;
      var half := Weight(bits[1..]) + Pow2(|bits| - 1) * rest;
      Doubled(Pow2(|bits| - 1), rest);
      assert n == Bit(bits[0]) + 2 * half;
      assert n / 2 == half && (n % 2 == 1 <==> bits[0]);
      assert bits == [bits[0]] + bits[1..];
    }
  }

  lemma ValueOfToByte(n: nat)
    ensures Value(ToByte(n)) == n % 256
  {
    hide Pack, Bits, Weight, LowBits, Pow2;
    BitsOfPack(LowBits(n, 8));
    var rest := WeightOfLowBits(n, 8);
    Pow2Of8();
    assert n == Value(ToByte(n)) + 256 * rest;
  }

  lemma ToByteOfValue(b: Byte, k: nat)
    ensures ToByte(Value(b) + 256 * k) == b
  {
    hide Pack, Bits, Weight, LowBits, Pow2;
    Pow2Of8();
    LowBitsOfWeight(Bits(b), k);
    PackOfBits(b);
  }

  function LittleEndian(v: nat, w: nat): (s: seq<Byte>)
    ensures |s| == w
  {
    if w == 0 then [] else [ToByte(v)] + LittleEndian(v / 256, w - 1)
  }

  function Number(s: seq<Byte>): nat {
    if s == [] then 0 else Value(s[0]) + 256 * Number(s[1..])
  }

  lemma PowValues()
    ensures Pow256(2) == 0x1_0000 && Pow256(4) == TWO32 && Pow256(8) == TWO64
  {
    assert Pow256(3) == 256 * Pow256(2) && Pow256(4) == 256 * Pow256(3);
    assert Pow256(5) == 256 * Pow256(4) && Pow256(6) == 256 * Pow256(5);
    assert Pow256(7) == 256 * Pow256(6) && Pow256(8) == 256 * Pow256(7);
  }

  /** Reading back what was appended gives the number, whatever the width. */
  lemma {:induction false} NumberOfLittleEndian(v: nat, w: nat)
    requires v < Pow256(w)
    ensures Number(LittleEndian(v, w)) == v
  {
    hide Value, ToByte;
    if w > 0 {
      ValueOfToByte(v);
      NumberOfLittleEndian(v / 256, w - 1);
      assert LittleEndian(v, w)[1..] == LittleEndian(v / 256, w - 1);
    }
  }

  /** Appending what was read gives the bytes, so no two byte strings of one width decode alike. */
  lemma {:induction false} LittleEndianOfNumber(s: seq<Byte>)
    ensures Number(s) < Pow256(|s|)
    ensures LittleEndian(Number(s), |s|) == s
  {
    hide Value, ToByte;
    if s != [] {
      LittleEndianOfNumber(s[1..]);
      ToByteOfValue(s[0], Number(s[1..]));
      assert Number(s) / 256 == Number(s[1..]);
      assert s == [s[0]] + s[1..];
    }
  }

  /** AppendU16, AppendU32 and AppendU64 are this loop at widths 2, 4 and 8. */
  method Append(output: seq<Byte>, value: nat, width: nat) returns (result: seq<Byte>)
    ensures result == output + LittleEndian(value, width)
  {
    hide ToByte;
    result := output;
    var shifted := value;
    for i := 0 to width
      invariant result + LittleEndian(shifted, width - i) == output + LittleEndian(value, width)
    {
      ghost var tail := LittleEndian(shifted / 256, width - i - 1);
      assert result + LittleEndian(shifted, width - i) == result + [ToByte(shifted)] + tail;
      result := result + [ToByte(shifted)];
      shifted := shifted / 256;
    }
  }

  lemma Weigh(weight: nat, b: nat, rest: nat)
    ensures weight * (b + 256 * rest) == weight * b + (weight * 256) * rest
    ensures weight * b >= 0
  {
  }

  /** ReadU16, ReadU32 and ReadU64: a bounds check, then the bytes in order of weight. */
  method Read(input: seq<Byte>, offset: nat, width: nat) returns (ok: bool, value: nat, next: nat)
    requires width == 2 || width == 4 || width == 8
    ensures ok <==> offset + width <= |input|
    ensures ok ==> value == Number(input[offset..offset + width]) && next == offset + width
    ensures !ok ==> next == offset
  {
    hide Value;
    value, next := 0, offset;
    var available := |input| - if |input| < offset then |input| else offset;
    ok := width <= available;
    if ok {
      var weight: nat := 1;
      for i := 0 to width
        invariant value + weight * Number(input[offset + i..offset + width]) == Number(input[offset..offset + width])
      {
        ghost var rest := input[offset + i..offset + width];
        assert rest[1..] == input[offset + i + 1..offset + width];
        Weigh(weight, Value(rest[0]), Number(rest[1..]));
        value := value + weight * Value(input[offset + i]);
        weight := weight * 256;
      }
      next := offset + width;
    }
  }

  // ----- records of numbers: a table of widths against a list of values -----

  function Sum(widths: seq<nat>): nat {
    if widths == [] then 0 else widths[0] + Sum(widths[1..])
  }

  lemma {:induction false} SumConcat(a: seq<nat>, b: seq<nat>)
    ensures Sum(a + b) == Sum(a) + Sum(b)
  {
    if a == [] {
      assert a + b == b;
    } else {
      SumConcat(a[1..], b);
      assert (a + b)[1..] == a[1..] + b;
    }
  }

  predicate Fit(widths: seq<nat>, values: seq<nat>) {
    |widths| == |values| && forall i :: 0 <= i < |widths| ==> values[i] < Pow256(widths[i])
  }

  lemma NothingFits()
    ensures Fit([], [])
  {
  }

  lemma FitMore(widths: seq<nat>, v: nat, values: seq<nat>)
    requires widths != [] && Fit(widths[1..], values) && v < Pow256(widths[0])
    ensures Fit(widths, [v] + values)
  {
    hide Pow256;
    forall i | 0 < i < |widths|
      ensures ([v] + values)[i] < Pow256(widths[i])
    {
      assert widths[i] == widths[1..][i - 1] && ([v] + values)[i] == values[i - 1];
    }
  }

  function Encode(widths: seq<nat>, values: seq<nat>): (s: seq<Byte>)
    requires |widths| == |values|
    ensures |s| == Sum(widths)
  {
    if widths == [] then [] else LittleEndian(values[0], widths[0]) + Encode(widths[1..], values[1..])
  }

  function Decode(widths: seq<nat>, s: seq<Byte>): (values: seq<nat>)
    requires |s| == Sum(widths)
    ensures |values| == |widths|
  {
    if widths == [] then [] else [Number(s[..widths[0]])] + Decode(widths[1..], s[widths[0]..])
  }

  lemma {:induction false} DecodeOfEncode(widths: seq<nat>, values: seq<nat>)
    requires Fit(widths, values)
    ensures Decode(widths, Encode(widths, values)) == values
  {
    hide Number, LittleEndian;
    if widths != [] {
      var head, tail := LittleEndian(values[0], widths[0]), Encode(widths[1..], values[1..]);
      NumberOfLittleEndian(values[0], widths[0]);
      DecodeOfEncode(widths[1..], values[1..]);
      assert (head + tail)[..widths[0]] == head && (head + tail)[widths[0]..] == tail;
    }
  }

  lemma {:induction false} EncodeOfDecode(widths: seq<nat>, s: seq<Byte>)
    requires |s| == Sum(widths)
    ensures Fit(widths, Decode(widths, s))
    ensures Encode(widths, Decode(widths, s)) == s
  {
    hide Number, LittleEndian, Pow256, Fit;
    if widths == [] {
      assert Fit([], []) by { NothingFits(); }
    } else {
      var head, tail := s[..widths[0]], s[widths[0]..];
      LittleEndianOfNumber(head);
      EncodeOfDecode(widths[1..], tail);
      var rest := Decode(widths[1..], tail);
      assert Decode(widths, s) == [Number(head)] + rest;
      assert ([Number(head)] + rest)[1..] == rest;
      FitMore(widths, Number(head), rest);
      assert s == head + tail;
    }
  }

  /** The k-th decoded value depends only on its own bytes. */
  lemma {:induction false} DecodeAt(widths: seq<nat>, s: seq<Byte>, k: nat)
    requires |s| == Sum(widths) && k < |widths|
    ensures Sum(widths[..k]) + widths[k] <= |s|
    ensures Decode(widths, s)[k] == Number(s[Sum(widths[..k])..Sum(widths[..k]) + widths[k]])
  {
    hide Number;
    if k == 0 {
      assert widths[..0] == [];
      assert s[0..widths[0]] == s[..widths[0]];
    } else {
      var rest := s[widths[0]..];
      DecodeAt(widths[1..], rest, k - 1);
      assert widths[..k][0] == widths[0] && widths[..k][1..] == widths[1..][..k - 1];
      var at := Sum(widths[1..][..k - 1]);
      assert rest[at..at + widths[k]] == s[widths[0] + at..widths[0] + at + widths[k]];
    }
  }

  lemma {:induction false} EncodeExtend(widths: seq<nat>, values: seq<nat>, w: nat, v: nat)
    requires |widths| == |values|
    ensures Encode(widths + [w], values + [v]) == Encode(widths, values) + LittleEndian(v, w)
  {
    hide LittleEndian;
    if widths == [] {
      assert Encode([], []) == [];
    } else {
      EncodeExtend(widths[1..], values[1..], w, v);
      assert (widths + [w])[1..] == widths[1..] + [w] && (values + [v])[1..] == values[1..] + [v];
    }
  }

  lemma SumStep(widths: seq<nat>, k: nat)
    requires k < |widths|
    ensures Sum(widths[..k + 1]) == Sum(widths[..k]) + widths[k]
  {
    assert widths[..k + 1] == widths[..k] + [widths[k]] && [widths[k]][1..] == [];
    SumConcat(widths[..k], [widths[k]]);
  }

  /** Each number stands at the sum of the widths before it. */
  lemma {:induction false} EncodeAt(widths: seq<nat>, values: seq<nat>, k: nat)
    requires |widths| == |values| && k < |widths|
    ensures Sum(widths[..k]) + widths[k] <= Sum(widths)
    ensures Encode(widths, values)[Sum(widths[..k])..Sum(widths[..k]) + widths[k]] == LittleEndian(values[k], widths[k])
  {
    hide LittleEndian;
    var head, tail := LittleEndian(values[0], widths[0]), Encode(widths[1..], values[1..]);
    if k == 0 {
      assert widths[..0] == [];
      assert (head + tail)[0..widths[0]] == head;
    } else {
      EncodeAt(widths[1..], values[1..], k - 1);
      assert widths[..k][0] == widths[0] && widths[..k][1..] == widths[1..][..k - 1];
      var at := Sum(widths[1..][..k - 1]);
      assert (head + tail)[widths[0] + at..widths[0] + at + widths[k]] == tail[at..at + widths[k]];
    }
  }

  lemma SliceOfSlice(p: seq<Byte>, i: nat, j: nat, m: nat, n: nat)
    requires i <= j <= |p| && m <= n <= j - i
    ensures p[i..j][m..n] == p[i + m..i + n]
  {
    forall k | 0 <= k < n - m
      ensures p[i..j][m..n][k] == p[i + m..i + n][k]
    {
      assert p[i..j][m..n][k] == p[i..j][m + k] == p[i + (m + k)];
    }
  }
}
