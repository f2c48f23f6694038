/**
 Byte buffers read as bit streams, most significant bit of each byte first, as
 bit_lib.c addresses them.
 */
module BitBuffer {

  /** The bit at position i of a byte, and the mask that selects it. */
  function Mask(i: nat): bv8
    requires i < 8
  {
    if i == 0 then 0x80 else if i == 1 then 0x40 else if i == 2 then 0x20 else if i == 3 then 0x10
    else if i == 4 then 0x08 else if i == 5 then 0x04 else if i == 6 then 0x02 else 0x01
  }

  predicate BitOf(b: bv8, i: nat)
    requires i < 8
  {
    b & Mask(i) != 0
  }

  function WithBit(b: bv8, i: nat, v: bool): bv8
    requires i < 8
  {
    if v then b | Mask(i) else b & !Mask(i)
  }

  lemma {:induction false} WithBitOf(b: bv8, i: nat, v: bool, j: nat)
    requires i < 8 && j < 8
    ensures BitOf(WithBit(b, i, v), j) == if j == i then v else BitOf(b, j)
  {
  }

  predicate Bit(d: seq<bv8>, p: nat)
    requires p < 8 * |d|
  {
    BitOf(d[p / 8], p % 8)
  }

  /** The buffer after bit_lib_set_bit. */
  function Put(d: seq<bv8>, p: nat, v: bool): (r: seq<bv8>)
    requires p < 8 * |d|
    ensures |r| == |d|
  {
    d[p / 8 := WithBit(d[p / 8], p % 8, v)]
  }

  lemma {:induction false} PutBit(d: seq<bv8>, p: nat, v: bool, q: nat)
    requires p < 8 * |d| && q < 8 * |d|
    ensures Bit(Put(d, p, v), q) == if q == p then v else Bit(d, q)
  {
    if p / 8 == q / 8 {
      WithBitOf(d[p / 8], p % 8, v, q % 8);
      hide BitOf, WithBit;
      assert q % 8 == p % 8 ==> q == p;
    }
  }

  /** The len bits from position p on. */
  function Slice(d: seq<bv8>, p: nat, len: nat): (r: seq<bool>)
    requires p + len <= 8 * |d|
    ensures |r| == len && forall i :: 0 <= i < len ==> r[i] == Bit(d, p + i)
  {
    seq(len, i requires 0 <= i < len => Bit(d, p + i))
  }

  /** Buffers that agree outside the len bits from position p on. */
  ghost predicate SameOutside(d: seq<bv8>, d': seq<bv8>, p: nat, len: nat) {
    |d| == |d'| && forall q {:trigger Bit(d', q)} :: 0 <= q < 8 * |d| && !(p <= q < p + len) ==> Bit(d', q) == Bit(d, q)
  }

  /** Writing one bit just past a written region extends the region. */
  lemma {:induction false} PutExtends(d: seq<bv8>, d1: seq<bv8>, p: nat, len: nat, v: bool)
    requires p + len < 8 * |d| && SameOutside(d, d1, p, len)
    ensures SameOutside(d, Put(d1, p + len, v), p, len + 1)
    ensures Slice(Put(d1, p + len, v), p, len + 1) == Slice(d1, p, len) + [v]
  {
    var d2 := Put(d1, p + len, v);
    forall q | 0 <= q < 8 * |d|
      ensures Bit(d2, q) == if q == p + len then v else Bit(d1, q)
    {
      PutBit(d1, p + len, v, q);
    }
    hide Bit, Put;
    var s := Slice(d1, p, len) + [v];
    assert forall i :: 0 <= i < len + 1 ==> Slice(d2, p, len + 1)[i] == s[i];
  }

  /** Bits in the opposite order. */
  function Reversed(s: seq<bool>): (r: seq<bool>)
    ensures |r| == |s| && forall i :: 0 <= i < |s| ==> r[i] == s[|s| - 1 - i]
  {
    seq(|s|, i requires 0 <= i < |s| => s[|s| - 1 - i])
  }

  // ---------- Bits pushed into a byte from the right ----------

  predicate LowBit(b: bv8, s: nat)
    requires s < 8
  {
    BitOf(b, 7 - s)
  }

  function Shifted(b: bv8, v: bool): bv8 {
    (b << 1) | if v then 1 else 0
  }

  lemma {:induction false} ShiftedBit(b: bv8, v: bool, s: nat)
    requires s < 8
    ensures LowBit(Shifted(b, v), s) == if s == 0 then v else LowBit(b, s - 1)
  {
  }

  /** The low bits of b are the given bits, oldest highest. */
  ghost predicate Holds(b: bv8, bits: seq<bool>) {
    |bits| <= 8 && forall k :: 0 <= k < |bits| ==> LowBit(b, |bits| - 1 - k) == bits[k]
  }

  lemma {:induction false} ShiftedHolds(b: bv8, bits: seq<bool>, v: bool)
    requires Holds(b, bits) && |bits| < 8
    ensures Holds(Shifted(b, v), bits + [v])
  {
    var bits' := bits + [v];
    forall k | 0 <= k < |bits'|
      ensures LowBit(Shifted(b, v), |bits'| - 1 - k) == bits'[k]
    {
      ShiftedBit(b, v, |bits'| - 1 - k);
    }
  }
}
