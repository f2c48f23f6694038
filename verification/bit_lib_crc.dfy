/**
 bit_lib_crc8 and bit_lib_crc16, proved equal to the bit-serial register of the
 polynomial model for every generator, initial value, reflection and final xor.
 */
module BitLibCrc {
  import opened BitBuffer
  import opened BitLib
  import opened Crc

  function Byte(b: bv8): (r: Bits)
    ensures |r| == 8 && forall i :: 0 <= i < 8 ==> r[i] == BitOf(b, i)
  {
    seq(8, i requires 0 <= i < 8 => BitOf(b, i))
  }

  predicate BitOf16(w: bv16, i: nat)
    requires i < 16
  {
    w & Mask16(i) != 0
  }

  function Mask16(i: nat): bv16
    requires i < 16
  {
    if i == 0 then 0x8000 else if i == 1 then 0x4000 else if i == 2 then 0x2000 else if i == 3 then 0x1000
    else if i == 4 then 0x0800 else if i == 5 then 0x0400 else if i == 6 then 0x0200 else if i == 7 then 0x0100
    else if i == 8 then 0x0080 else if i == 9 then 0x0040 else if i == 10 then 0x0020 else if i == 11 then 0x0010
    else if i == 12 then 0x0008 else if i == 13 then 0x0004 else if i == 14 then 0x0002 else 0x0001
  }

  function Word(w: bv16): (r: Bits)
    ensures |r| == 16 && forall i :: 0 <= i < 16 ==> r[i] == BitOf16(w, i)
  {
    seq(16, i requires 0 <= i < 16 => BitOf16(w, i))
  }

  /** The message as a bit stream, each byte reversed if asked for. */
  function Message(data: seq<bv8>, refIn: bool): Bits {
    if data == [] then []
    else Message(data[..|data| - 1], refIn) + Oriented(Byte(data[|data| - 1]), refIn)
  }

  function Oriented(b: Bits, reversed: bool): (r: Bits)
    ensures |r| == |b|
  {
    if reversed then Reversed(b) else b
  }

  // ---------- 16 bits ----------

  lemma {:induction false} Shift16(w: bv16, i: nat)
    requires i < 16
    ensures BitOf16(w << 1, i) == (i < 15 && BitOf16(w, i + 1))
  {
  }

  lemma {:induction false} OneBit16(i: nat)
    requires i < 16
    ensures Mask16(i) & (Mask16(i) - 1) == 0 && Mask16(i) != 0
  {
  }

  lemma {:induction false} XorMask16(a: bv16, b: bv16, m: bv16)
    requires m & (m - 1) == 0 && m != 0
    ensures ((a ^ b) & m != 0) == ((a & m != 0) != (b & m != 0))
  {
  }

  lemma {:induction false} Xor16(a: bv16, b: bv16, i: nat)
    requires i < 16
    ensures BitOf16(a ^ b, i) == (BitOf16(a, i) != BitOf16(b, i))
  {
    OneBit16(i);
    hide Mask16;
    XorMask16(a, b, Mask16(i));
  }

  function Mix16(a: bv16, b: bv16): bv16 {
    a ^ b
  }

  function Double16(w: bv16): bv16 {
    w << 1
  }

  lemma {:induction false} XorWord(a: bv16, b: bv16)
    ensures Word(Mix16(a, b)) == Xor(Word(a), Word(b))
  {
    forall i | 0 <= i < 16
      ensures Word(Mix16(a, b))[i] == Xor(Word(a), Word(b))[i]
    {
      Xor16(a, b, i);
    }
  }

  lemma {:induction false} ShiftWord(w: bv16)
    ensures Word(Double16(w)) == Word(w)[1..] + [false]
  {
    forall i | 0 <= i < 16
      ensures Word(Double16(w))[i] == (Word(w)[1..] + [false])[i]
    {
      Shift16(w, i);
    }
  }

  lemma {:induction false} WordHead(w: bv16)
    ensures |Word(w)| == 16 && Word(w)[0] == BitOf16(w, 0)
  {
  }

  lemma {:induction false} StepBits(r: Bits, p: Bits, bit: bool)
    requires |r| == |p| > 0
    ensures Step(r, p, bit) == if r[0] != bit then Xor(r[1..] + [false], p) else r[1..] + [false]
  {
  }

  /** The register after one turn of the inner loop of crc16. */
  function Next16(crc: bv16, polynom: bv16, bit: bool): bv16 {
    if BitOf16(crc, 0) != bit then Mix16(Double16(crc), polynom) else Double16(crc)
  }

  /** One turn of the inner loop of crc16 is one step of the register. */
  lemma {:induction false} StepWord(crc: bv16, polynom: bv16, bit: bool)
    ensures Word(Next16(crc, polynom, bit)) == Step(Word(crc), Word(polynom), bit)
  {
    hide BitOf16, Xor, Word, Step, Mix16, Double16;
    WordHead(crc);
    WordHead(polynom);
    StepBits(Word(crc), Word(polynom), bit);
    ShiftWord(crc);
    XorWord(Double16(crc), polynom);
  }

  /** bit_lib_reverse_16_fast */
  function Reverse16(d: bv16): bv16 {
    ((d & 0x8000) >> 15) | ((d & 0x4000) >> 13) | ((d & 0x2000) >> 11) | ((d & 0x1000) >> 9) |
    ((d & 0x0800) >> 7) | ((d & 0x0400) >> 5) | ((d & 0x0200) >> 3) | ((d & 0x0100) >> 1) |
    ((d & 0x0080) << 1) | ((d & 0x0040) << 3) | ((d & 0x0020) << 5) | ((d & 0x0010) << 7) |
    ((d & 0x0008) << 9) | ((d & 0x0004) << 11) | ((d & 0x0002) << 13) | ((d & 0x0001) << 15)
  }

  lemma {:induction false} Reverse16Bit(d: bv16, i: nat)
    requires i < 16
    ensures BitOf16(Reverse16(d), i) == BitOf16(d, 15 - i)
  {
  }

  lemma {:induction false} Reverse16Word(d: bv16)
    ensures Word(Reverse16(d)) == Reversed(Word(d))
  {
    forall i | 0 <= i < 16
      ensures Word(Reverse16(d))[i] == Reversed(Word(d))[i]
    {
      Reverse16Bit(d, i);
    }
  }

  /** The byte reversal of crc16: through the 16-bit reversal and a shift. */
  function ReverseByte16(b: bv8): bv8 {
    (Reverse16(b as bv16) >> 8) as bv8
  }

  lemma {:induction false} ReverseByte16Bit(b: bv8, i: nat)
    requires i < 8
    ensures BitOf(ReverseByte16(b), i) == BitOf(b, 7 - i)
  {
  }

  lemma {:induction false} ReverseByte16Is(b: bv8)
    ensures Byte(ReverseByte16(b)) == Reversed(Byte(b))
  {
    forall i | 0 <= i < 8
      ensures Byte(ReverseByte16(b))[i] == Reversed(Byte(b))[i]
    {
      ReverseByte16Bit(b, i);
    }
  }

  /** bit_lib_crc16 */
  method Crc16(data: seq<bv8>, polynom: bv16, init: bv16, refIn: bool, refOut: bool, xorOut: bv16) returns (crc: bv16)
    ensures Word(crc) == Xor(Oriented(Register(Word(init), Word(polynom), Message(data, refIn)), refOut), Word(xorOut))
  {
    hide Step, Register, BitOf, BitOf16, Word, Byte, Xor, Mix16, Reverse16;
    crc := init;
    RegisterNothing(Word(init), Word(polynom));
    assert data[..0] == [];
    for i := 0 to |data|
      invariant Word(crc) == Register(Word(init), Word(polynom), Message(data[..i], refIn))
    {
      var byte := data[i];
      if refIn {
        ReverseByte16Is(byte);
        byte := ReverseByte16(byte);
      }
      crc := FeedByte16(crc, polynom, byte);
      MessageNext(data, refIn, i);
      Chunks(Word(init), Word(polynom), Message(data[..i], refIn), Oriented(Byte(data[i]), refIn));
    }
    assert data[..|data|] == data;
    if refOut {
      Reverse16Word(crc);
      crc := Reverse16(crc);
    }
    XorWord(crc, xorOut);
    crc := Mix16(crc, xorOut);
  }

  /** The inner loop of crc16. */
  method FeedByte16(start: bv16, polynom: bv16, byte: bv8) returns (crc: bv16)
    ensures Word(crc) == Register(Word(start), Word(polynom), Byte(byte))
  {
    hide Step, Register, BitOf, BitOf16, Word, Byte, Mix16, Double16;
    crc := start;
    ghost var bits := Byte(byte);
    ByteBits(byte);
    assert bits[..0] == [];
    RegisterNothing(Word(start), Word(polynom));
    for j := 0 to 8
      invariant Word(crc) == Register(Word(start), Word(polynom), bits[..j])
    {
      var c15 := BitOf16(crc, 0);
      var bit := BitOf(byte, j);
      StepWord(crc, polynom, bit);
      RegisterNext(Word(start), Word(polynom), bits, j);
      crc := Double16(crc);
      if c15 != bit {
        crc := Mix16(crc, polynom);
      }
    }
    assert bits[..8] == bits;
  }

  lemma {:induction false} ByteBits(b: bv8)
    ensures |Byte(b)| == 8 && forall i :: 0 <= i < 8 ==> Byte(b)[i] == BitOf(b, i)
  {
  }

  lemma {:induction false} RegisterNothing(reg: Bits, poly: Bits)
    requires |reg| == |poly| > 0
    ensures Register(reg, poly, []) == reg
  {
  }

  lemma {:induction false} RegisterNext(reg: Bits, poly: Bits, bits: Bits, j: nat)
    requires |reg| == |poly| > 0 && j < |bits|
    ensures Register(reg, poly, bits[..j + 1]) == Step(Register(reg, poly, bits[..j]), poly, bits[j])
  {
    assert bits[..j + 1][..j] == bits[..j];
  }

  lemma {:induction false} MessageNext(data: seq<bv8>, refIn: bool, i: nat)
    requires i < |data|
    ensures Message(data[..i + 1], refIn) == Message(data[..i], refIn) + Oriented(Byte(data[i]), refIn)
  {
    assert data[..i + 1][..i] == data[..i];
  }

  // ---------- 8 bits ----------

  lemma {:induction false} OneBit8(i: nat)
    requires i < 8
    ensures Mask(i) & (Mask(i) - 1) == 0 && Mask(i) != 0
  {
  }

  lemma {:induction false} XorMask8(a: bv8, b: bv8, m: bv8)
    requires m & (m - 1) == 0 && m != 0
    ensures ((a ^ b) & m != 0) == ((a & m != 0) != (b & m != 0))
  {
  }

  lemma {:induction false} XorByte(a: bv8, b: bv8)
    ensures Byte(a ^ b) == Xor(Byte(a), Byte(b))
  {
    forall i | 0 <= i < 8
      ensures Byte(a ^ b)[i] == Xor(Byte(a), Byte(b))[i]
    {
      OneBit8(i);
      hide Mask;
      XorMask8(a, b, Mask(i));
    }
  }

  lemma {:induction false} ShiftByteBit(b: bv8, i: nat)
    requires i < 8
    ensures BitOf(b << 1, i) == (i < 7 && BitOf(b, i + 1))
  {
  }

  lemma {:induction false} ShiftByte(b: bv8)
    ensures Byte(b << 1) == Byte(b)[1..] + [false]
  {
    forall i | 0 <= i < 8
      ensures Byte(b << 1)[i] == (Byte(b)[1..] + [false])[i]
    {
      ShiftByteBit(b, i);
    }
  }

  /** One turn of the inner loop of crc8 shifts a zero into the register. */
  lemma {:induction false} StepByte(crc: bv8, polynom: bv8)
    ensures Byte(if BitOf(crc, 0) then (crc << 1) ^ polynom else crc << 1) == Step(Byte(crc), Byte(polynom), false)
  {
    hide BitOf, Xor, Byte, Step;
    ByteBits(crc);
    StepBits(Byte(crc), Byte(polynom), false);
    ShiftByte(crc);
    XorByte(crc << 1, polynom);
  }

  /** bit_lib_crc8, which adds each byte to the register before it shifts. */
  method Crc8(data: seq<bv8>, polynom: bv8, init: bv8, refIn: bool, refOut: bool, xorOut: bv8) returns (crc: bv8)
    ensures Byte(crc) == Xor(Oriented(Register(Byte(init), Byte(polynom), Message(data, refIn)), refOut), Byte(xorOut))
  {
    hide Step, Register, BitOf, Byte, Xor;
    crc := init;
    RegisterNothing(Byte(init), Byte(polynom));
    assert data[..0] == [];
    for i := 0 to |data|
      invariant Byte(crc) == Register(Byte(init), Byte(polynom), Message(data[..i], refIn))
    {
      var byte := data[i];
      if refIn {
        byte := ReverseByte(byte);
      }
      crc := FeedByte8(crc, polynom, byte);
      MessageNext(data, refIn, i);
      Chunks(Byte(init), Byte(polynom), Message(data[..i], refIn), Oriented(Byte(data[i]), refIn));
    }
    assert data[..|data|] == data;
    if refOut {
      crc := ReverseByte(crc);
    }
    XorByte(crc, xorOut);
    crc := crc ^ xorOut;
  }

  /** The inner loop of crc8: add the byte, then shift eight zeros in. */
  method FeedByte8(start: bv8, polynom: bv8, byte: bv8) returns (crc: bv8)
    ensures Byte(crc) == Register(Byte(start), Byte(polynom), Byte(byte))
  {
    hide Step, Register, BitOf, Byte, Xor, Zeros;
    crc := start ^ byte;
    ghost var mixed := Byte(crc);
    XorByte(start, byte);
    RegisterNothing(mixed, Byte(polynom));
    assert Zeros(8)[..0] == [];
    for j := 0 to 8
      invariant Byte(crc) == Register(mixed, Byte(polynom), Zeros(8)[..j])
    {
      StepByte(crc, polynom);
      RegisterNext(mixed, Byte(polynom), Zeros(8), j);
      if BitOf(crc, 0) {
        crc := (crc << 1) ^ polynom;
      } else {
        crc := crc << 1;
      }
    }
    assert Zeros(8)[..8] == Zeros(8);
    XorFirst(Byte(start), Byte(polynom), Byte(byte));
  }

  /** bit_lib_reverse_bits on one byte. */
  method ReverseByte(b: bv8) returns (r: bv8)
    ensures Byte(r) == Reversed(Byte(b))
  {
    var a := new bv8[] [b];
    SliceByte(a[..]);
    var inside := ReverseBits(a, 0, 8);
    SliceByte(a[..]);
    r := a[0];
  }

  lemma {:induction false} SliceByte(d: seq<bv8>)
    requires |d| == 1
    ensures Slice(d, 0, 8) == Byte(d[0])
  {
    hide BitOf;
  }

  // ---------- What the checks promise ----------

  function BigEndian(w: bv16): seq<bv8> {
    [((w >> 8) & 0xFF) as bv8, (w & 0xFF) as bv8]
  }

  lemma {:induction false} BigEndianBit(w: bv16, i: nat)
    requires i < 8
    ensures BitOf(BigEndian(w)[0], i) == BitOf16(w, i) && BitOf(BigEndian(w)[1], i) == BitOf16(w, i + 8)
  {
  }

  lemma {:induction false} BigEndianBits(w: bv16)
    ensures Message(BigEndian(w), false) == Word(w)
  {
    var d := BigEndian(w);
    assert d[..1] == [d[0]] && [d[0]][..0] == [];
    assert Message(d, false) == Byte(d[0]) + Byte(d[1]) by {
      assert Message([d[0]], false) == [] + Byte(d[0]);
      hide BitOf;
    }
    forall i | 0 <= i < 16
      ensures (Byte(d[0]) + Byte(d[1]))[i] == Word(w)[i]
    {
      BigEndianBit(w, if i < 8 then i else i - 8);
    }
  }

  lemma {:induction false} MessageConcat(a: seq<bv8>, b: seq<bv8>, refIn: bool)
    ensures Message(a + b, refIn) == Message(a, refIn) + Message(b, refIn)
  {
    hide Oriented, Byte, Message;
    if b == [] {
      assert a + b == a;
      MessageNone(refIn);
    } else {
      var init, x := b[..|b| - 1], b[|b| - 1];
      assert b == init + [x] && a + b == (a + init) + [x];
      MessageConcat(a, init, refIn);
      MessageSnoc(a + init, x, refIn);
      MessageSnoc(init, x, refIn);
      assert Message(a, refIn) + (Message(init, refIn) + Oriented(Byte(x), refIn))
          == Message(a, refIn) + Message(init, refIn) + Oriented(Byte(x), refIn);
    }
  }

  function XorBytes(a: seq<bv8>, b: seq<bv8>): (r: seq<bv8>)
    requires |a| == |b|
    ensures |r| == |a|
  {
    if a == [] then [] else XorBytes(a[..|a| - 1], b[..|b| - 1]) + [a[|a| - 1] ^ b[|b| - 1]]
  }

  lemma {:induction false} MessageXor(a: seq<bv8>, b: seq<bv8>, refIn: bool)
    requires |a| == |b|
    ensures |Message(a, refIn)| == |Message(b, refIn)|
    ensures Message(XorBytes(a, b), refIn) == Xor(Message(a, refIn), Message(b, refIn))
  {
    hide Oriented, Byte, Message, Xor;
    MessageNone(refIn);
    if a != [] {
      var n := |a| - 1;
      assert a == a[..n] + [a[n]] && b == b[..n] + [b[n]];
      MessageXor(a[..n], b[..n], refIn);
      MessageXorSnoc(a[..n], a[n], b[..n], b[n], XorBytes(a[..n], b[..n]), refIn);
    } else {
      assert Xor([], []) == [];
    }
  }

  lemma {:induction false} MessageXorSnoc(a: seq<bv8>, x: bv8, b: seq<bv8>, y: bv8, c: seq<bv8>, refIn: bool)
    requires |Message(a, refIn)| == |Message(b, refIn)|
    requires Message(c, refIn) == Xor(Message(a, refIn), Message(b, refIn))
    ensures |Message(a + [x], refIn)| == |Message(b + [y], refIn)|
    ensures Message(c + [x ^ y], refIn) == Xor(Message(a + [x], refIn), Message(b + [y], refIn))
  {
    hide Oriented, Byte, Message, Xor;
    MessageSnoc(a, x, refIn);
    MessageSnoc(b, y, refIn);
    MessageSnoc(c, x ^ y, refIn);
    XorByte(x, y);
    ByteBits(x);
    ByteBits(y);
    OrientedXor(Byte(x), Byte(y), refIn);
    XorConcat(Message(a, refIn), Message(b, refIn), Oriented(Byte(x), refIn), Oriented(Byte(y), refIn));
  }

  lemma {:induction false} OrientedXor(x: Bits, y: Bits, reversed: bool)
    requires |x| == |y|
    ensures Oriented(Xor(x, y), reversed) == Xor(Oriented(x, reversed), Oriented(y, reversed))
  {
  }

  lemma {:induction false} XorConcat(a: Bits, b: Bits, x: Bits, y: Bits)
    requires |a| == |b| && |x| == |y|
    ensures Xor(a + x, b + y) == Xor(a, b) + Xor(x, y)
  {
  }

  /** The check value of a byte-wise xor of two messages of equal length is the xor of their check values. */
  lemma {:induction false} CheckValueLinear(poly: Bits, a: seq<bv8>, b: seq<bv8>, refIn: bool)
    requires |poly| > 0 && |a| == |b|
    ensures Register(Zeros(|poly|), poly, Message(XorBytes(a, b), refIn))
         == Xor(Register(Zeros(|poly|), poly, Message(a, refIn)), Register(Zeros(|poly|), poly, Message(b, refIn)))
  {
    hide Register, Message, Step;
    var z := Zeros(|poly|);
    MessageXor(a, b, refIn);
    assert Xor(z, z) == z;
    Linear(z, z, poly, Message(a, refIn), Message(b, refIn));
  }

  /** Checking a long message in two parts: the first part's register is the second part's initial value. */
  lemma {:induction false} CheckValueChunks(init: Bits, poly: Bits, a: seq<bv8>, b: seq<bv8>, refIn: bool)
    requires |init| == |poly| > 0
    ensures Register(init, poly, Message(a + b, refIn))
         == Register(Register(init, poly, Message(a, refIn)), poly, Message(b, refIn))
  {
    hide Register, Message, Step;
    MessageConcat(a, b, refIn);
    Chunks(init, poly, Message(a, refIn), Message(b, refIn));
  }

  lemma {:induction false} MessageNone(refIn: bool)
    ensures Message([], refIn) == []
  {
  }

  lemma {:induction false} MessageSnoc(s: seq<bv8>, x: bv8, refIn: bool)
    ensures Message(s + [x], refIn) == Message(s, refIn) + Oriented(Byte(x), refIn)
  {
    hide Oriented, Byte;
    assert (s + [x])[..|s + [x]| - 1] == s;
  }

  /** For a plain crc16 with zero initial value: the result is the remainder of the message times x^16,
      and checking the message with its big-endian check value appended gives zero. */
  lemma {:induction false} Crc16IsRemainder(data: seq<bv8>, polynom: bv16, crc: bv16)
    requires Word(crc) == Register(Word(0), Word(polynom), Message(data, false))
    ensures IsRemainder(Word(crc), Word(polynom), Message(data, false))
    ensures Register(Word(0), Word(polynom), Message(data + BigEndian(crc), false)) == Zeros(16)
  {
    hide Register, BitOf16;
    assert Word(0) == Zeros(16) by {
      ZeroWord();
    }
    RegisterIsRemainder(Word(polynom), Message(data, false), Word(crc));
    MessageConcat(data, BigEndian(crc), false);
    BigEndianBits(crc);
    ResidueZero(Word(0), Word(polynom), Message(data, false));
  }

  lemma {:induction false} ZeroWord()
    ensures Word(0) == Zeros(16)
  {
    assert forall i :: 0 <= i < 16 ==> !BitOf16(0, i);
  }

  /** The same for crc8. */
  lemma {:induction false} Crc8IsRemainder(data: seq<bv8>, polynom: bv8, crc: bv8)
    requires Byte(crc) == Register(Byte(0), Byte(polynom), Message(data, false))
    ensures IsRemainder(Byte(crc), Byte(polynom), Message(data, false))
    ensures Register(Byte(0), Byte(polynom), Message(data + [crc], false)) == Zeros(8)
  {
    hide Register, BitOf;
    assert Byte(0) == Zeros(8) by {
      ZeroByte();
    }
    RegisterIsRemainder(Byte(polynom), Message(data, false), Byte(crc));
    assert (data + [crc])[..|data|] == data;
    ResidueZero(Byte(0), Byte(polynom), Message(data, false));
  }

  lemma {:induction false} ZeroByte()
    ensures Byte(0) == Zeros(8)
  {
    assert forall i :: 0 <= i < 8 ==> !BitOf(0, i);
  }

  // ---------- The same of the values returned ----------

  lemma {:induction false} SameWord(a: bv16, b: bv16)
    ensures Word(a) == Word(b) <==> a == b
  {
    if Word(a) == Word(b) {
      var x := Mix16(a, b);
      forall i | 0 <= i < 16
        ensures !BitOf16(x, i)
      {
        assert Word(a)[i] == Word(b)[i];
        Xor16(a, b, i);
      }
      ClearWord(x);
      EqualWords(a, b);
    }
  }

  lemma {:induction false} EqualWords(a: bv16, b: bv16)
    requires Mix16(a, b) == 0
    ensures a == b
  {
  }

  lemma {:induction false} ClearWord(x: bv16)
    requires forall i :: 0 <= i < 16 ==> !BitOf16(x, i)
    ensures x == 0
  {
    assert !BitOf16(x, 0) && !BitOf16(x, 1) && !BitOf16(x, 2) && !BitOf16(x, 3);
    assert !BitOf16(x, 4) && !BitOf16(x, 5) && !BitOf16(x, 6) && !BitOf16(x, 7);
    assert !BitOf16(x, 8) && !BitOf16(x, 9) && !BitOf16(x, 10) && !BitOf16(x, 11);
    assert !BitOf16(x, 12) && !BitOf16(x, 13) && !BitOf16(x, 14) && !BitOf16(x, 15);
    ClearMasks(x);
  }

  lemma {:induction false} ClearMasks(x: bv16)
    requires x & 0x8000 == 0 && x & 0x4000 == 0 && x & 0x2000 == 0 && x & 0x1000 == 0
             && x & 0x0800 == 0 && x & 0x0400 == 0 && x & 0x0200 == 0 && x & 0x0100 == 0
             && x & 0x0080 == 0 && x & 0x0040 == 0 && x & 0x0020 == 0 && x & 0x0010 == 0
             && x & 0x0008 == 0 && x & 0x0004 == 0 && x & 0x0002 == 0 && x & 0x0001 == 0
    ensures x == 0
  {
  }

  lemma {:induction false} SameByte(a: bv8, b: bv8)
    ensures Byte(a) == Byte(b) <==> a == b
  {
    if Byte(a) == Byte(b) {
      assert forall i :: 0 <= i < 8 ==> Byte(a)[i] == Byte(b)[i];
      EqualBits8(a, b);
    }
  }

  lemma {:induction false} EqualBits8(a: bv8, b: bv8)
    requires forall i :: 0 <= i < 8 ==> BitOf(a, i) == BitOf(b, i)
    ensures a == b
  {
    assert BitOf(a, 0) == BitOf(b, 0) && BitOf(a, 1) == BitOf(b, 1) && BitOf(a, 2) == BitOf(b, 2);
    assert BitOf(a, 3) == BitOf(b, 3) && BitOf(a, 4) == BitOf(b, 4) && BitOf(a, 5) == BitOf(b, 5);
    assert BitOf(a, 6) == BitOf(b, 6) && BitOf(a, 7) == BitOf(b, 7);
  }

  lemma {:induction false} NoFinalXor(r: Bits)
    ensures Xor(Oriented(r, false), Zeros(|r|)) == r
  {
  }

  /** bit_lib_crc16 without reflection and final xor. */
  method PlainCrc16(data: seq<bv8>, polynom: bv16, init: bv16) returns (crc: bv16)
    ensures Word(crc) == Register(Word(init), Word(polynom), Message(data, false))
  {
    crc := Crc16(data, polynom, init, false, false, 0);
    hide Register, Message, BitOf16;
    ZeroWord();
    NoFinalXor(Register(Word(init), Word(polynom), Message(data, false)));
  }

  method PlainCrc8(data: seq<bv8>, polynom: bv8, init: bv8) returns (crc: bv8)
    ensures Byte(crc) == Register(Byte(init), Byte(polynom), Message(data, false))
  {
    crc := Crc8(data, polynom, init, false, false, 0);
    hide Register, Message, BitOf;
    ZeroByte();
    NoFinalXor(Register(Byte(init), Byte(polynom), Message(data, false)));
  }

  /** The crc16 of a message is its remainder, and the crc16 of the message with it appended is zero. */
  method VerifyCrc16(data: seq<bv8>, polynom: bv16) returns (crc: bv16, residue: bv16)
    ensures IsRemainder(Word(crc), Word(polynom), Message(data, false)) && residue == 0
  {
    crc := PlainCrc16(data, polynom, 0);
    residue := PlainCrc16(data + BigEndian(crc), polynom, 0);
    hide Register, Message, BitOf16, IsRemainder;
    Crc16IsRemainder(data, polynom, crc);
    ZeroWord();
    SameWord(residue, 0);
  }

  method VerifyCrc8(data: seq<bv8>, polynom: bv8) returns (crc: bv8, residue: bv8)
    ensures IsRemainder(Byte(crc), Byte(polynom), Message(data, false)) && residue == 0
  {
    crc := PlainCrc8(data, polynom, 0);
    residue := PlainCrc8(data + [crc], polynom, 0);
    hide Register, Message, BitOf, IsRemainder;
    Crc8IsRemainder(data, polynom, crc);
    ZeroByte();
    SameByte(residue, 0);
  }

  /** The crc16 of the byte-wise xor of two messages is the xor of their crc16 values. */
  method XorCrc16(a: seq<bv8>, b: seq<bv8>, polynom: bv16) returns (crcA: bv16, crcB: bv16, crcXor: bv16)
    requires |a| == |b|
    ensures crcXor == crcA ^ crcB
    ensures Word(crcA) == Register(Zeros(16), Word(polynom), Message(a, false))
    ensures Word(crcB) == Register(Zeros(16), Word(polynom), Message(b, false))
  {
    crcA := PlainCrc16(a, polynom, 0);
    crcB := PlainCrc16(b, polynom, 0);
    crcXor := PlainCrc16(XorBytes(a, b), polynom, 0);
    hide Register, Message, BitOf16, XorBytes;
    ZeroWord();
    CheckValueLinear(Word(polynom), a, b, false);
    XorWord(crcA, crcB);
    SameWord(crcXor, Mix16(crcA, crcB));
  }

  method XorCrc8(a: seq<bv8>, b: seq<bv8>, polynom: bv8) returns (crcA: bv8, crcB: bv8, crcXor: bv8)
    requires |a| == |b|
    ensures crcXor == crcA ^ crcB
    ensures Byte(crcA) == Register(Zeros(8), Byte(polynom), Message(a, false))
    ensures Byte(crcB) == Register(Zeros(8), Byte(polynom), Message(b, false))
  {
    crcA := PlainCrc8(a, polynom, 0);
    crcB := PlainCrc8(b, polynom, 0);
    crcXor := PlainCrc8(XorBytes(a, b), polynom, 0);
    hide Register, Message, BitOf, XorBytes;
    ZeroByte();
    CheckValueLinear(Byte(polynom), a, b, false);
    XorByte(crcA, crcB);
    SameByte(crcXor, crcA ^ crcB);
  }

  /** A message checked in two parts, the first result as the second initial value, gives the crc16 of the whole. */
  method SplitCrc16(a: seq<bv8>, b: seq<bv8>, polynom: bv16, init: bv16) returns (whole: bv16, parts: bv16)
    ensures parts == whole && Word(whole) == Register(Word(init), Word(polynom), Message(a + b, false))
  {
    whole := PlainCrc16(a + b, polynom, init);
    var first := PlainCrc16(a, polynom, init);
    parts := PlainCrc16(b, polynom, first);
    hide Register, Message, BitOf16;
    CheckValueChunks(Word(init), Word(polynom), a, b, false);
    SameWord(parts, whole);
  }

  method SplitCrc8(a: seq<bv8>, b: seq<bv8>, polynom: bv8, init: bv8) returns (whole: bv8, parts: bv8)
    ensures parts == whole && Byte(whole) == Register(Byte(init), Byte(polynom), Message(a + b, false))
  {
    whole := PlainCrc8(a + b, polynom, init);
    var first := PlainCrc8(a, polynom, init);
    parts := PlainCrc8(b, polynom, first);
    hide Register, Message, BitOf;
    CheckValueChunks(Byte(init), Byte(polynom), a, b, false);
    SameByte(parts, whole);
  }

  // ---------- Reflected checks ----------

  /** The message bit by bit: byte by byte, the highest bit of each first, or the lowest first when reflected. */
  lemma {:induction false} MessageBit(data: seq<bv8>, refIn: bool, i: nat, j: nat)
    requires i < |data| && j < 8
    ensures |Message(data, refIn)| == 8 * |data|
    ensures Message(data, refIn)[8 * i + j] == BitOf(data[i], if refIn then 7 - j else j)
    decreases |data|
  {
    hide Message, BitOf, Byte, Oriented;
    var n := |data| - 1;
    var init, last := data[..n], Oriented(Byte(data[n]), refIn);
    assert data == init + [data[n]];
    MessageSnoc(init, data[n], refIn);
    MessageLength(init, refIn);
    OrientedBit(data[n], refIn, j);
    if i < n {
      MessageBit(init, refIn, i, j);
      assert (Message(init, refIn) + last)[8 * i + j] == Message(init, refIn)[8 * i + j];
    } else {
      assert (Message(init, refIn) + last)[8 * i + j] == last[j];
    }
  }

  lemma {:induction false} OrientedBit(b: bv8, refIn: bool, j: nat)
    requires j < 8
    ensures |Oriented(Byte(b), refIn)| == 8
    ensures Oriented(Byte(b), refIn)[j] == BitOf(b, if refIn then 7 - j else j)
  {
    hide BitOf;
  }

  lemma {:induction false} MessageLength(data: seq<bv8>, refIn: bool)
    ensures |Message(data, refIn)| == 8 * |data|
  {
    if data != [] {
      MessageLength(data[..|data| - 1], refIn);
    }
  }

  /** crc8 with both reflections, as the protocols use it: the right-shifting register of the mirrored generator, fed
      with the lowest bit of each byte first. */
  method ReflectedCrc8(data: seq<bv8>, polynom: bv8, init: bv8, xorOut: bv8) returns (crc: bv8)
    ensures Byte(crc) == Xor(RightRegister(Reversed(Byte(init)), Reversed(Byte(polynom)), Message(data, true)), Byte(xorOut))
  {
    crc := Crc8(data, polynom, init, true, true, xorOut);
    hide Register, RightRegister, Message, BitOf, Xor, Byte;
    ByteBits(init);
    ByteBits(polynom);
    MirrorRegister(Byte(init), Byte(polynom), Message(data, true));
  }

  /** The same for crc16. */
  method ReflectedCrc16(data: seq<bv8>, polynom: bv16, init: bv16, xorOut: bv16) returns (crc: bv16)
    ensures Word(crc) == Xor(RightRegister(Reversed(Word(init)), Reversed(Word(polynom)), Message(data, true)), Word(xorOut))
  {
    crc := Crc16(data, polynom, init, true, true, xorOut);
    hide Register, RightRegister, Message, BitOf16, Xor, Word;
    WordHead(init);
    WordHead(polynom);
    MirrorRegister(Word(init), Word(polynom), Message(data, true));
  }
}
