/**
 The bit-stream operations of bit_lib.c on byte arrays, in place.
 */
module BitLib {
  import opened BitBuffer
  import Words

  datatype Parity = Even | Odd | Always0 | Always1

  /** bit_lib_set_bit */
  method SetBit(data: array<bv8>, position: nat, bit: bool)
    requires position < 8 * data.Length
    modifies data
    ensures data[..] == Put(old(data[..]), position, bit)
  {
    var i := position / 8;
    if bit {
      data[i] := data[i] | Mask(position % 8);
    } else {
      data[i] := data[i] & !Mask(position % 8);
    }
  }

  /** bit_lib_get_bit */
  method GetBit(data: array<bv8>, position: nat) returns (bit: bool)
    requires position < 8 * data.Length
    ensures bit == Bit(data[..], position)
  {
    bit := data[position / 8] & Mask(position % 8) != 0;
  }

  /** bit_lib_set_bits: the low length bits of byte, highest first. */
  method SetBits(data: array<bv8>, position: nat, byte: bv8, length: nat, ghost bits: seq<bool>)
    requires 0 < length <= 8 && position + length <= 8 * data.Length
    requires |bits| == length && Holds(byte, bits)
    modifies data
    ensures Slice(data[..], position, length) == bits
    ensures SameOutside(old(data[..]), data[..], position, length)
  {
    hide Bit, Put, BitOf;
    ghost var d := data[..];
    assert Slice(d, position, 0) == bits[..0];
    for i := 0 to length
      invariant SameOutside(d, data[..], position, i) && Slice(data[..], position, i) == bits[..i]
    {
      PutExtends(d, data[..], position, i, bits[i]);
      assert LowBit(byte, length - 1 - i) == bits[i];
      SetBit(data, position + i, LowBit(byte, length - 1 - i));
      assert bits[..i + 1] == bits[..i] + [bits[i]];
    }
    assert bits[..length] == bits;
  }

  // ---------- Removing every n-th bit ----------

  /** The first c bits of s without those at positions n, 2n, 3n, ... (counting from one). */
  function Kept(s: seq<bool>, n: nat, c: nat): (r: seq<bool>)
    requires n > 0 && c <= |s|
    ensures |r| <= c
  {
    if c == 0 then []
    else Kept(s, n, c - 1) + if c % n != 0 then [s[c - 1]] else []
  }

  lemma {:induction false} KeptStart(s: seq<bool>, n: nat)
    requires n > 0
    ensures Kept(s, n, 0) == []
  {
  }

  lemma {:induction false} KeptNext(s: seq<bool>, n: nat, c: nat, written: seq<bool>, pending: seq<bool>)
    requires n > 0 && c < |s| && Kept(s, n, c) == written + pending
    ensures Kept(s, n, c + 1) == written + if (c + 1) % n != 0 then pending + [s[c]] else pending
  {
  }

  /** Which bits are kept, and where they go: the bit at position p, unless p + 1 is a multiple of n, goes down by the
      number of bits removed before it; c / n bits are removed in all. */
  lemma {:induction false} KeptAt(s: seq<bool>, n: nat, c: nat, p: nat)
    requires n > 0 && c <= |s|
    ensures |Kept(s, n, c)| == c - c / n
    ensures p < c && (p + 1) % n != 0 ==> 0 <= p - p / n < c - c / n && Kept(s, n, c)[p - p / n] == s[p]
    decreases c
  {
    if c > 0 {
      KeptAt(s, n, c - 1, p);
      QuotientNext(c, n);
    }
  }

  lemma {:induction false} QuotientNext(c: nat, n: nat)
    requires n > 0 && c > 0
    ensures c / n == (c - 1) / n + if c % n == 0 then 1 else 0
  {
    var q, r := (c - 1) / n, (c - 1) % n;
    assert c - 1 == n * q + r;
    if r == n - 1 {
      assert c == n * (q + 1);
      DivExact(n, q + 1, 0);
    } else {
      DivExact(n, q, r + 1);
    }
  }

  /** bit_lib_remove_bit_every_nth: compacts in place through an eight-bit buffer, so that no bit is
      read after it was overwritten. */
  method RemoveBitEveryNth(data: array<bv8>, position: nat, length: nat, n: nat) returns (r: nat)
    requires n > 0 && length <= 255 && position + length <= 8 * data.Length
    modifies data
    ensures var s := Slice(old(data[..]), position, length);
            r == |Kept(s, n, length)| && Slice(data[..], position, r) == Kept(s, n, length)
    ensures SameOutside(old(data[..]), data[..], position, r)
  {
    hide Bit, Put, BitOf, LowBit, Holds, Slice, SameOutside, Kept, Shifted;
    ghost var d := data[..];
    ghost var s := Slice(d, position, length);
    KeptStart(s, n);
    var counter, bitCounter := 0, 0;
    var bitBuffer: bv8 := 0;
    r := 0;
    ghost var pending: seq<bool> := [];
    assert Slice(d, position, 0) == [];
    Untouched(d, position);
    HoldsNothing(bitBuffer);
    while counter < length
      invariant 0 <= counter <= length && data.Length == |d|
      invariant bitCounter == |pending| < 8 && Holds(bitBuffer, pending)
      invariant r + bitCounter <= counter
      invariant Kept(s, n, counter) == Slice(data[..], position, r) + pending
      invariant SameOutside(d, data[..], position, r)
    {
      KeptNext(s, n, counter, Slice(data[..], position, r), pending);
      if (counter + 1) % n != 0 {
        var bit := GetBit(data, position + counter);
        StillOriginal(d, data[..], position, r, length, counter);
        ShiftedHolds(bitBuffer, pending, bit);
        bitBuffer := Shifted(bitBuffer, bit);
        bitCounter := bitCounter + 1;
        pending := pending + [bit];
      }
      if bitCounter == 8 {
        Flush(d, data, position, r, bitBuffer, 8, pending);
        bitCounter := 0;
        bitBuffer := 0;
        r := r + 8;
        pending := [];
        HoldsNothing(bitBuffer);
      }
      counter := counter + 1;
    }
    if bitCounter != 0 {
      Flush(d, data, position, r, bitBuffer, bitCounter, pending);
      r := r + bitCounter;
    }
  }

  /** A bit behind the written region still has its original value. */
  lemma {:induction false} StillOriginal(d: seq<bv8>, d1: seq<bv8>, p: nat, r: nat, length: nat, c: nat)
    requires SameOutside(d, d1, p, r) && r <= c < length && p + length <= 8 * |d| && |d1| == |d|
    ensures Bit(d1, p + c) == Slice(d, p, length)[c]
  {
    hide BitOf;
  }

  /** Writes the pending bits right behind the r bits written so far. */
  method Flush(ghost d: seq<bv8>, data: array<bv8>, position: nat, r: nat, byte: bv8, count: nat, ghost pending: seq<bool>)
    requires 0 < count <= 8 && |pending| == count && Holds(byte, pending)
    requires position + r + count <= 8 * data.Length && SameOutside(d, data[..], position, r)
    modifies data
    ensures SameOutside(d, data[..], position, r + count)
    ensures Slice(data[..], position, r + count) == Slice(old(data[..]), position, r) + pending
  {
    hide Bit, Put, BitOf, LowBit;
    ghost var d1 := data[..];
    SetBits(data, position + r, byte, count, pending);
    SliceJoin(d1, data[..], position, r, pending);
  }

  lemma {:induction false} SliceJoin(d1: seq<bv8>, d2: seq<bv8>, p: nat, r: nat, bits: seq<bool>)
    requires p + r + |bits| <= 8 * |d1| && SameOutside(d1, d2, p + r, |bits|)
    requires Slice(d2, p + r, |bits|) == bits
    ensures Slice(d2, p, r + |bits|) == Slice(d1, p, r) + bits
  {
    hide Bit;
    var a, b := Slice(d2, p, r + |bits|), Slice(d1, p, r) + bits;
    forall i | 0 <= i < r + |bits|
      ensures a[i] == b[i]
    {
      if i >= r {
        assert Slice(d2, p + r, |bits|)[i - r] == Bit(d2, p + r + (i - r));
      }
    }
  }

  // ---------- Adding parity ----------

  function Ones(s: seq<bool>): nat {
    if s == [] then 0 else Ones(s[..|s| - 1]) + if s[|s| - 1] then 1 else 0
  }

  /** __builtin_parity of a word: whether its number of ones is odd. */
  function WordParity(w: nat): bool {
    w != 0 && (WordParity(w / 2) != (w % 2 == 1))
  }

  /** The bits of a group that stay in the 32-bit parity word. */
  function Tail32(group: seq<bool>): (t: seq<bool>)
    ensures |t| <= |group| && |t| <= 32
  {
    if |group| <= 32 then group else group[|group| - 32..]
  }

  /** The bit bit_lib_add_parity appends to a group. */
  function ParityBit(group: seq<bool>, parity: Parity): bool {
    match parity
    case Even => Ones(Tail32(group)) % 2 == 1
    case Odd => Ones(Tail32(group)) % 2 == 0
    case Always0 => false
    case Always1 => true
  }

  /** The whole groups of m bits of s, each followed by its parity bit. */
  function Framed(s: seq<bool>, m: nat, parity: Parity): seq<bool>
    requires m > 0
  {
    if |s| < m then []
    else
      var k := |s| - m;
      Framed(s[..k], m, parity) + s[k..] + [ParityBit(s[k..], parity)]
  }

  /** A framed group ends in the fixed bit if one was asked for, and has an even or odd number of ones, as asked
      for, if and only if an even number of ones was shifted out of the parity word: always, for groups of
      up to 32 bits. */
  lemma {:induction false} FramedGroup(group: seq<bool>, parity: Parity)
    ensures var f := group + [ParityBit(group, parity)];
            var lost := Ones(group[..|group| - |Tail32(group)|]);
            && (parity == Even ==> (Ones(f) % 2 == 0 <==> lost % 2 == 0))
            && (parity == Odd ==> (Ones(f) % 2 == 1 <==> lost % 2 == 0))
            && (parity == Always0 ==> !f[|group|])
            && (parity == Always1 ==> f[|group|])
            && (|group| <= 32 ==> lost == 0)
  {
    TailSplit(group);
    hide Ones, Tail32;
    var k := |group| - |Tail32(group)|;
    OnesNext(group, ParityBit(group, parity));
    OnesConcat(group[..k], Tail32(group));
    NoOnes(group[..k]);
  }

  lemma {:induction false} TailSplit(group: seq<bool>)
    ensures group == group[..|group| - |Tail32(group)|] + Tail32(group)
    ensures |group| <= 32 ==> Tail32(group) == group
  {
  }

  lemma {:induction false} OnesNext(s: seq<bool>, b: bool)
    ensures Ones(s + [b]) == Ones(s) + if b then 1 else 0
  {
    assert (s + [b])[..|s|] == s;
  }

  lemma {:induction false} NoOnes(s: seq<bool>)
    ensures s == [] ==> Ones(s) == 0
  {
  }

  lemma {:induction false} OnesConcat(a: seq<bool>, b: seq<bool>)
    ensures Ones(a + b) == Ones(a) + Ones(b)
    decreases |b|
  {
    if b == [] {
      assert a + b == a;
    } else {
      var n := |b| - 1;
      assert b == b[..n] + [b[n]] && a + b == (a + b[..n]) + [b[n]];
      OnesConcat(a, b[..n]);
      OnesNext(a + b[..n], b[n]);
      OnesNext(b[..n], b[n]);
      hide Ones;
    }
  }

  /** A group of 33 bits whose first bit is the only one: the parity word forgets it. */
  lemma {:induction false} LongGroupLosesParity()
    ensures var group := [true] + seq(32, i => false);
            Ones(group + [ParityBit(group, Even)]) % 2 == 1
  {
    var zeros := seq(32, i => false);
    var group := [true] + zeros;
    FramedGroup(group, Even);
    assert Tail32(group) == zeros && group[..1] == [true];
    OnesConcat([], [true]);
    assert [true][..0] == [];
  }

  /** Wherever a whole group stands in the source, the framed stream has that group and its parity bit
      between the framed bits before it and the framed bits behind it. */
  lemma {:induction false} EveryGroup(a: seq<bool>, group: seq<bool>, b: seq<bool>, m: nat, parity: Parity)
    requires m > 0 && |group| == m && |a| % m == 0 && |b| % m == 0
    ensures Framed(a + group + b, m, parity)
         == Framed(a, m, parity) + (group + [ParityBit(group, parity)]) + Framed(b, m, parity)
    decreases |b|
  {
    hide ParityBit, Framed;
    if b == [] {
      assert a + group + b == a + group;
      FramedSnoc(a, group, m, parity);
      FramedShort([], m, parity);
    } else {
      MultipleBelow(|b|, m);
      var init, last := b[..|b| - m], b[|b| - m..];
      assert b == init + last && a + group + b == (a + group + init) + last;
      EveryGroup(a, group, init, m, parity);
      FramedSnoc(a + group + init, last, m, parity);
      FramedSnoc(init, last, m, parity);
      Reassociate(Framed(a, m, parity) + (group + [ParityBit(group, parity)]), Framed(init, m, parity),
                  last + [ParityBit(last, parity)]);
    }
  }

  lemma {:induction false} FramedSnoc(s: seq<bool>, group: seq<bool>, m: nat, parity: Parity)
    requires m > 0 && |group| == m
    ensures Framed(s + group, m, parity) == Framed(s, m, parity) + (group + [ParityBit(group, parity)])
  {
    hide ParityBit;
    assert (s + group)[..|s|] == s && (s + group)[|s|..] == group;
  }

  lemma {:induction false} FramedShort(s: seq<bool>, m: nat, parity: Parity)
    requires |s| < m
    ensures Framed(s, m, parity) == []
  {
  }

  lemma {:induction false} Reassociate(x: seq<bool>, y: seq<bool>, z: seq<bool>)
    ensures x + y + z == x + (y + z)
  {
  }

  /** Bits consumed and produced for a source of x bits in groups of m. */
  function Consumed(x: int, m: nat): nat
    requires m > 0
    decreases x
  {
    if x <= 0 then 0 else m + Consumed(x - m, m)
  }

  function Produced(x: int, m: nat): nat
    requires m > 0
    decreases x
  {
    if x <= 0 then 0 else m + 1 + Produced(x - m, m)
  }

  /** bit_lib_add_parity. The last group is completed from the bits behind the source if the source
      length is not a multiple of the group size. */
  method AddParity(data: array<bv8>, position: nat, dest: array<bv8>, destPosition: nat,
                   sourceLength: nat, parityLength: nat, parity: Parity) returns (count: nat)
    requires data != dest && sourceLength <= 255 && 2 <= parityLength <= 255
    requires position + Consumed(sourceLength, parityLength - 1) <= 8 * data.Length
    requires destPosition + Produced(sourceLength, parityLength - 1) <= 8 * dest.Length
    modifies dest
    ensures count == Produced(sourceLength, parityLength - 1)
    ensures Slice(dest[..], destPosition, count)
         == Framed(Slice(data[..], position, Consumed(sourceLength, parityLength - 1)), parityLength - 1, parity)
    ensures SameOutside(old(dest[..]), dest[..], destPosition, count)
  {
    hide Bit, Put, BitOf, Slice, SameOutside, Framed;
    var m := parityLength - 1;
    ghost var d := dest[..];
    var word, j := 0, 0;
    count := 0;
    Untouched(d, destPosition);
    FramedNothing(data[..], position, m, parity);
    assert Slice(d, destPosition, 0) == [];
    while word < sourceLength
      invariant 0 <= word && word + Consumed(sourceLength - word, m) == Consumed(sourceLength, m)
      invariant j == count && j + Produced(sourceLength - word, m) == Produced(sourceLength, m)
      invariant SameOutside(d, dest[..], destPosition, j)
      invariant Slice(dest[..], destPosition, j) == Framed(Slice(data[..], position, word), m, parity)
      decreases sourceLength - word
    {
      AddGroupBits(data, position + word, dest, destPosition, j, m, parity, d);
      FramedNext(data[..], position, word, m, parity);
      j := j + m + 1;
      count := count + parityLength;
      word := word + m;
    }
  }

  /** One turn of the outer loop: copies a group of m bits and writes its parity bit. */
  method AddGroupBits(data: array<bv8>, position: nat, dest: array<bv8>, destPosition: nat, j: nat,
                      m: nat, parity: Parity, ghost d: seq<bv8>)
    requires data != dest && 0 < m && position + m <= 8 * data.Length
    requires |d| == dest.Length && destPosition + j + m + 1 <= 8 * dest.Length && SameOutside(d, dest[..], destPosition, j)
    modifies dest
    ensures SameOutside(d, dest[..], destPosition, j + m + 1)
    ensures var group := Slice(data[..], position, m);
            Slice(dest[..], destPosition, j + m + 1)
            == Slice(old(dest[..]), destPosition, j) + group + [ParityBit(group, parity)]
  {
    hide Bit, Put, BitOf, Slice, SameOutside, WordParity, Ones, Value, Tail32, Words.Pow2;
    ghost var sofar := Slice(dest[..], destPosition, j);
    ghost var group := Slice(data[..], position, m);
    assert sofar + group[..0] == sofar;
    var parityWord: nat := 0;
    EmptyWord(group);
    for bit := 0 to m
      invariant SameOutside(d, dest[..], destPosition, j + bit)
      invariant Slice(dest[..], destPosition, j + bit) == sofar + group[..bit]
      invariant parityWord == Value(Tail32(group[..bit]))
    {
      var b := GetBit(data, position + bit);
      StillOriginal(data[..], data[..], position, 0, m, bit) by { Untouched(data[..], position); }
      PushWord(group, bit);
      PutExtends(d, dest[..], destPosition, j + bit, b);
      parityWord := (2 * parityWord + if b then 1 else 0) % Words.Pow2(32);
      SetBit(dest, destPosition + (j + bit), b);
      assert sofar + group[..bit + 1] == (sofar + group[..bit]) + [b];
    }
    assert group[..m] == group;
    ValueParity(Tail32(group));
    var marker := match parity
      case Always0 => false
      case Always1 => true
      case _ => (!WordParity(parityWord) != (parity == Odd)) != true;
    PutExtends(d, dest[..], destPosition, j + m, marker);
    SetBit(dest, destPosition + (j + m), marker);
  }

  lemma {:induction false} EmptyWord(group: seq<bool>)
    ensures Value(Tail32(group[..0])) == 0
  {
  }

  lemma {:induction false} Untouched(d: seq<bv8>, p: nat)
    ensures SameOutside(d, d, p, 0)
  {
  }

  lemma {:induction false} HoldsNothing(b: bv8)
    ensures Holds(b, [])
  {
  }

  lemma {:induction false} FramedNothing(d: seq<bv8>, p: nat, m: nat, parity: Parity)
    requires m > 0 && p <= 8 * |d|
    ensures Framed(Slice(d, p, 0), m, parity) == []
  {
  }

  /** The number whose binary digits are the given bits. */
  function Value(bits: seq<bool>): nat {
    if bits == [] then 0 else 2 * Value(bits[..|bits| - 1]) + if bits[|bits| - 1] then 1 else 0
  }

  lemma {:induction false} ValueNext(bits: seq<bool>, b: bool)
    ensures Value(bits + [b]) == 2 * Value(bits) + if b then 1 else 0
  {
    assert (bits + [b])[..|bits|] == bits;
  }

  /** The parity of the word is the parity of the number of ones. */
  lemma {:induction false} ValueParity(bits: seq<bool>)
    ensures WordParity(Value(bits)) == (Ones(bits) % 2 == 1)
  {
    if bits != [] {
      var n := |bits| - 1;
      ValueParity(bits[..n]);
      PushParity(Value(bits[..n]), bits[n]);
      hide WordParity;
    }
  }

  lemma {:induction false} PushParity(w: nat, b: bool)
    ensures WordParity(2 * w + if b then 1 else 0) == (WordParity(w) != b)
  {
    var v := 2 * w + if b then 1 else 0;
    assert v / 2 == w && v % 2 == if b then 1 else 0;
  }

  /** The highest digit of a number. */
  lemma {:induction false} ValueFront(bits: seq<bool>)
    requires bits != []
    ensures Value(bits) == (if bits[0] then Words.Pow2(|bits| - 1) else 0) + Value(bits[1..])
    ensures Value(bits[1..]) < Words.Pow2(|bits| - 1)
  {
    var n := |bits| - 1;
    if n > 0 {
      ValueFront(bits[..n]);
      assert bits == bits[..n] + [bits[n]] && bits[1..] == bits[..n][1..] + [bits[n]];
      ValueNext(bits[..n], bits[n]);
      ValueNext(bits[..n][1..], bits[n]);
      hide Value;
    } else {
      assert bits[..0] == [] && bits[1..] == [];
    }
  }

  /** Shifting a bit into the 32-bit parity word keeps it the number of the last 32 bits. */
  lemma {:induction false} PushWord(group: seq<bool>, k: nat)
    requires k < |group|
    ensures (2 * Value(Tail32(group[..k])) + if group[k] then 1 else 0) % Words.Pow2(32) == Value(Tail32(group[..k + 1]))
  {
    hide Value, Tail32, Words.Pow2;
    var last, next := Tail32(group[..k]), Tail32(group[..k + 1]);
    ValueNext(last, group[k]);
    TailNext(group, k);
    if k < 32 {
      ValueBound(next, 32);
      SmallMod(Value(next), Words.Pow2(32));
    } else {
      ValueFront(last + [group[k]]);
      DropTop(Value(next), (last + [group[k]])[0], Words.Pow2(32));
    }
  }

  lemma {:induction false} TailNext(group: seq<bool>, k: nat)
    requires k < |group|
    ensures var last, next := Tail32(group[..k]), Tail32(group[..k + 1]);
            && |last| == (if k < 32 then k else 32)
            && next == if k < 32 then last + [group[k]] else (last + [group[k]])[1..]
  {
  }

  lemma {:induction false} ValueBound(bits: seq<bool>, n: nat)
    requires |bits| <= n
    ensures Value(bits) < Words.Pow2(n)
    decreases n
  {
    if bits != [] {
      ValueBound(bits[..|bits| - 1], n - 1);
    }
  }

  lemma {:induction false} DropTop(v: nat, top: bool, p: nat)
    requires v < p
    ensures ((if top then p else 0) + v) % p == v
  {
    DivExact(p, if top then 1 else 0, v);
  }

  lemma {:induction false} SmallMod(v: nat, p: nat)
    requires v < p
    ensures v % p == v
  {
  }

  lemma {:induction false} FramedNext(d: seq<bv8>, p: nat, word: nat, m: nat, parity: Parity)
    requires m > 0 && p + word + m <= 8 * |d|
    ensures Framed(Slice(d, p, word + m), m, parity)
         == Framed(Slice(d, p, word), m, parity) + Slice(d, p + word, m) + [ParityBit(Slice(d, p + word, m), parity)]
  {
    hide Bit, Framed, ParityBit;
    assert Slice(d, p, word + m) == Slice(d, p, word) + Slice(d, p + word, m);
    hide Slice;
    FramedSnoc(Slice(d, p, word), Slice(d, p + word, m), m, parity);
    Reassociate(Framed(Slice(d, p, word), m, parity), Slice(d, p + word, m), [ParityBit(Slice(d, p + word, m), parity)]);
  }

  // ---------- Round trip ----------

  lemma {:induction false} KeptPrefix(s: seq<bool>, t: seq<bool>, n: nat, c: nat)
    requires n > 0 && c <= |s|
    ensures Kept(s + t, n, c) == Kept(s, n, c)
  {
    if c > 0 {
      KeptPrefix(s, t, n, c - 1);
    }
  }

  /** A group of n - 1 bits and its parity bit, behind whole groups, loses exactly the parity bit. */
  lemma {:induction false} KeptGroup(s: seq<bool>, group: seq<bool>, b: bool, n: nat, i: nat)
    requires n == |group| + 1 && |s| % n == 0 && i <= |group|
    ensures Kept(s + group + [b], n, |s| + i) == Kept(s, n, |s|) + group[..i]
  {
    var all := s + group + [b];
    if i == 0 {
      assert all == s + (group + [b]);
      KeptPrefix(s, group + [b], n, |s|);
    } else {
      KeptGroup(s, group, b, n, i - 1);
      NotMultiple(|s|, i, n);
      assert all[|s| + i - 1] == group[i - 1];
      assert group[..i] == group[..i - 1] + [group[i - 1]];
    }
  }

  lemma {:induction false} NotMultiple(a: nat, i: nat, n: nat)
    requires 0 < i < n && a % n == 0
    ensures (a + i) % n != 0
  {
    var q := a / n;
    assert a == n * q;
    DivExact(n, q, i);
  }

  lemma {:induction false} DivExact(n: nat, q: nat, i: nat)
    requires 0 <= i < n
    ensures (n * q + i) / n == q && (n * q + i) % n == i
  {
    var x := n * q + i;
    assert x == n * (x / n) + x % n;
    QuotientUnique(n, q, i, x / n, x % n);
  }

  lemma {:induction false} QuotientUnique(n: nat, q: int, i: int, q': int, i': int)
    requires 0 <= i < n && 0 <= i' < n && n * q + i == n * q' + i'
    ensures q == q' && i == i'
  {
    assert n * (q - q') == i' - i;
    assert n * (q' - q) == i - i';
    if q - q' >= 1 {
      AtLeast(n, q - q');
    } else if q' - q >= 1 {
      AtLeast(n, q' - q);
    }
  }

  lemma {:induction false} AtLeast(n: nat, k: int)
    requires k >= 1
    ensures n * k >= n
  {
    assert n * k == n + n * (k - 1);
  }

  /** Removing every n-th bit undoes adding parity to groups of n - 1 bits. */
  lemma {:induction false} RoundTrip(s: seq<bool>, m: nat, parity: Parity)
    requires m > 0 && |s| % m == 0
    ensures |Framed(s, m, parity)| % (m + 1) == 0
    ensures Kept(Framed(s, m, parity), m + 1, |Framed(s, m, parity)|) == s
  {
    hide Framed, ParityBit, Kept;
    if s == [] {
      FramedShort(s, m, parity);
      KeptNothing(m + 1);
    } else {
      MultipleBelow(|s|, m);
      var init, group := s[..|s| - m], s[|s| - m..];
      assert s == init + group;
      RoundTrip(init, m, parity);
      FramedSnoc(init, group, m, parity);
      AddGroup(Framed(init, m, parity), group, ParityBit(group, parity), m);
      Reassociate(Framed(init, m, parity), group, [ParityBit(group, parity)]);
    }
  }

  lemma {:induction false} KeptNothing(n: nat)
    requires n > 0
    ensures Kept([], n, 0) == [] && 0 % n == 0
  {
  }

  lemma {:induction false} AddGroup(f: seq<bool>, group: seq<bool>, b: bool, m: nat)
    requires m > 0 && |group| == m && |f| % (m + 1) == 0
    ensures var all := f + group + [b];
            && |all| % (m + 1) == 0
            && Kept(all, m + 1, |all|) == Kept(f, m + 1, |f|) + group
  {
    var all := f + group + [b];
    KeptGroup(f, group, b, m + 1, m);
    NextMultiple(|f|, m + 1);
    assert |all| == |f| + (m + 1);
    KeptDrop(all, m + 1, |all|);
    assert group[..m] == group;
  }

  lemma {:induction false} KeptDrop(s: seq<bool>, n: nat, c: nat)
    requires n > 0 && 0 < c <= |s| && c % n == 0
    ensures Kept(s, n, c) == Kept(s, n, c - 1)
  {
  }

  lemma {:induction false} MultipleBelow(x: nat, m: nat)
    requires m > 0 && x > 0 && x % m == 0
    ensures x >= m && (x - m) % m == 0
  {
    var q := x / m;
    assert x == m * q;
    assert q >= 1;
    assert x - m == m * (q - 1);
    DivExact(m, q - 1, 0);
  }

  lemma {:induction false} NextMultiple(x: nat, n: nat)
    requires n > 0 && x % n == 0
    ensures (x + n) % n == 0
  {
    var q := x / n;
    assert x == n * q;
    assert x + n == n * (q + 1);
    DivExact(n, q + 1, 0);
  }

  /** The source is completed to g whole groups, and each group of m bits becomes m + 1 bits. */
  lemma {:induction false} GroupsCounted(x: nat, m: nat) returns (g: nat)
    requires m > 0
    ensures Consumed(x, m) == g * m && Produced(x, m) == g * (m + 1)
    ensures x <= g * m < x + m
  {
    if x > m {
      var h := GroupsCounted(x - m, m);
      g := h + 1;
      assert g * m == h * m + m && g * (m + 1) == h * (m + 1) + (m + 1);
    } else if x > 0 {
      g := 1;
      assert Consumed(x - m, m) == 0 && Produced(x - m, m) == 0;
    } else {
      g := 0;
    }
  }

  lemma {:induction false} ConsumedExact(x: nat, m: nat)
    requires m > 0 && x % m == 0
    ensures Consumed(x, m) == x
  {
    if x > 0 {
      MultipleBelow(x, m);
      ConsumedExact(x - m, m);
    }
  }

  /** Adding parity and removing it again in place gives back the source bits, and nothing outside the
      parity-framed region of the destination changes. */
  method AddAndRemoveParity(data: array<bv8>, position: nat, dest: array<bv8>, destPosition: nat,
                            sourceLength: nat, parityLength: nat, parity: Parity)
    requires data != dest && sourceLength <= 255 && 2 <= parityLength <= 255 && sourceLength % (parityLength - 1) == 0
    requires position + sourceLength <= 8 * data.Length
    requires Produced(sourceLength, parityLength - 1) <= 255
    requires destPosition + Produced(sourceLength, parityLength - 1) <= 8 * dest.Length
    modifies dest
    ensures sourceLength <= Produced(sourceLength, parityLength - 1)
    ensures Slice(dest[..], destPosition, sourceLength) == Slice(data[..], position, sourceLength)
    ensures SameOutside(old(dest[..]), dest[..], destPosition, Produced(sourceLength, parityLength - 1))
  {
    hide Bit, Slice, SameOutside, Framed, Kept;
    ConsumedExact(sourceLength, parityLength - 1);
    ghost var s := Slice(data[..], position, sourceLength);
    RoundTrip(s, parityLength - 1, parity);
    var count := AddParity(data, position, dest, destPosition, sourceLength, parityLength, parity);
    ghost var d1 := dest[..];
    var r := RemoveBitEveryNth(dest, destPosition, count, parityLength);
    OutsideTwice(old(dest[..]), d1, dest[..], destPosition, count, r);
  }

  lemma {:induction false} OutsideTwice(d: seq<bv8>, d1: seq<bv8>, d2: seq<bv8>, p: nat, len: nat, r: nat)
    requires SameOutside(d, d1, p, len) && SameOutside(d1, d2, p, r) && r <= len
    ensures SameOutside(d, d2, p, len)
  {
    hide Bit;
  }

  // ---------- Reversal ----------

  const U32: nat := 0x1_0000_0000

  lemma {:induction false} WordIndex(x: nat)
    ensures x < U32 ==> x % U32 == x
  {
  }

  /** Exchanges two bits, or reports that one of them lies outside the array. */
  method SwapBits(data: array<bv8>, p: nat, q: nat) returns (inside: bool)
    modifies data
    ensures inside <==> p < 8 * data.Length && q < 8 * data.Length
    ensures data[..] == if inside then Put(Put(old(data[..]), p, Bit(old(data[..]), q)), q, Bit(old(data[..]), p))
                        else old(data[..])
  {
    hide Bit, Put;
    if p >= 8 * data.Length || q >= 8 * data.Length {
      return false;
    }
    var tmp := GetBit(data, p);
    var other := GetBit(data, q);
    SetBit(data, p, other);
    SetBit(data, q, tmp);
    inside := true;
  }

  /** bit_lib_reverse_bits, with its 32-bit indices and false for a bit outside the array. That happens if and
      only if the length is zero, when the right index starts at the largest word. */
  method ReverseBits(data: array<bv8>, position: nat, length: nat) returns (inside: bool)
    requires length <= 255 && position + length <= 8 * data.Length < 0x8000_0000
    modifies data
    ensures inside <==> length > 0
    ensures inside ==> Slice(data[..], position, length) == Reversed(Slice(old(data[..]), position, length))
    ensures inside ==> SameOutside(old(data[..]), data[..], position, length)
  {
    hide Bit, Put, BitOf, Mirrored, SameOutside, Slice, Reversed;
    ghost var d := data[..];
    var i, j := 0, (length - 1) % U32;
    MirrorNone(d, position, length);
    while i < j
      invariant 0 <= i <= j + 1 && i + j == (length - 1) % U32 && |d| == data.Length
      invariant length > 0 ==> Mirrored(d, data[..], position, length, i)
      invariant length == 0 ==> position + i <= 8 * data.Length
    {
      ghost var d1 := data[..];
      WordIndex(position + i);
      WordIndex(position + j);
      inside := SwapBits(data, (position + i) % U32, (position + j) % U32);
      if !inside {
        return;
      }
      if length > 0 {
        SwapMirrors(d, d1, position, length, i, j);
      }
      i, j := i + 1, j - 1;
    }
    MirrorAll(d, data[..], position, length, i);
    inside := true;
  }

  /** Buffer d1 is d with the outer i pairs of bits of the region exchanged. */
  ghost predicate Mirrored(d: seq<bv8>, d1: seq<bv8>, position: nat, length: nat, i: nat) {
    && |d1| == |d| && i <= length && position + length <= 8 * |d|
    && forall q {:trigger Bit(d1, q)} :: 0 <= q < 8 * |d| ==> Bit(d1, q) == Bit(d, Mirror(q, position, length, i))
  }

  lemma {:induction false} MirrorNone(d: seq<bv8>, position: nat, length: nat)
    requires position + length <= 8 * |d|
    ensures Mirrored(d, d, position, length, 0)
  {
    hide Bit;
  }

  lemma {:induction false} MirrorAll(d: seq<bv8>, d1: seq<bv8>, position: nat, length: nat, i: nat)
    requires Mirrored(d, d1, position, length, i) && 2 * i >= length - 1
    ensures |d1| == |d| && position + length <= 8 * |d|
    ensures Slice(d1, position, length) == Reversed(Slice(d, position, length))
    ensures SameOutside(d, d1, position, length)
  {
    hide Bit;
    var a, b := Slice(d1, position, length), Reversed(Slice(d, position, length));
    forall k | 0 <= k < length
      ensures a[k] == b[k]
    {
      assert Bit(d1, position + k) == Bit(d, Mirror(position + k, position, length, i));
    }
  }

  lemma {:induction false} SwapMirrors(d: seq<bv8>, d1: seq<bv8>, position: nat, length: nat, i: nat, j: nat)
    requires Mirrored(d, d1, position, length, i) && i < j && i + j == length - 1
    requires position + j < 8 * |d1|
    ensures Mirrored(d, Put(Put(d1, position + i, Bit(d1, position + j)), position + j, Bit(d1, position + i)),
                     position, length, i + 1)
  {
    hide Bit, Put;
    var x, y := Bit(d1, position + i), Bit(d1, position + j);
    var d2 := Put(d1, position + i, y);
    var d3 := Put(d2, position + j, x);
    forall q | 0 <= q < 8 * |d|
      ensures Bit(d3, q) == Bit(d, Mirror(q, position, length, i + 1))
    {
      PutBit(d1, position + i, y, q);
      PutBit(d2, position + j, x, q);
      assert Bit(d1, q) == Bit(d, Mirror(q, position, length, i));
    }
  }

  /** Where bit q comes from once the outer i pairs of the region have been exchanged. */
  ghost function Mirror(q: nat, position: nat, length: nat, i: nat): nat
    requires i <= length
  {
    if position <= q < position + length && (q < position + i || position + length <= q + i)
    then (2 * position + length - 1) - q
    else q
  }
}
