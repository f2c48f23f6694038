/**
 Cyclic redundancy checks over GF(2). Polynomials and registers are sequences of
 bits, most significant first. A generator of width n is written without its
 leading term: it stands for x^n plus the given n coefficients.
 */
module Crc {
  import opened BitBuffer

  type Bits = seq<bool>

  function Zeros(n: nat): (z: Bits)
    ensures |z| == n && forall i :: 0 <= i < n ==> !z[i]
  {
    seq(n, i => false)
  }

  function Xor(a: Bits, b: Bits): (r: Bits)
    requires |a| == |b|
    ensures |r| == |a| && forall i :: 0 <= i < |r| ==> r[i] == (a[i] != b[i])
  {
    seq(|a|, i requires 0 <= i < |a| => a[i] != b[i])
  }

  function Choose(q: bool, p: Bits): (r: Bits)
    ensures |r| == |p| && forall i :: 0 <= i < |r| ==> r[i] == (q && p[i])
  {
    if q then p else Zeros(|p|)
  }

  /** One bit through the shift register. */
  function Step(reg: Bits, poly: Bits, bit: bool): (r: Bits)
    requires |reg| == |poly| > 0
    ensures |r| == |reg|
  {
    Xor(reg[1..] + [false], Choose(reg[0] != bit, poly))
  }

  /** The register after a message, bit by bit. */
  function Register(reg: Bits, poly: Bits, msg: Bits): (r: Bits)
    requires |reg| == |poly| > 0
    ensures |r| == |reg|
  {
    if msg == [] then reg
    else Step(Register(reg, poly, msg[..|msg| - 1]), poly, msg[|msg| - 1])
  }

  /** The register composes over chunks: the first chunk's result is the second chunk's initial value. */
  lemma {:induction false} Chunks(reg: Bits, poly: Bits, a: Bits, b: Bits)
    requires |reg| == |poly| > 0
    ensures Register(reg, poly, a + b) == Register(Register(reg, poly, a), poly, b)
  {
    if b == [] {
      assert a + b == a;
    } else {
      var n := |b| - 1;
      assert (a + b)[..|a + b| - 1] == a + b[..n] && (a + b)[|a + b| - 1] == b[n];
      Chunks(reg, poly, a, b[..n]);
    }
  }

  // ---------- Polynomial division ----------

  /** The product of q with the generator x^n + poly, written with |q| + n coefficients. */
  function Times(q: Bits, poly: Bits): (r: Bits)
    requires |poly| > 0
    ensures |r| == |q| + |poly|
  {
    if q == [] then Zeros(|poly|)
    else
      var k := |q| - 1;
      Xor(Times(q[..k], poly) + [false], Zeros(k) + Choose(q[k], [true] + poly))
  }

  /** The quotient bits the register produces. */
  function Quotient(poly: Bits, msg: Bits): (q: Bits)
    requires |poly| > 0
    ensures |q| == |msg|
  {
    if msg == [] then []
    else
      var k := |msg| - 1;
      Quotient(poly, msg[..k]) + [Register(Zeros(|poly|), poly, msg[..k])[0] != msg[k]]
  }

  /** r is the remainder of msg * x^n divided by the generator. */
  ghost predicate IsRemainder(r: Bits, poly: Bits, msg: Bits)
    requires |poly| > 0
  {
    |r| == |poly| && exists q: Bits :: |q| == |msg| && Divides(q, r, poly, msg)
  }

  predicate Divides(q: Bits, r: Bits, poly: Bits, msg: Bits)
    requires |poly| > 0
  {
    |q| == |msg| && |r| == |poly| && msg + Zeros(|poly|) == Xor(Times(q, poly), Zeros(|msg|) + r)
  }

  /** The register holds the remainder of polynomial long division. */
  lemma {:induction false} RegisterDivides(poly: Bits, msg: Bits)
    requires |poly| > 0
    ensures Divides(Quotient(poly, msg), Register(Zeros(|poly|), poly, msg), poly, msg)
  {
    hide Times, Divides, Step;
    var n := |poly|;
    if msg != [] {
      var k := |msg| - 1;
      RegisterDivides(poly, msg[..k]);
      DivisionStep(poly, msg[..k], msg[k], Quotient(poly, msg[..k]), Register(Zeros(n), poly, msg[..k]));
      assert msg == msg[..k] + [msg[k]];
    } else {
      NothingDivides(poly);
    }
  }

  lemma {:induction false} NothingDivides(poly: Bits)
    requires |poly| > 0
    ensures Divides([], Zeros(|poly|), poly, [])
  {
    var n := |poly|;
    assert [] + Zeros(n) == Zeros(n) == Xor(Zeros(n), Zeros(0) + Zeros(n));
  }

  lemma {:induction false} DivisionStep(poly: Bits, msg: Bits, bit: bool, q: Bits, r: Bits)
    requires |poly| > 0 && Divides(q, r, poly, msg)
    ensures Divides(q + [r[0] != bit], Step(r, poly, bit), poly, msg + [bit])
  {
    hide Times, Step, Choose, Zeros, Xor;
    var n, k := |poly|, |msg|;
    var b := r[0] != bit;
    var t, q', r' := Times(q, poly), q + [b], Step(r, poly, bit);
    var t' := Times(q', poly);
    TimesNext(q, b, poly);
    StepIs(r, poly, bit);
    forall i | 0 <= i < k + 1 + n
      ensures (msg + [bit] + Zeros(n))[i] == Xor(t', Zeros(k + 1) + r')[i]
    {
      DivisionBit(poly, msg, bit, t, r, i);
    }
  }

  lemma {:induction false} TimesNext(q: Bits, b: bool, poly: Bits)
    requires |poly| > 0
    ensures Times(q + [b], poly) == Xor(Times(q, poly) + [false], Zeros(|q|) + Choose(b, [true] + poly))
  {
    assert (q + [b])[..|q|] == q;
  }

  /** The division identity at one coefficient, after one more message bit. */
  lemma {:induction false} DivisionBit(poly: Bits, msg: Bits, bit: bool, t: Bits, r: Bits, i: nat)
    requires |r| == |poly| > 0 && |t| == |msg| + |poly| && i < |msg| + 1 + |poly|
    requires msg + Zeros(|poly|) == Xor(t, Zeros(|msg|) + r)
    ensures var n, k, b := |poly|, |msg|, r[0] != bit;
            (msg + [bit] + Zeros(n))[i] ==
            Xor(Xor(t + [false], Zeros(k) + Choose(b, [true] + poly)),
                Zeros(k + 1) + Xor(r[1..] + [false], Choose(b, poly)))[i]
  {
    var n, k, b := |poly|, |msg|, r[0] != bit;
    if i < k + n {
      assert (msg + Zeros(n))[i] == (t[i] != (Zeros(k) + r)[i]);
    }
    if i > k {
      assert ([true] + poly)[i - k] == poly[i - k - 1];
    }
  }

  lemma {:induction false} StepIs(reg: Bits, poly: Bits, bit: bool)
    requires |reg| == |poly| > 0
    ensures Step(reg, poly, bit) == Xor(reg[1..] + [false], Choose(reg[0] != bit, poly))
  {
  }

  /** Equal leading coefficients of two products force equal quotients, because the generator is monic. */
  lemma {:induction false} QuotientUnique(q: Bits, q': Bits, poly: Bits)
    requires |poly| > 0 && |q| == |q'| && Times(q, poly)[..|q|] == Times(q', poly)[..|q|]
    ensures q == q'
  {
    if q != [] {
      var k := |q| - 1;
      var t, t' := Times(q[..k], poly), Times(q'[..k], poly);
      var u, u' := Times(q, poly), Times(q', poly);
      forall i | 0 <= i < k
        ensures t[i] == t'[i]
      {
        assert u[..|q|][i] == u[i] && u'[..|q|][i] == u'[i];
      }
      assert t[..k] == t'[..k];
      QuotientUnique(q[..k], q'[..k], poly);
      assert u[..|q|][k] == u[k] && u'[..|q|][k] == u'[k];
      assert u[k] == (t[k] != q[k]) && u'[k] == (t[k] != q'[k]);
      assert q == q[..k] + [q[k]] && q' == q'[..k] + [q'[k]];
    }
  }

  lemma {:induction false} RemainderUnique(q: Bits, r: Bits, q': Bits, r': Bits, poly: Bits, msg: Bits)
    requires |poly| > 0 && Divides(q, r, poly, msg) && Divides(q', r', poly, msg)
    ensures q == q' && r == r'
  {
    var k, n := |msg|, |poly|;
    var m, t, t' := msg + Zeros(n), Times(q, poly), Times(q', poly);
    hide Times;
    forall i | 0 <= i < k
      ensures t[i] == t'[i]
    {
      assert m[i] == (t[i] != (Zeros(k) + r)[i]) && m[i] == (t'[i] != (Zeros(k) + r')[i]);
    }
    assert t[..k] == t'[..k];
    QuotientUnique(q, q', poly);
    forall i | 0 <= i < n
      ensures r[i] == r'[i]
    {
      assert m[k + i] == (t[k + i] != (Zeros(k) + r)[k + i]) && m[k + i] == (t[k + i] != (Zeros(k) + r')[k + i]);
    }
  }

  /** The check value with zero initial register is the remainder of polynomial division, and only it is. */
  lemma {:induction false} RegisterIsRemainder(poly: Bits, msg: Bits, r: Bits)
    requires |poly| > 0
    ensures IsRemainder(r, poly, msg) <==> r == Register(Zeros(|poly|), poly, msg)
  {
    RegisterDivides(poly, msg);
    var c, p := Register(Zeros(|poly|), poly, msg), Quotient(poly, msg);
    hide Divides, Times, Register, Quotient;
    if IsRemainder(r, poly, msg) {
      var q: Bits :| |q| == |msg| && Divides(q, r, poly, msg);
      RemainderUnique(q, r, p, c, poly, msg);
    }
    assert |p| == |msg| && Divides(p, c, poly, msg);
  }

  // ---------- Linearity and residue ----------

  lemma {:induction false} StepLinear(a: Bits, b: Bits, poly: Bits, x: bool, y: bool)
    requires |a| == |b| == |poly| > 0
    ensures Step(Xor(a, b), poly, x != y) == Xor(Step(a, poly, x), Step(b, poly, y))
  {
    assert Xor(a, b)[1..] + [false] == Xor(a[1..] + [false], b[1..] + [false]);
  }

  /** The register is linear in initial value and message together. */
  lemma {:induction false} Linear(a: Bits, b: Bits, poly: Bits, m: Bits, m': Bits)
    requires |a| == |b| == |poly| > 0 && |m| == |m'|
    ensures Register(Xor(a, b), poly, Xor(m, m')) == Xor(Register(a, poly, m), Register(b, poly, m'))
  {
    if m != [] {
      var k := |m| - 1;
      var x := Xor(m, m');
      assert x[..k] == Xor(m[..k], m'[..k]);
      Linear(a, b, poly, m[..k], m'[..k]);
      hide Step;
      StepLinear(Register(a, poly, m[..k]), Register(b, poly, m'[..k]), poly, m[k], m'[k]);
    }
  }

  lemma {:induction false} ShiftOut(s: Bits, poly: Bits)
    requires |s| == |poly| > 0
    ensures Step(s, poly, s[0]) == s[1..] + [false]
  {
  }

  /** Feeding a register its own contents empties it. */
  lemma {:induction false} SelfFeed(r: Bits, poly: Bits, i: nat)
    requires |r| == |poly| > 0 && i <= |r|
    ensures Register(r, poly, r[..i]) == r[i..] + Zeros(i)
  {
    hide Register, Step;
    if i > 0 {
      var s := r[i - 1..] + Zeros(i - 1);
      SelfFeed(r, poly, i - 1);
      ShiftOut(s, poly);
      assert r[..i] == r[..i - 1] + [r[i - 1]];
      FeedOne(r, poly, r[..i - 1], r[i - 1]);
      ShiftZeros(r, i);
    } else {
      FeedNone(r, poly);
      assert r[..0] == [] && r[0..] + Zeros(0) == r;
    }
  }

  lemma {:induction false} FeedNone(reg: Bits, poly: Bits)
    requires |reg| == |poly| > 0
    ensures Register(reg, poly, []) == reg
  {
  }

  lemma {:induction false} FeedOne(reg: Bits, poly: Bits, msg: Bits, bit: bool)
    requires |reg| == |poly| > 0
    ensures Register(reg, poly, msg + [bit]) == Step(Register(reg, poly, msg), poly, bit)
  {
    hide Step;
    assert (msg + [bit])[..|msg|] == msg;
  }

  lemma {:induction false} ShiftZeros(r: Bits, i: nat)
    requires 0 < i <= |r|
    ensures (r[i - 1..] + Zeros(i - 1))[1..] + [false] == r[i..] + Zeros(i)
    ensures (r[i - 1..] + Zeros(i - 1))[0] == r[i - 1]
  {
  }

  /** Appending the check value to the message leaves the zero residue, whatever the initial value. */
  lemma {:induction false} ResidueZero(reg: Bits, poly: Bits, msg: Bits)
    requires |reg| == |poly| > 0
    ensures Register(reg, poly, msg + Register(reg, poly, msg)) == Zeros(|poly|)
  {
    hide Register, Step;
    var r := Register(reg, poly, msg);
    Chunks(reg, poly, msg, r);
    SelfFeed(r, poly, |r|);
    assert r[..|r|] == r && r[|r|..] + Zeros(|r|) == Zeros(|poly|);
  }

  /** Adding a message chunk of full width to the register first and shifting in zeros is the same as
      shifting the chunk in: the form bit_lib_crc8 uses. */
  lemma {:induction false} XorFirst(reg: Bits, poly: Bits, m: Bits)
    requires |reg| == |poly| == |m| > 0
    ensures Register(Xor(reg, m), poly, Zeros(|m|)) == Register(reg, poly, m)
  {
    hide Register, Step;
    Linear(reg, m, poly, m, m);
    SelfFeed(m, poly, |m|);
    assert Xor(m, m) == Zeros(|m|);
    assert m[..|m|] == m && m[|m|..] + Zeros(|m|) == Zeros(|m|);
    assert Xor(Register(reg, poly, m), Zeros(|m|)) == Register(reg, poly, m);
  }

  // ---------- Reflection ----------

  /** One bit through a register that shifts to the right, towards its last bit. */
  function RightStep(reg: Bits, poly: Bits, bit: bool): (r: Bits)
    requires |reg| == |poly| > 0
    ensures |r| == |reg|
  {
    Xor([false] + reg[..|reg| - 1], Choose(reg[|reg| - 1] != bit, poly))
  }

  function RightRegister(reg: Bits, poly: Bits, msg: Bits): (r: Bits)
    requires |reg| == |poly| > 0
    ensures |r| == |reg|
  {
    if msg == [] then reg
    else RightStep(RightRegister(reg, poly, msg[..|msg| - 1]), poly, msg[|msg| - 1])
  }

  lemma {:induction false} MirrorStep(reg: Bits, poly: Bits, bit: bool)
    requires |reg| == |poly| > 0
    ensures Reversed(Step(reg, poly, bit)) == RightStep(Reversed(reg), Reversed(poly), bit)
  {
    var n := |reg|;
    var a, b := Reversed(Step(reg, poly, bit)), RightStep(Reversed(reg), Reversed(poly), bit);
    assert Reversed(reg)[n - 1] == reg[0];
    forall i | 0 <= i < n
      ensures a[i] == b[i]
    {
      assert a[i] == Step(reg, poly, bit)[n - 1 - i];
      assert (reg[1..] + [false])[n - 1 - i] == ([false] + Reversed(reg)[..n - 1])[i];
    }
  }

  /** The mirrored register is the right-shifting register of the mirrored generator and initial value. */
  lemma {:induction false} MirrorRegister(reg: Bits, poly: Bits, msg: Bits)
    requires |reg| == |poly| > 0
    ensures Reversed(Register(reg, poly, msg)) == RightRegister(Reversed(reg), Reversed(poly), msg)
  {
    hide Step, RightStep;
    if msg != [] {
      var k := |msg| - 1;
      MirrorRegister(reg, poly, msg[..k]);
      MirrorStep(Register(reg, poly, msg[..k]), poly, msg[k]);
    }
  }
}
