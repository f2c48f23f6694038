/**
 Waveforms as sequences of (level, duration) pieces, and their run-length form:
 maximal stretches of equal level with their durations added up.
 */
module Waveform {

  datatype Piece = Piece(level: bool, ticks: nat)

  function Sum(w: seq<Piece>): nat {
    if w == [] then 0 else w[0].ticks + Sum(w[1..])
  }

  function Ticks(w: seq<Piece>): seq<nat> {
    if w == [] then [] else [w[0].ticks] + Ticks(w[1..])
  }

  /** Length of the longest prefix at the level of the first piece. */
  function Stretch(w: seq<Piece>): (k: nat)
    requires w != []
    ensures 1 <= k <= |w|
    ensures forall i :: 0 <= i < k ==> w[i].level == w[0].level
    ensures k < |w| ==> w[k].level != w[0].level
    decreases |w|
  {
    if |w| == 1 || w[1].level != w[0].level then 1 else 1 + Stretch(w[1..])
  }

  /** The maximal equal-level runs of w. */
  function Runs(w: seq<Piece>): seq<Piece>
    decreases |w|
  {
    if w == [] then []
    else [Piece(w[0].level, Sum(w[..Stretch(w)]))] + Runs(w[Stretch(w)..])
  }

  /** Adds one more piece to a run-length form: extend the last run or open a new one. */
  function Extend(runs: seq<Piece>, p: Piece): seq<Piece> {
    if runs != [] && runs[|runs| - 1].level == p.level
    then runs[..|runs| - 1] + [Piece(p.level, runs[|runs| - 1].ticks + p.ticks)]
    else runs + [p]
  }

  lemma {:induction false} SumConcat(a: seq<Piece>, b: seq<Piece>)
    ensures Sum(a + b) == Sum(a) + Sum(b)
  {
    if a == [] {
      assert a + b == b;
    } else {
      assert (a + b)[1..] == a[1..] + b;
      SumConcat(a[1..], b);
    }
  }

  lemma {:induction false} TicksConcat(a: seq<Piece>, b: seq<Piece>)
    ensures Ticks(a + b) == Ticks(a) + Ticks(b)
  {
    if a == [] {
      assert a + b == b;
    } else {
      assert (a + b)[1..] == a[1..] + b;
      TicksConcat(a[1..], b);
    }
  }

  lemma {:induction false} TicksIndex(w: seq<Piece>, i: nat)
    requires i < |w|
    ensures |Ticks(w)| == |w| && Ticks(w)[i] == w[i].ticks
  {
    if i > 0 {
      TicksIndex(w[1..], i - 1);
    } else if |w| > 1 {
      TicksIndex(w[1..], 0);
    }
  }

  lemma {:induction false} StretchUnique(w: seq<Piece>, k: nat)
    requires w != [] && 1 <= k <= |w|
    requires forall i :: 0 <= i < k ==> w[i].level == w[0].level
    requires k < |w| ==> w[k].level != w[0].level
    ensures k == Stretch(w)
  {
  }

  /** Appending a piece extends the run-length form: what add_period_with_level does step by step. */
  lemma {:induction false} RunsExtend(w: seq<Piece>, p: Piece)
    ensures Runs(w + [p]) == Extend(Runs(w), p)
    decreases |w|
  {
    var v := w + [p];
    if w == [] {
      assert v == [p];
      RunsOne(p);
    } else {
      var k := Stretch(w);
      var head := Piece(w[0].level, Sum(w[..k]));
      if k < |w| {
        StretchUnique(v, k);
        RunsUnfold(v, k);
        RunsUnfold(w, k);
        RunsExtend(w[k..], p);
        RunsShape(w[k..]);
        hide Runs, Sum, Stretch;
        assert v[..k] == w[..k] && v[k..] == w[k..] + [p];
        ExtendUnder(head, Runs(w[k..]), p);
      } else {
        LastStretch(w, p);
      }
    }
  }

  lemma {:induction false} ExtendUnder(h: Piece, runs: seq<Piece>, p: Piece)
    requires runs != []
    ensures [h] + Extend(runs, p) == Extend([h] + runs, p)
  {
    var all := [h] + runs;
    assert all[|all| - 1] == runs[|runs| - 1];
    assert all[..|all| - 1] == [h] + runs[..|runs| - 1];
  }

  lemma {:induction false} LastStretch(w: seq<Piece>, p: Piece)
    requires w != [] && Stretch(w) == |w|
    ensures Runs(w + [p]) == Extend(Runs(w), p)
  {
    hide Runs, Sum, Stretch;
    RunsOfStretch(w);
    if p.level == w[0].level {
      StretchUnique(w + [p], |w| + 1);
      RunsOfStretch(w + [p]);
      RunsOne(p);
      SumConcat(w, [p]);
    } else {
      StretchUnique(w + [p], |w|);
      NextStretch(w, p);
    }
  }

  lemma {:induction false} RunsOfStretch(w: seq<Piece>)
    requires w != [] && Stretch(w) == |w|
    ensures Runs(w) == [Piece(w[0].level, Sum(w))]
  {
    hide Runs, Sum, Stretch;
    RunsUnfold(w, |w|);
    RunsEmpty();
    assert w[..|w|] == w && w[|w|..] == [];
  }

  lemma {:induction false} NextStretch(w: seq<Piece>, p: Piece)
    requires w != [] && Stretch(w + [p]) == |w|
    ensures Runs(w + [p]) == [Piece(w[0].level, Sum(w)), p]
  {
    hide Runs, Sum, Stretch;
    var v := w + [p];
    RunsUnfold(v, |w|);
    RunsOne(p);
    assert v[..|w|] == w && v[|w|..] == [p];
  }

  lemma {:induction false} RunsUnfold(w: seq<Piece>, k: nat)
    requires w != [] && k == Stretch(w)
    ensures Runs(w) == [Piece(w[0].level, Sum(w[..k]))] + Runs(w[k..])
  {
  }

  lemma {:induction false} RunsEmpty()
    ensures Runs([]) == []
  {
  }

  lemma {:induction false} RunsOne(p: Piece)
    ensures Sum([p]) == p.ticks && Runs([p]) == [p]
  {
    assert [p][..1] == [p] && [p][1..] == [];
  }

  /** Run-length coding keeps the total and never adds pieces. */
  lemma {:induction false} RunsSum(w: seq<Piece>)
    ensures Sum(Runs(w)) == Sum(w)
    ensures |Runs(w)| <= |w|
    decreases |w|
  {
    if w == [] {
      RunsEmpty();
    } else {
      var k := Stretch(w);
      var h := Piece(w[0].level, Sum(w[..k]));
      RunsSum(w[k..]);
      RunsUnfold(w, k);
      RunsOne(h);
      hide Runs, Sum, Stretch;
      assert w == w[..k] + w[k..];
      SumConcat(w[..k], w[k..]);
      SumConcat([h], Runs(w[k..]));
    }
  }

  /** Runs alternate in level, and start and end at the levels of the waveform. */
  lemma {:induction false} RunsShape(w: seq<Piece>)
    ensures forall i {:trigger Runs(w)[i]} :: 0 <= i < |Runs(w)| - 1 ==> Runs(w)[i].level != Runs(w)[i + 1].level
    ensures w != [] ==> Runs(w) != [] && Runs(w)[0].level == w[0].level
    ensures w != [] ==> Runs(w)[|Runs(w)| - 1].level == w[|w| - 1].level
    decreases |w|
  {
    if w == [] {
      RunsEmpty();
    } else {
      var k := Stretch(w);
      var rest, h := w[k..], Piece(w[0].level, Sum(w[..k]));
      RunsShape(rest);
      RunsUnfold(w, k);
      RunsEmpty();
      assert k == |w| ==> w[|w| - 1].level == w[0].level;
      hide Runs, Sum, Stretch;
      assert rest != [] ==> rest[0] == w[k] && rest[|rest| - 1] == w[|w| - 1];
      AlternateUnder(h, Runs(rest));
    }
  }

  lemma {:induction false} AlternateUnder(h: Piece, r: seq<Piece>)
    requires forall i {:trigger r[i]} :: 0 <= i < |r| - 1 ==> r[i].level != r[i + 1].level
    requires r != [] ==> h.level != r[0].level
    ensures var all := [h] + r;
            forall i {:trigger all[i]} :: 0 <= i < |all| - 1 ==> all[i].level != all[i + 1].level
  {
    var all := [h] + r;
    forall i | 0 <= i < |all| - 1
      ensures all[i].level != all[i + 1].level
    {
      if i > 0 {
        assert all[i] == r[i - 1] && all[i + 1] == r[i - 1 + 1];
      }
    }
  }

  /** In a run-length form level i is the first level, flipped when i is odd. */
  lemma {:induction false} RunsLevel(w: seq<Piece>, i: nat)
    requires i < |Runs(w)|
    ensures w != [] && Runs(w)[i].level == (w[0].level != (i % 2 == 1))
    decreases i
  {
    RunsEmpty();
    hide Runs, Sum;
    RunsShape(w);
    if i > 0 {
      RunsLevel(w, i - 1);
      assert Runs(w)[i - 1].level != Runs(w)[i - 1 + 1].level;
    }
  }

  // ---------- What a waveform means ----------

  /** The level at tick x. */
  function At(w: seq<Piece>, x: nat): bool
    requires x < Sum(w)
  {
    if x < w[0].ticks then w[0].level else At(w[1..], x - w[0].ticks)
  }

  lemma {:induction false} AtConcat(a: seq<Piece>, b: seq<Piece>, x: nat)
    requires x < Sum(a + b)
    ensures Sum(a + b) == Sum(a) + Sum(b)
    ensures At(a + b, x) == if x < Sum(a) then At(a, x) else At(b, x - Sum(a))
  {
    SumConcat(a, b);
    if a == [] {
      assert a + b == b;
    } else {
      assert (a + b)[1..] == a[1..] + b && (a + b)[0] == a[0];
      if x >= a[0].ticks {
        AtConcat(a[1..], b, x - a[0].ticks);
      }
    }
  }

  lemma {:induction false} AtLevel(w: seq<Piece>, level: bool, x: nat)
    requires x < Sum(w) && forall i :: 0 <= i < |w| ==> w[i].level == level
    ensures At(w, x) == level
  {
    if x >= w[0].ticks {
      AtLevel(w[1..], level, x - w[0].ticks);
    }
  }

  /** Merging equal levels changes nothing that can be seen: at every tick the runs have the level of the waveform. */
  lemma {:induction false} RunsMeaning(w: seq<Piece>, x: nat)
    requires x < Sum(w)
    ensures Sum(Runs(w)) == Sum(w) && At(Runs(w), x) == At(w, x)
    decreases |w|
  {
    RunsSum(w);
    var k := Stretch(w);
    var head, rest := w[..k], w[k..];
    var h := Piece(w[0].level, Sum(head));
    RunsUnfold(w, k);
    RunsOne(h);
    hide Runs, Stretch;
    assert w == head + rest && Runs(w) == [h] + Runs(rest);
    AtConcat(head, rest, x);
    AtConcat([h], Runs(rest), x);
    if x < Sum(head) {
      AtLevel(head, w[0].level, x);
      AtLevel([h], w[0].level, x);
    } else {
      RunsMeaning(rest, x - Sum(head));
    }
  }
}
