/**
 Transmission of a sequence of signals (digital_sequence.c): signals are laid end
 to end, periods of equal level at a boundary are merged, rounding remainders are
 paid back as whole timer periods, and the last period is held instead of sent.
 */
module DigitalSequences {
  import opened Waveform
  import opened DigitalSignals

  /** A finished signal. */
  datatype Signal = Signal(startLevel: bool, data: seq<nat>, remainder: int)

  /** What the construction of signals guarantees: periods, all positive, and a bounded remainder. */
  predicate Usable(s: Signal) {
    && s.data != []
    && (forall i :: 0 <= i < |s.data| ==> 1 <= s.data[i] < U32)
    && -T_TIM_DIV2 <= s.remainder < T_TIM_DIV2
  }

  predicate AllUsable(sigs: seq<Signal>) {
    forall j :: 0 <= j < |sigs| ==> Usable(sigs[j])
  }

  function LevelAt(s: Signal, i: nat): bool {
    s.startLevel != (i % 2 == 1)
  }

  /** The pieces of a signal whose first period is lengthened by a correction. */
  function Pieces(s: Signal, correction: nat): (w: seq<Piece>)
    ensures |w| == |s.data|
    ensures forall i :: 0 <= i < |w| ==>
              w[i] == Piece(LevelAt(s, i), s.data[i] + if i == 0 then correction else 0)
  {
    seq(|s.data|, i requires 0 <= i < |s.data| =>
      Piece(LevelAt(s, i), s.data[i] + if i == 0 then correction else 0))
  }

  /** The remainder carried past the given signals, and the correction their last boundary makes. */
  function Leftover(sigs: seq<Signal>): int {
    if sigs == [] then 0
    else
      var r := Leftover(sigs[..|sigs| - 1]) + sigs[|sigs| - 1].remainder;
      if r >= T_TIM_DIV2 then r - T_TIM else r
  }

  function Correction(sigs: seq<Signal>): nat {
    if sigs == [] then 0
    else if Leftover(sigs[..|sigs| - 1]) + sigs[|sigs| - 1].remainder >= T_TIM_DIV2 then 1 else 0
  }

  function Corrections(sigs: seq<Signal>): nat {
    if sigs == [] then 0 else Corrections(sigs[..|sigs| - 1]) + Correction(sigs)
  }

  function Remainders(sigs: seq<Signal>): int {
    if sigs == [] then 0 else Remainders(sigs[..|sigs| - 1]) + sigs[|sigs| - 1].remainder
  }

  function DataSum(data: seq<nat>): nat {
    if data == [] then 0 else DataSum(data[..|data| - 1]) + data[|data| - 1]
  }

  function AllData(sigs: seq<Signal>): nat {
    if sigs == [] then 0 else AllData(sigs[..|sigs| - 1]) + DataSum(sigs[|sigs| - 1].data)
  }

  /** The whole waveform: every signal's pieces in turn, with the corrections of the boundaries before it. */
  function Wave(sigs: seq<Signal>): seq<Piece> {
    if sigs == [] then []
    else Wave(sigs[..|sigs| - 1]) + Pieces(sigs[|sigs| - 1], Correction(sigs[..|sigs| - 1]))
  }

  // ---------- Remainders ----------

  /** Every tick of remainder is either paid back as a correction or still carried, and the carried
      part never reaches half a timer period. */
  lemma {:induction false} RemaindersAccounted(sigs: seq<Signal>)
    requires AllUsable(sigs)
    ensures Corrections(sigs) * T_TIM + Leftover(sigs) == Remainders(sigs)
    ensures Leftover(sigs) < T_TIM_DIV2
  {
    if sigs != [] {
      var init := sigs[..|sigs| - 1];
      RemaindersAccounted(init);
      assert Usable(sigs[|sigs| - 1]);
    }
  }

  /** The carried remainder is not bounded below: every sequence drawn from a bank of signals keeps it at
      least minus half a period if and only if no signal of the bank has a negative remainder. */
  lemma {:induction false} BankStable(bank: map<nat, Signal>)
    requires forall k :: k in bank ==> Usable(bank[k])
    ensures (forall data: seq<nat> :: Drawn(bank, data) ==> Leftover(Selected(bank, data)) >= -T_TIM_DIV2)
       <==> (forall k :: k in bank ==> bank[k].remainder >= 0)
  {
    if forall k :: k in bank ==> bank[k].remainder >= 0 {
      forall data: seq<nat> | Drawn(bank, data)
        ensures Leftover(Selected(bank, data)) >= -T_TIM_DIV2
      {
        NonNegativeBounded(Selected(bank, data));
      }
    } else {
      var k :| k in bank && bank[k].remainder < 0;
      var data := seq(782, i => k);
      RepeatDrifts(bank[k], 782);
      assert Drawn(bank, data);
      SelectedRepeat(bank, k, data);
    }
  }

  ghost predicate Drawn(bank: map<nat, Signal>, data: seq<nat>) {
    forall k :: 0 <= k < |data| ==> data[k] in bank
  }

  lemma {:induction false} NonNegativeBounded(sigs: seq<Signal>)
    requires AllUsable(sigs) && forall j :: 0 <= j < |sigs| ==> sigs[j].remainder >= 0
    ensures -T_TIM_DIV2 <= Leftover(sigs) < T_TIM_DIV2
  {
    if sigs != [] {
      NonNegativeBounded(sigs[..|sigs| - 1]);
      assert Usable(sigs[|sigs| - 1]);
    }
  }

  lemma {:induction false} SelectedRepeat(bank: map<nat, Signal>, k: nat, data: seq<nat>)
    requires k in bank && forall i :: 0 <= i < |data| ==> data[i] == k
    ensures Selected(bank, data) == Repeat(bank[k], |data|)
  {
    RepeatAll(bank[k], |data|);
  }

  lemma {:induction false} RepeatAll(s: Signal, n: nat)
    ensures forall i :: 0 <= i < n ==> Repeat(s, n)[i] == s
  {
    if n > 0 {
      RepeatAll(s, n - 1);
    }
  }

  /** In particular, one signal repeated for ever. */
  lemma {:induction false} RepeatedSignalStable(s: Signal)
    requires Usable(s)
    ensures (forall n: nat :: Leftover(Repeat(s, n)) >= -T_TIM_DIV2) <==> s.remainder >= 0
  {
    if s.remainder >= 0 {
      forall n: nat
        ensures Leftover(Repeat(s, n)) >= -T_TIM_DIV2
      {
        RepeatAll(s, n);
        NonNegativeBounded(Repeat(s, n));
      }
    } else {
      RepeatDrifts(s, 782);
    }
  }

  function Repeat(s: Signal, n: nat): (r: seq<Signal>)
    ensures |r| == n
  {
    if n == 0 then [] else Repeat(s, n - 1) + [s]
  }

  lemma {:induction false} RepeatDrifts(s: Signal, n: nat)
    requires Usable(s) && s.remainder < 0
    ensures Leftover(Repeat(s, n)) + n <= 0
  {
    if n > 0 {
      RepeatDrifts(s, n - 1);
      assert Repeat(s, n)[..n - 1] == Repeat(s, n - 1);
    }
  }

  // ---------- Totals ----------

  lemma {:induction false} DataSumFront(data: seq<nat>)
    requires data != []
    ensures DataSum(data) == data[0] + DataSum(data[1..])
  {
    var n := |data| - 1;
    if n > 0 {
      DataSumFront(data[..n]);
      assert data[..n][1..] == data[1..][..n - 1];
    }
  }

  lemma {:induction false} PiecesSum(w: seq<Piece>, data: seq<nat>, extra: nat)
    requires |w| == |data|
    requires forall i :: 0 <= i < |w| ==> w[i].ticks == data[i] + if i == 0 then extra else 0
    ensures Sum(w) == DataSum(data) + if data == [] then 0 else extra
  {
    if w != [] {
      DataSumFront(data);
      PiecesSum(w[1..], data[1..], 0);
    }
  }

  /** The waveform carries all the signal data and all the corrections before its last signal. */
  lemma {:induction false} WaveSum(sigs: seq<Signal>)
    requires AllUsable(sigs) && sigs != []
    ensures Sum(Wave(sigs)) == AllData(sigs) + Corrections(sigs[..|sigs| - 1])
  {
    var init, last := sigs[..|sigs| - 1], sigs[|sigs| - 1];
    assert Usable(last);
    SumConcat(Wave(init), Pieces(last, Correction(init)));
    PiecesSum(Pieces(last, Correction(init)), last.data, Correction(init));
    if init != [] {
      WaveSum(init);
    }
  }

  lemma {:induction false} WavePrefix(sigs: seq<Signal>, j: nat)
    requires j <= |sigs|
    ensures Wave(sigs[..j]) <= Wave(sigs)
    decreases |sigs| - j
  {
    hide Wave, Pieces, Correction;
    if j < |sigs| {
      WavePrefix(sigs, j + 1);
      WaveNext(sigs, j);
    } else {
      assert sigs[..j] == sigs;
    }
  }

  /** The waveform up to the end of period i of signal j. */
  function UpTo(sigs: seq<Signal>, j: nat, i: nat): seq<Piece>
    requires j < |sigs| && i <= |sigs[j].data|
  {
    Wave(sigs[..j]) + Pieces(sigs[j], Correction(sigs[..j]))[..i]
  }

  /** Every edge of the waveform comes after all the signal data before it and the corrections of all boundaries before
      it; so, counted in ticks, it is off its ideal time by exactly the remainder carried at its signal, which is
      less than half a timer period late. */
  lemma {:induction false} EdgeTimes(sigs: seq<Signal>, j: nat, i: nat)
    requires AllUsable(sigs) && j < |sigs| && 1 <= i <= |sigs[j].data|
    ensures var before, ahead := UpTo(sigs, j, i), AllData(sigs[..j]) + DataSum(sigs[j].data[..i]);
            && before <= Wave(sigs)
            && Sum(before) == ahead + Corrections(sigs[..j])
            && T_TIM * ahead + Remainders(sigs[..j]) - T_TIM * Sum(before) == Leftover(sigs[..j]) < T_TIM_DIV2
  {
    hide Wave, Pieces, Correction, Leftover, Remainders, DataSum;
    var init, c := sigs[..j], Correction(sigs[..j]);
    var ps, data := Pieces(sigs[j], c), sigs[j].data;
    WaveNext(sigs, j);
    WavePrefix(sigs, j + 1);
    assert UpTo(sigs, j, i) <= Wave(sigs[..j + 1]);
    SumConcat(Wave(init), ps[..i]);
    PiecesAre(sigs[j], c);
    PiecesSum(ps[..i], data[..i], c);
    SumBefore(sigs, j);
    RemaindersAccounted(init);
  }

  lemma {:induction false} PiecesAre(s: Signal, c: nat)
    ensures |Pieces(s, c)| == |s.data|
    ensures forall i :: 0 <= i < |s.data| ==> Pieces(s, c)[i].ticks == s.data[i] + if i == 0 then c else 0
  {
  }

  lemma {:induction false} SumBefore(sigs: seq<Signal>, j: nat)
    requires AllUsable(sigs) && j < |sigs|
    ensures Sum(Wave(sigs[..j])) + Correction(sigs[..j]) == AllData(sigs[..j]) + Corrections(sigs[..j])
  {
    var init := sigs[..j];
    if j > 0 {
      WaveSum(init);
      hide Wave, AllData, Correction, Sum;
    } else {
      assert init == [];
    }
  }

  // ---------- Transmission ----------

  /** What has been sent of the waveform w so far: all its runs, or all but the last, held in merged
      because the next piece, at level next, continues it. */
  ghost predicate Sent(w: seq<Piece>, out: seq<nat>, merged: nat, next: bool) {
    if merged == 0 then Ticks(Runs(w)) == out && (w != [] ==> w[|w| - 1].level != next)
    else w != [] && w[|w| - 1].level == next && Ticks(Runs(w)) == out + [merged]
  }

  /** The next piece, together with what was held back, is the next run. */
  lemma {:induction false} SendPiece(w: seq<Piece>, out: seq<nat>, merged: nat, p: Piece)
    requires Sent(w, out, merged, p.level)
    ensures Ticks(Runs(w + [p])) == out + [merged + p.ticks]
  {
    var runs := Runs(w);
    RunsExtend(w, p);
    RunsShape(w);
    RunsEmpty();
    hide Runs;
    if merged == 0 {
      TicksConcat(runs, [p]);
      assert Ticks([p]) == [p.ticks];
    } else {
      var n := |runs| - 1;
      TicksIndex(runs, n);
      var init, last := runs[..n], Piece(p.level, runs[n].ticks + p.ticks);
      assert runs == init + [runs[n]];
      TicksConcat(init, [runs[n]]);
      TicksConcat(init, [last]);
      assert Ticks([runs[n]]) == [runs[n].ticks] && Ticks([last]) == [last.ticks];
      hide Ticks;
      assert Ticks(runs) == Ticks(init) + [runs[n].ticks] == out + [merged];
      assert (out + [merged])[..|out|] == out;
      assert (Ticks(init) + [runs[n].ticks])[..|Ticks(init)|] == Ticks(init);
    }
  }

  /** Every duration fits a 32-bit word. */
  ghost predicate AllFit(w: seq<Piece>) {
    forall i :: 0 <= i < |w| ==> w[i].ticks < U32
  }

  ghost predicate Words32(v: seq<nat>) {
    forall i :: 0 <= i < |v| ==> v[i] < U32
  }

  /** Runs only grow as pieces are added. */
  lemma {:induction false} FitBefore(w: seq<Piece>, ps: seq<Piece>)
    requires AllFit(Runs(w + ps))
    ensures AllFit(Runs(w))
    decreases |ps|
  {
    hide Runs;
    if ps == [] {
      assert w + ps == w;
    } else {
      var v, p := w + ps[..|ps| - 1], ps[|ps| - 1];
      assert w + ps == v + [p];
      RunsExtend(v, p);
      ShorterFits(Runs(v), p);
      FitBefore(w, ps[..|ps| - 1]);
    }
  }

  lemma {:induction false} ShorterFits(runs: seq<Piece>, p: Piece)
    requires AllFit(Extend(runs, p))
    ensures AllFit(runs)
  {
    var longer := Extend(runs, p);
    forall i | 0 <= i < |runs|
      ensures runs[i].ticks < U32
    {
      assert longer[i].ticks >= runs[i].ticks;
    }
  }

  lemma {:induction false} LastFits(w: seq<Piece>, out: seq<nat>, value: nat)
    requires AllFit(Runs(w)) && Ticks(Runs(w)) == out + [value]
    ensures value < U32
  {
    hide Runs;
    TicksEmpty();
    TicksIndex(Runs(w), if Runs(w) == [] then 0 else |Runs(w)| - 1);
  }

  /** The inner loop of digital_sequence_transmit: sends one signal, holding its last period back when
      the next signal continues its level, or when there is no next signal. Sums of periods are 32-bit
      words; fit says that no run up to here outgrows one. */
  method SendSignal(cur: Signal, more: bool, nextLevel: bool, sofar: seq<nat>, pending: nat,
                    ghost w: seq<Piece>, ghost merged: nat, ghost correction: nat, ghost fit: bool)
    returns (out: seq<nat>, carry: nat, reload: nat)
    requires Usable(cur) && Words32(sofar)
    requires fit ==>
               && Sent(w, sofar, merged, cur.startLevel) && pending == (merged + correction) % U32
               && AllFit(Runs(w + Pieces(cur, correction)))
    ensures Words32(out) && reload < U32 && carry < U32
    ensures fit && more ==> Sent(w + Pieces(cur, correction), out, carry, nextLevel)
    ensures fit && !more ==> out + [reload] == Ticks(Runs(w + Pieces(cur, correction)))
  {
    hide Runs, Ticks, AllFit;
    out, carry, reload := sofar, pending, 0;
    ghost var pieces := Pieces(cur, correction);
    assert w + pieces[..0] == w;
    assert pieces[..|pieces|] == pieces;
    for i := 0 to |cur.data|
      invariant Words32(out) && reload < U32 && (i > 0 ==> carry < U32)
      invariant fit && i < |cur.data| ==>
                  && carry == (if i == 0 then (merged + correction) % U32 else 0)
                  && Sent(w + pieces[..i], out, if i == 0 then merged else 0, LevelAt(cur, i))
      invariant fit && i == |cur.data| ==> Done(w + pieces, out, carry, reload, more, nextLevel)
    {
      ghost var held := if i == 0 then merged else 0;
      if fit {
        NextFits(w, pieces, i, out, held);
      }
      var isLast := i == |cur.data| - 1;
      reload := (cur.data[i] + carry) % U32;
      assert fit ==> reload == held + pieces[i].ticks && reload > 0;
      carry := 0;
      if isLast {
        assert pieces[..i + 1] == pieces;
        LastLevel(w, pieces);
        if more {
          var endLevel := cur.startLevel != (|cur.data| % 2 == 0);
          if endLevel == nextLevel {
            carry := reload;
          }
        } else {
          carry := 1;
        }
      }
      if carry == 0 {
        out := out + [reload];
      }
    }
  }

  /** The next piece, which fits a word together with what was held back. */
  lemma {:induction false} NextFits(w: seq<Piece>, pieces: seq<Piece>, i: nat, out: seq<nat>, merged: nat)
    requires i < |pieces| && Sent(w + pieces[..i], out, merged, pieces[i].level) && AllFit(Runs(w + pieces))
    ensures merged + pieces[i].ticks < U32
    ensures Ticks(Runs(w + pieces[..i + 1])) == out + [merged + pieces[i].ticks]
    ensures i + 1 < |pieces| && pieces[i + 1].level != pieces[i].level ==>
              Sent(w + pieces[..i + 1], out + [merged + pieces[i].ticks], 0, pieces[i + 1].level)
  {
    hide Runs, Ticks, AllFit, Sent;
    NextPiece(w, pieces, i, out, merged);
    assert w + pieces == (w + pieces[..i + 1]) + pieces[i + 1..];
    FitBefore(w + pieces[..i + 1], pieces[i + 1..]);
    LastFits(w + pieces[..i + 1], out, merged + pieces[i].ticks);
  }

  lemma {:induction false} TicksEmpty()
    ensures Ticks([]) == []
  {
  }

  /** After the last period of a signal. */
  ghost predicate Done(w: seq<Piece>, out: seq<nat>, carry: nat, reload: nat, more: bool, nextLevel: bool) {
    if more then Sent(w, out, carry, nextLevel) else out + [reload] == Ticks(Runs(w))
  }

  lemma {:induction false} LastLevel(w: seq<Piece>, pieces: seq<Piece>)
    requires pieces != []
    ensures w + pieces != [] && (w + pieces)[|w + pieces| - 1] == pieces[|pieces| - 1]
  {
  }

  /** digital_sequence_transmit, for a bank of registered signals and the indices to send. The result
      is what is put into the timer buffer, and the last period, whose level is held: the runs of the
      whole waveform, if and only if each of them fits the 32-bit words in which they are summed up. */
  method Transmit(bank: map<nat, Signal>, data: seq<nat>)
    returns (out: seq<nat>, held: nat, remainderTicks: int)
    requires data != [] && forall k :: 0 <= k < |data| ==> data[k] in bank && Usable(bank[data[k]])
    ensures out + [held] == Ticks(Runs(Wave(Selected(bank, data)))) <==> AllFit(Runs(Wave(Selected(bank, data))))
    ensures remainderTicks == Leftover(Selected(bank, data)[..|data| - 1])
  {
    hide Runs, Ticks, AllFit, Sent, Wave, Pieces, Leftover, Correction;
    ghost var sigs := Selected(bank, data);
    ghost var fit := AllFit(Runs(Wave(sigs)));
    out, held, remainderTicks := [], 0, 0;
    var carry: nat := 0;
    ghost var merged: nat := 0;
    var j := 0;
    assert sigs[..0] == [];
    NothingSent(sigs[0].startLevel);
    NothingCarried();
    while true
      invariant 0 <= j < |data|
      invariant Words32(out) && remainderTicks == Leftover(sigs[..j])
      invariant fit ==> carry == (merged + Correction(sigs[..j])) % U32
      invariant fit ==> Sent(Wave(sigs[..j]), out, merged, sigs[j].startLevel)
      decreases |data| - j
    {
      var cur := bank[data[j]];
      var more := j + 1 < |data|;
      var nextLevel := if more then bank[data[j + 1]].startLevel else false;
      WaveNext(sigs, j);
      if fit {
        WaveFits(sigs, j + 1);
      }
      out, carry, held := SendSignal(cur, more, nextLevel, out, carry, Wave(sigs[..j]), merged,
                                     Correction(sigs[..j]), fit);
      if !more {
        assert sigs[..j + 1] == sigs && sigs[..|data| - 1] == sigs[..j];
        break;
      }
      merged := carry;
      CarryNext(sigs, j);
      remainderTicks := remainderTicks + cur.remainder;
      if remainderTicks >= T_TIM_DIV2 {
        remainderTicks := remainderTicks - T_TIM;
        carry := (carry + 1) % U32;
      }
      j := j + 1;
    }
    if out + [held] == Ticks(Runs(Wave(sigs))) {
      WordsFit(Runs(Wave(sigs)), out + [held]);
    }
  }

  lemma {:induction false} WaveNext(sigs: seq<Signal>, j: nat)
    requires j < |sigs|
    ensures Wave(sigs[..j + 1]) == Wave(sigs[..j]) + Pieces(sigs[j], Correction(sigs[..j]))
  {
    assert sigs[..j + 1][..j] == sigs[..j];
  }

  lemma {:induction false} NothingCarried()
    ensures Leftover([]) == 0 && Correction([]) == 0
  {
  }

  lemma {:induction false} CarryNext(sigs: seq<Signal>, j: nat)
    requires j < |sigs|
    ensures var r := Leftover(sigs[..j]) + sigs[j].remainder;
            && Leftover(sigs[..j + 1]) == (if r >= T_TIM_DIV2 then r - T_TIM else r)
            && Correction(sigs[..j + 1]) == if r >= T_TIM_DIV2 then 1 else 0
  {
    assert sigs[..j + 1][..j] == sigs[..j];
  }

  lemma {:induction false} WaveFits(sigs: seq<Signal>, j: nat)
    requires j <= |sigs| && AllFit(Runs(Wave(sigs)))
    ensures AllFit(Runs(Wave(sigs[..j])))
    decreases |sigs| - j
  {
    hide Runs, AllFit, Correction, Pieces, Wave;
    if j < |sigs| {
      WaveFits(sigs, j + 1);
      WaveNext(sigs, j);
      FitBefore(Wave(sigs[..j]), Pieces(sigs[j], Correction(sigs[..j])));
    } else {
      assert sigs[..j] == sigs;
    }
  }

  lemma {:induction false} WordsFit(w: seq<Piece>, v: seq<nat>)
    requires v == Ticks(w) && Words32(v)
    ensures AllFit(w)
  {
    forall i | 0 <= i < |w|
      ensures w[i].ticks < U32
    {
      TicksIndex(w, i);
    }
  }

  function Selected(bank: map<nat, Signal>, data: seq<nat>): (sigs: seq<Signal>)
    requires forall k :: 0 <= k < |data| ==> data[k] in bank
    ensures |sigs| == |data| && forall k :: 0 <= k < |data| ==> sigs[k] == bank[data[k]]
  {
    seq(|data|, k requires 0 <= k < |data| => bank[data[k]])
  }

  lemma {:induction false} NothingSent(level: bool)
    ensures Sent(Wave([]), [], 0, level)
  {
    TicksEmpty();
    RunsEmpty();
  }

  lemma {:induction false} NextPiece(w: seq<Piece>, pieces: seq<Piece>, i: nat, out: seq<nat>, merged: nat)
    requires i < |pieces| && Sent(w + pieces[..i], out, merged, pieces[i].level)
    ensures Ticks(Runs(w + pieces[..i + 1])) == out + [merged + pieces[i].ticks]
    ensures i + 1 < |pieces| && pieces[i + 1].level != pieces[i].level ==>
              Sent(w + pieces[..i + 1], out + [merged + pieces[i].ticks], 0, pieces[i + 1].level)
  {
    hide Runs, Ticks;
    SendPiece(w + pieces[..i], out, merged, pieces[i]);
    assert w + pieces[..i + 1] == (w + pieces[..i]) + [pieces[i]];
  }

  /** For every sequence of usable signals: what is sent plus the held period are the runs of the
      waveform, with levels alternating from the first start level; together they carry all the
      signal data plus the corrections; and corrections and carried remainder account for the
      remainders of all signals but the last. */
  lemma {:induction false} TransmitTotals(sigs: seq<Signal>, out: seq<nat>, held: nat)
    requires AllUsable(sigs) && sigs != [] && out + [held] == Ticks(Runs(Wave(sigs)))
    ensures var init := sigs[..|sigs| - 1];
            && DataSum(out) + held == AllData(sigs) + Corrections(init)
            && Corrections(init) * T_TIM + Leftover(init) == Remainders(init)
            && Leftover(init) < T_TIM_DIV2
    ensures Wave(sigs) != [] && |Runs(Wave(sigs))| == |out| + 1
    ensures forall i :: 0 <= i < |out| + 1 ==>
              Runs(Wave(sigs))[i].level == (sigs[0].startLevel != (i % 2 == 1))
  {
    WaveSum(sigs);
    RunsSum(Wave(sigs));
    TicksSum(Runs(Wave(sigs)));
    assert (out + [held])[..|out|] == out;
    RemaindersAccounted(sigs[..|sigs| - 1]);
    WaveStart(sigs);
    if Runs(Wave(sigs)) != [] {
      TicksIndex(Runs(Wave(sigs)), 0);
    }
    forall i | 0 <= i < |out| + 1
      ensures Runs(Wave(sigs))[i].level == (sigs[0].startLevel != (i % 2 == 1))
    {
      RunsLevel(Wave(sigs), i);
    }
  }

  lemma {:induction false} TicksSum(w: seq<Piece>)
    ensures DataSum(Ticks(w)) == Sum(w)
  {
    if w != [] {
      TicksSum(w[1..]);
      DataSumFront(Ticks(w));
    }
  }

  lemma {:induction false} WaveStart(sigs: seq<Signal>)
    requires AllUsable(sigs) && sigs != []
    ensures Wave(sigs) != [] && Wave(sigs)[0].level == sigs[0].startLevel
  {
    var n := |sigs| - 1;
    var init, last := sigs[..n], Pieces(sigs[n], Correction(sigs[..n]));
    assert Usable(sigs[n]);
    assert Wave(sigs) == Wave(init) + last;
    assert |last| > 0 && last[0].level == sigs[n].startLevel;
    if n > 0 {
      hide Wave, Pieces, Correction;
      WaveStart(init);
    } else {
      assert init == [] && Wave(init) == [];
    }
  }

  /** What the pin does with a sequence of periods: it starts at a level and toggles after each. */
  function Toggled(values: seq<nat>, level: bool): seq<Piece> {
    if values == [] then [] else [Piece(level, values[0])] + Toggled(values[1..], !level)
  }

  lemma {:induction false} ToggledAlternating(r: seq<Piece>, level: bool)
    requires Alternating(r) && (r != [] ==> r[0].level == level)
    ensures Toggled(Ticks(r), level) == r
  {
    if r != [] {
      var rest := r[1..];
      assert forall i :: 0 <= i < |rest| ==> rest[i] == r[i + 1];
      assert rest != [] ==> rest[0].level == !level;
      ToggledAlternating(rest, !level);
      assert Ticks(r)[1..] == Ticks(rest);
    }
  }

  /** Transmission preserves meaning: a pin that starts at the first signal's level and toggles after each period sent,
      holding the last, has at every tick the level of the whole corrected waveform. */
  lemma {:induction false} TransmitMeaning(sigs: seq<Signal>, out: seq<nat>, held: nat, x: nat)
    requires AllUsable(sigs) && sigs != [] && out + [held] == Ticks(Runs(Wave(sigs))) && x < Sum(Wave(sigs))
    ensures Sum(Toggled(out + [held], sigs[0].startLevel)) == Sum(Wave(sigs))
    ensures At(Toggled(out + [held], sigs[0].startLevel), x) == At(Wave(sigs), x)
  {
    var w := Wave(sigs);
    WaveStart(sigs);
    RunsMeaning(w, x);
    RunsShape(w);
    hide Runs, Wave, Sum, At, Toggled;
    assert Alternating(Runs(w));
    ToggledAlternating(Runs(w), sigs[0].startLevel);
  }

  // ---------- What merging costs ----------

  /** The level of a signal's last period. */
  function EndsAt(s: Signal): bool {
    s.startLevel != (|s.data| % 2 == 0)
  }

  /** The next signal continues the level this one ends at, so that their boundary is merged. */
  predicate Joined(s: Signal, next: Signal) {
    EndsAt(s) == next.startLevel
  }

  /** The number of merged boundaries. */
  function Joins(sigs: seq<Signal>): nat {
    if |sigs| < 2 then 0
    else Joins(sigs[..|sigs| - 1]) + if Joined(sigs[|sigs| - 2], sigs[|sigs| - 1]) then 1 else 0
  }

  function AllPeriods(sigs: seq<Signal>): nat {
    if sigs == [] then 0 else AllPeriods(sigs[..|sigs| - 1]) + |sigs[|sigs| - 1].data|
  }

  /** How many timer periods a sequence of stored values lasts: v + 1 for each value v. */
  function Lasts(values: seq<nat>): nat {
    DataSum(values) + |values|
  }

  ghost predicate Alternating(ps: seq<Piece>) {
    forall i, j :: 0 <= i < j < |ps| && j == i + 1 ==> ps[i].level != ps[j].level
  }

  /** Pieces of alternating level open a run each, except the first if it continues the last level. */
  lemma {:induction false} RunsOfPieces(w: seq<Piece>, ps: seq<Piece>)
    requires ps != [] && Alternating(ps)
    ensures |Runs(w + ps)| == |Runs(w)| + |ps| - if w != [] && w[|w| - 1].level == ps[0].level then 1 else 0
    decreases |ps|
  {
    hide Runs;
    var n := |ps| - 1;
    var v := w + ps[..n];
    assert w + ps == v + [ps[n]];
    RunsExtend(v, ps[n]);
    RunsShape(v);
    RunsEmpty();
    if n == 0 {
      assert v == w;
    } else {
      RunsOfPieces(w, ps[..n]);
      assert v[|v| - 1] == ps[n - 1];
    }
  }

  lemma {:induction false} PiecesShape(s: Signal, correction: nat)
    requires Usable(s)
    ensures var ps := Pieces(s, correction);
            && |ps| == |s.data| > 0 && ps[0].level == s.startLevel && ps[|ps| - 1].level == EndsAt(s)
            && Alternating(ps)
  {
    var ps := Pieces(s, correction);
    assert forall i :: 0 <= i < |ps| ==> ps[i].level == LevelAt(s, i);
    hide Pieces;
  }

  lemma {:induction false} WaveJoins(sigs: seq<Signal>)
    requires AllUsable(sigs) && sigs != []
    ensures Wave(sigs) != [] && Wave(sigs)[|Wave(sigs)| - 1].level == EndsAt(sigs[|sigs| - 1])
    ensures |Wave(sigs)| == AllPeriods(sigs) && |Runs(Wave(sigs))| == AllPeriods(sigs) - Joins(sigs)
  {
    hide Runs, Wave, Correction, Pieces, EndsAt, Joins, AllPeriods, AllData;
    var n := |sigs| - 1;
    var init, s := sigs[..n], sigs[n];
    assert sigs == init + [s] && sigs[..n + 1] == sigs;
    WaveNext(sigs, n);
    TotalsNext(init, s);
    PiecesShape(s, Correction(init));
    RunsOfPieces(Wave(init), Pieces(s, Correction(init)));
    RunsEmpty();
    if n > 0 {
      WaveJoins(init);
    } else {
      NothingJoins(init);
      NoWave();
    }
  }

  lemma {:induction false} NoWave()
    ensures Wave([]) == []
  {
  }

  lemma {:induction false} NothingJoins(sigs: seq<Signal>)
    requires sigs == []
    ensures AllData(sigs) == 0 && AllPeriods(sigs) == 0 && Joins(sigs) == 0
  {
  }

  lemma {:induction false} JoinsNone(sigs: seq<Signal>)
    ensures Joins(sigs) == 0 <==> forall j :: 0 <= j < |sigs| - 1 ==> !Joined(sigs[j], sigs[j + 1])
  {
    hide Joined;
    if |sigs| >= 2 {
      var init := sigs[..|sigs| - 1];
      JoinsNone(init);
      assert forall j :: 0 <= j < |init| - 1 ==> Joined(init[j], init[j + 1]) == Joined(sigs[j], sigs[j + 1]);
    }
  }

  /** What is sent and held lasts as long as all the signals and corrections, less one timer period for every
      merged boundary; so the duration is kept if and only if no signal ends at the level the next begins at. */
  lemma {:induction false} MergingLosesPeriods(sigs: seq<Signal>, out: seq<nat>, held: nat)
    requires AllUsable(sigs) && sigs != [] && out + [held] == Ticks(Runs(Wave(sigs)))
    ensures var full := AllData(sigs) + AllPeriods(sigs) + Corrections(sigs[..|sigs| - 1]);
            && Lasts(out + [held]) == full - Joins(sigs)
            && (Lasts(out + [held]) == full <==> forall j :: 0 <= j < |sigs| - 1 ==> !Joined(sigs[j], sigs[j + 1]))
  {
    hide Runs;
    TransmitTotals(sigs, out, held);
    assert (out + [held])[..|out|] == out;
    WaveJoins(sigs);
    JoinsNone(sigs);
  }

  const JOINING := [Signal(true, [1], 0), Signal(true, [1], 0)]

  /** Two signals of one two-period pulse each, both high, are held as one pulse of three periods. */
  lemma {:induction false} MergedPulses()
    ensures AllUsable(JOINING) && Ticks(Runs(Wave(JOINING))) == [2]
    ensures Lasts([2]) == 3 && AllData(JOINING) + AllPeriods(JOINING) + Corrections(JOINING[..1]) == 4
  {
    var s, p := JOINING[0], Piece(true, 1);
    OnePulse();
    OneDatum(s.data);
    OneDatum([2]);
    assert JOINING == [s] + [s] && JOINING[..1] == [s];
    WaveNext(JOINING, 1);
    assert JOINING[..2] == JOINING;
    TotalsNext([s], s);
    hide Wave, Runs, AllData, AllPeriods, DataSum, Corrections;
    RunsExtend([p], p);
    RunsOne(p);
    assert Wave(JOINING) == [p] + [p];
    RunsOne(Piece(true, 2));
  }

  lemma {:induction false} OnePulse()
    ensures var s := Signal(true, [1], 0);
            && Wave([s]) == [Piece(true, 1)] && Pieces(s, Correction([s])) == [Piece(true, 1)] && Corrections([s]) == 0
            && AllData([s]) == 1 && AllPeriods([s]) == 1
  {
    var s := Signal(true, [1], 0);
    NothingCarried();
    OneDatum(s.data);
    NothingJoins([]);
    TotalsNext([], s);
    assert [] + [s] == [s] && [s][..0] == [] && Leftover([s]) == 0 && Correction([s]) == 0;
    WaveNext([s], 0);
    assert [s][..1] == [s];
    hide Leftover, AllData, AllPeriods;
    assert Wave([s]) == Wave([]) + Pieces(s, 0);
  }

  /** The longest period a signal can store, all high. */
  const LONGEST := Signal(true, [2749658], 0)

  lemma {:induction false} LongestTotals(n: nat)
    requires n > 0
    ensures AllData(Repeat(LONGEST, n)) == n * 2749658
    ensures AllPeriods(Repeat(LONGEST, n)) == n && Joins(Repeat(LONGEST, n)) == n - 1
  {
    hide AllData, AllPeriods, Joins;
    var init := Repeat(LONGEST, n - 1);
    TotalsNext(init, LONGEST);
    OneDatum(LONGEST.data);
    RepeatAll(LONGEST, n - 1);
    if n > 1 {
      LongestTotals(n - 1);
    } else {
      NothingJoins(init);
    }
  }

  lemma {:induction false} OneDatum(data: seq<nat>)
    requires |data| == 1
    ensures DataSum(data) == data[0]
  {
    assert data[..0] == [] && DataSum(data[..0]) == 0;
  }

  lemma {:induction false} TotalsNext(sigs: seq<Signal>, s: Signal)
    ensures AllData(sigs + [s]) == AllData(sigs) + DataSum(s.data) && AllPeriods(sigs + [s]) == AllPeriods(sigs) + |s.data|
    ensures Joins(sigs + [s]) == Joins(sigs) + if sigs != [] && Joined(sigs[|sigs| - 1], s) then 1 else 0
  {
    hide DataSum, Joined;
    assert (sigs + [s])[..|sigs|] == sigs;
  }

  /** A run outgrows 32 bits: 1563 signals of the longest period at one level are merged into it. */
  lemma {:induction false} OverlongRun()
    ensures AllUsable(Repeat(LONGEST, 1563)) && !AllFit(Runs(Wave(Repeat(LONGEST, 1563))))
  {
    var sigs := Repeat(LONGEST, 1563);
    RepeatAll(LONGEST, 1563);
    LongestTotals(1563);
    hide Runs, Wave, Repeat, AllData, Joins, AllPeriods;
    WaveJoins(sigs);
    WaveSum(sigs);
    RunsSum(Wave(sigs));
    var runs := Runs(Wave(sigs));
    assert runs == [runs[0]];
    RunsOne(runs[0]);
  }

  /** Signals built with the DigitalSignal methods are usable as soon as they hold a period. */
  lemma {:induction false} BuiltSignalsUsable(d: DigitalSignal)
    requires d.Valid() && d.size > 0
    ensures Usable(Signal(d.startLevel, d.data[..d.size], d.remainder))
  {
  }
}
