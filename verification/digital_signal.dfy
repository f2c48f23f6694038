/**
 A digital signal under construction (digital_signal.c): durations in ticks are
 rounded to timer periods, and the rounding error is carried to the next period.
 */
module DigitalSignals {
  import opened Waveform

  const T_TIM: int := 1562
  const T_TIM_DIV2: int := 781
  const U32: int := 0x1_0000_0000

  datatype Rounded = Rounded(reload: nat, remainder: int)

  /** The nearest whole number of timer periods, and what is left over. */
  function Round(duration: nat): (r: Rounded)
    ensures duration == r.reload * T_TIM + r.remainder
    ensures -T_TIM_DIV2 <= r.remainder < T_TIM_DIV2
  {
    var reload := duration / T_TIM;
    var remainder := duration - reload * T_TIM;
    if remainder >= T_TIM_DIV2 then Rounded(reload + 1, remainder - T_TIM) else Rounded(reload, remainder)
  }

  /** Timer periods in the stored data: each entry is a reload value minus one. */
  function Periods(data: seq<nat>): nat {
    if data == [] then 0 else data[0] + 1 + Periods(data[1..])
  }

  lemma {:induction false} PeriodsConcat(a: seq<nat>, b: seq<nat>)
    ensures Periods(a + b) == Periods(a) + Periods(b)
  {
    if a == [] {
      assert a + b == b;
    } else {
      assert (a + b)[1..] == a[1..] + b;
      PeriodsConcat(a[1..], b);
    }
  }

  /** Ideal time minus stored time at the k-th edge, in ticks. */
  function Error(runs: seq<Piece>, data: seq<nat>, k: nat): int
    requires k <= |runs| && k <= |data|
  {
    Sum(runs[..k]) - T_TIM * Periods(data[..k])
  }

  /** Every stored edge is within 781 ticks of its ideal time, and the remainder is the error at the end. */
  ghost predicate Exact(runs: seq<Piece>, data: seq<nat>, remainder: int) {
    && |runs| == |data|
    && (forall k :: 0 <= k <= |data| ==> -T_TIM_DIV2 <= Error(runs, data, k) < T_TIM_DIV2)
    && Error(runs, data, |data|) == remainder
  }

  /** Rounding one more piece keeps every edge in bounds exactly when 32-bit arithmetic did not wrap. */
  lemma {:induction false} AppendExact(runs: seq<Piece>, data: seq<nat>, remainder: int, p: Piece, duration: nat)
    requires Exact(runs, data, remainder) && Round(duration).reload > 0
    ensures Exact(runs + [p], data + [Round(duration).reload - 1], Round(duration).remainder)
            <==> duration == p.ticks + remainder
  {
    var r, n := Round(duration), |data|;
    hide Round, Error;
    RoundExact(duration);
    var runs', data' := runs + [p], data + [r.reload - 1];
    ErrorAtEnd(runs, data, p, r.reload - 1);
    forall k | 0 <= k <= n
      ensures Error(runs', data', k) == Error(runs, data, k)
    {
      assert runs'[..k] == runs[..k] && data'[..k] == data[..k];
      ErrorPrefix(runs, data, runs', data', k);
    }
  }

  /** Errors at the first k edges depend only on the first k runs and periods. */
  lemma {:induction false} ErrorPrefix(runs: seq<Piece>, data: seq<nat>, runs': seq<Piece>, data': seq<nat>, k: nat)
    requires k <= |runs| && k <= |data| && k <= |runs'| && k <= |data'|
    requires runs[..k] == runs'[..k] && data[..k] == data'[..k]
    ensures Error(runs', data', k) == Error(runs, data, k)
  {
  }

  /** The error at the end, with the last run and period set apart. */
  lemma {:induction false} ErrorAtEnd(runs: seq<Piece>, data: seq<nat>, p: Piece, v: nat)
    requires |runs| == |data|
    ensures Error(runs + [p], data + [v], |data| + 1)
         == Error(runs, data, |data|) + p.ticks - T_TIM * (v + 1)
  {
    assert (runs + [p])[..|data| + 1] == runs + [p] && (data + [v])[..|data| + 1] == data + [v];
    assert runs[..|data|] == runs && data[..|data|] == data;
    SumConcat(runs, [p]);
    PeriodsConcat(data, [v]);
    assert Sum([p]) == p.ticks && Periods([v]) == v + 1;
  }

  /** The same for extending the last run. */
  lemma {:induction false} ExtendExact(runs: seq<Piece>, data: seq<nat>, remainder: int, ticks: nat, duration: nat)
    requires Exact(runs, data, remainder) && data != [] && Round(duration).reload > 0
    ensures var n, last := |data| - 1, Piece(runs[|data| - 1].level, runs[|data| - 1].ticks + ticks);
            Exact(runs[..n] + [last], data[n := Round(duration).reload - 1], Round(duration).remainder)
            <==> duration == ticks + remainder + (data[n] + 1) * T_TIM
  {
    var r, n := Round(duration), |data| - 1;
    hide Round, Error;
    RoundExact(duration);
    var init, front, p := runs[..n], data[..n], runs[n];
    var last := Piece(p.level, p.ticks + ticks);
    var runs', data' := init + [last], data[n := r.reload - 1];
    assert runs == init + [p] && data == front + [data[n]] && data' == front + [r.reload - 1];
    ErrorAtEnd(init, front, p, data[n]);
    ErrorAtEnd(init, front, last, r.reload - 1);
    assert Error(runs, data, n + 1) == remainder;
    assert Error(runs', data', n + 1) == remainder + ticks + T_TIM * (data[n] + 1) - T_TIM * r.reload;
    forall k | 0 <= k <= n
      ensures Error(runs', data', k) == Error(runs, data, k)
    {
      assert runs'[..k] == runs[..k] && data'[..k] == data[..k];
      ErrorPrefix(runs, data, runs', data', k);
    }
  }

  lemma {:induction false} RoundExact(duration: nat)
    ensures duration == Round(duration).reload * T_TIM + Round(duration).remainder
    ensures -T_TIM_DIV2 <= Round(duration).remainder < T_TIM_DIV2
  {
  }

  class DigitalSignal {
    const maxSize: nat
    const data: array<nat>
    var startLevel: bool
    var size: nat
    var remainder: int

    ghost var calls: seq<Piece>     // the pieces added so far

    ghost predicate Valid()
      reads this, data
    {
      && data.Length == maxSize && size <= maxSize
      && |Runs(calls)| == size
      && (size > 0 ==> calls[0].level == startLevel)
      && -T_TIM_DIV2 <= remainder < T_TIM_DIV2
      && (forall i :: 0 <= i < size ==> 1 <= data[i] < U32)
    }

    /** The stored periods are the maximal runs of the input, each edge within 781 ticks of its ideal time. */
    ghost predicate Faithful()
      requires Valid()
      reads this, data
    {
      Exact(Runs(calls), data[..size], remainder)
    }

    constructor (max: nat)
      ensures Valid() && Faithful() && maxSize == max && size == 0 && remainder == 0 && !startLevel && calls == [] && fresh(data)
    {
      maxSize, size, remainder, startLevel, calls := max, 0, 0, false, [];
      data := new nat[max];
      new;
      assert data[..0] == [];
      assert Runs([]) == [];
    }

    /** The rounding shared by both period functions. */
    static method Split(duration: nat) returns (reload: nat, rest: int)
      ensures Rounded(reload, rest) == Round(duration)
    {
      reload := duration / T_TIM;
      rest := duration - reload * T_TIM;
      if rest >= T_TIM_DIV2 {
        reload, rest := reload + 1, rest - T_TIM;
      }
    }

    /** digital_signal_add_period. It fails, like the furi_checks, when the signal is full or the period
        rounds to less than two timer periods. */
    method AddPeriod(ticks: nat) returns (ok: bool)
      requires Valid() && ticks < U32
      modifies this`size, this`remainder, this`calls, data
      ensures ok ==> Valid() && startLevel == old(startLevel)
      ensures ok <==> old(size) < maxSize && Round((ticks + old(remainder)) % U32).reload > 1
      ensures !ok ==> calls == old(calls) && size == old(size) && remainder == old(remainder) && data[..] == old(data[..])
      ensures ok ==> calls == old(calls) + [Piece(if old(size) == 0 then startLevel else !EndLevel(old(calls)), ticks)]
      ensures ok ==> var r := Round((ticks + old(remainder)) % U32);
                     size == old(size) + 1 && data[..size] == old(data[..size]) + [r.reload - 1] && remainder == r.remainder
      ensures ok && old(Faithful()) ==> (Faithful() <==> 0 <= ticks + old(remainder) < U32)
    {
      hide Exact, Runs, Round;
      if size >= maxSize {
        return false;
      }
      var duration := (ticks + remainder) % U32;
      var reload, rest := Split(duration);
      if reload <= 1 {
        return false;
      }
      ghost var p := Piece(if size == 0 then startLevel else !EndLevel(calls), ticks);
      ghost var was := data[..size];
      RunsExtend(calls, p);
      RunsEnd(calls);
      assert Extend(Runs(calls), p) == Runs(calls) + [p];
      RoundBounds(duration);
      if Exact(Runs(calls), was, remainder) {
        AppendExact(Runs(calls), was, remainder, p, duration);
      }
      data[size] := reload - 1;
      size := size + 1;
      remainder := rest;
      calls := calls + [p];
      assert data[..size] == was + [reload - 1];
      ok := true;
    }

    /** digital_signal_extend_last_period */
    method ExtendLastPeriod(ticks: nat) returns (ok: bool)
      requires Valid() && ticks < U32 && size > 0
      modifies this`remainder, this`calls, data
      ensures ok ==> Valid()
      ensures ok <==> Round((ticks + old(remainder) + (old(data[size - 1]) + 1) * T_TIM) % U32).reload > 1
      ensures !ok ==> calls == old(calls) && remainder == old(remainder) && data[..] == old(data[..])
      ensures ok ==> calls == old(calls) + [Piece(EndLevel(old(calls)), ticks)]
      ensures ok ==> var r := Round((ticks + old(remainder) + (old(data[size - 1]) + 1) * T_TIM) % U32);
                     && data[..size] == old(data[..size])[size - 1 := (r.reload - 1) as nat]
                     && remainder == r.remainder
      ensures ok && old(Faithful()) ==>
                (Faithful() <==> 0 <= ticks + old(remainder) + (old(data[size - 1]) + 1) * T_TIM < U32)
    {
      hide Exact, Runs, Round;
      var reloadOld := data[size - 1] + 1;
      var duration := (ticks + remainder + reloadOld * T_TIM) % U32;
      var reload, rest := Split(duration);
      if reload <= 1 {
        return false;
      }
      ghost var runs, was := Runs(calls), data[..size];
      ghost var p := Piece(EndLevel(calls), ticks);
      RunsExtend(calls, p);
      RunsEnd(calls);
      RoundBounds(duration);
      if Exact(runs, was, remainder) {
        ExtendExact(runs, was, remainder, ticks, duration);
      }
      data[size - 1] := reload - 1;
      remainder := rest;
      calls := calls + [p];
      assert data[..size] == was[size - 1 := (reload - 1) as nat];
      ok := true;
    }

    /** digital_signal_add_period_with_level */
    method AddPeriodWithLevel(ticks: nat, level: bool) returns (ok: bool)
      requires Valid() && ticks < U32
      modifies this, data
      ensures ok <==> var continues := old(size) > 0 && level == EndLevel(old(calls));
                      var kept := if continues then (old(data[size - 1]) + 1) * T_TIM else 0;
                      (continues || old(size) < maxSize) && Round((ticks + old(remainder) + kept) % U32).reload > 1
      ensures ok ==> Valid() && calls == old(calls) + [Piece(level, ticks)]
      ensures !ok ==> calls == old(calls) && size == old(size) && remainder == old(remainder) && data[..] == old(data[..])
      ensures ok && old(size) > 0 ==> startLevel == old(startLevel)
      ensures ok && old(Faithful()) ==>
                (Faithful() <==> 0 <= ticks + old(remainder)
                                 + (if old(size) > 0 && level == EndLevel(old(calls))
                                    then (old(data[size - 1]) + 1) * T_TIM else 0) < U32)
    {
      if size == 0 {
        assert calls == [] by { RunsEnd(calls); }
        startLevel := level;
        ok := AddPeriod(ticks);
      } else {
        RunsEnd(calls);
        EndLevelBit(calls);
        var endLevel := startLevel != (size % 2 == 0);
        if level != endLevel {
          ok := AddPeriod(ticks);
        } else {
          ok := ExtendLastPeriod(ticks);
        }
      }
    }
  }

  ghost function EndLevel(calls: seq<Piece>): bool {
    calls != [] && calls[|calls| - 1].level
  }

  lemma {:induction false} RunsEnd(calls: seq<Piece>)
    ensures calls == [] <==> Runs(calls) == []
    ensures calls != [] ==> Runs(calls)[|Runs(calls)| - 1].level == EndLevel(calls)
  {
    RunsEmpty();
    hide Runs;
    RunsShape(calls);
  }

  /** The level test of add_period_with_level: the parity of the period count gives the last level. */
  lemma {:induction false} EndLevelBit(calls: seq<Piece>)
    requires Runs(calls) != []
    ensures calls != [] && EndLevel(calls) == (calls[0].level != (|Runs(calls)| % 2 == 0))
  {
    hide Runs;
    RunsEnd(calls);
    RunsLevel(calls, |Runs(calls)| - 1);
  }

  /** After any series of calls that did not wrap: the stored periods and the remainder account for every
      tick given, one period is stored for each maximal equal-level run, and every stored edge is within
      781 ticks of its ideal time. */
  lemma {:induction false} SignalTotals(d: DigitalSignal, k: nat)
    requires d.Valid() && d.Faithful() && k <= d.size
    ensures Sum(d.calls) == T_TIM * Periods(d.data[..d.size]) + d.remainder
    ensures |Runs(d.calls)| == d.size
    ensures -T_TIM_DIV2 <= Sum(Runs(d.calls)[..k]) - T_TIM * Periods(d.data[..k]) <= T_TIM_DIV2 - 1
  {
    var runs, data := Runs(d.calls), d.data[..d.size];
    RunsSum(d.calls);
    hide Runs, Sum, Periods, Round;
    assert runs[..d.size] == runs && data[..d.size] == data && data[..k] == d.data[..k];
    assert Error(runs, data, |data|) == d.remainder;
    assert -T_TIM_DIV2 <= Error(runs, data, k) < T_TIM_DIV2;
  }

  /** A signal that takes a period whose duration wraps: the remainder -700 left by 3986 ticks makes a period
      of 0 ticks almost 2^32 ticks long, and the signal is exact no longer. */
  method WrappingPeriod() returns (d: DigitalSignal)
    ensures fresh(d) && d.Valid() && !d.Faithful()
    ensures d.size == 2 && d.calls == [Piece(false, 3986), Piece(true, 0)] && d.data[..2] == [2, 2749658]
  {
    RoundWrapped();
    hide Round, Runs, Exact;
    d := new DigitalSignal(2);
    var ok := d.AddPeriod(3986);
    assert ok && d.remainder == -700 && d.data[..1] == [2];
    ok := d.AddPeriod(0);
    assert d.data[..2] == [2] + [2749658];
  }

  lemma {:induction false} RoundWrapped()
    ensures Round(3986 % U32) == Rounded(3, -700) && Round((0 - 700) % U32) == Rounded(2749659, -762)
  {
    assert 3986 % U32 == 3986 && (0 - 700) % U32 == 4294966596;
  }

  lemma {:induction false} RoundBounds(duration: nat)
    ensures -T_TIM_DIV2 <= Round(duration).remainder < T_TIM_DIV2
    ensures duration < U32 ==> Round(duration).reload <= U32
  {
  }
}
