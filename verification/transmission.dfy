/**
 digital_sequence_transmit from signals to timer: the flattened periods go through
 the ring buffer while the DMA channel empties it, each side taking its steps in
 any order.
 */
module Transmission {
  import opened Waveform
  import opened DigitalSequences
  import opened TimerBuffer

  /** What the writer does next: enqueue the k-th period, look whether to start the DMA, do so after the
      last period, or nothing more. */
  datatype Writer = Enqueuing | Checking | Ending | Ended

  /** How far writer and DMA have come with n periods; finished once the DMA met the terminator after the end. */
  datatype Progress = Progress(written: nat, loaded: nat, active: bool, writer: Writer, finished: bool)

  function Begin(n: nat): Progress {
    Progress(0, 0, false, if n == 0 then Ending else Enqueuing, false)
  }

  function WriterTurn(p: Progress, n: nat): Progress {
    match p.writer
    case Enqueuing =>
      if !p.active || 0 < p.written - p.loaded < SIZE - MIN_FREE then p.(written := p.written + 1, writer := Checking)
      else p
    case Checking =>
      p.(active := p.active || p.written >= SIZE - MIN_FREE, writer := if p.written < n then Enqueuing else Ending)
    case Ending => p.(active := true, writer := Ended)
    case Ended => p
  }

  function DmaTurn(p: Progress): Progress {
    if !p.active then p
    else if p.loaded < p.written then p.(loaded := p.loaded + 1)
    else p.(finished := p.finished || p.writer == Ended)
  }

  /** The progress after the given turns, true for the writer's. */
  function Play(n: nat, turns: seq<bool>): Progress {
    if turns == [] then Begin(n)
    else
      var p := Play(n, turns[..|turns| - 1]);
      if turns[|turns| - 1] then WriterTurn(p, n) else DmaTurn(p)
  }

  predicate Sound(p: Progress, n: nat) {
    && p.loaded <= p.written <= n
    && (p.writer == Enqueuing ==> p.written < n)
    && (p.writer == Ending || p.writer == Ended ==> p.written == n)
    && (p.finished ==> p.loaded == n)
  }

  /** Whatever the turns, no period is loaded that was not written, and finished means that all were loaded. */
  lemma {:induction false} PlaySound(n: nat, turns: seq<bool>)
    ensures Sound(Play(n, turns), n)
  {
    if turns != [] {
      PlaySound(n, turns[..|turns| - 1]);
    }
  }

  // ---------- An interleaving that delivers everything ----------

  /** The DMA is never ahead of a writer that still has periods to write. */
  predicate Ahead(p: Progress, n: nat) {
    && Sound(p, n)
    && (!p.active ==> p.loaded == 0)
    && (p.active && p.writer != Ended ==> p.written - p.loaded >= SIZE - MIN_FREE - 1)
    && (p.writer == Ended ==> p.active)
  }

  function Left(p: Progress, n: nat): nat
    requires Sound(p, n)
  {
    4 * (n - p.written) + (n - p.loaded) + (if p.finished then 0 else 1)
    + match p.writer case Enqueuing => 1 case Checking => 3 case Ending => 1 case Ended => 0
  }

  lemma {:induction false} PlayNext(n: nat, turns: seq<bool>, turn: bool)
    ensures Play(n, turns + [turn]) == if turn then WriterTurn(Play(n, turns), n) else DmaTurn(Play(n, turns))
  {
    assert (turns + [turn])[..|turns|] == turns;
  }

  lemma {:induction false} FinishFrom(n: nat, turns: seq<bool>) returns (all: seq<bool>)
    requires Ahead(Play(n, turns), n)
    ensures Play(n, all).finished
    decreases Left(Play(n, turns), n)
  {
    var p := Play(n, turns);
    if p.finished {
      all := turns;
    } else {
      var turn := p.writer != Ended && !(p.writer == Enqueuing && p.active && p.written - p.loaded >= SIZE - MIN_FREE);
      PlayNext(n, turns, turn);
      hide Play;
      all := FinishFrom(n, turns + [turn]);
    }
  }

  /** Some interleaving delivers all n periods: the DMA takes its turn when the buffer is full or the writer is done. */
  lemma {:induction false} PlayFinishes(n: nat) returns (turns: seq<bool>)
    ensures Play(n, turns).finished && Play(n, turns).loaded == n
  {
    turns := FinishFrom(n, []);
    PlaySound(n, turns);
  }

  // ---------- The ring buffer at work ----------

  /** The ring buffer holds what the progress p says of the given periods. */
  ghost predicate Shows(ring: RingBuffer, periods: seq<nat>, p: Progress)
    reads ring, ring.data
  {
    && ring.Filled() && (p.writer != Checking || ring.active ==> ring.Valid())
    && Sound(p, |periods|) && ring.enqueued == periods[..p.written]
    && |ring.loaded| == p.loaded && ring.active == p.active
  }

  /** The periods go through a fresh ring buffer; turns says whose turn it is, the writer's or the DMA's.
      Whatever the turns, the timer is loaded with the periods in order; and if the DMA meets the
      terminator after the writer has ended, it was loaded with all of them. */
  method Deliver(periods: seq<nat>, turns: seq<bool>) returns (ring: RingBuffer, finished: bool)
    requires forall i :: 0 <= i < |periods| ==> periods[i] < TIMER_MAX
    ensures fresh(ring) && ring.Filled()
    ensures |ring.loaded| == Play(|periods|, turns).loaded && |ring.enqueued| == Play(|periods|, turns).written
    ensures finished == Play(|periods|, turns).finished
    ensures ring.loaded <= ring.enqueued <= periods
    ensures finished ==> ring.loaded == periods
  {
    ring := new RingBuffer();
    var p := Begin(|periods|);
    assert turns[..0] == [];
    for n := 0 to |turns|
      invariant fresh(ring) && fresh(ring.data) && Shows(ring, periods, p)
      invariant p == Play(|periods|, turns[..n])
    {
      assert turns[..n + 1] == turns[..n] + [turns[n]];
      PlayNext(|periods|, turns[..n], turns[n]);
      PlaySound(|periods|, turns[..n + 1]);
      hide Play;
      if turns[n] {
        p := WriterStep(ring, periods, p);
      } else {
        p := DmaLoad(ring, periods, p);
      }
    }
    assert turns[..|turns|] == turns;
    finished := p.finished;
  }

  /** One step of the writer; a poll that finds no room is tried again. */
  method WriterStep(ring: RingBuffer, periods: seq<nat>, p: Progress) returns (p': Progress)
    requires Shows(ring, periods, p) && Sound(WriterTurn(p, |periods|), |periods|)
    requires forall i :: 0 <= i < |periods| ==> periods[i] < TIMER_MAX
    modifies ring, ring.data
    ensures p' == WriterTurn(p, |periods|) && Shows(ring, periods, p') && ring.loaded == old(ring.loaded)
  {
    hide Contents, Slot;
    p' := p;
    match p.writer
    case Enqueuing =>
      var ok := ring.TryEnqueue(periods[p.written]);
      if ok {
        assert periods[..p.written + 1] == periods[..p.written] + [periods[p.written]];
        p' := p.(written := p.written + 1, writer := Checking);
      }
    case Checking =>
      ring.StartIfReady(false);
      p' := p.(active := ring.active, writer := if p.written < |periods| then Enqueuing else Ending);
    case Ending =>
      ring.StartIfReady(true);
      p' := p.(active := ring.active, writer := Ended);
    case Ended =>
  }

  /** One step of the DMA, if it runs. */
  method DmaLoad(ring: RingBuffer, periods: seq<nat>, p: Progress) returns (p': Progress)
    requires Shows(ring, periods, p)
    modifies ring, ring.data
    ensures p' == DmaTurn(p) && Shows(ring, periods, p') && ring.enqueued == old(ring.enqueued)
  {
    hide Contents, Slot;
    p' := p;
    if ring.active {
      var period := ring.DmaStep();
      if period != TIMER_MAX {
        p' := p.(loaded := p.loaded + 1);
      } else if p.writer == Ended {
        p' := p.(finished := true);
      }
    }
  }

  /** For every sequence of signals whose runs are shorter than the terminator value, and every
      interleaving: the timer is loaded with runs of the waveform, in order and without the held last one,
      and with all of these if the DMA meets the terminator after the data ended. */
  method TransmitThroughRing(bank: map<nat, Signal>, data: seq<nat>, turns: seq<bool>)
    returns (ring: RingBuffer, finished: bool, held: nat)
    requires data != [] && forall k :: 0 <= k < |data| ==> data[k] in bank && Usable(bank[data[k]])
    requires forall i :: 0 <= i < |Runs(Wave(Selected(bank, data)))| ==>
               Runs(Wave(Selected(bank, data)))[i].ticks < TIMER_MAX
    ensures fresh(ring) && ring.Filled()
    ensures ring.loaded <= Ticks(Runs(Wave(Selected(bank, data))))
    ensures |ring.loaded| < |Runs(Wave(Selected(bank, data)))|
    ensures finished == Play(|Runs(Wave(Selected(bank, data)))| - 1, turns).finished
    ensures finished ==> ring.loaded + [held] == Ticks(Runs(Wave(Selected(bank, data))))
  {
    hide Runs, Wave, Ticks, Play;
    ghost var runs := Runs(Wave(Selected(bank, data)));
    var out, remainderTicks;
    out, held, remainderTicks := Transmit(bank, data);
    assert AllFit(runs);
    ShortPeriods(runs, out, held);
    ring, finished := Deliver(out, turns);
  }

  lemma {:induction false} ShortPeriods(runs: seq<Piece>, out: seq<nat>, held: nat)
    requires out + [held] == Ticks(runs) && forall i :: 0 <= i < |runs| ==> runs[i].ticks < TIMER_MAX
    ensures |runs| == |out| + 1 && forall i :: 0 <= i < |out| ==> out[i] < TIMER_MAX
  {
    TicksEmpty();
    if runs != [] {
      TicksIndex(runs, 0);
    }
    forall i | 0 <= i < |out|
      ensures out[i] < TIMER_MAX
    {
      TicksIndex(runs, i);
      assert (out + [held])[i] == out[i];
    }
  }
}
