/**
 The ring buffer between digital_sequence_transmit and the DMA channel that loads
 the timer. The writer and the DMA each take atomic steps, in any order.
 */
module TimerBuffer {

  const SIZE: nat := 128
  const MIN_FREE: nat := 2
  const TIMER_MAX: nat := 0xFFFF_FFFF     // the terminator

  /** The slot of the k-th period ever enqueued. */
  function Slot(k: nat): (s: nat)
    ensures s < SIZE
  {
    k % SIZE
  }

  lemma {:induction false} SlotsDiffer(a: nat, b: nat)
    requires a < b < a + SIZE
    ensures Slot(a) != Slot(b)
  {
  }

  lemma {:induction false} SlotNext(k: nat)
    ensures Slot(k + 1) == (Slot(k) + 1) % SIZE
  {
  }

  /** The free-space computation of digital_sequence_enqueue_period, in terms of the unread count. */
  lemma {:induction false} FreeSlots(read: nat, written: nat)
    requires read <= written < read + SIZE
    ensures (SIZE + Slot(read) - Slot(written)) % SIZE == if read == written then 0 else SIZE - (written - read)
  {
    var u := written - read;
    assert Slot(written) == if Slot(read) + u < SIZE then Slot(read) + u else Slot(read) + u - SIZE;
  }

  /** Buffer d holds the periods of enqueued from the lo-th on, in their slots, and then the terminator. */
  ghost predicate Contents(d: seq<nat>, enqueued: seq<nat>, lo: nat) {
    && |d| == SIZE && lo <= |enqueued| && |enqueued| - lo <= SIZE - MIN_FREE
    && d[Slot(|enqueued|)] == TIMER_MAX
    && (forall k {:trigger Slot(k)} :: lo <= k < |enqueued| ==> d[Slot(k)] == enqueued[k])
  }

  lemma {:induction false} ContentsBound(d: seq<nat>, enqueued: seq<nat>, lo: nat)
    requires Contents(d, enqueued, lo)
    ensures lo <= |enqueued| <= lo + SIZE - MIN_FREE
  {
  }

  /** Writing one more period and the terminator touches no unread slot. */
  lemma {:induction false} WriteKeeps(d: seq<nat>, enqueued: seq<nat>, lo: nat, length: nat)
    requires Contents(d, enqueued, lo) && |enqueued| - lo < SIZE - MIN_FREE
    ensures var n := |enqueued|;
            var d' := d[Slot(n) := length][Slot(n + 1) := TIMER_MAX];
            && Contents(d', enqueued + [length], lo)
            && forall k {:trigger Slot(k)} :: lo <= k < n ==> d'[Slot(k)] == d[Slot(k)]
  {
    hide Slot;
    var n := |enqueued|;
    var d' := d[Slot(n) := length][Slot(n + 1) := TIMER_MAX];
    SlotsDiffer(n, n + 1);
    forall k | lo <= k < n
      ensures d'[Slot(k)] == d[Slot(k)] == enqueued[k]
    {
      SlotsDiffer(k, n);
      SlotsDiffer(k, n + 1);
    }
  }

  class RingBuffer {
    const data: array<nat>
    var writePos: nat
    var readPos: nat          // where the DMA will read next
    var active: bool          // DigitalSequenceStateActive: the DMA runs

    ghost var enqueued: seq<nat>     // every period ever enqueued
    ghost var loaded: seq<nat>       // every period the DMA has loaded into the timer

    /** The slots from the DMA's position up to writePos hold exactly the periods enqueued and not yet
        loaded, and writePos holds the terminator. */
    ghost predicate Filled()
      reads this, data
    {
      && data.Length == SIZE
      && |loaded| <= |enqueued| && loaded == enqueued[..|loaded|]
      && writePos == Slot(|enqueued|) && readPos == Slot(|loaded|)
      && Contents(data[..], enqueued, |loaded|)
      && (forall k :: 0 <= k < |enqueued| ==> enqueued[k] != TIMER_MAX)
      && (!active ==> loaded == [])
    }

    /** The same, once digital_sequence_transmit has checked whether to start the DMA. */
    ghost predicate Valid()
      reads this, data
    {
      Filled() && (!active ==> |enqueued| < SIZE - MIN_FREE)
    }

    /** digital_sequence_timer_buffer_reset */
    constructor ()
      ensures Valid() && enqueued == [] && loaded == [] && !active && fresh(data)
    {
      data := new nat[SIZE];
      writePos, readPos, active := 0, 0, false;
      enqueued, loaded := [], [];
      new;
      data[0] := TIMER_MAX;
    }

    /** One poll of digital_sequence_enqueue_period and, if it finds room, the write: an idle buffer
        is written without polling. No unread slot changes. */
    method TryEnqueue(length: nat) returns (ok: bool)
      requires Valid() && length < TIMER_MAX
      modifies this`writePos, this`enqueued, data
      ensures ok <==> !active || 0 < |old(enqueued)| - |loaded| < SIZE - MIN_FREE
      ensures Filled() && (active ==> Valid())
      ensures enqueued == if ok then old(enqueued) + [length] else old(enqueued)
      ensures !ok ==> data[..] == old(data[..]) && writePos == old(writePos)
      ensures forall k {:trigger Slot(k)} :: |loaded| <= k < |old(enqueued)| ==> data[Slot(k)] == old(data[..])[Slot(k)]
    {
      hide Slot, Contents;
      ContentsBound(data[..], enqueued, |loaded|);
      FreeSlots(|loaded|, |enqueued|);
      if active {
        var free := (SIZE + readPos - writePos) % SIZE;
        if free <= MIN_FREE {
          return false;
        }
      }
      WriteKeeps(data[..], enqueued, |loaded|, length);
      SlotNext(|enqueued|);
      Write(length);
      enqueued := enqueued + [length];
      ok := true;
    }

    method Write(length: nat)
      requires data.Length == SIZE && writePos < SIZE
      modifies this`writePos, data
      ensures writePos == (old(writePos) + 1) % SIZE
      ensures data[..] == old(data[..])[old(writePos) := length][(old(writePos) + 1) % SIZE := TIMER_MAX]
    {
      data[writePos] := length;
      writePos := writePos + 1;
      writePos := writePos % SIZE;
      data[writePos] := TIMER_MAX;
    }

    /** The start of the DMA in digital_sequence_transmit: once the buffer is filled or the data ended. */
    method StartIfReady(endOfData: bool)
      requires Filled()
      modifies this`active
      ensures Valid() && active == (old(active) || endOfData || |enqueued| >= SIZE - MIN_FREE)
    {
      if !active {
        if writePos >= SIZE - MIN_FREE || endOfData {
          active := true;
        }
      }
    }

    /** The DMA loads the next period into the timer; at the terminator it stops. */
    method DmaStep() returns (period: nat)
      requires Valid() && active
      modifies this`readPos, this`loaded
      ensures Valid()
      ensures period == TIMER_MAX <==> |old(loaded)| == |enqueued|
      ensures period == TIMER_MAX ==> loaded == old(loaded)
      ensures period != TIMER_MAX ==> |old(loaded)| < |enqueued| && loaded == old(loaded) + [enqueued[|old(loaded)|]]
                                      && period == enqueued[|old(loaded)|]
    {
      SlotNext(|loaded|);
      hide Slot;
      period := data[readPos];
      assert data[..][readPos] == period;
      if |loaded| < |enqueued| {
        assert data[..][Slot(|loaded|)] == enqueued[|loaded|];
      }
      if period != TIMER_MAX {
        loaded := loaded + [period];
        readPos := (readPos + 1) % SIZE;
        assert enqueued[..|loaded|] == loaded;
      }
    }

    /** The periods still in the buffer, read slot by slot from the DMA's position to the terminator:
        what was loaded, followed by them, is everything enqueued. */
    method Unread() returns (rest: seq<nat>)
      requires Valid()
      ensures loaded + rest == enqueued
    {
      hide Slot;
      rest := [];
      var pos := readPos;
      ghost var k := |loaded|;
      SlotMeets(k, |enqueued|);
      assert loaded + rest == enqueued[..k];
      while pos != writePos
        invariant |loaded| <= k <= |enqueued| && pos == Slot(k) && loaded + rest == enqueued[..k]
        invariant Slot(k) == Slot(|enqueued|) <==> k == |enqueued|
        decreases |enqueued| - k
      {
        assert data[..][Slot(k)] == enqueued[k];
        SlotNext(k);
        SlotMeets(k + 1, |enqueued|);
        rest := rest + [data[pos]];
        pos := (pos + 1) % SIZE;
        assert enqueued[..k + 1] == enqueued[..k] + [enqueued[k]];
        k := k + 1;
      }
      assert enqueued[..k] == enqueued;
    }
  }

  lemma {:induction false} SlotMeets(k: nat, n: nat)
    requires k <= n < k + SIZE
    ensures Slot(k) == Slot(n) <==> k == n
  {
    if k < n {
      SlotsDiffer(k, n);
    }
  }
}
