/**
 Software timers of the event loop (event_loop_timer.c): the sorted list of
 active timers, the queue of start/stop/free requests, and the wrapping 32-bit
 tick counter. The state also records the unbounded tick count, so that wrapping
 arithmetic can be compared with true time.
 */
module EventLoopTimer {
  import opened Lists

  const TICKS: nat := 0x1_0000_0000
  const WAIT_FOREVER: nat := 0xFFFF_FFFF

  datatype Request = NoRequest | StartRequest | StopRequest | FreeRequest

  datatype Timer = Timer(
    periodic: bool,
    interval: nat,
    startTime: nat,      // 32-bit tick
    nextInterval: nat,
    request: Request,
    active: bool)

  datatype Timers = Timers(
    timers: map<nat, Timer>,     // allocated timers
    list: seq<nat>,              // active timers, earliest first
    queue: seq<nat>,             // timers with a pending request, oldest request first
    nextId: nat,                 // identity of the next timer to be allocated
    now: nat,                    // true tick count; the firmware reads it modulo 2^32
    since: map<nat, nat>,        // true tick that startTime stands for
    origin: map<nat, nat>,       // true tick at which the timer was last started
    periods: map<nat, nat>,      // whole intervals by which since has moved past origin
    silenced: set<nat>)          // stop or free was called and no later start has been processed

  const NO_TIMERS := Timers(map[], [], [], 0, 0, map[], map[], map[], {})

  // ---------- Time ----------

  function Elapsed(t: Timer, now: nat): nat {
    (now - t.startTime) % TICKS
  }

  function Remaining(t: Timer, now: nat): nat {
    if Elapsed(t, now) < t.interval then t.interval - Elapsed(t, now) else 0
  }

  predicate Expired(t: Timer, now: nat) {
    Elapsed(t, now) >= t.interval
  }

  /** Wrapping subtraction recovers true elapsed time while it is below 2^32. */
  lemma {:induction false} ElapsedIsTrue(t: Timer, since: nat, now: nat)
    requires t.startTime == since % TICKS && since <= now < since + TICKS
    ensures Elapsed(t, now) == now - since
  {
    assert (now - since) % TICKS == now - since;
    assert since == TICKS * (since / TICKS) + since % TICKS;
    ModShift(now - since, since / TICKS);
  }

  lemma {:induction false} ModShift(a: int, k: nat)
    ensures (a + TICKS * k) % TICKS == a % TICKS
  {
  }

  // ---------- Ordering ----------

  /** The list is in order of remaining time, clipped at zero. */
  predicate Sorted(list: seq<nat>, timers: map<nat, Timer>, now: nat) {
    && (forall i :: 0 <= i < |list| ==> list[i] in timers)
    && (forall i, j :: 0 <= i < j < |list| ==> Remaining(timers[list[i]], now) <= Remaining(timers[list[j]], now))
  }

  /** Where schedule_timer puts a timer: after the last entry that does not expire later. */
  function Place(list: seq<nat>, timers: map<nat, Timer>, now: nat, rem: nat): (k: nat)
    requires forall i :: 0 <= i < |list| ==> list[i] in timers
    ensures k <= |list|
    ensures forall i :: k <= i < |list| ==> rem < Remaining(timers[list[i]], now)
    ensures k > 0 ==> Remaining(timers[list[k - 1]], now) <= rem
  {
    if list == [] then 0
    else if rem >= Remaining(timers[list[|list| - 1]], now) then |list|
    else Place(list[..|list| - 1], timers, now, rem)
  }

  function Scheduled(list: seq<nat>, timers: map<nat, Timer>, now: nat, t: nat): seq<nat>
    requires t in timers && forall i :: 0 <= i < |list| ==> list[i] in timers
  {
    InsertAt(list, Place(list, timers, now, Remaining(timers[t], now)), t)
  }

  lemma {:induction false} ScheduledSorted(list: seq<nat>, timers: map<nat, Timer>, now: nat, t: nat)
    requires Sorted(list, timers, now) && t in timers
    ensures Sorted(Scheduled(list, timers, now, t), timers, now)
    ensures forall x :: x in Scheduled(list, timers, now, t) <==> x in list || x == t
    ensures NoDup(list) && t !in list ==> NoDup(Scheduled(list, timers, now, t))
  {
    hide Remaining, InsertAt, NoDup;
    var rem := Remaining(timers[t], now);
    var k := Place(list, timers, now, rem);
    InsertAtFacts(list, k, t);
    var r := Scheduled(list, timers, now, t);
    forall i | 0 <= i < |r|
      ensures r[i] in timers
    {
      assert r[i] in r;
    }
    InsertAtIndex(list, k, t, 0);
    forall i, j | 0 <= i < j < |r|
      ensures Remaining(timers[r[i]], now) <= Remaining(timers[r[j]], now)
    {
      InsertAtIndex(list, k, t, i);
      InsertAtIndex(list, k, t, j);
      assert k > 0 && i < k ==> Remaining(timers[list[i]], now) <= Remaining(timers[list[k - 1]], now);
    }
  }

  /** Timers due at the same time stay in the order they were scheduled: the new one goes behind those not due
      later, and before those due later. */
  lemma {:induction false} ScheduledBehindEqual(list: seq<nat>, timers: map<nat, Timer>, now: nat, t: nat) returns (k: nat)
    requires Sorted(list, timers, now) && t in timers
    ensures k <= |list| && Scheduled(list, timers, now, t) == list[..k] + [t] + list[k..]
    ensures forall i :: 0 <= i < k ==> Remaining(timers[list[i]], now) <= Remaining(timers[t], now)
    ensures forall i :: k <= i < |list| ==> Remaining(timers[t], now) < Remaining(timers[list[i]], now)
  {
    hide Remaining;
    k := Place(list, timers, now, Remaining(timers[t], now));
    forall i | 0 <= i < k
      ensures Remaining(timers[list[i]], now) <= Remaining(timers[t], now)
    {
      assert Remaining(timers[list[i]], now) <= Remaining(timers[list[k - 1]], now);
    }
  }

  lemma {:induction false} UnlinkSorted(list: seq<nat>, timers: map<nat, Timer>, now: nat, t: nat)
    requires Sorted(list, timers, now)
    ensures Sorted(Unlink(list, t), timers, now)
  {
    hide Remaining, IndexOf, RemoveAt;
    if t in list {
      var k := IndexOf(list, t);
      var r := Unlink(list, t);
      if |list| > 1 {
        RemoveAtIndex(list, k, 0);
        forall i | 0 <= i < |r|
          ensures r[i] in timers
        {
          RemoveAtIndex(list, k, i);
        }
        forall i, j | 0 <= i < j < |r|
          ensures Remaining(timers[r[i]], now) <= Remaining(timers[r[j]], now)
        {
          RemoveAtIndex(list, k, i);
          RemoveAtIndex(list, k, j);
        }
      } else {
        Single(list, k);
      }
    }
  }

  lemma {:induction false} Single(s: seq<nat>, k: nat)
    requires |s| == 1 && k < |s|
    ensures RemoveAt(s, k) == []
  {
  }

  /** Sortedness depends only on the timers in the list. */
  lemma {:induction false} SortedFrame(list: seq<nat>, timers: map<nat, Timer>, timers': map<nat, Timer>, now: nat)
    requires Sorted(list, timers, now)
    requires forall i :: 0 <= i < |list| ==> list[i] in timers' && timers'[list[i]] == timers[list[i]]
    ensures Sorted(list, timers', now)
  {
    hide Remaining;
  }

  // ---------- Steps ----------

  function Alloc(tm: Timers, periodic: bool): Timers {
    tm.(timers := tm.timers[tm.nextId := Timer(periodic, 0, 0, 0, NoRequest, false)], nextId := tm.nextId + 1)
  }

  /** furi_event_loop_timer_enqueue_request, with the interval timer_start stores first. */
  function Enqueue(tm: Timers, t: nat, request: Request, next: nat): Timers
    requires t in tm.timers
  {
    tm.(timers := tm.timers[t := tm.timers[t].(request := request, nextInterval := next)],
        queue := Unlink(tm.queue, t) + [t],
        silenced := if request == StartRequest then tm.silenced else tm.silenced + {t})
  }

  /** One turn of process_timer_queue, up to the call of schedule_timer. */
  function PopRequest(tm: Timers): Timers
    requires tm.queue != [] && tm.queue[0] in tm.timers
  {
    var t := tm.queue[0];
    var timer := tm.timers[t];
    var tm1 := tm.(queue := tm.queue[1..], list := if timer.active then Unlink(tm.list, t) else tm.list);
    match timer.request
    case StartRequest =>
      tm1.(timers := tm.timers[t := timer.(active := true, interval := timer.nextInterval,
                                           startTime := tm.now % TICKS, request := NoRequest)],
           since := tm.since[t := tm.now],
           origin := tm.origin[t := tm.now],
           periods := tm.periods[t := 0],
           silenced := tm.silenced - {t})
    case StopRequest => tm1.(timers := tm.timers[t := timer.(active := false, request := NoRequest)])
    case FreeRequest => tm1.(timers := tm.timers - {t})
    case NoRequest => tm1
  }

  predicate PopStarts(tm: Timers)
    requires tm.queue != [] && tm.queue[0] in tm.timers
  {
    tm.timers[tm.queue[0]].request == StartRequest
  }

  function Schedule(tm: Timers, t: nat): Timers
    requires t in tm.timers && forall i :: 0 <= i < |tm.list| ==> tm.list[i] in tm.timers
  {
    tm.(list := Scheduled(tm.list, tm.timers, tm.now, t))
  }

  /** process_expired_timers up to the re-arming: takes the expired front timer off the list. */
  function Expire(tm: Timers): Timers
    requires tm.list != [] && tm.list[0] in tm.timers
  {
    var t := tm.list[0];
    tm.(list := tm.list[1..],
        timers := if tm.timers[t].periodic then tm.timers
                  else tm.timers[t := tm.timers[t].(active := false)])
  }

  /** Moves a periodic timer's start forward by all the periods that have passed. */
  function Rearm(tm: Timers, t: nat): Timers
    requires t in tm.timers && tm.timers[t].interval > 0 && t in tm.since && t in tm.periods
  {
    var timer := tm.timers[t];
    var n := Elapsed(timer, tm.now) / timer.interval;
    tm.(timers := tm.timers[t := timer.(startTime := (timer.startTime + timer.interval * n) % TICKS)],
        since := tm.since[t := tm.since[t] + timer.interval * n],
        periods := tm.periods[t := tm.periods[t] + n])
  }

  function Tick(tm: Timers): Timers {
    tm.(now := tm.now + 1)
  }

  // ---------- Invariant ----------

  /** A start time a whole number of intervals after the original start. */
  predicate OnGrid(since: nat, origin: nat, interval: nat, periods: nat) {
    since == origin + interval * periods
  }

  /** The record of a running timer: wrapping and true start agree, true elapsed time fits 32 bits,
      and the start is a whole number of intervals after the original start. */
  predicate Running(tm: Timers, t: nat) {
    && t in tm.timers && t in tm.since && t in tm.origin && t in tm.periods
    && tm.timers[t].startTime == tm.since[t] % TICKS
    && tm.since[t] <= tm.now < tm.since[t] + TICKS
    && tm.timers[t].interval < TICKS
    && OnGrid(tm.since[t], tm.origin[t], tm.timers[t].interval, tm.periods[t])
    && (if tm.timers[t].periodic then tm.timers[t].interval > 0 else tm.periods[t] == 0)
  }

  /** The list holds exactly the timers marked active, once each, apart from the timer in flight
      between unlinking and schedule_timer; the queue holds exactly those with a request. */
  ghost predicate Members(tm: Timers, flight: Option<nat>) {
    && NoDup(tm.list) && NoDup(tm.queue)
    && (forall t :: t in tm.timers ==> t < tm.nextId)
    && (forall t :: t in tm.list || flight == Some(t) <==> t in tm.timers && tm.timers[t].active)
    && (flight.Some? ==> flight.value !in tm.list)
    && (forall t :: t in tm.queue <==> t in tm.timers && tm.timers[t].request != NoRequest)
  }

  ghost predicate Clocks(tm: Timers) {
    forall t :: t in tm.timers && tm.timers[t].active ==> Running(tm, t)
  }

  /** Requested intervals are 32-bit words, positive ones for periodic timers to be started, and a silenced timer that is
      still active has its request waiting. */
  ghost predicate Requests(tm: Timers) {
    && (forall t :: t in tm.timers && tm.timers[t].periodic && tm.timers[t].request == StartRequest ==>
          tm.timers[t].nextInterval > 0)
    && (forall t :: t in tm.timers ==> tm.timers[t].nextInterval < TICKS)
    && (forall t :: t in tm.silenced ==> t < tm.nextId)
    && (forall t :: t in tm.silenced && t in tm.timers && tm.timers[t].active ==> tm.timers[t].request != NoRequest)
  }

  ghost predicate Inv(tm: Timers, flight: Option<nat>) {
    && Sorted(tm.list, tm.timers, tm.now)
    && Members(tm, flight)
    && Clocks(tm)
    && Requests(tm)
  }

  /** A running timer is unaffected by a step that keeps its record and its clock entries. */
  lemma {:induction false} RunningFrame(tm: Timers, tm': Timers, t: nat)
    requires Running(tm, t) && tm'.now == tm.now && t in tm.timers && t in tm'.timers
    requires forall x :: x == t && x in tm.since ==> x in tm'.since && tm'.since[x] == tm.since[x]
    requires forall x :: x == t && x in tm.origin ==> x in tm'.origin && tm'.origin[x] == tm.origin[x]
    requires forall x :: x == t && x in tm.periods ==> x in tm'.periods && tm'.periods[x] == tm.periods[x]
    requires var x, y := tm.timers[t], tm'.timers[t];
             x.startTime == y.startTime && x.periodic == y.periodic && x.interval == y.interval
    ensures Running(tm', t)
  {
    hide OnGrid;
  }

  lemma {:induction false} AllocInv(tm: Timers, flight: Option<nat>, periodic: bool)
    requires Inv(tm, flight)
    ensures Inv(Alloc(tm, periodic), flight)
  {
    hide Remaining, Running, NoDup;
    var tm' := Alloc(tm, periodic);
    assert tm.nextId !in tm.timers;
    hide Sorted, Requests;
    AllocMembers(tm, flight, periodic);
    AllocRequests(tm, flight, periodic);
    ListAllocated(tm, flight);
    hide Members;
    SortedFrame(tm.list, tm.timers, tm'.timers, tm.now);
    ClocksFrame(tm, tm');
  }

  lemma {:induction false} AllocMembers(tm: Timers, flight: Option<nat>, periodic: bool)
    requires Members(tm, flight)
    ensures Members(Alloc(tm, periodic), flight)
  {
    hide NoDup;
  }

  lemma {:induction false} AllocRequests(tm: Timers, flight: Option<nat>, periodic: bool)
    requires Requests(tm) && Members(tm, flight)
    ensures Requests(Alloc(tm, periodic))
  {
    hide NoDup;
  }

  lemma {:induction false} EnqueueInv(tm: Timers, flight: Option<nat>, t: nat, request: Request, next: nat)
    requires Inv(tm, flight) && t in tm.timers && request != NoRequest && tm.timers[t].request != FreeRequest
    requires next < TICKS && (request == StartRequest && tm.timers[t].periodic ==> next > 0)
    ensures Inv(Enqueue(tm, t, request, next), flight)
  {
    hide Running, OnGrid, Unlink;
    var tm' := Enqueue(tm, t, request, next);
    assert Sorted(tm'.list, tm'.timers, tm'.now) by {
      assert forall x :: x in tm.timers ==> Remaining(tm'.timers[x], tm.now) == Remaining(tm.timers[x], tm.now);
      hide Remaining;
    }
    hide Remaining, Sorted;
    EnqueueMembers(tm, flight, t, request, next);
    assert Requests(tm');
    hide Members, Requests;
    forall x | x in tm'.timers && tm'.timers[x].active
      ensures Running(tm', x)
    {
      RunningFrame(tm, tm', x);
    }
  }

  lemma {:induction false} EnqueueMembers(tm: Timers, flight: Option<nat>, t: nat, request: Request, next: nat)
    requires Members(tm, flight) && t in tm.timers && request != NoRequest
    ensures Members(Enqueue(tm, t, request, next), flight)
  {
    RequeueFacts(tm.queue, t);
    hide Unlink, NoDup;
  }

  lemma {:induction false} PopSorted(tm: Timers)
    requires Inv(tm, None) && tm.queue != [] && tm.queue[0] in tm.timers
    ensures Sorted(PopRequest(tm).list, PopRequest(tm).timers, tm.now)
  {
    hide Remaining, Running, OnGrid, Unlink, Sorted, Clocks, Requests;
    var t, tm' := tm.queue[0], PopRequest(tm);
    UnlinkFacts(tm.list, t);
    UnlinkSorted(tm.list, tm.timers, tm.now, t);
    hide NoDup;
    assert t !in tm'.list;
    SortedFrame(tm'.list, tm.timers, tm'.timers, tm.now);
  }

  lemma {:induction false} PopMembers(tm: Timers)
    requires Members(tm, None) && tm.queue != [] && tm.queue[0] in tm.timers
    requires tm.timers[tm.queue[0]].request != NoRequest
    ensures Members(PopRequest(tm), if PopStarts(tm) then Some(tm.queue[0]) else None)
  {
    UnlinkFacts(tm.list, tm.queue[0]);
    PopFront(tm.queue);
    hide Unlink, NoDup;
  }

  lemma {:induction false} PopClocks(tm: Timers)
    requires Clocks(tm) && Requests(tm) && tm.queue != [] && tm.queue[0] in tm.timers
    requires tm.timers[tm.queue[0]].request != NoRequest
    ensures Clocks(PopRequest(tm))
  {
    hide Running, OnGrid, Unlink;
    var t, tm' := tm.queue[0], PopRequest(tm);
    forall x | x in tm'.timers && tm'.timers[x].active
      ensures Running(tm', x)
    {
      if x == t {
        StartRuns(tm);
      } else {
        RunningFrame(tm, tm', x);
      }
    }
  }

  lemma {:induction false} PopRequestInv(tm: Timers)
    requires Inv(tm, None) && tm.queue != []
    ensures tm.queue[0] in tm.timers && tm.timers[tm.queue[0]].request != NoRequest
    ensures Inv(PopRequest(tm), if PopStarts(tm) then Some(tm.queue[0]) else None)
  {
    QueuedRequest(tm);
    PopSorted(tm);
    hide Sorted, Clocks, Unlink, Members, Requests, PopRequest, PopStarts;
    PopMembers(tm);
    PopClocks(tm);
    PopRequests(tm);
    PopTime(tm);
  }

  lemma {:induction false} QueuedRequest(tm: Timers)
    requires Members(tm, None) && tm.queue != []
    ensures tm.queue[0] in tm.timers && tm.timers[tm.queue[0]].request != NoRequest
  {
    assert tm.queue[0] in tm.queue;
  }

  lemma {:induction false} PopTime(tm: Timers)
    requires tm.queue != [] && tm.queue[0] in tm.timers
    ensures PopRequest(tm).now == tm.now
  {
    hide Unlink;
  }

  lemma {:induction false} PopRequests(tm: Timers)
    requires Requests(tm) && tm.queue != [] && tm.queue[0] in tm.timers && tm.timers[tm.queue[0]].request != NoRequest
    ensures Requests(PopRequest(tm))
  {
    hide Unlink;
  }

  lemma {:induction false} StartRuns(tm: Timers)
    requires tm.queue != [] && tm.queue[0] in tm.timers && PopStarts(tm)
    requires Requests(tm)
    ensures Running(PopRequest(tm), tm.queue[0])
  {
    hide Unlink;
  }

  /** The invariant is about one clock record at a time: a step that keeps the time and the records of the
      active timers keeps all clocks. */
  lemma {:induction false} ClocksFrame(tm: Timers, tm': Timers)
    requires Clocks(tm) && tm'.now == tm.now
    requires tm'.since == tm.since && tm'.origin == tm.origin && tm'.periods == tm.periods
    requires forall t :: t in tm'.timers && tm'.timers[t].active ==>
               && t in tm.timers && tm.timers[t].active && tm'.timers[t].startTime == tm.timers[t].startTime
               && tm'.timers[t].periodic == tm.timers[t].periodic && tm'.timers[t].interval == tm.timers[t].interval
    ensures Clocks(tm')
  {
    hide Running;
    forall t | t in tm'.timers && tm'.timers[t].active
      ensures Running(tm', t)
    {
      RunningFrame(tm, tm', t);
    }
  }

  lemma {:induction false} ScheduleInv(tm: Timers, t: nat)
    requires Inv(tm, Some(t))
    ensures t in tm.timers
    ensures Inv(Schedule(tm, t), None)
  {
    InFlight(tm, t);
    hide Members, Sorted, Clocks, Requests, Scheduled, NoDup;
    ListAllocated(tm, Some(t));
    ScheduledSorted(tm.list, tm.timers, tm.now, t);
    var list := Scheduled(tm.list, tm.timers, tm.now, t);
    Landed(tm, t, list);
    ClocksFrame(tm, tm.(list := list));
    RequestsFrame(tm, tm.(list := list));
  }

  lemma {:induction false} InFlight(tm: Timers, t: nat)
    requires Members(tm, Some(t))
    ensures t in tm.timers && t !in tm.list && NoDup(tm.list)
  {
    hide NoDup;
  }

  lemma {:induction false} Landed(tm: Timers, t: nat, list: seq<nat>)
    requires Members(tm, Some(t)) && NoDup(list) && forall x :: x in list <==> x in tm.list || x == t
    ensures Members(tm.(list := list), None)
  {
    hide NoDup;
  }

  /** Requests are about the timers and the silenced ones only. */
  lemma {:induction false} RequestsFrame(tm: Timers, tm': Timers)
    requires Requests(tm) && tm'.timers == tm.timers && tm'.silenced == tm.silenced && tm'.nextId == tm.nextId
    ensures Requests(tm')
  {
  }

  lemma {:induction false} ExpireInv(tm: Timers)
    requires Inv(tm, None) && tm.list != []
    ensures tm.list[0] in tm.timers
    ensures var t := tm.list[0]; Inv(Expire(tm), if tm.timers[t].periodic then Some(t) else None)
  {
    hide Remaining, Running, OnGrid;
    var t := tm.list[0];
    assert t in tm.list;
    var tm' := Expire(tm);
    assert Sorted(tm'.list, tm'.timers, tm.now) by {
      SortedFrame(tm'.list, tm.timers, tm'.timers, tm.now);
    }
    hide Sorted;
    PopFront(tm.list);
    hide NoDup;
    ClocksFrame(tm, tm');
    hide Clocks;
    assert Requests(tm');
    hide Requests;
  }

  /** Re-arming lands the start within one interval of now, a whole number of intervals later. */
  lemma {:induction false} RearmExact(tm: Timers, t: nat)
    requires Running(tm, t) && tm.timers[t].periodic
    ensures Running(Rearm(tm, t), t)
    ensures var tm' := Rearm(tm, t);
            tm'.since[t] <= tm'.now < tm'.since[t] + tm.timers[t].interval
    ensures Remaining(Rearm(tm, t).timers[t], tm.now) > 0
  {
    var timer, tm' := tm.timers[t], Rearm(tm, t);
    ElapsedIsTrue(timer, tm.since[t], tm.now);
    RearmArith(tm.now, tm.since[t], tm.origin[t], timer.interval, tm.periods[t]);
    hide OnGrid;
    assert Running(tm', t);
    ElapsedIsTrue(tm'.timers[t], tm'.since[t], tm.now);
  }

  lemma {:induction false} RearmArith(now: nat, since: nat, origin: nat, d: nat, k: nat)
    requires d > 0 && since <= now < since + TICKS && OnGrid(since, origin, d, k)
    ensures var n := (now - since) / d;
            && 0 <= d * n <= now - since
            && now < since + d * n + d
            && OnGrid(since + d * n, origin, d, k + n)
            && (since % TICKS + d * n) % TICKS == (since + d * n) % TICKS
  {
    var n := (now - since) / d;
    DivMod(now - since, d);
    assert d * (k + n) == d * k + d * n;
    ModAdd(since, d * n);
  }

  lemma {:induction false} DivMod(e: nat, d: nat)
    requires d > 0
    ensures d * (e / d) <= e < d * (e / d) + d
    ensures 0 <= d * (e / d)
  {
  }

  lemma {:induction false} ModAdd(a: nat, b: nat)
    ensures (a % TICKS + b) % TICKS == (a + b) % TICKS
  {
    ModShift(a % TICKS + b, a / TICKS);
    assert a == TICKS * (a / TICKS) + a % TICKS;
  }

  lemma {:induction false} RearmInv(tm: Timers, t: nat)
    requires Inv(tm, Some(t)) && t in tm.timers && tm.timers[t].periodic
    ensures Running(tm, t) && Inv(Rearm(tm, t), Some(t))
  {
    assert Running(tm, t);
    RearmExact(tm, t);
    hide Remaining, Running, OnGrid, Elapsed;
    var tm' := Rearm(tm, t);
    assert Sorted(tm'.list, tm'.timers, tm.now) by {
      SortedFrame(tm'.list, tm.timers, tm'.timers, tm.now);
    }
    hide Sorted;
    forall x | x in tm'.timers && tm'.timers[x].active
      ensures Running(tm', x)
    {
      if x != t {
        RunningFrame(tm, tm', x);
      }
    }
  }

  /** Every running timer is looked at again before 2^32 ticks have passed since its start. */
  predicate TickAllowed(tm: Timers) {
    forall t :: t in tm.timers && tm.timers[t].active && t in tm.since ==> tm.now + 1 < tm.since[t] + TICKS
  }

  lemma {:induction false} RemainingTick(t: Timer, since: nat, now: nat)
    requires t.startTime == since % TICKS && since <= now && now + 1 < since + TICKS
    ensures Remaining(t, now + 1) == if Remaining(t, now) == 0 then 0 else Remaining(t, now) - 1
  {
    ElapsedIsTrue(t, since, now);
    ElapsedIsTrue(t, since, now + 1);
  }

  /** A tick keeps the list sorted, across wrap-around of the 32-bit counter. */
  lemma {:induction false} TickInv(tm: Timers, flight: Option<nat>)
    requires Inv(tm, flight) && TickAllowed(tm)
    ensures Inv(Tick(tm), flight)
  {
    var tm' := Tick(tm);
    forall i | 0 <= i < |tm.list|
      ensures var x := tm.timers[tm.list[i]];
              Remaining(x, tm.now + 1) == if Remaining(x, tm.now) == 0 then 0 else Remaining(x, tm.now) - 1
    {
      var t := tm.list[i];
      assert t in tm.list;
      assert Running(tm, t);
      RemainingTick(tm.timers[t], tm.since[t], tm.now);
    }
    hide Remaining, OnGrid;
    assert Sorted(tm'.list, tm'.timers, tm'.now);
    hide Sorted;
    forall t | t in tm'.timers && tm'.timers[t].active
      ensures Running(tm', t)
    {
      assert Running(tm, t);
    }
  }

  // ---------- Sleeping ----------

  /** furi_event_loop_get_timer_wait_time */
  function WaitTime(tm: Timers): nat
    requires tm.list != [] ==> tm.list[0] in tm.timers
  {
    if tm.list == [] then WAIT_FOREVER else Remaining(tm.timers[tm.list[0]], tm.now)
  }

  /** The wait of furi_event_loop_run for the timers' and the tick's wait time: a number of ticks, or
      no limit at all, because the kernel takes the largest tick value as portMAX_DELAY. */
  function Sleep(tm: Timers, tickWait: nat): Option<nat>
    requires tm.list != [] ==> tm.list[0] in tm.timers
  {
    var wait := if WaitTime(tm) < tickWait then WaitTime(tm) else tickWait;
    if wait == WAIT_FOREVER then None else Some(wait)
  }

  /** The true tick at which timer t is due, or now if that has passed. */
  function Due(tm: Timers, t: nat): nat
    requires t in tm.timers && t in tm.since
  {
    if tm.since[t] + tm.timers[t].interval < tm.now then tm.now else tm.since[t] + tm.timers[t].interval
  }

  /** A sleep that ends no later than any active timer is due. */
  ghost predicate InTime(tm: Timers, sleep: Option<nat>) {
    sleep.Some? && forall t :: t in tm.timers && tm.timers[t].active ==> t in tm.since && tm.now + sleep.value <= Due(tm, t)
  }

  /** The front timer was started in this very tick with the interval that means waiting for ever. */
  predicate Unending(tm: Timers)
    requires tm.list != [] && tm.list[0] in tm.timers
  {
    var f := tm.list[0];
    tm.timers[f].interval == WAIT_FOREVER && f in tm.since && tm.now == tm.since[f]
  }

  /** The wait time reaches exactly the front timer's deadline, and no active timer is due before that. */
  lemma {:induction false} WaitIsEarliest(tm: Timers, t: nat)
    requires Inv(tm, None) && t in tm.timers && tm.timers[t].active
    ensures tm.list != [] && tm.list[0] in tm.timers && tm.list[0] in tm.since && t in tm.since
    ensures tm.now + WaitTime(tm) == Due(tm, tm.list[0]) <= Due(tm, t)
    ensures WaitTime(tm) == WAIT_FOREVER <==> Unending(tm)
    ensures WaitTime(tm) <= WAIT_FOREVER
  {
    var f := tm.list[0];
    assert f in tm.list && t in tm.list;
    assert Running(tm, t) && Running(tm, f);
    ElapsedIsTrue(tm.timers[t], tm.since[t], tm.now);
    ElapsedIsTrue(tm.timers[f], tm.since[f], tm.now);
    var i :| 0 <= i < |tm.list| && tm.list[i] == t;
    assert Remaining(tm.timers[f], tm.now) <= Remaining(tm.timers[t], tm.now);
  }

  /** With an active timer the loop sleeps no longer than to the earliest deadline if and only if there
      is a tick to wake it or the front timer was not just started for 0xFFFFFFFF ticks. */
  lemma {:induction false} NeverOversleeps(tm: Timers, tickWait: nat)
    requires Inv(tm, None) && tm.list != [] && tickWait <= WAIT_FOREVER
    ensures tm.list[0] in tm.timers && tm.list[0] in tm.since
    ensures InTime(tm, Sleep(tm, tickWait)) <==> !(tickWait == WAIT_FOREVER && Unending(tm))
    ensures tickWait == WAIT_FOREVER && !Unending(tm) ==> Sleep(tm, tickWait) == Some(Due(tm, tm.list[0]) - tm.now)
  {
    assert tm.list[0] in tm.list;
    WaitIsEarliest(tm, tm.list[0]);
    forall t | t in tm.timers && tm.timers[t].active
      ensures t in tm.since && tm.now + WaitTime(tm) <= Due(tm, t)
    {
      WaitIsEarliest(tm, t);
    }
    hide Inv, WaitTime, Due, Unending;
  }

  /** The expiry test is true time passing the deadline. */
  lemma {:induction false} ExpiredIsDue(tm: Timers, t: nat)
    requires Running(tm, t)
    ensures Expired(tm.timers[t], tm.now) <==> tm.since[t] + tm.timers[t].interval <= tm.now
  {
    ElapsedIsTrue(tm.timers[t], tm.since[t], tm.now);
  }

  /** Re-arming a timer that is due moves its start by at least one interval. */
  lemma {:induction false} RearmAdvances(tm: Timers, t: nat)
    requires Running(tm, t) && tm.timers[t].periodic && tm.since[t] + tm.timers[t].interval <= tm.now
    ensures Rearm(tm, t).periods[t] > tm.periods[t]
  {
    ElapsedIsTrue(tm.timers[t], tm.since[t], tm.now);
    hide OnGrid, Elapsed;
    AtLeastOne(tm.now - tm.since[t], tm.timers[t].interval);
  }

  lemma {:induction false} AtLeastOne(e: nat, d: nat)
    requires 0 < d <= e
    ensures e / d >= 1
  {
    DivMod(e, d);
  }

  // ---------- Whole functions within one tick ----------

  /** The state after process_timer_queue has emptied the request queue. */
  ghost function Drained(tm: Timers): Timers
    requires Inv(tm, None)
    decreases |tm.queue|
  {
    if tm.queue == [] then tm
    else
      PopRequestInv(tm);
      var tm1 := PopRequest(tm);
      if PopStarts(tm) then
        ScheduleInv(tm1, tm.queue[0]);
        Drained(Schedule(tm1, tm.queue[0]))
      else Drained(tm1)
  }

  lemma {:induction false} DrainedStep(tm: Timers)
    requires Inv(tm, None) && tm.queue != [] && tm.queue[0] in tm.timers
    ensures var tm1 := PopRequest(tm);
            if PopStarts(tm) then
              && Inv(tm1, Some(tm.queue[0])) && tm.queue[0] in tm1.timers
              && Inv(Schedule(tm1, tm.queue[0]), None) && Drained(tm) == Drained(Schedule(tm1, tm.queue[0]))
            else Inv(tm1, None) && Drained(tm) == Drained(tm1)
  {
    PopRequestInv(tm);
    hide Inv, Unlink, Scheduled;
    if PopStarts(tm) {
      ScheduleInv(PopRequest(tm), tm.queue[0]);
    }
  }

  /** The state after an expired front timer was taken off, re-armed and scheduled again. */
  ghost function Fired(tm: Timers): Timers
    requires Inv(tm, None) && tm.list != []
  {
    ExpireInv(tm);
    var t, tm1 := tm.list[0], Expire(tm);
    if tm.timers[t].periodic then
      RearmInv(tm1, t);
      ScheduleInv(Rearm(tm1, t), t);
      Schedule(Rearm(tm1, t), t)
    else tm1
  }

  /** What an expired front timer's firing means: its deadline had passed; a periodic timer is listed again with a
      deadline ahead, a one-shot timer is idle. */
  lemma {:induction false} FiredFacts(tm: Timers)
    requires Inv(tm, None) && tm.list != []
    ensures var t := tm.list[0];
            && t in tm.timers && t in tm.since
            && (Expired(tm.timers[t], tm.now) <==> tm.since[t] + tm.timers[t].interval <= tm.now)
            && var tm' := Fired(tm);
               && t in tm'.timers && tm'.timers[t].periodic == tm.timers[t].periodic
               && (if tm'.timers[t].periodic
                   then && t in tm'.list && tm'.timers[t].active && t in tm'.since
                        && tm'.since[t] <= tm.now < tm'.since[t] + tm'.timers[t].interval
                   else t !in tm'.list && !tm'.timers[t].active)
  {
    var t := tm.list[0];
    assert t in tm.list;
    assert Running(tm, t);
    ExpiredIsDue(tm, t);
    ExpireInv(tm);
    if tm.timers[t].periodic {
      var tm1 := Expire(tm);
      assert Running(tm1, t);
      RearmExact(tm1, t);
      RearmInv(tm1, t);
      ListAllocated(Rearm(tm1, t), Some(t));
      hide Elapsed, Remaining, Running, Clocks, Requests, Members;
      ScheduledSorted(Rearm(tm1, t).list, Rearm(tm1, t).timers, tm.now, t);
      hide Scheduled, Sorted;
    } else {
      hide Clocks, Requests, Sorted;
    }
  }

  lemma {:induction false} PlaceUnique(list: seq<nat>, timers: map<nat, Timer>, now: nat, rem: nat, k: nat)
    requires forall i :: 0 <= i < |list| ==> list[i] in timers
    requires k <= |list| && (forall i :: k <= i < |list| ==> rem < Remaining(timers[list[i]], now))
    requires k > 0 ==> Remaining(timers[list[k - 1]], now) <= rem
    ensures k == Place(list, timers, now, rem)
  {
    hide Remaining;
  }

  lemma {:induction false} NotQueued(tm: Timers, t: nat)
    requires Inv(tm, None) && t in tm.timers && tm.timers[t].request == NoRequest
    ensures t !in tm.queue
  {
  }

  /** timer_start may store the next interval before it enqueues the request. */
  lemma {:induction false} NextIntervalFree(tm: Timers, t: nat, next: nat)
    requires Inv(tm, None) && t in tm.timers && next < TICKS && (tm.timers[t].periodic ==> next > 0)
    ensures Inv(tm.(timers := tm.timers[t := tm.timers[t].(nextInterval := next)]), None)
  {
    var tm' := tm.(timers := tm.timers[t := tm.timers[t].(nextInterval := next)]);
    hide Running;
    assert Sorted(tm'.list, tm'.timers, tm'.now) by {
      assert forall x :: x in tm.timers ==> Remaining(tm'.timers[x], tm.now) == Remaining(tm.timers[x], tm.now);
      hide Remaining;
    }
    hide Remaining, Sorted, NoDup;
    ClocksFrame(tm, tm');
    hide Clocks;
    assert Requests(tm');
    hide Requests;
    assert Members(tm', None);
  }

  lemma {:induction false} IntervalsFit(tm: Timers, t: nat)
    requires Inv(tm, None) && t in tm.timers
    ensures tm.timers[t].nextInterval < TICKS
  {
  }

  lemma {:induction false} ListAllocated(tm: Timers, flight: Option<nat>)
    requires Inv(tm, flight)
    ensures forall i :: 0 <= i < |tm.list| ==> tm.list[i] in tm.timers
    ensures flight.Some? ==> flight.value in tm.timers
  {
    hide Remaining;
  }

  /** timer_start: storing the interval and then enqueueing is one Enqueue with that interval. */
  lemma {:induction false} EnqueueTwice(tm: Timers, t: nat, next: nat)
    requires t in tm.timers
    ensures Enqueue(tm.(timers := tm.timers[t := tm.timers[t].(nextInterval := next)]), t, StartRequest, next)
         == Enqueue(tm, t, StartRequest, next)
  {
    hide Unlink;
    var tm' := tm.(timers := tm.timers[t := tm.timers[t].(nextInterval := next)]);
    assert Enqueue(tm', t, StartRequest, next).timers == Enqueue(tm, t, StartRequest, next).timers;
  }

  lemma {:induction false} QueueShrinks(tm: Timers)
    requires tm.queue != [] && tm.queue[0] in tm.timers
    ensures PopRequest(tm).queue == tm.queue[1..]
  {
    hide Unlink;
  }

  lemma {:induction false} DrainedEmpty(tm: Timers)
    requires Inv(tm, None) && tm.queue == []
    ensures Drained(tm) == tm
  {
    hide Inv;
  }

  lemma {:induction false} RearmFrom(tm: Timers)
    requires Inv(tm, None) && tm.list != [] && tm.list[0] in tm.timers && tm.timers[tm.list[0]].periodic
    ensures var t, tm1 := tm.list[0], Expire(tm);
            && t in tm1.timers && tm1.timers[t].interval > 0 && t in tm1.since && t in tm1.periods
            && Running(tm1, t) && Inv(Rearm(tm1, t), Some(t)) && tm1 == tm.(list := tm.list[1..])
  {
    ExpireInv(tm);
    RearmInv(Expire(tm), tm.list[0]);
    hide Inv, Elapsed, OnGrid;
  }
}
