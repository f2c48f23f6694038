/**
 What calls on timers, pended callbacks and stop requests mean for the later
 states of a run, and what the loop must do when work is due.
 */
module EventLoopTimerLaws {
  import opened Lists
  import opened EventLoop
  import opened EventLoopLaws
  import Items = EventLoopItems
  import Tm = EventLoopTimer

  // ---------- Time ----------

  lemma {:induction false} ClockStep(s: State, a: Action)
    requires Enabled(s, a)
    ensures Apply(s, a).tm.now == s.tm.now + if a == Other(Tick) then 1 else 0
  {
    match a
    case Loop(l) => LoopKeepsTimers(s, l);
    case Timer(m) => hide Unlink, Tm.Scheduled, Tm.Expired, Tm.Elapsed;
    case Api(c) => hide Unlink, Items.Subscribe, Items.Unsubscribe, Items.LevelOnSubscribe;
    case Other(e) => hide Items.LinkNotify, Tm.TickAllowed;
  }

  /** True time is the number of ticks: nothing else moves the clock. */
  lemma {:induction false} TimeIsTicks(ss: seq<State>, acts: seq<Action>, k: nat)
    requires IsRun(ss, acts) && k <= |acts|
    ensures ss[k].tm.now == ss[0].tm.now + Times(acts[0..k], Other(Tick))
    decreases k
  {
    hide Init, Enabled, Apply, Times;
    if k > 0 {
      TimeIsTicks(ss, acts, k - 1);
      StepOf(ss, acts, k - 1);
      ClockStep(ss[k - 1], acts[k - 1]);
      TimesNext(acts, 0, k - 1, Other(Tick));
    } else {
      NoTimes(acts[0..0]);
    }
  }

  // ---------- Requests ----------

  /** A call of start, stop or free on timer t. */
  predicate Asks(a: Action, t: nat) {
    a.Api? && (a.c.TimerStart? || a.c.TimerStop? || a.c.TimerFree?) && a.c.t == t
  }

  /** The loop takes timer t's request from the queue. */
  predicate Processes(s: State, a: Action, t: nat) {
    a == Timer(NextRequest) && TimerEnabled(s, NextRequest) && s.tm.queue != [] && s.tm.queue[0] == t
  }

  predicate Asked(s: State, t: nat, request: Tm.Request, interval: nat) {
    t in s.tm.timers && s.tm.timers[t].request == request && s.tm.timers[t].nextInterval == interval
  }

  /** The request that a call on timer t makes, and the interval it leaves for the next start. */
  lemma {:induction false} AskStep(s: State, a: Action, t: nat)
    requires Enabled(s, a) && Asks(a, t)
    ensures a.c.TimerStart? ==> Asked(Apply(s, a), t, Tm.StartRequest, a.c.interval)
    ensures a.c.TimerStop? ==> t in Apply(s, a).tm.timers && Apply(s, a).tm.timers[t].request == Tm.StopRequest
    ensures a.c.TimerFree? ==> t in Apply(s, a).tm.timers && Apply(s, a).tm.timers[t].request == Tm.FreeRequest
  {
    hide Unlink;
  }

  /** What a processed request does to its timer. */
  lemma {:induction false} ProcessStep(s: State, a: Action, t: nat)
    requires Inv(s) && Enabled(s, a) && Processes(s, a, t)
    ensures t in s.tm.timers && s.tm.timers[t].request != Tm.NoRequest
    ensures var timer, tm' := s.tm.timers[t], Apply(s, a).tm;
            && (timer.request == Tm.StartRequest ==> Started(tm', t, timer.nextInterval, s.tm.now))
            && (timer.request == Tm.StopRequest ==>
                  t in tm'.timers && !tm'.timers[t].active && tm'.timers[t].request == Tm.NoRequest)
            && (timer.request == Tm.FreeRequest ==> t !in tm'.timers)
  {
    hide ItemsInv, LevelsInv, PendingInv, WakeInv, Unlink, Tm.Sorted, Tm.Clocks, Tm.Requests;
    assert t in s.tm.queue;
    hide Tm.Members;
  }

  /** Timer t runs with the given interval since the given tick, with no request waiting. */
  predicate Started(tm: Tm.Timers, t: nat, interval: nat, tick: nat) {
    && t in tm.timers && tm.timers[t].active && tm.timers[t].interval == interval
    && tm.timers[t].request == Tm.NoRequest && tm.timers[t].startTime == tick % Tm.TICKS
    && t in tm.since && tm.since[t] == tick && t in tm.origin && tm.origin[t] == tick && t in tm.periods && tm.periods[t] == 0
  }

  /** Every other step leaves timer t's request, interval, kind and original start alone. */
  lemma {:induction false} TimerStep(s: State, a: Action, t: nat)
    requires Enabled(s, a) && t in s.tm.timers && t < s.tm.nextId && !Asks(a, t) && !Processes(s, a, t)
    ensures Untouched(s.tm, Apply(s, a).tm, t)
  {
    match a
    case Loop(l) => LoopKeepsTimers(s, l);
    case Timer(m) => UntouchedTimer(s, m, t);
    case Api(c) => UntouchedCall(s, c, t);
    case Other(e) => hide Items.LinkNotify, Tm.TickAllowed;
  }

  predicate Untouched(tm: Tm.Timers, tm': Tm.Timers, t: nat)
    requires t in tm.timers
  {
    && t in tm'.timers && tm'.timers[t].request == tm.timers[t].request
    && tm'.timers[t].nextInterval == tm.timers[t].nextInterval
    && tm'.timers[t].interval == tm.timers[t].interval && tm'.timers[t].periodic == tm.timers[t].periodic
    && (t in tm.origin ==> t in tm'.origin && tm'.origin[t] == tm.origin[t])
    && (tm'.timers[t].active ==> tm.timers[t].active)
  }

  lemma {:induction false} UntouchedTimer(s: State, m: TimerStep, t: nat)
    requires TimerEnabled(s, m) && t in s.tm.timers && !Processes(s, Timer(m), t)
    ensures Untouched(s.tm, ApplyTimer(s, m).tm, t)
  {
    hide Unlink, Tm.Scheduled, Tm.Expired, Tm.Elapsed;
  }

  lemma {:induction false} UntouchedCall(s: State, c: Call, t: nat)
    requires CallEnabled(s, c) && t in s.tm.timers && t < s.tm.nextId && !Asks(Api(c), t)
    ensures Untouched(s.tm, ApplyCall(s, c).tm, t)
  {
    hide Unlink, Items.Subscribe, Items.Unsubscribe, Items.LevelOnSubscribe;
  }

  /** A timer that was freed never comes back: identities are not used twice. */
  lemma {:induction false} GoneStep(s: State, a: Action, t: nat)
    requires Enabled(s, a) && t !in s.tm.timers && t < s.tm.nextId
    ensures t !in Apply(s, a).tm.timers && t < Apply(s, a).tm.nextId
  {
    match a
    case Loop(l) => LoopKeepsTimers(s, l);
    case Timer(m) => GoneTimer(s, m, t);
    case Api(c) => GoneCall(s, c, t);
    case Other(e) => hide Items.LinkNotify, Tm.TickAllowed;
  }

  lemma {:induction false} GoneTimer(s: State, m: TimerStep, t: nat)
    requires TimerEnabled(s, m) && t !in s.tm.timers
    ensures t !in ApplyTimer(s, m).tm.timers && ApplyTimer(s, m).tm.nextId == s.tm.nextId
  {
    hide Unlink, Tm.Scheduled, Tm.Expired, Tm.Elapsed;
  }

  lemma {:induction false} GoneCall(s: State, c: Call, t: nat)
    requires CallEnabled(s, c) && t !in s.tm.timers && t < s.tm.nextId
    ensures t !in ApplyCall(s, c).tm.timers && t < ApplyCall(s, c).tm.nextId
  {
    hide Unlink, Items.Subscribe, Items.Unsubscribe, Items.LevelOnSubscribe;
  }

  lemma {:induction false} Known(s: State, t: nat)
    requires Inv(s) && t in s.tm.timers
    ensures t < s.tm.nextId
  {
    hide ItemsInv, LevelsInv, PendingInv, WakeInv, Tm.Sorted, Tm.Clocks, Tm.Requests;
  }

  lemma {:induction false} IdsGrow(s: State, a: Action)
    requires Enabled(s, a)
    ensures s.tm.nextId <= Apply(s, a).tm.nextId
  {
    match a
    case Loop(l) => LoopKeepsTimers(s, l);
    case Timer(m) => hide Unlink, Tm.Scheduled, Tm.Expired, Tm.Elapsed;
    case Api(c) => hide Unlink, Items.Subscribe, Items.Unsubscribe, Items.LevelOnSubscribe;
    case Other(e) => hide Items.LinkNotify, Tm.TickAllowed;
  }

  /** After a call on timer t, and as long as there is no other: its request waits unchanged, or it was processed,
      or the timer is gone. */
  ghost predicate Waits(s: State, t: nat, timer: Tm.Timer) {
    && t < s.tm.nextId
    && (t in s.tm.timers ==>
          || s.tm.timers[t].request == Tm.NoRequest
          || (s.tm.timers[t].request == timer.request && s.tm.timers[t].nextInterval == timer.nextInterval))
  }

  lemma {:induction false} WaitsOn(ss: seq<State>, acts: seq<Action>, i: nat, k: nat, t: nat)
    requires IsRun(ss, acts) && i < k <= |acts| && Asks(acts[i], t) && t in ss[i + 1].tm.timers
    requires forall j :: i < j < k ==> !Asks(acts[j], t)
    ensures Waits(ss[k], t, ss[i + 1].tm.timers[t])
    decreases k
  {
    hide Init, Enabled, Apply, Inv, Asks, Processes;
    if k == i + 1 {
      RunKeepsInv(ss, acts, k);
      Known(ss[k], t);
    } else {
      var m := k - 1;
      WaitsOn(ss, acts, i, m, t);
      StepOf(ss, acts, m);
      RunKeepsInv(ss, acts, m);
      IdsGrow(ss[m], acts[m]);
      if t !in ss[m].tm.timers {
        GoneStep(ss[m], acts[m], t);
      } else if Processes(ss[m], acts[m], t) {
        ProcessStep(ss[m], acts[m], t);
      } else {
        TimerStep(ss[m], acts[m], t);
      }
    }
  }

  /** A start takes effect when it is processed: the timer then runs with the interval passed to the call, from
      that very tick. */
  lemma {:induction false} StartTakesEffect(ss: seq<State>, acts: seq<Action>, i: nat, j: nat, t: nat, interval: nat)
    requires IsRun(ss, acts) && i < j < |acts| && acts[i] == Api(TimerStart(t, interval)) && Processes(ss[j], acts[j], t)
    requires forall m :: i < m < j ==> !Asks(acts[m], t)
    ensures ProcessesStart(ss[j], acts[j], t) && Started(ss[j + 1].tm, t, interval, ss[j].tm.now)
  {
    RequestArrives(ss, acts, i, j, t);
    hide Init, Enabled, Apply, Inv, Started;
  }

  /** A stop takes effect when it is processed: the timer is idle then, and stays allocated. */
  lemma {:induction false} StopTakesEffect(ss: seq<State>, acts: seq<Action>, i: nat, j: nat, t: nat)
    requires IsRun(ss, acts) && i < j < |acts| && acts[i] == Api(TimerStop(t)) && Processes(ss[j], acts[j], t)
    requires forall m :: i < m < j ==> !Asks(acts[m], t)
    ensures t in ss[j + 1].tm.timers && !ss[j + 1].tm.timers[t].active && t !in ss[j + 1].tm.list
  {
    RequestArrives(ss, acts, i, j, t);
    RunKeepsInv(ss, acts, j + 1);
    hide Init, Enabled, Apply, ItemsInv, LevelsInv, PendingInv, WakeInv, Tm.Sorted, Tm.Clocks, Tm.Requests;
  }

  /** A free takes effect when it is processed: the timer is gone. */
  lemma {:induction false} FreeTakesEffect(ss: seq<State>, acts: seq<Action>, i: nat, j: nat, t: nat)
    requires IsRun(ss, acts) && i < j < |acts| && acts[i] == Api(TimerFree(t)) && Processes(ss[j], acts[j], t)
    requires forall m :: i < m < j ==> !Asks(acts[m], t)
    ensures t !in ss[j + 1].tm.timers
  {
    RequestArrives(ss, acts, i, j, t);
    hide Init, Enabled, Apply, Inv;
  }

  lemma {:induction false} RequestArrives(ss: seq<State>, acts: seq<Action>, i: nat, j: nat, t: nat)
    requires IsRun(ss, acts) && i < j < |acts| && Asks(acts[i], t) && Processes(ss[j], acts[j], t)
    requires forall m :: i < m < j ==> !Asks(acts[m], t)
    ensures t in ss[j].tm.timers
    ensures acts[i].c.TimerStart? ==>
              ss[j].tm.timers[t].request == Tm.StartRequest && Started(ss[j + 1].tm, t, acts[i].c.interval, ss[j].tm.now)
    ensures acts[i].c.TimerStop? ==> t in ss[j + 1].tm.timers && !ss[j + 1].tm.timers[t].active
    ensures acts[i].c.TimerFree? ==> t !in ss[j + 1].tm.timers
  {
    hide Init, Enabled, Apply, Inv, Started, Processes;
    StepOf(ss, acts, i);
    AskStep(ss[i], acts[i], t);
    WaitsOn(ss, acts, i, j, t);
    StepOf(ss, acts, j);
    RunKeepsInv(ss, acts, j);
    ProcessStep(ss[j], acts[j], t);
  }

  /** From a processed start on, and until the timer's next request is processed, it has that interval and that
      original start. */
  lemma {:induction false} StartStays(ss: seq<State>, acts: seq<Action>, j: nat, k: nat, t: nat, interval: nat, tick: nat)
    requires IsRun(ss, acts) && j < k <= |acts| && Started(ss[j + 1].tm, t, interval, tick)
    requires forall m :: j < m < k ==> !Processes(ss[m], acts[m], t)
    ensures t in ss[k].tm.timers && ss[k].tm.timers[t].interval == interval
    ensures t in ss[k].tm.origin && ss[k].tm.origin[t] == tick
    decreases k
  {
    hide Init, Enabled, Apply, Inv, Processes;
    if k > j + 1 {
      var m := k - 1;
      StartStays(ss, acts, j, m, t, interval, tick);
      StepOf(ss, acts, m);
      RunKeepsInv(ss, acts, m);
      Known(ss[m], t);
      if Asks(acts[m], t) {
        AskKeepsInterval(ss[m], acts[m], t);
      } else {
        TimerStep(ss[m], acts[m], t);
      }
    }
  }

  lemma {:induction false} AskKeepsInterval(s: State, a: Action, t: nat)
    requires Enabled(s, a) && Asks(a, t) && t in s.tm.timers
    ensures var tm, tm' := s.tm, Apply(s, a).tm;
            && t in tm'.timers && tm'.timers[t].interval == tm.timers[t].interval
            && tm'.timers[t].periodic == tm.timers[t].periodic && tm'.timers[t].active == tm.timers[t].active
            && tm'.origin == tm.origin
  {
    hide Tm.Enqueue;
    match a.c
    case TimerStart(_, d) => EnqueueKeeps(s.tm, t, Tm.StartRequest, d);
    case TimerStop(_) => EnqueueKeeps(s.tm, t, Tm.StopRequest, s.tm.timers[t].nextInterval);
    case TimerFree(_) => EnqueueKeeps(s.tm, t, Tm.FreeRequest, s.tm.timers[t].nextInterval);
  }

  lemma {:induction false} EnqueueKeeps(tm: Tm.Timers, t: nat, request: Tm.Request, next: nat)
    requires t in tm.timers
    ensures var tm' := Tm.Enqueue(tm, t, request, next);
            && t in tm'.timers && tm'.timers[t].interval == tm.timers[t].interval
            && tm'.timers[t].periodic == tm.timers[t].periodic && tm'.timers[t].active == tm.timers[t].active
            && tm'.origin == tm.origin
  {
    hide Unlink;
  }

  /** A callback begins no earlier than the interval passed to start after the tick in which the start was
      processed. */
  lemma {:induction false} FiresAfterInterval(ss: seq<State>, acts: seq<Action>, i: nat, j: nat, k: nat, t: nat, interval: nat)
    requires IsRun(ss, acts) && i < j < k < |acts| && acts[i] == Api(TimerStart(t, interval))
    requires Processes(ss[j], acts[j], t) && forall m :: i < m < j ==> !Asks(acts[m], t)
    requires forall m :: j < m < k ==> !Processes(ss[m], acts[m], t)
    requires Enabled(ss[k], acts[k]) && Fires(ss[k], acts[k], t)
    ensures ss[k].tm.now >= ss[j].tm.now + interval
  {
    StartTakesEffect(ss, acts, i, j, t, interval);
    FiresOnTime(ss, acts, k, t);
    StepOf(ss, acts, k);
    FiresInTimer(ss[k], acts[k], t);
    FireIsNoRequest(ss[k], acts[k], t);
    StartStays(ss, acts, j, k + 1, t, interval, ss[j].tm.now);
    hide Init, Enabled, Apply, Inv, Started, Processes, Fires;
    var tm := ss[k + 1].tm;
    if tm.timers[t].periodic {
      AtLeastOnce(tm.timers[t].interval, tm.periods[t]);
    }
  }

  lemma {:induction false} AtLeastOnce(d: nat, n: nat)
    requires n > 0
    ensures d * n >= d
  {
    assert d * n == d + d * (n - 1);
  }

  lemma {:induction false} FireIsNoRequest(s: State, a: Action, t: nat)
    requires Enabled(s, a) && Fires(s, a, t) && a.Timer?
    ensures !Processes(s, a, t) && Apply(s, a).tm.now == s.tm.now
  {
    hide Unlink, Tm.Scheduled, Tm.Expired, Tm.Elapsed;
  }

  // ---------- Kinds ----------

  /** A timer is idle when allocated, and of the kind asked for as long as it lives. */
  lemma {:induction false} KindAsAllocated(ss: seq<State>, acts: seq<Action>, i: nat, k: nat, periodic: bool)
    requires IsRun(ss, acts) && i < k <= |acts| && acts[i] == Api(TimerAlloc(periodic))
    ensures var t := ss[i].tm.nextId;
            && t < ss[k].tm.nextId
            && (k == i + 1 ==> t in ss[k].tm.timers && !ss[k].tm.timers[t].active)
            && (t in ss[k].tm.timers ==> ss[k].tm.timers[t].periodic == periodic)
    decreases k
  {
    hide Init, Enabled, Apply, Inv, Processes, Asks;
    var t, m := ss[i].tm.nextId, k - 1;
    StepOf(ss, acts, m);
    if m == i {
      AllocStep(ss[i], periodic);
    } else {
      KindAsAllocated(ss, acts, i, m, periodic);
      RunKeepsInv(ss, acts, m);
      IdsGrow(ss[m], acts[m]);
      KindStep(ss[m], acts[m], t);
    }
  }

  lemma {:induction false} AllocStep(s: State, periodic: bool)
    requires Enabled(s, Api(TimerAlloc(periodic)))
    ensures var tm' := Apply(s, Api(TimerAlloc(periodic))).tm;
            && s.tm.nextId < tm'.nextId && s.tm.nextId in tm'.timers
            && !tm'.timers[s.tm.nextId].active && tm'.timers[s.tm.nextId].periodic == periodic
  {
  }

  lemma {:induction false} KindStep(s: State, a: Action, t: nat)
    requires Inv(s) && Enabled(s, a) && t < s.tm.nextId
    ensures t in Apply(s, a).tm.timers ==> t in s.tm.timers && Apply(s, a).tm.timers[t].periodic == s.tm.timers[t].periodic
  {
    hide Inv;
    if t !in s.tm.timers {
      GoneStep(s, a, t);
    } else if Asks(a, t) {
      AskKeepsInterval(s, a, t);
    } else if Processes(s, a, t) {
      ProcessKeepsKind(s, a, t);
    } else {
      TimerStep(s, a, t);
    }
  }

  lemma {:induction false} ProcessKeepsKind(s: State, a: Action, t: nat)
    requires Enabled(s, a) && Processes(s, a, t)
    ensures t in Apply(s, a).tm.timers ==> Apply(s, a).tm.timers[t].periodic == s.tm.timers[t].periodic
    ensures t in Apply(s, a).tm.timers && Apply(s, a).tm.timers[t].active ==>
              ProcessesStart(s, a, t) || s.tm.timers[t].request == Tm.NoRequest
  {
    hide Unlink;
  }

  // ---------- Idle timers ----------

  /** Timer t is not running: idle, or gone. */
  predicate Idle(s: State, t: nat) {
    t < s.tm.nextId && (t in s.tm.timers ==> !s.tm.timers[t].active)
  }

  lemma {:induction false} IdleStep(s: State, a: Action, t: nat)
    requires Inv(s) && Enabled(s, a) && Idle(s, t) && !ProcessesStart(s, a, t)
    ensures Idle(Apply(s, a), t)
  {
    IdsGrow(s, a);
    if t !in s.tm.timers {
      GoneStep(s, a, t);
    } else if Asks(a, t) {
      AskKeepsInterval(s, a, t);
    } else if Processes(s, a, t) {
      ProcessStep(s, a, t);
      hide Inv, Enabled, Apply;
      ProcessKeepsKind(s, a, t);
    } else {
      hide Inv, Apply;
      TimerStep(s, a, t);
    }
  }

  lemma {:induction false} FiringRuns(s: State, a: Action, t: nat)
    requires Inv(s) && Enabled(s, a) && Fires(s, a, t)
    ensures t in s.tm.timers && s.tm.timers[t].active
  {
    FiresInTimer(s, a, t);
    hide ItemsInv, LevelsInv, PendingInv, WakeInv, Unlink, Tm.Scheduled, Tm.Sorted, Tm.Clocks, Tm.Requests, Tm.Elapsed;
    if a.m.CheckExpired? {
      assert t in s.tm.list;
    } else {
      assert Flight(s.pc) == Some(t);
    }
  }

  /** A timer that is idle, in particular one whose stop or free was processed, does not fire before a start of it is
      processed. */
  lemma {:induction false} IdleStaysSilent(ss: seq<State>, acts: seq<Action>, i: nat, k: nat, t: nat)
    requires IsRun(ss, acts) && i <= k < |acts| && Idle(ss[i], t)
    requires forall m :: i <= m < k ==> !ProcessesStart(ss[m], acts[m], t)
    ensures Idle(ss[k], t) && Enabled(ss[k], acts[k]) && !Fires(ss[k], acts[k], t)
    decreases k
  {
    hide Init, Enabled, Apply, Inv, ProcessesStart, Fires;
    if k > i {
      IdleStaysSilent(ss, acts, i, k - 1, t);
      StepOf(ss, acts, k - 1);
      RunKeepsInv(ss, acts, k - 1);
      IdleStep(ss[k - 1], acts[k - 1], t);
    }
    StepOf(ss, acts, k);
    RunKeepsInv(ss, acts, k);
    if Fires(ss[k], acts[k], t) {
      FiringRuns(ss[k], acts[k], t);
    }
  }

  /** A one-shot timer fires at most once for every processed start. */
  lemma {:induction false} OneShotFiresOnce(ss: seq<State>, acts: seq<Action>, i: nat, k: nat, t: nat)
    requires IsRun(ss, acts) && i < k < |acts| && acts[i] == Timer(CheckExpired)
    requires Enabled(ss[i], acts[i]) && Fires(ss[i], acts[i], t)
    requires forall m :: i < m < k ==> !ProcessesStart(ss[m], acts[m], t)
    ensures Enabled(ss[k], acts[k]) && !Fires(ss[k], acts[k], t)
  {
    StepOf(ss, acts, i);
    RunKeepsInv(ss, acts, i);
    FiringRuns(ss[i], acts[i], t);
    Known(ss[i], t);
    assert Idle(ss[i + 1], t) by {
      hide Unlink, Tm.Scheduled, Tm.Elapsed, Inv;
    }
    IdleStaysSilent(ss, acts, i + 1, k, t);
  }

  // ---------- Due timers ----------

  /** The loop is on its way to timer t's callback. */
  predicate Firing(s: State, t: nat) {
    s.pc == Rearming(t) || s.pc == Scheduling(t, true)
  }

  lemma {:induction false} FiringStep(s: State, a: Action, t: nat)
    requires Enabled(s, a) && Firing(s, t)
    ensures Firing(Apply(s, a), t) || Apply(s, a).pc == TimerCallback(t)
    ensures a.Other? ==> Apply(s, a).pc == s.pc
    ensures !a.Other? ==> a.Timer? && Apply(s, a).pc == if s.pc.Rearming? then Scheduling(t, true) else TimerCallback(t)
  {
    hide Unlink, Tm.Scheduled, Tm.Elapsed, Items.LinkNotify, Tm.TickAllowed, Items.Subscribe, Items.Unsubscribe;
  }

  /** When the loop looks for expired timers and the front one's true deadline has passed, that timer fires: the
      loop goes to its callback, at once or after re-arming it, and nowhere else before. */
  lemma {:induction false} DueTimerFires(ss: seq<State>, acts: seq<Action>, i: nat, k: nat)
    requires IsRun(ss, acts) && i < k <= |acts| && acts[i] == Timer(CheckExpired) && ss[i].tm.list != []
    ensures var f := ss[i].tm.list[0];
            && f in ss[i].tm.timers && f in ss[i].tm.since
            && if ss[i].tm.since[f] + ss[i].tm.timers[f].interval <= ss[i].tm.now
               then Firing(ss[k], f) || exists j :: i < j <= k && ss[j].pc == TimerCallback(f)
               else ss[i + 1].pc == TickCallback
  {
    hide Init, Inv, Firing, Enabled, Apply;
    StepOf(ss, acts, i);
    RunKeepsInv(ss, acts, i);
    ExpiryStep(ss[i]);
    var f := ss[i].tm.list[0];
    if ss[i].tm.since[f] + ss[i].tm.timers[f].interval <= ss[i].tm.now && Firing(ss[i + 1], f) {
      FiringLeads(ss, acts, i + 1, k, f);
    }
  }

  lemma {:induction false} FiringLeads(ss: seq<State>, acts: seq<Action>, i: nat, k: nat, t: nat)
    requires IsRun(ss, acts) && i <= k <= |acts| && Firing(ss[i], t)
    ensures Firing(ss[k], t) || exists j :: i < j <= k && ss[j].pc == TimerCallback(t)
    decreases k
  {
    hide Init, Enabled, Apply, Firing;
    if k > i {
      FiringLeads(ss, acts, i, k - 1, t);
      if Firing(ss[k - 1], t) {
        StepOf(ss, acts, k - 1);
        FiringStep(ss[k - 1], acts[k - 1], t);
      }
    }
  }

  lemma {:induction false} ExpiryStep(s: State)
    requires Inv(s) && Enabled(s, Timer(CheckExpired)) && s.tm.list != []
    ensures var f, s' := s.tm.list[0], Apply(s, Timer(CheckExpired));
            && f in s.tm.timers && f in s.tm.since
            && if s.tm.since[f] + s.tm.timers[f].interval <= s.tm.now then Firing(s', f) || s'.pc == TimerCallback(f)
               else s'.pc == TickCallback
  {
    hide ItemsInv, LevelsInv, PendingInv, WakeInv;
    FrontRuns(s.tm);
    hide Tm.Inv, Tm.Expired, Tm.Elapsed;
  }

  // ---------- Pended callbacks ----------

  /** The callbacks pended by the given actions, in order. */
  function Pends(acts: seq<Action>): seq<nat> {
    if acts == [] then []
    else
      var a := acts[|acts| - 1];
      Pends(acts[..|acts| - 1]) + if a.Api? && a.c.Pend? then [a.c.callback] else []
  }

  lemma {:induction false} PendStep(s: State, a: Action)
    requires Enabled(s, a)
    ensures Apply(s, a).pend.pended == s.pend.pended + if a.Api? && a.c.Pend? then [a.c.callback] else []
    ensures |Apply(s, a).pend.ran| > |s.pend.ran| ==> Apply(s, a).pc == PendingCallback && s.pc == PendingTop
  {
    match a
    case Loop(l) => hide Items.Level;
    case Timer(m) => hide Unlink, Tm.Scheduled, Tm.Expired, Tm.Elapsed, Tm.PopRequest, Tm.Rearm, Tm.Expire;
    case Api(c) => hide Unlink, Items.Subscribe, Items.Unsubscribe, Items.LevelOnSubscribe, Tm.Enqueue;
    case Other(e) => hide Items.LinkNotify, Tm.TickAllowed;
  }

  lemma {:induction false} PendedAreCalls(ss: seq<State>, acts: seq<Action>, k: nat)
    requires IsRun(ss, acts) && k <= |acts|
    ensures ss[k].pend.pended == Pends(acts[..k])
    decreases k
  {
    hide Enabled, Apply;
    if k > 0 {
      hide Init;
      PendedAreCalls(ss, acts, k - 1);
      StepOf(ss, acts, k - 1);
      PendStep(ss[k - 1], acts[k - 1]);
      assert acts[..k][..k - 1] == acts[..k - 1];
    }
  }

  /** The callbacks begun so far are the first ones passed to pend, in that order; and all of them once the loop waits
      without the Pending bit. */
  lemma {:induction false} PendedBeginInOrder(ss: seq<State>, acts: seq<Action>, k: nat)
    requires IsRun(ss, acts) && k <= |acts|
    ensures ss[k].pend.ran <= Pends(acts[..k])
    ensures ss[k].pc.Top? && !ss[k].bits.pending ==> ss[k].pend.ran == Pends(acts[..k])
  {
    PendedAreCalls(ss, acts, k);
    PendedRunInOrder(ss, acts, k);
  }

  // ---------- Stopping ----------

  lemma {:induction false} StopStep(s: State, a: Action)
    requires Enabled(s, a)
    ensures s.bits.stop || s.pc.Stopped? ==> Apply(s, a).bits.stop || Apply(s, a).pc.Stopped?
    ensures s.bits.stop && a == Loop(Wake) ==> Apply(s, a).pc.Stopped?
    ensures Apply(s, a).bits.stop || Apply(s, a).saved.stop || Apply(s, a).pc.Stopped? ==>
              s.bits.stop || s.saved.stop || s.pc.Stopped? || a == Other(RequestStop)
  {
    match a
    case Loop(l) => StopLoop(s, l);
    case Timer(m) => hide Unlink, Tm.Scheduled, Tm.Expired, Tm.Elapsed, Tm.PopRequest, Tm.Rearm, Tm.Expire;
    case Api(c) => StopCall(s, c);
    case Other(e) => hide Items.LinkNotify, Tm.TickAllowed;
  }

  lemma {:induction false} StopLoop(s: State, l: LoopStep)
    requires LoopEnabled(s, l)
    ensures s.bits.stop ==> ApplyLoop(s, l).bits.stop || ApplyLoop(s, l).pc.Stopped?
    ensures s.bits.stop && l == Wake ==> ApplyLoop(s, l).pc.Stopped?
    ensures ApplyLoop(s, l).bits.stop || ApplyLoop(s, l).saved.stop || ApplyLoop(s, l).pc.Stopped? ==>
              s.bits.stop || s.saved.stop || s.pc.Stopped?
    ensures !s.pc.Stopped?
  {
    hide Items.Level;
    if l.Wake? {
      assert ApplyLoop(s, l) == Dispatch(s);
    } else {
      hide Dispatch;
    }
  }

  lemma {:induction false} StopCall(s: State, c: Call)
    requires CallEnabled(s, c)
    ensures ApplyCall(s, c).bits.stop == s.bits.stop && ApplyCall(s, c).saved == s.saved && ApplyCall(s, c).pc == s.pc
  {
    hide Unlink, Items.Subscribe, Items.Unsubscribe, Items.LevelOnSubscribe, Tm.Enqueue;
  }

  /** A stop request is never lost, and the next wake-up obeys it before any other work. */
  lemma {:induction false} StopIsObeyed(ss: seq<State>, acts: seq<Action>, i: nat, k: nat)
    requires IsRun(ss, acts) && i < k <= |acts| && acts[i] == Other(RequestStop)
    ensures ss[k].bits.stop || ss[k].pc.Stopped?
    ensures k < |acts| && acts[k] == Loop(Wake) ==> ss[k + 1].pc.Stopped?
    decreases k
  {
    hide Init, Enabled, Apply;
    StepOf(ss, acts, k - 1);
    if k - 1 == i {
      StopRequested(ss[i]);
    } else {
      StopIsObeyed(ss, acts, i, k - 1);
      StopStep(ss[k - 1], acts[k - 1]);
    }
    if k < |acts| {
      StepOf(ss, acts, k);
      StopStep(ss[k], acts[k]);
      if acts[k] == Loop(Wake) {
        WakesAtTop(ss[k]);
      }
    }
  }

  lemma {:induction false} StopRequested(s: State)
    ensures Apply(s, Other(RequestStop)).bits.stop
  {
  }

  lemma {:induction false} WakesAtTop(s: State)
    requires Enabled(s, Loop(Wake))
    ensures s.pc.Top?
  {
  }

  /** The loop stops only when it was asked to. */
  lemma {:induction false} StopsOnlyOnRequest(ss: seq<State>, acts: seq<Action>, k: nat)
    requires IsRun(ss, acts) && k <= |acts| && (ss[k].bits.stop || ss[k].saved.stop || ss[k].pc.Stopped?)
    ensures exists i :: 0 <= i < k && acts[i] == Other(RequestStop)
    decreases k
  {
    hide Enabled, Apply;
    if k > 0 {
      hide Init;
      StepOf(ss, acts, k - 1);
      StopStep(ss[k - 1], acts[k - 1]);
      if acts[k - 1] != Other(RequestStop) {
        StopsOnlyOnRequest(ss, acts, k - 1);
      }
    }
  }

  // ---------- What comes first ----------

  /** At a wake-up without a stop request: a waiting item is served before anything else; without Event, a timer request
      before pended callbacks; and expired timers only when no work of these kinds waits. */
  lemma {:induction false} WorkInOrder(ss: seq<State>, acts: seq<Action>, k: nat)
    requires IsRun(ss, acts) && k < |acts| && ss[k].pc.Top? && !ss[k].bits.stop
    ensures acts[k] == Loop(Wake) && ss[k].sub.waiting != [] ==> ss[k + 1].pc == Popping
    ensures acts[k] == Loop(Wake) && !ss[k].bits.event && ss[k].tm.queue != [] ==> ss[k + 1].pc == TimerQueue
    ensures acts[k] == Loop(Wake) && !ss[k].bits.event && !ss[k].bits.timer && ss[k].pend.queue != [] ==>
              ss[k + 1].pc == PendingTop
    ensures acts[k] == Loop(TimeOut) ==>
              && ss[k + 1].pc == Expiring
              && ss[k].sub.waiting == [] && ss[k].tm.queue == [] && ss[k].pend.queue == []
  {
    NoLostWakeup(ss, acts, k);
    StepOf(ss, acts, k);
  }

  // ---------- Queues are queues ----------

  lemma {:induction false} WaitingStep(s: State, a: Action)
    requires Inv(s) && Enabled(s, a)
    ensures Queued(s.sub.waiting, Apply(s, a).sub.waiting)
  {
    hide LevelsInv, TimersInv, PendingInv, WakeInv, Queued;
    var w := s.sub.waiting;
    assert NoDup(w);
    QueuedSame(w);
    match a
    case Loop(l) => WaitingLoop(s, l);
    case Timer(m) => TimerKeepsItems(s, m);
    case Api(c) => WaitingCall(s, c);
    case Other(e) => WaitingOutside(s, e);
  }

  lemma {:induction false} WaitingLoop(s: State, l: LoopStep)
    requires LoopEnabled(s, l) && NoDup(s.sub.waiting)
    ensures Queued(s.sub.waiting, ApplyLoop(s, l).sub.waiting)
  {
    hide Queued, NoDup, Items.Level;
    var w := s.sub.waiting;
    QueuedSame(w);
    if l.PopItem? && w != [] {
      QueuedPop(w);
    } else if l.PushItem? {
      QueuedAppend(w, s.pc.item);
    }
  }

  lemma {:induction false} WaitingCall(s: State, c: Call)
    requires CallEnabled(s, c) && NoDup(s.sub.waiting)
    ensures Queued(s.sub.waiting, ApplyCall(s, c).sub.waiting)
  {
    hide Queued, NoDup, Unlink, Tm.Enqueue;
    var w := s.sub.waiting;
    QueuedSame(w);
    if c.Subscribe? {
      QueuedAppend(w, s.sub.nextId);
    } else if c.Unsubscribe? {
      QueuedUnlink(w, s.sub.tree[c.o]);
    }
  }

  lemma {:induction false} WaitingOutside(s: State, e: Outside)
    requires OutsideEnabled(s, e)
    ensures Queued(s.sub.waiting, ApplyOutside(s, e).sub.waiting)
  {
    hide Queued, Tm.TickAllowed;
    var w := s.sub.waiting;
    QueuedSame(w);
    if e.LinkNotify? && Items.Slot(s.sub.queues[e.o], e.d).Some? {
      QueuedAppend(w, Items.Slot(s.sub.queues[e.o], e.d).value);
    }
  }

  /** Items are served first come, first served: in every step of a run, waiting items keep their order and new ones go
      to the back. */
  lemma {:induction false} ItemsQueue(ss: seq<State>, acts: seq<Action>, k: nat)
    requires IsRun(ss, acts) && k < |acts|
    ensures Queued(ss[k].sub.waiting, ss[k + 1].sub.waiting)
  {
    hide Init, Enabled, Apply, Inv, Queued;
    StepOf(ss, acts, k);
    RunKeepsInv(ss, acts, k);
    WaitingStep(ss[k], acts[k]);
  }

  /** Timer requests are processed in the order of the calls: a call puts its timer behind all others, and otherwise the
      queue keeps its order. */
  lemma {:induction false} RequestsQueue(ss: seq<State>, acts: seq<Action>, k: nat)
    requires IsRun(ss, acts) && k < |acts|
    ensures forall t :: Asks(acts[k], t) ==>
              ss[k + 1].tm.queue == Unlink(ss[k].tm.queue, t) + [t] && Queued(ss[k].tm.queue, Unlink(ss[k].tm.queue, t))
    ensures (forall t :: !Asks(acts[k], t)) ==> Queued(ss[k].tm.queue, ss[k + 1].tm.queue)
  {
    StepOf(ss, acts, k);
    RunKeepsInv(ss, acts, k);
    hide IsRun;
    RequestStep(ss[k], acts[k]);
  }

  lemma {:induction false} RequestStep(s: State, a: Action)
    requires Inv(s) && Enabled(s, a)
    ensures forall t :: Asks(a, t) ==>
              Apply(s, a).tm.queue == Unlink(s.tm.queue, t) + [t] && Queued(s.tm.queue, Unlink(s.tm.queue, t))
    ensures (forall t :: !Asks(a, t)) ==> Queued(s.tm.queue, Apply(s, a).tm.queue)
  {
    hide ItemsInv, LevelsInv, PendingInv, WakeInv, Queued, Unlink;
    var q := s.tm.queue;
    assert NoDup(q);
    QueuedSame(q);
    hide TimersInv, NoDup;
    match a
    case Loop(l) => LoopKeepsTimers(s, l);
    case Timer(m) =>
      if q != [] {
        QueuedPop(q);
      }
      hide Tm.Scheduled, Tm.Expired, Tm.Elapsed;
    case Api(c) =>
      if c.TimerStart? || c.TimerStop? || c.TimerFree? {
        QueuedUnlink(q, c.t);
        assert Asks(a, c.t);
      }
      hide Items.Subscribe, Items.Unsubscribe, Items.LevelOnSubscribe;
    case Other(e) => hide Items.LinkNotify, Tm.TickAllowed;
  }
}
