/**
 Particular runs of the event loop: where the code falls short of what a caller
 may expect, a run that shows it, and the exact condition over all runs.
 */
module EventLoopRuns {
  import opened Lists
  import opened EventLoop
  import Items = EventLoopItems
  import Tm = EventLoopTimer

  // ---------- Building runs ----------

  /** A fresh loop at tick 0 with one empty queue, object 0, of the given capacity. */
  function Fresh(capacity: nat): State {
    State(Items.Subs(map[0 := Items.Queue(0, capacity, None, None)], map[], map[], [], multiset{}, 0, multiset{}),
          Tm.NO_TIMERS, Pending([], [], []), NONE, NONE, Setup)
  }

  lemma {:induction false} FreshRun(capacity: nat)
    ensures IsRun([Fresh(capacity)], [])
  {
  }

  /** A run goes on with any enabled action. */
  lemma {:induction false} Continue(ss: seq<State>, acts: seq<Action>, a: Action)
    requires IsRun(ss, acts) && Enabled(ss[|acts|], a)
    ensures IsRun(ss + [Apply(ss[|acts|], a)], acts + [a])
  {
    hide Init, Enabled, Apply;
    var ss', acts' := ss + [Apply(ss[|acts|], a)], acts + [a];
    forall k | 0 <= k < |acts'|
      ensures Enabled(ss'[k], acts'[k]) && ss'[k + 1] == Apply(ss'[k], acts'[k])
    {
      if k < |acts| {
        assert ss'[k] == ss[k] && ss'[k + 1] == ss[k + 1] && acts'[k] == acts[k];
      }
    }
  }

  /** State s is reached by a run with the given actions. */
  ghost predicate Reaches(acts: seq<Action>, s: State) {
    exists ss: seq<State> :: IsRun(ss, acts) && ss[|acts|] == s
  }

  lemma {:induction false} ReachNext(acts: seq<Action>, s: State, a: Action, acts': seq<Action>, s': State)
    requires Reaches(acts, s) && Enabled(s, a) && acts' == acts + [a] && s' == Apply(s, a)
    ensures Reaches(acts', s')
  {
    hide Init, Enabled, Apply;
    var ss: seq<State> :| IsRun(ss, acts) && ss[|acts|] == s;
    Continue(ss, acts, a);
    var ss' := ss + [Apply(s, a)];
    assert IsRun(ss', acts + [a]) && ss'[|acts + [a]|] == Apply(s, a);
  }

  lemma {:induction false} ReachFresh(capacity: nat)
    ensures Reaches([], Fresh(capacity))
  {
    FreshRun(capacity);
    var ss := [Fresh(capacity)];
    assert IsRun(ss, []) && ss[0] == Fresh(capacity);
  }

  // ---------- A sleep without end ----------

  /** The loop with timer 0 as given, at tick 0; once started its true start is 0. */
  function OneTimer(timer: Tm.Timer, list: seq<nat>, queue: seq<nat>, bits: Flags, pc: PC): State {
    var start := if timer.active then map[0 := 0] else map[];
    Fresh(0).(tm := Tm.Timers(map[0 := timer], list, queue, 1, 0, start, start, start, {}), bits := bits, pc := pc)
  }

  const UNUSED := Tm.Timer(false, 0, 0, 0, Tm.NoRequest, false)
  const ASKED := Tm.Timer(false, 0, 0, Tm.WAIT_FOREVER, Tm.StartRequest, false)
  const STARTED := Tm.Timer(false, Tm.WAIT_FOREVER, 0, Tm.WAIT_FOREVER, Tm.NoRequest, true)
  const TIMER_BIT := NONE.(timer := true)
  const START_FOR_EVER := [Api(TimerAlloc(false)), Api(TimerStart(0, Tm.WAIT_FOREVER)), Loop(Run)]
  const PROCESS_START := [Loop(Wake), Timer(NextRequest), Timer(ScheduleTimer), Timer(NextRequest), Loop(Restore)]

  lemma {:induction false} AskForEver()
    ensures Reaches(START_FOR_EVER, OneTimer(ASKED, [], [0], TIMER_BIT, Top))
  {
    hide Reaches;
    var a1, a2 := Api(TimerAlloc(false)), Api(TimerStart(0, Tm.WAIT_FOREVER));
    var s1, s2 := OneTimer(UNUSED, [], [], NONE, Setup), OneTimer(ASKED, [], [0], TIMER_BIT, Setup);
    ReachFresh(0);
    ReachNext([], Fresh(0), a1, [a1], s1);
    assert Apply(s1, a2).tm.timers == s2.tm.timers && Apply(s1, a2).tm.queue == [0];
    ReachNext([a1], s1, a2, [a1, a2], s2);
    ReachNext([a1, a2], s2, Loop(Run), START_FOR_EVER, OneTimer(ASKED, [], [0], TIMER_BIT, Top));
  }

  lemma {:induction false} TakeRequest()
    ensures var s := OneTimer(ASKED, [], [0], NONE, TimerQueue);
            Enabled(s, Timer(NextRequest)) && Apply(s, Timer(NextRequest)) == OneTimer(STARTED, [], [], NONE, Scheduling(0, false))
  {
    var s := OneTimer(ASKED, [], [0], NONE, TimerQueue);
    assert Tm.PopRequest(s.tm) == OneTimer(STARTED, [], [], NONE, Scheduling(0, false)).tm;
  }

  lemma {:induction false} PlaceTimer()
    ensures var s := OneTimer(STARTED, [], [], NONE, Scheduling(0, false));
            Enabled(s, Timer(ScheduleTimer)) && Apply(s, Timer(ScheduleTimer)) == OneTimer(STARTED, [0], [], NONE, TimerQueue)
  {
    var s := OneTimer(STARTED, [], [], NONE, Scheduling(0, false));
    assert Tm.Scheduled(s.tm.list, s.tm.timers, s.tm.now, 0) == [0];
  }

  /** A one-shot timer started for 0xFFFFFFFF ticks, in a loop without tick callback: the loop waits with no
      bit set and no limit, although the timer is due at tick 0xFFFFFFFF. */
  lemma {:induction false} SleepsForEver()
    ensures var s := OneTimer(STARTED, [0], [], NONE, Top);
            && Reaches(START_FOR_EVER + PROCESS_START, s)
            && s.tm.timers[0].active && s.tm.since[0] + s.tm.timers[0].interval == 0xFFFF_FFFF
            && Tm.Sleep(s.tm, Tm.WAIT_FOREVER) == None && !Tm.InTime(s.tm, Tm.Sleep(s.tm, Tm.WAIT_FOREVER))
  {
    hide Reaches;
    var acts := START_FOR_EVER;
    AskForEver();
    TakeRequest();
    PlaceTimer();
    var s3, s4 := OneTimer(ASKED, [], [0], TIMER_BIT, Top), OneTimer(ASKED, [], [0], NONE, TimerQueue);
    var s5, s6 := OneTimer(STARTED, [], [], NONE, Scheduling(0, false)), OneTimer(STARTED, [0], [], NONE, TimerQueue);
    ReachNext(acts, s3, Loop(Wake), acts + PROCESS_START[..1], s4);
    hide Enabled, Apply;
    ReachNext(acts + PROCESS_START[..1], s4, Timer(NextRequest), acts + PROCESS_START[..2], s5);
    ReachNext(acts + PROCESS_START[..2], s5, Timer(ScheduleTimer), acts + PROCESS_START[..3], s6);
    BackToTop(acts + PROCESS_START[..3]);
    assert acts + PROCESS_START[..3] + [Timer(NextRequest)] + [Loop(Restore)] == acts + PROCESS_START;
  }

  lemma {:induction false} BackToTop(acts: seq<Action>)
    requires Reaches(acts, OneTimer(STARTED, [0], [], NONE, TimerQueue))
    ensures Reaches(acts + [Timer(NextRequest)] + [Loop(Restore)], OneTimer(STARTED, [0], [], NONE, Top))
  {
    hide Reaches;
    var s, s1 := OneTimer(STARTED, [0], [], NONE, TimerQueue), OneTimer(STARTED, [0], [], NONE, Restoring);
    ReachNext(acts, s, Timer(NextRequest), acts + [Timer(NextRequest)], s1);
    ReachNext(acts + [Timer(NextRequest)], s1, Loop(Restore), acts + [Timer(NextRequest)] + [Loop(Restore)],
              OneTimer(STARTED, [0], [], NONE, Top));
  }

  // ---------- Thread flags ----------

  /** The thread-flag bit is set, or saved to be set again. */
  predicate FlagKept(s: State) {
    s.bits.thread || s.saved.thread
  }

  /** A wake-up that begins the thread-flag callback. */
  predicate FlagHeard(s: State, a: Action) {
    a == Loop(Wake) && LoopEnabled(s, Wake) && Dispatch(s).pc == ThreadCallback
  }

  /** A wake-up that takes the thread-flag bit together with Pending and without Stop, Event or Timer. */
  predicate FlagTaken(s: State, a: Action) {
    && a == Loop(Wake) && s.pc.Top?
    && s.bits.thread && s.bits.pending && !s.bits.event && !s.bits.timer && !s.bits.stop
  }

  lemma {:induction false} FlagWake(s: State)
    requires WakeInv(s) && LoopEnabled(s, Wake) && !Dispatch(s).pc.Stopped?
    ensures FlagKept(s) ==> (FlagKept(Dispatch(s)) <==> !FlagHeard(s, Loop(Wake)) && !FlagTaken(s, Loop(Wake)))
    ensures !FlagKept(s) ==> !FlagKept(Dispatch(s)) && !FlagHeard(s, Loop(Wake)) && !FlagTaken(s, Loop(Wake))
    ensures !FlagHeard(s, Loop(Wake)) || !FlagTaken(s, Loop(Wake))
  {
  }

  lemma {:induction false} FlagUntouched(s: State, a: Action)
    requires Enabled(s, a) && a != Loop(Wake) && a != Other(RaiseThreadFlag)
    ensures FlagKept(Apply(s, a)) == FlagKept(s)
  {
    match a
    case Loop(l) => FlagLoop(s, l);
    case Timer(m) => FlagTimer(s, m);
    case Api(c) => FlagCall(s, c);
    case Other(e) => FlagOutside(s, e);
  }

  lemma {:induction false} FlagLoop(s: State, l: LoopStep)
    requires LoopEnabled(s, l) && l != Wake
    ensures FlagKept(ApplyLoop(s, l)) == FlagKept(s)
  {
    hide Items.Level, AfterEvent, Dispatch;
  }

  lemma {:induction false} FlagTimer(s: State, m: TimerStep)
    requires TimerEnabled(s, m)
    ensures FlagKept(ApplyTimer(s, m)) == FlagKept(s)
  {
    hide Unlink, Tm.Expired, Tm.Scheduled, Tm.Elapsed, Tm.PopRequest, Tm.Rearm, Tm.Expire;
  }

  lemma {:induction false} FlagCall(s: State, c: Call)
    requires CallEnabled(s, c)
    ensures FlagKept(ApplyCall(s, c)) == FlagKept(s)
  {
    hide Unlink, Items.Level, Items.Subscribe, Items.Unsubscribe, Items.LevelOnSubscribe, Tm.Enqueue;
  }

  lemma {:induction false} FlagOutside(s: State, e: Outside)
    requires OutsideEnabled(s, e) && e != RaiseThreadFlag
    ensures FlagKept(ApplyOutside(s, e)) == FlagKept(s)
  {
    hide Items.LinkNotify, Tm.TickAllowed;
  }

  lemma {:induction false} FlagStep(s: State, a: Action)
    requires Inv(s) && Enabled(s, a) && a != Other(RaiseThreadFlag) && !Apply(s, a).pc.Stopped?
    ensures FlagKept(Apply(s, a)) <==> FlagKept(s) && !FlagHeard(s, a) && !FlagTaken(s, a)
    ensures FlagHeard(s, a) || FlagTaken(s, a) ==> FlagKept(s)
    ensures !FlagHeard(s, a) || !FlagTaken(s, a)
  {
    hide ItemsInv, LevelsInv, TimersInv, PendingInv, WakeInv;
    if a == Loop(Wake) {
      assert Apply(s, a) == Dispatch(s);
      FlagWake(s);
    } else {
      FlagUntouched(s, a);
    }
  }

  lemma {:induction false} StoppedIsLast(s: State, a: Action)
    requires Enabled(s, a) && s.pc.Stopped?
    ensures Apply(s, a).pc.Stopped?
  {
    hide Unlink, Items.LinkNotify, Tm.TickAllowed;
  }

  ghost predicate SomeHeard(ss: seq<State>, acts: seq<Action>, i: nat, k: nat)
    requires k <= |acts| && k <= |ss|
  {
    exists j :: i < j < k && FlagHeard(ss[j], acts[j])
  }

  ghost predicate SomeTaken(ss: seq<State>, acts: seq<Action>, i: nat, k: nat)
    requires k <= |acts| && k <= |ss|
  {
    exists j :: i < j < k && FlagTaken(ss[j], acts[j])
  }

  /** After the thread-flag bit was raised at step i, and until it is raised again or a Stop is consumed:
      it is still set or saved, or its callback has begun, if and only if no wake-up took it together with
      Pending and without Event or Timer. The Pending branch forgets the other bits it received. */
  lemma {:induction false} ThreadFlagFate(ss: seq<State>, acts: seq<Action>, i: nat, k: nat)
    requires IsRun(ss, acts) && i < k <= |acts| && acts[i] == Other(RaiseThreadFlag) && !ss[k].pc.Stopped?
    requires forall j :: i < j < k ==> acts[j] != Other(RaiseThreadFlag)
    ensures FlagKept(ss[k]) || SomeHeard(ss, acts, i, k) <==> !SomeTaken(ss, acts, i, k)
    ensures FlagKept(ss[k]) ==> !SomeHeard(ss, acts, i, k)
    decreases k
  {
    hide Init, Enabled, Apply, FlagHeard, FlagTaken, FlagKept, Inv;
    var m := k - 1;
    assert Enabled(ss[m], acts[m]) && ss[m + 1] == Apply(ss[m], acts[m]);
    if m == i {
      FlagRaised(ss[i]);
    } else {
      if ss[m].pc.Stopped? {
        StoppedIsLast(ss[m], acts[m]);
      }
      ThreadFlagFate(ss, acts, i, m);
      RunKeepsInv(ss, acts, m);
      FlagStep(ss[m], acts[m]);
      OneMore(ss, acts, i, k);
    }
  }

  lemma {:induction false} FlagRaised(s: State)
    ensures FlagKept(Apply(s, Other(RaiseThreadFlag)))
  {
  }

  lemma {:induction false} OneMore(ss: seq<State>, acts: seq<Action>, i: nat, k: nat)
    requires i + 1 < k <= |acts| && k <= |ss|
    ensures SomeHeard(ss, acts, i, k) <==> SomeHeard(ss, acts, i, k - 1) || FlagHeard(ss[k - 1], acts[k - 1])
    ensures SomeTaken(ss, acts, i, k) <==> SomeTaken(ss, acts, i, k - 1) || FlagTaken(ss[k - 1], acts[k - 1])
  {
    hide FlagHeard, FlagTaken;
  }

  const DROPPING := [Api(Pend(0)), Loop(Run), Other(RaiseThreadFlag), Loop(Wake)]

  /** A run that loses the thread flag: it is raised while a pended callback waits. */
  lemma {:induction false} ThreadFlagDropped()
    ensures var s := Fresh(0).(pend := Pending([0], [0], []), pc := PendingTop);
            Reaches(DROPPING, s) && !FlagKept(s)
  {
    hide Reaches;
    var pended := Fresh(0).(pend := Pending([0], [0], []), bits := NONE.(pending := true));
    var both := pended.(pc := Top, bits := NONE.(pending := true, thread := true));
    ReachFresh(0);
    ReachNext([], Fresh(0), Api(Pend(0)), DROPPING[..1], pended);
    ReachNext(DROPPING[..1], pended, Loop(Run), DROPPING[..2], pended.(pc := Top));
    ReachNext(DROPPING[..2], pended.(pc := Top), Other(RaiseThreadFlag), DROPPING[..3], both);
    ReachNext(DROPPING[..3], both, Loop(Wake), DROPPING, both.(bits := NONE, pc := PendingTop));
  }

  // ---------- One subscription for each object ----------

  /** Wherever the loop thread may call the API, it can subscribe to an object if and only if the object
      exists and has no subscription in this loop, in either direction. */
  lemma {:induction false} OneSubscriptionPerObject(ss: seq<State>, acts: seq<Action>, k: nat,
                                                    o: nat, d: Items.Direction, edge: bool)
    requires IsRun(ss, acts) && k < |ss| && InApi(ss[k].pc)
    ensures Enabled(ss[k], Api(Subscribe(o, d, edge))) <==> o in ss[k].sub.queues && o !in ss[k].sub.tree
  {
    RunKeepsInv(ss, acts, k);
    hide IsRun, TimersInv, LevelsInv, PendingInv, WakeInv;
    if o in ss[k].sub.queues {
      assert Items.LinkAgrees(ss[k].sub, o);
    }
  }

  /** A subscription for In refuses one for Out on the same object. */
  lemma {:induction false} OutRefused(edge: bool)
    ensures var s := Apply(Fresh(1), Api(Subscribe(0, Items.In, false)));
            && Reaches([Api(Subscribe(0, Items.In, false))], s)
            && s.sub.queues[0].itemOut == None && !Enabled(s, Api(Subscribe(0, Items.Out, edge)))
  {
    hide Reaches;
    ReachFresh(1);
    var a := Api(Subscribe(0, Items.In, false));
    ReachNext([], Fresh(1), a, [a], Apply(Fresh(1), a));
  }
}
