/**
 The event loop (event_loop.c) as a state machine over atomic steps: the loop
 thread, the callbacks it runs (which may call any loop-thread API), and the
 other threads (queue operations, their delayed notifications, stop requests,
 clock ticks) interleave in any order. Runs end when a stop request is consumed.
 */
module EventLoop {
  import opened Lists
  import Items = EventLoopItems
  import Tm = EventLoopTimer

  /** The notification bits of the loop thread. */
  datatype Flags = Flags(event: bool, stop: bool, timer: bool, pending: bool, thread: bool)

  const NONE := Flags(false, false, false, false, false)

  function Join(a: Flags, b: Flags): Flags {
    Flags(a.event || b.event, a.stop || b.stop, a.timer || b.timer, a.pending || b.pending, a.thread || b.thread)
  }

  /** Where the loop thread is. */
  datatype PC =
    | Setup                              // before furi_event_loop_run
    | Top                                // about to wait for bits
    | Popping                            // Event branch: get_waiting_item
    | Checking(item: nat)                // popped; first get_level, or straight to the callback
    | EventCallback(item: nat)
    | Rechecking(item: nat)              // second get_level
    | Renotify(item: nat)                // item_notify: push
    | RenotifyBit                        // item_notify: set the bit
    | Releasing(item: nat)               // free an item unsubscribed in its own callback
    | Syncing                            // sync_flags
    | Restoring                          // restore_flags
    | TimerQueue                         // process_timer_queue, top of its loop
    | Scheduling(timer: nat, fired: bool)
    | PendingTop                         // process_pending_callbacks, top of its loop
    | PendingCallback
    | Expiring                           // the wait timed out
    | Rearming(timer: nat)
    | TimerCallback(timer: nat)
    | TickCallback
    | ThreadCallback
    | Stopped

  /** The pending queue, oldest first, and what was pended and run so far. */
  datatype Pending = Pending(queue: seq<nat>, pended: seq<nat>, ran: seq<nat>)

  datatype State = State(
    sub: Items.Subs,
    tm: Tm.Timers,
    pend: Pending,
    bits: Flags,
    saved: Flags,    // flags taken by the last wait and not handled yet
    pc: PC)

  /** Steps of the loop thread in event_loop.c itself. */
  datatype LoopStep =
    | Run | Wake | TimeOut
    | PopItem | CheckLevel | EventReturn | RecheckLevel | PushItem | SetEventBit | FreeItem | Sync | Restore
    | NextPending | PendingReturn | CallbackReturn

  /** Steps of the loop thread in event_loop_timer.c. */
  datatype TimerStep = NextRequest | ScheduleTimer | CheckExpired | RearmTimer

  /** API calls by the loop thread, before the run or inside a callback. */
  datatype Call =
    | Subscribe(o: nat, d: Items.Direction, edge: bool) | Unsubscribe(o: nat)
    | TimerAlloc(periodic: bool) | TimerStart(t: nat, interval: nat) | TimerStop(t: nat) | TimerFree(t: nat)
    | Pend(callback: nat)

  /** What any thread, and the clock, may do at any time. */
  datatype Outside =
    | Put(o: nat) | Get(o: nat) | Reset(o: nat) | LinkNotify(o: nat, d: Items.Direction)
    | RequestStop | RaiseThreadFlag | Tick

  datatype Action = Loop(l: LoopStep) | Timer(m: TimerStep) | Api(c: Call) | Other(e: Outside)

  // ---------- What the program counter says ----------

  predicate InApi(pc: PC) {
    pc.Setup? || pc.EventCallback? || pc.PendingCallback? || pc.TimerCallback? || pc.TickCallback? || pc.ThreadCallback?
  }

  /** The item the loop holds in a local variable. */
  function Busy(pc: PC): Option<nat> {
    match pc
    case Checking(i) => Some(i)
    case EventCallback(i) => Some(i)
    case Rechecking(i) => Some(i)
    case Renotify(i) => Some(i)
    case Releasing(i) => Some(i)
    case _ => None
  }

  /** instance->current_item */
  function Current(pc: PC): Option<nat> {
    match pc
    case Checking(i) => Some(i)
    case EventCallback(i) => Some(i)
    case Rechecking(i) => Some(i)
    case _ => None
  }

  /** The item whose level the loop has yet to look at for the last time, or to notify again. */
  function Looking(pc: PC): Option<nat> {
    match pc
    case Checking(i) => Some(i)
    case EventCallback(i) => Some(i)
    case Rechecking(i) => Some(i)
    case Renotify(i) => Some(i)
    case _ => None
  }

  function Flight(pc: PC): Option<nat> {
    match pc
    case Scheduling(t, _) => Some(t)
    case Rearming(t) => Some(t)
    case _ => None
  }

  /** The Event branch before sync_flags has run. */
  predicate BeforeSync(pc: PC) {
    pc.Popping? || pc.Checking? || pc.EventCallback? || pc.Rechecking? || pc.Renotify? || pc.RenotifyBit?
    || pc.Releasing? || pc.Syncing?
  }

  predicate InTimerBranch(pc: PC) {
    pc.TimerQueue? || (pc.Scheduling? && !pc.fired)
  }

  predicate InPendingBranch(pc: PC) {
    pc.PendingTop? || pc.PendingCallback?
  }

  /** From the timed-out wait to the timer callback. */
  predicate InExpiry(pc: PC) {
    pc.Expiring? || pc.Rearming? || (pc.Scheduling? && pc.fired)
  }

  // ---------- Steps ----------

  predicate LoopEnabled(s: State, l: LoopStep) {
    match l
    case Run => s.pc.Setup?
    case Wake => s.pc.Top? && s.bits != NONE
    case TimeOut => s.pc.Top? && s.bits == NONE      // the tick callback may limit any wait
    case PopItem => s.pc.Popping?
    case CheckLevel => s.pc.Checking? && s.pc.item in s.sub.items && s.sub.items[s.pc.item].obj in s.sub.queues
    case EventReturn => s.pc.EventCallback? && s.pc.item in s.sub.items
    case RecheckLevel => s.pc.Rechecking? && s.pc.item in s.sub.items && s.sub.items[s.pc.item].obj in s.sub.queues
    case PushItem => s.pc.Renotify?
    case SetEventBit => s.pc.RenotifyBit?
    case FreeItem => s.pc.Releasing?
    case Sync => s.pc.Syncing?
    case Restore => s.pc.Restoring?
    case NextPending => s.pc.PendingTop?
    case PendingReturn => s.pc.PendingCallback? && s.pend.queue != []
    case CallbackReturn => s.pc.TimerCallback? || s.pc.TickCallback? || s.pc.ThreadCallback?
  }

  predicate TimerEnabled(s: State, m: TimerStep) {
    match m
    case NextRequest => s.pc.TimerQueue? && (s.tm.queue != [] ==> s.tm.queue[0] in s.tm.timers)
    case ScheduleTimer =>
      && s.pc.Scheduling? && s.pc.timer in s.tm.timers
      && (forall i :: 0 <= i < |s.tm.list| ==> s.tm.list[i] in s.tm.timers)
    case CheckExpired => s.pc.Expiring? && (s.tm.list != [] ==> s.tm.list[0] in s.tm.timers)
    case RearmTimer =>
      && s.pc.Rearming? && s.pc.timer in s.tm.timers && s.tm.timers[s.pc.timer].interval > 0
      && s.pc.timer in s.tm.since && s.pc.timer in s.tm.periods
  }

  predicate CallEnabled(s: State, c: Call) {
    InApi(s.pc) &&
    match c
    case Subscribe(o, d, edge) => Items.CanSubscribe(s.sub, o, d)
    case Unsubscribe(o) => o in s.sub.tree && s.sub.tree[o] in s.sub.items && o in s.sub.queues
    case TimerAlloc(_) => true
    case TimerStart(t, interval) =>
      && t in s.tm.timers && s.tm.timers[t].request != Tm.FreeRequest
      && interval < Tm.TICKS && (s.tm.timers[t].periodic ==> interval > 0)
    case TimerStop(t) => t in s.tm.timers && s.tm.timers[t].request != Tm.FreeRequest
    case TimerFree(t) => t in s.tm.timers && s.tm.timers[t].request != Tm.FreeRequest
    case Pend(_) => true
  }

  predicate OutsideEnabled(s: State, e: Outside) {
    match e
    case Put(o) => o in s.sub.queues && s.sub.queues[o].count < s.sub.queues[o].capacity
    case Get(o) => o in s.sub.queues && s.sub.queues[o].count > 0
    case Reset(o) => o in s.sub.queues
    case LinkNotify(o, d) => o in s.sub.queues && (o, d) in s.sub.owed
    case RequestStop => true
    case RaiseThreadFlag => true
    case Tick => Tm.TickAllowed(s.tm)
  }

  predicate Enabled(s: State, a: Action) {
    match a
    case Loop(l) => LoopEnabled(s, l)
    case Timer(m) => TimerEnabled(s, m)
    case Api(c) => CallEnabled(s, c)
    case Other(e) => OutsideEnabled(s, e)
  }

  /** After the callback: furi_event_loop_process_event's owner check. */
  function AfterEvent(s: State, i: nat, incomplete: bool): PC
    requires i in s.sub.items
  {
    if !s.sub.items[i].owned then Releasing(i)
    else if incomplete then Renotify(i)
    else Syncing
  }

  function ItemLevel(s: State, i: nat): int
    requires i in s.sub.items && s.sub.items[i].obj in s.sub.queues
  {
    Items.Level(s.sub.queues[s.sub.items[i].obj], s.sub.items[i].dir)
  }

  /** The branch furi_event_loop_run takes on the bits it received. */
  function Dispatch(s: State): State {
    var flags, s0 := s.bits, s.(bits := NONE);
    if flags.stop then s0.(pc := Stopped)
    else if flags.event then s0.(pc := Popping, saved := flags.(event := false))
    else if flags.timer then s0.(pc := TimerQueue, saved := flags.(timer := false))
    else if flags.pending then s0.(pc := PendingTop)
    else s0.(pc := ThreadCallback)
  }

  function ApplyLoop(s: State, l: LoopStep): State
    requires LoopEnabled(s, l)
  {
    match l
    case Run => s.(pc := Top)
    case Wake => Dispatch(s)
    case TimeOut => s.(pc := Expiring)
    case PopItem =>
      if s.sub.waiting == [] then s.(pc := Restoring)
      else s.(sub := Items.PopWaiting(s.sub), pc := Checking(s.sub.waiting[0]))
    case CheckLevel =>
      var i := s.pc.item;
      if s.sub.items[i].edge || ItemLevel(s, i) > 0 then s.(pc := EventCallback(i))
      else s.(pc := AfterEvent(s, i, false))
    case EventReturn =>
      var i := s.pc.item;
      if s.sub.items[i].edge then s.(pc := AfterEvent(s, i, false)) else s.(pc := Rechecking(i))
    case RecheckLevel => s.(pc := AfterEvent(s, s.pc.item, ItemLevel(s, s.pc.item) > 0))
    case PushItem => s.(sub := Items.Push(s.sub, s.pc.item), pc := RenotifyBit)
    case SetEventBit => s.(bits := s.bits.(event := true), pc := Syncing)
    case FreeItem => s.(sub := Items.FreeItem(s.sub, s.pc.item), pc := Syncing)
    case Sync => s.(bits := if s.sub.waiting != [] then s.bits.(event := true) else s.bits, pc := Restoring)
    case Restore => s.(bits := Join(s.bits, s.saved), saved := NONE, pc := Top)
    case NextPending =>
      if s.pend.queue == [] then s.(pc := Top)
      else s.(pc := PendingCallback, pend := s.pend.(ran := s.pend.ran + [s.pend.queue[0]]))
    case PendingReturn => s.(pc := PendingTop, pend := s.pend.(queue := s.pend.queue[1..]))
    case CallbackReturn => s.(pc := Top)
  }

  function ApplyTimer(s: State, m: TimerStep): State
    requires TimerEnabled(s, m)
  {
    match m
    case NextRequest =>
      if s.tm.queue == [] then s.(pc := Restoring)
      else s.(tm := Tm.PopRequest(s.tm),
              pc := if Tm.PopStarts(s.tm) then Scheduling(s.tm.queue[0], false) else TimerQueue)
    case ScheduleTimer =>
      s.(tm := Tm.Schedule(s.tm, s.pc.timer), pc := if s.pc.fired then TimerCallback(s.pc.timer) else TimerQueue)
    case CheckExpired =>
      if s.tm.list == [] || !Tm.Expired(s.tm.timers[s.tm.list[0]], s.tm.now) then s.(pc := TickCallback)
      else
        var t := s.tm.list[0];
        s.(tm := Tm.Expire(s.tm), pc := if s.tm.timers[t].periodic then Rearming(t) else TimerCallback(t))
    case RearmTimer => s.(tm := Tm.Rearm(s.tm, s.pc.timer), pc := Scheduling(s.pc.timer, true))
  }

  function ApplyCall(s: State, c: Call): State
    requires CallEnabled(s, c)
  {
    match c
    case Subscribe(o, d, edge) =>
      s.(sub := Items.Subscribe(s.sub, o, d, edge),
         bits := if Items.LevelOnSubscribe(s.sub, o, d, edge) then s.bits.(event := true) else s.bits)
    case Unsubscribe(o) => s.(sub := Items.Unsubscribe(s.sub, o, Current(s.pc)))
    case TimerAlloc(periodic) => s.(tm := Tm.Alloc(s.tm, periodic))
    case TimerStart(t, interval) =>
      s.(tm := Tm.Enqueue(s.tm, t, Tm.StartRequest, interval), bits := s.bits.(timer := true))
    case TimerStop(t) =>
      s.(tm := Tm.Enqueue(s.tm, t, Tm.StopRequest, s.tm.timers[t].nextInterval), bits := s.bits.(timer := true))
    case TimerFree(t) =>
      s.(tm := Tm.Enqueue(s.tm, t, Tm.FreeRequest, s.tm.timers[t].nextInterval), bits := s.bits.(timer := true))
    case Pend(k) =>
      s.(pend := s.pend.(queue := s.pend.queue + [k], pended := s.pend.pended + [k]),
         bits := s.bits.(pending := true))
  }

  function ApplyOutside(s: State, e: Outside): State
    requires OutsideEnabled(s, e)
  {
    match e
    case Put(o) => s.(sub := Items.Put(s.sub, o))
    case Get(o) => s.(sub := Items.Get(s.sub, o))
    case Reset(o) => s.(sub := Items.Reset(s.sub, o))
    case LinkNotify(o, d) =>
      s.(sub := Items.LinkNotify(s.sub, o, d),
         bits := if Items.Slot(s.sub.queues[o], d).Some? then s.bits.(event := true) else s.bits)
    case RequestStop => s.(bits := s.bits.(stop := true))
    case RaiseThreadFlag => s.(bits := s.bits.(thread := true))
    case Tick => s.(tm := Tm.Tick(s.tm))
  }

  function Apply(s: State, a: Action): State
    requires Enabled(s, a)
  {
    match a
    case Loop(l) => ApplyLoop(s, l)
    case Timer(m) => ApplyTimer(s, m)
    case Api(c) => ApplyCall(s, c)
    case Other(e) => ApplyOutside(s, e)
  }

  // ---------- Invariants ----------

  ghost predicate ItemsInv(s: State) {
    && Items.Inv(s.sub, Busy(s.pc))
    && (s.pc.Checking? || s.pc.Renotify? ==> s.pc.item in s.sub.items && s.sub.items[s.pc.item].owned)
    && (s.pc.Releasing? ==> s.pc.item in s.sub.items && !s.sub.items[s.pc.item].owned)
    && (s.pc.Rechecking? || s.pc.Renotify? ==> s.pc.item in s.sub.items && !s.sub.items[s.pc.item].edge)
    && (forall i :: i in s.sub.items ==> s.sub.items[i].obj in s.sub.queues)
  }

  ghost predicate LevelsInv(s: State) {
    Items.LevelsCovered(s.sub, Looking(s.pc))
  }

  ghost predicate TimersInv(s: State) {
    && Tm.Inv(s.tm, Flight(s.pc))
    && (InExpiry(s.pc) ==> s.tm.queue == [])
    && (s.pc.Rearming? ==> Overdue(s.tm, s.pc.timer))
    && (s.pc.Scheduling? && s.pc.fired ==> Advanced(s.tm, s.pc.timer))
  }

  /** A periodic timer whose deadline has passed. */
  predicate Overdue(tm: Tm.Timers, t: nat) {
    t in tm.timers && tm.timers[t].periodic && t in tm.since && tm.since[t] + tm.timers[t].interval <= tm.now
  }

  /** A periodic timer that has left at least one period behind since it was started. */
  predicate Advanced(tm: Tm.Timers, t: nat) {
    t in tm.timers && tm.timers[t].periodic && t in tm.periods && tm.periods[t] > 0
  }

  /** Callbacks ran, then the queue (without the one running now), are all the callbacks pended, in order. */
  predicate PendingInv(s: State) {
    if s.pc.PendingCallback? then s.pend.queue != [] && s.pend.pended == s.pend.ran + s.pend.queue[1..]
    else s.pend.pended == s.pend.ran + s.pend.queue
  }

  /** Work waiting for the loop always has its bit set, or saved, or its branch still running. */
  predicate WakeInv(s: State) {
    s.pc.Stopped? ||
    (&& (s.sub.waiting != [] ==> s.bits.event || BeforeSync(s.pc))
     && (s.tm.queue != [] ==> s.bits.timer || s.saved.timer || InTimerBranch(s.pc))
     && (s.pend.queue != [] ==> s.bits.pending || s.saved.pending || InPendingBranch(s.pc))
     && (s.saved != NONE ==> BeforeSync(s.pc) || s.pc.Restoring? || InTimerBranch(s.pc)))
  }

  ghost predicate Inv(s: State) {
    ItemsInv(s) && LevelsInv(s) && TimersInv(s) && PendingInv(s) && WakeInv(s)
  }

  /** A loop that was just allocated, with queues of any content. */
  ghost predicate Init(s: State) {
    && s.pc == Setup && s.bits == NONE && s.saved == NONE
    && s.tm == Tm.NO_TIMERS.(now := s.tm.now)
    && s.pend == Pending([], [], [])
    && s.sub == Items.Subs(s.sub.queues, map[], map[], [], multiset{}, 0, multiset{})
    && (forall o :: o in s.sub.queues ==>
          && s.sub.queues[o].count <= s.sub.queues[o].capacity
          && s.sub.queues[o].itemIn == None && s.sub.queues[o].itemOut == None)
  }

  lemma {:induction false} InitInv(s: State)
    requires Init(s)
    ensures Inv(s)
  {
  }

  // ---------- Every step keeps the invariants ----------

  lemma {:induction false} PendingKept(s: State, a: Action)
    requires Enabled(s, a) && PendingInv(s)
    ensures PendingInv(Apply(s, a))
  {
    hide Unlink;
    match a
    case Loop(l) => PendingLoop(s, l);
    case Timer(m) => PendingTimer(s, m);
    case Api(c) => assert PendingInv(ApplyCall(s, c));
    case Other(e) =>
  }

  lemma {:induction false} PendingLoop(s: State, l: LoopStep)
    requires LoopEnabled(s, l) && PendingInv(s)
    ensures PendingInv(ApplyLoop(s, l))
  {
    hide Unlink, Items.Level;
  }

  lemma {:induction false} PendingTimer(s: State, m: TimerStep)
    requires TimerEnabled(s, m) && PendingInv(s)
    ensures PendingInv(ApplyTimer(s, m))
  {
    hide Tm.Expired, Tm.Scheduled, Unlink, Tm.Elapsed;
  }

  lemma {:induction false} WakeKept(s: State, a: Action)
    requires Enabled(s, a) && WakeInv(s)
    ensures WakeInv(Apply(s, a))
  {
    match a
    case Loop(l) => WakeLoop(s, l);
    case Timer(m) => WakeTimer(s, m);
    case Api(c) => WakeCall(s, c);
    case Other(e) => WakeOutside(s, e);
  }

  lemma {:induction false} WakeLoop(s: State, l: LoopStep)
    requires LoopEnabled(s, l) && WakeInv(s)
    ensures WakeInv(ApplyLoop(s, l))
  {
    if l.Wake? {
      WakeDispatch(s);
    } else if l.PopItem? || l.CheckLevel? || l.EventReturn? || l.RecheckLevel? {
      WakeItem(s, l);
    } else if l.PushItem? || l.SetEventBit? || l.FreeItem? || l.Sync? || l.Restore? {
      WakeItemDone(s, l);
    } else {
      WakeRest(s, l);
    }
  }

  lemma {:induction false} WakeDispatch(s: State)
    requires s.pc.Top? && WakeInv(s)
    ensures WakeInv(Dispatch(s))
  {
  }

  lemma {:induction false} WakeItem(s: State, l: LoopStep)
    requires l.PopItem? || l.CheckLevel? || l.EventReturn? || l.RecheckLevel?
    requires LoopEnabled(s, l) && WakeInv(s)
    ensures WakeInv(ApplyLoop(s, l))
  {
    hide Items.Level, Dispatch;
  }

  lemma {:induction false} WakeItemDone(s: State, l: LoopStep)
    requires l.PushItem? || l.SetEventBit? || l.FreeItem? || l.Sync? || l.Restore?
    requires LoopEnabled(s, l) && WakeInv(s)
    ensures WakeInv(ApplyLoop(s, l))
  {
    hide Items.Level, Dispatch;
  }

  lemma {:induction false} WakeRest(s: State, l: LoopStep)
    requires l.Run? || l.TimeOut? || l.NextPending? || l.PendingReturn? || l.CallbackReturn?
    requires LoopEnabled(s, l) && WakeInv(s)
    ensures WakeInv(ApplyLoop(s, l))
  {
    hide Items.Level, Dispatch;
  }

  lemma {:induction false} WakeTimer(s: State, m: TimerStep)
    requires TimerEnabled(s, m) && WakeInv(s)
    ensures WakeInv(ApplyTimer(s, m))
  {
    hide Tm.Expired, Tm.Scheduled, Unlink, Tm.Elapsed;
  }

  lemma {:induction false} WakeCall(s: State, c: Call)
    requires CallEnabled(s, c) && WakeInv(s)
    ensures WakeInv(ApplyCall(s, c))
  {
    hide Unlink;
  }

  lemma {:induction false} WakeOutside(s: State, e: Outside)
    requires OutsideEnabled(s, e) && WakeInv(s)
    ensures WakeInv(ApplyOutside(s, e))
  {
    hide Tm.TickAllowed;
  }

  lemma {:induction false} TimersKept(s: State, a: Action)
    requires Enabled(s, a) && TimersInv(s) && WakeInv(s)
    ensures TimersInv(Apply(s, a))
  {
    hide Tm.Inv;
    match a
    case Loop(l) =>
    case Timer(m) => TimersTimer(s, m);
    case Api(c) => TimersCall(s, c);
    case Other(e) => if e.Tick? { Tm.TickInv(s.tm, Flight(s.pc)); }
  }

  lemma {:induction false} TimersTimer(s: State, m: TimerStep)
    requires TimerEnabled(s, m) && TimersInv(s)
    ensures TimersInv(ApplyTimer(s, m))
  {
    hide Tm.Inv, Tm.Expired, Tm.Scheduled, Unlink, Tm.Elapsed;
    match m
    case NextRequest =>
      if s.tm.queue != [] {
        Tm.PopRequestInv(s.tm);
      }
    case ScheduleTimer => Tm.ScheduleInv(s.tm, s.pc.timer);
    case CheckExpired =>
      if s.tm.list != [] {
        Tm.ExpireInv(s.tm);
        FrontRuns(s.tm);
      }
    case RearmTimer =>
      Tm.RearmInv(s.tm, s.pc.timer);
      Tm.RearmAdvances(s.tm, s.pc.timer);
  }

  lemma {:induction false} FrontRuns(tm: Tm.Timers)
    requires Tm.Inv(tm, None) && tm.list != []
    ensures var f := tm.list[0];
            && Tm.Running(tm, f) && tm.timers[f].active
            && (Tm.Expired(tm.timers[f], tm.now) <==> tm.since[f] + tm.timers[f].interval <= tm.now)
  {
    hide Tm.Running;
    assert tm.list[0] in tm.list;
    Tm.ExpiredIsDue(tm, tm.list[0]);
  }

  lemma {:induction false} TimersCall(s: State, c: Call)
    requires CallEnabled(s, c) && TimersInv(s)
    ensures TimersInv(ApplyCall(s, c))
  {
    assert forall t :: t in s.tm.timers ==> s.tm.timers[t].nextInterval < Tm.TICKS;
    hide Tm.Inv, Unlink;
    match c
    case TimerAlloc(periodic) => Tm.AllocInv(s.tm, Flight(s.pc), periodic);
    case TimerStart(t, interval) => Tm.EnqueueInv(s.tm, Flight(s.pc), t, Tm.StartRequest, interval);
    case TimerStop(t) => Tm.EnqueueInv(s.tm, Flight(s.pc), t, Tm.StopRequest, s.tm.timers[t].nextInterval);
    case TimerFree(t) => Tm.EnqueueInv(s.tm, Flight(s.pc), t, Tm.FreeRequest, s.tm.timers[t].nextInterval);
    case _ =>
  }

  lemma {:induction false} ItemsLoop(s: State, l: LoopStep)
    requires LoopEnabled(s, l) && ItemsInv(s)
    ensures ItemsInv(ApplyLoop(s, l))
  {
    hide Items.Inv;
    match l
    case PopItem =>
      if s.sub.waiting != [] {
        Items.PopInv(s.sub);
      }
    case CheckLevel => ItemsDone(s, s.pc.item);
    case EventReturn => ItemsDone(s, s.pc.item);
    case RecheckLevel => ItemsDone(s, s.pc.item);
    case PushItem =>
      Items.OwnedIsSubscribed(s.sub, Busy(s.pc), s.pc.item);
      Items.PushInv(s.sub, Busy(s.pc), None, s.pc.item);
      ItemsDone(s.(sub := Items.Push(s.sub, s.pc.item)), s.pc.item);
    case FreeItem => Items.ReleaseInv(s.sub, None, s.pc.item);
    case _ =>
  }

  lemma {:induction false} ItemsDone(s: State, i: nat)
    requires Items.Inv(s.sub, Some(i)) && i in s.sub.items
    ensures s.sub.items[i].owned ==> Items.Inv(s.sub, None)
  {
    if s.sub.items[i].owned {
      Items.DoneInv(s.sub, i);
    }
  }

  lemma {:induction false} ItemsCall(s: State, c: Call)
    requires CallEnabled(s, c) && ItemsInv(s)
    ensures ItemsInv(ApplyCall(s, c))
  {
    hide Items.Inv, Unlink;
    match c
    case Subscribe(o, d, edge) => Items.SubscribeInv(s.sub, Busy(s.pc), o, d, edge);
    case Unsubscribe(o) => Items.UnsubscribeInv(s.sub, Busy(s.pc), o);
    case _ =>
  }

  lemma {:induction false} ItemsOutside(s: State, e: Outside)
    requires OutsideEnabled(s, e) && ItemsInv(s)
    ensures ItemsInv(ApplyOutside(s, e))
  {
    hide Items.Inv, Tm.TickAllowed;
    match e
    case Put(o) => Items.QueueOpInv(s.sub, Busy(s.pc), o, s.sub.queues[o].count + 1, Items.In);
    case Get(o) => Items.QueueOpInv(s.sub, Busy(s.pc), o, s.sub.queues[o].count - 1, Items.Out);
    case Reset(o) => Items.QueueOpInv(s.sub, Busy(s.pc), o, 0, Items.Out);
    case LinkNotify(o, d) => Items.LinkNotifyInv(s.sub, Busy(s.pc), None, o, d);
    case _ =>
  }

  lemma {:induction false} LevelsLoop(s: State, l: LoopStep)
    requires LoopEnabled(s, l) && ItemsInv(s) && LevelsInv(s)
    ensures LevelsInv(ApplyLoop(s, l))
  {
    hide Items.LevelsCovered, Items.Inv;
    match l
    case PopItem =>
      if s.sub.waiting != [] {
        Items.PopInv(s.sub);
      }
    case CheckLevel => LevelsDone(s, s.pc.item);
    case EventReturn => LevelsDone(s, s.pc.item);
    case RecheckLevel => LevelsDone(s, s.pc.item);
    case PushItem => Items.PushedAway(s.sub, s.pc.item);
    case FreeItem => Items.ReleaseInv(s.sub, None, s.pc.item);
    case _ =>
  }

  lemma {:induction false} LevelsDone(s: State, i: nat)
    requires ItemsInv(s) && LevelsInv(s) && Looking(s.pc) == Some(i) && i in s.sub.items
    ensures s.sub.items[i].obj in s.sub.queues
    ensures !s.sub.items[i].owned || s.sub.items[i].edge || ItemLevel(s, i) <= 0 ==> Items.LevelsCovered(s.sub, None)
  {
    if !s.sub.items[i].owned || s.sub.items[i].edge || ItemLevel(s, i) <= 0 {
      Items.LookAway(s.sub, i);
    }
  }

  lemma {:induction false} LevelsCall(s: State, c: Call)
    requires CallEnabled(s, c) && ItemsInv(s) && LevelsInv(s)
    ensures LevelsInv(ApplyCall(s, c))
  {
    match c
    case Subscribe(o, d, edge) => Items.SubscribeCovered(s.sub, Looking(s.pc), o, d, edge);
    case Unsubscribe(o) => Items.UnsubscribeCovered(s.sub, Looking(s.pc), o, Current(s.pc));
    case _ =>
  }

  lemma {:induction false} LevelsOutside(s: State, e: Outside)
    requires OutsideEnabled(s, e) && ItemsInv(s) && LevelsInv(s)
    ensures LevelsInv(ApplyOutside(s, e))
  {
    hide Items.LevelsCovered;
    match e
    case Put(o) => Items.QueueOpCovered(s.sub, Looking(s.pc), o, s.sub.queues[o].count + 1, Items.In);
    case Get(o) => Items.QueueOpCovered(s.sub, Looking(s.pc), o, s.sub.queues[o].count - 1, Items.Out);
    case Reset(o) => Items.QueueOpCovered(s.sub, Looking(s.pc), o, 0, Items.Out);
    case LinkNotify(o, d) => Items.LinkNotifyInv(s.sub, Busy(s.pc), Looking(s.pc), o, d);
    case _ =>
  }

  lemma {:induction false} ItemsKept(s: State, a: Action)
    requires Enabled(s, a) && ItemsInv(s) && LevelsInv(s)
    ensures ItemsInv(Apply(s, a)) && LevelsInv(Apply(s, a))
  {
    hide Items.LevelsCovered, Items.Inv;
    match a
    case Loop(l) => ItemsLoop(s, l); LevelsLoop(s, l);
    case Timer(m) =>
    case Api(c) => ItemsCall(s, c); LevelsCall(s, c);
    case Other(e) => ItemsOutside(s, e); LevelsOutside(s, e);
  }

  lemma {:induction false} StepKeepsInv(s: State, a: Action)
    requires Enabled(s, a) && Inv(s)
    ensures Inv(Apply(s, a))
  {
    hide ItemsInv, LevelsInv, TimersInv, PendingInv, WakeInv, Enabled, Apply;
    ItemsKept(s, a);
    TimersKept(s, a);
    PendingKept(s, a);
    WakeKept(s, a);
  }

  // ---------- Whole runs ----------

  /** A run: the states passed through, from a fresh loop, and the action taken in each. */
  ghost predicate IsRun(ss: seq<State>, acts: seq<Action>) {
    && |ss| == |acts| + 1 && Init(ss[0])
    && forall k :: 0 <= k < |acts| ==> Enabled(ss[k], acts[k]) && ss[k + 1] == Apply(ss[k], acts[k])
  }

  lemma {:induction false} RunKeepsInv(ss: seq<State>, acts: seq<Action>, k: nat)
    requires IsRun(ss, acts) && k < |ss|
    ensures Inv(ss[k])
    decreases k
  {
    hide Inv, Enabled, Apply, Init;
    if k == 0 {
      InitInv(ss[0]);
    } else {
      RunKeepsInv(ss, acts, k - 1);
      assert ss[k - 1 + 1] == Apply(ss[k - 1], acts[k - 1]);
      StepKeepsInv(ss[k - 1], acts[k - 1]);
    }
  }

  /** No wake-up is lost: whenever the loop is about to wait, every kind of waiting work has its bit
      set, so the wait returns at once. */
  lemma {:induction false} NoLostWakeup(ss: seq<State>, acts: seq<Action>, k: nat)
    requires IsRun(ss, acts) && k < |ss| && ss[k].pc.Top?
    ensures ss[k].sub.waiting != [] ==> ss[k].bits.event
    ensures ss[k].tm.queue != [] ==> ss[k].bits.timer
    ensures ss[k].pend.queue != [] ==> ss[k].bits.pending
  {
    RunKeepsInv(ss, acts, k);
  }

  /** Callbacks run once each, in the order they were pended, and never before they were pended. */
  lemma {:induction false} PendedRunInOrder(ss: seq<State>, acts: seq<Action>, k: nat)
    requires IsRun(ss, acts) && k < |ss|
    ensures ss[k].pend.ran <= ss[k].pend.pended
    ensures ss[k].pc.Top? && !ss[k].bits.pending ==> ss[k].pend.ran == ss[k].pend.pended
  {
    RunKeepsInv(ss, acts, k);
  }

  /** A level-triggered subscription with a non-zero level is on the waiting list, unless a queue
      operation still owes its notification or the loop is processing the item. */
  lemma {:induction false} LevelNeverMissed(ss: seq<State>, acts: seq<Action>, k: nat, o: nat)
    requires IsRun(ss, acts) && k < |ss|
    requires o in ss[k].sub.tree && Items.Covering(ss[k].sub, o)
    requires (o, ss[k].sub.items[ss[k].sub.tree[o]].dir) !in ss[k].sub.owed
    requires Looking(ss[k].pc) != Some(ss[k].sub.tree[o])
    ensures ss[k].sub.tree[o] in ss[k].sub.waiting
    ensures ss[k].pc.Top? ==> ss[k].bits.event
  {
    RunKeepsInv(ss, acts, k);
  }

  /** Tree, links and waiting list agree in every state; every item they or the loop can reach is
      allocated; every other item ever allocated was freed, exactly once; and none leaks. */
  lemma {:induction false} ItemsLiveExactly(ss: seq<State>, acts: seq<Action>, k: nat)
    requires IsRun(ss, acts) && k < |ss|
    ensures Items.Agree(ss[k].sub)
    ensures forall i: nat :: ss[k].sub.frees[i] == if i < ss[k].sub.nextId && i !in ss[k].sub.items then 1 else 0
    ensures forall i :: i in ss[k].sub.items ==> Items.Subscribed(ss[k].sub, i) || Busy(ss[k].pc) == Some(i)
    ensures forall i :: i in ss[k].sub.waiting ==> i in ss[k].sub.items
    ensures forall o :: o in ss[k].sub.tree ==> ss[k].sub.tree[o] in ss[k].sub.items
    ensures forall o, d :: o in ss[k].sub.queues && Items.Slot(ss[k].sub.queues[o], d).Some? ==>
              Items.Slot(ss[k].sub.queues[o], d).value in ss[k].sub.items
    ensures Busy(ss[k].pc).Some? ==> Busy(ss[k].pc).value in ss[k].sub.items
  {
    RunKeepsInv(ss, acts, k);
    var sub := ss[k].sub;
    forall o, d | o in sub.queues && Items.Slot(sub.queues[o], d).Some?
      ensures Items.Slot(sub.queues[o], d).value in sub.items
    {
      assert Items.LinkAgrees(sub, o);
    }
    forall o | o in sub.tree
      ensures sub.tree[o] in sub.items
    {
      assert Items.Subscribed(sub, sub.tree[o]);
    }
  }

  /** At every wait with an active timer the list is in deadline order, and the sleep ends at the earliest
      deadline or before if and only if the tick's wait is limited or the front timer was not
      started in this very tick for 0xFFFFFFFF ticks. */
  lemma {:induction false} SleepsUntilEarliest(ss: seq<State>, acts: seq<Action>, k: nat, tickWait: nat)
    requires IsRun(ss, acts) && k < |ss| && ss[k].pc.Top? && ss[k].tm.list != [] && tickWait <= Tm.WAIT_FOREVER
    ensures var tm := ss[k].tm;
            && Tm.Sorted(tm.list, tm.timers, tm.now) && (forall t :: t in tm.list <==> t in tm.timers && tm.timers[t].active)
            && (Tm.InTime(tm, Tm.Sleep(tm, tickWait)) <==> !(tickWait == Tm.WAIT_FOREVER && Tm.Unending(tm)))
  {
    RunKeepsInv(ss, acts, k);
    hide IsRun, ItemsInv, LevelsInv, PendingInv, WakeInv;
    Tm.NeverOversleeps(ss[k].tm, tickWait);
    assert Flight(ss[k].pc) == None;
  }

  /** The action makes the loop call timer t's callback. */
  predicate Fires(s: State, a: Action, t: nat)
    requires Enabled(s, a)
  {
    Apply(s, a).pc == TimerCallback(t) && s.pc != TimerCallback(t)
  }

  predicate ProcessesStart(s: State, a: Action, t: nat) {
    && a == Timer(NextRequest) && TimerEnabled(s, NextRequest)
    && s.tm.queue != [] && s.tm.queue[0] == t && Tm.PopStarts(s.tm)
  }

  lemma {:induction false} SilencedUntilStart(s: State, a: Action, t: nat)
    requires Enabled(s, a) && t in s.tm.silenced && !ProcessesStart(s, a, t)
    ensures t in Apply(s, a).tm.silenced
  {
    match a
    case Loop(l) => LoopKeepsTimers(s, l);
    case Timer(m) => hide Unlink, Tm.Scheduled, Tm.Expired, Tm.Elapsed;
    case Api(c) => PeriodsCall(s, c);
    case Other(e) => hide Items.LinkNotify, Tm.TickAllowed;
  }

  /** When timer t's callback begins, its deadline has passed: a one-shot timer's interval is over, and a
      periodic timer's start has already moved on, by whole intervals, to a deadline that is not in the future. */
  predicate OnTime(tm: Tm.Timers, t: nat) {
    && t in tm.timers && t in tm.since && t in tm.origin && t in tm.periods
    && if tm.timers[t].periodic
       then tm.periods[t] > 0 && tm.origin[t] + tm.timers[t].interval * tm.periods[t] == tm.since[t] <= tm.now
       else tm.since[t] == tm.origin[t] && tm.since[t] + tm.timers[t].interval <= tm.now
  }

  /** A timer callback never begins before the true deadline it fires for. */
  lemma {:induction false} FiresOnTime(ss: seq<State>, acts: seq<Action>, k: nat, t: nat)
    requires IsRun(ss, acts) && k < |acts| && Enabled(ss[k], acts[k]) && Fires(ss[k], acts[k], t)
    ensures OnTime(ss[k + 1].tm, t)
  {
    RunKeepsInv(ss, acts, k);
    assert ss[k + 1] == Apply(ss[k], acts[k]);
    FireStep(ss[k], acts[k], t);
  }

  lemma {:induction false} FireStep(s: State, a: Action, t: nat)
    requires Inv(s) && Enabled(s, a) && Fires(s, a, t)
    ensures OnTime(Apply(s, a).tm, t)
  {
    FiresInTimer(s, a, t);
    hide ItemsInv, LevelsInv, PendingInv, WakeInv, Unlink, Tm.Scheduled;
    if a.m.CheckExpired? {
      FrontRuns(s.tm);
    } else {
      assert s.pc == Scheduling(t, true);
      InFlightRuns(s.tm, t);
    }
    hide Tm.Inv, Tm.Elapsed;
  }

  lemma {:induction false} InFlightRuns(tm: Tm.Timers, t: nat)
    requires Tm.Inv(tm, Some(t))
    ensures Tm.Running(tm, t)
  {
    hide Tm.Running;
  }

  /** Without a new start, a step never takes periods back, and it sends timer t to its next callback only
      after moving its start by at least one more interval. */
  lemma {:induction false} PeriodsStep(s: State, a: Action, t: nat)
    requires Inv(s) && Enabled(s, a) && !ProcessesStart(s, a, t) && t in s.tm.periods
    ensures t in Apply(s, a).tm.periods && Apply(s, a).tm.periods[t] >= s.tm.periods[t]
    ensures Apply(s, a).pc == Scheduling(t, true) && s.pc != Scheduling(t, true) ==>
              Apply(s, a).tm.periods[t] > s.tm.periods[t]
  {
    hide ItemsInv, LevelsInv, PendingInv, WakeInv, Unlink, Tm.Scheduled, Tm.Expired, Tm.Elapsed,
         Items.Subscribe, Items.Unsubscribe, Items.LinkNotify, Tm.TickAllowed;
    if a == Timer(RearmTimer) {
      InFlightRuns(s.tm, s.pc.timer);
      Tm.RearmAdvances(s.tm, s.pc.timer);
    } else {
      hide Inv, Tm.Rearm;
      PeriodsKept(s, a, t);
    }
  }

  lemma {:induction false} PeriodsKept(s: State, a: Action, t: nat)
    requires Enabled(s, a) && !ProcessesStart(s, a, t) && t in s.tm.periods && a != Timer(RearmTimer)
    ensures t in Apply(s, a).tm.periods && Apply(s, a).tm.periods[t] == s.tm.periods[t]
    ensures Apply(s, a).pc == Scheduling(t, true) ==> s.pc == Scheduling(t, true)
  {
    match a
    case Loop(l) => LoopKeepsTimers(s, l);
    case Timer(m) => PeriodsTimer(s, m, t);
    case Api(c) => PeriodsCall(s, c);
    case Other(e) => hide Items.LinkNotify, Tm.TickAllowed;
  }

  lemma {:induction false} LoopKeepsTimers(s: State, l: LoopStep)
    requires LoopEnabled(s, l)
    ensures ApplyLoop(s, l).tm == s.tm && !ApplyLoop(s, l).pc.Scheduling?
  {
    hide Items.Level;
  }

  lemma {:induction false} PeriodsTimer(s: State, m: TimerStep, t: nat)
    requires TimerEnabled(s, m) && !ProcessesStart(s, Timer(m), t) && t in s.tm.periods && m != RearmTimer
    ensures t in ApplyTimer(s, m).tm.periods && ApplyTimer(s, m).tm.periods[t] == s.tm.periods[t]
    ensures ApplyTimer(s, m).pc == Scheduling(t, true) ==> s.pc == Scheduling(t, true)
  {
    hide Unlink, Tm.Scheduled, Tm.Expired, Tm.Elapsed;
  }

  lemma {:induction false} PeriodsCall(s: State, c: Call)
    requires CallEnabled(s, c)
    ensures ApplyCall(s, c).tm.periods == s.tm.periods && ApplyCall(s, c).pc == s.pc
    ensures s.tm.silenced <= ApplyCall(s, c).tm.silenced
  {
    hide Unlink, Items.Subscribe, Items.Unsubscribe, Items.LevelOnSubscribe;
  }

  /** Two callbacks of a periodic timer, without a new start between them, fire for different deadlines of
      its grid: missed periods never give more than one callback. */
  lemma {:induction false} CallbacksForDistinctPeriods(ss: seq<State>, acts: seq<Action>, i: nat, k: nat, t: nat)
    requires IsRun(ss, acts) && i < k < |acts|
    requires Enabled(ss[i], acts[i]) && Fires(ss[i], acts[i], t) && acts[i] == Timer(ScheduleTimer)
    requires Enabled(ss[k], acts[k]) && Fires(ss[k], acts[k], t) && acts[k] == Timer(ScheduleTimer)
    requires forall j :: i < j < k ==> !ProcessesStart(ss[j], acts[j], t)
    ensures t in ss[i + 1].tm.periods && t in ss[k + 1].tm.periods
    ensures ss[i + 1].tm.periods[t] < ss[k + 1].tm.periods[t]
  {
    assert ss[i + 1] == Apply(ss[i], acts[i]) && ss[k + 1] == Apply(ss[k], acts[k]);
    RunKeepsInv(ss, acts, i);
    FireStep(ss[i], acts[i], t);
    assert ss[i + 1].pc == TimerCallback(t);
    PeriodsSince(ss, acts, i, k, t);
    assert ss[k].pc == Scheduling(t, true);
    hide IsRun, Tm.Scheduled;
    assert ss[k + 1].tm.periods == ss[k].tm.periods;
  }

  lemma {:induction false} PeriodsSince(ss: seq<State>, acts: seq<Action>, i: nat, k: nat, t: nat)
    requires IsRun(ss, acts) && i < k <= |acts| && t in ss[i + 1].tm.periods && ss[i + 1].pc == TimerCallback(t)
    requires forall j :: i < j < k ==> !ProcessesStart(ss[j], acts[j], t)
    ensures t in ss[k].tm.periods && ss[k].tm.periods[t] >= ss[i + 1].tm.periods[t]
    ensures ss[k].pc == Scheduling(t, true) ==> ss[k].tm.periods[t] > ss[i + 1].tm.periods[t]
    decreases k
  {
    hide Init, Enabled, Apply, ProcessesStart, Inv;
    if k > i + 1 {
      var m := k - 1;
      assert Enabled(ss[m], acts[m]) && ss[m + 1] == Apply(ss[m], acts[m]);
      PeriodsSince(ss, acts, i, m, t);
      RunKeepsInv(ss, acts, m);
      PeriodsStep(ss[m], acts[m], t);
    }
  }

  /** A timer callback starts only for a timer that is not silenced. */
  lemma {:induction false} FiresOnlyAudible(s: State, a: Action, t: nat)
    requires Inv(s) && Enabled(s, a) && Fires(s, a, t)
    ensures t !in s.tm.silenced
  {
    hide Unlink, Tm.Scheduled, Tm.Expired, Tm.Elapsed, Tm.Sorted, Tm.Clocks, ItemsInv, LevelsInv, PendingInv, WakeInv;
    assert a.Timer? by { FiresInTimer(s, a, t); }
    if a.m.CheckExpired? {
      assert t == s.tm.list[0];
      assert t in s.tm.list;
    }
  }

  lemma {:induction false} FiresInTimer(s: State, a: Action, t: nat)
    requires Enabled(s, a) && Fires(s, a, t)
    ensures a.Timer?
  {
  }

  /** Once stop or free was called on a timer, its callback does not run before a later start has
      been processed. */
  lemma {:induction false} StoppedStaysSilent(ss: seq<State>, acts: seq<Action>, i: nat, k: nat, t: nat)
    requires IsRun(ss, acts) && i < k < |acts|
    requires acts[i] == Api(TimerStop(t)) || acts[i] == Api(TimerFree(t))
    requires forall j :: i < j < k ==> !ProcessesStart(ss[j], acts[j], t)
    ensures Enabled(ss[k], acts[k]) && !Fires(ss[k], acts[k], t)
  {
    StaysSilenced(ss, acts, i, k, t);
    RunKeepsInv(ss, acts, k);
    if Fires(ss[k], acts[k], t) {
      FiresOnlyAudible(ss[k], acts[k], t);
    }
  }

  lemma {:induction false} StaysSilenced(ss: seq<State>, acts: seq<Action>, i: nat, k: nat, t: nat)
    requires IsRun(ss, acts) && i < k < |ss|
    requires acts[i] == Api(TimerStop(t)) || acts[i] == Api(TimerFree(t))
    requires forall j :: i < j < k ==> !ProcessesStart(ss[j], acts[j], t)
    ensures t in ss[k].tm.silenced
    decreases k
  {
    hide Init, Enabled, Apply, ProcessesStart;
    assert ss[k - 1 + 1] == Apply(ss[k - 1], acts[k - 1]);
    if k - 1 == i {
      StopSilences(ss[i], acts[i], t);
    } else {
      StaysSilenced(ss, acts, i, k - 1, t);
      SilencedUntilStart(ss[k - 1], acts[k - 1], t);
    }
  }

  lemma {:induction false} StopSilences(s: State, a: Action, t: nat)
    requires Enabled(s, a) && (a == Api(TimerStop(t)) || a == Api(TimerFree(t)))
    ensures t in Apply(s, a).tm.silenced
  {
    assert CallEnabled(s, a.c);
  }

  /** In every reachable state of a run the loop thread can take its next step: no assertion of the
      source fails and no freed or missing item or timer is touched. */
  lemma {:induction false} NeverStuck(ss: seq<State>, acts: seq<Action>, k: nat)
    requires IsRun(ss, acts) && k < |ss| && !ss[k].pc.Stopped?
    ensures exists a: Action :: (a.Loop? || a.Timer?) && Enabled(ss[k], a)
    ensures ss[k].pc.Renotify? ==> Items.Subscribed(ss[k].sub, ss[k].pc.item)
    ensures ss[k].pc.Releasing? ==> ss[k].pc.item in ss[k].sub.items && ss[k].pc.item !in ss[k].sub.waiting
  {
    RunKeepsInv(ss, acts, k);
    var s := ss[k];
    hide IsRun;
    if s.pc.Renotify? {
      Items.OwnedIsSubscribed(s.sub, Busy(s.pc), s.pc.item);
    }
    if s.pc.Releasing? {
      Items.ReleaseInv(s.sub, None, s.pc.item);
    }
    var a := NextAction(s);
    NextEnabled(s);
    assert (a.Loop? || a.Timer?) && Enabled(s, a);
  }

  /** The step the loop thread takes next from each program point. */
  function NextAction(s: State): Action
    requires !s.pc.Stopped?
  {
    match s.pc
    case Setup => Loop(Run)
    case Top => Loop(if s.bits == NONE then TimeOut else Wake)
    case Popping => Loop(PopItem)
    case Checking(_) => Loop(CheckLevel)
    case EventCallback(_) => Loop(EventReturn)
    case Rechecking(_) => Loop(RecheckLevel)
    case Renotify(_) => Loop(PushItem)
    case RenotifyBit => Loop(SetEventBit)
    case Releasing(_) => Loop(FreeItem)
    case Syncing => Loop(Sync)
    case Restoring => Loop(Restore)
    case TimerQueue => Timer(NextRequest)
    case Scheduling(_, _) => Timer(ScheduleTimer)
    case PendingTop => Loop(NextPending)
    case PendingCallback => Loop(PendingReturn)
    case Expiring => Timer(CheckExpired)
    case Rearming(_) => Timer(RearmTimer)
    case _ => Loop(CallbackReturn)
  }

  lemma {:induction false} NextEnabled(s: State)
    requires Inv(s) && !s.pc.Stopped?
    ensures Enabled(s, NextAction(s))
  {
    match s.pc
    case TimerQueue =>
      if s.tm.queue != [] {
        Tm.PopRequestInv(s.tm);
      }
    case Rearming(t) => assert Tm.Running(s.tm, t);
    case Scheduling(t, _) =>
      assert Tm.Members(s.tm, Some(t));
    case Expiring =>
      if s.tm.list != [] {
        Tm.ExpireInv(s.tm);
      }
    case _ =>
  }

  /** Periodic timers never drift: in every state of every run the start of a running timer is its
      original start plus whole intervals, and the 32-bit start is that time modulo 2^32. */
  lemma {:induction false} NeverDrifts(ss: seq<State>, acts: seq<Action>, k: nat, t: nat)
    requires IsRun(ss, acts) && k < |ss|
    requires t in ss[k].tm.timers && ss[k].tm.timers[t].active
    ensures var tm := ss[k].tm;
            && t in tm.since && t in tm.origin && t in tm.periods
            && tm.since[t] == tm.origin[t] + tm.timers[t].interval * tm.periods[t]
            && tm.timers[t].startTime == tm.since[t] % Tm.TICKS
            && tm.since[t] <= tm.now
  {
    RunKeepsInv(ss, acts, k);
    assert Tm.Running(ss[k].tm, t);
  }

  /** However many periods were missed, re-arming skips them all: the new start is at most one interval
      before now, so one expiry gives one callback. */
  lemma {:induction false} MissedPeriodsFireOnce(ss: seq<State>, acts: seq<Action>, k: nat)
    requires IsRun(ss, acts) && k < |acts| && acts[k] == Timer(RearmTimer)
    ensures TimerEnabled(ss[k], RearmTimer)
    ensures var t, tm, tm' := ss[k].pc.timer, ss[k].tm, ss[k + 1].tm;
            && t in tm'.since && t in tm'.timers && tm'.timers[t].interval == tm.timers[t].interval
            && tm'.since[t] <= tm'.now < tm'.since[t] + tm'.timers[t].interval
            && !Tm.Expired(tm'.timers[t], tm'.now)
  {
    RunKeepsInv(ss, acts, k);
    assert Enabled(ss[k], acts[k]) && ss[k + 1] == Apply(ss[k], acts[k]);
    assert Tm.Running(ss[k].tm, ss[k].pc.timer);
    Tm.RearmExact(ss[k].tm, ss[k].pc.timer);
  }
}
