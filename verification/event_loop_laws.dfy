/**
 What the calls made in a run mean for its later states: subscriptions stay as
 asked for, queues hold what was put and not taken, timers run with the interval
 and kind they were given, and work that is due is done.
 */
module EventLoopLaws {
  import opened Lists
  import opened EventLoop
  import Items = EventLoopItems
  import Tm = EventLoopTimer

  /** The step from state k of a run. */
  lemma {:induction false} StepOf(ss: seq<State>, acts: seq<Action>, k: nat)
    requires IsRun(ss, acts) && k < |acts|
    ensures Enabled(ss[k], acts[k]) && ss[k + 1] == Apply(ss[k], acts[k])
  {
    hide Init, Enabled, Apply;
  }

  // ---------- Messages ----------

  /** How often an action was taken. */
  function Times(acts: seq<Action>, a: Action): nat {
    multiset(acts)[a]
  }

  lemma {:induction false} TimesNext(acts: seq<Action>, k: nat, m: nat, a: Action)
    requires k <= m < |acts|
    ensures Times(acts[k..m + 1], a) == Times(acts[k..m], a) + if acts[m] == a then 1 else 0
    ensures Times(acts[m..m], a) == 0
  {
    assert acts[k..m + 1] == acts[k..m] + [acts[m]];
  }

  lemma {:induction false} NoTimes(acts: seq<Action>)
    requires acts == []
    ensures forall a :: Times(acts, a) == 0
  {
  }

  /** How one action changes the number of messages in queue o. */
  function CountAfter(a: Action, o: nat, count: int): int {
    if a == Other(Put(o)) then count + 1
    else if a == Other(Get(o)) then count - 1
    else if a == Other(Reset(o)) then 0
    else count
  }

  lemma {:induction false} CountStep(s: State, a: Action, o: nat)
    requires Enabled(s, a) && o in s.sub.queues
    ensures o in Apply(s, a).sub.queues
    ensures Apply(s, a).sub.queues[o].count == CountAfter(a, o, s.sub.queues[o].count)
    ensures Apply(s, a).sub.queues[o].capacity == s.sub.queues[o].capacity
  {
    match a
    case Loop(l) => LoopKeepsQueues(s, l);
    case Timer(m) => TimerKeepsItems(s, m);
    case Api(c) => CallKeepsCounts(s, c, o);
    case Other(e) => CountOutside(s, e, o);
  }

  lemma {:induction false} CountOutside(s: State, e: Outside, o: nat)
    requires OutsideEnabled(s, e) && o in s.sub.queues
    ensures o in ApplyOutside(s, e).sub.queues
    ensures ApplyOutside(s, e).sub.queues[o].count == CountAfter(Other(e), o, s.sub.queues[o].count)
    ensures ApplyOutside(s, e).sub.queues[o].capacity == s.sub.queues[o].capacity
  {
    hide Tm.TickAllowed;
  }

  lemma {:induction false} LoopKeepsQueues(s: State, l: LoopStep)
    requires LoopEnabled(s, l)
    ensures ApplyLoop(s, l).sub.queues == s.sub.queues && ApplyLoop(s, l).sub.owed == s.sub.owed
    ensures ApplyLoop(s, l).sub.tree == s.sub.tree && ApplyLoop(s, l).sub.nextId == s.sub.nextId
  {
    hide Items.Level;
  }

  lemma {:induction false} TimerKeepsItems(s: State, m: TimerStep)
    requires TimerEnabled(s, m)
    ensures ApplyTimer(s, m).sub == s.sub
  {
    hide Unlink, Tm.Expired, Tm.Scheduled, Tm.Elapsed, Tm.PopRequest, Tm.Rearm, Tm.Expire;
  }

  lemma {:induction false} CallKeepsCounts(s: State, c: Call, o: nat)
    requires CallEnabled(s, c) && o in s.sub.queues
    ensures o in ApplyCall(s, c).sub.queues && ApplyCall(s, c).sub.owed == s.sub.owed
    ensures ApplyCall(s, c).sub.queues[o].count == s.sub.queues[o].count
    ensures ApplyCall(s, c).sub.queues[o].capacity == s.sub.queues[o].capacity
  {
    hide Unlink, Tm.Enqueue;
  }

  lemma {:induction false} QueuesStay(ss: seq<State>, acts: seq<Action>, k: nat, o: nat)
    requires IsRun(ss, acts) && k <= |acts| && o in ss[0].sub.queues
    ensures o in ss[k].sub.queues
    decreases k
  {
    hide Init, Enabled, Apply;
    if k > 0 {
      QueuesStay(ss, acts, k - 1, o);
      StepOf(ss, acts, k - 1);
      CountStep(ss[k - 1], acts[k - 1], o);
    }
  }

  /** A queue holds the messages it had at its last reset, that is none, or at the start of the run, plus one for
      every put since and less one for every get since. */
  lemma {:induction false} MessagesCounted(ss: seq<State>, acts: seq<Action>, r: nat, k: nat, o: nat)
    requires IsRun(ss, acts) && r <= k <= |acts| && o in ss[0].sub.queues
    requires r == 0 || acts[r - 1] == Other(Reset(o))
    requires forall j :: r <= j < k ==> acts[j] != Other(Reset(o))
    ensures o in ss[k].sub.queues
    ensures ss[k].sub.queues[o].count == (if r == 0 then ss[0].sub.queues[o].count else 0)
              + Times(acts[r..k], Other(Put(o))) - Times(acts[r..k], Other(Get(o)))
    decreases k
  {
    hide Init, Enabled, Apply, Times;
    QueuesStay(ss, acts, k, o);
    if k > r {
      MessagesCounted(ss, acts, r, k - 1, o);
      StepOf(ss, acts, k - 1);
      CountStep(ss[k - 1], acts[k - 1], o);
      TimesNext(acts, r, k - 1, Other(Put(o)));
      TimesNext(acts, r, k - 1, Other(Get(o)));
    } else {
      NoTimes(acts[r..k]);
      if r > 0 {
        QueuesStay(ss, acts, r - 1, o);
        StepOf(ss, acts, r - 1);
        CountStep(ss[r - 1], acts[r - 1], o);
      }
    }
  }

  /** Notifications still to come: one for every put, get or reset done whose link_notify has not run. */
  lemma {:induction false} NotificationsOwed(ss: seq<State>, acts: seq<Action>, k: nat, o: nat)
    requires IsRun(ss, acts) && k <= |acts|
    ensures ss[k].sub.owed[(o, Items.In)] + Times(acts[0..k], Other(LinkNotify(o, Items.In)))
         == Times(acts[0..k], Other(Put(o)))
    ensures ss[k].sub.owed[(o, Items.Out)] + Times(acts[0..k], Other(LinkNotify(o, Items.Out)))
         == Times(acts[0..k], Other(Get(o))) + Times(acts[0..k], Other(Reset(o)))
    decreases k
  {
    hide Enabled, Apply, Times;
    if k > 0 {
      hide Init;
      NotificationsOwed(ss, acts, k - 1, o);
      StepOf(ss, acts, k - 1);
      OwedStep(ss[k - 1], acts[k - 1], o);
      TimesNext(acts, 0, k - 1, Other(LinkNotify(o, Items.In)));
      TimesNext(acts, 0, k - 1, Other(LinkNotify(o, Items.Out)));
      TimesNext(acts, 0, k - 1, Other(Put(o)));
      TimesNext(acts, 0, k - 1, Other(Get(o)));
      TimesNext(acts, 0, k - 1, Other(Reset(o)));
    } else {
      NoTimes(acts[0..0]);
    }
  }

  lemma {:induction false} OwedStep(s: State, a: Action, o: nat)
    requires Enabled(s, a)
    ensures Apply(s, a).sub.owed[(o, Items.In)] == s.sub.owed[(o, Items.In)]
              + (if a == Other(Put(o)) then 1 else 0) - if a == Other(LinkNotify(o, Items.In)) then 1 else 0
    ensures Apply(s, a).sub.owed[(o, Items.Out)] == s.sub.owed[(o, Items.Out)]
              + (if a == Other(Get(o)) || a == Other(Reset(o)) then 1 else 0) - if a == Other(LinkNotify(o, Items.Out)) then 1 else 0
  {
    match a
    case Loop(l) => LoopKeepsQueues(s, l);
    case Timer(m) => TimerKeepsItems(s, m);
    case Api(c) => CallKeepsOwed(s, c);
    case Other(e) => OwedOutside(s, e, o);
  }

  lemma {:induction false} OwedOutside(s: State, e: Outside, o: nat)
    requires OutsideEnabled(s, e)
    ensures var owed, owed' := s.sub.owed, ApplyOutside(s, e).sub.owed;
            && owed'[(o, Items.In)] == owed[(o, Items.In)]
                 + (if e == Put(o) then 1 else 0) - (if e == LinkNotify(o, Items.In) then 1 else 0)
            && owed'[(o, Items.Out)] == owed[(o, Items.Out)]
                 + (if e == Get(o) || e == Reset(o) then 1 else 0) - if e == LinkNotify(o, Items.Out) then 1 else 0
  {
    if e.Put? || e.Get? || e.Reset? {
      var debt := (e.o, if e.Put? then Items.In else Items.Out);
      assert ApplyOutside(s, e).sub.owed == s.sub.owed + multiset{debt};
      hide ApplyOutside, OutsideEnabled;
      assert multiset{debt}[(o, Items.In)] == if debt == (o, Items.In) then 1 else 0;
      assert multiset{debt}[(o, Items.Out)] == if debt == (o, Items.Out) then 1 else 0;
    } else if e.LinkNotify? {
      assert ApplyOutside(s, e).sub.owed == s.sub.owed - multiset{(e.o, e.d)} && (e.o, e.d) in s.sub.owed;
      hide ApplyOutside, OutsideEnabled;
      assert multiset{(e.o, e.d)}[(o, Items.In)] == if (e.o, e.d) == (o, Items.In) then 1 else 0;
      assert multiset{(e.o, e.d)}[(o, Items.Out)] == if (e.o, e.d) == (o, Items.Out) then 1 else 0;
    } else {
      hide Tm.TickAllowed;
    }
  }

  lemma {:induction false} CallKeepsOwed(s: State, c: Call)
    requires CallEnabled(s, c)
    ensures ApplyCall(s, c).sub.owed == s.sub.owed
  {
    hide Unlink, Tm.Enqueue;
  }

  // ---------- Subscriptions ----------

  /** Object o has item i as its subscription, of the given direction and kind. */
  predicate Has(s: State, o: nat, i: nat, d: Items.Direction, edge: bool) {
    o in s.sub.tree && s.sub.tree[o] == i && i in s.sub.items && s.sub.items[i] == Items.Item(o, d, edge, true)
  }

  lemma {:induction false} SubscribeStep(s: State, o: nat, d: Items.Direction, edge: bool)
    requires Enabled(s, Api(Subscribe(o, d, edge)))
    ensures Has(Apply(s, Api(Subscribe(o, d, edge))), o, s.sub.nextId, d, edge)
  {
  }

  lemma {:induction false} HasStep(s: State, a: Action, o: nat, i: nat, d: Items.Direction, edge: bool)
    requires Inv(s) && Enabled(s, a) && Has(s, o, i, d, edge) && a != Api(Unsubscribe(o))
    ensures Has(Apply(s, a), o, i, d, edge)
  {
    hide LevelsInv, TimersInv, PendingInv, WakeInv;
    match a
    case Loop(l) => HasLoop(s, l, o, i, d, edge);
    case Timer(m) => TimerKeepsItems(s, m);
    case Api(c) => HasCall(s, c, o, i, d, edge);
    case Other(e) => hide Tm.TickAllowed, Items.Inv;
  }

  lemma {:induction false} HasLoop(s: State, l: LoopStep, o: nat, i: nat, d: Items.Direction, edge: bool)
    requires ItemsInv(s) && LoopEnabled(s, l) && Has(s, o, i, d, edge)
    ensures Has(ApplyLoop(s, l), o, i, d, edge)
  {
    hide Items.Inv, Items.Level;
  }

  lemma {:induction false} HasCall(s: State, c: Call, o: nat, i: nat, d: Items.Direction, edge: bool)
    requires ItemsInv(s) && CallEnabled(s, c) && Has(s, o, i, d, edge) && c != Unsubscribe(o)
    ensures Has(ApplyCall(s, c), o, i, d, edge)
  {
    assert i < s.sub.nextId;
    if c.Unsubscribe? {
      Items.TreeInjective(s.sub, o, c.o);
      hide Items.Inv, Unlink;
    } else if c.Subscribe? {
      hide Items.Inv, Items.Level;
    } else {
      hide Items.Inv, Unlink, Tm.Enqueue, Items.Subscribe, Items.Unsubscribe;
    }
  }

  /** Once subscribed and until unsubscribed, an object has that subscription: the item made then, with the
      direction and the kind asked for. */
  lemma {:induction false} SubscriptionStays(ss: seq<State>, acts: seq<Action>, i: nat, k: nat,
                                             o: nat, d: Items.Direction, edge: bool)
    requires IsRun(ss, acts) && i < k <= |acts| && acts[i] == Api(Subscribe(o, d, edge))
    requires forall j :: i < j < k ==> acts[j] != Api(Unsubscribe(o))
    ensures Has(ss[k], o, ss[i].sub.nextId, d, edge)
    decreases k
  {
    hide Init, Enabled, Apply, Has, Inv;
    StepOf(ss, acts, k - 1);
    if k - 1 == i {
      SubscribeStep(ss[i], o, d, edge);
    } else {
      SubscriptionStays(ss, acts, i, k - 1, o, d, edge);
      RunKeepsInv(ss, acts, k - 1);
      HasStep(ss[k - 1], acts[k - 1], o, ss[i].sub.nextId, d, edge);
    }
  }

  /** The level of a queue for a subscription: messages for In, space for Out. */
  predicate Ready(q: Items.Queue, d: Items.Direction) {
    if d == Items.In then q.count > 0 else q.count < q.capacity
  }

  /** No message, and no space, is missed: an object subscribed without the edge flag and not unsubscribed since,
      whose queue holds a message (for In) or has space (for Out), is on the waiting list, unless a queue
      operation still owes its notification or the loop is processing the item; and at every wait the Event bit
      is then set. */
  lemma {:induction false} ReadyIsNeverMissed(ss: seq<State>, acts: seq<Action>, i: nat, k: nat, o: nat, d: Items.Direction)
    requires IsRun(ss, acts) && i < k <= |acts| && acts[i] == Api(Subscribe(o, d, false))
    requires forall j :: i < j < k ==> acts[j] != Api(Unsubscribe(o))
    requires o in ss[k].sub.queues && Ready(ss[k].sub.queues[o], d)
    requires (o, d) !in ss[k].sub.owed && Looking(ss[k].pc) != Some(ss[i].sub.nextId)
    ensures ss[i].sub.nextId in ss[k].sub.waiting
    ensures ss[k].pc.Top? ==> ss[k].bits.event
  {
    SubscriptionStays(ss, acts, i, k, o, d, false);
    hide IsRun;
    LevelNeverMissed(ss, acts, k, o);
  }

  /** A notification of a subscribed object, of either kind, puts its item on the waiting list. */
  lemma {:induction false} NotifiedIsWaiting(ss: seq<State>, acts: seq<Action>, i: nat, k: nat,
                                             o: nat, d: Items.Direction, edge: bool)
    requires IsRun(ss, acts) && i < k < |acts| && acts[i] == Api(Subscribe(o, d, edge))
    requires forall j :: i < j < k ==> acts[j] != Api(Unsubscribe(o))
    requires acts[k] == Other(LinkNotify(o, d))
    ensures ss[i].sub.nextId in ss[k + 1].sub.waiting && ss[k + 1].bits.event
  {
    SubscriptionStays(ss, acts, i, k, o, d, edge);
    StepOf(ss, acts, k);
    RunKeepsInv(ss, acts, k);
    hide IsRun, LevelsInv, TimersInv, PendingInv, WakeInv;
    assert Items.LinkAgrees(ss[k].sub, o);
  }

  /** A popped item's callback begins exactly when the item is edge-triggered or its queue is ready; the item
      popped is the one that waited longest. */
  lemma {:induction false} CheckedIsCalled(ss: seq<State>, acts: seq<Action>, k: nat)
    requires IsRun(ss, acts) && k < |acts|
    ensures acts[k] == Loop(PopItem) && ss[k].sub.waiting != [] ==> ss[k + 1].pc == Checking(ss[k].sub.waiting[0])
    ensures acts[k] == Loop(CheckLevel) ==>
              && ss[k].pc.Checking? && ss[k].pc.item in ss[k].sub.items
              && var item := ss[k].sub.items[ss[k].pc.item];
                 && item.obj in ss[k].sub.queues
                 && (ss[k + 1].pc == EventCallback(ss[k].pc.item) <==> item.edge || Ready(ss[k].sub.queues[item.obj], item.dir))
  {
    StepOf(ss, acts, k);
    RunKeepsInv(ss, acts, k);
    hide IsRun, LevelsInv, TimersInv, PendingInv, WakeInv;
    if acts[k] == Loop(CheckLevel) {
      CheckStep(ss[k]);
    }
  }

  lemma {:induction false} CheckStep(s: State)
    requires ItemsInv(s) && LoopEnabled(s, CheckLevel)
    ensures var item := s.sub.items[s.pc.item];
            ApplyLoop(s, CheckLevel).pc == EventCallback(s.pc.item) <==> item.edge || Ready(s.sub.queues[item.obj], item.dir)
  {
  }

  /** An edge-triggered item gets on the waiting list only by a notification of its object: it is neither put there when
      subscribed nor put back after its callback. */
  lemma {:induction false} EdgeOnlyWhenNotified(ss: seq<State>, acts: seq<Action>, k: nat, i: nat)
    requires IsRun(ss, acts) && k < |acts| && i !in ss[k].sub.waiting && i in ss[k + 1].sub.waiting
    ensures i in ss[k + 1].sub.items
    ensures ss[k + 1].sub.items[i].edge ==> acts[k] == Other(LinkNotify(ss[k + 1].sub.items[i].obj, ss[k + 1].sub.items[i].dir))
  {
    StepOf(ss, acts, k);
    RunKeepsInv(ss, acts, k);
    RunKeepsInv(ss, acts, k + 1);
    assert Items.Subscribed(ss[k + 1].sub, i);
    hide IsRun, LevelsInv, TimersInv, PendingInv, WakeInv;
    if ss[k + 1].sub.items[i].edge {
      assert ItemsInv(ss[k]);
      hide ItemsInv;
      EdgeStep(ss[k], acts[k], i);
    }
  }

  lemma {:induction false} EdgeStep(s: State, a: Action, i: nat)
    requires ItemsInv(s) && Enabled(s, a) && i !in s.sub.waiting && i in Apply(s, a).sub.waiting
    requires i in Apply(s, a).sub.items && Apply(s, a).sub.items[i].edge
    ensures a == Other(LinkNotify(Apply(s, a).sub.items[i].obj, Apply(s, a).sub.items[i].dir))
  {
    match a
    case Loop(l) => hide Items.Inv, Items.Level;
    case Timer(m) => TimerKeepsItems(s, m);
    case Api(c) => EdgeCall(s, c, i);
    case Other(e) => EdgeOutside(s, e, i);
  }

  lemma {:induction false} EdgeCall(s: State, c: Call, i: nat)
    requires ItemsInv(s) && CallEnabled(s, c) && i !in s.sub.waiting && i in ApplyCall(s, c).sub.waiting
    ensures i in ApplyCall(s, c).sub.items && !ApplyCall(s, c).sub.items[i].edge
  {
    if c.Unsubscribe? {
      UnlinkFacts(s.sub.waiting, s.sub.tree[c.o]);
    }
    hide Items.Inv, Unlink, Tm.Enqueue, NoDup, Items.Level;
  }

  lemma {:induction false} EdgeOutside(s: State, e: Outside, i: nat)
    requires ItemsInv(s) && OutsideEnabled(s, e) && i !in s.sub.waiting && i in ApplyOutside(s, e).sub.waiting
    ensures i in s.sub.items && ApplyOutside(s, e).sub.items == s.sub.items
    ensures e == LinkNotify(s.sub.items[i].obj, s.sub.items[i].dir)
  {
    if e.LinkNotify? {
      assert Items.LinkAgrees(s.sub, e.o);
      assert e.o in s.sub.tree ==> Items.Subscribed(s.sub, s.sub.tree[e.o]);
    }
    hide Items.Inv, Tm.TickAllowed;
  }

  /** The item can never be called again: freed, or unsubscribed inside its own callback. */
  predicate Retired(s: State, i: nat) {
    i < s.sub.nextId && (i in s.sub.items ==> !s.sub.items[i].owned)
  }

  lemma {:induction false} UnsubscribeStep(s: State, o: nat)
    requires Inv(s) && Enabled(s, Api(Unsubscribe(o)))
    ensures Retired(Apply(s, Api(Unsubscribe(o))), s.sub.tree[o]) && o !in Apply(s, Api(Unsubscribe(o))).sub.tree
  {
    hide LevelsInv, TimersInv, PendingInv, WakeInv, Unlink;
    assert Items.Subscribed(s.sub, s.sub.tree[o]);
  }

  lemma {:induction false} RetiredStep(s: State, a: Action, i: nat)
    requires Inv(s) && Enabled(s, a) && Retired(s, i)
    ensures Retired(Apply(s, a), i)
    ensures Apply(s, a).pc == EventCallback(i) ==> s.pc == EventCallback(i)
  {
    assert ItemsInv(s);
    hide ItemsInv, LevelsInv, TimersInv, PendingInv, WakeInv;
    match a
    case Loop(l) => RetiredLoop(s, l, i);
    case Timer(m) => RetiredTimer(s, m);
    case Api(c) => RetiredCall(s, c, i);
    case Other(e) => RetiredOutside(s, e);
  }

  lemma {:induction false} RetiredTimer(s: State, m: TimerStep)
    requires TimerEnabled(s, m)
    ensures ApplyTimer(s, m).sub == s.sub && !ApplyTimer(s, m).pc.EventCallback?
  {
    hide Unlink, Tm.Expired, Tm.Scheduled, Tm.Elapsed, Tm.PopRequest, Tm.Rearm, Tm.Expire;
  }

  lemma {:induction false} RetiredOutside(s: State, e: Outside)
    requires OutsideEnabled(s, e)
    ensures ApplyOutside(s, e).sub.items == s.sub.items && ApplyOutside(s, e).sub.nextId == s.sub.nextId
    ensures ApplyOutside(s, e).pc == s.pc
  {
    hide Tm.TickAllowed;
  }

  lemma {:induction false} RetiredLoop(s: State, l: LoopStep, i: nat)
    requires ItemsInv(s) && LoopEnabled(s, l) && Retired(s, i)
    ensures Retired(ApplyLoop(s, l), i)
    ensures ApplyLoop(s, l).pc == EventCallback(i) ==> s.pc == EventCallback(i)
  {
    hide Items.Inv, Items.Level;
  }

  lemma {:induction false} RetiredCall(s: State, c: Call, i: nat)
    requires ItemsInv(s) && CallEnabled(s, c) && Retired(s, i)
    ensures Retired(ApplyCall(s, c), i) && ApplyCall(s, c).pc == s.pc
  {
    hide Items.Inv, Unlink, Tm.Enqueue, Items.Level;
  }

  /** After an object is unsubscribed, the callback of that subscription never begins again. */
  lemma {:induction false} UnsubscribedStaysSilent(ss: seq<State>, acts: seq<Action>, i: nat, k: nat, o: nat)
    requires IsRun(ss, acts) && i < k <= |acts| && acts[i] == Api(Unsubscribe(o))
    ensures o in ss[i].sub.tree && Retired(ss[k], ss[i].sub.tree[o])
    ensures k < |acts| && ss[k + 1].pc == EventCallback(ss[i].sub.tree[o]) ==> ss[k].pc == EventCallback(ss[i].sub.tree[o])
    decreases k
  {
    hide Init, Enabled, Apply, Retired, Inv;
    assert o in ss[i].sub.tree by {
      StepOf(ss, acts, i);
      CallOf(ss[i], o);
    }
    StepOf(ss, acts, k - 1);
    RunKeepsInv(ss, acts, k - 1);
    if k - 1 == i {
      UnsubscribeStep(ss[i], o);
    } else {
      UnsubscribedStaysSilent(ss, acts, i, k - 1, o);
      RetiredStep(ss[k - 1], acts[k - 1], ss[i].sub.tree[o]);
    }
    if k < |acts| {
      StepOf(ss, acts, k);
      RunKeepsInv(ss, acts, k);
      RetiredStep(ss[k], acts[k], ss[i].sub.tree[o]);
    }
  }

  lemma {:induction false} CallOf(s: State, o: nat)
    requires Enabled(s, Api(Unsubscribe(o)))
    ensures o in s.sub.tree
  {
  }
}
