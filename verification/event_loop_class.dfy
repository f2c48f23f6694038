/**
 The timer and subscription parts of a FuriEventLoop as objects updated in place.
 Each method is one function of event_loop_timer.c or event_loop.c; its contract
 is the step of the state machine that the run theorems are about.
 */
module EventLoopObjects {
  import opened Lists
  import opened EventLoopTimer
  import Items = EventLoopItems

  class TimerService {
    var timers: map<nat, Timer>
    var timerList: seq<nat>
    var timerQueue: seq<nat>
    var nextId: nat
    var now: nat
    var timerBit: bool                   // FuriEventLoopFlagTimer

    ghost var since: map<nat, nat>
    ghost var origin: map<nat, nat>
    ghost var periods: map<nat, nat>
    ghost var silenced: set<nat>

    ghost function View(): Timers
      reads this
    {
      Timers(timers, timerList, timerQueue, nextId, now, since, origin, periods, silenced)
    }

    constructor (clock: nat)
      ensures View() == NO_TIMERS.(now := clock) && Inv(View(), None) && !timerBit
    {
      timers, timerList, timerQueue, nextId, now, timerBit := map[], [], [], 0, clock, false;
      since, origin, periods, silenced := map[], map[], map[], {};
    }

    /** furi_event_loop_schedule_timer: scans the list from its end. */
    method ScheduleTimer(t: nat)
      requires Inv(View(), Some(t))
      modifies this`timerList
      ensures t in old(timers) && View() == Schedule(old(View()), t) && Inv(View(), None)
    {
      hide Remaining, Inv, InsertAt;
      ListAllocated(View(), Some(t));
      ScheduleInv(View(), t);
      var remaining := Remaining(timers[t], now);
      var k := |timerList|;
      while k > 0 && remaining < Remaining(timers[timerList[k - 1]], now)
        invariant 0 <= k <= |timerList|
        invariant forall i :: k <= i < |timerList| ==> remaining < Remaining(timers[timerList[i]], now)
        decreases k
      {
        k := k - 1;
      }
      PlaceUnique(timerList, timers, now, remaining, k);
      timerList := InsertAt(timerList, k, t);
    }

    /** furi_event_loop_timer_enqueue_request */
    method EnqueueRequest(t: nat, request: Request)
      requires Inv(View(), None) && t in timers && request != NoRequest
      requires timers[t].request != FreeRequest       // the furi_check
      requires request == StartRequest && timers[t].periodic ==> timers[t].nextInterval > 0
      modifies this`timers, this`timerQueue, this`silenced, this`timerBit
      ensures View() == Enqueue(old(View()), t, request, old(timers[t].nextInterval))
      ensures Inv(View(), None) && timerBit
    {
      assert timers[t].nextInterval < TICKS by { IntervalsFit(View(), t); }
      EnqueueInv(View(), None, t, request, timers[t].nextInterval);
      hide Inv, Unlink;
      if timers[t].request != NoRequest {
        timerQueue := Unlink(timerQueue, t);
      } else {
        assert t !in timerQueue by { NotQueued(View(), t); }
        UnlinkAbsent(timerQueue, t);
      }
      timers := timers[t := timers[t].(request := request)];
      timerQueue := timerQueue + [t];
      if request != StartRequest {
        silenced := silenced + {t};
      }
      timerBit := true;
    }

    /** furi_event_loop_timer_start */
    method Start(t: nat, interval: nat)
      requires Inv(View(), None) && t in timers && timers[t].request != FreeRequest
      requires interval < TICKS && (timers[t].periodic ==> interval > 0)
      modifies this`timers, this`timerQueue, this`silenced, this`timerBit
      ensures View() == Enqueue(old(View()), t, StartRequest, interval)
      ensures Inv(View(), None) && timerBit
    {
      hide Inv, Enqueue;
      NextIntervalFree(View(), t, interval);
      EnqueueTwice(View(), t, interval);
      timers := timers[t := timers[t].(nextInterval := interval)];
      EnqueueRequest(t, StartRequest);
    }

    /** furi_event_loop_timer_stop */
    method Stop(t: nat)
      requires Inv(View(), None) && t in timers && timers[t].request != FreeRequest
      modifies this`timers, this`timerQueue, this`silenced, this`timerBit
      ensures View() == Enqueue(old(View()), t, StopRequest, old(timers[t].nextInterval))
      ensures Inv(View(), None) && timerBit
    {
      EnqueueRequest(t, StopRequest);
    }

    /** furi_event_loop_timer_free */
    method Free(t: nat)
      requires Inv(View(), None) && t in timers && timers[t].request != FreeRequest
      modifies this`timers, this`timerQueue, this`silenced, this`timerBit
      ensures View() == Enqueue(old(View()), t, FreeRequest, old(timers[t].nextInterval))
      ensures Inv(View(), None) && timerBit
    {
      EnqueueRequest(t, FreeRequest);
    }

    /** One turn of the request loop, up to the call of schedule_timer. */
    method TakeRequest() returns (t: nat, start: bool)
      requires timerQueue != [] && timerQueue[0] in timers && timers[timerQueue[0]].request != NoRequest
      modifies this`timers, this`timerList, this`timerQueue, this`since, this`origin, this`periods, this`silenced
      ensures t == old(timerQueue)[0] && start == PopStarts(old(View())) && View() == PopRequest(old(View()))
      ensures timerQueue == old(timerQueue)[1..] && start == (old(timers)[t].request == StartRequest)
      ensures start ==>
                && t in timers && timers[t].active && timers[t].interval == old(timers)[t].nextInterval
                && timers[t].startTime == now % TICKS && timers[t].request == NoRequest && since[t] == origin[t] == now
      ensures old(timers)[t].request == StopRequest ==>
                t in timers && !timers[t].active && timers[t].request == NoRequest
      ensures old(timers)[t].request == FreeRequest ==> t !in timers
      ensures forall x :: x != t ==> (x in timers <==> x in old(timers)) && (x in timers ==> timers[x] == old(timers)[x])
    {
      hide Unlink;
      t := timerQueue[0];
      timerQueue := timerQueue[1..];
      if timers[t].active {
        timerList := Unlink(timerList, t);
      }
      start := timers[t].request == StartRequest;
      if timers[t].request == StartRequest {
        timers := timers[t := timers[t].(active := true, interval := timers[t].nextInterval,
                                         startTime := now % TICKS, request := NoRequest)];
        since, origin, periods := since[t := now], origin[t := now], periods[t := 0];
        silenced := silenced - {t};
      } else if timers[t].request == StopRequest {
        timers := timers[t := timers[t].(active := false, request := NoRequest)];
      } else {
        timers := timers - {t};
      }
    }

    /** furi_event_loop_process_timer_queue, within one tick. */
    method ProcessTimerQueue()
      requires Inv(View(), None)
      modifies this`timers, this`timerList, this`timerQueue, this`since, this`origin, this`periods, this`silenced
      ensures Inv(View(), None) && timerQueue == []
      ensures View() == Drained(old(View()))
    {
      hide Inv, PopRequest, Scheduled, PopStarts, Drained;
      while timerQueue != []
        invariant Inv(View(), None) && Drained(View()) == Drained(old(View()))
        decreases |timerQueue|
      {
        ghost var tm := View();
        PopRequestInv(tm);
        DrainedStep(tm);
        QueueShrinks(tm);
        var t, start := TakeRequest();
        if start {
          ScheduleTimer(t);
        }
      }
      DrainedEmpty(View());
    }

    /** furi_event_loop_process_expired_timers up to the callback, within one tick. */
    method ProcessExpiredTimers() returns (fired: Option<nat>)
      requires Inv(View(), None)
      modifies this`timers, this`timerList, this`since, this`periods
      ensures Inv(View(), None)
      ensures fired == None <==> old(timerList) == [] || (old(timerList)[0] in old(timers)
                                  && !Expired(old(timers)[old(timerList)[0]], now))
      ensures fired == None ==> View() == old(View())
      ensures fired.Some? ==> fired.value == old(timerList)[0] && View() == Fired(old(View()))
      ensures fired.Some? ==>
                var t := fired.value;
                && t in old(timers) && t in old(since) && old(since)[t] + old(timers)[t].interval <= now
                && t in timers && timers[t].periodic == old(timers)[t].periodic
                && (if timers[t].periodic
                    then t in timerList && timers[t].active && t in since && since[t] <= now < since[t] + timers[t].interval
                    else t !in timerList && !timers[t].active)
    {
      hide Inv, Scheduled, Running, Remaining, Elapsed;
      if timerList == [] {
        return None;
      }
      ghost var tm := View();
      FiredFacts(tm);
      ExpireInv(tm);
      var t := timerList[0];
      if !Expired(timers[t], now) {
        return None;
      }
      timerList := timerList[1..];
      if timers[t].periodic {
        RearmFrom(tm);
        MoveStart(t);
        ScheduleTimer(t);
      } else {
        timers := timers[t := timers[t].(active := false)];
      }
      fired := Some(t);
    }

    /** Advances the start by all the periods that have passed, to within one interval of now. */
    method MoveStart(t: nat)
      requires Running(View(), t) && timers[t].periodic
      modifies this`timers, this`since, this`periods
      ensures View() == Rearm(old(View()), t) && Running(View(), t)
      ensures since[t] <= now < since[t] + timers[t].interval
      ensures origin[t] + timers[t].interval * periods[t] == since[t]
    {
      RearmExact(View(), t);
      hide Elapsed;
      var n := Elapsed(timers[t], now) / timers[t].interval;
      since, periods := since[t := since[t] + timers[t].interval * n], periods[t := periods[t] + n];
      timers := timers[t := timers[t].(startTime := (timers[t].startTime + timers[t].interval * n) % TICKS)];
    }

    /** furi_event_loop_get_timer_wait_time: the time to the front timer's deadline, which no active timer's
        deadline precedes. The value that means waiting for ever is also a timer's when it was started in
        this very tick for that many ticks. */
    method GetTimerWaitTime() returns (wait: nat)
      requires Inv(View(), None)
      ensures wait <= WAIT_FOREVER
      ensures timerList == [] ==> wait == WAIT_FOREVER && forall t :: t in timers ==> !timers[t].active
      ensures timerList != [] ==>
                && timerList[0] in timers && timerList[0] in since && now + wait == Due(View(), timerList[0])
                && (wait == WAIT_FOREVER <==> Unending(View()))
                && forall t :: t in timers && timers[t].active ==> t in since && now + wait <= Due(View(), t)
    {
      wait := WAIT_FOREVER;
      if timerList != [] {
        assert timerList[0] in timerList;
        WaitIsEarliest(View(), timerList[0]);
        wait := Remaining(timers[timerList[0]], now);
        forall t | t in timers && timers[t].active
          ensures t in since && now + wait <= Due(View(), t)
        {
          WaitIsEarliest(View(), t);
        }
      }
    }

    /** The wait of furi_event_loop_run: ticks to sleep, or None for no limit. */
    method TicksToSleep(tickWait: nat) returns (sleep: Option<nat>)
      requires Inv(View(), None) && tickWait <= WAIT_FOREVER
      ensures timerList == [] ==> sleep == if tickWait == WAIT_FOREVER then None else Some(tickWait)
      ensures timerList != [] ==>
                && timerList[0] in timers && sleep == Sleep(View(), tickWait)
                && (InTime(View(), sleep) <==> !(tickWait == WAIT_FOREVER && Unending(View())))
    {
      hide Inv, Due, InTime, Unending, Remaining;
      var wait := GetTimerWaitTime();
      if timerList != [] {
        NeverOversleeps(View(), tickWait);
        WaitIs(View(), wait);
      }
      if tickWait < wait {
        wait := tickWait;
      }
      sleep := if wait == WAIT_FOREVER then None else Some(wait);
    }
  }

  lemma {:induction false} WaitIs(tm: Timers, wait: nat)
    requires tm.list != [] && tm.list[0] in tm.timers && tm.list[0] in tm.since && Inv(tm, None)
    requires tm.now + wait == Due(tm, tm.list[0])
    ensures wait == WaitTime(tm)
  {
    assert tm.list[0] in tm.list;
    WaitIsEarliest(tm, tm.list[0]);
  }

  datatype FuriStatus =
    FuriStatusOk | FuriStatusErrorTimeout | FuriStatusErrorResource | FuriStatusErrorParameter | FuriStatusErrorISR

  class Subscriptions {
    var queues: map<nat, Items.Queue>
    var tree: map<nat, nat>
    var items: map<nat, Items.Item>
    var waitingList: seq<nat>
    var nextId: nat
    var currentItem: Option<nat>
    var eventBit: bool                    // FuriEventLoopFlagEvent

    ghost var owed: multiset<(nat, Items.Direction)>
    ghost var frees: multiset<nat>

    ghost function View(): Items.Subs
      reads this
    {
      Items.Subs(queues, tree, items, waitingList, owed, nextId, frees)
    }

    /** furi_event_loop_item_notify */
    method ItemNotify(i: nat)
      requires i in items && items[i].owned
      modifies this`waitingList, this`eventBit
      ensures View() == Items.Push(old(View()), i) && eventBit
      ensures i in waitingList && old(waitingList) <= waitingList
    {
      if i !in waitingList {
        waitingList := waitingList + [i];
      }
      eventBit := true;
    }

    /** furi_event_loop_link_notify, called by a queue operation that owes it. */
    method LinkNotify(o: nat, d: Items.Direction)
      requires Items.Inv(View(), currentItem) && (o, d) in owed
      modifies this`waitingList, this`eventBit, this`owed
      ensures o in old(queues) && View() == Items.LinkNotify(old(View()), o, d)
      ensures eventBit == (old(eventBit) || Items.Slot(queues[o], d).Some?)
      ensures Items.Inv(View(), currentItem)
    {
      hide Items.Inv;
      Items.LinkNotifyInv(View(), currentItem, None, o, d);
      if Items.Slot(queues[o], d).Some? {
        LinkedItemOwned(View(), currentItem, o, d);
      }
      owed := owed - multiset{(o, d)};
      var slot := if d == Items.In then queues[o].itemIn else queues[o].itemOut;
      if slot.Some? {
        ItemNotify(slot.value);
      }
    }

    /** furi_message_queue_put. With a timeout it has waited until there was room or time ran out. */
    method QueuePut(o: nat, isr: bool, message: bool, timeout: nat) returns (status: FuriStatus)
      requires Items.Inv(View(), currentItem) && o in queues
      modifies this`queues, this`waitingList, this`eventBit, this`owed
      ensures status == FuriStatusOk <==> old(queues)[o].count < old(queues)[o].capacity && message && (isr ==> timeout == 0)
      ensures status == FuriStatusErrorParameter <==> !message || (isr && timeout != 0)
      ensures status == FuriStatusErrorTimeout <==> !(old(queues)[o].count < old(queues)[o].capacity) && message && !isr && timeout != 0
      ensures status == FuriStatusErrorResource <==> !(old(queues)[o].count < old(queues)[o].capacity) && message && timeout == 0
      ensures forall x :: x in old(queues) ==> x in queues && (x != o ==> queues[x] == old(queues)[x])
      ensures queues[o] == old(queues)[o].(count := old(queues)[o].count + if status == FuriStatusOk then 1 else 0)
      ensures status != FuriStatusOk ==> View() == old(View()) && eventBit == old(eventBit)
      ensures status == FuriStatusOk ==>
                && View() == Items.LinkNotify(Items.Put(old(View()), o), o, Items.In)
                && eventBit == (old(eventBit) || Items.Slot(old(queues)[o], Items.In).Some?)
      ensures Items.Inv(View(), currentItem)
    {
      hide Items.Inv;
      status := FuriStatusOk;
      var sent := queues[o].count < queues[o].capacity;
      if isr {
        if !message || timeout != 0 {
          status := FuriStatusErrorParameter;
        } else if !sent {
          status := FuriStatusErrorResource;
        }
      } else if !message {
        status := FuriStatusErrorParameter;
      } else if !sent {
        status := if timeout != 0 then FuriStatusErrorTimeout else FuriStatusErrorResource;
      }
      if status == FuriStatusOk {
        Items.QueueOpInv(View(), currentItem, o, queues[o].count + 1, Items.In);
        queues := queues[o := queues[o].(count := queues[o].count + 1)];
        owed := owed + multiset{(o, Items.In)};
        LinkNotify(o, Items.In);
      }
    }

    /** furi_message_queue_get. With a timeout it has waited until there was a message or time ran out. */
    method QueueGet(o: nat, isr: bool, message: bool, timeout: nat) returns (status: FuriStatus)
      requires Items.Inv(View(), currentItem) && o in queues
      modifies this`queues, this`waitingList, this`eventBit, this`owed
      ensures status == FuriStatusOk <==> old(queues)[o].count > 0 && message && (isr ==> timeout == 0)
      ensures status == FuriStatusErrorParameter <==> !message || (isr && timeout != 0)
      ensures status == FuriStatusErrorTimeout <==> !(old(queues)[o].count > 0) && message && !isr && timeout != 0
      ensures status == FuriStatusErrorResource <==> !(old(queues)[o].count > 0) && message && timeout == 0
      ensures forall x :: x in old(queues) ==> x in queues && (x != o ==> queues[x] == old(queues)[x])
      ensures queues[o] == old(queues)[o].(count := old(queues)[o].count - if status == FuriStatusOk then 1 else 0)
      ensures status != FuriStatusOk ==> View() == old(View()) && eventBit == old(eventBit)
      ensures status == FuriStatusOk ==>
                && View() == Items.LinkNotify(Items.Get(old(View()), o), o, Items.Out)
                && eventBit == (old(eventBit) || Items.Slot(old(queues)[o], Items.Out).Some?)
      ensures Items.Inv(View(), currentItem)
    {
      hide Items.Inv;
      status := FuriStatusOk;
      var received := queues[o].count > 0;
      if isr {
        if !message || timeout != 0 {
          status := FuriStatusErrorParameter;
        } else if !received {
          status := FuriStatusErrorResource;
        }
      } else if !message {
        status := FuriStatusErrorParameter;
      } else if !received {
        status := if timeout != 0 then FuriStatusErrorTimeout else FuriStatusErrorResource;
      }
      if status == FuriStatusOk {
        Items.QueueOpInv(View(), currentItem, o, queues[o].count - 1, Items.Out);
        queues := queues[o := queues[o].(count := queues[o].count - 1)];
        owed := owed + multiset{(o, Items.Out)};
        LinkNotify(o, Items.Out);
      }
    }

    /** furi_message_queue_reset, refused in an interrupt. */
    method QueueReset(o: nat, isr: bool) returns (status: FuriStatus)
      requires Items.Inv(View(), currentItem) && o in queues
      modifies this`queues, this`waitingList, this`eventBit, this`owed
      ensures status == if isr then FuriStatusErrorISR else FuriStatusOk
      ensures forall x :: x in old(queues) ==> x in queues && (x != o ==> queues[x] == old(queues)[x])
      ensures queues[o] == old(queues)[o].(count := if isr then old(queues)[o].count else 0)
      ensures status != FuriStatusOk ==> View() == old(View()) && eventBit == old(eventBit)
      ensures status == FuriStatusOk ==>
                && View() == Items.LinkNotify(Items.Reset(old(View()), o), o, Items.Out)
                && eventBit == (old(eventBit) || Items.Slot(old(queues)[o], Items.Out).Some?)
      ensures Items.Inv(View(), currentItem)
    {
      hide Items.Inv;
      if isr {
        return FuriStatusErrorISR;
      }
      Items.QueueOpInv(View(), currentItem, o, 0, Items.Out);
      queues := queues[o := queues[o].(count := 0)];
      owed := owed + multiset{(o, Items.Out)};
      LinkNotify(o, Items.Out);
      status := FuriStatusOk;
    }

    /** furi_event_loop_object_subscribe; the requires are its furi_checks. */
    method Subscribe(o: nat, d: Items.Direction, edge: bool)
      requires Items.Inv(View(), currentItem) && Items.CanSubscribe(View(), o, d)
      modifies this`queues, this`tree, this`items, this`waitingList, this`nextId, this`eventBit
      ensures View() == Items.Subscribe(old(View()), o, d, edge) && Items.Inv(View(), currentItem)
      ensures o in tree && tree[o] in items && tree[o] !in old(items) && items[tree[o]] == Items.Item(o, d, edge, true)
      ensures forall x :: x in old(tree) ==> x in tree && tree[x] == old(tree)[x]
      ensures eventBit == (old(eventBit) || Items.LevelOnSubscribe(old(View()), o, d, edge))
    {
      hide Items.Inv, Items.Enroll;
      NewIdentity(View(), currentItem);
      Items.SubscribeInv(View(), currentItem, o, d, edge);
      EnrolledItem(View(), o, d, edge);
      var i := EnrollItem(o, d, edge);
      if !edge && Items.Level(queues[o], d) > 0 {
        ItemNotify(i);
      }
    }

    /** Allocates the item and enters it in the tree and in the queue's link. */
    method EnrollItem(o: nat, d: Items.Direction, edge: bool) returns (i: nat)
      requires o in queues
      modifies this`queues, this`tree, this`items, this`nextId
      ensures i == old(nextId) && View() == Items.Enroll(old(View()), o, d, edge)
      ensures tree == old(tree)[o := i] && items == old(items)[i := Items.Item(o, d, edge, true)]
    {
      i := nextId;
      items := items[i := Items.Item(o, d, edge, true)];
      nextId := i + 1;
      tree := tree[o := i];
      if d == Items.In {
        queues := queues[o := queues[o].(itemIn := Some(i))];
      } else {
        queues := queues[o := queues[o].(itemOut := Some(i))];
      }
    }

    /** furi_event_loop_unsubscribe; an item in its own callback is only marked. */
    method Unsubscribe(o: nat)
      requires Items.Inv(View(), currentItem) && o in tree
      modifies this`queues, this`tree, this`items, this`waitingList, this`frees
      ensures old(tree)[o] in old(items) && o in old(queues)
      ensures View() == Items.Unsubscribe(old(View()), o, currentItem) && Items.Inv(View(), currentItem)
      ensures o !in tree && old(tree)[o] !in waitingList
      ensures old(tree)[o] in items <==> currentItem == Some(old(tree)[o])
      ensures old(tree)[o] in items ==> !items[old(tree)[o]].owned
      ensures forall x :: x in old(tree) && x != o ==> x in tree && tree[x] == old(tree)[x]
    {
      hide Items.Inv, Unlink;
      Items.UnsubscribeInv(View(), currentItem, o);
      UnsubscribeFacts(View(), o, currentItem);
      var i := tree[o];
      tree := tree - {o};
      if items[i].dir == Items.In {
        queues := queues[o := queues[o].(itemIn := None)];
      } else {
        queues := queues[o := queues[o].(itemOut := None)];
      }
      if i in waitingList {
        waitingList := Unlink(waitingList, i);
      } else {
        UnlinkAbsent(waitingList, i);
      }
      if currentItem == Some(i) {
        items := items[i := items[i].(owned := false)];
      } else {
        items := items - {i};
        frees := frees + multiset{i};
      }
    }

    /** furi_event_loop_get_waiting_item, with the item becoming current. */
    method GetWaitingItem() returns (item: Option<nat>)
      requires Items.Inv(View(), None) && currentItem == None
      modifies this`waitingList, this`currentItem
      ensures item == None <==> old(waitingList) == []
      ensures item == None ==> View() == old(View()) && currentItem == None
      ensures item.Some? ==>
                && item.value == old(waitingList)[0] && currentItem == item
                && View() == Items.PopWaiting(old(View())) && item.value in items
      ensures Items.Inv(View(), currentItem)
    {
      item := None;
      if waitingList != [] {
        Items.PopInv(View());
        hide Items.Inv;
        item := Some(waitingList[0]);
        waitingList := waitingList[1..];
        currentItem := item;
      }
    }

    /** The test before the callback: an edge event is always passed on, a level event if its level is up. */
    method CheckItem() returns (call: bool)
      requires currentItem.Some? && currentItem.value in items && items[currentItem.value].obj in queues
      ensures var item := items[currentItem.value];
              call == (item.edge || Items.Level(queues[item.obj], item.dir) > 0)
    {
      var item := items[currentItem.value];
      call := true;
      if !item.edge {
        call := Items.Level(queues[item.obj], item.dir) > 0;
      }
    }

    /** The end of process_event and process_waiting_list for the current item, whose callback ran if called
        says so: free it if it was unsubscribed, put it back if its level is still up, then sync_flags. */
    method FinishItem(called: bool)
      requires currentItem.Some? && currentItem.value in items && Items.Inv(View(), currentItem)
      requires items[currentItem.value].obj in queues
      modifies this`waitingList, this`items, this`frees, this`currentItem, this`eventBit
      ensures currentItem == None && Items.Inv(View(), None)
      ensures var i := old(currentItem).value;
              var item := old(items)[i];
              View() == if !item.owned then Items.FreeItem(old(View()), i)
                        else if called && !item.edge && Items.Level(old(queues)[item.obj], item.dir) > 0
                        then Items.Push(old(View()), i)
                        else old(View())
      ensures eventBit == (old(eventBit) || waitingList != [])
    {
      hide Items.Inv;
      var i := currentItem.value;
      ghost var sub := View();
      var incomplete := false;
      if called && !items[i].edge {
        incomplete := Items.Level(queues[items[i].obj], items[i].dir) > 0;
      }
      currentItem := None;
      if !items[i].owned {
        Items.ReleaseInv(sub, None, i);
        items := items - {i};
        frees := frees + multiset{i};
      } else {
        Items.DoneInv(sub, i);
        if incomplete {
          Items.OwnedIsSubscribed(sub, None, i);
          Items.PushInv(sub, None, None, i);
          ItemNotify(i);
        }
      }
      if waitingList != [] {
        eventBit := true;
      }
    }
  }

  lemma {:induction false} LinkedItemOwned(sub: Items.Subs, busy: Option<nat>, o: nat, d: Items.Direction)
    requires Items.Inv(sub, busy) && o in sub.queues && Items.Slot(sub.queues[o], d).Some?
    ensures var i := Items.Slot(sub.queues[o], d).value; i in sub.items && sub.items[i].owned
  {
    assert Items.LinkAgrees(sub, o);
    assert Items.Subscribed(sub, sub.tree[o]);
  }

  lemma {:induction false} NewIdentity(sub: Items.Subs, current: Option<nat>)
    requires Items.Inv(sub, current)
    ensures sub.nextId !in sub.items
  {
    hide Items.Agree;
  }

  /** What an unsubscription leaves behind. */
  lemma {:induction false} UnsubscribeFacts(sub: Items.Subs, o: nat, current: Option<nat>)
    requires Items.Inv(sub, current) && o in sub.tree && sub.tree[o] in sub.items && o in sub.queues
    ensures var i, sub' := sub.tree[o], Items.Unsubscribe(sub, o, current);
            && o !in sub'.tree && i !in sub'.waiting && (i in sub'.items <==> current == Some(i))
            && (i in sub'.items ==> !sub'.items[i].owned)
            && forall x :: x in sub.tree && x != o ==> x in sub'.tree && sub'.tree[x] == sub.tree[x]
  {
    UnlinkFacts(sub.waiting, sub.tree[o]);
    hide Items.Inv, Unlink, NoDup;
  }

  lemma {:induction false} EnrolledItem(sub: Items.Subs, o: nat, d: Items.Direction, edge: bool)
    requires o in sub.queues
    ensures var sub' := Items.Enroll(sub, o, d, edge);
            && sub.nextId in sub'.items && sub'.items[sub.nextId].owned
            && o in sub'.queues && Items.Level(sub'.queues[o], d) == Items.Level(sub.queues[o], d)
  {
  }
}
