/**
 Subscriptions of message queues to an event loop (event_loop.c, message_queue.c):
 the object tree, the link inside each queue, the waiting list, and the life of
 the items. Each function is one critical section, or one queue operation that
 other threads can see.
 */
module EventLoopItems {
  import opened Lists

  datatype Direction = In | Out

  /** A subscription; owned is false once it was unsubscribed inside its own callback. */
  datatype Item = Item(obj: nat, dir: Direction, edge: bool, owned: bool)

  datatype Queue = Queue(count: nat, capacity: nat, itemIn: Option<nat>, itemOut: Option<nat>)

  datatype Subs = Subs(
    queues: map<nat, Queue>,
    tree: map<nat, nat>,               // object -> item
    items: map<nat, Item>,             // allocated items
    waiting: seq<nat>,
    owed: multiset<(nat, Direction)>,  // queue operations done whose link_notify is still to come
    nextId: nat,
    frees: multiset<nat>)              // every item ever passed to free

  function Slot(q: Queue, d: Direction): Option<nat> {
    if d == In then q.itemIn else q.itemOut
  }

  function WithSlot(q: Queue, d: Direction, i: Option<nat>): Queue {
    if d == In then q.(itemIn := i) else q.(itemOut := i)
  }

  /** get_level of the message queue contract: messages, or free space. */
  function Level(q: Queue, d: Direction): int {
    if d == In then q.count else q.capacity - q.count
  }

  // ---------- Steps ----------

  /** item_notify up to setting the Event bit. */
  function Push(sub: Subs, i: nat): Subs {
    if i in sub.waiting then sub else sub.(waiting := sub.waiting + [i])
  }

  function Put(sub: Subs, o: nat): Subs
    requires o in sub.queues
  {
    sub.(queues := sub.queues[o := sub.queues[o].(count := sub.queues[o].count + 1)],
         owed := sub.owed + multiset{(o, In)})
  }

  function Get(sub: Subs, o: nat): Subs
    requires o in sub.queues && sub.queues[o].count > 0
  {
    sub.(queues := sub.queues[o := sub.queues[o].(count := sub.queues[o].count - 1)],
         owed := sub.owed + multiset{(o, Out)})
  }

  function Reset(sub: Subs, o: nat): Subs
    requires o in sub.queues
  {
    sub.(queues := sub.queues[o := sub.queues[o].(count := 0)], owed := sub.owed + multiset{(o, Out)})
  }

  /** furi_event_loop_link_notify, paying off one owed notification. */
  function LinkNotify(sub: Subs, o: nat, d: Direction): Subs
    requires o in sub.queues
  {
    var sub1 := sub.(owed := sub.owed - multiset{(o, d)});
    match Slot(sub.queues[o], d)
    case Some(i) => Push(sub1, i)
    case None => sub1
  }

  predicate CanSubscribe(sub: Subs, o: nat, d: Direction) {
    o in sub.queues && o !in sub.tree && Slot(sub.queues[o], d) == None
  }

  predicate LevelOnSubscribe(sub: Subs, o: nat, d: Direction, edge: bool)
    requires o in sub.queues
  {
    !edge && Level(sub.queues[o], d) > 0
  }

  function Subscribe(sub: Subs, o: nat, d: Direction, edge: bool): Subs
    requires o in sub.queues
  {
    var sub1 := Enroll(sub, o, d, edge);
    if LevelOnSubscribe(sub, o, d, edge) then Push(sub1, sub.nextId) else sub1
  }

  /** Allocates the item and enters it in the tree and in the queue's link. */
  function Enroll(sub: Subs, o: nat, d: Direction, edge: bool): Subs
    requires o in sub.queues
  {
    var i := sub.nextId;
    sub.(items := sub.items[i := Item(o, d, edge, true)],
         tree := sub.tree[o := i],
         queues := sub.queues[o := WithSlot(sub.queues[o], d, Some(i))],
         nextId := i + 1)
  }

  /** furi_event_loop_unsubscribe; current is the item whose callback is running, if any. */
  function Unsubscribe(sub: Subs, o: nat, current: Option<nat>): Subs
    requires o in sub.tree && sub.tree[o] in sub.items && o in sub.queues
  {
    var i := sub.tree[o];
    var sub1 := sub.(tree := sub.tree - {o},
                     queues := sub.queues[o := WithSlot(sub.queues[o], sub.items[i].dir, None)],
                     waiting := Unlink(sub.waiting, i));
    if current == Some(i) then sub1.(items := sub.items[i := sub.items[i].(owned := false)])
    else FreeItem(sub1, i)
  }

  function FreeItem(sub: Subs, i: nat): Subs {
    sub.(items := sub.items - {i}, frees := sub.frees + multiset{i})
  }

  function PopWaiting(sub: Subs): Subs
    requires sub.waiting != []
  {
    sub.(waiting := sub.waiting[1..])
  }

  // ---------- Invariants ----------

  /** Item i is subscribed: the tree maps its object to it, and it has its owner. */
  predicate Subscribed(sub: Subs, i: nat) {
    && i in sub.items && sub.items[i].owned
    && sub.items[i].obj in sub.tree && sub.tree[sub.items[i].obj] == i
  }

  /** The item the tree has for direction d of object o. */
  function TreeSlot(sub: Subs, o: nat, d: Direction): Option<nat> {
    if o in sub.tree && sub.tree[o] in sub.items && sub.items[sub.tree[o]].dir == d then Some(sub.tree[o]) else None
  }

  /** A queue's link holds exactly the item the tree has for it, in the slot of its direction. */
  predicate LinkAgrees(sub: Subs, o: nat)
    requires o in sub.queues
  {
    sub.queues[o].itemIn == TreeSlot(sub, o, In) && sub.queues[o].itemOut == TreeSlot(sub, o, Out)
  }

  ghost predicate TreeOk(sub: Subs) {
    forall o :: o in sub.tree ==> o in sub.queues && Subscribed(sub, sub.tree[o]) && sub.items[sub.tree[o]].obj == o
  }

  ghost predicate LinksOk(sub: Subs) {
    forall o :: o in sub.queues ==> LinkAgrees(sub, o)
  }

  ghost predicate WaitingOk(sub: Subs) {
    NoDup(sub.waiting) && forall i :: i in sub.waiting ==> Subscribed(sub, i)
  }

  ghost predicate CountsOk(sub: Subs) {
    && (forall o :: o in sub.queues ==> sub.queues[o].count <= sub.queues[o].capacity)
    && (forall e :: e in sub.owed ==> e.0 in sub.queues)
  }

  /** Tree, links and waiting list agree. */
  ghost predicate Agree(sub: Subs) {
    TreeOk(sub) && LinksOk(sub) && WaitingOk(sub) && CountsOk(sub)
  }

  /** Every item ever allocated is either still allocated or was freed exactly once; only the item
      the loop is busy with may outlive its subscription. */
  ghost predicate Lives(sub: Subs, busy: Option<nat>) {
    && (forall i :: i in sub.items ==> i < sub.nextId && (Subscribed(sub, i) || (busy == Some(i) && !sub.items[i].owned)))
    && (forall i: nat :: sub.frees[i] == if i < sub.nextId && i !in sub.items then 1 else 0)
    && (busy.Some? ==> busy.value in sub.items)
  }

  ghost predicate Inv(sub: Subs, busy: Option<nat>) {
    Agree(sub) && Lives(sub, busy)
  }

  /** Level-triggered subscriptions miss nothing: a non-zero level means the item waits, or a
      notification is owed, or the loop is between popping the item and its last look at the level. */
  ghost predicate LevelsCovered(sub: Subs, looking: Option<nat>) {
    forall o {:trigger sub.tree[o]} :: o in sub.tree && Covering(sub, o) ==>
      sub.tree[o] in sub.waiting || (o, sub.items[sub.tree[o]].dir) in sub.owed || looking == Some(sub.tree[o])
  }

  /** The subscription on o is level-triggered and its level is non-zero. */
  predicate Covering(sub: Subs, o: nat)
    requires o in sub.tree
  {
    && o in sub.queues && sub.tree[o] in sub.items
    && !sub.items[sub.tree[o]].edge
    && Level(sub.queues[o], sub.items[sub.tree[o]].dir) > 0
  }

  // ---------- Preservation ----------

  lemma {:induction false} PushInv(sub: Subs, busy: Option<nat>, looking: Option<nat>, i: nat)
    requires Inv(sub, busy) && Subscribed(sub, i)
    ensures Inv(Push(sub, i), busy)
    ensures LevelsCovered(sub, looking) ==> LevelsCovered(Push(sub, i), looking)
  {
    var sub' := Push(sub, i);
    forall o | o in sub'.queues
      ensures LinkAgrees(sub', o)
    {
      assert LinkAgrees(sub, o);
    }
  }

  /** The state after a queue operation: only the count changes, and a notification is owed. */
  function AfterOp(sub: Subs, o: nat, n: nat, d: Direction): Subs
    requires o in sub.queues
  {
    sub.(queues := sub.queues[o := sub.queues[o].(count := n)], owed := sub.owed + multiset{(o, d)})
  }

  lemma {:induction false} QueueOpInv(sub: Subs, busy: Option<nat>, o: nat, n: nat, d: Direction)
    requires Inv(sub, busy) && o in sub.queues && (n <= sub.queues[o].capacity || n <= sub.queues[o].count)
    ensures Inv(AfterOp(sub, o, n, d), busy)
  {
    var sub' := AfterOp(sub, o, n, d);
    forall x | x in sub'.queues
      ensures LinkAgrees(sub', x)
    {
      assert LinkAgrees(sub, x);
    }
    assert forall i :: Subscribed(sub, i) ==> Subscribed(sub', i);
    hide Subscribed, LinkAgrees, NoDup;
  }

  /** A queue operation owes the notification for the level it may raise. */
  lemma {:induction false} QueueOpCovered(sub: Subs, looking: Option<nat>, o: nat, n: nat, d: Direction)
    requires o in sub.queues && LevelsCovered(sub, looking)
    requires if d == In then n >= sub.queues[o].count else n <= sub.queues[o].count
    ensures LevelsCovered(AfterOp(sub, o, n, d), looking)
  {
    var sub' := AfterOp(sub, o, n, d);
    forall x | x in sub'.tree && Covering(sub', x)
      ensures sub'.tree[x] in sub'.waiting || (x, sub'.items[sub'.tree[x]].dir) in sub'.owed
           || looking == Some(sub'.tree[x])
    {
      if !Covering(sub, x) {
        assert x == o && sub.items[sub.tree[o]].dir == d;
      }
    }
  }

  lemma {:induction false} LinkNotifyInv(sub: Subs, busy: Option<nat>, looking: Option<nat>, o: nat, d: Direction)
    requires Inv(sub, busy) && (o, d) in sub.owed
    ensures o in sub.queues && Inv(LinkNotify(sub, o, d), busy)
    ensures LevelsCovered(sub, looking) ==> LevelsCovered(LinkNotify(sub, o, d), looking)
  {
    assert (o, d).0 == o;
    var sub1 := sub.(owed := sub.owed - multiset{(o, d)});
    assert LinkAgrees(sub, o);
    assert Inv(sub1, busy) by {
      assert forall e :: e in sub1.owed ==> e in sub.owed;
      forall x | x in sub.queues
        ensures LinkAgrees(sub1, x)
      {
        assert LinkAgrees(sub, x);
      }
    }
    if Slot(sub.queues[o], d).Some? {
      PushInv(sub1, busy, looking, Slot(sub.queues[o], d).value);
    }
    if LevelsCovered(sub, looking) {
      LinkNotifyCovered(sub, looking, o, d);
    }
  }

  /** The notified item is on the waiting list afterwards, so paying the debt uncovers nothing. */
  lemma {:induction false} LinkNotifyCovered(sub: Subs, looking: Option<nat>, o: nat, d: Direction)
    requires o in sub.queues && LinkAgrees(sub, o) && LevelsCovered(sub, looking)
    ensures LevelsCovered(LinkNotify(sub, o, d), looking)
  {
    var sub' := LinkNotify(sub, o, d);
    forall x | x in sub'.tree && Covering(sub', x)
      ensures sub'.tree[x] in sub'.waiting || (x, sub'.items[sub'.tree[x]].dir) in sub'.owed
           || looking == Some(sub'.tree[x])
    {
      assert Covering(sub, x);
      if x == o && sub.items[sub.tree[x]].dir == d {
        assert Slot(sub.queues[o], d) == Some(sub.tree[o]);
      }
    }
  }

  /** Subscriptions other than item i carry over when only i's records change. */
  lemma {:induction false} OthersSubscribed(sub: Subs, sub': Subs, i: nat)
    requires forall k :: k in sub.items && k != i ==> k in sub'.items && sub'.items[k] == sub.items[k]
    requires forall o :: o in sub.tree && sub.tree[o] != i ==> o in sub'.tree && sub'.tree[o] == sub.tree[o]
    ensures forall k :: k != i && Subscribed(sub, k) ==> Subscribed(sub', k)
  {
  }

  lemma {:induction false} EnrollLinks(sub: Subs, o: nat, d: Direction, edge: bool)
    requires TreeOk(sub) && LinksOk(sub) && CanSubscribe(sub, o, d) && sub.nextId !in sub.items
    ensures LinksOk(Enroll(sub, o, d, edge))
  {
    var sub' := Enroll(sub, o, d, edge);
    forall x | x in sub'.queues
      ensures LinkAgrees(sub', x)
    {
      assert LinkAgrees(sub, x);
      assert x in sub.tree ==> Subscribed(sub, sub.tree[x]);
    }
  }

  lemma {:induction false} EnrollTree(sub: Subs, o: nat, d: Direction, edge: bool)
    requires TreeOk(sub) && CanSubscribe(sub, o, d) && sub.nextId !in sub.items
    ensures TreeOk(Enroll(sub, o, d, edge)) && Subscribed(Enroll(sub, o, d, edge), sub.nextId)
    ensures forall k :: Subscribed(sub, k) ==> Subscribed(Enroll(sub, o, d, edge), k)
  {
    var i, sub' := sub.nextId, Enroll(sub, o, d, edge);
    OthersSubscribed(sub, sub', i);
    assert Subscribed(sub', i);
    assert !Subscribed(sub, i);
    hide Subscribed;
  }

  lemma {:induction false} EnrollInv(sub: Subs, busy: Option<nat>, o: nat, d: Direction, edge: bool)
    requires Inv(sub, busy) && CanSubscribe(sub, o, d)
    ensures Inv(Enroll(sub, o, d, edge), busy)
    ensures Subscribed(Enroll(sub, o, d, edge), sub.nextId)
  {
    hide LinksOk, TreeOk, NoDup, Subscribed;
    var i, sub' := sub.nextId, Enroll(sub, o, d, edge);
    assert i !in sub.items;
    EnrollLinks(sub, o, d, edge);
    EnrollTree(sub, o, d, edge);
    EnrollRest(sub, o, d, edge);
    EnrollLives(sub, busy, o, d, edge);
  }

  lemma {:induction false} EnrollRest(sub: Subs, o: nat, d: Direction, edge: bool)
    requires o in sub.queues && WaitingOk(sub) && CountsOk(sub)
    requires forall k :: Subscribed(sub, k) ==> Subscribed(Enroll(sub, o, d, edge), k)
    ensures WaitingOk(Enroll(sub, o, d, edge)) && CountsOk(Enroll(sub, o, d, edge))
  {
    hide NoDup, Subscribed;
  }

  lemma {:induction false} EnrollLives(sub: Subs, busy: Option<nat>, o: nat, d: Direction, edge: bool)
    requires o in sub.queues && Lives(sub, busy) && Subscribed(Enroll(sub, o, d, edge), sub.nextId)
    requires forall k :: Subscribed(sub, k) ==> Subscribed(Enroll(sub, o, d, edge), k)
    ensures Lives(Enroll(sub, o, d, edge), busy)
  {
    hide Subscribed;
  }

  lemma {:induction false} SubscribeInv(sub: Subs, busy: Option<nat>, o: nat, d: Direction, edge: bool)
    requires Inv(sub, busy) && CanSubscribe(sub, o, d)
    ensures Inv(Subscribe(sub, o, d, edge), busy)
  {
    EnrollInv(sub, busy, o, d, edge);
    hide Inv, Enroll;
    if LevelOnSubscribe(sub, o, d, edge) {
      PushInv(Enroll(sub, o, d, edge), busy, None, sub.nextId);
    }
  }

  /** A new level-triggered subscription with a non-zero level goes straight to the waiting list. */
  lemma {:induction false} SubscribeCovered(sub: Subs, looking: Option<nat>, o: nat, d: Direction, edge: bool)
    requires o in sub.queues && LevelsCovered(sub, looking)
    requires sub.nextId !in sub.items && (looking.Some? ==> looking.value < sub.nextId)
    requires forall x :: x in sub.tree ==> sub.tree[x] in sub.items
    ensures LevelsCovered(Subscribe(sub, o, d, edge), looking)
  {
    var sub' := Subscribe(sub, o, d, edge);
    forall x | x in sub'.tree && Covering(sub', x)
      ensures sub'.tree[x] in sub'.waiting || (x, sub'.items[sub'.tree[x]].dir) in sub'.owed
           || looking == Some(sub'.tree[x])
    {
      if x != o {
        assert Covering(sub, x);
      }
    }
  }

  lemma {:induction false} UnsubscribeLinks(sub: Subs, o: nat, current: Option<nat>)
    requires TreeOk(sub) && LinksOk(sub) && o in sub.tree && sub.tree[o] in sub.items && o in sub.queues
    ensures LinksOk(Unsubscribe(sub, o, current))
  {
    hide Unlink;
    var i, sub' := sub.tree[o], Unsubscribe(sub, o, current);
    forall x | x in sub'.queues
      ensures LinkAgrees(sub', x)
    {
      assert LinkAgrees(sub, x);
      assert x in sub.tree ==> Subscribed(sub, sub.tree[x]);
    }
  }

  lemma {:induction false} UnsubscribeTree(sub: Subs, o: nat, current: Option<nat>)
    requires TreeOk(sub) && o in sub.tree && sub.tree[o] in sub.items && o in sub.queues
    ensures TreeOk(Unsubscribe(sub, o, current))
    ensures forall k :: k != sub.tree[o] && Subscribed(sub, k) ==> Subscribed(Unsubscribe(sub, o, current), k)
    ensures !Subscribed(Unsubscribe(sub, o, current), sub.tree[o])
  {
    hide Unlink;
    var i, sub' := sub.tree[o], Unsubscribe(sub, o, current);
    OthersSubscribed(sub, sub', i);
    forall x | x in sub'.tree
      ensures x in sub'.queues && Subscribed(sub', sub'.tree[x]) && sub'.items[sub'.tree[x]].obj == x
    {
      assert Subscribed(sub, sub.tree[x]) && Subscribed(sub, sub.tree[o]);
    }
  }

  lemma {:induction false} UnsubscribeAgree(sub: Subs, o: nat, current: Option<nat>)
    requires Agree(sub) && o in sub.tree && sub.tree[o] in sub.items && o in sub.queues
    ensures Agree(Unsubscribe(sub, o, current))
  {
    var i, sub' := sub.tree[o], Unsubscribe(sub, o, current);
    UnsubscribeLinks(sub, o, current);
    UnsubscribeTree(sub, o, current);
    UnlinkFacts(sub.waiting, i);
    hide Unlink, NoDup, Subscribed, TreeOk, LinksOk;
    assert WaitingOk(sub');
    assert CountsOk(sub');
  }

  lemma {:induction false} UnsubscribeInv(sub: Subs, busy: Option<nat>, o: nat)
    requires Inv(sub, busy) && o in sub.tree
    ensures sub.tree[o] in sub.items && o in sub.queues
    ensures Inv(Unsubscribe(sub, o, busy), busy)
  {
    var i := sub.tree[o];
    assert Subscribed(sub, i);
    var sub' := Unsubscribe(sub, o, busy);
    UnsubscribeAgree(sub, o, busy);
    UnsubscribeTree(sub, o, busy);
    hide Unlink, Agree, TreeOk, Subscribed;
    assert Lives(sub', busy);
  }

  lemma {:induction false} UnsubscribeCovered(sub: Subs, looking: Option<nat>, o: nat, current: Option<nat>)
    requires Agree(sub) && o in sub.tree && sub.tree[o] in sub.items && o in sub.queues
    requires LevelsCovered(sub, looking)
    ensures LevelsCovered(Unsubscribe(sub, o, current), looking)
  {
    var sub' := Unsubscribe(sub, o, current);
    UnlinkFacts(sub.waiting, sub.tree[o]);
    forall x | x in sub'.tree && Covering(sub', x)
      ensures sub'.tree[x] in sub'.waiting || (x, sub'.items[sub'.tree[x]].dir) in sub'.owed
           || looking == Some(sub'.tree[x])
    {
      TreeInjective(sub, o, x);
      hide Unlink, Agree, NoDup;
      assert Covering(sub, x);
    }
  }

  lemma {:induction false} TreeInjective(sub: Subs, o: nat, x: nat)
    requires Agree(sub) && o in sub.tree && x in sub.tree && x != o
    ensures sub.tree[o] in sub.items && sub.tree[x] in sub.items && sub.tree[x] != sub.tree[o]
  {
    assert Subscribed(sub, sub.tree[o]) && Subscribed(sub, sub.tree[x]);
  }

  lemma {:induction false} PopInv(sub: Subs)
    requires Inv(sub, None) && sub.waiting != []
    ensures Subscribed(sub, sub.waiting[0])
    ensures Inv(PopWaiting(sub), Some(sub.waiting[0]))
    ensures LevelsCovered(sub, None) ==> LevelsCovered(PopWaiting(sub), Some(sub.waiting[0]))
  {
    var sub' := PopWaiting(sub);
    assert sub.waiting[0] in sub.waiting;
    PopFront(sub.waiting);
    forall x | x in sub'.queues
      ensures LinkAgrees(sub', x)
    {
      assert LinkAgrees(sub, x);
    }
  }

  /** The loop may leave behind an item that is still subscribed. */
  lemma {:induction false} DoneInv(sub: Subs, i: nat)
    requires Inv(sub, Some(i)) && i in sub.items && sub.items[i].owned
    ensures Inv(sub, None)
  {
  }

  /** An item unsubscribed in its own callback is freed once, when nothing refers to it. */
  lemma {:induction false} ReleaseInv(sub: Subs, looking: Option<nat>, i: nat)
    requires Inv(sub, Some(i)) && i in sub.items && !sub.items[i].owned
    ensures Inv(FreeItem(sub, i), None)
    ensures i !in sub.waiting && (forall o :: o in sub.tree ==> sub.tree[o] != i)
    ensures LevelsCovered(sub, looking) ==> LevelsCovered(FreeItem(sub, i), looking)
  {
    var sub' := FreeItem(sub, i);
    assert !Subscribed(sub, i);
    assert forall k :: k != i && Subscribed(sub, k) ==> Subscribed(sub', k);
    TreeAway(sub, i);
    ReleaseLinks(sub, i);
    ReleaseLives(sub, i);
    hide Subscribed, LinksOk, NoDup, Lives;
    assert TreeOk(sub') && WaitingOk(sub') && CountsOk(sub');
  }

  lemma {:induction false} TreeAway(sub: Subs, i: nat)
    requires TreeOk(sub) && WaitingOk(sub) && !Subscribed(sub, i)
    ensures i !in sub.waiting && forall o :: o in sub.tree ==> sub.tree[o] != i && sub.tree[o] in sub.items
  {
    hide NoDup;
    forall o | o in sub.tree
      ensures sub.tree[o] != i && sub.tree[o] in sub.items
    {
      assert Subscribed(sub, sub.tree[o]);
    }
  }

  lemma {:induction false} ReleaseLinks(sub: Subs, i: nat)
    requires LinksOk(sub) && forall o :: o in sub.tree ==> sub.tree[o] != i && sub.tree[o] in sub.items
    ensures LinksOk(FreeItem(sub, i))
  {
    var sub' := FreeItem(sub, i);
    forall x | x in sub'.queues
      ensures LinkAgrees(sub', x)
    {
      assert LinkAgrees(sub, x);
    }
  }

  lemma {:induction false} ReleaseLives(sub: Subs, i: nat)
    requires Lives(sub, Some(i)) && i in sub.items && !sub.items[i].owned
    requires forall k :: k != i && Subscribed(sub, k) ==> Subscribed(FreeItem(sub, i), k)
    ensures Lives(FreeItem(sub, i), None)
  {
    hide Subscribed;
  }

  /** The loop may stop looking at an item that was unsubscribed, is edge-triggered, or has level zero. */
  lemma {:induction false} LookAway(sub: Subs, i: nat)
    requires Agree(sub) && LevelsCovered(sub, Some(i))
    requires i in sub.items && sub.items[i].obj in sub.queues
    requires !sub.items[i].owned || sub.items[i].edge || Level(sub.queues[sub.items[i].obj], sub.items[i].dir) <= 0
    ensures LevelsCovered(sub, None)
  {
    forall o | o in sub.tree && Covering(sub, o)
      ensures sub.tree[o] in sub.waiting || (o, sub.items[sub.tree[o]].dir) in sub.owed
    {
      assert Subscribed(sub, sub.tree[o]);
    }
  }

  /** Nor need it look at an item it has put back on the waiting list. */
  lemma {:induction false} PushedAway(sub: Subs, i: nat)
    requires LevelsCovered(sub, Some(i))
    ensures LevelsCovered(Push(sub, i), None)
  {
    var sub' := Push(sub, i);
    forall o | o in sub'.tree && Covering(sub', o)
      ensures sub'.tree[o] in sub'.waiting || (o, sub'.items[sub'.tree[o]].dir) in sub'.owed
    {
      assert Covering(sub, o);
    }
  }

  lemma {:induction false} OwnedIsSubscribed(sub: Subs, busy: Option<nat>, i: nat)
    requires Inv(sub, busy) && i in sub.items && sub.items[i].owned
    ensures Subscribed(sub, i)
  {
  }
}
