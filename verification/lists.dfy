/**
 Intrusive lists of distinct entries, as sequences: unlinking, inserting and
 popping, with what each does to membership and distinctness.
 */
module Lists {

  datatype Option<T> = None | Some(value: T)

  predicate NoDup(s: seq<nat>) {
    forall i, j :: 0 <= i < j < |s| ==> s[i] != s[j]
  }

  function IndexOf(s: seq<nat>, x: nat): (k: nat)
    requires x in s
    ensures k < |s| && s[k] == x
  {
    if s[0] == x then 0 else 1 + IndexOf(s[1..], x)
  }

  function RemoveAt(s: seq<nat>, k: nat): seq<nat>
    requires k < |s|
  {
    s[..k] + s[k + 1..]
  }

  function InsertAt(s: seq<nat>, k: nat, x: nat): seq<nat>
    requires k <= |s|
  {
    s[..k] + [x] + s[k..]
  }

  function Unlink(s: seq<nat>, x: nat): (r: seq<nat>)
    ensures |r| <= |s|
  {
    if x in s then RemoveAt(s, IndexOf(s, x)) else s
  }

  lemma {:induction false} UnlinkAbsent(s: seq<nat>, x: nat)
    requires x !in s
    ensures Unlink(s, x) == s
  {
  }

  lemma {:induction false} RemoveAtIndex(s: seq<nat>, k: nat, i: nat)
    requires k < |s| && i < |s| - 1
    ensures |RemoveAt(s, k)| == |s| - 1 && RemoveAt(s, k)[i] == if i < k then s[i] else s[i + 1]
  {
  }

  lemma {:induction false} RemoveAtFacts(s: seq<nat>, k: nat)
    requires NoDup(s) && k < |s|
    ensures NoDup(RemoveAt(s, k))
    ensures forall y :: y in RemoveAt(s, k) <==> y in s && y != s[k]
  {
    var r := RemoveAt(s, k);
    forall i, j | 0 <= i < j < |r|
      ensures r[i] != r[j]
    {
      RemoveAtIndex(s, k, i);
      RemoveAtIndex(s, k, j);
    }
    forall y | y in r
      ensures y in s && y != s[k]
    {
      var i :| 0 <= i < |r| && r[i] == y;
      RemoveAtIndex(s, k, i);
    }
    forall y | y in s && y != s[k]
      ensures y in r
    {
      var i :| 0 <= i < |s| && s[i] == y;
      RemoveAtIndex(s, k, if i < k then i else i - 1);
    }
  }

  lemma {:induction false} UnlinkFacts(s: seq<nat>, x: nat)
    requires NoDup(s)
    ensures NoDup(Unlink(s, x)) && x !in Unlink(s, x)
    ensures forall y :: y in Unlink(s, x) <==> y in s && y != x
  {
    if x in s {
      RemoveAtFacts(s, IndexOf(s, x));
      hide IndexOf, RemoveAt;
    }
  }

  lemma {:induction false} InsertAtIndex(s: seq<nat>, k: nat, x: nat, i: nat)
    requires k <= |s| && i <= |s|
    ensures |InsertAt(s, k, x)| == |s| + 1
    ensures InsertAt(s, k, x)[i] == if i < k then s[i] else if i == k then x else s[i - 1]
  {
  }

  lemma {:induction false} InsertAtFacts(s: seq<nat>, k: nat, x: nat)
    requires k <= |s|
    ensures NoDup(s) && x !in s ==> NoDup(InsertAt(s, k, x))
    ensures forall y :: y in InsertAt(s, k, x) <==> y in s || y == x
  {
    var r := InsertAt(s, k, x);
    if NoDup(s) && x !in s {
      forall i, j | 0 <= i < j < |r|
        ensures r[i] != r[j]
      {
        InsertAtIndex(s, k, x, i);
        InsertAtIndex(s, k, x, j);
      }
    }
    forall y | y in r
      ensures y in s || y == x
    {
      var i :| 0 <= i < |r| && r[i] == y;
      InsertAtIndex(s, k, x, i);
    }
    InsertAtIndex(s, k, x, k);
    forall y | y in s
      ensures y in r
    {
      var i :| 0 <= i < |s| && s[i] == y;
      InsertAtIndex(s, k, x, if i < k then i else i + 1);
    }
  }

  lemma {:induction false} RequeueFacts(s: seq<nat>, x: nat)
    requires NoDup(s)
    ensures NoDup(Unlink(s, x) + [x])
    ensures forall y :: y in Unlink(s, x) + [x] <==> y in s || y == x
  {
    UnlinkFacts(s, x);
    hide Unlink;
  }

  lemma {:induction false} PopFront(s: seq<nat>)
    requires NoDup(s) && s != []
    ensures NoDup(s[1..]) && forall x :: x in s[1..] <==> x in s && x != s[0]
  {
    assert s == [s[0]] + s[1..];
  }

  // ---------- Order ----------

  /** Entry x stands before entry y. */
  predicate Before(s: seq<nat>, x: nat, y: nat) {
    exists i, j :: 0 <= i < j < |s| && s[i] == x && s[j] == y
  }

  /** List t is list s with some entries taken out and others added behind: what stays keeps its order, and what is
      new stands behind what was there. */
  ghost predicate Queued(s: seq<nat>, t: seq<nat>) {
    && (forall x, y :: Before(s, x, y) && x in t && y in t ==> Before(t, x, y))
    && (forall x, y :: x in s && x in t && y !in s && y in t ==> Before(t, x, y))
  }

  lemma {:induction false} QueuedSame(s: seq<nat>)
    ensures Queued(s, s)
  {
    hide Before;
  }

  lemma {:induction false} QueuedAppend(s: seq<nat>, z: nat)
    ensures Queued(s, s + [z])
  {
    var t := s + [z];
    forall x, y | Before(s, x, y)
      ensures Before(t, x, y)
    {
      var i, j :| 0 <= i < j < |s| && s[i] == x && s[j] == y;
      assert t[i] == x && t[j] == y;
    }
    forall x, y | x in s && y !in s && y in t
      ensures Before(t, x, y)
    {
      var i :| 0 <= i < |s| && s[i] == x;
      assert t[i] == x && t[|s|] == y;
    }
  }

  lemma {:induction false} QueuedPop(s: seq<nat>)
    requires NoDup(s) && s != []
    ensures Queued(s, s[1..])
  {
    PopFront(s);
    var t := s[1..];
    forall x, y | Before(s, x, y) && x in t && y in t
      ensures Before(t, x, y)
    {
      var i, j :| 0 <= i < j < |s| && s[i] == x && s[j] == y;
      assert i > 0 && t[i - 1] == x && t[j - 1] == y;
    }
  }

  lemma {:induction false} QueuedRemove(s: seq<nat>, k: nat)
    requires NoDup(s) && k < |s|
    ensures Queued(s, RemoveAt(s, k))
  {
    RemoveAtFacts(s, k);
    var t := RemoveAt(s, k);
    hide RemoveAt;
    forall x, y | Before(s, x, y) && x in t && y in t
      ensures Before(t, x, y)
    {
      var i, j :| 0 <= i < j < |s| && s[i] == x && s[j] == y;
      var i', j' := if i < k then i else i - 1, if j < k then j else j - 1;
      RemoveAtIndex(s, k, i');
      RemoveAtIndex(s, k, j');
      assert t[i'] == x && t[j'] == y;
    }
  }

  lemma {:induction false} QueuedUnlink(s: seq<nat>, x: nat)
    requires NoDup(s)
    ensures Queued(s, Unlink(s, x))
  {
    hide Queued, NoDup;
    if x in s {
      QueuedRemove(s, IndexOf(s, x));
    } else {
      QueuedSame(s);
    }
  }
}
