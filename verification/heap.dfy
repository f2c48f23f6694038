/**
 The allocator of memmgr_heap.c: block headers in memory, a singly linked free
 list with protected links from the static head xStart to the marker pxEnd, and
 the byte counters. Every method is specified by the row of blocks it leaves.
 */
module Heap {
  import opened HeapBlocks
  import opened Words
  import Lists

  /** A block header: the protected link and the size word with its allocated bit. */
  datatype BlockLink = BlockLink(next: nat, size: nat)

  datatype MallocResult = Ptr(addr: nat) | OutOfMemory | MallocZero

  datatype HeapStats = HeapStats(
    largest: nat, smallest: nat, freeBlocks: nat, available: nat, allocations: nat, frees: nat, minimumEver: nat)

  type Headers = map<nat, BlockLink>

  function SizeWord(b: Block): nat {
    if b.live then b.size + ALLOCATED_BIT else b.size
  }

  // ---------- The free list in memory ----------

  function FreeList(bs: seq<Block>, start: nat, end: nat): seq<nat> {
    [start] + FreeAddrs(bs) + [end]
  }

  /** Each header in l exists and its unprotected link is the next one in l. */
  ghost predicate Linked(hdr: Headers, l: seq<nat>, key: nat) {
    && (forall i :: 0 <= i < |l| ==> l[i] in hdr)
    && (forall i {:trigger hdr[l[i]]} :: 0 <= i < |l| - 1 ==> hdr[l[i]].next == Xor(l[i + 1], key))
  }

  /** Every block's header holds its size word, and allocated blocks hold a null link. */
  ghost predicate Stored(hdr: Headers, bs: seq<Block>, key: nat) {
    forall i :: 0 <= i < |bs| ==>
      && bs[i].addr in hdr
      && hdr[bs[i].addr].size == SizeWord(bs[i])
      && (bs[i].live ==> hdr[bs[i].addr].next == Xor(0, key))
  }

  function Last(l: seq<nat>): nat
    requires l != []
  {
    l[|l| - 1]
  }

  /** hdr' differs from hdr at most at the headers p and q. */
  ghost predicate SameBut(hdr: Headers, hdr': Headers, p: nat, q: nat) {
    forall a :: a in hdr && a != p && a != q ==> a in hdr' && hdr'[a] == hdr[a]
  }

  lemma {:induction false} Unlink(hdr: Headers, hdr': Headers, l: seq<nat>, x: nat, r: seq<nat>, key: nat)
    requires l != [] && r != []
    requires Linked(hdr, l + [x] + r, key) && Lists.NoDup(l + [x] + r)
    requires SameBut(hdr, hdr', x, Last(l))
    requires x in hdr && Last(l) in hdr' && hdr'[Last(l)].next == hdr[x].next
    ensures Linked(hdr', l + r, key)
  {
    var was, now := l + [x] + r, l + r;
    hide Xor;
    assert was[|l|] == x && was[|l| + 1] == r[0] == now[|l|];
    forall i | 0 <= i < |now|
      ensures now[i] in hdr'
      ensures i < |now| - 1 ==> hdr'[now[i]].next == Xor(now[i + 1], key)
    {
      if i == |l| - 1 {
        assert hdr[was[|l|]].next == Xor(was[|l| + 1], key);
      } else if i < |l| {
        assert was[i] == now[i] && was[i + 1] == now[i + 1];
        assert was[|l| - 1] == Last(l);
      } else {
        assert was[i + 1] == now[i];
        assert i + 1 < |now| ==> was[i + 2] == now[i + 1];
        assert was[|l| - 1] == Last(l);
      }
    }
  }

  lemma {:induction false} Relink(hdr: Headers, hdr': Headers, l: seq<nat>, x: nat, y: nat, r: seq<nat>, key: nat)
    requires l != [] && r != [] && y !in l && y !in r
    requires Linked(hdr, l + [x] + r, key) && Lists.NoDup(l + [x] + r)
    requires forall a :: a in hdr && a != x && a != Last(l) && a != y ==> a in hdr' && hdr'[a] == hdr[a]
    requires Last(l) in hdr' && hdr'[Last(l)].next == Xor(y, key)
    requires x in hdr && y in hdr' && hdr'[y].next == hdr[x].next
    ensures Linked(hdr', l + [y] + r, key)
  {
    var was, now := l + [x] + r, l + [y] + r;
    hide Xor;
    assert was[|l|] == x;
    forall i | 0 <= i < |now|
      ensures now[i] in hdr'
      ensures i < |now| - 1 ==> hdr'[now[i]].next == Xor(now[i + 1], key)
    {
      assert was[|l| - 1] == Last(l);
      if i != |l| {
        assert was[i] == now[i];
        assert now[i] in l || now[i] in r;
      }
      assert i + 1 < |now| && i + 1 != |l| ==> was[i + 1] == now[i + 1];
    }
  }

  lemma {:induction false} Insert(hdr: Headers, hdr': Headers, l: seq<nat>, x: nat, r: seq<nat>, key: nat)
    requires l != [] && r != [] && x !in l && x !in r
    requires Linked(hdr, l + r, key) && Lists.NoDup(l + r)
    requires SameBut(hdr, hdr', x, Last(l))
    requires Last(l) in hdr' && hdr'[Last(l)].next == Xor(x, key)
    requires Last(l) in hdr && x in hdr' && hdr'[x].next == hdr[Last(l)].next
    ensures Linked(hdr', l + [x] + r, key)
  {
    var was, now := l + r, l + [x] + r;
    hide Xor;
    forall i | 0 <= i < |now|
      ensures now[i] in hdr'
      ensures i < |now| - 1 ==> hdr'[now[i]].next == Xor(now[i + 1], key)
    {
      assert was[|l| - 1] == Last(l) && was[|l|] == r[0];
      if i < |l| {
        assert was[i] == now[i] == l[i];
        assert i + 1 < |l| ==> was[i + 1] == now[i + 1];
      } else if i > |l| {
        assert was[i - 1] == now[i] == r[i - |l| - 1];
        assert i < |now| - 1 ==> was[i] == now[i + 1];
      }
    }
  }

  /** The list splits at any block of the row. */
  lemma {:induction false} ListAround(pre: seq<Block>, b: Block, post: seq<Block>, start: nat, end: nat)
    ensures FreeList(pre + [b] + post, start, end)
         == ([start] + FreeAddrs(pre)) + FreeAddr(b) + (FreeAddrs(post) + [end])
  {
    assert FreeAddrs([b]) == FreeAddr(b) by {
      assert [b][1..] == [];
    }
    hide FreeAddrs;
    FreeAddrsAround(pre, [b], post);
    Regroup([start], FreeAddrs(pre), FreeAddr(b), FreeAddrs(post), [end]);
  }

  lemma {:induction false} Regroup(a: seq<nat>, b: seq<nat>, c: seq<nat>, d: seq<nat>, e: seq<nat>)
    ensures a + (b + c + d) + e == (a + b) + c + (d + e)
  {
  }

  lemma {:induction false} ListDistinct(bs: seq<Block>, start: nat, lo: nat, hi: nat)
    requires Tiles(bs, lo, hi) && (start < lo || hi < start)
    ensures Lists.NoDup(FreeList(bs, start, hi))
  {
    FreeAddrsSorted(bs, lo, hi);
    TilesBounds(bs, lo, hi);
    hide FreeAddrs, Tiles;
    var f, l := FreeAddrs(bs), FreeList(bs, start, hi);
    forall i, j | 0 <= i < j < |l|
      ensures l[i] != l[j]
    {
      assert l[i] == if i == 0 then start else f[i - 1];
      assert l[j] == if j == |l| - 1 then hi else f[j - 1];
    }
  }

  // ---------- Finding the next free block ----------

  /** Index of the first free block at or after i, or |bs|. */
  ghost function NextFree(bs: seq<Block>, i: nat): (j: nat)
    requires i <= |bs|
    ensures i <= j <= |bs|
    ensures j < |bs| ==> !bs[j].live
    ensures forall k :: i <= k < j ==> bs[k].live
    decreases |bs| - i
  {
    if i == |bs| || !bs[i].live then i else NextFree(bs, i + 1)
  }

  lemma {:induction false} NextFreeViews(bs: seq<Block>, i: nat)
    requires i <= |bs|
    ensures FreeAddrs(bs[i..]) == FreeAddrs(bs[NextFree(bs, i)..])
    ensures FreeAddrs(bs[..i]) == FreeAddrs(bs[..NextFree(bs, i)])
    decreases |bs| - i
  {
    if i < |bs| && bs[i].live {
      NextFreeViews(bs, i + 1);
      SkipLive(bs, i);
    }
  }

  lemma {:induction false} SkipLive(bs: seq<Block>, i: nat)
    requires i < |bs| && bs[i].live
    ensures FreeAddrs(bs[i..]) == FreeAddrs(bs[i + 1..])
    ensures FreeAddrs(bs[..i]) == FreeAddrs(bs[..i + 1])
  {
    assert FreeAddrs(bs[i..]) == FreeAddrs(bs[i + 1..]) by {
      assert bs[i..][0] == bs[i] && bs[i..][1..] == bs[i + 1..];
    }
    assert FreeAddrs([bs[i]]) == [];
    hide FreeAddrs;
    assert bs[..i + 1] == bs[..i] + [bs[i]];
    FreeAddrsConcat(bs[..i], [bs[i]]);
  }

  ghost function AddrAt(bs: seq<Block>, i: nat, end: nat): nat {
    if i < |bs| then bs[i].addr else end
  }

  /** The first element of the rest of the list is the next free block, or the end marker. */
  lemma {:induction false} NextFreeHead(bs: seq<Block>, i: nat, end: nat)
    requires i <= |bs|
    ensures (FreeAddrs(bs[i..]) + [end])[0] == AddrAt(bs, NextFree(bs, i), end)
  {
    NextFreeViews(bs, i);
    var j := NextFree(bs, i);
    if j < |bs| {
      assert bs[j..][0] == bs[j];
      assert FreeAddrs(bs[j..])[0] == bs[j].addr;
    } else {
      assert bs[j..] == [];
    }
  }

  /** The headers in memory hold exactly the row bs and its free list. */
  ghost predicate Holds(hdr: Headers, bs: seq<Block>, start: nat, end: nat, key: nat) {
    && Linked(hdr, FreeList(bs, start, end), key)
    && Stored(hdr, bs, key)
    && start in hdr && hdr[start].size == 0
    && end in hdr && hdr[end] == BlockLink(Xor(0, key), 0)
  }

  /** Headers change only where a free block's link changes: sizes and live blocks stay stored. */
  lemma {:induction false} StoredKept(hdr: Headers, hdr': Headers, bs: seq<Block>, key: nat)
    requires Stored(hdr, bs, key)
    requires forall i :: 0 <= i < |bs| ==>
               && bs[i].addr in hdr' && hdr'[bs[i].addr].size == hdr[bs[i].addr].size
               && (bs[i].live ==> hdr'[bs[i].addr].next == hdr[bs[i].addr].next)
    ensures Stored(hdr', bs, key)
  {
  }

  lemma {:induction false} StoredConcat(hdr: Headers, a: seq<Block>, b: seq<Block>, key: nat)
    ensures Stored(hdr, a + b, key) <==> Stored(hdr, a, key) && Stored(hdr, b, key)
  {
    if Stored(hdr, a + b, key) {
      assert forall i :: 0 <= i < |a| ==> a[i] == (a + b)[i];
      assert forall i :: 0 <= i < |b| ==> b[i] == (a + b)[|a| + i];
    }
  }

  lemma {:induction false} StoredAround(hdr: Headers, a: seq<Block>, m: seq<Block>, b: seq<Block>, key: nat)
    ensures Stored(hdr, a + m + b, key) <==> Stored(hdr, a, key) && Stored(hdr, m, key) && Stored(hdr, b, key)
  {
    hide Stored;
    StoredConcat(hdr, a + m, b, key);
    StoredConcat(hdr, a, m, key);
  }

  lemma {:induction false} LiveNotFree(bs: seq<Block>, lo: nat, hi: nat, i: nat)
    requires Tiles(bs, lo, hi) && i < |bs| && bs[i].live
    ensures bs[i].addr !in FreeAddrs(bs)
  {
    FreeAddrsSorted(bs[1..], bs[0].End(), hi);
    if i > 0 {
      LiveNotFree(bs[1..], bs[0].End(), hi, i - 1);
      TilesOrdered(bs, lo, hi, 0, i);
    }
  }

  /** Where the parts of a row around block b lie. */
  ghost predicate Regions(pre: seq<Block>, b: Block, post: seq<Block>, lo: nat, hi: nat) {
    && lo <= b.addr < b.End() <= hi
    && (forall a :: a in FreeAddrs(pre) ==> lo <= a < b.addr)
    && (forall a :: a in FreeAddrs(post) ==> b.End() <= a < hi)
    && (forall i :: 0 <= i < |pre| ==> lo <= pre[i].addr < b.addr)
    && (forall i :: 0 <= i < |post| ==> b.End() <= post[i].addr < hi)
    && (forall i :: 0 <= i < |pre| && pre[i].live ==> pre[i].addr !in FreeAddrs(pre))
  }

  lemma {:induction false} FindRegions(pre: seq<Block>, b: Block, post: seq<Block>, lo: nat, hi: nat)
    requires Tiles(pre + [b] + post, lo, hi)
    ensures Regions(pre, b, post, lo, hi)
  {
    TilesConcat(pre + [b], post, lo, hi);
    TilesConcat(pre, [b], lo, EndOf(pre + [b], lo));
    assert EndOf(pre + [b], lo) == b.End();
    TilesHead([b], EndOf(pre, lo), b.End());
    AddrsDiffer(pre, b, post, lo, hi);
    hide FreeAddrs;
    TilesBounds(pre, lo, b.addr);
    TilesBounds(post, b.End(), hi);
    FreeAddrsSorted(pre, lo, b.addr);
    FreeAddrsSorted(post, b.End(), hi);
    assert [b][0].size >= STRUCT_SIZE;
    hide Tiles;
    forall i | 0 <= i < |pre| && pre[i].live
      ensures pre[i].addr !in FreeAddrs(pre)
    {
      LiveNotFree(pre, lo, b.addr, i);
    }
  }

  /** The memory after carving w bytes from block b, whose list predecessor is prev. */
  function Carved(hdr: Headers, prev: nat, b: Block, w: nat, key: nat): Headers
    requires Fits(b, w) && prev in hdr && b.addr in hdr
  {
    var m := Carve(b, w);
    if |m| == 2 then
      hdr[prev := hdr[prev].(next := Xor(m[1].addr, key))]
         [m[1].addr := BlockLink(hdr[b.addr].next, m[1].size)]
         [b.addr := BlockLink(Xor(0, key), SizeWord(m[0]))]
    else
      hdr[prev := hdr[prev].(next := hdr[b.addr].next)][b.addr := BlockLink(Xor(0, key), SizeWord(m[0]))]
  }

  lemma {:induction false} CarvedHolds(hdr: Headers, pre: seq<Block>, b: Block, post: seq<Block>, w: nat,
                    start: nat, lo: nat, hi: nat, key: nat)
    requires Fits(b, w) && 0 < w && Tiles(pre + [b] + post, lo, hi) && (start < lo || hi < start)
    requires Holds(hdr, pre + [b] + post, start, hi, key)
    requires Last([start] + FreeAddrs(pre)) in hdr && b.addr in hdr
    ensures Holds(Carved(hdr, Last([start] + FreeAddrs(pre)), b, w, key), pre + Carve(b, w) + post, start, hi, key)
  {
    hide FreeAddrs, Tiles, Xor, Linked, Lists.NoDup, Stored;
    var l, r := [start] + FreeAddrs(pre), FreeAddrs(post) + [hi];
    FindRegions(pre, b, post, lo, hi);
    ListAround(pre, b, post, start, hi);
    ListDistinct(pre + [b] + post, start, lo, hi);
    CarvedList(pre, b, post, w, start, hi);
    StoredAround(hdr, pre, [b], post, key);
    CarvedStored(hdr, pre, b, post, w, start, lo, hi, key);
    assert Last(l) == start || Last(l) in FreeAddrs(pre);
    CarvedLinked(hdr, l, b, w, r, key);
  }

  lemma {:induction false} CarvedLinked(hdr: Headers, l: seq<nat>, b: Block, w: nat, r: seq<nat>, key: nat)
    requires Fits(b, w) && l != [] && r != [] && Last(l) in hdr && b.addr in hdr
    requires Linked(hdr, l + [b.addr] + r, key) && Lists.NoDup(l + [b.addr] + r)
    requires Last(l) != b.addr && forall y :: b.addr < y < b.End() ==> y !in l && y !in r
    requires 0 < w
    ensures Linked(Carved(hdr, Last(l), b, w, key),
                   l + (if |Carve(b, w)| == 2 then [Carve(b, w)[1].addr] else []) + r, key)
  {
    hide Xor;
    var m, hdr' := Carve(b, w), Carved(hdr, Last(l), b, w, key);
    if |m| == 2 {
      Relink(hdr, hdr', l, b.addr, m[1].addr, r, key);
    } else {
      Unlink(hdr, hdr', l, b.addr, r, key);
      assert l + [] + r == l + r;
    }
  }

  lemma {:induction false} CarvedList(pre: seq<Block>, b: Block, post: seq<Block>, w: nat, start: nat, end: nat)
    requires Fits(b, w)
    ensures FreeList(pre + Carve(b, w) + post, start, end)
         == ([start] + FreeAddrs(pre)) + (if |Carve(b, w)| == 2 then [Carve(b, w)[1].addr] else [])
            + (FreeAddrs(post) + [end])
  {
    var m := Carve(b, w);
    assert FreeAddrs(m) == if |m| == 2 then [m[1].addr] else [] by {
      if |m| == 2 {
        assert m[1..] == [m[1]];
        assert FreeAddrs([m[1]]) == [m[1].addr];
      }
    }
    hide FreeAddrs;
    FreeAddrsAround(pre, m, post);
    Regroup([start], FreeAddrs(pre), FreeAddrs(m), FreeAddrs(post), [end]);
  }

  lemma {:induction false} CarvedStored(hdr: Headers, pre: seq<Block>, b: Block, post: seq<Block>, w: nat,
                     start: nat, lo: nat, hi: nat, key: nat)
    requires Fits(b, w) && 0 < w && Regions(pre, b, post, lo, hi) && (start < lo || hi < start)
    requires Stored(hdr, pre, key) && Stored(hdr, post, key)
    requires Last([start] + FreeAddrs(pre)) in hdr && b.addr in hdr
    ensures Stored(Carved(hdr, Last([start] + FreeAddrs(pre)), b, w, key), pre + Carve(b, w) + post, key)
  {
    hide Xor, FreeAddrs;
    var prev, m := Last([start] + FreeAddrs(pre)), Carve(b, w);
    var hdr' := Carved(hdr, prev, b, w, key);
    assert prev == start || prev in FreeAddrs(pre);
    StoredKept(hdr, hdr', pre, key);
    StoredKept(hdr, hdr', post, key);
    StoredAround(hdr', pre, m, post, key);
  }

  // ---------- Giving a block back ----------

  /** The memory after block b, whose list neighbours are prev and next, is given back and
      merged to the left and to the right as told. */
  function Returned(hdr: Headers, prev: nat, b: Block, next: nat, left: bool, right: bool, key: nat): Headers
    requires prev in hdr && b.addr in hdr && next in hdr
  {
    var hdr1 := hdr[b.addr := hdr[b.addr].(size := b.size)];
    var size := (if left then hdr1[prev].size else 0) + b.size + (if right then hdr1[next].size else 0);
    var link := if right then hdr1[next].next else hdr1[prev].next;
    if left then hdr1[prev := BlockLink(link, size)]
    else hdr1[prev := hdr1[prev].(next := Xor(b.addr, key))][b.addr := BlockLink(link, size)]
  }

  /** The neighbours of b in the free list: the merged-in blocks, or the list around them. */
  ghost function PrevOf(a: seq<Block>, left: seq<Block>, start: nat): nat {
    if left == [] then Last([start] + FreeAddrs(a)) else left[0].addr
  }

  ghost function NextOf(right: seq<Block>, c: seq<Block>, end: nat): nat {
    if right == [] then (FreeAddrs(c) + [end])[0] else right[0].addr
  }

  /** Block b of a row with the free neighbours to merge it with split off on both sides. */
  ghost predicate Middle(left: seq<Block>, b: Block, right: seq<Block>) {
    && |left| <= 1 && |right| <= 1 && b.live
    && (left != [] ==> !left[0].live)
    && (right != [] ==> !right[0].live)
  }

  function Fused(m: seq<Block>): Block
    requires m != []
  {
    Block(m[0].addr, SizeOf(m), false)
  }

  lemma {:induction false} FusedRegions(a: seq<Block>, m: seq<Block>, c: seq<Block>, lo: nat, hi: nat)
    requires m != [] && Tiles(a + m + c, lo, hi)
    ensures Regions(a, Fused(m), c, lo, hi)
    ensures forall i :: 0 <= i < |m| ==> Fused(m).addr <= m[i].addr < Fused(m).End()
    ensures Tiles(m, m[0].addr, Fused(m).End())
  {
    var bs := a + m + c;
    assert bs[|a|..|a| + |m|] == m && bs[..|a|] == a && bs[|a| + |m|..] == c && bs[|a|] == m[0];
    FuseTiles(bs, lo, hi, |a|, |a| + |m|);
    FindRegions(a, Fused(m), c, lo, hi);
    TilesConcat(a + m, c, lo, hi);
    TilesConcat(a, m, lo, EndOf(a + m, lo));
    TilesHead(m, EndOf(a, lo), EndOf(a + m, lo));
    SizeOfTiles(m, m[0].addr, EndOf(a + m, lo));
    TilesBounds(m, m[0].addr, Fused(m).End());
  }

  /** How the neighbours of b relate to the fused block f. */
  ghost predicate Neighbours(hdr: Headers, a: seq<Block>, prev: nat, b: Block, next: nat,
                             left: bool, right: bool, f: Block, start: nat)
  {
    && prev in hdr && b.addr in hdr && next in hdr
    && (if left then prev == f.addr < b.addr else b.addr == f.addr && (prev == start || prev in FreeAddrs(a)))
    && f.addr <= b.addr < f.End() && !f.live
    && (right ==> b.addr < next < f.End())
    && f.size == (if left then hdr[prev].size else 0) + b.size + (if right then hdr[next].size else 0)
  }

  lemma {:induction false} ReturnedStored(hdr: Headers, a: seq<Block>, prev: nat, b: Block, next: nat, left: bool, right: bool,
                       f: Block, c: seq<Block>, start: nat, lo: nat, hi: nat, key: nat)
    requires Regions(a, f, c, lo, hi) && (start < lo || hi < start)
    requires Neighbours(hdr, a, prev, b, next, left, right, f, start)
    requires Stored(hdr, a, key) && Stored(hdr, c, key)
    ensures Stored(Returned(hdr, prev, b, next, left, right, key), a + [f] + c, key)
  {
    var hdr' := Returned(hdr, prev, b, next, left, right, key);
    hide Xor, FreeAddrs;
    StoredKept(hdr, hdr', a, key);
    StoredKept(hdr, hdr', c, key);
    assert Stored(hdr', [f], key);
    StoredAround(hdr', a, [f], c, key);
  }

  lemma {:induction false} FindNeighbours(hdr: Headers, a: seq<Block>, left: seq<Block>, b: Block, right: seq<Block>, c: seq<Block>,
                       start: nat, lo: nat, hi: nat, key: nat)
    requires Middle(left, b, right) && Tiles(a + (left + [b] + right) + c, lo, hi)
    requires Stored(hdr, left + [b] + right, key)
    requires PrevOf(a, left, start) in hdr && NextOf(right, c, hi) in hdr
    ensures Neighbours(hdr, a, PrevOf(a, left, start), b, NextOf(right, c, hi),
                       left != [], right != [], Fused(left + [b] + right), start)
  {
    var m := left + [b] + right;
    FusedRegions(a, m, c, lo, hi);
    MiddleSize(left, b, right);
    hide Xor, FreeAddrs, SizeOf;
    assert m[|left|] == b;
    if left != [] {
      assert m[0] == left[0];
      TilesOrdered(m, m[0].addr, Fused(m).End(), 0, 1);
      TilesBounds(m, m[0].addr, Fused(m).End());
    }
    if right != [] {
      assert m[|left| + 1] == right[0];
      TilesOrdered(m, m[0].addr, Fused(m).End(), |left|, |left| + 1);
      TilesBounds(m, m[0].addr, Fused(m).End());
    }
  }

  lemma {:induction false} MiddleSize(left: seq<Block>, b: Block, right: seq<Block>)
    requires |left| <= 1 && |right| <= 1
    ensures SizeOf(left + [b] + right)
         == (if left == [] then 0 else left[0].size) + b.size + (if right == [] then 0 else right[0].size)
    ensures (left + [b] + right)[0] == if left == [] then b else left[0]
  {
    var m := left + [b] + right;
    assert SizeOf(right) == if right == [] then 0 else right[0].size;
    assert SizeOf([b] + right) == b.size + SizeOf(right) by {
      assert ([b] + right)[1..] == right;
    }
    if left == [] {
      assert m == [b] + right;
    } else {
      assert m[1..] == [b] + right;
    }
  }

  // The four ways a returned block joins the list l + .. + r.

  lemma {:induction false} LinkAlone(hdr: Headers, l: seq<nat>, b: Block, r: seq<nat>, key: nat)
    requires l != [] && r != [] && Last(l) in hdr && b.addr in hdr && r[0] in hdr
    requires Linked(hdr, l + r, key) && Lists.NoDup(l + r) && b.addr !in l && b.addr !in r
    ensures Linked(Returned(hdr, Last(l), b, r[0], false, false, key), l + [b.addr] + r, key)
  {
    hide Xor;
    Insert(hdr, Returned(hdr, Last(l), b, r[0], false, false, key), l, b.addr, r, key);
  }

  lemma {:induction false} LinkRight(hdr: Headers, l: seq<nat>, b: Block, next: nat, r: seq<nat>, key: nat)
    requires l != [] && r != [] && Last(l) in hdr && b.addr in hdr && next in hdr
    requires Linked(hdr, l + [next] + r, key) && Lists.NoDup(l + [next] + r)
    requires b.addr !in l && b.addr !in r && b.addr != next
    ensures Linked(Returned(hdr, Last(l), b, next, false, true, key), l + [b.addr] + r, key)
  {
    hide Xor;
    Relink(hdr, Returned(hdr, Last(l), b, next, false, true, key), l, next, b.addr, r, key);
  }

  lemma {:induction false} LinkLeft(hdr: Headers, l: seq<nat>, prev: nat, b: Block, next: nat, key: nat)
    requires prev in hdr && b.addr in hdr && next in hdr
    requires Linked(hdr, l, key) && b.addr !in l && b.addr != prev
    ensures Linked(Returned(hdr, prev, b, next, true, false, key), l, key)
  {
    hide Xor;
    SameLinks(hdr, Returned(hdr, prev, b, next, true, false, key), l, prev, b.addr, key);
  }

  lemma {:induction false} LinkBoth(hdr: Headers, l: seq<nat>, b: Block, next: nat, r: seq<nat>, key: nat)
    requires l != [] && r != [] && Last(l) in hdr && b.addr in hdr && next in hdr
    requires Linked(hdr, l + [next] + r, key) && Lists.NoDup(l + [next] + r)
    requires b.addr !in l && b.addr !in r && b.addr != next
    ensures Linked(Returned(hdr, Last(l), b, next, true, true, key), l + r, key)
  {
    hide Xor;
    var hdr1 := hdr[b.addr := hdr[b.addr].(size := b.size)];
    SameLinks(hdr, hdr1, l + [next] + r, b.addr, b.addr, key);
    Unlink(hdr1, Returned(hdr, Last(l), b, next, true, true, key), l, next, r, key);
  }

  lemma {:induction false} LinkReturned(hdr: Headers, l: seq<nat>, p: seq<nat>, b: Block, n: seq<nat>, r: seq<nat>,
                     prev: nat, next: nat, key: nat)
    requires l != [] && r != [] && |p| <= 1 && |n| <= 1
    requires prev == (if p == [] then Last(l) else p[0]) && next == if n == [] then r[0] else n[0]
    requires prev in hdr && b.addr in hdr && next in hdr
    requires Linked(hdr, l + (p + n) + r, key) && Lists.NoDup(l + (p + n) + r)
    requires b.addr !in l && b.addr !in p && b.addr !in n && b.addr !in r
    ensures Linked(Returned(hdr, prev, b, next, p != [], n != [], key),
                   l + [if p == [] then b.addr else p[0]] + r, key)
  {
    hide Xor, Linked, Lists.NoDup, Returned;
    if p == [] && n == [] {
      assert l + (p + n) + r == l + r;
      LinkAlone(hdr, l, b, r, key);
    } else if p == [] {
      assert l + (p + n) + r == l + [next] + r;
      LinkRight(hdr, l, b, next, r, key);
    } else if n == [] {
      assert l + (p + n) + r == l + [prev] + r;
      LinkLeft(hdr, l + [prev] + r, prev, b, next, key);
    } else {
      assert l + (p + n) + r == (l + [prev]) + [next] + r;
      LinkBoth(hdr, l + [prev], b, next, r, key);
    }
  }

  lemma {:induction false} ReturnedHolds(hdr: Headers, a: seq<Block>, left: seq<Block>, b: Block, right: seq<Block>, c: seq<Block>,
                      start: nat, lo: nat, hi: nat, key: nat)
    requires Middle(left, b, right) && Tiles(a + (left + [b] + right) + c, lo, hi) && (start < lo || hi < start)
    requires Holds(hdr, a + (left + [b] + right) + c, start, hi, key)
    requires PrevOf(a, left, start) in hdr && b.addr in hdr && NextOf(right, c, hi) in hdr
    ensures Holds(Returned(hdr, PrevOf(a, left, start), b, NextOf(right, c, hi), left != [], right != [], key),
                  a + [Fused(left + [b] + right)] + c, start, hi, key)
  {
    var p, n := FreeAddrs(left), FreeAddrs(right);
    FreeAddrsOne(left);
    FreeAddrsOne(right);
    hide Xor, FreeAddrs, Linked, Lists.NoDup, Tiles, SizeOf, Stored, Returned, Regions;
    var m := left + [b] + right;
    var f := Fused(m);
    var prev, next := PrevOf(a, left, start), NextOf(right, c, hi);
    var l, r := [start] + FreeAddrs(a), FreeAddrs(c) + [hi];
    assert Stored(hdr, a, key) && Stored(hdr, m, key) && Stored(hdr, c, key) by {
      StoredAround(hdr, a, m, c, key);
    }
    FindNeighbours(hdr, a, left, b, right, c, start, lo, hi, key);
    FusedRegions(a, m, c, lo, hi);
    ReturnedStored(hdr, a, prev, b, next, left != [], right != [], f, c, start, lo, hi, key);
    MiddleList(a, left, b, right, c, start, hi);
    ListDistinct(a + m + c, start, lo, hi);
    MiddleSize(left, b, right);
    ListAround(a, f, c, start, hi);
    OutsideRegions(a, f, c, b, prev, start, lo, hi);
    LinkReturned(hdr, l, p, b, n, r, prev, next, key);
    ReturnedEnds(hdr, prev, b, next, left != [], right != [], start, hi, key);
  }

  lemma {:induction false} FreeAddrsOne(s: seq<Block>)
    requires |s| <= 1 && (s != [] ==> !s[0].live)
    ensures FreeAddrs(s) == if s == [] then [] else [s[0].addr]
  {
    if s != [] {
      assert s[1..] == [] && FreeAddrs([]) == [];
      assert FreeAddrs(s) == FreeAddr(s[0]) + [];
    }
  }

  lemma {:induction false} OutsideRegions(a: seq<Block>, f: Block, c: seq<Block>, b: Block, prev: nat, start: nat, lo: nat, hi: nat)
    requires Regions(a, f, c, lo, hi) && (start < lo || hi < start) && f.addr <= b.addr < f.End()
    requires prev == f.addr || prev == start || prev in FreeAddrs(a)
    ensures b.addr !in [start] + FreeAddrs(a) && b.addr !in FreeAddrs(c) + [hi]
    ensures b.addr != start && b.addr != hi && prev != hi && f.addr != start
  {
    hide FreeAddrs;
  }

  lemma {:induction false} MiddleList(a: seq<Block>, left: seq<Block>, b: Block, right: seq<Block>, c: seq<Block>, start: nat, end: nat)
    requires b.live
    ensures FreeList(a + (left + [b] + right) + c, start, end)
         == ([start] + FreeAddrs(a)) + (FreeAddrs(left) + FreeAddrs(right)) + (FreeAddrs(c) + [end])
  {
    LiveMiddle(left, b, right);
    hide FreeAddrs;
    FreeAddrsAround(a, left + [b] + right, c);
    Regroup([start], FreeAddrs(a), FreeAddrs(left) + FreeAddrs(right), FreeAddrs(c), [end]);
  }

  lemma {:induction false} LiveMiddle(a: seq<Block>, b: Block, c: seq<Block>)
    requires b.live
    ensures FreeAddrs(a + [b] + c) == FreeAddrs(a) + FreeAddrs(c)
  {
    hide FreeAddrs;
    FreeAddrsAround(a, [b], c);
    LiveHidden(b);
    assert FreeAddrs(a) + [] + FreeAddrs(c) == FreeAddrs(a) + FreeAddrs(c);
  }

  lemma {:induction false} LiveHidden(b: Block)
    requires b.live
    ensures FreeAddrs([b]) == []
  {
    assert [b][1..] == [];
  }

  lemma {:induction false} ReturnedEnds(hdr: Headers, prev: nat, b: Block, next: nat, left: bool, right: bool,
                     start: nat, end: nat, key: nat)
    requires prev in hdr && b.addr in hdr && next in hdr && start in hdr && end in hdr
    requires b.addr != start && b.addr != end && prev != end && (left ==> prev != start)
    ensures var hdr' := Returned(hdr, prev, b, next, left, right, key);
            start in hdr' && hdr'[start].size == hdr[start].size && end in hdr' && hdr'[end] == hdr[end]
  {
  }

  lemma {:induction false} SameLinks(hdr: Headers, hdr': Headers, l: seq<nat>, x: nat, y: nat, key: nat)
    requires Linked(hdr, l, key) && SameBut(hdr, hdr', x, y) && y !in l
    requires x in hdr && x in hdr' && hdr'[x].next == hdr[x].next
    ensures Linked(hdr', l, key)
  {
    hide Xor;
    forall i | 0 <= i < |l|
      ensures l[i] in hdr' && hdr'[l[i]].next == hdr[l[i]].next
    {
      assert l[i] in l;
    }
  }

  // ---------- Walking the list ----------

  /** Following the link of the last list entry before index i leads to the next free block. */
  lemma {:induction false} FollowLink(hdr: Headers, bs: seq<Block>, i: nat, start: nat, end: nat, key: nat)
    requires Holds(hdr, bs, start, end, key) && i <= |bs|
    ensures var p, n := Last([start] + FreeAddrs(bs[..i])), AddrAt(bs, NextFree(bs, i), end);
            p in hdr && n in hdr && hdr[p].next == Xor(n, key) && Xor(hdr[p].next, key) == n
  {
    var l, r := [start] + FreeAddrs(bs[..i]), FreeAddrs(bs[i..]) + [end];
    NextFreeHead(bs, i, end);
    assert FreeList(bs, start, end) == l + r by {
      assert bs == bs[..i] + bs[i..];
      hide FreeAddrs;
      FreeAddrsConcat(bs[..i], bs[i..]);
      Regroup([start], FreeAddrs(bs[..i]), [], FreeAddrs(bs[i..]), [end]);
      assert FreeAddrs(bs[..i]) + [] == FreeAddrs(bs[..i]);
    }
    XorInvolution(r[0], key);
    hide FreeAddrs, Xor;
    assert (l + r)[|l| - 1] == Last(l) && (l + r)[|l|] == r[0];
  }

  /** The list entry of a free block is the last one up to and including it. */
  lemma {:induction false} LastIsBlock(bs: seq<Block>, i: nat, start: nat)
    requires i < |bs| && !bs[i].live
    ensures Last([start] + FreeAddrs(bs[..i + 1])) == bs[i].addr
  {
    assert FreeAddrs([bs[i]]) == [bs[i].addr];
    hide FreeAddrs;
    assert bs[..i + 1] == bs[..i] + [bs[i]];
    FreeAddrsConcat(bs[..i], [bs[i]]);
  }

  /** One step of a walk: from the free block at index i to the next list entry. */
  lemma {:induction false} WalkStep(hdr: Headers, bs: seq<Block>, i: nat, start: nat, end: nat, key: nat)
    requires Holds(hdr, bs, start, end, key) && i < |bs| && !bs[i].live
    ensures var j := NextFree(bs, i + 1);
            && bs[i].addr in hdr
            && hdr[bs[i].addr].next == Xor(AddrAt(bs, j, end), key)
            && Xor(hdr[bs[i].addr].next, key) == AddrAt(bs, j, end)
            && AddrAt(bs, j, end) in hdr
            && Last([start] + FreeAddrs(bs[..j])) == bs[i].addr
  {
    hide FreeAddrs, Xor, Holds;
    FollowLink(hdr, bs, i + 1, start, end, key);
    LastIsBlock(bs, i, start);
    NextFreeViews(bs, i + 1);
  }

  /** The null-link test of the walk holds exactly at the end marker. */
  lemma {:induction false} NullLink(hdr: Headers, bs: seq<Block>, i: nat, start: nat, lo: nat, hi: nat, key: nat)
    requires Holds(hdr, bs, start, hi, key) && Tiles(bs, lo, hi) && 0 < lo
    requires i <= |bs| && (i < |bs| ==> !bs[i].live)
    ensures AddrAt(bs, i, hi) in hdr && lo <= AddrAt(bs, i, hi) <= hi
    ensures hdr[AddrAt(bs, i, hi)].next == Xor(0, key) <==> i == |bs|
  {
    TilesBounds(bs, lo, hi);
    hide FreeAddrs, Tiles, Xor;
    if i < |bs| {
      WalkStep(hdr, bs, i, start, hi, key);
      XorInjective(0, AddrAt(bs, NextFree(bs, i + 1), hi), key);
    }
  }

  /** The three headers written by prvHeapInit hold the row with one free block. */
  lemma {:induction false} InitHolds(hdr: Headers, start: nat, lo: nat, hi: nat, key: nat)
    requires lo < hi && start in hdr && lo in hdr && hi in hdr
    requires hdr[start] == BlockLink(Xor(lo, key), 0) && hdr[lo] == BlockLink(Xor(hi, key), hi - lo)
    requires hdr[hi] == BlockLink(Xor(0, key), 0)
    ensures Holds(hdr, Gap(lo, hi), start, hi, key) && FreeBytes(Gap(lo, hi)) == hi - lo
  {
    hide Xor;
    var bs := Gap(lo, hi);
    assert bs == [bs[0]] && bs[1..] == [];
    assert FreeAddrs(bs) == [lo] && FreeBytes(bs) == hi - lo;
    hide FreeAddrs, FreeBytes;
    assert FreeList(bs, start, hi) == [start, lo, hi];
  }

  /** The list predecessor of block i is a header strictly outside block i. */
  lemma {:induction false} PrevIsNot(bs: seq<Block>, i: nat, start: nat, lo: nat, hi: nat)
    requires Tiles(bs, lo, hi) && i < |bs| && (start < lo || hi < start)
    ensures var p := Last([start] + FreeAddrs(bs[..i])); p < bs[i].addr || bs[i].End() <= p
  {
    var p := Last([start] + FreeAddrs(bs[..i]));
    SplitAt(bs, i);
    FindRegions(bs[..i], bs[i], bs[i + 1..], lo, hi);
    hide FreeAddrs, Tiles;
    assert p == start || p in FreeAddrs(bs[..i]);
  }

  /** Carving the first fit in memory gives exactly the row after first-fit allocation. */
  lemma {:induction false} AllocHolds(hdr: Headers, bs: seq<Block>, w: nat, start: nat, lo: nat, hi: nat, key: nat)
    requires HeapBlocks.Valid(bs, lo, hi) && (start < lo || hi < start)
    requires STRUCT_SIZE <= w && w % ALIGNMENT == 0 && FirstFit(bs, w) < |bs|
    requires Holds(hdr, bs, start, hi, key)
    ensures var i := FirstFit(bs, w);
            var prev := Last([start] + FreeAddrs(bs[..i]));
            && prev in hdr && bs[i].addr in hdr && hdr[bs[i].addr].size == bs[i].size
            && (prev < bs[i].addr || bs[i].End() <= prev)
            && Holds(Carved(hdr, prev, bs[i], w, key), Alloc(bs, w), start, hi, key)
            && FreeBytes(Alloc(bs, w)) == FreeBytes(bs) - Carve(bs[i], w)[0].size
            && bs[i] == Block(bs[i].addr, bs[i].size, false)
            && HeapBlocks.Valid(Alloc(bs, w), lo, hi)
  {
    var i := FirstFit(bs, w);
    AllocValid(bs, w, lo, hi);
    AllocViews(bs, w);
    PrevIsNot(bs, i, start, lo, hi);
    FollowLink(hdr, bs, i, start, hi, key);
    assert bs[i].addr in hdr && hdr[bs[i].addr].size == bs[i].size;
    hide Xor, FreeAddrs, FreeBytes, Tiles, Holds, Lives, Carved, Apart;
    SplitAt(bs, i);
    CarvedHolds(hdr, bs[..i], bs[i], bs[i + 1..], w, start, lo, hi, key);
  }

  /** An allocation overlaps no live block, and its size is within the documented bounds. */
  lemma {:induction false} AllocDisjoint(bs: seq<Block>, w: nat, lo: nat, hi: nat)
    requires Tiles(bs, lo, hi) && FirstFit(bs, w) < |bs|
    ensures var m := Carve(bs[FirstFit(bs, w)], w)[0];
            && lo <= m.addr && m.End() <= hi
            && forall k :: 0 <= k < |bs| && bs[k].live ==> bs[k].End() <= m.addr || m.End() <= bs[k].addr
  {
    var i := FirstFit(bs, w);
    TilesBounds(bs, lo, hi);
    forall k | 0 <= k < |bs| && bs[k].live
      ensures bs[k].End() <= bs[i].addr || bs[i].End() <= bs[k].addr
    {
      if k < i {
        TilesOrdered(bs, lo, hi, k, i);
      } else {
        TilesOrdered(bs, lo, hi, i, k);
      }
    }
  }

  // ---------- Finding the place of a returned block ----------

  lemma {:induction false} FreeAddrIndex(bs: seq<Block>, a: nat) returns (k: nat)
    requires a in FreeAddrs(bs)
    ensures k < |bs| && !bs[k].live && bs[k].addr == a
  {
    if !bs[0].live && bs[0].addr == a {
      k := 0;
    } else {
      assert a in FreeAddrs(bs[1..]);
      k := FreeAddrIndex(bs[1..], a);
      k := k + 1;
    }
  }

  /** The left-merge test of prvInsertBlockIntoFreeList succeeds exactly when a free block touches block i. */
  lemma {:induction false} LeftTest(hdr: Headers, bs: seq<Block>, i: nat, start: nat, lo: nat, hi: nat, key: nat)
    requires Holds(hdr, bs, start, hi, key) && Tiles(bs, lo, hi) && i < |bs| && (start < lo || hi < start)
    ensures var p := Last([start] + FreeAddrs(bs[..i]));
            && p in hdr && p != bs[i].addr && p != hi
            && (p + hdr[p].size == bs[i].addr <==> FreeBefore(bs, i))
            && (FreeBefore(bs, i) ==> p == bs[i - 1].addr && p != start)
  {
    hide Xor, FreeAddrs, Tiles, Holds;
    var pre := bs[..i];
    var p := Last([start] + FreeAddrs(pre));
    PrevIsNot(bs, i, start, lo, hi);
    PrevBelow(bs, i, start, lo, hi);
    FollowLink(hdr, bs, i, start, hi, key);
    TilesBounds(bs, lo, hi);
    if FreeBefore(bs, i) {
      LastIsBlock(bs, i - 1, start);
      HeaderOf(hdr, bs, i - 1, start, hi, key);
      TilesOrdered(bs, lo, hi, i - 1, i);
    } else if p == start {
      StartHeader(hdr, bs, start, hi, key);
    } else {
      assert p in FreeAddrs(pre);
      var k := FreeAddrIndex(pre, p);
      assert bs[k] == pre[k];
      HeaderOf(hdr, bs, k, start, hi, key);
      TilesOrdered(bs, lo, hi, k, i - 1);
      TilesOrdered(bs, lo, hi, i - 1, i);
    }
  }

  lemma {:induction false} HeaderOf(hdr: Headers, bs: seq<Block>, i: nat, start: nat, end: nat, key: nat)
    requires Holds(hdr, bs, start, end, key) && i < |bs|
    ensures bs[i].addr in hdr && hdr[bs[i].addr].size == SizeWord(bs[i])
  {
  }

  lemma {:induction false} StartHeader(hdr: Headers, bs: seq<Block>, start: nat, end: nat, key: nat)
    requires Holds(hdr, bs, start, end, key)
    ensures start in hdr && hdr[start].size == 0 && end in hdr
  {
  }

  /** The right-merge test succeeds exactly when a free block follows block i directly. */
  lemma {:induction false} RightTest(hdr: Headers, bs: seq<Block>, i: nat, start: nat, lo: nat, hi: nat, key: nat)
    requires Holds(hdr, bs, start, hi, key) && Tiles(bs, lo, hi) && i < |bs| && bs[i].live
    ensures var p, n := Last([start] + FreeAddrs(bs[..i])), AddrAt(bs, NextFree(bs, i + 1), hi);
            && p in hdr && n in hdr && hdr[p].next == Xor(n, key) && Xor(hdr[p].next, key) == n
            && bs[i].addr < n <= hi
            && (bs[i].End() == n && n != hi <==> FreeAfter(bs, i))
            && (FreeAfter(bs, i) ==> n == bs[i + 1].addr)
  {
    FollowLink(hdr, bs, i, start, hi, key);
    TilesBounds(bs, lo, hi);
    hide Xor, FreeAddrs, Holds, Tiles;
    var j := NextFree(bs, i + 1);
    assert NextFree(bs, i) == j;
    if j < |bs| {
      TilesOrdered(bs, lo, hi, i, j);
      if j > i + 1 {
        TilesOrdered(bs, lo, hi, i, i + 1);
        TilesOrdered(bs, lo, hi, i + 1, j);
      }
    }
  }

  lemma {:induction false} SplitMiddle(bs: seq<Block>, from: nat, i: nat, to: nat)
    requires from <= i < to <= |bs|
    ensures var a, left, right, c := bs[..from], bs[from..i], bs[i + 1..to], bs[to..];
            && bs == a + (left + [bs[i]] + right) + c
            && Fuse(bs, from, to) == a + [Fused(left + [bs[i]] + right)] + c
  {
    hide SizeOf;
    assert bs[from..to] == bs[from..i] + [bs[i]] + bs[i + 1..to];
    assert bs == bs[..from] + bs[from..to] + bs[to..];
    assert bs[from..to][0] == bs[from];
  }

  /** Returning block i in memory gives exactly the row with block i released. */
  lemma {:induction false} ReleaseHolds(hdr: Headers, bs: seq<Block>, i: nat, start: nat, lo: nat, hi: nat, key: nat)
    requires HeapBlocks.Valid(bs, lo, hi) && Holds(hdr, bs, start, hi, key) && (start < lo || hi < start)
    requires i < |bs| && bs[i].live
    requires var prev, next := Last([start] + FreeAddrs(bs[..i])), AddrAt(bs, NextFree(bs, i + 1), hi);
             prev in hdr && next in hdr && bs[i].addr in hdr
    ensures var prev, next := Last([start] + FreeAddrs(bs[..i])), AddrAt(bs, NextFree(bs, i + 1), hi);
            Holds(Returned(hdr, prev, bs[i], next, FreeBefore(bs, i), FreeAfter(bs, i), key),
                  Release(bs, bs[i].addr, lo, hi), start, hi, key)
  {
    LeftTest(hdr, bs, i, start, lo, hi, key);
    RightTest(hdr, bs, i, start, lo, hi, key);
    AbsorbIsRelease(bs, lo, hi, i);
    NextFreeHead(bs, i + 1, hi);
    hide Xor, FreeAddrs, Tiles, Holds, Returned, Apart, Release, SizeOf, NextFree, Fuse, FreeBytes;
    var from := if FreeBefore(bs, i) then i - 1 else i;
    var to := if FreeAfter(bs, i) then i + 2 else i + 1;
    var a, left, right, c := bs[..from], bs[from..i], bs[i + 1..to], bs[to..];
    SplitMiddle(bs, from, i, to);
    assert PrevOf(a, left, start) == Last([start] + FreeAddrs(bs[..i]));
    assert NextOf(right, c, hi) == AddrAt(bs, NextFree(bs, i + 1), hi);
    ReturnedHolds(hdr, a, left, bs[i], right, c, start, lo, hi, key);
  }

  /** A request some block can hold passes both size pre-checks of pvPortMalloc. */
  lemma {:induction false} RoomBounds(bs: seq<Block>, w: nat, lo: nat, hi: nat)
    requires Tiles(bs, lo, hi)
    ensures HasRoom(bs, w) ==> w <= FreeBytes(bs) && w <= hi - lo
  {
    if HasRoom(bs, w) {
      var i :| 0 <= i < |bs| && Fits(bs[i], w);
      FreeBytesBound(bs, i);
      TilesBounds(bs, lo, hi);
    }
  }

  lemma {:induction false} BlockIsEnd(bs: seq<Block>, i: nat, lo: nat, hi: nat)
    requires Tiles(bs, lo, hi) && i <= |bs|
    ensures AddrAt(bs, i, hi) == hi <==> i == |bs|
  {
    TilesBounds(bs, lo, hi);
  }

  lemma {:induction false} CarveSize(b: Block, w: nat)
    requires Fits(b, w)
    ensures var m := Carve(b, w)[0]; m.addr == b.addr && m.live && w <= m.size <= w + MINIMUM_BLOCK_SIZE
  {
  }

  lemma {:induction false} LowestFit(bs: seq<Block>, w: nat, lo: nat, hi: nat)
    requires Tiles(bs, lo, hi) && FirstFit(bs, w) < |bs|
    ensures forall x :: x in bs && !x.live && x.size >= w ==> bs[FirstFit(bs, w)].addr <= x.addr
  {
    var i := FirstFit(bs, w);
    TilesBounds(bs, lo, hi);
    forall x | x in bs && !x.live && x.size >= w
      ensures bs[i].addr <= x.addr
    {
      var k :| 0 <= k < |bs| && bs[k] == x;
      assert Fits(bs[k], w);
      if i < k {
        TilesOrdered(bs, lo, hi, i, k);
      }
    }
  }

  /** Block b has w bytes from the front of f, or all of f with at most the minimum block size more. */
  predicate ExactSize(b: Block, f: Block, w: nat) {
    && (b.size == w || (b.End() == f.End() && b.size - w <= MINIMUM_BLOCK_SIZE))
    && (f.size - w > MINIMUM_BLOCK_SIZE ==> b.size == w)
  }

  /** The block a request of n bytes takes from the row bs. */
  ghost function Taken(bs: seq<Block>, n: nat): Block
    requires n <= SIZE_MAX && HasRoom(bs, WantedSize(n))
  {
    Carve(bs[FirstFit(bs, WantedSize(n))], WantedSize(n))[0]
  }

  /** What a served request gets: an aligned block inside the heap, at the front of the lowest free block that
      holds the rounded request, of exactly that size unless it takes the whole free block and at most the
      minimum block size more, and overlapping no live block. Every live block stays. */
  lemma {:induction false} TakenFacts(bs: seq<Block>, n: nat, lo: nat, hi: nat)
    requires Tiles(bs, lo, hi) && lo % ALIGNMENT == 0
    requires n <= SIZE_MAX && WantedSize(n) != 0 && HasRoom(bs, WantedSize(n))
    ensures var b := Taken(bs, n);
            && b.addr == bs[FirstFit(bs, WantedSize(n))].addr
            && b.addr % ALIGNMENT == 0
            && n + STRUCT_SIZE <= b.size <= RoundUp(n + STRUCT_SIZE) + MINIMUM_BLOCK_SIZE
            && ExactSize(b, bs[FirstFit(bs, WantedSize(n))], WantedSize(n))
            && lo <= b.addr && b.End() <= hi
            && FreeBytes(Alloc(bs, WantedSize(n))) == FreeBytes(bs) - b.size
            && b in Alloc(bs, WantedSize(n)) && b.live
            && (forall x :: x in bs && x.live ==> x.End() <= b.addr || b.End() <= x.addr)
            && (forall x :: x in bs && x.live ==> x in Alloc(bs, WantedSize(n)))
            && (forall x :: x in bs && !x.live && x.size >= WantedSize(n) ==> b.addr <= x.addr)
  {
    LowestFit(bs, WantedSize(n), lo, hi);
    hide FreeBytes, Lives;
    AllocViews(bs, WantedSize(n));
    AllocExact(bs, WantedSize(n));
    hide Alloc, Carve;
    var w := WantedSize(n);
    WantedAligned(n);
    AllocDisjoint(bs, w, lo, hi);
    CarveSize(bs[FirstFit(bs, w)], w);
    TilesBounds(bs, lo, hi);
  }

  /** At entry j of the walk for the place of block i: either the next entry is still below block i,
      or entry j is the last one below it. */
  ghost predicate PlaceFound(bs: seq<Block>, j: nat, i: nat, start: nat, lo: nat, hi: nat)
    requires j <= i < |bs|
  {
    var k := NextFree(bs, j);
    if AddrAt(bs, k, hi) < bs[i].addr then k < i && !bs[k].live && lo <= bs[k].addr < hi
    else Last([start] + FreeAddrs(bs[..j])) == Last([start] + FreeAddrs(bs[..i]))
  }

  lemma {:induction false} PlaceStep(hdr: Headers, bs: seq<Block>, j: nat, i: nat, start: nat, lo: nat, hi: nat, key: nat)
    requires Tiles(bs, lo, hi) && Holds(hdr, bs, start, hi, key) && j <= i < |bs| && bs[i].live
    ensures PlaceFound(bs, j, i, start, lo, hi)
    ensures var p := Last([start] + FreeAddrs(bs[..j]));
            p in hdr && Xor(hdr[p].next, key) == AddrAt(bs, NextFree(bs, j), hi)
  {
    FollowLink(hdr, bs, j, start, hi, key);
    TilesBounds(bs, lo, hi);
    var k := NextFree(bs, j);
    hide Xor, FreeAddrs, Tiles;
    if k < i {
      TilesOrdered(bs, lo, hi, k, i);
    } else {
      assert NextFree(bs, j) == NextFree(bs, i) by { NextFreeSame(bs, j, i); }
      NextFreeViews(bs, j);
      NextFreeViews(bs, i);
      if i < k < |bs| {
        TilesOrdered(bs, lo, hi, i, k);
      }
    }
  }

  lemma {:induction false} NextFreeSame(bs: seq<Block>, j: nat, i: nat)
    requires j <= i <= |bs| && i <= NextFree(bs, j)
    ensures NextFree(bs, j) == NextFree(bs, i)
  {
  }

  lemma {:induction false} PrevBelow(bs: seq<Block>, i: nat, start: nat, lo: nat, hi: nat)
    requires Tiles(bs, lo, hi) && i < |bs| && (start < lo || hi < start)
    ensures var p := Last([start] + FreeAddrs(bs[..i])); p < lo || p > hi || p < bs[i].addr
  {
    SplitAt(bs, i);
    FindRegions(bs[..i], bs[i], bs[i + 1..], lo, hi);
    hide FreeAddrs, Tiles;
    var p := Last([start] + FreeAddrs(bs[..i]));
    assert p == start || p in FreeAddrs(bs[..i]);
  }

  /** Returning a block does not depend on whether its allocated bit was already cleared. */
  lemma {:induction false} ReturnedTwice(hdr: Headers, prev: nat, b: Block, next: nat, left: bool, right: bool, key: nat)
    requires prev in hdr && b.addr in hdr && next in hdr
    ensures Returned(hdr[b.addr := hdr[b.addr].(size := b.size)], prev, b, next, left, right, key)
         == Returned(hdr, prev, b, next, left, right, key)
  {
    var hdr1 := hdr[b.addr := hdr[b.addr].(size := b.size)];
    assert hdr1[b.addr := hdr1[b.addr].(size := b.size)] == hdr1;
  }

  lemma {:induction false} SameAddress(bs: seq<Block>, lo: nat, hi: nat, i: nat, k: nat)
    requires Tiles(bs, lo, hi) && i < |bs| && k < |bs| && bs[k].addr == bs[i].addr
    ensures k == i
  {
    TilesBounds(bs, lo, hi);
    if k < i {
      TilesOrdered(bs, lo, hi, k, i);
    } else if i < k {
      TilesOrdered(bs, lo, hi, i, k);
    }
  }

  lemma {:induction false} LiveByAddr(bs: seq<Block>, lo: nat, hi: nat, i: nat)
    requires Tiles(bs, lo, hi) && i < |bs|
    ensures LiveAt(bs, bs[i].addr) <==> bs[i].live
  {
    if LiveAt(bs, bs[i].addr) {
      var k :| 0 <= k < |bs| && bs[k].live && bs[k].addr == bs[i].addr;
      SameAddress(bs, lo, hi, i, k);
    }
  }

  /** The header address vPortFree computes, in 32-bit arithmetic. */
  function HeaderOfPayload(pv: nat): nat {
    if pv >= STRUCT_SIZE then pv - STRUCT_SIZE else pv + (SIZE_MAX + 1 - STRUCT_SIZE)
  }

  lemma {:induction false} BlockServed(bs: seq<Block>, pv: nat, i: nat, lo: nat, hi: nat)
    requires HeapBlocks.Valid(bs, lo, hi) && hi <= SIZE_MAX && i < |bs| && HeaderOfPayload(pv) == bs[i].addr
    ensures pv == bs[i].addr + STRUCT_SIZE && (LiveAt(bs, bs[i].addr) <==> bs[i].live)
    ensures Serve(bs, Free(pv)) == if bs[i].live then Release(bs, bs[i].addr, lo, hi) else bs
    ensures bs[i].live ==>
              && bs[LiveIndex(bs, bs[i].addr)] == bs[i]
              && FreeBytes(Release(bs, bs[i].addr, lo, hi)) == FreeBytes(bs) + bs[i].size
              && forall x: Block :: x.live ==> (x in Release(bs, bs[i].addr, lo, hi) <==> x in bs && x.addr != bs[i].addr)
  {
    hide Tiles, Apart, Release, Serve, LiveAt, LiveIndex, FreeBytes, Absorb;
    TilesBounds(bs, lo, hi);
    LiveByAddr(bs, lo, hi, i);
    assert pv == bs[i].addr + STRUCT_SIZE;
    if bs[i].live {
      ServeFree(bs, i, lo, hi);
      AbsorbIsRelease(bs, lo, hi, i);
      AbsorbExact(bs, lo, hi, i);
      SameAddress(bs, lo, hi, i, LiveIndex(bs, bs[i].addr));
    } else {
      ServeNone(bs, pv);
    }
  }

  lemma {:induction false} NotServed(bs: seq<Block>, pv: nat, lo: nat, hi: nat)
    requires Tiles(bs, lo, hi) && (HeaderOfPayload(pv) < lo || hi <= HeaderOfPayload(pv))
    ensures pv >= STRUCT_SIZE ==> !LiveAt(bs, pv - STRUCT_SIZE)
    ensures Serve(bs, Free(pv)) == bs
  {
    TilesBounds(bs, lo, hi);
    hide Tiles, Serve;
    assert pv >= STRUCT_SIZE ==> !LiveAt(bs, pv - STRUCT_SIZE);
    ServeNone(bs, pv);
  }

  /** Everything the joining step of a free needs to know about block i and its list neighbours. */
  lemma {:induction false} JoinFacts(was: Headers, bs: seq<Block>, i: nat, start: nat, lo: nat, hi: nat, key: nat)
    requires HeapBlocks.Valid(bs, lo, hi) && Holds(was, bs, start, hi, key) && (start < lo || hi < start)
    requires i < |bs| && bs[i].live && bs[i].addr in was
    ensures var it, next := Last([start] + FreeAddrs(bs[..i])), AddrAt(bs, NextFree(bs, i + 1), hi);
            var hdr, b := was[bs[i].addr := was[bs[i].addr].(size := bs[i].size)], bs[i];
            && it in hdr && next in hdr && hi in hdr
            && hdr[it].next == Xor(next, key) && Xor(hdr[it].next, key) == next
            && it != b.addr && next != b.addr && next != it
            && Holds(Returned(hdr, it, b, next, it + hdr[it].size == b.addr, b.addr + b.size == next && next != hi, key),
                     Release(bs, b.addr, lo, hi), start, hi, key)
            && HeapBlocks.Valid(Release(bs, b.addr, lo, hi), lo, hi)
            && FreeBytes(Release(bs, b.addr, lo, hi)) == FreeBytes(bs) + b.size
  {
    var it, next := Last([start] + FreeAddrs(bs[..i])), AddrAt(bs, NextFree(bs, i + 1), hi);
    hide Xor, FreeAddrs, FreeBytes, Tiles, Holds, Apart, Returned, Release, NextFree, Absorb;
    LeftTest(was, bs, i, start, lo, hi, key);
    RightTest(was, bs, i, start, lo, hi, key);
    PrevBelow(bs, i, start, lo, hi);
    TilesBounds(bs, lo, hi);
    StartHeader(was, bs, start, hi, key);
    ReleaseHolds(was, bs, i, start, lo, hi, key);
    AbsorbIsRelease(bs, lo, hi, i);
    ReturnedTwice(was, it, bs[i], next, FreeBefore(bs, i), FreeAfter(bs, i), key);
    var hdr, b := was[bs[i].addr := was[bs[i].addr].(size := bs[i].size)], bs[i];
    assert hdr[it] == was[it];
  }

  /** The walk for the place of block i, from a list entry it that is the last one before index j. */
  ghost predicate Placing(hdr: Headers, bs: seq<Block>, it: nat, j: nat, i: nat, start: nat, lo: nat, hi: nat, key: nat) {
    && j <= i < |bs| && it in hdr
    && it == Last([start] + FreeAddrs(bs[..j])) && (it == start || lo <= it < hi)
    && Xor(hdr[it].next, key) == AddrAt(bs, NextFree(bs, j), hi)
    && PlaceFound(bs, j, i, start, lo, hi)
  }

  lemma {:induction false} PlacingAt(hdr: Headers, bs: seq<Block>, it: nat, j: nat, i: nat, start: nat, lo: nat, hi: nat, key: nat)
    requires Placing(hdr, bs, it, j, i, start, lo, hi, key)
    ensures j <= i && it in hdr && (it == start || lo <= it < hi)
  {
  }

  lemma {:induction false} PlacingStart(hdr: Headers, bs: seq<Block>, i: nat, start: nat, lo: nat, hi: nat, key: nat)
    requires Tiles(bs, lo, hi) && Holds(hdr, bs, start, hi, key) && i < |bs| && bs[i].live
    ensures Placing(hdr, bs, start, 0, i, start, lo, hi, key)
  {
    assert FreeAddrs(bs[..0]) == [];
    hide Xor, FreeAddrs, Tiles, Holds, NextFree;
    PlaceStep(hdr, bs, 0, i, start, lo, hi, key);
  }

  lemma {:induction false} PlacingStep(hdr: Headers, bs: seq<Block>, it: nat, j: nat, i: nat, start: nat, lo: nat, hi: nat, key: nat)
    requires Tiles(bs, lo, hi) && Holds(hdr, bs, start, hi, key) && i < |bs| && bs[i].live
    requires it in hdr && Placing(hdr, bs, it, j, i, start, lo, hi, key) && Xor(hdr[it].next, key) < bs[i].addr
    requires j <= i
    ensures j <= NextFree(bs, j) < i
    ensures Placing(hdr, bs, Xor(hdr[it].next, key), NextFree(bs, j) + 1, i, start, lo, hi, key)
  {
    var k := NextFree(bs, j);
    hide Xor, FreeAddrs, Tiles, Holds, NextFree;
    WalkStep(hdr, bs, k, start, hi, key);
    PlaceStep(hdr, bs, k + 1, i, start, lo, hi, key);
    LastIsBlock(bs, k, start);
  }

  lemma {:induction false} PlacingDone(hdr: Headers, bs: seq<Block>, it: nat, j: nat, i: nat, start: nat, lo: nat, hi: nat, key: nat)
    requires i < |bs| && it in hdr && Placing(hdr, bs, it, j, i, start, lo, hi, key)
    requires Xor(hdr[it].next, key) >= bs[i].addr
    ensures it == Last([start] + FreeAddrs(bs[..i]))
  {
    hide Xor, FreeAddrs, NextFree;
  }

  lemma {:induction false} CountStep(bs: seq<Block>, i: nat)
    requires i < |bs| && !bs[i].live
    ensures |FreeAddrs(bs[..NextFree(bs, i + 1)])| == |FreeAddrs(bs[..i])| + 1
  {
    assert FreeAddrs([bs[i]]) == [bs[i].addr];
    hide FreeAddrs;
    NextFreeViews(bs, i + 1);
    assert bs[..i + 1] == bs[..i] + [bs[i]];
    FreeAddrsConcat(bs[..i], [bs[i]]);
  }

  /** Every protected link stored in a header fits a 32-bit word, like the addresses and the key. */
  lemma {:induction false} LinksFit(hdr: Headers, bs: seq<Block>, start: nat, lo: nat, hi: nat, key: nat, a: nat)
    requires Tiles(bs, lo, hi) && Holds(hdr, bs, start, hi, key)
    requires start <= SIZE_MAX && hi <= SIZE_MAX && key <= SIZE_MAX
    requires a == start || a == hi || exists i :: 0 <= i < |bs| && bs[i].addr == a
    ensures a in hdr && hdr[a].next <= SIZE_MAX
  {
    WordRange();
    hide Xor, Pow2, Tiles;
    XorWidth(0, key, 32);
    if a != hi && !exists i :: 0 <= i < |bs| && bs[i].live && bs[i].addr == a {
      ListLink(hdr, bs, start, lo, hi, key, a);
      var next: nat :| next <= SIZE_MAX && hdr[a].next == Xor(next, key);
      XorWidth(next, key, 32);
    }
  }

  lemma {:induction false} WordRange()
    ensures Pow2(32) == SIZE_MAX + 1
  {
    assert Pow2(8) == 256;
    assert Pow2(16) == 65536;
    assert Pow2(24) == 16777216;
  }

  lemma {:induction false} ListLink(hdr: Headers, bs: seq<Block>, start: nat, lo: nat, hi: nat, key: nat, a: nat)
    requires Tiles(bs, lo, hi) && Holds(hdr, bs, start, hi, key) && hi <= SIZE_MAX
    requires a == start || exists i :: 0 <= i < |bs| && !bs[i].live && bs[i].addr == a
    ensures a in hdr && exists next: nat :: next <= SIZE_MAX && hdr[a].next == Xor(next, key)
  {
    hide Xor, Tiles, FreeAddrs, Stored;
    var l := FreeList(bs, start, hi);
    FreeAddrsSorted(bs, lo, hi);
    if a == start {
      assert l[0] == start;
      LinkWithin(hdr, l, 0, key);
    } else {
      var i :| 0 <= i < |bs| && !bs[i].live && bs[i].addr == a;
      FreeListed(bs, i);
      var k :| 0 <= k < |FreeAddrs(bs)| && FreeAddrs(bs)[k] == a;
      assert l[k + 1] == a;
      LinkWithin(hdr, l, k + 1, key);
    }
  }

  lemma {:induction false} LinkWithin(hdr: Headers, l: seq<nat>, k: nat, key: nat)
    requires Linked(hdr, l, key) && k + 1 < |l| && forall i :: 0 < i < |l| ==> l[i] <= SIZE_MAX
    ensures exists next: nat :: next <= SIZE_MAX && hdr[l[k]].next == Xor(next, key)
  {
    hide Xor;
    assert hdr[l[k]].next == Xor(l[k + 1], key);
  }

  lemma {:induction false} FreeListed(bs: seq<Block>, i: nat)
    requires i < |bs| && !bs[i].live
    ensures bs[i].addr in FreeAddrs(bs)
  {
    if i > 0 {
      FreeListed(bs[1..], i - 1);
    }
  }

  /** What the statistics walk knows about the free blocks below index i. */
  ghost predicate Survey(bs: seq<Block>, i: nat, count: nat, max: nat, min: nat) {
    && i <= |bs|
    && count == |FreeAddrs(bs[..i])|
    && (forall k :: 0 <= k < i && !bs[k].live ==> min <= bs[k].size <= max)
    && (max == 0 || exists k :: 0 <= k < i && !bs[k].live && bs[k].size == max)
    && (min == SIZE_MAX || exists k :: 0 <= k < i && !bs[k].live && bs[k].size == min)
  }

  lemma {:induction false} SurveyStart(bs: seq<Block>)
    ensures Survey(bs, NextFree(bs, 0), 0, 0, SIZE_MAX)
  {
    NextFreeViews(bs, 0);
    assert FreeAddrs(bs[..0]) == [];
  }

  lemma {:induction false} SurveyStep(bs: seq<Block>, i: nat, count: nat, max: nat, min: nat)
    requires i < |bs| && !bs[i].live && Survey(bs, i, count, max, min)
    ensures Survey(bs, NextFree(bs, i + 1), count + 1,
                   if bs[i].size > max then bs[i].size else max, if bs[i].size < min then bs[i].size else min)
  {
    CountStep(bs, i);
    hide FreeAddrs;
  }

  /** A request has room exactly when it is at most the largest free block. */
  lemma {:induction false} SurveyDone(bs: seq<Block>, count: nat, max: nat, min: nat)
    requires Survey(bs, |bs|, count, max, min)
    ensures count == |FreeAddrs(bs)|
    ensures forall w :: w > 0 ==> (HasRoom(bs, w) <==> w <= max)
    ensures forall b :: b in bs && !b.live ==> min <= b.size
    ensures min == SIZE_MAX || exists b :: b in bs && !b.live && b.size == min
  {
    if min != SIZE_MAX {
      var k :| 0 <= k < |bs| && !bs[k].live && bs[k].size == min;
      assert bs[k] in bs;
    }
    assert bs[..|bs|] == bs;
    hide FreeAddrs;
    forall w | w > 0
      ensures HasRoom(bs, w) <==> w <= max
    {
      if w <= max {
        var k :| 0 <= k < |bs| && !bs[k].live && bs[k].size == max;
        assert Fits(bs[k], w);
      }
    }
  }
}
