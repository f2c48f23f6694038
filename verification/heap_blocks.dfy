/**
 The heap as a row of blocks, independent of how memmgr_heap.c stores it.
 A heap state is the sequence of all its blocks, in address order. The free
 list of the allocator is a function of that sequence, and this module shows
 that the sequence itself is a function of the live allocations alone.
 */
module HeapBlocks {

  const STRUCT_SIZE: nat := 8
  const ALIGNMENT: nat := 8
  const MINIMUM_BLOCK_SIZE: nat := 2 * STRUCT_SIZE
  const SIZE_MAX: nat := 0xFFFF_FFFF
  const ALLOCATED_BIT: nat := 0x8000_0000
  const LARGEST_REQUEST: nat := 0xFFFF_FFF0     // more does not fit 32 bits with its header, rounded up

  datatype Block = Block(addr: nat, size: nat, live: bool) {
    function End(): nat {
      addr + size
    }
  }

  // ---------- Invariants of a row of blocks ----------

  /** The blocks cover [lo, hi) exactly, in order, with aligned positive sizes. */
  ghost predicate Tiles(bs: seq<Block>, lo: nat, hi: nat) {
    if bs == [] then lo == hi
    else
      && bs[0].addr == lo
      && bs[0].size >= STRUCT_SIZE
      && bs[0].size % ALIGNMENT == 0
      && Tiles(bs[1..], bs[0].End(), hi)
  }

  /** No two free blocks touch. */
  ghost predicate Apart(bs: seq<Block>) {
    forall i {:trigger bs[i]} :: 0 <= i < |bs| - 1 ==> bs[i].live || bs[i + 1].live
  }

  ghost predicate Valid(bs: seq<Block>, lo: nat, hi: nat) {
    Tiles(bs, lo, hi) && Apart(bs)
  }

  function EndOf(bs: seq<Block>, lo: nat): nat {
    if bs == [] then lo else bs[|bs| - 1].End()
  }

  lemma {:induction false} TilesConcat(a: seq<Block>, b: seq<Block>, lo: nat, hi: nat)
    ensures Tiles(a + b, lo, hi) <==> Tiles(a, lo, EndOf(a, lo)) && Tiles(b, EndOf(a, lo), hi)
  {
    if a == [] {
      assert a + b == b;
    } else {
      assert (a + b)[1..] == a[1..] + b;
      TilesConcat(a[1..], b, a[0].End(), hi);
      assert EndOf(a[1..], a[0].End()) == EndOf(a, lo);
    }
  }

  lemma {:induction false} TilesBounds(bs: seq<Block>, lo: nat, hi: nat)
    requires Tiles(bs, lo, hi)
    ensures lo <= hi
    ensures bs != [] ==> lo < hi
    ensures EndOf(bs, lo) == hi
    ensures forall i :: 0 <= i < |bs| ==>
              lo <= bs[i].addr && STRUCT_SIZE <= bs[i].size && bs[i].size % ALIGNMENT == 0 && bs[i].End() <= hi
    ensures lo % ALIGNMENT == 0 ==> forall i :: 0 <= i < |bs| ==> bs[i].addr % ALIGNMENT == 0
  {
    if bs != [] {
      var rest := bs[1..];
      TilesBounds(rest, bs[0].End(), hi);
      forall i | 0 <= i < |bs|
        ensures lo <= bs[i].addr && STRUCT_SIZE <= bs[i].size && bs[i].size % ALIGNMENT == 0 && bs[i].End() <= hi
        ensures lo % ALIGNMENT == 0 ==> bs[i].addr % ALIGNMENT == 0
      {
        if i > 0 {
          assert bs[i] == rest[i - 1];
        }
      }
    }
  }

  /** Blocks at different indices occupy disjoint address ranges, in order. */
  lemma {:induction false} TilesOrdered(bs: seq<Block>, lo: nat, hi: nat, i: nat, j: nat)
    requires Tiles(bs, lo, hi)
    requires i < j < |bs|
    ensures bs[i].End() <= bs[j].addr
    ensures j == i + 1 ==> bs[i].End() == bs[j].addr
  {
    if i == 0 {
      TilesBounds(bs[1..], bs[0].End(), hi);
      assert bs[j] == bs[1..][j - 1];
    } else {
      TilesOrdered(bs[1..], bs[0].End(), hi, i - 1, j - 1);
    }
  }

  // ---------- Views of a row of blocks ----------

  function FreeAddr(b: Block): seq<nat> {
    if b.live then [] else [b.addr]
  }

  /** Addresses of the free blocks: what the linked free list must hold. */
  function FreeAddrs(bs: seq<Block>): seq<nat> {
    if bs == [] then [] else FreeAddr(bs[0]) + FreeAddrs(bs[1..])
  }

  function Live(b: Block): seq<Block> {
    if b.live then [b] else []
  }

  function Lives(bs: seq<Block>): seq<Block> {
    if bs == [] then [] else Live(bs[0]) + Lives(bs[1..])
  }

  function FreeBytes(bs: seq<Block>): nat {
    if bs == [] then 0
    else (if bs[0].live then 0 else bs[0].size) + FreeBytes(bs[1..])
  }

  function LiveBytes(bs: seq<Block>): nat {
    if bs == [] then 0
    else (if bs[0].live then bs[0].size else 0) + LiveBytes(bs[1..])
  }

  lemma {:induction false} FreeAddrsConcat(a: seq<Block>, b: seq<Block>)
    ensures FreeAddrs(a + b) == FreeAddrs(a) + FreeAddrs(b)
  {
    if a == [] {
      assert a + b == b;
    } else {
      assert (a + b)[1..] == a[1..] + b;
      FreeAddrsConcat(a[1..], b);
    }
  }

  lemma {:induction false} LivesConcat(a: seq<Block>, b: seq<Block>)
    ensures Lives(a + b) == Lives(a) + Lives(b)
  {
    if a == [] {
      assert a + b == b;
    } else {
      assert (a + b)[1..] == a[1..] + b;
      LivesConcat(a[1..], b);
    }
  }

  lemma {:induction false} FreeBytesConcat(a: seq<Block>, b: seq<Block>)
    ensures FreeBytes(a + b) == FreeBytes(a) + FreeBytes(b)
  {
    if a == [] {
      assert a + b == b;
    } else {
      assert (a + b)[1..] == a[1..] + b;
      FreeBytesConcat(a[1..], b);
    }
  }

  /** The free list of a row around its middle part. */
  lemma {:induction false} FreeAddrsAround(a: seq<Block>, m: seq<Block>, b: seq<Block>)
    ensures FreeAddrs(a + m + b) == FreeAddrs(a) + FreeAddrs(m) + FreeAddrs(b)
  {
    hide FreeAddrs;
    FreeAddrsConcat(a + m, b);
    FreeAddrsConcat(a, m);
  }

  lemma {:induction false} LivesAround(a: seq<Block>, m: seq<Block>, b: seq<Block>)
    ensures Lives(a + m + b) == Lives(a) + Lives(m) + Lives(b)
  {
    hide Lives;
    LivesConcat(a + m, b);
    LivesConcat(a, m);
  }

  lemma {:induction false} FreeBytesAround(a: seq<Block>, m: seq<Block>, b: seq<Block>)
    ensures FreeBytes(a + m + b) == FreeBytes(a) + FreeBytes(m) + FreeBytes(b)
  {
    hide FreeBytes;
    FreeBytesConcat(a + m, b);
    FreeBytesConcat(a, m);
  }

  lemma {:induction false} SplitAt(bs: seq<Block>, i: nat)
    requires i < |bs|
    ensures bs == bs[..i] + [bs[i]] + bs[i + 1..]
  {
  }

  /** Free plus live bytes is the constant size of the heap. */
  lemma {:induction false} BytesConserved(bs: seq<Block>, lo: nat, hi: nat)
    requires Tiles(bs, lo, hi)
    ensures FreeBytes(bs) + LiveBytes(bs) == hi - lo
  {
    if bs != [] {
      BytesConserved(bs[1..], bs[0].End(), hi);
    }
  }

  /** The free list is strictly sorted by address and stays inside [lo, hi). */
  lemma {:induction false} FreeAddrsSorted(bs: seq<Block>, lo: nat, hi: nat)
    requires Tiles(bs, lo, hi)
    ensures forall k :: 0 <= k < |FreeAddrs(bs)| ==> lo <= FreeAddrs(bs)[k] < hi
    ensures forall j, k :: 0 <= j < k < |FreeAddrs(bs)| ==> FreeAddrs(bs)[j] < FreeAddrs(bs)[k]
  {
    if bs != [] {
      FreeAddrsSorted(bs[1..], bs[0].End(), hi);
      TilesBounds(bs[1..], bs[0].End(), hi);
    }
  }

  lemma {:induction false} FreeBytesBound(bs: seq<Block>, i: nat)
    requires i < |bs| && !bs[i].live
    ensures bs[i].size <= FreeBytes(bs)
  {
    if i > 0 {
      FreeBytesBound(bs[1..], i - 1);
    }
  }

  // ---------- The canonical row: maximal gaps between live blocks ----------

  function Gap(lo: nat, hi: nat): seq<Block> {
    if lo < hi then [Block(lo, hi - lo, false)] else []
  }

  /** The live blocks with every maximal gap between them as one free block. */
  function Fill(lives: seq<Block>, lo: nat, hi: nat): seq<Block> {
    if lives == [] then Gap(lo, hi)
    else Gap(lo, lives[0].addr) + [lives[0]] + Fill(lives[1..], lives[0].End(), hi)
  }

  /** Whatever the history, a valid heap is the canonical row of its live blocks. */
  lemma {:induction false} HistoryIndependent(bs: seq<Block>, lo: nat, hi: nat)
    requires Valid(bs, lo, hi)
    ensures bs == Fill(Lives(bs), lo, hi)
  {
    if bs != [] {
      var rest := bs[1..];
      assert Apart(rest) by {
        assert forall i {:trigger rest[i]} :: 0 <= i < |rest| ==> rest[i] == bs[i + 1];
      }
      HistoryIndependent(rest, bs[0].End(), hi);
      assert bs == [bs[0]] + rest;
      if bs[0].live {
        assert Lives(bs)[1..] == Lives(rest);
      } else if rest != [] {
        assert bs[1].live && Tiles(rest, bs[0].End(), hi);
        assert Lives(bs) == Lives(rest) && Lives(rest)[0] == rest[0];
      }
    }
  }

  // ---------- Requests ----------

  function RoundUp(n: nat): nat {
    if n % ALIGNMENT == 0 then n else n + (ALIGNMENT - n % ALIGNMENT)
  }

  /** The block size pvPortMalloc looks for; 0 when the 32-bit arithmetic would overflow or n is 0. */
  function WantedSize(n: nat): nat
    requires n <= SIZE_MAX
  {
    if n == 0 || n + STRUCT_SIZE > SIZE_MAX || RoundUp(n + STRUCT_SIZE) > SIZE_MAX then 0
    else RoundUp(n + STRUCT_SIZE)
  }

  predicate Fits(b: Block, w: nat) {
    !b.live && b.size >= w
  }

  /** Some free block holds w bytes. */
  predicate HasRoom(bs: seq<Block>, w: nat) {
    exists i :: 0 <= i < |bs| && Fits(bs[i], w)
  }

  /** No block below index n holds w bytes. */
  predicate NoneFits(bs: seq<Block>, n: nat, w: nat)
    requires n <= |bs|
  {
    forall i :: 0 <= i < n ==> !Fits(bs[i], w)
  }

  /** Carve w bytes from the front of a free block, splitting only when the rest is large enough. */
  function Carve(b: Block, w: nat): seq<Block>
    requires Fits(b, w)
  {
    if b.size - w > MINIMUM_BLOCK_SIZE then [Block(b.addr, w, true), Block(b.addr + w, b.size - w, false)]
    else [Block(b.addr, b.size, true)]
  }

  /** Index of the lowest free block that holds w bytes, or |bs|. */
  function FirstFit(bs: seq<Block>, w: nat): (i: nat)
    ensures i <= |bs|
    ensures i < |bs| ==> Fits(bs[i], w)
    ensures NoneFits(bs, i, w)
  {
    if bs == [] || Fits(bs[0], w) then 0
    else
      var r := FirstFit(bs[1..], w);
      assert forall k :: 0 < k <= r ==> bs[k] == bs[1..][k - 1];
      1 + r
  }

  lemma {:induction false} FirstFitUnique(bs: seq<Block>, w: nat, i: nat)
    requires i <= |bs| && NoneFits(bs, i, w) && (i < |bs| ==> Fits(bs[i], w))
    ensures i == FirstFit(bs, w)
  {
  }

  /** First-fit allocation of w bytes. */
  function Alloc(bs: seq<Block>, w: nat): seq<Block> {
    var i := FirstFit(bs, w);
    if i == |bs| then bs else bs[..i] + Carve(bs[i], w) + bs[i + 1..]
  }

  lemma {:induction false} AllocValid(bs: seq<Block>, w: nat, lo: nat, hi: nat)
    requires Valid(bs, lo, hi) && STRUCT_SIZE <= w && w % ALIGNMENT == 0
    requires FirstFit(bs, w) < |bs|
    ensures Valid(Alloc(bs, w), lo, hi)
  {
    var i := FirstFit(bs, w);
    var m := Carve(bs[i], w);
    assert Tiles(Alloc(bs, w), lo, hi) by {
      TilesBounds(bs, lo, hi);
      CarveTiles(bs[i], w);
      SplitAt(bs, i);
      TilesReplace(bs[..i], [bs[i]], m, bs[i + 1..], lo, hi);
    }
    ApartReplace(bs, i, i + 1, m);
  }

  /** An allocation adds one live block and takes exactly its size from the free bytes. */
  lemma {:induction false} AllocViews(bs: seq<Block>, w: nat)
    requires FirstFit(bs, w) < |bs|
    ensures var i := FirstFit(bs, w);
            && Lives(bs) == Lives(bs[..i]) + Lives(bs[i + 1..])
            && Lives(Alloc(bs, w)) == Lives(bs[..i]) + [Carve(bs[i], w)[0]] + Lives(bs[i + 1..])
            && FreeBytes(Alloc(bs, w)) == FreeBytes(bs) - Carve(bs[i], w)[0].size
  {
    var i := FirstFit(bs, w);
    SplitAt(bs, i);
    CarveAround(bs[..i], bs[i], w, bs[i + 1..]);
  }

  lemma {:induction false} CarveAround(pre: seq<Block>, b: Block, w: nat, post: seq<Block>)
    requires Fits(b, w)
    ensures Lives(pre + [b] + post) == Lives(pre) + Lives(post)
    ensures Lives(pre + Carve(b, w) + post) == Lives(pre) + [Carve(b, w)[0]] + Lives(post)
    ensures FreeBytes(pre + Carve(b, w) + post) == FreeBytes(pre + [b] + post) - Carve(b, w)[0].size
  {
    CarveViews(b, w);
    FreeMiddle(pre, b, post);
    hide Lives, FreeBytes;
    LivesAround(pre, Carve(b, w), post);
    FreeBytesAround(pre, [b], post);
    FreeBytesAround(pre, Carve(b, w), post);
  }

  lemma {:induction false} CarveViews(b: Block, w: nat)
    requires Fits(b, w)
    ensures Lives([b]) == [] && Lives(Carve(b, w)) == [Carve(b, w)[0]]
    ensures FreeBytes([b]) - FreeBytes(Carve(b, w)) == Carve(b, w)[0].size
  {
    var m := Carve(b, w);
    FreeOne(b);
    LiveThen(m[0], m[1..]);
    if |m| == 2 {
      assert m == [m[0]] + [m[1]] && m[1..] == [m[1]];
      FreeOne(m[1]);
    } else {
      assert m == [m[0]] + [] && m[1..] == [];
    }
  }

  lemma {:induction false} FreeOne(b: Block)
    requires !b.live
    ensures Lives([b]) == [] && FreeBytes([b]) == b.size
  {
    assert [b][1..] == [];
  }

  lemma {:induction false} LiveThen(b: Block, rest: seq<Block>)
    requires b.live
    ensures Lives([b] + rest) == [b] + Lives(rest) && FreeBytes([b] + rest) == FreeBytes(rest)
  {
    assert ([b] + rest)[1..] == rest;
  }

  lemma {:induction false} CarveTiles(b: Block, w: nat)
    requires Fits(b, w) && Tiles([b], b.addr, b.End()) && STRUCT_SIZE <= w && w % ALIGNMENT == 0
    ensures Tiles(Carve(b, w), b.addr, b.End())
  {
    var m := Carve(b, w);
    if |m| == 2 {
      assert m[1..] == [m[1]];
      assert Tiles([m[1]], m[0].End(), b.End());
    }
  }

  lemma {:induction false} TilesHead(bs: seq<Block>, lo: nat, hi: nat)
    requires Tiles(bs, lo, hi) && bs != []
    ensures bs[0].addr == lo
  {
  }

  /** Replacing the middle of a row by another tiling of the same addresses. */
  lemma {:induction false} TilesReplace(pre: seq<Block>, m: seq<Block>, m': seq<Block>, post: seq<Block>, lo: nat, hi: nat)
    requires Tiles(pre + m + post, lo, hi)
    requires m != [] && m' != []
    requires EndOf(m, 0) == EndOf(m', 0)
    requires Tiles(m, m[0].addr, EndOf(m, 0)) ==> Tiles(m', m[0].addr, EndOf(m, 0))
    ensures Tiles(pre + m' + post, lo, hi)
  {
    hide Tiles;
    TilesConcat(pre + m, post, lo, hi);
    TilesConcat(pre, m, lo, EndOf(pre + m, lo));
    assert EndOf(pre + m, lo) == EndOf(m, 0);
    assert EndOf(pre + m', lo) == EndOf(m', 0);
    TilesConcat(pre + m', post, lo, hi);
    TilesConcat(pre, m', lo, EndOf(m', 0));
    TilesHead(m, EndOf(pre, lo), EndOf(m, 0));
  }

  /** Replacing blocks i..j of a row keeps free blocks apart if the new part's ends agree with its neighbours. */
  lemma {:induction false} ApartReplace(bs: seq<Block>, i: nat, j: nat, m: seq<Block>)
    requires i <= j <= |bs| && m != []
    requires Apart(bs) && Apart(m)
    requires 0 < i ==> bs[i - 1].live || m[0].live
    requires j < |bs| ==> bs[j].live || m[|m| - 1].live
    ensures Apart(bs[..i] + m + bs[j..])
  {
    var r := bs[..i] + m + bs[j..];
    forall k | 0 <= k < |r| - 1
      ensures r[k].live || r[k + 1].live
    {
      if k + 1 < i {
        assert r[k] == bs[k] && r[k + 1] == bs[k + 1];
      } else if k + 1 == i {
        assert r[k] == bs[k] && r[k + 1] == m[0];
      } else if k + 1 < i + |m| {
        assert r[k] == m[k - i] && r[k + 1] == m[k + 1 - i];
      } else if k + 1 == i + |m| {
        assert r[k] == m[|m| - 1] && r[k + 1] == bs[j];
      } else {
        var d := k - i - |m| + j;
        assert r[k] == bs[d] && r[k + 1] == bs[d + 1];
      }
    }
  }

  function Without(bs: seq<Block>, addr: nat): seq<Block> {
    if bs == [] then []
    else (if bs[0].addr == addr then [] else [bs[0]]) + Without(bs[1..], addr)
  }

  /** The row after the live block at addr is given back. */
  function Release(bs: seq<Block>, addr: nat, lo: nat, hi: nat): seq<Block> {
    Fill(Without(Lives(bs), addr), lo, hi)
  }

  predicate FreeBefore(bs: seq<Block>, i: nat)
    requires i < |bs|
  {
    i > 0 && !bs[i - 1].live
  }

  predicate FreeAfter(bs: seq<Block>, i: nat)
    requires i < |bs|
  {
    i + 1 < |bs| && !bs[i + 1].live
  }

  /** Blocks from..to of a row fused into one free block. */
  function Fuse(bs: seq<Block>, from: nat, to: nat): seq<Block>
    requires from < to <= |bs|
  {
    bs[..from] + [Block(bs[from].addr, SizeOf(bs[from..to]), false)] + bs[to..]
  }

  /** Give back block i, merging it with a free neighbour on either side. */
  function Absorb(bs: seq<Block>, i: nat): seq<Block>
    requires i < |bs|
  {
    Fuse(bs, if FreeBefore(bs, i) then i - 1 else i, if FreeAfter(bs, i) then i + 2 else i + 1)
  }

  function SizeOf(bs: seq<Block>): nat {
    if bs == [] then 0 else bs[0].size + SizeOf(bs[1..])
  }

  lemma {:induction false} SizeOfTiles(bs: seq<Block>, lo: nat, hi: nat)
    requires Tiles(bs, lo, hi)
    ensures SizeOf(bs) == hi - lo && SizeOf(bs) % ALIGNMENT == 0
  {
    if bs != [] {
      SizeOfTiles(bs[1..], bs[0].End(), hi);
    }
  }

  lemma {:induction false} WithoutConcat(a: seq<Block>, b: seq<Block>, addr: nat)
    ensures Without(a + b, addr) == Without(a, addr) + Without(b, addr)
  {
    if a == [] {
      assert a + b == b;
    } else {
      assert (a + b)[1..] == a[1..] + b;
      WithoutConcat(a[1..], b, addr);
    }
  }

  lemma {:induction false} WithoutElsewhere(bs: seq<Block>, addr: nat)
    requires forall i :: 0 <= i < |bs| ==> bs[i].addr != addr
    ensures Without(Lives(bs), addr) == Lives(bs)
  {
    if bs != [] {
      WithoutElsewhere(bs[1..], addr);
      WithoutConcat(Live(bs[0]), Lives(bs[1..]), addr);
      assert bs[0].addr != addr;
    }
  }

  lemma {:induction false} LivesWithout(pre: seq<Block>, b: Block, post: seq<Block>, lo: nat, hi: nat)
    requires Tiles(pre + [b] + post, lo, hi) && b.live
    ensures Without(Lives(pre + [b] + post), b.addr) == Lives(pre) + Lives(post)
  {
    OneLive(b);
    assert forall i :: 0 <= i < |pre| ==> pre[i].addr != b.addr by {
      AddrsDiffer(pre, b, post, lo, hi);
    }
    assert forall i :: 0 <= i < |post| ==> post[i].addr != b.addr by {
      AddrsDiffer(pre, b, post, lo, hi);
    }
    hide Lives, Without, Tiles;
    WithoutElsewhere(pre, b.addr);
    WithoutElsewhere(post, b.addr);
    LivesAround(pre, [b], post);
    WithoutMiddle(Lives(pre), b, Lives(post));
  }

  lemma {:induction false} WithoutMiddle(x: seq<Block>, b: Block, y: seq<Block>)
    requires Without(x, b.addr) == x && Without(y, b.addr) == y && Without([b], b.addr) == []
    ensures Without(x + [b] + y, b.addr) == x + y
  {
    hide Without;
    WithoutConcat(x + [b], y, b.addr);
    WithoutConcat(x, [b], b.addr);
  }

  lemma {:induction false} OneLive(b: Block)
    requires b.live
    ensures Lives([b]) == [b] && Without([b], b.addr) == []
  {
    assert [b][0] == b && [b][1..] == [];
    assert Without([b][1..], b.addr) == [];
  }

  lemma {:induction false} AddrsDiffer(pre: seq<Block>, b: Block, post: seq<Block>, lo: nat, hi: nat)
    requires Tiles(pre + [b] + post, lo, hi)
    ensures forall i :: 0 <= i < |pre| ==> pre[i].End() <= b.addr && pre[i].addr < b.addr
    ensures forall i :: 0 <= i < |post| ==> b.End() <= post[i].addr && b.addr < post[i].addr
  {
    TilesConcat(pre + [b], post, lo, hi);
    TilesConcat(pre, [b], lo, EndOf(pre + [b], lo));
    assert EndOf(pre + [b], lo) == b.End();
    TilesBounds(pre, lo, EndOf(pre, lo));
    TilesBounds([b], EndOf(pre, lo), b.End());
    TilesHead([b], EndOf(pre, lo), b.End());
    TilesBounds(post, b.End(), hi);
    assert [b][0].size >= STRUCT_SIZE;
  }

  lemma {:induction false} FuseTiles(bs: seq<Block>, lo: nat, hi: nat, from: nat, to: nat)
    requires Tiles(bs, lo, hi) && from < to <= |bs|
    ensures Tiles(Fuse(bs, from, to), lo, hi)
  {
    var pre, m, post := bs[..from], bs[from..to], bs[to..];
    hide Lives;
    assert bs == pre + m + post;
    var mid, mid' := EndOf(pre, lo), EndOf(pre + m, lo);
    TilesConcat(pre + m, post, lo, hi);
    TilesConcat(pre, m, lo, mid');
    SizeOfTiles(m, mid, mid');
    var merged := Block(bs[from].addr, SizeOf(m), false);
    assert m[0] == bs[from];
    assert Tiles([merged], mid, mid') by {
      assert merged.size >= m[0].size;
    }
    TilesReplace(pre, m, [merged], post, lo, hi);
  }

  /** Merging with the neighbours is exactly the canonical row of the remaining live blocks. */
  lemma {:induction false} AbsorbIsRelease(bs: seq<Block>, lo: nat, hi: nat, i: nat)
    requires Valid(bs, lo, hi) && i < |bs| && bs[i].live
    ensures Valid(Absorb(bs, i), lo, hi)
    ensures Absorb(bs, i) == Release(bs, bs[i].addr, lo, hi)
    ensures FreeBytes(Absorb(bs, i)) == FreeBytes(bs) + bs[i].size
  {
    hide Lives, Without, Fill, Tiles, FreeBytes, SizeOf;
    var from := if FreeBefore(bs, i) then i - 1 else i;
    var to := if FreeAfter(bs, i) then i + 2 else i + 1;
    FuseTiles(bs, lo, hi, from, to);
    assert Apart(Absorb(bs, i)) by {
      assert from < i ==> bs[i - 1] == bs[from];
      ApartReplace(bs, from, to, [Block(bs[from].addr, SizeOf(bs[from..to]), false)]);
    }
    FuseLives(bs, from, i, to);
    FuseFreeBytes(bs, from, i, to);
    SplitAt(bs, i);
    LivesWithout(bs[..i], bs[i], bs[i + 1..], lo, hi);
    HistoryIndependent(Absorb(bs, i), lo, hi);
  }

  ghost predicate Around(bs: seq<Block>, from: nat, i: nat, to: nat) {
    && from <= i < to <= |bs| && i - from <= 1 && to - i <= 2
    && bs[i].live && (from < i ==> !bs[from].live) && (i + 1 < to ==> !bs[i + 1].live)
  }

  lemma {:induction false} FuseLives(bs: seq<Block>, from: nat, i: nat, to: nat)
    requires Around(bs, from, i, to)
    ensures Lives(Fuse(bs, from, to)) == Lives(bs[..i]) + Lives(bs[i + 1..])
  {
    FreeEnds(bs, from, i, to);
    FreeMiddle(bs[..from], Block(bs[from].addr, SizeOf(bs[from..to]), false), bs[to..]);
  }

  lemma {:induction false} FreeMiddle(pre: seq<Block>, b: Block, post: seq<Block>)
    requires !b.live
    ensures Lives(pre + [b] + post) == Lives(pre) + Lives(post)
  {
    AllFree([b]);
    hide Lives;
    LivesAround(pre, [b], post);
  }

  lemma {:induction false} FreeEnds(bs: seq<Block>, from: nat, i: nat, to: nat)
    requires Around(bs, from, i, to)
    ensures Lives(bs[..from]) == Lives(bs[..i])
    ensures Lives(bs[to..]) == Lives(bs[i + 1..])
  {
    if from < i {
      assert bs[..i] == bs[..from] + [bs[from]];
      LivesConcat(bs[..from], [bs[from]]);
      assert Lives([bs[from]]) == [];
    }
    if i + 1 < to {
      assert bs[i + 1..][0] == bs[i + 1] && bs[i + 1..][1..] == bs[to..];
    }
  }

  lemma {:induction false} FuseFreeBytes(bs: seq<Block>, from: nat, i: nat, to: nat)
    requires Around(bs, from, i, to)
    ensures FreeBytes(Fuse(bs, from, to)) == FreeBytes(bs) + bs[i].size
  {
    var left, right := bs[from..i], bs[i + 1..to];
    var merged := [Block(bs[from].addr, SizeOf(bs[from..to]), false)];
    assert FreeBytes(merged) == SizeOf(bs[from..to]);
    assert FreeBytes([bs[i]]) == 0;
    hide FreeBytes, SizeOf;
    FreeBytesAround(bs[..from], merged, bs[to..]);
    assert FreeBytes(bs) == FreeBytes(bs[..from]) + FreeBytes(bs[from..to]) + FreeBytes(bs[to..]) by {
      assert bs == bs[..from] + bs[from..to] + bs[to..];
      FreeBytesAround(bs[..from], bs[from..to], bs[to..]);
    }
    assert FreeBytes(bs[from..to]) == FreeBytes(left) + FreeBytes([bs[i]]) + FreeBytes(right) by {
      assert bs[from..to] == left + [bs[i]] + right;
      FreeBytesAround(left, [bs[i]], right);
    }
    MergedSize(bs, from, i, to);
  }

  lemma {:induction false} AllFree(bs: seq<Block>)
    requires |bs| <= 1 && forall b :: b in bs ==> !b.live
    ensures Lives(bs) == []
  {
  }

  lemma {:induction false} MergedSize(bs: seq<Block>, from: nat, i: nat, to: nat)
    requires Around(bs, from, i, to)
    ensures SizeOf(bs[from..to]) == FreeBytes(bs[from..i]) + bs[i].size + FreeBytes(bs[i + 1..to])
  {
    var m := bs[from..to];
    assert SizeOf(bs[i..to]) == bs[i].size + SizeOf(bs[i + 1..to]) by {
      assert bs[i..to][1..] == bs[i + 1..to];
    }
    assert SizeOf(bs[i + 1..to]) == FreeBytes(bs[i + 1..to]) by {
      if i + 1 < to {
        assert bs[i + 1..to] == [bs[i + 1]];
      }
    }
    if from < i {
      assert m[1..] == bs[i..to];
      assert bs[from..i] == [bs[from]];
    }
  }

  // ---------- Whole runs ----------

  datatype Request = Malloc(n: nat) | Free(payload: nat)

  predicate LiveAt(bs: seq<Block>, addr: nat) {
    exists i :: 0 <= i < |bs| && bs[i].live && bs[i].addr == addr
  }

  function LiveIndex(bs: seq<Block>, addr: nat): (i: nat)
    requires LiveAt(bs, addr)
    ensures i < |bs| && bs[i].live && bs[i].addr == addr
  {
    if bs[0].live && bs[0].addr == addr then 0
    else
      assert LiveAt(bs[1..], addr) by {
        var k :| 0 <= k < |bs| && bs[k].live && bs[k].addr == addr;
        assert bs[1..][k - 1] == bs[k];
      }
      1 + LiveIndex(bs[1..], addr)
  }

  /** Malloc of n bytes can be served from bs. */
  predicate Served(bs: seq<Block>, n: nat) {
    n <= SIZE_MAX && 0 < WantedSize(n) < ALLOCATED_BIT && HasRoom(bs, WantedSize(n))
  }

  /** One request; a request the firmware rejects leaves the heap as it was. */
  function Serve(bs: seq<Block>, r: Request): seq<Block> {
    match r
    case Malloc(n) => if Served(bs, n) then Alloc(bs, WantedSize(n)) else bs
    case Free(p) =>
      if p >= STRUCT_SIZE && LiveAt(bs, p - STRUCT_SIZE) then Absorb(bs, LiveIndex(bs, p - STRUCT_SIZE)) else bs
  }

  function Run(bs: seq<Block>, rs: seq<Request>): seq<Block>
    decreases |rs|
  {
    if rs == [] then bs else Run(Serve(bs, rs[0]), rs[1..])
  }

  lemma {:induction false} HasRoomIsFirstFit(bs: seq<Block>, w: nat)
    ensures HasRoom(bs, w) <==> FirstFit(bs, w) < |bs|
  {
  }

  lemma {:induction false} WantedAligned(n: nat)
    requires n <= SIZE_MAX
    ensures WantedSize(n) % ALIGNMENT == 0
    ensures WantedSize(n) != 0 ==> n + STRUCT_SIZE <= WantedSize(n) < n + STRUCT_SIZE + ALIGNMENT
    ensures WantedSize(n) == 0 <==> n == 0 || n > LARGEST_REQUEST
    ensures WantedSize(n) != 0 ==> WantedSize(n) >= MINIMUM_BLOCK_SIZE
  {
  }

  /** In a heap smaller than the allocated bit, malloc is served exactly when some free block holds the size. */
  lemma {:induction false} ServeMalloc(bs: seq<Block>, n: nat, lo: nat, hi: nat)
    requires Tiles(bs, lo, hi) && hi - lo < ALLOCATED_BIT && n <= SIZE_MAX
    ensures Serve(bs, Malloc(n))
         == if WantedSize(n) != 0 && HasRoom(bs, WantedSize(n)) then Alloc(bs, WantedSize(n)) else bs
  {
    if HasRoom(bs, WantedSize(n)) {
      var i :| 0 <= i < |bs| && Fits(bs[i], WantedSize(n));
      TilesBounds(bs, lo, hi);
    }
  }

  lemma {:induction false} ServeFree(bs: seq<Block>, i: nat, lo: nat, hi: nat)
    requires Valid(bs, lo, hi) && i < |bs| && bs[i].live
    ensures Serve(bs, Free(bs[i].addr + STRUCT_SIZE)) == Release(bs, bs[i].addr, lo, hi)
    ensures Valid(Serve(bs, Free(bs[i].addr + STRUCT_SIZE)), lo, hi)
  {
    hide Release, Absorb, Tiles, Apart;
    assert LiveAt(bs, bs[i].addr);
    hide LiveAt, LiveIndex;
    AbsorbIsRelease(bs, lo, hi, LiveIndex(bs, bs[i].addr));
  }

  lemma {:induction false} ServeNone(bs: seq<Block>, p: nat)
    requires p < STRUCT_SIZE || !LiveAt(bs, p - STRUCT_SIZE)
    ensures Serve(bs, Free(p)) == bs
  {
    hide LiveAt, Absorb;
  }

  lemma {:induction false} ServeValid(bs: seq<Block>, r: Request, lo: nat, hi: nat)
    requires Valid(bs, lo, hi)
    ensures Valid(Serve(bs, r), lo, hi)
  {
    hide Valid, Absorb, Alloc, WantedSize, HasRoom, LiveIndex;
    match r
    case Malloc(n) =>
      if Served(bs, n) {
        WantedAligned(n);
        HasRoomIsFirstFit(bs, WantedSize(n));
        AllocValid(bs, WantedSize(n), lo, hi);
      }
    case Free(p) =>
      if p >= STRUCT_SIZE && LiveAt(bs, p - STRUCT_SIZE) {
        hide Serve, LiveAt;
        ServeFree(bs, LiveIndex(bs, p - STRUCT_SIZE), lo, hi);
      } else {
        ServeNone(bs, p);
      }
  }

  /** Every run keeps the heap tiled, apart and byte-conserving, and its state is a
      function of what is still allocated: whatever the requests and their order. */
  lemma {:induction false} RunCanonical(bs: seq<Block>, rs: seq<Request>, lo: nat, hi: nat)
    requires Valid(bs, lo, hi)
    ensures Valid(Run(bs, rs), lo, hi)
    ensures Run(bs, rs) == Fill(Lives(Run(bs, rs)), lo, hi)
    ensures FreeBytes(Run(bs, rs)) + LiveBytes(Run(bs, rs)) == hi - lo
    decreases |rs|
  {
    if rs == [] {
      HistoryIndependent(bs, lo, hi);
      BytesConserved(bs, lo, hi);
    } else {
      ServeValid(bs, rs[0], lo, hi);
      RunCanonical(Serve(bs, rs[0]), rs[1..], lo, hi);
    }
  }

  /** Two runs from the initial heap that leave the same blocks allocated leave the same
      heap; in particular, a run that gives everything back restores the initial block. */
  lemma {:induction false} RunsAgree(rs: seq<Request>, rs': seq<Request>, lo: nat, hi: nat)
    requires lo < hi && (hi - lo) % ALIGNMENT == 0
    ensures Lives(Run(Gap(lo, hi), rs)) == Lives(Run(Gap(lo, hi), rs')) ==>
              Run(Gap(lo, hi), rs) == Run(Gap(lo, hi), rs')
    ensures Lives(Run(Gap(lo, hi), rs)) == [] ==> Run(Gap(lo, hi), rs) == Gap(lo, hi)
  {
    GapValid(lo, hi);
    RunCanonical(Gap(lo, hi), rs, lo, hi);
    RunCanonical(Gap(lo, hi), rs', lo, hi);
  }

  lemma {:induction false} GapValid(lo: nat, hi: nat)
    requires lo < hi && (hi - lo) % ALIGNMENT == 0
    ensures Valid(Gap(lo, hi), lo, hi)
  {
    var g := Gap(lo, hi);
    assert g[1..] == [];
    assert g[0].size >= ALIGNMENT;
  }

  /** Giving back what malloc just returned restores the heap block for block. */
  lemma {:induction false} MallocFreeRestores(bs: seq<Block>, n: nat, lo: nat, hi: nat)
    requires Valid(bs, lo, hi) && Served(bs, n)
    ensures var w := WantedSize(n);
            Release(Alloc(bs, w), bs[FirstFit(bs, w)].addr, lo, hi) == bs
  {
    hide Lives, Tiles, Without, Fill;
    var w := WantedSize(n);
    WantedAligned(n);
    HasRoomIsFirstFit(bs, w);
    AllocValid(bs, w, lo, hi);
    AllocViews(bs, w);
    var i := FirstFit(bs, w);
    var m := Carve(bs[i], w);
    AllFree(m[1..]);
    CarvedWithout(bs[..i], m, bs[i + 1..], lo, hi);
    HistoryIndependent(bs, lo, hi);
  }

  lemma {:induction false} CarvedWithout(pre: seq<Block>, m: seq<Block>, post: seq<Block>, lo: nat, hi: nat)
    requires m != [] && m[0].live && Lives(m[1..]) == []
    requires Tiles(pre + m + post, lo, hi)
    ensures Without(Lives(pre + m + post), m[0].addr) == Lives(pre) + Lives(post)
  {
    hide Lives, Without, Tiles;
    assert pre + m + post == pre + [m[0]] + (m[1..] + post);
    LivesWithout(pre, m[0], m[1..] + post, lo, hi);
    LivesConcat(m[1..], post);
  }

  // ---------- What one request changes, block by block ----------

  /** An allocation takes exactly w bytes from the front of the lowest free block f that holds them, or all of
      f when at most the minimum block size would be left; what is left is free and larger than that; and
      every other block stays. */
  lemma {:induction false} AllocExact(bs: seq<Block>, w: nat)
    requires FirstFit(bs, w) < |bs|
    ensures var f := bs[FirstFit(bs, w)];
            var b := Carve(f, w)[0];
            && b in Alloc(bs, w) && b.live && b.addr == f.addr
            && (b.size == w || (b.End() == f.End() && b.size - w <= MINIMUM_BLOCK_SIZE))
            && (f.size - w > MINIMUM_BLOCK_SIZE ==> b.size == w)
            && (forall x :: x in Alloc(bs, w) && x !in bs && x != b ==>
                  !x.live && x.addr == b.End() && x.End() == f.End() && x.size > MINIMUM_BLOCK_SIZE)
            && (forall x :: x in bs && x != f ==> x in Alloc(bs, w))
  {
    var i := FirstFit(bs, w);
    var f, m, r := bs[i], Carve(bs[i], w), Alloc(bs, w);
    hide FirstFit;
    assert r[i] == m[0];
    forall x | x in bs && x != f
      ensures x in r
    {
      var k :| 0 <= k < |bs| && bs[k] == x;
      assert r[if k < i then k else k + |m| - 1] == x;
    }
    forall k | 0 <= k < |r|
      ensures r[k] in bs || r[k] == m[0] || (|m| == 2 && r[k] == m[1])
    {
      if k < i {
        assert r[k] == bs[k];
      } else if k >= i + |m| {
        assert r[k] == bs[k - |m| + 1];
      }
    }
  }

  /** A free takes exactly one block from the live ones. */
  lemma {:induction false} AbsorbExact(bs: seq<Block>, lo: nat, hi: nat, i: nat)
    requires Valid(bs, lo, hi) && i < |bs| && bs[i].live
    ensures forall x: Block :: x.live ==> (x in Absorb(bs, i) <==> x in bs && x.addr != bs[i].addr)
  {
    var from := if FreeBefore(bs, i) then i - 1 else i;
    var to := if FreeAfter(bs, i) then i + 2 else i + 1;
    var r := Absorb(bs, i);
    hide SizeOf, Apart;
    forall x: Block | x.live && x in bs && x.addr != bs[i].addr
      ensures x in r
    {
      var k :| 0 <= k < |bs| && bs[k] == x;
      assert r[if k < from then k else k - to + from + 1] == x;
    }
    forall x: Block | x.live && x in r
      ensures x in bs && x.addr != bs[i].addr
    {
      var k :| 0 <= k < |r| && r[k] == x;
      var j := if k < from then k else k - from - 1 + to;
      assert k != from && x == bs[j] && j != i;
      TilesBounds(bs, lo, hi);
      if j < i {
        TilesOrdered(bs, lo, hi, j, i);
      } else {
        TilesOrdered(bs, lo, hi, i, j);
      }
    }
  }

  /** No block is smaller than the minimum block size. */
  ghost predicate Sized(bs: seq<Block>) {
    forall x :: x in bs ==> x.size >= MINIMUM_BLOCK_SIZE
  }

  lemma {:induction false} ServeSized(bs: seq<Block>, r: Request)
    requires Sized(bs)
    ensures Sized(Serve(bs, r))
  {
    match r
    case Malloc(n) =>
      if Served(bs, n) {
        hide Alloc, Carve, Fits;
        WantedAligned(n);
        HasRoomIsFirstFit(bs, WantedSize(n));
        AllocExact(bs, WantedSize(n));
      }
    case Free(p) =>
      if p >= STRUCT_SIZE && LiveAt(bs, p - STRUCT_SIZE) {
        AbsorbSized(bs, LiveIndex(bs, p - STRUCT_SIZE));
      }
  }

  lemma {:induction false} AbsorbSized(bs: seq<Block>, i: nat)
    requires Sized(bs) && i < |bs|
    ensures Sized(Absorb(bs, i))
  {
    var from := if FreeBefore(bs, i) then i - 1 else i;
    var to := if FreeAfter(bs, i) then i + 2 else i + 1;
    assert SizeOf(bs[from..to]) >= bs[from].size;
    hide SizeOf;
    assert bs[from] in bs;
    forall x | x in Absorb(bs, i)
      ensures x.size >= MINIMUM_BLOCK_SIZE
    {
      assert x in bs || x == Block(bs[from].addr, SizeOf(bs[from..to]), false);
    }
  }

  /** In every run from the initial heap no block ever gets smaller than the minimum block size. */
  lemma {:induction false} RunSized(bs: seq<Block>, rs: seq<Request>)
    requires Sized(bs)
    ensures Sized(Run(bs, rs))
    decreases |rs|
  {
    if rs != [] {
      ServeSized(bs, rs[0]);
      RunSized(Serve(bs, rs[0]), rs[1..]);
    }
  }

  lemma {:induction false} BlocksNeverTiny(rs: seq<Request>, lo: nat, hi: nat)
    requires lo + MINIMUM_BLOCK_SIZE <= hi
    ensures forall x :: x in Run(Gap(lo, hi), rs) ==> x.size >= MINIMUM_BLOCK_SIZE
  {
    RunSized(Gap(lo, hi), rs);
  }
}
