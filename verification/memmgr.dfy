/**
 pvPortMalloc, vPortFree and their helpers as methods on one heap object. The
 ghost field blocks is the row of blocks that the headers in memory represent.
 */
module MemMgr {
  import opened HeapBlocks
  import opened Heap
  import opened Words

  class MemoryManager {
    const ucHeap: nat         // __heap_start__
    const heapSize: nat       // configTOTAL_HEAP_SIZE
    const xStart: nat         // address of the static list head, outside the heap
    const xHeapCanary: nat
    const lo: nat             // first block, aligned up from ucHeap
    const hi: nat             // address of the end marker once the heap is set up
    const mem: array<bv8>     // payload bytes, mem[a - ucHeap]

    var pxEnd: nat            // 0 (NULL) until the first allocation
    var hdr: Headers
    var xFreeBytesRemaining: nat
    var xMinimumEverFreeBytesRemaining: nat
    var xNumberOfSuccessfulAllocations: nat
    var xNumberOfSuccessfulFrees: nat

    ghost var blocks: seq<Block>

    ghost predicate Layout() {
      && 0 < ucHeap <= lo < ucHeap + ALIGNMENT && lo % ALIGNMENT == 0
      && 4 * ALIGNMENT <= heapSize && lo < hi && hi % ALIGNMENT == 0
      && hi + STRUCT_SIZE <= ucHeap + heapSize < hi + STRUCT_SIZE + ALIGNMENT
      && heapSize < ALLOCATED_BIT && ucHeap + heapSize <= SIZE_MAX
      && (xStart < ucHeap || ucHeap + heapSize <= xStart) && xStart <= SIZE_MAX && xHeapCanary <= SIZE_MAX
      && mem.Length == heapSize
    }

    ghost predicate Valid()
      reads this
    {
      && Layout()
      && HeapBlocks.Valid(blocks, lo, hi)
      && (pxEnd == 0 || pxEnd == hi)
      && (pxEnd == 0 ==> blocks == Gap(lo, hi) && xFreeBytesRemaining == 0)
      && (pxEnd != 0 ==>
            && Holds(hdr, blocks, xStart, hi, xHeapCanary)
            && xFreeBytesRemaining == FreeBytes(blocks))
      && xMinimumEverFreeBytesRemaining <= xFreeBytesRemaining
    }

    constructor (base: nat, size: nat, head: nat, canary: nat)
      requires 0 < base && 4 * ALIGNMENT <= size < ALLOCATED_BIT && base + size <= SIZE_MAX
      requires (head < base || base + size <= head) && head <= SIZE_MAX && canary <= SIZE_MAX
      ensures Valid() && pxEnd == 0 && blocks == Gap(lo, hi)
      ensures ucHeap == base && heapSize == size && xHeapCanary == canary
      ensures fresh(mem)
    {
      hide Tiles, Apart, FreeBytes, FreeAddrs, Holds, Xor;
      ucHeap, heapSize, xStart, xHeapCanary := base, size, head, canary;
      var l, h := HeapBounds(base, size);
      lo, hi := l, h;
      mem := new bv8[size];
      pxEnd, hdr := 0, map[];
      xFreeBytesRemaining, xMinimumEverFreeBytesRemaining := 0, 0;
      xNumberOfSuccessfulAllocations, xNumberOfSuccessfulFrees := 0, 0;
      blocks := Gap(l, h);
      GapValid(l, h);
    }

    /** The addresses prvHeapInit computes for the first block and the end marker. */
    static method HeapBounds(base: nat, size: nat) returns (start: nat, end: nat)
      requires 4 * ALIGNMENT <= size
      ensures base <= start < base + ALIGNMENT && start % ALIGNMENT == 0
      ensures end + STRUCT_SIZE <= base + size < end + STRUCT_SIZE + ALIGNMENT && end % ALIGNMENT == 0
    {
      var total := size;
      start := base;
      if start % ALIGNMENT != 0 {
        start := start + (ALIGNMENT - 1);
        start := start - start % ALIGNMENT;
        total := total - (start - base);
      }
      end := start + total;
      end := end - STRUCT_SIZE;
      end := end - end % ALIGNMENT;
    }

    /** prvHeapInit: the end marker and one free block over the whole heap. */
    method HeapInit()
      requires Valid() && pxEnd == 0
      modifies this`pxEnd, this`hdr, this`xFreeBytesRemaining, this`xMinimumEverFreeBytesRemaining
      ensures Valid() && pxEnd == hi && blocks == Gap(lo, hi)
      ensures xFreeBytesRemaining == xMinimumEverFreeBytesRemaining == hi - lo
    {
      hide Xor, FreeAddrs, FreeBytes, Holds, HeapBlocks.Valid;
      var start, end := HeapBounds(ucHeap, heapSize);
      SameBounds(start, end);
      hdr := hdr[xStart := BlockLink(Xor(start, xHeapCanary), 0)];
      pxEnd := end;
      hdr := hdr[pxEnd := BlockLink(Xor(0, xHeapCanary), 0)];
      hdr := hdr[start := BlockLink(Xor(pxEnd, xHeapCanary), end - start)];
      xMinimumEverFreeBytesRemaining := hdr[start].size;
      xFreeBytesRemaining := hdr[start].size;
      InitHolds(hdr, xStart, lo, hi, xHeapCanary);
    }

    lemma {:induction false} SameBounds(start: nat, end: nat)
      requires Layout()
      requires ucHeap <= start < ucHeap + ALIGNMENT && start % ALIGNMENT == 0 && end % ALIGNMENT == 0
      requires end + STRUCT_SIZE <= ucHeap + heapSize < end + STRUCT_SIZE + ALIGNMENT
      ensures start == lo && end == hi
    {
    }

    /** heapVALIDATE_BLOCK_POINTER */
    predicate InHeap(p: nat) {
      ucHeap <= p <= ucHeap + heapSize - 1
    }

    /** The walk of pvPortMalloc: from the list head to the first block that is large enough,
        or to the end marker. */
    method FindFit(w: nat) returns (prev: nat, block: nat, ghost i: nat)
      requires Valid() && pxEnd != 0 && w > 0
      ensures i == FirstFit(blocks, w)
      ensures i <= |blocks| && block == AddrAt(blocks, i, hi)
      ensures prev == Last([xStart] + FreeAddrs(blocks[..i]))
      ensures prev in hdr && block in hdr
    {
      i := NextFree(blocks, 0);
      FollowLink(hdr, blocks, 0, xStart, hi, xHeapCanary);
      NextFreeViews(blocks, 0);
      NullLink(hdr, blocks, i, xStart, lo, hi, xHeapCanary);
      assert FreeAddrs(blocks[..0]) == [];
      hide FreeAddrs, Xor, Tiles, Linked;
      prev := xStart;
      block := Xor(hdr[xStart].next, xHeapCanary);
      assert InHeap(block);
      while hdr[block].size < w && hdr[block].next != Xor(0, xHeapCanary)
        invariant i <= |blocks| && (i < |blocks| ==> !blocks[i].live)
        invariant NoneFits(blocks, i, w)
        invariant block == AddrAt(blocks, i, hi) && block in hdr && InHeap(block)
        invariant prev == Last([xStart] + FreeAddrs(blocks[..i])) && prev in hdr
        invariant hdr[block].next == Xor(0, xHeapCanary) <==> i == |blocks|
        decreases |blocks| - i
      {
        WalkStep(hdr, blocks, i, xStart, hi, xHeapCanary);
        prev := block;
        block := Xor(hdr[block].next, xHeapCanary);
        i := NextFree(blocks, i + 1);
        NullLink(hdr, blocks, i, xStart, lo, hi, xHeapCanary);
      }
      FirstFitUnique(blocks, w, i);
    }

    /** Unlinks the block found, splits it if the rest is large enough, and marks it allocated. */
    method CarveHeaders(prev: nat, block: nat, w: nat) returns (size: nat)
      requires prev in hdr && block in hdr && 0 < w <= hdr[block].size
      requires prev < block || block + hdr[block].size <= prev
      modifies this`hdr
      ensures var b := Block(block, old(hdr)[block].size, false);
              hdr == Carved(old(hdr), prev, b, w, xHeapCanary) && size == Carve(b, w)[0].size
    {
      hide Xor;
      ghost var h := hdr;
      ghost var b := Block(block, hdr[block].size, false);
      hdr := hdr[prev := hdr[prev].(next := hdr[block].next)];
      if hdr[block].size - w > MINIMUM_BLOCK_SIZE {
        var newBlock := block + w;
        hdr := hdr[newBlock := BlockLink(0, hdr[block].size - w)];
        hdr := hdr[block := hdr[block].(size := w)];
        hdr := hdr[newBlock := hdr[newBlock].(next := hdr[prev].next)];
        hdr := hdr[prev := hdr[prev].(next := Xor(newBlock, xHeapCanary))];
        assert Carve(b, w) == [Block(block, w, true), Block(newBlock, b.size - w, false)];
        assert hdr[newBlock] == BlockLink(h[block].next, b.size - w) && hdr[block].size == w;
      }
      size := hdr[block].size;
      hdr := hdr[block := BlockLink(Xor(0, xHeapCanary), hdr[block].size + ALLOCATED_BIT)];
      hide Carve;
      assert hdr == Carved(h, prev, b, w, xHeapCanary);
    }

    /** Takes the block found by the walk out of the free heap. */
    method TakeBlock(prev: nat, block: nat, w: nat, ghost i: nat)
      requires Valid() && pxEnd != 0 && STRUCT_SIZE < w && w % ALIGNMENT == 0
      requires i == FirstFit(blocks, w) && i < |blocks| && block == blocks[i].addr
      requires prev == Last([xStart] + FreeAddrs(blocks[..i])) && prev in hdr && block in hdr
      modifies this`hdr, this`blocks, this`xFreeBytesRemaining, this`xMinimumEverFreeBytesRemaining,
               this`xNumberOfSuccessfulAllocations
      ensures Valid()
      ensures blocks == Alloc(old(blocks), w) && xFreeBytesRemaining <= old(xFreeBytesRemaining)
      ensures xMinimumEverFreeBytesRemaining
           == if xFreeBytesRemaining < old(xMinimumEverFreeBytesRemaining) then xFreeBytesRemaining
              else old(xMinimumEverFreeBytesRemaining)
      ensures xNumberOfSuccessfulAllocations == old(xNumberOfSuccessfulAllocations) + 1
    {
      AllocHolds(hdr, blocks, w, xStart, lo, hi, xHeapCanary);
      hide Xor, FreeAddrs, FreeBytes, Tiles, Holds, Lives, Carved, Apart, Alloc, FirstFit;
      var size := CarveHeaders(prev, block, w);
      xFreeBytesRemaining := xFreeBytesRemaining - size;
      if xFreeBytesRemaining < xMinimumEverFreeBytesRemaining {
        xMinimumEverFreeBytesRemaining := xFreeBytesRemaining;
      }
      xNumberOfSuccessfulAllocations := xNumberOfSuccessfulAllocations + 1;
      blocks := Alloc(blocks, w);
    }

    /** memset(p, 0, n) */
    method Wipe(p: nat, n: nat)
      requires Layout() && ucHeap <= p && p + n <= ucHeap + heapSize
      modifies mem
      ensures forall k :: 0 <= k < heapSize ==>
                mem[k] == if p <= ucHeap + k < p + n then 0 else old(mem[k])
    {
      var k := 0;
      while k < n
        invariant 0 <= k <= n
        invariant forall j :: 0 <= j < heapSize ==>
                    mem[j] == if p <= ucHeap + j < p + k then 0 else old(mem[j])
      {
        mem[p - ucHeap + k] := 0;
        k := k + 1;
      }
    }

    /** The size rounding of pvPortMalloc, with its overflow checks. */
    static method RequestSize(n: nat) returns (wanted: nat)
      requires n <= SIZE_MAX
      ensures wanted == WantedSize(n)
      ensures wanted % ALIGNMENT == 0 && (wanted == 0 <==> n == 0 || n > LARGEST_REQUEST)
      ensures wanted != 0 ==> n > 0 && n + STRUCT_SIZE <= wanted < n + STRUCT_SIZE + ALIGNMENT
    {
      wanted := n;
      if wanted > 0 {
        if wanted <= SIZE_MAX - STRUCT_SIZE {
          wanted := wanted + STRUCT_SIZE;
          if wanted % ALIGNMENT != 0 {
            var additional := ALIGNMENT - wanted % ALIGNMENT;
            wanted := if wanted <= SIZE_MAX - additional then wanted + additional else 0;
          }
        } else {
          wanted := 0;
        }
      }
    }

    /** The part of pvPortMalloc that runs with the scheduler suspended. */
    method AllocBlock(wanted: nat) returns (p: nat)
      requires Valid() && (wanted == 0 || STRUCT_SIZE < wanted) && wanted % ALIGNMENT == 0
      modifies this`pxEnd, this`hdr, this`blocks, this`xFreeBytesRemaining, this`xMinimumEverFreeBytesRemaining,
               this`xNumberOfSuccessfulAllocations
      ensures Valid() && pxEnd != 0
      ensures p != 0 <==> wanted != 0 && HasRoom(old(blocks), wanted)
      ensures p == 0 ==> blocks == old(blocks)
      ensures p != 0 ==> blocks == Alloc(old(blocks), wanted)
      ensures p != 0 ==> p == old(blocks)[FirstFit(old(blocks), wanted)].addr + STRUCT_SIZE
      ensures xMinimumEverFreeBytesRemaining
           == if old(pxEnd) == 0 || xFreeBytesRemaining < old(xMinimumEverFreeBytesRemaining) then xFreeBytesRemaining
              else old(xMinimumEverFreeBytesRemaining)
      ensures xNumberOfSuccessfulAllocations == old(xNumberOfSuccessfulAllocations) + if p != 0 then 1 else 0
    {
      if pxEnd == 0 {
        HeapInit();
      }
      p := 0;
      RoomBounds(blocks, wanted, lo, hi);
      HasRoomIsFirstFit(blocks, wanted);
      hide Xor, FreeAddrs, FreeBytes, Tiles, Holds, Apart, Alloc, FirstFit, HasRoom;
      if wanted < ALLOCATED_BIT {
        if wanted > 0 && wanted <= xFreeBytesRemaining {
          var prev, block, i := FindFit(wanted);
          BlockIsEnd(blocks, i, lo, hi);
          if block != pxEnd {
            p := block + STRUCT_SIZE;
            TakeBlock(prev, block, wanted, i);
          }
        }
      }
    }

    /** pvPortMalloc; the two failure outcomes are its furi_check messages. */
    method Malloc(n: nat) returns (r: MallocResult)
      requires Valid() && n <= SIZE_MAX
      modifies this`pxEnd, this`hdr, this`blocks, this`xFreeBytesRemaining, this`xMinimumEverFreeBytesRemaining,
               this`xNumberOfSuccessfulAllocations, mem
      ensures Valid() && pxEnd != 0
      ensures blocks == Serve(old(blocks), Request.Malloc(n))
      ensures r.Ptr? <==> WantedSize(n) != 0 && HasRoom(old(blocks), WantedSize(n))
      ensures !r.Ptr? ==> blocks == old(blocks) && mem[..] == old(mem[..])
      ensures r == MallocZero <==> n == 0 || n > LARGEST_REQUEST
      ensures xMinimumEverFreeBytesRemaining
           == if old(pxEnd) == 0 || xFreeBytesRemaining < old(xMinimumEverFreeBytesRemaining) then xFreeBytesRemaining
              else old(xMinimumEverFreeBytesRemaining)
      ensures xNumberOfSuccessfulAllocations == old(xNumberOfSuccessfulAllocations) + if r.Ptr? then 1 else 0
      ensures r.Ptr? ==>
                var f, b := old(blocks)[FirstFit(old(blocks), WantedSize(n))], Taken(old(blocks), n);
                && blocks == Alloc(old(blocks), WantedSize(n))
                && r.addr == f.addr + STRUCT_SIZE && r.addr % ALIGNMENT == 0
                && b in blocks && b.live && b.addr == f.addr
                && n + STRUCT_SIZE <= b.size <= RoundUp(n + STRUCT_SIZE) + MINIMUM_BLOCK_SIZE
                && ExactSize(b, f, WantedSize(n)) && FreeBytes(blocks) == FreeBytes(old(blocks)) - b.size
                && (forall x :: x in old(blocks) && x.live ==> x in blocks)
                && (forall x :: x in old(blocks) && !x.live && x.size >= WantedSize(n) ==> b.addr <= x.addr)
                && (forall x :: x in old(blocks) && x.live ==> x.End() <= b.addr || b.End() <= x.addr)
                && forall k :: 0 <= k < heapSize ==>
                     mem[k] == if r.addr <= ucHeap + k < r.addr + n then 0 else old(mem[k])
    {
      hide Xor, FreeAddrs, FreeBytes, Tiles, Holds, Apart, Alloc, FirstFit, HasRoom, WantedSize, Carve, Taken, RoundUp, Serve;
      ghost var bs := blocks;
      ServeMalloc(bs, n, lo, hi);
      var wanted := RequestSize(n);
      var p := AllocBlock(wanted);
      if p == 0 {
        r := if wanted == 0 then MallocZero else OutOfMemory;
      } else {
        TakenFacts(bs, n, lo, hi);
        Wipe(p, n);
        r := Ptr(p);
      }
    }

    /** The loop of prvInsertBlockIntoFreeList: the last list entry below the block. The headers
        may differ from the represented ones in the size word of the block itself. */
    method FindPlace(block: nat, ghost was: Headers, ghost i: nat) returns (it: nat)
      requires Layout() && HeapBlocks.Valid(blocks, lo, hi) && Holds(was, blocks, xStart, hi, xHeapCanary)
      requires i < |blocks| && blocks[i].live && block == blocks[i].addr && block in was
      requires hdr == was[block := was[block].(size := blocks[i].size)]
      ensures it == Last([xStart] + FreeAddrs(blocks[..i])) && it in hdr
      ensures it == xStart || InHeap(it)
    {
      hide Xor, FreeAddrs, Tiles, Holds, Apart, NextFree, PlaceFound, Placing, Last, FreeBytes;
      ghost var j := 0;
      it := xStart;
      PlacingStart(was, blocks, i, xStart, lo, hi, xHeapCanary);
      PlacingAt(was, blocks, it, j, i, xStart, lo, hi, xHeapCanary);
      while Xor(hdr[it].next, xHeapCanary) < block
        invariant Placing(was, blocks, it, j, i, xStart, lo, hi, xHeapCanary)
        invariant j <= i && it in was && (it == xStart || lo <= it < hi)
        decreases i - j
      {
        PlacingStep(was, blocks, it, j, i, xStart, lo, hi, xHeapCanary);
        it, j := Xor(hdr[it].next, xHeapCanary), NextFree(blocks, j) + 1;
        PlacingAt(was, blocks, it, j, i, xStart, lo, hi, xHeapCanary);
      }
      PlacingDone(was, blocks, it, j, i, xStart, lo, hi, xHeapCanary);
    }

    /** The merging and linking of prvInsertBlockIntoFreeList, between the list entry it and its successor. */
    method JoinHeaders(it: nat, blockToInsert: nat, ghost next: nat)
      requires it in hdr && blockToInsert in hdr && next in hdr && pxEnd in hdr
      requires hdr[it].next == Xor(next, xHeapCanary) && Xor(hdr[it].next, xHeapCanary) == next
      requires it != blockToInsert && next != blockToInsert && next != it
      modifies this`hdr
      ensures var h, size := old(hdr), old(hdr)[blockToInsert].size;
              hdr == Returned(h, it, Block(blockToInsert, size, true), next,
                              it + h[it].size == blockToInsert,
                              blockToInsert + size == next && next != pxEnd, xHeapCanary)
    {
      hide Xor;
      ghost var h, size := hdr, hdr[blockToInsert].size;
      var block := blockToInsert;
      if it + hdr[it].size == block {
        hdr := hdr[it := hdr[it].(size := hdr[it].size + hdr[block].size)];
        block := it;
      }
      var after := Xor(hdr[it].next, xHeapCanary);
      if block + hdr[block].size == after {
        if after != pxEnd {
          hdr := hdr[block := BlockLink(hdr[after].next, hdr[block].size + hdr[after].size)];
        } else {
          hdr := hdr[block := hdr[block].(next := Xor(pxEnd, xHeapCanary))];
        }
      } else {
        hdr := hdr[block := hdr[block].(next := hdr[it].next)];
      }
      if it != block {
        hdr := hdr[it := hdr[it].(next := Xor(block, xHeapCanary))];
      }
      assert hdr == Returned(h, it, Block(blockToInsert, size, true), next, it + h[it].size == blockToInsert,
                             blockToInsert + size == next && next != pxEnd, xHeapCanary);
    }

    /** The part of vPortFree that runs with the scheduler suspended, for the block at index i whose
        allocated bit has been cleared in its header. */
    method ReturnBlock(block: nat, ghost was: Headers, ghost i: nat)
      requires Layout() && HeapBlocks.Valid(blocks, lo, hi) && Holds(was, blocks, xStart, hi, xHeapCanary)
      requires pxEnd == hi && xFreeBytesRemaining == FreeBytes(blocks)
      requires xMinimumEverFreeBytesRemaining <= xFreeBytesRemaining
      requires i < |blocks| && blocks[i].live && block == blocks[i].addr && block in was
      requires hdr == was[block := was[block].(size := blocks[i].size)]
      modifies this`hdr, this`blocks, this`xFreeBytesRemaining, this`xNumberOfSuccessfulFrees
      ensures Valid()
      ensures blocks == Release(old(blocks), block, lo, hi)
      ensures xNumberOfSuccessfulFrees == old(xNumberOfSuccessfulFrees) + 1
    {
      hide Xor, FreeAddrs, FreeBytes, Tiles, Holds, Apart, Returned, Release, NextFree, AddrAt, Last;
      xFreeBytesRemaining := xFreeBytesRemaining + hdr[block].size;
      var it := FindPlace(block, was, i);
      ghost var next := AddrAt(blocks, NextFree(blocks, i + 1), hi);
      JoinFacts(was, blocks, i, xStart, lo, hi, xHeapCanary);
      assert blocks[i] == Block(block, hdr[block].size, true);
      JoinHeaders(it, block, next);
      xNumberOfSuccessfulFrees := xNumberOfSuccessfulFrees + 1;
      blocks := Release(blocks, block, lo, hi);
    }

    /** vPortFree behind the pointer validation: gives the block at index i back if it is live. */
    method FreeBlock(link: nat, ghost i: nat) returns (ok: bool)
      requires Valid() && pxEnd != 0 && i < |blocks| && link == blocks[i].addr
      modifies this`hdr, this`blocks, this`xFreeBytesRemaining, this`xNumberOfSuccessfulFrees, mem
      ensures Valid() && ok == old(blocks)[i].live
      ensures !ok ==> blocks == old(blocks) && hdr == old(hdr) && mem[..] == old(mem[..])
      ensures ok ==>
                && blocks == Release(old(blocks), link, lo, hi)
                && xNumberOfSuccessfulFrees == old(xNumberOfSuccessfulFrees) + 1
                && forall k :: 0 <= k < heapSize ==>
                     mem[k] == if link + STRUCT_SIZE <= ucHeap + k < old(blocks)[i].End() then 0 else old(mem[k])
    {
      TilesBounds(blocks, lo, hi);
      assert link in hdr && hdr[link].size == SizeWord(blocks[i]);
      hide Xor, FreeAddrs, FreeBytes, Tiles, Holds, Apart, Release;
      if hdr[link].size < ALLOCATED_BIT {
        return false;
      }
      ghost var was := hdr;
      hdr := hdr[link := hdr[link].(size := hdr[link].size - ALLOCATED_BIT)];
      Wipe(link + STRUCT_SIZE, hdr[link].size - STRUCT_SIZE);
      ReturnBlock(link, was, i);
      ok := true;
    }

    /** vPortFree of NULL, of a pointer without a header in the heap (stopped by the pointer validation), of a
        live payload, or of the payload address of a free block (a second free, stopped by the allocated-bit
        assertion). */
    method Free(pv: nat) returns (ok: bool)
      requires Valid() && pv <= SIZE_MAX
      requires pv != 0 && InHeap(HeaderOfPayload(pv)) ==> pxEnd != 0 && IsBlock(HeaderOfPayload(pv))
      modifies this`hdr, this`blocks, this`xFreeBytesRemaining, this`xNumberOfSuccessfulFrees, mem
      ensures Valid()
      ensures blocks == Serve(old(blocks), Request.Free(pv))
      ensures ok <==> pv == 0 || (pv >= STRUCT_SIZE && LiveAt(old(blocks), pv - STRUCT_SIZE))
      ensures pv == 0 || !ok ==> hdr == old(hdr) && mem[..] == old(mem[..])
      ensures pv != 0 && ok ==>
                && blocks == Release(old(blocks), pv - STRUCT_SIZE, lo, hi)
                && xNumberOfSuccessfulFrees == old(xNumberOfSuccessfulFrees) + 1
                && (forall x: Block :: x.live ==> (x in blocks <==> x in old(blocks) && x.addr != pv - STRUCT_SIZE))
                && var b := old(blocks)[LiveIndex(old(blocks), pv - STRUCT_SIZE)];
                   FreeBytes(blocks) == FreeBytes(old(blocks)) + b.size && forall k :: 0 <= k < heapSize ==> mem[k] == if pv <= ucHeap + k < b.End() then 0 else old(mem[k])
    {
      hide Xor, FreeAddrs, FreeBytes, Tiles, Holds, Apart, Release, LiveAt, Absorb, LiveIndex;
      if pv == 0 {
        return true;
      }
      var link := HeaderOfPayload(pv);
      if !InHeap(link) {
        NotServed(blocks, pv, lo, hi);
        return false;
      }
      ghost var i :| 0 <= i < |blocks| && blocks[i].addr == link;
      BlockServed(blocks, pv, i, lo, hi);
      ok := FreeBlock(link, i);
    }

    /** A block has its header at a. */
    ghost predicate IsBlock(a: nat)
      reads this
    {
      exists k :: 0 <= k < |blocks| && blocks[k].addr == a
    }

    /** Every link stored in a header the list or a block uses fits the 32-bit word it is kept in. */
    lemma {:induction false} StoredLinksFit(a: nat)
      requires Valid() && pxEnd != 0
      requires a == xStart || a == pxEnd || exists i :: 0 <= i < |blocks| && blocks[i].addr == a
      ensures a in hdr && hdr[a].next <= SIZE_MAX
    {
      LinksFit(hdr, blocks, xStart, lo, hi, xHeapCanary, a);
    }

    /** vPortGetHeapStats. The largest free block decides exactly which requests are served. */
    method GetHeapStats() returns (stats: HeapStats)
      requires Valid()
      ensures stats.available == xFreeBytesRemaining && stats.minimumEver == xMinimumEverFreeBytesRemaining
      ensures stats.allocations == xNumberOfSuccessfulAllocations && stats.frees == xNumberOfSuccessfulFrees
      ensures pxEnd == 0 ==> stats.largest == 0 && stats.smallest == SIZE_MAX && stats.freeBlocks == 0
      ensures pxEnd != 0 ==>
                && stats.freeBlocks == |FreeAddrs(blocks)|
                && (forall w :: w > 0 ==> (HasRoom(blocks, w) <==> w <= stats.largest))
                && (forall b :: b in blocks && !b.live ==> stats.smallest <= b.size)
                && (stats.smallest == SIZE_MAX || exists b :: b in blocks && !b.live && b.size == stats.smallest)
    {
      var count, max, min := 0, 0, SIZE_MAX;
      if pxEnd != 0 {
        ghost var i := NextFree(blocks, 0);
        FollowLink(hdr, blocks, 0, xStart, hi, xHeapCanary);
        NullLink(hdr, blocks, i, xStart, lo, hi, xHeapCanary);
        BlockIsEnd(blocks, i, lo, hi);
        SurveyStart(blocks);
        assert FreeAddrs(blocks[..0]) == [];
        hide FreeAddrs, Xor, Tiles, Holds, Apart, NextFree, Survey, HasRoom, FreeBytes;
        var block := Xor(hdr[xStart].next, xHeapCanary);
        while block != pxEnd
          invariant i <= |blocks| && (i < |blocks| ==> !blocks[i].live)
          invariant block == AddrAt(blocks, i, hi) && block in hdr && (block == hi <==> i == |blocks|)
          invariant Survey(blocks, i, count, max, min)
          decreases |blocks| - i
        {
          HeaderOf(hdr, blocks, i, xStart, hi, xHeapCanary);
          SurveyStep(blocks, i, count, max, min);
          WalkStep(hdr, blocks, i, xStart, hi, xHeapCanary);
          count := count + 1;
          if hdr[block].size > max {
            max := hdr[block].size;
          }
          if hdr[block].size < min {
            min := hdr[block].size;
          }
          block := Xor(hdr[block].next, xHeapCanary);
          i := NextFree(blocks, i + 1);
          NullLink(hdr, blocks, i, xStart, lo, hi, xHeapCanary);
          BlockIsEnd(blocks, i, lo, hi);
        }
        SurveyDone(blocks, count, max, min);
      }
      stats := HeapStats(max, min, count, xFreeBytesRemaining, xNumberOfSuccessfulAllocations,
                         xNumberOfSuccessfulFrees, xMinimumEverFreeBytesRemaining);
    }
  }
}
