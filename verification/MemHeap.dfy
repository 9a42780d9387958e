/** memheap.c: rt_memheap_init, rt_memheap_alloc, rt_memheap_free and rt_memheap_realloc. */
module MemHeap {
  import opened Seqs
  import opened Rings
  import opened Tiling
  import opened MemHeapLinks
  import opened Bytes

  /** A block that can give n payload bytes. */
  predicate Fits(b: Block, n: nat) { !b.used && b.size >= HDR + n }

  /** The block at address a is the first one on the free list that can give n bytes. */
  ghost predicate FirstFit(bs: seq<Block>, free: seq<nat>, i: nat, n: nat) {
    && i < |bs| && Fits(bs[i], n)
    && exists j :: 0 <= j < |free| && free[j] == bs[i].addr
         && forall k, h :: 0 <= k < j && 0 <= h < |bs| && bs[h].addr == free[k] ==> !Fits(bs[h], n)
  }

  /** Whether a grant of n bytes leaves a free block of its own behind. */
  predicate Splits(b: Block, n: nat) { b.size >= HDR + n + (HDR + MINIALLOC) }

  function ZeroByte(x: nat): int { 0 }

  /** The n bytes from lo on, all zero. */
  function ZeroBytes(lo: nat, n: nat): map<nat, int> { map x: nat | lo <= x < lo + n :: ZeroByte(x) }

  function Granted(bs: seq<Block>, i: nat, n: nat): seq<Block>
    requires i < |bs| && HDR + n <= bs[i].size
  {
    Take(bs, i, HDR + n, HDR + MINIALLOC)
  }

  lemma GrantSums(bs: seq<Block>, i: nat, n: nat)
    requires i < |bs| && Fits(bs[i], n)
    ensures FreePayload(Granted(bs, i, n), HDR)
         == FreePayload(bs, HDR) - if Splits(bs[i], n) then n + HDR else bs[i].size - HDR
  {
    if Splits(bs[i], n) {
      CutSums(bs, i, HDR + n, HDR);
      SetUsedSums(Cut(bs, i, HDR + n), i, true, HDR);
    } else {
      SetUsedSums(bs, i, true, HDR);
    }
  }

  lemma SplitSized(bs: seq<Block>, i: nat, n: nat)
    requires Sized(bs) && i + 1 < |bs| && HDR + MINIALLOC <= n && n + HDR + MINIALLOC <= bs[i].size && n % ALIGN == 0
    ensures Sized(SetUsed(Cut(bs, i, n), i, true))
  {
    var g := SetUsed(Cut(bs, i, n), i, true);
    SplitPlaces(bs, i, n, |bs|);
    forall k | 0 <= k < |g| ensures g[k].size % ALIGN == 0 && (k < |g| - 1 ==> g[k].size >= HDR + MINIALLOC) {
      SplitPlaces(bs, i, n, k);
    }
  }

  lemma GrantShape(bs: seq<Block>, i: nat, n: nat)
    requires Sized(bs) && Coalesced(bs) && i < |bs| && Fits(bs[i], n) && MINIALLOC <= n && n % ALIGN == 0
    ensures i + 1 < |bs| && Sized(Granted(bs, i, n)) && Coalesced(Granted(bs, i, n))
  {
    assert i + 1 < |bs| && bs[i + 1].used;
    if Splits(bs[i], n) {
      SplitCoalesced(bs, i, HDR + n);
      SplitSized(bs, i, HDR + n);
    } else {
      var g := Granted(bs, i, n);
      forall k | 0 < k < |g| ensures g[k - 1].used || g[k].used { assert bs[k - 1].used || bs[k].used; }
    }
  }

  lemma GrantUnused(bs: seq<Block>, i: nat, n: nat)
    requires i < |bs| && Fits(bs[i], n) && Distinct(Addrs(bs))
    requires Splits(bs[i], n) ==> bs[i].addr + HDR + n !in AddrSet(bs)
    ensures UnusedSet(Granted(bs, i, n))
         == UnusedSet(bs) - {bs[i].addr} + if Splits(bs[i], n) then {bs[i].addr + HDR + n} else {}
  {
    if Splits(bs[i], n) {
      UnusedOfCut(bs, i, HDR + n);
      CutAddrs(bs, i, HDR + n);
      UnusedOfFlag(Cut(bs, i, HDR + n), i, true);
    } else {
      UnusedOfFlag(bs, i, true);
    }
  }

  function Larger(a: int, b: int): int { if a < b then b else a }

  class Heap {
    const start: nat       // start_addr
    const poolSize: nat    // pool_size
    const head: nat        // the address of free_header
    var mem: Mem
    var available: int     // available_size
    var maxUsed: int       // max_used_size

    ghost var blocks: seq<Block>  // in address order, the tail block last
    ghost var free: seq<nat>      // the free list

    ghost predicate Pointers()
      reads this
    {
      Sound(mem, blocks, free, start, start + poolSize, head)
    }

    ghost predicate Valid()
      reads this
    {
      && Pointers() && Sized(blocks) && Coalesced(blocks)
      && Elements(free) == UnusedSet(blocks)
      && available == FreePayload(blocks, HDR) && poolSize - available <= maxUsed
    }

    /** max_used_size went from m up to what was in use while there were two blocks, the new one at q. */
    ghost predicate HighWaterMoving(m: int, bs: seq<Block>, free: seq<nat>, n: nat, q: nat)
      reads this
    {
      exists h: nat, mid :: GrantedTo(bs, free, h, n, q, mid) && maxUsed == Larger(m, poolSize - FreePayload(mid, HDR))
    }

    /** rt_memheap_init: one free block, and a used tail that keeps blocks from merging around the end. */
    constructor (startAddr: nat, size: nat, headAddr: nat)
      requires size / ALIGN * ALIGN >= HDR + HDR + MINIALLOC
      requires headAddr + HDR <= startAddr || startAddr + size <= headAddr
      ensures Valid() && start == startAddr && poolSize == size / ALIGN * ALIGN
      ensures var span := poolSize - HDR;
        blocks == [Block(startAddr, span, false), Block(startAddr + span, HDR, true)]
      ensures available == poolSize - 2 * HDR && maxUsed == 2 * HDR
    {
      hide Put, ZeroBytes, Sound, Sized, Coalesced, UnusedSet, FreePayload;
      start, head := startAddr, headAddr;
      var pool := size / ALIGN * ALIGN;
      poolSize := pool;
      available := pool - 2 * HDR;
      maxUsed := pool - (pool - 2 * HDR);
      var tail := startAddr + pool - HDR;
      var zero := Mem(map[], ZeroBytes(startAddr, pool));
      var m1 := Put(zero, headAddr, Item(NULL, NULL, startAddr, startAddr, false));
      var m2 := Put(m1, startAddr, Item(tail, tail, headAddr, headAddr, false));
      mem := Put(m2, tail, Item(startAddr, startAddr, NULL, NULL, true));
      blocks := [Block(startAddr, pool - HDR, false), Block(tail, HDR, true)];
      free := [startAddr];
      new;
      FreshItems(startAddr, pool, headAddr);
      FreshSound();
    }

    /** The three headers do not overlap, so all three writes last. */
    static lemma FreshItems(lo: nat, pool: nat, head: nat)
      requires pool >= HDR + HDR + MINIALLOC && (head + HDR <= lo || lo + pool <= head)
      ensures var tail := lo + pool - HDR;
        var m := Put(Put(Put(Mem(map[], ZeroBytes(lo, pool)), head, Item(NULL, NULL, lo, lo, false)),
                         lo, Item(tail, tail, head, head, false)), tail, Item(lo, lo, NULL, NULL, true));
        && m.items == map[head := Item(NULL, NULL, lo, lo, false), lo := Item(tail, tail, head, head, false),
                          tail := Item(lo, lo, NULL, NULL, true)]
        && forall x :: x in m.bytes <==> lo <= x < lo + pool
    {
    }

    lemma FreshSound()
      requires poolSize % ALIGN == 0 && poolSize >= HDR + HDR + MINIALLOC
      requires head + HDR <= start || start + poolSize <= head
      requires blocks == [Block(start, poolSize - HDR, false), Block(start + poolSize - HDR, HDR, true)]
      requires free == [start] && available == poolSize - 2 * HDR && maxUsed == 2 * HDR
      requires forall x :: x in mem.bytes <==> start <= x < start + poolSize
      requires mem.items == map[head := Item(NULL, NULL, start, start, false),
                                start := Item(start + poolSize - HDR, start + poolSize - HDR, head, head, false),
                                start + poolSize - HDR := Item(start, start, NULL, NULL, true)]
      ensures Valid()
    {
      hide Sound, FreePayload;
      FreshPointers();
      var f, t := blocks[0], blocks[1];
      SumOfTwo(f, t, HDR);
      assert f.addr in UnusedSet(blocks);
    }

    lemma FreshPointers()
      requires poolSize % ALIGN == 0 && poolSize >= HDR + HDR + MINIALLOC
      requires head + HDR <= start || start + poolSize <= head
      requires blocks == [Block(start, poolSize - HDR, false), Block(start + poolSize - HDR, HDR, true)]
      requires free == [start]
      requires forall x :: x in mem.bytes <==> start <= x < start + poolSize
      requires mem.items == map[head := Item(NULL, NULL, start, start, false),
                                start := Item(start + poolSize - HDR, start + poolSize - HDR, head, head, false),
                                start + poolSize - HDR := Item(start, start, NULL, NULL, true)]
      ensures Pointers()
    {
      var f := blocks[0];
      assert Addrs(blocks) == [start, start + poolSize - HDR];
      assert LinkAt(Nexts(mem.items), Prevs(mem.items), Addrs(blocks), 0);
      assert LinkAt(Nexts(mem.items), Prevs(mem.items), Addrs(blocks), 1);
      assert [head] + free == [head, start];
      assert LinkAt(NextFrees(mem.items), PrevFrees(mem.items), [head] + free, 0);
      assert LinkAt(NextFrees(mem.items), PrevFrees(mem.items), [head] + free, 1);
      assert f.addr in AddrSet(blocks);
    }

    /** `MEMITEM_SIZE` of a header that is not the tail. */
    function ItemSize(a: nat): int
      reads this
      requires a in mem.items
    {
      mem.items[a].next - a - HDR
    }

    lemma ItemSizeIsPayload(i: nat)
      requires Pointers() && i + 1 < |blocks|
      ensures blocks[i].addr in mem.items && ItemSize(blocks[i].addr) == blocks[i].size - HDR
      ensures mem.items[blocks[i].addr].next == blocks[i + 1].addr
      ensures mem.items[blocks[i].addr].used == blocks[i].used
    {
      FlagsOf(mem.items, blocks, i);
      assert LinkAt(Nexts(mem.items), Prevs(mem.items), Addrs(blocks), i);
    }

    /** Cut the rest off block i and put it on the free list in its place. */
    method SplitOff(a: nat, n: nat, ghost i: nat, ghost j: nat)
      requires Pointers() && i < |blocks| && blocks[i].addr == a && n + HDR <= blocks[i].size && HDR <= n
      requires j < |free| && free[j] == a && a + n !in AddrSet(blocks)
      modifies this`mem, this`blocks, this`free
      ensures Pointers() && blocks == Cut(old(blocks), i, n)
      ensures Elements(free) == Elements(old(free)) - {a} + {a + n}
      ensures OthersKept(old(blocks), old(mem).bytes, blocks, mem.bytes, a)
    {
      assert forall x :: x in free ==> x in AddrSet(blocks);
      hide Sound, PayloadsKept, OthersKept, UnusedSet, Cut;
      ghost var b0, m0 := blocks, mem.bytes;
      InsertBlock(a, n, i);
      CutAddrs(b0, i, n);
      ghost var m1 := mem.bytes;
      assert a + n !in free;
      UnlinkFree(a, j);
      KeptBySame(blocks, m1, mem.bytes, a);
      KeptTwice(b0, m0, blocks, m1, blocks, mem.bytes, a);
      m1 := mem.bytes;
      CutPlaces(b0, i, n, i);
      ClearLinks(a, i);
      KeptBySame(blocks, m1, mem.bytes, a);
      KeptTwice(b0, m0, blocks, m1, blocks, mem.bytes, a);
      ghost var m2 := mem.bytes;
      PushFree(a + n);
      KeptBySame(blocks, m2, mem.bytes, a);
      KeptTwice(b0, m0, blocks, m2, blocks, mem.bytes, a);
    }

    /** Split, or not, and take the block off the free list: what follows a successful search. */
    method Grant(a: nat, n: nat, ghost i: nat, ghost j: nat)
      requires Valid() && i < |blocks| && blocks[i].addr == a && Fits(blocks[i], n)
      requires j < |free| && free[j] == a && MINIALLOC <= n && n % ALIGN == 0
      modifies this
      ensures Valid() && blocks == Granted(old(blocks), i, n)
      ensures maxUsed == Larger(old(maxUsed), poolSize - available)
      ensures OthersKept(old(blocks), old(mem).bytes, blocks, mem.bytes, a)
    {
      hide Sound, Sized, Coalesced, OthersKept;
      GrantFacts(i, n);
      ItemSizeIsPayload(i);
      var freeSize := ItemSize(a);
      if freeSize >= n + HDR + MINIALLOC {
        SplitOff(a, HDR + n, i, j);
        available := available - n - HDR;
      } else {
        available := available - freeSize;
        UnlinkFree(a, j);
        KeptBySame(blocks, old(mem).bytes, mem.bytes, a);
        ghost var m0 := mem.bytes;
        ClearLinks(a, i);
        KeptBySame(blocks, m0, mem.bytes, a);
        KeptTwice(blocks, old(mem).bytes, blocks, m0, blocks, mem.bytes, a);
      }
      if poolSize - available > maxUsed { maxUsed := poolSize - available; }
      ghost var m1, b1 := mem.bytes, blocks;
      SetFlag(a, true, i);
      KeptTwice(old(blocks), old(mem).bytes, b1, m1, blocks, mem.bytes, a);
    }

    /** What granting n bytes of block i will do to the numbers and sets of the invariant. */
    lemma GrantFacts(i: nat, n: nat)
      requires Valid() && i < |blocks| && Fits(blocks[i], n) && MINIALLOC <= n && n % ALIGN == 0
      ensures var g, split := Granted(blocks, i, n), Splits(blocks[i], n);
        && Sized(g) && Coalesced(g) && i + 1 < |blocks|
        && FreePayload(g, HDR) == available - (if split then n + HDR else blocks[i].size - HDR)
        && UnusedSet(g) == Elements(free) - {blocks[i].addr} + (if split then {blocks[i].addr + HDR + n} else {})
      ensures Splits(blocks[i], n) ==> blocks[i].addr + HDR + n !in AddrSet(blocks)
    {
      hide Sized, Coalesced, Granted, Tiles, Physical, FreeList, UnusedSet, Elements, AddrSet, FreePayload, Distinct;
      GrantShape(blocks, i, n);
      GrantSums(blocks, i, n);
      HeadersSpaced(blocks, start, start + poolSize, head);
      if Splits(blocks[i], n) { PlaceApart(blocks, i, HDR + n, start, start + poolSize, head); }
      GrantUnused(blocks, i, n);
    }

    method InsertBlock(a: nat, n: nat, ghost i: nat)
      requires Pointers() && i < |blocks| && blocks[i].addr == a && HDR <= n && n + HDR <= blocks[i].size
      modifies this`mem, this`blocks
      ensures Pointers() && blocks == Cut(old(blocks), i, n)
      ensures PayloadsKept(blocks, old(mem).bytes, mem.bytes)
      ensures OthersKept(old(blocks), old(mem).bytes, blocks, mem.bytes, a)
    {
      hide Sound, OthersKept, PayloadsKept, Inserted, Cut;
      InsertedSound(mem, blocks, free, start, start + poolSize, head, i, n);
      KeptByCut(blocks, i, n, mem.bytes, Inserted(mem, a, a + n).bytes, a);
      mem := Inserted(mem, a, a + n);
      blocks := Cut(blocks, i, n);
    }

    method UnlinkFree(h: nat, ghost j: nat)
      requires Pointers() && j < |free| && free[j] == h
      modifies this`mem, this`free
      ensures Pointers() && free == old(free)[..j] + old(free)[j + 1..]
      ensures Elements(free) == Elements(old(free)) - {h}
      ensures PayloadsKept(blocks, old(mem).bytes, mem.bytes)
    {
      UnlinkedSound(mem, blocks, free, start, start + poolSize, head, j);
      assert forall k :: 0 <= k < |free| && k != j ==> free[k] != h by {
        assert forall k :: 0 <= k < |free| ==> ([head] + free)[k + 1] == free[k];
      }
      mem := Unlinked(mem, h);
      free := free[..j] + free[j + 1..];
      assert forall k :: 0 <= k < |old(free)| && k != j ==> free[if k < j then k else k - 1] == old(free)[k];
    }

    /** Forget the free links of block i, which has left the free list. */
    method ClearLinks(a: nat, ghost i: nat)
      requires Pointers() && i < |blocks| && blocks[i].addr == a && a !in free
      modifies this`mem
      ensures Pointers() && PayloadsKept(blocks, old(mem).bytes, mem.bytes)
      ensures a in mem.items && mem.items[a].nextFree == NULL && mem.items[a].prevFree == NULL
    {
      ClearedSound(mem, blocks, free, start, start + poolSize, head, i);
      hide Sound, PayloadsKept;
      mem := Cleared(mem, a);
    }

    method PushFree(h: nat)
      requires Pointers() && h in AddrSet(blocks) && h !in free
      modifies this`mem, this`free
      ensures Pointers() && free == [h] + old(free) && Elements(free) == Elements(old(free)) + {h}
      ensures PayloadsKept(blocks, old(mem).bytes, mem.bytes)
    {
      PushedSound(mem, blocks, free, start, start + poolSize, head, h);
      mem := Pushed(mem, h, head);
      free := [h] + free;
    }

    method DropBlock(b: nat, ghost i: nat)
      requires Pointers() && i + 1 < |blocks| && |blocks| > 2 && blocks[i + 1].addr == b && b !in free
      modifies this`mem, this`blocks
      ensures Pointers() && blocks == Join(old(blocks), i)
      ensures PayloadsKept(blocks, old(mem).bytes, mem.bytes)
    {
      DroppedSound(mem, blocks, free, start, start + poolSize, head, i);
      mem := Dropped(mem, b);
      blocks := Join(blocks, i);
    }

    method SetFlag(a: nat, u: bool, ghost i: nat)
      requires Pointers() && i < |blocks| && blocks[i].addr == a
      modifies this`mem, this`blocks
      ensures Pointers() && blocks == SetUsed(old(blocks), i, u)
      ensures OthersKept(old(blocks), old(mem).bytes, blocks, mem.bytes, a)
    {
      FlaggedKeeps(mem, blocks, free, start, start + poolSize, head, i, u);
      mem := Flagged(mem, a, u);
      blocks := SetUsed(blocks, i, u);
    }

    // -------------------------------------------------------------- rt_memheap_alloc

    /** The free-list entry at place j: which block it is and what its pointers say. */
    lemma FreeEntry(j: nat) returns (i: nat)
      requires Valid() && j < |free|
      ensures i + 1 < |blocks| && blocks[i].addr == free[j] && !blocks[i].used && free[j] != head
      ensures free[j] in mem.items && ItemSize(free[j]) == blocks[i].size - HDR
      ensures mem.items[free[j]].nextFree == if j + 1 < |free| then free[j + 1] else head
    {
      assert free[j] in Elements(free);
      i :| 0 <= i < |blocks| && !blocks[i].used && blocks[i].addr == free[j];
      hide Tiles, Coalesced, FreePayload;
      ItemSizeIsPayload(i);
      var r := [head] + free;
      assert LinkAt(NextFrees(mem.items), PrevFrees(mem.items), r, j + 1) && r[j + 1] == free[j] && r[0] == head;
    }

    lemma FreeHead()
      requires Valid()
      ensures head in mem.items && mem.items[head].nextFree == if free == [] then head else free[0]
    {
      assert LinkAt(NextFrees(mem.items), PrevFrees(mem.items), [head] + free, 0);
    }

    /** None of the first j entries of the free list can give n bytes. */
    ghost predicate NoneFits(j: nat, n: nat)
      reads this
    {
      forall k, h :: 0 <= k < j && k < |free| && 0 <= h < |blocks| && blocks[h].addr == free[k] ==> !Fits(blocks[h], n)
    }

    lemma NextMisses(i: nat, j: nat, n: nat)
      requires Pointers() && NoneFits(j, n) && j < |free| && i < |blocks| && blocks[i].addr == free[j] && !Fits(blocks[i], n)
      ensures NoneFits(j + 1, n)
    {
      HeadersSpaced(blocks, start, start + poolSize, head);
      forall h | 0 <= h < |blocks| && blocks[h].addr == free[j] ensures h == i {
        assert Addrs(blocks)[h] == Addrs(blocks)[i];
      }
    }

    /** The search along the free list. */
    method Search(n: nat) returns (h: nat, ghost i: nat, ghost j: nat)
      requires Valid() && n > 0
      ensures h == head ==> NoneFits(|free|, n)
      ensures h != head ==>
        i < |blocks| && blocks[i].addr == h && Fits(blocks[i], n) && j < |free| && free[j] == h && NoneFits(j, n)
    {
      hide Sound, Sized, Coalesced, FreePayload;
      FreeHead();
      h, i, j := mem.items[head].nextFree, 0, 0;
      var freeSize := 0;
      while h != head && freeSize < n
        invariant j <= |free| && h == (if j < |free| then free[j] else head) && NoneFits(j, n)
        invariant freeSize >= n ==>
          j < |free| && i < |blocks| && blocks[i].addr == h && Fits(blocks[i], n)
        decreases |free| - j, n - freeSize
      {
        i := FreeEntry(j);
        freeSize := ItemSize(h);
        if freeSize < n {
          NextMisses(i, j, n);
          h := mem.items[h].nextFree;
          j := j + 1;
        }
      }
      if j < |free| { var i' := FreeEntry(j); }
    }

    method Alloc(size: nat) returns (p: nat, ghost i: nat)
      requires Valid()
      modifies this
      ensures Valid()
      ensures p == NULL <==>
        Rounded(size) >= old(available) || forall b :: b in old(blocks) ==> !Fits(b, Rounded(size))
      ensures p == NULL ==> blocks == old(blocks) && mem == old(mem)
      ensures p != NULL ==>
        && FirstFit(old(blocks), old(free), i, Rounded(size)) && p == old(blocks)[i].addr + HDR
        && blocks == Granted(old(blocks), i, Rounded(size)) && Allocated(p, i)
        && HDR + Rounded(size) <= blocks[i].size < HDR + Rounded(size) + (HDR + MINIALLOC)
        && OthersKept(old(blocks), old(mem).bytes, blocks, mem.bytes, old(blocks)[i].addr)
      ensures maxUsed == Larger(old(maxUsed), poolSize - available)
    {
      hide Sound, Sized, Coalesced, FreePayload, OthersKept, UnusedSet, Elements;
      var n := Rounded(size);
      p, i := NULL, 0;
      if n < available {
        ghost var j;
        var h;
        h, i, j := Search(n);
        if h != head {
          assert blocks[i] in blocks;
          GrantedBlock(blocks, i, n);
          Grant(h, n, i, j);
          NotTheTail(i);
          p := h + HDR;
        } else {
          AllOnFreeList(n);
        }
      }
    }

    lemma AllOnFreeList(n: nat)
      requires Valid() && NoneFits(|free|, n)
      ensures forall b :: b in blocks ==> !Fits(b, n)
    {
      forall b | b in blocks ensures !Fits(b, n) {
        var h :| 0 <= h < |blocks| && blocks[h] == b;
        if !b.used {
          assert b.addr in UnusedSet(blocks) && b.addr in Elements(free);
          var k :| 0 <= k < |free| && free[k] == b.addr;
        }
      }
    }

    // -------------------------------------------------------------- rt_memheap_free

    /** In the middle of freeing: block i at address a is free now, and on the free list unless pending. */
    ghost predicate Releasing(a: nat, i: nat, pending: bool)
      reads this
    {
      && Pointers() && Sized(blocks) && i + 1 < |blocks| && blocks[i].addr == a && !blocks[i].used
      && available == FreePayload(blocks, HDR) && poolSize - available <= maxUsed
      && UnusedSet(blocks) == Elements(free) + (if pending then {a} else {}) && (pending ==> a !in free)
    }

    /** What joining free blocks i and i + 1 does to the numbers and sets of the invariant. */
    lemma JoinFacts(i: nat)
      requires Pointers() && Sized(blocks) && i + 1 < |blocks| && !blocks[i].used && !blocks[i + 1].used
      ensures Sized(Join(blocks, i)) && |blocks| > 2 && i + 2 < |blocks|
      ensures FreePayload(Join(blocks, i), HDR) == FreePayload(blocks, HDR) + HDR
      ensures UnusedSet(Join(blocks, i)) == UnusedSet(blocks) - {blocks[i + 1].addr}
      ensures blocks[i].addr != blocks[i + 1].addr
    {
      JoinSums(blocks, i, HDR);
      JoinSized(blocks, i);
      hide Sized, FreePayload, Physical, FreeList, UnusedSet;
      HeadersSpaced(blocks, start, start + poolSize, head);
      UnusedOfJoin(blocks, i);
      assert Addrs(blocks)[i] != Addrs(blocks)[i + 1];
    }

    lemma LeftFacts(a: nat, i: nat)
      requires Releasing(a, i, true)
      ensures a in mem.items && mem.items[a].prev in mem.items
      ensures mem.items[mem.items[a].prev].used == (i == 0 || blocks[i - 1].used)
      ensures i > 0 && !blocks[i - 1].used ==>
        && mem.items[a].prev == blocks[i - 1].addr && |blocks| > 2 && a !in free
        && Sized(Join(blocks, i - 1)) && FreePayload(Join(blocks, i - 1), HDR) == available + HDR
        && UnusedSet(Join(blocks, i - 1)) == Elements(free)
    {
      PreviousOf(i);
      assert blocks[|blocks| - 1].used;
      if i > 0 && !blocks[i - 1].used {
        hide Sound, Sized, FreePayload;
        JoinFacts(i - 1);
      }
    }

    method MergeLeft(a: nat, ghost i: nat) returns (b: nat, ghost k: nat, insert: bool)
      requires Releasing(a, i, true)
      modifies this`mem, this`blocks, this`available
      ensures Releasing(b, k, insert) && insert == (i == 0 || old(blocks)[i - 1].used)
      ensures blocks == (if insert then old(blocks) else Join(old(blocks), i - 1)) && k == (if insert then i else i - 1)
      ensures OthersKept(old(blocks), old(mem).bytes, blocks, mem.bytes, a)
    {
      hide Sound, Sized, FreePayload, UnusedSet;
      b, k, insert := a, i, true;
      LeftFacts(a, i);
      var prev := mem.items[a].prev;
      if !mem.items[prev].used {
        available := available + HDR;
        DropBlock(a, i - 1);
        KeptByJoin(old(blocks), i - 1, old(mem).bytes, mem.bytes, a);
        b, k, insert := prev, i - 1, false;
      }
    }

    lemma PreviousOf(i: nat)
      requires Pointers() && i < |blocks|
      ensures blocks[i].addr in mem.items
      ensures var p := if i == 0 then |blocks| - 1 else i - 1;
        && mem.items[blocks[i].addr].prev == blocks[p].addr && blocks[p].addr in mem.items
        && mem.items[blocks[p].addr].used == blocks[p].used
    {
      var p := if i == 0 then |blocks| - 1 else i - 1;
      FlagsOf(mem.items, blocks, i);
      FlagsOf(mem.items, blocks, p);
      assert LinkAt(Nexts(mem.items), Prevs(mem.items), Addrs(blocks), p);
    }

    lemma RightFacts(a: nat, i: nat, pending: bool)
      requires Releasing(a, i, pending)
      ensures a in mem.items && mem.items[a].next == blocks[i + 1].addr && blocks[i + 1].addr in mem.items
      ensures mem.items[blocks[i + 1].addr].used == blocks[i + 1].used
      ensures !blocks[i + 1].used ==>
        && |blocks| > 2 && i + 2 < |blocks| && blocks[i + 1].addr in free
        && Sized(Join(blocks, i)) && FreePayload(Join(blocks, i), HDR) == available + HDR
        && UnusedSet(Join(blocks, i)) == UnusedSet(blocks) - {blocks[i + 1].addr} && blocks[i + 1].addr != a
    {
      ItemSizeIsPayload(i);
      FlagsOf(mem.items, blocks, i + 1);
      if !blocks[i + 1].used {
        assert blocks[i + 1].addr in UnusedSet(blocks);
        hide Sound, Sized, FreePayload, UnusedSet;
        JoinFacts(i);
      }
    }

    /** The kernel rewrites the physical links before the free links here; the fields are different
        ones, so the order makes no difference. */
    method MergeRight(a: nat, ghost i: nat, ghost pending: bool)
      requires Releasing(a, i, pending)
      modifies this`mem, this`blocks, this`free, this`available
      ensures Releasing(a, i, pending)
      ensures blocks == if !old(blocks)[i + 1].used then Join(old(blocks), i) else old(blocks)
      ensures OthersKept(old(blocks), old(mem).bytes, blocks, mem.bytes, a)
    {
      hide Sound, Sized, FreePayload, UnusedSet;
      RightFacts(a, i, pending);
      var next := mem.items[a].next;
      if !mem.items[next].used {
        ghost var j :| 0 <= j < |free| && free[j] == next;
        available := available + HDR;
        UnlinkFree(next, j);
        ghost var m1 := mem.bytes;
        KeptBySame(blocks, old(mem).bytes, m1, a);
        assert next !in Elements(free);
        DropBlock(next, i);
        KeptByJoin(old(blocks), i, m1, mem.bytes, a);
      }
    }

    /** ptr is the payload of used block i, which is not the tail. */
    ghost predicate Allocated(p: nat, i: nat)
      reads this
    {
      i + 1 < |blocks| && blocks[i].used && p == blocks[i].addr + HDR
    }

    /** Clearing the used flag of block i. */
    method Unmark(a: nat, ghost i: nat)
      requires Valid() && i + 1 < |blocks| && blocks[i].used && blocks[i].addr == a
      modifies this`mem, this`blocks, this`available
      ensures Releasing(a, i, true) && blocks == SetUsed(old(blocks), i, false)
      ensures OthersKept(old(blocks), old(mem).bytes, blocks, mem.bytes, a)
    {
      UnmarkFacts(i);
      ItemSizeIsPayload(i);
      hide Sound, Sized, Coalesced, FreePayload;
      available := available + ItemSize(a);
      SetFlag(a, false, i);
    }

    lemma UnmarkFacts(i: nat)
      requires Valid() && i + 1 < |blocks| && blocks[i].used
      ensures Sized(SetUsed(blocks, i, false)) && blocks[i].size >= HDR
      ensures FreePayload(SetUsed(blocks, i, false), HDR) == available + blocks[i].size - HDR
      ensures UnusedSet(SetUsed(blocks, i, false)) == Elements(free) + {blocks[i].addr} && blocks[i].addr !in free
    {
      SetUsedSums(blocks, i, false, HDR);
      HeadersSpaced(blocks, start, start + poolSize, head);
      UnusedOfFlag(blocks, i, false);
    }

    /** Merge to both sides, and put the block on the free list unless the left one swallowed it. */
    method MergeBoth(a: nat, ghost i: nat)
      requires Releasing(a, i, true)
      modifies this`mem, this`blocks, this`free, this`available
      ensures Pointers() && Sized(blocks) && Elements(free) == UnusedSet(blocks)
      ensures available == FreePayload(blocks, HDR) && poolSize - available <= maxUsed
      ensures blocks == MergeAround(old(blocks), i)
      ensures OthersKept(old(blocks), old(mem).bytes, blocks, mem.bytes, a)
    {
      hide Sound, Sized, FreePayload, OthersKept, UnusedSet;
      var b, k, insert := MergeLeft(a, i);
      ghost var b1, m1 := blocks, mem.bytes;
      assert Distinct(Addrs(blocks)) by { DistinctAddrs(); }
      MergeRight(b, k, insert);
      KeptElsewhere(b1, m1, blocks, mem.bytes, b, a, k);
      KeptTwice(old(blocks), old(mem).bytes, b1, m1, blocks, mem.bytes, a);
      if insert {
        ghost var m2 := mem.bytes;
        HasAddr(blocks, k);
        PushFree(b);
        KeptBySame(blocks, m2, mem.bytes, a);
        KeptTwice(old(blocks), old(mem).bytes, blocks, m2, blocks, mem.bytes, a);
      }
    }

    lemma DistinctAddrs()
      requires Pointers()
      ensures Distinct(Addrs(blocks))
    {
    }

    /** rt_memheap_free: the block becomes free, and the pool is as if every run of free neighbours
        had been fused. */
    method Free(p: nat, ghost i: nat)
      requires Valid() && (p == NULL || Allocated(p, i))
      modifies this`mem, this`blocks, this`free, this`available
      ensures Valid() && (p == NULL ==> blocks == old(blocks) && mem == old(mem))
      ensures p != NULL ==>
        && blocks == Release(old(blocks), i) && blocks == Coalesce(SetUsed(old(blocks), i, false))
        && OthersKept(old(blocks), old(mem).bytes, blocks, mem.bytes, p - HDR)
    {
      if p == NULL { return; }
      ReleaseIsCoalesce(blocks, i);
      hide Sound, Sized, Coalesced, FreePayload, Coalesce, OthersKept, UnusedSet, MergeAround;
      Unmark(p - HDR, i);
      ghost var b1, m1 := blocks, mem.bytes;
      MergeBoth(p - HDR, i);
      KeptTwice(old(blocks), old(mem).bytes, b1, m1, blocks, mem.bytes, p - HDR);
    }

    // -------------------------------------------------------------- rt_memheap_realloc

    /** What growing block i into its free neighbour will do to the invariant. */
    lemma GrowFacts(i: nat, n: nat)
      requires Valid() && i + 1 < |blocks| && blocks[i].used && !blocks[i + 1].used && n % ALIGN == 0
      requires blocks[i].size - HDR < n && n + MINIALLOC < blocks[i].size + blocks[i + 1].size - HDR - HDR
      ensures var c := Grown(blocks, i, n);
        && Sized(c) && Coalesced(c) && |blocks| > 2 && blocks[i].size >= HDR && blocks[i + 1].addr in free
        && FreePayload(c, HDR) == available - (n - (blocks[i].size - HDR))
        && UnusedSet(c) == Elements(free) - {blocks[i + 1].addr} + {blocks[i].addr + HDR + n}
        && blocks[i].addr + HDR + n !in AddrSet(Join(blocks, i))
    {
      hide Sound, Elements;
      GrownSums(blocks, i, n);
      GrownShape(blocks, i, n);
      assert Tiles(blocks, start, start + poolSize, HDR) && Distinct(Addrs(blocks)) by { SoundTiles(); }
      GrownUnused(blocks, i, n, start, start + poolSize);
      assert blocks[i + 1].addr in UnusedSet(blocks);
      assert blocks[i + 1].addr in free by { assert blocks[i + 1].addr in Elements(free); IsElement(free, blocks[i + 1].addr); }
    }

    lemma SoundTiles()
      requires Pointers()
      ensures Tiles(blocks, start, start + poolSize, HDR) && Distinct(Addrs(blocks))
    {
    }

    /** Grow in place: the free neighbour's header moves up. */
    method Grow(a: nat, n: nat, ghost i: nat)
      requires Valid() && i + 1 < |blocks| && blocks[i].used && !blocks[i + 1].used && n % ALIGN == 0
      requires blocks[i].addr == a && blocks[i].size - HDR < n
      requires n + MINIALLOC < blocks[i].size + blocks[i + 1].size - HDR - HDR
      modifies this
      ensures Valid() && blocks == Grown(old(blocks), i, n)
      ensures maxUsed == Larger(old(maxUsed), poolSize - available)
      ensures OthersKept(old(blocks), old(mem).bytes, blocks, mem.bytes, a)
      ensures SamePrefix(a + HDR, old(blocks)[i].size - HDR, old(mem).bytes, mem.bytes)
    {
      hide Sound, Sized, Coalesced, OthersKept, SamePrefix, FreePayload, UnusedSet, Elements, Grown, AddrSet;
      GrowFacts(i, n);
      ItemSizeIsPayload(i);
      var next := mem.items[a].next;
      available := available - (n - ItemSize(a));
      if poolSize - available > maxUsed { maxUsed := poolSize - available; }
      ghost var j :| 0 <= j < |free| && free[j] == next;
      MoveUp(a, next, n, i, j);
    }

    method MoveUp(a: nat, next: nat, n: nat, ghost i: nat, ghost j: nat)
      requires Pointers() && i + 1 < |blocks| && |blocks| > 2 && blocks[i].addr == a && blocks[i + 1].addr == next
      requires !blocks[i + 1].used && j < |free| && free[j] == next
      requires HDR <= blocks[i].size <= HDR + n && n + HDR + HDR <= blocks[i].size + blocks[i + 1].size
      requires a + HDR + n !in AddrSet(Join(blocks, i))
      modifies this`mem, this`blocks, this`free
      ensures Pointers() && blocks == Grown(old(blocks), i, n)
      ensures Elements(free) == Elements(old(free)) - {next} + {a + HDR + n}
      ensures OthersKept(old(blocks), old(mem).bytes, blocks, mem.bytes, a)
      ensures SamePrefix(a + HDR, old(blocks)[i].size - HDR, old(mem).bytes, mem.bytes)
    {
      hide Sound, OthersKept, PayloadsKept, SamePrefix, AddrSet, Elements;
      ghost var b0, m0 := blocks, mem.bytes;
      DropNext(a, next, i, j);
      ghost var b1, m1 := blocks, mem.bytes;
      InsertFree(a, HDR + n, i);
      KeptTwice(b0, m0, b1, m1, blocks, mem.bytes, a);
      PrefixBySame(blocks, i, b0[i].size - HDR, m0, m1, mem.bytes);
    }

    /** Block i swallows its free neighbour, which leaves the free list. */
    method DropNext(a: nat, next: nat, ghost i: nat, ghost j: nat)
      requires Pointers() && i + 1 < |blocks| && |blocks| > 2 && blocks[i].addr == a && blocks[i + 1].addr == next
      requires !blocks[i + 1].used && j < |free| && free[j] == next
      modifies this`mem, this`blocks, this`free
      ensures Pointers() && blocks == Join(old(blocks), i) && Elements(free) == Elements(old(free)) - {next}
      ensures OthersKept(old(blocks), old(mem).bytes, blocks, mem.bytes, a)
      ensures SamePrefix(a + HDR, old(blocks)[i].size - HDR, old(mem).bytes, mem.bytes)
    {
      PayloadInPool(i);
      hide Sound, OthersKept, PayloadsKept, SamePrefix, AddrSet, Elements;
      ghost var b0, m0 := blocks, mem.bytes;
      UnlinkFree(next, j);
      ghost var m1 := mem.bytes;
      KeptBySame(blocks, m0, m1, a);
      PrefixBySame(b0, i, b0[i].size - HDR, m0, m0, m1);
      IsElement(free, next);
      DropBlock(next, i);
      KeptByJoin(b0, i, m1, mem.bytes, a);
      KeptTwice(b0, m0, b0, m1, blocks, mem.bytes, a);
      PrefixBySame(blocks, i, b0[i].size - HDR, m0, m1, mem.bytes);
    }

    /** Cut block i after n bytes and put the rest on the free list. */
    method InsertFree(a: nat, n: nat, ghost i: nat)
      requires Pointers() && i < |blocks| && blocks[i].addr == a && HDR <= n && n + HDR <= blocks[i].size
      requires a + n !in AddrSet(blocks)
      modifies this`mem, this`blocks, this`free
      ensures Pointers() && blocks == Cut(old(blocks), i, n) && Elements(free) == Elements(old(free)) + {a + n}
      ensures PayloadsKept(blocks, old(mem).bytes, mem.bytes)
      ensures OthersKept(old(blocks), old(mem).bytes, blocks, mem.bytes, a)
    {
      assert a + n !in free by { FreeHeaders(); }
      hide Sound, OthersKept, AddrSet, Elements;
      ghost var b0, m0 := blocks, mem.bytes;
      InsertBlock(a, n, i);
      ghost var m1 := mem.bytes;
      HasAddr(blocks, i + 1);
      PushFree(a + n);
      KeptBySame(blocks, m1, mem.bytes, a);
      KeptTwice(b0, m0, blocks, m1, blocks, mem.bytes, a);
    }

    /** What cutting the end off used block i will do to the invariant. */
    lemma ShrinkFacts(i: nat, n: nat)
      requires Valid() && i + 1 < |blocks| && blocks[i].used && n % ALIGN == 0 && MINIALLOC <= n
      requires n + HDR + MINIALLOC < blocks[i].size - HDR
      ensures var c := Shrunk(blocks, i, n);
        && Sized(c) && Coalesced(c) && |Cut(blocks, i, HDR + n)| == |blocks| + 1
        && (!blocks[i + 1].used ==> i + 2 < |blocks|)
        && FreePayload(c, HDR) == available + blocks[i].size - HDR - n - HDR
                                  + (if blocks[i + 1].used then 0 else HDR)
        && UnusedSet(c) == Elements(free) + {blocks[i].addr + HDR + n} - (if blocks[i + 1].used then {} else {blocks[i + 1].addr})
      ensures blocks[i].addr + HDR + n !in free && HDR <= blocks[i].size
      ensures !blocks[i + 1].used ==> blocks[i + 1].addr in free
      ensures SamePrefix(blocks[i].addr + HDR, n, mem.bytes, mem.bytes)
    {
      PayloadInPool(i);
      FreeHeaders();
      PrefixOfPrefix(blocks[i].addr + HDR, blocks[i].size - HDR, n, mem.bytes, mem.bytes);
      hide Sound, Elements, SamePrefix;
      assert Tiles(blocks, start, start + poolSize, HDR) && Distinct(Addrs(blocks)) by { SoundTiles(); }
      ShrunkShape(blocks, i, n);
      ShortenSums(blocks, i, HDR + n, HDR);
      ShrunkUnused(blocks, i, n, start, start + poolSize);
      if !blocks[i + 1].used {
        assert blocks[i + 1].addr in UnusedSet(blocks);
        IsElement(free, blocks[i + 1].addr);
      }
    }

    /** Shrink in place: the cut-off end becomes free, together with a free block behind it. */
    method Shrink(a: nat, n: nat, ghost i: nat)
      requires Valid() && i + 1 < |blocks| && blocks[i].used && n % ALIGN == 0 && MINIALLOC <= n
      requires blocks[i].addr == a && n + HDR + MINIALLOC < blocks[i].size - HDR
      modifies this`mem, this`blocks, this`free, this`available
      ensures Valid() && blocks == Shrunk(old(blocks), i, n)
      ensures OthersKept(old(blocks), old(mem).bytes, blocks, mem.bytes, a)
      ensures SamePrefix(a + HDR, n, old(mem).bytes, mem.bytes)
    {
      hide Sound, PayloadsKept, Sized, Coalesced, FreePayload, OthersKept, SamePrefix, Elements, UnusedSet, InPayload, MergeAround;
      ShrinkFacts(i, n);
      ghost var b0, m0 := blocks, mem.bytes;
      InsertBlock(a, HDR + n, i);
      ghost var b1, m1 := blocks, mem.bytes;
      CutPlaces(b0, i, HDR + n, i);
      CutPlaces(b0, i, HDR + n, i + 1);
      CutPlaces(b0, i, HDR + n, i + 2);
      PrefixBySame(b1, i, n, m0, m0, m1);
      ReleaseEnd(a, a + HDR + n, n, i);
      KeptTwice(b0, m0, b1, m1, blocks, mem.bytes, a);
      PrefixTwice(a + HDR, n, m0, m1, mem.bytes);
    }

    /** The second half of shrinking: block i + 1 is new, free and not yet on the free list. */
    method ReleaseEnd(a: nat, e: nat, n: nat, ghost i: nat)
      requires Pointers() && i + 2 < |blocks| && blocks[i] == Block(a, HDR + n, true)
      requires blocks[i + 1].addr == e && !blocks[i + 1].used && e !in free
      requires !blocks[i + 2].used ==> blocks[i + 2].addr in free && i + 3 < |blocks|
      modifies this`mem, this`blocks, this`free, this`available
      ensures Pointers() && blocks == MergeAround(old(blocks), i + 1)
      ensures available == old(available) + old(blocks)[i + 1].size - HDR + (if old(blocks)[i + 2].used then 0 else HDR)
      ensures Elements(free) == Elements(old(free)) + {e} - (if old(blocks)[i + 2].used then {} else {old(blocks)[i + 2].addr})
      ensures OthersKept(old(blocks), old(mem).bytes, blocks, mem.bytes, a)
      ensures SamePrefix(a + HDR, n, old(mem).bytes, mem.bytes)
    {
      hide Sound, OthersKept, PayloadsKept, SamePrefix, Elements;
      ghost var b0, m0 := blocks, mem.bytes;
      AbsorbNext(a, e, n, i);
      ghost var b1, m1 := blocks, mem.bytes;
      IsElement(free, e);
      IsElement(old(free), e);
      HasAddr(blocks, i + 1);
      PushFree(e);
      KeptBySame(blocks, m1, mem.bytes, a);
      KeptTwice(b0, m0, b1, m1, blocks, mem.bytes, a);
      PrefixBySame(b1, i, n, m0, m1, mem.bytes);
      ItemSizeIsPayload(i + 1);
      available := available + ItemSize(e);
    }

    /** The new block i + 1 swallows the block behind it, if that one is free. */
    method AbsorbNext(a: nat, e: nat, n: nat, ghost i: nat)
      requires Pointers() && i + 2 < |blocks| && blocks[i] == Block(a, HDR + n, true)
      requires blocks[i + 1].addr == e && !blocks[i + 1].used
      requires !blocks[i + 2].used ==> blocks[i + 2].addr in free && i + 3 < |blocks|
      modifies this`mem, this`blocks, this`free, this`available
      ensures Pointers() && blocks == MergeAround(old(blocks), i + 1)
      ensures i + 2 < |blocks| && blocks[i] == old(blocks)[i] && blocks[i + 1].addr == e && old(blocks)[i + 2].addr != e
      ensures blocks[i + 1].size == old(blocks)[i + 1].size + (if old(blocks)[i + 2].used then 0 else old(blocks)[i + 2].size)
      ensures available == old(available) - (if old(blocks)[i + 2].used then 0 else old(blocks)[i + 2].size - HDR)
      ensures Elements(free) == Elements(old(free)) - (if old(blocks)[i + 2].used then {} else {old(blocks)[i + 2].addr})
      ensures OthersKept(old(blocks), old(mem).bytes, blocks, mem.bytes, a)
      ensures SamePrefix(a + HDR, n, old(mem).bytes, mem.bytes)
    {
      hide Sound, OthersKept, PayloadsKept, SamePrefix, Elements, Distinct, InPayload;
      EndFacts(i);
      PayloadInPool(i);
      ghost var b0, m0 := blocks, mem.bytes;
      var next := mem.items[e].next;
      if !mem.items[next].used {
        ghost var j :| 0 <= j < |free| && free[j] == next;
        ItemSizeIsPayload(i + 2);
        available := available - ItemSize(next);
        DropNext(e, next, i + 1, j);
        KeptElsewhere(b0, m0, blocks, mem.bytes, e, a, i + 1);
        PrefixByOthers(b0, m0, blocks, mem.bytes, e, i, n);
      } else {
        NothingDone(b0, i, n, m0);
      }
    }

    /** The header of block i + 1 leads to that of block i + 2. */
    lemma EndFacts(i: nat)
      requires Pointers() && i + 2 < |blocks|
      ensures Distinct(Addrs(blocks)) && blocks[i].addr != blocks[i + 1].addr
      ensures blocks[i + 1].addr != blocks[i + 2].addr
      ensures blocks[i + 1].addr in mem.items && mem.items[blocks[i + 1].addr].next == blocks[i + 2].addr
      ensures blocks[i + 2].addr in mem.items && mem.items[blocks[i + 2].addr].used == blocks[i + 2].used
    {
      ItemSizeIsPayload(i + 1);
      FlagsOf(mem.items, blocks, i + 2);
      assert Addrs(blocks)[i] != Addrs(blocks)[i + 1] && Addrs(blocks)[i + 1] != Addrs(blocks)[i + 2];
    }

    method CopyPayload(q: nat, p: nat, n: nat, ghost k: nat)
      requires Valid() && k < |blocks| && q == blocks[k].addr + HDR && n + HDR <= blocks[k].size
      requires forall x: nat :: p <= x < p + n ==> x in mem.bytes
      modifies this`mem
      ensures Valid() && OthersKept(blocks, old(mem).bytes, blocks, mem.bytes, blocks[k].addr)
      ensures Moved(p, q, n, old(mem).bytes, mem.bytes)
    {
      CopiedSound(mem, blocks, free, start, start + poolSize, head, k, p, n);
      CopyMoves(mem, q, p, n, k);
      hide Sound, Sized, Coalesced, FreePayload, OthersKept, Moved, Copied;
      mem := Copied(mem, q, p, n);
    }

    lemma CopyMoves(m: Mem, q: nat, p: nat, n: nat, k: nat)
      requires Pointers() && m == mem && k < |blocks| && q == blocks[k].addr + HDR && n + HDR <= blocks[k].size
      requires forall x: nat :: p <= x < p + n ==> x in m.bytes
      ensures Moved(p, q, n, m.bytes, Copied(m, q, p, n).bytes)
    {
      PayloadInPool(k);
      forall x: nat | p <= x < p + n
        ensures Shift(x, p, q) in m.bytes && Copied(m, q, p, n).bytes[Shift(x, p, q)] == m.bytes[x]
      {
        var y := Shift(x, p, q);
        assert InPayload(y, blocks[k]);
        assert y - q + p == x;
      }
    }

    /** Allocate elsewhere and copy: the first half of moving block i. */
    method AllocCopy(p: nat, n: nat, oldSize: nat, ghost i: nat) returns (q: nat, ghost h: nat, ghost i': nat)
      requires Valid() && Allocated(p, i) && blocks[i].size == oldSize + HDR && oldSize < n && Rounded(n) == n
      modifies this
      ensures Valid()
      ensures q == NULL <==> n >= old(available) || forall b :: b in old(blocks) ==> !Fits(b, n)
      ensures q == NULL ==> blocks == old(blocks) && mem == old(mem)
      ensures q != NULL ==> GrantedTo(old(blocks), old(free), h, n, q, blocks) && i' < |blocks| && blocks[i'] == old(blocks)[i]
      ensures maxUsed == Larger(old(maxUsed), poolSize - available)
      ensures q != NULL ==>
        && Allocated(p, i') && h < |blocks| && blocks[h].used && q == blocks[h].addr + HDR
        && blocks[h].size >= HDR + n && blocks[h].addr != p - HDR
        && OthersKept(old(blocks), old(mem).bytes, blocks, mem.bytes, p - HDR)
        && Moved(p, q, oldSize, old(mem).bytes, mem.bytes)
    {
      hide Sound, Sized, Coalesced, FreePayload, OthersKept, Moved, Distinct, InPayload, SamePrefix, Granted, Rounded, UnusedSet, Elements, Splits, Larger, Addrs, ItemSize;
      ghost var b0, m0 := blocks, mem.bytes;
      PayloadInPool(i);
      DistinctAddrs();
      HasPayload(p, i);
      q, h := Alloc(n);
      i' := i;
      if q != NULL {
        ghost var b1, m1, ah := blocks, mem.bytes, b0[h].addr;
        GrantedBlock(b0, h, n);
        i' := SourceStays(b0, m0, b1, m1, h, i);
        NotTheTail(i');
        CopyPayload(q, p, oldSize, h);
        MovedAfter(p, q, oldSize, m0, m1, mem.bytes);
        KeptTwice(b0, m0, b1, m1, b1, mem.bytes, ah);
        KeptElsewhere(b0, m0, b1, mem.bytes, ah, p - HDR, h);
      }
    }

    /** Allocate elsewhere, copy, free: what rt_memheap_realloc does when it cannot stay. */
    method MoveBlock(p: nat, n: nat, ghost i: nat) returns (q: nat, ghost k: nat)
      requires Valid() && Allocated(p, i) && HDR <= blocks[i].size < n + HDR && Rounded(n) == n
      modifies this
      ensures Valid()
      ensures q == NULL <==> n >= old(available) || forall b :: b in old(blocks) ==> !Fits(b, n)
      ensures q == NULL ==> blocks == old(blocks) && mem == old(mem)
      ensures q != NULL ==> MovedTo(old(blocks), old(free), i, n, q, blocks)
      ensures if q == NULL then maxUsed == old(maxUsed) else HighWaterMoving(old(maxUsed), old(blocks), old(free), n, q)
      ensures q != NULL ==> Allocated(q, k) && blocks[k].size >= HDR + n
      ensures q != NULL ==> OthersKept(old(blocks), old(mem).bytes, blocks, mem.bytes, p - HDR)
      ensures q != NULL ==> Moved(p, q, old(blocks)[i].size - HDR, old(mem).bytes, mem.bytes)
    {
      hide Sound, GrantedTo, MovedTo, Sized, Coalesced, FreePayload, OthersKept, Moved, Coalesce, Release, Rounded, Fits, UnusedSet, Elements, InPayload;
      ghost var b0, f0, m0 := blocks, free, mem.bytes;
      ItemSizeIsPayload(i);
      var oldSize := ItemSize(p - HDR);
      ghost var h, i';
      q, h, i' := AllocCopy(p, n, oldSize, i);
      k := h;
      if q != NULL {
        ghost var b1, m1 := blocks, mem.bytes;
        assert GrantedTo(b0, f0, h, n, q, b1) && maxUsed == Larger(old(maxUsed), poolSize - FreePayload(b1, HDR));
        Free(p, i');
        MovedVia(b0, f0, i, n, q, h, b1, i', blocks);
        KeptTwice(b0, m0, b1, m1, blocks, mem.bytes, p - HDR);
        k := StillThere(b1, m1, blocks, mem.bytes, p - HDR, h);
        MovedStays(p, q, oldSize, m0, m1, mem.bytes, b1, blocks, p - HDR, h);
        NotTheTail(k);
      }
    }

    /** rt_memheap_realloc.  The kept prefix of the contents is found at the result, every other
        block is untouched, and a failure changes nothing. */
    method Realloc(p: nat, newSize: nat, ghost i: nat) returns (q: nat, ghost k: nat)
      requires Valid() && (p == NULL || Allocated(p, i))
      modifies this
      ensures Valid()
      ensures newSize == 0 ==> q == NULL && (p != NULL ==> blocks == Release(old(blocks), i))
      ensures q == NULL && newSize > 0 ==>
        && blocks == old(blocks) && mem == old(mem)
        && (Rounded(newSize) >= old(available) || forall b :: b in old(blocks) ==> !Fits(b, Rounded(newSize)))
        && (p != NULL ==> !StaysInPlace(old(blocks), i, Rounded(newSize)))
      ensures q != NULL ==> Allocated(q, k) && blocks[k].size >= HDR + Rounded(newSize)
      ensures q != NULL && p == NULL ==>
        && (exists h :: GrantedTo(old(blocks), old(free), h, Rounded(newSize), q, blocks))
        && OthersKept(old(blocks), old(mem).bytes, blocks, mem.bytes, q - HDR)
      ensures q != NULL && p != NULL ==>
        && ResizedTo(old(blocks), old(free), i, Rounded(newSize), q, blocks)
        && OthersKept(old(blocks), old(mem).bytes, blocks, mem.bytes, p - HDR)
        && Moved(p, q, Min(old(blocks)[i].size - HDR, Rounded(newSize)), old(mem).bytes, mem.bytes)
        && (StaysInPlace(old(blocks), i, Rounded(newSize)) ==> q == p && k == i)
      ensures if q == NULL || p == NULL || StaysInPlace(old(blocks), i, Rounded(newSize)) then maxUsed == Larger(old(maxUsed), poolSize - available)
              else HighWaterMoving(old(maxUsed), old(blocks), old(free), Rounded(newSize), q)
    {
      hide Sound, Sized, Coalesced, FreePayload, OthersKept, UnusedSet, Elements, Moved, Release, Granted;
      q, k := NULL, i;
      if newSize == 0 {
        Free(p, i);
        return;
      }
      var n := Rounded(newSize);
      RoundedTwice(newSize);
      if p == NULL {
        ghost var h;
        q, h := Alloc(n);
        k := h;
        if q != NULL {
          GrantedBlock(old(blocks), h, n);
          NotTheTail(h);
          assert GrantedTo(old(blocks), old(free), h, n, q, blocks);
        }
        return;
      }
      q, k := Resize(p, n, i);
    }

    /** rt_memheap_realloc of a block to a rounded size. */
    method Resize(p: nat, n: nat, ghost i: nat) returns (q: nat, ghost k: nat)
      requires Valid() && Allocated(p, i) && Rounded(n) == n
      modifies this
      ensures Valid()
      ensures q == NULL ==>
        && blocks == old(blocks) && mem == old(mem) && !StaysInPlace(old(blocks), i, n)
        && (n >= old(available) || forall b :: b in old(blocks) ==> !Fits(b, n))
      ensures q != NULL ==>
        && Allocated(q, k) && blocks[k].size >= HDR + n && ResizedTo(old(blocks), old(free), i, n, q, blocks)
        && OthersKept(old(blocks), old(mem).bytes, blocks, mem.bytes, p - HDR)
        && Moved(p, q, Min(old(blocks)[i].size - HDR, n), old(mem).bytes, mem.bytes)
        && (StaysInPlace(old(blocks), i, n) ==> q == p && k == i)
      ensures if q == NULL || StaysInPlace(old(blocks), i, n) then maxUsed == Larger(old(maxUsed), poolSize - available)
              else HighWaterMoving(old(maxUsed), old(blocks), old(free), n, q)
    {
      hide Sound, Coalesced, FreePayload, OthersKept, Moved, SamePrefix, Release, Fits, UnusedSet, Elements, InPayload, Grown, Shrunk, MovedTo;
      ghost var b0, m0 := blocks, mem.bytes;
      var a := p - HDR;
      ItemSizeIsPayload(i);
      NextHeader(i);
      var oldSize := ItemSize(a);
      q, k := p, i;
      if n > oldSize {
        var next := mem.items[a].next;
        if !mem.items[next].used && ItemSize(next) + oldSize > n + MINIALLOC {
          Grow(a, n, i);
          GrownPlaces(b0, i, n, i);
          GrownPlaces(b0, i, n, i + 1);
          StaysPut(p, oldSize, m0, mem.bytes);
        } else {
          q, k := MoveBlock(p, n, i);
        }
      } else if n + HDR + MINIALLOC >= oldSize {
        Unchanged(i, n);
      } else {
        Shrink(a, n, i);
        ShrunkBlock(b0, i, n);
        StaysPut(p, n, m0, mem.bytes);
      }
    }

    /** The header behind block i; its size is only meaningful, and only read, when it is free. */
    lemma NextHeader(i: nat)
      requires Valid() && i + 1 < |blocks|
      ensures blocks[i + 1].addr in mem.items && mem.items[blocks[i + 1].addr].used == blocks[i + 1].used
      ensures !blocks[i + 1].used ==> i + 2 < |blocks| && ItemSize(blocks[i + 1].addr) == blocks[i + 1].size - HDR
    {
      FlagsOf(mem.items, blocks, i + 1);
      if !blocks[i + 1].used { ItemSizeIsPayload(i + 1); }
    }

    lemma Unchanged(i: nat, n: nat)
      requires Pointers() && i < |blocks| && HDR + n <= blocks[i].size
      ensures OthersKept(blocks, mem.bytes, blocks, mem.bytes, blocks[i].addr)
      ensures Moved(blocks[i].addr + HDR, blocks[i].addr + HDR, n, mem.bytes, mem.bytes)
    {
      hide Sound, OthersKept, SamePrefix, Moved, InPayload;
      PayloadInPool(i);
      NothingDone(blocks, i, n, mem.bytes);
      StaysPut(blocks[i].addr + HDR, n, mem.bytes, mem.bytes);
    }

    lemma HasPayload(p: nat, i: nat)
      requires Valid() && Allocated(p, i)
      ensures blocks[i].size > HDR
    {
    }

    lemma NotTheTail(k: nat)
      requires Valid() && k < |blocks| && blocks[k].size > HDR
      ensures k + 1 < |blocks|
    {
    }

    lemma FreeHeaders()
      requires Pointers()
      ensures forall x :: x in free ==> x in AddrSet(blocks)
    {
    }

    lemma PayloadInPool(i: nat)
      requires Pointers() && i < |blocks|
      ensures forall x: nat :: InPayload(x, blocks[i]) ==> x in mem.bytes
      ensures SamePrefix(blocks[i].addr + HDR, blocks[i].size - HDR, mem.bytes, mem.bytes)
    {
      Apart(blocks, start, start + poolSize, HDR);
    }
  }

  /** Block i grown to n payload bytes, at the cost of its free neighbour. */
  function Grown(bs: seq<Block>, i: nat, n: nat): seq<Block>
    requires i + 1 < |bs| && HDR + n <= bs[i].size + bs[i + 1].size
  {
    Cut(Join(bs, i), i, HDR + n)
  }

  /** Block i shrunk to n payload bytes; what is cut off merges with a free block behind it. */
  function Shrunk(bs: seq<Block>, i: nat, n: nat): seq<Block>
    requires i + 1 < |bs| && HDR + n <= bs[i].size
  {
    Shorten(bs, i, HDR + n)
  }

  /** The first fit h of n bytes was given out, at q. */
  ghost predicate GrantedTo(bs: seq<Block>, free: seq<nat>, h: nat, n: nat, q: nat, bs': seq<Block>) {
    FirstFit(bs, free, h, n) && q == bs[h].addr + HDR && bs' == Granted(bs, h, n)
  }

  /** The first fit of n bytes was given out, at q, and after that the old block i was freed. */
  ghost predicate MovedTo(bs: seq<Block>, free: seq<nat>, i: nat, n: nat, q: nat, bs': seq<Block>) {
    exists h: nat, j: nat, mid :: GrantedTo(bs, free, h, n, q, mid) && FreedAgain(bs, i, mid, j, bs')
  }

  ghost predicate FreedAgain(bs: seq<Block>, i: nat, mid: seq<Block>, j: nat, bs': seq<Block>) {
    i < |bs| && j < |mid| && mid[j] == bs[i] && bs' == Release(mid, j)
  }

  lemma MovedVia(bs: seq<Block>, free: seq<nat>, i: nat, n: nat, q: nat, h: nat, mid: seq<Block>, j: nat, bs': seq<Block>)
    requires GrantedTo(bs, free, h, n, q, mid) && FreedAgain(bs, i, mid, j, bs')
    ensures MovedTo(bs, free, i, n, q, bs')
  {
  }

  /** What a successful resize of block i to n bytes leaves: grown, as it was, cut, or moved to q. */
  ghost predicate ResizedTo(bs: seq<Block>, free: seq<nat>, i: nat, n: nat, q: nat, bs': seq<Block>)
    requires i + 1 < |bs|
  {
    if !StaysInPlace(bs, i, n) then MovedTo(bs, free, i, n, q, bs')
    else if n + HDR > bs[i].size then bs' == Grown(bs, i, n)
    else if n + HDR + MINIALLOC + HDR >= bs[i].size then bs' == bs
    else bs' == Shrunk(bs, i, n)
  }

  lemma PrefixOfPrefix(p: nat, n: nat, k: nat, m: map<nat, int>, m': map<nat, int>)
    requires SamePrefix(p, n, m, m') && k <= n
    ensures SamePrefix(p, k, m, m')
  {
  }

  lemma PrefixTwice(p: nat, n: nat, m0: map<nat, int>, m1: map<nat, int>, m2: map<nat, int>)
    requires SamePrefix(p, n, m0, m1) && SamePrefix(p, n, m1, m2)
    ensures SamePrefix(p, n, m0, m2)
  {
  }

  /** Whether reallocating block i to n payload bytes can be done where it is. */
  predicate StaysInPlace(bs: seq<Block>, i: nat, n: nat)
    requires i + 1 < |bs|
  {
    n <= bs[i].size - HDR
    || (!bs[i + 1].used && bs[i + 1].size - HDR + bs[i].size - HDR > n + MINIALLOC)
  }

  lemma RoundedTwice(n: nat)
    ensures Rounded(Rounded(n)) == Rounded(n)
  {
  }

  lemma StaysPut(p: nat, n: nat, m: map<nat, int>, m': map<nat, int>)
    requires SamePrefix(p, n, m, m')
    ensures Moved(p, p, n, m, m')
  {
  }

  lemma DifferentAddrs(bs: seq<Block>, h: nat, i: nat)
    requires Distinct(Addrs(bs)) && h < |bs| && i < |bs| && bs[h].used != bs[i].used
    ensures bs[h].addr != bs[i].addr
  {
    assert Addrs(bs)[h] != Addrs(bs)[i];
  }

  lemma SourceInPool(p: nat, n: nat, m0: map<nat, int>, m1: map<nat, int>)
    requires SamePrefix(p, n, m0, m1)
    ensures forall x: nat :: p <= x < p + n ==> x in m1
  {
  }

  /** A used block that was not touched can be found again. */
  lemma StillThere(bs: seq<Block>, m: map<nat, int>, bs': seq<Block>, m': map<nat, int>, a: nat, i: nat) returns (k: nat)
    requires OthersKept(bs, m, bs', m', a) && i < |bs| && bs[i].used && bs[i].addr != a
    ensures k < |bs'| && bs'[k] == bs[i]
  {
    assert bs[i] in bs;
    k :| 0 <= k < |bs'| && bs'[k] == bs[i];
  }

  lemma GrantedBlock(bs: seq<Block>, i: nat, n: nat)
    requires i < |bs| && Fits(bs[i], n)
    ensures var g := Granted(bs, i, n);
      && i < |g| && g[i].used && g[i].addr == bs[i].addr
      && HDR + n <= g[i].size < HDR + n + (HDR + MINIALLOC)
  {
  }

  lemma PayloadStays(bs: seq<Block>, m: map<nat, int>, bs': seq<Block>, m': map<nat, int>, a: nat, i: nat)
    requires OthersKept(bs, m, bs', m', a) && i < |bs| && bs[i].used && bs[i].addr != a && bs[i].size >= HDR
    requires forall x: nat :: InPayload(x, bs[i]) ==> x in m
    ensures SamePrefix(bs[i].addr + HDR, bs[i].size - HDR, m, m')
  {
    PrefixByOthers(bs, m, bs', m', a, i, bs[i].size - HDR);
  }

  /** A used block i and its payload are still there after block h was given out. */
  lemma SourceStays(bs: seq<Block>, m: map<nat, int>, bs': seq<Block>, m': map<nat, int>, h: nat, i: nat) returns (k: nat)
    requires h < |bs| && i < |bs| && bs[h].used != bs[i].used && bs[i].used && bs[i].size >= HDR && Distinct(Addrs(bs))
    requires OthersKept(bs, m, bs', m', bs[h].addr) && forall x: nat :: InPayload(x, bs[i]) ==> x in m
    ensures k < |bs'| && bs'[k] == bs[i] && bs[h].addr != bs[i].addr
    ensures SamePrefix(bs[i].addr + HDR, bs[i].size - HDR, m, m')
    ensures forall x: nat :: bs[i].addr + HDR <= x < bs[i].addr + bs[i].size ==> x in m'
  {
    hide OthersKept, Distinct, Addrs, InPayload;
    DifferentAddrs(bs, h, i);
    k := StillThere(bs, m, bs', m', bs[h].addr, i);
    PayloadStays(bs, m, bs', m', bs[h].addr, i);
    SourceInPool(bs[i].addr + HDR, bs[i].size - HDR, m, m');
  }

  lemma MovedAfter(p: nat, q: nat, n: nat, m0: map<nat, int>, m1: map<nat, int>, m2: map<nat, int>)
    requires SamePrefix(p, n, m0, m1) && Moved(p, q, n, m1, m2)
    ensures Moved(p, q, n, m0, m2)
  {
  }

  lemma MovedStays(p: nat, q: nat, n: nat, m0: map<nat, int>, m2: map<nat, int>, m3: map<nat, int>,
                   bs: seq<Block>, bs': seq<Block>, a: nat, h: nat)
    requires Moved(p, q, n, m0, m2) && OthersKept(bs, m2, bs', m3, a)
    requires h < |bs| && bs[h].used && bs[h].addr != a && q == bs[h].addr + HDR && n + HDR <= bs[h].size
    ensures Moved(p, q, n, m0, m3)
  {
    assert bs[h] in bs;
    forall x: nat | p <= x < p + n ensures Shift(x, p, q) in m3 && m3[Shift(x, p, q)] == m0[x] {
      assert InPayload(Shift(x, p, q), bs[h]);
    }
  }

  lemma PrefixByOthers(bs: seq<Block>, m: map<nat, int>, bs': seq<Block>, m': map<nat, int>, e: nat, i: nat, n: nat)
    requires OthersKept(bs, m, bs', m', e) && i < |bs| && bs[i].used && bs[i].addr != e && n + HDR <= bs[i].size
    requires forall x: nat :: InPayload(x, bs[i]) ==> x in m
    ensures SamePrefix(bs[i].addr + HDR, n, m, m')
  {
    assert bs[i] in bs;
    forall x: nat | bs[i].addr + HDR <= x < bs[i].addr + HDR + n ensures x in m && x in m' && m'[x] == m[x] {
      assert InPayload(x, bs[i]);
    }
  }

  lemma NothingDone(bs: seq<Block>, i: nat, n: nat, m: map<nat, int>)
    requires i < |bs| && n + HDR <= bs[i].size && forall x: nat :: InPayload(x, bs[i]) ==> x in m
    ensures OthersKept(bs, m, bs, m, bs[i].addr)
    ensures SamePrefix(bs[i].addr + HDR, n, m, m)
  {
    forall x: nat | bs[i].addr + HDR <= x < bs[i].addr + HDR + n ensures x in m { assert InPayload(x, bs[i]); }
  }

  lemma ShrunkBlock(bs: seq<Block>, i: nat, n: nat)
    requires i + 1 < |bs| && bs[i].used && HDR + n <= bs[i].size
    ensures i + 1 < |Shrunk(bs, i, n)| && Shrunk(bs, i, n)[i] == bs[i].(size := HDR + n)
  {
    ShortenPlaces(bs, i, HDR + n, 0);
    ShortenPlaces(bs, i, HDR + n, i);
  }

  lemma ShrunkShape(bs: seq<Block>, i: nat, n: nat)
    requires Sized(bs) && Coalesced(bs) && i + 1 < |bs| && bs[i].used && n % ALIGN == 0 && MINIALLOC <= n
    requires n + HDR + MINIALLOC < bs[i].size - HDR
    ensures Sized(Shrunk(bs, i, n)) && Coalesced(Shrunk(bs, i, n))
    ensures !bs[i + 1].used ==> i + 2 < |bs|
  {
    hide Shorten, Coalesced;
    var c := Shrunk(bs, i, n);
    assert !bs[i + 1].used ==> i + 2 < |bs|;
    ShortenPlaces(bs, i, HDR + n, 0);
    ShortenPlaces(bs, i, HDR + n, |c| - 1);
    forall k | 0 <= k < |c| ensures c[k].size % ALIGN == 0 && (k < |c| - 1 ==> c[k].size >= HDR + MINIALLOC) {
      ShortenPlaces(bs, i, HDR + n, k);
    }
    ShortenCoalesced(bs, i, HDR + n);
  }

  lemma ShrunkUnused(bs: seq<Block>, i: nat, n: nat, lo: nat, hi: nat)
    requires Tiles(bs, lo, hi, HDR) && Distinct(Addrs(bs)) && i + 1 < |bs| && bs[i].used
    requires n + HDR + HDR <= bs[i].size
    ensures UnusedSet(Shrunk(bs, i, n))
         == UnusedSet(bs) + {bs[i].addr + HDR + n} - (if bs[i + 1].used then {} else {bs[i + 1].addr})
    ensures bs[i].addr + HDR + n !in AddrSet(bs)
  {
    hide Tiles, Distinct, UnusedSet, AddrSet;
    var c := Cut(bs, i, HDR + n);
    PlaceApart(bs, i, HDR + n, lo, hi, hi);
    UnusedOfCut(bs, i, HDR + n);
    CutPlaces(bs, i, HDR + n, i + 1);
    CutPlaces(bs, i, HDR + n, i + 2);
    if !bs[i + 1].used {
      CutTiles(bs, i, HDR + n, lo, hi, HDR);
      HeadersSpaced(c, lo, hi, hi);
      UnusedOfJoin(c, i + 1);
    }
  }

  lemma PrefixBySame(bs: seq<Block>, i: nat, n: nat, m0: map<nat, int>, m: map<nat, int>, m': map<nat, int>)
    requires i < |bs| && HDR + n <= bs[i].size && PayloadsKept(bs, m, m')
    requires SamePrefix(bs[i].addr + HDR, n, m0, m)
    ensures SamePrefix(bs[i].addr + HDR, n, m0, m')
  {
    forall x: nat | bs[i].addr + HDR <= x < bs[i].addr + HDR + n ensures x in m' && x in m0 && m'[x] == m0[x] {
      assert InPayload(x, bs[i]);
    }
  }

  lemma IsElement(q: seq<nat>, a: nat)
    ensures a in Elements(q) <==> a in q
  {
  }

  lemma GrownSums(bs: seq<Block>, i: nat, n: nat)
    requires i + 1 < |bs| && bs[i].used && !bs[i + 1].used && HDR + n <= bs[i].size + bs[i + 1].size
    ensures FreePayload(Grown(bs, i, n), HDR) == FreePayload(bs, HDR) - (n - (bs[i].size - HDR))
  {
    JoinSums(bs, i, HDR);
    CutSums(Join(bs, i), i, HDR + n, HDR);
  }

  lemma GrownPlaces(bs: seq<Block>, i: nat, n: nat, k: nat)
    requires i + 1 < |bs| && HDR + n <= bs[i].size + bs[i + 1].size && k < |bs|
    ensures |Grown(bs, i, n)| == |bs|
    ensures Grown(bs, i, n)[k] ==
      if k == i then bs[i].(size := HDR + n)
      else if k == i + 1 then Block(bs[i].addr + HDR + n, bs[i].size + bs[i + 1].size - HDR - n, false)
      else bs[k]
  {
  }

  lemma GrownShape(bs: seq<Block>, i: nat, n: nat)
    requires Sized(bs) && Coalesced(bs) && i + 1 < |bs| && bs[i].used && !bs[i + 1].used && n % ALIGN == 0
    requires bs[i].size - HDR < n && n + MINIALLOC < bs[i].size + bs[i + 1].size - HDR - HDR
    ensures Sized(Grown(bs, i, n)) && Coalesced(Grown(bs, i, n)) && |bs| > 2
  {
    var c := Grown(bs, i, n);
    GrownPlaces(bs, i, n, |bs| - 1);
    forall k | 0 <= k < |c| ensures c[k].size % ALIGN == 0 && (k < |c| - 1 ==> c[k].size >= HDR + MINIALLOC) {
      GrownPlaces(bs, i, n, k);
    }
    forall k | 0 < k < |c| ensures c[k - 1].used || c[k].used {
      GrownPlaces(bs, i, n, k);
      GrownPlaces(bs, i, n, k - 1);
      assert bs[k - 1].used || bs[k].used;
    }
  }

  lemma GrownUnused(bs: seq<Block>, i: nat, n: nat, lo: nat, hi: nat)
    requires Tiles(bs, lo, hi, HDR) && Distinct(Addrs(bs)) && i + 1 < |bs| && bs[i].used && !bs[i + 1].used
    requires HDR + n < bs[i].size + bs[i + 1].size
    ensures UnusedSet(Grown(bs, i, n)) == UnusedSet(bs) - {bs[i + 1].addr} + {bs[i].addr + HDR + n}
    ensures bs[i].addr + HDR + n !in AddrSet(Join(bs, i))
  {
    hide Tiles, Distinct, UnusedSet, AddrSet;
    JoinTiles(bs, i, lo, hi, HDR);
    UnusedOfJoin(bs, i);
    UnusedOfCut(Join(bs, i), i, HDR + n);
    PlaceApart(Join(bs, i), i, HDR + n, lo, hi, hi);
  }

  lemma HasAddr(bs: seq<Block>, k: nat)
    requires k < |bs|
    ensures bs[k].addr in AddrSet(bs)
  {
  }

  /** The exempted block b is not in use, so nothing is exempt. */
  lemma KeptElsewhere(bs: seq<Block>, m: map<nat, int>, bs': seq<Block>, m': map<nat, int>, b: nat, a: nat, k: nat)
    requires OthersKept(bs, m, bs', m', b) && k < |bs| && bs[k].addr == b && !bs[k].used && Distinct(Addrs(bs))
    ensures OthersKept(bs, m, bs', m', a)
  {
    forall x | x in bs && x.used ensures x.addr != b {
      var h :| 0 <= h < |bs| && bs[h] == x;
      assert Addrs(bs)[h] != Addrs(bs)[k];
    }
  }

  lemma JoinSized(bs: seq<Block>, i: nat)
    requires Sized(bs) && i + 1 < |bs| && !bs[i + 1].used
    ensures Sized(Join(bs, i)) && i + 2 < |bs|
  {
    assert i + 2 < |bs|;
    var c := Join(bs, i);
    forall k | 0 <= k < |c| ensures c[k].size % ALIGN == 0 && (k < |c| - 1 ==> c[k].size >= HDR + MINIALLOC) {
      if k < i { assert c[k] == bs[k]; } else if k > i { assert c[k] == bs[k + 1]; }
    }
    assert c[|c| - 1] == bs[|bs| - 1];
  }
}
