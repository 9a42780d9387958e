/** mem.c: rt_system_heap_init, plug_holes, rt_malloc, rt_realloc and rt_free. */
module SmallHeap {
  import opened Tiling

  const ALIGN := 4
  const HDR := 12       // SIZEOF_STRUCT_MEM
  const MIN_SIZE := 12  // MIN_SIZE_ALIGNED
  const NULL := 0

  /** The heap as a value.  Addresses are offsets from `heap_ptr`; `size` is `mem_size_aligned`, and the
      sentinel `heap_end` stands right behind the blocks. */
  datatype Pool = Pool(blocks: seq<Block>, lfree: nat, used: int, peak: int, size: nat)

  function HeapEnd(s: Pool): nat { s.size + HDR }

  function Aligned(n: nat): nat { (n + ALIGN - 1) / ALIGN * ALIGN }

  /** What rt_malloc really looks for. */
  function Wanted(n: nat): (r: nat)
    ensures r >= n && r >= MIN_SIZE && r % ALIGN == 0
  {
    if Aligned(n) < MIN_SIZE then MIN_SIZE else Aligned(n)
  }

  predicate AllAligned(bs: seq<Block>) { forall i :: 0 <= i < |bs| ==> bs[i].size % ALIGN == 0 }

  predicate FreeBlockAt(bs: seq<Block>, a: nat) { exists k :: 0 <= k < |bs| && bs[k].addr == a && !bs[k].used }

  ghost predicate Good(s: Pool) {
    && s.size >= MIN_SIZE
    && Tiles(s.blocks, 0, HeapEnd(s), HDR + ALIGN) && Coalesced(s.blocks) && AllAligned(s.blocks)
    && s.used == UsedSpan(s.blocks) && s.used <= s.peak
    && (s.lfree == HeapEnd(s) || FreeBlockAt(s.blocks, s.lfree))
  }

  /** `lfree` is not above a free block. */
  predicate LowUsed(s: Pool) {
    forall k :: 0 <= k < |s.blocks| && s.blocks[k].addr < s.lfree ==> s.blocks[k].used
  }

  function Initial(size: nat): Pool { Pool([Block(0, size + HDR, false)], 0, 0, 0, size) }

  // ---------------------------------------------------------------- the search

  /** A block the search loop stops at, when it starts at lo. */
  predicate Usable(b: Block, lo: nat, n: nat, size: nat) {
    !b.used && b.size >= HDR + n && lo <= b.addr && b.addr + n < size
  }

  /** The first usable block from index k on, or |bs|. */
  function Find(bs: seq<Block>, lo: nat, n: nat, size: nat, k: nat): (r: nat)
    requires k <= |bs|
    ensures k <= r <= |bs| && (r < |bs| ==> Usable(bs[r], lo, n, size))
    ensures forall j :: k <= j < r ==> !Usable(bs[j], lo, n, size)
    decreases |bs| - k
  {
    if k == |bs| || Usable(bs[k], lo, n, size) then k else Find(bs, lo, n, size, k + 1)
  }

  /** The address of the first free block from index k on, or the end of the heap. */
  function LowestFree(bs: seq<Block>, k: nat, end: nat): (r: nat)
    requires k <= |bs|
    ensures r == end || exists j :: k <= j < |bs| && bs[j].addr == r && !bs[j].used && forall h :: k <= h < j ==> bs[h].used
    ensures r == end ==> (forall h :: k <= h < |bs| ==> bs[h].used) || FreeBlockAt(bs, r)
    decreases |bs| - k
  {
    if k == |bs| then end else if !bs[k].used then bs[k].addr else LowestFree(bs, k + 1, end)
  }

  // ---------------------------------------------------------------- the operations

  function Max(a: int, b: int): int { if a < b then b else a }

  /** Whether granting n bytes of a block leaves a block of its own behind. */
  predicate Splits(b: Block, n: nat) { b.size >= HDR + n + (HDR + MIN_SIZE) }

  function Grant(s: Pool, i: nat, n: nat): (r: Pool)
    requires i < |s.blocks| && HDR + n <= s.blocks[i].size
    ensures |r.blocks| == |s.blocks| + if Splits(s.blocks[i], n) then 1 else 0
  {
    var bs := Take(s.blocks, i, HDR + n, HDR + MIN_SIZE);
    s.(blocks := bs,
       lfree := if s.blocks[i].addr == s.lfree then LowestFree(bs, i, HeapEnd(s)) else s.lfree,
       used := s.used + bs[i].size, peak := Max(s.peak, s.used + bs[i].size))
  }

  /** rt_malloc */
  function Malloc(s: Pool, n: nat): (Pool, nat) {
    var i := Find(s.blocks, s.lfree, Wanted(n), s.size, 0);
    if n == 0 || Aligned(n) > s.size || i == |s.blocks| then (s, NULL)
    else (Grant(s, i, Wanted(n)), s.blocks[i].addr + HDR)
  }

  /** rt_free of block i */
  function Free(s: Pool, i: nat): Pool
    requires i < |s.blocks|
  {
    s.(blocks := Release(s.blocks, i), used := s.used - s.blocks[i].size,
       lfree := if s.blocks[i].addr < s.lfree then Merged(s.blocks, i).addr else s.lfree)
  }

  /** The in-place branch of rt_realloc: block i is cut, what is cut off merges to the right. */
  function Shrink(s: Pool, i: nat, n: nat): Pool
    requires i < |s.blocks| && HDR + n <= s.blocks[i].size
  {
    var b := s.blocks[i];
    s.(blocks := Shorten(s.blocks, i, HDR + n), used := s.used - (b.size - HDR - n),
       lfree := if s.lfree == b.addr + b.size && s.lfree != HeapEnd(s) then b.addr + HDR + n else s.lfree)
  }

  predicate ShrinksInPlace(b: Block, n: nat) { n + HDR + MIN_SIZE < b.size - HDR }

  /** Where block i stands after block h was granted. */
  function NewIndex(s: Pool, i: nat, h: nat, n: nat): nat
    requires h < |s.blocks|
  {
    if h < i && Splits(s.blocks[h], n) then i + 1 else i
  }

  /** rt_realloc of block i */
  function Realloc(s: Pool, i: nat, newsize: nat): (Pool, nat)
    requires i < |s.blocks| && s.blocks[i].size >= HDR
  {
    var n, p := Aligned(newsize), s.blocks[i].addr + HDR;
    if n > s.size then (s, NULL)
    else if n == 0 then (Free(s, i), NULL)
    else if s.blocks[i].size == HDR + n then (s, p)
    else if ShrinksInPlace(s.blocks[i], n) then (Shrink(s, i, n), p)
    else
      var (s', q) := Malloc(s, n);
      var h := Find(s.blocks, s.lfree, Wanted(n), s.size, 0);
      if q == NULL then (s, NULL)
      else (Free(s', NewIndex(s, i, h, Wanted(n))), q)
  }

  // ---------------------------------------------------------------- every operation keeps the heap good

  lemma GrantSums(s: Pool, i: nat, n: nat)
    requires i < |s.blocks| && !s.blocks[i].used && HDR + n <= s.blocks[i].size
    ensures UsedSpan(Grant(s, i, n).blocks) == UsedSpan(s.blocks) + Grant(s, i, n).blocks[i].size
  {
    if Splits(s.blocks[i], n) {
      CutSums(s.blocks, i, HDR + n, HDR);
      SetUsedSums(Cut(s.blocks, i, HDR + n), i, true, HDR);
    } else {
      SetUsedSums(s.blocks, i, true, HDR);
    }
  }

  /** Granting a block, place by place. */
  lemma GrantPlaces(s: Pool, i: nat, n: nat, k: nat)
    requires i < |s.blocks| && HDR + n <= s.blocks[i].size && k < |Grant(s, i, n).blocks|
    ensures var g, b := Grant(s, i, n).blocks, s.blocks[i];
      && (k < i ==> g[k] == s.blocks[k])
      && (k == i ==> g[k] == Block(b.addr, if Splits(b, n) then HDR + n else b.size, true))
      && (k == i + 1 && Splits(b, n) ==> g[k] == Block(b.addr + HDR + n, b.size - HDR - n, false))
      && (k > i && !Splits(b, n) ==> g[k] == s.blocks[k])
      && (k > i + 1 && Splits(b, n) ==> g[k] == s.blocks[k - 1])
  {
    if Splits(s.blocks[i], n) { SplitPlaces(s.blocks, i, HDR + n, k); }
  }

  lemma GrantShape(s: Pool, i: nat, n: nat)
    requires Good(s) && i < |s.blocks| && !s.blocks[i].used && HDR + n <= s.blocks[i].size
    requires MIN_SIZE <= n && n % ALIGN == 0
    ensures var g := Grant(s, i, n).blocks; Tiles(g, 0, HeapEnd(s), HDR + ALIGN) && Coalesced(g)
  {
    hide UsedSpan, FreeBlockAt, Tiles, Coalesced, AllAligned, Aligned, LowestFree;
    var b := s.blocks;
    NoFreeNeighbours(b, i);
    if Splits(b[i], n) {
      var c := Cut(b, i, HDR + n);
      CutTiles(b, i, HDR + n, 0, HeapEnd(s), HDR + ALIGN);
      SetUsedTiles(c, i, true, 0, HeapEnd(s), HDR + ALIGN);
      SplitCoalesced(b, i, HDR + n);
    } else {
      SetUsedTiles(b, i, true, 0, HeapEnd(s), HDR + ALIGN);
      MarkCoalesced(b, i);
    }
  }

  lemma GrantAligned(s: Pool, i: nat, n: nat)
    requires AllAligned(s.blocks) && i < |s.blocks| && HDR + n <= s.blocks[i].size && n % ALIGN == 0
    ensures AllAligned(Grant(s, i, n).blocks)
  {
    hide Grant, Aligned;
    var g := Grant(s, i, n).blocks;
    forall k | 0 <= k < |g| ensures g[k].size % ALIGN == 0 { GrantPlaces(s, i, n, k); }
  }

  lemma GrantLfree(s: Pool, i: nat, n: nat)
    requires Good(s) && i < |s.blocks| && !s.blocks[i].used && HDR + n <= s.blocks[i].size
    ensures var r := Grant(s, i, n); r.lfree == HeapEnd(s) || FreeBlockAt(r.blocks, r.lfree)
  {
    hide Tiles, Coalesced, AllAligned, UsedSpan, Aligned, Take;
    if s.lfree != HeapEnd(s) && s.lfree != s.blocks[i].addr {
      var k :| 0 <= k < |s.blocks| && s.blocks[k].addr == s.lfree && !s.blocks[k].used;
      GrantPlaces(s, i, n, if k > i && Splits(s.blocks[i], n) then k + 1 else k);
    }
  }

  lemma GrantGood(s: Pool, i: nat, n: nat)
    requires Good(s) && i < |s.blocks| && !s.blocks[i].used && HDR + n <= s.blocks[i].size
    requires MIN_SIZE <= n && n % ALIGN == 0
    ensures Good(Grant(s, i, n))
  {
    GrantSums(s, i, n);
    GrantShape(s, i, n);
    GrantAligned(s, i, n);
    GrantLfree(s, i, n);
  }

  lemma FreeGood(s: Pool, i: nat)
    requires Good(s) && i < |s.blocks| && s.blocks[i].used
    ensures Good(Free(s, i))
  {
    hide Tiles, Coalesced, AllAligned, Release, UsedSpan, Coalesce, FreeBlockAt, Aligned;
    var bs, r := s.blocks, Free(s, i);
    ReleaseIsCoalesce(bs, i);
    ReleaseTiles(bs, i, 0, HeapEnd(s), HDR + ALIGN);
    ReleaseSums(bs, i);
    FreeAligned(bs, i);
    FreeLfree(s, i);
  }

  lemma MergedAligned(bs: seq<Block>, i: nat)
    requires AllAligned(bs) && i < |bs|
    ensures Merged(bs, i).size % ALIGN == 0
  {
    hide Aligned;
  }

  lemma FreeAligned(bs: seq<Block>, i: nat)
    requires AllAligned(bs) && i < |bs|
    ensures AllAligned(Release(bs, i))
  {
    hide Release, Merged, Aligned;
    ReleasePlaces(bs, i, 0);
    MergedAligned(bs, i);
    forall k | 0 <= k < |Release(bs, i)| ensures Release(bs, i)[k].size % ALIGN == 0 { ReleasePlaces(bs, i, k); }
  }

  lemma FreeLfree(s: Pool, i: nat)
    requires Good(s) && i < |s.blocks| && s.blocks[i].used
    ensures var r := Free(s, i); r.lfree == HeapEnd(r) || FreeBlockAt(r.blocks, r.lfree)
  {
    hide Release, Coalesced, AllAligned, UsedSpan;
    var bs, r := s.blocks, Free(s, i);
    Apart(bs, 0, HeapEnd(s), HDR);
    ReleasePlaces(bs, i, Left(bs, i));
    if bs[i].addr >= s.lfree && s.lfree != HeapEnd(s) {
      var k :| 0 <= k < |bs| && bs[k].addr == s.lfree && !bs[k].used;
      assert k < i;
      ReleasePlaces(bs, i, k);
    }
  }

  lemma ShrinkGood(s: Pool, i: nat, n: nat)
    requires Good(s) && i < |s.blocks| && s.blocks[i].used && ALIGN <= n && n % ALIGN == 0
    requires ShrinksInPlace(s.blocks[i], n)
    ensures Good(Shrink(s, i, n))
  {
    hide Shorten, Tiles, Coalesced, UsedSpan, Aligned, FreeBlockAt;
    var bs := s.blocks;
    ShortenTiles(bs, i, HDR + n, 0, HeapEnd(s), HDR + ALIGN);
    ShortenCoalesced(bs, i, HDR + n);
    ShortenSums(bs, i, HDR + n, HDR);
    ShrinkAligned(bs, i, HDR + n);
    ShrinkLfree(s, i, n);
  }

  lemma ShrinkAligned(bs: seq<Block>, i: nat, n: nat)
    requires AllAligned(bs) && i < |bs| && bs[i].used && n <= bs[i].size && n % ALIGN == 0
    ensures AllAligned(Shorten(bs, i, n))
  {
    hide Shorten;
    ShortenPlaces(bs, i, n, 0);
    forall k | 0 <= k < |Shorten(bs, i, n)| ensures Shorten(bs, i, n)[k].size % ALIGN == 0 { ShortenPlaces(bs, i, n, k); }
  }

  lemma ShrinkLfree(s: Pool, i: nat, n: nat)
    requires Good(s) && i < |s.blocks| && s.blocks[i].used && HDR + n <= s.blocks[i].size
    ensures var r := Shrink(s, i, n); r.lfree == HeapEnd(r) || FreeBlockAt(r.blocks, r.lfree)
  {
    hide Shorten, Coalesced, AllAligned, UsedSpan, Aligned, Tiles;
    var bs, r := s.blocks, Shrink(s, i, n);
    if s.lfree != HeapEnd(s) {
      var k :| 0 <= k < |bs| && bs[k].addr == s.lfree && !bs[k].used;
      Behind(bs, 0, HeapEnd(s), HDR + ALIGN, i, k);
      ShortenPlaces(bs, i, HDR + n, if k <= i + 1 || FreeAt(bs, i + 1) then k else k + 1);
    }
  }

  lemma MallocGood(s: Pool, n: nat)
    requires Good(s)
    ensures Good(Malloc(s, n).0)
  {
    var i := Find(s.blocks, s.lfree, Wanted(n), s.size, 0);
    hide Good, Grant, Aligned;
    if n != 0 && Aligned(n) <= s.size && i < |s.blocks| { GrantGood(s, i, Wanted(n)); }
  }

  /** A moved block is still block i: its memory was not touched by the allocation. */
  lemma MovedBlock(s: Pool, i: nat, h: nat, n: nat)
    requires i < |s.blocks| && h < |s.blocks| && s.blocks[i].used && !s.blocks[h].used && HDR + n <= s.blocks[h].size
    ensures NewIndex(s, i, h, n) < |Grant(s, h, n).blocks|
    ensures Grant(s, h, n).blocks[NewIndex(s, i, h, n)] == s.blocks[i]
  {
    GrantPlaces(s, h, n, NewIndex(s, i, h, n));
  }

  /** The moving branch: the block that was granted is good, and so is the heap once the old block is freed. */
  lemma MoveGood(s: Pool, i: nat, m: nat)
    requires Good(s) && i < |s.blocks| && s.blocks[i].used && Malloc(s, m).1 != NULL
    ensures var h := Find(s.blocks, s.lfree, Wanted(m), s.size, 0);
      h < |s.blocks| && NewIndex(s, i, h, Wanted(m)) < |Malloc(s, m).0.blocks| && Good(Free(Malloc(s, m).0, NewIndex(s, i, h, Wanted(m))))
  {
    var h := Find(s.blocks, s.lfree, Wanted(m), s.size, 0);
    hide Good, Aligned, Grant, Free;
    MallocGood(s, m);
    MovedBlock(s, i, h, Wanted(m));
    FreeGood(Malloc(s, m).0, NewIndex(s, i, h, Wanted(m)));
  }

  lemma ReallocGood(s: Pool, i: nat, n: nat)
    requires Good(s) && i < |s.blocks| && s.blocks[i].used
    ensures Good(Realloc(s, i, n).0)
  {
    var m := Aligned(n);
    assert m % ALIGN == 0 && (m != 0 ==> ALIGN <= m);
    hide Good, Aligned, Shrink, Grant, Free, Malloc, NewIndex;
    if m == 0 { FreeGood(s, i); }
    else if ShrinksInPlace(s.blocks[i], m) { ShrinkGood(s, i, m); }
    if Malloc(s, m).1 != NULL { MoveGood(s, i, m); }
  }

  /** rt_free undoes rt_malloc: blocks, lowest-free pointer and usage are all back. */
  lemma FreeUndoesMalloc(s: Pool, n: nat)
    requires Good(s) && Malloc(s, n).1 != NULL
    ensures var i := Find(s.blocks, s.lfree, Wanted(n), s.size, 0);
      var r := Malloc(s, n).0;
      i < |r.blocks| && r.blocks[i].used && Malloc(s, n).1 == r.blocks[i].addr + HDR && Free(r, i) == s.(peak := r.peak)
  {
    hide Aligned, UsedSpan, AllAligned, Release, LowestFree;
    var i := Find(s.blocks, s.lfree, Wanted(n), s.size, 0);
    var r := Malloc(s, n).0;
    GrantPlaces(s, i, Wanted(n), i);
    ReleaseUndoesTake(s.blocks, i, HDR + Wanted(n), HDR + MIN_SIZE);
    NoFreeNeighbours(s.blocks, i);
    if i > 0 { GrantPlaces(s, i, Wanted(n), i - 1); }
    LfreePassed(s, i, Wanted(n));
  }

  /** The lowest-free pointer leaves the block that was granted behind. */
  lemma LfreePassed(s: Pool, i: nat, n: nat)
    requires Good(s) && i < |s.blocks| && !s.blocks[i].used && HDR + n <= s.blocks[i].size
    requires MIN_SIZE <= n && n % ALIGN == 0
    ensures s.blocks[i].addr == s.lfree ==> Grant(s, i, n).lfree > s.lfree
  {
    var g := Grant(s, i, n).blocks;
    GrantShape(s, i, n);
    GrantPlaces(s, i, n, i);
    hide Take, Coalesced, AllAligned, UsedSpan, Aligned, Tiles;
    var f := LowestFree(g, i, HeapEnd(s));
    if f != HeapEnd(s) {
      var j :| i <= j < |g| && g[j].addr == f && !g[j].used;
      Behind(g, 0, HeapEnd(s), HDR + ALIGN, j, i);
    } else {
      Behind(g, 0, HeapEnd(s), HDR + ALIGN, i, i);
    }
  }

  // ---------------------------------------------------------------- what a caller gets

  /** The used blocks are the same, but perhaps for one at address a. */
  ghost predicate SameUsed(bs: seq<Block>, bs': seq<Block>, a: nat) {
    forall b: Block :: b.used && b.addr != a ==> (b in bs <==> b in bs')
  }

  /** Block g was made of the free block f; it has room for n bytes, and less to spare than makes a block; what was cut off
      does make one. */
  predicate MadeOf(f: Block, g: Block, a: nat, n: nat) {
    && !f.used && g.used && f.addr == g.addr == a && HDR + n <= g.size < HDR + Wanted(n) + HDR + MIN_SIZE
    && (g.size == f.size || (g.size == HDR + Wanted(n) && f.size >= g.size + HDR + MIN_SIZE))
  }

  ghost predicate GotBlock(bs: seq<Block>, bs': seq<Block>, a: nat, n: nat) {
    exists f, g :: f in bs && g in bs' && MadeOf(f, g, a, n)
  }

  /** rt_malloc changes nothing, or turns (the front of) a free block into a used one that is large enough. */
  lemma MallocPromise(s: Pool, n: nat)
    requires Good(s)
    ensures var (r, p) := Malloc(s, n);
      if p == NULL then r == s
      else p >= HDR && GotBlock(s.blocks, r.blocks, p - HDR, n) && SameUsed(s.blocks, r.blocks, p - HDR)
  {
    var (r, p) := Malloc(s, n);
    if p != NULL {
      hide Good, Aligned, LowestFree, UsedSpan;
      var i, m := Find(s.blocks, s.lfree, Wanted(n), s.size, 0), Wanted(n);
      GrantPlaces(s, i, m, i);
      assert MadeOf(s.blocks[i], r.blocks[i], p - HDR, n);
      GrantOthers(s, i, m);
    }
  }

  lemma GrantOthers(s: Pool, i: nat, n: nat)
    requires i < |s.blocks| && !s.blocks[i].used && HDR + n <= s.blocks[i].size
    ensures SameUsed(s.blocks, Grant(s, i, n).blocks, s.blocks[i].addr)
  {
    hide Grant;
    var bs, g := s.blocks, Grant(s, i, n).blocks;
    forall b: Block | b.used && b.addr != bs[i].addr ensures b in bs <==> b in g {
      if b in bs {
        var k :| 0 <= k < |bs| && bs[k] == b;
        GrantPlaces(s, i, n, if k > i && Splits(bs[i], n) then k + 1 else k);
      }
      if b in g {
        var k :| 0 <= k < |g| && g[k] == b;
        GrantPlaces(s, i, n, k);
      }
    }
  }

  /** rt_free gives up that block and no other. */
  lemma FreePromise(s: Pool, i: nat)
    requires Good(s) && i < |s.blocks| && s.blocks[i].used
    ensures SameUsed(s.blocks, Free(s, i).blocks, s.blocks[i].addr) && Vacated(Free(s, i).blocks, s.blocks[i].addr)
  {
    hide Good, Release;
    AddrsDiffer(s);
    ReleaseKeepsUsed(s.blocks, i);
    ReleaseAddsNone(s.blocks, i);
  }

  predicate AddrOnce(bs: seq<Block>, i: nat)
    requires i < |bs|
  {
    forall k :: 0 <= k < |bs| && k != i ==> bs[k].addr != bs[i].addr
  }

  lemma ReleaseKeepsUsed(bs: seq<Block>, i: nat)
    requires i < |bs|
    ensures forall b :: b in bs && b.used && b.addr != bs[i].addr ==> b in Release(bs, i)
  {
    hide Release, Merged;
    forall b | b in bs && b.used && b.addr != bs[i].addr ensures b in Release(bs, i) {
      var k :| 0 <= k < |bs| && bs[k] == b;
      ReleasePlaces(bs, i, if k < i then k else k - Swallowed(bs, i));
    }
  }

  lemma ReleaseAddsNone(bs: seq<Block>, i: nat)
    requires i < |bs| && AddrOnce(bs, i)
    ensures forall b :: b in Release(bs, i) && b.used ==> b in bs && b.addr != bs[i].addr
  {
    hide Release, Merged;
    MergedFree(bs, i);
    forall b | b in Release(bs, i) && b.used ensures b in bs && b.addr != bs[i].addr {
      var k :| 0 <= k < |Release(bs, i)| && Release(bs, i)[k] == b;
      ReleasePlaces(bs, i, k);
    }
  }

  lemma MergedFree(bs: seq<Block>, i: nat)
    requires i < |bs|
    ensures !Merged(bs, i).used
  {
  }

  /** Where rt_realloc leaves its block: used, at address a, with room for n bytes. */
  ghost predicate HasRoom(bs: seq<Block>, a: nat, n: nat) {
    exists g :: g in bs && g.used && g.addr == a && HDR + n <= g.size
  }

  ghost predicate Vacated(bs: seq<Block>, a: nat) { forall b :: b in bs && b.used ==> b.addr != a }

  /** rt_realloc to a size other than 0 changes nothing and returns NULL, or leaves a block with room for it, in the old
      place or in a place that was free, and then the old block is given up.  No other block is concerned. */
  lemma ReallocPromise(s: Pool, i: nat, n: nat)
    requires Good(s) && i < |s.blocks| && s.blocks[i].used && n > 0
    ensures var ((r, q), a) := (Realloc(s, i, n), s.blocks[i].addr);
      && (q == NULL ==> r == s)
      && (q != NULL ==> q >= HDR && HasRoom(r.blocks, q - HDR, n))
      && (q != NULL && q - HDR != a ==> Vacated(s.blocks, q - HDR) && Vacated(r.blocks, a))
      && (forall b: Block :: b.used && b.addr != a && b.addr != q - HDR ==> (b in s.blocks <==> b in r.blocks))
  {
    var m := Aligned(n);
    assert m >= n && m % ALIGN == 0 && m > 0;
    hide Good, Aligned, Shrink, Grant, Free, Malloc, NewIndex, HasRoom, Vacated, Wanted;
    if m > s.size {
    } else if s.blocks[i].size == HDR + m {
      assert HasRoom(s.blocks, s.blocks[i].addr, n) by { RoomAt(s.blocks, i, n); }
    } else if ShrinksInPlace(s.blocks[i], m) {
      ShrinkPromise(s, i, m);
      RoomAt(Shrink(s, i, m).blocks, i, n);
    } else if Malloc(s, m).1 != NULL {
      MovePromise(s, i, m);
    }
  }

  lemma RoomAt(bs: seq<Block>, i: nat, n: nat)
    requires i < |bs| && bs[i].used && HDR + n <= bs[i].size
    ensures HasRoom(bs, bs[i].addr, n)
  {
  }

  lemma ShrinkPromise(s: Pool, i: nat, n: nat)
    requires i < |s.blocks| && s.blocks[i].used && HDR + n <= s.blocks[i].size
    ensures var r := Shrink(s, i, n).blocks; i < |r| && r[i] == s.blocks[i].(size := HDR + n) && SameUsed(s.blocks, r, s.blocks[i].addr)
  {
    hide Shorten, CutOff;
    var bs, r := s.blocks, Shrink(s, i, n).blocks;
    ShortenPlaces(bs, i, HDR + n, i);
    forall b: Block | b.used && b.addr != bs[i].addr ensures b in bs <==> b in r {
      if b in bs {
        var k :| 0 <= k < |bs| && bs[k] == b;
        ShortenPlaces(bs, i, HDR + n, if k < i || FreeAt(bs, i + 1) then k else k + 1);
      }
      if b in r {
        var k :| 0 <= k < |r| && r[k] == b;
        ShortenPlaces(bs, i, HDR + n, k);
        CutOffFree(bs, i, HDR + n);
      }
    }
  }

  lemma CutOffFree(bs: seq<Block>, i: nat, n: nat)
    requires i < |bs| && n <= bs[i].size
    ensures !CutOff(bs, i, n).used
  {
  }

  lemma MallocFound(s: Pool, m: nat)
    requires Malloc(s, m).1 != NULL
    ensures var h := Find(s.blocks, s.lfree, Wanted(m), s.size, 0);
      && h < |s.blocks| && !s.blocks[h].used && HDR + Wanted(m) <= s.blocks[h].size
      && Malloc(s, m).0 == Grant(s, h, Wanted(m))
  {
    hide Grant, Wanted;
  }

  lemma MovePromise(s: Pool, i: nat, m: nat)
    requires Good(s) && i < |s.blocks| && s.blocks[i].used && Malloc(s, m).1 != NULL
    ensures var h := Find(s.blocks, s.lfree, Wanted(m), s.size, 0);
      && h < |s.blocks| && NewIndex(s, i, h, Wanted(m)) < |Malloc(s, m).0.blocks|
      && TradedFor(s, Free(Malloc(s, m).0, NewIndex(s, i, h, Wanted(m))), s.blocks[i].addr, Malloc(s, m).1, m)
  {
    hide Good, Aligned, Grant, Free, Wanted, GotBlock, SameUsed, HasRoom, Vacated, Malloc, NewIndex, Find, TradedFor, Splits;
    var h := Find(s.blocks, s.lfree, Wanted(m), s.size, 0);
    MallocGood(s, m);
    MallocPromise(s, m);
    MallocFound(s, m);
    MovedBlock(s, i, h, Wanted(m));
    var s1, j := Malloc(s, m).0, NewIndex(s, i, h, Wanted(m));
    FreePromise(s1, j);
    Chained(s, s1, Free(s1, j), i, Malloc(s, m).1, m);
  }

  /** The block at a is gone, and there is one for n bytes at q instead. */
  ghost predicate TradedFor(s: Pool, r: Pool, a: nat, q: nat, n: nat) {
    && q >= HDR && q - HDR != a && HasRoom(r.blocks, q - HDR, n) && GotBlock(s.blocks, r.blocks, q - HDR, n) && Vacated(s.blocks, q - HDR) && Vacated(r.blocks, a)
    && forall b: Block :: b.used && b.addr != a && b.addr != q - HDR ==> (b in s.blocks <==> b in r.blocks)
  }

  lemma AddrsDiffer(s: Pool)
    requires Good(s)
    ensures forall k :: 0 <= k < |s.blocks| ==> AddrOnce(s.blocks, k)
  {
    Apart(s.blocks, 0, HeapEnd(s), HDR);
  }

  /** A grant at q followed by freeing the old block i. */
  lemma Chained(s: Pool, s1: Pool, r: Pool, i: nat, q: nat, m: nat)
    requires Good(s) && i < |s.blocks| && s.blocks[i].used && q >= HDR
    requires GotBlock(s.blocks, s1.blocks, q - HDR, m) && SameUsed(s.blocks, s1.blocks, q - HDR)
    requires SameUsed(s1.blocks, r.blocks, s.blocks[i].addr) && Vacated(r.blocks, s.blocks[i].addr)
    ensures TradedFor(s, r, s.blocks[i].addr, q, m)
  {
    hide Good, Wanted, Aligned;
    AddrsDiffer(s);
    var f, g :| f in s.blocks && g in s1.blocks && MadeOf(f, g, q - HDR, m);
    var k :| 0 <= k < |s.blocks| && s.blocks[k] == f;
    assert AddrOnce(s.blocks, k);
    assert g in r.blocks;
  }

  // ---------------------------------------------------------------- the lowest-free pointer

  /** The strict bound of the search misses exactly one kind of block: the last one, when it fits exactly. */
  lemma BoundMissesOnlyExactEnd(s: Pool, i: nat, n: nat)
    requires Good(s) && i < |s.blocks| && s.blocks[i].size >= HDR + n
    ensures s.blocks[i].addr + n < s.size <==> !(i + 1 == |s.blocks| && s.blocks[i].size == HDR + n)
  {
    hide Coalesced, AllAligned, UsedSpan, FreeBlockAt, Tiles;
    Behind(s.blocks, 0, HeapEnd(s), HDR + ALIGN, i, i);
    if i + 1 < |s.blocks| {
      Behind(s.blocks, 0, HeapEnd(s), HDR + ALIGN, i, i + 1);
      Apart(s.blocks, 0, HeapEnd(s), HDR + ALIGN);
    }
  }

  lemma GrantLow(s: Pool, i: nat, n: nat)
    requires Good(s) && LowUsed(s) && i < |s.blocks| && !s.blocks[i].used && HDR + n <= s.blocks[i].size
    requires MIN_SIZE <= n && n % ALIGN == 0
    ensures LowUsed(Grant(s, i, n))
  {
    var g, r := Grant(s, i, n).blocks, Grant(s, i, n);
    GrantShape(s, i, n);
    hide Take, Coalesced, AllAligned, UsedSpan, Aligned, Tiles;
    forall k | 0 <= k < |g| && g[k].addr < r.lfree ensures g[k].used {
      GrantPlaces(s, i, n, i);
      GrantPlaces(s, i, n, k);
      Behind(g, 0, HeapEnd(s), HDR + ALIGN, i, k);
      if k > i {
        assert s.blocks[i].addr == s.lfree;
        LowestFreeAbove(g, i, HeapEnd(s), k);
      }
    }
  }

  lemma LowestFreeAbove(bs: seq<Block>, i: nat, end: nat, k: nat)
    requires Tiles(bs, 0, end, HDR + ALIGN) && i <= k < |bs| && bs[k].addr < LowestFree(bs, i, end)
    ensures bs[k].used
  {
    var f := LowestFree(bs, i, end);
    hide Tiles;
    if f != end {
      var j :| i <= j < |bs| && bs[j].addr == f && !bs[j].used && forall h :: i <= h < j ==> bs[h].used;
      Behind(bs, 0, end, HDR + ALIGN, j, k);
    } else {
      EndIsNoBlock(bs, end);
    }
  }

  lemma EndIsNoBlock(bs: seq<Block>, end: nat)
    requires Tiles(bs, 0, end, HDR + ALIGN)
    ensures !FreeBlockAt(bs, end)
  {
    Apart(bs, 0, end, HDR + ALIGN);
  }

  lemma FreeLow(s: Pool, i: nat)
    requires Good(s) && LowUsed(s) && i < |s.blocks| && s.blocks[i].used
    ensures LowUsed(Free(s, i))
  {
    var r := Free(s, i);
    var g := r.blocks;
    ReleaseTiles(s.blocks, i, 0, HeapEnd(s), HDR + ALIGN);
    hide Release, Coalesced, AllAligned, UsedSpan, Aligned, Tiles;
    forall k | 0 <= k < |g| && g[k].addr < r.lfree ensures g[k].used {
      ReleasePlaces(s.blocks, i, k);
      ReleasePlaces(s.blocks, i, Left(s.blocks, i));
      Behind(g, 0, HeapEnd(s), HDR + ALIGN, Left(s.blocks, i), k);
      if i > 0 { Behind(s.blocks, 0, HeapEnd(s), HDR + ALIGN, i, i - 1); }
    }
  }

  /** The two cases in which `lfree` needs no lowering when block b is cut. */
  predicate CutSeen(s: Pool, b: Block) {
    s.lfree < b.addr || (s.lfree == b.addr + b.size && s.lfree != HeapEnd(s))
  }

  lemma ShrinkSeen(s: Pool, i: nat, n: nat)
    requires Good(s) && LowUsed(s) && i < |s.blocks| && s.blocks[i].used && ALIGN <= n && ShrinksInPlace(s.blocks[i], n)
    requires CutSeen(s, s.blocks[i])
    ensures LowUsed(Shrink(s, i, n))
  {
    hide Shorten, Coalesced, AllAligned, UsedSpan, Aligned, Tiles, FreeBlockAt;
    var bs, r := s.blocks, Shrink(s, i, n);
    var g := r.blocks;
    ShortenTiles(bs, i, HDR + n, 0, HeapEnd(s), HDR + ALIGN);
    ShortenPlaces(bs, i, HDR + n, i + 1);
    forall k | 0 <= k < |g| && g[k].addr < r.lfree ensures g[k].used {
      ShortenPlaces(bs, i, HDR + n, k);
      Behind(g, 0, HeapEnd(s), HDR + ALIGN, i + 1, k);
      if k < i { Behind(bs, 0, HeapEnd(s), HDR + ALIGN, i, k); }
    }
  }

  /** Shrinking in place does not lower `lfree`: it stays right exactly when the cut is not below it, or
      the block it points to is swallowed. */
  lemma ShrinkLow(s: Pool, i: nat, n: nat)
    requires Good(s) && i < |s.blocks| && s.blocks[i].used && ALIGN <= n && ShrinksInPlace(s.blocks[i], n)
    ensures LowUsed(Shrink(s, i, n)) <==> LowUsed(s) && CutSeen(s, s.blocks[i])
  {
    var bs, r := s.blocks, Shrink(s, i, n);
    if LowUsed(s) && CutSeen(s, bs[i]) { ShrinkSeen(s, i, n); }
    else if !LowUsed(s) { ShrinkStaysLow(s, i, n); }
    else {
      hide Shorten, Coalesced, AllAligned, UsedSpan, Aligned, Tiles;
      ShortenPlaces(bs, i, HDR + n, i + 1);
      LfreeNotUsed(s, i);
      assert !r.blocks[i + 1].used && r.blocks[i + 1].addr < r.lfree;
    }
  }

  lemma LfreeNotUsed(s: Pool, i: nat)
    requires Good(s) && i < |s.blocks| && s.blocks[i].used
    ensures s.lfree < s.blocks[i].addr || s.lfree >= s.blocks[i].addr + s.blocks[i].size
  {
    hide Coalesced, AllAligned, UsedSpan, Tiles;
    Apart(s.blocks, 0, HeapEnd(s), HDR + ALIGN);
  }

  /** A free block below `lfree` is still there, larger at most, after a shrink. */
  lemma ShrinkStaysLow(s: Pool, i: nat, n: nat)
    requires Good(s) && !LowUsed(s) && i < |s.blocks| && s.blocks[i].used && ShrinksInPlace(s.blocks[i], n)
    ensures !LowUsed(Shrink(s, i, n))
  {
    var bs, r := s.blocks, Shrink(s, i, n);
    hide Shorten, Coalesced, AllAligned, UsedSpan, Aligned, Tiles;
    var k :| 0 <= k < |bs| && bs[k].addr < s.lfree && !bs[k].used;
    var k' := if k <= i + 1 || FreeAt(bs, i + 1) then k else k + 1;
    ShortenPlaces(bs, i, HDR + n, k');
    Behind(bs, 0, HeapEnd(s), HDR + ALIGN, i, k);
    assert !r.blocks[k'].used && r.blocks[k'].addr < r.lfree;
  }

  // ---------------------------------------------------------------- runs

  datatype Op = DoMalloc(n: nat) | DoFree(i: nat) | DoRealloc(i: nat, n: nat)

  predicate Legal(s: Pool, o: Op) {
    match o
    case DoMalloc(_) => true
    case DoFree(i) => i < |s.blocks| && s.blocks[i].used
    case DoRealloc(i, _) => i < |s.blocks| && s.blocks[i].used && s.blocks[i].size >= HDR
  }

  function Step(s: Pool, o: Op): Pool
    requires Legal(s, o)
  {
    match o
    case DoMalloc(n) => Malloc(s, n).0
    case DoFree(i) => Free(s, i)
    case DoRealloc(i, n) => Realloc(s, i, n).0
  }

  ghost predicate Run(s: Pool, ops: seq<Op>, r: Pool)
    decreases |ops|
  {
    if ops == [] then s == r else Legal(s, ops[0]) && Run(Step(s, ops[0]), ops[1..], r)
  }

  lemma InitialGood(size: nat)
    requires size >= MIN_SIZE && size % ALIGN == 0
    ensures Good(Initial(size)) && LowUsed(Initial(size))
  {
    var b := Initial(size).blocks;
    assert FreeBlockAt(b, 0) by { assert b[0].addr == 0; }
    assert b[1..] == [];
  }

  lemma {:induction false} RunsGood(s: Pool, ops: seq<Op>, r: Pool)
    requires Good(s) && Run(s, ops, r)
    ensures Good(r)
    decreases |ops|
  {
    hide Good, Malloc, Free, Realloc;
    if ops != [] {
      match ops[0] {
        case DoMalloc(n) => MallocGood(s, n);
        case DoFree(i) => FreeGood(s, i);
        case DoRealloc(i, n) => ReallocGood(s, i, n);
      }
      RunsGood(Step(s, ops[0]), ops[1..], r);
    }
  }

  lemma MallocLow(s: Pool, n: nat)
    requires Good(s) && LowUsed(s)
    ensures LowUsed(Malloc(s, n).0)
  {
    var i := Find(s.blocks, s.lfree, Wanted(n), s.size, 0);
    hide Good, Grant, LowUsed, Aligned;
    if n != 0 && Aligned(n) <= s.size && i < |s.blocks| { GrantLow(s, i, Wanted(n)); }
  }

  /** A call that cuts no block in place, or one that lies where the cut is seen. */
  predicate Tame(s: Pool, o: Op)
    requires Legal(s, o)
  {
    o.DoRealloc? && CutsInPlace(s, o.i, o.n) ==> CutSeen(s, s.blocks[o.i])
  }

  /** rt_realloc takes its in-place branch. */
  predicate CutsInPlace(s: Pool, i: nat, n: nat)
    requires i < |s.blocks|
  {
    0 < Aligned(n) <= s.size && ShrinksInPlace(s.blocks[i], Aligned(n))
  }

  /** Every single call keeps "everything below `lfree` is in use" if and only if it is such a call. */
  lemma StepLow(s: Pool, o: Op)
    requires Good(s) && LowUsed(s) && Legal(s, o)
    ensures LowUsed(Step(s, o)) <==> Tame(s, o)
  {
    match o
    case DoMalloc(n) => MallocLow(s, n);
    case DoFree(i) => FreeLow(s, i);
    case DoRealloc(i, n) => ReallocLow(s, i, n);
  }

  lemma ReallocLow(s: Pool, i: nat, n: nat)
    requires Good(s) && LowUsed(s) && i < |s.blocks| && s.blocks[i].used && s.blocks[i].size >= HDR
    ensures LowUsed(Realloc(s, i, n).0) <==> (CutsInPlace(s, i, n) ==> CutSeen(s, s.blocks[i]))
  {
    hide Good, LowUsed, Shrink, Grant, Free, Malloc, NewIndex, Wanted, CutSeen;
    var m := Aligned(n);
    assert m % ALIGN == 0 && (m > 0 ==> ALIGN <= m);
    hide Aligned;
    if CutsInPlace(s, i, n) { ShrinkLow(s, i, m); }
    else if m == 0 { FreeLow(s, i); }
    else if Malloc(s, m).1 != NULL {
      var h := Find(s.blocks, s.lfree, Wanted(m), s.size, 0);
      MallocGood(s, m);
      MallocLow(s, m);
      MallocFound(s, m);
      MovedBlock(s, i, h, Wanted(m));
      FreeLow(Malloc(s, m).0, NewIndex(s, i, h, Wanted(m)));
    }
  }

  /** A run of such calls, with reallocations. */
  ghost predicate TameRun(s: Pool, ops: seq<Op>, r: Pool)
    decreases |ops|
  {
    if ops == [] then s == r else Legal(s, ops[0]) && Tame(s, ops[0]) && TameRun(Step(s, ops[0]), ops[1..], r)
  }

  /** All along these runs, which include all runs of malloc and free, everything below `lfree` is in use. */
  lemma {:induction false} RunsKeepLow(s: Pool, ops: seq<Op>, r: Pool)
    requires Good(s) && LowUsed(s) && TameRun(s, ops, r)
    ensures Good(r) && LowUsed(r)
    decreases |ops|
  {
    hide Good, LowUsed, Malloc, Free, Realloc, Tame;
    if ops != [] {
      match ops[0] {
        case DoMalloc(n) => MallocGood(s, n);
        case DoFree(i) => FreeGood(s, i);
        case DoRealloc(i, n) => ReallocGood(s, i, n);
      }
      StepLow(s, ops[0]);
      RunsKeepLow(Step(s, ops[0]), ops[1..], r);
    }
  }

  lemma {:induction false} PlainRunsAreTame(s: Pool, ops: seq<Op>, r: Pool)
    requires Run(s, ops, r) && forall o :: o in ops ==> !o.DoRealloc?
    ensures TameRun(s, ops, r)
    decreases |ops|
  {
    hide Malloc, Free, Realloc;
    if ops != [] {
      assert ops[0] in ops;
      PlainRunsAreTame(Step(s, ops[0]), ops[1..], r);
    }
  }

  // ---------------------------------------------------------------- what the search finds

  /** A free block that can give n bytes and is not an exact fit at the very end. */
  predicate Serves(bs: seq<Block>, k: nat, n: nat)
    requires k < |bs|
  {
    !bs[k].used && bs[k].size >= HDR + n && !(k + 1 == |bs| && bs[k].size == HDR + n)
  }

  /** Block i is the first one at or above address lo that serves. */
  predicate FirstToServe(bs: seq<Block>, lo: nat, i: nat, n: nat)
    requires i < |bs|
  {
    Serves(bs, i, n) && bs[i].addr >= lo && forall k :: 0 <= k < i && Serves(bs, k, n) ==> bs[k].addr < lo
  }

  ghost predicate GrantsFirst(s: Pool, lo: nat, n: nat) {
    exists i :: 0 <= i < |s.blocks| && FirstToServe(s.blocks, lo, i, Wanted(n))
             && Malloc(s, n) == (Grant(s, i, Wanted(n)), s.blocks[i].addr + HDR)
  }

  /** In every state, however it was reached: malloc fails if and only if the request is empty, or larger than the heap, or
      every block that serves lies below `lfree`; otherwise it takes the first that does not. */
  lemma MallocExactly(s: Pool, n: nat)
    requires Good(s)
    ensures Malloc(s, n).1 == NULL <==>
      n == 0 || Aligned(n) > s.size
      || forall k :: 0 <= k < |s.blocks| && Serves(s.blocks, k, Wanted(n)) ==> s.blocks[k].addr < s.lfree
    ensures Malloc(s, n).1 != NULL ==> GrantsFirst(s, s.lfree, n)
  {
    hide Good, Grant, Aligned, Wanted;
    forall k | 0 <= k < |s.blocks|
      ensures Usable(s.blocks[k], s.lfree, Wanted(n), s.size) <==> Serves(s.blocks, k, Wanted(n)) && s.blocks[k].addr >= s.lfree
    {
      if s.blocks[k].size >= HDR + Wanted(n) { BoundMissesOnlyExactEnd(s, k, Wanted(n)); }
    }
  }

  /** Along tame runs, and so along all runs of malloc and free, that is a first-fit scan of all blocks. */
  lemma SearchIsFirstFit(size: nat, ops: seq<Op>, s: Pool, n: nat)
    requires size >= MIN_SIZE && size % ALIGN == 0 && TameRun(Initial(size), ops, s)
    ensures Malloc(s, n).1 == NULL <==>
      n == 0 || Aligned(n) > s.size || forall k :: 0 <= k < |s.blocks| ==> !Serves(s.blocks, k, Wanted(n))
    ensures Malloc(s, n).1 != NULL ==> GrantsFirst(s, 0, n)
  {
    hide Good, Initial, Grant, TameRun, Aligned, Wanted, Malloc;
    InitialGood(size);
    RunsKeepLow(Initial(size), ops, s);
    MallocExactly(s, n);
  }

  /** The exact fit at the end is really passed over: a heap with one free block does not give it away whole. */
  lemma EndNotUsed()
    ensures Serves(Initial(96).blocks, 0, 92) && !Serves(Initial(96).blocks, 0, 96)
    ensures Malloc(Initial(96), 96) == (Initial(96), NULL)
  {
    var s := Initial(96);
    assert Wanted(96) == 96 && Aligned(96) == 96;
    assert Find(s.blocks, 0, 96, 96, 0) == 1;
  }

  /** After an in-place shrink an allocation can fail although a free block would do. */
  lemma StrandedExample()
    ensures var s1 := Malloc(Initial(96), 80).0;
      var (s2, p) := Realloc(s1, 0, 12);
      && p == HDR && s2.blocks == [Block(0, 24, true), Block(24, 84, false)] && Serves(s2.blocks, 1, 12)
      && !LowUsed(s2) && Malloc(s2, 12) == (s2, NULL)
  {
    var s0 := Initial(96);
    assert Wanted(80) == 80 && Aligned(12) == 12 && Wanted(12) == 12;
    assert Usable(s0.blocks[0], 0, 80, 96);
    var s1 := Malloc(s0, 80).0;
    assert s1.blocks == [Block(0, 108, true)];
    assert LowestFree(s1.blocks, 0, 108) == 108 by { assert LowestFree(s1.blocks, 1, 108) == 108; }
    var s2 := Shrink(s1, 0, 12);
    assert s2.blocks == [Block(0, 24, true), Block(24, 84, false)];
    assert Find(s2.blocks, 108, 12, 96, 0) == 2;
  }

  /** rt_realloc can fail to give a block the size it was asked for when it was allocated. */
  lemma SameSizeFails()
    ensures var s1 := Malloc(Initial(96), 80).0;
      s1.blocks == [Block(0, 108, true)] && Realloc(s1, 0, 80) == (s1, NULL)
  {
    var s0 := Initial(96);
    assert Wanted(80) == 80 && Aligned(80) == 80;
    assert Usable(s0.blocks[0], 0, 80, 96);
    var s1 := Malloc(s0, 80).0;
    assert s1.blocks == [Block(0, 108, true)];
  }

  /** rt_realloc to what the block already holds fails exactly when the surplus is too small to cut off but
      not zero, and no other block can be had. */
  lemma ReallocFailsExactly(s: Pool, i: nat, n: nat)
    requires Good(s) && i < |s.blocks| && s.blocks[i].used && 0 < n && HDR + Aligned(n) <= s.blocks[i].size
    ensures Realloc(s, i, n).1 == NULL <==>
      var surplus := s.blocks[i].size - HDR - Aligned(n);
      0 < surplus <= HDR + MIN_SIZE && forall k :: 0 <= k < |s.blocks| ==> !Usable(s.blocks[k], s.lfree, Wanted(n), s.size)
  {
    assert Aligned(Aligned(n)) == Aligned(n) && Wanted(Aligned(n)) == Wanted(n) && Aligned(n) > 0;
    hide Coalesced, AllAligned, UsedSpan, Tiles, Aligned, Wanted;
    Apart(s.blocks, 0, HeapEnd(s), HDR + ALIGN);
  }

  /** rt_realloc keeps the block for the size it has, or cuts it to size. */
  predicate StaysPut(b: Block, n: nat) { n > 0 && (b.size == HDR + Aligned(n) || ShrinksInPlace(b, Aligned(n))) }

  /** Size 0 frees the block and nothing else. */
  lemma ReallocToNothing(s: Pool, i: nat)
    requires Good(s) && i < |s.blocks| && s.blocks[i].used
    ensures var (r, q, a) := (Realloc(s, i, 0).0, Realloc(s, i, 0).1, s.blocks[i].addr);
      q == NULL && Vacated(r.blocks, a) && SameUsed(s.blocks, r.blocks, a)
  {
    assert Aligned(0) == 0;
    FreePromise(s, i);
    hide Good, Aligned, Free, SameUsed, Vacated;
  }

  /** Another size, in every state: the block stays where it is if and only if it has the size or is cut to it; else it
      moves to the first block that serves, and the call fails, without effect, if and only if there is none at or above
      `lfree` or the heap is smaller than the request. */
  lemma ReallocExactly(s: Pool, i: nat, n: nat)
    requires Good(s) && i < |s.blocks| && s.blocks[i].used && n > 0
    ensures var (r, q, b, m) := (Realloc(s, i, n).0, Realloc(s, i, n).1, s.blocks[i], Aligned(n));
      && (q == b.addr + HDR <==> StaysPut(b, n))
      && (StaysPut(b, n) ==> Block(b.addr, HDR + m, true) in r.blocks)
      && (!StaysPut(b, n) ==>
           (q == NULL <==> m > s.size || forall k :: 0 <= k < |s.blocks| && Serves(s.blocks, k, Wanted(m)) ==> s.blocks[k].addr < s.lfree))
      && (q == NULL ==> r == s)
      && (q != NULL && !StaysPut(b, n) ==> GotBlock(s.blocks, r.blocks, q - HDR, m) && GrantsFirst(s, s.lfree, m) && Malloc(s, m).1 == q)
  {
    hide Good, Aligned, StaysPut, Realloc, Malloc, Wanted, GotBlock, Serves, GrantsFirst;
    if StaysPut(s.blocks[i], n) { ReallocStays(s, i, n); } else { ReallocMoves(s, i, n); }
  }

  lemma ReallocStays(s: Pool, i: nat, n: nat)
    requires Good(s) && i < |s.blocks| && s.blocks[i].used && StaysPut(s.blocks[i], n)
    ensures Realloc(s, i, n).1 == s.blocks[i].addr + HDR && Block(s.blocks[i].addr, HDR + Aligned(n), true) in Realloc(s, i, n).0.blocks
  {
    InHeap(s, i);
    hide Good, Aligned, Shrink, Malloc;
    if ShrinksInPlace(s.blocks[i], Aligned(n)) { ShrinkPromise(s, i, Aligned(n)); }
  }

  /** A request that the block does not meet where it is goes by what malloc can do. */
  lemma ReallocForm(s: Pool, i: nat, n: nat)
    requires Good(s) && i < |s.blocks| && n > 0 && !StaysPut(s.blocks[i], n) && s.blocks[i].size >= HDR
    ensures var (m, h) := (Aligned(n), Find(s.blocks, s.lfree, Wanted(Aligned(n)), s.size, 0));
      && Aligned(m) == m > 0 && (Malloc(s, m).1 != NULL ==> h < |s.blocks|)
      && Realloc(s, i, n) == if Malloc(s, m).1 == NULL then (s, NULL)
                             else (Free(Malloc(s, m).0, NewIndex(s, i, h, Wanted(m))), Malloc(s, m).1)
  {
    assert Aligned(Aligned(n)) == Aligned(n) > 0;
    hide Good, Aligned, Shrink, Grant, Free, NewIndex, Wanted;
  }

  lemma ReallocMoves(s: Pool, i: nat, n: nat)
    requires Good(s) && i < |s.blocks| && s.blocks[i].used && n > 0 && !StaysPut(s.blocks[i], n)
    ensures var (r, q, b, m) := (Realloc(s, i, n).0, Realloc(s, i, n).1, s.blocks[i], Aligned(n));
      && (q == NULL <==> m > s.size || forall k :: 0 <= k < |s.blocks| && Serves(s.blocks, k, Wanted(m)) ==> s.blocks[k].addr < s.lfree)
      && (q == NULL ==> r == s) && q != b.addr + HDR
      && (q != NULL ==> GotBlock(s.blocks, r.blocks, q - HDR, m) && GrantsFirst(s, s.lfree, m) && Malloc(s, m).1 == q)
  {
    hide Good, Aligned, StaysPut, Realloc, Free, Malloc, NewIndex, Wanted, GotBlock, Serves, GrantsFirst, HasRoom, Vacated, Find;
    InHeap(s, i);
    ReallocForm(s, i, n);
    var m := Aligned(n);
    MallocExactly(s, m);
    if Malloc(s, m).1 != NULL { MovePromise(s, i, m); }
  }

  lemma InHeap(s: Pool, i: nat)
    requires Good(s) && i < |s.blocks|
    ensures HDR <= s.blocks[i].size <= s.size + HDR
  {
    hide Coalesced, AllAligned, UsedSpan, FreeBlockAt;
    Apart(s.blocks, 0, HeapEnd(s), HDR + ALIGN);
    hide Tiles;
    Behind(s.blocks, 0, HeapEnd(s), HDR + ALIGN, i, i);
  }

  // ---------------------------------------------------------------- max_mem

  /** The heap at the busiest moment of a call: a block that moves is held twice until the old one is freed. */
  function Busiest(s: Pool, o: Op): Pool
    requires Legal(s, o)
  {
    if o.DoRealloc? && o.n > 0 && !StaysPut(s.blocks[o.i], o.n) && Realloc(s, o.i, o.n).1 != NULL then Malloc(s, Aligned(o.n)).0
    else Step(s, o)
  }

  /** x is what the heap is at some moment of the run. */
  ghost predicate Passes(s: Pool, ops: seq<Op>, x: Pool)
    decreases |ops|
  {
    x == s || (ops != [] && Legal(s, ops[0]) && (x == Busiest(s, ops[0]) || Passes(Step(s, ops[0]), ops[1..], x)))
  }

  lemma StepPeak(s: Pool, o: Op)
    requires Good(s) && Legal(s, o)
    ensures Step(s, o).peak == Max(s.peak, UsedSpan(Busiest(s, o).blocks))
  {
    hide Tiles, Coalesced, AllAligned, UsedSpan, FreeBlockAt, Aligned, Wanted, Take, Release, Shorten, LowestFree;
    match o
    case DoMalloc(n) => MallocGood(s, n);
    case DoFree(i) => FreeGood(s, i); FreedLess(s, i);
    case DoRealloc(i, n) => ReallocPeak(s, i, n);
  }

  lemma FreedLess(s: Pool, i: nat)
    requires Good(s) && i < |s.blocks| && s.blocks[i].used
    ensures Free(s, i).used <= s.used
  {
    hide Tiles, Coalesced, AllAligned, UsedSpan, FreeBlockAt, Release;
  }

  lemma ReallocPeak(s: Pool, i: nat, n: nat)
    requires Good(s) && i < |s.blocks| && s.blocks[i].used && s.blocks[i].size >= HDR
    ensures Realloc(s, i, n).0.peak == Max(s.peak, UsedSpan(Busiest(s, DoRealloc(i, n)).blocks))
  {
    var m := Aligned(n);
    assert Aligned(m) == m && (m == 0 <==> n == 0);
    ReallocGood(s, i, n);
    MallocGood(s, m);
    InHeap(s, i);
    hide Tiles, Coalesced, AllAligned, UsedSpan, FreeBlockAt, Aligned, Wanted, Take, Release, Shorten, LowestFree;
  }

  /** `max_mem` is the most that was in use at any moment of the run. */
  lemma {:induction false} PeakIsHighest(s: Pool, ops: seq<Op>, r: Pool)
    requires Good(s) && Run(s, ops, r)
    ensures r.peak >= s.peak && forall x :: Passes(s, ops, x) ==> UsedSpan(x.blocks) <= r.peak
    ensures r.peak == s.peak || exists x :: Passes(s, ops, x) && UsedSpan(x.blocks) == r.peak
    decreases |ops|
  {
    hide Malloc, Free, Realloc, Busiest, Step, UsedSpan, Tiles, Coalesced, AllAligned, FreeBlockAt;
    if ops != [] {
      var m := Step(s, ops[0]);
      StepPeak(s, ops[0]);
      assert Run(m, [], m);
      RunsGood(s, [ops[0]], m);
      PeakIsHighest(m, ops[1..], r);
      if r.peak == m.peak {
        assert Passes(s, ops, Busiest(s, ops[0]));
      } else {
        var x :| Passes(m, ops[1..], x) && UsedSpan(x.blocks) == r.peak;
        assert Passes(s, ops, x);
      }
    }
  }
}
