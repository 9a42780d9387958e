/** mem.c as it runs: block headers linked by offsets, rewritten in place. */
module SmallHeapLists {
  import opened Tiling
  import opened SmallHeap
  import opened Bytes

  /** `struct heap_mem` without the magic number. */
  datatype Header = Header(used: bool, next: nat, prev: nat)

  /** The header of block i says where its neighbours are. */
  ghost predicate LinkAt(h: map<nat, Header>, bs: seq<Block>, i: nat)
    requires i < |bs|
  {
    && bs[i].addr in h && h[bs[i].addr].used == bs[i].used
    && h[bs[i].addr].next == bs[i].addr + bs[i].size
    && h[bs[i].addr].prev == if i == 0 then 0 else bs[i - 1].addr
  }

  /** The headers describe the blocks.  Nothing is said about the sentinel's `prev`: splits do not maintain it. */
  ghost predicate Linked(h: map<nat, Header>, bs: seq<Block>, end: nat) {
    && Tiles(bs, 0, end, HDR + ALIGN)
    && (forall i :: 0 <= i < |bs| ==> LinkAt(h, bs, i))
    && end in h && h[end].used && h[end].next == end
  }

  /** The block at a takes over its successor b. */
  function Absorbed(h: map<nat, Header>, a: nat, b: nat): map<nat, Header>
    requires a in h && b in h && h[b].next in h
  {
    var h1 := h[a := h[a].(next := h[b].next)];
    h1[h1[b].next := h1[h1[b].next].(prev := a)]
  }

  lemma AbsorbLinks(h: map<nat, Header>, bs: seq<Block>, end: nat, i: nat)
    requires Linked(h, bs, end) && i + 1 < |bs|
    ensures bs[i].addr in h && bs[i + 1].addr in h && h[bs[i + 1].addr].next in h && h[bs[i].addr].next == bs[i + 1].addr
    ensures h[bs[i].addr].used == bs[i].used && h[bs[i + 1].addr].used == bs[i + 1].used
    ensures Linked(Absorbed(h, bs[i].addr, bs[i + 1].addr), Join(bs, i), end)
  {
    hide Tiles;
    assert LinkAt(h, bs, i) && LinkAt(h, bs, i + 1);
    if i + 2 < |bs| { assert LinkAt(h, bs, i + 2); Behind(bs, 0, end, HDR + ALIGN, i + 1, i + 2); }
    Behind(bs, 0, end, HDR + ALIGN, i + 1, i + 1);
    Behind(bs, 0, end, HDR + ALIGN, i, i + 1);
    var h', c := Absorbed(h, bs[i].addr, bs[i + 1].addr), Join(bs, i);
    JoinTiles(bs, i, 0, end, HDR + ALIGN);
    forall k | 0 <= k < |c| ensures LinkAt(h', c, k) {
      var k' := if k <= i then k else k + 1;
      assert LinkAt(h, bs, k');
      Behind(bs, 0, end, HDR + ALIGN, i, k');
      Behind(bs, 0, end, HDR + ALIGN, i + 1, k');
    }
  }

  /** A new free header at p, inside the block at a. */
  function Inserted(h: map<nat, Header>, a: nat, p: nat, end: nat): map<nat, Header>
    requires a in h && h[a].next in h
  {
    var h1 := h[p := Header(false, h[a].next, a)];
    var h2 := h1[a := h1[a].(next := p)];
    if h2[p].next != end then h2[h2[p].next := h2[h2[p].next].(prev := p)] else h2
  }

  lemma InsertLinks(h: map<nat, Header>, bs: seq<Block>, end: nat, i: nat, n: nat)
    requires Linked(h, bs, end) && i < |bs| && HDR + ALIGN <= n && n + HDR + ALIGN <= bs[i].size
    ensures bs[i].addr in h && h[bs[i].addr].next in h
    ensures Linked(Inserted(h, bs[i].addr, bs[i].addr + n, end), Cut(bs, i, n), end)
  {
    hide Tiles;
    assert LinkAt(h, bs, i);
    if i + 1 < |bs| { assert LinkAt(h, bs, i + 1); Behind(bs, 0, end, HDR + ALIGN, i, i + 1); }
    Behind(bs, 0, end, HDR + ALIGN, i, i);
    var h', c := Inserted(h, bs[i].addr, bs[i].addr + n, end), Cut(bs, i, n);
    CutTiles(bs, i, n, 0, end, HDR + ALIGN);
    forall k | 0 <= k < |c| ensures LinkAt(h', c, k) {
      var k' := if k <= i then k else k - 1;
      assert LinkAt(h, bs, k');
      Behind(bs, 0, end, HDR + ALIGN, i, k');
      Behind(c, 0, end, HDR + ALIGN, i + 1, k);
    }
  }

  lemma MarkLinks(h: map<nat, Header>, bs: seq<Block>, end: nat, i: nat, u: bool)
    requires Linked(h, bs, end) && i < |bs|
    ensures bs[i].addr in h && Linked(h[bs[i].addr := h[bs[i].addr].(used := u)], SetUsed(bs, i, u), end)
  {
    hide Tiles;
    assert LinkAt(h, bs, i);
    var h', c := h[bs[i].addr := h[bs[i].addr].(used := u)], SetUsed(bs, i, u);
    SetUsedTiles(bs, i, u, 0, end, HDR + ALIGN);
    Behind(bs, 0, end, HDR + ALIGN, i, i);
    forall k | 0 <= k < |c| ensures LinkAt(h', c, k) {
      assert LinkAt(h, bs, k);
      Behind(bs, 0, end, HDR + ALIGN, i, k);
    }
  }

  /** What the header of block i says. */
  lemma ReadHeader(h: map<nat, Header>, bs: seq<Block>, end: nat, i: nat)
    requires Linked(h, bs, end) && i < |bs|
    ensures bs[i].addr in h && h[bs[i].addr].used == bs[i].used && bs[i].size >= HDR + ALIGN
    ensures h[bs[i].addr].next == AddrAt(bs, i + 1, end) == bs[i].addr + bs[i].size && h[bs[i].addr].next in h
    ensures h[bs[i].addr].prev == (if i == 0 then bs[i].addr else bs[i - 1].addr) && h[bs[i].addr].prev in h
    ensures i + 1 < |bs| ==> h[bs[i + 1].addr].used == bs[i + 1].used && bs[i + 1].addr != end
    ensures i > 0 ==> h[bs[i - 1].addr].used == bs[i - 1].used && bs[i - 1].addr < bs[i].addr
  {
    assert LinkAt(h, bs, i);
    Behind(bs, 0, end, HDR + ALIGN, i, i);
    if i + 1 < |bs| { assert LinkAt(h, bs, i + 1); Behind(bs, 0, end, HDR + ALIGN, i, i + 1); }
    if i > 0 { assert LinkAt(h, bs, i - 1); Behind(bs, 0, end, HDR + ALIGN, i, i - 1); }
  }

  /** The address of block k; the sentinel counts as the last one. */
  function AddrAt(bs: seq<Block>, k: nat, end: nat): nat
    requires k <= |bs|
  {
    if k < |bs| then bs[k].addr else end
  }

  // ---------------------------------------------------------------- the bytes

  predicate InPayload(x: nat, b: Block) { b.addr + HDR <= x < b.addr + b.size }

  /** Writing a header destroys its bytes. */
  function Spoiled(m: map<nat, int>, a: nat): map<nat, int> { map x | x in m :: if a <= x < a + HDR then 0 else m[x] }

  /** The payloads of all blocks are what they were. */
  ghost predicate AllKept(bs: seq<Block>, m: map<nat, int>, m': map<nat, int>) {
    m'.Keys == m.Keys && forall b, x: nat :: b in bs && InPayload(x, b) && x in m ==> m'[x] == m[x]
  }

  /** The payloads of the used blocks are. */
  ghost predicate UsedKept(bs: seq<Block>, m: map<nat, int>, m': map<nat, int>) {
    m'.Keys == m.Keys && forall b, x: nat :: b in bs && b.used && InPayload(x, b) && x in m ==> m'[x] == m[x]
  }

  /** No header lies in a payload. */
  lemma SpoiledKept(bs: seq<Block>, end: nat, m: map<nat, int>, k: nat)
    requires Tiles(bs, 0, end, HDR + ALIGN) && k <= |bs|
    ensures AllKept(bs, m, Spoiled(m, AddrAt(bs, k, end)))
  {
    Apart(bs, 0, end, HDR + ALIGN);
    var a := AddrAt(bs, k, end);
    forall b, x: nat | b in bs && InPayload(x, b) && x in m ensures Spoiled(m, a)[x] == m[x] {
      var j :| 0 <= j < |bs| && bs[j] == b;
      assert k < |bs| && j < k ==> bs[j].addr + bs[j].size <= bs[k].addr;
      assert k < |bs| && k < j ==> bs[k].addr + bs[k].size <= bs[j].addr;
    }
  }

  lemma AllKeptTwice(bs: seq<Block>, m: map<nat, int>, m1: map<nat, int>, m2: map<nat, int>)
    requires AllKept(bs, m, m1) && AllKept(bs, m1, m2)
    ensures AllKept(bs, m, m2)
  {
  }

  lemma UsedKeptTwice(bs: seq<Block>, m: map<nat, int>, m1: map<nat, int>, m2: map<nat, int>)
    requires UsedKept(bs, m, m1) && UsedKept(bs, m1, m2)
    ensures UsedKept(bs, m, m2)
  {
  }

  lemma AllIsUsed(bs: seq<Block>, m: map<nat, int>, m': map<nat, int>)
    requires AllKept(bs, m, m')
    ensures UsedKept(bs, m, m')
  {
  }

  /** Every used block of bs is one of bs'. */
  lemma UsedFewer(bs: seq<Block>, bs': seq<Block>, m: map<nat, int>, m': map<nat, int>)
    requires UsedKept(bs', m, m') && forall b :: b in bs && b.used ==> b in bs'
    ensures UsedKept(bs, m, m')
  {
  }

  lemma UsedOfJoin(bs: seq<Block>, i: nat)
    requires i + 1 < |bs| && !bs[i].used && !bs[i + 1].used
    ensures forall b :: b in bs && b.used ==> b in Join(bs, i)
  {
    forall b | b in bs && b.used ensures b in Join(bs, i) {
      var k :| 0 <= k < |bs| && bs[k] == b;
      assert Join(bs, i)[if k < i then k else k - 1] == b;
    }
  }

  lemma UsedOfCut(bs: seq<Block>, i: nat, n: nat)
    requires i < |bs| && !bs[i].used && n <= bs[i].size
    ensures forall b :: b in bs && b.used ==> b in Cut(bs, i, n)
  {
    forall b | b in bs && b.used ensures b in Cut(bs, i, n) {
      var k :| 0 <= k < |bs| && bs[k] == b;
      CutPlaces(bs, i, n, if k < i then k else k + 1);
    }
  }

  /** A flag does not move a payload. */
  lemma FlagMovesNothing(bs: seq<Block>, i: nat, u: bool, m: map<nat, int>, m': map<nat, int>)
    requires i < |bs|
    ensures AllKept(bs, m, m') <==> AllKept(SetUsed(bs, i, u), m, m')
  {
    var c := SetUsed(bs, i, u);
    if AllKept(bs, m, m') {
      forall b, x: nat | b in c && InPayload(x, b) && x in m ensures m'[x] == m[x] {
        var k :| 0 <= k < |c| && c[k] == b;
        assert bs[k] in bs && InPayload(x, bs[k]);
      }
    }
    if AllKept(c, m, m') {
      forall b, x: nat | b in bs && InPayload(x, b) && x in m ensures m'[x] == m[x] {
        var k :| 0 <= k < |bs| && bs[k] == b;
        assert c[k] in c && InPayload(x, c[k]);
      }
    }
  }

  /** What plug_holes makes of `lfree`. */
  function Plugged(bs: seq<Block>, i: nat, lfree: nat): nat
    requires i < |bs|
  {
    var l := if FreeAt(bs, i + 1) && lfree == bs[i + 1].addr then bs[i].addr else lfree;
    if FreeAt(bs, i - 1) && l == bs[i].addr then bs[i - 1].addr else l
  }

  class Heap {
    const size: nat    // mem_size_aligned
    var hdr: map<nat, Header>
    var lfree: nat
    var used: int      // used_mem
    var peak: int      // max_mem
    var bytes: map<nat, int>

    ghost var blocks: seq<Block>

    ghost function View(): Pool
      reads this
    {
      Pool(blocks, lfree, used, peak, size)
    }

    ghost predicate Valid()
      reads this
    {
      Linked(hdr, blocks, size + HDR) && Good(View()) && forall x :: x in bytes <==> 0 <= x < size + 2 * HDR
    }

    /** rt_system_heap_init over `span` aligned bytes. */
    constructor (span: nat)
      requires span >= 2 * HDR + MIN_SIZE && span % ALIGN == 0
      ensures Valid() && View() == Initial(span - 2 * HDR)
    {
      size := span - 2 * HDR;
      var end := span - HDR;
      hdr := map[0 := Header(false, end, 0), end := Header(true, end, end)];
      lfree, used, peak := 0, 0, 0;
      bytes := Fresh(span);
      blocks := [Block(0, end, false)];
      new;
      InitialGood(size);
      assert LinkAt(hdr, blocks, 0);
    }

    static function Fresh(n: nat): map<nat, int> { map x: nat | x < n :: Zero(x) }

    static function Zero(x: nat): int { 0 }

    /** Merge the free block at mem with its free neighbours. */
    method PlugHoles(mem: nat, ghost i: nat)
      requires Linked(hdr, blocks, size + HDR) && i < |blocks| && blocks[i].addr == mem && !blocks[i].used
      modifies `hdr, `blocks, `lfree, `bytes
      ensures Linked(hdr, blocks, size + HDR) && blocks == MergeAround(old(blocks), i)
      ensures lfree == Plugged(old(blocks), i, old(lfree))
      ensures UsedKept(old(blocks), old(bytes), bytes)
    {
      hide Linked, MergeAround, UsedKept, Spoiled;
      ghost var b0, m0 := blocks, bytes;
      assert UsedKept(b0, m0, m0) by { NothingSpoiled(b0, m0); }
      MergeRightFirst(blocks, i);
      ReadHeader(hdr, blocks, size + HDR, i);
      var nmem := hdr[mem].next;
      if mem != nmem && !hdr[nmem].used && nmem != size + HDR {
        if lfree == nmem { lfree := mem; }
        AbsorbLinks(hdr, blocks, size + HDR, i);
        AbsorbSpoils(i);
        bytes := Spoiled(Spoiled(bytes, mem), hdr[nmem].next);
        UsedOfJoin(blocks, i);
        hdr := hdr[mem := hdr[mem].(next := hdr[nmem].next)];
        hdr := hdr[hdr[nmem].next := hdr[hdr[nmem].next].(prev := mem)];
        blocks := Join(blocks, i);
        ReadHeader(hdr, blocks, size + HDR, i);
      }
      var pmem := hdr[mem].prev;
      if pmem != mem && !hdr[pmem].used {
        if lfree == mem { lfree := pmem; }
        AbsorbLinks(hdr, blocks, size + HDR, i - 1);
        AbsorbSpoils(i - 1);
        UsedFewer(b0, blocks, bytes, Spoiled(Spoiled(bytes, pmem), hdr[mem].next));
        UsedKeptTwice(b0, m0, bytes, Spoiled(Spoiled(bytes, pmem), hdr[mem].next));
        bytes := Spoiled(Spoiled(bytes, pmem), hdr[mem].next);
        hdr := hdr[pmem := hdr[pmem].(next := hdr[mem].next)];
        hdr := hdr[hdr[mem].next := hdr[hdr[mem].next].(prev := pmem)];
        blocks := Join(blocks, i - 1);
      }
    }

    lemma NothingSpoiled(bs: seq<Block>, m: map<nat, int>)
      ensures UsedKept(bs, m, m)
    {
    }

    lemma SameAddresses(bs: seq<Block>, m: map<nat, int>, m': map<nat, int>)
      requires UsedKept(bs, m, m')
      ensures forall x :: x in m <==> x in m'
    {
      assert m.Keys == m'.Keys;
    }

    /** The two headers that are written when block i takes over its successor. */
    lemma AbsorbSpoils(i: nat)
      requires Linked(hdr, blocks, size + HDR) && i + 1 < |blocks|
      ensures blocks[i + 1].addr in hdr
      ensures UsedKept(blocks, bytes, Spoiled(Spoiled(bytes, blocks[i].addr), hdr[blocks[i + 1].addr].next))
    {
      hide UsedKept, AllKept, Spoiled, Tiles;
      ReadHeader(hdr, blocks, size + HDR, i + 1);
      var m1 := Spoiled(bytes, blocks[i].addr);
      SpoiledKept(blocks, size + HDR, bytes, i);
      SpoiledKept(blocks, size + HDR, m1, i + 2);
      AllKeptTwice(blocks, bytes, m1, Spoiled(m1, hdr[blocks[i + 1].addr].next));
      AllIsUsed(blocks, bytes, Spoiled(m1, hdr[blocks[i + 1].addr].next));
    }

    /** A free header inside block i: both splitting branches. */
    method InsertAfter(mem: nat, mem2: nat, ghost i: nat, ghost n: nat)
      requires Linked(hdr, blocks, size + HDR) && i < |blocks| && blocks[i].addr == mem && mem2 == mem + n
      requires HDR + ALIGN <= n && n + HDR + ALIGN <= blocks[i].size
      modifies `hdr, `blocks, `bytes
      ensures Linked(hdr, blocks, size + HDR) && blocks == Cut(old(blocks), i, n)
      ensures AllKept(blocks, old(bytes), bytes)
    {
      InsertLinks(hdr, blocks, size + HDR, i, n);
      hide Linked;
      bytes := InsertSpoils(mem, mem2, i, n);
      hdr := hdr[mem2 := Header(false, hdr[mem].next, mem)];
      hdr := hdr[mem := hdr[mem].(next := mem2)];
      if hdr[mem2].next != size + HDR {
        hdr := hdr[hdr[mem2].next := hdr[hdr[mem2].next].(prev := mem2)];
      }
      blocks := Cut(blocks, i, n);
    }

    /** The headers that are written when block i is cut: the new one, its own, and that behind it unless it is the
        sentinel. */
    method InsertSpoils(mem: nat, mem2: nat, ghost i: nat, ghost n: nat) returns (m: map<nat, int>)
      requires Linked(hdr, blocks, size + HDR) && i < |blocks| && blocks[i].addr == mem && mem2 == mem + n
      requires HDR + ALIGN <= n && n + HDR + ALIGN <= blocks[i].size
      ensures AllKept(Cut(blocks, i, n), bytes, m)
    {
      hide Cut, AllKept, Spoiled;
      ReadHeader(hdr, blocks, size + HDR, i);
      ghost var c := Cut(blocks, i, n);
      CutTiles(blocks, i, n, 0, size + HDR, HDR + ALIGN);
      CutPlaces(blocks, i, n, i);
      CutPlaces(blocks, i, n, i + 1);
      if i + 1 < |blocks| { CutPlaces(blocks, i, n, i + 2); }
      hide Linked, Tiles;
      m := Spoiled(bytes, mem2);
      SpoiledKept(c, size + HDR, bytes, i + 1);
      SpoiledKept(c, size + HDR, m, i);
      AllKeptTwice(c, bytes, m, Spoiled(m, mem));
      m := Spoiled(m, mem);
      if hdr[mem].next != size + HDR {
        SpoiledKept(c, size + HDR, m, i + 2);
        AllKeptTwice(c, bytes, m, Spoiled(m, hdr[mem].next));
        m := Spoiled(m, hdr[mem].next);
      }
    }

    method SetUsedFlag(mem: nat, u: bool, ghost i: nat)
      requires Linked(hdr, blocks, size + HDR) && i < |blocks| && blocks[i].addr == mem
      modifies `hdr, `blocks, `bytes
      ensures Linked(hdr, blocks, size + HDR) && blocks == SetUsed(old(blocks), i, u)
      ensures AllKept(blocks, old(bytes), bytes) && AllKept(old(blocks), old(bytes), bytes)
    {
      MarkLinks(hdr, blocks, size + HDR, i, u);
      SpoiledKept(blocks, size + HDR, bytes, i);
      FlagMovesNothing(blocks, i, u, bytes, Spoiled(bytes, mem));
      hide Linked, AllKept;
      bytes := Spoiled(bytes, mem);
      hdr := hdr[mem := hdr[mem].(used := u)];
      blocks := SetUsed(blocks, i, u);
    }

    /** Move `lfree` up to the next free block. */
    method AdvanceLfree(ghost i: nat)
      requires Linked(hdr, blocks, size + HDR) && i < |blocks| && lfree == blocks[i].addr
      modifies `lfree
      ensures lfree == LowestFree(blocks, i, size + HDR)
    {
      hide Linked;
      ghost var k := i;
      SentinelUsed();
      ReadHeader(hdr, blocks, size + HDR, i);
      while lfree in hdr && hdr[lfree].used && lfree != size + HDR
        invariant i <= k <= |blocks| && lfree == AddrAt(blocks, k, size + HDR) && lfree in hdr
        invariant k < |blocks| ==> lfree != size + HDR && hdr[lfree].used == blocks[k].used
        invariant LowestFree(blocks, i, size + HDR) == LowestFree(blocks, k, size + HDR)
        decreases |blocks| - k
      {
        ReadHeader(hdr, blocks, size + HDR, k);
        lfree := hdr[lfree].next;
        k := k + 1;
        if k < |blocks| { ReadHeader(hdr, blocks, size + HDR, k); EndIsElsewhere(k); }
      }
    }

    lemma SentinelUsed()
      requires Linked(hdr, blocks, size + HDR)
      ensures size + HDR in hdr && hdr[size + HDR].used && forall k :: 0 <= k < |blocks| ==> blocks[k].addr != size + HDR
    {
      Apart(blocks, 0, size + HDR, HDR + ALIGN);
    }

    lemma EndIsElsewhere(k: nat)
      requires Linked(hdr, blocks, size + HDR) && k < |blocks|
      ensures blocks[k].addr < size + HDR
    {
      Behind(blocks, 0, size + HDR, HDR + ALIGN, k, k);
    }

    /** The body of the search loop, once a block fits. */
    method GrantBlock(ptr: nat, sz: nat, ghost i: nat)
      requires Valid() && i < |blocks| && blocks[i].addr == ptr && !blocks[i].used && HDR + sz <= blocks[i].size
      requires MIN_SIZE <= sz && sz % ALIGN == 0
      modifies this
      ensures Valid() && View() == Grant(old(View()), i, sz) && UsedKept(old(blocks), old(bytes), bytes)
    {
      hide Linked, Good, Cut, LowestFree, UsedKept, AllKept;
      ghost var b0, m0 := blocks, bytes;
      GrantGood(View(), i, sz);
      ReadHeader(hdr, blocks, size + HDR, i);
      CutPlaces(blocks, i, HDR + sz, i);
      if hdr[ptr].next - (ptr + HDR) >= sz + HDR + MIN_SIZE {
        InsertAfter(ptr, ptr + HDR + sz, i, HDR + sz);
        ghost var m1 := bytes;
        SetUsedFlag(ptr, true, i);
        CutKept(b0, i, HDR + sz, m0, m1, bytes);
        used := used + sz + HDR;
      } else {
        SetUsedFlag(ptr, true, i);
        AllIsUsed(b0, m0, bytes);
        ReadHeader(hdr, blocks, size + HDR, i);
        used := used + (hdr[ptr].next - ptr);
      }
      if peak < used { peak := used; }
      SameAddresses(b0, m0, bytes);
      if ptr == lfree { AdvanceLfree(i); }
    }

    lemma CutKept(bs: seq<Block>, i: nat, n: nat, m: map<nat, int>, m1: map<nat, int>, m2: map<nat, int>)
      requires i < |bs| && !bs[i].used && n <= bs[i].size
      requires AllKept(Cut(bs, i, n), m, m1) && AllKept(Cut(bs, i, n), m1, m2)
      ensures UsedKept(bs, m, m2)
    {
      hide Cut, AllKept, UsedKept;
      AllKeptTwice(Cut(bs, i, n), m, m1, m2);
      AllIsUsed(Cut(bs, i, n), m, m2);
      UsedOfCut(bs, i, n);
      UsedFewer(bs, Cut(bs, i, n), m, m2);
    }

    /** rt_malloc; no used block loses a byte. */
    method Malloc(n: nat) returns (p: nat)
      requires Valid()
      modifies this
      ensures Valid() && (View(), p) == SmallHeap.Malloc(old(View()), n) && UsedKept(old(blocks), old(bytes), bytes)
    {
      hide Linked, Good, Grant, Aligned, UsedKept;
      assert UsedKept(blocks, bytes, bytes) by { NothingSpoiled(blocks, bytes); }
      if n == 0 { return NULL; }
      var sz := Aligned(n);
      if sz > size { return NULL; }
      AlignedIsAligned(n);
      if sz < MIN_SIZE { sz := MIN_SIZE; }
      ghost var k := StartIndex();
      FindSkips(blocks, lfree, sz, size, k);
      SentinelUsed();
      ghost var s0 := View();
      var ptr := lfree;
      while ptr < size - sz
        invariant View() == s0 && Valid() && bytes == old(bytes)
        invariant k <= |blocks| && ptr == AddrAt(blocks, k, size + HDR) && lfree <= ptr
        invariant Find(blocks, lfree, sz, size, 0) == Find(blocks, lfree, sz, size, k)
        decreases |blocks| - k
      {
        ReadHeader(hdr, blocks, size + HDR, k);
        if !hdr[ptr].used && hdr[ptr].next - (ptr + HDR) >= sz {
          GrantBlock(ptr, sz, k);
          return ptr + HDR;
        }
        ptr := hdr[ptr].next;
        k := k + 1;
      }
      PastBound(sz, k);
      return NULL;
    }

    lemma AlignedIsAligned(n: nat)
      requires Valid()
      ensures Aligned(n) % ALIGN == 0 && size >= MIN_SIZE
      ensures Wanted(n) == if Aligned(n) < MIN_SIZE then MIN_SIZE else Aligned(n)
    {
    }

    /** The index of the block `lfree` points to. */
    lemma StartIndex() returns (k: nat)
      requires Valid()
      ensures k <= |blocks| && AddrAt(blocks, k, size + HDR) == lfree
      ensures forall j :: 0 <= j < k ==> blocks[j].addr < lfree
    {
      k := |blocks|;
      if lfree != size + HDR { k :| 0 <= k < |blocks| && blocks[k].addr == lfree && !blocks[k].used; }
      Apart(blocks, 0, size + HDR, HDR + ALIGN);
    }

    lemma PastBound(n: nat, k: nat)
      requires Valid() && k <= |blocks| && AddrAt(blocks, k, size + HDR) + n >= size
      ensures Find(blocks, lfree, n, size, k) == |blocks|
    {
      hide Good;
      Apart(blocks, 0, size + HDR, HDR + ALIGN);
    }

    /** rt_free of block i, of nothing, or of an address outside the heap; no other used block loses a byte. */
    method Free(p: nat, ghost i: nat)
      requires Valid() && (p == NULL || p >= size + HDR || (i < |blocks| && blocks[i].used && p == blocks[i].addr + HDR))
      modifies this
      ensures Valid()
      ensures View() == if p == NULL || p >= size + HDR then old(View()) else SmallHeap.Free(old(View()), i)
      ensures if p == NULL || p >= size + HDR then bytes == old(bytes)
              else UsedKept(SetUsed(old(blocks), i, false), old(bytes), bytes)
    {
      hide Linked, Good, MergeAround, FreeBlockAt, UsedKept, AllKept;
      if p == NULL { return; }
      if p >= size + HDR { return; }
      var mem := p - HDR;
      FreeGood(View(), i);
      FreedLfree(View(), i);
      ReadHeader(hdr, blocks, size + HDR, i);
      SetUsedFlag(mem, false, i);
      if mem < lfree { lfree := mem; }
      ReadHeader(hdr, blocks, size + HDR, i);
      used := used - (hdr[mem].next - mem);
      ghost var b1, m1 := blocks, bytes;
      AllIsUsed(b1, old(bytes), m1);
      PlugHoles(mem, i);
      UsedKeptTwice(b1, old(bytes), m1, bytes);
    }

    /** rt_realloc of block i, of nothing, or of an address outside the heap.  The kept prefix of the contents is found at
        the result, and no other used block loses a byte. */
    method Realloc(p: nat, newsize: nat, ghost i: nat) returns (q: nat)
      requires Valid() && (p == NULL || p >= size + HDR || (i < |blocks| && blocks[i].used && p == blocks[i].addr + HDR))
      modifies this
      ensures Valid()
      ensures (View(), q) == if p == NULL then SmallHeap.Malloc(old(View()), newsize)
                             else if p < size + HDR then SmallHeap.Realloc(old(View()), i, newsize)
                             else (old(View()), if Aligned(newsize) > size || newsize == 0 then NULL else p)
      ensures if p == NULL then UsedKept(old(blocks), old(bytes), bytes)
              else if p < size + HDR then UsedKept(SetUsed(old(blocks), i, false), old(bytes), bytes)
              else bytes == old(bytes)
      ensures q != NULL && p != NULL && p < size + HDR ==>
        Moved(p, q, Min(old(blocks)[i].size - HDR, Aligned(newsize)), old(bytes), bytes)
    {
      hide Linked, Good, Aligned, Grant, SmallHeap.Free, Shrink, Wanted, UsedKept, AllKept, Moved;
      ghost var s0, m0 := View(), bytes;
      assert UsedKept(s0.blocks, m0, m0) by { NothingSpoiled(s0.blocks, m0); }
      if p != NULL && p < size + HDR { StayedPut(s0, i, m0); }
      AlignedIsAligned(newsize);
      AlignedTwice(newsize);
      var n := Aligned(newsize);
      if n > size { return NULL; }
      if n == 0 { Free(p, i); return NULL; }
      if p == NULL { q := Malloc(n); return; }
      if p >= size + HDR { return p; }
      ReadHeader(hdr, blocks, size + HDR, i);
      var mem := p - HDR;
      var was := hdr[mem].next - mem - HDR;
      if was == n { return p; }
      if n + HDR + MIN_SIZE < was {
        ShrinkAt(mem, n, i);
        CutPrefix(s0, i, n, m0, bytes);
        return p;
      }
      q := Malloc(n);
      if q != NULL {
        ghost var h := Find(old(blocks), old(lfree), Wanted(n), size, 0);
        MovedBlock(old(View()), i, h, Wanted(n));
        MallocPromise(s0, n);
        ghost var s1, m1, j := View(), bytes, NewIndex(old(View()), i, h, Wanted(n));
        bytes := Memcpy(bytes, q, p, if was < n then was else n);
        Free(p, j);
        MoveKept(s0, s1, i, j, q, n, Min(was, n), m0, m1, bytes);
      } else {
        UsedFewer(SetUsed(s0.blocks, i, false), s0.blocks, m0, bytes) by { OthersOf(s0.blocks, i); }
      }
    }

    lemma OthersOf(bs: seq<Block>, i: nat)
      requires i < |bs|
      ensures forall b :: b in SetUsed(bs, i, false) && b.used ==> b in bs
    {
      forall b | b in SetUsed(bs, i, false) && b.used ensures b in bs {
        var k :| 0 <= k < |bs| && SetUsed(bs, i, false)[k] == b;
        assert bs[k] == b;
      }
    }

    /** Nothing is moved and nothing lost when nothing is done. */
    lemma StayedPut(s: Pool, i: nat, m: map<nat, int>)
      requires Good(s) && i < |s.blocks| && forall x :: x in m <==> 0 <= x < s.size + 2 * HDR
      ensures UsedKept(SetUsed(s.blocks, i, false), m, m)
      ensures s.blocks[i].size >= HDR
      ensures Moved(s.blocks[i].addr + HDR, s.blocks[i].addr + HDR, s.blocks[i].size - HDR, m, m)
    {
      Apart(s.blocks, 0, HeapEnd(s), HDR + ALIGN);
    }

    lemma CutPrefix(s: Pool, i: nat, n: nat, m: map<nat, int>, m': map<nat, int>)
      requires Good(s) && i < |s.blocks| && s.blocks[i].used && n + HDR <= s.blocks[i].size
      requires forall x :: x in m <==> 0 <= x < s.size + 2 * HDR
      requires UsedKept(Cut(s.blocks, i, HDR + n), m, m')
      ensures UsedKept(SetUsed(s.blocks, i, false), m, m')
      ensures Moved(s.blocks[i].addr + HDR, s.blocks[i].addr + HDR, n, m, m')
    {
      hide Good, Cut;
      var c, p := Cut(s.blocks, i, HDR + n), s.blocks[i].addr + HDR;
      PayloadInHeap(s, i);
      CutHasOthers(s.blocks, i, HDR + n);
      UsedFewer(SetUsed(s.blocks, i, false), c, m, m');
      forall x: nat | p <= x < p + n ensures x in m && Shift(x, p, p) in m' && m'[Shift(x, p, p)] == m[x] {
        assert c[i] in c && InPayload(x, c[i]);
      }
    }

    lemma CutHasOthers(bs: seq<Block>, i: nat, n: nat)
      requires i < |bs| && n <= bs[i].size
      ensures i < |Cut(bs, i, n)| && Cut(bs, i, n)[i] == bs[i].(size := n)
      ensures forall b :: b in SetUsed(bs, i, false) && b.used ==> b in Cut(bs, i, n)
    {
      hide Cut;
      CutPlaces(bs, i, n, i);
      forall b | b in SetUsed(bs, i, false) && b.used ensures b in Cut(bs, i, n) {
        var k :| 0 <= k < |bs| && SetUsed(bs, i, false)[k] == b;
        CutPlaces(bs, i, n, if k < i then k else k + 1);
      }
    }

    /** Grant, copy, free: the contents have moved, and no other used block has lost a byte. */
    lemma MoveKept(s: Pool, s1: Pool, i: nat, j: nat, q: nat, n: nat, k: nat, m: map<nat, int>, m1: map<nat, int>, m3: map<nat, int>)
      requires Good(s) && Good(s1) && s1.size == s.size && i < |s.blocks| && s.blocks[i].used
      requires j < |s1.blocks| && s1.blocks[j] == s.blocks[i] && q >= HDR && k <= n && k + HDR <= s.blocks[i].size
      requires GotBlock(s.blocks, s1.blocks, q - HDR, n) && SameUsed(s.blocks, s1.blocks, q - HDR)
      requires forall x :: x in m <==> 0 <= x < s.size + 2 * HDR
      requires UsedKept(s.blocks, m, m1)
      requires UsedKept(SetUsed(s1.blocks, j, false), Memcpy(m1, q, s.blocks[i].addr + HDR, k), m3)
      ensures UsedKept(SetUsed(s.blocks, i, false), m, m3)
      ensures Moved(s.blocks[i].addr + HDR, q, k, m, m3)
    {
      hide Good, Wanted, SmallHeap.Aligned;
      var bs, bs1, p := s.blocks, s1.blocks, s.blocks[i].addr + HDR;
      var f, g :| f in bs && g in bs1 && MadeOf(f, g, q - HDR, n);
      var m2 := Memcpy(m1, q, p, k);
      AddrsDiffer(s);
      AddrsDiffer(s1);
      FreeElsewhere(s, f);
      PayloadInHeap(s, i);
      PayloadsApart(s1, g);
      UsedStays(bs1, j);
      assert bs[i] in bs;
      assert g in SetUsed(bs1, j, false);
      MemcpyMoves(m1, q, p, k);
      forall b, x: nat | b in SetUsed(bs, i, false) && b.used && InPayload(x, b) && x in m ensures m3[x] == m[x] {
        UsedStays(bs, i);
        assert b in bs && b.addr != bs[i].addr && b.addr != q - HDR;
        assert b in bs1 && b in SetUsed(bs1, j, false);
        assert m1[x] == m[x] && m2[x] == m1[x];
      }
      forall x: nat | p <= x < p + k ensures x in m && Shift(x, p, q) in m3 && m3[Shift(x, p, q)] == m[x] {
        assert InPayload(x, bs[i]) && InPayload(Shift(x, p, q), g);
      }
    }

    lemma FreeElsewhere(s: Pool, f: Block)
      requires Good(s) && f in s.blocks && !f.used
      ensures forall b :: b in s.blocks && b.used ==> b.addr != f.addr
    {
      Apart(s.blocks, 0, HeapEnd(s), HDR + ALIGN);
    }

    lemma PayloadInHeap(s: Pool, i: nat)
      requires Good(s) && i < |s.blocks|
      ensures s.blocks[i].addr + s.blocks[i].size <= s.size + HDR
    {
      Apart(s.blocks, 0, HeapEnd(s), HDR + ALIGN);
    }

    lemma PayloadsApart(s: Pool, g: Block)
      requires Good(s) && g in s.blocks
      ensures g.addr + g.size <= s.size + HDR
      ensures forall b, x: nat :: b in s.blocks && b.addr != g.addr && InPayload(x, b) ==> !InPayload(x, g)
    {
      Apart(s.blocks, 0, HeapEnd(s), HDR + ALIGN);
    }

    /** The used blocks but for block i. */
    lemma UsedStays(bs: seq<Block>, i: nat)
      requires i < |bs| && AddrOnce(bs, i)
      ensures forall b :: b in SetUsed(bs, i, false) && b.used <==> b in bs && b.used && b.addr != bs[i].addr
    {
      var c := SetUsed(bs, i, false);
      forall b: Block | b.used ensures b in c <==> b in bs && b.addr != bs[i].addr {
        if b in c { var k :| 0 <= k < |c| && c[k] == b; assert bs[k] == b; }
        if b in bs && b.addr != bs[i].addr { var k :| 0 <= k < |bs| && bs[k] == b; assert c[k] == b; }
      }
    }

    lemma AlignedTwice(n: nat)
      requires Valid()
      ensures Aligned(Aligned(n)) == Aligned(n) && (Aligned(n) == 0 <==> n == 0)
      ensures Aligned(n) > 0 ==> Aligned(n) >= ALIGN
      ensures Wanted(Aligned(n)) == Wanted(n)
    {
    }

    /** The in-place branch of rt_realloc. */
    method ShrinkAt(mem: nat, n: nat, ghost i: nat)
      requires Valid() && i < |blocks| && blocks[i].used && blocks[i].addr == mem
      requires ALIGN <= n && n % ALIGN == 0 && ShrinksInPlace(blocks[i], n)
      modifies this
      ensures Valid() && View() == Shrink(old(View()), i, n)
      ensures UsedKept(Cut(old(blocks), i, HDR + n), old(bytes), bytes)
    {
      hide Linked, Good, Cut, MergeAround, Plugged, FreeBlockAt, UsedKept, AllKept;
      ShrinkGood(View(), i, n);
      ReadHeader(hdr, blocks, size + HDR, i);
      ShrunkLfree(View(), i, n);
      CutPlaces(blocks, i, HDR + n, i + 1);
      used := used - (hdr[mem].next - mem - HDR - n);
      InsertAfter(mem, mem + HDR + n, i, HDR + n);
      ghost var b1, m1 := blocks, bytes;
      AllIsUsed(b1, old(bytes), m1);
      PlugHoles(mem + HDR + n, i + 1);
      UsedKeptTwice(b1, old(bytes), m1, bytes);
    }
  }

  /** Plugging holes after a cut moves `lfree` only when the block it points to is swallowed. */
  lemma ShrunkLfree(s: Pool, i: nat, n: nat)
    requires Good(s) && i < |s.blocks| && s.blocks[i].used && ALIGN <= n && ShrinksInPlace(s.blocks[i], n)
    ensures i + 1 < |Cut(s.blocks, i, HDR + n)|
    ensures Plugged(Cut(s.blocks, i, HDR + n), i + 1, s.lfree) == Shrink(s, i, n).lfree
  {
    hide Coalesced, AllAligned, UsedSpan, Cut, Shorten;
    CutPlaces(s.blocks, i, HDR + n, i);
    CutPlaces(s.blocks, i, HDR + n, i + 1);
    Behind(s.blocks, 0, HeapEnd(s), HDR + ALIGN, i, i);
    if i + 1 < |s.blocks| {
      CutPlaces(s.blocks, i, HDR + n, i + 2);
      Behind(s.blocks, 0, HeapEnd(s), HDR + ALIGN, i, i + 1);
      if s.lfree == s.blocks[i + 1].addr { NextIsLfree(s, i); }
    }
  }

  lemma NextIsLfree(s: Pool, i: nat)
    requires Good(s) && i + 1 < |s.blocks| && s.lfree == s.blocks[i + 1].addr
    ensures !s.blocks[i + 1].used && s.lfree != HeapEnd(s)
  {
    hide Coalesced, AllAligned, UsedSpan;
    Apart(s.blocks, 0, HeapEnd(s), HDR + ALIGN);
  }

  /** Lowering `lfree` and then plugging holes leaves it at the merged block. */
  lemma FreedLfree(s: Pool, i: nat)
    requires Good(s) && i < |s.blocks| && s.blocks[i].used
    ensures Plugged(SetUsed(s.blocks, i, false), i, if s.blocks[i].addr < s.lfree then s.blocks[i].addr else s.lfree)
         == SmallHeap.Free(s, i).lfree
  {
    hide Coalesced, AllAligned, UsedSpan, Release;
    Behind(s.blocks, 0, HeapEnd(s), HDR + ALIGN, i, i);
    if i + 1 < |s.blocks| { Behind(s.blocks, 0, HeapEnd(s), HDR + ALIGN, i, i + 1); }
    LfreeNotUsed(s, i);
  }

  lemma {:induction false} FindSkips(bs: seq<Block>, lo: nat, n: nat, lim: nat, k: nat)
    requires k <= |bs| && forall j :: 0 <= j < k ==> bs[j].addr < lo
    ensures Find(bs, lo, n, lim, 0) == Find(bs, lo, n, lim, k)
  {
    if k > 0 { FindSkips(bs, lo, n, lim, k - 1); }
  }
}
