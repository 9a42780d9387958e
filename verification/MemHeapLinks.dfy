/** memheap.c: the memory under the heap, its block headers and their pointers. */
module MemHeapLinks {
  // Headers stand on a circular physical list, those of free blocks also on a second, unordered one; here are the pointer
  // updates that insert, drop, link and unlink headers.
  //
  // Memory is modelled down to its headers: writing a header destroys every header and every byte it overlaps, so that
  // "the other blocks are untouched" is something to be proved.

  import opened Seqs
  import opened Tiling
  import opened Rings
  import opened Bytes

  const ALIGN := 4
  const HDR := 24        // RT_MEMHEAP_SIZE
  const MINIALLOC := 12  // RT_MEMHEAP_MINIALLOC
  const NULL := 0

  /** `struct rt_memheap_item`, without the magic number and the pool pointer. */
  datatype Item = Item(next: nat, prev: nat, nextFree: nat, prevFree: nat, used: bool)

  /** Memory: the headers that are intact, and the bytes. */
  datatype Mem = Mem(items: map<nat, Item>, bytes: map<nat, int>)

  predicate Overlap(a: nat, b: nat) { a < b + HDR && b < a + HDR }

  /** Write a header at address a.  What its bytes are does not matter here; they are set to 0. */
  function Put(m: Mem, a: nat, it: Item): Mem {
    Mem((map k | k in m.items && !Overlap(k, a) :: m.items[k])[a := it],
        map x | x in m.bytes :: if a <= x < a + HDR then 0 else m.bytes[x])
  }

  /** RT_ALIGN(size, RT_ALIGN_SIZE) and the lower bound on an allocation. */
  function Rounded(size: nat): (r: nat)
    ensures r >= size && r >= MINIALLOC && r % ALIGN == 0 && (r == MINIALLOC || r < size + ALIGN)
  {
    var s := (size + ALIGN - 1) / ALIGN * ALIGN;
    if s < MINIALLOC then MINIALLOC else s
  }

  function Nexts(m: map<nat, Item>): map<nat, nat> { map k | k in m :: m[k].next }
  function Prevs(m: map<nat, Item>): map<nat, nat> { map k | k in m :: m[k].prev }
  function NextFrees(m: map<nat, Item>): map<nat, nat> { map k | k in m :: m[k].nextFree }
  function PrevFrees(m: map<nat, Item>): map<nat, nat> { map k | k in m :: m[k].prevFree }

  function Addrs(bs: seq<Block>): (r: seq<nat>)
    ensures |r| == |bs|
  {
    seq(|bs|, i requires 0 <= i < |bs| => bs[i].addr)
  }

  function AddrSet(bs: seq<Block>): set<nat> { set i | 0 <= i < |bs| :: bs[i].addr }

  /** All headers of a heap, that of the free list included. */
  function Headers(bs: seq<Block>, head: nat): set<nat> { AddrSet(bs) + {head} }

  lemma AddrsAreAddrSet(bs: seq<Block>)
    ensures forall a :: a in Addrs(bs) <==> a in AddrSet(bs)
  {
    forall a | a in AddrSet(bs) ensures a in Addrs(bs) {
      var i :| 0 <= i < |bs| && bs[i].addr == a;
      assert Addrs(bs)[i] == a;
    }
  }

  /** The physical list is the blocks in address order, with their used flags. */
  ghost predicate Physical(m: map<nat, Item>, bs: seq<Block>) {
    && Ring(Nexts(m), Prevs(m), Addrs(bs))
    && forall i :: 0 <= i < |bs| ==> bs[i].addr in m && m[bs[i].addr].used == bs[i].used
  }

  /** The free list runs through its header. */
  ghost predicate FreeList(m: map<nat, Item>, head: nat, free: seq<nat>) {
    Ring(NextFrees(m), PrevFrees(m), [head] + free)
  }

  /** x is a payload byte of block b. */
  predicate InPayload(x: nat, b: Block) { b.addr + HDR <= x < b.addr + b.size }

  /** Payload bytes of all blocks of bs are the same in both memories. */
  ghost predicate PayloadsKept(bs: seq<Block>, m: map<nat, int>, m': map<nat, int>) {
    && m'.Keys == m.Keys
    && forall i, x :: 0 <= i < |bs| && InPayload(x, bs[i]) && x in m ==> m'[x] == m[x]
  }

  /** The pointers of a heap are sound; nothing yet about which blocks are on the free list. */
  ghost predicate Sound(m: Mem, bs: seq<Block>, free: seq<nat>, lo: nat, hi: nat, head: nat) {
    && Tiles(bs, lo, hi, HDR) && |bs| >= 2 && (head + HDR <= lo || hi <= head)
    && Physical(m.items, bs) && FreeList(m.items, head, free)
    && (forall a :: a in free ==> a in AddrSet(bs))
    && (forall x :: x in m.bytes <==> lo <= x < hi)
  }

  predicate SpacedOut(l: set<nat>) { forall a, b :: a in l && b in l && a != b ==> !Overlap(a, b) }

  /** Headers of different blocks, and the free-list header, do not overlap. */
  lemma HeadersSpaced(bs: seq<Block>, lo: nat, hi: nat, head: nat)
    requires Tiles(bs, lo, hi, HDR) && (head + HDR <= lo || hi <= head)
    ensures SpacedOut(Headers(bs, head)) && head !in AddrSet(bs) && Distinct(Addrs(bs))
  {
    Apart(bs, lo, hi, HDR);
    forall a, b | a in Headers(bs, head) && b in Headers(bs, head) && a != b
      ensures !Overlap(a, b)
    {
      if a != head && b != head {
        var i, j :| 0 <= i < |bs| && 0 <= j < |bs| && bs[i].addr == a && bs[j].addr == b;
        assert i < j || j < i;
      }
    }
  }

  /** x lies in none of the headers of l. */
  ghost predicate Outside(l: set<nat>, x: int) { forall k :: k in l ==> !(k <= x < k + HDR) }

  ghost predicate BytesKept(l: set<nat>, m: map<nat, int>, m': map<nat, int>) {
    m'.Keys == m.Keys && forall x :: x in m && Outside(l, x) ==> m'[x] == m[x]
  }

  /** Writing header a, of a set that is spaced out, leaves the other headers of the set alone. */
  lemma PutKeeps(m: Mem, a: nat, it: Item, l: set<nat>)
    requires SpacedOut(l) && a in l
    ensures a in Put(m, a, it).items && Put(m, a, it).items[a] == it
    ensures forall k :: k in l && k != a && k in m.items ==>
      k in Put(m, a, it).items && Put(m, a, it).items[k] == m.items[k]
    ensures BytesKept(l, m.bytes, Put(m, a, it).bytes)
  {
    forall x | x in m.bytes && Outside(l, x) ensures Put(m, a, it).bytes[x] == m.bytes[x] {
      assert !(a <= x < a + HDR);
    }
  }

  // ---------------------------------------------------------------- the pointer updates, and what they do

  /** m' has the headers of l as m has them, but for what `upd` changes; other bytes are kept. */
  ghost predicate OnHeaders(m: Mem, m': Mem, l: set<nat>, upd: (nat, Item) -> Item) {
    ItemsUpdated(m.items, m'.items, l, upd) && BytesKept(l, m.bytes, m'.bytes)
  }

  ghost predicate ItemsUpdated(m: map<nat, Item>, m': map<nat, Item>, l: set<nat>, upd: (nat, Item) -> Item) {
    forall k :: k in l ==> k in m' && k in m && m'[k] == upd(k, m[k])
  }

  predicate AllIn(l: set<nat>, m: map<nat, Item>) { forall k :: k in l ==> k in m }

  /** n and p become neighbours on the free list. */
  function FreeBypass(n: nat, p: nat): (nat, Item) -> Item {
    (k: nat, it: Item) =>
      it.(prevFree := if k == n then p else it.prevFree, nextFree := if k == p then n else it.nextFree)
  }

  /** h comes between head and n on the free list. */
  function FreeInsert(h: nat, head: nat, n: nat): (nat, Item) -> Item {
    (k: nat, it: Item) =>
      it.(prevFree := if k == n then h else if k == h then head else it.prevFree,
          nextFree := if k == head then h else if k == h then n else it.nextFree)
  }

  /** n and p become neighbours on the physical list. */
  function Bypass(n: nat, p: nat): (nat, Item) -> Item {
    (k: nat, it: Item) => it.(prev := if k == n then p else it.prev, next := if k == p then n else it.next)
  }

  /** p comes between a and n on the physical list. */
  function Interpose(a: nat, p: nat, n: nat): (nat, Item) -> Item {
    (k: nat, it: Item) => it.(prev := if k == n then p else it.prev, next := if k == a then p else it.next)
  }

  predicate CanUnlink(m: Mem, h: nat) {
    h in m.items && m.items[h].nextFree in m.items
    && var n, p := m.items[h].nextFree, m.items[h].prevFree;
      p in Put(m, n, m.items[n].(prevFree := p)).items
  }

  /** `header_ptr->next_free->prev_free = header_ptr->prev_free`, and the other way round. */
  function Unlinked(m: Mem, h: nat): Mem
    requires CanUnlink(m, h)
  {
    var n, p := m.items[h].nextFree, m.items[h].prevFree;
    var m1 := Put(m, n, m.items[n].(prevFree := p));
    Put(m1, p, m1.items[p].(nextFree := n))
  }

  lemma UnlinkedOn(m: Mem, h: nat, l: set<nat>)
    requires SpacedOut(l) && h in l && AllIn(l, m.items)
    requires m.items[h].nextFree in l && m.items[h].prevFree in l
    ensures CanUnlink(m, h) && OnHeaders(m, Unlinked(m, h), l, FreeBypass(m.items[h].nextFree, m.items[h].prevFree))
  {
    var n, p := m.items[h].nextFree, m.items[h].prevFree;
    PutKeeps(m, n, m.items[n].(prevFree := p), l);
    var m1 := Put(m, n, m.items[n].(prevFree := p));
    PutKeeps(m1, p, m1.items[p].(nextFree := n), l);
  }

  predicate CanPush(m: Mem, h: nat, head: nat) {
    h in m.items && head in m.items
    && var n := m.items[head].nextFree;
      var m1 := Put(m, h, m.items[h].(nextFree := n, prevFree := head));
      n in m1.items && head in Put(m1, n, m1.items[n].(prevFree := h)).items
  }

  /** Insert h behind the free-list header. */
  function Pushed(m: Mem, h: nat, head: nat): Mem
    requires CanPush(m, h, head)
  {
    var n := m.items[head].nextFree;
    var m1 := Put(m, h, m.items[h].(nextFree := n, prevFree := head));
    var m2 := Put(m1, n, m1.items[n].(prevFree := h));
    Put(m2, head, m2.items[head].(nextFree := h))
  }

  lemma PushedOn(m: Mem, h: nat, head: nat, l: set<nat>)
    requires SpacedOut(l) && h in l && head in l && h != head && AllIn(l, m.items)
    requires m.items[head].nextFree in l && m.items[head].nextFree != h
    ensures CanPush(m, h, head) && OnHeaders(m, Pushed(m, h, head), l, FreeInsert(h, head, m.items[head].nextFree))
  {
    var n := m.items[head].nextFree;
    PutKeeps(m, h, m.items[h].(nextFree := n, prevFree := head), l);
    var m1 := Put(m, h, m.items[h].(nextFree := n, prevFree := head));
    PutKeeps(m1, n, m1.items[n].(prevFree := h), l);
    var m2 := Put(m1, n, m1.items[n].(prevFree := h));
    PutKeeps(m2, head, m2.items[head].(nextFree := h), l);
  }

  predicate CanDrop(m: Mem, b: nat) {
    b in m.items && m.items[b].prev in m.items
    && var n, p := m.items[b].next, m.items[b].prev;
      n in Put(m, p, m.items[p].(next := n)).items
  }

  /** Take b out of the physical list: its neighbours point to each other. */
  function Dropped(m: Mem, b: nat): Mem
    requires CanDrop(m, b)
  {
    var n, p := m.items[b].next, m.items[b].prev;
    var m1 := Put(m, p, m.items[p].(next := n));
    Put(m1, n, m1.items[n].(prev := p))
  }

  lemma DroppedOn(m: Mem, b: nat, l: set<nat>)
    requires SpacedOut(l) && b in m.items && AllIn(l, m.items)
    requires m.items[b].next in l && m.items[b].prev in l
    ensures CanDrop(m, b) && OnHeaders(m, Dropped(m, b), l, Bypass(m.items[b].next, m.items[b].prev))
  {
    var n, p := m.items[b].next, m.items[b].prev;
    PutKeeps(m, p, m.items[p].(next := n), l);
    var m1 := Put(m, p, m.items[p].(next := n));
    PutKeeps(m1, n, m1.items[n].(prev := p), l);
  }

  predicate CanInsert(m: Mem, a: nat, p: nat) {
    a in m.items
    && var n := m.items[a].next;
      var m1 := Put(m, p, Item(n, a, NULL, NULL, false));
      n in m1.items && a in Put(m1, n, m1.items[n].(prev := p)).items
  }

  /** Write a fresh free header p into the physical list, behind a. */
  function Inserted(m: Mem, a: nat, p: nat): Mem
    requires CanInsert(m, a, p)
  {
    var n := m.items[a].next;
    var m1 := Put(m, p, Item(n, a, NULL, NULL, false));
    var m2 := Put(m1, n, m1.items[n].(prev := p));
    Put(m2, a, m2.items[a].(next := p))
  }

  lemma InsertedOn(m: Mem, a: nat, p: nat, l: set<nat>)
    requires SpacedOut(l) && a in l && p in l && a != p && AllIn(l - {p}, m.items)
    requires m.items[a].next in l && m.items[a].next != p
    ensures CanInsert(m, a, p)
    ensures p in Inserted(m, a, p).items && Inserted(m, a, p).items[p] == Item(m.items[a].next, a, NULL, NULL, false)
    ensures ItemsUpdated(m.items, Inserted(m, a, p).items, l - {p}, Interpose(a, p, m.items[a].next))
    ensures BytesKept(l, m.bytes, Inserted(m, a, p).bytes)
  {
    var n := m.items[a].next;
    var it := Item(n, a, NULL, NULL, false);
    PutKeeps(m, p, it, l);
    var m1 := Put(m, p, it);
    assert forall k :: k in l - {p} ==> k in l;
    PutKeeps(m1, n, m1.items[n].(prev := p), l);
    var m2 := Put(m1, n, m1.items[n].(prev := p));
    PutKeeps(m2, a, m2.items[a].(next := p), l);
  }

  // ---------------------------------------------------------------- they keep the pointers sound

  predicate Within(r: seq<nat>, l: set<nat>) { forall a :: a in r ==> a in l }

  lemma RingNeighbours(f: map<nat, nat>, g: map<nat, nat>, r: seq<nat>, k: nat, l: set<nat>)
    requires Ring(f, g, r) && k < |r| && Within(r, l)
    ensures r[k] in f && r[k] in g && f[r[k]] in l && g[r[k]] in l && r[k] in l
    ensures f[r[k]] == r[Nx(k, |r|)] && g[r[k]] == r[if k == 0 then |r| - 1 else k - 1]
  {
    var p := if k == 0 then |r| - 1 else k - 1;
    assert LinkAt(f, g, r, k) && LinkAt(f, g, r, p);
    assert r[Nx(k, |r|)] in r && r[p] in r && r[k] in r;
  }

  lemma UnlinkedRing(m: map<nat, Item>, m': map<nat, Item>, l: set<nat>, r: seq<nat>, k: nat)
    requires Ring(NextFrees(m), PrevFrees(m), r) && Within(r, l) && k < |r| && |r| >= 2 && r[k] in m
    requires ItemsUpdated(m, m', l, FreeBypass(m[r[k]].nextFree, m[r[k]].prevFree))
    ensures Ring(NextFrees(m'), PrevFrees(m'), r[..k] + r[k + 1..])
  {
    var q := r[..k] + r[k + 1..];
    assert forall a :: a in q ==> a in r;
    RemoveRing(NextFrees(m), PrevFrees(m), NextFrees(m'), PrevFrees(m'), r, k);
  }

  lemma PushedRing(m: map<nat, Item>, m': map<nat, Item>, l: set<nat>, r: seq<nat>, h: nat)
    requires Ring(NextFrees(m), PrevFrees(m), r) && Within(r, l) && h in l && h !in r && r[0] in m
    requires ItemsUpdated(m, m', l, FreeInsert(h, r[0], m[r[0]].nextFree))
    ensures Ring(NextFrees(m'), PrevFrees(m'), [r[0], h] + r[1..])
  {
    RingNeighbours(NextFrees(m), PrevFrees(m), r, 0, l);
    InsertRing(NextFrees(m), PrevFrees(m), NextFrees(m'), PrevFrees(m'), r, 0, h);
    assert r[..1] + [h] + r[1..] == [r[0], h] + r[1..];
  }

  lemma DroppedRing(m: map<nat, Item>, m': map<nat, Item>, l: set<nat>, r: seq<nat>, k: nat)
    requires Ring(Nexts(m), Prevs(m), r) && k < |r| && |r| >= 2 && r[k] in m && Within(r[..k] + r[k + 1..], l)
    requires ItemsUpdated(m, m', l, Bypass(m[r[k]].next, m[r[k]].prev))
    ensures Ring(Nexts(m'), Prevs(m'), r[..k] + r[k + 1..])
  {
    RemoveRing(Nexts(m), Prevs(m), Nexts(m'), Prevs(m'), r, k);
  }

  lemma InsertedRing(m: map<nat, Item>, m': map<nat, Item>, l: set<nat>, r: seq<nat>, k: nat, p: nat)
    requires Ring(Nexts(m), Prevs(m), r) && Within(r, l) && k < |r| && p !in r && r[k] in m
    requires ItemsUpdated(m, m', l, Interpose(r[k], p, m[r[k]].next))
    requires p in m' && m'[p].next == m[r[k]].next && m'[p].prev == r[k]
    ensures Ring(Nexts(m'), Prevs(m'), r[..k + 1] + [p] + r[k + 1..])
  {
    RingNeighbours(Nexts(m), Prevs(m), r, k, l);
    InsertRing(Nexts(m), Prevs(m), Nexts(m'), Prevs(m'), r, k, p);
  }

  lemma SoundHeaders(m: Mem, bs: seq<Block>, free: seq<nat>, lo: nat, hi: nat, head: nat)
    requires Sound(m, bs, free, lo, hi, head)
    ensures SpacedOut(Headers(bs, head)) && AllIn(Headers(bs, head), m.items) && head !in AddrSet(bs)
    ensures Within([head] + free, Headers(bs, head)) && Within(Addrs(bs), Headers(bs, head))
  {
    HeadersSpaced(bs, lo, hi, head);
    AddrsAreAddrSet(bs);
    RingNeighbours(NextFrees(m.items), PrevFrees(m.items), [head] + free, 0, Headers(bs, head));
  }

  /** Bytes outside the headers are what they were: no payload has changed. */
  lemma PayloadsOutside(bs: seq<Block>, lo: nat, hi: nat, head: nat, m: map<nat, int>, m': map<nat, int>)
    requires Tiles(bs, lo, hi, HDR) && (head + HDR <= lo || hi <= head)
    requires BytesKept(Headers(bs, head), m, m')
    ensures PayloadsKept(bs, m, m')
  {
    Apart(bs, lo, hi, HDR);
    forall i, x: nat | 0 <= i < |bs| && InPayload(x, bs[i]) && x in m ensures m'[x] == m[x] {
      forall k | k in Headers(bs, head) ensures !(k <= x < k + HDR) {
        if k != head {
          var j :| 0 <= j < |bs| && bs[j].addr == k;
          if j < i { assert bs[j].addr + HDR <= bs[i].addr; }
          if i < j { assert bs[i].addr + bs[i].size <= bs[j].addr; }
        }
      }
    }
  }

  /** Only free-list pointers have changed. */
  lemma PhysicalUntouched(m: map<nat, Item>, m': map<nat, Item>, bs: seq<Block>)
    requires Physical(m, bs)
    requires forall k :: k in AddrSet(bs) && k in m ==>
      k in m' && m'[k].next == m[k].next && m'[k].prev == m[k].prev && m'[k].used == m[k].used
    ensures Physical(m', bs)
  {
    AddrsAreAddrSet(bs);
    SameRing(Nexts(m), Prevs(m), Nexts(m'), Prevs(m'), Addrs(bs));
    forall i | 0 <= i < |bs| ensures bs[i].addr in m' && m'[bs[i].addr].used == bs[i].used {
      assert bs[i].addr in AddrSet(bs);
    }
  }

  predicate FreePointersOnly(upd: (nat, Item) -> Item, m: map<nat, Item>) {
    forall k :: k in m ==>
      upd(k, m[k]).next == m[k].next && upd(k, m[k]).prev == m[k].prev && upd(k, m[k]).used == m[k].used
  }

  /** An update of free-list pointers, as far as everything else is concerned. */
  lemma FreeListUpdate(m: Mem, m': Mem, bs: seq<Block>, free: seq<nat>, free': seq<nat>, lo: nat, hi: nat, head: nat,
                       upd: (nat, Item) -> Item)
    requires Sound(m, bs, free, lo, hi, head) && FreeList(m'.items, head, free')
    requires forall a :: a in free' ==> a in AddrSet(bs)
    requires OnHeaders(m, m', Headers(bs, head), upd) && FreePointersOnly(upd, m.items)
    ensures Sound(m', bs, free', lo, hi, head) && PayloadsKept(bs, m.bytes, m'.bytes)
  {
    PhysicalUntouched(m.items, m'.items, bs);
    PayloadsOutside(bs, lo, hi, head, m.bytes, m'.bytes);
  }

  /** Taking the free block at place j off the free list. */
  lemma UnlinkedFree(m: Mem, l: set<nat>, free: seq<nat>, head: nat, j: nat)
    requires FreeList(m.items, head, free) && j < |free| && SpacedOut(l) && AllIn(l, m.items) && Within([head] + free, l)
    ensures CanUnlink(m, free[j]) && FreeList(Unlinked(m, free[j]).items, head, free[..j] + free[j + 1..])
    ensures OnHeaders(m, Unlinked(m, free[j]), l, FreeBypass(m.items[free[j]].nextFree, m.items[free[j]].prevFree))
  {
    var h, r := free[j], [head] + free;
    RingNeighbours(NextFrees(m.items), PrevFrees(m.items), r, j + 1, l);
    assert r[j + 1] == h;
    UnlinkedOn(m, h, l);
    UnlinkedRing(m.items, Unlinked(m, h).items, l, r, j + 1);
    assert r[..j + 1] + r[j + 2..] == [head] + (free[..j] + free[j + 1..]);
  }

  lemma UnlinkedSound(m: Mem, bs: seq<Block>, free: seq<nat>, lo: nat, hi: nat, head: nat, j: nat)
    requires Sound(m, bs, free, lo, hi, head) && j < |free|
    ensures CanUnlink(m, free[j])
    ensures Sound(Unlinked(m, free[j]), bs, free[..j] + free[j + 1..], lo, hi, head)
    ensures PayloadsKept(bs, m.bytes, Unlinked(m, free[j]).bytes)
  {
    SoundHeaders(m, bs, free, lo, hi, head);
    UnlinkedFree(m, Headers(bs, head), free, head, j);
    FreeListUpdate(m, Unlinked(m, free[j]), bs, free, free[..j] + free[j + 1..], lo, hi, head,
                   FreeBypass(m.items[free[j]].nextFree, m.items[free[j]].prevFree));
  }

  /** Putting a block that is not on it at the front of the free list. */
  lemma PushedFree(m: Mem, l: set<nat>, free: seq<nat>, head: nat, h: nat)
    requires FreeList(m.items, head, free) && SpacedOut(l) && AllIn(l, m.items) && Within([head] + free, l)
    requires h in l && h !in [head] + free
    ensures CanPush(m, h, head) && FreeList(Pushed(m, h, head).items, head, [h] + free)
    ensures OnHeaders(m, Pushed(m, h, head), l, FreeInsert(h, head, m.items[head].nextFree))
  {
    var r := [head] + free;
    assert r[0] == head && r[1..] == free;
    assert head in l && head != h && m.items[head].nextFree in l && m.items[head].nextFree != h by {
      RingNeighbours(NextFrees(m.items), PrevFrees(m.items), r, 0, l);
      assert r[Nx(0, |r|)] in r && r[0] in r;
    }
    PushedOn(m, h, head, l);
    var m' := Pushed(m, h, head);
    assert Ring(NextFrees(m'.items), PrevFrees(m'.items), [head, h] + free) by {
      PushedRing(m.items, m'.items, l, r, h);
    }
    assert [head, h] + free == [head] + ([h] + free);
  }

  lemma PushedSound(m: Mem, bs: seq<Block>, free: seq<nat>, lo: nat, hi: nat, head: nat, h: nat)
    requires Sound(m, bs, free, lo, hi, head) && h in AddrSet(bs) && h !in free
    ensures CanPush(m, h, head)
    ensures Sound(Pushed(m, h, head), bs, [h] + free, lo, hi, head)
    ensures PayloadsKept(bs, m.bytes, Pushed(m, h, head).bytes)
  {
    SoundHeaders(m, bs, free, lo, hi, head);
    PushedFree(m, Headers(bs, head), free, head, h);
    FreeListUpdate(m, Pushed(m, h, head), bs, free, [h] + free, lo, hi, head,
                   FreeInsert(h, head, m.items[head].nextFree));
  }

  // ---------------------------------------------------------------- updates of the physical list

  lemma CutAddrs(bs: seq<Block>, i: nat, n: nat)
    requires i < |bs| && n <= bs[i].size
    ensures Addrs(Cut(bs, i, n)) == Addrs(bs)[..i + 1] + [bs[i].addr + n] + Addrs(bs)[i + 1..]
    ensures AddrSet(Cut(bs, i, n)) == AddrSet(bs) + {bs[i].addr + n}
  {
    var c := Cut(bs, i, n);
    var q := Addrs(bs)[..i + 1] + [bs[i].addr + n] + Addrs(bs)[i + 1..];
    forall k | 0 <= k < |c| ensures c[k].addr == q[k] {
      if k > i + 1 { assert c[k] == bs[k - 1]; }
    }
    AddrsAreAddrSet(bs);
    AddrsAreAddrSet(c);
    assert Addrs(c) == q;
    assert forall a :: a in q <==> a in Addrs(bs) || a == bs[i].addr + n by {
      assert Addrs(bs) == Addrs(bs)[..i + 1] + Addrs(bs)[i + 1..];
    }
  }

  lemma JoinAddrs(bs: seq<Block>, i: nat)
    requires i + 1 < |bs| && Distinct(Addrs(bs))
    ensures Addrs(Join(bs, i)) == Addrs(bs)[..i + 1] + Addrs(bs)[i + 2..]
    ensures AddrSet(Join(bs, i)) == AddrSet(bs) - {bs[i + 1].addr}
  {
    var c, r := Join(bs, i), Addrs(bs);
    var q := r[..i + 1] + r[i + 2..];
    assert Addrs(c) == q;
    AddrsAreAddrSet(bs);
    AddrsAreAddrSet(c);
    forall a ensures a in q <==> a in r && a != r[i + 1] {
      if a in r && a != r[i + 1] {
        var k :| 0 <= k < |r| && r[k] == a;
        assert q[if k <= i then k else k - 1] == a;
      }
    }
  }

  lemma FlagsOf(m: map<nat, Item>, bs: seq<Block>, k: int)
    requires Physical(m, bs) && 0 <= k < |bs|
    ensures bs[k].addr in m && m[bs[k].addr].used == bs[k].used && bs[k].addr in AddrSet(bs) && Addrs(bs)[k] == bs[k].addr
  {
  }

  /** The physical list changed, the free list did not. */
  lemma FreeListUntouched(m: map<nat, Item>, m': map<nat, Item>, free: seq<nat>, head: nat, l: set<nat>)
    requires FreeList(m, head, free) && Within([head] + free, l)
    requires forall k :: k in l && k in m ==>
      k in m' && m'[k].nextFree == m[k].nextFree && m'[k].prevFree == m[k].prevFree
    ensures FreeList(m', head, free)
  {
    SameRing(NextFrees(m), PrevFrees(m), NextFrees(m'), PrevFrees(m'), [head] + free);
  }

  /** A place inside a block is no header. */
  lemma PlaceApart(bs: seq<Block>, i: nat, n: nat, lo: nat, hi: nat, head: nat)
    requires Tiles(bs, lo, hi, HDR) && i < |bs| && 0 < n < bs[i].size && (head + HDR <= lo || hi <= head)
    ensures bs[i].addr + n !in AddrSet(bs) && bs[i].addr + n != head
  {
    Apart(bs, lo, hi, HDR);
  }

  lemma CutPhysical(m: map<nat, Item>, m': map<nat, Item>, l: set<nat>, bs: seq<Block>, i: nat, n: nat)
    requires Physical(m, bs) && i < |bs| && 0 < n < bs[i].size && bs[i].addr + n !in AddrSet(bs)
    requires Within(Addrs(bs), l) && bs[i].addr in m
    requires ItemsUpdated(m, m', l, Interpose(bs[i].addr, bs[i].addr + n, m[bs[i].addr].next))
    requires bs[i].addr + n in m' && m'[bs[i].addr + n] == Item(m[bs[i].addr].next, bs[i].addr, NULL, NULL, false)
    ensures Physical(m', Cut(bs, i, n))
  {
    var c, p := Cut(bs, i, n), bs[i].addr + n;
    CutAddrs(bs, i, n);
    AddrsAreAddrSet(bs);
    assert Addrs(bs)[i] == bs[i].addr;
    InsertedRing(m, m', l, Addrs(bs), i, p);
    forall k | 0 <= k < |c| ensures c[k].addr in m' && m'[c[k].addr].used == c[k].used {
      if k != i + 1 {
        FlagsOf(m, bs, if k <= i then k else k - 1);
        assert Addrs(bs)[if k <= i then k else k - 1] in l;
      }
    }
  }

  /** A new header inside a block: the block is cut in two. */
  lemma InsertedSound(m: Mem, bs: seq<Block>, free: seq<nat>, lo: nat, hi: nat, head: nat, i: nat, n: nat)
    requires Sound(m, bs, free, lo, hi, head) && i < |bs| && HDR <= n && n + HDR <= bs[i].size
    ensures CanInsert(m, bs[i].addr, bs[i].addr + n)
    ensures Sound(Inserted(m, bs[i].addr, bs[i].addr + n), Cut(bs, i, n), free, lo, hi, head)
    ensures PayloadsKept(Cut(bs, i, n), m.bytes, Inserted(m, bs[i].addr, bs[i].addr + n).bytes)
  {
    hide Put, Inserted, CanInsert, Cut, Tiles, Distinct, SpacedOut, PayloadsKept, BytesKept;
    var c, a, p := Cut(bs, i, n), bs[i].addr, bs[i].addr + n;
    SoundHeaders(m, bs, free, lo, hi, head);
    PlaceApart(bs, i, n, lo, hi, head);
    CutTiles(bs, i, n, lo, hi, HDR);
    CutAddrs(bs, i, n);
    HeadersSpaced(c, lo, hi, head);
    var l := Headers(c, head);
    assert l - {p} == Headers(bs, head) && a in l;
    assert m.items[a].next in Headers(bs, head) by {
      RingNeighbours(Nexts(m.items), Prevs(m.items), Addrs(bs), i, Headers(bs, head));
      assert Addrs(bs)[i] == a;
    }
    InsertedOn(m, a, p, l);
    var m' := Inserted(m, a, p);
    FlagsOf(m.items, bs, i);
    CutPhysical(m.items, m'.items, l - {p}, bs, i, n);
    FreeListUntouched(m.items, m'.items, free, head, l - {p});
    PayloadsOutside(c, lo, hi, head, m.bytes, m'.bytes);
  }

  lemma JoinPhysical(m: map<nat, Item>, m': map<nat, Item>, l: set<nat>, bs: seq<Block>, i: nat)
    requires Physical(m, bs) && i + 1 < |bs| && bs[i + 1].addr in m
    requires Within(Addrs(Join(bs, i)), l)
    requires ItemsUpdated(m, m', l, Bypass(m[bs[i + 1].addr].next, m[bs[i + 1].addr].prev))
    ensures Physical(m', Join(bs, i))
  {
    var c, r := Join(bs, i), Addrs(bs);
    JoinAddrs(bs, i);
    assert r[i + 1] == bs[i + 1].addr;
    DroppedRing(m, m', l, r, i + 1);
    forall k | 0 <= k < |c| ensures c[k].addr in m' && m'[c[k].addr].used == c[k].used {
      FlagsOf(m, bs, if k <= i then k else k + 1);
      assert Addrs(c)[k] in l;
    }
  }

  /** Dropping the header of block i + 1, which is not on the free list: block i swallows it. */
  lemma DroppedSound(m: Mem, bs: seq<Block>, free: seq<nat>, lo: nat, hi: nat, head: nat, i: nat)
    requires Sound(m, bs, free, lo, hi, head) && i + 1 < |bs| && |bs| > 2 && bs[i + 1].addr !in free
    ensures CanDrop(m, bs[i + 1].addr)
    ensures Sound(Dropped(m, bs[i + 1].addr), Join(bs, i), free, lo, hi, head)
    ensures PayloadsKept(Join(bs, i), m.bytes, Dropped(m, bs[i + 1].addr).bytes)
  {
    var c, b, r := Join(bs, i), bs[i + 1].addr, Addrs(bs);
    SoundHeaders(m, bs, free, lo, hi, head);
    JoinTiles(bs, i, lo, hi, HDR);
    JoinAddrs(bs, i);
    HeadersSpaced(c, lo, hi, head);
    var l := Headers(c, head);
    assert l == Headers(bs, head) - {b};
    FlagsOf(m.items, bs, i + 1);
    assert m.items[b].next in l && m.items[b].prev in l by {
      RingNeighbours(Nexts(m.items), Prevs(m.items), r, i + 1, Headers(bs, head));
      assert r[Nx(i + 1, |r|)] != r[i + 1] && r[i] != r[i + 1];
    }
    DroppedOn(m, b, l);
    var m' := Dropped(m, b);
    AddrsAreAddrSet(c);
    JoinPhysical(m.items, m'.items, l, bs, i);
    assert Within([head] + free, l);
    FreeListUntouched(m.items, m'.items, free, head, l);
    PayloadsOutside(c, lo, hi, head, m.bytes, m'.bytes);
  }

  /** `header_ptr->magic |= USED`, or the opposite. */
  function Flagged(m: Mem, a: nat, u: bool): Mem
    requires a in m.items
  {
    Put(m, a, m.items[a].(used := u))
  }

  lemma FlaggedPhysical(m: map<nat, Item>, m': map<nat, Item>, bs: seq<Block>, i: nat, u: bool)
    requires Physical(m, bs) && i < |bs| && bs[i].addr in m
    requires forall k :: k in AddrSet(bs) && k in m ==>
      k in m' && m'[k] == if k == bs[i].addr then m[k].(used := u) else m[k]
    ensures Physical(m', SetUsed(bs, i, u))
  {
    var c := SetUsed(bs, i, u);
    assert Addrs(c) == Addrs(bs);
    AddrsAreAddrSet(bs);
    SameRing(Nexts(m), Prevs(m), Nexts(m'), Prevs(m'), Addrs(bs));
    forall k | 0 <= k < |c| ensures c[k].addr in m' && m'[c[k].addr].used == c[k].used {
      FlagsOf(m, bs, k);
      if k != i { assert Addrs(bs)[k] != Addrs(bs)[i]; }
    }
  }

  lemma SetUsedAddrs(bs: seq<Block>, i: nat, u: bool)
    requires i < |bs|
    ensures Addrs(SetUsed(bs, i, u)) == Addrs(bs) && AddrSet(SetUsed(bs, i, u)) == AddrSet(bs)
  {
    AddrsAreAddrSet(bs);
    AddrsAreAddrSet(SetUsed(bs, i, u));
    assert Addrs(SetUsed(bs, i, u)) == Addrs(bs);
  }

  lemma FlaggedSound(m: Mem, bs: seq<Block>, free: seq<nat>, lo: nat, hi: nat, head: nat, i: nat, u: bool)
    requires Sound(m, bs, free, lo, hi, head) && i < |bs|
    ensures bs[i].addr in m.items
    ensures Sound(Flagged(m, bs[i].addr, u), SetUsed(bs, i, u), free, lo, hi, head)
    ensures PayloadsKept(SetUsed(bs, i, u), m.bytes, Flagged(m, bs[i].addr, u).bytes)
  {
    var a, c, l := bs[i].addr, SetUsed(bs, i, u), Headers(bs, head);
    SoundHeaders(m, bs, free, lo, hi, head);
    FlagsOf(m.items, bs, i);
    SetUsedAddrs(bs, i, u);
    PutKeeps(m, a, m.items[a].(used := u), l);
    var m' := Flagged(m, a, u);
    FlaggedPhysical(m.items, m'.items, bs, i, u);
    FreeListUntouched(m.items, m'.items, free, head, l);
    PayloadsOutside(c, lo, hi, head, m.bytes, m'.bytes);
  }

  /** `header_ptr->next_free = RT_NULL`, and `prev_free`. */
  function Cleared(m: Mem, a: nat): Mem
    requires a in m.items
  {
    Put(m, a, m.items[a].(nextFree := NULL, prevFree := NULL))
  }

  /** The free links of a block that is not on the free list mean nothing. */
  lemma ClearedSound(m: Mem, bs: seq<Block>, free: seq<nat>, lo: nat, hi: nat, head: nat, i: nat)
    requires Sound(m, bs, free, lo, hi, head) && i < |bs| && bs[i].addr !in free
    ensures bs[i].addr in m.items && Sound(Cleared(m, bs[i].addr), bs, free, lo, hi, head)
    ensures PayloadsKept(bs, m.bytes, Cleared(m, bs[i].addr).bytes)
  {
    var a, l := bs[i].addr, Headers(bs, head);
    SoundHeaders(m, bs, free, lo, hi, head);
    FlagsOf(m.items, bs, i);
    HeadElsewhere(bs, lo, hi, head, i);
    PutKeeps(m, a, m.items[a].(nextFree := NULL, prevFree := NULL), l);
    var m' := Cleared(m, a);
    PhysicalUntouched(m.items, m'.items, bs);
    FreeListUntouched(m.items, m'.items, free, head, l - {a});
    PayloadsOutside(bs, lo, hi, head, m.bytes, m'.bytes);
  }

  lemma HeadElsewhere(bs: seq<Block>, lo: nat, hi: nat, head: nat, i: nat)
    requires Tiles(bs, lo, hi, HDR) && (head + HDR <= lo || hi <= head) && i < |bs|
    ensures bs[i].addr != head
  {
    Apart(bs, lo, hi, HDR);
  }

  // ---------------------------------------------------------------- the heap's invariant

  /** The addresses of the free blocks. */
  function UnusedSet(bs: seq<Block>): set<nat> { set i | 0 <= i < |bs| && !bs[i].used :: bs[i].addr }

  /** The tail block is a used header and nothing else; every other block can hold an allocation. */
  ghost predicate Sized(bs: seq<Block>) {
    && |bs| >= 2 && bs[|bs| - 1].used && bs[|bs| - 1].size == HDR
    && (forall i :: 0 <= i < |bs| - 1 ==> bs[i].size >= HDR + MINIALLOC)
    && (forall i :: 0 <= i < |bs| ==> bs[i].size % ALIGN == 0)
  }

  /** Blocks in use other than the one at address a are still there, with the same contents. */
  ghost predicate OthersKept(bs: seq<Block>, m: map<nat, int>, bs': seq<Block>, m': map<nat, int>, a: nat) {
    && m'.Keys == m.Keys
    && forall b :: b in bs && b.used && b.addr != a ==>
         b in bs' && forall x: nat :: InPayload(x, b) && x in m ==> m'[x] == m[x]
  }

  lemma KeptTwice(bs: seq<Block>, m: map<nat, int>, bs1: seq<Block>, m1: map<nat, int>,
                  bs2: seq<Block>, m2: map<nat, int>, a: nat)
    requires OthersKept(bs, m, bs1, m1, a) && OthersKept(bs1, m1, bs2, m2, a)
    ensures OthersKept(bs, m, bs2, m2, a)
  {
  }

  lemma KeptBySame(bs: seq<Block>, m: map<nat, int>, m': map<nat, int>, a: nat)
    requires PayloadsKept(bs, m, m')
    ensures OthersKept(bs, m, bs, m', a)
  {
  }

  lemma KeptByCut(bs: seq<Block>, i: nat, n: nat, m: map<nat, int>, m': map<nat, int>, a: nat)
    requires i < |bs| && n <= bs[i].size && PayloadsKept(Cut(bs, i, n), m, m') && (!bs[i].used || bs[i].addr == a)
    ensures OthersKept(bs, m, Cut(bs, i, n), m', a)
  {
    var c := Cut(bs, i, n);
    forall b | b in bs && b.used && b.addr != a ensures b in c {
      var k :| 0 <= k < |bs| && bs[k] == b;
      assert c[if k < i then k else k + 1] == b;
    }
  }

  lemma KeptByJoin(bs: seq<Block>, i: nat, m: map<nat, int>, m': map<nat, int>, a: nat)
    requires i + 1 < |bs| && PayloadsKept(Join(bs, i), m, m')
    requires (!bs[i].used || bs[i].addr == a) && (!bs[i + 1].used || bs[i + 1].addr == a)
    ensures OthersKept(bs, m, Join(bs, i), m', a)
  {
    var c := Join(bs, i);
    forall b | b in bs && b.used && b.addr != a ensures b in c {
      var k :| 0 <= k < |bs| && bs[k] == b;
      assert c[if k < i then k else k - 1] == b;
    }
  }

  lemma KeptByFlag(bs: seq<Block>, i: nat, u: bool, m: map<nat, int>, m': map<nat, int>, a: nat)
    requires i < |bs| && PayloadsKept(SetUsed(bs, i, u), m, m') && bs[i].addr == a
    ensures OthersKept(bs, m, SetUsed(bs, i, u), m', a)
  {
    var c := SetUsed(bs, i, u);
    forall b | b in bs && b.used && b.addr != a ensures b in c {
      var k :| 0 <= k < |bs| && bs[k] == b;
      assert c[k] == b;
    }
  }

  lemma UnusedOfCut(bs: seq<Block>, i: nat, n: nat)
    requires i < |bs| && n <= bs[i].size
    ensures UnusedSet(Cut(bs, i, n)) == UnusedSet(bs) + {bs[i].addr + n}
  {
    var c := Cut(bs, i, n);
    assert !c[i + 1].used && c[i + 1].addr == bs[i].addr + n;
    forall k | 0 <= k < |bs| && !bs[k].used ensures bs[k].addr in UnusedSet(c) {
      var k' := if k <= i then k else k + 1;
      assert c[k'].addr == bs[k].addr && !c[k'].used;
    }
    forall k | 0 <= k < |c| && !c[k].used && k != i + 1 ensures c[k].addr in UnusedSet(bs) {
      var k' := if k <= i then k else k - 1;
      assert c[k].addr == bs[k'].addr && !bs[k'].used;
    }
  }

  lemma UnusedOfFlag(bs: seq<Block>, i: nat, u: bool)
    requires i < |bs| && Distinct(Addrs(bs))
    ensures UnusedSet(SetUsed(bs, i, u)) == if u then UnusedSet(bs) - {bs[i].addr} else UnusedSet(bs) + {bs[i].addr}
  {
    var c := SetUsed(bs, i, u);
    assert c[i].addr == bs[i].addr;
    forall k | 0 <= k < |bs| && k != i ensures c[k] == bs[k] && bs[k].addr != bs[i].addr {
      assert Addrs(bs)[k] != Addrs(bs)[i];
    }
  }

  lemma UnusedOfJoin(bs: seq<Block>, i: nat)
    requires i + 1 < |bs| && Distinct(Addrs(bs))
    ensures UnusedSet(Join(bs, i)) == UnusedSet(bs) - {bs[i + 1].addr}
  {
    var c := Join(bs, i);
    forall k | 0 <= k < |c| ensures
      var k' := if k <= i then k else k + 1; c[k].addr == bs[k'].addr && c[k].used == bs[k'].used && bs[k'].addr != bs[i + 1].addr
    {
      assert Addrs(bs)[if k <= i then k else k + 1] != Addrs(bs)[i + 1];
    }
    forall k | 0 <= k < |bs| && !bs[k].used && k != i + 1 ensures bs[k].addr in UnusedSet(c) {
      var k' := if k <= i then k else k - 1;
      assert c[k'].addr == bs[k].addr && !c[k'].used;
    }
  }

  lemma FlaggedKeeps(m: Mem, bs: seq<Block>, free: seq<nat>, lo: nat, hi: nat, head: nat, i: nat, u: bool)
    requires Sound(m, bs, free, lo, hi, head) && i < |bs|
    ensures bs[i].addr in m.items
    ensures Sound(Flagged(m, bs[i].addr, u), SetUsed(bs, i, u), free, lo, hi, head)
    ensures OthersKept(bs, m.bytes, SetUsed(bs, i, u), Flagged(m, bs[i].addr, u).bytes, bs[i].addr)
  {
    FlaggedSound(m, bs, free, lo, hi, head, i, u);
    KeptByFlag(bs, i, u, m.bytes, Flagged(m, bs[i].addr, u).bytes, bs[i].addr);
  }

  // ---------------------------------------------------------------- copying a payload

  /** rt_memcpy(to, from, n): like a header write it destroys the headers it overlaps. */
  function Copied(m: Mem, to: nat, from: nat, n: nat): Mem {
    Mem(map k | k in m.items && (k + HDR <= to || to + n <= k) :: m.items[k],
        Memcpy(m.bytes, to, from, n))
  }

  lemma CopiedHeaders(m: Mem, bs: seq<Block>, lo: nat, hi: nat, head: nat, k: nat, from: nat, n: nat)
    requires Tiles(bs, lo, hi, HDR) && (head + HDR <= lo || hi <= head) && k < |bs| && n + HDR <= bs[k].size
    ensures forall h :: h in Headers(bs, head) && h in m.items ==>
      h in Copied(m, bs[k].addr + HDR, from, n).items && Copied(m, bs[k].addr + HDR, from, n).items[h] == m.items[h]
  {
    Apart(bs, lo, hi, HDR);
    forall h | h in Headers(bs, head) ensures h + HDR <= bs[k].addr + HDR || bs[k].addr + HDR + n <= h {
      if h != head {
        var j :| 0 <= j < |bs| && bs[j].addr == h;
        if j < k { assert bs[j].addr + HDR <= bs[k].addr; }
        if k < j { assert bs[k].addr + bs[k].size <= bs[j].addr; }
      }
    }
  }

  /** Copying into the payload of block k disturbs no pointer and no other block. */
  lemma CopiedSound(m: Mem, bs: seq<Block>, free: seq<nat>, lo: nat, hi: nat, head: nat, k: nat, from: nat, n: nat)
    requires Sound(m, bs, free, lo, hi, head) && k < |bs| && n + HDR <= bs[k].size
    ensures Sound(Copied(m, bs[k].addr + HDR, from, n), bs, free, lo, hi, head)
    ensures OthersKept(bs, m.bytes, bs, Copied(m, bs[k].addr + HDR, from, n).bytes, bs[k].addr)
  {
    var to := bs[k].addr + HDR;
    var m' := Copied(m, to, from, n);
    SoundHeaders(m, bs, free, lo, hi, head);
    CopiedHeaders(m, bs, lo, hi, head, k, from, n);
    PhysicalUntouched(m.items, m'.items, bs);
    FreeListUntouched(m.items, m'.items, free, head, Headers(bs, head));
    CopiedKeeps(m.bytes, m'.bytes, bs, lo, hi, k, n);
  }

  lemma CopiedKeeps(m: map<nat, int>, m': map<nat, int>, bs: seq<Block>, lo: nat, hi: nat, k: nat, n: nat)
    requires Tiles(bs, lo, hi, HDR) && k < |bs| && n + HDR <= bs[k].size && m'.Keys == m.Keys
    requires forall x :: x in m && !(bs[k].addr + HDR <= x < bs[k].addr + HDR + n) ==> m'[x] == m[x]
    ensures OthersKept(bs, m, bs, m', bs[k].addr)
  {
    Apart(bs, lo, hi, HDR);
    forall b, x: nat | b in bs && b.used && b.addr != bs[k].addr && InPayload(x, b) && x in m ensures m'[x] == m[x] {
      var j :| 0 <= j < |bs| && bs[j] == b;
      if j < k { assert bs[j].addr + bs[j].size <= bs[k].addr; }
      if k < j { assert bs[k].addr + bs[k].size <= bs[j].addr; }
    }
  }
}
