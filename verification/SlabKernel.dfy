/** slab.c as it runs: zone headers, zone lists and memusage rewritten in place over the page allocator. */
module SlabKernel {
  import opened Seqs
  import opened Wrappers
  import opened SlabZones
  import opened Slab
  import P = PageList
  import PageLinks
  import opened Bytes
  import opened SlabBytes

  class Allocator {
    const zoneSize: nat              // zone_size
    const pages: PageLinks.Pages     // rt_page_list
    var zones: map<nat, Zone>        // the zone headers, by the page they stand on
    var lists: seq<seq<nat>>         // zone_array
    var idle: seq<nat>               // zone_free
    var idleCount: int               // zone_free_cnt
    var usage: map<nat, Use>         // memusage, by page

    ghost var bytes: map<nat, int>   // memory; the code only ever copies it
    ghost var large: map<nat, nat>
    ghost var owner: map<nat, Owner>

    ghost function View(): Heap
      reads this, pages
    {
      Heap(zoneSize, pages.runs, zones, lists, idle, idleCount, usage, large, owner)
    }

    ghost predicate Valid()
      reads this, pages
    {
      pages.Valid() && Inv(View()) && Covers(View(), bytes)
    }

    /** rt_system_heap_init over page-aligned memory; the memusage table lies in its first pages and is not cleared. */
    constructor (start: nat, npages: nat, garbage: map<nat, Use>)
      requires start > 0 && npages > 0 && forall q :: q in garbage <==> start <= q < start + npages
      ensures Valid() && View() == Initial(start, npages, garbage) && fresh(pages)
    {
      zoneSize := ZoneSize(npages * PAGE);
      var p := new PageLinks.Pages(start, npages);
      pages := p;
      zones, lists, idle, idleCount := map[], seq(NZONES, _ => []), [], 0;
      usage := garbage;
      large, owner := map[], InitialOwner(start, npages);
      bytes := map x: nat | start * PAGE <= x < (start + npages) * PAGE :: Untouched(x);
      new;
      var table := pages.PageAlloc(TablePages(npages));
      InitialInv(start, npages, garbage);
      forall x: nat ensures x in bytes <==> OnPage(View(), x) { PageBounds(x, start, npages); }
    }

    static function Untouched(x: nat): int { 0 }

    static lemma PageBounds(x: nat, p: nat, n: nat)
      ensures p * PAGE <= x < (p + n) * PAGE <==> p <= x / PAGE < p + n
    {
    }

    /** The pages z.. become part of zone z, one descriptor at a time. */
    method MarkZone(z: nat)
      requires forall q: nat :: z <= q < z + zoneSize / PAGE ==> q in usage
      modifies `usage
      ensures usage == MarkedSmall(old(usage), z, zoneSize / PAGE)
    {
      var off := 0;
      while off < zoneSize / PAGE
        invariant 0 <= off <= zoneSize / PAGE
        invariant usage == MarkedSmall(old(usage), z, off)
      {
        usage := usage[z + off := Small(off)];
        off := off + 1;
      }
    }

    method ClearZone(z: nat)
      requires forall q: nat :: z <= q < z + zoneSize / PAGE ==> q in usage
      modifies `usage
      ensures usage == MarkedUnused(old(usage), z, zoneSize / PAGE)
    {
      var i := 0;
      while i < zoneSize / PAGE
        invariant 0 <= i <= zoneSize / PAGE
        invariant usage == MarkedUnused(old(usage), z, i)
      {
        usage := usage[z + i := Unused];
        i := i + 1;
      }
    }

    /** rt_malloc; no live allocation loses a byte. */
    method Malloc(size: nat) returns (a: nat)
      requires Valid()
      modifies this, pages
      ensures Valid() && (View(), a) == Slab.Malloc(old(View()), size)
      ensures LiveKept(old(View()), View(), old(bytes), bytes)
    {
      MallocKeeps(View(), size);
      SpoiledKeeps(View(), Slab.Malloc(View(), size).0, bytes);
      SameOwners(View(), size, NULL);
      ghost var s0 := View();
      a := MallocChunk(size);
      bytes := Spoiled(View(), bytes);
      CoversStill(s0, View(), old(bytes), bytes);
    }

    method MallocChunk(size: nat) returns (a: nat)
      requires Valid()
      modifies this, pages
      ensures pages.Valid() && Inv(View()) && bytes == old(bytes) && (View(), a) == Slab.Malloc(old(View()), size)
    {
      if size == 0 { return NULL; }
      MallocKeeps(View(), size);
      MallocPromise(View(), size);
      hide Inv, P.Alloc, Fresh, Exhausted;
      if size >= Limit(zoneSize) {
        var n := PagesFor(size);
        var p := pages.PageAlloc(n);
        if p == PageLinks.NULL { return NULL; }
        usage := usage[p := Large(n)];
        large := large[p := n];
        owner := Claimed(owner, p, n, Spanned(p));
        return p * PAGE;
      }
      Classes(size);
      var i := Index(size);
      if lists[i] != [] {
        FirstListed(View(), i);
        a := MallocFromList(i);
      } else {
        a := MallocFromZone(size);
      }
    }

    /** A chunk from the first zone of list i. */
    method MallocFromList(i: nat) returns (a: nat)
      requires i < |lists| && lists[i] != [] && lists[i][0] in zones
      requires var zn := zones[lists[i][0]]; zn.uindex + 1 == zn.nmax ==> zn.free != []
      modifies `zones, `lists
      ensures (View(), a) == MallocListed(old(View()), i)
    {
      var z := lists[i][0];
      zones := zones[z := zones[z].(nfree := zones[z].nfree - 1)];
      if zones[z].nfree == 0 { lists := lists[i := lists[i][1..]]; }
      if zones[z].uindex + 1 != zones[z].nmax {
        zones := zones[z := zones[z].(uindex := zones[z].uindex + 1)];
        a := zones[z].base + zones[z].uindex * zones[z].size;
      } else {
        a := zones[z].free[0];
        zones := zones[z := zones[z].(free := zones[z].free[1..])];
      }
      assert zones == old(zones)[z := TakeChunk(old(zones)[z]).0];
    }

    /** A chunk from a zone built for it, on an idle zone or on fresh pages. */
    method MallocFromZone(size: nat) returns (a: nat)
      requires Valid() && 0 < size < Limit(zoneSize) && 0 <= Index(size) < |lists| && lists[Index(size)] == []
      requires size < MAX_CHUNK && Chunk(size) > 0
      modifies this, pages
      ensures pages.Valid() && (View(), a) == MallocBuilt(old(View()), size) && bytes == old(bytes)
    {
      hide Index, Chunk, Offset, P.Alloc, Inv, Covers;
      var z;
      if idle != [] {
        z := idle[0];
        idle := idle[1..];
        idleCount := idleCount - 1;
      } else {
        z := FreshZone();
        if z == NULL { return NULL; }
      }
      var zn := NewZone(z, size, zoneSize);
      zones := zones[z := zn];
      lists := lists[zn.zi := [z] + lists[zn.zi]];
      a := zn.base + zn.uindex * zn.size;
    }

    /** Pages for a zone, and their descriptors. */
    method FreshZone() returns (z: nat)
      requires Valid()
      modifies this, pages
      ensures pages.Valid() && bytes == old(bytes)
      ensures var (r, t) := P.Alloc(old(pages.runs), zoneSize / PAGE);
        if z == NULL then r.None? && View() == old(View())
        else r == Some(z) && View() == WithZone(old(View()), z, t)
    {
      FreshPages();
      hide Inv, P.Alloc, Covers;
      z := pages.PageAlloc(zoneSize / PAGE);
      if z == PageLinks.NULL { return NULL; }
      MarkZone(z);
      owner := Claimed(owner, z, zoneSize / PAGE, Zoned(z));
    }

    lemma FreshPages()
      requires Valid()
      ensures P.Alloc(pages.runs, zoneSize / PAGE).0.Some? ==>
        var z := P.Alloc(pages.runs, zoneSize / PAGE).0.value; forall q: nat :: z <= q < z + zoneSize / PAGE ==> q in usage
    {
      if P.Alloc(pages.runs, zoneSize / PAGE).0.Some? {
        FreshOwned(View());
        var z := P.Alloc(pages.runs, zoneSize / PAGE).0.value;
        forall q: nat | z <= q < z + zoneSize / PAGE ensures q in usage { assert q in owner; }
      }
    }
  
    /** rt_free of the live allocation of `len` bytes at a, or of nothing; no other live allocation loses a byte. */
    method Free(a: nat, ghost len: nat)
      requires Valid() && (a == NULL || LiveAt(View(), a, len))
      modifies this, pages
      ensures Valid() && View() == if a == NULL then old(View()) else Slab.Free(old(View()), a)
      ensures LiveKept(old(View()), View(), old(bytes), bytes)
    {
      ghost var s0, m0 := View(), bytes;
      if a == NULL { NothingLost(s0, m0); return; }
      hide Inv, LiveAt, FreeChunk, FreeLarge, Lost, ZoneOk, ZoneHeld, Slab.Free, Covers, LiveKept;
      FreePromise(s0, a, len);
      SpoiledKeeps(s0, Slab.Free(s0, a), m0);
      SameOwners(s0, 0, a);
      FreeLive(a, len);
      bytes := Spoiled(View(), bytes);
      CoversStill(s0, View(), m0, bytes);
    }

    method FreeLive(a: nat, ghost len: nat)
      requires Valid() && LiveAt(View(), a, len)
      modifies this, pages
      ensures pages.Valid() && Inv(View()) && bytes == old(bytes) && View() == Slab.Free(old(View()), a)
    {
      hide Inv, LiveAt, FreeChunk, FreeLarge, Lost, ZoneOk, ZoneHeld, Slab.Free;
      AddressKnown(View(), a, len);
      FreePromise(View(), a, len);
      var q := a / PAGE;
      if usage[q].Large? {
        FreeIsLarge(View(), q, a);
        FreePages(q);
      } else {
        var z := q - usage[q].off;
        FreeIsChunk(View(), z, a);
        FreeInZone(z, a);
      }
    }

    /** rt_free of a chunk and of a large allocation. */
    lemma FreeIsChunk(s: Heap, z: nat, a: nat)
      requires Inv(s) && ChunkLive(s, z, a)
      ensures s.zones[z].zi < |s.lists| && Slab.Free(s, a) == FreeChunk(s, z, a)
    {
      hide FreeChunk;
      MapsBack(s, z, a);
      ZoneKnown(s, z);
    }

    lemma FreeIsLarge(s: Heap, p: nat, a: nat)
      requires Inv(s) && p in s.large && p == a / PAGE
      ensures p in s.usage && s.usage[p].Large? && Slab.Free(s, a) == FreeLarge(s, p, s.usage[p].pages)
    {
      hide FreeLarge;
      assert LargeHeld(s, p);
    }

    method FreePages(q: nat)
      requires Valid() && q in large && q in usage && usage[q].Large?
      modifies this, pages
      ensures pages.Valid() && View() == FreeLarge(old(View()), q, old(usage)[q].pages) && bytes == old(bytes)
    {
      FreeLargeKeeps(View(), q);
      LargeNotNull(q);
      hide Inv, P.PageSet, P.Free;
      var size := usage[q].pages;
      usage := usage[q := Large(0)];
      large := large - {q};
      owner := Claimed(owner, q, size, Nobody);
      pages.PageFree(q, size);
    }

    lemma LargeNotNull(q: nat)
      requires Valid() && q in large
      ensures q != NULL && q in usage && usage[q] == Large(large[q])
    {
      assert LargeHeld(View(), q);
    }

    /** rt_free of a chunk. */
    method FreeInZone(z: nat, a: nat)
      requires Valid() && ChunkLive(View(), z, a)
      modifies this, pages
      ensures pages.Valid() && old(zones)[z].zi < |old(lists)| && View() == FreeChunk(old(View()), z, a)
      ensures bytes == old(bytes)
    {
      ghost var s0 := View();
      ChunkFacts(z, a);
      hide Inv, ZoneOk, ZoneHeld, ChunkLive, InvUpTo, PutBack, Retire, ReleaseIdle;
      var i := zones[z].zi;
      PutChunk(z, a);
      if zones[z].nfree == zones[z].nmax && lists[i] != [z] { RetireZone(z, i); }
    }

    lemma ChunkFacts(z: nat, a: nat)
      requires Valid() && ChunkLive(View(), z, a)
      ensures zones[z].zi < |lists|
      ensures var s1 := PutBack(View(), z, a);
        && z in s1.zones && s1.zones[z].zi == zones[z].zi && |s1.lists| == |lists| && z in s1.lists[zones[z].zi]
        && InvUpTo(Retire(s1, z), THRESH + 1)
    {
      hide PagesOk, LargesOk, Accounted, Live;
      ZoneKnown(View(), z);
      RetireKeeps(View(), z, a);
      ChunksAddUp(zones[z], z, zoneSize);
      assert ListOk(View(), zones[z].zi);
    }

    /** Put chunk a on the free list of its zone. */
    method PutChunk(z: nat, a: nat)
      requires z in zones && zones[z].zi < |lists|
      modifies `zones, `lists
      ensures View() == PutBack(old(View()), z, a)
    {
      var i := zones[z].zi;
      zones := zones[z := zones[z].(free := [a] + zones[z].free)];
      if zones[z].nfree == 0 { lists := lists[i := [z] + lists[i]]; }
      zones := zones[z := zones[z].(nfree := zones[z].nfree + 1)];
      assert zones == old(zones)[z := GiveChunk(old(zones)[z], a)];
    }

    /** Unlink a wholly free zone; release one if there are too many. */
    method RetireZone(z: nat, i: nat)
      requires pages.Valid() && z in zones && zones[z].zi == i < |lists| && z in lists[i]
      requires InvUpTo(Retire(View(), z), THRESH + 1)
      modifies this, pages
      ensures pages.Valid() && bytes == old(bytes)
      ensures var s2 := Retire(old(View()), z); View() == if s2.idleCount > THRESH then ReleaseIdle(s2) else s2
    {
      hide InvUpTo;
      var k := 0;
      while lists[i][k] != z
        invariant 0 <= k < |lists[i]| && z !in lists[i][..k]
        invariant View() == old(View()) && pages.Valid() && bytes == old(bytes)
        decreases |lists[i]| - k
      {
        assert lists[i][..k + 1] == lists[i][..k] + [lists[i][k]];
        assert lists[i][..|lists[i]|] == lists[i];
        k := k + 1;
      }
      WithoutAt(lists[i], z, k);
      lists := lists[i := lists[i][..k] + lists[i][k + 1..]];
      zones := zones - {z};
      idle := [z] + idle;
      idleCount := idleCount + 1;
      if idleCount > THRESH { ReleaseZone(); }
    }

    method ReleaseZone()
      requires pages.Valid() && InvUpTo(View(), THRESH + 1) && idle != []
      modifies this, pages
      ensures pages.Valid() && View() == ReleaseIdle(old(View())) && bytes == old(bytes)
    {
      ReleaseKeeps(View());
      IdlePages();
      hide InvUpTo, P.PageSet, P.Free;
      var z := idle[0];
      idle := idle[1..];
      idleCount := idleCount - 1;
      ClearZone(z);
      owner := Claimed(owner, z, zoneSize / PAGE, Nobody);
      pages.PageFree(z, zoneSize / PAGE);
    }

    lemma IdlePages()
      requires InvUpTo(View(), THRESH + 1) && idle != []
      ensures idle[0] != NULL && zoneSize / PAGE > 0
      ensures forall q: nat :: idle[0] <= q < idle[0] + zoneSize / PAGE ==> q in usage
    {
      assert idle[0] in idle && ZoneHeld(View(), idle[0]);
      assert idle[0] in owner;
    }

    /** rt_realloc of the live allocation of `len` bytes at a, or of nothing.  What fits of the old contents is found at the
        result, and no other live allocation loses a byte. */
    method Realloc(a: nat, size: nat, ghost len: nat) returns (b: nat)
      requires Valid() && (a == NULL || LiveAt(View(), a, len))
      modifies this, pages
      ensures Valid() && (View(), b) == Slab.Realloc(old(View()), a, size)
      ensures LiveKept(old(View()), View(), old(bytes), bytes)
      ensures a != NULL && b != NULL ==> Moved(a, b, Min(len, size), old(bytes), bytes)
    {
      hide Inv, LiveAt, Slab.Malloc, Slab.Free, Chunk, Covers, LiveKept, Moved;
      NothingLost(View(), bytes);
      if a != NULL { MovedNowhere(View(), a, len, size, bytes); }
      if a == NULL { b := Malloc(size); return; }
      if size == 0 { Free(a, len); return NULL; }
      AddressKnown(View(), a, len);
      var q := a / PAGE;
      if usage[q].Large? {
        b := MoveTo(a, size, len);
      } else {
        var z := q - usage[q].off;
        var n := if size < MAX_CHUNK then Chunk(size) else size;
        if zones[z].size == n { return a; }
        RoundedUp(size);
        b := MoveTo(a, n, len);
        if b != NULL { MovedFewer(a, b, Min(len, n), Min(len, size), old(bytes), bytes); }
      }
    }

    lemma MovedNowhere(s: Heap, a: nat, len: nat, n: nat, m: map<nat, int>)
      requires Inv(s) && LiveAt(s, a, len) && Covers(s, m)
      ensures Moved(a, a, Min(len, n), m, m)
    {
      LiveCovered(s, a, len, m);
    }

    lemma MovedFewer(a: nat, b: nat, n: nat, k: nat, m: map<nat, int>, m': map<nat, int>)
      requires Moved(a, b, n, m, m') && k <= n
      ensures Moved(a, b, k, m, m')
    {
    }

    method MoveTo(a: nat, size: nat, ghost len: nat) returns (b: nat)
      requires Valid() && LiveAt(View(), a, len) && size > 0
      modifies this, pages
      ensures Valid() && (View(), b) == Move(old(View()), a, size)
      ensures LiveKept(old(View()), View(), old(bytes), bytes)
      ensures b != NULL ==> Moved(a, b, Min(len, size), old(bytes), bytes)
    {
      hide Inv, LiveAt, Slab.Malloc, Slab.Free, Exhausted, AllFree, Covers, LiveKept, Moved;
      ghost var s0, m0 := View(), bytes;
      MallocPromise(s0, size);
      b := Malloc(size);
      if b == NULL { return; }
      AddressKnown(s0, a, len);
      ghost var s1, m1 := View(), bytes;
      assert LiveAt(s1, a, len);
      bytes := Memcpy(bytes, b, a, Min(len, size));
      CoversStill(s1, s1, m1, bytes);
      FreePromise(s1, a, len);
      ghost var m2 := bytes;
      Free(a, len);
      MoveKeeps(s0, s1, View(), a, len, b, Granted(s0, size), Min(len, size), m0, m1, m2, bytes);
    }
  }

  lemma {:induction false} WithoutAt(q: seq<nat>, z: nat, k: nat)
    requires k < |q| && q[k] == z && z !in q[..k]
    ensures Without(q, z) == q[..k] + q[k + 1..]
  {
    if k > 0 {
      assert q[0] in q[..k];
      assert q[1..][..k - 1] == q[..k][1..];
      WithoutAt(q[1..], z, k - 1);
      assert q[..k] == [q[0]] + q[1..][..k - 1] && q[1..][k..] == q[k + 1..];
    }
  }
}
