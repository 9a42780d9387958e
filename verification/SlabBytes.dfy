/** slab.c: the bytes under the allocator, its own records among them. */
module SlabBytes {
  import opened Seqs
  import opened SlabZones
  import opened Slab
  import opened Bytes
  import P = PageList

  const LINK := 4   // sizeof(slab_chunk)

  /** Where the allocator keeps its records: on free pages (rt_page_head), in the page table (memusage), in zone headers,
      in idle zones, and at the head of free chunks (c_next).  It writes nowhere else. */
  ghost predicate IsRecord(s: Heap, x: nat) {
    || x / PAGE in P.PageSet(s.runs)
    || (x / PAGE in s.owner && s.owner[x / PAGE] == Table)
    || (exists z :: InHeader(s, z, x))
    || (exists z :: InIdle(s, z, x))
    || (exists z, a :: InLink(s, z, a, x))
  }

  predicate InHeader(s: Heap, z: nat, x: nat) { z in s.zones && z * PAGE <= x < z * PAGE + HEADER }
  predicate InIdle(s: Heap, z: nat, x: nat) { z in s.idle && z * PAGE <= x < z * PAGE + s.zoneSize }
  predicate InLink(s: Heap, z: nat, a: nat, x: nat) { z in s.zones && a in s.zones[z].free && a <= x < a + LINK }

  /** No live allocation holds a record. */
  lemma RecordsApart(s: Heap, a: nat, n: nat, x: nat)
    requires Inv(s) && LiveAt(s, a, n) && Inside(x, a, n)
    ensures !IsRecord(s, x)
  {
    var o := OwnerOf(s, a, n, x);
    NotFree(s, x);
    forall z ensures !InHeader(s, z, x) { HeaderApart(s, a, n, x, z); }
    forall z ensures !InIdle(s, z, x) { IdleApart(s, a, n, x, z); }
    forall z, b ensures !InLink(s, z, b, x) { LinkApart(s, a, n, x, z, b); }
  }

  lemma NotFree(s: Heap, x: nat)
    requires Inv(s)
    ensures x / PAGE in P.PageSet(s.runs) ==> x / PAGE in s.owner && s.owner[x / PAGE] == Nobody
  {
  }

  lemma HeaderApart(s: Heap, a: nat, n: nat, x: nat, z: nat)
    requires Inv(s) && LiveAt(s, a, n) && Inside(x, a, n)
    ensures !InHeader(s, z, x)
  {
    var o := OwnerOf(s, a, n, x);
    if InHeader(s, z, x) {
      assert HEADER <= s.zoneSize;
      hide Inv, Live;
      InZonePages(s, z, x);
      ZoneKnown(s, z);
      LiveInZone(s.zones[z], z, s.zoneSize, a);
    }
  }

  /** A page of a zone belongs to it. */
  lemma InZonePages(s: Heap, z: nat, x: nat)
    requires Inv(s) && (z in s.zones || z in s.idle) && z * PAGE <= x < z * PAGE + s.zoneSize
    ensures x / PAGE in s.owner && s.owner[x / PAGE] == Zoned(z)
  {
    hide PagesOk, LargesOk, Accounted, ListsOk;
    assert ZoneHeld(s, z);
    PageOf(x, z, ZonePages(s));
    assert Within(x / PAGE, z, ZonePages(s));
  }

  lemma IdleApart(s: Heap, a: nat, n: nat, x: nat, z: nat)
    requires Inv(s) && LiveAt(s, a, n) && Inside(x, a, n)
    ensures !InIdle(s, z, x)
  {
    var o := OwnerOf(s, a, n, x);
    if InIdle(s, z, x) { InZonePages(s, z, x); }
  }

  lemma LinkApart(s: Heap, a: nat, n: nat, x: nat, z: nat, b: nat)
    requires Inv(s) && LiveAt(s, a, n) && Inside(x, a, n)
    ensures !InLink(s, z, b, x)
  {
    hide Inv, Live;
    var o := OwnerOf(s, a, n, x);
    if InLink(s, z, b, x) {
      ZoneKnown(s, z);
      var zn := s.zones[z];
      FreeInZone(zn, z, s.zoneSize, b);
      InZonePages(s, z, x);
      LiveNotFree(zn, a);
      ChunksApart(zn, zn.uindex + 1, a, b);
    }
  }

  lemma FreeInZone(zn: Zone, z: nat, zoneSize: nat, b: nat)
    requires ZoneOk(zn, z, zoneSize) && b in zn.free
    ensures z * PAGE <= b && b + zn.size <= z * PAGE + zoneSize && LINK <= zn.size && b in Chunks(zn, zn.uindex + 1)
  {
    SizePositive(zn.zi);
    assert b in Elements(zn.free);
    hide Chunks, Distinct, Elements;
    ChunksAre(zn, zn.uindex + 1, b);
    MulOrder(zn.uindex + 1, zn.nmax, zn.size);
  }

  lemma LiveNotFree(zn: Zone, a: nat)
    requires a in Live(zn)
    ensures a !in zn.free && a in Chunks(zn, zn.uindex + 1)
  {
  }

  // ---------------------------------------------------------------- what the operations leave of the bytes

  /** There is memory behind every page of the heap. */
  ghost predicate Covers(s: Heap, m: map<nat, int>) { forall x: nat :: x in m <==> OnPage(s, x) }

  predicate OnPage(s: Heap, x: nat) { x / PAGE in s.owner }

  /** After a call nothing is known of the bytes of the records; none of the others was written. */
  ghost function Spoiled(s: Heap, m: map<nat, int>): map<nat, int> { map x: nat | x in m :: if IsRecord(s, x) then 0 else m[x] }

  /** Every allocation of s that is still live in r has its bytes. */
  ghost predicate LiveKept(s: Heap, r: Heap, m: map<nat, int>, m': map<nat, int>) {
    forall c, k, x :: LiveAt(s, c, k) && LiveAt(r, c, k) && Inside(x, c, k) ==> x in m && x in m' && m'[x] == m[x]
  }

  lemma SpoiledKeeps(s: Heap, r: Heap, m: map<nat, int>)
    requires Inv(s) && Inv(r) && Covers(s, m)
    ensures LiveKept(s, r, m, Spoiled(r, m))
  {
    hide Inv, LiveAt, IsRecord;
    forall c: nat, k: nat, x | LiveAt(s, c, k) && LiveAt(r, c, k) && Inside(x, c, k)
      ensures x in m && x in Spoiled(r, m) && Spoiled(r, m)[x] == m[x]
    {
      var o := OwnerOf(s, c, k, x);
      RecordsApart(r, c, k, x);
      assert OnPage(s, x);
    }
  }

  /** Allocate, copy, free: k bytes have moved from a to b, and nobody else has lost any. */
  lemma MoveKeeps(s: Heap, s1: Heap, r: Heap, a: nat, len: nat, b: nat, n: nat, k: nat,
                  m: map<nat, int>, m1: map<nat, int>, m2: map<nat, int>, m3: map<nat, int>)
    requires Inv(s) && Inv(s1) && Inv(r) && LiveAt(s, a, len) && Fresh(s, s1, b, n) && Lost(s1, r, a)
    requires Covers(s1, m1) && k <= len && k <= n && n > 0 && LiveKept(s, s1, m, m1)
    requires m2 == Memcpy(m1, b, a, k) && LiveKept(s1, r, m2, m3)
    ensures LiveKept(s, r, m, m3) && Moved(a, b, k, m, m3)
  {
    hide Inv, LiveAt, AllFree, Covers;
    NewIsElsewhere(s, a, len, b, n);
    assert LiveAt(s1, b, n) && LiveAt(r, b, n) && LiveAt(s1, a, len);
    LiveCovered(s1, a, len, m1);
    LiveCovered(s1, b, n, m1);
    MemcpyMoves(m1, b, a, k);
    forall c: nat, l: nat, x | LiveAt(s, c, l) && LiveAt(r, c, l) && Inside(x, c, l) ensures x in m && x in m3 && m3[x] == m[x] {
      assert LiveAt(s1, c, l);
      LiveCovered(s1, c, l, m1);
      if Inside(x, b, n) {
        LiveApart(s1, c, l, b, n, x);
        NotBoth(s, c, l, b, n, x);
      }
      assert m1[x] == m[x] && m2[x] == m1[x];
    }
    forall x: nat | a <= x < a + k ensures x in m && Shift(x, a, b) in m3 && m3[Shift(x, a, b)] == m[x] {
      assert Inside(x, a, len) && Inside(Shift(x, a, b), b, n);
    }
  }

  lemma LiveCovered(s: Heap, a: nat, n: nat, m: map<nat, int>)
    requires Inv(s) && LiveAt(s, a, n) && Covers(s, m)
    ensures forall x: nat :: a <= x < a + n ==> x in m
  {
    hide Inv, LiveAt;
    forall x: nat | a <= x < a + n ensures x in m {
      var o := OwnerOf(s, a, n, x);
      assert OnPage(s, x);
    }
  }

  lemma NotBoth(s: Heap, c: nat, l: nat, b: nat, n: nat, x: int)
    requires LiveAt(s, c, l) && Inside(x, c, l) && AllFree(s, b, n)
    ensures !Inside(x, b, n)
  {
  }

  /** The pages of the heap stay the same. */
  lemma SameOwners(s: Heap, n: nat, a: nat)
    requires Inv(s)
    ensures Malloc(s, n).0.owner.Keys == s.owner.Keys && Free(s, a).owner.Keys == s.owner.Keys
  {
    hide Inv, P.Alloc, P.Free;
  }

  lemma NothingLost(s: Heap, m: map<nat, int>)
    requires Inv(s) && Covers(s, m)
    ensures LiveKept(s, s, m, m)
  {
    hide Inv, LiveAt, Covers;
    forall c: nat, k: nat, x | LiveAt(s, c, k) && Inside(x, c, k) ensures x in m { LiveCovered(s, c, k, m); }
  }

  lemma CoversStill(s: Heap, r: Heap, m: map<nat, int>, m': map<nat, int>)
    requires Covers(s, m) && r.owner.Keys == s.owner.Keys && m'.Keys == m.Keys
    ensures Covers(r, m')
  {
    forall x: nat ensures x in m' <==> OnPage(r, x) { assert x in m' <==> x in m; }
  }
}
