/** slab.c, the zone layer as a value: rt_malloc, rt_free and rt_realloc over zones, zone lists and pages. */
module Slab {
  import opened Seqs
  import opened Wrappers
  import opened SlabZones
  import P = PageList

  const NULL := 0
  const THRESH := 2   // ZONE_RELEASE_THRESH

  /** `struct memusage`: the type of a page, and its offset in the zone or the number of pages. */
  datatype Use = Unused | Small(off: nat) | Large(pages: nat)

  /** Whom a page of the heap belongs to.  The kernel keeps no such record. */
  datatype Owner = Nobody | Zoned(z: nat) | Spanned(p: nat) | Table

  /** `lists` is zone_array, `idle` is zone_free, `idleCount` is zone_free_cnt.  `large` and `owner` are bookkeeping
      of the model: the live page allocations, and whom each page belongs to. */
  datatype Heap = Heap(zoneSize: nat, runs: seq<P.Run>, zones: map<nat, Zone>, lists: seq<seq<nat>>,
                       idle: seq<nat>, idleCount: int, usage: map<nat, Use>,
                       large: map<nat, nat>, owner: map<nat, Owner>)

  function ZonePages(s: Heap): nat { s.zoneSize / PAGE }

  // ---------------------------------------------------------------- the invariant

  ghost predicate PagesOk(s: Heap) {
    && P.Canon(s.runs) && s.usage.Keys == s.owner.Keys && 0 !in s.owner
    && forall p :: p in P.PageSet(s.runs) <==> p in s.owner && s.owner[p] == Nobody
  }

  /** The n pages from p on belong to o. */
  ghost predicate Owned(owner: map<nat, Owner>, p: nat, n: nat, o: Owner) {
    forall q: nat :: p <= q < p + n ==> q in owner && owner[q] == o
  }

  /** memusage leads from every page of zone z back to z. */
  ghost predicate Marked(usage: map<nat, Use>, z: nat, n: nat) {
    forall q: nat :: z <= q < z + n ==> q in usage && usage[q] == Small(q - z)
  }

  ghost predicate ZoneHeld(s: Heap, z: nat) {
    Owned(s.owner, z, ZonePages(s), Zoned(z)) && Marked(s.usage, z, ZonePages(s))
  }

  ghost predicate ZonesOk(s: Heap) {
    && (forall z :: z in s.zones ==> ZoneHeld(s, z) && ZoneOk(s.zones[z], z, s.zoneSize))
    && (forall z :: z in s.idle ==> ZoneHeld(s, z) && z !in s.zones)
    && Distinct(s.idle)
  }

  ghost predicate LargeHeld(s: Heap, p: nat)
    requires p in s.large
  {
    && s.large[p] > 0 && Owned(s.owner, p, s.large[p], Spanned(p))
    && p in s.usage && s.usage[p] == Large(s.large[p])
  }

  /** No page is lost: what is not free belongs to a zone, to a live large allocation or to the page table. */
  ghost predicate Accounted(s: Heap) {
    forall q :: q in s.owner ==> AccountedPage(s, q)
  }

  predicate AccountedPage(s: Heap, q: nat)
    requires q in s.owner
  {
    match s.owner[q]
    case Zoned(z) => (z in s.zones || z in s.idle) && z <= q < z + ZonePages(s)
    case Spanned(p) => p in s.large && p <= q < p + s.large[p]
    case _ => true
  }

  /** zone_array[i] holds exactly the zones of index i with free chunks, at most one of them wholly free. */
  ghost predicate ListOk(s: Heap, i: nat)
    requires i < |s.lists|
  {
    && Distinct(s.lists[i])
    && (forall z :: z in s.lists[i] <==> z in s.zones && s.zones[z].zi == i && s.zones[z].nfree > 0)
    && (forall z, w :: z in s.lists[i] && w in s.lists[i] && WhollyFree(s, z) && WhollyFree(s, w) ==> z == w)
  }

  predicate WhollyFree(s: Heap, z: nat) { z in s.zones && s.zones[z].nfree == s.zones[z].nmax }

  ghost predicate LargesOk(s: Heap) { forall p :: p in s.large ==> LargeHeld(s, p) }

  ghost predicate ListsOk(s: Heap) { |s.lists| == NZONES && forall i :: 0 <= i < NZONES ==> ListOk(s, i) }

  ghost predicate InvUpTo(s: Heap, k: nat) {
    && IsZoneSize(s.zoneSize) && PagesOk(s) && ZonesOk(s) && LargesOk(s) && Accounted(s) && ListsOk(s)
    && s.idleCount == |s.idle| <= k
  }

  ghost predicate Inv(s: Heap) { InvUpTo(s, THRESH) }

  // ---------------------------------------------------------------- live allocations

  predicate ChunkLive(s: Heap, z: nat, a: nat) { z in s.zones && a in Live(s.zones[z]) }

  predicate ChunkOf(s: Heap, z: nat, a: nat, n: nat) { ChunkLive(s, z, a) && n == s.zones[z].size }

  /** n bytes at address a are in the hands of a caller. */
  ghost predicate LiveAt(s: Heap, a: nat, n: nat) {
    || (exists z :: ChunkOf(s, z, a, n))
    || (a % PAGE == 0 && a / PAGE in s.large && n == s.large[a / PAGE] * PAGE)
  }

  // ---------------------------------------------------------------- rt_malloc

  function PagesFor(size: nat): nat { (size + (PAGE - 1)) / PAGE }

  function Claimed(owner: map<nat, Owner>, p: nat, n: nat, o: Owner): map<nat, Owner> {
    map q | q in owner :: if p <= q < p + n then o else owner[q]
  }

  function MarkedSmall(usage: map<nat, Use>, z: nat, n: nat): map<nat, Use> {
    map q | q in usage :: if z <= q < z + n then Small(q - z) else usage[q]
  }

  function MarkedUnused(usage: map<nat, Use>, z: nat, n: nat): map<nat, Use> {
    map q | q in usage :: if z <= q < z + n then Unused else usage[q]
  }

  function MallocLarge(s: Heap, n: nat): (Heap, nat) {
    var (r, t) := P.Alloc(s.runs, n);
    match r
    case None => (s, NULL)
    case Some(p) =>
      (s.(runs := t, large := s.large[p := n], usage := s.usage[p := Large(n)],
          owner := Claimed(s.owner, p, n, Spanned(p))), p * PAGE)
  }

  /** A chunk from the first zone of list i, which leaves the list when it runs dry. */
  function MallocListed(s: Heap, i: nat): (Heap, nat)
    requires i < |s.lists| && s.lists[i] != [] && s.lists[i][0] in s.zones
    requires var zn := s.zones[s.lists[i][0]]; zn.uindex + 1 == zn.nmax ==> zn.free != []
  {
    var z := s.lists[i][0];
    var (zn, a) := TakeChunk(s.zones[z]);
    (s.(zones := s.zones[z := zn], lists := if zn.nfree == 0 then s.lists[i := s.lists[i][1..]] else s.lists), a)
  }

  /** Build a zone for n-byte requests on pages z and hand out its first chunk. */
  function Build(s: Heap, z: nat, n: nat): (Heap, nat)
    requires 0 < n < MAX_CHUNK && 0 <= Index(n) < |s.lists| && Chunk(n) > 0
  {
    var zn := NewZone(z, n, s.zoneSize);
    (s.(zones := s.zones[z := zn], lists := s.lists[Index(n) := [z] + s.lists[Index(n)]]), zn.base)
  }

  function MallocBuilt(s: Heap, n: nat): (Heap, nat)
    requires 0 < n < MAX_CHUNK && 0 <= Index(n) < |s.lists| && Chunk(n) > 0
  {
    if s.idle != [] then Build(s.(idle := s.idle[1..], idleCount := s.idleCount - 1), s.idle[0], n)
    else
      var (r, t) := P.Alloc(s.runs, ZonePages(s));
      match r
      case None => (s, NULL)
      case Some(z) => Build(WithZone(s, z, t), z, n)
  }

  /** The pages from z on become an empty zone. */
  function WithZone(s: Heap, z: nat, t: seq<P.Run>): Heap {
    s.(runs := t, usage := MarkedSmall(s.usage, z, ZonePages(s)), owner := Claimed(s.owner, z, ZonePages(s), Zoned(z)))
  }

  ghost function Malloc(s: Heap, n: nat): (Heap, nat)
    requires Inv(s)
  {
    if n == 0 then (s, NULL)
    else if n >= Limit(s.zoneSize) then MallocLarge(s, PagesFor(n))
    else
      Classes(n);
      if s.lists[Index(n)] != [] then FirstListed(s, Index(n)); MallocListed(s, Index(n)) else MallocBuilt(s, n)
  }

  // ---------------------------------------------------------------- rt_free

  function FreeLarge(s: Heap, p: nat, n: nat): Heap {
    s.(runs := P.Free(s.runs, p, n), large := s.large - {p}, usage := s.usage[p := Large(0)],
       owner := Claimed(s.owner, p, n, Nobody))
  }

  /** Put chunk a back; a zone that was dry goes to the front of its list. */
  function PutBack(s: Heap, z: nat, a: nat): Heap
    requires z in s.zones && s.zones[z].zi < |s.lists|
  {
    var i := s.zones[z].zi;
    s.(zones := s.zones[z := GiveChunk(s.zones[z], a)],
       lists := if s.zones[z].nfree == 0 then s.lists[i := [z] + s.lists[i]] else s.lists)
  }

  /** A wholly free zone moves from its list to the idle ones. */
  function Retire(s: Heap, z: nat): Heap
    requires z in s.zones && s.zones[z].zi < |s.lists|
  {
    var i := s.zones[z].zi;
    s.(zones := s.zones - {z}, lists := s.lists[i := Without(s.lists[i], z)], idle := [z] + s.idle,
       idleCount := s.idleCount + 1)
  }

  /** The first idle zone goes back to the page allocator. */
  function ReleaseIdle(s: Heap): Heap
    requires s.idle != []
  {
    var z := s.idle[0];
    s.(idle := s.idle[1..], idleCount := s.idleCount - 1, usage := MarkedUnused(s.usage, z, ZonePages(s)),
       owner := Claimed(s.owner, z, ZonePages(s), Nobody), runs := P.Free(s.runs, z, ZonePages(s)))
  }

  function FreeChunk(s: Heap, z: nat, a: nat): Heap
    requires z in s.zones && s.zones[z].zi < |s.lists|
  {
    var s1 := PutBack(s, z, a);
    if WhollyFree(s1, z) && s1.lists[s.zones[z].zi] != [z] then
      var s2 := Retire(s1, z);
      if s2.idleCount > THRESH then ReleaseIdle(s2) else s2
    else s1
  }

  ghost function Free(s: Heap, a: nat): Heap
    requires Inv(s)
  {
    var q := a / PAGE;
    if q !in s.usage then s
    else match s.usage[q]
      case Unused => s
      case Large(n) => FreeLarge(s, q, n)
      case Small(off) =>
        if off <= q && q - off in s.zones then ZoneKnown(s, q - off); FreeChunk(s, q - off, a) else s
  }

  lemma FirstListed(s: Heap, i: nat)
    requires Inv(s) && i < NZONES && i < |s.lists| && s.lists[i] != []
    ensures var z := s.lists[i][0];
      && z in s.zones && s.zones[z].zi == i && s.zones[z].nfree > 0 && ZoneOk(s.zones[z], z, s.zoneSize)
      && s.zones[z].size == SizeOf(i) && ZoneHeld(s, z) && (s.zones[z].uindex + 1 == s.zones[z].nmax ==> s.zones[z].free != [])
  {
    assert ListOk(s, i) && s.lists[i][0] in s.lists[i];
  }

  lemma ZoneKnown(s: Heap, z: nat)
    requires Inv(s) && z in s.zones
    ensures s.zones[z].zi < |s.lists| && ZoneOk(s.zones[z], z, s.zoneSize) && ZoneHeld(s, z)
  {
  }

  // ---------------------------------------------------------------- rt_malloc keeps the invariant

  /** Only pages p..p + n changed hands. */
  ghost predicate Repaged(s: Heap, s': Heap, p: nat, n: nat) {
    && s'.zoneSize == s.zoneSize && s'.owner.Keys == s.owner.Keys && s'.usage.Keys == s.usage.Keys
    && s.usage.Keys == s.owner.Keys
    && (forall q: nat :: q in s.owner && !(p <= q < p + n) ==> s'.owner[q] == s.owner[q] && s'.usage[q] == s.usage[q])
  }

  lemma ZoneElsewhere(s: Heap, s': Heap, p: nat, n: nat, o: Owner, z: nat)
    requires Repaged(s, s', p, n) && Owned(s.owner, p, n, o) && ZoneHeld(s, z) && o != Zoned(z)
    ensures ZoneHeld(s', z)
  {
  }

  lemma LargeElsewhere(s: Heap, s': Heap, p: nat, n: nat, o: Owner, x: nat)
    requires Repaged(s, s', p, n) && Owned(s.owner, p, n, o) && x in s.large && LargeHeld(s, x) && o != Spanned(x)
    requires x in s'.large && s'.large[x] == s.large[x]
    ensures LargeHeld(s', x)
  {
  }

  lemma ClaimedWhole(owner: map<nat, Owner>, p: nat, n: nat, o: Owner)
    requires forall q: nat :: p <= q < p + n ==> q in owner
    ensures Owned(Claimed(owner, p, n, o), p, n, o)
  {
  }

  /** Taking a run of free pages out of the page list. */
  lemma PagesTaken(s: Heap, n: nat, o: Owner)
    requires PagesOk(s) && n > 0 && P.Alloc(s.runs, n).0.Some? && o != Nobody
    ensures var p, t := P.Alloc(s.runs, n).0.value, P.Alloc(s.runs, n).1;
      && p > 0 && Owned(s.owner, p, n, Nobody)
      && PagesOk(s.(runs := t, owner := Claimed(s.owner, p, n, o)))
  {
    P.AllocLowest(s.runs, n);
    var p, t := P.Alloc(s.runs, n).0.value, P.Alloc(s.runs, n).1;
    hide P.Canon, P.PageSet, P.Alloc;
    forall q: nat | p <= q < p + n ensures q in s.owner && s.owner[q] == Nobody {
      assert P.Within(q, p, n);
      assert q in P.Range(p, n);
    }
    assert p in s.owner;
    var s' := s.(runs := t, owner := Claimed(s.owner, p, n, o));
    forall q ensures q in P.PageSet(t) <==> q in s'.owner && s'.owner[q] == Nobody {
      assert P.Within(q, p, n) ==> q in P.Range(p, n);
    }
  }

  /** Pages that belonged to o changed hands: the zones that are not o are still there. */
  lemma HeldElsewhere(s: Heap, r: Heap, p: nat, n: nat, o: Owner)
    requires Repaged(s, r, p, n) && Owned(s.owner, p, n, o) && ZonesOk(s) && r.zones == s.zones
    requires r.idle == s.idle || ((forall z :: z in r.idle ==> z in s.idle) && Distinct(r.idle))
    requires o.Zoned? ==> o.z !in r.zones && o.z !in r.idle
    requires r.zoneSize == s.zoneSize
    ensures ZonesOk(r)
  {
    hide ZoneOk, ZoneHeld, Repaged, Owned, Distinct;
    forall z | z in r.zones || z in r.idle ensures ZoneHeld(r, z) { ZoneElsewhere(s, r, p, n, o, z); }
  }

  lemma MallocLargeKeeps(s: Heap, n: nat)
    requires Inv(s) && n > 0
    ensures Inv(MallocLarge(s, n).0)
  {
    hide PagesOk, P.Alloc, Owned, ZonesOk, ListsOk, LargeHeld, Claimed;
    if P.Alloc(s.runs, n).0.Some? {
      var p := P.Alloc(s.runs, n).0.value;
      LargeTaken(s, n);
      var r := MallocLarge(s, n).0;
      NotYetLive(s, p, n);
      HeldElsewhere(s, r, p, n, Nobody);
      forall x | x in r.large ensures LargeHeld(r, x) {
        if x != p { LargeElsewhere(s, r, p, n, Nobody, x); }
      }
      forall q | q in r.owner ensures AccountedPage(r, q) { assert AccountedPage(s, q); LargeOwners(s, n, q); }
      SameLists(s, r);
    }
  }

  lemma LargeOwners(s: Heap, n: nat, q: nat)
    requires P.Alloc(s.runs, n).0.Some? && q in s.owner
    ensures var p := P.Alloc(s.runs, n).0.value;
      MallocLarge(s, n).0.owner[q] == if p <= q < p + n then Spanned(p) else s.owner[q]
  {
  }

  lemma LargeTaken(s: Heap, n: nat)
    requires PagesOk(s) && n > 0 && P.Alloc(s.runs, n).0.Some?
    ensures var p, r := P.Alloc(s.runs, n).0.value, MallocLarge(s, n).0;
      && PagesOk(r) && Repaged(s, r, p, n) && Owned(s.owner, p, n, Nobody) && LargeHeld(r, p)
  {
    var p := P.Alloc(s.runs, n).0.value;
    PagesTaken(s, n, Spanned(p));
    hide P.Alloc, P.Canon, P.PageSet;
    assert p in s.usage;
  }

  lemma SameLists(s: Heap, r: Heap)
    requires ListsOk(s) && r.zones == s.zones && r.lists == s.lists
    ensures ListsOk(r)
  {
    forall i | 0 <= i < NZONES ensures ListOk(r, i) { assert ListOk(s, i); }
  }

  /** Free pages are neither a zone's nor a large allocation's. */
  lemma NotYetLive(s: Heap, p: nat, n: nat)
    requires Inv(s) && n > 0 && Owned(s.owner, p, n, Nobody)
    ensures p !in s.large && p !in s.zones && p !in s.idle
  {
    hide PagesOk, Accounted, ListOk, ZoneOk;
    assert s.owner[p] == Nobody;
  }

  /** Building a zone on pages that are held for it. */
  lemma BuildKeeps(s: Heap, z: nat, n: nat)
    requires 0 < n < Limit(s.zoneSize) && Ready(s, z, n)
    ensures n < MAX_CHUNK && Chunk(n) > 0 && 0 <= Index(n) < |s.lists| && Inv(Build(s, z, n).0)
    ensures NewZone(z, n, s.zoneSize).nmax >= 3 && Live(NewZone(z, n, s.zoneSize)) == {NewZone(z, n, s.zoneSize).base}
  {
    Classes(n);
    NewZoneOk(z, n, s.zoneSize);
    hide PagesOk, ZonesOk, LargesOk, ListsOk, ZoneOk, Chunk, Index, NewZone, Live;
    var r := Build(s, z, n).0;
    BuiltZones(s, z, n);
    SameLarges(s, r);
    forall q | q in r.owner ensures AccountedPage(r, q) { assert AccountedOr(s, q, z); }
    BuiltLists(s, z, n);
    SamePages(s, r);
  }

  lemma BuiltZones(s: Heap, z: nat, n: nat)
    requires 0 < n < MAX_CHUNK && Chunk(n) > 0 && 0 <= Index(n) < |s.lists|
    requires ZonesOk(s) && ZoneHeld(s, z) && z !in s.idle && ZoneOk(NewZone(z, n, s.zoneSize), z, s.zoneSize)
    ensures ZonesOk(Build(s, z, n).0)
  {
    hide ZoneOk, NewZone, Owned, Marked, Index, Chunk, Distinct;
  }

  predicate AccountedOr(s: Heap, q: nat, z: nat)
    requires q in s.owner
  {
    AccountedPage(s, q) || (s.owner[q] == Zoned(z) && z <= q < z + ZonePages(s))
  }

  /** The invariant, but for zone z, which holds its pages and is on no list. */
  ghost predicate Ready(s: Heap, z: nat, n: nat) {
    && IsZoneSize(s.zoneSize) && PagesOk(s) && ZonesOk(s) && LargesOk(s) && ListsOk(s)
    && (forall q :: q in s.owner ==> AccountedOr(s, q, z)) && s.idleCount == |s.idle| <= THRESH
    && ZoneHeld(s, z) && z !in s.zones && z !in s.idle
    && (0 <= Index(n) < |s.lists| ==> s.lists[Index(n)] == [])
  }

  lemma SameHeld(s: Heap, r: Heap, z: nat)
    requires ZoneHeld(s, z) && r.owner == s.owner && r.usage == s.usage && r.zoneSize == s.zoneSize
    ensures ZoneHeld(r, z)
  {
  }

  lemma SameLarges(s: Heap, r: Heap)
    requires LargesOk(s) && r.owner == s.owner && r.usage == s.usage && r.large == s.large
    ensures LargesOk(r)
  {
    forall x | x in r.large ensures LargeHeld(r, x) { assert LargeHeld(s, x); }
  }

  lemma SamePages(s: Heap, r: Heap)
    requires PagesOk(s) && r.owner == s.owner && r.usage == s.usage && r.runs == s.runs
    ensures PagesOk(r)
  {
  }

  lemma BuiltList(s: Heap, z: nat, n: nat, i: nat)
    requires 0 < n < MAX_CHUNK && Chunk(n) > 0 && 0 <= Index(n) < |s.lists| && i < |s.lists| && ListOk(s, i)
    requires z !in s.zones && s.lists[Index(n)] == []
    requires NewZone(z, n, s.zoneSize).zi == Index(n) && NewZone(z, n, s.zoneSize).nfree > 0
    ensures ListOk(Build(s, z, n).0, i)
  {
    hide NewZone, Index, Chunk;
    var r := Build(s, z, n).0;
    forall x ensures x in r.lists[i] <==> x in r.zones && r.zones[x].zi == i && r.zones[x].nfree > 0 {
      assert x in s.lists[i] <==> x in s.zones && s.zones[x].zi == i && s.zones[x].nfree > 0;
    }
    forall x, y | x in r.lists[i] && y in r.lists[i] && WhollyFree(r, x) && WhollyFree(r, y) ensures x == y {
      if i != Index(n) { assert WhollyFree(s, x) && WhollyFree(s, y); }
    }
  }

  lemma BuiltLists(s: Heap, z: nat, n: nat)
    requires 0 < n < MAX_CHUNK && Chunk(n) > 0 && 0 <= Index(n) < |s.lists| && ListsOk(s)
    requires z !in s.zones && s.lists[Index(n)] == []
    requires NewZone(z, n, s.zoneSize).zi == Index(n) && NewZone(z, n, s.zoneSize).nfree > 0
    ensures ListsOk(Build(s, z, n).0)
  {
    forall i | 0 <= i < NZONES ensures ListOk(Build(s, z, n).0, i) {
      hide ListOk, NewZone, Index, Chunk;
      BuiltList(s, z, n, i);
    }
  }

  /** An idle zone can be rebuilt. */
  lemma IdleReady(s: Heap, n: nat)
    requires Inv(s) && s.idle != [] && (0 <= Index(n) < |s.lists| ==> s.lists[Index(n)] == [])
    ensures Ready(s.(idle := s.idle[1..], idleCount := s.idleCount - 1), s.idle[0], n)
  {
    hide ZoneOk, ZoneHeld, LargesOk, ListsOk, Index, Owned;
    var z, r := s.idle[0], s.(idle := s.idle[1..], idleCount := s.idleCount - 1);
    assert forall k :: 0 <= k < |r.idle| ==> r.idle[k] == s.idle[k + 1];
    assert z in s.idle;
    SamePages(s, r);
    SameHeld(s, r, z);
    forall x | x in r.zones || x in r.idle ensures ZoneHeld(r, x) { SameHeld(s, r, x); }
    SameLarges(s, r);
    forall q | q in r.owner ensures AccountedOr(r, q, z) {
      assert AccountedPage(s, q);
      match s.owner[q] {
        case Zoned(y) => if y in s.idle { var k :| 0 <= k < |s.idle| && s.idle[k] == y; assert k == 0 || r.idle[k - 1] == y; }
        case _ =>
      }
    }
    SameLists(s, r);
  }

  /** So can pages just taken from the page allocator. */
  lemma FreshReady(s: Heap, n: nat)
    requires Inv(s) && P.Alloc(s.runs, ZonePages(s)).0.Some? && (0 <= Index(n) < |s.lists| ==> s.lists[Index(n)] == [])
    ensures var z, t := P.Alloc(s.runs, ZonePages(s)).0.value, P.Alloc(s.runs, ZonePages(s)).1;
      Ready(WithZone(s, z, t), z, n)
  {
    var k := ZonePages(s);
    assert k > 0;
    hide PagesOk, P.Alloc, Owned, Marked, ZoneHeld, ZonesOk, ListsOk, LargesOk, Index, ZonePages, Accounted;
    var z, t := P.Alloc(s.runs, k).0.value, P.Alloc(s.runs, k).1;
    var r := WithZone(s, z, t);
    FreshHeld(s);
    NotYetLive(s, z, k);
    HeldElsewhere(s, r, z, k, Nobody);
    LargesElsewhere(s, r, z, k, Nobody);
    FreshAccounted(s, z, t);
    SameLists(s, r);
  }

  lemma LargesElsewhere(s: Heap, r: Heap, p: nat, n: nat, o: Owner)
    requires Repaged(s, r, p, n) && Owned(s.owner, p, n, o) && LargesOk(s)
    requires forall x :: x in r.large ==> x in s.large && r.large[x] == s.large[x] && o != Spanned(x)
    ensures LargesOk(r)
  {
    hide LargeHeld, Owned, Repaged;
    forall x | x in r.large ensures LargeHeld(r, x) { LargeElsewhere(s, r, p, n, o, x); }
  }

  lemma FreshAccounted(s: Heap, z: nat, t: seq<P.Run>)
    requires Accounted(s)
    ensures forall q :: q in WithZone(s, z, t).owner ==> AccountedOr(WithZone(s, z, t), q, z)
  {
    var r := WithZone(s, z, t);
    forall q | q in r.owner ensures AccountedOr(r, q, z) { assert AccountedPage(s, q); }
  }

  lemma FreshHeld(s: Heap)
    requires PagesOk(s) && IsZoneSize(s.zoneSize) && P.Alloc(s.runs, ZonePages(s)).0.Some?
    ensures var z, t := P.Alloc(s.runs, ZonePages(s)).0.value, P.Alloc(s.runs, ZonePages(s)).1;
      var r := WithZone(s, z, t);
      && PagesOk(r) && Repaged(s, r, z, ZonePages(s)) && Owned(s.owner, z, ZonePages(s), Nobody) && ZoneHeld(r, z)
  {
    var z, t := P.Alloc(s.runs, ZonePages(s)).0.value, P.Alloc(s.runs, ZonePages(s)).1;
    PagesTaken(s, ZonePages(s), Zoned(z));
    hide P.Alloc, P.Canon, P.PageSet;
    ClaimedWhole(s.owner, z, ZonePages(s), Zoned(z));
  }

  lemma MallocBuiltKeeps(s: Heap, n: nat)
    requires Inv(s) && 0 < n < Limit(s.zoneSize)
    ensures n < MAX_CHUNK && Chunk(n) > 0 && 0 <= Index(n) < |s.lists|
    ensures s.lists[Index(n)] == [] ==> Inv(MallocBuilt(s, n).0)
  {
    Classes(n);
    hide Inv, Ready, Chunk, Index, P.Alloc, Build, WithZone;
    if s.lists[Index(n)] == [] {
      if s.idle != [] {
        IdleReady(s, n);
        BuildKeeps(s.(idle := s.idle[1..], idleCount := s.idleCount - 1), s.idle[0], n);
      } else if P.Alloc(s.runs, ZonePages(s)).0.Some? {
        FreshReady(s, n);
        BuildKeeps(WithZone(s, P.Alloc(s.runs, ZonePages(s)).0.value, P.Alloc(s.runs, ZonePages(s)).1),
                   P.Alloc(s.runs, ZonePages(s)).0.value, n);
      }
    }
  }

  /** Replacing one zone by a version of it. */
  lemma ZoneUpdated(s: Heap, z: nat, zn: Zone, lists: seq<seq<nat>>)
    requires Inv(s) && z in s.zones && ZoneOk(zn, z, s.zoneSize)
    requires ListsOk(s.(zones := s.zones[z := zn], lists := lists))
    ensures Inv(s.(zones := s.zones[z := zn], lists := lists))
  {
    hide PagesOk, Owned, Marked, ListsOk, LargesOk, ZoneOk;
    var r := s.(zones := s.zones[z := zn], lists := lists);
    SamePages(s, r);
    forall x | x in r.zones || x in r.idle ensures ZoneHeld(r, x) { SameHeld(s, r, x); }
    SameLarges(s, r);
    forall q | q in r.owner ensures AccountedPage(r, q) { assert AccountedPage(s, q); }
  }

  lemma MallocListedKeeps(s: Heap, i: nat)
    requires Inv(s) && i < NZONES && i < |s.lists| && s.lists[i] != []
    ensures var z := s.lists[i][0];
      z in s.zones && (s.zones[z].uindex + 1 == s.zones[z].nmax ==> s.zones[z].free != []) && Inv(MallocListed(s, i).0)
  {
    hide PagesOk, ZonesOk, LargesOk, Accounted, ZoneOk, Live;
    FirstListed(s, i);
    var z := s.lists[i][0];
    TakeChunkOk(s.zones[z], z, s.zoneSize);
    ChunksAddUp(s.zones[z], z, s.zoneSize);
    TakenLists(s, i);
    var r := MallocListed(s, i).0;
    ZoneUpdated(s, z, r.zones[z], r.lists);
  }

  lemma TakenLists(s: Heap, i: nat)
    requires ListsOk(s) && i < NZONES && s.lists[i] != []
    requires var z := s.lists[i][0];
      z in s.zones && s.zones[z].zi == i && s.zones[z].nfree > 0 && s.zones[z].nfree <= s.zones[z].nmax
      && (s.zones[z].uindex + 1 == s.zones[z].nmax ==> s.zones[z].free != [])
    ensures ListsOk(MallocListed(s, i).0)
  {
    forall k | 0 <= k < NZONES ensures ListOk(MallocListed(s, i).0, k) {
      hide ListOk;
      TakenList(s, i, k);
    }
  }

  lemma TakenList(s: Heap, i: nat, k: nat)
    requires i < |s.lists| && k < |s.lists| && s.lists[i] != [] && ListOk(s, i) && ListOk(s, k)
    requires var z := s.lists[i][0];
      z in s.zones && s.zones[z].zi == i && s.zones[z].nfree > 0 && s.zones[z].nfree <= s.zones[z].nmax
      && (s.zones[z].uindex + 1 == s.zones[z].nmax ==> s.zones[z].free != [])
    ensures ListOk(MallocListed(s, i).0, k)
  {
    var z, r := s.lists[i][0], MallocListed(s, i).0;
    forall x ensures x in r.lists[k] <==> x in r.zones && r.zones[x].zi == k && r.zones[x].nfree > 0 {
      assert x in s.lists[k] <==> x in s.zones && s.zones[x].zi == k && s.zones[x].nfree > 0;
      InTail(s.lists[i], x);
    }
    forall x, y | x in r.lists[k] && y in r.lists[k] && WhollyFree(r, x) && WhollyFree(r, y) ensures x == y {
      InTail(s.lists[i], x);
      InTail(s.lists[i], y);
      assert WhollyFree(s, x) && WhollyFree(s, y);
    }
  }

  lemma InTail(q: seq<nat>, x: nat)
    requires Distinct(q) && q != []
    ensures x in q[1..] <==> x in q && x != q[0]
    ensures Distinct(q[1..])
  {
    assert forall k :: 0 <= k < |q[1..]| ==> q[1..][k] == q[k + 1];
    if x in q && x != q[0] { var k :| 0 <= k < |q| && q[k] == x; assert q[1..][k - 1] == x; }
  }

  /** rt_malloc keeps the invariant. */
  lemma MallocKeeps(s: Heap, n: nat)
    requires Inv(s)
    ensures Inv(Malloc(s, n).0)
  {
    if n == 0 {
    } else if n >= Limit(s.zoneSize) {
      MallocLargeKeeps(s, PagesFor(n));
    } else {
      Classes(n);
      MallocBuiltKeeps(s, n);
      if s.lists[Index(n)] != [] { FirstListed(s, Index(n)); MallocListedKeeps(s, Index(n)); }
    }
  }

  // ---------------------------------------------------------------- what rt_malloc hands out

  /** memusage leads from a live chunk back to its zone. */
  lemma MapsBack(s: Heap, z: nat, a: nat)
    requires Inv(s) && ChunkLive(s, z, a)
    ensures a / PAGE in s.usage && z <= a / PAGE && s.usage[a / PAGE] == Small(a / PAGE - z)
    ensures a / PAGE in s.owner && s.owner[a / PAGE] == Zoned(z) && a > 0
    ensures forall b: nat :: a <= b < a + s.zones[z].size ==> Within(b / PAGE, z, ZonePages(s))
  {
    hide PagesOk, LargesOk, Accounted, ListsOk, Live;
    ZoneKnown(s, z);
    LiveInZone(s.zones[z], z, s.zoneSize, a);
    forall b: nat | a <= b < a + s.zones[z].size ensures Within(b / PAGE, z, ZonePages(s)) { PageOf(b, z, ZonePages(s)); }
    SizePositive(s.zones[z].zi);
    assert Within(a / PAGE, z, ZonePages(s));
  }

  predicate Within(q: nat, z: nat, n: nat) { z <= q < z + n }

  lemma PageOf(b: nat, z: nat, n: nat)
    requires z * PAGE <= b < (z + n) * PAGE
    ensures Within(b / PAGE, z, n)
  {
  }

  /** Bytes of a large allocation lie on its pages. */
  lemma LargePages(s: Heap, p: nat, b: nat)
    requires Inv(s) && p in s.large && p * PAGE <= b < p * PAGE + s.large[p] * PAGE
    ensures b / PAGE in s.owner && s.owner[b / PAGE] == Spanned(p)
  {
    assert LargeHeld(s, p);
    PageOf(b, p, s.large[p]);
  }

  /** Different live allocations have no byte in common. */
  lemma LiveApart(s: Heap, a: nat, n: nat, b: nat, m: nat, x: nat)
    requires Inv(s) && LiveAt(s, a, n) && LiveAt(s, b, m) && a <= x < a + n && b <= x < b + m
    ensures a == b && n == m
  {
    hide Inv, Live;
    var q := x / PAGE;
    var oa := OwnerOf(s, a, n, x);
    var ob := OwnerOf(s, b, m, x);
    if oa.Zoned? {
      ZoneKnown(s, oa.z);
      ChunksMeet(s.zones[oa.z], oa.z, s.zoneSize, a, b, x);
    } else {
      assert a == oa.p * PAGE && b == ob.p * PAGE;
    }
  }

  /** Which zone or large allocation byte x of the allocation at a belongs to. */
  lemma OwnerOf(s: Heap, a: nat, n: nat, x: nat) returns (o: Owner)
    requires Inv(s) && LiveAt(s, a, n) && a <= x < a + n
    ensures x / PAGE in s.owner && o == s.owner[x / PAGE]
    ensures (o.Zoned? && ChunkOf(s, o.z, a, n)) || (o.Spanned? && o.p in s.large && a == o.p * PAGE && n == s.large[o.p] * PAGE)
  {
    hide Live;
    if z :| ChunkOf(s, z, a, n) {
      MapsBack(s, z, a);
      assert Within(x / PAGE, z, ZonePages(s));
      ZoneKnown(s, z);
      o := Zoned(z);
    } else {
      LargePages(s, a / PAGE, x);
      o := Spanned(a / PAGE);
    }
  }

  lemma ChunksMeet(zn: Zone, z: nat, zoneSize: nat, a: nat, b: nat, x: nat)
    requires ZoneOk(zn, z, zoneSize) && a in Live(zn) && b in Live(zn) && a <= x < a + zn.size && b <= x < b + zn.size
    ensures a == b
  {
    SizePositive(zn.zi);
    hide SizeOf, Chunks;
    if a != b { ChunksApart(zn, zn.uindex + 1, a, b); }
  }

  lemma LivePositive(s: Heap, a: nat, n: nat)
    requires Inv(s) && LiveAt(s, a, n)
    ensures n > 0
  {
    hide PagesOk, Accounted, ListsOk, Live;
    if z :| ChunkOf(s, z, a, n) { SizePositive(s.zones[z].zi); } else { assert LargeHeld(s, a / PAGE); }
  }

  /** Address a is not live if its page is free, or its zone does not count it. */
  lemma NotLive(s: Heap, a: nat, n: nat)
    requires Inv(s) && a / PAGE in s.owner
    requires s.owner[a / PAGE] == Nobody || (s.owner[a / PAGE].Zoned? && !ChunkLive(s, s.owner[a / PAGE].z, a))
    ensures !LiveAt(s, a, n)
  {
    hide Inv, Live;
    if LiveAt(s, a, n) {
      LivePositive(s, a, n);
      var o := OwnerOf(s, a, n, a);
    }
  }

  /** r has one live allocation more than s, n bytes at a. */
  ghost predicate Gained(s: Heap, r: Heap, a: nat, n: nat) {
    forall b, m :: LiveAt(r, b, m) <==> LiveAt(s, b, m) || (b == a && m == n)
  }

  /** None of the n bytes at a is live. */
  ghost predicate AllFree(s: Heap, a: nat, n: nat) {
    forall b, m, x :: LiveAt(s, b, m) && Inside(x, b, m) ==> !Inside(x, a, n)
  }

  predicate Inside(x: int, a: nat, n: nat) { a <= x < a + n }

  lemma GainedIsFree(s: Heap, r: Heap, a: nat, n: nat)
    requires Inv(s) && Inv(r) && Gained(s, r, a, n) && a / PAGE in s.owner
    requires s.owner[a / PAGE] == Nobody || (s.owner[a / PAGE].Zoned? && !ChunkLive(s, s.owner[a / PAGE].z, a))
    ensures AllFree(s, a, n)
  {
    hide Inv, LiveAt, ChunkLive;
    forall b, m, x | LiveAt(s, b, m) && Inside(x, b, m) ensures !Inside(x, a, n) {
      NotLive(s, a, m);
      if Inside(x, a, n) { LiveApart(r, a, n, b, m, x); }
    }
  }

  lemma GainChunk(s: Heap, r: Heap, z: nat, a: nat)
    requires z in r.zones && (forall x :: x in r.zones <==> x in s.zones || x == z) && r.large == s.large
    requires forall x :: x in s.zones && x != z ==> r.zones[x] == s.zones[x]
    requires if z in s.zones then Live(r.zones[z]) == Live(s.zones[z]) + {a} && r.zones[z].size == s.zones[z].size
             else Live(r.zones[z]) == {a}
    ensures Gained(s, r, a, r.zones[z].size)
  {
    hide Live;
    forall b, m ensures LiveAt(r, b, m) <==> LiveAt(s, b, m) || (b == a && m == r.zones[z].size) {
      if x :| ChunkOf(s, x, b, m) { assert ChunkOf(r, x, b, m); }
      if x :| ChunkOf(r, x, b, m) { assert ChunkOf(s, x, b, m) || (b == a && m == r.zones[z].size); }
      if b == a && m == r.zones[z].size { assert ChunkOf(r, z, b, m); }
    }
  }

  /** The bytes a request for n gets. */
  function Granted(s: Heap, n: nat): nat { if n >= Limit(s.zoneSize) then PagesFor(n) * PAGE else Chunk(n) }

  /** What rt_malloc promises for a result a other than NULL. */
  ghost predicate Fresh(s: Heap, r: Heap, a: nat, n: nat) {
    Inv(r) && Gained(s, r, a, n) && AllFree(s, a, n)
  }

  lemma LargeFresh(s: Heap, n: nat)
    requires Inv(s) && n > 0
    ensures var (r, a) := MallocLarge(s, n);
      if P.Alloc(s.runs, n).0.None? then a == NULL && r == s else a != NULL && Fresh(s, r, a, n * PAGE)
  {
    hide Inv, LiveAt, P.Alloc, Owned, AllFree, ChunkLive;
    MallocLargeKeeps(s, n);
    if P.Alloc(s.runs, n).0.Some? {
      var p, r := P.Alloc(s.runs, n).0.value, MallocLarge(s, n).0;
      PagesFree(s, n);
      NotYetLive(s, p, n);
      GainLarge(s, r, p, n);
      GainedIsFree(s, r, p * PAGE, n * PAGE);
    }
  }

  lemma PagesFree(s: Heap, n: nat)
    requires Inv(s) && n > 0 && P.Alloc(s.runs, n).0.Some?
    ensures var p := P.Alloc(s.runs, n).0.value;
      p > 0 && Owned(s.owner, p, n, Nobody) && p in s.owner && s.owner[p] == Nobody
  {
    PagesTaken(s, n, Table);
  }

  lemma GainLarge(s: Heap, r: Heap, p: nat, n: nat)
    requires p !in s.large && r.large == s.large[p := n] && r.zones == s.zones
    ensures Gained(s, r, p * PAGE, n * PAGE)
  {
    hide Live;
    forall b, m ensures LiveAt(r, b, m) <==> LiveAt(s, b, m) || (b == p * PAGE && m == n * PAGE) {
      if x :| ChunkOf(s, x, b, m) { assert ChunkOf(r, x, b, m); }
      if x :| ChunkOf(r, x, b, m) { assert ChunkOf(s, x, b, m); }
    }
  }

  lemma ListedFresh(s: Heap, n: nat)
    requires Inv(s) && 0 < n < Limit(s.zoneSize) && 0 <= Index(n) < |s.lists| && s.lists[Index(n)] != []
    ensures Index(n) < NZONES && n < MAX_CHUNK
    ensures var z := s.lists[Index(n)][0];
      z in s.zones && (s.zones[z].uindex + 1 == s.zones[z].nmax ==> s.zones[z].free != [])
    ensures var (r, a) := MallocListed(s, Index(n)); a != NULL && Fresh(s, r, a, Chunk(n))
  {
    hide Inv, Live, LiveAt, Chunk, Index, SizeOf, AllFree, ZoneHeld, ZoneOk, Gained, ZonePages;
    Classes(n);
    var i := Index(n);
    FirstListed(s, i);
    MallocListedKeeps(s, i);
    var z := s.lists[i][0];
    var (r, a) := MallocListed(s, i);
    TakeChunkOk(s.zones[z], z, s.zoneSize);
    GainChunk(s, r, z, a);
    MapsBack(r, z, a);
    GainedIsFree(s, r, a, Chunk(n));
  }

  lemma BuildFresh(s: Heap, z: nat, n: nat, s0: Heap)
    requires 0 < n < Limit(s.zoneSize) && Ready(s, z, n) && Inv(s0) && s0.zones == s.zones && s0.large == s.large
    requires Owned(s0.owner, z, ZonePages(s), Nobody) || Owned(s0.owner, z, ZonePages(s), Zoned(z))
    ensures n < MAX_CHUNK && Chunk(n) > 0 && 0 <= Index(n) < |s.lists|
    ensures var (r, a) := Build(s, z, n); a != NULL && Fresh(s0, r, a, Chunk(n))
  {
    hide Inv, Live, LiveAt, Chunk, Index, AllFree, ZoneHeld, PagesOk, ZonesOk, LargesOk, ListsOk;
    Classes(n);
    BuildKeeps(s, z, n);
    var (r, a) := Build(s, z, n);
    GainChunk(s0, r, z, a);
    MapsBack(r, z, a);
    assert Within(a / PAGE, z, ZonePages(r));
    assert a / PAGE in s0.owner;
    GainedIsFree(s0, r, a, Chunk(n));
  }

  lemma BuiltFresh(s: Heap, n: nat)
    requires Inv(s) && 0 < n < Limit(s.zoneSize)
    ensures n < MAX_CHUNK && Chunk(n) > 0 && 0 <= Index(n) < |s.lists|
    ensures s.lists[Index(n)] == [] ==>
              var (r, a) := MallocBuilt(s, n);
              if s.idle == [] && P.Alloc(s.runs, ZonePages(s)).0.None? then a == NULL && r == s
              else a != NULL && Fresh(s, r, a, Chunk(n))
  {
    Classes(n);
    if s.lists[Index(n)] == [] {
      hide Inv, Ready, Chunk, Index, P.Alloc, Build, WithZone, Fresh, Owned, Limit, ZoneHeld;
      if s.idle != [] {
        IdleReady(s, n);
        IdleHeld(s);
        BuildFresh(s.(idle := s.idle[1..], idleCount := s.idleCount - 1), s.idle[0], n, s);
      } else if P.Alloc(s.runs, ZonePages(s)).0.Some? {
        FreshReady(s, n);
        FreshOwned(s);
        BuildFresh(WithZone(s, P.Alloc(s.runs, ZonePages(s)).0.value, P.Alloc(s.runs, ZonePages(s)).1),
                   P.Alloc(s.runs, ZonePages(s)).0.value, n, s);
      }
    }
  }

  lemma IdleHeld(s: Heap)
    requires Inv(s) && s.idle != []
    ensures Owned(s.owner, s.idle[0], ZonePages(s), Zoned(s.idle[0]))
  {
    assert s.idle[0] in s.idle;
  }

  lemma FreshOwned(s: Heap)
    requires Inv(s) && P.Alloc(s.runs, ZonePages(s)).0.Some?
    ensures var z, t := P.Alloc(s.runs, ZonePages(s)).0.value, P.Alloc(s.runs, ZonePages(s)).1;
      && Owned(s.owner, z, ZonePages(s), Nobody) && WithZone(s, z, t).zones == s.zones
      && WithZone(s, z, t).large == s.large && WithZone(s, z, t).zoneSize == s.zoneSize && WithZone(s, z, t).lists == s.lists
  {
    FreshHeld(s);
  }

  /** When rt_malloc has nothing to give. */
  ghost predicate Exhausted(s: Heap, n: nat)
    requires Inv(s) && n > 0
  {
    if n >= Limit(s.zoneSize) then NoRun(s, PagesFor(n))
    else 0 <= Index(n) < |s.lists| && s.lists[Index(n)] == [] && s.idle == [] && NoRun(s, ZonePages(s))
  }

  /** No n consecutive pages are free. */
  ghost predicate NoRun(s: Heap, n: nat) { forall p: nat :: !(P.Range(p, n) <= P.PageSet(s.runs)) }

  lemma NoRunIsNone(s: Heap, n: nat)
    requires Inv(s) && n > 0
    ensures P.Alloc(s.runs, n).0.None? <==> NoRun(s, n)
  {
    hide ZonesOk, LargesOk, Accounted, ListsOk;
    P.AllocLowest(s.runs, n);
  }

  /** rt_malloc: NULL exactly when the request is zero or there is nothing to give, and then nothing changes;
      otherwise bytes nobody holds, as many as asked for at least, and every other allocation stays. */
  lemma MallocPromise(s: Heap, n: nat)
    requires Inv(s)
    ensures var (r, a) := Malloc(s, n);
      if n == 0 || Exhausted(s, n) then a == NULL && r == s
      else a != NULL && Fresh(s, r, a, Granted(s, n)) && Granted(s, n) >= n
  {
    if n > 0 {
      hide Fresh, NoRun;
      if n >= Limit(s.zoneSize) {
        LimitPositive(s.zoneSize);
        LargeFresh(s, PagesFor(n));
        NoRunIsNone(s, PagesFor(n));
        assert PagesFor(n) * PAGE >= n;
      } else {
        hide Inv, Index, Chunk;
        ZonePositive(s);
        NoRunIsNone(s, ZonePages(s));
        BuiltFresh(s, n);
        Classes(n);
        if s.lists[Index(n)] != [] { ListedFresh(s, n); }
      }
    }
  }

  lemma LimitPositive(z: nat)
    requires IsZoneSize(z)
    ensures Limit(z) > 0
  {
  }

  lemma ZonePositive(s: Heap)
    requires Inv(s)
    ensures ZonePages(s) > 0
  {
  }

  // ---------------------------------------------------------------- rt_free

  /** Giving n pages of owner o back to the page list. */
  lemma PagesReturned(s: Heap, p: nat, n: nat, o: Owner)
    requires PagesOk(s) && n > 0 && Owned(s.owner, p, n, o) && o != Nobody
    ensures P.Range(p, n) !! P.PageSet(s.runs)
    ensures PagesOk(s.(runs := P.Free(s.runs, p, n), owner := Claimed(s.owner, p, n, Nobody)))
  {
    hide P.Canon, P.PageSet, P.Free;
    forall q | q in P.Range(p, n) ensures q in s.owner && s.owner[q] == o { assert P.Within(q, p, n); }
    P.FreeAdds(s.runs, p, n);
    var s' := s.(runs := P.Free(s.runs, p, n), owner := Claimed(s.owner, p, n, Nobody));
    forall q ensures q in P.PageSet(s'.runs) <==> q in s'.owner && s'.owner[q] == Nobody {
      assert P.Within(q, p, n) ==> q in P.Range(p, n);
    }
  }

  lemma FreeLargeKeeps(s: Heap, p: nat)
    requires Inv(s) && p in s.large
    ensures s.large[p] > 0 && P.Range(p, s.large[p]) !! P.PageSet(s.runs) && p in s.usage && s.usage[p] == Large(s.large[p])
    ensures Inv(FreeLarge(s, p, s.large[p]))
  {
    hide PagesOk, ZonesOk, ListsOk, P.Free, P.PageSet, Owned;
    assert LargeHeld(s, p);
    var n := s.large[p];
    var r := FreeLarge(s, p, n);
    PagesReturned(s, p, n, Spanned(p));
    LargeReturned(s, p, n);
    HeldElsewhere(s, r, p, n, Spanned(p));
    LargesElsewhere(s, r, p, n, Spanned(p));
    SameLists(s, r);
    forall q | q in r.owner ensures AccountedPage(r, q) { assert AccountedPage(s, q); }
  }

  lemma LargeReturned(s: Heap, p: nat, n: nat)
    requires PagesOk(s) && n > 0 && Owned(s.owner, p, n, Spanned(p)) && p in s.usage
    ensures var r := FreeLarge(s, p, n); PagesOk(r) && Repaged(s, r, p, n)
  {
    PagesReturned(s, p, n, Spanned(p));
    hide P.Free, P.Canon, P.PageSet, Owned;
  }

  lemma ReleaseKeeps(s: Heap)
    requires InvUpTo(s, THRESH + 1) && s.idle != []
    ensures P.Range(s.idle[0], ZonePages(s)) !! P.PageSet(s.runs)
    ensures Inv(ReleaseIdle(s))
  {
    hide PagesOk, ListsOk, LargesOk, P.Free, P.PageSet, Owned, Marked, ZoneOk;
    var z, r, k := s.idle[0], ReleaseIdle(s), ZonePages(s);
    assert z in s.idle && ZoneHeld(s, z);
    assert forall h :: 0 <= h < |r.idle| ==> r.idle[h] == s.idle[h + 1];
    PagesReturned(s, z, k, Zoned(z));
    IdleReturned(s);
    HeldElsewhere(s, r, z, k, Zoned(z));
    LargesElsewhere(s, r, z, k, Zoned(z));
    SameLists(s, r);
    forall q | q in r.owner ensures AccountedPage(r, q) {
      assert AccountedPage(s, q);
      InTail(s.idle, match s.owner[q] case Zoned(y) => y case _ => 0);
    }
  }

  lemma IdleReturned(s: Heap)
    requires PagesOk(s) && s.idle != [] && ZonePages(s) > 0 && Owned(s.owner, s.idle[0], ZonePages(s), Zoned(s.idle[0]))
    ensures PagesOk(ReleaseIdle(s)) && Repaged(s, ReleaseIdle(s), s.idle[0], ZonePages(s))
  {
    PagesReturned(s, s.idle[0], ZonePages(s), Zoned(s.idle[0]));
    hide P.Free, P.Canon, P.PageSet, Owned;
  }

  /** A zone that is not wholly free, or is alone on its list, stays. */
  lemma PutBackList(s: Heap, z: nat, a: nat, k: nat)
    requires z in s.zones && s.zones[z].zi < |s.lists| && 0 <= s.zones[z].nfree && k < |s.lists| && ListOk(s, k)
    requires !(WhollyFree(PutBack(s, z, a), z) && PutBack(s, z, a).lists[s.zones[z].zi] != [z])
    ensures ListOk(PutBack(s, z, a), k)
  {
    var r, i := PutBack(s, z, a), s.zones[z].zi;
    forall x ensures x in r.lists[k] <==> x in r.zones && r.zones[x].zi == k && r.zones[x].nfree > 0 {
      assert x in s.lists[k] <==> x in s.zones && s.zones[x].zi == k && s.zones[x].nfree > 0;
    }
    forall x, y | x in r.lists[k] && y in r.lists[k] && WhollyFree(r, x) && WhollyFree(r, y) ensures x == y {
      if x != z && y != z { assert WhollyFree(s, x) && WhollyFree(s, y); }
    }
  }

  /** A zone that became wholly free leaves its list. */
  lemma RetireList(s: Heap, z: nat, a: nat, k: nat)
    requires z in s.zones && s.zones[z].zi < |s.lists| && 0 <= s.zones[z].nfree && k < |s.lists| && ListOk(s, k)
    ensures var i := s.zones[z].zi; PutBack(s, z, a).zones[z].zi < |PutBack(s, z, a).lists|
    ensures ListOk(Retire(PutBack(s, z, a), z), k)
  {
    var i, s1 := s.zones[z].zi, PutBack(s, z, a);
    var r := Retire(s1, z);
    if k == i { assert Distinct(s1.lists[i]); WithoutPresent(s1.lists[i], z); }
    forall x ensures x in r.lists[k] <==> x in r.zones && r.zones[x].zi == k && r.zones[x].nfree > 0 {
      assert x in s.lists[k] <==> x in s.zones && s.zones[x].zi == k && s.zones[x].nfree > 0;
    }
    forall x, y | x in r.lists[k] && y in r.lists[k] && WhollyFree(r, x) && WhollyFree(r, y) ensures x == y {
      assert WhollyFree(s, x) && WhollyFree(s, y);
    }
  }

  lemma PutBackKeeps(s: Heap, z: nat, a: nat)
    requires Inv(s) && ChunkLive(s, z, a)
    ensures s.zones[z].zi < |s.lists|
    ensures var r := PutBack(s, z, a);
      !(WhollyFree(r, z) && r.lists[s.zones[z].zi] != [z]) ==> Inv(r)
  {
    hide PagesOk, ZonesOk, LargesOk, Accounted, ZoneOk, Live;
    ZoneKnown(s, z);
    var r := PutBack(s, z, a);
    GiveChunkOk(s.zones[z], z, s.zoneSize, a);
    ChunksAddUp(s.zones[z], z, s.zoneSize);
    if !(WhollyFree(r, z) && r.lists[s.zones[z].zi] != [z]) {
      forall k | 0 <= k < NZONES ensures ListOk(r, k) { assert ListOk(s, k); hide ListOk; PutBackList(s, z, a, k); }
      ZoneUpdated(s, z, r.zones[z], r.lists);
    }
  }

  lemma RetireKeeps(s: Heap, z: nat, a: nat)
    requires Inv(s) && ChunkLive(s, z, a)
    ensures s.zones[z].zi < |s.lists| && z in PutBack(s, z, a).zones
    ensures PutBack(s, z, a).zones[z].zi == s.zones[z].zi && |PutBack(s, z, a).lists| == |s.lists|
    ensures InvUpTo(Retire(PutBack(s, z, a), z), THRESH + 1)
  {
    hide PagesOk, LargesOk, ZoneOk, ZoneHeld, Live;
    ZoneKnown(s, z);
    ChunksAddUp(s.zones[z], z, s.zoneSize);
    var s1 := PutBack(s, z, a);
    var r := Retire(s1, z);
    forall k | 0 <= k < NZONES ensures ListOk(r, k) { assert ListOk(s, k); hide ListOk; RetireList(s, z, a, k); }
    hide ListOk;
    SamePages(s, r);
    SameLarges(s, r);
    forall x | x in r.zones || x in r.idle ensures ZoneHeld(r, x) { SameHeld(s, r, x); }
    forall q | q in r.owner ensures AccountedPage(r, q) { assert AccountedPage(s, q); }
  }

  lemma FreeChunkKeeps(s: Heap, z: nat, a: nat)
    requires Inv(s) && ChunkLive(s, z, a)
    ensures s.zones[z].zi < |s.lists| && Inv(FreeChunk(s, z, a))
  {
    hide PagesOk, ZonesOk, LargesOk, Accounted, ListsOk, Live, PutBack, Retire, ReleaseIdle;
    PutBackKeeps(s, z, a);
    RetireKeeps(s, z, a);
    var s2 := Retire(PutBack(s, z, a), z);
    if s2.idleCount > THRESH { ReleaseKeeps(s2); }
  }

  /** r has the live allocations of s without the one at a. */
  ghost predicate Lost(s: Heap, r: Heap, a: nat) {
    forall b, m :: LiveAt(r, b, m) <==> LiveAt(s, b, m) && b != a
  }

  /** Only one allocation is live at an address. */
  lemma LiveUnique(s: Heap, z: nat, a: nat, m: nat)
    requires Inv(s) && ChunkLive(s, z, a) && LiveAt(s, a, m)
    ensures ChunkOf(s, z, a, m) && !(a % PAGE == 0 && a / PAGE in s.large)
  {
    hide Live, PagesOk, ZonesOk, Accounted, ListsOk;
    MapsBack(s, z, a);
    LivePositive(s, a, m);
    var o := OwnerOf(s, a, m, a);
    var p := a / PAGE;
    assert p in s.large ==> LargeHeld(s, p);
  }

  /** Zone z gave chunk a up, or went away wholly free. */
  lemma LoseChunk(s: Heap, r: Heap, z: nat, a: nat)
    requires Inv(s) && ChunkLive(s, z, a) && r.large == s.large
    requires forall x :: x != z ==> (x in r.zones <==> x in s.zones)
    requires forall x :: x in s.zones && x != z ==> r.zones[x] == s.zones[x]
    requires if z in r.zones then Live(r.zones[z]) == Live(s.zones[z]) - {a} && r.zones[z].size == s.zones[z].size
             else Live(s.zones[z]) == {a}
    ensures Lost(s, r, a)
  {
    hide Live, Inv;
    forall b, m ensures LiveAt(r, b, m) <==> LiveAt(s, b, m) && b != a {
      if LiveAt(s, a, m) { LiveUnique(s, z, a, m); }
      LiveUnique(s, z, a, s.zones[z].size) by { assert ChunkOf(s, z, a, s.zones[z].size); }
      if x :| ChunkOf(s, x, b, m) {
        if b == a { LiveUnique(s, z, a, m); OneZone(s, z, x, a); } else { assert x != z || z in r.zones; assert ChunkOf(r, x, b, m); }
      }
      if x :| ChunkOf(r, x, b, m) {
        assert ChunkOf(s, x, b, m);
        if b == a { OneZone(s, z, x, a); }
      }
    }
  }

  lemma OneZone(s: Heap, z: nat, x: nat, a: nat)
    requires Inv(s) && ChunkLive(s, z, a) && ChunkLive(s, x, a)
    ensures x == z
  {
    hide Inv, Live;
    MapsBack(s, z, a);
    MapsBack(s, x, a);
  }

  lemma FreeChunkZones(s: Heap, z: nat, a: nat)
    requires z in s.zones && s.zones[z].zi < |s.lists|
    ensures var r, zn := FreeChunk(s, z, a), GiveChunk(s.zones[z], a);
      && r.large == s.large
      && (r.zones == s.zones[z := zn] || (r.zones == s.zones - {z} && zn.nfree == zn.nmax))
  {
  }

  lemma FreeChunkLoses(s: Heap, z: nat, a: nat)
    requires Inv(s) && ChunkLive(s, z, a)
    ensures s.zones[z].zi < |s.lists| && Lost(s, FreeChunk(s, z, a), a)
  {
    ZoneKnown(s, z);
    hide Inv, Live, ZoneOk, ZoneHeld, Lost, FreeChunk, GiveChunk;
    var zn := GiveChunk(s.zones[z], a);
    GiveChunkOk(s.zones[z], z, s.zoneSize, a);
    ChunksAddUp(zn, z, s.zoneSize);
    FreeChunkZones(s, z, a);
    assert a in Live(s.zones[z]) && zn.size == s.zones[z].size by { GivenSize(s.zones[z], a); }
    assert Live(zn) == {} ==> Live(s.zones[z]) == {a};
    LoseChunk(s, FreeChunk(s, z, a), z, a);
  }

  lemma GivenSize(zn: Zone, a: nat)
    ensures GiveChunk(zn, a).size == zn.size
  {
  }

  lemma FreeLargeLoses(s: Heap, p: nat)
    requires Inv(s) && p in s.large
    ensures Lost(s, FreeLarge(s, p, s.large[p]), p * PAGE)
  {
    hide Live, Inv;
    var r, a := FreeLarge(s, p, s.large[p]), p * PAGE;
    forall b, m ensures LiveAt(r, b, m) <==> LiveAt(s, b, m) && b != a {
      if x :| ChunkOf(s, x, b, m) { LiveUnique(s, x, b, m); assert ChunkOf(r, x, b, m); }
      if x :| ChunkOf(r, x, b, m) { assert ChunkOf(s, x, b, m); }
    }
  }

  /** rt_free of a live allocation ends that allocation and no other. */
  lemma FreePromise(s: Heap, a: nat, n: nat)
    requires Inv(s) && LiveAt(s, a, n)
    ensures Inv(Free(s, a)) && Lost(s, Free(s, a), a)
  {
    if z :| ChunkOf(s, z, a, n) {
      hide Inv, Live, Lost, FreeChunk;
      MapsBack(s, z, a);
      FreeChunkKeeps(s, z, a);
      FreeChunkLoses(s, z, a);
    } else {
      hide Inv, Live, Lost, FreeLarge;
      FreeLargeKeeps(s, a / PAGE);
      FreeLargeLoses(s, a / PAGE);
    }
  }

  // ---------------------------------------------------------------- rt_realloc

  /** The size rt_realloc asks rt_malloc for when the old block is a chunk. */
  function Rounded(n: nat): nat { if n < MAX_CHUNK then Chunk(n) else n }

  ghost function Move(s: Heap, a: nat, n: nat): (Heap, nat)
    requires Inv(s)
  {
    MallocKeeps(s, n);
    var (s1, b) := Malloc(s, n);
    if b == NULL then (s, NULL) else (Free(s1, a), b)
  }

  ghost function Realloc(s: Heap, a: nat, n: nat): (Heap, nat)
    requires Inv(s)
  {
    if a == NULL then Malloc(s, n)
    else if n == 0 then (Free(s, a), NULL)
    else if a / PAGE !in s.usage then (s, NULL)
    else match s.usage[a / PAGE]
      case Unused => (s, NULL)
      case Large(_) => Move(s, a, n)
      case Small(off) =>
        if off <= a / PAGE && a / PAGE - off in s.zones && s.zones[a / PAGE - off].size == Rounded(n) then (s, a)
        else Move(s, a, Rounded(n))
  }

  /** The allocation at a has become one of m bytes at b. */
  ghost predicate Replaced(s: Heap, r: Heap, a: nat, b: nat, m: nat) {
    forall c, k :: LiveAt(r, c, k) <==> (LiveAt(s, c, k) && c != a) || (c == b && k == m)
  }

  lemma MovePromise(s: Heap, a: nat, len: nat, n: nat)
    requires Inv(s) && LiveAt(s, a, len) && n > 0
    ensures var (r, b) := Move(s, a, n);
      if Exhausted(s, n) then b == NULL && r == s
      else b != NULL && Inv(r) && AllFree(s, b, Granted(s, n)) && Granted(s, n) >= n && Replaced(s, r, a, b, Granted(s, n))
  {
    hide Inv, LiveAt, Malloc, Free, AllFree, Granted, Exhausted;
    MallocPromise(s, n);
    var (s1, b) := Malloc(s, n);
    if b != NULL {
      assert LiveAt(s1, a, len);
      FreePromise(s1, a, len);
      NewIsElsewhere(s, a, len, b, Granted(s, n));
    }
  }

  lemma NewIsElsewhere(s: Heap, a: nat, len: nat, b: nat, m: nat)
    requires Inv(s) && LiveAt(s, a, len) && AllFree(s, b, m) && m > 0
    ensures a != b
  {
    hide Live, Inv;
    LivePositive(s, a, len);
    assert Inside(a, a, len);
    assert Inside(b, b, m);
  }

  /** The live allocation at a is a chunk of a zone, and not pages of its own. */
  ghost predicate IsChunk(s: Heap, a: nat) { exists z :: ChunkLive(s, z, a) }

  /** What rt_realloc asks rt_malloc for: for a chunk, the size its class rounds to. */
  ghost function Request(s: Heap, a: nat, n: nat): nat { if IsChunk(s, a) then Rounded(n) else n }

  /** The allocation at a, of len bytes, is a chunk of the class that n bytes belong to. */
  ghost predicate FitsAlready(s: Heap, a: nat, len: nat, n: nat) { IsChunk(s, a) && len == Rounded(n) }

  /** rt_realloc of a live allocation to n > 0 bytes: the result is a itself if and only if it is a chunk of the right size
      already; it is NULL, without effect, if and only if it is not and nothing can be had for the request; and otherwise
      the allocation is traded for bytes that nobody held, at least n. */
  lemma ReallocPromise(s: Heap, a: nat, len: nat, n: nat)
    requires Inv(s) && LiveAt(s, a, len) && n > 0
    ensures Request(s, a, n) >= n
    ensures var ((r, b), m) := (Realloc(s, a, n), Granted(s, Request(s, a, n)));
      && Inv(r)
      && (b == a <==> FitsAlready(s, a, len, n))
      && (b == NULL <==> !FitsAlready(s, a, len, n) && Exhausted(s, Request(s, a, n)))
      && (b == a || b == NULL ==> r == s)
      && (b != NULL && b != a ==> m >= n && AllFree(s, b, m) && Replaced(s, r, a, b, m))
  {
    RoundedUp(n);
    hide Inv, LiveAt, Move, Realloc, AllFree, Replaced, Exhausted, Rounded, IsChunk, Granted, Request;
    RequestEnough(s, a, n);
    var n' := Request(s, a, n);
    ReallocIs(s, a, len, n);
    MovePromise(s, a, len, n');
    AddressKnown(s, a, len);
    if Move(s, a, n').1 != NULL { NewIsElsewhere(s, a, len, Move(s, a, n').1, Granted(s, n')); }
  }

  lemma RequestEnough(s: Heap, a: nat, n: nat)
    requires n > 0
    ensures Request(s, a, n) >= n
  {
    RoundedUp(n);
  }

  lemma ReallocIs(s: Heap, a: nat, len: nat, n: nat)
    requires Inv(s) && LiveAt(s, a, len) && n > 0
    ensures Realloc(s, a, n) == if FitsAlready(s, a, len, n) then (s, a) else Move(s, a, Request(s, a, n))
  {
    hide Inv, LiveAt, Move, Rounded, IsChunk;
    AddressKnown(s, a, len);
    ChunkByUsage(s, a, len);
  }

  /** memusage tells chunks from pages. */
  lemma ChunkByUsage(s: Heap, a: nat, len: nat)
    requires Inv(s) && LiveAt(s, a, len)
    ensures a / PAGE in s.usage && (IsChunk(s, a) <==> s.usage[a / PAGE].Small?)
    ensures var u := s.usage[a / PAGE];
      u.Small? ==> u.off <= a / PAGE && a / PAGE - u.off in s.zones && s.zones[a / PAGE - u.off].size == len
    ensures !IsChunk(s, a) ==> s.usage[a / PAGE].Large?
  {
    AddressKnown(s, a, len);
    if z :| ChunkLive(s, z, a) {
      hide Inv, LiveAt, Live;
      MapsBack(s, z, a);
    } else {
      assert forall z :: !ChunkOf(s, z, a, len);
    }
  }

  /** rt_realloc to 0 bytes ends the allocation at a, and no other. */
  lemma ReallocToNothing(s: Heap, a: nat, len: nat)
    requires Inv(s) && LiveAt(s, a, len)
    ensures var (r, b) := Realloc(s, a, 0); b == NULL && Inv(r) && Lost(s, r, a)
  {
    AddressKnown(s, a, len);
    FreePromise(s, a, len);
    hide Inv, LiveAt, Free, Lost;
  }

  /** rt_realloc of nothing allocates. */
  lemma ReallocOfNothing(s: Heap, n: nat)
    requires Inv(s)
    ensures var (r, b) := Realloc(s, NULL, n);
      if n == 0 || Exhausted(s, n) then b == NULL && r == s
      else b != NULL && Fresh(s, r, b, Granted(s, n)) && Granted(s, n) >= n
  {
    MallocPromise(s, n);
  }

  lemma RoundedUp(n: nat)
    requires n > 0
    ensures Rounded(n) >= n
  {
    if n < MAX_CHUNK { Classes(n); }
  }

  /** What memusage says about a live allocation. */
  lemma AddressKnown(s: Heap, a: nat, n: nat)
    requires Inv(s) && LiveAt(s, a, n)
    ensures a != NULL && a / PAGE in s.usage
    ensures (s.usage[a / PAGE].Large? && a / PAGE in s.large) ||
            (s.usage[a / PAGE].Small? && s.usage[a / PAGE].off <= a / PAGE && ChunkOf(s, a / PAGE - s.usage[a / PAGE].off, a, n))
  {
    if z :| ChunkOf(s, z, a, n) {
      hide Inv, Live;
      MapsBack(s, z, a);
    } else {
      hide Live, ZonesOk, Accounted, ListsOk;
      assert LargeHeld(s, a / PAGE);
    }
  }

  // ---------------------------------------------------------------- rt_system_heap_init, runs, slack

  /** Pages of the memusage table; a descriptor has 4 bytes. */
  function TablePages(npages: nat): nat { PagesFor(npages * 4) }

  function Initial(start: nat, npages: nat, usage: map<nat, Use>): Heap {
    Heap(ZoneSize(npages * PAGE), P.Alloc([P.Run(start, npages)], TablePages(npages)).1, map[], seq(NZONES, _ => []), [], 0,
         usage, map[], InitialOwner(start, npages))
  }

  function FirstOwner(q: nat, free: nat): Owner { if q < free then Table else Nobody }

  function InitialOwner(start: nat, npages: nat): map<nat, Owner> {
    map q | q in P.Range(start, npages) :: FirstOwner(q, start + TablePages(npages))
  }

  lemma InitialInv(start: nat, npages: nat, usage: map<nat, Use>)
    requires start > 0 && npages > 0 && forall q :: q in usage <==> start <= q < start + npages
    ensures Inv(Initial(start, npages, usage))
    ensures P.Alloc([P.Run(start, npages)], TablePages(npages)).0 == Some(start)
    ensures forall a, n :: !LiveAt(Initial(start, npages, usage), a, n)
  {
    var s, t := Initial(start, npages, usage), TablePages(npages);
    assert 0 < t <= npages;
    assert s.runs == if t < npages then [P.Run(start + t, npages - t)] else [];
    assert s.runs != [] ==> s.runs[1..] == [];
    forall p ensures p in P.PageSet(s.runs) <==> p in s.owner && s.owner[p] == Nobody {
      assert P.Within(p, start + t, npages - t) <==> p in P.Range(start + t, npages - t);
      assert P.Within(p, start, npages) <==> p in P.Range(start, npages);
    }
    forall q ensures q in s.usage <==> q in s.owner { assert P.Within(q, start, npages) <==> q in P.Range(start, npages); }
    assert s.usage.Keys == s.owner.Keys;
  }

  datatype Op = DoMalloc(n: nat) | DoFree(a: nat, len: nat) | DoRealloc(a: nat, len: nat, n: nat)

  /** Callers free and reallocate what is live, and nothing else. */
  ghost predicate Legal(s: Heap, o: Op) {
    match o
    case DoMalloc(_) => true
    case DoFree(a, len) => LiveAt(s, a, len)
    case DoRealloc(a, len, _) => LiveAt(s, a, len)
  }

  ghost function Step(s: Heap, o: Op): Heap
    requires Inv(s)
  {
    match o
    case DoMalloc(n) => Malloc(s, n).0
    case DoFree(a, _) => Free(s, a)
    case DoRealloc(a, _, n) => Realloc(s, a, n).0
  }

  lemma StepKeeps(s: Heap, o: Op)
    requires Inv(s) && Legal(s, o)
    ensures Inv(Step(s, o))
  {
    hide Inv, Malloc, Free, LiveAt, Lost, Gained, AllFree;
    match o
    case DoMalloc(n) => MallocKeeps(s, n);
    case DoFree(a, len) => FreePromise(s, a, len);
    case DoRealloc(a, len, n) =>
      AddressKnown(s, a, len);
      if n == 0 { FreePromise(s, a, len); } else { ReallocPromise(s, a, len, n); }
  }

  ghost predicate Run(s: Heap, ops: seq<Op>, r: Heap)
    requires Inv(s)
    decreases |ops|
  {
    if ops == [] then s == r
    else Legal(s, ops[0]) && (StepKeeps(s, ops[0]); Run(Step(s, ops[0]), ops[1..], r))
  }

  /** The wholly free zones that are still on a list. */
  ghost function Spare(s: Heap, k: nat): set<nat> { set z | z in s.zones && WhollyFree(s, z) && s.zones[z].zi < k }

  lemma {:induction false} SpareBelow(s: Heap, k: nat)
    requires Inv(s) && k <= NZONES
    ensures |Spare(s, k)| <= k
  {
    hide Inv, WhollyFree;
    if k > 0 {
      SpareBelow(s, k - 1);
      var fresh0 := Spare(s, k) - Spare(s, k - 1);
      assert Spare(s, k) == Spare(s, k - 1) + fresh0;
      forall z, w | z in fresh0 && w in fresh0 ensures z == w { SameIndex(s, z, w); }
      AtMostOne(fresh0);
    }
  }

  lemma SameIndex(s: Heap, z: nat, w: nat)
    requires Inv(s) && WhollyFree(s, z) && WhollyFree(s, w) && s.zones[z].zi == s.zones[w].zi
    ensures z == w
  {
    OnItsList(s, z);
    OnItsList(s, w);
    hide PagesOk, ZonesOk, LargesOk, Accounted;
    assert ListOk(s, s.zones[z].zi);
  }

  lemma OnItsList(s: Heap, z: nat)
    requires Inv(s) && WhollyFree(s, z)
    ensures s.zones[z].zi < |s.lists| && z in s.lists[s.zones[z].zi]
  {
    ZoneKnown(s, z);
    assert ListOk(s, s.zones[z].zi);
  }

  lemma AtMostOne(x: set<nat>)
    requires forall z, w :: z in x && w in x ==> z == w
    ensures |x| <= 1
  {
    if z :| z in x { assert x == {z}; }
  }

  /** However memory was used before, at most NZONES + THRESH zones lie idle. */
  lemma SlackBounded(s: Heap)
    requires Inv(s)
    ensures |set z | z in s.zones && WhollyFree(s, z)| + |s.idle| <= NZONES + THRESH
  {
    SpareBelow(s, NZONES);
    forall z | z in s.zones ensures s.zones[z].zi < NZONES { ZoneKnown(s, z); }
    assert (set z | z in s.zones && WhollyFree(s, z)) == Spare(s, NZONES);
  }

  /** Over whole runs of the allocator. */
  lemma {:induction false} RunsKeepInv(start: nat, npages: nat, usage: map<nat, Use>, ops: seq<Op>, r: Heap)
    requires start > 0 && npages > 0 && (forall q :: q in usage <==> start <= q < start + npages)
    requires (InitialInv(start, npages, usage); Run(Initial(start, npages, usage), ops, r))
    ensures Inv(r) && |set z | z in r.zones && WhollyFree(r, z)| + |r.idle| <= NZONES + THRESH
  {
    InitialInv(start, npages, usage);
    RunKeepsInv(Initial(start, npages, usage), ops, r);
    SlackBounded(r);
  }

  lemma {:induction false} RunKeepsInv(s: Heap, ops: seq<Op>, r: Heap)
    requires Inv(s) && Run(s, ops, r)
    ensures Inv(r)
    decreases |ops|
  {
    hide Inv, Legal, Step;
    if ops != [] { StepKeeps(s, ops[0]); RunKeepsInv(Step(s, ops[0]), ops[1..], r); }
  }
}
