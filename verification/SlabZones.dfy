/** slab.c: the size classes of zoneindex, and the layout of one zone. */
module SlabZones {
  import opened Seqs

  const PAGE := 4096
  const NZONES := 72
  const HEADER := 36              // sizeof(slab_zone)
  const MAX_CHUNK := 16384        // ZALLOC_ZONE_LIMIT

  function RoundUp(n: nat, m: nat): nat
    requires m > 0
  {
    (n + (m - 1)) / m * m
  }

  /** The spacing of chunk sizes around n. */
  function Grain(n: nat): nat {
    if n < 128 then 8 else if n < 256 then 16 else if n < 512 then 32 else if n < 1024 then 64
    else if n < 2048 then 128 else if n < 4096 then 256 else if n < 8192 then 512 else 1024
  }

  /** What zoneindex writes back into `*bytes`. */
  function Chunk(n: nat): nat {
    if n < 128 then (n + 7) / 8 * 8 else if n < 256 then (n + 15) / 16 * 16
    else if n < 512 then (n + 31) / 32 * 32 else if n < 1024 then (n + 63) / 64 * 64
    else if n < 2048 then (n + 127) / 128 * 128 else if n < 4096 then (n + 255) / 256 * 256
    else if n < 8192 then (n + 511) / 512 * 512 else (n + 1023) / 1024 * 1024
  }

  /** `x & y` of unsigned numbers, bit by bit. */
  function BitAnd(x: nat, y: nat): nat {
    if x == 0 || y == 0 then 0 else (x % 2) * (y % 2) + 2 * BitAnd(x / 2, y / 2)
  }

  function Pow(j: nat): (p: nat)
    ensures p > 0
  {
    if j == 0 then 1 else 2 * Pow(j - 1)
  }

  lemma {:induction false} AllOnes(x: nat, w: nat)
    requires x < Pow(w)
    ensures BitAnd(x, Pow(w) - 1) == x
  {
    if x > 0 {
      assert (Pow(w) - 1) / 2 == Pow(w - 1) - 1;
      AllOnes(x / 2, w - 1);
    }
  }

  /** `x & ~(m - 1)`, where m is a power of two and words have w bits, clears the rest of x modulo m. */
  lemma {:induction false} MaskClears(x: nat, j: nat, w: nat)
    requires x < Pow(w) && j <= w
    ensures Pow(j) <= Pow(w) && BitAnd(x, Pow(w) - Pow(j)) == x / Pow(j) * Pow(j)
  {
    if j == 0 {
      AllOnes(x, w);
    } else {
      MaskClears(x / 2, j - 1, w - 1);
      Halves(x, Pow(j - 1));
      var y := Pow(w) - Pow(j);
      assert y == 2 * (Pow(w - 1) - Pow(j - 1));
      if x > 0 && y > 0 { assert y % 2 == 0 && y / 2 == Pow(w - 1) - Pow(j - 1); }
      else if y == 0 { assert x / 2 / Pow(j - 1) * Pow(j - 1) == 0; }
    }
  }

  lemma Halves(x: nat, m: nat)
    requires m > 0
    ensures x / (2 * m) * (2 * m) == 2 * (x / 2 / m * m)
  {
    var q, r := x / 2 / m, x / 2 % m;
    assert x / 2 == q * m + r;
    assert x == (2 * m) * q + (2 * r + x % 2);
    DivUnique(x, 2 * m, q, 2 * r + x % 2);
  }

  lemma DivUnique(x: nat, m: nat, q: nat, r: nat)
    requires m > 0 && x == m * q + r && r < m
    ensures x / m == q
  {
    var d, e := x / m, x % m;
    assert x == d * m + e && e < m;
    assert (q + 1) * m == m * q + m && (d + 1) * m == d * m + m;
    if d > q { MulOrder(q + 1, d, m); }
    if d < q { MulOrder(d + 1, q, m); }
  }

  /** The 32-bit complement of m - 1. */
  function Mask(m: nat): nat
    requires 0 < m <= 0x1_0000_0000
  {
    0x1_0000_0000 - m
  }

  /** zoneindex, as it writes `*bytes`: eight masks. */
  function Masked(n: nat): nat {
    if n < 128 then BitAnd(n + 7, Mask(8))
    else if n < 256 then BitAnd(n + 15, Mask(16))
    else if n < 8192 then
      if n < 512 then BitAnd(n + 31, Mask(32))
      else if n < 1024 then BitAnd(n + 63, Mask(64))
      else if n < 2048 then BitAnd(n + 127, Mask(128))
      else if n < 4096 then BitAnd(n + 255, Mask(256))
      else BitAnd(n + 511, Mask(512))
    else BitAnd(n + 1023, Mask(1024))
  }

  lemma Powers()
    ensures Pow(3) == 8 && Pow(4) == 16 && Pow(5) == 32 && Pow(6) == 64 && Pow(7) == 128 && Pow(8) == 256
    ensures Pow(9) == 512 && Pow(10) == 1024 && Pow(32) == 0x1_0000_0000
  {
    assert Pow(8) == 2 * 2 * 2 * 2 * 2 * 2 * 2 * 2;
    assert Pow(16) == 65536 by { assert Pow(12) == 16 * Pow(8); assert Pow(16) == 16 * Pow(12); }
    assert Pow(20) == 16 * Pow(16);
    assert Pow(24) == 16 * Pow(20);
    assert Pow(28) == 16 * Pow(24);
    assert Pow(32) == 16 * Pow(28);
  }

  /** All eight masks round up as the chunk sizes want it. */
  lemma MasksRound(n: nat)
    requires n < MAX_CHUNK
    ensures Masked(n) == Chunk(n)
  {
    Powers();
    hide Pow, BitAnd;
    var j := if n < 128 then 3 else if n < 256 then 4 else if n < 512 then 5 else if n < 1024 then 6
             else if n < 2048 then 7 else if n < 4096 then 8 else if n < 8192 then 9 else 10;
    MaskClears(n + (Pow(j) - 1), j, 32);
  }

  /** What zoneindex returns. */
  function Index(n: nat): int {
    if n < 128 then Chunk(n) / 8 - 1 else if n < 256 then Chunk(n) / 16 + 7
    else if n < 512 then Chunk(n) / 32 + 15 else if n < 1024 then Chunk(n) / 64 + 23
    else if n < 2048 then Chunk(n) / 128 + 31 else if n < 4096 then Chunk(n) / 256 + 39
    else if n < 8192 then Chunk(n) / 512 + 47 else Chunk(n) / 1024 + 55
  }

  /** The chunk size a zone index stands for. */
  function SizeOf(i: nat): nat {
    if i < 16 then (i + 1) * 8 else if i < 24 then (i - 7) * 16 else if i < 32 then (i - 15) * 32
    else if i < 40 then (i - 23) * 64 else if i < 48 then (i - 31) * 128 else if i < 56 then (i - 39) * 256
    else if i < 64 then (i - 47) * 512 else (i - 55) * 1024
  }

  lemma ClassesFrom0(n: nat)
    requires 0 < n < 128
    ensures 0 <= Index(n) < NZONES && Chunk(n) == SizeOf(Index(n)) && n <= Chunk(n) < n + Grain(n)
    ensures Chunk(n) % 8 == 0 && Chunk(n) <= MAX_CHUNK
  {
  }

  lemma ClassesFrom128(n: nat)
    requires 128 <= n < 256
    ensures 0 <= Index(n) < NZONES && Chunk(n) == SizeOf(Index(n)) && n <= Chunk(n) < n + Grain(n)
    ensures Chunk(n) % 8 == 0 && Chunk(n) <= MAX_CHUNK
  {
  }

  lemma ClassesFrom256(n: nat)
    requires 256 <= n < 512
    ensures 0 <= Index(n) < NZONES && Chunk(n) == SizeOf(Index(n)) && n <= Chunk(n) < n + Grain(n)
    ensures Chunk(n) % 8 == 0 && Chunk(n) <= MAX_CHUNK
  {
  }

  lemma ClassesFrom512(n: nat)
    requires 512 <= n < 1024
    ensures 0 <= Index(n) < NZONES && Chunk(n) == SizeOf(Index(n)) && n <= Chunk(n) < n + Grain(n)
    ensures Chunk(n) % 8 == 0 && Chunk(n) <= MAX_CHUNK
  {
  }

  lemma ClassesFrom1024(n: nat)
    requires 1024 <= n < 2048
    ensures 0 <= Index(n) < NZONES && Chunk(n) == SizeOf(Index(n)) && n <= Chunk(n) < n + Grain(n)
    ensures Chunk(n) % 8 == 0 && Chunk(n) <= MAX_CHUNK
  {
  }

  lemma ClassesFrom2048(n: nat)
    requires 2048 <= n < 4096
    ensures 0 <= Index(n) < NZONES && Chunk(n) == SizeOf(Index(n)) && n <= Chunk(n) < n + Grain(n)
    ensures Chunk(n) % 8 == 0 && Chunk(n) <= MAX_CHUNK
  {
  }

  lemma ClassesHigh(n: nat)
    requires 4096 <= n < MAX_CHUNK
    ensures 0 <= Index(n) < NZONES && Chunk(n) == SizeOf(Index(n)) && n <= Chunk(n) < n + Grain(n)
    ensures Chunk(n) % 8 == 0 && Chunk(n) <= MAX_CHUNK
  {
    if n < 8192 {
    } else {
    }
  }

  /** The size classes: the index is in range and fixes the chunk size, which is large enough, wastes less
      than one grain and is a multiple of 8. */
  lemma Classes(n: nat)
    requires 0 < n < MAX_CHUNK
    ensures 0 <= Index(n) < NZONES && Chunk(n) == SizeOf(Index(n)) && n <= Chunk(n) < n + Grain(n)
    ensures Chunk(n) % 8 == 0 && Chunk(n) <= MAX_CHUNK
  {
    hide Index, Chunk, SizeOf, Grain;
    if n < 128 { ClassesFrom0(n); } else if n < 256 { ClassesFrom128(n); } else if n < 512 { ClassesFrom256(n); }
    else if n < 1024 { ClassesFrom512(n); } else if n < 2048 { ClassesFrom1024(n); }
    else if n < 4096 { ClassesFrom2048(n); } else { ClassesHigh(n); }
  }

  /** Same index, same chunk size, and the other way round. */
  lemma IndexIsSize(n: nat, m: nat)
    requires 0 < n < MAX_CHUNK && 0 < m < MAX_CHUNK
    ensures Index(n) == Index(m) <==> Chunk(n) == Chunk(m)
  {
    Classes(n);
    Classes(m);
    hide Index, Chunk;
    if Index(n) < Index(m) { SizesGrow(Index(n), Index(m)); }
    if Index(m) < Index(n) { SizesGrow(Index(m), Index(n)); }
  }

  lemma SizesGrow(i: nat, j: nat)
    requires i < j < NZONES
    ensures SizeOf(i) < SizeOf(j)
  {
  }

  /** Rounding is done once: a chunk size is its own chunk size. */
  lemma ChunkTwice(n: nat)
    requires 0 < n < MAX_CHUNK && Chunk(n) < MAX_CHUNK
    ensures Chunk(Chunk(n)) == Chunk(n)
  {
    Classes(n);
    ChunkFixed(Index(n));
  }

  lemma ChunkFixedLow(i: nat)
    requires i < 40
    ensures Chunk(SizeOf(i)) == SizeOf(i)
  {
    if i < 16 {
    } else if i < 24 {
    } else if i < 32 {
    } else {
    }
  }

  lemma ChunkFixed(i: nat)
    requires i < NZONES
    ensures Chunk(SizeOf(i)) == SizeOf(i)
  {
    if i < 40 {
      ChunkFixedLow(i);
    } else if i < 48 {
    } else if i < 56 {
    } else if i < 64 {
    } else {
    }
  }

  // ---------------------------------------------------------------- the layout of a zone

  /** The chunk sizes that are powers of two. */
  predicate Pow2(n: nat) {
    n in [8, 16, 32, 64, 128, 256, 512, 1024, 2048, 4096, 8192, 16384]
  }

  /** The bit test rt_malloc uses for it. */
  lemma PowerTest(n: bv16)
    requires 0 < n <= 16384 && n % 8 == 0
    ensures (n | (n - 1)) + 1 == n << 1 <==> n in [8, 16, 32, 64, 128, 256, 512, 1024, 2048, 4096, 8192, 16384]
  {
  }

  /** zone_size, from the heap size in bytes. */
  function ZoneSize(limit: nat): nat {
    if 65536 >= limit / 1024 then 32768 else if 131072 >= limit / 1024 then 65536 else 131072
  }

  /** zone_limit */
  function Limit(zoneSize: nat): nat { if zoneSize / 4 > MAX_CHUNK then MAX_CHUNK else zoneSize / 4 }

  predicate IsZoneSize(n: nat) { n == 32768 || n == 65536 || n == 131072 }

  /** Where the chunk array begins behind the zone header. */
  function Offset(size: nat): nat
    requires size > 0
  {
    if Pow2(size) then RoundUp(HEADER, size) else RoundUp(HEADER, 8)
  }

  /** `struct slab_zone`; `free` is the free-chunk list. */
  datatype Zone = Zone(zi: nat, size: nat, base: nat, nmax: int, nfree: int, uindex: nat, free: seq<nat>)

  function NewZone(z: nat, n: nat, zoneSize: nat): Zone
    requires 0 < n < MAX_CHUNK && Chunk(n) > 0 && Index(n) >= 0
  {
    var nmax := (zoneSize - Offset(Chunk(n))) / Chunk(n);
    Zone(Index(n), Chunk(n), z * PAGE + Offset(Chunk(n)), nmax, nmax - 1, 0, [])
  }

  function ChunkAt(zn: Zone, k: nat): nat { zn.base + k * zn.size }

  /** The first n chunks. */
  function Chunks(zn: Zone, n: nat): set<nat> {
    if n == 0 then {} else Chunks(zn, n - 1) + {ChunkAt(zn, n - 1)}
  }

  /** The chunks in the hands of callers: those ever used that are not on the free list. */
  function Live(zn: Zone): set<nat> { Chunks(zn, zn.uindex + 1) - Elements(zn.free) }

  /** A zone whose header stands on page z. */
  ghost predicate ZoneOk(zn: Zone, z: nat, zoneSize: nat) {
    && zn.zi < NZONES && zn.size == SizeOf(zn.zi) && zn.nmax >= 3
    && z * PAGE + HEADER <= zn.base && zn.base + zn.nmax * zn.size <= z * PAGE + zoneSize
    && zn.uindex < zn.nmax
    && Distinct(zn.free) && Elements(zn.free) <= Chunks(zn, zn.uindex + 1)
    && zn.nfree == zn.nmax - 1 - zn.uindex + |zn.free|
  }

  lemma {:induction false} ChunksAre(zn: Zone, n: nat, a: nat)
    requires zn.size > 0
    ensures a in Chunks(zn, n) <==> exists k: nat :: k < n && ChunkAt(zn, k) == a
    ensures |Chunks(zn, n)| == n
    ensures a in Chunks(zn, n) ==> zn.base <= a && a + zn.size <= ChunkAt(zn, n)
  {
    if n > 0 {
      ChunksAre(zn, n - 1, a);
      ChunksAre(zn, n - 1, ChunkAt(zn, n - 1));
      assert ChunkAt(zn, n - 1) + zn.size == ChunkAt(zn, n);
    }
  }

  /** Different chunks do not overlap. */
  lemma {:induction false} ChunksApart(zn: Zone, n: nat, a: nat, b: nat)
    requires zn.size > 0 && a in Chunks(zn, n) && b in Chunks(zn, n) && a != b
    ensures a + zn.size <= b || b + zn.size <= a
  {
    ChunksAre(zn, n - 1, a);
    ChunksAre(zn, n - 1, b);
    if a in Chunks(zn, n - 1) && b in Chunks(zn, n - 1) { ChunksApart(zn, n - 1, a, b); }
  }

  lemma SizePositive(i: nat)
    requires i < NZONES
    ensures SizeOf(i) > 0
  {
  }

  lemma {:induction false} CountElements(q: seq<nat>)
    requires Distinct(q)
    ensures |Elements(q)| == |q|
  {
    if q != [] {
      var t := q[1..];
      CountElements(t);
      assert forall k :: 0 <= k < |t| ==> t[k] == q[k + 1];
      assert q[0] !in t;
      assert Elements(q) == Elements(t) + {q[0]} by {
        forall a | a in q ensures a in Elements(t) + {q[0]} {
          var k :| 0 <= k < |q| && q[k] == a;
          if k > 0 { assert t[k - 1] == a; }
        }
      }
    }
  }

  /** Every chunk is live, on the free list, or was never used: the count adds up. */
  lemma ChunksAddUp(zn: Zone, z: nat, zoneSize: nat)
    requires ZoneOk(zn, z, zoneSize)
    ensures |Live(zn)| + zn.nfree == zn.nmax
    ensures 0 <= zn.nfree <= zn.nmax && (zn.nfree == zn.nmax <==> Live(zn) == {})
  {
    SizePositive(zn.zi);
    ChunksAre(zn, zn.uindex + 1, 0);
    CountElements(zn.free);
    SubsetSize(Elements(zn.free), Chunks(zn, zn.uindex + 1));
  }

  lemma SubsetSize(a: set<nat>, b: set<nat>)
    requires a <= b
    ensures |b - a| == |b| - |a|
  {
    assert b == a + (b - a);
  }

  // ---------------------------------------------------------------- building, taking, giving back

  lemma DivRoom(a: nat, b: nat)
    requires b > 0
    ensures a / b * b <= a && (a >= 3 * b ==> a / b >= 3)
  {
    var d := a / b;
    assert a == d * b + a % b;
    if d <= 2 { assert d * b <= 2 * b; }
  }

  lemma OffsetFits(size: nat, zoneSize: nat)
    requires 0 < size && size % 8 == 0 && IsZoneSize(zoneSize) && size <= zoneSize / 4 && size <= MAX_CHUNK
    ensures HEADER <= Offset(size) && Offset(size) + 3 * size <= zoneSize
  {
    if Pow2(size) {
      if size < 64 { assert size == 8 || size == 16 || size == 32; }
      else { assert (HEADER + (size - 1)) / size == 1 by { OneGrain(size); } }
    }
  }

  lemma OneGrain(size: nat)
    requires size >= HEADER
    ensures (HEADER + (size - 1)) / size == 1
  {
  }

  /** Every freshly built zone holds at least three chunks, one of which is handed out. */
  lemma NewZoneOk(z: nat, n: nat, zoneSize: nat)
    requires IsZoneSize(zoneSize) && 0 < n < Limit(zoneSize)
    ensures Chunk(n) > 0 && Index(n) >= 0 && ZoneOk(NewZone(z, n, zoneSize), z, zoneSize)
    ensures NewZone(z, n, zoneSize).nmax >= 3 && Live(NewZone(z, n, zoneSize)) == {NewZone(z, n, zoneSize).base}
    ensures NewZone(z, n, zoneSize).zi == Index(n) && NewZone(z, n, zoneSize).nfree > 0
  {
    Classes(n);
    ChunkBelowLimit(n, zoneSize);
    hide Chunk, Index, SizeOf, Grain, Offset;
    OffsetFits(Chunk(n), zoneSize);
    DivRoom(zoneSize - Offset(Chunk(n)), Chunk(n));
    var zn := NewZone(z, n, zoneSize);
    assert Chunks(zn, 1) == Chunks(zn, 0) + {ChunkAt(zn, 0)};
  }

  lemma ChunkBelowLimit(n: nat, zoneSize: nat)
    requires IsZoneSize(zoneSize) && 0 < n < Limit(zoneSize)
    ensures n < MAX_CHUNK && Chunk(n) <= Limit(zoneSize) && Limit(zoneSize) <= zoneSize / 4
  {
    if n < 8192 { if n < 4096 { ClassesBelow(n); } } else { Classes(n); }
  }

  lemma ClassesBelow(n: nat)
    requires 0 < n < 4096
    ensures Chunk(n) <= 8192
  {
    Classes(n);
  }

  /** Hand out a chunk: a never-used one while there are any, else the head of the free list. */
  function TakeChunk(zn: Zone): (Zone, nat)
    requires zn.uindex + 1 == zn.nmax ==> zn.free != []
  {
    if zn.uindex + 1 != zn.nmax
    then (zn.(nfree := zn.nfree - 1, uindex := zn.uindex + 1), ChunkAt(zn, zn.uindex + 1))
    else (zn.(nfree := zn.nfree - 1, free := zn.free[1..]), zn.free[0])
  }

  /** A chunk is handed out to one caller only. */
  lemma TakeChunkOk(zn: Zone, z: nat, zoneSize: nat)
    requires ZoneOk(zn, z, zoneSize) && zn.nfree > 0
    ensures zn.uindex + 1 == zn.nmax ==> zn.free != []
    ensures var (zn', a) := TakeChunk(zn);
      ZoneOk(zn', z, zoneSize) && a !in Live(zn) && Live(zn') == Live(zn) + {a} && zn'.nfree == zn.nfree - 1
  {
    hide SizeOf, Chunks;
    if zn.uindex + 1 != zn.nmax { BumpOk(zn, z, zoneSize); } else { PopOk(zn, z, zoneSize); }
  }

  lemma BumpOk(zn: Zone, z: nat, zoneSize: nat)
    requires ZoneOk(zn, z, zoneSize) && zn.uindex + 1 != zn.nmax
    ensures var (zn', a) := TakeChunk(zn);
      ZoneOk(zn', z, zoneSize) && a !in Live(zn) && Live(zn') == Live(zn) + {a}
  {
    SizePositive(zn.zi);
    hide SizeOf, Distinct, Elements, Chunks, ChunkAt;
    var (zn', a) := TakeChunk(zn);
    NextChunk(zn, zn.uindex + 1);
    SameChunks(zn, zn', zn.uindex + 2);
  }

  lemma NextChunk(zn: Zone, n: nat)
    requires zn.size > 0
    ensures ChunkAt(zn, n) !in Chunks(zn, n) && Chunks(zn, n + 1) == Chunks(zn, n) + {ChunkAt(zn, n)}
  {
    ChunksAre(zn, n, ChunkAt(zn, n));
  }

  lemma PopOk(zn: Zone, z: nat, zoneSize: nat)
    requires ZoneOk(zn, z, zoneSize) && zn.uindex + 1 == zn.nmax && zn.nfree > 0
    ensures zn.free != []
    ensures var (zn', a) := TakeChunk(zn);
      ZoneOk(zn', z, zoneSize) && a !in Live(zn) && Live(zn') == Live(zn) + {a}
  {
    hide SizeOf, Chunks;
    var (zn', a) := TakeChunk(zn);
    SameChunks(zn, zn', zn.uindex + 1);
    assert forall k :: 0 <= k < |zn'.free| ==> zn'.free[k] == zn.free[k + 1];
    forall b ensures b in Elements(zn.free) <==> b in Elements(zn'.free) + {a} {
      if b in zn.free && b != a { var k :| 0 <= k < |zn.free| && zn.free[k] == b; assert zn'.free[k - 1] == b; }
    }
    assert a !in zn'.free;
  }

  lemma {:induction false} SameChunks(a: Zone, b: Zone, n: nat)
    requires a.base == b.base && a.size == b.size
    ensures Chunks(a, n) == Chunks(b, n)
  {
    if n > 0 { SameChunks(a, b, n - 1); }
  }

  function GiveChunk(zn: Zone, a: nat): Zone { zn.(nfree := zn.nfree + 1, free := [a] + zn.free) }

  lemma GiveChunkOk(zn: Zone, z: nat, zoneSize: nat, a: nat)
    requires ZoneOk(zn, z, zoneSize) && a in Live(zn)
    ensures ZoneOk(GiveChunk(zn, a), z, zoneSize) && Live(GiveChunk(zn, a)) == Live(zn) - {a}
  {
    var zn' := GiveChunk(zn, a);
    SameChunks(zn, zn', zn.uindex + 1);
    hide SizeOf;
    assert Elements(zn'.free) == Elements(zn.free) + {a};
  }

  lemma MulOrder(a: nat, b: nat, c: nat)
    requires a <= b
    ensures a * c <= b * c
  {
  }

  /** Every live chunk lies in the pages of its zone. */
  lemma LiveInZone(zn: Zone, z: nat, zoneSize: nat, a: nat)
    requires ZoneOk(zn, z, zoneSize) && a in Live(zn)
    ensures z * PAGE + HEADER <= a && a + zn.size <= z * PAGE + zoneSize
  {
    SizePositive(zn.zi);
    hide SizeOf, Chunks, Distinct, Elements;
    ChunksAre(zn, zn.uindex + 1, a);
    MulOrder(zn.uindex + 1, zn.nmax, zn.size);
  }
}
