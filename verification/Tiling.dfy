/** A stretch of memory cut into consecutive blocks, and what splitting and merging blocks do to it. */
module Tiling {
  // Both block-list heaps (memheap.c and mem.c) are such tilings.

  /** A block with its header: `size` is the whole span. */
  datatype Block = Block(addr: nat, size: nat, used: bool)

  /** bs covers [lo, hi) without gap or overlap; every block is at least h bytes long. */
  ghost predicate Tiles(bs: seq<Block>, lo: nat, hi: nat, h: nat) {
    && bs != [] && bs[0].addr == lo && End(bs) == hi
    && (forall i :: 0 <= i < |bs| ==> bs[i].size >= h)
    && (forall i :: 0 < i < |bs| ==> bs[i].addr == bs[i - 1].addr + bs[i - 1].size)
  }

  function End(bs: seq<Block>): nat
    requires bs != []
  {
    bs[|bs| - 1].addr + bs[|bs| - 1].size
  }

  /** No two neighbours are both free. */
  ghost predicate Coalesced(bs: seq<Block>) {
    forall i :: 0 < i < |bs| ==> bs[i - 1].used || bs[i].used
  }

  /** The free bytes behind the headers. */
  function FreePayload(bs: seq<Block>, h: nat): int {
    if bs == [] then 0 else (if bs[0].used then 0 else bs[0].size - h) + FreePayload(bs[1..], h)
  }

  /** The bytes of the used blocks, headers included. */
  function UsedSpan(bs: seq<Block>): nat {
    if bs == [] then 0 else (if bs[0].used then bs[0].size else 0) + UsedSpan(bs[1..])
  }

  // ---------------------------------------------------------------- the three updates

  function SetUsed(bs: seq<Block>, i: nat, u: bool): seq<Block>
    requires i < |bs|
  {
    bs[i := bs[i].(used := u)]
  }

  /** Cut block i after n bytes; the rest becomes a free block of its own. */
  function Cut(bs: seq<Block>, i: nat, n: nat): seq<Block>
    requires i < |bs| && n <= bs[i].size
  {
    bs[..i] + [bs[i].(size := n), Block(bs[i].addr + n, bs[i].size - n, false)] + bs[i + 1..]
  }

  /** Block i swallows block i + 1. */
  function Join(bs: seq<Block>, i: nat): seq<Block>
    requires i + 1 < |bs|
  {
    bs[..i] + [bs[i].(size := bs[i].size + bs[i + 1].size)] + bs[i + 2..]
  }

  /** Merge free block i with its left and with its right neighbour, where they are free. */
  function MergeAround(bs: seq<Block>, i: nat): seq<Block>
    requires i < |bs|
  {
    var left := i > 0 && !bs[i - 1].used;
    var b2 := if left then Join(bs, i - 1) else bs;
    var j := if left then i - 1 else i;
    if j + 1 < |b2| && !b2[j + 1].used then Join(b2, j) else b2
  }

  lemma JoinBoth(bs: seq<Block>, i: nat)
    requires 0 < i && i + 1 < |bs|
    ensures Join(Join(bs, i - 1), i - 1) == Join(Join(bs, i), i - 1)
  {
    var a, b := Join(bs, i - 1), Join(bs, i);
    assert a[..i - 1] == bs[..i - 1] == b[..i - 1];
    assert a[i + 1..] == bs[i + 2..] == b[i + 1..];
    assert a[i - 1].size + a[i].size == b[i - 1].size + b[i].size;
  }

  /** The order of the two merges does not matter. */
  lemma MergeRightFirst(bs: seq<Block>, i: nat)
    requires i < |bs|
    ensures MergeAround(bs, i) ==
      var b := if FreeAt(bs, i + 1) then Join(bs, i) else bs; if FreeAt(bs, i - 1) then Join(b, i - 1) else b
  {
    if FreeAt(bs, i - 1) && FreeAt(bs, i + 1) {
      assert Join(bs, i - 1)[i] == bs[i + 1];
      JoinBoth(bs, i);
    } else if FreeAt(bs, i - 1) && i + 1 < |bs| {
      assert Join(bs, i - 1)[i] == bs[i + 1];
    }
  }

  /** What freeing block i with both merges leaves. */
  function Release(bs: seq<Block>, i: nat): seq<Block>
    requires i < |bs|
  {
    MergeAround(SetUsed(bs, i, false), i)
  }

  /** What giving n bytes of free block i away leaves: a cut if the rest is worth a block. */
  function Take(bs: seq<Block>, i: nat, n: nat, spare: nat): seq<Block>
    requires i < |bs| && n <= bs[i].size
  {
    if bs[i].size >= n + spare then SetUsed(Cut(bs, i, n), i, true) else SetUsed(bs, i, true)
  }

  /** Cut used block i after n bytes; what is cut off fuses with a free block behind it. */
  function Shorten(bs: seq<Block>, i: nat, n: nat): seq<Block>
    requires i < |bs| && n <= bs[i].size
  {
    MergeAround(Cut(bs, i, n), i + 1)
  }

  // ---------------------------------------------------------------- they keep the tiling

  lemma CutTiles(bs: seq<Block>, i: nat, n: nat, lo: nat, hi: nat, h: nat)
    requires Tiles(bs, lo, hi, h) && i < |bs| && h <= n && n + h <= bs[i].size
    ensures Tiles(Cut(bs, i, n), lo, hi, h) && |Cut(bs, i, n)| == |bs| + 1
  {
    var c := Cut(bs, i, n);
    forall k | 0 < k < |c| ensures c[k].addr == c[k - 1].addr + c[k - 1].size {
      if k > i + 1 { assert c[k] == bs[k - 1]; if k > i + 2 { assert c[k - 1] == bs[k - 2]; } }
    }
  }

  lemma JoinTiles(bs: seq<Block>, i: nat, lo: nat, hi: nat, h: nat)
    requires Tiles(bs, lo, hi, h) && i + 1 < |bs|
    ensures Tiles(Join(bs, i), lo, hi, h) && |Join(bs, i)| == |bs| - 1
  {
    var c := Join(bs, i);
    forall k | 0 < k < |c| ensures c[k].addr == c[k - 1].addr + c[k - 1].size {
      if k > i { assert c[k] == bs[k + 1]; if k > i + 1 { assert c[k - 1] == bs[k]; } }
    }
  }

  lemma {:induction false} Ordered(bs: seq<Block>, lo: nat, hi: nat, h: nat, i: nat, j: nat)
    requires Tiles(bs, lo, hi, h) && i < j < |bs|
    ensures bs[i].addr + bs[i].size <= bs[j].addr
    decreases j
  {
    if i + 1 < j { Ordered(bs, lo, hi, h, i, j - 1); }
  }

  /** Headers of different blocks are apart. */
  lemma Apart(bs: seq<Block>, lo: nat, hi: nat, h: nat)
    requires Tiles(bs, lo, hi, h)
    ensures forall i, j :: 0 <= i < j < |bs| ==> bs[i].addr + h <= bs[i].addr + bs[i].size <= bs[j].addr
    ensures forall i :: 0 <= i < |bs| ==> lo <= bs[i].addr && bs[i].addr + bs[i].size <= hi
  {
    forall i, j | 0 <= i < j < |bs|
      ensures bs[i].addr + h <= bs[i].addr + bs[i].size <= bs[j].addr
    {
      Ordered(bs, lo, hi, h, i, j);
    }
    forall i | 0 <= i < |bs| ensures lo <= bs[i].addr && bs[i].addr + bs[i].size <= hi {
      if i > 0 { Ordered(bs, lo, hi, h, 0, i); }
      if i < |bs| - 1 { Ordered(bs, lo, hi, h, i, |bs| - 1); }
    }
  }

  lemma SetUsedTiles(bs: seq<Block>, i: nat, u: bool, lo: nat, hi: nat, h: nat)
    requires Tiles(bs, lo, hi, h) && i < |bs|
    ensures Tiles(SetUsed(bs, i, u), lo, hi, h)
  {
  }

  lemma MarkCoalesced(bs: seq<Block>, i: nat)
    requires Coalesced(bs) && i < |bs|
    ensures Coalesced(SetUsed(bs, i, true))
  {
    forall k | 0 < k < |bs| ensures SetUsed(bs, i, true)[k - 1].used || SetUsed(bs, i, true)[k].used {
      assert bs[k - 1].used || bs[k].used;
    }
  }

  predicate FreeAt(bs: seq<Block>, i: int) { 0 <= i < |bs| && !bs[i].used }

  lemma NoFreeNeighbours(bs: seq<Block>, i: nat)
    requires Coalesced(bs) && FreeAt(bs, i)
    ensures !FreeAt(bs, i - 1) && !FreeAt(bs, i + 1)
  {
    if i > 0 { assert bs[i - 1].used; }
    if i + 1 < |bs| { assert bs[i + 1].used; }
  }

  /** Addresses tell blocks apart, and what is behind block i is block i + 1 or the end. */
  lemma Behind(bs: seq<Block>, lo: nat, hi: nat, h: nat, i: nat, k: nat)
    requires Tiles(bs, lo, hi, h) && 0 < h && i < |bs| && k < |bs|
    ensures bs[k].addr == bs[i].addr + bs[i].size <==> k == i + 1
    ensures bs[i].addr + bs[i].size == hi <==> i + 1 == |bs|
    ensures bs[k].addr < bs[i].addr <==> k < i
    ensures bs[k].addr >= bs[i].addr + bs[i].size <==> k > i
    ensures bs[k].addr < hi
  {
    Apart(bs, lo, hi, h);
    if i + 1 < |bs| { assert bs[i + 1].addr == bs[i].addr + bs[i].size; }
    if k > i + 1 { assert bs[i + 1].addr + h <= bs[k].addr; }
  }

  // ---------------------------------------------------------------- sums

  lemma {:induction false} FreePayloadConcat(a: seq<Block>, b: seq<Block>, h: nat)
    ensures FreePayload(a + b, h) == FreePayload(a, h) + FreePayload(b, h)
  {
    if a == [] { assert a + b == b; }
    else { assert (a + b)[1..] == a[1..] + b; FreePayloadConcat(a[1..], b, h); }
  }

  lemma {:induction false} UsedSpanConcat(a: seq<Block>, b: seq<Block>)
    ensures UsedSpan(a + b) == UsedSpan(a) + UsedSpan(b)
  {
    if a == [] { assert a + b == b; }
    else { assert (a + b)[1..] == a[1..] + b; UsedSpanConcat(a[1..], b); }
  }

  function Pay(b: Block, h: nat): int { if b.used then 0 else b.size - h }
  function Span(b: Block): nat { if b.used then b.size else 0 }

  /** Replacing a stretch of blocks changes the sums by what the stretch contributes. */
  lemma SumsOfSplice(bs: seq<Block>, i: nat, j: nat, mid: seq<Block>, h: nat)
    requires i <= j <= |bs|
    ensures FreePayload(bs[..i] + mid + bs[j..], h)
         == FreePayload(bs, h) - FreePayload(bs[i..j], h) + FreePayload(mid, h)
    ensures UsedSpan(bs[..i] + mid + bs[j..]) == UsedSpan(bs) - UsedSpan(bs[i..j]) + UsedSpan(mid)
  {
    assert bs == bs[..i] + bs[i..j] + bs[j..];
    FreePayloadConcat(bs[..i] + bs[i..j], bs[j..], h);
    FreePayloadConcat(bs[..i], bs[i..j], h);
    FreePayloadConcat(bs[..i] + mid, bs[j..], h);
    FreePayloadConcat(bs[..i], mid, h);
    UsedSpanConcat(bs[..i] + bs[i..j], bs[j..]);
    UsedSpanConcat(bs[..i], bs[i..j]);
    UsedSpanConcat(bs[..i] + mid, bs[j..]);
    UsedSpanConcat(bs[..i], mid);
  }

  lemma SumOfTwo(a: Block, b: Block, h: nat)
    ensures FreePayload([a, b], h) == Pay(a, h) + Pay(b, h) && UsedSpan([a, b]) == Span(a) + Span(b)
    ensures FreePayload([a], h) == Pay(a, h) && UsedSpan([a]) == Span(a)
  {
    assert [a, b][1..] == [b] && [a][1..] == [] && [b][1..] == [];
    assert FreePayload([b], h) == Pay(b, h) && UsedSpan([b]) == Span(b);
  }

  lemma SetUsedSums(bs: seq<Block>, i: nat, u: bool, h: nat)
    requires i < |bs|
    ensures FreePayload(SetUsed(bs, i, u), h) == FreePayload(bs, h) - Pay(bs[i], h) + Pay(bs[i].(used := u), h)
    ensures UsedSpan(SetUsed(bs, i, u)) == UsedSpan(bs) - Span(bs[i]) + Span(bs[i].(used := u))
  {
    var x := bs[i].(used := u);
    assert SetUsed(bs, i, u) == bs[..i] + [x] + bs[i + 1..] && bs[i..i + 1] == [bs[i]];
    SumsOfSplice(bs, i, i + 1, [x], h);
    SumOfTwo(bs[i], bs[i], h);
    SumOfTwo(x, x, h);
  }

  lemma CutSums(bs: seq<Block>, i: nat, n: nat, h: nat)
    requires i < |bs| && n <= bs[i].size
    ensures var a, b := bs[i].(size := n), Block(bs[i].addr + n, bs[i].size - n, false);
      && FreePayload(Cut(bs, i, n), h) == FreePayload(bs, h) - Pay(bs[i], h) + Pay(a, h) + Pay(b, h)
      && UsedSpan(Cut(bs, i, n)) == UsedSpan(bs) - Span(bs[i]) + Span(a)
  {
    var a, b := bs[i].(size := n), Block(bs[i].addr + n, bs[i].size - n, false);
    assert bs[i..i + 1] == [bs[i]];
    SumsOfSplice(bs, i, i + 1, [a, b], h);
    SumOfTwo(bs[i], bs[i], h);
    SumOfTwo(a, b, h);
  }

  lemma JoinSums(bs: seq<Block>, i: nat, h: nat)
    requires i + 1 < |bs|
    ensures var a := bs[i].(size := bs[i].size + bs[i + 1].size);
      && FreePayload(Join(bs, i), h) == FreePayload(bs, h) - Pay(bs[i], h) - Pay(bs[i + 1], h) + Pay(a, h)
      && UsedSpan(Join(bs, i)) == UsedSpan(bs) - Span(bs[i]) - Span(bs[i + 1]) + Span(a)
  {
    var a := bs[i].(size := bs[i].size + bs[i + 1].size);
    assert bs[i..i + 2] == [bs[i], bs[i + 1]];
    SumsOfSplice(bs, i, i + 2, [a], h);
    SumOfTwo(bs[i], bs[i + 1], h);
    SumOfTwo(a, a, h);
  }

  // ---------------------------------------------------------------- merging is full coalescing

  /** Put a block in front, fusing it with the first one when both are free. */
  function Attach(x: Block, bs: seq<Block>): seq<Block> {
    if bs != [] && !x.used && !bs[0].used then [x.(size := x.size + bs[0].size)] + bs[1..] else [x] + bs
  }

  /** The reference: fuse every run of neighbouring free blocks. */
  function Coalesce(bs: seq<Block>): seq<Block> {
    if bs == [] then [] else Attach(bs[0], Coalesce(bs[1..]))
  }

  lemma TailCoalesced(bs: seq<Block>)
    requires Coalesced(bs) && bs != []
    ensures Coalesced(bs[1..])
  {
    forall k | 0 < k < |bs[1..]| ensures bs[1..][k - 1].used || bs[1..][k].used {
      assert bs[k].used || bs[k + 1].used;
    }
  }

  lemma {:induction false} CoalesceFixed(bs: seq<Block>)
    requires Coalesced(bs)
    ensures Coalesce(bs) == bs
  {
    if bs != [] {
      TailCoalesced(bs);
      CoalesceFixed(bs[1..]);
    }
  }

  lemma AttachCoalesced(x: Block, bs: seq<Block>)
    requires Coalesced(bs)
    ensures Coalesced(Attach(x, bs))
  {
    var a := Attach(x, bs);
    forall k | 0 < k < |a| ensures a[k - 1].used || a[k].used {
      if bs != [] && !x.used && !bs[0].used {
        assert a[k] == bs[k] && (bs[k - 1].used || bs[k].used);
      } else {
        assert a[k] == bs[k - 1];
        if k > 1 { assert bs[k - 2].used || bs[k - 1].used; }
      }
    }
  }

  lemma {:induction false} CoalesceCoalesced(bs: seq<Block>)
    ensures Coalesced(Coalesce(bs))
  {
    if bs != [] {
      CoalesceCoalesced(bs[1..]);
      AttachCoalesced(bs[0], Coalesce(bs[1..]));
    }
  }

  /** The one block a release leaves, and where it stands. */
  function Merged(bs: seq<Block>, i: nat): Block
    requires i < |bs|
  {
    var right := if FreeAt(bs, i + 1) then bs[i + 1].size else 0;
    if FreeAt(bs, i - 1) then Block(bs[i - 1].addr, bs[i - 1].size + bs[i].size + right, false)
    else Block(bs[i].addr, bs[i].size + right, false)
  }

  lemma ReleaseForm(bs: seq<Block>, i: nat)
    requires i < |bs|
    ensures Release(bs, i) == bs[..if FreeAt(bs, i - 1) then i - 1 else i] + [Merged(bs, i)]
                              + bs[if FreeAt(bs, i + 1) then i + 2 else i + 1..]
  {
    var b1 := SetUsed(bs, i, false);
    if FreeAt(bs, i - 1) {
      var b2 := Join(b1, i - 1);
      assert b2[i - 1] == Block(bs[i - 1].addr, bs[i - 1].size + bs[i].size, false);
      assert forall k :: i <= k < |b2| ==> b2[k] == bs[k + 1];
      assert b2[..i - 1] == bs[..i - 1];
      assert b2[i..] == bs[i + 1..];
      if FreeAt(bs, i + 1) { assert b2[i + 1..] == bs[i + 2..]; }
    } else {
      assert b1[..i] == bs[..i] && b1[i + 1..] == bs[i + 1..];
      if FreeAt(bs, i + 1) { assert b1[i + 2..] == bs[i + 2..]; }
    }
  }

  /** Releasing in the tail, seen from a block further left: the left neighbour itself ... */
  lemma ReleaseAttachNext(bs: seq<Block>)
    requires |bs| > 1 && bs[1].used
    ensures Attach(bs[0], Release(bs[1..], 0)) == Release(bs, 1)
  {
    hide Release;
    var t := bs[1..];
    ReleaseForm(bs, 1);
    ReleaseForm(t, 0);
    var r := if FreeAt(bs, 2) then 3 else 2;
    assert |bs| > 2 ==> t[1] == bs[2];
    assert t[r - 1..] == bs[r..];
    assert Release(t, 0) == [Merged(t, 0)] + bs[r..];
    assert Release(bs, 1) == (if FreeAt(bs, 0) then [Merged(bs, 1)] else [bs[0], Merged(bs, 1)]) + bs[r..];
  }

  /** ... or one that does not touch the release. */
  lemma ReleaseAttachFar(bs: seq<Block>, i: nat)
    requires 1 < i < |bs| && bs[i].used && (bs[0].used || bs[1].used)
    ensures Attach(bs[0], Release(bs[1..], i - 1)) == Release(bs, i)
  {
    hide Release, Attach;
    var t := bs[1..];
    ReleaseForm(bs, i);
    ReleaseForm(t, i - 1);
    assert t[i - 2] == bs[i - 1] && t[i - 1] == bs[i] && (i + 1 < |bs| ==> t[i] == bs[i + 1]);
    var r := if FreeAt(bs, i + 1) then i + 2 else i + 1;
    var l := if FreeAt(bs, i - 1) then i - 1 else i;
    assert Merged(t, i - 1) == Merged(bs, i);
    AttachSplice(bs, l, r, Merged(bs, i));
  }

  lemma AttachSplice(bs: seq<Block>, l: nat, r: nat, m: Block)
    requires 0 < l <= r <= |bs| && (bs[0].used || (l > 1 && bs[1].used))
    ensures Attach(bs[0], bs[1..][..l - 1] + [m] + bs[1..][r - 1..]) == bs[..l] + [m] + bs[r..]
  {
    assert bs[..l] == [bs[0]] + bs[1..][..l - 1] && bs[1..][r - 1..] == bs[r..];
    assert l > 1 ==> bs[1..][0] == bs[1];
  }

  /** Boundary-tag merging: looking only at the two neighbours gives the fully coalesced tiling. */
  lemma {:induction false} ReleaseIsCoalesce(bs: seq<Block>, i: nat)
    requires Coalesced(bs) && i < |bs| && bs[i].used
    ensures Release(bs, i) == Coalesce(SetUsed(bs, i, false))
    ensures Coalesced(Release(bs, i))
  {
    var s := SetUsed(bs, i, false);
    TailCoalesced(bs);
    if i == 0 {
      assert s[1..] == bs[1..];
      CoalesceFixed(bs[1..]);
    } else {
      assert s[1..] == SetUsed(bs[1..], i - 1, false);
      ReleaseIsCoalesce(bs[1..], i - 1);
      if i == 1 { ReleaseAttachNext(bs); } else { assert bs[0].used || bs[1].used; ReleaseAttachFar(bs, i); }
    }
    CoalesceCoalesced(s);
  }

  /** Giving a block away and taking it back leaves the tiling as it was. */
  lemma ReleaseUndoesTake(bs: seq<Block>, i: nat, n: nat, spare: nat)
    requires Coalesced(bs) && i < |bs| && !bs[i].used && n <= bs[i].size
    ensures Release(Take(bs, i, n, spare), i) == bs
  {
    var t := Take(bs, i, n, spare);
    assert i > 0 ==> bs[i - 1].used;
    assert i + 1 < |bs| ==> bs[i + 1].used;
    if bs[i].size >= n + spare {
      assert t[i].size == n && t[i + 1] == Block(bs[i].addr + n, bs[i].size - n, false);
      var s := SetUsed(t, i, false);
      assert s[i + 1] == t[i + 1];
      assert Join(s, i) == bs;
    }
  }

  // ---------------------------------------------------------------- the updates, place by place

  /** A cut block i of which the first part is in use, place by place. */
  lemma SplitPlaces(bs: seq<Block>, i: nat, n: nat, k: nat)
    requires i < |bs| && n <= bs[i].size && k <= |bs|
    ensures var g := SetUsed(Cut(bs, i, n), i, true);
      && |g| == |bs| + 1
      && g[k] == if k < i then bs[k] else if k == i then Block(bs[i].addr, n, true)
                 else if k == i + 1 then Block(bs[i].addr + n, bs[i].size - n, false) else bs[k - 1]
  {
  }

  lemma SplitCoalesced(bs: seq<Block>, i: nat, n: nat)
    requires Coalesced(bs) && i < |bs| && !FreeAt(bs, i + 1) && n <= bs[i].size
    ensures Coalesced(SetUsed(Cut(bs, i, n), i, true))
  {
    var g := SetUsed(Cut(bs, i, n), i, true);
    forall k | 0 < k < |g| ensures g[k - 1].used || g[k].used {
      SplitPlaces(bs, i, n, k);
      SplitPlaces(bs, i, n, k - 1);
      if k < i { assert bs[k - 1].used || bs[k].used; }
      if k > i + 2 { assert bs[k - 2].used || bs[k - 1].used; }
    }
  }

  lemma CutPlaces(bs: seq<Block>, i: nat, n: nat, k: nat)
    requires i < |bs| && n <= bs[i].size && k <= |bs|
    ensures var c := Cut(bs, i, n);
      && |c| == |bs| + 1
      && c[k] == if k < i then bs[k] else if k == i then bs[i].(size := n)
                 else if k == i + 1 then Block(bs[i].addr + n, bs[i].size - n, false) else bs[k - 1]
  {
  }

  /** The free block that shortening block i leaves. */
  function CutOff(bs: seq<Block>, i: nat, n: nat): Block
    requires i < |bs| && n <= bs[i].size
  {
    Block(bs[i].addr + n, bs[i].size - n + (if FreeAt(bs, i + 1) then bs[i + 1].size else 0), false)
  }

  lemma ShortenPlaces(bs: seq<Block>, i: nat, n: nat, k: nat)
    requires i < |bs| && bs[i].used && n <= bs[i].size
    ensures |Shorten(bs, i, n)| == if FreeAt(bs, i + 1) then |bs| else |bs| + 1
    ensures k < |Shorten(bs, i, n)| ==>
      && (k < i ==> Shorten(bs, i, n)[k] == bs[k])
      && (k == i ==> Shorten(bs, i, n)[k] == bs[i].(size := n))
      && (k == i + 1 ==> Shorten(bs, i, n)[k] == CutOff(bs, i, n))
      && (k > i + 1 ==> Shorten(bs, i, n)[k] == if FreeAt(bs, i + 1) then bs[k] else bs[k - 1])
  {
    var c := Cut(bs, i, n);
    CutPlaces(bs, i, n, i);
    CutPlaces(bs, i, n, i + 1);
    if i + 1 < |bs| { CutPlaces(bs, i, n, i + 2); }
    if k <= |bs| { CutPlaces(bs, i, n, k); }
    if k + 1 <= |bs| { CutPlaces(bs, i, n, k + 1); }
  }

  lemma ShortenCoalesced(bs: seq<Block>, i: nat, n: nat)
    requires Coalesced(bs) && i < |bs| && bs[i].used && n <= bs[i].size
    ensures Coalesced(Shorten(bs, i, n))
  {
    var c := Shorten(bs, i, n);
    forall k | 0 < k < |c| ensures c[k - 1].used || c[k].used {
      ShortenPlaces(bs, i, n, k);
      ShortenPlaces(bs, i, n, k - 1);
      var k' := if k <= i + 1 || FreeAt(bs, i + 1) then k else k - 1;
      if k' < |bs| { assert bs[k' - 1].used || bs[k'].used; }
    }
  }

  lemma ShortenSums(bs: seq<Block>, i: nat, n: nat, h: nat)
    requires i < |bs| && bs[i].used && n <= bs[i].size
    ensures FreePayload(Shorten(bs, i, n), h)
         == FreePayload(bs, h) + bs[i].size - n - h + (if FreeAt(bs, i + 1) then h else 0)
    ensures UsedSpan(Shorten(bs, i, n)) == UsedSpan(bs) - (bs[i].size - n)
  {
    var c := Cut(bs, i, n);
    CutSums(bs, i, n, h);
    CutPlaces(bs, i, n, i);
    CutPlaces(bs, i, n, i + 1);
    if i + 1 < |bs| { CutPlaces(bs, i, n, i + 2); }
    if FreeAt(bs, i + 1) { JoinSums(c, i + 1, h); }
  }

  lemma ShortenTiles(bs: seq<Block>, i: nat, n: nat, lo: nat, hi: nat, h: nat)
    requires Tiles(bs, lo, hi, h) && i < |bs| && bs[i].used && h <= n && n + h <= bs[i].size
    ensures Tiles(Shorten(bs, i, n), lo, hi, h)
  {
    CutTiles(bs, i, n, lo, hi, h);
    var c := Cut(bs, i, n);
    CutPlaces(bs, i, n, i);
    CutPlaces(bs, i, n, i + 1);
    if i + 1 < |bs| { CutPlaces(bs, i, n, i + 2); }
    if FreeAt(bs, i + 1) { JoinTiles(c, i + 1, lo, hi, h); }
  }

  /** Where the block that a release leaves stands, and how many blocks it swallowed. */
  function Left(bs: seq<Block>, i: nat): nat { if FreeAt(bs, i - 1) then i - 1 else i }
  function Swallowed(bs: seq<Block>, i: nat): nat {
    (if FreeAt(bs, i - 1) then 1 else 0) + (if FreeAt(bs, i + 1) then 1 else 0)
  }

  lemma ReleasePlaces(bs: seq<Block>, i: nat, k: nat)
    requires i < |bs|
    ensures |Release(bs, i)| + Swallowed(bs, i) == |bs| && Left(bs, i) < |Release(bs, i)|
    ensures k < |Release(bs, i)| ==>
      && (k < Left(bs, i) ==> Release(bs, i)[k] == bs[k])
      && (k == Left(bs, i) ==> Release(bs, i)[k] == Merged(bs, i))
      && (k > Left(bs, i) ==> Release(bs, i)[k] == bs[k + Swallowed(bs, i)])
  {
    ReleaseForm(bs, i);
  }

  lemma ReleaseTiles(bs: seq<Block>, i: nat, lo: nat, hi: nat, h: nat)
    requires Tiles(bs, lo, hi, h) && i < |bs|
    ensures Tiles(Release(bs, i), lo, hi, h)
  {
    hide Join, Tiles;
    var b := SetUsed(bs, i, false);
    SetUsedTiles(bs, i, false, lo, hi, h);
    if FreeAt(bs, i - 1) { JoinTiles(b, i - 1, lo, hi, h); }
    var b2, j := if FreeAt(bs, i - 1) then Join(b, i - 1) else b, Left(bs, i);
    if j + 1 < |b2| { JoinTiles(b2, j, lo, hi, h); }
  }

  lemma ReleaseSums(bs: seq<Block>, i: nat)
    requires i < |bs| && bs[i].used
    ensures UsedSpan(Release(bs, i)) == UsedSpan(bs) - bs[i].size
  {
    var b := SetUsed(bs, i, false);
    SetUsedSums(bs, i, false, 0);
    if FreeAt(bs, i - 1) { JoinSums(b, i - 1, 0); }
    var b2, j := if FreeAt(bs, i - 1) then Join(b, i - 1) else b, Left(bs, i);
    assert !b2[j].used;
    if j + 1 < |b2| && !b2[j + 1].used { JoinSums(b2, j, 0); }
  }
}
