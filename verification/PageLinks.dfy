/** slab.c, the page layer as it runs: a singly linked list whose nodes stand on the free pages. */
module PageLinks {
  import opened Wrappers
  import opened PageList

  const NULL := 0

  /** `struct rt_page_head` */
  datatype Head = Head(next: nat, page: nat)

  /** Where run k stands; NULL behind the last one. */
  function StartAt(rs: seq<Run>, k: nat): nat { if k < |rs| then rs[k].start else NULL }

  ghost predicate NodeAt(h: map<nat, Head>, rs: seq<Run>, k: nat)
    requires k < |rs|
  {
    rs[k].start != NULL && rs[k].start in h && h[rs[k].start] == Head(StartAt(rs, k + 1), rs[k].len)
  }

  ghost predicate Linked(h: map<nat, Head>, list: nat, rs: seq<Run>) {
    Canon(rs) && list == StartAt(rs, 0) && forall k :: 0 <= k < |rs| ==> NodeAt(h, rs, k)
  }

  /** The node whose `next` leads to run k; NULL stands for the list head. */
  function Before(rs: seq<Run>, k: nat): nat
    requires k <= |rs|
  {
    if k == 0 then NULL else rs[k - 1].start
  }

  /** The list head and the nodes. */
  datatype Links = Links(list: nat, heads: map<nat, Head>)

  /** `*prev = v` */
  function SetNext(l: Links, prev: nat, v: nat): Links
    requires prev != NULL ==> prev in l.heads
  {
    if prev == NULL then l.(list := v) else l.(heads := l.heads[prev := l.heads[prev].(next := v)])
  }

  ghost predicate Sound(l: Links, rs: seq<Run>) { Linked(l.heads, l.list, rs) }

  /** Runs outside k..j keep their nodes, but for the link that leads to run k. */
  ghost predicate Kept(l: Links, l': Links, rs: seq<Run>, k: nat, j: nat)
    requires k <= j <= |rs|
  {
    forall i :: (0 <= i < k || j <= i < |rs|) ==> NodeKept(l, l', rs, i, k)
  }

  ghost predicate NodeKept(l: Links, l': Links, rs: seq<Run>, i: nat, k: nat)
    requires i < |rs|
  {
    var s := rs[i].start;
    s in l.heads && s in l'.heads && l'.heads[s].page == l.heads[s].page && (i + 1 == k || l'.heads[s].next == l.heads[s].next)
  }

  /** Replacing runs k..j by `mid` is writing the nodes of `mid` and the link in front of them. */
  lemma Relinked(l: Links, rs: seq<Run>, k: nat, j: nat, mid: seq<Run>, l': Links)
    requires Sound(l, rs) && k <= j <= |rs| && Kept(l, l', rs, k, j)
    requires var rs' := rs[..k] + mid + rs[j..];
      && Canon(rs') && (forall i :: k <= i < k + |mid| ==> NodeAt(l'.heads, rs', i))
      && (if k == 0 then l'.list == StartAt(rs', 0)
          else l'.list == l.list && rs[k - 1].start in l'.heads && l'.heads[rs[k - 1].start].next == StartAt(rs', k))
    ensures Sound(l', rs[..k] + mid + rs[j..])
  {
    hide Canon;
    var rs' := rs[..k] + mid + rs[j..];
    forall i | 0 <= i < |rs'| ensures NodeAt(l'.heads, rs', i) {
      if i < k { assert NodeAt(l.heads, rs, i) && rs'[i] == rs[i] && NodeKept(l, l', rs, i, k); }
      else if i >= k + |mid| {
        var o := i - k - |mid| + j;
        assert NodeAt(l.heads, rs, o) && rs'[i] == rs[o] && NodeKept(l, l', rs, o, k);
        if i + 1 < |rs'| { assert rs'[i + 1] == rs[o + 1]; }
      }
    }
    if k > 0 { assert NodeAt(l.heads, rs, 0); }
  }

  /** The two ways rt_page_alloc takes n pages from run k. */
  function TakeLinks(l: Links, b: nat, prev: nat, n: nat): Links
    requires b in l.heads && (prev != NULL ==> prev in l.heads) && l.heads[b].page >= n
  {
    var h := l.heads[b];
    if h.page > n then SetNext(l.(heads := l.heads[b + n := Head(h.next, h.page - n)]), prev, b + n)
    else SetNext(l, prev, h.next)
  }

  /** What taking n pages leaves of run k. */
  function Rest(r: Run, n: nat): seq<Run>
    requires r.len >= n
  {
    if r.len > n then [Run(r.start + n, r.len - n)] else []
  }

  lemma TakeShape(rs: seq<Run>, k: nat, n: nat)
    requires Canon(rs) && k < |rs| && rs[k].len >= n > 0 && forall i :: 0 <= i < k ==> rs[i].len < n
    ensures Alloc(rs, n) == (Some(rs[k].start), rs[..k] + Rest(rs[k], n) + rs[k + 1..])
    ensures Canon(rs[..k] + Rest(rs[k], n) + rs[k + 1..])
  {
    hide Canon, PageSet;
    AllocFrom(rs, n, k);
    AllocLowest(rs, n);
    assert rs[k..][1..] == rs[k + 1..];
    assert Alloc(rs[k..], n).1 == Rest(rs[k], n) + rs[k + 1..];
    assert rs[..k] + (Rest(rs[k], n) + rs[k + 1..]) == rs[..k] + Rest(rs[k], n) + rs[k + 1..];
  }

  lemma TakeSound(l: Links, rs: seq<Run>, k: nat, n: nat)
    requires Sound(l, rs) && k < |rs| && rs[k].len >= n > 0 && forall i :: 0 <= i < k ==> rs[i].len < n
    ensures rs[k].start in l.heads && l.heads[rs[k].start].page == rs[k].len && (k > 0 ==> Before(rs, k) in l.heads)
    ensures Alloc(rs, n).0 == Some(rs[k].start)
    ensures Sound(TakeLinks(l, rs[k].start, Before(rs, k), n), Alloc(rs, n).1)
  {
    hide Linked, Canon, Alloc;
    NodeThere(l, rs, k);
    TakeShape(rs, k, n);
    StartsApart(rs, k);
    if k > 0 { NodeThere(l, rs, k - 1); StartsApart(rs, k - 1); }
    var rs' := rs[..k] + Rest(rs[k], n) + rs[k + 1..];
    var l' := TakeLinks(l, rs[k].start, Before(rs, k), n);
    forall i | 0 <= i < k || k + 1 <= i < |rs| ensures NodeKept(l, l', rs, i, k) { NodeThere(l, rs, i); }
    if k + 1 < |rs| { assert rs'[k + |Rest(rs[k], n)|] == rs[k + 1]; }
    Relinked(l, rs, k, k + 1, Rest(rs[k], n), l');
  }

  lemma NodeThere(l: Links, rs: seq<Run>, k: nat)
    requires Sound(l, rs) && k < |rs|
    ensures Canon(rs) && rs[k].start != NULL && rs[k].start in l.heads && l.heads[rs[k].start] == Head(StartAt(rs, k + 1), rs[k].len)
    ensures rs[k].len > 0 && l.list == StartAt(rs, 0)
  {
    assert NodeAt(l.heads, rs, k);
  }

  lemma {:induction false} AllocFrom(rs: seq<Run>, n: nat, k: nat)
    requires k <= |rs| && n > 0 && forall i :: 0 <= i < k ==> rs[i].len < n
    ensures Alloc(rs, n) == (Alloc(rs[k..], n).0, rs[..k] + Alloc(rs[k..], n).1)
  {
    if k == 0 {
      assert rs[0..] == rs && rs[..0] + Alloc(rs, n).1 == Alloc(rs, n).1;
    } else {
      assert forall i :: 0 <= i < k - 1 ==> rs[1..][i] == rs[i + 1];
      AllocFrom(rs[1..], n, k - 1);
      assert rs[1..][k - 1..] == rs[k..] && rs[..k] == [rs[0]] + rs[1..][..k - 1];
      var t := Alloc(rs[k..], n).1;
      assert [rs[0]] + (rs[1..][..k - 1] + t) == rs[..k] + t;
    }
  }

  lemma NoneFits(rs: seq<Run>, n: nat)
    requires n > 0 && forall i :: 0 <= i < |rs| ==> rs[i].len < n
    ensures Alloc(rs, n) == (None, rs)
  {
    AllocFrom(rs, n, |rs|);
    assert rs[|rs|..] == [] && rs + [] == rs;
  }

  /** The free loop has passed run i. */
  predicate Passed(r: Run, s: nat, n: nat) { End(r) != s && r.start != s + n && r.start <= s + n }

  lemma {:induction false} FreeFrom(rs: seq<Run>, s: nat, n: nat, k: nat)
    requires k <= |rs| && forall i :: 0 <= i < k ==> Passed(rs[i], s, n)
    ensures Free(rs, s, n) == rs[..k] + Free(rs[k..], s, n)
  {
    if k == 0 {
      assert rs[0..] == rs;
    } else {
      FreeFrom(rs[1..], s, n, k - 1);
      assert rs[1..][k - 1..] == rs[k..] && rs[..k] == [rs[0]] + rs[1..][..k - 1];
    }
  }

  /** rt_page_free, when the freed pages lie right behind run k ... */
  function ExtendLinks(l: Links, b: nat, n: nat): Links
    requires b in l.heads && (b + l.heads[b].page + n == l.heads[b].next ==> l.heads[b].next in l.heads)
  {
    var h := l.heads[b];
    if b + h.page + n == h.next then
      l.(heads := l.heads[b := Head(l.heads[h.next].next, h.page + n + l.heads[h.next].page)])
    else l.(heads := l.heads[b := h.(page := h.page + n)])
  }

  /** ... right before run k ... */
  function PrependLinks(l: Links, b: nat, prev: nat, a: nat, n: nat): Links
    requires b in l.heads && (prev != NULL ==> prev in l.heads)
  {
    SetNext(l.(heads := l.heads[a := Head(l.heads[b].next, l.heads[b].page + n)]), prev, a)
  }

  /** ... or touch no run. */
  function InsertLinks(l: Links, b: nat, prev: nat, a: nat, n: nat): Links
    requires prev != NULL ==> prev in l.heads
  {
    SetNext(l.(heads := l.heads[a := Head(b, n)]), prev, a)
  }

  predicate Closes(rs: seq<Run>, k: nat, s: nat, n: nat) { k + 1 < |rs| && s + n == rs[k + 1].start }

  function Extended(rs: seq<Run>, k: nat, s: nat, n: nat): Run
    requires k < |rs|
  {
    Run(rs[k].start, rs[k].len + n + if Closes(rs, k, s, n) then rs[k + 1].len else 0)
  }

  lemma ExtendShape(rs: seq<Run>, k: nat, s: nat, n: nat)
    requires k < |rs| && End(rs[k]) == s && forall i :: 0 <= i < k ==> Passed(rs[i], s, n)
    ensures Free(rs, s, n) == rs[..k] + [Extended(rs, k, s, n)] + rs[if Closes(rs, k, s, n) then k + 2 else k + 1..]
  {
    FreeFrom(rs, s, n, k);
    var t, j := rs[k..], if Closes(rs, k, s, n) then k + 2 else k + 1;
    assert t[0] == rs[k] && (|t| > 1 ==> t[1] == rs[k + 1]);
    assert t[j - k..] == rs[j..];
    assert Free(t, s, n) == [Extended(rs, k, s, n)] + rs[j..];
  }

  lemma PrependShape(rs: seq<Run>, k: nat, s: nat, n: nat)
    requires k < |rs| && rs[k].start == s + n && n > 0 && forall i :: 0 <= i < k ==> Passed(rs[i], s, n)
    ensures Free(rs, s, n) == rs[..k] + [Run(s, n + rs[k].len)] + rs[k + 1..]
  {
    FreeFrom(rs, s, n, k);
    var t := rs[k..];
    assert t[0] == rs[k] && t[1..] == rs[k + 1..];
    assert Free(t, s, n) == [Run(s, n + rs[k].len)] + rs[k + 1..];
  }

  lemma InsertShape(rs: seq<Run>, k: nat, s: nat, n: nat)
    requires k <= |rs| && n > 0 && forall i :: 0 <= i < k ==> Passed(rs[i], s, n)
    requires k < |rs| ==> rs[k].start > s + n && End(rs[k]) != s
    ensures Free(rs, s, n) == rs[..k] + [Run(s, n)] + rs[k..]
  {
    FreeFrom(rs, s, n, k);
    var t := rs[k..];
    assert k < |rs| ==> t[0] == rs[k];
    assert Free(t, s, n) == [Run(s, n)] + rs[k..];
  }

  lemma ExtendSound(l: Links, rs: seq<Run>, k: nat, s: nat, n: nat)
    requires Sound(l, rs) && k < |rs| && End(rs[k]) == s && n > 0 && forall i :: 0 <= i < k ==> Passed(rs[i], s, n)
    requires Canon(Free(rs, s, n))
    ensures var b := rs[k].start;
      && b in l.heads && l.heads[b].page == rs[k].len
      && (b + l.heads[b].page + n == l.heads[b].next ==> l.heads[b].next in l.heads && l.heads[b].next != b)
      && Sound(ExtendLinks(l, b, n), Free(rs, s, n))
  {
    hide Linked, Canon, Free;
    NodeThere(l, rs, k);
    ExtendShape(rs, k, s, n);
    StartsApart(rs, k);
    if k + 1 < |rs| { NodeThere(l, rs, k + 1); }
    var j := if Closes(rs, k, s, n) then k + 2 else k + 1;
    var mid := [Extended(rs, k, s, n)];
    var l' := ExtendLinks(l, rs[k].start, n);
    forall i | 0 <= i < k || j <= i < |rs| ensures NodeKept(l, l', rs, i, k) { NodeThere(l, rs, i); }
    var rs' := rs[..k] + mid + rs[j..];
    if j < |rs| { assert rs'[k + 1] == rs[j]; }
    if k > 0 { NodeThere(l, rs, k - 1); }
    Relinked(l, rs, k, j, mid, l');
  }

  lemma PrependSound(l: Links, rs: seq<Run>, k: nat, s: nat, n: nat)
    requires Sound(l, rs) && k < |rs| && rs[k].start == s + n && n > 0 && s != NULL
    requires Canon(Free(rs, s, n)) && forall i :: 0 <= i < k ==> Passed(rs[i], s, n)
    ensures rs[k].start in l.heads && (k > 0 ==> Before(rs, k) in l.heads)
    ensures Sound(PrependLinks(l, rs[k].start, Before(rs, k), s, n), Free(rs, s, n))
  {
    hide Linked, Canon, Free;
    NodeThere(l, rs, k);
    PrependShape(rs, k, s, n);
    if k > 0 { NodeThere(l, rs, k - 1); StartsApart(rs, k - 1); }
    var mid := [Run(s, n + rs[k].len)];
    var rs' := rs[..k] + mid + rs[k + 1..];
    NewApart(rs, rs', k, k + 1, s);
    var l' := PrependLinks(l, rs[k].start, Before(rs, k), s, n);
    forall i | 0 <= i < k || k + 1 <= i < |rs| ensures NodeKept(l, l', rs, i, k) { NodeThere(l, rs, i); }
    if k + 1 < |rs| { assert rs'[k + 1] == rs[k + 1]; }
    Relinked(l, rs, k, k + 1, mid, l');
  }

  lemma InsertSound(l: Links, rs: seq<Run>, k: nat, s: nat, n: nat)
    requires Sound(l, rs) && k <= |rs| && n > 0 && s != NULL
    requires k < |rs| ==> rs[k].start > s + n && End(rs[k]) != s
    requires Canon(Free(rs, s, n)) && forall i :: 0 <= i < k ==> Passed(rs[i], s, n)
    ensures k > 0 ==> Before(rs, k) in l.heads
    ensures Sound(InsertLinks(l, StartAt(rs, k), Before(rs, k), s, n), Free(rs, s, n))
  {
    assert Canon(rs);
    hide Linked, Canon, Free;
    InsertShape(rs, k, s, n);
    if k > 0 { NodeThere(l, rs, k - 1); StartsApart(rs, k - 1); }
    var mid := [Run(s, n)];
    var rs' := rs[..k] + mid + rs[k..];
    NewApart(rs, rs', k, k, s);
    var l' := InsertLinks(l, StartAt(rs, k), Before(rs, k), s, n);
    forall i | 0 <= i < k || k <= i < |rs| ensures NodeKept(l, l', rs, i, k) { NodeThere(l, rs, i); }
    if k < |rs| { assert rs'[k + 1] == rs[k]; }
    Relinked(l, rs, k, k, mid, l');
  }

  class Pages {
    var list: nat             // rt_page_list
    var heads: map<nat, Head>

    ghost var runs: seq<Run>

    ghost function View(): Links
      reads this
    {
      Links(list, heads)
    }

    ghost predicate Valid()
      reads this
    {
      Sound(View(), runs)
    }

    /** rt_page_init */
    constructor (addr: nat, npages: nat)
      requires addr != NULL && npages != 0
      ensures Valid() && runs == [Run(addr, npages)]
    {
      list := addr;
      heads := map[addr := Head(NULL, npages)];
      runs := [Run(addr, npages)];
      new;
      assert NodeAt(heads, runs, 0);
    }

    /** `*prev = v` */
    method SetPrev(prev: nat, v: nat)
      requires prev != NULL ==> prev in heads
      modifies `list, `heads
      ensures View() == SetNext(old(View()), prev, v)
    {
      if prev == NULL { list := v; } else { heads := heads[prev := heads[prev].(next := v)]; }
    }

    /** rt_page_alloc */
    method PageAlloc(npages: nat) returns (b: nat)
      requires Valid()
      modifies this
      ensures Valid() && runs == Alloc(old(runs), npages).1
      ensures Alloc(old(runs), npages).0 == if b == NULL then None else Some(b)
      ensures b == NULL ==> runs == old(runs)
    {
      if npages == 0 { return NULL; }
      hide Linked, Canon, Alloc;
      var prev := NULL;
      b := list;
      ghost var k := 0;
      Start();
      while b != NULL
        invariant k <= |runs| && b == StartAt(runs, k) && prev == Before(runs, k)
        invariant Valid() && runs == old(runs)
        invariant forall i :: 0 <= i < k ==> runs[i].len < npages
        decreases |runs| - k
      {
        NodeThere(View(), runs, k);
        if heads[b].page >= npages {
          TakeAt(b, prev, npages, k);
          return;
        }
        prev := b;
        b := heads[b].next;
        k := k + 1;
      }
      NothingLeft(k);
      NoneFits(runs, npages);
    }

    /** Take the pages from run k: split it, or drop it. */
    method TakeAt(b: nat, prev: nat, npages: nat, ghost k: nat)
      requires Valid() && k < |runs| && b == runs[k].start && prev == Before(runs, k) && runs[k].len >= npages > 0
      requires forall i :: 0 <= i < k ==> runs[i].len < npages
      modifies this
      ensures Valid() && Alloc(old(runs), npages) == (Some(b), runs)
    {
      hide Linked, Canon, Alloc;
      TakeSound(View(), runs, k, npages);
      NodeThere(View(), runs, k);
      if heads[b].page > npages {
        var n := b + npages;
        heads := heads[n := Head(heads[b].next, heads[b].page - npages)];
        SetPrev(prev, n);
      } else {
        SetPrev(prev, heads[b].next);
      }
      runs := Alloc(runs, npages).1;
    }

    lemma NothingLeft(k: nat)
      requires Valid() && k <= |runs| && StartAt(runs, k) == NULL
      ensures k == |runs|
    {
      if k < |runs| { NodeThere(View(), runs, k); }
    }

    /** rt_page_free */
    method PageFree(addr: nat, npages: nat)
      requires Valid() && addr != NULL && npages != 0 && Range(addr, npages) !! PageSet(runs)
      modifies this
      ensures Valid() && runs == Free(old(runs), addr, npages)
    {
      hide Linked, Canon, Free, PageSet;
      Start();
      FreeAdds(runs, addr, npages);
      var prev, b := NULL, list;
      ghost var k := 0;
      while b != NULL
        invariant k <= |runs| && b == StartAt(runs, k) && prev == Before(runs, k)
        invariant Valid() && runs == old(runs)
        invariant forall i :: 0 <= i < k ==> Passed(runs[i], addr, npages)
        decreases |runs| - k
      {
        NodeThere(View(), runs, k);
        if b + heads[b].page == addr {
          Extend(b, addr, npages, k);
          return;
        }
        if b == addr + npages {
          Prepend(b, prev, addr, npages, k);
          return;
        }
        if b > addr + npages { break; }
        prev := b;
        b := heads[b].next;
        k := k + 1;
      }
      if b == NULL { NothingLeft(k); }
      Insert(b, prev, addr, npages, k);
    }

    method Prepend(b: nat, prev: nat, addr: nat, npages: nat, ghost k: nat)
      requires Valid() && k < |runs| && b == runs[k].start == addr + npages && prev == Before(runs, k) && npages > 0
      requires addr != NULL && Canon(Free(runs, addr, npages)) && forall i :: 0 <= i < k ==> Passed(runs[i], addr, npages)
      modifies this
      ensures Valid() && runs == Free(old(runs), addr, npages)
    {
      hide Linked, Canon, Free;
      PrependSound(View(), runs, k, addr, npages);
      heads := heads[addr := Head(heads[b].next, heads[b].page + npages)];
      SetPrev(prev, addr);
      runs := Free(runs, addr, npages);
    }

    method Insert(b: nat, prev: nat, addr: nat, npages: nat, ghost k: nat)
      requires Valid() && k <= |runs| && b == StartAt(runs, k) && prev == Before(runs, k) && npages > 0
      requires k < |runs| ==> runs[k].start > addr + npages && End(runs[k]) != addr
      requires addr != NULL && Canon(Free(runs, addr, npages)) && forall i :: 0 <= i < k ==> Passed(runs[i], addr, npages)
      modifies this
      ensures Valid() && runs == Free(old(runs), addr, npages)
    {
      hide Linked, Canon, Free;
      InsertSound(View(), runs, k, addr, npages);
      heads := heads[addr := Head(b, npages)];
      SetPrev(prev, addr);
      runs := Free(runs, addr, npages);
    }

    /** The freed pages lie right behind run k; they may close the gap to the next one. */
    method Extend(b: nat, addr: nat, npages: nat, ghost k: nat)
      requires Valid() && k < |runs| && b == runs[k].start && End(runs[k]) == addr && npages > 0
      requires Canon(Free(runs, addr, npages)) && forall i :: 0 <= i < k ==> Passed(runs[i], addr, npages)
      modifies this
      ensures Valid() && runs == Free(old(runs), addr, npages)
    {
      hide Linked, Canon, Free;
      ExtendSound(View(), runs, k, addr, npages);
      heads := heads[b := heads[b].(page := heads[b].page + npages)];
      if b + heads[b].page == heads[b].next {
        heads := heads[b := heads[b].(page := heads[b].page + heads[heads[b].next].page)];
        heads := heads[b := heads[b].(next := heads[heads[b].next].next)];
      }
      assert View() == ExtendLinks(old(View()), b, npages);
      runs := Free(runs, addr, npages);
    }

    lemma Start()
      requires Valid()
      ensures list == StartAt(runs, 0) && Canon(runs)
    {
    }
  }

  /** No other run starts inside run k. */
  lemma StartsApart(rs: seq<Run>, k: nat)
    requires Canon(rs) && k < |rs|
    ensures forall i :: 0 <= i < |rs| && i != k ==> rs[i].start < rs[k].start || End(rs[k]) < rs[i].start
  {
  }

  /** The start of a new run is not the start of one that stays. */
  lemma NewApart(rs: seq<Run>, rs': seq<Run>, k: nat, j: nat, a: nat)
    requires Canon(rs') && k <= j <= |rs| && |rs'| == k + 1 + |rs| - j && rs'[k].start == a
    requires rs' == rs[..k] + [rs'[k]] + rs[j..]
    ensures forall i :: (0 <= i < k || j <= i < |rs|) ==> rs[i].start != a
  {
    forall i | 0 <= i < k || j <= i < |rs| ensures rs[i].start != a {
      assert rs'[if i < k then i else i - j + k + 1] == rs[i];
    }
  }
}
