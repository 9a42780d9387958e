/** slab.c, the page layer: rt_page_alloc and rt_page_free on an address-ordered list of page runs. */
module PageList {
  import opened Wrappers

  /** `struct rt_page_head` with the page it stands on; addresses are page numbers. */
  datatype Run = Run(start: nat, len: nat)

  function End(r: Run): nat { r.start + r.len }

  /** Address-sorted, non-empty and non-touching. */
  ghost predicate Canon(rs: seq<Run>) {
    && (forall i :: 0 <= i < |rs| ==> rs[i].len > 0)
    && (forall i, j :: 0 <= i < j < |rs| ==> End(rs[i]) < rs[j].start)
  }

  predicate Within(p: nat, s: nat, n: nat) { s <= p < s + n }

  function Range(s: nat, n: nat): set<nat> { set p: nat | s <= p < s + n && Within(p, s, n) }

  /** The free pages a list stands for. */
  function PageSet(rs: seq<Run>): set<nat> {
    if rs == [] then {} else Range(rs[0].start, rs[0].len) + PageSet(rs[1..])
  }

  /** rt_page_alloc */
  function Alloc(rs: seq<Run>, n: nat): (Option<nat>, seq<Run>) {
    if n == 0 || rs == [] then (None, rs)
    else if rs[0].len > n then (Some(rs[0].start), [Run(rs[0].start + n, rs[0].len - n)] + rs[1..])
    else if rs[0].len == n then (Some(rs[0].start), rs[1..])
    else var (r, t) := Alloc(rs[1..], n); (r, [rs[0]] + t)
  }

  /** rt_page_free */
  function Free(rs: seq<Run>, s: nat, n: nat): seq<Run> {
    if rs == [] then [Run(s, n)]
    else if End(rs[0]) == s then
      if |rs| > 1 && s + n == rs[1].start then [Run(rs[0].start, rs[0].len + n + rs[1].len)] + rs[2..]
      else [Run(rs[0].start, rs[0].len + n)] + rs[1..]
    else if rs[0].start == s + n then [Run(s, n + rs[0].len)] + rs[1..]
    else if rs[0].start > s + n then [Run(s, n)] + rs
    else [rs[0]] + Free(rs[1..], s, n)
  }

  // ---------------------------------------------------------------- lists and sets

  lemma TailCanon(rs: seq<Run>)
    requires Canon(rs) && rs != []
    ensures Canon(rs[1..])
    ensures forall p :: p in PageSet(rs[1..]) ==> p > End(rs[0])
  {
    TailAbove(rs[1..], End(rs[0]));
  }

  lemma {:induction false} TailAbove(rs: seq<Run>, x: nat)
    requires forall i :: 0 <= i < |rs| ==> rs[i].start > x
    ensures forall p :: p in PageSet(rs) ==> p > x
  {
    if rs != [] { TailAbove(rs[1..], x); }
  }

  lemma ConsCanon(r: Run, rs: seq<Run>)
    requires Canon(rs) && r.len > 0 && (rs != [] ==> End(r) < rs[0].start)
    ensures Canon([r] + rs)
  {
    var c := [r] + rs;
    forall i, j | 0 <= i < j < |c| ensures End(c[i]) < c[j].start {
      assert c[j] == rs[j - 1];
      if i == 0 && j > 1 { assert End(rs[0]) < rs[j - 1].start; }
    }
  }

  /** The page behind a run is not free. */
  lemma EndNotFree(rs: seq<Run>)
    requires Canon(rs) && rs != []
    ensures End(rs[0]) !in PageSet(rs)
  {
    TailCanon(rs);
  }

  /** Consecutive free pages lie in one run. */
  lemma InOneRun(rs: seq<Run>, s: nat, n: nat)
    requires Canon(rs) && rs != [] && n > 0 && Range(s, n) <= PageSet(rs)
    ensures (rs[0].start <= s && s + n <= End(rs[0])) || (Range(s, n) <= PageSet(rs[1..]) && s > End(rs[0]))
  {
    EndNotFree(rs);
    TailCanon(rs);
    var e := End(rs[0]);
    assert s in Range(s, n) && s + n - 1 in Range(s, n);
    assert Within(e, s, n) ==> e in Range(s, n);
    if s > e {
      forall p | p in Range(s, n) ensures p in PageSet(rs[1..]) { assert p !in Range(rs[0].start, rs[0].len); }
    }
  }

  /** rt_page_alloc hands out the lowest n consecutive free pages, and fails only when there are none. */
  lemma {:induction false} AllocLowest(rs: seq<Run>, n: nat)
    requires Canon(rs) && n > 0
    ensures var (r, t) := Alloc(rs, n);
      match r
      case None => t == rs && forall s: nat :: !(Range(s, n) <= PageSet(rs))
      case Some(s) => Canon(t) && Range(s, n) <= PageSet(rs) && PageSet(t) == PageSet(rs) - Range(s, n)
                      && (forall s': nat :: Range(s', n) <= PageSet(rs) ==> s <= s')
    ensures Alloc(rs, n).1 != [] && rs != [] ==> Alloc(rs, n).1[0].start >= rs[0].start
  {
    var (r, t) := Alloc(rs, n);
    if rs == [] {
      forall s: nat ensures !(Range(s, n) <= PageSet(rs)) { assert s in Range(s, n); }
    } else {
      TailCanon(rs);
      forall s: nat | Range(s, n) <= PageSet(rs)
        ensures (rs[0].start <= s && s + n <= End(rs[0])) || (Range(s, n) <= PageSet(rs[1..]) && s > End(rs[0]))
      {
        InOneRun(rs, s, n);
      }
      if rs[0].len >= n {
        if rs[0].len > n { ConsCanon(Run(rs[0].start + n, rs[0].len - n), rs[1..]); }
      } else {
        AllocLowest(rs[1..], n);
        var t' := Alloc(rs[1..], n).1;
        if r.Some? {
          ConsCanon(rs[0], t');
          assert t[1..] == t';
        }
      }
    }
  }

  /** rt_page_free adds exactly the freed pages, and keeps the list sorted and maximal. */
  lemma {:induction false} FreeAdds(rs: seq<Run>, s: nat, n: nat)
    requires Canon(rs) && n > 0 && Range(s, n) !! PageSet(rs)
    ensures Canon(Free(rs, s, n)) && PageSet(Free(rs, s, n)) == PageSet(rs) + Range(s, n)
    ensures Free(rs, s, n) != [] && Free(rs, s, n)[0].start == (if rs != [] && rs[0].start < s then rs[0].start else s)
  {
    hide Canon;
    if rs != [] {
      TailCanon(rs);
      Outside(rs, s, n);
      HeadLen(rs);
      if End(rs[0]) == s && |rs| > 1 {
        FreeBehind(rs, s, n);
      } else if End(rs[0]) < s {
        FreeAdds(rs[1..], s, n);
        ConsCanon(rs[0], Free(rs[1..], s, n));
      } else if rs[0].start == s + n {
        ConsCanon(Run(s, n + rs[0].len), rs[1..]);
      } else if End(rs[0]) != s {
        ConsCanon(Run(s, n), rs);
      } else {
        ConsCanon(Run(rs[0].start, rs[0].len + n), rs[1..]);
      }
    } else {
      ConsCanon(Run(s, n), rs);
      assert [Run(s, n)] + rs == [Run(s, n)];
    }
  }

  lemma HeadLen(rs: seq<Run>)
    requires Canon(rs) && rs != []
    ensures rs[0].len > 0 && (|rs| > 1 ==> End(rs[0]) < rs[1].start)
  {
  }

  /** The freed pages lie right behind the first run. */
  lemma FreeBehind(rs: seq<Run>, s: nat, n: nat)
    requires Canon(rs) && |rs| > 1 && n > 0 && Range(s, n) !! PageSet(rs) && End(rs[0]) == s
    ensures Canon(Free(rs, s, n)) && PageSet(Free(rs, s, n)) == PageSet(rs) + Range(s, n)
    ensures Free(rs, s, n) != [] && Free(rs, s, n)[0].start == rs[0].start
  {
    TailCanon(rs);
    TailCanon(rs[1..]);
    SecondApart(rs, s, n);
    assert rs[1..][1..] == rs[2..];
    if s + n == rs[1].start {
      ConsCanon(Run(rs[0].start, rs[0].len + n + rs[1].len), rs[2..]);
    } else {
      ConsCanon(Run(rs[0].start, rs[0].len + n), rs[1..]);
    }
  }

  /** Pages that are not free lie before or behind a run. */
  lemma Outside(rs: seq<Run>, s: nat, n: nat)
    requires Canon(rs) && rs != [] && n > 0 && Range(s, n) !! PageSet(rs)
    ensures s + n <= rs[0].start || End(rs[0]) <= s
  {
    var p := if s < rs[0].start then rs[0].start else s;
    assert Within(p, s, n) ==> p in Range(s, n);
    assert Within(p, rs[0].start, rs[0].len) ==> p in PageSet(rs);
  }

  lemma SecondApart(rs: seq<Run>, s: nat, n: nat)
    requires Canon(rs) && |rs| > 1 && n > 0 && Range(s, n) !! PageSet(rs) && End(rs[0]) == s
    ensures s + n <= rs[1].start
  {
    TailCanon(rs);
    Outside(rs[1..], s, n);
  }

  lemma NotEmpty(rs: seq<Run>)
    requires Canon(rs)
    ensures rs == [] <==> PageSet(rs) == {}
  {
    if rs != [] { assert rs[0].start in Range(rs[0].start, rs[0].len); }
  }

  /** A set of pages has only one such list. */
  lemma {:induction false} Unique(a: seq<Run>, b: seq<Run>)
    requires Canon(a) && Canon(b) && PageSet(a) == PageSet(b)
    ensures a == b
  {
    if a == [] || b == [] {
      NotEmpty(a);
      NotEmpty(b);
    } else {
      TailCanon(a);
      TailCanon(b);
      EndNotFree(a);
      EndNotFree(b);
      SameHead(a, b);
      forall p ensures p in PageSet(a[1..]) <==> p in PageSet(b[1..]) {
        assert p in PageSet(a[1..]) ==> p in PageSet(a) && p > End(a[0]);
        assert p in PageSet(b[1..]) ==> p in PageSet(b) && p > End(b[0]);
      }
      Unique(a[1..], b[1..]);
    }
  }

  lemma SameHead(a: seq<Run>, b: seq<Run>)
    requires Canon(a) && Canon(b) && a != [] && b != [] && PageSet(a) == PageSet(b)
    ensures a[0] == b[0]
  {
    TailCanon(a);
    TailCanon(b);
    EndNotFree(a);
    EndNotFree(b);
    assert a[0].start in PageSet(a) && b[0].start in PageSet(b);
    var ea, eb := End(a[0]), End(b[0]);
    assert Within(ea, b[0].start, b[0].len) ==> ea in PageSet(b);
    assert Within(eb, a[0].start, a[0].len) ==> eb in PageSet(a);
  }

  /** Giving pages back restores the very list they were taken from. */
  lemma FreeUndoesAlloc(rs: seq<Run>, n: nat)
    requires Canon(rs) && n > 0 && Alloc(rs, n).0.Some?
    ensures Free(Alloc(rs, n).1, Alloc(rs, n).0.value, n) == rs
  {
    var (r, t) := Alloc(rs, n);
    AllocLowest(rs, n);
    FreeAdds(t, r.value, n);
    Unique(Free(t, r.value, n), rs);
  }

  /** The order in which pages come back does not matter. */
  lemma FreesCommute(rs: seq<Run>, s1: nat, n1: nat, s2: nat, n2: nat)
    requires Canon(rs) && n1 > 0 && n2 > 0
    requires Range(s1, n1) !! PageSet(rs) && Range(s2, n2) !! PageSet(rs) && Range(s1, n1) !! Range(s2, n2)
    ensures Free(Free(rs, s1, n1), s2, n2) == Free(Free(rs, s2, n2), s1, n1)
  {
    FreeAdds(rs, s1, n1);
    FreeAdds(rs, s2, n2);
    FreeAdds(Free(rs, s1, n1), s2, n2);
    FreeAdds(Free(rs, s2, n2), s1, n1);
    Unique(Free(Free(rs, s1, n1), s2, n2), Free(Free(rs, s2, n2), s1, n1));
  }
}
