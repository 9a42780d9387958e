/** Circular doubly linked lists over addresses. */
module Rings {
  // `f` holds the next and `g` the previous pointers of whatever is stored at an address.

  import opened Seqs

  function Nx(i: nat, n: nat): nat { if i + 1 == n then 0 else i + 1 }

  /** Place i of r points on to the next place, and that one points back. */
  ghost predicate LinkAt(f: map<nat, nat>, g: map<nat, nat>, r: seq<nat>, i: nat) {
    i < |r| && Nx(i, |r|) < |r| && r[i] in f && r[Nx(i, |r|)] in g
    && f[r[i]] == r[Nx(i, |r|)] && g[r[Nx(i, |r|)]] == r[i]
  }

  /** The addresses of r, in this order, are linked in a circle, and g inverts f. */
  ghost predicate Ring(f: map<nat, nat>, g: map<nat, nat>, r: seq<nat>) {
    r != [] && Distinct(r) && forall i :: 0 <= i < |r| ==> LinkAt(f, g, r, i)
  }

  /** Where place i of Rotate(r, k) stands in r. */
  function Turned(i: nat, k: nat, n: nat): nat { if i + k < n then i + k else i + k - n }

  lemma RotateRing(f: map<nat, nat>, g: map<nat, nat>, r: seq<nat>, k: nat)
    requires Ring(f, g, r) && k < |r|
    ensures Ring(f, g, Rotate(r, k))
  {
    var q, n := Rotate(r, k), |r|;
    forall i | 0 <= i < n ensures LinkAt(f, g, q, i) {
      assert LinkAt(f, g, r, Turned(i, k, n));
      assert q[i] == r[Turned(i, k, n)] && q[Nx(i, n)] == r[Nx(Turned(i, k, n), n)];
    }
    forall i, j | 0 <= i < j < n ensures q[i] != q[j] {
      assert q[i] == r[Turned(i, k, n)] && q[j] == r[Turned(j, k, n)];
    }
  }

  /** f' is f on the addresses of r, except that `at` is mapped to v. */
  ghost predicate SetsOne(f: map<nat, nat>, f': map<nat, nat>, r: seq<nat>, at: nat, v: nat) {
    forall a :: a in r && a in f ==> a in f' && f'[a] == if a == at then v else f[a]
  }

  lemma SameRing(f: map<nat, nat>, g: map<nat, nat>, f': map<nat, nat>, g': map<nat, nat>, r: seq<nat>)
    requires Ring(f, g, r)
    requires forall a :: a in r && a in f ==> a in f' && f'[a] == f[a]
    requires forall a :: a in r && a in g ==> a in g' && g'[a] == g[a]
    ensures Ring(f', g', r)
  {
    forall i | 0 <= i < |r| ensures LinkAt(f', g', r, i) {
      assert LinkAt(f, g, r, i);
    }
  }

  /** Link n in behind the address at place k, which pointed to b. */
  lemma InsertRing(f: map<nat, nat>, g: map<nat, nat>, f': map<nat, nat>, g': map<nat, nat>, r: seq<nat>, k: nat, n: nat)
    requires Ring(f, g, r) && k < |r| && n !in r && n in f' && n in g'
    requires var a, b := r[k], r[Nx(k, |r|)];
      SetsOne(f, f', r, a, n) && SetsOne(g, g', r, b, n) && f'[n] == b && g'[n] == a
    ensures Ring(f', g', r[..k + 1] + [n] + r[k + 1..])
  {
    var q := r[..k + 1] + [n] + r[k + 1..];
    forall i | 0 <= i < |q| ensures LinkAt(f', g', q, i) {
      if i <= k {
        assert LinkAt(f, g, r, i) && q[i] == r[i];
      } else if i == k + 1 {
        assert LinkAt(f, g, r, k);
      } else {
        assert LinkAt(f, g, r, i - 1) && q[i] == r[i - 1];
      }
    }
  }

  /** Unlink the first address of a ring of several. */
  lemma RemoveFirst(f: map<nat, nat>, g: map<nat, nat>, f': map<nat, nat>, g': map<nat, nat>, r: seq<nat>)
    requires Ring(f, g, r) && |r| >= 2
    requires SetsOne(f, f', r[1..], r[|r| - 1], r[1]) && SetsOne(g, g', r[1..], r[1], r[|r| - 1])
    ensures Ring(f', g', r[1..])
  {
    var q := r[1..];
    forall i | 0 <= i < |q| ensures LinkAt(f', g', q, i) {
      assert LinkAt(f, g, r, i + 1) && q[i] == r[i + 1];
      assert LinkAt(f, g, r, 0);
      if i + 1 < |q| { assert q[i + 1] == r[i + 2]; }
    }
  }

  /** Unlink the address at place k of a ring of several. */
  lemma RemoveRing(f: map<nat, nat>, g: map<nat, nat>, f': map<nat, nat>, g': map<nat, nat>, r: seq<nat>, k: nat)
    requires Ring(f, g, r) && k < |r| && |r| >= 2 && r[k] in f && r[k] in g
    requires SetsOne(f, f', r[..k] + r[k + 1..], g[r[k]], f[r[k]])
    requires SetsOne(g, g', r[..k] + r[k + 1..], f[r[k]], g[r[k]])
    ensures Ring(f', g', r[..k] + r[k + 1..])
  {
    RotateRing(f, g, r, k);
    var q, n := Rotate(r, k), |r|;
    assert LinkAt(f, g, q, 0) && LinkAt(f, g, q, n - 1);
    assert q[0] == r[k] && q[1..] == r[k + 1..] + r[..k];
    RemoveFirst(f, g, f', g', q);
    var back := n - 1 - k;
    assert Rotate(q[1..], back) == r[..k] + r[k + 1..];
    if back < n - 1 { RotateRing(f', g', q[1..], back); } else { assert q[1..] == r[..k] + r[k + 1..]; }
  }
}
