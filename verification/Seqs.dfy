/** Sequences as the modules use them for lists: members, removal, rotation. */
module Seqs {
  predicate Distinct(q: seq<nat>) { forall i, j :: 0 <= i < j < |q| ==> q[i] != q[j] }

  function Elements(q: seq<nat>): set<nat> { set a | a in q }

  /** A ring has no fixed beginning. */
  function Rotate<T>(r: seq<T>, k: nat): seq<T>
    requires k <= |r|
  {
    r[k..] + r[..k]
  }

  /** q without the first t. */
  function Without(q: seq<nat>, t: nat): seq<nat> {
    if q == [] then [] else if q[0] == t then q[1..] else [q[0]] + Without(q[1..], t)
  }

  lemma {:induction false} WithoutAbsent(q: seq<nat>, t: nat)
    requires t !in q
    ensures Without(q, t) == q
  {
    if q != [] { WithoutAbsent(q[1..], t); }
  }

  lemma {:induction false} WithoutPresent(q: seq<nat>, t: nat)
    requires Distinct(q)
    ensures Distinct(Without(q, t))
    ensures forall u :: u in Without(q, t) <==> u in q && u != t
  {
    if q != [] {
      assert q == [q[0]] + q[1..];
      if q[0] != t {
        WithoutPresent(q[1..], t);
        var w := Without(q, t);
        forall i, j | 0 <= i < j < |w| ensures w[i] != w[j] {
          assert w[j] == Without(q[1..], t)[j - 1];
          if i == 0 { assert w[j] in q[1..]; }
        }
      }
    }
  }

  /** q without any t. */
  function Purge(q: seq<nat>, t: nat): (r: seq<nat>)
    ensures forall x :: x in r <==> x in q && x != t
  {
    if q == [] then [] else if q[0] == t then Purge(q[1..], t) else [q[0]] + Purge(q[1..], t)
  }

  lemma {:induction false} PurgeAbsent(q: seq<nat>, t: nat)
    requires t !in q
    ensures Purge(q, t) == q
  {
    if q != [] { PurgeAbsent(q[1..], t); }
  }
}
