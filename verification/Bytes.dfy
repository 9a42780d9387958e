/** The bytes of a memory, and what rt_memcpy does to them. */
module Bytes {
  /** The n bytes from p on are what they were. */
  ghost predicate SamePrefix(p: nat, n: nat, m: map<nat, int>, m': map<nat, int>) {
    forall x: nat :: p <= x < p + n ==> x in m && x in m' && m'[x] == m[x]
  }

  function Shift(x: nat, p: nat, q: nat): nat
    requires x >= p
  {
    x - p + q
  }

  /** The n bytes from p on are found again from q on. */
  ghost predicate Moved(p: nat, q: nat, n: nat, m: map<nat, int>, m': map<nat, int>) {
    forall x: nat :: p <= x < p + n ==> x in m && Shift(x, p, q) in m' && m'[Shift(x, p, q)] == m[x]
  }

  function Min(a: nat, b: nat): nat { if a < b then a else b }

  /** rt_memcpy(to, from, n) */
  function Memcpy(m: map<nat, int>, to: nat, from: nat, n: nat): map<nat, int> {
    map x | x in m :: CopiedByte(m, x, to, from, n)
  }

  function CopiedByte(m: map<nat, int>, x: nat, to: nat, from: nat, n: nat): int
    requires x in m
  {
    if to <= x < to + n && x - to + from in m then m[x - to + from] else m[x]
  }

  lemma MemcpyMoves(m: map<nat, int>, to: nat, from: nat, n: nat)
    requires forall x: nat :: from <= x < from + n ==> x in m
    requires forall x: nat :: to <= x < to + n ==> x in m
    ensures Moved(from, to, n, m, Memcpy(m, to, from, n))
    ensures forall x :: x in m && !(to <= x < to + n) ==> Memcpy(m, to, from, n)[x] == m[x]
  {
    forall x: nat | from <= x < from + n
      ensures x in m && Shift(x, from, to) in m && Memcpy(m, to, from, n)[Shift(x, from, to)] == m[x]
    {
      var y := Shift(x, from, to);
      assert to <= y < to + n && y - to + from == x;
    }
  }
}
