/** Machine words as their bits, bit 0 first: `__rt_ffs` and the updates of a ready group. */
module Bits {
  type Word = w: seq<bool> | |w| == 32 witness seq(32, i => false)

  /** The bit numbers set in w. */
  function Members(w: seq<bool>): set<nat> { set i: nat | 0 <= i < |w| && w[i] }

  predicate IsZero(w: seq<bool>) { forall i :: 0 <= i < |w| ==> !w[i] }

  /** `1 << i` in n bits. */
  function OneHot(n: nat, i: nat): (r: seq<bool>)
    ensures |r| == n
  {
    seq(n, j => j == i)
  }

  /** `a | b`. */
  function Or(a: seq<bool>, b: seq<bool>): (r: seq<bool>)
    requires |a| == |b|
    ensures |r| == |a|
  {
    seq(|a|, i requires 0 <= i < |a| => a[i] || b[i])
  }

  /** `a & ~b`. */
  function AndNot(a: seq<bool>, b: seq<bool>): (r: seq<bool>)
    requires |a| == |b|
    ensures |r| == |a|
  {
    seq(|a|, i requires 0 <= i < |a| => a[i] && !b[i])
  }

  /** Setting and clearing one bit of a word adds and removes one member. */
  lemma UpdatesAreSetUpdates(w: seq<bool>, i: nat)
    requires i < |w|
    ensures Members(Or(w, OneHot(|w|, i))) == Members(w) + {i}
    ensures Members(AndNot(w, OneHot(|w|, i))) == Members(w) - {i}
    ensures IsZero(w) <==> Members(w) == {}
  {
    var o, a := Or(w, OneHot(|w|, i)), AndNot(w, OneHot(|w|, i));
    assert forall j :: 0 <= j < |w| ==> (o[j] <==> w[j] || j == i) && (a[j] <==> w[j] && j != i);
    if !IsZero(w) {
      var j :| 0 <= j < |w| && w[j];
      assert j in Members(w);
    }
  }

  // ---------------------------------------------------------------- __rt_ffs

  /** The sixteen columns every row of `__lowest_bit_bitmap` has in common after its first one. */
  const ROW: seq<nat> := [0, 0, 1, 0, 2, 0, 1, 0, 3, 0, 1, 0, 2, 0, 1, 0]

  /** The first column of each row. */
  const FIRST: seq<nat> := [0, 4, 5, 4, 6, 4, 5, 4, 7, 4, 5, 4, 6, 4, 5, 4]

  /** `__lowest_bit_bitmap[v]`. */
  function TableEntry(v: nat): nat
    requires v < 256
  {
    if v % 16 == 0 then FIRST[v / 16] else ROW[v % 16]
  }

  function B(b: bool): nat { if b then 1 else 0 }

  /** Four bits as a number. */
  function Nibble(w: seq<bool>, at: nat): (v: nat)
    requires at + 4 <= |w|
    ensures v < 16
  {
    B(w[at]) + 2 * B(w[at + 1]) + 4 * B(w[at + 2]) + 8 * B(w[at + 3])
  }

  /** `(w >> at) & 0xff`. */
  function ByteAt(w: Word, at: nat): (v: nat)
    requires at + 8 <= 32
    ensures v < 256
  {
    Nibble(w, at) + 16 * Nibble(w, at + 4)
  }

  /** `__rt_ffs`. */
  function Ffs(w: Word): nat {
    if ByteAt(w, 0) != 0 then TableEntry(ByteAt(w, 0)) + 1
    else if ByteAt(w, 8) != 0 then TableEntry(ByteAt(w, 8)) + 9
    else if ByteAt(w, 16) != 0 then TableEntry(ByteAt(w, 16)) + 17
    else if IsZero(w) then 0
    else TableEntry(ByteAt(w, 24)) + 25
  }

  /** A nonzero nibble's table column is its lowest set bit. */
  lemma NibbleLowest(w: seq<bool>, at: nat)
    requires at + 4 <= |w| && Nibble(w, at) != 0
    ensures var i := ROW[Nibble(w, at)];
      i < 4 && w[at + i] && (forall j :: at <= j < at + i ==> !w[j]) && FIRST[Nibble(w, at)] == i + 4
  {
  }

  lemma NibbleZero(w: seq<bool>, at: nat)
    requires at + 4 <= |w|
    ensures Nibble(w, at) == 0 <==> forall j :: at <= j < at + 4 ==> !w[j]
  {
    if Nibble(w, at) != 0 {
      NibbleLowest(w, at);
    }
  }

  lemma ByteLowest(w: Word, at: nat)
    requires at + 8 <= 32
    ensures ByteAt(w, at) == 0 ==> forall j :: at <= j < at + 8 ==> !w[j]
    ensures ByteAt(w, at) != 0 ==>
      var i := TableEntry(ByteAt(w, at)); i < 8 && w[at + i] && forall j :: at <= j < at + i ==> !w[j]
  {
    var lo, hi := Nibble(w, at), Nibble(w, at + 4);
    assert ByteAt(w, at) % 16 == lo && ByteAt(w, at) / 16 == hi;
    NibbleZero(w, at);
    NibbleZero(w, at + 4);
    if lo != 0 { NibbleLowest(w, at); } else if hi != 0 { NibbleLowest(w, at + 4); }
  }

  /** `__rt_ffs` is one more than the lowest set bit, and 0 for the zero word. */
  lemma FfsIsLowest(w: Word)
    ensures IsZero(w) ==> Ffs(w) == 0
    ensures !IsZero(w) ==> 1 <= Ffs(w) <= 32 && w[Ffs(w) - 1] && forall j :: 0 <= j < Ffs(w) - 1 ==> !w[j]
  {
    ByteLowest(w, 0);
    ByteLowest(w, 8);
    ByteLowest(w, 16);
    ByteLowest(w, 24);
  }
}
