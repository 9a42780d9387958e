/** kconfiglib.py: the grammar of expressions, and that the parser accepts just what it derives. */
module KconfigGrammar {
  import opened Wrappers
  import opened KconfigExpr

  /** What is parsed where: a factor, factors joined by `&&`, or those joined by `||`. */
  datatype Level = Factor | Conjunction | Disjunction

  function Rank(l: Level): nat { match l case Factor => 0 case Conjunction => 1 case Disjunction => 2 }

  /** The operator of a level, the expression that it makes, and the level of its left operand. */
  function Operator(l: Level): Token
    requires l != Factor
  {
    if l == Conjunction then TAnd else TOr
  }

  function Joined(l: Level, a: Expr, b: Expr): Expr
    requires l != Factor
  {
    if l == Conjunction then And(a, b) else Or(a, b)
  }

  function Below(l: Level): Level
    requires l != Factor
  {
    if l == Conjunction then Factor else Conjunction
  }

  /** A symbol alone stands for itself, or `m` for `m && MODULES`. */
  function Alone(s: nat, md: Mode): Expr { Rewritten(Sym(s), md) }

  /** The whole of ts stands for e.  Any operator of the level may be the one where ts is divided. */
  ghost predicate Derives(l: Level, ts: seq<Token>, e: Expr, md: Mode)
    decreases |ts|, Rank(l)
  {
    if l == Factor then
      || (|ts| == 1 && ts[0].TSym? && e == Alone(ts[0].s, md))
      || (|ts| == 3 && ts[0].TSym? && ts[1].TRel? && ts[2].TSym? && e == Rel(ts[1].op, ts[0].s, ts[2].s))
      || (|ts| > 1 && ts[0] == TNot && e.Not? && Derives(Factor, ts[1..], e.a, md))
      || (|ts| > 2 && ts[0] == TOpen && ts[|ts| - 1] == TClose && Derives(Disjunction, ts[1..|ts| - 1], e, md))
    else
      || Derives(Below(l), ts, e, md)
      || exists k: nat, a, b ::
        && k < |ts| && Divides(l, ts, e, k, a, b) && Derives(Below(l), ts[..k], a, md) && Derives(l, ts[k + 1..], b, md)
  }

  predicate Divides(l: Level, ts: seq<Token>, e: Expr, k: nat, a: Expr, b: Expr)
    requires l != Factor && k < |ts|
  {
    ts[k] == Operator(l) && e == Joined(l, a, b)
  }

  /** The parser's function for the level. */
  function ParseAt(l: Level, ts: seq<Token>, md: Mode): Parsed {
    match l
    case Factor => ParseFactor(ts, md)
    case Conjunction => ParseAnd(ts, md)
    case Disjunction => ParseExpr(ts, md)
  }

  /** r goes on with nothing that would belong to the expression before it. */
  predicate Stops(l: Level, r: seq<Token>) {
    r == [] || (!r[0].TRel? && (l != Factor ==> r[0] != TAnd) && (l == Disjunction ==> r[0] != TOr))
  }

  /** What the parser takes is derived by the grammar; the rest is left as it is. */
  lemma {:induction false} ParsedIsDerived(l: Level, ts: seq<Token>, md: Mode)
    ensures var p := ParseAt(l, ts, md);
      p.Some? ==> var n := |ts| - |p.value.1|; 0 < n <= |ts| && ts[n..] == p.value.1 && Derives(l, ts[..n], p.value.0, md)
    decreases |ts|, Rank(l), 1
  {
    var p := ParseAt(l, ts, md);
    if p.Some? {
      if l == Factor { FactorDerived(ts, md); } else { JoinDerived(l, ts, md); }
    }
  }

  lemma {:induction false} FactorDerived(ts: seq<Token>, md: Mode)
    requires ParseFactor(ts, md).Some?
    ensures var p := ParseFactor(ts, md).value;
      var n := |ts| - |p.1|; 0 < n <= |ts| && ts[n..] == p.1 && Derives(Factor, ts[..n], p.0, md)
    decreases |ts|, 0, 0
  {
    var p := ParseFactor(ts, md).value;
    var n := |ts| - |p.1|;
    match ts[0]
    case TNot =>
      ParsedIsDerived(Factor, ts[1..], md);
      assert ts[n..] == ts[1..][n - 1..] && ts[..n][1..] == ts[1..][..n - 1];
    case TOpen =>
      ParsedIsDerived(Disjunction, ts[1..], md);
      var q := ParseExpr(ts[1..], md).value;
      assert ts[1..][n - 2..] == q.1 && ts[n - 1..] == q.1 && ts[n - 1] == TClose;
      assert ts[..n][1..n - 1] == ts[1..][..n - 2];
    case _ =>
  }

  /** A level is the level below, or that and the operator and the level again. */
  lemma JoinParsed(l: Level, ts: seq<Token>, md: Mode)
    requires l != Factor && ParseAt(l, ts, md).Some?
    ensures ParseAt(Below(l), ts, md).Some? && var a := ParseAt(Below(l), ts, md).value;
      if Starts(a.1, Operator(l)) then
        && ParseAt(l, a.1[1..], md).Some?
        && var b := ParseAt(l, a.1[1..], md).value; ParseAt(l, ts, md).value == (Joined(l, a.0, b.0), b.1)
      else ParseAt(l, ts, md).value == a
  {
  }

  lemma BelowDerives(l: Level, ts: seq<Token>, e: Expr, md: Mode)
    requires l != Factor && Derives(Below(l), ts, e, md)
    ensures Derives(l, ts, e, md)
  {
  }

  lemma JoinDerives(l: Level, ts: seq<Token>, k: nat, n: nat, a: Expr, b: Expr, md: Mode)
    requires l != Factor && k < n <= |ts| && ts[k] == Operator(l)
    requires Derives(Below(l), ts[..k], a, md) && Derives(l, ts[k + 1..][..n - k - 1], b, md)
    ensures Derives(l, ts[..n], Joined(l, a, b), md)
  {
    assert ts[..n][..k] == ts[..k] && ts[..n][k + 1..] == ts[k + 1..][..n - k - 1];
    assert Divides(l, ts[..n], Joined(l, a, b), k, a, b);
  }

  lemma {:induction false} JoinDerived(l: Level, ts: seq<Token>, md: Mode)
    requires l != Factor && ParseAt(l, ts, md).Some?
    ensures var p := ParseAt(l, ts, md).value;
      var n := |ts| - |p.1|; 0 < n <= |ts| && ts[n..] == p.1 && Derives(l, ts[..n], p.0, md)
    decreases |ts|, Rank(l), 0
  {
    hide ParseAt, Derives, ParseExpr, ParseAnd, ParseFactor;
    JoinParsed(l, ts, md);
    ParsedIsDerived(Below(l), ts, md);
    var a := ParseAt(Below(l), ts, md).value;
    var k := |ts| - |a.1|;
    BelowDerives(l, ts[..k], a.0, md);
    if Starts(a.1, Operator(l)) {
      var us := ts[k + 1..];
      assert a.1[1..] == us && ts[k] == Operator(l);
      ParsedIsDerived(l, us, md);
      var b := ParseAt(l, us, md).value;
      assert ts[|ts| - |b.1|..] == us[|us| - |b.1|..];
      JoinDerives(l, ts, k, |ts| - |b.1|, a.0, b.0, md);
    }
  }

  /** What the grammar derives is parsed, and as nothing else, whatever comes after it. */
  lemma {:induction false} DerivedIsParsed(l: Level, ts: seq<Token>, e: Expr, r: seq<Token>, md: Mode)
    requires Derives(l, ts, e, md) && Stops(l, r)
    ensures ParseAt(l, ts + r, md) == Some((e, r))
    decreases |ts|, Rank(l), 1
  {
    if l == Factor {
      DerivedFactor(ts, e, r, md);
    } else if Derives(Below(l), ts, e, md) {
      DerivedIsParsed(Below(l), ts, e, r, md);
    } else {
      var k: nat, a, b :| k < |ts| && Divides(l, ts, e, k, a, b) && Derives(Below(l), ts[..k], a, md) && Derives(l, ts[k + 1..], b, md);
      var more := [Operator(l)] + (ts[k + 1..] + r);
      assert ts + r == ts[..k] + more && more[1..] == ts[k + 1..] + r;
      DerivedIsParsed(Below(l), ts[..k], a, more, md);
      DerivedIsParsed(l, ts[k + 1..], b, r, md);
    }
  }

  lemma {:induction false} DerivedFactor(ts: seq<Token>, e: Expr, r: seq<Token>, md: Mode)
    requires Derives(Factor, ts, e, md) && Stops(Factor, r)
    ensures ParseFactor(ts + r, md) == Some((e, r))
    decreases |ts|, 0, 0
  {
    var all := ts + r;
    if ts[0] == TNot {
      assert all[1..] == ts[1..] + r;
      DerivedIsParsed(Factor, ts[1..], e.a, r, md);
    } else if ts[0] == TOpen {
      var inner, more := ts[1..|ts| - 1], [TClose] + r;
      assert all[1..] == inner + more && more[1..] == r;
      DerivedIsParsed(Disjunction, inner, e, more, md);
    } else if |ts| == 1 {
      assert all[1..] == r;
    } else {
      assert all[3..] == r;
    }
  }

  /** A line of tokens is read to its end as e if and only if the grammar derives e from it. */
  lemma ParsesIffDerives(ts: seq<Token>, e: Expr, md: Mode)
    ensures ParseExpr(ts, md) == Some((e, [])) <==> Derives(Disjunction, ts, e, md)
  {
    if Derives(Disjunction, ts, e, md) {
      assert ts + [] == ts;
      DerivedIsParsed(Disjunction, ts, e, [], md);
    }
    if ParseExpr(ts, md) == Some((e, [])) {
      ParsedIsDerived(Disjunction, ts, md);
      assert ts[..|ts|] == ts;
    }
  }

  /** So the grammar is unambiguous. */
  lemma OneReading(ts: seq<Token>, e: Expr, f: Expr, md: Mode)
    requires Derives(Disjunction, ts, e, md) && Derives(Disjunction, ts, f, md)
    ensures e == f
  {
    ParsesIffDerives(ts, e, md);
    ParsesIffDerives(ts, f, md);
  }

  /** `&&` binds tighter: conjunctions p and q joined by `||` are read as their disjunction, without parentheses;
      and parentheses around what can be read change nothing. */
  lemma AndBindsTighter(p: seq<Token>, a: Expr, q: seq<Token>, b: Expr, md: Mode)
    requires Derives(Conjunction, p, a, md) && Derives(Conjunction, q, b, md)
    ensures ParseExpr(p + [TOr] + q, md) == Some((Or(a, b), []))
    ensures ParseExpr([TOpen] + p + [TClose], md) == Some((a, []))
  {
    var ts := p + [TOr] + q;
    assert ts[..|p|] == p && ts[|p| + 1..] == q;
    assert Divides(Disjunction, ts, Or(a, b), |p|, a, b);
    ParsesIffDerives(ts, Or(a, b), md);
    var us := [TOpen] + p + [TClose];
    assert us[1..|us| - 1] == p;
    assert Derives(Disjunction, p, a, md) && Derives(Factor, us, a, md) && Derives(Conjunction, us, a, md);
    ParsesIffDerives(us, a, md);
  }
}
