/** kconfiglib.py: the recursive-descent parser as it runs, advancing an index through the tokens of a line. */
module KconfigParser {
  import opened Wrappers
  import opened KconfigExpr

  predicate AllTokens(ts: seq<Option<Token>>, n: nat) { n <= |ts| && forall i :: 0 <= i < n ==> ts[i].Some? }

  /** The tokens from position i to n. */
  ghost function Values(ts: seq<Option<Token>>, i: nat, n: nat): (r: seq<Token>)
    requires AllTokens(ts, n) && i <= n
    ensures |r| == n - i && forall k :: 0 <= k < n - i ==> r[k] == ts[i + k].value
  {
    seq(n - i, k requires 0 <= k < n - i => ts[i + k].value)
  }

  class Parser {
    const tokens: seq<Option<Token>>   // _tokens; the last one is None
    const mode: Mode
    var at: int                        // _tokens_i, the token consumed last

    predicate Valid()
      reads this
    {
      && -1 <= at < |tokens| - 1 && tokens[|tokens| - 1] == None
      && AllTokens(tokens, |tokens| - 1)
    }

    /** The tokens that are left. */
    ghost function Left(): (r: seq<Token>)
      reads this
      requires Valid()
      ensures |r| == |tokens| - 2 - at
    {
      Values(tokens, at + 1, |tokens| - 1)
    }

    constructor (line: seq<Token>, md: Mode)
      ensures Valid() && Left() == line && mode == md
    {
      tokens := seq(|line|, i requires 0 <= i < |line| => Some(line[i])) + [None];
      mode := md;
      at := -1;
    }

    /** _check_token */
    method CheckToken(t: Token) returns (found: bool)
      requires Valid()
      modifies this
      ensures Valid() && found == Starts(old(Left()), t) && Left() == if found then old(Left())[1..] else old(Left())
    {
      if tokens[at + 1] == Some(t) {
        at := at + 1;
        return true;
      }
      return false;
    }

    /** _parse_expr; None stands for a parse error. */
    method ParseExpr() returns (r: Option<Expr>)
      requires Valid()
      modifies this
      ensures Valid() && |Left()| <= old(|Left()|)
      ensures match KconfigExpr.ParseExpr(old(Left()), mode)
              case None => r == None
              case Some(p) => r == Some(p.0) && Left() == p.1
      decreases |Left()|, 2
    {
      r := ParseAnd();
      if r.None? { return; }
      var more := CheckToken(TOr);
      if !more { return; }
      var right := ParseExpr();
      if right.None? { return None; }
      return Some(Or(r.value, right.value));
    }

    /** _parse_and_expr */
    method ParseAnd() returns (r: Option<Expr>)
      requires Valid()
      modifies this
      ensures Valid() && |Left()| <= old(|Left()|)
      ensures match KconfigExpr.ParseAnd(old(Left()), mode)
              case None => r == None
              case Some(p) => r == Some(p.0) && Left() == p.1
      decreases |Left()|, 1
    {
      r := ParseFactor();
      if r.None? { return; }
      var more := CheckToken(TAnd);
      if !more { return; }
      var right := ParseAnd();
      if right.None? { return None; }
      return Some(And(r.value, right.value));
    }

    /** _parse_factor */
    method ParseFactor() returns (r: Option<Expr>)
      requires Valid()
      modifies this
      ensures Valid() && |Left()| <= old(|Left()|)
      ensures match KconfigExpr.ParseFactor(old(Left()), mode)
              case None => r == None
              case Some(p) => r == Some(p.0) && Left() == p.1
      decreases |Left()|, 0
    {
      ghost var ts := Left();
      var token := tokens[at + 1];
      if token.None? { return None; }
      at := at + 1;
      assert Left() == ts[1..];
      match token.value
      case TSym(s) =>
        var next := tokens[at + 1];
        if next.None? || !next.value.TRel? {
          if mode.transformM && s == mode.m { return Some(And(Sym(mode.m), Sym(mode.modules))); }
          return Some(Sym(s));
        }
        at := at + 1;
        assert Left() == ts[2..];
        var operand := tokens[at + 1];
        if operand.None? || !operand.value.TSym? { return None; }
        at := at + 1;
        assert Left() == ts[3..];
        return Some(Rel(next.value.op, s, operand.value.s));
      case TNot =>
        var inner := ParseFactor();
        if inner.None? { return None; }
        return Some(Not(inner.value));
      case TOpen =>
        r := ParseExpr();
        if r.None? { return; }
        var closed := CheckToken(TClose);
        if closed { return; }
        return None;
      case _ => return None;
    }

    /** _expect_expr_and_eol: an expression, and nothing after it. */
    method ExpectExprAndEol() returns (r: Option<Expr>)
      requires Valid()
      modifies this
      ensures Valid()
      ensures match KconfigExpr.ParseExpr(old(Left()), mode)
              case None => r == None
              case Some(p) => r == (if p.1 == [] then Some(p.0) else None) && Left() == p.1
    {
      r := ParseExpr();
      if r.Some? && tokens[at + 1] != None { return None; }
    }
  }

  /** Whatever expression a line was printed from, it is read to the end of the line, as its right-nested form with `m`
      rewritten; read without rewriting, a right-nested expression comes back as it was. */
  method ReadBack(e: Expr, md: Mode) returns (r: Option<Expr>)
    ensures r == Some(Rewritten(Nested(e), md)) && (Plain(md) && IsNested(e) ==> r == Some(e))
  {
    var p := new Parser(Str(e), md);
    PrintThenParse(e, md, Env(map[], map[]));
    r := p.ExpectExprAndEol();
  }
}
