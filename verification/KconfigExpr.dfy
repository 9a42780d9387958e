/** kconfiglib.py: expressions, their values, and the printer and parser for them, at the level of tokens. */
module KconfigExpr {
  import opened Wrappers

  datatype RelOp = Equal | Unequal | Less | LessEqual | Greater | GreaterEqual

  /** Symbols are numbered.  Operands of relations are always symbols. */
  datatype Expr = Sym(s: nat) | And(a: Expr, b: Expr) | Or(a: Expr, b: Expr) | Not(a: Expr) | Rel(op: RelOp, x: nat, y: nat)

  datatype Token = TSym(s: nat) | TAnd | TOr | TNot | TOpen | TClose | TRel(op: RelOp)

  // ---------------------------------------------------------------- values

  /** What expressions are evaluated against: tristate values (0, 1, 2) and the comparison of symbols. */
  datatype Env = Env(tri: map<nat, nat>, cmp: map<(nat, nat), int>)

  function TriOf(v: Env, s: nat): nat { if s in v.tri then v.tri[s] else 0 }

  function CmpOf(v: Env, x: nat, y: nat): int { if (x, y) in v.cmp then v.cmp[(x, y)] else 0 }

  function Min(a: int, b: int): int { if a < b then a else b }
  function Max(a: int, b: int): int { if a < b then b else a }

  predicate Holds(op: RelOp, c: int) {
    match op
    case Equal => c == 0
    case Unequal => c != 0
    case Less => c < 0
    case LessEqual => c <= 0
    case Greater => c > 0
    case GreaterEqual => c >= 0
  }

  /** expr_value, with its short cuts */
  function Value(e: Expr, v: Env): int {
    match e
    case Sym(s) => TriOf(v, s)
    case And(a, b) => if Value(a, v) == 0 then 0 else Min(Value(a, v), Value(b, v))
    case Or(a, b) => if Value(a, v) == 2 then 2 else Max(Value(a, v), Value(b, v))
    case Not(a) => 2 - Value(a, v)
    case Rel(op, x, y) => if Holds(op, CmpOf(v, x, y)) then 2 else 0
  }

  predicate Tristate(v: Env) { forall s :: s in v.tri ==> v.tri[s] <= 2 }

  /** Under a tristate assignment the short cuts do not matter, and the value is tristate. */
  lemma {:induction false} ValueIsMinMax(e: Expr, v: Env)
    requires Tristate(v)
    ensures 0 <= Value(e, v) <= 2
    ensures e.And? ==> Value(e, v) == Min(Value(e.a, v), Value(e.b, v))
    ensures e.Or? ==> Value(e, v) == Max(Value(e.a, v), Value(e.b, v))
    ensures e.Not? ==> (Value(e, v) == 2 <==> Value(e.a, v) == 0) && (Value(e, v) == 0 <==> Value(e.a, v) == 2)
  {
    match e
    case And(a, b) => ValueIsMinMax(a, v); ValueIsMinMax(b, v);
    case Or(a, b) => ValueIsMinMax(a, v); ValueIsMinMax(b, v);
    case Not(a) => ValueIsMinMax(a, v);
    case _ =>
  }

  // ---------------------------------------------------------------- expr_str

  /** The tokens of expr_str(e). */
  function Str(e: Expr): seq<Token>
    decreases e, 0
  {
    match e
    case Sym(s) => [TSym(s)]
    case And(a, b) => (if a.Or? then Parens(a) else Str(a)) + [TAnd] + (if b.Or? then Parens(b) else Str(b))
    case Or(a, b) => (if a.And? then Parens(a) else Str(a)) + [TOr] + (if b.And? then Parens(b) else Str(b))
    case Not(a) => [TNot] + (if a.Sym? then Str(a) else [TOpen] + Str(a) + [TClose])
    case Rel(op, x, y) => [TSym(x), TRel(op), TSym(y)]
  }

  /** _parenthesize, when it does */
  function Parens(e: Expr): seq<Token>
    decreases e, 1
  {
    [TOpen] + Str(e) + [TClose]
  }

  /** The operands of && and of ||. */
  function AndArg(e: Expr): seq<Token> { if e.Or? then Parens(e) else Str(e) }
  function OrArg(e: Expr): seq<Token> { if e.And? then Parens(e) else Str(e) }

  // ---------------------------------------------------------------- _parse_expr

  /** How the parser is set up: whether `m` is rewritten to `m && MODULES`, and which symbols these are. */
  datatype Mode = Mode(transformM: bool, m: nat, modules: nat)

  type Parsed = Option<(Expr, seq<Token>)>

  predicate Starts(ts: seq<Token>, t: Token) { ts != [] && ts[0] == t }

  function ParseExpr(ts: seq<Token>, md: Mode): (r: Parsed)
    ensures r.Some? ==> |r.value.1| < |ts|
    decreases |ts|, 2
  {
    match ParseAnd(ts, md)
    case None => None
    case Some(p) =>
      if !Starts(p.1, TOr) then Some(p)
      else match ParseExpr(p.1[1..], md)
        case None => None
        case Some(q) => Some((Or(p.0, q.0), q.1))
  }

  function ParseAnd(ts: seq<Token>, md: Mode): (r: Parsed)
    ensures r.Some? ==> |r.value.1| < |ts|
    decreases |ts|, 1
  {
    match ParseFactor(ts, md)
    case None => None
    case Some(p) =>
      if !Starts(p.1, TAnd) then Some(p)
      else match ParseAnd(p.1[1..], md)
        case None => None
        case Some(q) => Some((And(p.0, q.0), q.1))
  }

  function ParseFactor(ts: seq<Token>, md: Mode): (r: Parsed)
    ensures r.Some? ==> |r.value.1| < |ts|
    decreases |ts|, 0
  {
    if ts == [] then None
    else match ts[0]
      case TSym(s) =>
        if |ts| > 1 && ts[1].TRel? then
          if |ts| > 2 && ts[2].TSym? then Some((Rel(ts[1].op, s, ts[2].s), ts[3..])) else None
        else if md.transformM && s == md.m then Some((And(Sym(md.m), Sym(md.modules)), ts[1..]))
        else Some((Sym(s), ts[1..]))
      case TNot =>
        (match ParseFactor(ts[1..], md)
         case None => None
         case Some(p) => Some((Not(p.0), p.1)))
      case TOpen =>
        (match ParseExpr(ts[1..], md)
         case None => None
         case Some(p) => if Starts(p.1, TClose) then Some((p.0, p.1[1..])) else None)
      case _ => None
  }

  // ---------------------------------------------------------------- the right-nested form

  function AppendAnd(x: Expr, y: Expr): Expr { if x.And? then And(x.a, AppendAnd(x.b, y)) else And(x, y) }
  function AppendOr(x: Expr, y: Expr): Expr { if x.Or? then Or(x.a, AppendOr(x.b, y)) else Or(x, y) }

  /** The same expression with A && B && C and A || B || C nested to the right. */
  function Nested(e: Expr): (r: Expr)
    ensures (r.And? <==> e.And?) && (r.Or? <==> e.Or?) && (r.Sym? <==> e.Sym?)
  {
    match e
    case And(a, b) => AppendAnd(Nested(a), Nested(b))
    case Or(a, b) => AppendOr(Nested(a), Nested(b))
    case Not(a) => Not(Nested(a))
    case _ => e
  }

  predicate IsNested(e: Expr) {
    match e
    case And(a, b) => !a.And? && IsNested(a) && IsNested(b)
    case Or(a, b) => !a.Or? && IsNested(a) && IsNested(b)
    case Not(a) => IsNested(a)
    case _ => true
  }

  lemma {:induction false} AppendAndNested(x: Expr, y: Expr)
    requires IsNested(x) && IsNested(y)
    ensures IsNested(AppendAnd(x, y))
  {
    if x.And? { AppendAndNested(x.b, y); }
  }

  lemma {:induction false} AppendOrNested(x: Expr, y: Expr)
    requires IsNested(x) && IsNested(y)
    ensures IsNested(AppendOr(x, y))
  {
    if x.Or? { AppendOrNested(x.b, y); }
  }

  /** The form is right-nested, and expressions that are so already keep theirs. */
  lemma {:induction false} NestedIsNested(e: Expr)
    ensures IsNested(Nested(e)) && (IsNested(e) ==> Nested(e) == e)
  {
    match e
    case And(a, b) =>
      NestedIsNested(a);
      NestedIsNested(b);
      AppendAndNested(Nested(a), Nested(b));
    case Or(a, b) =>
      NestedIsNested(a);
      NestedIsNested(b);
      AppendOrNested(Nested(a), Nested(b));
    case Not(a) => NestedIsNested(a);
    case _ =>
  }

  lemma {:induction false} AppendAndValue(x: Expr, y: Expr, v: Env)
    requires Tristate(v)
    ensures Value(AppendAnd(x, y), v) == Min(Value(x, v), Value(y, v))
  {
    ValueIsMinMax(AppendAnd(x, y), v);
    ValueIsMinMax(x, v);
    if x.And? { AppendAndValue(x.b, y, v); }
  }

  lemma {:induction false} AppendOrValue(x: Expr, y: Expr, v: Env)
    requires Tristate(v)
    ensures Value(AppendOr(x, y), v) == Max(Value(x, v), Value(y, v))
  {
    ValueIsMinMax(AppendOr(x, y), v);
    ValueIsMinMax(x, v);
    if x.Or? { AppendOrValue(x.b, y, v); }
  }

  /** Nesting to the right does not change the value. */
  lemma {:induction false} NestedValue(e: Expr, v: Env)
    requires Tristate(v)
    ensures Value(Nested(e), v) == Value(e, v)
  {
    ValueIsMinMax(e, v);
    match e
    case And(a, b) =>
      NestedValue(a, v);
      NestedValue(b, v);
      AppendAndValue(Nested(a), Nested(b), v);
    case Or(a, b) =>
      NestedValue(a, v);
      NestedValue(b, v);
      AppendOrValue(Nested(a), Nested(b), v);
    case Not(a) => NestedValue(a, v);
    case _ =>
  }

  // ---------------------------------------------------------------- parsing what was printed

  /** Nothing in r continues the expression that ends before it. */
  predicate Ends(r: seq<Token>) { r == [] || r[0] == TClose }

  predicate NoAnd(r: seq<Token>) { r == [] || (r[0] != TAnd && !r[0].TRel?) }

  lemma {:induction false} AppendAndAssoc(x: Expr, y: Expr, z: Expr)
    ensures AppendAnd(AppendAnd(x, y), z) == AppendAnd(x, AppendAnd(y, z))
  {
    if x.And? { AppendAndAssoc(x.b, y, z); }
  }

  lemma {:induction false} AppendOrAssoc(x: Expr, y: Expr, z: Expr)
    ensures AppendOr(AppendOr(x, y), z) == AppendOr(x, AppendOr(y, z))
  {
    if x.Or? { AppendOrAssoc(x.b, y, z); }
  }

  /** How many tree nodes e has: the measure of the mutual induction below. */
  function Size(e: Expr): nat {
    match e
    case And(a, b) => 1 + Size(a) + Size(b)
    case Or(a, b) => 1 + Size(a) + Size(b)
    case Not(a) => 1 + Size(a)
    case _ => 1
  }

  predicate Plain(md: Mode) { !md.transformM }

  /** What the parser makes of e when it is so set up: every plain `m` becomes `m && MODULES`; operands of relations stay. */
  function Rewritten(e: Expr, md: Mode): Expr {
    match e
    case Sym(s) => if md.transformM && s == md.m then And(Sym(md.m), Sym(md.modules)) else e
    case And(a, b) => And(Rewritten(a, md), Rewritten(b, md))
    case Or(a, b) => Or(Rewritten(a, md), Rewritten(b, md))
    case Not(a) => Not(Rewritten(a, md))
    case Rel(_, _, _) => e
  }

  /** The rewriting means that `m` counts for no more than MODULES does. */
  lemma {:induction false} RewrittenValue(e: Expr, md: Mode, v: Env)
    requires Tristate(v)
    ensures Value(Rewritten(e, md), v)
         == Value(e, if md.transformM then v.(tri := v.tri[md.m := LesserOf(v, md)]) else v)
  {
    match e
    case And(a, b) => RewrittenValue(a, md, v); RewrittenValue(b, md, v);
    case Or(a, b) => RewrittenValue(a, md, v); RewrittenValue(b, md, v);
    case Not(a) => RewrittenValue(a, md, v);
    case _ =>
  }

  function LesserOf(v: Env, md: Mode): nat {
    if TriOf(v, md.m) < TriOf(v, md.modules) then TriOf(v, md.m) else TriOf(v, md.modules)
  }

  lemma {:induction false} PlainStays(e: Expr, md: Mode)
    requires Plain(md)
    ensures Rewritten(e, md) == e
  {
    match e
    case And(a, b) => PlainStays(a, md); PlainStays(b, md);
    case Or(a, b) => PlainStays(a, md); PlainStays(b, md);
    case Not(a) => PlainStays(a, md);
    case _ =>
  }

  /** A factor: a symbol, a relation, a negation, or anything in parentheses. */
  lemma {:induction false} FactorBack(e: Expr, r: seq<Token>, md: Mode)
    requires (e.Sym? || e.Rel? || e.Not?) && (r == [] || !r[0].TRel?)
    ensures ParseFactor(Str(e) + r, md) == Some((Rewritten(Nested(e), md), r))
    decreases Size(e), 0
  {
    var ts := Str(e) + r;
    match e
    case Sym(s) => assert ts[1..] == r;
    case Rel(op, x, y) => assert ts[3..] == r;
    case Not(a) =>
      assert ts[0] == TNot;
      if a.Sym? {
        assert ts[1..] == Str(a) + r;
        FactorBack(a, r, md);
      } else {
        assert ts[1..] == Parens(a) + r;
        ParensBack(a, r, md);
      }
  }

  lemma {:induction false} ParensBack(e: Expr, r: seq<Token>, md: Mode)
    ensures ParseFactor(Parens(e) + r, md) == Some((Rewritten(Nested(e), md), r))
    decreases Size(e), 4
  {
    var ts := Parens(e) + r;
    assert ts[0] == TOpen && ts[1..] == Str(e) + ([TClose] + r);
    StrBack(e, [TClose] + r, md);
    assert ([TClose] + r)[1..] == r;
  }

  lemma AndSplit(a: Expr, b: Expr, t: seq<Token>)
    ensures AndArg(And(a, b)) + t == AndArg(a) + ([TAnd] + (AndArg(b) + t))
  {
  }

  lemma OrSplit(a: Expr, b: Expr, t: seq<Token>)
    ensures OrArg(Or(a, b)) + t == OrArg(a) + ([TOr] + (OrArg(b) + t))
  {
  }

  /** The last operand of a chain of &&. */
  lemma {:induction false} AndBack(e: Expr, r: seq<Token>, md: Mode)
    requires NoAnd(r)
    ensures ParseAnd(AndArg(e) + r, md) == Some((Rewritten(Nested(e), md), r))
    decreases Size(e), if e.Or? then 5 else 1
  {
    match e
    case And(a, b) =>
      AndBack(b, r, md);
      AndSplit(a, b, r);
      AndChain(a, AndArg(b) + r, Nested(b), r, md);
    case Or(a, b) => ParensBack(e, r, md);
    case _ => FactorBack(e, r, md);
  }

  /** An operand of && before others. */
  lemma {:induction false} AndChain(e: Expr, ts: seq<Token>, y: Expr, r: seq<Token>, md: Mode)
    requires ParseAnd(ts, md) == Some((Rewritten(y, md), r))
    ensures ParseAnd(AndArg(e) + ([TAnd] + ts), md) == Some((Rewritten(AppendAnd(Nested(e), y), md), r))
    decreases Size(e), if e.Or? then 5 else 1
  {
    var t := [TAnd] + ts;
    assert t[1..] == ts;
    match e
    case And(a, b) =>
      AndChain(b, ts, y, r, md);
      AndChain(a, AndArg(b) + t, AppendAnd(Nested(b), y), r, md);
      AppendAndAssoc(Nested(a), Nested(b), y);
      AndSplit(a, b, t);
    case Or(a, b) => ParensBack(e, t, md);
    case _ => FactorBack(e, t, md);
  }

  lemma {:induction false} OrBack(e: Expr, r: seq<Token>, md: Mode)
    requires Ends(r)
    ensures ParseExpr(OrArg(e) + r, md) == Some((Rewritten(Nested(e), md), r))
    decreases Size(e), if e.And? then 5 else 2
  {
    match e
    case Or(a, b) =>
      OrBack(b, r, md);
      OrSplit(a, b, r);
      OrChain(a, OrArg(b) + r, Nested(b), r, md);
    case And(a, b) => ParensBack(e, r, md);
    case _ => FactorBack(e, r, md);
  }

  lemma {:induction false} OrChain(e: Expr, ts: seq<Token>, y: Expr, r: seq<Token>, md: Mode)
    requires ParseExpr(ts, md) == Some((Rewritten(y, md), r))
    ensures ParseExpr(OrArg(e) + ([TOr] + ts), md) == Some((Rewritten(AppendOr(Nested(e), y), md), r))
    decreases Size(e), if e.And? then 5 else 2
  {
    var t := [TOr] + ts;
    assert t[1..] == ts;
    match e
    case Or(a, b) =>
      OrChain(b, ts, y, r, md);
      OrChain(a, OrArg(b) + t, AppendOr(Nested(b), y), r, md);
      AppendOrAssoc(Nested(a), Nested(b), y);
      OrSplit(a, b, t);
    case And(a, b) => ParensBack(e, t, md);
    case _ => FactorBack(e, t, md);
  }

  lemma {:induction false} StrBack(e: Expr, r: seq<Token>, md: Mode)
    requires Ends(r)
    ensures ParseExpr(Str(e) + r, md) == Some((Rewritten(Nested(e), md), r))
    decreases Size(e), 3
  {
    if e.And? { AndBack(e, r, md); } else { OrBack(e, r, md); }
  }

  /** Printing and parsing undo each other: the tokens of expr_str(e) are all consumed, and the result is the right-nested
      form of e with `m` rewritten.  Where nothing is rewritten that is e itself, if e is so nested, and it has the same
      value under every assignment. */
  lemma PrintThenParse(e: Expr, md: Mode, v: Env)
    requires Tristate(v)
    ensures ParseExpr(Str(e), md) == Some((Rewritten(Nested(e), md), []))
    ensures Plain(md) ==> ParseExpr(Str(e), md) == Some((Nested(e), []))
    ensures Plain(md) && IsNested(e) ==> ParseExpr(Str(e), md) == Some((e, []))
    ensures Value(Rewritten(Nested(e), md), v)
         == Value(e, if md.transformM then v.(tri := v.tri[md.m := LesserOf(v, md)]) else v)
  {
    assert Str(e) + [] == Str(e);
    StrBack(e, [], md);
    NestedIsNested(e);
    NestedValue(e, if md.transformM then v.(tri := v.tri[md.m := LesserOf(v, md)]) else v);
    RewrittenValue(Nested(e), md, v);
    if Plain(md) { PlainStays(Nested(e), md); }
  }

  lemma Chained(p: seq<Token>, q: seq<Token>, t: seq<Token>, r: seq<Token>)
    ensures p + t + (q + t + r) == p + t + q + t + r
  {
  }

  lemma {:induction false} AppendAndPrints(x: Expr, y: Expr)
    ensures Str(AppendAnd(x, y)) == AndArg(x) + [TAnd] + AndArg(y)
  {
    if x.And? {
      AppendAndPrints(x.b, y);
      Chained(AndArg(x.a), AndArg(x.b), [TAnd], AndArg(y));
    }
  }

  lemma {:induction false} AppendOrPrints(x: Expr, y: Expr)
    ensures Str(AppendOr(x, y)) == OrArg(x) + [TOr] + OrArg(y)
  {
    if x.Or? {
      AppendOrPrints(x.b, y);
      Chained(OrArg(x.a), OrArg(x.b), [TOr], OrArg(y));
    }
  }

  lemma {:induction false} NestedPrintsSame(e: Expr)
    ensures Str(Nested(e)) == Str(e)
  {
    match e
    case And(a, b) =>
      NestedPrintsSame(a);
      NestedPrintsSame(b);
      AppendAndPrints(Nested(a), Nested(b));
    case Or(a, b) =>
      NestedPrintsSame(a);
      NestedPrintsSame(b);
      AppendOrPrints(Nested(a), Nested(b));
    case Not(a) => NestedPrintsSame(a);
    case _ =>
  }

  /** Two expressions are printed alike exactly when they differ in the nesting of && and || only. */
  lemma PrintedAlike(e: Expr, f: Expr)
    ensures Str(e) == Str(f) <==> Nested(e) == Nested(f)
  {
    NestedPrintsSame(e);
    NestedPrintsSame(f);
    var md := Mode(false, 0, 0);
    PrintThenParse(e, md, Env(map[], map[]));
    PrintThenParse(f, md, Env(map[], map[]));
  }
}
