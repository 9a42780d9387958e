/** kconfiglib.py: what the value of a symbol is, in the words of the Kconfig language, and that this determines it. */
module KconfigMeaning {
  import opened Wrappers
  import opened KconfigExpr
  import opened KconfigCache

  /** A comparison of values. */
  predicate Compares(op: RelOp, a: int, b: int) {
    match op
    case Equal => a == b
    case Unequal => a < b || b < a
    case Less => a < b
    case LessEqual => !(b < a)
    case Greater => b < a
    case GreaterEqual => !(a < b)
  }

  /** x is the least, or the greatest, of a and b. */
  predicate Least(x: int, a: int, b: int) { x <= a && x <= b && x in {a, b} }
  predicate Greatest(x: int, a: int, b: int) { a <= x && b <= x && x in {a, b} }

  /** `&&` is the least of its operands and `||` the greatest, `!` swaps n and y and keeps m, and a relation is y where the
      values compare so, and n elsewhere. */
  lemma EvalSays(e: Expr, v: Vals)
    requires Tristates(v)
    ensures 0 <= Eval(e, v).val <= 2
    ensures var x := Eval(e, v).val;
      match e
      case Sym(s) => x == Val(v, s)
      case And(a, b) => Least(x, Eval(a, v).val, Eval(b, v).val)
      case Or(a, b) => Greatest(x, Eval(a, v).val, Eval(b, v).val)
      case Not(a) => (x == 0 <==> Eval(a, v).val == 2) && (x == 1 <==> Eval(a, v).val == 1) && (x == 2 <==> Eval(a, v).val == 0)
      case Rel(op, a, b) => (x == 2 <==> Compares(op, Val(v, a), Val(v, b))) && (x == 0 <==> !Compares(op, Val(v, a), Val(v, b)))
  {
    EvalTristate(e, v);
    match e
    case And(a, b) => EvalTristate(a, v); EvalTristate(b, v);
    case Or(a, b) => EvalTristate(a, v); EvalTristate(b, v);
    case Not(a) => EvalTristate(a, v);
    case _ =>
  }

  /** The symbol cannot be m. */
  predicate BoolNow(d: Def, c: Config, v: Vals) { d.isBool || Val(v, c.modules) == 0 }

  // ---------------------------------------------------------------- visibility

  /** x is the greatest of the conditions ps, or n if there are none. */
  ghost predicate BestPrompt(ps: seq<Expr>, v: Vals, x: int) {
    && (forall i :: 0 <= i < |ps| ==> Eval(ps[i], v).val <= x)
    && if ps == [] then x == 0 else exists i :: 0 <= i < |ps| && Eval(ps[i], v).val == x
  }

  lemma {:induction false} PromptsSay(ps: seq<Expr>, v: Vals)
    requires Tristates(v)
    ensures BestPrompt(ps, v, Prompts(ps, v).val)
  {
    if ps != [] {
      var k := |ps| - 1;
      PromptsSay(ps[..k], v);
      EvalTristate(ps[k], v);
      PromptsTristate(ps[..k], v);
      forall i | 0 <= i < |ps| ensures Eval(ps[i], v).val <= Prompts(ps, v).val {
        if i < k { assert ps[i] == ps[..k][i]; }
      }
      if Prompts(ps, v).val == Eval(ps[k], v).val {
      } else {
        var i :| 0 <= i < k && Eval(ps[..k][i], v).val == Prompts(ps[..k], v).val;
        assert Eval(ps[i], v).val == Prompts(ps, v).val;
      }
    }
  }

  /** Visibility is the greatest of the prompt conditions, except that there is no m for what cannot be m. */
  lemma VisSays(d: Def, c: Config, v: Vals)
    requires Tristates(v)
    ensures exists p ::
      && BestPrompt(d.prompts, v, p)
      && Vis(d, c, v).val == if p == 1 && BoolNow(d, c, v) then 2 else p
    ensures BoolNow(d, c, v) ==> Vis(d, c, v).val != 1
    ensures Vis(d, c, v).val > 0 <==> exists i :: 0 <= i < |d.prompts| && Eval(d.prompts[i], v).val > 0
  {
    PromptsSay(d.prompts, v);
    var p := Prompts(d.prompts, v).val;
    assert BestPrompt(d.prompts, v, p);
  }

  // ---------------------------------------------------------------- values

  /** The first default whose condition is not n counts, for no more than its condition; without one it is n. */
  ghost predicate FirstDefault(ds: seq<(Expr, Expr)>, v: Vals, x: int) {
    if forall j :: 0 <= j < |ds| ==> Eval(ds[j].1, v).val == 0 then x == 0
    else exists i :: Opens(ds, v, i) && Least(x, Eval(ds[i].0, v).val, Eval(ds[i].1, v).val)
  }

  ghost predicate Opens(ds: seq<(Expr, Expr)>, v: Vals, i: int) {
    0 <= i < |ds| && Eval(ds[i].1, v).val != 0 && forall j :: 0 <= j < i ==> Eval(ds[j].1, v).val == 0
  }

  lemma OpensOnce(ds: seq<(Expr, Expr)>, v: Vals, i: int, j: int)
    requires Opens(ds, v, i) && Opens(ds, v, j)
    ensures i == j
  {
  }

  lemma {:induction false} DefaultsSay(ds: seq<(Expr, Expr)>, v: Vals, x: int)
    ensures FirstDefault(ds, v, x) <==> x == Defaults(ds, v).val
  {
    if ds != [] {
      if Eval(ds[0].1, v).val != 0 {
        assert Opens(ds, v, 0);
      } else {
        DefaultsSay(ds[1..], v, x);
        assert forall j {:trigger ds[j]} :: 1 <= j < |ds| ==> ds[j] == ds[1..][j - 1];
        assert forall j {:trigger ds[1..][j]} :: 0 <= j < |ds| - 1 ==> ds[1..][j] == ds[j + 1];
        if i :| Opens(ds[1..], v, i) { assert Opens(ds, v, i + 1); }
        if i :| Opens(ds, v, i) { assert i > 0 && Opens(ds[1..], v, i - 1); }
      }
    }
  }

  /** What a symbol has before selects: the user's value if it is visible and has one, for no more than the visibility;
      else its default, raised to what implies it where its dependencies hold. */
  ghost predicate Unselected(d: Def, c: Config, u: Option<nat>, v: Vals, x: int) {
    if u.Some? && Vis(d, c, v).val > 0 then Least(x, u.value, Vis(d, c, v).val)
    else exists y ::
      && FirstDefault(d.defaults, v, y)
      && if Eval(d.directDep, v).val > 0 then Greatest(x, y, Eval(d.weakRevDep, v).val) else x == y
  }

  /** The value of a symbol: the above raised to what selects it, and y in place of m for what cannot be m or is implied
      by y. */
  ghost predicate Means(d: Def, c: Config, u: Option<nat>, v: Vals, x: int) {
    exists y, z ::
      && Unselected(d, c, u, v, y) && Greatest(z, y, Eval(d.revDep, v).val)
      && x == if z == 1 && (BoolNow(d, c, v) || Eval(d.weakRevDep, v).val == 2) then 2 else z
  }

  lemma UnselectedIsChosen(d: Def, c: Config, u: Option<nat>, v: Vals, x: int)
    requires Tristates(v)
    ensures Unselected(d, c, u, v, x) <==> x == Chosen(d, c, u, v).val
  {
    var y := Defaults(d.defaults, v).val;
    DefaultsSay(d.defaults, v, y);
    DefaultsTristate(d.defaults, v);
    EvalTristate(d.weakRevDep, v);
    EvalTristate(d.directDep, v);
    PromptsTristate(d.prompts, v);
    forall z ensures FirstDefault(d.defaults, v, z) <==> z == y { DefaultsSay(d.defaults, v, z); }
    hide FirstDefault, Defaults, Eval, Prompts;
    assert FirstDefault(d.defaults, v, y);
  }

  lemma MeansIsTri(d: Def, c: Config, u: Option<nat>, v: Vals, x: int)
    requires Tristates(v)
    ensures Means(d, c, u, v, x) <==> x == Tri(d, c, u, v).val
  {
    var y := Chosen(d, c, u, v).val;
    forall z ensures Unselected(d, c, u, v, z) <==> z == y { UnselectedIsChosen(d, c, u, v, z); }
    EvalTristate(d.revDep, v);
    PromptsTristate(d.prompts, v);
    DefaultsTristate(d.defaults, v);
    EvalTristate(d.weakRevDep, v);
    hide Unselected, Eval, Defaults, Prompts;
    assert Unselected(d, c, u, v, y) && Greatest(Selected(d, c, u, v).val, y, Eval(d.revDep, v).val);
  }

  /** Tristate values are the uncached values if and only if each symbol has the value that the language gives it, and
      undefined symbols and constants have theirs. */
  lemma TruthExactly(c: Config, u: User, w: Vals)
    requires Acyclic(c) && Tristates(w) && Tristates(c.constants) && forall t :: t in u ==> u[t] <= 2
    ensures (forall s: nat :: Val(w, s) == Val(Truth(c, u), s))
      <==> (forall s :: s in c.defs ==> Means(c.defs[s], c, UserOf(u, s), w, Val(w, s)))
           && (forall s: nat :: s !in c.defs ==> Val(w, s) == Val(c.constants, s))
  {
    var v := Truth(c, u);
    SolveTristate(c, u, c.count);
    forall s | s in c.defs
      ensures Means(c.defs[s], c, UserOf(u, s), w, Val(w, s)) <==> Val(w, s) == Tri(c.defs[s], c, UserOf(u, s), w).val
    {
      MeansIsTri(c.defs[s], c, UserOf(u, s), w, Val(w, s));
    }
    hide Means, Tri, Truth, Acyclic;
    if forall s: nat :: Val(w, s) == Val(v, s) {
      forall s: nat ensures s in c.defs ==> Val(w, s) == Tri(c.defs[s], c, UserOf(u, s), w).val
        ensures s !in c.defs ==> Val(w, s) == Val(c.constants, s)
      {
        TruthSolves(c, u, s);
        if s in c.defs { TriLocal(c.defs[s], c, UserOf(u, s), v, w); }
      }
    }
    if (forall s :: s in c.defs ==> Val(w, s) == Tri(c.defs[s], c, UserOf(u, s), w).val)
      && forall s: nat :: s !in c.defs ==> Val(w, s) == Val(c.constants, s)
    {
      forall s: nat ensures Val(w, s) == Val(v, s) { TruthUnique(c, u, w, s); }
    }
  }

  /** So a symbol that nobody sets, selects or implies has its first open default ... */
  lemma PlainDefault(c: Config, u: User, s: nat, i: nat)
    requires Acyclic(c) && Tristates(c.constants) && (forall t :: t in u ==> u[t] <= 2) && s in c.defs
    requires var d, v := c.defs[s], Truth(c, u);
      && (s !in u || Vis(d, c, v).val == 0) && Eval(d.revDep, v).val == 0 && Eval(d.weakRevDep, v).val == 0
      && Opens(d.defaults, v, i)
    ensures var d, v := c.defs[s], Truth(c, u);
      var x := Min(Eval(d.defaults[i].0, v).val, Eval(d.defaults[i].1, v).val);
      Val(v, s) == if x == 1 && BoolNow(d, c, v) then 2 else x
  {
    var d, v := c.defs[s], Truth(c, u);
    SolveTristate(c, u, c.count);
    TruthSolves(c, u, s);
    DefaultsTristate(d.defaults, v);
    DefaultsSay(d.defaults, v, Defaults(d.defaults, v).val);
    var j :| Opens(d.defaults, v, j) && Least(Defaults(d.defaults, v).val, Eval(d.defaults[j].0, v).val, Eval(d.defaults[j].1, v).val);
    OpensOnce(d.defaults, v, i, j);
  }

  /** ... and a user's y for a symbol that is visible as m makes it m, unless it is selected or implied by y. */
  lemma CappedUser(c: Config, u: User, s: nat)
    requires Acyclic(c) && Tristates(c.constants) && (forall t :: t in u ==> u[t] <= 2) && s in c.defs
    requires s in u && 0 < Vis(c.defs[s], c, Truth(c, u)).val < u[s]
    ensures var d, v := c.defs[s], Truth(c, u);
      !BoolNow(d, c, v) && Val(v, s) == if Eval(d.revDep, v).val == 2 || Eval(d.weakRevDep, v).val == 2 then 2 else 1
  {
    var d, v := c.defs[s], Truth(c, u);
    SolveTristate(c, u, c.count);
    TruthSolves(c, u, s);
    VisSays(d, c, v);
    EvalTristate(d.revDep, v);
    EvalTristate(d.weakRevDep, v);
  }
}
