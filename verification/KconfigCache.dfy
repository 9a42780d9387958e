/** kconfiglib.py: the values of symbols, and why a cache that is invalidated along dependencies stays right. */
module KconfigCache {
  // Symbols are bool or tristate and outside choices.  Evaluation also says which symbols it reads.

  import opened Wrappers
  import opened KconfigExpr

  /** A symbol: prompt conditions, defaults with their conditions, and the select, imply and depends-on expressions. */
  datatype Def = Def(isBool: bool, prompts: seq<Expr>, defaults: seq<(Expr, Expr)>, revDep: Expr, weakRevDep: Expr, directDep: Expr)

  /** Defined symbols are numbered below `count`.  Symbols without a definition, constants among them, have a value that
      never changes.  `modules` is MODULES. */
  datatype Config = Config(defs: map<nat, Def>, constants: map<nat, int>, modules: nat, count: nat)

  type Vals = map<nat, int>
  type User = map<nat, nat>

  function Val(v: Vals, s: nat): int { if s in v then v[s] else 0 }

  // ---------------------------------------------------------------- evaluation, with what it reads

  /** A result, and the symbols whose values were looked at. */
  datatype R = R(val: int, seen: set<nat>)

  /** expr_value; relations between bool and tristate symbols compare their values as numbers. */
  function Eval(e: Expr, v: Vals): R {
    match e
    case Sym(s) => R(Val(v, s), {s})
    case And(a, b) =>
      var x := Eval(a, v);
      if x.val == 0 then R(0, x.seen) else R(Min(x.val, Eval(b, v).val), x.seen + Eval(b, v).seen)
    case Or(a, b) =>
      var x := Eval(a, v);
      if x.val == 2 then R(2, x.seen) else R(Max(x.val, Eval(b, v).val), x.seen + Eval(b, v).seen)
    case Not(a) => R(2 - Eval(a, v).val, Eval(a, v).seen)
    case Rel(op, x, y) => R(if Holds(op, Val(v, x) - Val(v, y)) then 2 else 0, {x, y})
  }

  /** Symbol.type, for symbols outside choices: a tristate is a bool while modules are off. */
  function IsBool(d: Def, c: Config, v: Vals): (bool, set<nat>) {
    if d.isBool then (true, {}) else (Val(v, c.modules) == 0, {c.modules})
  }

  /** The loop of _visibility over the prompts. */
  function Prompts(ps: seq<Expr>, v: Vals): R {
    if ps == [] then R(0, {})
    else
      var x := Prompts(ps[..|ps| - 1], v);
      R(Max(x.val, Eval(ps[|ps| - 1], v).val), x.seen + Eval(ps[|ps| - 1], v).seen)
  }

  /** Symbol.visibility */
  function Vis(d: Def, c: Config, v: Vals): R {
    var x := Prompts(d.prompts, v);
    if x.val != 1 then x
    else R(if IsBool(d, c, v).0 then 2 else 1, x.seen + IsBool(d, c, v).1)
  }

  /** The first default whose condition holds. */
  function Defaults(ds: seq<(Expr, Expr)>, v: Vals): R {
    if ds == [] then R(0, {})
    else
      var x := Eval(ds[0].1, v);
      if x.val != 0 then R(Min(Eval(ds[0].0, v).val, x.val), x.seen + Eval(ds[0].0, v).seen)
      else R(Defaults(ds[1..], v).val, x.seen + Defaults(ds[1..], v).seen)
  }

  /** Defaults and implies: what a symbol gets without a user value. */
  function Fallback(d: Def, v: Vals): R {
    var x, w := Defaults(d.defaults, v), Eval(d.weakRevDep, v);
    if w.val == 0 then R(x.val, x.seen + w.seen)
    else
      var dd := Eval(d.directDep, v);
      R(if dd.val != 0 then Max(w.val, x.val) else x.val, x.seen + w.seen + dd.seen)
  }

  /** The user value, capped by the visibility, or else the fallback. */
  function Chosen(d: Def, c: Config, u: Option<nat>, v: Vals): R {
    var x := Vis(d, c, v);
    if x.val != 0 && u.Some? then R(Min(u.value, x.val), x.seen)
    else R(Fallback(d, v).val, x.seen + Fallback(d, v).seen)
  }

  /** Selects take precedence; the direct dependencies are only looked at for a warning. */
  function Selected(d: Def, c: Config, u: Option<nat>, v: Vals): R {
    var x, r := Chosen(d, c, u, v), Eval(d.revDep, v);
    if r.val == 0 then R(x.val, x.seen + r.seen)
    else R(Max(r.val, x.val), x.seen + r.seen + Eval(d.directDep, v).seen)
  }

  /** Symbol.tri_value */
  function Tri(d: Def, c: Config, u: Option<nat>, v: Vals): R {
    var x := Selected(d, c, u, v);
    if x.val != 1 then x
    else
      var (b, m) := IsBool(d, c, v);
      if b then R(2, x.seen + m)
      else R(if Eval(d.weakRevDep, v).val == 2 then 2 else 1, x.seen + m + Eval(d.weakRevDep, v).seen)
  }

  // ---------------------------------------------------------------- evaluation is local

  /** Same values on the symbols of q. */
  ghost predicate Agree(v: Vals, w: Vals, q: set<nat>) { forall s :: s in q ==> Val(v, s) == Val(w, s) }

  lemma {:induction false} EvalLocal(e: Expr, v: Vals, w: Vals)
    requires Agree(v, w, Eval(e, v).seen)
    ensures Eval(e, w) == Eval(e, v)
  {
    match e
    case And(a, b) => EvalLocal(a, v, w); if Eval(a, v).val != 0 { EvalLocal(b, v, w); }
    case Or(a, b) => EvalLocal(a, v, w); if Eval(a, v).val != 2 { EvalLocal(b, v, w); }
    case Not(a) => EvalLocal(a, v, w);
    case _ =>
  }

  lemma {:induction false} PromptsLocal(ps: seq<Expr>, v: Vals, w: Vals)
    requires Agree(v, w, Prompts(ps, v).seen)
    ensures Prompts(ps, w) == Prompts(ps, v)
  {
    if ps != [] {
      PromptsLocal(ps[..|ps| - 1], v, w);
      EvalLocal(ps[|ps| - 1], v, w);
    }
  }

  lemma VisLocal(d: Def, c: Config, v: Vals, w: Vals)
    requires Agree(v, w, Vis(d, c, v).seen)
    ensures Vis(d, c, w) == Vis(d, c, v)
  {
    PromptsLocal(d.prompts, v, w);
  }

  lemma {:induction false} DefaultsLocal(ds: seq<(Expr, Expr)>, v: Vals, w: Vals)
    requires Agree(v, w, Defaults(ds, v).seen)
    ensures Defaults(ds, w) == Defaults(ds, v)
  {
    if ds != [] {
      EvalLocal(ds[0].1, v, w);
      if Eval(ds[0].1, v).val != 0 { EvalLocal(ds[0].0, v, w); } else { DefaultsLocal(ds[1..], v, w); }
    }
  }

  /** A value depends on nothing but what its evaluation reads. */
  lemma TriLocal(d: Def, c: Config, u: Option<nat>, v: Vals, w: Vals)
    requires Agree(v, w, Tri(d, c, u, v).seen)
    ensures Tri(d, c, u, w) == Tri(d, c, u, v)
  {
    VisLocal(d, c, v, w);
    if !(Vis(d, c, v).val != 0 && u.Some?) {
      DefaultsLocal(d.defaults, v, w);
      EvalLocal(d.weakRevDep, v, w);
      if Eval(d.weakRevDep, v).val != 0 { EvalLocal(d.directDep, v, w); }
    }
    EvalLocal(d.revDep, v, w);
    if Eval(d.revDep, v).val != 0 { EvalLocal(d.directDep, v, w); }
    if Selected(d, c, u, v).val == 1 && !IsBool(d, c, v).0 { EvalLocal(d.weakRevDep, v, w); }
  }

  // ---------------------------------------------------------------- what an evaluation can read

  function Syms(e: Expr): set<nat> {
    match e
    case Sym(s) => {s}
    case And(a, b) => Syms(a) + Syms(b)
    case Or(a, b) => Syms(a) + Syms(b)
    case Not(a) => Syms(a)
    case Rel(op, x, y) => {x, y}
  }

  function AllSyms(es: seq<Expr>): set<nat> { if es == [] then {} else AllSyms(es[..|es| - 1]) + Syms(es[|es| - 1]) }

  function DefaultSyms(ds: seq<(Expr, Expr)>): set<nat> {
    if ds == [] then {} else Syms(ds[0].0) + Syms(ds[0].1) + DefaultSyms(ds[1..])
  }

  /** The symbols of a definition, which _build_dep makes it depend on. */
  function Mentions(d: Def): set<nat> {
    AllSyms(d.prompts) + DefaultSyms(d.defaults) + Syms(d.revDep) + Syms(d.weakRevDep) + Syms(d.directDep)
  }

  lemma {:induction false} EvalSees(e: Expr, v: Vals)
    ensures Eval(e, v).seen <= Syms(e)
  {
    match e
    case And(a, b) => EvalSees(a, v); EvalSees(b, v);
    case Or(a, b) => EvalSees(a, v); EvalSees(b, v);
    case Not(a) => EvalSees(a, v);
    case _ =>
  }

  lemma {:induction false} PromptsSee(ps: seq<Expr>, v: Vals)
    ensures Prompts(ps, v).seen <= AllSyms(ps)
  {
    if ps != [] { PromptsSee(ps[..|ps| - 1], v); EvalSees(ps[|ps| - 1], v); }
  }

  lemma {:induction false} DefaultsSee(ds: seq<(Expr, Expr)>, v: Vals)
    ensures Defaults(ds, v).seen <= DefaultSyms(ds)
  {
    if ds != [] { EvalSees(ds[0].0, v); EvalSees(ds[0].1, v); DefaultsSee(ds[1..], v); }
  }

  /** An evaluation reads symbols of the definition and, for a tristate, MODULES. */
  lemma TriSees(d: Def, c: Config, u: Option<nat>, v: Vals)
    ensures Tri(d, c, u, v).seen <= Mentions(d) + (if d.isBool then {} else {c.modules})
    ensures Vis(d, c, v).seen <= Mentions(d) + (if d.isBool then {} else {c.modules})
    ensures Vis(d, c, v).seen <= Tri(d, c, u, v).seen
  {
    PromptsSee(d.prompts, v);
    DefaultsSee(d.defaults, v);
    EvalSees(d.revDep, v);
    EvalSees(d.weakRevDep, v);
    EvalSees(d.directDep, v);
  }

  // ---------------------------------------------------------------- uncached evaluation

  /** No symbol depends on itself: each reads only symbols with smaller numbers, or undefined ones. */
  ghost predicate Acyclic(c: Config) {
    && (forall s :: s in c.defs ==> s < c.count && s !in c.constants)
    && (forall s, r :: s in c.defs && r in Mentions(c.defs[s]) && r in c.defs ==> r < s)
    && (forall s :: s in c.defs && !c.defs[s].isBool && c.modules in c.defs ==> c.modules < s)
  }

  function UserOf(u: User, s: nat): Option<nat> { if s in u then Some(u[s]) else None }

  /** The values of the symbols below k, computed in order. */
  ghost function Solve(c: Config, u: User, k: nat): Vals {
    if k == 0 then c.constants
    else
      var w := Solve(c, u, k - 1);
      if k - 1 in c.defs then w[k - 1 := Tri(c.defs[k - 1], c, UserOf(u, k - 1), w).val] else w
  }

  /** The values of all symbols under the user values u. */
  ghost function Truth(c: Config, u: User): Vals { Solve(c, u, c.count) }

  lemma {:induction false} SolveKeeps(c: Config, u: User, k: nat, n: nat, r: nat)
    requires Acyclic(c) && k <= n && (r in c.defs ==> r < k)
    ensures Val(Solve(c, u, n), r) == Val(Solve(c, u, k), r)
  {
    if k < n { SolveKeeps(c, u, k, n - 1, r); }
  }

  /** The values solve the equations that tri_value stands for. */
  lemma TruthSolves(c: Config, u: User, s: nat)
    requires Acyclic(c)
    ensures s in c.defs ==> Val(Truth(c, u), s) == Tri(c.defs[s], c, UserOf(u, s), Truth(c, u)).val
    ensures s !in c.defs ==> Val(Truth(c, u), s) == Val(c.constants, s)
  {
    if s in c.defs {
      var d, w := c.defs[s], Solve(c, u, s);
      TriSees(d, c, UserOf(u, s), w);
      forall r | r in Tri(d, c, UserOf(u, s), w).seen ensures Val(w, r) == Val(Truth(c, u), r) {
        SolveKeeps(c, u, s, c.count, r);
      }
      TriLocal(d, c, UserOf(u, s), w, Truth(c, u));
      SolveKeeps(c, u, s + 1, c.count, s);
    } else {
      SolveKeeps(c, u, 0, c.count, s);
    }
  }

  /** And nothing else does. */
  lemma {:induction false} TruthUnique(c: Config, u: User, w: Vals, s: nat)
    requires Acyclic(c)
    requires forall t :: t in c.defs ==> Val(w, t) == Tri(c.defs[t], c, UserOf(u, t), w).val
    requires forall t: nat :: t !in c.defs ==> Val(w, t) == Val(c.constants, t)
    ensures Val(w, s) == Val(Truth(c, u), s)
    decreases s
  {
    TruthSolves(c, u, s);
    if s in c.defs {
      var d := c.defs[s];
      TriSees(d, c, UserOf(u, s), w);
      forall r | r in Tri(d, c, UserOf(u, s), w).seen ensures Val(w, r) == Val(Truth(c, u), r) {
        if r in c.defs { TruthUnique(c, u, w, r); } else { TruthSolves(c, u, r); }
      }
      TriLocal(d, c, UserOf(u, s), w, Truth(c, u));
    }
  }

  // ---------------------------------------------------------------- what the values are like

  ghost predicate Tristates(v: Vals) { forall s: nat :: 0 <= Val(v, s) <= 2 }

  lemma {:induction false} EvalTristate(e: Expr, v: Vals)
    requires Tristates(v)
    ensures 0 <= Eval(e, v).val <= 2
  {
    match e
    case And(a, b) => EvalTristate(a, v); EvalTristate(b, v);
    case Or(a, b) => EvalTristate(a, v); EvalTristate(b, v);
    case Not(a) => EvalTristate(a, v);
    case _ =>
  }

  /** What expr_value sees of the symbols of q: their values, and these as numbers to compare. */
  function EnvOf(v: Vals, q: set<nat>): Env {
    Env(map s | s in q && Val(v, s) >= 0 :: s := Val(v, s), map x, y | x in q && y in q :: (x, y) := Val(v, x) - Val(v, y))
  }

  /** Evaluation with and without the record of what was read is one and the same. */
  lemma {:induction false} EvalIsValue(e: Expr, v: Vals, q: set<nat>)
    requires Tristates(v) && Syms(e) <= q
    ensures Eval(e, v).val == Value(e, EnvOf(v, q)) && Tristate(EnvOf(v, q))
  {
    match e
    case And(a, b) => EvalIsValue(a, v, q); EvalIsValue(b, v, q);
    case Or(a, b) => EvalIsValue(a, v, q); EvalIsValue(b, v, q);
    case Not(a) => EvalIsValue(a, v, q);
    case Sym(s) => assert s in q && 0 <= Val(v, s) <= 2;
    case Rel(op, x, y) => assert (x, y) in EnvOf(v, q).cmp;
  }

  /** So an expression and its right-nested form have one value in every configuration. */
  lemma NestedEval(e: Expr, v: Vals)
    requires Tristates(v)
    ensures Eval(Nested(e), v).val == Eval(e, v).val
  {
    var q := Syms(e) + Syms(Nested(e));
    EvalIsValue(e, v, q);
    EvalIsValue(Nested(e), v, q);
    NestedValue(e, EnvOf(v, q));
  }

  lemma {:induction false} PromptsTristate(ps: seq<Expr>, v: Vals)
    requires Tristates(v)
    ensures 0 <= Prompts(ps, v).val <= 2
  {
    if ps != [] {
      PromptsTristate(ps[..|ps| - 1], v);
      EvalTristate(ps[|ps| - 1], v);
    }
  }

  lemma {:induction false} DefaultsTristate(ds: seq<(Expr, Expr)>, v: Vals)
    requires Tristates(v)
    ensures 0 <= Defaults(ds, v).val <= 2
  {
    if ds != [] {
      EvalTristate(ds[0].0, v);
      EvalTristate(ds[0].1, v);
      DefaultsTristate(ds[1..], v);
    }
  }

  /** A value x that a symbol may have: right for the type, no less than what selects it; not more than the visibility
      unless selected or implied; and the user's, where that is no less, no more and not overruled. */
  predicate Fair(d: Def, c: Config, u: Option<nat>, v: Vals, x: int) {
    && 0 <= x <= 2 && (IsBool(d, c, v).0 ==> x != 1) && Eval(d.revDep, v).val <= x
    && (u.Some? && Vis(d, c, v).val > 0 ==> x <= Max(Eval(d.revDep, v).val, Vis(d, c, v).val) || Eval(d.weakRevDep, v).val == 2)
    && (u.Some? && Effective(d, c, u.value, v) ==> x == u.value)
  }

  /** The symbol is visible, the value is within the bounds, and an m is not promoted to y. */
  predicate Effective(d: Def, c: Config, value: nat, v: Vals) {
    && Vis(d, c, v).val > 0 && Eval(d.revDep, v).val <= value <= Vis(d, c, v).val
    && (value == 1 ==> !IsBool(d, c, v).0 && Eval(d.weakRevDep, v).val < 2)
  }

  lemma TriFair(d: Def, c: Config, u: Option<nat>, v: Vals)
    requires Tristates(v) && (u.Some? ==> u.value <= 2)
    ensures Fair(d, c, u, v, Tri(d, c, u, v).val)
  {
    PromptsTristate(d.prompts, v);
    DefaultsTristate(d.defaults, v);
    EvalTristate(d.revDep, v);
    EvalTristate(d.weakRevDep, v);
    EvalTristate(d.directDep, v);
  }

  lemma {:induction false} SolveTristate(c: Config, u: User, k: nat)
    requires Tristates(c.constants) && forall s :: s in u ==> u[s] <= 2
    ensures Tristates(Solve(c, u, k))
  {
    if k > 0 {
      SolveTristate(c, u, k - 1);
      if k - 1 in c.defs {
        var w := Solve(c, u, k - 1);
        TriFair(c.defs[k - 1], c, UserOf(u, k - 1), w);
        hide Tri, Fair;
        forall s: nat ensures 0 <= Val(Solve(c, u, k), s) <= 2 { assert 0 <= Val(w, s) <= 2; }
      }
    }
  }

  /** Whatever the user values, every symbol's value is fair, all at the same time. */
  lemma TruthFair(c: Config, u: User, s: nat)
    requires Acyclic(c) && Tristates(c.constants) && (forall t :: t in u ==> u[t] <= 2) && s in c.defs
    ensures Fair(c.defs[s], c, UserOf(u, s), Truth(c, u), Val(Truth(c, u), s))
  {
    SolveTristate(c, u, c.count);
    TruthSolves(c, u, s);
    TriFair(c.defs[s], c, UserOf(u, s), Truth(c, u));
  }

  // ---------------------------------------------------------------- the cache

  /** `_cached_vis` and `_cached_tri_val` of the symbols that have them. */
  datatype Cache = Cache(vis: map<nat, int>, tri: map<nat, int>)

  /** Everything in q that can change has a cached value. */
  ghost predicate Backed(c: Config, tri: map<nat, int>, q: set<nat>) { forall r :: r in q && r in c.defs ==> r in tri }

  ghost predicate VisOk(c: Config, v: Vals, a: Cache, s: nat)
    requires s in a.vis
  {
    s in c.defs && a.vis[s] == Vis(c.defs[s], c, v).val && Backed(c, a.tri, Vis(c.defs[s], c, v).seen)
  }

  ghost predicate TriOk(c: Config, u: User, v: Vals, a: Cache, s: nat)
    requires s in a.tri
  {
    s in c.defs && s in a.vis && a.tri[s] == Val(v, s) && Backed(c, a.tri, Tri(c.defs[s], c, UserOf(u, s), v).seen)
  }

  /** Every cached value is the uncached one, and what its computation read is cached too. */
  ghost predicate Coherent(c: Config, u: User, a: Cache) {
    && (forall s :: s in a.vis ==> VisOk(c, Truth(c, u), a, s))
    && (forall s :: s in a.tri ==> TriOk(c, u, Truth(c, u), a, s))
  }

  /** `_dependents`: at least everybody who mentions a symbol that is not a constant. */
  ghost predicate Depends(c: Config, deps: map<nat, set<nat>>) {
    forall x, r :: x in c.defs && r in Mentions(c.defs[x]) && r !in c.constants ==> r in deps && x in deps[r]
  }

  /** What invalidating s leaves: neither s, nor anybody who mentions s or a symbol that was dropped with it. */
  ghost predicate Dropped(c: Config, deps: map<nat, set<nat>>, a: Cache, b: Cache, s: nat) {
    && Shrunk(a, b) && s !in b.vis
    && (forall r, x :: (r == s || (r in a.vis && r !in b.vis)) && r in deps && x in deps[r] ==> x !in b.vis)
    && ((c.modules == s || (c.modules in a.vis && c.modules !in b.vis)) ==> b.vis == map[])
  }

  ghost predicate Shrunk(a: Cache, b: Cache) {
    && (forall x :: x in b.vis ==> x in a.vis && b.vis[x] == a.vis[x])
    && (forall x :: x in b.tri <==> x in a.tri && x in b.vis) && (forall x :: x in b.tri ==> b.tri[x] == a.tri[x])
  }

  predicate Edge(deps: map<nat, set<nat>>, r: nat, x: nat) { r in deps && x in deps[r] }

  /** Each symbol of p but the first depends on the one before it, and has a cached value. */
  predicate Path(deps: map<nat, set<nat>>, cached: set<nat>, p: seq<nat>) {
    p != [] && forall i :: 0 <= i < |p| - 1 ==> PathStep(deps, cached, p, i)
  }

  predicate PathStep(deps: map<nat, set<nat>>, cached: set<nat>, p: seq<nat>, i: nat)
    requires i + 1 < |p|
  {
    Edge(deps, p[i], p[i + 1]) && p[i + 1] in cached
  }

  /** x depends on s, through symbols with cached values. */
  ghost predicate Reaches(deps: map<nat, set<nat>>, cached: set<nat>, s: nat, x: nat) {
    exists p: seq<nat> :: Path(deps, cached, p) && p[0] == s && p[|p| - 1] == x
  }

  /** Who has to go with s: all that s reaches, and everybody if it reaches MODULES. */
  ghost predicate Goes(c: Config, deps: map<nat, set<nat>>, cached: set<nat>, s: nat, x: nat) {
    Reaches(deps, cached, s, x) || Reaches(deps, cached, s, c.modules)
  }

  lemma GoesItself(c: Config, deps: map<nat, set<nat>>, cached: set<nat>, s: nat)
    ensures Goes(c, deps, cached, s, s) && (s == c.modules ==> forall x :: Goes(c, deps, cached, s, x))
  {
    assert Path(deps, cached, [s]);
  }

  lemma ReachesFurther(deps: map<nat, set<nat>>, small: set<nat>, cached: set<nat>, s: nat, r: nat, x: nat)
    requires Reaches(deps, small, r, x) && small <= cached && Edge(deps, s, r) && r in cached
    ensures Reaches(deps, cached, s, x)
  {
    var p: seq<nat> :| Path(deps, small, p) && p[0] == r && p[|p| - 1] == x;
    var q := [s] + p;
    forall i | 0 <= i < |q| - 1 ensures PathStep(deps, cached, q, i) {
      if i > 0 { assert PathStep(deps, small, p, i - 1); }
    }
    assert Path(deps, cached, q) && q[|q| - 1] == x;
  }

  lemma GoesFurther(c: Config, deps: map<nat, set<nat>>, small: set<nat>, cached: set<nat>, s: nat, r: nat, x: nat)
    requires Goes(c, deps, small, r, x) && small <= cached && Edge(deps, s, r) && r in cached
    ensures Goes(c, deps, cached, s, x)
  {
    if Reaches(deps, small, r, x) { ReachesFurther(deps, small, cached, s, r, x); }
    else { ReachesFurther(deps, small, cached, s, r, c.modules); }
  }

  lemma {:induction false} PathIsGone(c: Config, deps: map<nat, set<nat>>, a: Cache, b: Cache, s: nat, p: seq<nat>, n: nat)
    requires Dropped(c, deps, a, b, s) && Path(deps, a.vis.Keys, p) && p[0] == s && n < |p|
    ensures p[n] !in b.vis && (p[n] == s || p[n] in a.vis)
  {
    if n > 0 {
      PathIsGone(c, deps, a, b, s, p, n - 1);
      assert PathStep(deps, a.vis.Keys, p, n - 1);
    }
  }

  /** The loop over the dependents of s has still to see those of `rest`. */
  ghost predicate Dropping(c: Config, deps: map<nat, set<nat>>, a: Cache, b: Cache, s: nat, rest: set<nat>) {
    && Shrunk(a, b) && s !in b.vis
    && (forall r, x :: r != s && r in a.vis && r !in b.vis && Edge(deps, r, x) ==> x !in b.vis)
    && (forall x :: Edge(deps, s, x) && x !in rest ==> x !in b.vis)
    && (c.modules in a.vis && c.modules !in b.vis ==> b.vis == map[])
    && OnlyGoing(c, deps, a, b, s)
  }

  ghost predicate OnlyGoing(c: Config, deps: map<nat, set<nat>>, a: Cache, b: Cache, s: nat) {
    forall x :: x in a.vis && x !in b.vis ==> Goes(c, deps, a.vis.Keys, s, x)
  }

  lemma DroppingFirst(c: Config, deps: map<nat, set<nat>>, a: Cache, s: nat, rest: set<nat>)
    requires s != c.modules && (forall x :: x in a.tri ==> x in a.vis) && rest == if s in deps then deps[s] else {}
    ensures Dropping(c, deps, a, Cache(a.vis - {s}, a.tri - {s}), s, rest)
  {
    hide Goes;
    GoesItself(c, deps, a.vis.Keys, s);
  }

  lemma DroppingNone(c: Config, deps: map<nat, set<nat>>, a: Cache, b: Cache, s: nat, rest: set<nat>, item: nat)
    requires Dropping(c, deps, a, b, s, rest) && item !in b.vis
    ensures Dropping(c, deps, a, b, s, rest - {item})
  {
  }

  lemma DroppingDone(c: Config, deps: map<nat, set<nat>>, a: Cache, b: Cache, s: nat)
    requires Dropping(c, deps, a, b, s, {}) && s != c.modules
    ensures Dropped(c, deps, a, b, s) && OnlyGoing(c, deps, a, b, s)
  {
    forall r, x | (r == s || (r in a.vis && r !in b.vis)) && r in deps && x in deps[r] ensures x !in b.vis {
      assert Edge(deps, r, x);
    }
  }

  lemma DroppingOne(c: Config, deps: map<nat, set<nat>>, a: Cache, b: Cache, b': Cache, s: nat, rest: set<nat>, item: nat)
    requires Dropping(c, deps, a, b, s, rest) && Edge(deps, s, item) && item in b.vis
    requires Dropped(c, deps, b, b', item) && OnlyGoing(c, deps, b, b', item)
    ensures Dropping(c, deps, a, b', s, rest - {item})
  {
    hide Goes;
    forall x | x in a.vis && x !in b'.vis ensures Goes(c, deps, a.vis.Keys, s, x) {
      if x in b.vis { GoesFurther(c, deps, b.vis.Keys, a.vis.Keys, s, item, x); }
    }
    hide OnlyGoing;
    forall r, x | r != s && r in a.vis && r !in b'.vis && Edge(deps, r, x) ensures x !in b'.vis {
      if r in b.vis { assert r in deps && x in deps[r]; }
    }
  }

  /** What has to go is gone. */
  lemma GoesIsGone(c: Config, deps: map<nat, set<nat>>, a: Cache, b: Cache, s: nat, x: nat)
    requires Dropped(c, deps, a, b, s) && Goes(c, deps, a.vis.Keys, s, x)
    ensures x !in b.vis
  {
    var t := if Reaches(deps, a.vis.Keys, s, x) then x else c.modules;
    var p: seq<nat> :| Path(deps, a.vis.Keys, p) && p[0] == s && p[|p| - 1] == t;
    PathIsGone(c, deps, a, b, s, p, |p| - 1);
  }

  lemma ReadSurvives(c: Config, deps: map<nat, set<nat>>, a: Cache, b: Cache, s: nat, t: nat, r: nat)
    requires Depends(c, deps) && Dropped(c, deps, a, b, s) && t in b.vis && t in c.defs
    requires r in c.defs && r !in c.constants && r in a.tri && r in a.vis && (r in Mentions(c.defs[t]) || r == c.modules)
    ensures r in b.tri
  {
    hide Mentions;
    if r in Mentions(c.defs[t]) { assert r in deps && t in deps[r]; }
  }

  /** What a surviving symbol has read has survived as well. */
  lemma ReadsSurvive(c: Config, u: User, deps: map<nat, set<nat>>, a: Cache, b: Cache, s: nat, t: nat, q: set<nat>)
    requires Coherent(c, u, a) && Depends(c, deps) && Dropped(c, deps, a, b, s) && t in b.vis && t in c.defs
    requires Backed(c, a.tri, q) && q <= Mentions(c.defs[t]) + {c.modules} && Acyclic(c)
    ensures Backed(c, b.tri, q)
  {
    hide Mentions, Tri, Vis, Solve, Depends, Dropped;
    forall r | r in q && r in c.defs ensures r in b.tri {
      assert TriOk(c, u, Truth(c, u), a, r);
      ReadSurvives(c, deps, a, b, s, t, r);
    }
  }

  /** The values of surviving symbols do not depend on the user value that changed. */
  lemma {:induction false} ValuesSurvive(c: Config, u: User, u': User, deps: map<nat, set<nat>>, a: Cache, b: Cache, s: nat, t: nat)
    requires Acyclic(c) && Coherent(c, u, a) && Depends(c, deps) && Dropped(c, deps, a, b, s)
    requires (forall x :: x != s ==> UserOf(u', x) == UserOf(u, x)) && t in b.tri
    ensures Val(Truth(c, u'), t) == Val(Truth(c, u), t)
    ensures Tri(c.defs[t], c, UserOf(u', t), Truth(c, u')) == Tri(c.defs[t], c, UserOf(u, t), Truth(c, u))
    ensures Backed(c, b.tri, Tri(c.defs[t], c, UserOf(u, t), Truth(c, u)).seen)
    decreases t
  {
    assert TriOk(c, u, Truth(c, u), a, t);
    var d, v, q := c.defs[t], Truth(c, u), Tri(c.defs[t], c, UserOf(u, t), Truth(c, u)).seen;
    hide Tri, Vis, Mentions, Solve;
    TriSees(d, c, UserOf(u, t), v);
    ReadsSurvive(c, u, deps, a, b, s, t, q);
    forall r | r in q ensures Val(v, r) == Val(Truth(c, u'), r) {
      if r in c.defs { ValuesSurvive(c, u, u', deps, a, b, s, r); } else { TruthSolves(c, u, r); TruthSolves(c, u', r); }
    }
    TriLocal(d, c, UserOf(u, t), v, Truth(c, u'));
    TruthSolves(c, u, t);
    TruthSolves(c, u', t);
  }

  /** Changing the user value of s and invalidating s keeps the cache coherent. */
  lemma InvalidationSuffices(c: Config, u: User, u': User, deps: map<nat, set<nat>>, a: Cache, b: Cache, s: nat)
    requires Acyclic(c) && Coherent(c, u, a) && Depends(c, deps) && Dropped(c, deps, a, b, s)
    requires forall x :: x != s ==> UserOf(u', x) == UserOf(u, x)
    ensures Coherent(c, u', b)
  {
    hide Tri, Vis, Mentions, Solve, Acyclic, Depends;
    forall t | t in b.tri ensures TriOk(c, u', Truth(c, u'), b, t) {
      assert TriOk(c, u, Truth(c, u), a, t);
      ValuesSurvive(c, u, u', deps, a, b, s, t);
    }
    forall t | t in b.vis ensures VisOk(c, Truth(c, u'), b, t) {
      assert VisOk(c, Truth(c, u), a, t);
      var d, v := c.defs[t], Truth(c, u);
      TriSees(d, c, None, v);
      ReadsSurvive(c, u, deps, a, b, s, t, Vis(d, c, v).seen);
      forall r | r in Vis(d, c, v).seen ensures Val(v, r) == Val(Truth(c, u'), r) {
        if r in c.defs { ValuesSurvive(c, u, u', deps, a, b, s, r); } else { TruthSolves(c, u, r); TruthSolves(c, u', r); }
      }
      VisLocal(d, c, v, Truth(c, u'));
    }
  }

  /** The user value of a symbol without a prompt has no effect, so nothing needs to be invalidated for it. */
  lemma {:induction false} PromptlessValue(c: Config, u: User, u': User, s: nat, t: nat)
    requires Acyclic(c) && (s in c.defs ==> c.defs[s].prompts == []) && (forall x :: x != s ==> UserOf(u', x) == UserOf(u, x))
    ensures Val(Truth(c, u'), t) == Val(Truth(c, u), t)
    ensures t in c.defs ==> Tri(c.defs[t], c, UserOf(u', t), Truth(c, u')) == Tri(c.defs[t], c, UserOf(u, t), Truth(c, u))
    ensures t in c.defs ==> Vis(c.defs[t], c, Truth(c, u')) == Vis(c.defs[t], c, Truth(c, u))
    decreases t
  {
    TruthSolves(c, u, t);
    TruthSolves(c, u', t);
    if t in c.defs {
      var d, v, w := c.defs[t], Truth(c, u), Truth(c, u');
      TriSees(d, c, UserOf(u, t), v);
      forall r | r in Tri(d, c, UserOf(u, t), v).seen ensures Val(v, r) == Val(w, r) {
        if r in c.defs { PromptlessValue(c, u, u', s, r); } else { TruthSolves(c, u, r); TruthSolves(c, u', r); }
      }
      TriLocal(d, c, UserOf(u, t), v, w);
      VisLocal(d, c, v, w);
      if t == s { NeverVisible(d, c, UserOf(u', t), UserOf(u, t), w); }
    }
  }

  lemma NeverVisible(d: Def, c: Config, u: Option<nat>, u': Option<nat>, v: Vals)
    requires d.prompts == []
    ensures Tri(d, c, u, v) == Tri(d, c, u', v)
  {
  }

  lemma PromptlessSuffices(c: Config, u: User, u': User, a: Cache, s: nat)
    requires Acyclic(c) && Coherent(c, u, a) && (s in c.defs ==> c.defs[s].prompts == [])
    requires forall x :: x != s ==> UserOf(u', x) == UserOf(u, x)
    ensures Coherent(c, u', a)
  {
    hide Tri, Vis, Solve, Acyclic;
    forall t | t in a.tri ensures TriOk(c, u', Truth(c, u'), a, t) {
      assert TriOk(c, u, Truth(c, u), a, t);
      PromptlessValue(c, u, u', s, t);
    }
    forall t | t in a.vis ensures VisOk(c, Truth(c, u'), a, t) {
      assert VisOk(c, Truth(c, u), a, t);
      PromptlessValue(c, u, u', s, t);
    }
  }
}
