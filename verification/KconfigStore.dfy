/** kconfiglib.py as it runs: cached properties, dependency sets, and invalidation. */
module KconfigStore {
  import opened Wrappers
  import opened KconfigExpr
  import opened KconfigCache

  function DepsOf(deps: map<nat, set<nat>>, r: nat): set<nat> { if r in deps then deps[r] else {} }

  /** The symbols of e are defined below b, or not at all. */
  ghost predicate Below(c: Config, e: Expr, b: nat) { forall r :: r in Syms(e) && r in c.defs ==> r < b }

  /** n and y for a bool, n, m and y for a tristate. */
  predicate OfType(d: Def, value: nat) { value == 0 || value == 2 || (value == 1 && !d.isBool) }

  class Kconfig {
    const c: Config
    const order: seq<nat>             // unique_defined_syms
    var deps: map<nat, set<nat>>      // _dependents
    var user: User                    // user_value
    var vis: map<nat, int>            // _cached_vis
    var tri: map<nat, int>            // _cached_tri_val

    ghost predicate Valid()
      reads this
    {
      && Acyclic(c) && Depends(c, deps) && Coherent(c, user, Cache(vis, tri))
      && (forall s :: s in order <==> s in c.defs)
    }

    // ------------------------------------------------------------ _build_dep

    /** _make_depend_on */
    method MakeDependOn(x: nat, e: Expr)
      modifies `deps
      ensures forall r :: DepsOf(deps, r) == DepsOf(old(deps), r) + (if r in Syms(e) && r !in c.constants then {x} else {})
      decreases e
    {
      match e
      case Sym(s) => Record(x, s);
      case Rel(op, a, b) => Record(x, a); Record(x, b);
      case Not(a) => MakeDependOn(x, a);
      case And(a, b) => MakeDependOn(x, a); MakeDependOn(x, b);
      case Or(a, b) => MakeDependOn(x, a); MakeDependOn(x, b);
    }

    method Record(x: nat, s: nat)
      modifies `deps
      ensures forall r :: DepsOf(deps, r) == DepsOf(old(deps), r) + (if r == s && r !in c.constants then {x} else {})
    {
      if s !in c.constants { deps := deps[s := DepsOf(deps, s) + {x}]; }
    }

    method DependOnPrompts(x: nat, ps: seq<Expr>)
      modifies `deps
      ensures forall r :: DepsOf(deps, r) == DepsOf(old(deps), r) + (if r in AllSyms(ps) && r !in c.constants then {x} else {})
    {
      var i := 0;
      while i < |ps|
        invariant 0 <= i <= |ps|
        invariant forall r :: DepsOf(deps, r)
                           == DepsOf(old(deps), r) + (if r in AllSyms(ps[..i]) && r !in c.constants then {x} else {})
      {
        MakeDependOn(x, ps[i]);
        assert ps[..i + 1][..i] == ps[..i];
        i := i + 1;
      }
      assert ps[..i] == ps;
    }

    method DependOnDefaults(x: nat, ds: seq<(Expr, Expr)>)
      modifies `deps
      ensures forall r :: DepsOf(deps, r) == DepsOf(old(deps), r) + (if r in DefaultSyms(ds) && r !in c.constants then {x} else {})
    {
      var i := 0;
      ghost var q: set<nat> := {};
      while i < |ds|
        invariant 0 <= i <= |ds| && q + DefaultSyms(ds[i..]) == DefaultSyms(ds)
        invariant forall r :: DepsOf(deps, r) == DepsOf(old(deps), r) + (if r in q && r !in c.constants then {x} else {})
      {
        MakeDependOn(x, ds[i].0);
        MakeDependOn(x, ds[i].1);
        assert ds[i..][0] == ds[i] && ds[i..][1..] == ds[i + 1..];
        q := q + Syms(ds[i].0) + Syms(ds[i].1);
        i := i + 1;
      }
    }

    /** One symbol of _build_dep: it depends on everything its definition mentions. */
    method DependOnAll(x: nat, d: Def)
      modifies `deps
      ensures forall r :: DepsOf(deps, r) == DepsOf(old(deps), r) + (if r in Mentions(d) && r !in c.constants then {x} else {})
    {
      hide Syms, AllSyms, DefaultSyms, DepsOf;
      DependOnPrompts(x, d.prompts);
      DependOnDefaults(x, d.defaults);
      MakeDependOn(x, d.revDep);
      MakeDependOn(x, d.weakRevDep);
      MakeDependOn(x, d.directDep);
    }

    /** A configuration whose dependency sets _build_dep has filled; nothing is cached yet. */
    constructor (config: Config, syms: seq<nat>)
      requires Acyclic(config) && forall s :: s in syms <==> s in config.defs
      ensures Valid() && c == config && user == map[] && vis == map[] && tri == map[]
      ensures forall x, r :: x in DepsOf(deps, r) <==> x in c.defs && r in Mentions(c.defs[x]) && r !in c.constants
    {
      c, order := config, syms;
      deps, user, vis, tri := map[], map[], map[], map[];
      new;
      BuildDep();
      hide Mentions, Truth;
      forall x, r | x in c.defs && r in Mentions(c.defs[x]) && r !in c.constants ensures r in deps && x in deps[r] {
        assert x in DepsOf(deps, r);
      }
    }

    /** _build_dep */
    method BuildDep()
      requires deps == map[] && forall s :: s in order <==> s in c.defs
      modifies `deps
      ensures forall x, r :: x in DepsOf(deps, r) <==> x in c.defs && r in Mentions(c.defs[x]) && r !in c.constants
    {
      hide Mentions;
      var i := 0;
      while i < |order|
        invariant 0 <= i <= |order|
        invariant forall x, r :: x in DepsOf(deps, r) <==> x in order[..i] && r in Mentions(c.defs[x]) && r !in c.constants
      {
        assert order[i] in order;
        DependOnAll(order[i], c.defs[order[i]]);
        assert order[..i + 1] == order[..i] + [order[i]];
        i := i + 1;
      }
      assert order[..i] == order;
    }

    // ------------------------------------------------------------ invalidation

    ghost function CacheNow(): Cache
      reads this
    {
      Cache(vis, tri)
    }

    /** _invalidate_all */
    method InvalidateAll()
      requires (forall x :: x in vis ==> x in order) && (forall x :: x in tri ==> x in vis)
      modifies `vis, `tri
      ensures vis == map[] && tri == map[]
    {
      var i := 0;
      while i < |order|
        invariant 0 <= i <= |order|
        invariant (forall x :: x in vis ==> x in order[i..]) && (forall x :: x in tri ==> x in vis)
      {
        assert order[i..] == [order[i]] + order[i + 1..];
        vis, tri := vis - {order[i]}, tri - {order[i]};
        i := i + 1;
      }
      assert order[i..] == [];
      assert vis.Keys == {} && tri.Keys == {};
    }

    /** _rec_invalidate.  It ends on every dependency graph, with or without cycles, because each nested call is for a
        symbol whose visibility is still cached; and it drops what has to go, and nothing else. */
    method RecInvalidate(s: nat)
      requires (forall x :: x in vis ==> x in order) && (forall x :: x in tri ==> x in vis)
      modifies `vis, `tri
      ensures Dropped(c, deps, old(CacheNow()), CacheNow(), s)
      ensures forall x :: x in old(vis) ==> (x !in vis <==> Goes(c, deps, old(vis).Keys, s, x))
      decreases |vis.Keys - {s}|
    {
      hide Goes, Reaches;
      ghost var a0 := CacheNow();
      RecDrop(s);
      forall x | x in a0.vis ensures x !in vis <==> Goes(c, deps, a0.vis.Keys, s, x) {
        if Goes(c, deps, a0.vis.Keys, s, x) { GoesIsGone(c, deps, a0, CacheNow(), s, x); }
      }
    }

    lemma StillFewer(a: Cache, b: Cache, s: nat)
      requires Dropped(c, deps, a, b, s)
      ensures b.vis.Keys <= a.vis.Keys && ((forall x :: x in a.tri ==> x in a.vis) ==> forall x :: x in b.tri ==> x in b.vis)
    {
    }

    method RecDrop(s: nat)
      requires (forall x :: x in vis ==> x in order) && (forall x :: x in tri ==> x in vis)
      modifies `vis, `tri
      ensures Dropped(c, deps, old(CacheNow()), CacheNow(), s)
      ensures OnlyGoing(c, deps, old(CacheNow()), CacheNow(), s)
      decreases |vis.Keys - {s}|
    {
      hide Goes;
      if s == c.modules {
        GoesItself(c, deps, vis.Keys, s);
        InvalidateAll();
        return;
      }
      hide Dropping, Dropped, OnlyGoing;
      ghost var a0 := CacheNow();
      vis, tri := vis - {s}, tri - {s};
      DroppingFirst(c, deps, a0, s, DepsOf(deps, s));
      var rest := DepsOf(deps, s);
      while rest != {}
        invariant Dropping(c, deps, a0, CacheNow(), s, rest) && rest <= DepsOf(deps, s)
        invariant (forall x :: x in vis ==> x in order) && (forall x :: x in tri ==> x in vis)
        invariant vis.Keys <= a0.vis.Keys - {s}
        decreases rest
      {
        var item :| item in rest;
        if item in vis {
          Smaller(vis.Keys, a0.vis.Keys, s, item);
          ghost var a1 := CacheNow();
          RecDrop(item);
          DroppingOne(c, deps, a0, a1, CacheNow(), s, rest, item);
          StillFewer(a1, CacheNow(), item);
        } else {
          DroppingNone(c, deps, a0, CacheNow(), s, rest, item);
        }
        rest := rest - {item};
      }
      DroppingDone(c, deps, a0, CacheNow(), s);
    }

    /** _rec_invalidate_if_has_prompt */
    method InvalidateIfPrompt(s: nat)
      requires s in c.defs && (forall x :: x in vis ==> x in order) && (forall x :: x in tri ==> x in vis)
      modifies `vis, `tri
      ensures if c.defs[s].prompts == [] then CacheNow() == old(CacheNow())
              else Dropped(c, deps, old(CacheNow()), CacheNow(), s)
    {
      if c.defs[s].prompts != [] { RecInvalidate(s); }
    }

    /** set_value; false is the answer to a value that the type does not have. */
    method SetValue(s: nat, value: nat) returns (ok: bool)
      requires Valid() && s in c.defs
      modifies `user, `vis, `tri
      ensures Valid() && ok == (UserOf(old(user), s) == Some(value) || OfType(c.defs[s], value))
      ensures user == if ok then old(user)[s := value] else old(user)
    {
      hide Acyclic, Depends, Truth, Mentions, Vis, Tri;
      CachedIsDefined();
      if UserOf(user, s) == Some(value) {
        assert user == user[s := value];
        return true;
      }
      if !OfType(c.defs[s], value) { return false; }
      ghost var u, a := user, CacheNow();
      user := user[s := value];
      InvalidateIfPrompt(s);
      ChangeIsSafe(u, a, s);
      return true;
    }

    /** unset_value */
    method UnsetValue(s: nat)
      requires Valid() && s in c.defs
      modifies `user, `vis, `tri
      ensures Valid() && user == old(user) - {s}
    {
      hide Acyclic, Depends, Truth, Mentions, Vis, Tri;
      CachedIsDefined();
      if s in user {
        ghost var u, a := user, CacheNow();
        user := user - {s};
        InvalidateIfPrompt(s);
        ChangeIsSafe(u, a, s);
      } else {
        assert user - {s} == user;
      }
    }

    lemma CachedIsDefined()
      requires Valid()
      ensures (forall x :: x in vis ==> x in order) && (forall x :: x in tri ==> x in vis)
    {
      forall x | x in vis ensures x in order { assert VisOk(c, Truth(c, user), CacheNow(), x); }
      forall x | x in tri ensures x in vis { assert TriOk(c, user, Truth(c, user), CacheNow(), x); }
    }

    lemma ChangeIsSafe(u: User, a: Cache, s: nat)
      requires Acyclic(c) && Depends(c, deps) && Coherent(c, u, a) && s in c.defs
      requires if c.defs[s].prompts == [] then CacheNow() == a else Dropped(c, deps, a, CacheNow(), s)
      requires forall x :: x != s ==> UserOf(user, x) == UserOf(u, x)
      ensures Coherent(c, user, CacheNow())
    {
      if c.defs[s].prompts == [] { PromptlessSuffices(c, u, user, a, s); }
      else { InvalidationSuffices(c, u, user, deps, a, CacheNow(), s); }
    }

    lemma Smaller(v: set<nat>, a: set<nat>, s: nat, item: nat)
      requires v <= a && s !in v && item in v
      ensures |v - {item}| < |a - {s}|
    {
      assert v - {item} < v <= a - {s};
      SubsetCard(v, a - {s});
      assert |v - {item}| == |v| - 1;
    }

    lemma SubsetCard(v: set<nat>, w: set<nat>)
      requires v <= w
      ensures |v| <= |w|
    {
      assert w == v + (w - v);
    }

    // ------------------------------------------------------------ reading values

    ghost function V(): Vals
      reads this
    {
      Truth(c, user)
    }

    /** Cached values do not go away while values are read. */
    ghost predicate Grown(a: Cache, b: Cache) { a.vis.Keys <= b.vis.Keys && a.tri.Keys <= b.tri.Keys }

    lemma StillBacked(a: map<nat, int>, b: map<nat, int>, q: set<nat>)
      requires Backed(c, a, q) && a.Keys <= b.Keys
      ensures Backed(c, b, q)
    {
    }

    /** expr_value, over cached values */
    method ExprValue(e: Expr, ghost b: nat) returns (val: int)
      requires Valid() && Below(c, e, b)
      modifies `vis, `tri
      ensures Valid() && Grown(old(CacheNow()), CacheNow())
      ensures val == Eval(e, V()).val && Backed(c, tri, Eval(e, V()).seen)
      decreases b, 0, e
    {
      hide Acyclic, Depends, Coherent, Truth;
      match e
      case Sym(s) =>
        val := TriValue(s);
      case And(x, y) =>
        var v1 := ExprValue(x, b);
        if v1 == 0 { return 0; }
        var v2 := ExprValue(y, b);
        return Min(v1, v2);
      case Or(x, y) =>
        var v1 := ExprValue(x, b);
        if v1 == 2 { return 2; }
        var v2 := ExprValue(y, b);
        return Max(v1, v2);
      case Not(x) =>
        var v1 := ExprValue(x, b);
        return 2 - v1;
      case Rel(op, x, y) =>
        var v1 := TriValue(x);
        var v2 := TriValue(y);
        return if Holds(op, v1 - v2) then 2 else 0;
    }

    /** Symbol.type: whether symbol s counts as a bool now */
    method TypeIsBool(s: nat) returns (isBool: bool)
      requires Valid() && s in c.defs
      modifies `vis, `tri
      ensures Valid() && Grown(old(CacheNow()), CacheNow())
      ensures isBool == IsBool(c.defs[s], c, V()).0 && Backed(c, tri, IsBool(c.defs[s], c, V()).1)
      decreases s, 0, 0
    {
      if c.defs[s].isBool { return true; }
      ModulesBelow(s);
      hide Acyclic, Depends, Coherent, Truth;
      var m := TriValue(c.modules);
      return m == 0;
    }

    lemma ModulesBelow(s: nat)
      requires Acyclic(c) && s in c.defs && !c.defs[s].isBool
      ensures c.modules in c.defs ==> c.modules < s
    {
    }

    /** The expressions of a definition only mention symbols with smaller numbers. */
    lemma AllBelow(s: nat)
      requires Acyclic(c) && s in c.defs
      ensures var d := c.defs[s];
        && Below(c, d.revDep, s) && Below(c, d.weakRevDep, s) && Below(c, d.directDep, s)
        && (forall i :: 0 <= i < |d.prompts| ==> Below(c, d.prompts[i], s))
        && (forall i :: 0 <= i < |d.defaults| ==> Below(c, d.defaults[i].0, s) && Below(c, d.defaults[i].1, s))
    {
      var d := c.defs[s];
      forall i | 0 <= i < |d.prompts| ensures Syms(d.prompts[i]) <= Mentions(d) { PromptIn(d.prompts, i); }
      forall i | 0 <= i < |d.defaults| ensures Syms(d.defaults[i].0) + Syms(d.defaults[i].1) <= Mentions(d) { DefaultIn(d.defaults, i); }
    }

    lemma {:induction false} PromptIn(ps: seq<Expr>, i: nat)
      requires i < |ps|
      ensures Syms(ps[i]) <= AllSyms(ps)
    {
      if i < |ps| - 1 { PromptIn(ps[..|ps| - 1], i); }
    }

    lemma {:induction false} DefaultIn(ds: seq<(Expr, Expr)>, i: nat)
      requires i < |ds|
      ensures Syms(ds[i].0) + Syms(ds[i].1) <= DefaultSyms(ds)
    {
      if i > 0 { DefaultIn(ds[1..], i - 1); }
    }

    /** The loop of _visibility over the prompts. */
    method PromptValue(s: nat) returns (val: int)
      requires Valid() && s in c.defs
      modifies `vis, `tri
      ensures Valid() && Grown(old(CacheNow()), CacheNow())
      ensures val == Prompts(c.defs[s].prompts, V()).val && Backed(c, tri, Prompts(c.defs[s].prompts, V()).seen)
      decreases s, 1, 0
    {
      var ps := c.defs[s].prompts;
      AllBelow(s);
      hide Acyclic, Depends, Coherent, Truth, Below;
      val := 0;
      var i := 0;
      while i < |ps|
        invariant 0 <= i <= |ps| && Valid() && Grown(old(CacheNow()), CacheNow())
        invariant val == Prompts(ps[..i], V()).val && Backed(c, tri, Prompts(ps[..i], V()).seen)
      {
        ghost var t0 := tri;
        var p := ExprValue(ps[i], s);
        StillBacked(t0, tri, Prompts(ps[..i], V()).seen);
        assert ps[..i + 1][..i] == ps[..i];
        val := Max(val, p);
        i := i + 1;
      }
      assert ps[..i] == ps;
    }

    /** Symbol.visibility */
    method Visibility(s: nat) returns (val: int)
      requires Valid() && s in c.defs
      modifies `vis, `tri
      ensures Valid() && Grown(old(CacheNow()), CacheNow()) && s in vis
      ensures val == Vis(c.defs[s], c, V()).val && Backed(c, tri, Vis(c.defs[s], c, V()).seen)
      decreases s, 2, 0
    {
      hide Acyclic, Depends, Coherent, Truth, Prompts;
      if s in vis {
        CachedVisibility(s);
        return vis[s];
      }
      val := PromptValue(s);
      if val == 1 {
        ghost var t0 := tri;
        var isBool := TypeIsBool(s);
        StillBacked(t0, tri, Prompts(c.defs[s].prompts, V()).seen);
        if isBool { val := 2; }
      }
      StoreVis(s, val);
    }

    lemma CachedVisibility(s: nat)
      requires Coherent(c, user, CacheNow()) && s in vis && s in c.defs
      ensures vis[s] == Vis(c.defs[s], c, V()).val && Backed(c, tri, Vis(c.defs[s], c, V()).seen)
    {
      assert VisOk(c, V(), CacheNow(), s);
    }

    /** Keep a visibility that was just computed. */
    method StoreVis(s: nat, val: int)
      requires Valid() && s in c.defs && val == Vis(c.defs[s], c, V()).val && Backed(c, tri, Vis(c.defs[s], c, V()).seen)
      modifies `vis
      ensures Valid() && vis == old(vis)[s := val]
    {
      hide Vis, Tri, Acyclic, Depends, Truth;
      vis := vis[s := val];
      forall t | t in vis ensures VisOk(c, V(), CacheNow(), t) { assert t != s ==> VisOk(c, V(), old(CacheNow()), t); }
      forall t | t in tri ensures TriOk(c, user, V(), CacheNow(), t) { assert TriOk(c, user, V(), old(CacheNow()), t); }
    }

    /** Keep a value that was just computed. */
    method StoreTri(s: nat, val: int)
      requires Valid() && s in c.defs && s in vis && val == Val(V(), s)
      requires Backed(c, tri, Tri(c.defs[s], c, UserOf(user, s), V()).seen)
      modifies `tri
      ensures Valid() && tri == old(tri)[s := val]
    {
      hide Vis, Tri, Acyclic, Depends, Truth;
      tri := tri[s := val];
      forall t | t in vis ensures VisOk(c, V(), CacheNow(), t) { assert VisOk(c, V(), old(CacheNow()), t); }
      forall t | t in tri ensures TriOk(c, user, V(), CacheNow(), t) { assert t != s ==> TriOk(c, user, V(), old(CacheNow()), t); }
    }

    /** The loop over the defaults. */
    method DefaultValue(s: nat) returns (val: int)
      requires Valid() && s in c.defs
      modifies `vis, `tri
      ensures Valid() && Grown(old(CacheNow()), CacheNow())
      ensures val == Defaults(c.defs[s].defaults, V()).val && Backed(c, tri, Defaults(c.defs[s].defaults, V()).seen)
      decreases s, 1, 0
    {
      var ds := c.defs[s].defaults;
      AllBelow(s);
      hide Acyclic, Depends, Coherent, Truth, Below;
      val := 0;
      var i := 0;
      ghost var q: set<nat> := {};
      assert ds[0..] == ds;
      while i < |ds|
        invariant 0 <= i <= |ds| && Valid() && Grown(old(CacheNow()), CacheNow()) && val == 0
        invariant Defaults(ds, V()).val == Defaults(ds[i..], V()).val && Backed(c, tri, q)
        invariant Defaults(ds, V()).seen == q + Defaults(ds[i..], V()).seen
      {
        assert ds[i..][0] == ds[i] && ds[i..][1..] == ds[i + 1..];
        ghost var t0 := tri;
        var cond := ExprValue(ds[i].1, s);
        StillBacked(t0, tri, q);
        if cond != 0 {
          ghost var t1 := tri;
          val := ExprValue(ds[i].0, s);
          StillBacked(t1, tri, q);
          StillBacked(t1, tri, Eval(ds[i].1, V()).seen);
          val := Min(val, cond);
          return;
        }
        q := q + Eval(ds[i].1, V()).seen;
        i := i + 1;
      }
      assert ds[i..] == [];
    }

    /** What a symbol gets without a user value. */
    method FallbackValue(s: nat) returns (val: int)
      requires Valid() && s in c.defs
      modifies `vis, `tri
      ensures Valid() && Grown(old(CacheNow()), CacheNow())
      ensures val == Fallback(c.defs[s], V()).val && Backed(c, tri, Fallback(c.defs[s], V()).seen)
      decreases s, 2, 0
    {
      var d := c.defs[s];
      AllBelow(s);
      hide Acyclic, Depends, Coherent, Truth, Below;
      val := DefaultValue(s);
      ghost var t0 := tri;
      var weak := ExprValue(d.weakRevDep, s);
      StillBacked(t0, tri, Defaults(d.defaults, V()).seen);
      if weak != 0 {
        ghost var t1 := tri;
        var direct := ExprValue(d.directDep, s);
        StillBacked(t1, tri, Defaults(d.defaults, V()).seen + Eval(d.weakRevDep, V()).seen);
        if direct != 0 { val := Max(weak, val); }
      }
    }

    /** The user value capped by the visibility, or the fallback. */
    method ChooseValue(s: nat) returns (val: int)
      requires Valid() && s in c.defs
      modifies `vis, `tri
      ensures Valid() && Grown(old(CacheNow()), CacheNow()) && s in vis
      ensures val == Chosen(c.defs[s], c, UserOf(user, s), V()).val
      ensures Backed(c, tri, Chosen(c.defs[s], c, UserOf(user, s), V()).seen)
      decreases s, 3, 0
    {
      hide Acyclic, Depends, Coherent, Truth, Vis, Fallback;
      var v := Visibility(s);
      if v != 0 && s in user { return Min(user[s], v); }
      ghost var t0 := tri;
      val := FallbackValue(s);
      StillBacked(t0, tri, Vis(c.defs[s], c, V()).seen);
    }

    /** Symbol.tri_value; symbols without a definition have a fixed value. */
    method TriValue(s: nat) returns (val: int)
      requires Valid()
      modifies `vis, `tri
      ensures Valid() && Grown(old(CacheNow()), CacheNow()) && val == Val(V(), s) && (s in c.defs ==> s in tri)
      decreases if s in c.defs then s else -1, 4, 0
    {
      hide Acyclic, Depends, Coherent, Truth, Chosen, Selected, Tri;
      TruthSolves(c, user, s);
      if s !in c.defs { return if s in c.constants then c.constants[s] else 0; }
      if s in tri {
        CachedValue(s);
        return tri[s];
      }
      val := ChooseValue(s);
      val := SelectValue(s, val, Chosen(c.defs[s], c, UserOf(user, s), V()).seen);
      val := PromoteValue(s, val);
      StoreTri(s, val);
    }

    lemma CachedValue(s: nat)
      requires Coherent(c, user, CacheNow()) && s in tri
      ensures tri[s] == Val(V(), s)
    {
      assert TriOk(c, user, V(), CacheNow(), s);
    }

    /** Selects take precedence over what was chosen. */
    method SelectValue(s: nat, chosen: int, ghost q: set<nat>) returns (val: int)
      requires Valid() && s in c.defs && Backed(c, tri, q)
      requires chosen == Chosen(c.defs[s], c, UserOf(user, s), V()).val && q == Chosen(c.defs[s], c, UserOf(user, s), V()).seen
      modifies `vis, `tri
      ensures Valid() && Grown(old(CacheNow()), CacheNow())
      ensures val == Selected(c.defs[s], c, UserOf(user, s), V()).val
      ensures Backed(c, tri, Selected(c.defs[s], c, UserOf(user, s), V()).seen)
      decreases s, 2, 0
    {
      var d := c.defs[s];
      AllBelow(s);
      hide Acyclic, Depends, Coherent, Truth, Below, Chosen;
      val := chosen;
      ghost var t0 := tri;
      var rev := ExprValue(d.revDep, s);
      StillBacked(t0, tri, q);
      if rev != 0 {
        ghost var t1 := tri;
        var _ := ExprValue(d.directDep, s);   // compared with rev only to warn about unmet dependencies
        StillBacked(t1, tri, q + Eval(d.revDep, V()).seen);
        val := Max(rev, val);
      }
    }

    /** m becomes y for bools, and for symbols implied to y. */
    method PromoteValue(s: nat, selected: int) returns (val: int)
      requires Valid() && s in c.defs && selected == Selected(c.defs[s], c, UserOf(user, s), V()).val
      requires Backed(c, tri, Selected(c.defs[s], c, UserOf(user, s), V()).seen)
      modifies `vis, `tri
      ensures Valid() && Grown(old(CacheNow()), CacheNow())
      ensures val == Tri(c.defs[s], c, UserOf(user, s), V()).val && Backed(c, tri, Tri(c.defs[s], c, UserOf(user, s), V()).seen)
      decreases s, 2, 0
    {
      var d := c.defs[s];
      AllBelow(s);
      hide Acyclic, Depends, Coherent, Truth, Below, Selected;
      val := selected;
      if val == 1 {
        ghost var q, t0 := Selected(d, c, UserOf(user, s), V()).seen, tri;
        var isBool := TypeIsBool(s);
        StillBacked(t0, tri, q);
        if isBool { return 2; }
        ghost var t1 := tri;
        var weak := ExprValue(d.weakRevDep, s);
        StillBacked(t1, tri, q + IsBool(d, c, V()).1);
        if weak == 2 { val := 2; }
      }
    }
  }
}
