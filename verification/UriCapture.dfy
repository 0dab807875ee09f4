/** When the `let`s of an expanded `uri!` call capture names in later arguments. */
module UriCapture {
  import opened Options
  import opened UriMacro
  import opened UriExpand

  /** What the caller's names mean. */
  type Env = string -> int

  /** An argument bound to a name. */
  datatype Bind<E> = Bind(name: string, expr: E)

  // ---------------------------------------------------------------- what an expansion evaluates

  /** The bindings of an expansion; the type check for an ignored query argument binds nothing. */
  function Binds<E, T>(bs: seq<Binding<E, T>>): seq<Bind<E>>
  {
    if bs == [] then [] else (if bs[0].Let? then [Bind(bs[0].ident, bs[0].expr)] else []) + Binds(bs[1..])
  }

  /** The arguments of an expansion that are used where they stand, behind all bindings. */
  function Raws<E>(parts: seq<PathArg<E>>): seq<E>
  {
    if parts == [] then [] else (if parts[0].Raw? then [parts[0].expr] else []) + Raws(parts[1..])
  }

  function PathParts<E>(path: PathArgs<E>): seq<PathArg<E>> { if path.StaticPath? then [] else path.parts }

  /** What the names in an argument mean behind the first `n` bindings. Each binding's temporary has the
      parameter's name but the span of the caller's expression, so later arguments can see it. */
  function Scope<E>(bs: seq<Bind<E>>, n: nat, env: Env, eval: (E, Env) -> int): Env
    requires n <= |bs|
  {
    if n == 0 then env
    else
      var before := Scope(bs, n - 1, env, eval);
      x => if x == bs[n - 1].name then eval(bs[n - 1].expr, before) else before(x)
  }

  /** Every argument, bound or ignored, has the value it has where the call is written. */
  ghost predicate AsWritten<E>(bs: seq<Bind<E>>, raws: seq<E>, eval: (E, Env) -> int, env: Env)
  {
    && (forall k :: 0 <= k < |bs| ==> eval(bs[k].expr, Scope(bs, k, env, eval)) == eval(bs[k].expr, env))
    && (forall k :: 0 <= k < |raws| ==> eval(raws[k], Scope(bs, |bs|, env, eval)) == eval(raws[k], env))
  }

  // ---------------------------------------------------------------- what a call says

  /** The named parameters that are given an expression, in route order. */
  function Given<E>(params: seq<Dyn>, exprs: seq<ArgExpr<E>>): seq<Bind<E>>
    requires |exprs| == |params|
  {
    if params == [] then []
    else (if !IsWild(params[0]) && exprs[0].Expr? then [Bind(params[0].name, exprs[0].expr)] else [])
         + Given(params[1..], exprs[1..])
  }

  /** The arguments given for ignored parameters. */
  function ForIgnored<E>(params: seq<Dyn>, exprs: seq<ArgExpr<E>>): seq<E>
    requires |exprs| == |params|
  {
    if params == [] then []
    else (if IsWild(params[0]) && exprs[0].Expr? then [exprs[0].expr] else []) + ForIgnored(params[1..], exprs[1..])
  }

  /** No argument mentions the name of a parameter given before it, and no ignored one that of any given. */
  ghost predicate CaptureFree<E>(given: seq<Bind<E>>, ignored: seq<E>, mentions: E -> set<string>)
  {
    && (forall i, k :: 0 <= i < k < |given| ==> given[i].name !in mentions(given[k].expr))
    && (forall i, k :: 0 <= i < |given| && 0 <= k < |ignored| ==> given[i].name !in mentions(ignored[k]))
  }

  /** The meaning of an expression depends on the names it mentions alone. */
  ghost predicate Respects<E(!new)>(eval: (E, Env) -> int, mentions: E -> set<string>)
  {
    forall e: E, env: Env, env': Env ::
      (forall x :: x in mentions(e) ==> env(x) == env'(x)) ==> eval(e, env) == eval(e, env')
  }

  // ---------------------------------------------------------------- capture

  lemma {:induction false} ScopeOutside<E>(bs: seq<Bind<E>>, n: nat, env: Env, eval: (E, Env) -> int, x: string)
    requires n <= |bs| && forall i :: 0 <= i < n ==> bs[i].name != x
    ensures Scope(bs, n, env, eval)(x) == env(x)
  {
    if n > 0 {
      ScopeOutside(bs, n - 1, env, eval, x);
    }
  }

  lemma UncapturedIsAsWritten<E(!new)>(bs: seq<Bind<E>>, n: nat, env: Env, eval: (E, Env) -> int,
                                       mentions: E -> set<string>, e: E)
    requires n <= |bs| && Respects(eval, mentions) && forall i :: 0 <= i < n ==> bs[i].name !in mentions(e)
    ensures eval(e, Scope(bs, n, env, eval)) == eval(e, env)
  {
    forall x | x in mentions(e) ensures Scope(bs, n, env, eval)(x) == env(x) {
      ScopeOutside(bs, n, env, eval, x);
    }
  }

  /** An expression's value is one more than that of `x`, if it mentions `x`. */
  function Probe<E>(x: string, mentions: E -> set<string>): (E, Env) -> int
  {
    (e, env: Env) => if x in mentions(e) then 1 + env(x) else 1
  }

  function Zero(): Env { x => 0 }

  lemma {:induction false} ProbedScope<E>(bs: seq<Bind<E>>, n: nat, mentions: E -> set<string>, x: string)
    requires n <= |bs|
    ensures var v := Scope(bs, n, Zero(), Probe(x, mentions))(x);
            v >= 0 && ((exists i :: 0 <= i < n && bs[i].name == x) ==> v > 0)
  {
    if n > 0 {
      ProbedScope(bs, n - 1, mentions, x);
    }
  }

  lemma CapturedDiffers<E(!new)>(bs: seq<Bind<E>>, i: nat, n: nat, mentions: E -> set<string>, e: E)
    requires i < n <= |bs| && bs[i].name in mentions(e)
    ensures var eval := Probe(bs[i].name, mentions);
            Respects(eval, mentions) && eval(e, Scope(bs, n, Zero(), eval)) != eval(e, Zero())
  {
    ProbedScope(bs, n, mentions, bs[i].name);
  }

  /** Arguments have the values written, whatever expressions and names mean, exactly without captures. */
  lemma AsWrittenIff<E(!new)>(bs: seq<Bind<E>>, raws: seq<E>, mentions: E -> set<string>)
    ensures (forall eval: (E, Env) -> int, env: Env :: Respects(eval, mentions) ==> AsWritten(bs, raws, eval, env))
            <==> CaptureFree(bs, raws, mentions)
  {
    if CaptureFree(bs, raws, mentions) {
      forall eval: (E, Env) -> int, env: Env | Respects(eval, mentions) ensures AsWritten(bs, raws, eval, env) {
        forall k | 0 <= k < |bs| ensures eval(bs[k].expr, Scope(bs, k, env, eval)) == eval(bs[k].expr, env) {
          UncapturedIsAsWritten(bs, k, env, eval, mentions, bs[k].expr);
        }
        forall k | 0 <= k < |raws| ensures eval(raws[k], Scope(bs, |bs|, env, eval)) == eval(raws[k], env) {
          UncapturedIsAsWritten(bs, |bs|, env, eval, mentions, raws[k]);
        }
      }
    } else if i, k :| 0 <= i < k < |bs| && bs[i].name in mentions(bs[k].expr) {
      CapturedDiffers(bs, i, k, mentions, bs[k].expr);
      assert !AsWritten(bs, raws, Probe(bs[i].name, mentions), Zero());
    } else {
      var i, k :| 0 <= i < |bs| && 0 <= k < |raws| && bs[i].name in mentions(raws[k]);
      CapturedDiffers(bs, i, |bs|, mentions, raws[k]);
      assert !AsWritten(bs, raws, Probe(bs[i].name, mentions), Zero());
    }
  }

  // ---------------------------------------------------------------- from calls to expansions

  lemma {:induction false} BindsConcat<E, T>(a: seq<Binding<E, T>>, b: seq<Binding<E, T>>)
    ensures Binds(a + b) == Binds(a) + Binds(b)
  {
    if a == [] {
      assert a + b == b;
    } else {
      assert a + b == [a[0]] + (a[1..] + b) && a == [a[0]] + a[1..];
      ConsBinds(a[0], a[1..] + b);
      ConsBinds(a[0], a[1..]);
      BindsConcat(a[1..], b);
    }
  }

  lemma {:induction false} GivenConcat<E>(ds: seq<Dyn>, es: seq<Dyn>, xs: seq<ArgExpr<E>>, ys: seq<ArgExpr<E>>)
    requires |ds| == |xs| && |es| == |ys|
    ensures Given(ds + es, xs + ys) == Given(ds, xs) + Given(es, ys)
    ensures ForIgnored(ds + es, xs + ys) == ForIgnored(ds, xs) + ForIgnored(es, ys)
  {
    if ds == [] {
      assert ds + es == es && xs + ys == ys;
    } else {
      assert ds + es == [ds[0]] + (ds[1..] + es) && ds == [ds[0]] + ds[1..];
      assert (xs + ys)[1..] == xs[1..] + ys && (xs + ys)[0] == xs[0];
      ConsGiven(ds[0], ds[1..] + es, xs + ys);
      ConsGiven(ds[0], ds[1..], xs);
      GivenConcat(ds[1..], es, xs[1..], ys);
    }
  }

  /** As a path's parameters are parsed: `_` is ignored and nothing else is. */
  ghost predicate PathFormed(ps: seq<Param>)
  {
    forall i :: 0 <= i < |ps| && !ps[i].Static? ==> (ps[i].Ignored? <==> IsWild(ps[i].dyn))
  }

  ghost predicate QueryFormed(ps: seq<Param>)
  {
    forall i :: 0 <= i < |ps| ==> ps[i].Static? || (!ps[i].Ignored? && !IsWild(ps[i].dyn))
  }

  /** A list's first binding or part, and those of the rest. */
  lemma ConsBinds<E, T>(b: Binding<E, T>, bs: seq<Binding<E, T>>)
    ensures Binds([b] + bs) == (if b.Let? then [Bind(b.ident, b.expr)] else []) + Binds(bs)
  {
    assert ([b] + bs)[1..] == bs;
  }

  lemma ConsRaws<E>(p: PathArg<E>, ps: seq<PathArg<E>>)
    ensures Raws([p] + ps) == (if p.Raw? then [p.expr] else []) + Raws(ps)
  {
    assert ([p] + ps)[1..] == ps;
  }

  lemma ConsGiven<E>(d: Dyn, ds: seq<Dyn>, xs: seq<ArgExpr<E>>)
    requires |xs| == |ds| + 1
    ensures Given([d] + ds, xs) ==
            (if !IsWild(d) && xs[0].Expr? then [Bind(d.name, xs[0].expr)] else []) + Given(ds, xs[1..])
    ensures ForIgnored([d] + ds, xs) ==
            (if IsWild(d) && xs[0].Expr? then [xs[0].expr] else []) + ForIgnored(ds, xs[1..])
  {
    assert ([d] + ds)[1..] == ds;
  }

  /** One path parameter's own binding and part are what the call gives it. */
  lemma PathHeadBinds<E, T>(ps: seq<Param>, exprs: seq<E>, xs: seq<ArgExpr<E>>, args: seq<FnArg<T>>,
                            bs: seq<Binding<E, T>>, parts: seq<PathArg<E>>)
    requires ps != [] && PathFormed(ps) && PathMove(ps[0], exprs, args).Some?
    requires |xs| == |exprs| == |DynPath(ps)| && forall i :: 0 <= i < |xs| ==> xs[i] == Expr(exprs[i])
    requires ps[0].Dynamic? || ps[0].Guard? ==> args != [] && args[0].ident == ps[0].dyn.name
    ensures var m := PathMove(ps[0], exprs, args).value;
            && |m.parts| == 1 && m.exprs == (if ps[0].Static? then 0 else 1)
            && |xs[m.exprs..]| == |DynPath(ps[1..])|
            && (Binds(bs) == Given(DynPath(ps[1..]), xs[m.exprs..]) ==>
                  Binds(m.bindings + bs) == Given(DynPath(ps), xs))
            && (Raws(parts) == ForIgnored(DynPath(ps[1..]), xs[m.exprs..]) ==>
                  Raws(m.parts + parts) == ForIgnored(DynPath(ps), xs))
  {
    var m := PathMove(ps[0], exprs, args).value;
    ConsRaws(m.parts[0], parts);
    if ps[0].Static? {
      assert xs[0..] == xs && [] + bs == bs;
      assert DynPath(ps) == DynPath(ps[1..]);
    } else {
      ConsGiven(ps[0].dyn, DynPath(ps[1..]), xs);
      if m.bindings == [] {
        assert m.bindings + bs == bs;
      } else {
        ConsBinds(m.bindings[0], bs);
      }
    }
  }

  lemma {:induction false} PathBinds<E, T>(ps: seq<Param>, exprs: seq<E>, xs: seq<ArgExpr<E>>, args: seq<FnArg<T>>,
                                           from: nat)
    requires PathFormed(ps) && Aligned(DynQuery(ps), args, from)
    requires |xs| == |exprs| == |DynPath(ps)| && forall i :: 0 <= i < |xs| ==> xs[i] == Expr(exprs[i])
    requires WalkPath(ps, exprs, args[from..]).Done?
    ensures var w := WalkPath(ps, exprs, args[from..]);
            Binds(w.bindings) == Given(DynPath(ps), xs) && Raws(w.parts) == ForIgnored(DynPath(ps), xs)
    decreases |ps|
  {
    if ps != [] {
      AlignedTail(ps, args, from);
      var m := PathMove(ps[0], exprs, args[from..]).value;
      assert args[from..][m.args..] == args[from + m.args..];
      var tail := WalkPath(ps[1..], exprs[m.exprs..], args[from + m.args..]);
      PathHeadBinds(ps, exprs, xs, args[from..], tail.bindings, tail.parts);
      PathBinds(ps[1..], exprs[m.exprs..], xs[m.exprs..], args, from + m.args);
    }
  }

  /** So is one query parameter's. */
  lemma QueryHeadBinds<E, T>(ps: seq<Param>, exprs: seq<ArgExpr<E>>, args: seq<FnArg<T>>, bs: seq<Binding<E, T>>)
    requires ps != [] && QueryFormed(ps) && |exprs| == |DynQuery(ps)| && QueryMove(ps[0], exprs, args).Some?
    requires !ps[0].Static? ==> args != [] && args[0].ident == ps[0].dyn.name
    ensures var m := QueryMove(ps[0], exprs, args).value;
            && |exprs[m.exprs..]| == |DynQuery(ps[1..])|
            && (Binds(bs) == Given(DynQuery(ps[1..]), exprs[m.exprs..]) ==>
                  Binds(m.bindings + bs) == Given(DynQuery(ps), exprs))
            && (ForIgnored(DynQuery(ps[1..]), exprs[m.exprs..]) == [] ==> ForIgnored(DynQuery(ps), exprs) == [])
  {
    var m := QueryMove(ps[0], exprs, args).value;
    assert !ps[0].Ignored?;
    if ps[0].Static? {
      assert exprs[0..] == exprs && [] + bs == bs;
      assert DynQuery(ps) == DynQuery(ps[1..]);
    } else {
      ConsGiven(ps[0].dyn, DynQuery(ps[1..]), exprs);
      ConsBinds(m.bindings[0], bs);
    }
  }

  lemma {:induction false} QueryBinds<E, T>(ps: seq<Param>, exprs: seq<ArgExpr<E>>, args: seq<FnArg<T>>, from: nat)
    requires QueryFormed(ps) && Aligned(DynQuery(ps), args, from) && |exprs| == |DynQuery(ps)|
    requires WalkQuery(ps, exprs, args[from..]).Done?
    ensures Binds(WalkQuery(ps, exprs, args[from..]).bindings) == Given(DynQuery(ps), exprs)
    ensures ForIgnored(DynQuery(ps), exprs) == []
    decreases |ps|
  {
    if ps != [] {
      assert !ps[0].Ignored?;
      AlignedTail(ps, args, from);
      var m := QueryMove(ps[0], exprs, args[from..]).value;
      assert args[from..][m.args..] == args[from + m.args..];
      var tail := WalkQuery(ps[1..], exprs[m.exprs..], args[from + m.args..]);
      QueryHeadBinds(ps, exprs, args[from..], tail.bindings);
      QueryBinds(ps[1..], exprs[m.exprs..], args, from + m.args);
    }
  }

  /** An expansion binds what the call gives and uses in place what it gives for ignored parameters. */
  lemma ExpandedBinds<E, T>(u: Internal<E, T>, exprs: seq<ArgExpr<E>>)
    requires WellFormed(u) && HandlerArgs(u) && |exprs| == |AllParams(u)| && !Skipped(exprs[..|DynPath(u.path)|])
    ensures var r := Expansions(u, exprs);
            && r.Expanded? && Binds(r.bindings) == Given(AllParams(u), exprs)
            && Raws(PathParts(r.path)) == ForIgnored(AllParams(u), exprs)
  {
    var n := |DynPath(u.path)|;
    var forPath, forQuery := exprs[..n], exprs[n..];
    ExpectsHold(u, exprs);
    PathWalkHolds(u, Unwrap(forPath));
    var p := PathWalkOf(u, Unwrap(forPath));
    QueryWalkHolds(u, forQuery, p.args);
    var q := QueryWalkOf(u, forQuery, p.args);
    assert Expansions(u, exprs).bindings == p.bindings + q.bindings;
    BindsConcat(p.bindings, q.bindings);
    assert exprs == forPath + forQuery;
    GivenConcat(DynPath(u.path), DynQuery(u.query), forPath, forQuery);
    if n > 0 {
      assert u.fnArgs[0..] == u.fnArgs;
      PathBinds(u.path, Unwrap(forPath), forPath, u.fnArgs, 0);
    }
    if DynQuery(u.query) != [] {
      QueryBinds(u.query, forQuery, u.fnArgs, |DynQuery(u.path)|);
    }
  }

  /** The arguments of an accepted call have the values they have where the call is written, whatever
      expressions and names mean, exactly if no argument mentions the name of a parameter given before it,
      and none for an ignored parameter that of any given. */
  lemma MeansAsWrittenIff<E(!new), T>(u: Internal<E, T>, exprs: seq<ArgExpr<E>>, mentions: E -> set<string>)
    requires WellFormed(u) && HandlerArgs(u) && |exprs| == |AllParams(u)| && !Skipped(exprs[..|DynPath(u.path)|])
    ensures var r := Expansions(u, exprs);
            && r.Expanded?
            && ((forall eval: (E, Env) -> int, env: Env :: Respects(eval, mentions) ==>
                   AsWritten(Binds(r.bindings), Raws(PathParts(r.path)), eval, env))
                <==> CaptureFree(Given(AllParams(u), exprs), ForIgnored(AllParams(u), exprs), mentions))
  {
    ExpandedBinds(u, exprs);
    AsWrittenIff(Given(AllParams(u), exprs), ForIgnored(AllParams(u), exprs), mentions);
  }

  // ---------------------------------------------------------------- a call that captures

  /** An argument that is a number or a name. */
  datatype Arith = Num(n: int) | Name(x: string)

  function Eval(e: Arith, env: Env): int { match e case Num(n) => n case Name(x) => env(x) }

  /** `uri!(route(id = 1, name = id))` for the route `/<id>/<name>`. */
  function Capturing<T>(ty: T): Internal<Arith, T>
  {
    Internal("/<id>/<name>", [Dynamic(Dyn("id", false)), Dynamic(Dyn("name", false))], None, [],
             [FnArg("id", ty), FnArg("name", ty)],
             NamedArgs([Named("id", Expr(Num(1))), Named("name", Expr(Name("id")))]))
  }

  lemma CapturingParams<T>(ty: T)
    ensures DynPath(Capturing(ty).path) == DynQuery(Capturing(ty).path) == [Dyn("id", false), Dyn("name", false)]
    ensures AllParams(Capturing(ty)) == [Dyn("id", false), Dyn("name", false)]
    ensures Wilds(AllParams(Capturing(ty))) == []
    ensures "id" != "name" && WellFormed(Capturing(ty)) && HandlerArgs(Capturing(ty))
  {
    var ps := Capturing(ty).path;
    assert ps[1..] == [ps[1]] && ps[1..][1..] == [];
    assert |"id"| != |"name"| && "id"[0] != '_' && "name"[0] != '_';
    assert !IsWild(Dyn("id", false)) && !IsWild(Dyn("name", false));
    var ds := [Dyn("id", false), Dyn("name", false)];
    assert ds[1..] == [ds[1]] && ds[1..][1..] == [];
    assert Wilds(ds[1..]) == [];
    assert Capturing(ty).fnArgs[0].ident == "id" && Capturing(ty).fnArgs[1].ident == "name";
  }

  lemma CapturingIsAccepted<T>(ty: T)
    ensures Expected(Capturing(ty)) == Ok([Expr(Num(1)), Expr(Name("id"))])
  {
    var u := Capturing(ty);
    var v := u.(args := UnnamedArgs([Unnamed(Expr(Num(1))), Unnamed(Expr(Name("id")))]));
    CapturingParams(ty);
    assert ArgNames(u.args.args) == DynNames(AllParams(u)) == ["id", "name"];
    assert Positional(v.args.args) == [Expr(Num(1)), Expr(Name("id"))];
    NamedIsPositional(u, v);
    assert AllParams(v) == AllParams(u);
  }

  lemma CapturingBinds<T>(ty: T)
    ensures var r := Expansions(Capturing(ty), [Expr(Num(1)), Expr(Name("id"))]);
            && r.Expanded? && Binds(r.bindings) == [Bind("id", Num(1)), Bind("name", Name("id"))]
            && Raws(PathParts(r.path)) == []
  {
    var u := Capturing(ty);
    var exprs := [Expr(Num(1)), Expr(Name("id"))];
    CapturingParams(ty);
    ExpandedBinds(u, exprs);
    ConsGiven(Dyn("id", false), [Dyn("name", false)], exprs);
    ConsGiven(Dyn("name", false), [], exprs[1..]);
    assert AllParams(u) == [Dyn("id", false)] + [Dyn("name", false)];
    assert [Dyn("name", false)] == [Dyn("name", false)] + [];
  }

  lemma SecondIsFirst(env: Env, x: string, y: string)
    ensures var bs := [Bind(x, Num(1)), Bind(y, Name(x))];
            && Eval(Name(x), Scope(bs, 1, env, Eval)) == 1
            && (AsWritten(bs, [], Eval, env) <==> env(x) == 1)
  {
    var bs := [Bind(x, Num(1)), Bind(y, Name(x))];
    assert Scope(bs, 1, env, Eval)(x) == Eval(Num(1), Scope(bs, 0, env, Eval));
    assert bs[0].expr == Num(1) && bs[1].expr == Name(x);
    assert Eval(bs[1].expr, Scope(bs, 1, env, Eval)) == 1 && Eval(bs[1].expr, env) == env(x);
  }

  /** Whatever the caller's `id` is, the second segment shows the first argument's value, 1. */
  lemma CallCaptures<T>(ty: T, env: Env)
    ensures Expected(Capturing(ty)).Ok?
    ensures var r := Expansions(Capturing(ty), Expected(Capturing(ty)).exprs);
            && r.Expanded? && Binds(r.bindings) == [Bind("id", Num(1)), Bind("name", Name("id"))]
            && Eval(Name("id"), Scope(Binds(r.bindings), 1, env, Eval)) == 1
            && (AsWritten(Binds(r.bindings), Raws(PathParts(r.path)), Eval, env) <==> env("id") == 1)
  {
    CapturingIsAccepted(ty);
    CapturingBinds(ty);
    SecondIsFirst(env, "id", "name");
  }
}
