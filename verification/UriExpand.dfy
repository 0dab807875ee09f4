/** Expansion of a validated `uri!` call into bindings and URI parts. */
module UriExpand {
  import opened Options
  import opened UriMacro

  datatype Part = PathPart | QueryPart

  /** A generated statement: a converted binding, or a type check for an ignored query argument. */
  datatype Binding<E, T> = Let(ident: string, ty: T, part: Part, expr: E) | AssertIgnorable(ty: T)

  datatype PathArg<E> = Literal(text: string) | Bound(ident: string) | Raw(expr: E)

  datatype PathArgs<E> = StaticPath(text: string) | DynamicPath(parts: seq<PathArg<E>>)

  datatype QueryArg = RawQuery(text: string) | NameValue(name: string, ident: string) | Value(ident: string)

  datatype QueryArgs = NoQuery | StaticQuery(text: string) | DynamicQuery(parts: seq<QueryArg>)

  datatype Expansion<E, T> =
    | Expanded(bindings: seq<Binding<E, T>>, path: PathArgs<E>, query: QueryArgs)
    | Diagnostic
    | Panicked

  // ---------------------------------------------------------------- the macro

  /** An iterator consumed from the front. */
  class Cursor<A> {
    var rest: seq<A>

    constructor (items: seq<A>)
      ensures rest == items
    {
      rest := items;
    }

    method Next() returns (r: Option<A>)
      modifies this
      ensures old(rest) == [] ==> r == None && rest == []
      ensures old(rest) != [] ==> r == Some(old(rest)[0]) && rest == old(rest)[1..]
    {
      if rest == [] {
        r := None;
      } else {
        r, rest := Some(rest[0]), rest[1..];
      }
    }
  }

  /** What one parameter contributes, and how many expressions and handler arguments it consumes. */
  datatype Move<B, P> = Move(bindings: seq<B>, parts: seq<P>, exprs: nat, args: nat)

  /** What a list of parameters contributes, and the handler arguments it leaves. */
  datatype Walk<E, T, P> = Panic | Done(bindings: seq<Binding<E, T>>, parts: seq<P>, args: seq<FnArg<T>>)

  function Before<E, T, P>(bs: seq<Binding<E, T>>, parts: seq<P>, w: Walk<E, T, P>): Walk<E, T, P>
  {
    if w.Panic? then w else Done(bs + w.bindings, parts + w.parts, w.args)
  }

  lemma BeforeBefore<E, T, P>(bs: seq<Binding<E, T>>, ps: seq<P>, cs: seq<Binding<E, T>>, qs: seq<P>, w: Walk<E, T, P>)
    ensures Before(bs, ps, Before(cs, qs, w)) == Before(bs + cs, ps + qs, w)
  {
    if w.Done? {
      assert bs + (cs + w.bindings) == (bs + cs) + w.bindings && ps + (qs + w.parts) == (ps + qs) + w.parts;
    }
  }

  /** A path parameter; `None` is a failed `expect`. */
  function PathMove<E, T>(p: Param, exprs: seq<E>, args: seq<FnArg<T>>): (r: Option<Move<Binding<E, T>, PathArg<E>>>)
    ensures r.Some? ==> r.value.exprs <= |exprs| && r.value.args <= |args|
  {
    match p
    case Static(text) => Some(Move([], [Literal(text)], 0, 0))
    case Ignored(_) => if exprs == [] then None else Some(Move([], [Raw(exprs[0])], 1, 0))
    case _ =>
      if exprs == [] || args == [] then None
      else Some(Move([Let(args[0].ident, args[0].ty, PathPart, exprs[0])], [Bound(args[0].ident)], 1, 1))
  }

  function WalkPath<E, T>(ps: seq<Param>, exprs: seq<E>, args: seq<FnArg<T>>): Walk<E, T, PathArg<E>>
    decreases |ps|
  {
    if ps == [] then Done([], [], args)
    else
      match PathMove(ps[0], exprs, args)
      case None => Panic
      case Some(m) => Before(m.bindings, m.parts, WalkPath(ps[1..], exprs[m.exprs..], args[m.args..]))
  }

  /** A query parameter. An ignored argument only leaves a type check behind. */
  function QueryMove<E, T>(p: Param, exprs: seq<ArgExpr<E>>, args: seq<FnArg<T>>):
      (r: Option<Move<Binding<E, T>, QueryArg>>)
    ensures r.Some? ==> r.value.exprs <= |exprs| && r.value.args <= |args|
  {
    match p
    case Static(text) => Some(Move([], [RawQuery(text)], 0, 0))
    case Ignored(_) => None
    case _ =>
      if exprs == [] || args == [] then None
      else
        match exprs[0]
        case Underscore => Some(Move([AssertIgnorable(args[0].ty)], [], 1, 1))
        case Expr(e) =>
          Some(Move([Let(args[0].ident, args[0].ty, QueryPart, e)],
                    [if p.dyn.trailing then Value(args[0].ident) else NameValue(p.dyn.name, args[0].ident)], 1, 1))
  }

  function WalkQuery<E, T>(ps: seq<Param>, exprs: seq<ArgExpr<E>>, args: seq<FnArg<T>>): Walk<E, T, QueryArg>
    decreases |ps|
  {
    if ps == [] then Done([], [], args)
    else
      match QueryMove(ps[0], exprs, args)
      case None => Panic
      case Some(m) => Before(m.bindings, m.parts, WalkQuery(ps[1..], exprs[m.exprs..], args[m.args..]))
  }

  method ExplodePathParam<E, T>(p: Param, exprs: Cursor<E>, args: Cursor<FnArg<T>>)
      returns (r: Option<(seq<Binding<E, T>>, PathArg<E>)>)
    requires exprs as object != args as object
    modifies exprs, args
    ensures var m := PathMove(p, old(exprs.rest), old(args.rest));
            && (r.Some? <==> m.Some?)
            && (m.Some? ==> m.value.bindings == r.value.0 && m.value.parts == [r.value.1] &&
                            exprs.rest == old(exprs.rest)[m.value.exprs..] &&
                            args.rest == old(args.rest)[m.value.args..])
  {
    r := None;
    match p
    case Static(name) =>
      r := Some(([], Literal(name)));
    case Ignored(_) =>
      var expr := exprs.Next();
      if expr.Some? { r := Some(([], Raw(expr.value))); }
    case _ =>
      var arg := args.Next();
      if arg.None? { return; }
      var expr := exprs.Next();
      if expr.None? { return; }
      r := Some(([Let(arg.value.ident, arg.value.ty, PathPart, expr.value)], Bound(arg.value.ident)));
  }

  /** `explode_path`; `None` is a panic. */
  method ExplodePath<E, T>(text: string, ps: seq<Param>, exprs: Cursor<E>, args: Cursor<FnArg<T>>)
      returns (r: Option<(seq<Binding<E, T>>, PathArgs<E>)>)
    requires exprs as object != args as object
    modifies exprs, args
    ensures DynPath(ps) == [] ==> r == Some(([], StaticPath(text))) && args.rest == old(args.rest)
    ensures DynPath(ps) != [] ==>
              var w := WalkPath(ps, old(exprs.rest), old(args.rest));
              if w.Panic? then r == None
              else r == Some((w.bindings, DynamicPath(w.parts))) && args.rest == w.args
  {
    if |DynPath(ps)| == 0 {
      return Some(([], StaticPath(text)));
    }
    var bindings: seq<Binding<E, T>>, parts: seq<PathArg<E>> := [], [];
    assert ps[0..] == ps;
    for i := 0 to |ps|
      invariant WalkPath(ps, old(exprs.rest), old(args.rest)) ==
                Before(bindings, parts, WalkPath(ps[i..], exprs.rest, args.rest))
    {
      assert ps[i..][1..] == ps[i + 1..];
      var next := ExplodePathParam(ps[i], exprs, args);
      if next.None? {
        return None;
      }
      BeforeBefore(bindings, parts, next.value.0, [next.value.1], WalkPath(ps[i + 1..], exprs.rest, args.rest));
      bindings, parts := bindings + next.value.0, parts + [next.value.1];
    }
    assert bindings + [] == bindings && parts + [] == parts;
    r := Some((bindings, DynamicPath(parts)));
  }

  method ExplodeQueryParam<E, T>(p: Param, exprs: Cursor<ArgExpr<E>>, args: Cursor<FnArg<T>>)
      returns (r: Option<(Binding<E, T>, seq<QueryArg>)>, literal: seq<QueryArg>)
    requires exprs as object != args as object
    modifies exprs, args
    ensures var m := QueryMove(p, old(exprs.rest), old(args.rest));
            && (r.None? && literal == [] <==> m.None?)
            && (m.Some? ==> m.value.bindings == (if r.Some? then [r.value.0] else []) &&
                            m.value.parts == literal + (if r.Some? then r.value.1 else []) &&
                            exprs.rest == old(exprs.rest)[m.value.exprs..] &&
                            args.rest == old(args.rest)[m.value.args..])
  {
    r, literal := None, [];
    match p
    case Static(source) =>
      literal := [RawQuery(source)];
    case Ignored(_) =>
    case _ =>
      var arg := args.Next();
      if arg.None? { return; }
      var argExpr := exprs.Next();
      if argExpr.None? { return; }
      match argExpr.value
      case Underscore =>
        r := Some((AssertIgnorable(arg.value.ty), []));
      case Expr(expr) =>
        var let_ := Let(arg.value.ident, arg.value.ty, QueryPart, expr);
        if p.dyn.trailing {
          r := Some((let_, [Value(arg.value.ident)]));
        } else {
          r := Some((let_, [NameValue(p.dyn.name, arg.value.ident)]));
        }
  }

  /** `explode_query`; `None` is a panic. */
  method ExplodeQuery<E, T>(text: Option<string>, ps: seq<Param>, exprs: Cursor<ArgExpr<E>>, args: Cursor<FnArg<T>>)
      returns (r: Option<(seq<Binding<E, T>>, QueryArgs)>)
    requires exprs as object != args as object
    modifies exprs, args
    ensures text.None? ==> r == Some(([], NoQuery))
    ensures text.Some? && DynQuery(ps) == [] ==> r == Some(([], StaticQuery(text.value)))
    ensures text.Some? && DynQuery(ps) != [] ==>
              var w := WalkQuery(ps, old(exprs.rest), old(args.rest));
              r == if w.Panic? then None else Some((w.bindings, DynamicQuery(w.parts)))
  {
    if text.None? {
      return Some(([], NoQuery));
    }
    if |DynQuery(ps)| == 0 {
      return Some(([], StaticQuery(text.value)));
    }
    var bindings: seq<Binding<E, T>>, parts: seq<QueryArg> := [], [];
    assert ps[0..] == ps;
    for i := 0 to |ps|
      invariant WalkQuery(ps, old(exprs.rest), old(args.rest)) ==
                Before(bindings, parts, WalkQuery(ps[i..], exprs.rest, args.rest))
    {
      assert ps[i..][1..] == ps[i + 1..];
      var next, literal := ExplodeQueryParam(ps[i], exprs, args);
      if next.None? && literal == [] {
        return None;
      }
      var bs := if next.Some? then [next.value.0] else [];
      var qs := literal + if next.Some? then next.value.1 else [];
      BeforeBefore(bindings, parts, bs, qs, WalkQuery(ps[i + 1..], exprs.rest, args.rest));
      bindings, parts := bindings + bs, parts + qs;
    }
    assert bindings + [] == bindings && parts + [] == parts;
    r := Some((bindings, DynamicQuery(parts)));
  }

  predicate Skipped<E>(exprs: seq<ArgExpr<E>>) { exists i :: 0 <= i < |exprs| && exprs[i].Underscore? }

  function Unwrap<E>(exprs: seq<ArgExpr<E>>): (r: seq<E>)
    requires !Skipped(exprs)
    ensures |r| == |exprs| && forall i :: 0 <= i < |r| ==> exprs[i] == Expr(r[i])
  {
    seq(|exprs|, i requires 0 <= i < |exprs| => exprs[i].expr)
  }

  function PathWalkOf<E, T>(u: Internal<E, T>, exprs: seq<E>): Walk<E, T, PathArg<E>>
  {
    if DynPath(u.path) == [] then Done([], [], u.fnArgs) else WalkPath(u.path, exprs, u.fnArgs)
  }

  function QueryWalkOf<E, T>(u: Internal<E, T>, exprs: seq<ArgExpr<E>>, args: seq<FnArg<T>>): Walk<E, T, QueryArg>
  {
    if u.queryText.None? || DynQuery(u.query) == [] then Done([], [], args) else WalkQuery(u.query, exprs, args)
  }

  /** Which expressions belong to the path. */
  function Split<E, T>(u: Internal<E, T>, exprs: seq<ArgExpr<E>>): (n: nat)
    ensures n <= |exprs|
  {
    if |DynPath(u.path)| <= |exprs| then |DynPath(u.path)| else |exprs|
  }

  function PartsOf<E, T>(u: Internal<E, T>, forPath: seq<E>, forQuery: seq<ArgExpr<E>>): Expansion<E, T>
  {
    var p := PathWalkOf(u, forPath);
    if p.Panic? then Panicked
    else
      var q := QueryWalkOf(u, forQuery, p.args);
      if q.Panic? then Panicked
      else Expanded(p.bindings + q.bindings,
                    if DynPath(u.path) == [] then StaticPath(u.pathText) else DynamicPath(p.parts),
                    match u.queryText
                    case None => NoQuery
                    case Some(text) => if DynQuery(u.query) == [] then StaticQuery(text) else DynamicQuery(q.parts))
  }

  function Expansions<E, T>(u: Internal<E, T>, exprs: seq<ArgExpr<E>>): Expansion<E, T>
  {
    var n := Split(u, exprs);
    if Skipped(exprs[..n]) then Diagnostic else PartsOf(u, Unwrap(exprs[..n]), exprs[n..])
  }

  /** Is an expression of the path ignored? */
  method HasSkipped<E>(exprs: seq<ArgExpr<E>>) returns (skipped: bool)
    ensures skipped <==> Skipped(exprs)
  {
    for i := 0 to |exprs|
      invariant forall k :: 0 <= k < i ==> exprs[k].Expr?
    {
      if exprs[i].Underscore? {
        return true;
      }
    }
    return false;
  }

  /** `_uri_internal_macro`. */
  method Expand<E, T>(u: Internal<E, T>) returns (r: Expansion<E, T>)
    requires OneKind(u.args)
    ensures r == match Expected(u) case Ok(exprs) => Expansions(u, exprs) case _ => Diagnostic
  {
    var v := Validate(u);
    if !v.Ok? {
      return Diagnostic;
    }
    var n := Split(u, v.exprs);
    var skipped := HasSkipped(v.exprs[..n]);
    if skipped {
      return Diagnostic;
    }
    r := ExpandParts(u, Unwrap(v.exprs[..n]), v.exprs[n..]);
  }

  /** The two walks, which share the handler's arguments. */
  method ExpandParts<E, T>(u: Internal<E, T>, forPath: seq<E>, forQuery: seq<ArgExpr<E>>) returns (r: Expansion<E, T>)
    ensures r == PartsOf(u, forPath, forQuery)
  {
    var pathExprs := new Cursor(forPath);
    var queryExprs := new Cursor(forQuery);
    var fnArgs := new Cursor(u.fnArgs);
    var path := ExplodePath(u.pathText, u.path, pathExprs, fnArgs);
    if path.None? {
      return Panicked;
    }
    var query := ExplodeQuery(u.queryText, u.query, queryExprs, fnArgs);
    if query.None? {
      return Panicked;
    }
    assert query.value.0 + [] == query.value.0;
    r := Expanded(path.value.0 + query.value.0, path.value.1, query.value.1);
  }

  // ---------------------------------------------------------------- no failed expect

  /** The path's `expect`s fire exactly when expressions or handler arguments run short. */
  lemma {:induction false} PathPanics<E, T>(ps: seq<Param>, exprs: seq<E>, args: seq<FnArg<T>>)
    ensures var w := WalkPath(ps, exprs, args);
            && (w.Panic? <==> |exprs| < |DynPath(ps)| || |args| < |DynQuery(ps)|)
            && (w.Done? ==> w.args == args[|DynQuery(ps)|..])
    decreases |ps|
  {
    if ps != [] {
      var m := PathMove(ps[0], exprs, args);
      assert |DynPath(ps)| == |DynPath(ps[1..])| + if ps[0].Static? then 0 else 1;
      assert |DynQuery(ps)| == |DynQuery(ps[1..])| + if ps[0].Dynamic? || ps[0].Guard? then 1 else 0;
      if m.Some? {
        var n := m.value.args;
        PathPanics(ps[1..], exprs[m.value.exprs..], args[n..]);
        assert |args| >= |DynQuery(ps)| ==> args[n..][|DynQuery(ps)| - n..] == args[|DynQuery(ps)|..];
      }
    }
  }

  lemma {:induction false} PathBindings<E, T>(ps: seq<Param>, exprs: seq<E>, args: seq<FnArg<T>>)
    requires WalkPath(ps, exprs, args).Done?
    ensures var w := WalkPath(ps, exprs, args);
            |w.bindings| == |DynQuery(ps)| && InStep(w.bindings, args)
    decreases |ps|
  {
    if ps != [] {
      var m := PathMove(ps[0], exprs, args).value;
      PathBindings(ps[1..], exprs[m.exprs..], args[m.args..]);
      StepOn(m.bindings, WalkPath(ps[1..], exprs[m.exprs..], args[m.args..]).bindings, args, m.args);
    }
  }

  /** Bindings go with handler arguments one to one, in order. */
  ghost predicate InStep<E, T>(bs: seq<Binding<E, T>>, args: seq<FnArg<T>>)
  {
    |bs| <= |args| && forall i :: 0 <= i < |bs| ==>
                        bs[i].ty == args[i].ty && (bs[i].Let? ==> bs[i].ident == args[i].ident)
  }

  lemma StepOn<E, T>(bs: seq<Binding<E, T>>, more: seq<Binding<E, T>>, args: seq<FnArg<T>>, n: nat)
    requires |bs| == n <= |args| && InStep(bs, args) && InStep(more, args[n..])
    ensures InStep(bs + more, args)
  {
    assert forall i :: n <= i < |args| ==> args[i] == args[n..][i - n];
  }

  lemma {:induction false} QueryPanics<E, T>(ps: seq<Param>, exprs: seq<ArgExpr<E>>, args: seq<FnArg<T>>)
    requires forall i :: 0 <= i < |ps| ==> !ps[i].Ignored?
    ensures var w := WalkQuery(ps, exprs, args);
            && (w.Panic? <==> |exprs| < |DynQuery(ps)| || |args| < |DynQuery(ps)|)
    decreases |ps|
  {
    if ps != [] {
      var m := QueryMove(ps[0], exprs, args);
      if m.Some? {
        QueryPanics(ps[1..], exprs[m.value.exprs..], args[m.value.args..]);
      }
    }
  }

  lemma {:induction false} QueryBindings<E, T>(ps: seq<Param>, exprs: seq<ArgExpr<E>>, args: seq<FnArg<T>>)
    requires WalkQuery(ps, exprs, args).Done?
    ensures var w := WalkQuery(ps, exprs, args);
            |w.bindings| == |DynQuery(ps)| && InStep(w.bindings, args)
    decreases |ps|
  {
    if ps != [] {
      var m := QueryMove(ps[0], exprs, args).value;
      QueryBindings(ps[1..], exprs[m.exprs..], args[m.args..]);
      StepOn(m.bindings, WalkQuery(ps[1..], exprs[m.exprs..], args[m.args..]).bindings, args, m.args);
    }
  }

  lemma {:induction false} NamedParamsAreDynamic(ps: seq<Param>)
    ensures |DynQuery(ps)| <= |DynPath(ps)|
  {
    if ps != [] {
      NamedParamsAreDynamic(ps[1..]);
    }
  }

  lemma PathWalkHolds<E, T>(u: Internal<E, T>, exprs: seq<E>)
    requires |exprs| == |DynPath(u.path)|
    ensures var w := PathWalkOf(u, exprs);
            && (w.Panic? <==> |u.fnArgs| < |DynQuery(u.path)|)
            && (w.Done? ==> w.args == u.fnArgs[|DynQuery(u.path)|..] && |w.bindings| == |DynQuery(u.path)| &&
                            InStep(w.bindings, u.fnArgs))
  {
    NamedParamsAreDynamic(u.path);
    PathPanics(u.path, exprs, u.fnArgs);
    if PathWalkOf(u, exprs).Done? && DynPath(u.path) != [] {
      PathBindings(u.path, exprs, u.fnArgs);
    }
  }

  lemma QueryWalkHolds<E, T>(u: Internal<E, T>, exprs: seq<ArgExpr<E>>, args: seq<FnArg<T>>)
    requires WellFormed(u) && |exprs| == |DynQuery(u.query)|
    ensures var w := QueryWalkOf(u, exprs, args);
            && (w.Panic? <==> |args| < |DynQuery(u.query)|)
            && (w.Done? ==> |w.bindings| == |DynQuery(u.query)| && InStep(w.bindings, args))
  {
    QueryPanics(u.query, exprs, args);
    if QueryWalkOf(u, exprs, args).Done? && u.queryText.Some? && DynQuery(u.query) != [] {
      QueryBindings(u.query, exprs, args);
    }
  }

  /** Once arguments are accepted, with one expression per parameter, no `expect` fires exactly when there
      is a handler argument for every named parameter, however many query arguments are skipped. */
  lemma ExpectsHold<E, T>(u: Internal<E, T>, exprs: seq<ArgExpr<E>>)
    requires WellFormed(u) && |exprs| == |AllParams(u)| && !Skipped(exprs[..|DynPath(u.path)|])
    ensures Expansions(u, exprs) == Panicked <==> |u.fnArgs| < |DynQuery(u.path)| + |DynQuery(u.query)|
    ensures Expansions(u, exprs) != Panicked ==>
              Expansions(u, exprs).Expanded? && InStep(Expansions(u, exprs).bindings, u.fnArgs)
  {
    var n := |DynPath(u.path)|;
    assert Split(u, exprs) == n;
    PathWalkHolds(u, Unwrap(exprs[..n]));
    var p := PathWalkOf(u, Unwrap(exprs[..n]));
    if p.Done? {
      QueryWalkHolds(u, exprs[n..], p.args);
      var q := QueryWalkOf(u, exprs[n..], p.args);
      if q.Done? {
        StepOn(p.bindings, q.bindings, u.fnArgs, |DynQuery(u.path)|);
      }
    }
  }

  /** A call is refused for its path exactly if an argument for the path is `_`. */
  lemma PathIgnoredIff<E, T>(u: Internal<E, T>, exprs: seq<ArgExpr<E>>)
    requires |exprs| == |AllParams(u)|
    ensures Expansions(u, exprs) == Diagnostic <==> exists k :: 0 <= k < |DynPath(u.path)| && exprs[k].Underscore?
  {
    var n := |DynPath(u.path)|;
    if k :| 0 <= k < n && exprs[k].Underscore? {
      assert exprs[..n][k].Underscore?;
    }
  }

  // ---------------------------------------------------------------- meaning

  /** A piece of the URI path with its bindings resolved. */
  datatype Segment<E, T> = Text(text: string) | Verbatim(expr: E) | Shown(ty: Option<T>, part: Part, expr: E) | Dangling

  datatype Pair<E, T> = RawPair(text: string) | Keyed(name: string, value: Segment<E, T>) | Bare(value: Segment<E, T>)

  /** What an identifier is bound to: the last `let` wins. */
  function Resolve<E, T>(bs: seq<Binding<E, T>>, ident: string): Segment<E, T>
  {
    if bs == [] then Dangling
    else
      var b := bs[|bs| - 1];
      if b.Let? && b.ident == ident then Shown(Some(b.ty), b.part, b.expr) else Resolve(bs[..|bs| - 1], ident)
  }

  function ResolvePart<E, T>(part: PathArg<E>, bs: seq<Binding<E, T>>): Segment<E, T>
  {
    match part
    case Literal(text) => Text(text)
    case Raw(expr) => Verbatim(expr)
    case Bound(ident) => Resolve(bs, ident)
  }

  function ResolvePath<E, T>(parts: seq<PathArg<E>>, bs: seq<Binding<E, T>>): seq<Segment<E, T>>
  {
    if parts == [] then [] else [ResolvePart(parts[0], bs)] + ResolvePath(parts[1..], bs)
  }

  function ResolvePair<E, T>(part: QueryArg, bs: seq<Binding<E, T>>): Pair<E, T>
  {
    match part
    case RawQuery(text) => RawPair(text)
    case NameValue(name, ident) => Keyed(name, Resolve(bs, ident))
    case Value(ident) => Bare(Resolve(bs, ident))
  }

  function ResolveQuery<E, T>(parts: seq<QueryArg>, bs: seq<Binding<E, T>>): seq<Pair<E, T>>
  {
    if parts == [] then [] else [ResolvePair(parts[0], bs)] + ResolveQuery(parts[1..], bs)
  }

  /** The declared type of the handler argument with this name. */
  function TypeOf<T>(args: seq<FnArg<T>>, name: string): Option<T>
  {
    if args == [] then None else if args[0].ident == name then Some(args[0].ty) else TypeOf(args[1..], name)
  }

  /** The intended path: each parameter shows its own expression at its own handler type. */
  function MeantPath<E, T>(ps: seq<Param>, exprs: seq<E>, types: seq<FnArg<T>>): seq<Segment<E, T>>
    requires |exprs| == |DynPath(ps)|
    decreases |ps|
  {
    if ps == [] then []
    else
      [match ps[0]
       case Static(text) => Text(text)
       case Ignored(_) => Verbatim(exprs[0])
       case _ => Shown(TypeOf(types, ps[0].dyn.name), PathPart, exprs[0])]
      + MeantPath(ps[1..], if ps[0].Static? then exprs else exprs[1..], types)
  }

  /** The intended query: skipped arguments leave no trace. */
  function MeantQuery<E, T>(ps: seq<Param>, exprs: seq<ArgExpr<E>>, types: seq<FnArg<T>>): seq<Pair<E, T>>
    requires |exprs| == |DynQuery(ps)| && forall i :: 0 <= i < |ps| ==> !ps[i].Ignored?
    decreases |ps|
  {
    if ps == [] then []
    else
      (if ps[0].Static? then [RawPair(ps[0].text)]
       else if exprs[0].Underscore? then []
       else
         var shown := Shown(TypeOf(types, ps[0].dyn.name), QueryPart, exprs[0].expr);
         if ps[0].dyn.trailing then [Bare(shown)] else [Keyed(ps[0].dyn.name, shown)])
      + MeantQuery(ps[1..], if ps[0].Static? then exprs else exprs[1..], types)
  }

  ghost predicate UniqueLets<E, T>(bs: seq<Binding<E, T>>)
  {
    forall i, j :: 0 <= i < j < |bs| && bs[i].Let? && bs[j].Let? ==> bs[i].ident != bs[j].ident
  }

  lemma {:induction false} ResolveLet<E, T>(bs: seq<Binding<E, T>>, b: Binding<E, T>)
    requires UniqueLets(bs) && b in bs && b.Let?
    ensures Resolve(bs, b.ident) == Shown(Some(b.ty), b.part, b.expr)
  {
    var k := |bs| - 1;
    var i :| 0 <= i <= k && bs[i] == b;
    if i < k {
      assert bs[..k][i] == b;
      ResolveLet(bs[..k], b);
    }
  }

  ghost predicate DistinctIdents<T>(args: seq<FnArg<T>>)
  {
    forall i, j :: 0 <= i < j < |args| ==> args[i].ident != args[j].ident
  }

  lemma {:induction false} TypeOfArg<T>(args: seq<FnArg<T>>, i: nat)
    requires DistinctIdents(args) && i < |args|
    ensures TypeOf(args, args[i].ident) == Some(args[i].ty)
  {
    if i > 0 {
      assert args[0].ident != args[i].ident;
      TypeOfArg(args[1..], i - 1);
    }
  }

  /** The handler arguments from `from` on are named as the parameters are. */
  ghost predicate Aligned<T>(ds: seq<Dyn>, args: seq<FnArg<T>>, from: nat)
  {
    from + |ds| <= |args| && forall i :: 0 <= i < |ds| ==> args[from + i].ident == ds[i].name
  }

  lemma AlignedTail<T>(ps: seq<Param>, args: seq<FnArg<T>>, from: nat)
    requires ps != [] && Aligned(DynQuery(ps), args, from)
    ensures ps[0].Dynamic? || ps[0].Guard? ==>
              from < |args| && args[from].ident == ps[0].dyn.name && Aligned(DynQuery(ps[1..]), args, from + 1)
    ensures ps[0].Static? || ps[0].Ignored? ==> Aligned(DynQuery(ps[1..]), args, from)
  {
    if ps[0].Dynamic? || ps[0].Guard? {
      assert DynQuery(ps)[0] == ps[0].dyn;
      assert args[from + 0].ident == DynQuery(ps)[0].name;
      forall i | 0 <= i < |DynQuery(ps[1..])| ensures args[from + 1 + i].ident == DynQuery(ps[1..])[i].name {
        assert args[from + (i + 1)].ident == DynQuery(ps)[i + 1].name;
      }
    } else {
      assert DynQuery(ps) == DynQuery(ps[1..]);
    }
  }

  /** All of `xs` are among `bs`. */
  ghost predicate Among<B>(xs: seq<B>, bs: seq<B>) { forall x :: x in xs ==> x in bs }

  lemma AmongParts<B>(xs: seq<B>, ys: seq<B>, bs: seq<B>)
    requires Among(xs + ys, bs)
    ensures Among(xs, bs) && Among(ys, bs)
  {
    assert forall x :: x in xs || x in ys ==> x in xs + ys;
  }

  lemma PathHeadMeans<E, T>(ps: seq<Param>, exprs: seq<E>, args: seq<FnArg<T>>, from: nat, bs: seq<Binding<E, T>>)
    requires ps != [] && |exprs| == |DynPath(ps)| && from <= |args| && DistinctIdents(args) && UniqueLets(bs)
    requires ps[0].Dynamic? || ps[0].Guard? ==> from < |args| && args[from].ident == ps[0].dyn.name
    requires var m := PathMove(ps[0], exprs, args[from..]); m.Some? ==> Among(m.value.bindings, bs)
    ensures var m := PathMove(ps[0], exprs, args[from..]);
            m.Some? && |m.value.parts| == 1 &&
            ResolvePart(m.value.parts[0], bs) == MeantPath(ps, exprs, args)[0]
  {
    if ps[0].Dynamic? || ps[0].Guard? {
      var b := Let(args[from].ident, args[from].ty, PathPart, exprs[0]);
      assert b in PathMove(ps[0], exprs, args[from..]).value.bindings;
      ResolveLet(bs, b);
      TypeOfArg(args, from);
    }
  }

  lemma ResolveFirst<E, T>(head: PathArg<E>, rest: seq<PathArg<E>>, bs: seq<Binding<E, T>>)
    ensures ResolvePath([head] + rest, bs) == [ResolvePart(head, bs)] + ResolvePath(rest, bs)
  {
    assert ([head] + rest)[1..] == rest;
  }

  /** What the first parameter shows, and what the others do. */
  lemma PathConsMeans<E, T>(ps: seq<Param>, exprs: seq<E>, args: seq<FnArg<T>>, from: nat, bs: seq<Binding<E, T>>,
                            parts: seq<PathArg<E>>)
    requires ps != [] && |exprs| == |DynPath(ps)| && from <= |args| && DistinctIdents(args) && UniqueLets(bs)
    requires ps[0].Dynamic? || ps[0].Guard? ==> from < |args| && args[from].ident == ps[0].dyn.name
    requires var m := PathMove(ps[0], exprs, args[from..]);
             m.Some? && Among(m.value.bindings, bs) && |exprs[m.value.exprs..]| == |DynPath(ps[1..])| &&
             ResolvePath(parts, bs) == MeantPath(ps[1..], exprs[m.value.exprs..], args)
    ensures var m := PathMove(ps[0], exprs, args[from..]).value;
            ResolvePath(m.parts + parts, bs) == MeantPath(ps, exprs, args)
  {
    var m := PathMove(ps[0], exprs, args[from..]).value;
    PathHeadMeans(ps, exprs, args, from, bs);
    ResolveFirst(m.parts[0], parts, bs);
    assert m.parts == [m.parts[0]];
    assert ps[0].Static? ==> exprs[0..] == exprs;
  }

  lemma {:induction false} PathMeans<E, T>(ps: seq<Param>, exprs: seq<E>, args: seq<FnArg<T>>, from: nat,
                                           bs: seq<Binding<E, T>>)
    requires |exprs| == |DynPath(ps)| && Aligned(DynQuery(ps), args, from) && DistinctIdents(args) && UniqueLets(bs)
    requires var w := WalkPath(ps, exprs, args[from..]); w.Done? && Among(w.bindings, bs)
    ensures var w := WalkPath(ps, exprs, args[from..]);
            w.Done? && ResolvePath(w.parts, bs) == MeantPath(ps, exprs, args)
    decreases |ps|
  {
    if ps != [] {
      AlignedTail(ps, args, from);
      var w, m := WalkPath(ps, exprs, args[from..]), PathMove(ps[0], exprs, args[from..]).value;
      assert args[from..][m.args..] == args[from + m.args..];
      var tail := WalkPath(ps[1..], exprs[m.exprs..], args[from + m.args..]);
      assert w == Before(m.bindings, m.parts, tail);
      AmongParts(m.bindings, tail.bindings, bs);
      PathMeans(ps[1..], exprs[m.exprs..], args, from + m.args, bs);
      PathConsMeans(ps, exprs, args, from, bs, tail.parts);
    }
  }

  lemma QueryHeadMeans<E, T>(ps: seq<Param>, exprs: seq<ArgExpr<E>>, args: seq<FnArg<T>>, from: nat,
                             bs: seq<Binding<E, T>>)
    requires ps != [] && |exprs| == |DynQuery(ps)| && from <= |args| && DistinctIdents(args) && UniqueLets(bs)
    requires forall i :: 0 <= i < |ps| ==> !ps[i].Ignored?
    requires ps[0].Dynamic? || ps[0].Guard? ==> from < |args| && args[from].ident == ps[0].dyn.name
    requires var m := QueryMove(ps[0], exprs, args[from..]); m.Some? ==> Among(m.value.bindings, bs)
    ensures var m := QueryMove(ps[0], exprs, args[from..]);
            m.Some? &&
            MeantQuery(ps, exprs, args) ==
            (if m.value.parts == [] then [] else [ResolvePair(m.value.parts[0], bs)])
            + MeantQuery(ps[1..], exprs[m.value.exprs..], args)
    ensures |QueryMove(ps[0], exprs, args[from..]).value.parts| <= 1
  {
    if !ps[0].Static? && exprs[0].Expr? {
      var b := Let(args[from].ident, args[from].ty, QueryPart, exprs[0].expr);
      assert b in QueryMove(ps[0], exprs, args[from..]).value.bindings;
      ResolveLet(bs, b);
      TypeOfArg(args, from);
    }
  }

  lemma ResolveHead<E, T>(head: seq<QueryArg>, rest: seq<QueryArg>, bs: seq<Binding<E, T>>)
    requires |head| <= 1
    ensures ResolveQuery(head + rest, bs) ==
            (if head == [] then [] else [ResolvePair(head[0], bs)]) + ResolveQuery(rest, bs)
  {
    if head == [] {
      assert head + rest == rest;
    } else {
      assert (head + rest)[1..] == rest;
    }
  }

  lemma {:induction false} QueryMeans<E, T>(ps: seq<Param>, exprs: seq<ArgExpr<E>>, args: seq<FnArg<T>>, from: nat,
                                            bs: seq<Binding<E, T>>)
    requires forall i :: 0 <= i < |ps| ==> !ps[i].Ignored?
    requires |exprs| == |DynQuery(ps)| && Aligned(DynQuery(ps), args, from) && DistinctIdents(args) && UniqueLets(bs)
    requires var w := WalkQuery(ps, exprs, args[from..]); w.Done? && Among(w.bindings, bs)
    ensures var w := WalkQuery(ps, exprs, args[from..]);
            w.Done? && ResolveQuery(w.parts, bs) == MeantQuery(ps, exprs, args)
    decreases |ps|
  {
    if ps != [] {
      AlignedTail(ps, args, from);
      var w, m := WalkQuery(ps, exprs, args[from..]), QueryMove(ps[0], exprs, args[from..]).value;
      assert args[from..][m.args..] == args[from + m.args..];
      var tail := WalkQuery(ps[1..], exprs[m.exprs..], args[from + m.args..]);
      assert w == Before(m.bindings, m.parts, tail);
      AmongParts(m.bindings, tail.bindings, bs);
      QueryHeadMeans(ps, exprs, args, from, bs);
      QueryMeans(ps[1..], exprs[m.exprs..], args, from + m.args, bs);
      ResolveHead(m.parts, tail.parts, bs);
    }
  }

  lemma LetsAreUnique<E, T>(bs: seq<Binding<E, T>>, args: seq<FnArg<T>>)
    requires InStep(bs, args) && DistinctIdents(args)
    ensures UniqueLets(bs)
  {
  }

  /** The arguments of the route's handler are its named parameters, in order, as its macro passes them. */
  ghost predicate HandlerArgs<E, T>(u: Internal<E, T>)
  {
    && DistinctIdents(u.fnArgs)
    && Aligned(DynQuery(u.path), u.fnArgs, 0)
    && Aligned(DynQuery(u.query), u.fnArgs, |DynQuery(u.path)|)
  }

  /** The path means what was written: walking three lists in step, with bindings in between, shows every
      parameter's own expression at its own type, in the route's order. */
  lemma ExpandedPathMeans<E, T>(u: Internal<E, T>, exprs: seq<ArgExpr<E>>)
    requires WellFormed(u) && HandlerArgs(u) && |exprs| == |AllParams(u)| && !Skipped(exprs[..|DynPath(u.path)|])
    ensures var n := |DynPath(u.path)|;
            var r := Expansions(u, exprs);
            r.Expanded? &&
            if n == 0 then r.path == StaticPath(u.pathText)
            else r.path.DynamicPath? &&
                 ResolvePath(r.path.parts, r.bindings) == MeantPath(u.path, Unwrap(exprs[..n]), u.fnArgs)
  {
    var n := |DynPath(u.path)|;
    var r, path := Expansions(u, exprs), Unwrap(exprs[..n]);
    ExpectsHold(u, exprs);
    LetsAreUnique(r.bindings, u.fnArgs);
    assert u.fnArgs[0..] == u.fnArgs;
    if n > 0 {
      PathMeans(u.path, path, u.fnArgs, 0, r.bindings);
    }
  }

  /** So does the query; arguments given as `_` leave no trace in it. */
  lemma ExpandedQueryMeans<E, T>(u: Internal<E, T>, exprs: seq<ArgExpr<E>>)
    requires WellFormed(u) && HandlerArgs(u) && |exprs| == |AllParams(u)| && !Skipped(exprs[..|DynPath(u.path)|])
    ensures var n := |DynPath(u.path)|;
            var r := Expansions(u, exprs);
            r.Expanded? &&
            match u.queryText
            case None => r.query == NoQuery
            case Some(text) =>
              if DynQuery(u.query) == [] then r.query == StaticQuery(text)
              else r.query.DynamicQuery? &&
                   ResolveQuery(r.query.parts, r.bindings) == MeantQuery(u.query, exprs[n..], u.fnArgs)
  {
    var n := |DynPath(u.path)|;
    var r, path := Expansions(u, exprs), Unwrap(exprs[..n]);
    ExpectsHold(u, exprs);
    LetsAreUnique(r.bindings, u.fnArgs);
    PathWalkHolds(u, path);
    if u.queryText.Some? && DynQuery(u.query) != [] {
      QueryMeans(u.query, exprs[n..], u.fnArgs, |DynQuery(u.path)|, r.bindings);
    }
  }

  /** A named call expands to the very bindings and URI parts of the positional call in declaration order. */
  lemma NamedExpandsAlike<E, T>(u: Internal<E, T>, v: Internal<E, T>)
    requires u.args.NamedArgs? && Distinct(DynNames(AllParams(u))) && Wilds(AllParams(u)) == []
    requires multiset(ArgNames(u.args.args)) == multiset(DynNames(AllParams(u)))
    requires v == u.(args := v.args) && v.args.UnnamedArgs?
    requires SameGiven(AllParams(u), u.args.args, v.args.args)
    ensures Expected(u).Ok? && Expected(v).Ok?
    ensures Expansions(u, Expected(u).exprs) == Expansions(v, Expected(v).exprs)
  {
    NamedIsPositional(u, v);
    SameRouteExpandsAlike(u, v, Expected(u).exprs);
  }

  lemma SameRouteExpandsAlike<E, T>(u: Internal<E, T>, v: Internal<E, T>, exprs: seq<ArgExpr<E>>)
    requires v == u.(args := v.args)
    ensures Expansions(u, exprs) == Expansions(v, exprs)
  {
    var n := Split(u, exprs);
    if !Skipped(exprs[..n]) {
      var p := PathWalkOf(u, Unwrap(exprs[..n]));
      assert PathWalkOf(v, Unwrap(exprs[..n])) == p;
      if p.Done? {
        assert QueryWalkOf(v, exprs[n..], p.args) == QueryWalkOf(u, exprs[n..], p.args);
      }
    }
  }
}
