/** The `uri!` macro: matching arguments to a route's parameters. */
module UriMacro {
  import opened Options
  import opened IndexMap

  datatype Dyn = Dyn(name: string, trailing: bool)

  datatype Param = Static(text: string) | Ignored(dyn: Dyn) | Dynamic(dyn: Dyn) | Guard(dyn: Dyn)

  /** `_` or an expression. */
  datatype ArgExpr<E> = Expr(expr: E) | Underscore

  datatype Arg<E> = Unnamed(value: ArgExpr<E>) | Named(name: string, value: ArgExpr<E>)

  datatype Args<E> = UnnamedArgs(args: seq<Arg<E>>) | NamedArgs(args: seq<Arg<E>>)

  datatype FnArg<T> = FnArg(ident: string, ty: T)

  /** `query` is absent when the route URI has none. */
  datatype Internal<E, T> = Internal(pathText: string, path: seq<Param>,
                                     queryText: Option<string>, query: seq<Param>,
                                     fnArgs: seq<FnArg<T>>, args: Args<E>)

  // ---------------------------------------------------------------- parsing arguments

  datatype Parsed<E> = Parsed(args: Args<E>) | Mixed

  /** Named and unnamed arguments cannot be mixed. */
  method ParseArgs<E>(args: seq<Arg<E>>) returns (r: Parsed<E>)
    ensures r.Mixed? <==> exists i, j :: 0 <= i < |args| && 0 <= j < |args| && args[i].Named? && args[j].Unnamed?
    ensures r.Parsed? ==> r.args.args == args && OneKind(r.args)
  {
    var firstIsNamed: Option<bool> := None;
    for i := 0 to |args|
      invariant firstIsNamed == if i == 0 then None else Some(args[0].Named?)
      invariant forall k :: 0 <= k < i ==> args[k].Named? == args[0].Named?
    {
      if firstIsNamed.Some? {
        if firstIsNamed.value != args[i].Named? {
          return Mixed;
        }
      } else {
        firstIsNamed := Some(args[i].Named?);
      }
    }
    r := if firstIsNamed == Some(true) then Parsed(NamedArgs(args)) else Parsed(UnnamedArgs(args));
  }

  predicate OneKind<E>(a: Args<E>)
  {
    forall k :: 0 <= k < |a.args| ==> (a.args[k].Named? <==> a.NamedArgs?)
  }

  // ---------------------------------------------------------------- parameters

  predicate IsWild(d: Dyn) { d.name == "_" }

  /** `dynamic_path_params`: everything but static segments. */
  function DynPath(ps: seq<Param>): seq<Dyn>
  {
    if ps == [] then [] else (if ps[0].Static? then [] else [ps[0].dyn]) + DynPath(ps[1..])
  }

  /** `dynamic_query_params`, and the parameters a handler has arguments for. */
  function DynQuery(ps: seq<Param>): seq<Dyn>
  {
    if ps == [] then []
    else (if ps[0].Dynamic? || ps[0].Guard? then [ps[0].dyn] else []) + DynQuery(ps[1..])
  }

  function AllParams<E, T>(u: Internal<E, T>): seq<Dyn> { DynPath(u.path) + DynQuery(u.query) }

  function DynNames(ds: seq<Dyn>): (r: seq<string>)
    ensures |r| == |ds| && forall i :: 0 <= i < |r| ==> r[i] == ds[i].name
  {
    seq(|ds|, i requires 0 <= i < |ds| => ds[i].name)
  }

  /** As the parameter parser leaves them: only `_` is ignored, and only in a path. */
  predicate WellFormed<E, T>(u: Internal<E, T>)
  {
    && (forall i :: 0 <= i < |u.path| && !u.path[i].Static? ==> (u.path[i].Ignored? <==> IsWild(u.path[i].dyn)))
    && (forall i :: 0 <= i < |u.query| ==> !u.query[i].Ignored?)
    && (forall i :: 0 <= i < |u.query| && !u.query[i].Static? ==> !IsWild(u.query[i].dyn))
    && (u.queryText.None? ==> u.query == [])
    && OneKind(u.args)
  }

  ghost predicate Distinct<A>(s: seq<A>)
  {
    forall i, j :: 0 <= i < j < |s| ==> s[i] != s[j]
  }

  // ---------------------------------------------------------------- validation

  datatype Validation<E> =
    | NamedIgnored(params: seq<Dyn>)
    | Count(expected: nat, actual: nat)
    | Bad(missing: seq<string>, extra: seq<string>, dup: seq<string>)
    | Ok(exprs: seq<ArgExpr<E>>)

  /** First position of a name, or the length. */
  function IndexOf(names: seq<string>, name: string): (i: nat)
    ensures i <= |names| && (i < |names| <==> name in names)
    ensures i < |names| ==> names[i] == name
    ensures forall j :: 0 <= j < i ==> names[j] != name
  {
    if names == [] || names[0] == name then 0 else 1 + IndexOf(names[1..], name)
  }

  /** Declared names, repetitions dropped. */
  function Dedup(names: seq<string>): (r: seq<string>)
    ensures forall n :: n in r <==> n in names
  {
    if names == [] then []
    else
      var k := |names| - 1;
      var r := Dedup(names[..k]);
      assert forall n :: n in names <==> n in names[..k] || n == names[k];
      if names[k] in r then r else r + [names[k]]
  }

  function ArgNames<E>(args: seq<Arg<E>>): (r: seq<string>)
    ensures |r| == |args| && forall i :: 0 <= i < |r| ==> r[i] == NameOf(args[i])
  {
    seq(|args|, i requires 0 <= i < |args| => NameOf(args[i]))
  }

  function NameOf<E>(arg: Arg<E>): string { if arg.Named? then arg.name else "" }

  /** Arguments naming no parameter. */
  function Extras(decl: seq<string>, used: seq<string>): seq<string>
  {
    if used == [] then []
    else
      var k := |used| - 1;
      Extras(decl, used[..k]) + if used[k] !in decl then [used[k]] else []
  }

  /** Arguments naming a parameter that an earlier argument named. */
  function Dups(decl: seq<string>, used: seq<string>): seq<string>
  {
    if used == [] then []
    else
      var k := |used| - 1;
      Dups(decl, used[..k]) + if used[k] in decl && used[k] in used[..k] then [used[k]] else []
  }

  /** Parameters no argument names. */
  function Missing(decl: seq<string>, used: seq<string>): seq<string>
  {
    if decl == [] then []
    else
      var k := |decl| - 1;
      Missing(decl[..k], used) + if decl[k] !in used then [decl[k]] else []
  }

  /** The expression of the first argument with this name. */
  function ValueOf<E>(args: seq<Arg<E>>, name: string): Option<ArgExpr<E>>
  {
    var i := IndexOf(ArgNames(args), name);
    if i < |args| then Some(args[i].value) else None
  }

  /** The expressions given for the declared names, in declaration order. */
  function Values<E>(args: seq<Arg<E>>, decl: seq<string>): seq<ArgExpr<E>>
  {
    if decl == [] then []
    else
      var k := |decl| - 1;
      Values(args, decl[..k]) + match ValueOf(args, decl[k]) case Some(e) => [e] case None => []
  }

  function Wilds(ds: seq<Dyn>): seq<Dyn>
  {
    if ds == [] then [] else (if IsWild(ds[0]) then [ds[0]] else []) + Wilds(ds[1..])
  }

  function Positional<E>(args: seq<Arg<E>>): (r: seq<ArgExpr<E>>)
    ensures |r| == |args| && forall i :: 0 <= i < |r| ==> r[i] == args[i].value
  {
    seq(|args|, i requires 0 <= i < |args| => args[i].value)
  }

  /** What `validate` is meant to find: wildcards, or the arguments' faults, or the expressions. */
  function Expected<E, T>(u: Internal<E, T>): Validation<E>
  {
    var params := AllParams(u);
    if u.args.UnnamedArgs? then
      if |params| == |u.args.args| then Ok(Positional(u.args.args)) else Count(|params|, |u.args.args|)
    else if Wilds(params) != [] then NamedIgnored(Wilds(params))
    else
      var decl, used := Dedup(DynNames(params)), ArgNames(u.args.args);
      if Missing(decl, used) == [] && Extras(decl, used) == [] && Dups(decl, used) == []
      then Ok(Values(u.args.args, decl))
      else Bad(Missing(decl, used), Extras(decl, used), Dups(decl, used))
  }

  /** The index map holds, under each declared name, what the arguments so far gave it. */
  ghost predicate Holds<E>(t: Table<string, Option<ArgExpr<E>>>, decl: seq<string>, args: seq<Arg<E>>)
  {
    && |t| == |decl|
    && forall i :: 0 <= i < |t| ==> t[i].key == decl[i] && t[i].val == ValueOf(args, decl[i])
  }

  method CollectNames<E>(params: seq<Dyn>) returns (t: Table<string, Option<ArgExpr<E>>>)
    ensures Holds(t, Dedup(DynNames(params)), [])
  {
    t := [];
    ghost var names := DynNames(params);
    for i := 0 to |params|
      invariant Holds(t, Dedup(names[..i]), [])
    {
      assert names[..i + 1][..i] == names[..i];
      FindDeclared(t, Dedup(names[..i]), params[i].name);
      PutFresh(t, Dedup(names[..i]), params[i].name);
      t := Put(t, params[i].name, None);
    }
    assert names[..|params|] == names;
  }

  lemma PutFresh<E>(t: Table<string, Option<ArgExpr<E>>>, decl: seq<string>, name: string)
    requires Holds(t, decl, [])
    ensures Holds(Put(t, name, None), if name in decl then decl else decl + [name], [])
  {
    FindDeclared(t, decl, name);
  }

  lemma {:induction false} FindDeclared<V>(t: Table<string, V>, decl: seq<string>, name: string)
    requires |t| == |decl| && forall i :: 0 <= i < |t| ==> t[i].key == decl[i]
    ensures Find(t, name) == IndexOf(decl, name)
  {
    FindIs(t, name, IndexOf(decl, name));
  }

  lemma {:induction false} DedupIsDistinct(names: seq<string>)
    ensures Distinct(Dedup(names))
  {
    if names != [] {
      DedupIsDistinct(names[..|names| - 1]);
    }
  }

  /** How one more argument changes what a name has been given. */
  lemma ValueOfSnoc<E>(args: seq<Arg<E>>, arg: Arg<E>, name: string)
    ensures ValueOf(args + [arg], name) ==
            if ValueOf(args, name).Some? then ValueOf(args, name)
            else if NameOf(arg) == name then Some(arg.value) else None
    ensures ValueOf(args, name).Some? <==> name in ArgNames(args)
  {
    var used, more := ArgNames(args), ArgNames(args + [arg]);
    assert more == used + [NameOf(arg)];
    var i, j := IndexOf(used, name), IndexOf(more, name);
    if i < |used| {
      assert more[i] == name;
      assert j == i;
    } else {
      assert forall k :: 0 <= k < |used| ==> used[k] != name;
    }
  }

  method Validate<E, T>(u: Internal<E, T>) returns (r: Validation<E>)
    requires OneKind(u.args)
    ensures r == Expected(u)
  {
    var params, args := AllParams(u), u.args.args;
    if u.args.UnnamedArgs? {
      if |params| == |args| { r := Ok(Positional(args)); } else { r := Count(|params|, |args|); }
      return;
    }
    var ignored := Wilds(params);
    if |ignored| > 0 {
      return NamedIgnored(ignored);
    }
    var table, extra, dup := UseArgs(params, args);
    var missing, exprs := Outcomes(table, Dedup(DynNames(params)), args);
    if |extra| + |dup| + |missing| == 0 { r := Ok(exprs); } else { r := Bad(missing, extra, dup); }
  }

  /** After some arguments: what the index map holds, and the names set aside. */
  ghost predicate Sorted<E>(table: Table<string, Option<ArgExpr<E>>>, extra: seq<string>, dup: seq<string>,
                            decl: seq<string>, prior: seq<Arg<E>>)
  {
    Holds(table, decl, prior) && extra == Extras(decl, ArgNames(prior)) && dup == Dups(decl, ArgNames(prior))
  }

  method UseArgs<E>(params: seq<Dyn>, args: seq<Arg<E>>)
      returns (table: Table<string, Option<ArgExpr<E>>>, extra: seq<string>, dup: seq<string>)
    requires forall k :: 0 <= k < |args| ==> args[k].Named?
    ensures Sorted(table, extra, dup, Dedup(DynNames(params)), args)
  {
    table := CollectNames(params);
    extra, dup := [], [];
    ghost var decl := Dedup(DynNames(params));
    DedupIsDistinct(DynNames(params));
    assert args[..0] == [];
    for n := 0 to |args|
      invariant Sorted(table, extra, dup, decl, args[..n])
    {
      table, extra, dup := UseOne(table, extra, dup, args[n], decl, args[..n]);
      assert args[..n + 1] == args[..n] + [args[n]];
    }
    assert args[..|args|] == args;
  }

  /** `match params.get_mut(name)`. */
  method UseOne<E>(t: Table<string, Option<ArgExpr<E>>>, extras: seq<string>, dups: seq<string>, arg: Arg<E>,
                   ghost decl: seq<string>, ghost prior: seq<Arg<E>>)
      returns (table: Table<string, Option<ArgExpr<E>>>, extra: seq<string>, dup: seq<string>)
    requires arg.Named? && Distinct(decl) && Sorted(t, extras, dups, decl, prior)
    ensures Sorted(table, extra, dup, decl, prior + [arg])
  {
    table, extra, dup := t, extras, dups;
    SortArg(decl, prior, arg);
    UseArg(t, decl, prior, arg);
    var i := Find(t, arg.name);
    if i < |t| {
      if t[i].val.Some? {
        dup := dup + [arg.name];
      } else {
        table := t[i := Slot(arg.name, Some(arg.value))];
      }
    } else {
      extra := extra + [arg.name];
    }
  }

  method Outcomes<E>(table: Table<string, Option<ArgExpr<E>>>, ghost decl: seq<string>, ghost args: seq<Arg<E>>)
      returns (missing: seq<string>, exprs: seq<ArgExpr<E>>)
    requires Holds(table, decl, args)
    ensures missing == Missing(decl, ArgNames(args)) && exprs == Values(args, decl)
  {
    missing, exprs := [], [];
    for n := 0 to |table|
      invariant missing == Missing(decl[..n], ArgNames(args)) && exprs == Values(args, decl[..n])
    {
      assert decl[..n + 1][..n] == decl[..n];
      ValueIsUsed(args, decl[n]);
      match table[n].val
      case Some(expr) => exprs := exprs + [expr];
      case None => missing := missing + [table[n].key];
    }
    assert decl[..|table|] == decl;
  }

  lemma ValueIsUsed<E>(args: seq<Arg<E>>, name: string)
    ensures ValueOf(args, name).Some? <==> name in ArgNames(args)
  {
  }

  /** Where the next argument is sorted to. */
  lemma SortArg<E>(decl: seq<string>, prior: seq<Arg<E>>, arg: Arg<E>)
    requires arg.Named?
    ensures var used, name, more := ArgNames(prior), arg.name, ArgNames(prior + [arg]);
            && Extras(decl, more) == Extras(decl, used) + (if name !in decl then [name] else [])
            && Dups(decl, more) == Dups(decl, used) + (if name in decl && name in used then [name] else [])
  {
    var used, more := ArgNames(prior), ArgNames(prior + [arg]);
    assert more == used + [arg.name];
    assert more[..|used|] == used;
  }

  /** How the next argument changes the index map. */
  lemma UseArg<E>(t: Table<string, Option<ArgExpr<E>>>, decl: seq<string>, prior: seq<Arg<E>>, arg: Arg<E>)
    requires arg.Named? && Holds(t, decl, prior) && Distinct(decl)
    ensures var i := Find(t, arg.name);
            && (i < |t| <==> arg.name in decl)
            && (i < |t| ==> (t[i].val.Some? <==> arg.name in ArgNames(prior)))
            && Holds(Given(t, i, arg), decl, prior + [arg])
  {
    FindDeclared(t, decl, arg.name);
    ValueIsUsed(prior, arg.name);
    HoldsMore(t, decl, prior, arg, Find(t, arg.name));
  }

  /** The map after an argument for slot `i`: the first one is kept. */
  function Given<E>(t: Table<string, Option<ArgExpr<E>>>, i: nat, arg: Arg<E>): Table<string, Option<ArgExpr<E>>>
    requires arg.Named?
  {
    if i < |t| && t[i].val.None? then t[i := Slot(arg.name, Some(arg.value))] else t
  }

  lemma HoldsMore<E>(t: Table<string, Option<ArgExpr<E>>>, decl: seq<string>, args: seq<Arg<E>>, arg: Arg<E>, i: nat)
    requires arg.Named? && Holds(t, decl, args) && Distinct(decl) && i == IndexOf(decl, arg.name)
    ensures Holds(Given(t, i, arg), decl, args + [arg])
  {
    var u := Given(t, i, arg);
    forall k | 0 <= k < |u| ensures u[k].key == decl[k] && u[k].val == ValueOf(args + [arg], decl[k]) {
      ValueOfSnoc(args, arg, decl[k]);
    }
  }

  // ---------------------------------------------------------------- what validation accepts

  lemma {:induction false} NoExtras(decl: seq<string>, used: seq<string>)
    ensures Extras(decl, used) == [] <==> forall n :: n in used ==> n in decl
  {
    if used != [] {
      var k := |used| - 1;
      NoExtras(decl, used[..k]);
      assert forall n :: n in used <==> n in used[..k] || n == used[k];
    }
  }

  lemma {:induction false} NoDups(decl: seq<string>, used: seq<string>)
    requires forall n :: n in used ==> n in decl
    ensures Dups(decl, used) == [] <==> Distinct(used)
  {
    if used != [] {
      var k := |used| - 1;
      assert used == used[..k] + [used[k]];
      NoDups(decl, used[..k]);
      if used[k] in used[..k] {
        var i :| 0 <= i < k && used[..k][i] == used[k];
        assert used[i] == used[k];
      } else {
        assert forall i :: 0 <= i < k ==> used[i] == used[..k][i] && used[i] != used[k];
      }
    }
  }

  lemma {:induction false} NoMissing(decl: seq<string>, used: seq<string>)
    ensures Missing(decl, used) == [] <==> forall n :: n in decl ==> n in used
  {
    if decl != [] {
      var k := |decl| - 1;
      NoMissing(decl[..k], used);
      assert forall n :: n in decl <==> n in decl[..k] || n == decl[k];
    }
  }

  lemma {:induction false} DistinctCounts(s: seq<string>)
    ensures Distinct(s) <==> forall x :: multiset(s)[x] <= 1
  {
    if s != [] {
      var k := |s| - 1;
      var init := s[..k];
      assert s == init + [s[k]];
      DistinctCounts(init);
      assert forall x :: multiset(s)[x] == multiset(init)[x] + if x == s[k] then 1 else 0;
      if Distinct(s) {
        assert forall i :: 0 <= i < k ==> init[i] == s[i];
        assert s[k] !in init;
      } else if Distinct(init) {
        var i, j :| 0 <= i < j < |s| && s[i] == s[j];
        assert forall i :: 0 <= i < k ==> init[i] == s[i];
        assert j == k && init[i] == s[k];
        assert s[k] in multiset(init);
      } else {
        var x :| multiset(init)[x] > 1;
        assert multiset(s)[x] > 1;
      }
    }
  }

  /** Named arguments are accepted exactly when their names are the declared ones, in any order. */
  lemma AcceptedIsPermutation(decl: seq<string>, used: seq<string>)
    requires Distinct(decl)
    ensures (Missing(decl, used) == [] && Extras(decl, used) == [] && Dups(decl, used) == []) <==>
            multiset(used) == multiset(decl)
  {
    NoExtras(decl, used);
    NoMissing(decl, used);
    DistinctCounts(decl);
    DistinctCounts(used);
    assert forall n :: n in used <==> n in multiset(used);
    assert forall n :: n in decl <==> n in multiset(decl);
    if forall n :: n in used ==> n in decl {
      NoDups(decl, used);
    }
    if Missing(decl, used) == [] && Extras(decl, used) == [] && Dups(decl, used) == [] {
      forall x ensures multiset(used)[x] == multiset(decl)[x] {
        assert x in used <==> x in decl;
      }
    }
  }

  lemma {:induction false} MissingStep(decl: seq<string>, used: seq<string>, name: string)
    requires Distinct(decl)
    ensures |Missing(decl, used + [name])| ==
            |Missing(decl, used)| - if name in decl && name !in used then 1 else 0
  {
    if decl != [] {
      var k := |decl| - 1;
      assert decl == decl[..k] + [decl[k]];
      assert forall i :: 0 <= i < k ==> decl[..k][i] == decl[i];
      MissingStep(decl[..k], used, name);
      if name == decl[k] {
        assert name !in decl[..k];
      }
    }
  }

  /** Every argument is a first use, a duplicate or an extra, and first uses are what is not missing. */
  lemma {:induction false} ArgumentsAreSorted(decl: seq<string>, used: seq<string>)
    requires Distinct(decl)
    ensures |used| == |Extras(decl, used)| + |Dups(decl, used)| + (|decl| - |Missing(decl, used)|)
  {
    if used == [] {
      AllMissing(decl);
    } else {
      var k := |used| - 1;
      ArgumentsAreSorted(decl, used[..k]);
      MissingStep(decl, used[..k], used[k]);
      assert used == used[..k] + [used[k]];
    }
  }

  /** Name by name: every use of an undeclared name is an extra, every use of a declared one after the first
      a duplicate, and missing is what is declared and never used. */
  lemma {:induction false} SortedByName(decl: seq<string>, used: seq<string>, n: string)
    ensures multiset(Extras(decl, used))[n] == if n in decl then 0 else multiset(used)[n]
    ensures multiset(Dups(decl, used))[n] == if n in decl && n in used then multiset(used)[n] - 1 else 0
    ensures multiset(Missing(decl, used))[n] == if n in used then 0 else multiset(decl)[n]
  {
    UsesByName(decl, used, n);
    MissingByName(decl, used, n);
  }

  lemma {:induction false} UsesByName(decl: seq<string>, used: seq<string>, n: string)
    ensures multiset(Extras(decl, used))[n] == if n in decl then 0 else multiset(used)[n]
    ensures multiset(Dups(decl, used))[n] == if n in decl && n in used then multiset(used)[n] - 1 else 0
  {
    if used != [] {
      var k := |used| - 1;
      var init := used[..k];
      assert used == init + [used[k]];
      UsesByName(decl, init, n);
      assert n in init <==> multiset(init)[n] > 0;
    }
  }

  lemma {:induction false} MissingByName(decl: seq<string>, used: seq<string>, n: string)
    ensures multiset(Missing(decl, used))[n] == if n in used then 0 else multiset(decl)[n]
  {
    if decl != [] {
      var k := |decl| - 1;
      assert decl == decl[..k] + [decl[k]];
      MissingByName(decl[..k], used, n);
    }
  }

  lemma ConsWilds(d: Dyn, ds: seq<Dyn>)
    ensures Wilds([d] + ds) == (if IsWild(d) then [d] else []) + Wilds(ds)
  {
    assert ([d] + ds)[1..] == ds;
  }

  /** The wildcards among some parameters, in order: exactly those named `_`. */
  lemma {:induction false} WildsMean(ds: seq<Dyn>, d: Dyn)
    ensures Wilds([]) == [] && Wilds(ds + [d]) == Wilds(ds) + if d.name == "_" then [d] else []
  {
    if ds == [] {
      assert ds + [d] == [d] && [d][1..] == [];
    } else {
      assert ds + [d] == [ds[0]] + (ds[1..] + [d]) && ds == [ds[0]] + ds[1..];
      ConsWilds(ds[0], ds[1..] + [d]);
      ConsWilds(ds[0], ds[1..]);
      WildsMean(ds[1..], d);
    }
  }

  /** Faults are told in the order of the arguments, missing names in that of the parameters: those of a
      part come first. */
  lemma {:induction false} FaultsInOrder(decl: seq<string>, used: seq<string>, i: nat, j: nat)
    requires i <= |used| && j <= |decl|
    ensures Extras(decl, used[..i]) <= Extras(decl, used) && Dups(decl, used[..i]) <= Dups(decl, used)
    ensures Missing(decl[..j], used) <= Missing(decl, used)
    decreases |used| - i + |decl| - j
  {
    if i < |used| {
      assert used[..i + 1][..i] == used[..i];
      FaultsInOrder(decl, used, i + 1, j);
    } else if j < |decl| {
      assert used[..i] == used && decl[..j + 1][..j] == decl[..j];
      FaultsInOrder(decl, used, i, j + 1);
    } else {
      assert used[..i] == used && decl[..j] == decl;
    }
  }

  ghost predicate Declared(params: seq<Dyn>, n: string) { exists k :: 0 <= k < |params| && params[k].name == n }

  lemma DeclaredIsListed(params: seq<Dyn>, n: string)
    ensures n in Dedup(DynNames(params)) <==> Declared(params, n)
  {
    if k :| 0 <= k < |params| && params[k].name == n {
      assert DynNames(params)[k] == n;
    }
  }

  /** Missing is what is declared and never used; extra is each use of an undeclared name; a duplicate is each
      use of a declared one after the first. */
  ghost predicate FaultsOf(params: seq<Dyn>, used: seq<string>, missing: seq<string>, extra: seq<string>,
                           dup: seq<string>, n: string)
  {
    && (n in missing <==> Declared(params, n) && n !in used)
    && multiset(extra)[n] == (if Declared(params, n) then 0 else multiset(used)[n])
    && multiset(dup)[n] == (if Declared(params, n) && n in used then multiset(used)[n] - 1 else 0)
  }

  lemma FaultsMean(params: seq<Dyn>, used: seq<string>, n: string)
    ensures var decl := Dedup(DynNames(params));
            FaultsOf(params, used, Missing(decl, used), Extras(decl, used), Dups(decl, used), n)
  {
    var decl := Dedup(DynNames(params));
    DeclaredIsListed(params, n);
    SortedByName(decl, used, n);
    assert n in decl <==> multiset(decl)[n] > 0;
    assert n in Missing(decl, used) <==> multiset(Missing(decl, used))[n] > 0;
  }

  /** What a call is refused with: positional, a wrong count, both counts being told; named, the wildcards,
      or else the names that are missing, extra and repeated. */
  lemma RefusalMeans<E, T>(u: Internal<E, T>)
    ensures var r, params := Expected(u), AllParams(u);
            match r
            case Ok(_) => true
            case Count(expected, actual) =>
              u.args.UnnamedArgs? && expected == |params| && actual == |u.args.args| && expected != actual
            case NamedIgnored(wilds) => u.args.NamedArgs? && wilds == Wilds(params) && wilds != []
            case Bad(missing, extra, dup) => u.args.NamedArgs? && |missing| + |extra| + |dup| > 0
  {
  }

  /** The names told are name by name what is wrong with the call. */
  lemma BadMeans<E, T>(u: Internal<E, T>, n: string)
    requires Expected(u).Bad?
    ensures var r := Expected(u);
            FaultsOf(AllParams(u), ArgNames(u.args.args), r.missing, r.extra, r.dup, n)
  {
    var params, used := AllParams(u), ArgNames(u.args.args);
    var decl := Dedup(DynNames(params));
    assert Expected(u) == Bad(Missing(decl, used), Extras(decl, used), Dups(decl, used));
    FaultsMean(params, used, n);
  }

  lemma {:induction false} AllMissing(decl: seq<string>)
    ensures Missing(decl, []) == decl
  {
    if decl != [] {
      AllMissing(decl[..|decl| - 1]);
    }
  }

  lemma {:induction false} DedupDistinct(names: seq<string>)
    requires Distinct(names)
    ensures Dedup(names) == names
  {
    if names != [] {
      var k := |names| - 1;
      assert forall i :: 0 <= i < k ==> names[..k][i] == names[i];
      DedupDistinct(names[..k]);
      assert names == names[..k] + [names[k]];
    }
  }

  /** Every declared name has been given an expression. */
  ghost predicate AllGiven<E>(args: seq<Arg<E>>, decl: seq<string>)
  {
    forall i :: 0 <= i < |decl| ==> ValueOf(args, decl[i]).Some?
  }

  lemma {:induction false} ValuesLength<E>(args: seq<Arg<E>>, decl: seq<string>)
    requires AllGiven(args, decl)
    ensures |Values(args, decl)| == |decl|
  {
    if decl != [] {
      ValuesLength(args, decl[..|decl| - 1]);
    }
  }

  lemma {:induction false} ValuesAt<E>(args: seq<Arg<E>>, decl: seq<string>, i: nat)
    requires AllGiven(args, decl) && i < |decl|
    ensures i < |Values(args, decl)| && ValueOf(args, decl[i]) == Some(Values(args, decl)[i])
  {
    var k := |decl| - 1;
    assert AllGiven(args, decl[..k]);
    ValuesLength(args, decl[..k]);
    assert Values(args, decl) == Values(args, decl[..k]) + [ValueOf(args, decl[k]).value];
    if i < k {
      ValuesAt(args, decl[..k], i);
    }
  }

  /** Named arguments without wildcards are accepted exactly when they permute the declared names... */
  lemma NamedIsAccepted<E, T>(u: Internal<E, T>)
    requires u.args.NamedArgs? && Distinct(DynNames(AllParams(u))) && Wilds(AllParams(u)) == []
    ensures Expected(u).Ok? <==> multiset(ArgNames(u.args.args)) == multiset(DynNames(AllParams(u)))
    ensures Expected(u).Ok? ==> Expected(u).exprs == Values(u.args.args, DynNames(AllParams(u)))
  {
    DedupDistinct(DynNames(AllParams(u)));
    AcceptedIsPermutation(DynNames(AllParams(u)), ArgNames(u.args.args));
  }

  /** ...and a permutation gives each declared name the expression it was named with, in declaration order. */
  lemma PermutationIsReordered<E>(args: seq<Arg<E>>, names: seq<string>, i: nat, k: nat)
    requires Distinct(names) && multiset(ArgNames(args)) == multiset(names)
    ensures |Values(args, names)| == |names|
    ensures i < |args| && k < |names| && NameOf(args[i]) == names[k] ==> Values(args, names)[k] == args[i].value
  {
    PermutationGivesAll(args, names);
    ValuesLength(args, names);
    if i < |args| && k < |names| && NameOf(args[i]) == names[k] {
      ValuesAt(args, names, k);
      OneUse(ArgNames(args), names, i, IndexOf(ArgNames(args), names[k]));
    }
  }

  lemma PermutationGivesAll<E>(args: seq<Arg<E>>, names: seq<string>)
    requires multiset(ArgNames(args)) == multiset(names)
    ensures AllGiven(args, names)
  {
    forall j | 0 <= j < |names| ensures ValueOf(args, names[j]).Some? {
      assert names[j] in multiset(names);
      assert names[j] in multiset(ArgNames(args));
      ValueIsUsed(args, names[j]);
    }
  }

  lemma OneUse(used: seq<string>, names: seq<string>, i: nat, j: nat)
    requires Distinct(names) && multiset(used) == multiset(names)
    requires i < |used| && j < |used| && used[i] == used[j]
    ensures i == j
  {
    DistinctCounts(names);
    DistinctCounts(used);
  }

  /** The positional arguments give each parameter what the named ones give it. */
  ghost predicate SameGiven<E>(params: seq<Dyn>, named: seq<Arg<E>>, positional: seq<Arg<E>>)
  {
    && |positional| == |params|
    && forall i, k :: 0 <= i < |named| && 0 <= k < |params| && NameOf(named[i]) == params[k].name ==>
                        positional[k].value == named[i].value
  }

  lemma ValuesArePositional<E>(params: seq<Dyn>, named: seq<Arg<E>>, positional: seq<Arg<E>>)
    requires Distinct(DynNames(params)) && multiset(ArgNames(named)) == multiset(DynNames(params))
    requires SameGiven(params, named, positional)
    ensures Positional(positional) == Values(named, DynNames(params))
  {
    var values := Values(named, DynNames(params));
    PermutationGivesAll(named, DynNames(params));
    ValuesLength(named, DynNames(params));
    forall k | 0 <= k < |params| ensures Positional(positional)[k] == values[k] {
      var i := UsedAt(ArgNames(named), DynNames(params), k);
      PermutationIsReordered(named, DynNames(params), i, k);
    }
  }

  /** Named and positional arguments mean the same: the named call validates to the very expressions that
      the positional call in declaration order validates to, so both expand alike. */
  lemma NamedIsPositional<E, T>(u: Internal<E, T>, v: Internal<E, T>)
    requires u.args.NamedArgs? && Distinct(DynNames(AllParams(u))) && Wilds(AllParams(u)) == []
    requires multiset(ArgNames(u.args.args)) == multiset(DynNames(AllParams(u)))
    requires v == u.(args := v.args) && v.args.UnnamedArgs?
    requires SameGiven(AllParams(u), u.args.args, v.args.args)
    ensures Expected(u).Ok? && Expected(v) == Expected(u)
  {
    NamedIsAccepted(u);
    ValuesArePositional(AllParams(u), u.args.args, v.args.args);
    assert AllParams(v) == AllParams(u);
  }

  /** A permutation uses every name somewhere. */
  lemma UsedAt(used: seq<string>, names: seq<string>, k: nat) returns (i: nat)
    requires multiset(used) == multiset(names) && k < |names|
    ensures i < |used| && used[i] == names[k]
  {
    assert names[k] in multiset(names);
    assert names[k] in multiset(used);
    i :| 0 <= i < |used| && used[i] == names[k];
  }
}
