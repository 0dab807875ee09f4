/** Unfolding handler types into the sentries that the sentinel query traverses. */
module TypeTree {
  import opened Options
  import opened Sentinel

  /** `Opaque`: a generic parameter, `impl Trait`, `_` or a macro; `Closed`: a function pointer or `!`. */
  datatype Kind = Plain | Opaque | Closed

  /** A syntactic type with its nested types; `Stream` is a known macro and what it expands to. */
  datatype Ty =
    | Type(id: TypeId, kind: Kind, kids: seq<Ty>)
    | Stream(id: TypeId, inner: Ty)

  datatype Child = Child(parent: Option<Ty>, ty: Ty)

  // ---------------------------------------------------------------- the visitor

  /** Preorder: every node with its immediate parent, known macros replaced by their expansion. */
  function Unfold(ty: Ty, parent: Option<Ty>): seq<Child>
    decreases ty
  {
    match ty
    case Stream(_, inner) => Unfold(inner, parent)
    case Type(_, _, kids) => [Child(parent, ty)] + UnfoldAll(kids, Some(ty))
  }

  function UnfoldAll(kids: seq<Ty>, parent: Option<Ty>): seq<Child>
    decreases kids
  {
    if kids == [] then [] else Unfold(kids[0], parent) + UnfoldAll(kids[1..], parent)
  }

  lemma {:induction false} UnfoldAllSnoc(kids: seq<Ty>, i: nat, parent: Option<Ty>)
    requires i < |kids|
    ensures UnfoldAll(kids[..i + 1], parent) == UnfoldAll(kids[..i], parent) + Unfold(kids[i], parent)
  {
    if i == 0 {
      assert kids[..1] == [kids[0]] && kids[..0] == [];
      assert kids[..1][1..] == [];
    } else {
      UnfoldAllSnoc(kids[1..], i - 1, parent);
      assert kids[..i + 1][1..] == kids[1..][..i] && kids[..i][1..] == kids[1..][..i - 1];
    }
  }

  // ---------------------------------------------------------------- occurrences

  /** The type at a path of kid indices, a known macro standing for its expansion. */
  function At(ty: Ty, path: seq<nat>): Option<Ty>
    decreases ty
  {
    match ty
    case Stream(_, inner) => At(inner, path)
    case Type(_, _, kids) =>
      if path == [] then Some(ty) else if path[0] < |kids| then At(kids[path[0]], path[1..]) else None
  }

  /** The type right above the one at a path. */
  function Above(ty: Ty, parent: Option<Ty>, path: seq<nat>): Option<Ty>
  {
    if path == [] then parent else At(ty, path[..|path| - 1])
  }

  /** Lexicographic order of paths: a type comes before those nested in it, and these in order. */
  predicate Before(p: seq<nat>, q: seq<nat>)
  {
    q != [] && (p == [] || p[0] < q[0] || (p[0] == q[0] && Before(p[1..], q[1..])))
  }

  /** `cs` lists the occurrences in `ty`: entry `k` is the type at `paths[k]` with the type above it; paths are in
      order, so none is listed twice; and none is missing. */
  ghost predicate Lists(ty: Ty, parent: Option<Ty>, cs: seq<Child>, paths: seq<seq<nat>>)
  {
    && |paths| == |cs|
    && (forall k :: 0 <= k < |cs| ==> Occurs(ty, parent, paths[k], cs[k]))
    && (forall k, l :: 0 <= k < l < |paths| ==> Before(paths[k], paths[l]))
    && (forall path :: At(ty, path).Some? ==> path in paths)
  }

  ghost predicate Occurs(ty: Ty, parent: Option<Ty>, path: seq<nat>, c: Child)
  {
    At(ty, path) == Some(c.ty) && c.parent == Above(ty, parent, path)
  }

  /** `cs` lists the occurrences in the kids of `ty` from kid `from` on, by paths from `ty`. */
  ghost predicate ListsKids(ty: Ty, from: nat, cs: seq<Child>, paths: seq<seq<nat>>)
  {
    && |paths| == |cs|
    && (forall k :: 0 <= k < |cs| ==> paths[k] != [] && paths[k][0] >= from && Occurs(ty, None, paths[k], cs[k]))
    && (forall k, l :: 0 <= k < l < |paths| ==> Before(paths[k], paths[l]))
    && (forall path :: path != [] && path[0] >= from && At(ty, path).Some? ==> path in paths)
  }

  /** Paths into kid `k`. */
  function Under(k: nat, paths: seq<seq<nat>>): (r: seq<seq<nat>>)
    ensures |r| == |paths| && forall i :: 0 <= i < |r| ==> r[i] == [k] + paths[i]
  {
    seq(|paths|, i requires 0 <= i < |paths| => [k] + paths[i])
  }

  lemma AtKid(ty: Ty, k: nat, path: seq<nat>)
    requires ty.Type? && k < |ty.kids|
    ensures At(ty, [k] + path) == At(ty.kids[k], path)
    ensures Above(ty, None, [k] + path) == if path == [] then Some(ty) else At(ty.kids[k], path[..|path| - 1])
  {
    assert ([k] + path)[1..] == path;
    if path == [] {
      assert ([k] + path)[..0] == [];
    } else {
      assert ([k] + path)[..|path|] == [k] + path[..|path| - 1];
      assert ([k] + path[..|path| - 1])[1..] == path[..|path| - 1];
    }
  }

  lemma BeforeUnder(k: nat, p: seq<nat>, q: seq<nat>)
    ensures Before([k] + p, [k] + q) <==> Before(p, q)
  {
    assert ([k] + p)[1..] == p && ([k] + q)[1..] == q;
  }

  lemma KidOccurs(ty: Ty, from: nat, path: seq<nat>, c: Child)
    requires ty.Type? && from < |ty.kids| && Occurs(ty.kids[from], Some(ty), path, c)
    ensures Occurs(ty, None, [from] + path, c)
  {
    AtKid(ty, from, path);
  }

  lemma KidsInOrder(from: nat, paths: seq<seq<nat>>, rest: seq<seq<nat>>, k: nat, l: nat)
    requires k < l < |paths| + |rest|
    requires forall k, l :: 0 <= k < l < |paths| ==> Before(paths[k], paths[l])
    requires forall k, l :: 0 <= k < l < |rest| ==> Before(rest[k], rest[l])
    requires forall k :: 0 <= k < |rest| ==> rest[k] != [] && rest[k][0] > from
    ensures Before((Under(from, paths) + rest)[k], (Under(from, paths) + rest)[l])
  {
    if l < |paths| {
      BeforeUnder(from, paths[k], paths[l]);
    }
  }

  lemma KidsComplete(ty: Ty, from: nat, paths: seq<seq<nat>>, rest: seq<seq<nat>>, path: seq<nat>)
    requires ty.Type? && from < |ty.kids| && path != [] && path[0] >= from && At(ty, path).Some?
    requires At(ty.kids[from], path[1..]).Some? ==> path[1..] in paths
    requires path[0] > from ==> path in rest
    ensures path in Under(from, paths) + rest
  {
    if path[0] == from {
      assert path == [from] + path[1..];
      AtKid(ty, from, path[1..]);
      var k :| 0 <= k < |paths| && paths[k] == path[1..];
      assert Under(from, paths)[k] == path;
    }
  }

  /** The listing of one kid, put before that of the later ones. */
  lemma KidListed(ty: Ty, from: nat, cs: seq<Child>, paths: seq<seq<nat>>, later: seq<Child>, rest: seq<seq<nat>>)
    requires ty.Type? && from < |ty.kids|
    requires Lists(ty.kids[from], Some(ty), cs, paths) && ListsKids(ty, from + 1, later, rest)
    ensures ListsKids(ty, from, cs + later, Under(from, paths) + rest)
  {
    var all, both := Under(from, paths) + rest, cs + later;
    forall k | 0 <= k < |both| ensures all[k] != [] && all[k][0] >= from && Occurs(ty, None, all[k], both[k]) {
      if k < |cs| {
        KidOccurs(ty, from, paths[k], cs[k]);
      } else {
        assert Occurs(ty, None, rest[k - |cs|], later[k - |cs|]);
      }
    }
    forall k, l | 0 <= k < l < |all| ensures Before(all[k], all[l]) {
      KidsInOrder(from, paths, rest, k, l);
    }
    forall path | path != [] && path[0] >= from && At(ty, path).Some? ensures path in all {
      KidsComplete(ty, from, paths, rest, path);
    }
  }

  lemma {:induction false} UnfoldAllLists(ty: Ty, from: nat) returns (paths: seq<seq<nat>>)
    requires ty.Type? && from <= |ty.kids|
    ensures ListsKids(ty, from, UnfoldAll(ty.kids[from..], Some(ty)), paths)
    decreases ty, 0, |ty.kids| - from
  {
    if from == |ty.kids| {
      paths := [];
    } else {
      var here := UnfoldLists(ty.kids[from], Some(ty));
      var rest := UnfoldAllLists(ty, from + 1);
      KidListed(ty, from, Unfold(ty.kids[from], Some(ty)), here, UnfoldAll(ty.kids[from + 1..], Some(ty)), rest);
      assert ty.kids[from..][1..] == ty.kids[from + 1..];
      paths := Under(from, here) + rest;
    }
  }

  lemma OccursUnder(ty: Ty, parent: Option<Ty>, path: seq<nat>, c: Child)
    requires path != [] && Occurs(ty, None, path, c)
    ensures Occurs(ty, parent, path, c)
  {
  }

  lemma NodeComplete(ty: Ty, paths: seq<seq<nat>>, path: seq<nat>)
    requires path != [] ==> path in paths
    ensures path in [[]] + paths
  {
    var ps := [[]] + paths;
    if path == [] {
      assert ps[0] == path;
    } else {
      var k :| 0 <= k < |paths| && paths[k] == path;
      assert ps[k + 1] == path;
    }
  }

  lemma NodeListed(ty: Ty, parent: Option<Ty>, cs: seq<Child>, paths: seq<seq<nat>>)
    requires ty.Type? && ListsKids(ty, 0, cs, paths)
    ensures Lists(ty, parent, [Child(parent, ty)] + cs, [[]] + paths)
  {
    var all, ps := [Child(parent, ty)] + cs, [[]] + paths;
    forall k | 0 <= k < |all| ensures Occurs(ty, parent, ps[k], all[k]) {
      if k > 0 {
        assert ps[k] == paths[k - 1] && all[k] == cs[k - 1];
        OccursUnder(ty, parent, paths[k - 1], cs[k - 1]);
      }
    }
    forall k, l | 0 <= k < l < |ps| ensures Before(ps[k], ps[l]) {
      assert ps[l] == paths[l - 1];
      if k > 0 {
        assert ps[k] == paths[k - 1] && Before(paths[k - 1], paths[l - 1]);
      }
    }
    forall path | At(ty, path).Some? ensures path in ps {
      NodeComplete(ty, paths, path);
    }
  }

  /** The listing has the occurrences in the type, each once, with the type above it, in order. */
  lemma {:induction false} UnfoldLists(ty: Ty, parent: Option<Ty>) returns (paths: seq<seq<nat>>)
    ensures Lists(ty, parent, Unfold(ty, parent), paths)
    decreases ty, 1
  {
    match ty
    case Stream(_, inner) =>
      paths := UnfoldLists(inner, parent);
      assert forall k :: 0 <= k < |paths| ==> Occurs(inner, parent, paths[k], Unfold(inner, parent)[k]);
    case Type(_, _, kids) =>
      var below := UnfoldAllLists(ty, 0);
      assert kids[0..] == kids;
      NodeListed(ty, parent, UnfoldAll(kids, Some(ty)), below);
      paths := [[]] + below;
  }

  class Visitor {
    var parents: seq<Ty>
    var children: seq<Child>

    constructor ()
      ensures parents == [] && children == []
    {
      parents, children := [], [];
    }

    ghost function Parent(): Option<Ty>
      reads this
    {
      if parents == [] then None else Some(parents[|parents| - 1])
    }

    /** Appends the unfolding of `ty` and leaves the stack of parents as it was. */
    method VisitType(ty: Ty)
      modifies this
      ensures parents == old(parents)
      ensures children == old(children) + Unfold(ty, old(Parent()))
      decreases ty
    {
      var parent := if parents == [] then None else Some(parents[|parents| - 1]);
      match ty
      case Stream(_, inner) =>
        var visitor := new Visitor();
        if parent.Some? {
          visitor.parents := visitor.parents + [parent.value];
        }
        visitor.VisitType(inner);
        children := children + visitor.children;
      case Type(_, _, kids) =>
        children := children + [Child(parent, ty)];
        parents := parents + [ty];
        for i := 0 to |kids|
          invariant parents == old(parents) + [ty]
          invariant children == old(children) + [Child(parent, ty)] + UnfoldAll(kids[..i], Some(ty))
        {
          UnfoldAllSnoc(kids, i, Some(ty));
          VisitType(kids[i]);
        }
        assert kids[..|kids|] == kids;
        parents := parents[..|parents| - 1];
    }
  }

  /** `unfold_with_ty_macros`. */
  method UnfoldWithTyMacros(ty: Ty) returns (children: seq<Child>)
    ensures children == Unfold(ty, None)
    ensures exists paths :: Lists(ty, None, children, paths)
  {
    var visitor := new Visitor();
    visitor.VisitType(ty);
    children := visitor.children;
    ghost var paths := UnfoldLists(ty, None);
    assert Lists(ty, None, children, paths);
  }

  // ---------------------------------------------------------------- concreteness

  /** What the concreteness visitor writes to its flag, in order. */
  function Marks(ty: Ty): seq<bool>
    decreases ty
  {
    match ty
    case Stream(_, _) => [false]
    case Type(_, Opaque, _) => [false]
    case Type(_, Closed, _) => [true]
    case Type(_, Plain, kids) => MarksAll(kids)
  }

  function MarksAll(kids: seq<Ty>): seq<bool>
    decreases kids
  {
    if kids == [] then [] else Marks(kids[0]) + MarksAll(kids[1..])
  }

  function LastOr(marks: seq<bool>, flag: bool): bool
  {
    if marks == [] then flag else marks[|marks| - 1]
  }

  predicate IsConcrete(ty: Ty) { LastOr(Marks(ty), true) }

  lemma {:induction false} MarksAllSnoc(kids: seq<Ty>, i: nat)
    requires i < |kids|
    ensures MarksAll(kids[..i + 1]) == MarksAll(kids[..i]) + Marks(kids[i])
  {
    if i == 0 {
      assert kids[..1] == [kids[0]] && kids[..0] == [];
      assert kids[..1][1..] == [];
    } else {
      MarksAllSnoc(kids[1..], i - 1);
      assert kids[..i + 1][1..] == kids[1..][..i] && kids[..i][1..] == kids[1..][..i - 1];
    }
  }

  class ConcreteVisitor {
    var flag: bool

    constructor ()
      ensures flag
    {
      flag := true;
    }

    /** Later writes win: the flag ends as the last mark of the tree. */
    method VisitType(ty: Ty)
      modifies this
      ensures flag == LastOr(Marks(ty), old(flag))
      decreases ty
    {
      match ty
      case Stream(_, _) => flag := false;
      case Type(_, Opaque, _) => flag := false;
      case Type(_, Closed, _) => flag := true;
      case Type(_, Plain, kids) =>
        for i := 0 to |kids|
          invariant flag == LastOr(MarksAll(kids[..i]), old(flag))
        {
          MarksAllSnoc(kids, i);
          VisitType(kids[i]);
        }
        assert kids[..|kids|] == kids;
    }
  }

  /** `u` is `ty` or nested in it. */
  ghost predicate Within(u: Ty, ty: Ty)
    decreases ty
  {
    u == ty || match ty
               case Stream(_, inner) => Within(u, inner)
               case Type(_, _, kids) => exists k :: 0 <= k < |kids| && Within(u, kids[k])
  }

  /** No opaque type and no macro anywhere in `ty`. */
  predicate Clean(ty: Ty)
    decreases ty
  {
    ty.Type? && !ty.kind.Opaque? && forall k :: 0 <= k < |ty.kids| ==> Clean(ty.kids[k])
  }

  lemma {:induction false} CleanMarks(ty: Ty)
    requires Clean(ty)
    ensures false !in Marks(ty)
    decreases ty, |ty.kids| + 1
  {
    CleanMarksAll(ty, 0);
    assert ty.kids[0..] == ty.kids;
  }

  lemma {:induction false} CleanMarksAll(ty: Ty, from: nat)
    requires Clean(ty) && from <= |ty.kids|
    ensures false !in MarksAll(ty.kids[from..])
    decreases ty, |ty.kids| - from
  {
    if from < |ty.kids| {
      CleanMarks(ty.kids[from]);
      CleanMarksAll(ty, from + 1);
      assert ty.kids[from..][1..] == ty.kids[from + 1..];
    }
  }

  lemma {:induction false} CleanWithin(ty: Ty, u: Ty)
    requires Clean(ty) && Within(u, ty)
    ensures Clean(u) && IsConcrete(u)
    decreases ty
  {
    if u == ty {
      CleanMarks(ty);
      assert Marks(ty) != [] ==> Marks(ty)[|Marks(ty)| - 1] in Marks(ty);
    } else {
      var k :| 0 <= k < |ty.kids| && Within(u, ty.kids[k]);
      CleanWithin(ty.kids[k], u);
    }
  }

  lemma {:induction false} UncleanWithin(ty: Ty) returns (u: Ty)
    requires !Clean(ty)
    ensures Within(u, ty) && !IsConcrete(u)
    decreases ty
  {
    u := ty;
    if ty.Type? && !ty.kind.Opaque? {
      var k :| 0 <= k < |ty.kids| && !Clean(ty.kids[k]);
      u := UncleanWithin(ty.kids[k]);
    }
  }

  /** The last node, in visiting order, that is opaque, closed or a macro, not counting nodes inside one. */
  function LastDecider(ty: Ty): Option<Ty>
    decreases ty
  {
    if ty.Type? && ty.kind.Plain? then LastDeciderOf(ty.kids) else Some(ty)
  }

  function LastDeciderOf(kids: seq<Ty>): Option<Ty>
    decreases kids
  {
    if kids == [] then None
    else
      var later := LastDeciderOf(kids[1..]);
      if later.Some? then later else LastDecider(kids[0])
  }

  predicate IsClosed(ty: Ty) { ty.Type? && ty.kind.Closed? }

  /** `marks` ends with the verdict of `last`. */
  predicate EndsBy(marks: seq<bool>, last: Option<Ty>)
  {
    if last.None? then marks == [] else marks != [] && marks[|marks| - 1] == IsClosed(last.value)
  }

  lemma {:induction false} LastDeciderDecides(ty: Ty)
    ensures EndsBy(Marks(ty), LastDecider(ty))
    decreases ty, 0
  {
    if ty.Type? && ty.kind.Plain? {
      LastDeciderOfDecides(ty, 0);
      assert ty.kids[0..] == ty.kids;
    }
  }

  lemma {:induction false} LastDeciderOfDecides(ty: Ty, from: nat)
    requires ty.Type? && from <= |ty.kids|
    ensures EndsBy(MarksAll(ty.kids[from..]), LastDeciderOf(ty.kids[from..]))
    decreases ty, 0, |ty.kids| - from
  {
    if from < |ty.kids| {
      var kids := ty.kids[from..];
      assert kids[1..] == ty.kids[from + 1..] && kids[0] == ty.kids[from];
      LastDeciderDecides(ty.kids[from]);
      LastDeciderOfDecides(ty, from + 1);
    }
  }

  /** The route attribute takes for granted that a type is not concrete when something nested in it is
      not. As the visitor's later writes win, and it does not enter function pointers, that is so exactly
      when the type holds no opaque type or macro anywhere, or the last node to decide is one. */
  lemma NonConcretePropagates(ty: Ty)
    ensures (forall u :: Within(u, ty) && !IsConcrete(u) ==> !IsConcrete(ty)) <==>
            Clean(ty) || (LastDecider(ty).Some? && !IsClosed(LastDecider(ty).value))
  {
    LastDeciderDecides(ty);
    if Clean(ty) {
      forall u | Within(u, ty) ensures IsConcrete(u) {
        CleanWithin(ty, u);
      }
    } else {
      var u := UncleanWithin(ty);
    }
  }

  /** It fails for `(impl Trait, fn())`. */
  lemma NonConcreteMayNotPropagate(a: TypeId, b: TypeId, c: TypeId)
    ensures var impl_, fn_ := Type(a, Opaque, []), Type(b, Closed, []);
            var pair := Type(c, Plain, [impl_, fn_]);
            Within(impl_, pair) && !IsConcrete(impl_) && IsConcrete(pair)
  {
    var impl_, fn_ := Type(a, Opaque, []), Type(b, Closed, []);
    var pair := Type(c, Plain, [impl_, fn_]);
    assert pair.kids[0] == impl_ && Within(impl_, pair.kids[0]);
    assert pair.kids[1..] == [fn_] && [fn_][1..] == [];
    assert MarksAll([fn_]) == [true];
  }

  // ---------------------------------------------------------------- sentries

  /** `resolve!`: a sentry for a type, with its parent unless that one is filtered out. */
  function Resolve(c: Child, spec: TypeId -> bool, aborts: TypeId -> bool): Sentry
  {
    Sentry(c.ty.id,
           if c.parent.Some? && IsConcrete(c.parent.value) then Some(c.parent.value.id) else None,
           spec(c.ty.id), aborts(c.ty.id))
  }

  /** One sentry per concrete listed type. */
  function Sentries(cs: seq<Child>, spec: TypeId -> bool, aborts: TypeId -> bool): seq<Sentry>
  {
    if cs == [] then []
    else (if IsConcrete(cs[0].ty) then [Resolve(cs[0], spec, aborts)] else []) + Sentries(cs[1..], spec, aborts)
  }

  /** How many of the first `n` entries are concrete. */
  function ConcreteBefore(cs: seq<Child>, n: nat): nat
    requires n <= |cs|
  {
    if n == 0 then 0 else (if IsConcrete(cs[0].ty) then 1 else 0) + ConcreteBefore(cs[1..], n - 1)
  }

  /** One sentry for each concrete entry and no other, in order: that of an entry stands behind those of the
      concrete entries before it. */
  lemma {:induction false} OnePerConcrete(cs: seq<Child>, spec: TypeId -> bool, aborts: TypeId -> bool, i: nat)
    ensures |Sentries(cs, spec, aborts)| == ConcreteBefore(cs, |cs|)
    ensures i < |cs| && IsConcrete(cs[i].ty) ==>
              && ConcreteBefore(cs, i) < |Sentries(cs, spec, aborts)|
              && Sentries(cs, spec, aborts)[ConcreteBefore(cs, i)] == Resolve(cs[i], spec, aborts)
  {
    if cs != [] {
      OnePerConcrete(cs[1..], spec, aborts, if i > 0 then i - 1 else 0);
    }
  }

  lemma {:induction false} ResolvedIsListed(cs: seq<Child>, c: Child, spec: TypeId -> bool, aborts: TypeId -> bool)
      returns (j: nat)
    requires c in cs && IsConcrete(c.ty)
    ensures var s := Sentries(cs, spec, aborts); j < |s| && s[j] == Resolve(c, spec, aborts)
  {
    if c == cs[0] {
      j := 0;
    } else {
      var i := ResolvedIsListed(cs[1..], c, spec, aborts);
      j := i + if IsConcrete(cs[0].ty) then 1 else 0;
    }
  }

  lemma {:induction false} SentryHasChild(cs: seq<Child>, j: nat, spec: TypeId -> bool, aborts: TypeId -> bool)
      returns (c: Child)
    requires j < |Sentries(cs, spec, aborts)|
    ensures c in cs && IsConcrete(c.ty) && Sentries(cs, spec, aborts)[j] == Resolve(c, spec, aborts)
  {
    var head := if IsConcrete(cs[0].ty) then 1 else 0;
    if j < head {
      c := cs[0];
    } else {
      c := SentryHasChild(cs[1..], j - head, spec, aborts);
    }
  }

  lemma {:induction false} UnfoldAllMember(kids: seq<Ty>, parent: Option<Ty>, c: Child) returns (k: nat)
    requires c in UnfoldAll(kids, parent)
    ensures k < |kids| && c in Unfold(kids[k], parent)
  {
    if c in Unfold(kids[0], parent) {
      k := 0;
    } else {
      var i := UnfoldAllMember(kids[1..], parent, c);
      k := i + 1;
    }
  }

  lemma {:induction false} UnfoldAllHas(kids: seq<Ty>, parent: Option<Ty>, k: nat, c: Child)
    requires k < |kids| && c in Unfold(kids[k], parent)
    ensures c in UnfoldAll(kids, parent)
  {
    if k > 0 {
      UnfoldAllHas(kids[1..], parent, k - 1, c);
    }
  }

  /** The type a node unfolds to: a known macro stands for its expansion. */
  function Strip(ty: Ty): (r: Ty)
    ensures r.Type?
  {
    match ty case Stream(_, inner) => Strip(inner) case Type(_, _, _) => ty
  }

  /** What is listed under a parent is that parent's immediate (expanded) kid, and the parent is listed. */
  lemma {:induction false} ParentOfListed(ty: Ty, parent: Option<Ty>, c: Child)
    requires c in Unfold(ty, parent)
    ensures c.ty.Type? && Within(c.ty, ty)
    ensures (c.parent == parent && c.ty == Strip(ty)) ||
            (c.parent.Some? && c.parent.value.Type? && Within(c.parent.value, ty) &&
             (exists d :: d in Unfold(ty, parent) && d.ty == c.parent.value) &&
             exists k :: 0 <= k < |c.parent.value.kids| && Strip(c.parent.value.kids[k]) == c.ty)
    decreases ty
  {
    match ty
    case Stream(_, inner) => ParentOfListed(inner, parent, c);
    case Type(_, _, kids) =>
      if c != Child(parent, ty) {
        var k := UnfoldAllMember(kids, Some(ty), c);
        ParentOfListed(kids[k], Some(ty), c);
        if c.parent == Some(ty) && c.ty == Strip(kids[k]) {
          assert Child(parent, ty) in Unfold(ty, parent);
        } else {
          var d :| d in Unfold(kids[k], Some(ty)) && d.ty == c.parent.value;
          UnfoldAllHas(kids, Some(ty), k, d);
        }
      }
  }

  /** The graph has no broken links: a sentry's parent is the type of some sentry. */
  lemma NoBrokenLinks(forest: seq<Ty>, spec: TypeId -> bool, aborts: TypeId -> bool, i: nat) returns (j: nat)
    requires i < |Sentries(UnfoldAll(forest, None), spec, aborts)|
    requires Sentries(UnfoldAll(forest, None), spec, aborts)[i].parent.Some?
    ensures var s := Sentries(UnfoldAll(forest, None), spec, aborts);
            j < |s| && s[i].parent == Some(s[j].typeId)
  {
    var cs := UnfoldAll(forest, None);
    var c := SentryHasChild(cs, i, spec, aborts);
    var k := UnfoldAllMember(forest, None, c);
    ParentOfListed(forest[k], None, c);
    var d :| d in Unfold(forest[k], None) && d.ty == c.parent.value;
    UnfoldAllHas(forest, None, k, d);
    j := ResolvedIsListed(cs, d, spec, aborts);
  }

  // ---------------------------------------------------------------- what gets queried

  /** A concrete sentinel type, below which nothing is looked at. */
  predicate Blocks(ty: Ty, spec: TypeId -> bool) { IsConcrete(ty) && spec(ty.id) }

  /** `n` occurs in `ty` with no sentinel above it. */
  ghost predicate Exposed(ty: Ty, spec: TypeId -> bool, n: Ty)
    decreases ty
  {
    match ty
    case Stream(_, inner) => Exposed(inner, spec, n)
    case Type(_, _, kids) =>
      n == ty || (!Blocks(ty, spec) && exists k :: 0 <= k < |kids| && Exposed(kids[k], spec, n))
  }

  /** From wherever the search has come to in a tree, it reaches every exposed concrete type below. */
  lemma {:induction false} ExposedIsReached(cs: seq<Child>, spec: TypeId -> bool, aborts: TypeId -> bool,
                                            ty: Ty, parent: Option<Ty>, up: seq<nat>, n: Ty)
      returns (path: seq<nat>, j: nat)
    requires forall c :: c in Unfold(ty, parent) ==> c in cs
    requires parent.Some? && IsConcrete(parent.value) ==>
               var s := Sentries(cs, spec, aborts);
               up != [] && LeadsTo(s, up, up[|up| - 1]) && s[up[|up| - 1]].typeId == parent.value.id
               && !s[up[|up| - 1]].specialized
    requires Exposed(ty, spec, n) && IsConcrete(n)
    ensures var s := Sentries(cs, spec, aborts);
            LeadsTo(s, path, j) && j < |s| && s[j].typeId == n.id && s[j].specialized == spec(n.id)
    decreases ty
  {
    var s := Sentries(cs, spec, aborts);
    match ty
    case Stream(_, inner) =>
      path, j := ExposedIsReached(cs, spec, aborts, inner, parent, up, n);
    case Type(_, _, kids) =>
      var down := up;
      if IsConcrete(ty) {
        var c := Child(parent, ty);
        assert c in Unfold(ty, parent);
        j := ResolvedIsListed(cs, c, spec, aborts);
        down := if s[j].parent.None? then [j] else up + [j];
        ExtendPath(s, up, j);
        path := down;
      }
      if n != ty {
        var k :| 0 <= k < |kids| && Exposed(kids[k], spec, n);
        forall c | c in Unfold(kids[k], Some(ty)) ensures c in cs {
          UnfoldAllHas(kids, Some(ty), k, c);
          assert c in Unfold(ty, parent);
        }
        path, j := ExposedIsReached(cs, spec, aborts, kids[k], Some(ty), down, n);
      }
  }

  /** `path` can be followed by `j`. */
  ghost predicate Extends(s: seq<Sentry>, path: seq<nat>, j: nat)
  {
    && path != [] && LeadsTo(s, path, path[|path| - 1]) && j < |s|
    && !s[path[|path| - 1]].specialized && s[j].parent == Some(s[path[|path| - 1]].typeId)
  }

  lemma ExtendPath(s: seq<Sentry>, up: seq<nat>, j: nat)
    requires j < |s|
    ensures s[j].parent.None? ==> LeadsTo(s, [j], j)
    ensures Extends(s, up, j) ==> LeadsTo(s, up + [j], j)
  {
    if Extends(s, up, j) {
      var path := up + [j];
      assert Indices(s, path);
      forall k | 0 < k < |path| ensures Link(s, path, k) {
        if k < |up| {
          assert Link(s, up, k);
        }
      }
    }
  }

  /** A concrete type listed without a concrete parent is exposed, if concreteness passes downwards. */
  lemma {:induction false} RootIsExposed(ty: Ty, parent: Option<Ty>, spec: TypeId -> bool, c: Child)
    requires c in Unfold(ty, parent)
    requires parent.None? || !IsConcrete(parent.value)
    requires c.parent.None? || !IsConcrete(c.parent.value)
    requires forall d :: d in Unfold(ty, parent) && IsConcrete(d.ty) ==> Clean(d.ty)
    ensures Exposed(ty, spec, c.ty)
    decreases ty
  {
    match ty
    case Stream(_, inner) => RootIsExposed(inner, parent, spec, c);
    case Type(_, _, kids) =>
      var top := Child(parent, ty);
      assert top in Unfold(ty, parent);
      if c != top {
        var k := UnfoldAllMember(kids, Some(ty), c);
        ParentOfListed(kids[k], Some(ty), c);
        if IsConcrete(ty) {
          assert Clean(top.ty) && Within(kids[k], ty) && Clean(kids[k]);
          if c.parent == Some(ty) { CleanWithin(ty, ty); } else { CleanWithin(kids[k], c.parent.value); }
          assert false;
        }
        forall d | d in Unfold(kids[k], Some(ty)) && IsConcrete(d.ty) ensures Clean(d.ty) {
          UnfoldAllHas(kids, Some(ty), k, d);
          assert d in Unfold(ty, parent);
        }
        RootIsExposed(kids[k], Some(ty), spec, c);
      }
  }

  lemma {:induction false} StripIsExposed(ty: Ty, spec: TypeId -> bool)
    ensures Exposed(ty, spec, Strip(ty))
    decreases ty
  {
    if ty.Stream? {
      StripIsExposed(ty.inner, spec);
    }
  }

  /** Exposure passes from a type that is no sentinel to its immediate kids. */
  lemma {:induction false} KidIsExposed(ty: Ty, spec: TypeId -> bool, n: Ty, k: nat)
    requires Exposed(ty, spec, n) && n.Type? && k < |n.kids| && !Blocks(n, spec)
    ensures Exposed(ty, spec, Strip(n.kids[k]))
    decreases ty
  {
    match ty
    case Stream(_, inner) => KidIsExposed(inner, spec, n, k);
    case Type(_, _, kids) =>
      if n == ty {
        StripIsExposed(kids[k], spec);
      } else {
        var l :| 0 <= l < |kids| && Exposed(kids[l], spec, n);
        KidIsExposed(kids[l], spec, n, k);
      }
  }

  /** The id is that of a concrete type occurring with no sentinel above it. */
  ghost predicate ExposedId(forest: seq<Ty>, spec: TypeId -> bool, t: TypeId)
  {
    exists f, n :: 0 <= f < |forest| && Exposed(forest[f], spec, n) && IsConcrete(n) && n.id == t
  }

  /** The search can come to `c` in one step: it starts there, or `c` is nested in a type that has the id of
      an exposed one and is no sentinel. */
  ghost predicate OneStep(forest: seq<Ty>, spec: TypeId -> bool, c: Child)
  {
    c.parent.Some? && IsConcrete(c.parent.value) ==>
      !spec(c.parent.value.id) && ExposedId(forest, spec, c.parent.value.id)
  }

  /** One step from exposed ids leads to exposed ids only. */
  ghost predicate ClosedForest(forest: seq<Ty>, spec: TypeId -> bool)
  {
    forall c :: c in UnfoldAll(forest, None) && IsConcrete(c.ty) && OneStep(forest, spec, c) ==>
                  ExposedId(forest, spec, c.ty.id)
  }

  /** Everything the search comes to has the id of an exposed type. */
  ghost predicate ReachesExposedOnly(forest: seq<Ty>, spec: TypeId -> bool, aborts: TypeId -> bool)
  {
    var s := Sentries(UnfoldAll(forest, None), spec, aborts);
    forall j: nat, path :: LeadsTo(s, path, j) && j < |s| ==> ExposedId(forest, spec, s[j].typeId)
  }

  /** Every sentinel asked has the id of an exposed one. */
  ghost predicate AsksExposedOnly(forest: seq<Ty>, spec: TypeId -> bool, aborts: TypeId -> bool)
  {
    var s := Sentries(UnfoldAll(forest, None), spec, aborts);
    forall j: nat, path :: LeadsTo(s, path, j) && j < |s| && s[j].specialized ==> ExposedId(forest, spec, s[j].typeId)
  }

  lemma PathPrefix(s: seq<Sentry>, path: seq<nat>, j: nat, n: nat)
    requires LeadsTo(s, path, j) && 0 < n <= |path|
    ensures LeadsTo(s, path[..n], path[n - 1])
  {
    var up := path[..n];
    forall k | 0 < k < |up| ensures Link(s, up, k) {
      assert Link(s, path, k);
    }
  }

  /** In a closed forest, whatever the search comes to is exposed: step by step along its path. */
  lemma {:induction false} ReachedIsExposed(forest: seq<Ty>, spec: TypeId -> bool, aborts: TypeId -> bool,
                                            path: seq<nat>, j: nat)
    requires ClosedForest(forest, spec)
    requires LeadsTo(Sentries(UnfoldAll(forest, None), spec, aborts), path, j)
    requires j < |Sentries(UnfoldAll(forest, None), spec, aborts)|
    ensures ExposedId(forest, spec, Sentries(UnfoldAll(forest, None), spec, aborts)[j].typeId)
    decreases |path|
  {
    var cs := UnfoldAll(forest, None);
    var s := Sentries(cs, spec, aborts);
    var c := SentryHasChild(cs, j, spec, aborts);
    var last := |path| - 1;
    if last > 0 {
      assert Link(s, path, last);
      PathPrefix(s, path, j, last);
      ReachedIsExposed(forest, spec, aborts, path[..last], path[last - 1]);
      var b := SentryHasChild(cs, path[last - 1], spec, aborts);
    }
    assert OneStep(forest, spec, c);
  }

  lemma StepIsReached(forest: seq<Ty>, spec: TypeId -> bool, aborts: TypeId -> bool, c: Child)
      returns (path: seq<nat>, j: nat)
    requires c in UnfoldAll(forest, None) && IsConcrete(c.ty) && OneStep(forest, spec, c)
    ensures var s := Sentries(UnfoldAll(forest, None), spec, aborts);
            LeadsTo(s, path, j) && j < |s| && s[j].typeId == c.ty.id
  {
    var cs := UnfoldAll(forest, None);
    var s := Sentries(cs, spec, aborts);
    j := ResolvedIsListed(cs, c, spec, aborts);
    var up: seq<nat> := [];
    if c.parent.Some? && IsConcrete(c.parent.value) {
      var f, n :| 0 <= f < |forest| && Exposed(forest[f], spec, n) && IsConcrete(n) && n.id == c.parent.value.id;
      var i: nat;
      up, i := ExposedInForest(forest, spec, aborts, f, n);
    }
    ExtendPath(s, up, j);
    path := up + [j];
  }

  lemma ExposedInForest(forest: seq<Ty>, spec: TypeId -> bool, aborts: TypeId -> bool, f: nat, n: Ty)
      returns (path: seq<nat>, j: nat)
    requires f < |forest| && Exposed(forest[f], spec, n) && IsConcrete(n)
    ensures var s := Sentries(UnfoldAll(forest, None), spec, aborts);
            LeadsTo(s, path, j) && j < |s| && s[j].typeId == n.id && s[j].specialized == spec(n.id)
  {
    var cs := UnfoldAll(forest, None);
    forall c | c in Unfold(forest[f], None) ensures c in cs {
      UnfoldAllHas(forest, None, f, c);
    }
    path, j := ExposedIsReached(cs, spec, aborts, forest[f], None, [], n);
  }

  /** For given sentinels: the search comes to exposed types only exactly if the forest is closed. */
  lemma ReachedAreExposedIff(forest: seq<Ty>, spec: TypeId -> bool, aborts: TypeId -> bool)
    ensures ReachesExposedOnly(forest, spec, aborts) <==> ClosedForest(forest, spec)
  {
    var s := Sentries(UnfoldAll(forest, None), spec, aborts);
    if ClosedForest(forest, spec) {
      forall j: nat, path | LeadsTo(s, path, j) && j < |s| ensures ExposedId(forest, spec, s[j].typeId) {
        ReachedIsExposed(forest, spec, aborts, path, j);
      }
    }
    if ReachesExposedOnly(forest, spec, aborts) {
      forall c | c in UnfoldAll(forest, None) && IsConcrete(c.ty) && OneStep(forest, spec, c)
        ensures ExposedId(forest, spec, c.ty.id)
      {
        var path, j := StepIsReached(forest, spec, aborts, c);
      }
    }
  }

  // ---------------------------------------------------------------- one more sentinel

  function Also(spec: TypeId -> bool, t: TypeId): TypeId -> bool { (x: TypeId) => spec(x) || x == t }

  lemma {:induction false} FewerExposed(ty: Ty, spec: TypeId -> bool, t: TypeId, n: Ty)
    requires Exposed(ty, Also(spec, t), n)
    ensures Exposed(ty, spec, n)
    decreases ty
  {
    match ty
    case Stream(_, inner) => FewerExposed(inner, spec, t, n);
    case Type(_, _, kids) =>
      if n != ty {
        var k :| 0 <= k < |kids| && Exposed(kids[k], Also(spec, t), n);
        FewerExposed(kids[k], spec, t, n);
      }
  }

  lemma {:induction false} AlsoSentry(cs: seq<Child>, spec: TypeId -> bool, aborts: TypeId -> bool, t: TypeId, j: nat)
    ensures var s, s' := Sentries(cs, spec, aborts), Sentries(cs, Also(spec, t), aborts);
            |s'| == |s| && (j < |s| ==> s'[j] == s[j].(specialized := s[j].specialized || s[j].typeId == t))
  {
    if cs != [] {
      var head := if IsConcrete(cs[0].ty) then 1 else 0;
      AlsoSentry(cs[1..], spec, aborts, t, if j >= head then j - head else 0);
    }
  }

  /** Of a path to something not exposed, the shortest part that ends in such a thing. */
  lemma {:induction false} FirstUnexposed(forest: seq<Ty>, spec: TypeId -> bool, s: seq<Sentry>, path: seq<nat>, j: nat)
      returns (n: nat)
    requires LeadsTo(s, path, j) && j < |s| && !ExposedId(forest, spec, s[j].typeId)
    ensures 0 < n <= |path| && path[n - 1] < |s| && !ExposedId(forest, spec, s[path[n - 1]].typeId)
    ensures forall k :: 0 <= k < n - 1 ==> path[k] < |s| && ExposedId(forest, spec, s[path[k]].typeId)
    decreases |path|
  {
    n := |path|;
    if k :| 0 <= k < n - 1 && !ExposedId(forest, spec, s[path[k]].typeId) {
      PathPrefix(s, path, j, k + 1);
      n := FirstUnexposed(forest, spec, s, path[..k + 1], path[k]);
    }
  }

  /** If the search comes to something not exposed, making that a sentinel too gets it asked. */
  lemma UnexposedIsAsked(forest: seq<Ty>, spec: TypeId -> bool, aborts: TypeId -> bool, path: seq<nat>, j: nat)
      returns (t: TypeId)
    requires var s := Sentries(UnfoldAll(forest, None), spec, aborts);
             LeadsTo(s, path, j) && j < |s| && !ExposedId(forest, spec, s[j].typeId)
    ensures !AsksExposedOnly(forest, Also(spec, t), aborts)
  {
    var cs := UnfoldAll(forest, None);
    var s := Sentries(cs, spec, aborts);
    var n := FirstUnexposed(forest, spec, s, path, j);
    var up, i := path[..n], path[n - 1];
    PathPrefix(s, path, j, n);
    t := s[i].typeId;
    var s' := Sentries(cs, Also(spec, t), aborts);
    AlsoSentry(cs, spec, aborts, t, i);
    forall k | 0 <= k < |up| ensures up[k] < |s'| && s'[up[k]] ==
                                     s[up[k]].(specialized := s[up[k]].specialized || s[up[k]].typeId == t)
    {
      AlsoSentry(cs, spec, aborts, t, up[k]);
    }
    assert Indices(s', up);
    forall k | 0 < k < |up| ensures Link(s', up, k) {
      assert Link(s, up, k);
      assert s[up[k - 1]].typeId != t;
    }
    assert LeadsTo(s', up, i) && s'[i].specialized;
    if ExposedId(forest, Also(spec, t), t) {
      var f, m :| 0 <= f < |forest| && Exposed(forest[f], Also(spec, t), m) && IsConcrete(m) && m.id == t;
      FewerExposed(forest[f], spec, t, m);
    }
  }

  /** Whatever types are sentinels, none is asked but exposed ones, exactly if the forest is closed whatever
      types are sentinels. */
  lemma AskedAreExposedIff(forest: seq<Ty>, aborts: TypeId -> bool)
    ensures (forall spec :: AsksExposedOnly(forest, spec, aborts)) <==> (forall spec :: ClosedForest(forest, spec))
  {
    if forall spec :: ClosedForest(forest, spec) {
      forall spec ensures AsksExposedOnly(forest, spec, aborts) {
        ReachedAreExposedIff(forest, spec, aborts);
      }
    }
    if spec :| !ClosedForest(forest, spec) {
      ReachedAreExposedIff(forest, spec, aborts);
      var s := Sentries(UnfoldAll(forest, None), spec, aborts);
      var j: nat, path :| LeadsTo(s, path, j) && j < |s| && !ExposedId(forest, spec, s[j].typeId);
      var t := UnexposedIsAsked(forest, spec, aborts, path, j);
    }
  }

  // ---------------------------------------------------------------- forests that are closed

  /** Equal type ids mean equal types: no alias hides what it names. */
  ghost predicate IdsAreTypes(cs: seq<Child>)
  {
    forall c, d :: c in cs && d in cs && c.ty.id == d.ty.id ==> c.ty == d.ty
  }

  /** Concrete types are concrete throughout. */
  ghost predicate CleanThroughout(cs: seq<Child>)
  {
    forall c :: c in cs && IsConcrete(c.ty) ==> Clean(c.ty)
  }

  lemma {:induction false} ExposedIsListed(ty: Ty, parent: Option<Ty>, spec: TypeId -> bool, n: Ty) returns (c: Child)
    requires Exposed(ty, spec, n)
    ensures c in Unfold(ty, parent) && c.ty == n
    decreases ty
  {
    match ty
    case Stream(_, inner) => c := ExposedIsListed(inner, parent, spec, n);
    case Type(_, _, kids) =>
      c := Child(parent, ty);
      if n != ty {
        var k :| 0 <= k < |kids| && Exposed(kids[k], spec, n);
        c := ExposedIsListed(kids[k], Some(ty), spec, n);
        UnfoldAllHas(kids, Some(ty), k, c);
      }
  }

  /** A forest without aliases in which concrete types are concrete throughout is closed. */
  lemma PlainForestIsClosed(forest: seq<Ty>, spec: TypeId -> bool)
    requires IdsAreTypes(UnfoldAll(forest, None)) && CleanThroughout(UnfoldAll(forest, None))
    ensures ClosedForest(forest, spec)
  {
    var cs := UnfoldAll(forest, None);
    forall c | c in cs && IsConcrete(c.ty) && OneStep(forest, spec, c) ensures ExposedId(forest, spec, c.ty.id) {
      var g := UnfoldAllMember(forest, None, c);
      if c.parent.Some? && IsConcrete(c.parent.value) {
        var p := c.parent.value;
        var f, n :| 0 <= f < |forest| && Exposed(forest[f], spec, n) && IsConcrete(n) && n.id == p.id;
        ParentIsListed(forest, c, g);
        var d := ExposedIsListed(forest[f], None, spec, n);
        UnfoldAllHas(forest, None, f, d);
        assert n == p;
        ParentOfListed(forest[g], None, c);
        var k :| 0 <= k < |p.kids| && Strip(p.kids[k]) == c.ty;
        KidIsExposed(forest[f], spec, p, k);
      } else {
        forall d | d in Unfold(forest[g], None) && IsConcrete(d.ty) ensures Clean(d.ty) {
          UnfoldAllHas(forest, None, g, d);
        }
        RootIsExposed(forest[g], None, spec, c);
      }
    }
  }

  lemma ParentIsListed(forest: seq<Ty>, c: Child, g: nat)
    requires g < |forest| && c in Unfold(forest[g], None) && c.parent.Some?
    ensures exists d :: d in UnfoldAll(forest, None) && d.ty == c.parent.value
  {
    ParentOfListed(forest[g], None, c);
    var d :| d in Unfold(forest[g], None) && d.ty == c.parent.value;
    UnfoldAllHas(forest, None, g, d);
  }

  /** The query run on a handler's types asks every sentinel that occurs with no sentinel above it. It asks
      no other in a closed forest, as is one where ids determine types and concrete types are so throughout. */
  lemma QueriedAreExposed(forest: seq<Ty>, spec: TypeId -> bool, aborts: TypeId -> bool,
                          order: seq<nat>, via: seq<int>, t: TypeId)
    requires Traversal(Sentries(UnfoldAll(forest, None), spec, aborts), order, via)
    ensures var cs := UnfoldAll(forest, None);
            var s := Sentries(cs, spec, aborts);
            var queried := exists i :: i in order && i < |s| && s[i].specialized && s[i].typeId == t;
            var exposed := ExposedId(forest, spec, t) && spec(t);
            && (exposed ==> queried)
            && (ClosedForest(forest, spec) && queried ==> exposed)
            && (IdsAreTypes(cs) && CleanThroughout(cs) ==> ClosedForest(forest, spec))
  {
    var cs := UnfoldAll(forest, None);
    var s := Sentries(cs, spec, aborts);
    QueryVisitsExposed(s, order, via);
    if ExposedId(forest, spec, t) && spec(t) {
      var f, n :| 0 <= f < |forest| && Exposed(forest[f], spec, n) && IsConcrete(n) && n.id == t;
      var path, j := ExposedInForest(forest, spec, aborts, f, n);
      assert Unguarded(s, j);
    }
    if ClosedForest(forest, spec) {
      if i :| i in order && i < |s| && s[i].specialized && s[i].typeId == t {
        assert Unguarded(s, i);
        var path :| LeadsTo(s, path, i);
        ReachedIsExposed(forest, spec, aborts, path, i);
        var c := SentryHasChild(cs, i, spec, aborts);
      }
    }
    if IdsAreTypes(cs) && CleanThroughout(cs) {
      PlainForestIsClosed(forest, spec);
    }
  }

  // ---------------------------------------------------------------- forests that are not

  // An alias of a type under a sentinel: handler types `A<Alias>` and `S<B<C>>` with `Alias = B<C>`.
  const SENTINEL_C := Type(9, Plain, [])
  const B_OF_C := Type(5, Plain, [SENTINEL_C])
  const ALIAS := Type(5, Plain, [])
  const A_OF_ALIAS := Type(1, Plain, [ALIAS])
  const S_OF_B := Type(2, Plain, [B_OF_C])
  const ALIASED := [A_OF_ALIAS, S_OF_B]

  lemma AliasListing()
    ensures UnfoldAll(ALIASED, None) ==
            [Child(None, A_OF_ALIAS), Child(Some(A_OF_ALIAS), ALIAS),
             Child(None, S_OF_B), Child(Some(S_OF_B), B_OF_C), Child(Some(B_OF_C), SENTINEL_C)]
  {
    UnfoldOne(ALIAS, Some(A_OF_ALIAS));
    UnfoldOne(B_OF_C, Some(S_OF_B));
    UnfoldOne(SENTINEL_C, Some(B_OF_C));
    UnfoldOne(S_OF_B, None);
    assert ALIASED[1..] == [S_OF_B];
  }

  lemma AliasConcrete()
    ensures forall ty :: ty in {SENTINEL_C, B_OF_C, ALIAS, A_OF_ALIAS, S_OF_B} ==> IsConcrete(ty)
  {
    assert Clean(SENTINEL_C) && Clean(ALIAS);
    assert Clean(B_OF_C) && Clean(A_OF_ALIAS);
    assert Clean(S_OF_B);
    forall ty | ty in {SENTINEL_C, B_OF_C, ALIAS, A_OF_ALIAS, S_OF_B} ensures IsConcrete(ty) {
      CleanWithin(ty, ty);
    }
  }

  lemma AliasSentries(spec: TypeId -> bool, aborts: TypeId -> bool)
    ensures Sentries(UnfoldAll(ALIASED, None), spec, aborts) ==
            [Sentry(1, None, spec(1), aborts(1)), Sentry(5, Some(1), spec(5), aborts(5)),
             Sentry(2, None, spec(2), aborts(2)), Sentry(5, Some(2), spec(5), aborts(5)),
             Sentry(9, Some(5), spec(9), aborts(9))]
  {
    AliasListing();
    AliasConcrete();
    var cs := UnfoldAll(ALIASED, None);
    SentriesCons(cs, spec, aborts); SentriesCons(cs[1..], spec, aborts); SentriesCons(cs[2..], spec, aborts);
    SentriesCons(cs[3..], spec, aborts); SentriesCons(cs[4..], spec, aborts);
    assert cs[1..][1..] == cs[2..] && cs[2..][1..] == cs[3..] && cs[3..][1..] == cs[4..] && cs[4..][1..] == [];
  }

  /** The sentinel `C` is asked although it only occurs below the sentinel `S`. */
  lemma AliasIsQueried(spec: TypeId -> bool, aborts: TypeId -> bool)
    requires !spec(1) && spec(2) && !spec(5) && spec(9)
    ensures var s := Sentries(UnfoldAll(ALIASED, None), spec, aborts);
            |s| == 5 && s[4].typeId == 9 && s[4].specialized && LeadsTo(s, [0, 1, 4], 4)
    ensures forall f, n :: 0 <= f < 2 && Exposed(ALIASED[f], spec, n) ==> n.id != 9
    ensures !AsksExposedOnly(ALIASED, spec, aborts)
  {
    AliasSentries(spec, aborts);
    var s := Sentries(UnfoldAll(ALIASED, None), spec, aborts);
    var path := [0, 1, 4];
    assert Link(s, path, 1) && Link(s, path, 2);
    forall f, n | 0 <= f < 2 && Exposed(ALIASED[f], spec, n) ensures n.id != 9 {
      AliasExposure(spec, n);
    }
    assert LeadsTo(s, path, 4) && !ExposedId(ALIASED, spec, s[4].typeId);
  }

  lemma AliasExposure(spec: TypeId -> bool, n: Ty)
    requires spec(2)
    ensures Exposed(A_OF_ALIAS, spec, n) || Exposed(S_OF_B, spec, n) ==> n.id != 9
  {
    AliasConcrete();
    assert Exposed(A_OF_ALIAS, spec, n) ==> n == A_OF_ALIAS || Exposed(A_OF_ALIAS.kids[0], spec, n);
    assert Exposed(S_OF_B, spec, n) ==> n == S_OF_B;
  }

  // A sentinel that counts as concrete for its last argument: `S<(C, m!()), fn()>`, `m` an unknown type macro.
  const UNKNOWN_MACRO := Type(6, Opaque, [])
  const TUPLE := Type(3, Plain, [SENTINEL_C, UNKNOWN_MACRO])
  const FN_POINTER := Type(4, Closed, [])
  const S_OF_TUPLE := Type(2, Plain, [TUPLE, FN_POINTER])
  const UNCLEAN := [S_OF_TUPLE]

  lemma UncleanListing()
    ensures UnfoldAll(UNCLEAN, None) ==
            [Child(None, S_OF_TUPLE), Child(Some(S_OF_TUPLE), TUPLE), Child(Some(TUPLE), SENTINEL_C),
             Child(Some(TUPLE), UNKNOWN_MACRO), Child(Some(S_OF_TUPLE), FN_POINTER)]
  {
    UnfoldOne(S_OF_TUPLE, None);
    UnfoldOne(UNKNOWN_MACRO, Some(TUPLE));
    UnfoldOne(FN_POINTER, Some(S_OF_TUPLE));
    assert TUPLE.kids[1..] == [UNKNOWN_MACRO] && S_OF_TUPLE.kids[1..] == [FN_POINTER];
    assert Unfold(SENTINEL_C, Some(TUPLE)) == [Child(Some(TUPLE), SENTINEL_C)];
    assert UnfoldAll(TUPLE.kids, Some(TUPLE)) == [Child(Some(TUPLE), SENTINEL_C), Child(Some(TUPLE), UNKNOWN_MACRO)];
    assert Unfold(TUPLE, Some(S_OF_TUPLE)) == [Child(Some(S_OF_TUPLE), TUPLE)] + UnfoldAll(TUPLE.kids, Some(TUPLE));
    assert UnfoldAll(S_OF_TUPLE.kids, Some(S_OF_TUPLE)) ==
           Unfold(TUPLE, Some(S_OF_TUPLE)) + UnfoldAll([FN_POINTER], Some(S_OF_TUPLE));
  }

  lemma UncleanConcrete()
    ensures IsConcrete(S_OF_TUPLE) && IsConcrete(SENTINEL_C) && IsConcrete(FN_POINTER)
    ensures !IsConcrete(TUPLE) && !IsConcrete(UNKNOWN_MACRO)
  {
    assert TUPLE.kids[1..] == [UNKNOWN_MACRO] && S_OF_TUPLE.kids[1..] == [FN_POINTER];
    assert [UNKNOWN_MACRO][1..] == [] && [FN_POINTER][1..] == [];
    assert MarksAll([UNKNOWN_MACRO]) == [false] && MarksAll([FN_POINTER]) == [true];
    assert Marks(TUPLE) == Marks(SENTINEL_C) + [false];
    assert Marks(S_OF_TUPLE) == Marks(TUPLE) + [true];
  }

  lemma UncleanSentries(spec: TypeId -> bool, aborts: TypeId -> bool)
    ensures Sentries(UnfoldAll(UNCLEAN, None), spec, aborts) ==
            [Sentry(2, None, spec(2), aborts(2)), Sentry(9, None, spec(9), aborts(9)),
             Sentry(4, Some(2), spec(4), aborts(4))]
  {
    UncleanListing();
    UncleanConcrete();
    var cs := UnfoldAll(UNCLEAN, None);
    assert cs[1..][1..] == cs[2..] && cs[2..][1..] == cs[3..] && cs[3..][1..] == cs[4..] && cs[4..][1..] == [];
    SentriesCons(cs, spec, aborts);
    SentriesSkip(cs[1..], spec, aborts);
    SentriesCons(cs[2..], spec, aborts);
    SentriesSkip(cs[3..], spec, aborts);
    SentriesCons(cs[4..], spec, aborts);
  }

  /** Ids determine types here, yet the sentinel `C` is asked although it only occurs below the sentinel `S`:
      its parent is filtered out, so it is taken for a root. */
  lemma UncleanIsQueried(spec: TypeId -> bool, aborts: TypeId -> bool)
    requires spec(2) && spec(9)
    ensures IdsAreTypes(UnfoldAll(UNCLEAN, None))
    ensures var s := Sentries(UnfoldAll(UNCLEAN, None), spec, aborts);
            |s| == 3 && s[1].typeId == 9 && s[1].specialized && LeadsTo(s, [1], 1)
    ensures !AsksExposedOnly(UNCLEAN, spec, aborts)
  {
    UncleanListing();
    UncleanSentries(spec, aborts);
    UncleanExposure(spec);
    var s := Sentries(UnfoldAll(UNCLEAN, None), spec, aborts);
    assert LeadsTo(s, [1], 1) && !ExposedId(UNCLEAN, spec, s[1].typeId);
  }

  lemma UncleanExposure(spec: TypeId -> bool)
    requires spec(2)
    ensures !ExposedId(UNCLEAN, spec, 9)
  {
    UncleanConcrete();
    assert Blocks(S_OF_TUPLE, spec);
    assert forall n :: Exposed(S_OF_TUPLE, spec, n) ==> n == S_OF_TUPLE;
  }

  lemma UnfoldOne(ty: Ty, parent: Option<Ty>)
    ensures UnfoldAll([ty], parent) == Unfold(ty, parent)
  {
    assert [ty][1..] == [];
  }

  lemma SentriesCons(cs: seq<Child>, spec: TypeId -> bool, aborts: TypeId -> bool)
    requires cs != [] && IsConcrete(cs[0].ty)
    ensures Sentries(cs, spec, aborts) == [Resolve(cs[0], spec, aborts)] + Sentries(cs[1..], spec, aborts)
  {
  }

  lemma SentriesSkip(cs: seq<Child>, spec: TypeId -> bool, aborts: TypeId -> bool)
    requires cs != [] && !IsConcrete(cs[0].ty)
    ensures Sentries(cs, spec, aborts) == Sentries(cs[1..], spec, aborts)
  {
  }
}
