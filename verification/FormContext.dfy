/** The code `FromForm` derives for a struct: a dispatching context and its finalisation. */
module FormContext {
  import opened Options
  import opened FieldNames
  import opened Uncased

  datatype Result<T, E> = Ok(value: T) | Err(errors: seq<E>)

  /** `#[field(default = ..)]` and `default_with`, or the field type's own default. */
  datatype Default<T> = Attribute(value: Option<T>) | OfType(make: bool -> Option<T>)

  /** `attrNames`: the `name` attributes; a tuple field has no `ident`. */
  datatype Field<T> = Field(ident: Option<string>, attrNames: seq<FieldName>, default: Default<T>)

  /** A validation expression of `field`: the fields it reads, and its errors on their values. */
  datatype Validator<!T, E> = Validator(field: nat, uses: seq<nat>, check: seq<T> -> Option<seq<E>>)

  /** A struct: its fields, what their types' `FromForm` does (`V` is a shifted form field), and the
      error values the derived code makes. `strict` is the parsing option. */
  datatype Struct<!X, !V, !T, !E> = Struct(
    fields: seq<Field<T>>,
    validators: seq<Validator<T, E>>,
    strict: bool,
    init: (nat, bool) -> X,
    push: (nat, X, V) -> X,
    finish: (nat, X) -> Result<T, E>,
    named: (Option<string>, FieldName, E) -> E,
    unexpected: (string, V) -> E,
    missing: E,
    unknown: E)

  datatype Item<V> = Item(key: string, parent: Option<string>, rest: V)

  /** A value or data field, or an error, arriving at the context. */
  datatype Event<V, E> = Push(item: Item<V>) | Error(error: E)

  datatype Context<X, E> = Context(errors: seq<E>, parent: Option<string>, fields: seq<Option<X>>)

  // ---------------------------------------------------------------- names and dispatch

  function Names<T>(f: Field<T>): seq<FieldName>
  {
    if f.attrNames == [] && f.ident.Some? then [Cased(f.ident.value)] else f.attrNames
  }

  predicate Unnamed<T>(fields: seq<Field<T>>) { fields != [] && fields[0].ident.None? }

  function AllNames<T>(fields: seq<Field<T>>): (r: seq<seq<FieldName>>)
    ensures |r| == |fields| && forall i :: 0 <= i < |fields| ==> r[i] == Names(fields[i])
  {
    seq(|fields|, i requires 0 <= i < |fields| => Names(fields[i]))
  }

  /** The validator: some field, a lone tuple field, and no clashing names. */
  ghost predicate Derivable<T>(fields: seq<Field<T>>)
  {
    && fields != []
    && (forall i :: 0 <= i < |fields| ==> (fields[i].ident.None? <==> Unnamed(fields)))
    && (Unnamed(fields) ==> |fields| == 1)
    && Accepted(AllNames(fields))
  }

  /** The validator as the derive runs it. A struct's fields all have identifiers, a tuple struct's none. */
  method Validate<T>(fields: seq<Field<T>>) returns (ok: bool)
    requires forall i :: 0 <= i < |fields| ==> (fields[i].ident.None? <==> Unnamed(fields))
    ensures ok <==> Derivable(fields)
  {
    if fields == [] {
      return false;
    } else if Unnamed(fields) && |fields| != 1 {
      return false;
    }
    var clash := FirstDuplicate(AllNames(fields));
    ok := clash.None?;
  }

  datatype Arm = Arm(name: FieldName, field: nat)

  /** The generated push: straight to the tuple field, or a `match` with these arms. */
  datatype Dispatch = Direct | Arms(arms: seq<Arm>)

  function FieldArms(names: seq<FieldName>, field: nat): (r: seq<Arm>)
    ensures |r| == |names| && forall i :: 0 <= i < |r| ==> r[i] == Arm(names[i], field)
  {
    seq(|names|, i requires 0 <= i < |names| => Arm(names[i], field))
  }

  /** An arm for each listed name of each of the first `n` fields. */
  ghost predicate ArmsOf<T>(fields: seq<Field<T>>, n: nat, arms: seq<Arm>)
    requires n <= |fields|
  {
    && (forall k :: 0 <= k < |arms| ==> arms[k].field < n && arms[k].name in Names(fields[arms[k].field]))
    && (forall i, f :: 0 <= i < n && f in Names(fields[i]) ==> Arm(f, i) in arms)
  }

  method FieldsMap<T>(fields: seq<Field<T>>) returns (d: Dispatch)
    ensures Unnamed(fields) ==> d == Direct
    ensures !Unnamed(fields) ==> d.Arms? && ArmsOf(fields, |fields|, d.arms)
  {
    var arms: seq<Arm> := [];
    for i := 0 to |fields|
      invariant i > 0 ==> !Unnamed(fields)
      invariant ArmsOf(fields, i, arms)
    {
      if Unnamed(fields) {
        return Direct;
      }
      var more := FieldArms(Names(fields[i]), i);
      forall f | f in Names(fields[i]) ensures Arm(f, i) in more {
        var k :| 0 <= k < |Names(fields[i])| && Names(fields[i])[k] == f;
        assert more[k] == Arm(f, i);
      }
      arms := arms + more;
    }
    d := Arms(arms);
  }

  /** The first arm to accept the key. */
  function FirstArm(arms: seq<Arm>, key: string): (r: Option<nat>)
    ensures r.None? ==> forall k :: 0 <= k < |arms| ==> !Matches(arms[k].name, key)
    ensures r.Some? ==> exists k :: 0 <= k < |arms| && Matches(arms[k].name, key) && arms[k].field == r.value
  {
    if arms == [] then None
    else if Matches(arms[0].name, key) then Some(arms[0].field)
    else FirstArm(arms[1..], key)
  }

  function Target(d: Dispatch, key: string): Option<nat>
  {
    match d case Direct => Some(0) case Arms(arms) => FirstArm(arms, key)
  }

  /** Which keys belong to a named field: those its names accept, or just its identifier if it has none. */
  lemma BelongingMeans<T>(fields: seq<Field<T>>, key: string, i: nat)
    requires i < |fields| && !Unnamed(fields)
    ensures Belongs(fields, key, i) <==>
            if fields[i].attrNames == [] then fields[i].ident == Some(key)
            else exists f :: f in fields[i].attrNames &&
                             (if f.Cased? then key == f.name else Fold(key) == Fold(f.name))
  {
    if fields[i].attrNames == [] && fields[i].ident.Some? {
      assert Names(fields[i])[0] == Cased(fields[i].ident.value);
      assert Matches(Cased(fields[i].ident.value), key) <==> key == fields[i].ident.value;
    } else {
      assert Names(fields[i]) == fields[i].attrNames;
    }
  }

  /** Does the form key belong to field `i`? */
  predicate Belongs<T>(fields: seq<Field<T>>, key: string, i: nat)
  {
    i < |fields| && (Unnamed(fields) || exists f :: f in Names(fields[i]) && Matches(f, key))
  }

  /** The dispatch the derive generates for `fields`. */
  ghost predicate Generated<T>(fields: seq<Field<T>>, d: Dispatch)
  {
    if Unnamed(fields) then d == Direct else d.Arms? && ArmsOf(fields, |fields|, d.arms)
  }

  /** For an accepted struct dispatch is by belonging alone: the order of the arms plays no part. */
  lemma TargetIsOwner<T>(fields: seq<Field<T>>, d: Dispatch, key: string, i: nat)
    requires Derivable(fields) && Generated(fields, d)
    ensures Target(d, key) == Some(i) <==> Belongs(fields, key, i)
  {
    if d.Arms? {
      var r := FirstArm(d.arms, key);
      if r.Some? {
        var k :| 0 <= k < |d.arms| && Matches(d.arms[k].name, key) && d.arms[k].field == r.value;
        assert d.arms[k].name in Names(fields[r.value]);
        assert Belongs(fields, key, r.value);
        if Belongs(fields, key, i) {
          OwnerOfKey(fields, key, i, r.value);
        }
      } else if i < |fields| {
        forall f | f in Names(fields[i]) ensures !Matches(f, key) {
          assert Arm(f, i) in d.arms;
        }
      }
    }
  }

  lemma OwnerOfKey<T>(fields: seq<Field<T>>, key: string, i: nat, j: nat)
    requires Derivable(fields) && !Unnamed(fields) && Belongs(fields, key, i) && Belongs(fields, key, j)
    ensures i == j
  {
    var f, g :| f in Names(fields[i]) && Matches(f, key) && g in Names(fields[j]) && Matches(g, key);
    var a :| 0 <= a < |Names(fields[i])| && Names(fields[i])[a] == f;
    var b :| 0 <= b < |Names(fields[j])| && Names(fields[j])[b] == g;
    AcceptedIsUnambiguous(AllNames(fields), key, i, a, j, b);
  }

  // ---------------------------------------------------------------- pushing

  function Init<X, V, T, E>(s: Struct<X, V, T, E>): Context<X, E>
  {
    Context([], None, seq(|s.fields|, i => None))
  }

  function PushField<X, V, T, E>(s: Struct<X, V, T, E>, i: nat, x: Option<X>, v: V): X
  {
    s.push(i, if x.Some? then x.value else s.init(i, s.strict), v)
  }

  /** One arrival, as the generated `push_value`, `push_data` and `push_error` treat it. */
  function Arrive<X, V, T, E>(s: Struct<X, V, T, E>, d: Dispatch, c: Context<X, E>, e: Event<V, E>): (r: Context<X, E>)
    ensures |r.fields| == |c.fields|
  {
    match e
    case Error(err) => c.(errors := c.errors + [err])
    case Push(item) =>
      var c := c.(parent := item.parent);
      match Target(d, item.key)
      case Some(i) =>
        if i < |c.fields| then c.(fields := c.fields[i := Some(PushField(s, i, c.fields[i], item.rest))]) else c
      case None =>
        if item.key == "_method" || !s.strict then c
        else c.(errors := c.errors + [s.unexpected(item.key, item.rest)])
  }

  function ArriveAll<X, V, T, E>(s: Struct<X, V, T, E>, d: Dispatch, c: Context<X, E>, es: seq<Event<V, E>>):
      (r: Context<X, E>)
    ensures |r.fields| == |c.fields|
  {
    if es == [] then c
    else Arrive(s, d, ArriveAll(s, d, c, es[..|es| - 1]), es[|es| - 1])
  }

  /** The values that belong to field `i`, in order of arrival. */
  function Share<V, E, T>(fields: seq<Field<T>>, es: seq<Event<V, E>>, i: nat): seq<V>
  {
    if es == [] then []
    else
      var e := es[|es| - 1];
      Share(fields, es[..|es| - 1], i) +
      if e.Push? && Belongs(fields, e.item.key, i) then [e.item.rest] else []
  }

  /** The errors pushed, and in strict mode one per key that belongs to no field, in order. */
  function Complaints<X, V, T, E>(s: Struct<X, V, T, E>, es: seq<Event<V, E>>): seq<E>
  {
    if es == [] then []
    else
      var e := es[|es| - 1];
      Complaints(s, es[..|es| - 1]) +
      match e
      case Error(err) => [err]
      case Push(item) =>
        if s.strict && item.key != "_method" && !exists i :: 0 <= i < |s.fields| && Belongs(s.fields, item.key, i)
        then [s.unexpected(item.key, item.rest)] else []
  }

  /** The values pushed one after the other to a context that is there already. */
  function PushAll<X, V, T, E>(s: Struct<X, V, T, E>, i: nat, x: X, vs: seq<V>): X
  {
    if vs == [] then x else PushAll(s, i, s.push(i, x, vs[0]), vs[1..])
  }

  /** Field `i` by itself: nothing without values, else its initial context with all of them pushed. */
  function Alone<X, V, T, E>(s: Struct<X, V, T, E>, i: nat, vs: seq<V>): Option<X>
  {
    if vs == [] then None else Some(PushAll(s, i, s.init(i, s.strict), vs))
  }

  lemma {:induction false} PushAllSnoc<X, V, T, E>(s: Struct<X, V, T, E>, i: nat, x: X, vs: seq<V>, v: V)
    ensures PushAll(s, i, x, vs + [v]) == s.push(i, PushAll(s, i, x, vs), v)
  {
    if vs == [] {
      assert vs + [v] == [v] && [v][1..] == [];
    } else {
      assert (vs + [v])[1..] == vs[1..] + [v];
      PushAllSnoc(s, i, s.push(i, x, vs[0]), vs[1..], v);
    }
  }

  lemma AloneStep<X, V, T, E>(s: Struct<X, V, T, E>, i: nat, vs: seq<V>, v: V)
    ensures Alone(s, i, vs + [v]) == Some(PushField(s, i, Alone(s, i, vs), v))
  {
    PushAllSnoc(s, i, s.init(i, s.strict), vs, v);
    if vs == [] {
      assert vs + [v] == [v];
    }
  }

  /** After any arrivals each field is as if only its own values had come, whatever came in between. */
  lemma {:induction false} FieldsAreIndependent<X, V, T, E>(s: Struct<X, V, T, E>, d: Dispatch,
                                                            es: seq<Event<V, E>>, i: nat)
    requires Derivable(s.fields) && Generated(s.fields, d) && i < |s.fields|
    ensures ArriveAll(s, d, Init(s), es).fields[i] == Alone(s, i, Share(s.fields, es, i))
    decreases |es|
  {
    if es != [] {
      var init, e := es[..|es| - 1], es[|es| - 1];
      FieldsAreIndependent(s, d, init, i);
      var before := ArriveAll(s, d, Init(s), init);
      assert ArriveAll(s, d, Init(s), es) == Arrive(s, d, before, e);
      var share := Share(s.fields, init, i);
      if e.Push? {
        TargetIsOwner(s.fields, d, e.item.key, i);
      }
      if e.Push? && Belongs(s.fields, e.item.key, i) {
        AloneStep(s, i, share, e.item.rest);
      } else {
        assert Share(s.fields, es, i) == share;
      }
    }
  }

  lemma {:induction false} ErrorsAreComplaints<X, V, T, E>(s: Struct<X, V, T, E>, d: Dispatch, es: seq<Event<V, E>>)
    requires Derivable(s.fields) && Generated(s.fields, d)
    ensures ArriveAll(s, d, Init(s), es).errors == Complaints(s, es)
    decreases |es|
  {
    if es != [] {
      var e := es[|es| - 1];
      ErrorsAreComplaints(s, d, es[..|es| - 1]);
      if e.Push? {
        var t := Target(d, e.item.key);
        if t.Some? {
          TargetIsOwner(s.fields, d, e.item.key, t.value);
        }
        if i :| 0 <= i < |s.fields| && Belongs(s.fields, e.item.key, i) {
          TargetIsOwner(s.fields, d, e.item.key, i);
        }
      }
    }
  }

  /** `__parent` is that of the last value pushed. */
  lemma {:induction false} ParentIsLast<X, V, T, E>(s: Struct<X, V, T, E>, d: Dispatch, es: seq<Event<V, E>>)
    ensures var c := ArriveAll(s, d, Init(s), es);
            c.parent == (if exists k :: 0 <= k < |es| && es[k].Push? then es[LastPush(es)].item.parent else None)
    decreases |es|
  {
    if es != [] {
      ParentIsLast(s, d, es[..|es| - 1]);
      if !es[|es| - 1].Push? {
        assert LastPush(es) == LastPush(es[..|es| - 1]);
      }
    }
  }

  /** The position of the last value, if there is one. */
  function LastPush<V, E>(es: seq<Event<V, E>>): (k: nat)
    ensures (exists k :: 0 <= k < |es| && es[k].Push?) ==> k < |es| && es[k].Push?
    ensures forall l :: k < l < |es| ==> !es[l].Push?
  {
    if es == [] || es[|es| - 1].Push? then if es == [] then 0 else |es| - 1
    else LastPush(es[..|es| - 1])
  }

  /** Interleaving is irrelevant to everything but `__parent`. */
  lemma InterleavingIsIrrelevant<X, V, T, E>(s: Struct<X, V, T, E>, d: Dispatch,
                                             es: seq<Event<V, E>>, fs: seq<Event<V, E>>)
    requires Derivable(s.fields) && Generated(s.fields, d)
    requires forall i :: 0 <= i < |s.fields| ==> Share(s.fields, es, i) == Share(s.fields, fs, i)
    requires Complaints(s, es) == Complaints(s, fs)
    ensures var a, b := ArriveAll(s, d, Init(s), es), ArriveAll(s, d, Init(s), fs);
            a.errors == b.errors && a.fields == b.fields
  {
    ErrorsAreComplaints(s, d, es);
    ErrorsAreComplaints(s, d, fs);
    forall i | 0 <= i < |s.fields|
      ensures ArriveAll(s, d, Init(s), es).fields[i] == ArriveAll(s, d, Init(s), fs).fields[i]
    {
      FieldsAreIndependent(s, d, es, i);
      FieldsAreIndependent(s, d, fs, i);
    }
  }

  // ---------------------------------------------------------------- finalising

  function DefaultOf<T>(d: Default<T>, strict: bool): Option<T>
  {
    match d
    case Attribute(value) => if strict then None else value
    case OfType(make) => make(strict)
  }

  /** Errors get the field's first name, if it has one. */
  function NameErrors<X, V, T, E>(s: Struct<X, V, T, E>, i: nat, parent: Option<string>, es: seq<E>): (r: seq<E>)
    ensures |r| == |es|
    ensures i < |s.fields| && s.fields[i].attrNames != [] ==>
              forall k :: 0 <= k < |es| ==> r[k] == s.named(parent, s.fields[i].attrNames[0], es[k])
    ensures i < |s.fields| && s.fields[i].attrNames == [] && s.fields[i].ident.Some? ==>
              forall k :: 0 <= k < |es| ==> r[k] == s.named(parent, Cased(s.fields[i].ident.value), es[k])
    ensures i < |s.fields| && s.fields[i].attrNames == [] && s.fields[i].ident.None? ==> r == es
  {
    var names := if i < |s.fields| then Names(s.fields[i]) else [];
    if names == [] then es else seq(|es|, k requires 0 <= k < |es| => s.named(parent, names[0], es[k]))
  }

  /** One field's value: its context finalised or its default, failures named, no failure without an error. */
  function FieldResult<X, V, T, E>(s: Struct<X, V, T, E>, parent: Option<string>, i: nat, x: Option<X>):
      (r: Result<T, E>)
    requires i < |s.fields|
    ensures r.Err? ==> r.errors != []
  {
    var r := match x
             case None => (match DefaultOf(s.fields[i].default, s.strict)
                           case Some(t) => Ok(t)
                           case None => Err([s.missing]))
             case Some(x) => s.finish(i, x);
    match r
    case Ok(_) => r
    case Err(es) =>
      var named := NameErrors(s, i, parent, es);
      Err(if named == [] then [s.unknown] else named)
  }

  /** A field without values has its default: the attribute's, but not in strict mode, else its type's. */
  lemma MissingMeans<X, V, T, E>(s: Struct<X, V, T, E>, parent: Option<string>, i: nat, t: T)
    requires i < |s.fields|
    ensures FieldResult(s, parent, i, None) == Ok(t) <==>
            match s.fields[i].default
            case Attribute(value) => !s.strict && value == Some(t)
            case OfType(make) => make(s.strict) == Some(t)
    ensures FieldResult(s, parent, i, None).Err? ==>
              FieldResult(s, parent, i, None).errors == NameErrors(s, i, parent, [s.missing])
  {
  }

  /** A field with values is finalised by its type: its value, or its errors named, or one if it names none. */
  lemma PresentMeans<X, V, T, E>(s: Struct<X, V, T, E>, parent: Option<string>, i: nat, x: X)
    requires i < |s.fields|
    ensures match s.finish(i, x)
            case Ok(t) => FieldResult(s, parent, i, Some(x)) == Ok(t)
            case Err(es) => FieldResult(s, parent, i, Some(x)) ==
                            Err(if es == [] then [s.unknown] else NameErrors(s, i, parent, es))
  {
  }

  /** The results of a context's fields. */
  function Results<X, V, T, E>(s: Struct<X, V, T, E>, parent: Option<string>, fields: seq<Option<X>>):
      (r: seq<Result<T, E>>)
    requires |s.fields| == |fields|
  {
    seq(|s.fields|, i requires 0 <= i < |s.fields| => FieldResult(s, parent, i, fields[i]))
  }

  function ErrorsOf<T, E>(r: Result<T, E>): seq<E>
  {
    match r case Ok(_) => [] case Err(es) => es
  }

  /** The first `n` parts, one after the other. */
  function Concat<E>(parts: seq<seq<E>>, n: nat): seq<E>
    requires n <= |parts|
  {
    if n == 0 then [] else Concat(parts, n - 1) + parts[n - 1]
  }

  lemma {:induction false} NoParts<E>(parts: seq<seq<E>>, n: nat)
    requires n <= |parts|
    ensures Concat(parts, n) == [] <==> forall k :: 0 <= k < n ==> parts[k] == []
  {
    if n > 0 {
      NoParts(parts, n - 1);
    }
  }

  lemma {:induction false} ConcatStep<E>(before: seq<E>, parts: seq<seq<E>>, k: nat)
    requires k < |parts|
    ensures before + Concat(parts, k + 1) == before + Concat(parts, k) + parts[k]
  {
    assert Concat(parts, k + 1) == Concat(parts, k) + parts[k];
  }

  /** The errors of each field. */
  function FieldErrors<T, E>(rs: seq<Result<T, E>>): (r: seq<seq<E>>)
    ensures |r| == |rs|
  {
    seq(|rs|, i requires 0 <= i < |rs| => ErrorsOf(rs[i]))
  }

  function OkOf<T, E>(r: Result<T, E>): Option<T>
  {
    match r case Ok(v) => Some(v) case Err(_) => None
  }

  /** The first `n` fields' values, `None` for those that failed. */
  function Oks<T, E>(rs: seq<Result<T, E>>, n: nat): seq<Option<T>>
    requires n <= |rs|
  {
    if n == 0 then [] else Oks(rs, n - 1) + [OkOf(rs[n - 1])]
  }

  lemma {:induction false} OksAt<T, E>(rs: seq<Result<T, E>>, n: nat, i: nat)
    requires n <= |rs|
    ensures |Oks(rs, n)| == n && (i < n ==> Oks(rs, n)[i] == OkOf(rs[i]))
  {
    if n > 0 {
      OksAt(rs, n - 1, i);
    }
  }

  /** A failing field always names an error, so none failed if there are none. */
  lemma NoFieldErrors<T, E>(rs: seq<Result<T, E>>)
    requires forall i :: 0 <= i < |rs| && rs[i].Err? ==> rs[i].errors != []
    ensures Concat(FieldErrors(rs), |rs|) == [] <==> forall i :: 0 <= i < |rs| ==> rs[i].Ok?
  {
    var parts := FieldErrors(rs);
    NoParts(parts, |rs|);
    assert forall i :: 0 <= i < |rs| ==> (parts[i] == [] <==> rs[i].Ok?);
  }

  ghost predicate WellFormed<X, V, T, E>(s: Struct<X, V, T, E>)
  {
    forall k :: 0 <= k < |s.validators| ==>
      s.validators[k].field < |s.fields| && Within(s.validators[k].uses, |s.fields|)
  }

  predicate Within(uses: seq<nat>, n: nat) { forall k :: 0 <= k < |uses| ==> uses[k] < n }

  /** The values a validator reads, when all of them are there. */
  function Read<T, E>(rs: seq<Result<T, E>>, uses: seq<nat>): Option<seq<T>>
  {
    if uses == [] then Some([])
    else
      var rest := Read(rs, uses[1..]);
      if uses[0] < |rs| && rs[uses[0]].Ok? && rest.Some? then Some([rs[uses[0]].value] + rest.value) else None
  }

  lemma {:induction false} ReadsAll<T, E>(rs: seq<Result<T, E>>, uses: seq<nat>)
    requires Within(uses, |rs|) && forall i :: 0 <= i < |rs| ==> rs[i].Ok?
    ensures Read(rs, uses).Some?
  {
    if uses != [] {
      ReadsAll(rs, uses[1..]);
    }
  }

  /** The values read are those of the fields named, in the order named. */
  lemma {:induction false} ReadAt<T, E>(rs: seq<Result<T, E>>, uses: seq<nat>, k: nat)
    ensures Read(rs, uses).Some? ==> |Read(rs, uses).value| == |uses|
    ensures Read(rs, uses).Some? && k < |uses| ==> uses[k] < |rs| && rs[uses[k]] == Ok(Read(rs, uses).value[k])
  {
    if uses != [] {
      ReadAt(rs, uses[1..], if k > 0 then k - 1 else 0);
    }
  }

  /** What a validator adds: nothing when a field it reads is missing. */
  function Verdict<X, V, T, E>(s: Struct<X, V, T, E>, parent: Option<string>, rs: seq<Result<T, E>>,
                               v: Validator<T, E>): seq<E>
  {
    match Read(rs, v.uses)
    case None => []
    case Some(values) =>
      match v.check(values)
      case None => []
      case Some(es) => NameErrors(s, v.field, parent, es)
  }

  /** A validator checks the values of the fields it names, and what it finds gets the name of its own field;
      it is passed over if one of those fields has no value. */
  lemma VerdictMeans<X, V, T, E>(s: Struct<X, V, T, E>, parent: Option<string>, rs: seq<Result<T, E>>,
                                 v: Validator<T, E>, values: seq<T>)
    requires |values| == |v.uses|
    requires forall k :: 0 <= k < |v.uses| ==> v.uses[k] < |rs| && rs[v.uses[k]] == Ok(values[k])
    ensures v.check(values).None? ==> Verdict(s, parent, rs, v) == []
    ensures v.check(values).Some? ==> Verdict(s, parent, rs, v) == NameErrors(s, v.field, parent, v.check(values).value)
  {
    ReadsThese(rs, v.uses, values);
  }

  lemma {:induction false} ReadsThese<T, E>(rs: seq<Result<T, E>>, uses: seq<nat>, values: seq<T>)
    requires |values| == |uses|
    requires forall k :: 0 <= k < |uses| ==> uses[k] < |rs| && rs[uses[k]] == Ok(values[k])
    ensures Read(rs, uses) == Some(values)
  {
    if uses != [] {
      ReadsThese(rs, uses[1..], values[1..]);
      assert values == [values[0]] + values[1..];
    }
  }

  lemma PassedOver<X, V, T, E>(s: Struct<X, V, T, E>, parent: Option<string>, rs: seq<Result<T, E>>,
                               v: Validator<T, E>, k: nat)
    requires k < |v.uses| && v.uses[k] < |rs| && rs[v.uses[k]].Err?
    ensures Verdict(s, parent, rs, v) == []
  {
    ReadAt(rs, v.uses, k);
  }

  /** What each validator adds. */
  function Verdicts<X, V, T, E>(s: Struct<X, V, T, E>, parent: Option<string>, rs: seq<Result<T, E>>): (r: seq<seq<E>>)
    ensures |r| == |s.validators|
  {
    seq(|s.validators|, k requires 0 <= k < |s.validators| => Verdict(s, parent, rs, s.validators[k]))
  }

  /** The validator runs and records no error. */
  predicate Content<T, E>(rs: seq<Result<T, E>>, v: Validator<T, E>)
  {
    var read := Read(rs, v.uses);
    read.Some? && (v.check(read.value).None? || |v.check(read.value).value| == 0)
  }

  lemma ContentVerdict<X, V, T, E>(s: Struct<X, V, T, E>, parent: Option<string>, rs: seq<Result<T, E>>,
                                   v: Validator<T, E>)
    requires Read(rs, v.uses).Some?
    ensures Verdict(s, parent, rs, v) == [] <==> Content(rs, v)
  {
  }

  /** Everything that went wrong: what was pushed, then fields, then validators. */
  function AllErrors<X, V, T, E>(s: Struct<X, V, T, E>, c: Context<X, E>): seq<E>
    requires |s.fields| == |c.fields|
  {
    var rs := Results(s, c.parent, c.fields);
    c.errors + Concat(FieldErrors(rs), |rs|) + Concat(Verdicts(s, c.parent, rs), |s.validators|)
  }

  /** What arrived is complained about first, then the fields in order, then the validators in order. */
  lemma ErrorsInOrder<X, V, T, E>(s: Struct<X, V, T, E>, c: Context<X, E>, i: nat, k: nat)
    requires |s.fields| == |c.fields| && i <= |s.fields| && k <= |s.validators|
    ensures var rs := Results(s, c.parent, c.fields);
            && c.errors + Concat(FieldErrors(rs), i) <= AllErrors(s, c)
            && c.errors + Concat(FieldErrors(rs), |rs|) + Concat(Verdicts(s, c.parent, rs), k) <= AllErrors(s, c)
  {
    var rs := Results(s, c.parent, c.fields);
    ConcatPrefix(FieldErrors(rs), i, |rs|);
    ConcatPrefix(Verdicts(s, c.parent, rs), k, |s.validators|);
  }

  lemma {:induction false} ConcatPrefix<E>(parts: seq<seq<E>>, i: nat, n: nat)
    requires i <= n <= |parts|
    ensures Concat(parts, i) <= Concat(parts, n)
  {
    if i < n {
      ConcatPrefix(parts, i, n - 1);
    }
  }

  /** The context as the generated code mutates it. */
  class FormState<X, V, T, E> {
    const s: Struct<X, V, T, E>
    const dispatch: Dispatch
    var errors: seq<E>
    var parent: Option<string>
    var fields: seq<Option<X>>

    ghost function State(): Context<X, E>
      reads this
    {
      Context(errors, parent, fields)
    }

    constructor (s: Struct<X, V, T, E>, d: Dispatch)
      ensures this.s == s && dispatch == d && State() == Init(s)
    {
      this.s, dispatch := s, d;
      errors, parent, fields := [], None, seq(|s.fields|, i => None);
    }

    method PushItem(item: Item<V>)
      requires |fields| == |s.fields|
      modifies this
      ensures State() == Arrive(s, dispatch, old(State()), Push(item))
    {
      parent := item.parent;
      var target := Target(dispatch, item.key);
      if target.Some? {
        var i := target.value;
        if i < |fields| {
          var field := fields[i];
          if field.None? {
            field := Some(s.init(i, s.strict));
          }
          fields := fields[i := Some(s.push(i, field.value, item.rest))];
        }
      } else if !(item.key == "_method" || !s.strict) {
        errors := errors + [s.unexpected(item.key, item.rest)];
      }
    }

    method PushError(e: E)
      modifies `errors
      ensures State() == Arrive(s, dispatch, old(State()), Event.Error(e))
    {
      errors := errors + [e];
    }
  }

  /** `match .. { Ok(v) => Some(v), Err(e) => { errors.extend(e); None } }`. */
  method FinalizeField<X, V, T, E>(s: Struct<X, V, T, E>, c: Context<X, E>, i: nat)
      returns (ident: Option<T>, es: seq<E>)
    requires i < |c.fields| == |s.fields|
    ensures var r := Results(s, c.parent, c.fields)[i]; ident == OkOf(r) && es == ErrorsOf(r)
  {
    match FieldResult(s, c.parent, i, c.fields[i])
    case Ok(v) => ident, es := Some(v), [];
    case Err(errors) => ident, es := None, errors;
  }

  lemma FieldStep<T, E>(before: seq<E>, rs: seq<Result<T, E>>, i: nat)
    requires i < |rs|
    ensures Oks(rs, i + 1) == Oks(rs, i) + [OkOf(rs[i])]
    ensures before + Concat(FieldErrors(rs), i + 1) == before + Concat(FieldErrors(rs), i) + ErrorsOf(rs[i])
  {
    ConcatStep(before, FieldErrors(rs), i);
  }

  /** The fields' values or `None`s, and the errors with theirs added. */
  method FinalizeFields<X, V, T, E>(s: Struct<X, V, T, E>, c: Context<X, E>)
      returns (idents: seq<Option<T>>, errors: seq<E>)
    requires |c.fields| == |s.fields|
    ensures var rs := Results(s, c.parent, c.fields);
            idents == Oks(rs, |rs|) && errors == c.errors + Concat(FieldErrors(rs), |rs|)
  {
    idents, errors := [], c.errors;
    ghost var rs := Results(s, c.parent, c.fields);
    ghost var parts := FieldErrors(rs);
    for i := 0 to |s.fields|
      invariant idents == Oks(rs, i) && errors == c.errors + Concat(parts, i)
    {
      var ident, es := FinalizeField(s, c, i);
      FieldStep(c.errors, rs, i);
      errors := errors + es;
      idents := idents + [ident];
    }
  }

  method RunValidator<X, V, T, E>(s: Struct<X, V, T, E>, c: Context<X, E>, v: Validator<T, E>,
                                  idents: seq<Option<T>>, ghost rs: seq<Result<T, E>>) returns (es: seq<E>)
    requires idents == Oks(rs, |rs|)
    ensures es == Verdict(s, c.parent, rs, v)
  {
    es := [];
    var values := ReadIdents(idents, v.uses);
    ReadAgrees(rs, v.uses);
    if values.Some? {
      var result := v.check(values.value);
      if result.Some? {
        es := NameErrors(s, v.field, c.parent, result.value);
      }
    }
  }

  lemma VerdictStep<X, V, T, E>(s: Struct<X, V, T, E>, parent: Option<string>, rs: seq<Result<T, E>>,
                                before: seq<E>, k: nat)
    requires k < |s.validators|
    ensures var parts := Verdicts(s, parent, rs);
            before + Concat(parts, k + 1) == before + Concat(parts, k) + Verdict(s, parent, rs, s.validators[k])
  {
    ConcatStep(before, Verdicts(s, parent, rs), k);
  }

  /** The errors with each validator's added. */
  method RunValidators<X, V, T, E>(s: Struct<X, V, T, E>, c: Context<X, E>, idents: seq<Option<T>>,
                                   before: seq<E>, ghost rs: seq<Result<T, E>>) returns (errors: seq<E>)
    requires idents == Oks(rs, |rs|)
    ensures errors == before + Concat(Verdicts(s, c.parent, rs), |s.validators|)
  {
    errors := before;
    ghost var parts := Verdicts(s, c.parent, rs);
    for k := 0 to |s.validators|
      invariant errors == before + Concat(parts, k)
    {
      var es := RunValidator(s, c, s.validators[k], idents, rs);
      VerdictStep(s, c.parent, rs, before, k);
      errors := errors + es;
    }
  }

  /** `finalize`: reading a field's value after the error check never finds it missing. */
  method Finalize<X, V, T, E>(s: Struct<X, V, T, E>, c: Context<X, E>) returns (r: Result<seq<T>, E>)
    requires |c.fields| == |s.fields|
    ensures r.Err? ==> r.errors == AllErrors(s, c) && r.errors != []
    ensures r.Ok? ==> AllErrors(s, c) == [] && |r.value| == |s.fields|
    ensures r.Ok? ==> forall i :: 0 <= i < |s.fields| ==> Results(s, c.parent, c.fields)[i] == Ok(r.value[i])
  {
    ghost var rs := Results(s, c.parent, c.fields);
    var idents, errors := FinalizeFields(s, c);
    errors := RunValidators(s, c, idents, errors, rs);
    if errors != [] {
      return Err(errors);
    }
    NoFieldErrors(rs);
    assert forall i :: 0 <= i < |rs| ==> rs[i].Ok?;
    var values: seq<T> := [];
    OksAt(rs, |rs|, 0);
    for i := 0 to |idents|
      invariant |idents| == |rs| && |values| == i && forall k :: 0 <= k < i ==> rs[k] == Ok(values[k])
    {
      OksAt(rs, |rs|, i);
      values := values + [idents[i].value];
    }
    r := Ok(values);
  }

  /** `match (a, b, ..) { (Some(a), Some(b), ..) => .., _ => .. }` over the fields a validator names. */
  function ReadIdents<T>(idents: seq<Option<T>>, uses: seq<nat>): Option<seq<T>>
  {
    if uses == [] then Some([])
    else
      var rest := ReadIdents(idents, uses[1..]);
      if uses[0] < |idents| && idents[uses[0]].Some? && rest.Some?
      then Some([idents[uses[0]].value] + rest.value) else None
  }

  lemma {:induction false} ReadAgrees<T, E>(rs: seq<Result<T, E>>, uses: seq<nat>)
    ensures ReadIdents(Oks(rs, |rs|), uses) == Read(rs, uses)
  {
    if uses != [] {
      ReadAgrees(rs, uses[1..]);
      OksAt(rs, |rs|, uses[0]);
    }
  }

  /** Parsing succeeds exactly when nothing was complained about on arrival, every field gave a value,
      and every validator, all of which then run, is content or fails without naming an error. */
  lemma OkIffNothingRecorded<X, V, T, E>(s: Struct<X, V, T, E>, c: Context<X, E>)
    requires |s.fields| == |c.fields| && WellFormed(s)
    ensures var rs := Results(s, c.parent, c.fields);
            AllErrors(s, c) == [] <==>
            && c.errors == [] && (forall i :: 0 <= i < |rs| ==> rs[i].Ok?)
            && (forall k :: 0 <= k < |s.validators| ==> Content(rs, s.validators[k]))
  {
    var rs := Results(s, c.parent, c.fields);
    var parts := Verdicts(s, c.parent, rs);
    NoFieldErrors(rs);
    NoParts(parts, |parts|);
    if forall i :: 0 <= i < |rs| ==> rs[i].Ok? {
      forall k | 0 <= k < |s.validators| ensures parts[k] == [] <==> Content(rs, s.validators[k]) {
        ReadsAll(rs, s.validators[k].uses);
        ContentVerdict(s, c.parent, rs, s.validators[k]);
      }
    }
  }

  /** Every field by itself, given its own share of the form. */
  function Apart<X, V, T, E>(s: Struct<X, V, T, E>, es: seq<Event<V, E>>): (r: seq<Option<X>>)
    ensures |r| == |s.fields|
  {
    seq(|s.fields|, i requires 0 <= i < |s.fields| => Alone(s, i, Share(s.fields, es, i)))
  }

  /** A whole form: it parses exactly when no arrival is complained about, each field alone, given its own
      share of the form, yields a value, and the validators are content with those values. */
  lemma ParseSucceedsIff<X, V, T, E>(s: Struct<X, V, T, E>, d: Dispatch, es: seq<Event<V, E>>)
    requires Derivable(s.fields) && Generated(s.fields, d) && WellFormed(s)
    ensures var c := ArriveAll(s, d, Init(s), es);
            var rs := Results(s, c.parent, Apart(s, es));
            AllErrors(s, c) == [] <==>
            && Complaints(s, es) == [] && (forall i :: 0 <= i < |rs| ==> rs[i].Ok?)
            && (forall k :: 0 <= k < |s.validators| ==> Content(rs, s.validators[k]))
  {
    var c := ArriveAll(s, d, Init(s), es);
    ErrorsAreComplaints(s, d, es);
    forall i | 0 <= i < |s.fields| ensures c.fields[i] == Apart(s, es)[i] {
      FieldsAreIndependent(s, d, es, i);
    }
    assert c.fields == Apart(s, es);
    OkIffNothingRecorded(s, c);
  }
}
