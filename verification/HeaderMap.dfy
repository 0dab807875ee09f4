/** The case-insensitive multimap of headers over an insertion-ordered table. */
module Headers {
  import opened Uncased
  import opened IndexMap
  import opened Options

  datatype Header = Header(name: string, value: string)

  /** What is stored under a folded name: the spelling first used, and the values. */
  datatype Stored = Stored(name: string, values: seq<string>)

  type Entries = Table<string, Stored>

  /** Every slot sits under the folded form of its spelling. */
  ghost predicate Keyed(t: Entries)
  {
    Unique(t) && forall i :: 0 <= i < |t| ==> t[i].key == Fold(t[i].val.name)
  }

  predicate Contains(t: Entries, name: string) { Has(t, Fold(name)) }

  /** `get`: all values of a name, none if it is absent. */
  function Get(t: Entries, name: string): seq<string>
  {
    if Contains(t, name) then At(t, Fold(name)).values else []
  }

  /** `insert`: the index map keeps the spelling of a key it already holds. */
  function Insert(t: Entries, name: string, values: seq<string>): Entries
  {
    Put(t, Fold(name), Stored(if Contains(t, name) then At(t, Fold(name)).name else name, values))
  }

  /** `entry(name).or_default().append(values)`. */
  function Extend(t: Entries, name: string, values: seq<string>): Entries
  {
    Insert(t, name, Get(t, name) + values)
  }

  function ValueHeaders(s: Stored): (r: seq<Header>)
    ensures |r| == |s.values| && forall i :: 0 <= i < |r| ==> r[i] == Header(s.name, s.values[i])
  {
    seq(|s.values|, i requires 0 <= i < |s.values| => Header(s.name, s.values[i]))
  }

  /** `iter`: every header, in table order. */
  function Iter(t: Entries): seq<Header>
  {
    if t == [] then [] else ValueHeaders(t[0].val) + Iter(t[1..])
  }

  // ---------------------------------------------------------------- refinement

  datatype Op =
    | Add(name: string, value: string)
    | AddAll(name: string, values: seq<string>)
    | Replace(name: string, value: string)
    | ReplaceAll(name: string, values: seq<string>)
    | Remove(name: string)
    | RemoveAll

  function Apply(t: Entries, op: Op): Entries
  {
    match op
    case Add(n, v) => Extend(t, n, [v])
    case AddAll(n, vs) => Extend(t, n, vs)
    case Replace(n, v) => Insert(t, n, [v])
    case ReplaceAll(n, vs) => Insert(t, n, vs)
    case Remove(n) => SwapRemove(t, Fold(n))
    case RemoveAll => []
  }

  /** The simple form: folded name to first spelling and values. */
  type Model = map<string, Stored>

  ghost function Values(m: Model, n: string): seq<string>
  {
    if Fold(n) in m then m[Fold(n)].values else []
  }

  ghost function Write(m: Model, n: string, vs: seq<string>): Model
  {
    m[Fold(n) := Stored(if Fold(n) in m then m[Fold(n)].name else n, vs)]
  }

  ghost function ApplyModel(m: Model, op: Op): Model
  {
    match op
    case Add(n, v) => Write(m, n, Values(m, n) + [v])
    case AddAll(n, vs) => Write(m, n, Values(m, n) + vs)
    case Replace(n, v) => Write(m, n, [v])
    case ReplaceAll(n, vs) => Write(m, n, vs)
    case Remove(n) => m - {Fold(n)}
    case RemoveAll => map[]
  }

  /** What a lookup in any letter case sees is the plain map's entry. */
  lemma GetIsModel(t: Entries, name: string)
    ensures Get(t, name) == Values(View(t), name)
    ensures Contains(t, name) <==> Fold(name) in View(t)
  {
    assert Fold(name) in Keys(t) <==> Find(t, Fold(name)) < |t|;
  }

  lemma {:induction false} InsertRefines(t: Entries, n: string, vs: seq<string>)
    requires Keyed(t)
    ensures Keyed(Insert(t, n, vs)) && View(Insert(t, n, vs)) == Write(View(t), n, vs)
  {
    var k := Fold(n);
    PutRefines(t, k, Stored(if Contains(t, n) then At(t, k).name else n, vs));
    GetIsModel(t, n);
  }

  lemma {:induction false} RemoveRefines(t: Entries, k: string)
    requires Keyed(t)
    ensures Keyed(SwapRemove(t, k)) && View(SwapRemove(t, k)) == View(t) - {k}
  {
    SwapRemoveRefines(t, k);
    var u, h := SwapRemove(t, k), Find(t, k);
    assert forall j :: 0 <= j < |u| ==> u[j] == t[if j == h then |t| - 1 else j];
  }

  /** Every operation acts on the table as it acts on a plain map of folded names. */
  lemma {:induction false} StepRefines(t: Entries, op: Op)
    requires Keyed(t)
    ensures Keyed(Apply(t, op)) && View(Apply(t, op)) == ApplyModel(View(t), op)
  {
    match op
    case Add(n, v) => GetIsModel(t, n); InsertRefines(t, n, Get(t, n) + [v]);
    case AddAll(n, vs) => GetIsModel(t, n); InsertRefines(t, n, Get(t, n) + vs);
    case Replace(n, v) => InsertRefines(t, n, [v]);
    case ReplaceAll(n, vs) => InsertRefines(t, n, vs);
    case Remove(n) => RemoveRefines(t, Fold(n));
    case RemoveAll =>
  }

  function Run(t: Entries, ops: seq<Op>): Entries
    decreases |ops|
  {
    if ops == [] then t else Run(Apply(t, ops[0]), ops[1..])
  }

  ghost function RunModel(m: Model, ops: seq<Op>): Model
    decreases |ops|
  {
    if ops == [] then m else RunModel(ApplyModel(m, ops[0]), ops[1..])
  }

  /** Over any run: names stay unique, the first spelling is kept, values follow the plain map. */
  lemma {:induction false} RunRefines(t: Entries, ops: seq<Op>)
    requires Keyed(t)
    ensures Keyed(Run(t, ops)) && View(Run(t, ops)) == RunModel(View(t), ops)
    decreases |ops|
  {
    if ops != [] {
      StepRefines(t, ops[0]);
      RunRefines(Apply(t, ops[0]), ops[1..]);
    }
  }

  // ---------------------------------------------------------------- re-adding

  function ReAdd(hs: seq<Header>, t: Entries): Entries
    decreases |hs|
  {
    if hs == [] then t else ReAdd(hs[1..], Extend(t, hs[0].name, [hs[0].value]))
  }

  /** The slots that hold at least one value. */
  function NonEmpty(t: Entries): Entries
  {
    if t == [] then []
    else if t[0].val.values == [] then NonEmpty(t[1..]) else [t[0]] + NonEmpty(t[1..])
  }

  lemma {:induction false} ReAddConcat(a: seq<Header>, b: seq<Header>, t: Entries)
    ensures ReAdd(a + b, t) == ReAdd(b, ReAdd(a, t))
    decreases |a|
  {
    if a == [] {
      assert a + b == b;
    } else {
      assert (a + b)[1..] == a[1..] + b;
      ReAddConcat(a[1..], b, Extend(t, a[0].name, [a[0].value]));
    }
  }

  /** One more value of a name goes to the end of its slot, a new slot being last. */
  lemma {:induction false} ExtendLast(u: Entries, s: Stored, v: string)
    requires !Has(u, Fold(s.name))
    ensures Extend(u, s.name, [v]) == u + [Slot(Fold(s.name), Stored(s.name, [v]))]
    ensures Extend(u + [Slot(Fold(s.name), s)], s.name, [v]) ==
            u + [Slot(Fold(s.name), Stored(s.name, s.values + [v]))]
  {
    var k := Fold(s.name);
    assert [] + [v] == [v];
    FindIsFirst(u, k);
    FindIs(u + [Slot(k, s)], k, |u|);
  }

  /** Values of one name, added one at a time after the first `done`, rebuild its slot at the end. */
  lemma {:induction false} ReAddSlot(u: Entries, s: Stored, done: nat)
    requires !Has(u, Fold(s.name)) && 0 < done <= |s.values|
    ensures ReAdd(ValueHeaders(s)[done..], u + [Slot(Fold(s.name), Stored(s.name, s.values[..done]))])
            == u + [Slot(Fold(s.name), s)]
    decreases |s.values| - done
  {
    if done == |s.values| {
      assert s.values[..done] == s.values;
    } else {
      ExtendLast(u, Stored(s.name, s.values[..done]), s.values[done]);
      assert s.values[..done] + [s.values[done]] == s.values[..done + 1];
      assert ValueHeaders(s)[done..][1..] == ValueHeaders(s)[done + 1..];
      ReAddSlot(u, s, done + 1);
    }
  }

  lemma {:induction false} ReAddEntry(u: Entries, s: Stored)
    requires !Has(u, Fold(s.name)) && s.values != []
    ensures ReAdd(ValueHeaders(s), u) == u + [Slot(Fold(s.name), s)]
  {
    ExtendLast(u, s, s.values[0]);
    assert s.values[..1] == [s.values[0]];
    ReAddSlot(u, s, 1);
  }

  /** `t` can be added slot by slot behind `u`. */
  ghost predicate Follows(u: Entries, t: Entries)
    decreases |t|
  {
    t != [] ==>
      !Has(u, t[0].key) && t[0].key == Fold(t[0].val.name) &&
      Follows(if t[0].val.values == [] then u else u + [t[0]], t[1..])
  }

  lemma {:induction false} ReAddOnto(t: Entries, u: Entries)
    requires Follows(u, t)
    ensures ReAdd(Iter(t), u) == u + NonEmpty(t)
    decreases |t|
  {
    if t != [] {
      var s := t[0].val;
      ReAddConcat(ValueHeaders(s), Iter(t[1..]), u);
      if s.values == [] {
        ReAddOnto(t[1..], u);
      } else {
        ReAddEntry(u, s);
        ReAddOnto(t[1..], u + [t[0]]);
        assert (u + [t[0]]) + NonEmpty(t[1..]) == u + ([t[0]] + NonEmpty(t[1..]));
      }
    }
  }

  lemma {:induction false} KeyedFollows(u: Entries, t: Entries)
    requires Keyed(t) && forall i, j :: 0 <= i < |t| && 0 <= j < |u| ==> t[i].key != u[j].key
    ensures Follows(u, t)
    decreases |t|
  {
    if t != [] {
      KeyedFollows(if t[0].val.values == [] then u else u + [t[0]], t[1..]);
    }
  }

  lemma {:induction false} NonEmptyMembers(t: Entries, e: Slot<string, Stored>)
    ensures e in NonEmpty(t) <==> e in t && e.val.values != []
  {
    if t != [] {
      NonEmptyMembers(t[1..], e);
      assert e in t <==> e == t[0] || e in t[1..];
    }
  }

  lemma {:induction false} NonEmptyKeeps(t: Entries, name: string)
    requires Unique(t)
    ensures Get(NonEmpty(t), name) == Get(t, name)
  {
    if t != [] {
      NonEmptyKeeps(t[1..], name);
      if t[0].key == Fold(name) {
        FindIs(t[1..], Fold(name), |t| - 1);
        assert Get(t[1..], name) == [];
      } else {
        assert Get(t, name) == Get(t[1..], name);
      }
    }
  }

  lemma {:induction false} NonEmptyAll(t: Entries)
    requires forall i :: 0 <= i < |t| ==> t[i].val.values != []
    ensures NonEmpty(t) == t
  {
    if t != [] {
      NonEmptyAll(t[1..]);
    }
  }

  /** Re-adding what `remove_all` returned restores `get` for every name, and restores the whole
      table exactly when no name was stored with an empty list of values. */
  lemma {:induction false} ReAddRestores(t: Entries)
    requires Keyed(t)
    ensures forall name :: Get(ReAdd(Iter(t), []), name) == Get(t, name)
    ensures ReAdd(Iter(t), []) == t <==> forall i :: 0 <= i < |t| ==> t[i].val.values != []
  {
    KeyedFollows([], t);
    ReAddOnto(t, []);
    assert ReAdd(Iter(t), []) == NonEmpty(t);
    forall name ensures Get(NonEmpty(t), name) == Get(t, name) {
      NonEmptyKeeps(t, name);
    }
    if forall i :: 0 <= i < |t| ==> t[i].val.values != [] {
      NonEmptyAll(t);
    } else {
      var i :| 0 <= i < |t| && t[i].val.values == [];
      NonEmptyMembers(t, t[i]);
      assert t[i] in t;
    }
  }

  // ---------------------------------------------------------------- the mutable map and its iterator

  class HeaderMap {
    var headers: Entries

    ghost predicate Valid() reads this { Keyed(headers) }

    constructor ()
      ensures Valid() && headers == []
    {
      headers := [];
    }

    method Len() returns (n: nat)
      ensures n == |Iter(headers)|
    {
      n := 0;
      assert headers[0..] == headers;
      for i := 0 to |headers|
        invariant n + |Iter(headers[i..])| == |Iter(headers)|
      {
        assert headers[i..][1..] == headers[i + 1..];
        n := n + |headers[i].val.values|;
      }
    }

    method GetOne(name: string) returns (r: Option<string>)
      ensures r == if Get(headers, name) == [] then None else Some(Get(headers, name)[0])
    {
      var values := Get(headers, name);
      if values != [] { r := Some(values[0]); } else { r := None; }
    }

    method Add(header: Header)
      requires Valid()
      modifies this
      ensures Valid() && headers == Apply(old(headers), Op.Add(header.name, header.value))
    {
      StepRefines(headers, Op.Add(header.name, header.value));
      headers := Extend(headers, header.name, [header.value]);
    }

    /** Drains the caller's list into the map. */
    method AddAll(name: string, values: seq<string>) returns (drained: seq<string>)
      requires Valid()
      modifies this
      ensures Valid() && headers == Apply(old(headers), Op.AddAll(name, values)) && drained == []
    {
      StepRefines(headers, Op.AddAll(name, values));
      headers := Extend(headers, name, values);
      drained := [];
    }

    method Replace(header: Header) returns (existed: bool)
      requires Valid()
      modifies this
      ensures Valid() && headers == Apply(old(headers), Op.Replace(header.name, header.value))
      ensures existed <==> Contains(old(headers), header.name)
    {
      StepRefines(headers, Op.Replace(header.name, header.value));
      existed := Contains(headers, header.name);
      headers := Insert(headers, header.name, [header.value]);
    }

    method ReplaceAll(name: string, values: seq<string>)
      requires Valid()
      modifies this
      ensures Valid() && headers == Apply(old(headers), Op.ReplaceAll(name, values))
    {
      StepRefines(headers, Op.ReplaceAll(name, values));
      headers := Insert(headers, name, values);
    }

    method Remove(name: string)
      requires Valid()
      modifies this
      ensures Valid() && headers == Apply(old(headers), Op.Remove(name))
    {
      StepRefines(headers, Op.Remove(name));
      headers := SwapRemove(headers, Fold(name));
    }

    /** Empties the map through the owning iterator, which yields what `iter` would have. */
    method RemoveAll() returns (all: seq<Header>)
      requires Valid()
      modifies this
      ensures Valid() && headers == Apply(old(headers), Op.RemoveAll)
      ensures all == Iter(old(headers))
    {
      var it := new IntoIter(headers);
      headers := [];
      all := it.Collect();
    }
  }

  lemma FirstMoves<A>(a: seq<A>, b: seq<A>)
    requires b != []
    ensures a + b == a + [b[0]] + b[1..]
  {
  }

  /** The owning iterator: slots still to open, and what is left of the open one. */
  class IntoIter {
    var headers: Entries
    var current: Option<Stored>

    constructor (t: Entries)
      ensures headers == t && current == None
      ensures Pending() == Iter(t)
    {
      headers := t;
      current := None;
    }

    /** Every header still to come. */
    ghost function Pending(): seq<Header>
      reads this
    {
      (match current
       case None => []
       case Some(s) => ValueHeaders(s)) + Iter(headers)
    }

    /** Yields the pending headers in order, stepping over slots without values. */
    method Next() returns (r: Option<Header>)
      modifies this
      ensures old(Pending()) == [] ==> r == None && Pending() == []
      ensures old(Pending()) != [] ==> r == Some(old(Pending())[0]) && Pending() == old(Pending())[1..]
    {
      while true
        invariant Pending() == old(Pending())
        decreases |headers|
      {
        if current.Some? {
          var s := current.value;
          if s.values != [] {
            var value := s.values[0];
            current := Some(Stored(s.name, s.values[1..]));
            assert ValueHeaders(s)[1..] == ValueHeaders(Stored(s.name, s.values[1..]));
            return Some(Header(s.name, value));
          }
        }
        if headers == [] {
          return None;
        }
        current, headers := Some(headers[0].val), headers[1..];
      }
    }

    method Collect() returns (all: seq<Header>)
      modifies this
      ensures all == old(Pending())
    {
      all := [];
      ghost var pending := Pending();
      while true
        invariant pending == Pending() && old(Pending()) == all + pending
        decreases |pending|
      {
        var next := Next();
        if next.None? {
          return;
        }
        FirstMoves(all, pending);
        all, pending := all + [next.value], pending[1..];
      }
    }
  }
}
