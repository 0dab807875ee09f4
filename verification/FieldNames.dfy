/** Form field names and the compile-time search for names that clash. */
module FieldNames {
  import opened Options
  import opened Uncased

  /** `Nocase` is the source's `Uncased`. */
  datatype FieldName = Cased(name: string) | Nocase(name: string)

  /** Does the generated `match` arm of this name accept the form key? */
  predicate Matches(f: FieldName, key: string)
  {
    match f
    case Cased(n) => key == n
    case Nocase(n) => Fold(key) == Fold(n)
  }

  /** `PartialEq for FieldName`: symmetric and reflexive, but not transitive. */
  predicate Clashes(a: FieldName, b: FieldName)
  {
    match (a, b)
    case (Cased(x), Cased(y)) => x == y
    case (Cased(x), Nocase(y)) => Fold(x) == Fold(y)
    case (Nocase(x), Cased(y)) => Fold(x) == Fold(y)
    case (Nocase(x), Nocase(y)) => Fold(x) == Fold(y)
  }

  /** Names clash exactly when some form key fits both. */
  lemma ClashIsSharedKey(a: FieldName, b: FieldName)
    ensures Clashes(a, b) <==> exists key :: Matches(a, key) && Matches(b, key)
  {
    if Clashes(a, b) {
      var key := if a.Cased? then a.name else b.name;
      assert Matches(a, key) && Matches(b, key);
    }
  }

  lemma ClashIsNotTransitive()
    ensures Clashes(Cased("a"), Nocase("A")) && Clashes(Nocase("A"), Cased("A"))
    ensures !Clashes(Cased("a"), Cased("A"))
  {
    assert Fold("a") == "a" && Fold("A") == "a";
    assert "a"[0] != "A"[0];
  }

  // ---------------------------------------------------------------- owners of names

  function Flat(values: seq<seq<FieldName>>): seq<FieldName>
  {
    if values == [] then [] else Flat(values[..|values| - 1]) + values[|values| - 1]
  }

  /** How many names the first `n` keys list. */
  function End(values: seq<seq<FieldName>>, n: nat): (e: nat)
    requires n <= |values|
  {
    |Flat(values[..n])|
  }

  lemma EndStep(values: seq<seq<FieldName>>, n: nat)
    requires n < |values|
    ensures Flat(values[..n + 1]) == Flat(values[..n]) + values[n]
    ensures End(values, n + 1) == End(values, n) + |values[n]|
  {
    assert values[..n + 1][..n] == values[..n];
  }

  lemma {:induction false} EndMonotone(values: seq<seq<FieldName>>, m: nat, n: nat)
    requires m <= n <= |values|
    ensures End(values, m) <= End(values, n) && Flat(values[..m]) <= Flat(values[..n])
    decreases n
  {
    if m < n {
      EndStep(values, n - 1);
      EndMonotone(values, m, n - 1);
    }
  }

  /** Key `k` lists the name at flat position `i`. */
  ghost predicate Owns(values: seq<seq<FieldName>>, k: nat, i: nat)
  {
    k < |values| && End(values, k) <= i < End(values, k + 1)
  }

  lemma OwnedName(values: seq<seq<FieldName>>, k: nat, i: nat)
    requires Owns(values, k, i)
    ensures i < |Flat(values)| && i - End(values, k) < |values[k]|
    ensures Flat(values)[i] == values[k][i - End(values, k)]
  {
    EndStep(values, k);
    EndMonotone(values, k + 1, |values|);
    assert values[..|values|] == values;
  }

  /** A position has one owner, and owners have distinct ends, even among keys that list no names. */
  lemma OwnerIsUnique(values: seq<seq<FieldName>>, k: nat, l: nat, i: nat, j: nat)
    requires Owns(values, k, i) && Owns(values, l, j)
    ensures End(values, k + 1) == End(values, l + 1) <==> k == l
    ensures i == j ==> k == l
  {
    if k < l { EndMonotone(values, k + 1, l); }
    if l < k { EndMonotone(values, l + 1, k); }
  }

  // ---------------------------------------------------------------- the search

  /** What is reported of one name: its key's prefix index, its key, and its flat position. */
  datatype Dup = Dup(prefix: nat, key: nat, value: nat)

  ghost predicate Clashing(all: seq<FieldName>, i: int, j: int)
  {
    0 <= i < j < |all| && Clashes(all[j], all[i])
  }

  ghost predicate Accepted(values: seq<seq<FieldName>>)
  {
    forall i, j :: !Clashing(Flat(values), i, j)
  }

  /** `key(k)`: the first key whose prefix index exceeds `k`. */
  method KeyOf(values: seq<seq<FieldName>>, keyMap: seq<(nat, nat)>, k: nat) returns (r: (nat, nat))
    requires |keyMap| == |values| && forall n :: 0 <= n < |keyMap| ==> keyMap[n] == (End(values, n + 1), n)
    requires k < |Flat(values)|
    ensures Owns(values, r.1, k) && r.0 == End(values, r.1 + 1)
  {
    assert values[..|values|] == values && values[..0] == [];
    for n := 0 to |keyMap|
      invariant End(values, n) <= k
    {
      if k < keyMap[n].0 {
        return keyMap[n];
      }
    }
  }

  method FirstDuplicate(values: seq<seq<FieldName>>) returns (r: Option<(Dup, Dup)>)
    ensures r.None? <==> Accepted(values)
    ensures r.Some? ==>
      var (a, b) := r.value;
      && Clashing(Flat(values), a.value, b.value)
      && (forall i, j :: Clashing(Flat(values), i, j) ==> a.value < i || (a.value == i && b.value <= j))
      && Owns(values, a.key, a.value) && Owns(values, b.key, b.value)
      && (a.prefix == b.prefix <==> a.key == b.key)
  {
    var allValues: seq<FieldName>, keyMap: seq<(nat, nat)> := [], [];
    for n := 0 to |values|
      invariant allValues == Flat(values[..n]) && |keyMap| == n
      invariant forall m :: 0 <= m < n ==> keyMap[m] == (End(values, m + 1), m)
    {
      EndStep(values, n);
      allValues := allValues + values[n];
      keyMap := keyMap + [(|allValues|, n)];
    }
    assert values[..|values|] == values;
    for i := 0 to |allValues|
      invariant forall k, l :: k < i ==> !Clashing(allValues, k, l)
    {
      for j := i + 1 to |allValues|
        invariant forall l :: l < j ==> !Clashing(allValues, i, l)
      {
        if Clashes(allValues[j], allValues[i]) {
          var a := KeyOf(values, keyMap, i);
          var b := KeyOf(values, keyMap, j);
          OwnerIsUnique(values, a.1, b.1, i, j);
          assert Clashing(allValues, i, j);
          return Some((Dup(a.0, a.1, i), Dup(b.0, b.1, j)));
        }
      }
    }
    r := None;
  }

  /** Two listed names fit one form key. */
  ghost predicate Ambiguous(all: seq<FieldName>, i: int, j: int, key: string)
  {
    0 <= i < j < |all| && Matches(all[i], key) && Matches(all[j], key)
  }

  ghost predicate Unambiguous(all: seq<FieldName>)
  {
    forall i, j, key :: !Ambiguous(all, i, j, key)
  }

  /** No clash means no ambiguity: no form key whatever fits two listed names. */
  lemma NoClashNoAmbiguity(values: seq<seq<FieldName>>)
    ensures Accepted(values) <==> Unambiguous(Flat(values))
  {
    var all := Flat(values);
    if Accepted(values) {
      forall i, j, key ensures !Ambiguous(all, i, j, key) {
        assert !Clashing(all, i, j);
        if 0 <= i < j < |all| {
          ClashIsSharedKey(all[j], all[i]);
        }
      }
    } else {
      var i, j :| Clashing(all, i, j);
      ClashIsSharedKey(all[j], all[i]);
      var key :| Matches(all[j], key) && Matches(all[i], key);
      assert Ambiguous(all, i, j, key);
    }
  }

  /** Among accepted keys, a form key fits a name of one key only, and only one of its names. */
  lemma AcceptedIsUnambiguous(values: seq<seq<FieldName>>, key: string, k: nat, a: nat, l: nat, b: nat)
    requires Accepted(values) && k < |values| && l < |values| && a < |values[k]| && b < |values[l]|
    requires Matches(values[k][a], key) && Matches(values[l][b], key)
    ensures k == l && a == b
  {
    EndStep(values, k);
    EndStep(values, l);
    var i, j := End(values, k) + a, End(values, l) + b;
    OwnedName(values, k, i);
    OwnedName(values, l, j);
    OwnerIsUnique(values, k, l, i, j);
    var all := Flat(values);
    ClashIsSharedKey(all[i], all[j]);
    ClashIsSharedKey(all[j], all[i]);
    assert !Clashing(all, i, j) && !Clashing(all, j, i);
  }
}
