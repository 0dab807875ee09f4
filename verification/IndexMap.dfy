/** The insertion-ordered hash map: a sequence of slots with distinct keys. */
module IndexMap {

  datatype Slot<K, V> = Slot(key: K, val: V)

  type Table<K, V> = seq<Slot<K, V>>

  ghost predicate Unique<K, V>(t: Table<K, V>)
  {
    forall i, j :: 0 <= i < j < |t| ==> t[i].key != t[j].key
  }

  /** Slot of `k`, or `|t|`. */
  function Find<K(==), V>(t: Table<K, V>, k: K): (i: nat)
    ensures i <= |t|
    ensures i < |t| ==> t[i].key == k
  {
    if t == [] || t[0].key == k then 0 else 1 + Find(t[1..], k)
  }

  lemma {:induction false} FindIsFirst<K, V>(t: Table<K, V>, k: K)
    ensures forall j :: 0 <= j < Find(t, k) ==> t[j].key != k
  {
    if t != [] && t[0].key != k {
      FindIsFirst(t[1..], k);
    }
  }

  predicate Has<K(==), V>(t: Table<K, V>, k: K) { Find(t, k) < |t| }

  function At<K(==), V>(t: Table<K, V>, k: K): V
    requires Has(t, k)
  {
    t[Find(t, k)].val
  }

  /** `insert`: an existing key keeps its slot, a new one goes last. */
  function Put<K(==), V>(t: Table<K, V>, k: K, v: V): Table<K, V>
  {
    var i := Find(t, k);
    if i < |t| then t[i := Slot(k, v)] else t + [Slot(k, v)]
  }

  /** `swap_remove`: the last slot moves into the hole. */
  function SwapRemove<K(==), V>(t: Table<K, V>, k: K): Table<K, V>
  {
    var i := Find(t, k);
    if i == |t| then t else t[i := t[|t| - 1]][..|t| - 1]
  }

  ghost function View<K(!new), V>(t: Table<K, V>): map<K, V>
  {
    map k | k in Keys(t) :: t[Find(t, k)].val
  }

  ghost function Keys<K(!new), V>(t: Table<K, V>): (r: set<K>)
    ensures forall k :: k in r <==> Find(t, k) < |t|
  {
    if t == [] then {} else {t[0].key} + Keys(t[1..])
  }

  lemma FindIs<K, V>(t: Table<K, V>, k: K, i: nat)
    requires i <= |t| && forall j :: 0 <= j < i ==> t[j].key != k
    requires i < |t| ==> t[i].key == k
    ensures Find(t, k) == i
  {
    FindIsFirst(t, k);
  }

  lemma {:induction false} FindInPut<K, V>(t: Table<K, V>, k: K, v: V, x: K)
    ensures Find(Put(t, k, v), x) == if Has(t, x) || x == k then Find(t, x) else |Put(t, k, v)|
  {
    var u, i := Put(t, k, v), Find(t, x);
    FindIsFirst(t, x);
    assert forall j :: 0 <= j < |t| ==> u[j].key == t[j].key;
    FindIs(u, x, if i < |t| || x == k then i else |u|);
  }

  lemma PutKeepsUnique<K, V>(t: Table<K, V>, k: K, v: V)
    requires Unique(t)
    ensures Unique(Put(t, k, v))
  {
    FindIsFirst(t, k);
    assert forall j :: 0 <= j < |t| ==> Put(t, k, v)[j].key == t[j].key;
  }

  lemma PutAt<K(!new), V>(t: Table<K, V>, k: K, v: V, x: K)
    ensures var u := Put(t, k, v);
            (Has(u, x) <==> Has(t, x) || x == k) && (Has(u, x) ==> At(u, x) == if x == k then v else At(t, x))
  {
    FindInPut(t, k, v, x);
  }

  /** Writing a key changes that key's entry of the map and no other. */
  lemma {:induction false} PutRefines<K(!new), V>(t: Table<K, V>, k: K, v: V)
    requires Unique(t)
    ensures Unique(Put(t, k, v)) && View(Put(t, k, v)) == View(t)[k := v]
  {
    var u, m := Put(t, k, v), View(t)[k := v];
    PutKeepsUnique(t, k, v);
    forall x ensures (x in View(u) <==> x in m) && (x in m ==> View(u)[x] == m[x]) {
      PutAt(t, k, v, x);
    }
    assert View(u) == m;
  }

  lemma {:induction false} FindInSwapRemove<K, V>(t: Table<K, V>, k: K, x: K)
    requires Unique(t)
    ensures var u, i, h := SwapRemove(t, k), Find(t, x), Find(t, k);
            Find(u, x) == if i == |t| || x == k then |u| else if i == |t| - 1 && h < |t| then h else i
  {
    var u, i, h := SwapRemove(t, k), Find(t, x), Find(t, k);
    FindIsFirst(t, x);
    FindIsFirst(t, k);
    assert forall j :: 0 <= j < |u| ==> u[j] == t[if j == h then |t| - 1 else j];
    FindIs(u, x, if i == |t| || x == k then |u| else if i == |t| - 1 && h < |t| then h else i);
  }

  lemma SwapRemoveKeepsUnique<K, V>(t: Table<K, V>, k: K)
    requires Unique(t)
    ensures Unique(SwapRemove(t, k))
  {
    var u, h := SwapRemove(t, k), Find(t, k);
    assert forall j :: 0 <= j < |u| ==> u[j] == t[if j == h then |t| - 1 else j];
  }

  lemma SwapRemoveAt<K(!new), V>(t: Table<K, V>, k: K, x: K)
    requires Unique(t)
    ensures var u := SwapRemove(t, k);
            (Has(u, x) <==> Has(t, x) && x != k) && (Has(u, x) ==> At(u, x) == At(t, x))
  {
    FindInSwapRemove(t, k, x);
  }

  /** The slot that fills the hole keeps its entry; only `k` is gone. */
  lemma {:induction false} SwapRemoveRefines<K(!new), V>(t: Table<K, V>, k: K)
    requires Unique(t)
    ensures Unique(SwapRemove(t, k)) && View(SwapRemove(t, k)) == View(t) - {k}
  {
    var u, m := SwapRemove(t, k), View(t) - {k};
    SwapRemoveKeepsUnique(t, k);
    forall x ensures (x in View(u) <==> x in m) && (x in m ==> View(u)[x] == m[x]) {
      SwapRemoveAt(t, k, x);
    }
    assert View(u) == m;
  }
}
