/** The sentinel query: a pruned breadth-first search over a graph of nested types. */
module Sentinel {
  import opened Options

  type TypeId = nat

  /** `aborts` is the verdict that calling this sentry's `abort` would give. */
  datatype Sentry = Sentry(typeId: TypeId, parent: Option<TypeId>, specialized: bool, aborts: bool)

  datatype Verdict = Ok | Err(aborted: seq<Sentry>)

  /** Indices below `n` of the sentries with this parent, in order. */
  function WithParent(s: seq<Sentry>, parent: Option<TypeId>, n: nat): seq<nat>
    requires n <= |s|
  {
    if n == 0 then []
    else if s[n - 1].parent == parent then WithParent(s, parent, n - 1) + [n - 1]
    else WithParent(s, parent, n - 1)
  }

  lemma {:induction false} WithParentIsAll(s: seq<Sentry>, parent: Option<TypeId>, n: nat)
    requires n <= |s|
    ensures var r := WithParent(s, parent, n);
            && (forall k :: 0 <= k < |r| ==> r[k] < n && s[r[k]].parent == parent)
            && (forall j :: 0 <= j < n && s[j].parent == parent ==> j in r)
            && (forall k, l :: 0 <= k < l < |r| ==> r[k] < r[l])
  {
    if n > 0 {
      WithParentIsAll(s, parent, n - 1);
      var init, r := WithParent(s, parent, n - 1), WithParent(s, parent, n);
      assert forall k :: 0 <= k < |init| ==> r[k] == init[k];
      forall j | 0 <= j < n && s[j].parent == parent ensures j in r {
        if j < n - 1 {
          var k :| 0 <= k < |init| && init[k] == j;
          assert r[k] == j;
        } else {
          assert r[|init|] == j;
        }
      }
    }
  }

  // ---------------------------------------------------------------- the traversal

  ghost predicate Indices(s: seq<Sentry>, order: seq<nat>)
  {
    forall p :: 0 <= p < |order| ==> order[p] < |s|
  }

  /** Does position `p` of the order make the children of type `t` eligible? */
  predicate Opens(s: seq<Sentry>, order: seq<nat>, p: nat, t: TypeId)
    requires p < |order| && order[p] < |s|
  {
    !s[order[p]].specialized && s[order[p]].typeId == t
  }

  /** Position `p` holds a root (`via` -1), or a child of the first position that opens its parent. */
  ghost predicate Placed(s: seq<Sentry>, order: seq<nat>, via: int, p: nat)
    requires Indices(s, order) && p < |order|
  {
    var parent := s[order[p]].parent;
    if via == -1 then parent.None?
    else
      && 0 <= via < p && parent.Some? && Opens(s, order, via, parent.value)
      && forall q :: 0 <= q < via ==> !Opens(s, order, q, parent.value)
  }

  /** `order` lists sentries and `via` who enqueued them: first come first served, ties in input order. */
  ghost predicate Enqueued(s: seq<Sentry>, order: seq<nat>, via: seq<int>)
  {
    && |via| == |order| && Indices(s, order)
    && (forall p :: 0 <= p < |order| ==> Placed(s, order, via[p], p))
    && (forall p :: 0 < p < |order| ==> Queued(order, via, p))
  }

  ghost predicate Queued(order: seq<nat>, via: seq<int>, p: nat)
    requires |via| == |order| && 0 < p < |order|
  {
    After(order, via, p - 1, p)
  }

  ghost predicate After(order: seq<nat>, via: seq<int>, p: nat, q: nat)
    requires |via| == |order| && p < |order| && q < |order|
  {
    via[p] < via[q] || (via[p] == via[q] && order[p] < order[q])
  }

  lemma {:induction false} AfterChain(order: seq<nat>, via: seq<int>, p: nat, q: nat)
    requires |via| == |order| && p < q < |order|
    requires forall p :: 0 < p < |order| ==> Queued(order, via, p)
    ensures After(order, via, p, q)
    decreases q
  {
    assert Queued(order, via, q);
    if p < q - 1 {
      AfterChain(order, via, p, q - 1);
    }
  }

  /** Every root is listed. */
  ghost predicate RootsListed(s: seq<Sentry>, order: seq<nat>)
  {
    forall j :: 0 <= j < |s| && s[j].parent.None? ==> j in order
  }

  /** Every child of what position `p` opens is listed. */
  ghost predicate KidsListed(s: seq<Sentry>, order: seq<nat>, p: nat)
    requires p < |order| && order[p] < |s|
  {
    !s[order[p]].specialized ==>
      forall j :: 0 <= j < |s| && s[j].parent == Some(s[order[p]].typeId) ==> j in order
  }

  ghost predicate ClosedUpTo(s: seq<Sentry>, order: seq<nat>, h: nat)
    requires h <= |order| && Indices(s, order)
  {
    RootsListed(s, order) && forall p :: 0 <= p < h ==> KidsListed(s, order, p)
  }

  ghost predicate Traversal(s: seq<Sentry>, order: seq<nat>, via: seq<int>)
  {
    Enqueued(s, order, via) && ClosedUpTo(s, order, |order|)
  }

  ghost predicate Distinct(order: seq<nat>)
  {
    forall p, q :: 0 <= p < q < |order| ==> order[p] != order[q]
  }

  /** A sentry has one enqueuer, so it is listed once. */
  lemma EnqueuedOnce(s: seq<Sentry>, order: seq<nat>, via: seq<int>)
    requires Enqueued(s, order, via)
    ensures Distinct(order)
  {
    forall p, q | 0 <= p < q < |order| ensures order[p] != order[q] {
      AfterChain(order, via, p, q);
      assert Placed(s, order, via[p], p) && Placed(s, order, via[q], q);
    }
  }

  lemma {:induction false} DistinctIsBounded(order: seq<nat>, n: nat)
    requires Distinct(order) && forall p :: 0 <= p < |order| ==> order[p] < n
    ensures |order| <= n
  {
    if order != [] {
      assert order[0] < n;
    }
    if n > 0 {
      if p :| 0 <= p < |order| && order[p] == n - 1 {
        var rest := order[..p] + order[p + 1..];
        assert forall q :: 0 <= q < |rest| ==> rest[q] == order[if q < p then q else q + 1];
        assert forall q :: 0 <= q < |rest| ==> rest[q] != order[p];
        DistinctIsBounded(rest, n - 1);
      } else {
        DistinctIsBounded(order, n - 1);
      }
    }
  }

  // ---------------------------------------------------------------- verdicts

  /** First position holding a specialised sentry of type `t`, or `|order|`. */
  function FirstOf(s: seq<Sentry>, order: seq<nat>, t: TypeId): (p: nat)
    requires Indices(s, order)
    ensures p <= |order|
    ensures p < |order| ==> s[order[p]].specialized && s[order[p]].typeId == t
    ensures forall q :: 0 <= q < p ==> !(s[order[q]].specialized && s[order[q]].typeId == t)
  {
    if order == [] then 0
    else
      var n := |order| - 1;
      var p := FirstOf(s, order[..n], t);
      if p < n || (s[order[n]].specialized && s[order[n]].typeId == t) then p else n + 1
  }

  /** The memoised verdict on type `t`. */
  predicate TypeAborts(s: seq<Sentry>, order: seq<nat>, t: TypeId)
    requires Indices(s, order)
  {
    var p := FirstOf(s, order, t);
    p < |order| && s[order[p]].aborts
  }

  /** The sentries whose `abort` runs: the first specialised one of each type. */
  function Calls(s: seq<Sentry>, order: seq<nat>): (r: seq<nat>)
    requires Indices(s, order)
    ensures Indices(s, r)
  {
    if order == [] then []
    else
      var n := |order| - 1;
      Calls(s, order[..n]) + if FirstOf(s, order, s[order[n]].typeId) == n then [order[n]] else []
  }

  function Aborted(s: seq<Sentry>, order: seq<nat>): (r: seq<Sentry>)
    requires Indices(s, order)
  {
    if order == [] then []
    else
      var n := |order| - 1;
      Aborted(s, order[..n]) +
      if s[order[n]].specialized && TypeAborts(s, order, s[order[n]].typeId) then [s[order[n]]] else []
  }

  // ---------------------------------------------------------------- the loop

  /** Builds the parent map and the queue of roots. */
  method BuildGraph(s: seq<Sentry>) returns (roots: seq<nat>, children: map<TypeId, seq<nat>>)
    ensures roots == WithParent(s, None, |s|)
    ensures forall t :: t in children <==> WithParent(s, Some(t), |s|) != []
    ensures forall t :: t in children ==> children[t] == WithParent(s, Some(t), |s|)
  {
    roots, children := [], map[];
    for n := 0 to |s|
      invariant roots == WithParent(s, None, n)
      invariant forall t :: t in children <==> WithParent(s, Some(t), n) != []
      invariant forall t :: t in children ==> children[t] == WithParent(s, Some(t), n)
    {
      match s[n].parent
      case Some(parent) =>
        children := children[parent := (if parent in children then children[parent] else []) + [n]];
      case None =>
        roots := roots + [n];
    }
  }

  /** No position of `popped` has opened type `t`: its children are still in the map. */
  ghost predicate Unopened(s: seq<Sentry>, popped: seq<nat>, t: TypeId)
    requires Indices(s, popped)
  {
    forall p :: 0 <= p < |popped| ==> !Opens(s, popped, p, t)
  }

  /** `visited` holds the first verdict on each type whose turn has come. */
  ghost predicate Memo(s: seq<Sentry>, popped: seq<nat>, visited: map<TypeId, bool>)
    requires Indices(s, popped)
  {
    forall t :: (t in visited <==> FirstOf(s, popped, t) < |popped|) &&
                (t in visited ==> visited[t] == TypeAborts(s, popped, t))
  }

  lemma UnopenedStep(s: seq<Sentry>, popped: seq<nat>, i: nat)
    requires Indices(s, popped) && i < |s|
    ensures forall t :: Unopened(s, popped + [i], t) <==>
                        Unopened(s, popped, t) && !(!s[i].specialized && s[i].typeId == t)
  {
    var now := popped + [i];
    forall t ensures Unopened(s, now, t) <==>
                     Unopened(s, popped, t) && !(!s[i].specialized && s[i].typeId == t)
    {
      assert forall p :: 0 <= p < |popped| ==> Opens(s, now, p, t) == Opens(s, popped, p, t);
      assert Opens(s, now, |popped|, t) == (!s[i].specialized && s[i].typeId == t);
    }
  }

  lemma FirstOfStep(s: seq<Sentry>, popped: seq<nat>, i: nat, t: TypeId)
    requires Indices(s, popped) && i < |s|
    ensures FirstOf(s, popped + [i], t) ==
            if FirstOf(s, popped, t) < |popped| then FirstOf(s, popped, t)
            else if s[i].specialized && s[i].typeId == t then |popped| else |popped| + 1
  {
    assert (popped + [i])[..|popped|] == popped;
  }

  /** A popped sentry adds its type's verdict to the memo if it is the first specialised one. */
  lemma MemoStep(s: seq<Sentry>, popped: seq<nat>, i: nat, visited: map<TypeId, bool>)
    requires Indices(s, popped) && i < |s| && Memo(s, popped, visited)
    ensures var t := s[i].typeId;
            Memo(s, popped + [i],
                 if s[i].specialized && t !in visited then visited[t := s[i].aborts] else visited)
    ensures Calls(s, popped + [i]) ==
            Calls(s, popped) + if s[i].specialized && s[i].typeId !in visited then [i] else []
    ensures Aborted(s, popped + [i]) ==
            Aborted(s, popped) + if !s[i].specialized then []
                                 else if (if s[i].typeId in visited then visited[s[i].typeId] else s[i].aborts)
                                 then [s[i]] else []
  {
    var now, k := popped + [i], s[i].typeId;
    var after := if s[i].specialized && k !in visited then visited[k := s[i].aborts] else visited;
    forall t ensures (t in after <==> FirstOf(s, now, t) < |now|) &&
                     (t in after ==> after[t] == TypeAborts(s, now, t))
    {
      FirstOfStep(s, popped, i, t);
    }
    FirstOfStep(s, popped, i, k);
    assert now[..|popped|] == popped;
  }

  /** A type missing from the map has no children, or they were enqueued before. */
  lemma NothingLeft(s: seq<Sentry>, order: seq<nat>, h: nat)
    requires h < |order| && Indices(s, order) && ClosedUpTo(s, order, h)
    requires WithParent(s, Some(s[order[h]].typeId), |s|) == [] || !Unopened(s, order[..h], s[order[h]].typeId)
    ensures KidsListed(s, order, h)
  {
    var t := s[order[h]].typeId;
    WithParentIsAll(s, Some(t), |s|);
    if q :| 0 <= q < h && Opens(s, order[..h], q, t) {
      assert KidsListed(s, order, q);
    }
  }

  /** The queue and the map, after `order` has been popped. */
  ghost predicate QueueState(s: seq<Sentry>, order: seq<nat>, remaining: seq<nat>, via: seq<int>,
                             children: map<TypeId, seq<nat>>)
  {
    && Enqueued(s, order + remaining, via) && Indices(s, order)
    && ClosedUpTo(s, order + remaining, |order|)
    && (forall p :: 0 <= p < |via| ==> via[p] < |order|)
    && (forall t :: t in children <==> WithParent(s, Some(t), |s|) != [] && Unopened(s, order, t))
    && (forall t :: t in children ==> children[t] == WithParent(s, Some(t), |s|))
  }

  /** The verdict and the calls made are those of the traversal `order`. */
  ghost predicate Reported(s: seq<Sentry>, order: seq<nat>, via: seq<int>, r: Verdict, calls: seq<nat>)
  {
    && Traversal(s, order, via) && calls == Calls(s, order)
    && r == if Aborted(s, order) == [] then Ok else Err(Aborted(s, order))
  }

  /** `calls` records whose `abort` was called; no traversal but one gives the result. */
  method Query(s: seq<Sentry>) returns (r: Verdict, calls: seq<nat>)
    ensures exists order, via :: Reported(s, order, via, r, calls)
    ensures forall order, via :: Traversal(s, order, via) ==> Reported(s, order, via, r, calls)
    ensures forall i :: i in calls ==> i < |s| && s[i].specialized && Unguarded(s, i)
    ensures OneVerdictPerType(s) ==>
              (r.Ok? <==> forall j: nat :: j < |s| && Unguarded(s, j) && s[j].specialized ==> !s[j].aborts)
  {
    ghost var order, via;
    r, calls, order, via := Traverse(s);
    ReportIsDetermined(s, order, via, r, calls);
    ReportMeans(s, order, via, r, calls);
  }

  method Traverse(s: seq<Sentry>) returns (r: Verdict, calls: seq<nat>, ghost order: seq<nat>, ghost via: seq<int>)
    ensures Reported(s, order, via, r, calls)
  {
    var remaining, children := BuildGraph(s);
    var visited: map<TypeId, bool> := map[];
    var aborted: seq<Sentry> := [];
    calls, order := [], [];
    via := seq(|remaining|, i => -1);
    RootsEnqueued(s);
    assert order + remaining == remaining;
    while remaining != []
      invariant QueueState(s, order, remaining, via, children)
      invariant Answers(s, order, visited, calls, aborted)
      decreases |s| - |order|
    {
      QueueIsBounded(s, order, remaining, via);
      var i := remaining[0];
      assert remaining == [i] + remaining[1..];
      assert (order + remaining)[|order|] == i;
      remaining, children, via := Open(s, i, remaining[1..], children, order, via);
      visited, calls, aborted := Ask(s, i, visited, calls, aborted, order);
      order := order + [i];
    }
    assert order + remaining == order;
    if aborted == [] { r := Ok; } else { r := Err(aborted); }
  }

  /** What the verdicts asked for come to, after `order` has been popped. */
  ghost predicate Answers(s: seq<Sentry>, order: seq<nat>, visited: map<TypeId, bool>, calls: seq<nat>,
                          aborted: seq<Sentry>)
    requires Indices(s, order)
  {
    Memo(s, order, visited) && calls == Calls(s, order) && aborted == Aborted(s, order)
  }

  /** The branch for sentinels: ask unless the type's verdict is known. */
  method Ask(s: seq<Sentry>, i: nat, known: map<TypeId, bool>, called: seq<nat>, failed: seq<Sentry>,
             ghost order: seq<nat>) returns (visited: map<TypeId, bool>, calls: seq<nat>, aborted: seq<Sentry>)
    requires i < |s| && Indices(s, order) && Answers(s, order, known, called, failed)
    ensures Answers(s, order + [i], visited, calls, aborted)
  {
    visited, calls, aborted := known, called, failed;
    MemoStep(s, order, i, visited);
    if s[i].specialized {
      if s[i].typeId !in visited {
        visited := visited[s[i].typeId := s[i].aborts];
        calls := calls + [i];
      }
      if visited[s[i].typeId] {
        aborted := aborted + [s[i]];
      }
    }
  }

  /** The branch for other types: enqueue the children, if they are still in the map. */
  method Open(s: seq<Sentry>, i: nat, rest: seq<nat>, kids: map<TypeId, seq<nat>>, ghost order: seq<nat>,
              ghost from: seq<int>) returns (remaining: seq<nat>, children: map<TypeId, seq<nat>>, ghost via: seq<int>)
    requires i < |s| && QueueState(s, order, [i] + rest, from, kids)
    ensures QueueState(s, order + [i], remaining, via, children)
  {
    remaining, children, via := rest, kids, from;
    if !s[i].specialized && s[i].typeId in children {
      OpenStep(s, order, i, rest, from, kids);
      via := via + seq(|children[s[i].typeId]|, k => |order|);
      remaining := remaining + children[s[i].typeId];
      children := children - {s[i].typeId};
    } else {
      PopStep(s, order, i, rest, from, kids);
    }
  }

  lemma QueueIsBounded(s: seq<Sentry>, order: seq<nat>, remaining: seq<nat>, via: seq<int>)
    requires Enqueued(s, order + remaining, via)
    ensures |order| + |remaining| <= |s|
  {
    EnqueuedOnce(s, order + remaining, via);
    DistinctIsBounded(order + remaining, |s|);
  }

  /** Taking a specialised sentry, or one whose children are gone, off the queue. */
  lemma PopStep(s: seq<Sentry>, order: seq<nat>, i: nat, rest: seq<nat>, via: seq<int>,
                children: map<TypeId, seq<nat>>)
    requires QueueState(s, order, [i] + rest, via, children) && i < |s|
    requires s[i].specialized || s[i].typeId !in children
    ensures QueueState(s, order + [i], rest, via, children)
  {
    var all, h := order + ([i] + rest), |order|;
    assert order + [i] + rest == all && all[..h] == order && all[h] == i;
    UnopenedStep(s, order, i);
    assert KidsListed(s, all, h) by {
      if !s[i].specialized { NothingLeft(s, all, h); }
    }
  }

  /** Taking off the first sentry of a type that opens it. */
  lemma OpenStep(s: seq<Sentry>, order: seq<nat>, i: nat, rest: seq<nat>, via: seq<int>,
                 children: map<TypeId, seq<nat>>)
    requires QueueState(s, order, [i] + rest, via, children) && i < |s|
    requires !s[i].specialized && s[i].typeId in children
    ensures var t := s[i].typeId;
            QueueState(s, order + [i], rest + children[t], via + seq(|children[t]|, k => |order|), children - {t})
  {
    var all, h, kids := order + ([i] + rest), |order|, children[s[i].typeId];
    assert order + [i] + (rest + kids) == all + kids && all[..h] == order && all[h] == i;
    UnopenedStep(s, order, i);
    forall q | 0 <= q < h ensures !Opens(s, all, q, s[i].typeId) {
      assert all[q] == order[q] && !Opens(s, order, q, s[i].typeId);
    }
    EnqueueKeeps(s, all, via, h, kids);
    EnqueueCloses(s, all, h, kids);
  }

  lemma RootsEnqueued(s: seq<Sentry>)
    ensures var roots := WithParent(s, None, |s|);
            Enqueued(s, roots, seq(|roots|, i => -1)) && RootsListed(s, roots)
  {
    WithParentIsAll(s, None, |s|);
  }

  /** Appending the children of the type opened at `h` keeps the queue discipline... */
  lemma EnqueueKeeps(s: seq<Sentry>, order: seq<nat>, via: seq<int>, h: nat, kids: seq<nat>)
    requires h < |order| && Enqueued(s, order, via)
    requires forall p :: 0 <= p < |order| ==> via[p] < h
    requires !s[order[h]].specialized && forall q :: 0 <= q < h ==> !Opens(s, order, q, s[order[h]].typeId)
    requires kids == WithParent(s, Some(s[order[h]].typeId), |s|)
    ensures Enqueued(s, order + kids, via + seq(|kids|, k => h))
  {
    WithParentIsAll(s, Some(s[order[h]].typeId), |s|);
    var o, v := order + kids, via + seq(|kids|, k => h);
    assert Indices(s, o);
    forall p | 0 <= p < |o| ensures Placed(s, o, v[p], p) {
      if p < |order| {
        assert Placed(s, order, via[p], p);
        PlacedPrefix(s, order, kids, via[p], p);
      } else {
        assert o[p] == kids[p - |order|];
        PlacedKid(s, order, kids, h, p);
      }
    }
    forall p | 0 < p < |o| ensures Queued(o, v, p) {
      if p < |order| {
        assert Queued(order, via, p);
      }
    }
  }

  lemma PlacedPrefix(s: seq<Sentry>, order: seq<nat>, more: seq<nat>, via: int, p: nat)
    requires Indices(s, order + more) && Indices(s, order) && p < |order| && Placed(s, order, via, p)
    ensures Placed(s, order + more, via, p)
  {
    var o := order + more;
    assert forall q, t :: 0 <= q < |order| ==> Opens(s, o, q, t) == Opens(s, order, q, t);
  }

  lemma PlacedKid(s: seq<Sentry>, order: seq<nat>, kids: seq<nat>, h: nat, p: nat)
    requires Indices(s, order + kids) && Indices(s, order) && h < |order| <= p < |order| + |kids|
    requires kids[p - |order|] < |s|
    requires s[kids[p - |order|]].parent == Some(s[order[h]].typeId) && !s[order[h]].specialized
    requires forall q :: 0 <= q < h ==> !Opens(s, order, q, s[order[h]].typeId)
    ensures Placed(s, order + kids, h, p)
  {
    var o := order + kids;
    assert forall q, t :: 0 <= q < |order| ==> Opens(s, o, q, t) == Opens(s, order, q, t);
  }

  /** ...and closes the list under what position `h` opens. */
  lemma EnqueueCloses(s: seq<Sentry>, order: seq<nat>, h: nat, kids: seq<nat>)
    requires h < |order| && Indices(s, order) && ClosedUpTo(s, order, h)
    requires kids == WithParent(s, Some(s[order[h]].typeId), |s|)
    ensures Indices(s, order + kids) && ClosedUpTo(s, order + kids, h + 1)
  {
    WithParentIsAll(s, Some(s[order[h]].typeId), |s|);
    var o := order + kids;
    assert Indices(s, o);
    forall p | 0 <= p < h + 1 ensures KidsListed(s, o, p) {
      if p < h {
        assert KidsListed(s, order, p);
      }
    }
  }

  // ---------------------------------------------------------------- what the query visits

  /** One step down: from a type that is not a sentinel to a type nested in it. */
  ghost predicate Link(s: seq<Sentry>, path: seq<nat>, k: nat)
    requires Indices(s, path) && 0 < k < |path|
  {
    !s[path[k - 1]].specialized && s[path[k]].parent == Some(s[path[k - 1]].typeId)
  }

  /** `path` leads from a root to `j` with no sentinel above `j`. */
  ghost predicate LeadsTo(s: seq<Sentry>, path: seq<nat>, j: nat)
  {
    && path != [] && Indices(s, path) && s[path[0]].parent.None? && path[|path| - 1] == j
    && forall k :: 0 < k < |path| ==> Link(s, path, k)
  }

  ghost function Level(via: seq<int>, p: nat): nat
    requires p < |via| && forall q :: 0 <= q < |via| ==> via[q] < q
  {
    if via[p] < 0 then 0 else 1 + Level(via, via[p])
  }

  lemma ViaIsEarlier(s: seq<Sentry>, order: seq<nat>, via: seq<int>)
    requires Enqueued(s, order, via)
    ensures forall q :: 0 <= q < |via| ==> -1 <= via[q] < q
  {
    forall q | 0 <= q < |via| ensures -1 <= via[q] < q {
      assert Placed(s, order, via[q], q);
    }
  }

  /** Levels never fall along the order. */
  lemma {:induction false} LevelsRise(s: seq<Sentry>, order: seq<nat>, via: seq<int>, p: nat, q: nat)
    requires Enqueued(s, order, via) && p <= q < |order|
    requires forall q :: 0 <= q < |via| ==> -1 <= via[q] < q
    ensures Level(via, p) <= Level(via, q)
    decreases q
  {
    if p < q {
      AfterChain(order, via, p, q);
      if via[p] >= 0 {
        LevelsRise(s, order, via, via[p], via[q]);
      }
    }
  }

  lemma {:induction false} PathOf(s: seq<Sentry>, order: seq<nat>, via: seq<int>, p: nat) returns (path: seq<nat>)
    requires Enqueued(s, order, via) && p < |order|
    requires forall q :: 0 <= q < |via| ==> -1 <= via[q] < q
    ensures LeadsTo(s, path, order[p]) && |path| == Level(via, p) + 1
    decreases p
  {
    assert Placed(s, order, via[p], p);
    if via[p] < 0 {
      path := [order[p]];
    } else {
      var up := PathOf(s, order, via, via[p]);
      path := up + [order[p]];
      forall k | 0 < k < |path| ensures Link(s, path, k) {
        if k < |up| {
          assert Link(s, up, k);
        } else {
          assert Opens(s, order, via[p], s[order[p]].parent.value);
        }
      }
    }
  }

  lemma {:induction false} PathIsPopped(s: seq<Sentry>, order: seq<nat>, via: seq<int>, path: seq<nat>, j: nat)
      returns (p: nat)
    requires Traversal(s, order, via) && LeadsTo(s, path, j)
    requires forall q :: 0 <= q < |via| ==> -1 <= via[q] < q
    ensures p < |order| && order[p] == j && Level(via, p) <= |path| - 1
    decreases |path|
  {
    var n := |path| - 1;
    if n == 0 {
      p :| 0 <= p < |order| && order[p] == j;
      assert Placed(s, order, via[p], p);
    } else {
      var up := path[..n];
      assert Link(s, path, n);
      forall k | 0 < k < |up| ensures Link(s, up, k) {
        assert Link(s, path, k);
      }
      var o := PathIsPopped(s, order, via, up, path[n - 1]);
      assert KidsListed(s, order, o);
      p :| 0 <= p < |order| && order[p] == j;
      assert Placed(s, order, via[p], p);
      assert Opens(s, order, o, s[j].parent.value);
      LevelsRise(s, order, via, via[p], o);
    }
  }

  /** Some root path to `j` has no sentinel above `j`. */
  ghost predicate Unguarded(s: seq<Sentry>, j: nat) { exists path :: LeadsTo(s, path, j) }

  /** The sentries popped are exactly those with a root path free of sentinels above them, each once;
      cycles in the parent links do no harm. */
  lemma QueryVisitsExposed(s: seq<Sentry>, order: seq<nat>, via: seq<int>)
    requires Traversal(s, order, via)
    ensures Distinct(order)
    ensures forall j :: j in order <==> Unguarded(s, j)
  {
    EnqueuedOnce(s, order, via);
    ViaIsEarlier(s, order, via);
    forall j ensures j in order <==> Unguarded(s, j) {
      if p :| 0 <= p < |order| && order[p] == j {
        var path := PathOf(s, order, via, p);
      }
      if path :| LeadsTo(s, path, j) {
        var p := PathIsPopped(s, order, via, path, j);
      }
    }
  }

  /** Breadth first: what is popped before `order[q]` has a root path at most as long as any of its own. */
  lemma NearestFirst(s: seq<Sentry>, order: seq<nat>, via: seq<int>, p: nat, q: nat, path: seq<nat>)
      returns (shorter: seq<nat>)
    requires Traversal(s, order, via) && p <= q < |order| && LeadsTo(s, path, order[q])
    ensures LeadsTo(s, shorter, order[p]) && |shorter| <= |path|
  {
    ViaIsEarlier(s, order, via);
    EnqueuedOnce(s, order, via);
    var q' := PathIsPopped(s, order, via, path, order[q]);
    LevelsRise(s, order, via, p, q);
    shorter := PathOf(s, order, via, p);
  }

  // ---------------------------------------------------------------- one traversal

  /** What one traversal enqueues next, no other that agrees so far enqueues later. */
  lemma NextIsNoLater(s: seq<Sentry>, o: seq<nat>, v: seq<int>, o': seq<nat>, v': seq<int>, p: nat)
    requires Traversal(s, o, v) && Traversal(s, o', v')
    requires p < |o'| && p <= |o| && forall q :: 0 <= q < p ==> o[q] == o'[q]
    ensures p < |o| && (v[p] < v'[p] || (v[p] == v'[p] && o[p] <= o'[p]))
  {
    var j := o'[p];
    assert Placed(s, o', v'[p], p);
    assert j in o by {
      if v'[p] >= 0 {
        assert Opens(s, o, v'[p], s[j].parent.value) && KidsListed(s, o, v'[p]);
      }
    }
    var q :| 0 <= q < |o| && o[q] == j;
    EnqueuedOnce(s, o', v');
    assert q >= p;
    assert Placed(s, o, v[q], q);
    SameOpener(s, o, v[q], q, o', v'[p], p);
    if q > p {
      AfterChain(o, v, p, q);
    }
  }

  /** Where two orders agree up to both openers of one sentry, the openers are one. */
  lemma SameOpener(s: seq<Sentry>, o: seq<nat>, via: int, q: nat, o': seq<nat>, via': int, p: nat)
    requires Indices(s, o) && Indices(s, o') && q < |o| && p < |o'| && p <= |o| && o[q] == o'[p]
    requires forall k :: 0 <= k < p ==> o[k] == o'[k]
    requires Placed(s, o, via, q) && Placed(s, o', via', p)
    ensures via == via'
  {
    if via' >= 0 {
      var t := s[o[q]].parent.value;
      assert Opens(s, o, via', t);
      assert via <= via';
      assert Opens(s, o', via, t);
    }
  }

  /** The input fixes the traversal. */
  lemma {:induction false} TraversalsAgree(s: seq<Sentry>, o: seq<nat>, v: seq<int>, o': seq<nat>, v': seq<int>, p: nat)
    requires Traversal(s, o, v) && Traversal(s, o', v') && p <= |o|
    ensures p <= |o'| && forall q :: 0 <= q < p ==> o[q] == o'[q]
  {
    if p > 0 {
      TraversalsAgree(s, o, v, o', v', p - 1);
      NextIsNoLater(s, o', v', o, v, p - 1);
      NextIsNoLater(s, o, v, o', v', p - 1);
    }
  }

  lemma TraversalIsUnique(s: seq<Sentry>, o: seq<nat>, v: seq<int>, o': seq<nat>, v': seq<int>)
    requires Traversal(s, o, v) && Traversal(s, o', v')
    ensures o == o'
  {
    TraversalsAgree(s, o, v, o', v', |o|);
    TraversalsAgree(s, o', v', o, v, |o'|);
  }

  // ---------------------------------------------------------------- what the query reports

  /** Popping `i` calls it exactly if it is the first sentinel of its type. */
  lemma CallsStep(s: seq<Sentry>, popped: seq<nat>, i: nat)
    requires Indices(s, popped) && i < |s|
    ensures Calls(s, popped + [i]) == Calls(s, popped) +
            if s[i].specialized && FirstOf(s, popped, s[i].typeId) >= |popped| then [i] else []
  {
    assert (popped + [i])[..|popped|] == popped;
    FirstOfStep(s, popped, i, s[i].typeId);
  }

  lemma {:induction false} CallsArePopped(s: seq<Sentry>, order: seq<nat>, i: nat)
    requires Indices(s, order) && i in Calls(s, order)
    ensures i in order && s[i].specialized && FirstOf(s, order, s[i].typeId) < |order|
  {
    var init, last := order[..|order| - 1], order[|order| - 1];
    assert order == init + [last];
    CallsStep(s, init, last);
    FirstOfStep(s, init, last, s[i].typeId);
    if i in Calls(s, init) {
      CallsArePopped(s, init, i);
    }
  }

  lemma {:induction false} FirstIsCalled(s: seq<Sentry>, order: seq<nat>, t: TypeId)
    requires Indices(s, order) && FirstOf(s, order, t) < |order|
    ensures order[FirstOf(s, order, t)] in Calls(s, order)
  {
    var init, last := order[..|order| - 1], order[|order| - 1];
    assert order == init + [last];
    CallsStep(s, init, last);
    FirstOfStep(s, init, last, t);
    if FirstOf(s, init, t) < |init| {
      FirstIsCalled(s, init, t);
    }
  }

  lemma {:induction false} CalledOnce(s: seq<Sentry>, order: seq<nat>, k: nat, l: nat)
    requires Indices(s, order) && k < l < |Calls(s, order)|
    ensures s[Calls(s, order)[k]].typeId != s[Calls(s, order)[l]].typeId
  {
    var init, last := order[..|order| - 1], order[|order| - 1];
    assert order == init + [last];
    CallsStep(s, init, last);
    var calls := Calls(s, init);
    if l < |calls| {
      CalledOnce(s, init, k, l);
    } else {
      CallsArePopped(s, init, calls[k]);
    }
  }

  /** A call is made for the first popped sentinel of a type, once per type and for nothing else. */
  lemma {:induction false} CallsAreFirsts(s: seq<Sentry>, order: seq<nat>, t: TypeId)
    requires Indices(s, order)
    ensures forall i :: i in Calls(s, order) ==> i in order && s[i].specialized
    ensures forall k, l :: 0 <= k < l < |Calls(s, order)| ==>
              s[Calls(s, order)[k]].typeId != s[Calls(s, order)[l]].typeId
    ensures FirstOf(s, order, t) < |order| <==> exists i :: i in Calls(s, order) && s[i].typeId == t
    ensures FirstOf(s, order, t) < |order| ==> order[FirstOf(s, order, t)] in Calls(s, order)
  {
    var calls := Calls(s, order);
    forall i | i in calls ensures i in order && s[i].specialized && FirstOf(s, order, s[i].typeId) < |order| {
      CallsArePopped(s, order, i);
    }
    forall k: nat, l: nat | k < l < |calls| ensures s[calls[k]].typeId != s[calls[l]].typeId {
      CalledOnce(s, order, k, l);
    }
    if FirstOf(s, order, t) < |order| {
      FirstIsCalled(s, order, t);
    }
  }

  /** The popped sentinels whose type's one call gave an abort, in the order popped. */
  function Aborting(s: seq<Sentry>, order: seq<nat>, all: seq<nat>): seq<Sentry>
    requires Indices(s, order) && Indices(s, all)
  {
    if order == [] then []
    else (if s[order[0]].specialized && TypeAborts(s, all, s[order[0]].typeId) then [s[order[0]]] else [])
         + Aborting(s, order[1..], all)
  }

  lemma {:induction false} AbortingSnoc(s: seq<Sentry>, order: seq<nat>, i: nat, all: seq<nat>)
    requires Indices(s, order) && Indices(s, all) && i < |s|
    ensures Aborting(s, order + [i], all) ==
            Aborting(s, order, all) + if s[i].specialized && TypeAborts(s, all, s[i].typeId) then [s[i]] else []
    decreases |order|
  {
    if order == [] {
      assert [i][1..] == [];
    } else {
      assert (order + [i])[1..] == order[1..] + [i];
      AbortingSnoc(s, order[1..], i, all);
    }
  }

  lemma {:induction false} FirstOfPrefix(s: seq<Sentry>, order: seq<nat>, all: seq<nat>, t: TypeId)
    requires Indices(s, all) && Indices(s, order) && order <= all && FirstOf(s, order, t) < |order|
    ensures FirstOf(s, all, t) == FirstOf(s, order, t)
  {
    var p, q := FirstOf(s, order, t), FirstOf(s, all, t);
    assert forall k :: 0 <= k < |order| ==> order[k] == all[k];
  }

  lemma {:induction false} AbortedIsFilter(s: seq<Sentry>, order: seq<nat>, all: seq<nat>)
    requires Indices(s, all) && Indices(s, order) && order <= all
    ensures Aborted(s, order) == Aborting(s, order, all)
  {
    if order != [] {
      var n := |order| - 1;
      var i := order[n];
      assert order == order[..n] + [i];
      AbortedIsFilter(s, order[..n], all);
      AbortingSnoc(s, order[..n], i, all);
      if s[i].specialized {
        assert FirstOf(s, order, s[i].typeId) <= n;
        FirstOfPrefix(s, order, all, s[i].typeId);
      }
    }
  }

  /** The sentries of one type come from one `Sentinel` implementation: they give one verdict. */
  ghost predicate OneVerdictPerType(s: seq<Sentry>)
  {
    forall i, j :: 0 <= i < |s| && 0 <= j < |s| && s[i].typeId == s[j].typeId ==> s[i].aborts == s[j].aborts
  }

  lemma {:induction false} AbortingMembers(s: seq<Sentry>, order: seq<nat>, all: seq<nat>, e: Sentry)
    requires Indices(s, all) && Indices(s, order) && (forall i :: i in order ==> i in all)
    requires OneVerdictPerType(s)
    ensures e in Aborting(s, order, all) <==> e.specialized && e.aborts && exists i :: i in order && s[i] == e
    decreases |order|
  {
    if order != [] {
      AbortingMembers(s, order[1..], all, e);
      var i := order[0];
      assert i in order && i in all;
      if s[i].specialized {
        var p :| 0 <= p < |all| && all[p] == i;
        assert FirstOf(s, all, s[i].typeId) <= p;
      }
    }
  }

  /** The error lists, in the order popped, the exposed sentinels whose type aborts; `Ok` means none does. */
  lemma QueryReportsAborts(s: seq<Sentry>, order: seq<nat>, via: seq<int>)
    requires Traversal(s, order, via)
    ensures Aborted(s, order) == Aborting(s, order, order)
    ensures OneVerdictPerType(s) ==> forall e ::
              e in Aborted(s, order) <==>
              e.specialized && e.aborts && exists j: nat :: Unguarded(s, j) && j < |s| && s[j] == e
  {
    AbortedIsFilter(s, order, order);
    QueryVisitsExposed(s, order, via);
    if OneVerdictPerType(s) {
      forall e ensures e in Aborted(s, order) <==>
                       e.specialized && e.aborts && exists j: nat :: Unguarded(s, j) && j < |s| && s[j] == e
      {
        AbortingMembers(s, order, order, e);
        if j :| j in order && s[j] == e {
          assert Unguarded(s, j);
        }
      }
    }
  }

  lemma ReportIsDetermined(s: seq<Sentry>, order: seq<nat>, via: seq<int>, r: Verdict, calls: seq<nat>)
    requires Reported(s, order, via, r, calls)
    ensures forall o, v :: Traversal(s, o, v) ==> Reported(s, o, v, r, calls)
  {
    forall o, v | Traversal(s, o, v) ensures Reported(s, o, v, r, calls) {
      TraversalIsUnique(s, o, v, order, via);
    }
  }

  lemma ReportMeans(s: seq<Sentry>, order: seq<nat>, via: seq<int>, r: Verdict, calls: seq<nat>)
    requires Reported(s, order, via, r, calls)
    ensures forall i :: i in calls ==> i < |s| && s[i].specialized && Unguarded(s, i)
    ensures OneVerdictPerType(s) ==>
              (r.Ok? <==> forall j: nat :: j < |s| && Unguarded(s, j) && s[j].specialized ==> !s[j].aborts)
  {
    QueryVisitsExposed(s, order, via);
    QueryReportsAborts(s, order, via);
    forall i | i in calls ensures i in order && s[i].specialized {
      CallsArePopped(s, order, i);
    }
    var aborted := Aborted(s, order);
    if OneVerdictPerType(s) {
      if aborted != [] {
        assert aborted[0] in aborted;
      }
      forall j: nat | j < |s| && Unguarded(s, j) && s[j].specialized && s[j].aborts ensures s[j] in aborted {
      }
    }
  }
}
