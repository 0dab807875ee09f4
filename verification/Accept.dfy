/** The client's preferred media type. Weights are exact rationals instead of `f32`. */
module Accept {
  import opened Uncased

  datatype Weight = NoQ | Q(q: real)

  datatype MediaType = MediaType(top: string, sub: string, params: seq<(string, string)>)

  datatype QMediaType = QMediaType(mediaType: MediaType, weight: Weight)

  const ANY := QMediaType(MediaType("*", "*", []), NoQ)

  /** Media types compare without parameters and without letter case. */
  predicate SameType(a: MediaType, b: MediaType)
  {
    Fold(a.top) == Fold(b.top) && Fold(a.sub) == Fold(b.sub)
  }

  function Specificity(m: MediaType): nat
  {
    (if m.top != "*" then 1 else 0) + (if m.sub != "*" then 1 else 0)
  }

  lemma SameTypeSameSpecificity(a: MediaType, b: MediaType)
    ensures SameType(a, b) ==> Specificity(a) == Specificity(b)
  {
    assert Fold("*") == "*";
    forall s | Fold(s) == "*" ensures s == "*" {
      assert Fold(s)[0] == FoldChar(s[0]);
    }
  }

  /** Does the media type cover the type `top/sub`? A wildcard covers anything. */
  predicate Covers(m: MediaType, top: string, sub: string)
  {
    (m.top == "*" || Fold(m.top) == Fold(top)) && (m.sub == "*" || Fold(m.sub) == Fold(sub))
  }

  /** Types compare equal exactly if they cover the same types. */
  lemma SameTypeCoversAlike(a: MediaType, b: MediaType)
    ensures SameType(a, b) <==> forall top, sub :: Covers(a, top, sub) <==> Covers(b, top, sub)
  {
    FoldStar(a.top); FoldStar(a.sub); FoldStar(b.top); FoldStar(b.sub);
    if forall top, sub :: Covers(a, top, sub) <==> Covers(b, top, sub) {
      SameCover(a, b);
      SameCover(b, a);
    }
  }

  lemma FoldStar(s: string)
    ensures Fold(s) == Fold("*") <==> s == "*"
  {
    assert Fold("*") == "*";
    if Fold(s) == "*" {
      assert Fold(s)[0] == FoldChar(s[0]);
    }
  }

  /** A string that folds otherwise. */
  lemma Unlike(s: string)
    ensures Fold(s + "a") != Fold(s)
  {
    assert |Fold(s + "a")| != |Fold(s)|;
  }

  /** If all that `a` covers is covered by `b`, then `b` has a wildcard wherever it differs from `a`. */
  lemma SameCover(a: MediaType, b: MediaType)
    requires forall top, sub :: Covers(a, top, sub) ==> Covers(b, top, sub)
    ensures b.top == "*" || (a.top != "*" && Fold(a.top) == Fold(b.top))
    ensures b.sub == "*" || (a.sub != "*" && Fold(a.sub) == Fold(b.sub))
  {
    var top := if a.top == "*" then b.top + "a" else a.top;
    var sub := if a.sub == "*" then b.sub + "a" else a.sub;
    Unlike(b.top);
    Unlike(b.sub);
    assert Covers(a, top, sub);
  }

  /** `a` covers some of what `b` covers and nothing else. */
  ghost predicate StrictlyRefines(a: MediaType, b: MediaType)
  {
    && (forall top, sub :: Covers(a, top, sub) ==> Covers(b, top, sub))
    && exists top, sub :: Covers(b, top, sub) && !Covers(a, top, sub)
  }

  /** What covers strictly less is more specific. */
  lemma RefinementIsSpecific(a: MediaType, b: MediaType)
    requires StrictlyRefines(a, b)
    ensures Specificity(a) > Specificity(b)
  {
    SameCover(a, b);
    var top, sub :| Covers(b, top, sub) && !Covers(a, top, sub);
  }

  function WeightOr(m: QMediaType, default: real): real
  {
    if m.weight.Q? then m.weight.q else default
  }

  /** The pairwise rule: does `m` displace `p`? */
  predicate Beats(m: QMediaType, p: QMediaType)
  {
    || (m.weight.NoQ? && p.weight.Q?)
    || WeightOr(m, 0.0) > WeightOr(p, 1.0)
    || Specificity(m.mediaType) > Specificity(p.mediaType)
    || (SameType(m.mediaType, p.mediaType) && m.weight == p.weight
        && |m.mediaType.params| > |p.mediaType.params|)
  }

  /** Rank of a weight when no entry exceeds 1: no `q` at all comes first. */
  function Rank(m: QMediaType): real { if m.weight.NoQ? then 2.0 else m.weight.q }

  function Params(m: QMediaType): nat { |m.mediaType.params| }

  /** Among the first `n` entries, `i` is the first of the best weight. */
  ghost predicate FirstBest(all: seq<QMediaType>, n: nat, i: nat)
    requires n <= |all|
  {
    && i < n
    && (forall j :: 0 <= j < n ==> Rank(all[j]) <= Rank(all[i]))
    && (forall j :: 0 <= j < i ==> Rank(all[j]) < Rank(all[i]))
  }

  /** Entries `i` and `j` agree in weight and type. */
  predicate Kin(all: seq<QMediaType>, i: nat, j: nat)
    requires i < |all| && j < |all|
  {
    all[j].weight == all[i].weight && SameType(all[j].mediaType, all[i].mediaType)
  }

  /** Among the first `n` entries, `r` is the first of `i`'s kin to carry the most parameters. */
  ghost predicate FirstRichest(all: seq<QMediaType>, n: nat, i: nat, r: nat)
    requires i < n <= |all|
  {
    && r < n && Kin(all, i, r)
    && (forall j :: 0 <= j < n && Kin(all, i, j) ==> Params(all[j]) <= Params(all[r]))
    && (forall j :: 0 <= j < r && Kin(all, i, j) ==> Params(all[j]) < Params(all[r]))
  }

  /** Weights are in [0, 1], as the header's parser demands. */
  ghost predicate Unit(all: seq<QMediaType>)
  {
    forall j :: 0 <= j < |all| && all[j].weight.Q? ==> 0.0 <= all[j].weight.q <= 1.0
  }

  ghost predicate EqualSpecificity(all: seq<QMediaType>)
  {
    forall j :: 0 <= j < |all| ==> Specificity(all[j].mediaType) == Specificity(all[0].mediaType)
  }

  /** The entry that the pairwise rule, folded over the first `n`, ends on. */
  ghost function Champion(all: seq<QMediaType>, n: nat): (r: nat)
    requires 0 < n <= |all|
    ensures r < n
  {
    if n == 1 then 0
    else
      var p := Champion(all, n - 1);
      if Beats(all[n - 1], all[p]) then n - 1 else p
  }

  /** `preferred`, branch by branch: it folds the pairwise rule, and nothing after the result beats it. */
  method Preferred(all: seq<QMediaType>) returns (preferred: QMediaType)
    ensures all == [] ==> preferred == ANY && preferred.weight.NoQ? && preferred.mediaType.params == []
    ensures all == [] ==> forall top, sub :: Covers(preferred.mediaType, top, sub)
    ensures all != [] ==> var at := Champion(all, |all|);
                          preferred == all[at] && forall j :: at < j < |all| ==> !Beats(all[j], preferred)
  {
    if all == [] {
      return ANY;
    }
    ghost var at := 0;
    preferred := all[0];
    for i := 1 to |all|
      invariant at < i && at == Champion(all, i) && preferred == all[at]
      invariant forall j :: at < j < i ==> !Beats(all[j], preferred)
    {
      var m := all[i];
      if m.weight.NoQ? && preferred.weight.Q? {
        preferred, at := m, i;
      } else if WeightOr(m, 0.0) > WeightOr(preferred, 1.0) {
        preferred, at := m, i;
      } else if Specificity(m.mediaType) > Specificity(preferred.mediaType) {
        preferred, at := m, i;
      } else if SameType(m.mediaType, preferred.mediaType) && m.weight == preferred.weight {
        if |m.mediaType.params| > |preferred.mediaType.params| {
          preferred, at := m, i;
        }
      }
    }
  }

  /** Whatever the weights, no later entry covers strictly less than the result does. */
  lemma NeverRefinedLater(all: seq<QMediaType>, j: nat)
    requires all != [] && Champion(all, |all|) < j < |all|
    ensures !StrictlyRefines(all[j].mediaType, all[Champion(all, |all|)].mediaType)
  {
    LaterDoNotBeat(all, |all|, j);
    var r := Champion(all, |all|);
    if StrictlyRefines(all[j].mediaType, all[r].mediaType) {
      RefinementIsSpecific(all[j].mediaType, all[r].mediaType);
    }
  }

  lemma {:induction false} LaterDoNotBeat(all: seq<QMediaType>, n: nat, j: nat)
    requires 0 < n <= |all| && Champion(all, n) < j < n
    ensures !Beats(all[j], all[Champion(all, n)])
  {
    if j < n - 1 {
      LaterDoNotBeat(all, n - 1, j);
    }
  }

  /** Of two entries of one weight, the result is the one that covers strictly less, in either order. */
  lemma NarrowerIsPreferred(a: QMediaType, b: QMediaType)
    requires Unit([a, b]) && a.weight == b.weight && StrictlyRefines(b.mediaType, a.mediaType)
    ensures [a, b][Champion([a, b], 2)] == b && [b, a][Champion([b, a], 2)] == b
  {
    RefinementIsSpecific(b.mediaType, a.mediaType);
    SameTypeSameSpecificity(a.mediaType, b.mediaType);
    assert Champion([a, b], 1) == 0 && Champion([b, a], 1) == 0;
    assert [a, b][0] == a && [a, b][1] == b;
  }

  /** So `t/s` is preferred to `t` with any subtype, and that to anything at all. */
  lemma NarrowerTypes(t: string, s: string, ps: seq<(string, string)>, qs: seq<(string, string)>)
    requires t != "*" && s != "*"
    ensures StrictlyRefines(MediaType(t, s, ps), MediaType(t, "*", qs))
    ensures StrictlyRefines(MediaType(t, "*", ps), MediaType("*", "*", qs))
    ensures StrictlyRefines(MediaType(t, s, ps), MediaType("*", "*", qs))
  {
    Unlike(t);
    Unlike(s);
    assert Covers(MediaType(t, "*", qs), t, s + "a") && !Covers(MediaType(t, s, ps), t, s + "a");
    assert Covers(MediaType("*", "*", qs), t + "a", s) && !Covers(MediaType(t, "*", ps), t + "a", s);
    assert !Covers(MediaType(t, s, ps), t + "a", s);
  }

  /** Entry `i` has both the greatest rank and the greatest specificity. */
  ghost predicate Top(all: seq<QMediaType>, i: nat)
  {
    i < |all| && forall j :: 0 <= j < |all| ==>
                   Rank(all[j]) <= Rank(all[i]) && Specificity(all[j].mediaType) <= Specificity(all[i].mediaType)
  }

  ghost predicate FirstTop(all: seq<QMediaType>, i: nat)
  {
    Top(all, i) && forall j :: 0 <= j < i ==> !Top(all, j)
  }

  /** With weights in [0, 1], an entry beats a top one by carrying more parameters, other things being equal. */
  lemma BeatsTop(all: seq<QMediaType>, i: nat, j: nat)
    requires Unit(all) && Top(all, i) && j < |all|
    ensures Beats(all[j], all[i]) <==> Kin(all, i, j) && Params(all[j]) > Params(all[i])
  {
    assert Rank(all[j]) <= Rank(all[i]);
  }

  lemma TopBeats(all: seq<QMediaType>, i: nat, j: nat)
    requires Unit(all) && Top(all, i) && j < |all| && !Top(all, j)
    ensures Beats(all[i], all[j])
  {
    assert Rank(all[j]) <= Rank(all[i]) && Specificity(all[j].mediaType) <= Specificity(all[i].mediaType);
  }

  /** The first top entry displaces whatever came before it, none of which is its kin. */
  lemma TopComesFirst(all: seq<QMediaType>, i: nat)
    requires Unit(all) && FirstTop(all, i)
    ensures Champion(all, i + 1) == i && forall j :: 0 <= j < i ==> !Kin(all, i, j)
  {
    if i > 0 {
      TopBeats(all, i, Champion(all, i));
    }
    forall j | 0 <= j < i ensures !Kin(all, i, j) {
      SameTypeSameSpecificity(all[j].mediaType, all[i].mediaType);
      assert !Top(all, j);
    }
  }

  lemma TopIsRichest(all: seq<QMediaType>, i: nat)
    requires Unit(all) && FirstTop(all, i)
    ensures FirstRichest(all, i + 1, i, Champion(all, i + 1))
  {
    TopComesFirst(all, i);
    assert Kin(all, i, i);
  }

  lemma StaysRichest(all: seq<QMediaType>, i: nat, n: nat, p: nat)
    requires Unit(all) && Top(all, i) && i < n < |all| && FirstRichest(all, n, i, p)
    ensures FirstRichest(all, n + 1, i, if Beats(all[n], all[p]) then n else p)
  {
    SameTypeSameSpecificity(all[p].mediaType, all[i].mediaType);
    assert Top(all, p);
    BeatsTop(all, p, n);
    assert Kin(all, p, n) <==> Kin(all, i, n);
  }

  /** From a top entry on, the fold stays with its kin. */
  lemma {:induction false} TopIsPreferredFrom(all: seq<QMediaType>, i: nat, n: nat)
    requires Unit(all) && FirstTop(all, i) && i < n <= |all|
    ensures FirstRichest(all, n, i, Champion(all, n))
  {
    if n == i + 1 {
      TopIsRichest(all, i);
    } else {
      TopIsPreferredFrom(all, i, n - 1);
      StaysRichest(all, i, n - 1, Champion(all, n - 1));
    }
  }

  /** If some entry has both the greatest rank and the greatest specificity, the result has the first such
      entry's weight and type, and is the first of these to carry the most parameters. */
  lemma TopIsPreferred(all: seq<QMediaType>, i: nat)
    requires Unit(all) && FirstTop(all, i)
    ensures FirstRichest(all, |all|, i, Champion(all, |all|))
  {
    TopIsPreferredFrom(all, i, |all|);
  }

  /** The result is beaten by no entry, before or after it, exactly if there is such an entry. */
  lemma MaximumIffTop(all: seq<QMediaType>)
    requires all != [] && Unit(all)
    ensures (forall j :: 0 <= j < |all| ==> !Beats(all[j], all[Champion(all, |all|)])) <==> exists i :: Top(all, i)
  {
    var r := Champion(all, |all|);
    if i :| Top(all, i) {
      var first := LeastTop(all, i);
      TopIsPreferred(all, first);
      SameTypeSameSpecificity(all[r].mediaType, all[first].mediaType);
      assert Kin(all, first, r) && Top(all, r);
      forall j | 0 <= j < |all| ensures !Beats(all[j], all[r]) {
        BeatsTop(all, r, j);
        if Kin(all, r, j) {
          KinChain(all, first, r, j);
        }
      }
    } else if forall j :: 0 <= j < |all| ==> !Beats(all[j], all[r]) {
      assert !Top(all, r);
      var j :| 0 <= j < |all| && !(Rank(all[j]) <= Rank(all[r]) &&
                                   Specificity(all[j].mediaType) <= Specificity(all[r].mediaType));
      assert !Beats(all[j], all[r]);
    }
  }

  lemma KinChain(all: seq<QMediaType>, i: nat, r: nat, j: nat)
    requires i < |all| && r < |all| && j < |all| && Kin(all, i, r) && Kin(all, r, j)
    ensures Kin(all, i, j)
  {
  }

  lemma {:induction false} LeastTop(all: seq<QMediaType>, i: nat) returns (first: nat)
    requires Top(all, i)
    ensures FirstTop(all, first)
  {
    if j :| 0 <= j < i && Top(all, j) {
      first := LeastTop(all, j);
    } else {
      first := i;
    }
  }

  ghost function BestIndex(all: seq<QMediaType>, n: nat): (i: nat)
    requires 0 < n <= |all|
    ensures FirstBest(all, n, i)
  {
    if n == 1 then 0
    else
      var i := BestIndex(all, n - 1);
      if Rank(all[n - 1]) > Rank(all[i]) then n - 1 else i
  }

  /** On lists of one specificity the first entry of the best weight is the first top one: the result has
      the best weight, then the type of the first entry of that weight, then the most parameters. */
  lemma PreferredIsBest(all: seq<QMediaType>) returns (i: nat)
    requires all != [] && Unit(all) && EqualSpecificity(all)
    ensures FirstBest(all, |all|, i) && FirstRichest(all, |all|, i, Champion(all, |all|))
  {
    i := BestIndex(all, |all|);
    forall j | 0 <= j < i ensures !Top(all, j) {
      assert Rank(all[j]) < Rank(all[i]);
    }
    assert Top(all, i);
    TopIsPreferred(all, i);
  }

  /** Those tests single out one entry, whatever the specificities. */
  lemma BestIsUnique(all: seq<QMediaType>, i: nat, r: nat)
    requires Unit(all) && FirstTop(all, i) && FirstRichest(all, |all|, i, r)
    ensures r == Champion(all, |all|)
  {
    TopIsPreferred(all, i);
  }

  /** Of two entries of unequal specificity, which one is preferred depends on their order in the header
      exactly when the less specific one has the better weight: neither is then top. */
  lemma OrderDecides(a: QMediaType, b: QMediaType)
    requires Unit([a, b]) && Specificity(a.mediaType) < Specificity(b.mediaType)
    ensures [a, b][Champion([a, b], 2)] == b
    ensures [b, a][Champion([b, a], 2)] == a <==> Rank(a) > Rank(b)
    ensures (exists i :: Top([b, a], i)) <==> Rank(a) <= Rank(b)
  {
    assert Champion([a, b], 1) == 0 && Champion([b, a], 1) == 0;
    assert [a, b][0] == a && [a, b][1] == b;
    SameTypeSameSpecificity(a.mediaType, b.mediaType);
    var l := [b, a];
    assert l[0] == b && l[1] == a;
    if Rank(a) <= Rank(b) {
      assert Top(l, 0);
    }
  }
}
