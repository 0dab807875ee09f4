/** ASCII case folding, as the `uncased` string type compares. */
module Uncased {

  function FoldChar(c: char): char
  {
    if 'A' <= c <= 'Z' then (c as int + 32) as char else c
  }

  function Fold(s: string): (r: string)
    ensures |r| == |s|
  {
    seq(|s|, i requires 0 <= i < |s| => FoldChar(s[i]))
  }

  const UPPER := "ABCDEFGHIJKLMNOPQRSTUVWXYZ"
  const LOWER := "abcdefghijklmnopqrstuvwxyz"

  /** One character, or the two cases of one ASCII letter. */
  ghost predicate SameLetter(c: char, d: char)
  {
    c == d || exists i :: 0 <= i < 26 && {c, d} == {UPPER[i], LOWER[i]}
  }

  lemma AlphabetAt(i: nat)
    requires i < 26
    ensures UPPER[i] as int == 65 + i && LOWER[i] as int == 97 + i
  {
  }

  lemma FoldsAlike(c: char, d: char, i: nat)
    requires i < 26 && {c, d} == {UPPER[i], LOWER[i]}
    ensures FoldChar(c) == FoldChar(d)
  {
    AlphabetAt(i);
    assert c in {UPPER[i], LOWER[i]} && d in {UPPER[i], LOWER[i]};
  }

  lemma AlikeIsSame(c: char, d: char)
    requires FoldChar(c) == FoldChar(d)
    ensures SameLetter(c, d)
  {
    if c != d {
      var i := FoldChar(c) as int - 97;
      AlphabetAt(i);
      assert {UPPER[i], LOWER[i]} == {c, d};
    }
  }

  lemma FoldCharMeans(c: char, d: char)
    ensures FoldChar(c) == FoldChar(d) <==> SameLetter(c, d)
  {
    if FoldChar(c) == FoldChar(d) {
      AlikeIsSame(c, d);
    }
    if i :| 0 <= i < 26 && {c, d} == {UPPER[i], LOWER[i]} {
      FoldsAlike(c, d, i);
    }
  }

  /** Strings fold alike exactly if they are alike but for the case of ASCII letters. */
  lemma FoldMeans(s: string, t: string)
    ensures Fold(s) == Fold(t) <==> |s| == |t| && forall i :: 0 <= i < |s| ==> SameLetter(s[i], t[i])
  {
    if |s| == |t| {
      forall i | 0 <= i < |s| ensures Fold(s)[i] == Fold(t)[i] <==> SameLetter(s[i], t[i]) {
        FoldCharMeans(s[i], t[i]);
      }
    } else {
      assert |Fold(s)| != |Fold(t)|;
    }
  }
}
