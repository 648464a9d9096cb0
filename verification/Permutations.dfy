/** One step of an induction over two orderings of the same elements. */
module Permutations {
  function Without<T>(s: seq<T>, i: nat): seq<T>
    requires i < |s|
  {
    s[..i] + s[i + 1..]
  }

  /** The last element of one ordering sits somewhere in the other; taking it out of
      both leaves two orderings of the same elements. */
  lemma MatchLast<T>(s: seq<T>, t: seq<T>) returns (i: nat)
    requires multiset(s) == multiset(t) && s != []
    ensures i < |t| && t[i] == s[|s| - 1]
    ensures multiset(s[..|s| - 1]) == multiset(Without(t, i)) && |s| == |t|
  {
    hide Without;
    var n := |s| - 1;
    assert s[n] in multiset(s);
    assert s[n] in t;
    i :| 0 <= i < |t| && t[i] == s[n];
    WithoutBag(t, i);
    WithoutBag(s, n);
    WithoutLast(s);
    assert |s| == |multiset(s)| == |multiset(t)| == |t|;
  }

  lemma WithoutBag<T>(s: seq<T>, i: nat)
    requires i < |s|
    ensures multiset(Without(s, i)) == multiset(s) - multiset{s[i]}
  {
    assert s == s[..i] + ([s[i]] + s[i + 1..]);
    assert multiset(s) == multiset(s[..i]) + (multiset{s[i]} + multiset(s[i + 1..]));
  }

  lemma WithoutLast<T>(s: seq<T>)
    requires s != []
    ensures Without(s, |s| - 1) == s[..|s| - 1]
  {
  }

  lemma EmptyMatch<T>(t: seq<T>)
    requires multiset(t) == multiset([])
    ensures t == []
  {
    assert |t| == |multiset(t)| == 0;
  }
}
