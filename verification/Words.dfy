/** Words over the twists in TWIST_ORDER: their rank, and the step of the odometer
    that walks them in place. */
module Words {
  import opened Twists

  function Pow8(n: nat): (p: nat)
    ensures p >= 1
  {
    if n == 0 then 1 else 8 * Pow8(n - 1)
  }

  /** Rank of a word among the words of its length. */
  function Rank(w: History): nat {
    if w == [] then 0 else 8 * Rank(w[..|w| - 1]) + Digit(w[|w| - 1])
  }

  function WordAt(depth: nat, n: nat): (w: History)
    ensures |w| == depth
  {
    if depth == 0 then [] else WordAt(depth - 1, n / 8) + [OfDigit(n % 8)]
  }

  lemma DigitOfDigit(d: nat)
    requires d < 8
    ensures Digit(OfDigit(d)) == d
  {
  }

  lemma {:induction false} RankBound(w: History)
    ensures Rank(w) < Pow8(|w|)
  {
    if w != [] {
      RankBound(w[..|w| - 1]);
    }
  }

  lemma {:induction false} WordAtRank(w: History)
    ensures WordAt(|w|, Rank(w)) == w
  {
    if w != [] {
      var g, n := w[..|w| - 1], Rank(w);
      WordAtRank(g);
      assert n / 8 == Rank(g) && n % 8 == Digit(w[|w| - 1]);
      assert w == g + [w[|w| - 1]];
    }
  }

  lemma {:induction false} RankWordAt(depth: nat, n: nat)
    requires n < Pow8(depth)
    ensures Rank(WordAt(depth, n)) == n
  {
    if depth != 0 {
      var w := WordAt(depth, n);
      RankWordAt(depth - 1, n / 8);
      assert w[..depth - 1] == WordAt(depth - 1, n / 8);
      DigitOfDigit(n % 8);
    }
  }

  /** Lexicographic order by TWIST_ORDER digits on words of one length. */
  predicate LexLess(u: History, w: History)
    requires |u| == |w|
  {
    u != [] && (Digit(u[0]) < Digit(w[0]) || (u[0] == w[0] && LexLess(u[1..], w[1..])))
  }

  lemma {:induction false} RankCons(w: History)
    requires w != []
    ensures Rank(w) == Digit(w[0]) * Pow8(|w| - 1) + Rank(w[1..])
  {
    if |w| == 1 {
      assert w[..0] == [] && w[1..] == [];
    } else {
      var g := w[..|w| - 1];
      RankCons(g);
      assert g[1..] == w[1..][..|w| - 2];
      assert w[1..][|w| - 2] == w[|w| - 1];
      calc {
        Rank(w);
        8 * (Digit(w[0]) * Pow8(|w| - 2) + Rank(g[1..])) + Digit(w[|w| - 1]);
        Digit(w[0]) * (8 * Pow8(|w| - 2)) + (8 * Rank(g[1..]) + Digit(w[|w| - 1]));
        Digit(w[0]) * Pow8(|w| - 1) + Rank(w[1..]);
      }
    }
  }

  lemma ProductStep(a: nat, b: nat, p: nat)
    requires a < b
    ensures a * p + p <= b * p
  {
    assert (a + 1) * p <= b * p;
  }

  /** Rank order is lexicographic order. */
  lemma {:induction false} RankIsLexicographic(u: History, w: History)
    requires |u| == |w|
    ensures Rank(u) < Rank(w) <==> LexLess(u, w)
  {
    if u != [] {
      var p := Pow8(|u| - 1);
      RankCons(u);
      RankCons(w);
      RankBound(u[1..]);
      RankBound(w[1..]);
      if Digit(u[0]) < Digit(w[0]) {
        ProductStep(Digit(u[0]), Digit(w[0]), p);
      } else if Digit(w[0]) < Digit(u[0]) {
        ProductStep(Digit(w[0]), Digit(u[0]), p);
      } else {
        assert OfDigit(Digit(u[0])) == OfDigit(Digit(w[0]));
        RankIsLexicographic(u[1..], w[1..]);
      }
    }
  }

  function Repeat(t: Twist, n: nat): (w: History)
    ensures |w| == n && forall i :: 0 <= i < n ==> w[i] == t
  {
    if n == 0 then [] else Repeat(t, n - 1) + [t]
  }

  /** Carrying: `g d 7..7` is followed by `g (d+1) 0..0`. */
  lemma {:induction false} RankCarry(g: History, d: nat, n: nat)
    requires d < 7
    ensures Rank(g + [OfDigit(d + 1)] + Repeat(Up, n)) == Rank(g + [OfDigit(d)] + Repeat(Minus, n)) + 1
  {
    var u, w := g + [OfDigit(d)] + Repeat(Minus, n), g + [OfDigit(d + 1)] + Repeat(Up, n);
    if n == 0 {
      assert u[..|u| - 1] == g && w[..|w| - 1] == g;
      DigitOfDigit(d);
      DigitOfDigit(d + 1);
    } else {
      assert u[..|u| - 1] == g + [OfDigit(d)] + Repeat(Minus, n - 1);
      assert w[..|w| - 1] == g + [OfDigit(d + 1)] + Repeat(Up, n - 1);
      RankCarry(g, d, n - 1);
    }
  }

  lemma {:induction false} RankOfExtremes(n: nat)
    ensures Rank(Repeat(Up, n)) == 0
    ensures Rank(Repeat(Minus, n)) + 1 == Pow8(n)
  {
    if n != 0 {
      RankOfExtremes(n - 1);
      assert Repeat(Up, n)[..n - 1] == Repeat(Up, n - 1);
      assert Repeat(Minus, n)[..n - 1] == Repeat(Minus, n - 1);
    }
  }

  function Counts(w: History): (c: seq<int>)
    ensures |c| == 8 && forall d :: 0 <= d < 8 ==> c[d] == Count(w, OfDigit(d))
  {
    seq(8, d requires 0 <= d < 8 => Count(w, OfDigit(d)))
  }

  function Digits(w: History): (c: seq<nat>)
    ensures |c| == |w| && forall i :: 0 <= i < |w| ==> c[i] == Digit(w[i])
  {
    seq(|w|, i requires 0 <= i < |w| => Digit(w[i]))
  }

  /** Moving one digit of a word changes two counts: one down, one up. */
  lemma CountsUpdate(w: History, p: nat, d: nat)
    requires p < |w| && d < 8
    ensures var lowered := Counts(w)[Digit(w[p]) := Counts(w)[Digit(w[p])] - 1];
            Counts(w[p := OfDigit(d)]) == lowered[d := lowered[d] + 1]
  {
    forall e | 0 <= e < 8
      ensures Count(w[p := OfDigit(d)], OfDigit(e)) ==
              Count(w, OfDigit(e)) - (if e == Digit(w[p]) then 1 else 0) + (if e == d then 1 else 0)
    {
      DigitOfDigit(e);
      DigitOfDigit(d);
    }
  }

  /** The odometer's digits, digit counts and twist bytes describe one word. */
  ghost predicate InSync(idx: array<nat>, cnt: array<int>, bytes: array<Twist>)
    reads idx, cnt, bytes
  {
    idx[..] == Digits(bytes[..]) && cnt[..] == Counts(bytes[..])
  }

  method SetDigit(idx: array<nat>, cnt: array<int>, bytes: array<Twist>, p: nat, d: nat)
    requires InSync(idx, cnt, bytes) && p < idx.Length && d < 8
    requires idx as object != cnt as object && idx as object != bytes as object && cnt as object != bytes as object
    modifies idx, cnt, bytes
    ensures InSync(idx, cnt, bytes)
    ensures bytes[..] == old(bytes[..])[p := OfDigit(d)]
  {
    ghost var w := bytes[..];
    CountsUpdate(w, p, d);
    DigitOfDigit(d);
    assert idx[p] == idx[..][p] == Digit(w[p]) && |cnt[..]| == 8;
    cnt[idx[p]] := cnt[idx[p]] - 1;
    idx[p] := d;
    cnt[d] := cnt[d] + 1;
    bytes[p] := OfDigit(d);
    assert bytes[..] == w[p := OfDigit(d)];
    assert idx[..] == Digits(w)[p := d];
  }

  /** One step of the odometer: the rightmost digit that is not at its last value is
      raised and every digit behind it returns to zero; the counts and bytes follow.
      Past the last word, it reports so. */
  method Advance(idx: array<nat>, cnt: array<int>, bytes: array<Twist>) returns (more: bool)
    requires InSync(idx, cnt, bytes)
    requires idx as object != cnt as object && idx as object != bytes as object && cnt as object != bytes as object
    modifies idx, cnt, bytes
    ensures InSync(idx, cnt, bytes)
    ensures more ==> Rank(bytes[..]) == old(Rank(bytes[..])) + 1
    ensures !more ==> old(Rank(bytes[..])) + 1 == Pow8(bytes.Length)
  {
    hide Rank, Pow8, Repeat, Carried, Digits, Counts;
    ghost var was := bytes[..];
    var p := idx.Length - 1;
    assert idx.Length == |idx[..]| == |was|;
    NothingCarried(was);
    while p >= 0
      invariant -1 <= p < |was| == idx.Length
      invariant InSync(idx, cnt, bytes)
      invariant Carried(was, bytes[..], p)
    {
      var d := idx[p];
      CarriedDigit(was, bytes[..], p);
      assert d == idx[..][p] == Digit(bytes[..][p]);
      if d == 7 {
        ExtendRun(was, bytes[..], p);
        SetDigit(idx, cnt, bytes, p, 0);
      } else {
        StopCarry(was, bytes[..], p);
        SetDigit(idx, cnt, bytes, p, d + 1);
        return true;
      }
      p := p - 1;
    }
    WrapAround(was, bytes[..]);
    return false;
  }

  /** The carry has run over the digits behind `p`: they were sevens and are zeros. */
  ghost predicate Carried(was: History, now: History, p: int)
    requires -1 <= p < |was|
  {
    && now == was[..p + 1] + Repeat(Up, |was| - p - 1)
    && was == was[..p + 1] + Repeat(Minus, |was| - p - 1)
  }

  lemma NothingCarried(was: History)
    ensures Carried(was, was, |was| - 1)
  {
    assert was == was + [];
  }

  lemma CarriedDigit(was: History, now: History, p: nat)
    requires p < |was| && Carried(was, now, p)
    ensures |now| == |was| && now[p] == was[p] == OfDigit(Digit(was[p]))
  {
  }

  lemma ExtendRun(was: History, now: History, p: nat)
    requires p < |was| && Carried(was, now, p) && was[p] == Minus
    ensures Carried(was, now[p := Up], p - 1)
  {
  }

  lemma WrapAround(was: History, now: History)
    requires Carried(was, now, -1)
    ensures Rank(was) + 1 == Pow8(|was|)
  {
    RankOfExtremes(|was|);
    assert was == Repeat(Minus, |was|);
  }

  lemma StopCarry(was: History, now: History, p: nat)
    requires p < |was| && Carried(was, now, p) && was[p] != Minus
    ensures Rank(now[p := OfDigit(Digit(was[p]) + 1)]) == Rank(was) + 1
  {
    var n, d := |was| - p - 1, Digit(was[p]);
    RankCarry(was[..p], d, n);
    assert was == was[..p] + [OfDigit(d)] + Repeat(Minus, n);
    assert now[p := OfDigit(d + 1)] == was[..p] + [OfDigit(d + 1)] + Repeat(Up, n);
  }
}
