/** Zero free action: the signed action vector, pairwise balance, and the keystone
    that balance forces Pauli closure whatever the order of the twists. */
module Histories {
  import opened Options
  import opened Twists
  import opened Pauli

  /** (#^ - #v, #> - #<, #/ - #\, #+ - #-). */
  datatype Action = Action(v: int, h: int, d: int, l: int)

  const NO_ACTION := Action(0, 0, 0, 0)

  function SignedAction(h: History): Action {
    Action(Count(h, Up) - Count(h, Down), Count(h, Right) - Count(h, Left),
           Count(h, Slash) - Count(h, BSlash), Count(h, Plus) - Count(h, Minus))
  }

  function AddAction(a: Action, b: Action): Action {
    Action(a.v + b.v, a.h + b.h, a.d + b.d, a.l + b.l)
  }

  lemma ActionConcat(g: History, h: History)
    ensures SignedAction(g + h) == AddAction(SignedAction(g), SignedAction(h))
  {
    assert multiset(g + h) == multiset(g) + multiset(h);
  }

  predicate IsPairwiseBalanced(h: History) { SignedAction(h) == NO_ACTION }

  predicate AchievesZfaPairwise(h: History) { IsPairwiseBalanced(h) && IsPauliClosed(h) }

  predicate Odd(n: int) { n % 2 == 1 }

  /** Parities kept twist by twist are the parities of the axis counts. */
  lemma {:induction false} ParitiesAreCounts(h: History)
    ensures ParitiesOf(h) == Parities(Odd(Count(h, Right) + Count(h, Left)),
                                      Odd(Count(h, Up) + Count(h, Down)),
                                      Odd(Count(h, Slash) + Count(h, BSlash)))
  {
    hide Count, Odd;
    if h == [] {
      assert Count(h, Up) == Count(h, Down) == Count(h, Right) == Count(h, Left) == Count(h, Slash) ==
             Count(h, BSlash) == 0 by { NothingCounted(); }
      OddNext(0);
    } else {
      var g := h[..|h| - 1];
      ParitiesAreCounts(g);
      OddNext(Count(g, Right) + Count(g, Left));
      OddNext(Count(g, Up) + Count(g, Down));
      OddNext(Count(g, Slash) + Count(g, BSlash));
      CountSnoc(h, Right);
      CountSnoc(h, Left);
      CountSnoc(h, Up);
      CountSnoc(h, Down);
      CountSnoc(h, Slash);
      CountSnoc(h, BSlash);
    }
  }

  lemma OddNext(n: int)
    ensures Odd(n + 1) <==> !Odd(n)
    ensures !Odd(0)
  {
  }

  lemma NothingCounted()
    ensures forall t :: Count([], t) == 0
  {
  }

  lemma EvenDouble(a: nat, b: nat)
    requires a - b == 0
    ensures !Odd(a + b)
  {
  }

  lemma BalancedParities(h: History)
    requires IsPairwiseBalanced(h)
    ensures ParitiesOf(h) == Parities(false, false, false)
  {
    ParitiesAreCounts(h);
    EvenDouble(Count(h, Up), Count(h, Down));
    EvenDouble(Count(h, Right), Count(h, Left));
    EvenDouble(Count(h, Slash), Count(h, BSlash));
  }

  /** The keystone: a vanishing action vector forces the fold to +I or -I. */
  lemma BalancedFoldsToSign(h: History)
    requires IsPairwiseBalanced(h)
    ensures PauliFold(h) == IDENTITY || PauliFold(h) == TwistMatrix(Minus)
    ensures AchievesZfaPairwise(h) && PauliScalarOf(h) in {Some(PosOne), Some(NegOne)}
  {
    hide PauliFold, ParitiesOf, FoldPositive, SignedAction;
    BalancedParities(h);
    FoldNormalForm(h);
    ScalarIffSharedParity(h);
  }

  /** Every reordering of a balanced history still closes. */
  lemma BalancedClosesInEveryOrder(g: History, h: History)
    requires IsPairwiseBalanced(g) && multiset(g) == multiset(h)
    ensures AchievesZfaPairwise(h) && PauliScalarOf(h) in {Some(PosOne), Some(NegOne)}
  {
    assert SignedAction(g) == SignedAction(h);
    BalancedFoldsToSign(h);
  }

  /** The exact scalar law in terms of counts: closed iff the X, Y and Z counts
      share a parity, with an imaginary scalar iff all three are odd. */
  lemma ScalarIffCountsShareParity(h: History)
    ensures var x, y := Count(h, Right) + Count(h, Left), Count(h, Up) + Count(h, Down);
            var z := Count(h, Slash) + Count(h, BSlash);
            && (IsPauliClosed(h) <==> x % 2 == y % 2 == z % 2)
            && (PauliScalarOf(h) in {Some(PosI), Some(NegI)} <==> x % 2 == y % 2 == z % 2 == 1)
  {
    ParitiesAreCounts(h);
    ScalarIffSharedParity(h);
  }

  function CountPositive(h: History): nat {
    Count(h, Up) + Count(h, Right) + Count(h, Slash) + Count(h, Plus)
  }

  /** The crate's weaker, aggregate balance. */
  predicate IsCountBalanced(h: History) { 2 * CountPositive(h) == |h| }

  /** Aggregate balance does not force closure: `^<` is the shortest witness. */
  lemma AggregateBalanceDoesNotClose() returns (h: History)
    ensures h == [Up, Left] && IsCountBalanced(h) && !IsPairwiseBalanced(h) && !IsPauliClosed(h)
  {
    hide PauliFold, IsPauliClosed, ScalarOfMatrix;
    h := [Up, Left];
    assert Count(h, Up) == 1 && Count(h, Left) == 1 && Count(h, Right) == 0 && Count(h, Slash) == 0 &&
           Count(h, Plus) == 0;
    assert Count(h, Down) == 0 && Count(h, BSlash) == 0;
    ScalarIffCountsShareParity(h);
  }
}
