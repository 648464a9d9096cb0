/** Exactly when the answer of the solver is also the first in TWIST_ORDER. */
module Winners {
  import opened Permutations
  import opened Twists
  import opened Pauli
  import opened Histories
  import opened Words
  import opened Closures
  import opened Enumerator
  import opened Solver
  import opened Solving
  import opened LeastAction
  import opened TieBreaks

  /** One turn twice and another once are wanted. */
  predicate TwoAndOne(need: Action, t: Twist, u: Twist) {
    Anticommute(t, u) && need == SignedAction([t, u, t])
  }

  /** Then the word with the single turn in the middle is the only one of its phase; it is
      the best phase. */
  predicate MiddleTurn(seed: History) {
    exists t, u :: TwoAndOne(Need(seed), t, u) && PhaseOf(seed + [t, u, t]) == PosOne
  }

  /** `c` is first by character code among the completions of its phase, and no phase is better. */
  ghost predicate CodeFirst(seed: History, c: History) {
    && Completes(seed, c)
    && (forall w :: Completes(seed, w) && PhaseOf(seed + w) == PhaseOf(seed + c) && w != c ==> CodeLess(c, w))
    && (forall w :: Completes(seed, w) ==> PhaseRank(PhaseOf(seed + c)) <= PhaseRank(PhaseOf(seed + w)))
  }

  ghost predicate LexFirst(seed: History, c: History) {
    forall w :: Completes(seed, w) && PhaseOf(seed + w) == PhaseOf(seed + c) && w != c ==> |w| == |c| && LexLess(c, w)
  }

  // What the phases of completions are

  lemma PhaseIsSign(seed: History, w: History)
    requires Completes(seed, w)
    ensures PhaseOf(seed + w) == if FoldPositive(seed + w) then PosOne else NegOne
  {
    hide SignedAction, Need, Free, FoldPositive, PhaseOf;
    BalanceIsNeed(seed, w);
    SignIsPhase(seed + w);
  }

  predicate OtherSign(g: History, h: History) {
    ParitiesOf(g) == ParitiesOf(h) && FoldPositive(g) != FoldPositive(h)
  }

  lemma {:induction false} OtherSignBehind(g: History, h: History, r: History)
    requires OtherSign(g, h)
    ensures OtherSign(g + r, h + r)
  {
    hide Toggle, KeepsSign, ParitiesOf, FoldPositive;
    if r == [] {
      assert g + r == g && h + r == h;
    } else {
      var front, t := r[..|r| - 1], r[|r| - 1];
      OtherSignBehind(g, h, front);
      FoldSnoc(g + front, t);
      FoldSnoc(h + front, t);
      assert g + r == g + front + [t] && h + r == h + front + [t];
    }
  }

  /** Of two completions that differ by swapping two turns, one has either phase. */
  lemma SwappedPhases(seed: History, g: History, t: Twist, u: Twist, r: History)
    requires Anticommute(t, u) && Completes(seed, g + [t, u] + r) && Completes(seed, g + [u, t] + r)
    ensures PhaseOf(seed + (g + [t, u] + r)) != PhaseOf(seed + (g + [u, t] + r))
  {
    hide SignedAction, Need, Free, FoldPositive, ParitiesOf, PhaseOf, Anticommute, Completes;
    Swapped(seed + g, t, u);
    OtherSignBehind(seed + g + [t, u], seed + g + [u, t], r);
    assert seed + (g + [t, u] + r) == seed + g + [t, u] + r && seed + (g + [u, t] + r) == seed + g + [u, t] + r;
    PhaseIsSign(seed, g + [t, u] + r);
    PhaseIsSign(seed, g + [u, t] + r);
  }

  /** Where a single turn stands among two others of a kind: its phase alternates. */
  lemma SingleTurn(seed: History, g: History, y: Twist, z: Twist, r: History)
    requires Anticommute(y, z)
    requires Completes(seed, g + [y, z, z] + r) && Completes(seed, g + [z, y, z] + r) &&
             Completes(seed, g + [z, z, y] + r)
    ensures PhaseOf(seed + (g + [y, z, z] + r)) == PhaseOf(seed + (g + [z, z, y] + r))
    ensures PhaseOf(seed + (g + [y, z, z] + r)) != PhaseOf(seed + (g + [z, y, z] + r))
  {
    hide SignedAction, Need, Free, FoldPositive, ParitiesOf, PhaseOf, Anticommute, Completes;
    assert g + [y, z, z] + r == g + [y, z] + ([z] + r) && g + [z, y, z] + r == g + [z, y] + ([z] + r);
    SwappedPhases(seed, g, y, z, [z] + r);
    assert g + [z, y, z] + r == (g + [z]) + [y, z] + r && g + [z, z, y] + r == (g + [z]) + [z, y] + r;
    SwappedPhases(seed, g + [z], y, z, r);
    PhaseIsSign(seed, g + [y, z, z] + r);
    PhaseIsSign(seed, g + [z, y, z] + r);
    PhaseIsSign(seed, g + [z, z, y] + r);
  }

  // Completions of one position are rearrangements of one another

  lemma CompletionCounts(w: History, need: Action)
    requires SignedAction(w) == need && |w| == Free(need)
    ensures Count(w, Up) == Max(need.v, 0) && Count(w, Down) == Max(0 - need.v, 0)
    ensures Count(w, Right) == Max(need.h, 0) && Count(w, Left) == Max(0 - need.h, 0)
    ensures Count(w, Slash) == Max(need.d, 0) && Count(w, BSlash) == Max(0 - need.d, 0)
    ensures Count(w, Plus) == Max(need.l, 0) && Count(w, Minus) == Max(0 - need.l, 0)
  {
    hide Count;
    LengthIsCounts(w);
    AxisIsPure(Count(w, Up), Count(w, Down));
    AxisIsPure(Count(w, Right), Count(w, Left));
    AxisIsPure(Count(w, Slash), Count(w, BSlash));
    AxisIsPure(Count(w, Plus), Count(w, Minus));
  }

  /** Each twist as often in the one word as in the other. */
  predicate SameCounts(u: History, w: History) { forall t: Twist :: Count(u, t) == Count(w, t) }

  lemma CompletionsRearrange(seed: History, u: History, w: History)
    requires Completes(seed, u) && Completes(seed, w)
    ensures SameCounts(u, w)
  {
    hide SignedAction, Need, Free, Completes, Count;
    FloorIsNeed(seed);
    CompletesMeans(seed, u);
    CompletesMeans(seed, w);
    CompletionCounts(u, Need(seed));
    CompletionCounts(w, Need(seed));
    forall t: Twist
      ensures Count(u, t) == Count(w, t)
    {
      match t
      case Up =>
      case Down =>
      case Right =>
      case Left =>
      case Slash =>
      case BSlash =>
      case Plus =>
      case Minus =>
    }
  }

  lemma CompletesMeans(seed: History, w: History)
    ensures Completes(seed, w) <==> SignedAction(w) == Need(seed) && |w| == Floor(seed)
  {
  }

  lemma InCounts(w: History, t: Twist)
    ensures t in w <==> Count(w, t) > 0
  {
    assert t in w <==> t in multiset(w);
  }

  function Is(t: Twist, u: Twist): nat { if t == u then 1 else 0 }

  lemma CountCons(a: Twist, r: History, t: Twist)
    ensures Count([a] + r, t) == Is(a, t) + Count(r, t)
  {
    assert multiset([a] + r)[t] == multiset([a])[t] + multiset(r)[t];
  }

  lemma CountThree(a: Twist, b: Twist, x: Twist, r: History, t: Twist)
    ensures Count([a, b, x] + r, t) == Is(a, t) + Is(b, t) + Is(x, t) + Count(r, t)
  {
    hide Count, Is;
    assert [a, b, x] + r == [a] + ([b] + ([x] + r));
    CountCons(a, [b] + ([x] + r), t);
    CountCons(b, [x] + r, t);
    CountCons(x, r, t);
  }

  lemma Reordered(seed: History, u: History, w: History)
    requires Completes(seed, u) && SameCounts(u, w)
    ensures Completes(seed, w)
  {
    hide Count;
    LengthIsCounts(u);
    LengthIsCounts(w);
    assert SignedAction(u) == SignedAction(w);
  }

  lemma LetterIsWanted(seed: History, w: History, t: Twist)
    requires Completes(seed, w)
    ensures t in w <==> Reduces(Need(seed), t)
  {
    hide SignedAction, Need, Free, Count;
    FloorIsNeed(seed);
    CompletionCounts(w, Need(seed));
    InCounts(w, t);
  }

  /** Take a twist to the front. */
  lemma Pull(e: History, x: Twist) returns (r: History)
    requires x in e
    ensures SameCounts([x] + r, e) && |r| == |e| - 1
  {
    var i :| 0 <= i < |e| && e[i] == x;
    r := Without(e, i);
    WithoutBag(e, i);
    forall t: Twist
      ensures Count([x] + r, t) == Count(e, t)
    {
      CountCons(x, r, t);
    }
  }

  // First in both orders

  lemma CodeHead(c: History, w: History)
    requires c != [] && w != [] && (c == w || CodeLess(c, w))
    ensures Symbol(c[0]) <= Symbol(w[0])
    ensures c[0] == w[0] ==> c[1..] == w[1..] || CodeLess(c[1..], w[1..])
  {
    SymbolsDiffer(c[0], w[0]);
  }

  lemma LexHead(c: History, w: History)
    requires |c| == |w| > 0 && (c == w || LexLess(c, w))
    ensures Digit(c[0]) <= Digit(w[0])
    ensures c[0] == w[0] ==> c[1..] == w[1..] || LexLess(c[1..], w[1..])
  {
  }

  /** `x` is by far first among the letters of `e`. */
  predicate LeastCode(e: History, x: Twist) { x in e && forall y :: y in e && y != x ==> Symbol(x) < Symbol(y) }

  predicate LeastDigit(e: History, x: Twist) { x in e && forall y :: y in e && y != x ==> Digit(x) < Digit(y) }

  lemma {:induction false} LeastExistsCode(e: History) returns (x: Twist)
    requires e != []
    ensures LeastCode(e, x)
  {
    hide Symbol;
    if |e| == 1 {
      x := e[0];
    } else {
      var y := LeastExistsCode(e[1..]);
      SymbolsDiffer(e[0], y);
      x := if Symbol(e[0]) < Symbol(y) then e[0] else y;
      assert forall z :: z in e ==> z == e[0] || z in e[1..];
    }
  }

  lemma {:induction false} LeastExistsDigit(e: History) returns (x: Twist)
    requires e != []
    ensures LeastDigit(e, x)
  {
    if |e| == 1 {
      x := e[0];
    } else {
      var y := LeastExistsDigit(e[1..]);
      x := if Digit(e[0]) < Digit(y) then e[0] else y;
      assert forall z :: z in e ==> z == e[0] || z in e[1..];
      DigitsDiffer(e[0], y);
    }
  }

  lemma DigitsDiffer(t: Twist, u: Twist)
    ensures Digit(t) == Digit(u) ==> t == u
  {
    assert OfDigit(Digit(t)) == t && OfDigit(Digit(u)) == u;
  }

  /** A completion of `c`'s phase. */
  ghost predicate Rival(seed: History, c: History, w: History) {
    Completes(seed, w) && PhaseOf(seed + w) == PhaseOf(seed + c)
  }

  lemma BeginsLeast(seed: History, c: History, w: History, a: Twist)
    requires Completes(seed, c) && Rival(seed, c, w) && w != [] && w[0] == a
    ensures CodeFirst(seed, c) && LeastCode(c, a) ==> c != [] && c[0] == a
    ensures LexFirst(seed, c) && LeastDigit(c, a) ==> c != [] && c[0] == a
  {
    hide Completes, PhaseOf, CodeLess, LexLess, Symbol, Digit;
    SameLength(seed, c, w);
    if CodeFirst(seed, c) && LeastCode(c, a) {
      CodeHead(c, w);
      assert c[0] in c;
    }
    if LexFirst(seed, c) && LeastDigit(c, a) {
      LexHead(c, w);
      assert c[0] in c;
    }
  }

  /** A rival that begins with the first twist of either order: `c` cannot be first in both. */
  lemma NotBoth(seed: History, c: History, a: Twist, b: Twist, wa: History, wb: History)
    requires CodeFirst(seed, c) && LeastCode(c, a) && LeastDigit(c, b) && a != b
    requires Rival(seed, c, wa) && Rival(seed, c, wb) && wa != [] && wb != [] && wa[0] == a && wb[0] == b
    ensures !LexFirst(seed, c)
  {
    hide LexFirst, Rival, LeastCode, LeastDigit, Completes;
    BeginsLeast(seed, c, wa, a);
    BeginsLeast(seed, c, wb, b);
  }

  lemma SecondLetter(seed: History, c: History, w: History)
    requires Completes(seed, c) && Rival(seed, c, w) && |c| >= 2 && |w| >= 2 && c[0] == w[0]
    ensures CodeFirst(seed, c) ==> Symbol(c[1]) <= Symbol(w[1])
    ensures LexFirst(seed, c) ==> Digit(c[1]) <= Digit(w[1])
  {
    hide Completes, PhaseOf, CodeLess, LexLess, Symbol, Digit;
    SameLength(seed, c, w);
    if CodeFirst(seed, c) {
      CodeHead(c, w);
      CodeHead(c[1..], w[1..]);
    }
    if LexFirst(seed, c) {
      LexHead(c, w);
      LexHead(c[1..], w[1..]);
    }
  }

  lemma CountsBack(u: History, w: History)
    requires SameCounts(u, w)
    ensures SameCounts(w, u)
  {
  }

  lemma PhasesAreTwo(seed: History, u: History, v: History, w: History)
    requires Completes(seed, u) && Completes(seed, v) && Completes(seed, w) && PhaseOf(seed + v) != PhaseOf(seed + w)
    ensures PhaseOf(seed + u) == PhaseOf(seed + v) || PhaseOf(seed + u) == PhaseOf(seed + w)
  {
    hide Completes, PhaseOf, FoldPositive;
    PhaseIsSign(seed, u);
    PhaseIsSign(seed, v);
    PhaseIsSign(seed, w);
  }

  /** With two turns to swap behind it, a rival can begin with `x`. */
  lemma Opens(seed: History, c: History, x: Twist, y: Twist, z: Twist, r: History) returns (w: History)
    requires Completes(seed, c) && SameCounts([x, y, z] + r, c) && Anticommute(y, z)
    ensures Rival(seed, c, w) && w != [] && w[0] == x
  {
    hide Completes, PhaseOf, Anticommute, SameCounts;
    var u, v := [x] + [y, z] + r, [x] + [z, y] + r;
    assert u == [x, y, z] + r && v == [x, z, y] + r;
    ThreeRearranged(x, y, z, r, c);
    CountsBack(u, c);
    CountsBack(v, c);
    Reordered(seed, c, u);
    Reordered(seed, c, v);
    SwappedPhases(seed, [x], y, z, r);
    PhasesAreTwo(seed, c, u, v);
    w := if PhaseOf(seed + u) == PhaseOf(seed + c) then u else v;
  }

  // Where the firsts come apart

  predicate AllTurns(c: History) { forall t :: t in c ==> AxisOf(t) != Gauge }

  /** Different letters of one completion lie on different axes. */
  predicate OneKindAnAxis(c: History) { forall t, u :: t in c && u in c && t != u ==> AxisOf(t) != AxisOf(u) }

  lemma CompletionKinds(seed: History, c: History)
    requires Completes(seed, c)
    ensures OneKindAnAxis(c) && (Need(seed).l == 0 ==> AllTurns(c))
  {
    hide SignedAction, Need, Completes, AxisOf;
    forall t, u | t in c && u in c && t != u
      ensures AxisOf(t) != AxisOf(u)
    {
      LetterIsWanted(seed, c, t);
      LetterIsWanted(seed, c, u);
      StillReduces(Need(seed), t, u);
    }
    forall t | t in c && Need(seed).l == 0
      ensures AxisOf(t) != Gauge
    {
      LetterIsWanted(seed, c, t);
      TurnWanted(Need(seed), t);
    }
  }

  lemma TurnWanted(need: Action, t: Twist)
    requires Reduces(need, t)
    ensures AxisOf(t) == Gauge ==> need.l != 0
  {
  }

  lemma TurnsAnticommute(c: History, t: Twist, u: Twist)
    requires AllTurns(c) && OneKindAnAxis(c) && t in c && u in c && t != u
    ensures Anticommute(t, u)
  {
  }

  lemma SameMembers(u: History, w: History)
    requires SameCounts(u, w)
    ensures forall t :: t in u <==> t in w
  {
    hide Count;
    forall t
      ensures t in u <==> t in w
    {
      InCounts(u, t);
      InCounts(w, t);
    }
  }

  /** Two different turns `a` and `b`, and a third letter: rivals can begin with either one,
      unless one of the two stands alone against a run of the other. */
  lemma ThreeLetters(seed: History, c: History, a: Twist, b: Twist, x: Twist, r: History)
      returns (wa: History, wb: History)
    requires Completes(seed, c) && AllTurns(c) && OneKindAnAxis(c)
    requires a != b && SameCounts([a, b, x] + r, c)
    requires (x != a && x != b) || (x == a && b in r) || (x == b && a in r)
    ensures Rival(seed, c, wa) && wa != [] && wa[0] == a
    ensures Rival(seed, c, wb) && wb != [] && wb[0] == b
  {
    hide Completes, AllTurns, OneKindAnAxis, Rival, Anticommute, SameCounts;
    SameMembers([a, b, x] + r, c);
    assert a in [a, b, x] + r && b in [a, b, x] + r && x in [a, b, x] + r;
    TurnsAnticommute(c, a, b);
    AnticommuteBack(a, b);
    if x != a && x != b {
      TurnsAnticommute(c, b, x);
      TurnsAnticommute(c, a, x);
      wa := Opens(seed, c, a, b, x, r);
      ThreeRearranged(a, b, x, r, c);
      wb := Opens(seed, c, b, a, x, r);
    } else if x == a {
      ThreeRearranged(a, b, a, r, c);
      wa := Opens(seed, c, a, b, a, r);
      var q := Pull(r, b);
      FourRearranged(a, b, a, r, b, q, c);
      wb := Opens(seed, c, b, b, a, [a] + q);
    } else {
      ThreeRearranged(a, b, b, r, c);
      wb := Opens(seed, c, b, a, b, r);
      var q := Pull(r, a);
      FourRearranged(a, b, b, r, a, q, c);
      wa := Opens(seed, c, a, a, b, [b] + q);
    }
  }

  lemma AnticommuteBack(t: Twist, u: Twist)
    requires Anticommute(t, u)
    ensures Anticommute(u, t)
  {
  }

  lemma ThreeRearranged(a: Twist, b: Twist, x: Twist, r: History, c: History)
    requires SameCounts([a, b, x] + r, c)
    ensures SameCounts([b, a, x] + r, c) && SameCounts([a, x, b] + r, c)
  {
    hide Count, Is;
    forall t: Twist
      ensures Count([b, a, x] + r, t) == Count(c, t) == Count([a, x, b] + r, t)
    {
      CountThree(a, b, x, r, t);
      CountThree(b, a, x, r, t);
      CountThree(a, x, b, r, t);
    }
  }

  lemma FourRearranged(a: Twist, b: Twist, x: Twist, r: History, y: Twist, q: History, c: History)
    requires SameCounts([a, b, x] + r, c) && SameCounts([y] + q, r)
    ensures SameCounts([y, b, a] + ([x] + q), c) && SameCounts([y, a, b] + ([x] + q), c)
  {
    hide Count, Is;
    forall t: Twist
      ensures Count([y, b, a] + ([x] + q), t) == Count(c, t) == Count([y, a, b] + ([x] + q), t)
    {
      CountThree(a, b, x, r, t);
      CountThree(y, b, a, [x] + q, t);
      CountThree(y, a, b, [x] + q, t);
      CountCons(x, q, t);
      CountCons(y, q, t);
    }
  }

  predicate OnlyLetters(c: History, y: Twist, z: Twist) { forall t :: t in c ==> t == y || t == z }

  /** Rivals that begin `zy` and `zz`: the two orders want different ones. */
  lemma SecondsClash(seed: History, c: History, y: Twist, z: Twist, a: Twist, b: Twist, w1: History, w3: History)
    requires CodeFirst(seed, c) && LeastCode(c, a) && LeastDigit(c, b) && a != b
    requires OnlyLetters(c, y, z) && (a == y || a == z) && (b == y || b == z)
    requires Rival(seed, c, w1) && |w1| >= 2 && w1[0] == z && w1[1] == y
    requires Rival(seed, c, w3) && |w3| >= 2 && w3[0] == z && w3[1] == z
    ensures !LexFirst(seed, c)
  {
    hide CodeFirst, LexFirst, Rival, Completes, Symbol, Digit;
    BeginsLeast(seed, c, w1, z) by { FirstCompletes(seed, c); }
    RivalLength(seed, c, w1);
    FirstCompletes(seed, c);
    assert c[0] in c && c[1] in c;
    if c[0] == z {
      SecondLetter(seed, c, w1);
      SecondLetter(seed, c, w3);
    }
  }

  lemma FirstCompletes(seed: History, c: History)
    requires CodeFirst(seed, c)
    ensures Completes(seed, c)
  {
  }

  lemma RivalLength(seed: History, c: History, w: History)
    requires CodeFirst(seed, c) && Rival(seed, c, w)
    ensures |c| == |w|
  {
    hide Completes, PhaseOf, CodeLess;
    SameLength(seed, c, w);
  }

  /** One turn `y` among two or more `z`. */
  lemma LoneTurn(seed: History, c: History, y: Twist, z: Twist, r: History, a: Twist, b: Twist)
    requires CodeFirst(seed, c) && LeastCode(c, a) && LeastDigit(c, b) && a != b
    requires OnlyLetters(c, y, z) && (a == y || a == z) && (b == y || b == z) && Anticommute(y, z)
    requires SameCounts([y, z, z] + r, c) && (forall t :: t in r ==> t == z)
    requires r == [] ==> PhaseOf(seed + [z, y, z]) != PosOne
    ensures !LexFirst(seed, c)
  {
    hide CodeFirst, LexFirst, Completes, PhaseOf, Anticommute, OnlyLetters, LeastCode, LeastDigit, SameCounts;
    FirstCompletes(seed, c);
    var w0, w1, w2 := [y, z, z] + r, [z, y, z] + r, [z, z, y] + r;
    ThreeRearranged(y, z, z, r, c);
    ThreeRearranged(z, y, z, r, c);
    CompletesToo(seed, c, w0);
    CompletesToo(seed, c, w1);
    CompletesToo(seed, c, w2);
    assert [] + [y, z, z] + r == w0 && [] + [z, y, z] + r == w1 && [] + [z, z, y] + r == w2;
    SingleTurn(seed, [], y, z, r);
    PhasesAreTwo(seed, c, w0, w1);
    if PhaseOf(seed + c) == PhaseOf(seed + w0) {
      if a == y {
        NotBoth(seed, c, a, b, w0, w2);
      } else {
        NotBoth(seed, c, a, b, w2, w0);
      }
    } else if r == [] {
      assert w1 == [z, y, z];
      BestIsPositive(seed, c, w1, w0);
    } else {
      var q := r[1..];
      assert r[0] in r && r == [z] + q;
      var w3 := [z] + [z, z, y] + q;
      LastShift(y, z, q, c);
      CompletesToo(seed, c, w3);
      assert w1 == [z] + [y, z, z] + q && w2 == [z] + [z, y, z] + q;
      SingleTurn(seed, [z], y, z, q);
      SecondsClash(seed, c, y, z, a, b, w1, w3);
    }
  }

  lemma CompletesToo(seed: History, c: History, w: History)
    requires Completes(seed, c) && SameCounts(w, c)
    ensures Completes(seed, w)
  {
    hide SameCounts, Completes;
    CountsBack(w, c);
    Reordered(seed, c, w);
  }

  lemma LastShift(y: Twist, z: Twist, q: History, c: History)
    requires SameCounts([z, z, y] + ([z] + q), c)
    ensures SameCounts([z] + [z, z, y] + q, c)
  {
    hide Count, Is;
    forall t: Twist
      ensures Count([z] + [z, z, y] + q, t) == Count(c, t)
    {
      CountThree(z, z, y, [z] + q, t);
      CountCons(z, q, t);
      assert [z] + [z, z, y] + q == [z] + ([z, z, y] + q);
      CountCons(z, [z, z, y] + q, t);
      CountThree(z, z, y, q, t);
    }
  }

  /** If the one phase is not the best, the other is. */
  lemma BestIsPositive(seed: History, c: History, v: History, w: History)
    requires CodeFirst(seed, c) && Completes(seed, v) && Completes(seed, w)
    requires PhaseOf(seed + v) != PhaseOf(seed + w) && PhaseOf(seed + v) != PosOne
    ensures PhaseOf(seed + c) == PhaseOf(seed + w)
  {
    hide Completes, PhaseOf, FoldPositive, CodeLess;
    PhaseIsSign(seed, v);
    PhaseIsSign(seed, w);
    PhaseIsSign(seed, c);
  }

  // Turns only

  lemma LeastAreWanted(seed: History, c: History, a: Twist, b: Twist)
    requires Completes(seed, c) && LeastCode(c, a) && LeastDigit(c, b)
    requires Need(seed).l == 0 && !OrdersAgree(Need(seed))
    ensures a != b && a in c && b in c
  {
    hide SignedAction, Need, Completes;
    var t, u := ConflictPair(Need(seed));
    LetterIsWanted(seed, c, t);
    LetterIsWanted(seed, c, u);
    LetterIsWanted(seed, c, a);
    LetterIsWanted(seed, c, b);
    LeastsDiffer(Need(seed), t, u, a);
  }

  /** One twist cannot be first in both orders where two others conflict. */
  lemma LeastsDiffer(need: Action, t: Twist, u: Twist, a: Twist)
    requires need.l == 0 && Reduces(need, t) && Reduces(need, u) && Reduces(need, a) && t != u && Conflict(t, u)
    ensures (t == a || (Symbol(a) < Symbol(t) && Digit(a) < Digit(t))) ==>
              !(u == a || (Symbol(a) < Symbol(u) && Digit(a) < Digit(u)))
  {
  }

  lemma TurnsClash(seed: History, c: History)
    requires CodeFirst(seed, c) && |c| >= 3
    requires Need(seed).l == 0 && !OrdersAgree(Need(seed)) && !MiddleTurn(seed)
    ensures !LexFirst(seed, c)
  {
    hide SignedAction, Need, CodeFirst, LexFirst, Completes, PhaseOf, Anticommute, OnlyLetters, SameCounts, MiddleTurn,
         OrdersAgree, AllTurns, OneKindAnAxis, Rival, LeastCode, LeastDigit;
    FirstCompletes(seed, c);
    CompletionKinds(seed, c);
    var a := LeastExistsCode(c);
    var b := LeastExistsDigit(c);
    LeastAreWanted(seed, c, a, b);
    TurnsAnticommute(c, a, b);
    var r1 := PullTwo(c, a, b);
    if k :| k in r1 && k != a && k != b {
      var r := Pull(r1, k);
      ThirdPulled(a, b, k, r, r1, c);
      var wa, wb := ThreeLetters(seed, c, a, b, k, r);
      NotBoth(seed, c, a, b, wa, wb);
    } else if a in r1 && b in r1 {
      var r := Pull(r1, a);
      ThirdPulled(a, b, a, r, r1, c);
      SameMembers([a] + r, r1);
      assert b in [a] + r;
      var wa, wb := ThreeLetters(seed, c, a, b, a, r);
      NotBoth(seed, c, a, b, wa, wb);
    } else {
      RunOfOne(seed, c, a, b, r1);
    }
  }

  lemma PullTwo(c: History, a: Twist, b: Twist) returns (r: History)
    requires a in c && b in c && a != b
    ensures SameCounts([a] + ([b] + r), c) && |r| == |c| - 2
  {
    hide Count, Is, SameCounts;
    var q := Pull(c, a);
    SameMembers([a] + q, c);
    assert b in [a] + q;
    r := Pull(q, b);
    assert SameCounts([a] + ([b] + r), c) by { PulledBehind(a, [b] + r, q, c); }
  }

  lemma PulledBehind(a: Twist, u: History, q: History, c: History)
    requires SameCounts(u, q) && SameCounts([a] + q, c)
    ensures SameCounts([a] + u, c)
  {
    hide Count, Is;
    forall t: Twist
      ensures Count([a] + u, t) == Count(c, t)
    {
      CountCons(a, u, t);
      CountCons(a, q, t);
    }
  }

  lemma ThirdPulled(a: Twist, b: Twist, x: Twist, r: History, r1: History, c: History)
    requires SameCounts([x] + r, r1) && SameCounts([a] + ([b] + r1), c)
    ensures SameCounts([a, b, x] + r, c)
  {
    hide Count, SameCounts;
    PulledBehindTwo(a, b, [x] + r, r1, c);
    assert [a, b, x] + r == [a] + ([b] + ([x] + r));
  }

  lemma PulledBehindTwo(a: Twist, b: Twist, u: History, q: History, c: History)
    requires SameCounts(u, q) && SameCounts([a] + ([b] + q), c)
    ensures SameCounts([a] + ([b] + u), c)
  {
    hide Count, Is;
    forall t: Twist
      ensures Count([a] + ([b] + u), t) == Count(c, t)
    {
      CountCons(a, [b] + u, t);
      CountCons(b, u, t);
      CountCons(a, [b] + q, t);
      CountCons(b, q, t);
    }
  }

  lemma RunOfOne(seed: History, c: History, a: Twist, b: Twist, r1: History)
    requires CodeFirst(seed, c) && LeastCode(c, a) && LeastDigit(c, b) && a != b && Anticommute(a, b)
    requires SameCounts([a] + ([b] + r1), c) && r1 != [] && !MiddleTurn(seed)
    requires (forall t :: t in r1 ==> t == a || t == b) && !(a in r1 && b in r1)
    ensures !LexFirst(seed, c)
  {
    hide CodeFirst, LexFirst, Completes, PhaseOf, Anticommute, SameCounts, MiddleTurn, LeastCode, LeastDigit,
         OnlyLetters;
    FirstCompletes(seed, c);
    var z, r := r1[0], r1[1..];
    var y := if z == a then b else a;
    assert z in r1 && r1 == [z] + r;
    forall t | t in r
      ensures t == z
    {
      assert t in r1;
    }
    AnticommuteBack(a, b);
    RunCounts(a, b, z, r, c);
    JustTwoLetters(y, z, r, c);
    if r == [] {
      assert [y, z, z] + r == [y, z, z];
      MiddleOf(seed, c, y, z);
    }
    LoneTurn(seed, c, y, z, r, a, b);
  }

  lemma JustTwoLetters(y: Twist, z: Twist, r: History, c: History)
    requires SameCounts([y, z, z] + r, c) && forall t :: t in r ==> t == z
    ensures OnlyLetters(c, y, z)
  {
    hide SameCounts;
    SameMembers([y, z, z] + r, c);
  }

  lemma RunCounts(a: Twist, b: Twist, z: Twist, r: History, c: History)
    requires SameCounts([a] + ([b] + ([z] + r)), c)
    ensures z == a ==> SameCounts([b, z, z] + r, c)
    ensures z == b ==> SameCounts([a, z, z] + r, c)
  {
    hide SameCounts;
    assert [a] + ([b] + ([z] + r)) == [a, b, z] + r;
    ThreeRearranged(a, b, z, r, c);
  }

  lemma MiddleOf(seed: History, c: History, y: Twist, z: Twist)
    requires Completes(seed, c) && SameCounts([y, z, z], c) && Anticommute(y, z) && !MiddleTurn(seed)
    ensures PhaseOf(seed + [z, y, z]) != PosOne
  {
    hide Completes, PhaseOf, Anticommute, SameCounts, SignedAction, Need, Unit;
    assert [y, z, z] + [] == [y, z, z] && [z, y, z] + [] == [z, y, z];
    ThreeRearranged(y, z, z, [], c);
    CompletesToo(seed, c, [z, y, z]);
    CompletesMeans(seed, [z, y, z]);
    AnticommuteBack(y, z);
  }

  lemma ActionOfThree(x: Twist, y: Twist, z: Twist)
    ensures SignedAction([x, y, z]) == AddAction(SignedAction([x]), AddAction(SignedAction([y]), SignedAction([z])))
  {
    hide SignedAction;
    assert [x, y, z] == [x] + [y, z] && [y, z] == [y] + [z];
    ActionConcat([x], [y, z]);
    ActionConcat([y], [z]);
  }

  // A gauge twist in the residual

  lemma {:induction false} GaugePasses(h: History, g: Twist, r: History)
    requires AxisOf(g) == Gauge
    ensures SameFold(h + [g] + r, h + r + [g])
    decreases |r|
  {
    hide ParitiesOf, FoldPositive, AxisOf;
    if r == [] {
      assert h + [g] + r == h + [g] == h + r + [g];
    } else {
      var t, rest := r[0], r[1..];
      GaugeCommutes(g, t);
      SwapKeepsFold(h, g, t);
      SameFoldBehind(h + [g, t], h + [t, g], rest);
      assert h + [g] + r == h + [g, t] + rest && h + [t, g] + rest == h + [t] + [g] + rest;
      GaugePasses(h + [t], g, rest);
      assert h + [t] + rest + [g] == h + r + [g];
    }
  }

  lemma GaugeCommutes(g: Twist, t: Twist)
    requires AxisOf(g) == Gauge
    ensures !Anticommute(g, t)
  {
  }

  /** A gauge twist can be taken to the front, or to the end. */
  lemma GaugeFirst(seed: History, c: History, g: Twist) returns (w: History)
    requires Completes(seed, c) && g in c && AxisOf(g) == Gauge
    ensures Rival(seed, c, w) && w != [] && w[0] == g
  {
    hide PhaseOf, AxisOf, SignedAction, Need, Free, SameFold;
    var i :| 0 <= i < |c| && c[i] == g;
    var u, v := c[..i], c[i + 1..];
    assert c == u + [g] + v;
    w := [g] + u + v;
    GaugePasses(seed, g, u);
    SameFoldBehind(seed + [g] + u, seed + u + [g], v);
    assert seed + [g] + u + v == seed + w && seed + u + [g] + v == seed + c;
    SamePhase(seed + w, seed + c);
    Shifted(u, g, v);
    Reordered(seed, c, w);
  }

  lemma CountAppend(u: History, w: History, t: Twist)
    ensures Count(u + w, t) == Count(u, t) + Count(w, t)
  {
    assert multiset(u + w)[t] == multiset(u)[t] + multiset(w)[t];
  }

  lemma Shifted(u: History, g: Twist, v: History)
    ensures SameCounts(u + [g] + v, [g] + u + v) && SameCounts(u + [g] + v, u + v + [g])
  {
    hide Count;
    forall t: Twist
      ensures Count(u + [g] + v, t) == Count([g] + u + v, t) == Count(u + v + [g], t)
    {
      CountAppend(u + [g], v, t);
      CountAppend(u, [g], t);
      CountAppend([g] + u, v, t);
      CountAppend([g], u, t);
      CountAppend(u + v, [g], t);
      CountAppend(u, v, t);
    }
  }

  lemma GaugeLast(seed: History, c: History, g: Twist)
    requires Completes(seed, c) && c != [] && c[0] == g && AxisOf(g) == Gauge
    ensures Rival(seed, c, c[1..] + [g])
  {
    hide PhaseOf, AxisOf, SignedAction, Need, Free, SameFold;
    var v, w := c[1..], c[1..] + [g];
    assert c == [g] + v;
    GaugePasses(seed, g, v);
    assert seed + [g] + v == seed + c && seed + v + [g] == seed + w;
    SamePhase(seed + c, seed + w);
    Shifted([], g, v);
    assert c == [] + [g] + v && w == [] + v + [g];
    Reordered(seed, c, w);
  }

  /** Moved to the end, it makes room for a turn that TWIST_ORDER puts first. */
  lemma {:induction false} LastIsLess(c: History, g: Twist)
    requires c != [] && c[0] == g && exists t :: t in c && t != g
    requires forall t :: t in c && t != g ==> Digit(t) < Digit(g)
    ensures LexLess(c[1..] + [g], c)
  {
    var v := c[1..];
    var t :| t in c && t != g;
    assert t in v;
    if v[0] == g {
      LastIsLess(v, g);
      assert (v + [g])[1..] == v[1..] + [g];
    } else {
      assert v[0] in c;
    }
  }

  lemma LexAsymmetric(u: History, w: History)
    requires |u| == |w| && LexLess(u, w)
    ensures !LexLess(w, u) && u != w
  {
    RankIsLexicographic(u, w);
    RankIsLexicographic(w, u);
    LexIrreflexive(u);
  }

  lemma GaugeClash(seed: History, c: History)
    requires CodeFirst(seed, c) && Need(seed).l != 0 && !OrdersAgree(Need(seed))
    ensures !LexFirst(seed, c)
  {
    hide SignedAction, Need, CodeFirst, Completes, PhaseOf, OrdersAgree, Rival, CodeLess, LexLess;
    FirstCompletes(seed, c);
    var g := Wanted(Plus, Minus, Need(seed).l);
    var t, u := ConflictPair(Need(seed));
    LetterIsWanted(seed, c, g);
    LetterIsWanted(seed, c, t);
    LetterIsWanted(seed, c, u);
    GaugeWanted(Need(seed));
    forall x | x in c && x != g
      ensures Symbol(g) < Symbol(x) && Digit(x) < Digit(g)
    {
      LetterIsWanted(seed, c, x);
      GaugeLeast(Need(seed), x);
    }
    assert LeastCode(c, g);
    var w := GaugeFirst(seed, c, g);
    BeginsLeast(seed, c, w, g);
    GaugeLast(seed, c, g);
    LastIsLess(c, g);
    LexAsymmetric(c[1..] + [g], c);
    NotFirst(seed, c, c[1..] + [g]);
  }

  lemma NotFirst(seed: History, c: History, w: History)
    requires Rival(seed, c, w) && |w| == |c| && w != c && !LexLess(c, w)
    ensures !LexFirst(seed, c)
  {
    hide Completes, PhaseOf, LexLess;
  }

  lemma GaugeWanted(need: Action)
    requires need.l != 0
    ensures var g := Wanted(Plus, Minus, need.l); Reduces(need, g) && AxisOf(g) == Gauge
  {
  }

  lemma GaugeLeast(need: Action, x: Twist)
    requires need.l != 0 && Reduces(need, x) && x != Wanted(Plus, Minus, need.l)
    ensures var g := Wanted(Plus, Minus, need.l); Symbol(g) < Symbol(x) && Digit(x) < Digit(g)
  {
  }

  // The middle turn

  lemma ThreeTwists(t: Twist, u: Twist, w: History)
    requires t != u && SameCounts(w, [t, u, t])
    ensures w == [t, u, t] || w == [u, t, t] || w == [t, t, u]
  {
    hide Count;
    LengthIsCounts(w);
    LengthIsCounts([t, u, t]);
    SameMembers(w, [t, u, t]);
    assert |w| == 3 && w[0] in w && w[1] in w && w[2] in w;
    assert w == [w[0], w[1], w[2]];
    assert [w[0], w[1], w[2]] + [] == w && [t, u, t] + [] == [t, u, t];
    CountThree(w[0], w[1], w[2], [], u);
    CountThree(t, u, t, [], u);
  }

  lemma MiddleCompletes(seed: History, t: Twist, u: Twist)
    requires TwoAndOne(Need(seed), t, u)
    ensures Completes(seed, [t, u, t]) && Completes(seed, [u, t, t]) && Completes(seed, [t, t, u])
  {
    hide SignedAction, Need, Unit, Free, SameCounts, After, Anticommute;
    var need := Need(seed);
    FreeOfThree(need, t, u);
    FloorIsNeed(seed);
    CompletesMeans(seed, [t, u, t]);
    assert [t, u, t] + [] == [t, u, t] && [u, t, t] + [] == [u, t, t] && [t, t, u] + [] == [t, t, u];
    Everything([t, u, t]);
    ThreeRearranged(t, u, t, [], [t, u, t]);
    CompletesToo(seed, [t, u, t], [u, t, t]);
    CompletesToo(seed, [t, u, t], [t, t, u]);
  }

  lemma Everything(w: History)
    ensures SameCounts(w, w)
  {
  }

  lemma FreeOfThree(need: Action, t: Twist, u: Twist)
    requires TwoAndOne(need, t, u)
    ensures Free(need) == 3
  {
    hide Unit, Free, Anticommute, SignedAction;
    OneAxisEach(t, u);
    OneStep(t);
    OneStep(u);
    ActionOfThree(t, u, t);
    ActionOfOne(t);
    ActionOfOne(u);
    TwiceAndOnce(need, Unit(t), Unit(u));
  }

  lemma OneStep(t: Twist)
    ensures var a := Unit(t); Abs(a.v) + Abs(a.h) + Abs(a.d) + Abs(a.l) == 1
  {
  }

  lemma OneAxisEach(t: Twist, u: Twist)
    requires Anticommute(t, u)
    ensures Apart(Unit(t), Unit(u))
  {
    match t
    case Up | Down => assert Unit(u).v == 0;
    case Right | Left => assert Unit(u).h == 0;
    case Slash | BSlash => assert Unit(u).d == 0;
  }

  predicate Apart(a: Action, b: Action) {
    (a.v == 0 || b.v == 0) && (a.h == 0 || b.h == 0) && (a.d == 0 || b.d == 0) && (a.l == 0 || b.l == 0)
  }

  lemma TwiceAndOnce(need: Action, a: Action, b: Action)
    requires Apart(a, b)
    requires need.v == 2 * a.v + b.v && need.h == 2 * a.h + b.h && need.d == 2 * a.d + b.d && need.l == 2 * a.l + b.l
    requires Abs(a.v) + Abs(a.h) + Abs(a.d) + Abs(a.l) == 1 && Abs(b.v) + Abs(b.h) + Abs(b.d) + Abs(b.l) == 1
    ensures Free(need) == 3
  {
  }

  /** The word with the single turn in the middle has its phase to itself. */
  lemma MiddleIsFirst(seed: History, c: History)
    requires CodeFirst(seed, c) && MiddleTurn(seed)
    ensures LexFirst(seed, c)
  {
    hide SignedAction, Need, PhaseOf, Free, SameCounts, After, Anticommute, Completes, CodeLess, LexLess, TwoAndOne;
    var t, u :| TwoAndOne(Need(seed), t, u) && PhaseOf(seed + [t, u, t]) == PosOne;
    MiddleCompletes(seed, t, u);
    BothTurn(Need(seed), t, u);
    assert [] + [u, t, t] + [] == [u, t, t] && [] + [t, u, t] + [] == [t, u, t] && [] + [t, t, u] + [] == [t, t, u];
    SingleTurn(seed, [], u, t, []);
    PhaseIsSign(seed, c);
    forall w | Completes(seed, w) && PhaseOf(seed + w) == PosOne
      ensures w == [t, u, t]
    {
      CompletionsRearrange(seed, w, [t, u, t]);
      ThreeTwists(t, u, w);
    }
  }

  lemma BothTurn(need: Action, t: Twist, u: Twist)
    requires TwoAndOne(need, t, u)
    ensures Anticommute(u, t) && t != u
  {
  }

  // The winner

  lemma LeastIsCodeFirst(seed: History, minLen: int, e: Closure)
    requires IsLeastAction(seed, minLen, e)
    requires 1 <= Floor(seed) && |seed| + Floor(seed) >= minLen
    ensures CodeFirst(seed, e.cont) && e == ClosureOf(seed, e.cont)
    ensures IsFirstInTwistOrder(Job(seed, minLen, false), e) <==> LexFirst(seed, e.cont)
  {
    hide SignedAction, Need, CodeLess, LexLess, Closes, PhaseOf, Free, MaxExcursion, LeastPeak, LeastDepth,
         AlreadyClosed, Completes;
    FloorIsLeastDepth(seed, minLen);
    var job, c := Job(seed, minLen, false), e.cont;
    FloorClosuresComplete(job, c);
    forall w
      ensures Completes(seed, w) <==> Closes(job, w) && |w| == |c|
      ensures Completes(seed, w) && w != c ==> TieGoesTo(e, ClosureOf(seed, w))
    {
      CompletesMeans(seed, w);
      if Completes(seed, w) {
        CompletionCloses(job, w);
        FloorClosuresComplete(job, w);
      } else if Closes(job, w) && |w| == |c| {
        FloorClosuresComplete(job, w);
      }
    }
    forall w | Completes(seed, w)
      ensures PhaseOf(seed + w) == PhaseOf(seed + c) && w != c ==> CodeLess(c, w)
      ensures PhaseRank(PhaseOf(seed + c)) <= PhaseRank(PhaseOf(seed + w))
    {
      CodeLessBehind(seed, c, w);
    }
  }

  lemma CompletionCloses(job: Job, w: History)
    requires |job.seed| + Floor(job.seed) >= job.minLen && Completes(job.seed, w)
    ensures Closes(job, w)
  {
    hide SignedAction, Need, Free, AchievesZfaPairwise;
    BalanceIsNeed(job.seed, w);
    BalancedFoldsToSign(job.seed + w);
  }

  lemma FirstInBothIff(seed: History, c: History)
    requires CodeFirst(seed, c) && 1 <= Floor(seed)
    ensures LexFirst(seed, c) <==> OrdersAgree(Need(seed)) || OnlyTwoTurns(Need(seed)) || MiddleTurn(seed)
  {
    hide SignedAction, Need, CodeFirst, LexFirst, Completes, PhaseOf, OrdersAgree, MiddleTurn, Free;
    FirstCompletes(seed, c);
    CompletesMeans(seed, c);
    FloorIsNeed(seed);
    if OrdersAgree(Need(seed)) || OnlyTwoTurns(Need(seed)) {
      ComparatorAgreesIff(seed);
      AgreedIsFirst(seed, c);
    } else if MiddleTurn(seed) {
      MiddleIsFirst(seed, c);
    } else if Need(seed).l != 0 {
      GaugeClash(seed, c);
    } else {
      LongerThanTwo(Need(seed));
      TurnsClash(seed, c);
    }
  }

  /** Between one twist and itself there is nothing to disagree on. */
  lemma LongerThanTwo(need: Action)
    requires need.l == 0 && !OrdersAgree(need) && !OnlyTwoTurns(need)
    ensures Free(need) >= 3
  {
    hide Free, OrdersAgree;
    var t, u := ConflictPair(need);
    AfterPair(need, t, u);
  }

  lemma AgreedIsFirst(seed: History, c: History)
    requires CodeFirst(seed, c) && ComparatorAgrees(seed)
    ensures LexFirst(seed, c)
  {
    hide Completes, PhaseOf, CodeLess, LexLess;
    forall w | Completes(seed, w) && PhaseOf(seed + w) == PhaseOf(seed + c) && w != c
      ensures |w| == |c| && LexLess(c, w)
    {
      SameLength(seed, c, w);
      CodeLessBehind(seed, c, w);
    }
  }

  /** Where the residual itself can be supplied, the solver's answer is, of the closures of its
      depth and phase, the first in TWIST_ORDER exactly in three cases: the orders agree on the
      twists wanted, just two turns are wanted, or one turn twice and another once, with the
      best phase going to the single one in the middle. */
  lemma WinnerIsFirstIff(seed: History, maxDepth: nat, minLen: int)
    requires 1 <= Floor(seed) <= maxDepth <= MAX_DEPTH_CAP && |seed| + Floor(seed) >= minLen
    ensures var r := Solve(seed, maxDepth, minLen);
            && r.Win?
            && (IsFirstInTwistOrder(Job(seed, minLen, false), r.best) <==>
                OrdersAgree(Need(seed)) || OnlyTwoTurns(Need(seed)) || MiddleTurn(seed))
  {
    hide Solve, SignedAction, Need, Shallowest, LeastDepth, AlreadyClosed, IsLeastAction, Free, OrdersAgree,
         OnlyTwoTurns, MiddleTurn, IsFirstInTwistOrder, CodeFirst, LexFirst;
    FloorIsLeastDepth(seed, minLen);
    ShallowestFits(seed, minLen);
    SolverTakesLeastAction(seed, maxDepth, minLen);
    var e := Solve(seed, maxDepth, minLen).best;
    LeastIsCodeFirst(seed, minLen, e);
    FirstInBothIff(seed, e.cont);
  }
}
