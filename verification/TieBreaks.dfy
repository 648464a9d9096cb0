/** Exactly when the solver's last tie-break, by character code, comes to TWIST_ORDER. */
module TieBreaks {
  import opened Twists
  import opened Pauli
  import opened Histories
  import opened Words
  import opened Closures
  import opened Enumerator
  import opened Solver
  import opened Solving
  import opened LeastAction

  /** Both orders rank the twists the residual asks for alike. */
  predicate OrdersAgree(need: Action) {
    forall t, u :: Reduces(need, t) && Reduces(need, u) ==> (Symbol(t) < Symbol(u) <==> Digit(t) < Digit(u))
  }

  predicate OnOneAxis(a: Action) {
    || (a.h == 0 && a.d == 0 && a.l == 0)
    || (a.v == 0 && a.d == 0 && a.l == 0)
    || (a.v == 0 && a.h == 0 && a.l == 0)
    || (a.v == 0 && a.h == 0 && a.d == 0)
  }

  /** They do for a residual on one axis, and for one made of horizontals and backslashes. */
  lemma OrdersAgreeIff(need: Action)
    ensures OrdersAgree(need) <==> OnOneAxis(need) || (need.v == 0 && need.l == 0 && need.d <= 0)
  {
    var v, h, d, l := Wanted(Up, Down, need.v), Wanted(Right, Left, need.h), Wanted(Slash, BSlash, need.d),
      Wanted(Plus, Minus, need.l);
    assert need.v != 0 ==> Reduces(need, v);
    assert need.h != 0 ==> Reduces(need, h);
    assert need.d != 0 ==> Reduces(need, d);
    assert need.l != 0 ==> Reduces(need, l);
  }

  function Wanted(plus: Twist, minus: Twist, n: int): Twist { if n > 0 then plus else minus }

  lemma AxisIsPure(a: nat, b: nat)
    ensures a + b >= Abs(a - b)
    ensures a + b == Abs(a - b) ==> a == 0 || b == 0
  {
  }

  /** A shortest completion uses only twists the residual asks for. */
  lemma ShortestTwists(w: History, need: Action, t: Twist)
    requires SignedAction(w) == need && |w| == Free(need) && t in w
    ensures Reduces(need, t)
  {
    hide Count, Abs;
    LengthIsCounts(w);
    AxisIsPure(Count(w, Up), Count(w, Down));
    AxisIsPure(Count(w, Right), Count(w, Left));
    AxisIsPure(Count(w, Slash), Count(w, BSlash));
    AxisIsPure(Count(w, Plus), Count(w, Minus));
    TwistCounted(w, t);
  }

  lemma TwistCounted(w: History, t: Twist)
    requires t in w
    ensures Count(w, t) > 0
  {
    assert t in multiset(w);
  }

  lemma {:induction false} SameOrderOnWords(need: Action, u: History, w: History)
    requires |u| == |w| && OrdersAgree(need)
    requires forall t :: t in u || t in w ==> Reduces(need, t)
    ensures CodeLess(u, w) <==> LexLess(u, w)
  {
    if u != [] {
      assert u[0] in u && w[0] in w;
      SymbolsDiffer(u[0], w[0]);
      SameOrderOnWords(need, u[1..], w[1..]);
    }
  }

  lemma {:induction false} CodeLessBehind(seed: History, u: History, w: History)
    ensures CodeLess(seed + u, seed + w) <==> CodeLess(u, w)
  {
    if seed == [] {
      assert seed + u == u && seed + w == w;
    } else {
      assert (seed + u)[1..] == seed[1..] + u && (seed + w)[1..] == seed[1..] + w;
      CodeLessBehind(seed[1..], u, w);
    }
  }

  // A shortest completion, and what it folds to

  predicate Completes(seed: History, w: History) { SignedAction(w) == Need(seed) && |w| == Floor(seed) }

  lemma FoldSnoc(h: History, t: Twist)
    ensures ParitiesOf(h + [t]) == Toggle(ParitiesOf(h), t)
    ensures FoldPositive(h + [t]) <==> (FoldPositive(h) == KeepsSign(ParitiesOf(h), t))
  {
    hide Toggle, KeepsSign;
    assert (h + [t])[..|h + [t]| - 1] == h;
  }

  /** Same parities and same sign: the same fold. */
  predicate SameFold(g: History, h: History) {
    ParitiesOf(g) == ParitiesOf(h) && FoldPositive(g) == FoldPositive(h)
  }

  lemma SamePhase(g: History, h: History)
    requires SameFold(g, h)
    ensures PhaseOf(g) == PhaseOf(h)
  {
    hide PauliFold, ParitiesOf, FoldPositive, Canonical, Signed, ScalarOfMatrix;
    FoldNormalForm(g);
    FoldNormalForm(h);
  }

  lemma {:induction false} SameFoldBehind(g: History, h: History, r: History)
    requires SameFold(g, h)
    ensures SameFold(g + r, h + r)
  {
    hide Toggle, KeepsSign, ParitiesOf, FoldPositive;
    if r == [] {
      assert g + r == g && h + r == h;
    } else {
      var front, t := r[..|r| - 1], r[|r| - 1];
      SameFoldBehind(g, h, front);
      FoldSnoc(g + front, t);
      FoldSnoc(h + front, t);
      assert g + r == g + front + [t] && h + r == h + front + [t];
    }
  }

  datatype Axis = X | Y | Z | Gauge

  function AxisOf(t: Twist): Axis {
    match t
    case Right | Left => X
    case Up | Down => Y
    case Slash | BSlash => Z
    case Plus | Minus => Gauge
  }

  predicate Anticommute(t: Twist, u: Twist) { AxisOf(t) != AxisOf(u) && AxisOf(t) != Gauge && AxisOf(u) != Gauge }

  lemma SwapSigns(p: Parities, t: Twist, u: Twist)
    ensures Toggle(Toggle(p, t), u) == Toggle(Toggle(p, u), t)
    ensures (KeepsSign(p, t) == KeepsSign(Toggle(p, t), u)) == (KeepsSign(p, u) == KeepsSign(Toggle(p, u), t))
            <==> !Anticommute(t, u)
  {
  }

  /** Two neighbours may be swapped; the sign flips exactly when they anticommute. */
  lemma Swapped(g: History, t: Twist, u: Twist)
    ensures ParitiesOf(g + [t, u]) == ParitiesOf(g + [u, t])
    ensures FoldPositive(g + [t, u]) == FoldPositive(g + [u, t]) <==> !Anticommute(t, u)
  {
    hide Toggle, KeepsSign, ParitiesOf, FoldPositive, Anticommute;
    assert g + [t, u] == g + [t] + [u] && g + [u, t] == g + [u] + [t];
    FoldSnoc(g, t);
    FoldSnoc(g + [t], u);
    FoldSnoc(g, u);
    FoldSnoc(g + [u], t);
    SwapSigns(ParitiesOf(g), t, u);
  }

  /** Passing two twists it anticommutes with, a twist keeps the sign. */
  lemma PassedTwo(g: History, t: Twist, u: Twist, x: Twist)
    requires Anticommute(t, u) && Anticommute(t, x)
    ensures SameFold(g + [t, u, x], g + [u, x, t])
  {
    hide Toggle, KeepsSign, ParitiesOf, FoldPositive, Anticommute;
    Swapped(g, t, u);
    FoldSnoc(g + [t, u], x);
    FoldSnoc(g + [u, t], x);
    Swapped(g + [u], t, x);
    assert g + [t, u] + [x] == g + [t, u, x] && g + [u, t] + [x] == g + [u] + [t, x] &&
           g + [u] + [x, t] == g + [u, x, t];
  }

  // Where the two orders come apart

  predicate Conflict(t: Twist, u: Twist) { (Symbol(t) < Symbol(u)) != (Digit(t) < Digit(u)) }

  lemma FirstTwistDecides(seed: History, u: History, w: History)
    requires |u| == |w| > 0 && Conflict(u[0], w[0]) && u[0] != w[0]
    ensures CodeLess(seed + u, seed + w) != LexLess(u, w)
  {
    CodeLessBehind(seed, u, w);
  }

  lemma AfterPair(need: Action, t: Twist, u: Twist)
    requires Reduces(need, t) && Reduces(need, u) && t != u
    ensures Reduces(After(need, t), u) && Free(After(After(need, t), u)) == Free(need) - 2
  {
    hide Free, After;
    AfterFree(need, t);
    StillReduces(need, t, u);
    AfterFree(After(need, t), u);
  }

  lemma StillReduces(need: Action, t: Twist, u: Twist)
    requires Reduces(need, t) && Reduces(need, u) && t != u
    ensures Reduces(After(need, t), u) && AxisOf(t) != AxisOf(u)
  {
  }

  lemma AfterCommutes(need: Action, t: Twist, u: Twist)
    ensures After(After(need, t), u) == After(After(need, u), t)
  {
    hide Unit;
  }

  lemma StartWith(need: Action, t: Twist, w: History)
    requires SignedAction(w) == After(need, t)
    ensures SignedAction([t] + w) == need
  {
    hide SignedAction, Unit;
    ActionConcat([t], w);
    ActionOfOne(t);
  }

  /** On the shortest completions of one phase, the two orders agree. */
  ghost predicate ComparatorAgrees(seed: History) {
    forall u, w :: Completes(seed, u) && Completes(seed, w) && PhaseOf(seed + u) == PhaseOf(seed + w) ==>
      (CodeLess(seed + u, seed + w) <==> LexLess(u, w))
  }

  lemma Disagrees(seed: History, u: History, w: History)
    requires Completes(seed, u) && Completes(seed, w) && SameFold(seed + u, seed + w)
    requires u != [] && w != [] && Conflict(u[0], w[0])
    ensures !ComparatorAgrees(seed)
  {
    hide SameFold, PhaseOf, CodeLess, LexLess, SignedAction, Need, Free;
    SamePhase(seed + u, seed + w);
    FirstTwistDecides(seed, u, w);
  }

  /** A gauge twist commutes with anything, so a conflict that involves one shows. */
  lemma GaugeConflict(seed: History, t: Twist, u: Twist)
    requires Reduces(Need(seed), t) && Reduces(Need(seed), u) && t != u && Conflict(t, u) && !Anticommute(t, u)
    ensures !ComparatorAgrees(seed)
  {
    hide SignedAction, Need, Free, After, Reduces, Conflict, Anticommute, SameFold, ResidualToTwists, ComparatorAgrees;
    var need := Need(seed);
    var rest := After(After(need, t), u);
    var r := ResidualToTwists(rest);
    AfterPair(need, t, u);
    AfterCommutes(need, t, u);
    ResidualSupplies(rest);
    StartWith(After(need, t), u, r);
    StartWith(need, t, [u] + r);
    StartWith(After(need, u), t, r);
    StartWith(need, u, [t] + r);
    var v, w := [t] + ([u] + r), [u] + ([t] + r);
    FloorIsNeed(seed);
    assert SameFold(seed + v, seed + w) by {
      SwapKeepsFold(seed, t, u);
      SameFoldBehind(seed + [t, u], seed + [u, t], r);
      assert seed + v == seed + [t, u] + r && seed + w == seed + [u, t] + r;
    }
    Disagrees(seed, v, w);
  }

  lemma SwapKeepsFold(g: History, t: Twist, u: Twist)
    requires !Anticommute(t, u)
    ensures SameFold(g + [t, u], g + [u, t])
  {
    hide ParitiesOf, FoldPositive;
    Swapped(g, t, u);
  }

  /** With a third wanted twist that `t` anticommutes with, so does a spatial conflict. */
  lemma SpatialConflict(seed: History, t: Twist, u: Twist, x: Twist)
    requires var need := Need(seed);
             Reduces(need, t) && Reduces(need, u) && t != u && Reduces(After(After(need, t), u), x)
    requires Conflict(t, u) && Anticommute(t, u) && Anticommute(t, x)
    ensures !ComparatorAgrees(seed)
  {
    hide SignedAction, Need, Free, After, Reduces, Conflict, Anticommute, SameFold, ResidualToTwists, ComparatorAgrees;
    var need := Need(seed);
    var rest := After(After(After(need, t), u), x);
    var r := ResidualToTwists(rest);
    AfterPair(need, t, u);
    AfterFree(After(After(need, t), u), x);
    AfterCommutes(need, t, u);
    AfterCommutes(After(need, u), t, x);
    ResidualSupplies(rest);
    StartWith(After(After(need, t), u), x, r);
    StartWith(After(need, t), u, [x] + r);
    StartWith(need, t, [u] + ([x] + r));
    StartWith(After(After(need, u), x), t, r);
    StartWith(After(need, u), x, [t] + r);
    StartWith(need, u, [x] + ([t] + r));
    var v, w := [t] + ([u] + ([x] + r)), [u] + ([x] + ([t] + r));
    FloorIsNeed(seed);
    assert SameFold(seed + v, seed + w) by {
      PassedTwo(seed, t, u, x);
      SameFoldBehind(seed + [t, u, x], seed + [u, x, t], r);
      assert seed + v == seed + [t, u, x] + r && seed + w == seed + [u, x, t] + r;
    }
    Disagrees(seed, v, w);
  }

  lemma ConflictIsMutual(t: Twist, u: Twist)
    requires t != u
    ensures Conflict(t, u) <==> Conflict(u, t)
  {
  }

  lemma Gauges(need: Action, t: Twist)
    requires need.l != 0 && Reduces(need, t) && AxisOf(t) != Gauge
    ensures var g := Wanted(Plus, Minus, need.l); Reduces(need, g) && g != t && Conflict(g, t) && !Anticommute(g, t)
  {
  }

  /** Something is still wanted. */
  lemma Wants(need: Action) returns (x: Twist)
    requires Free(need) > 0
    ensures Reduces(need, x)
  {
    if need.v != 0 {
      x := Wanted(Up, Down, need.v);
    } else if need.h != 0 {
      x := Wanted(Right, Left, need.h);
    } else if need.d != 0 {
      x := Wanted(Slash, BSlash, need.d);
    } else {
      x := Wanted(Plus, Minus, need.l);
    }
  }

  lemma SpatialThird(need: Action, t: Twist, u: Twist, x: Twist)
    requires need.l == 0 && Reduces(need, t) && Reduces(need, u) && t != u && Reduces(After(After(need, t), u), x)
    ensures Anticommute(t, u)
    ensures AxisOf(x) != AxisOf(t) ==> Anticommute(t, x)
    ensures AxisOf(x) == AxisOf(t) ==> x == t && Anticommute(u, x)
  {
  }

  lemma ConflictPair(need: Action) returns (t: Twist, u: Twist)
    requires !OrdersAgree(need)
    ensures Reduces(need, t) && Reduces(need, u) && t != u && Conflict(t, u)
  {
    hide Reduces;
    t, u :| Reduces(need, t) && Reduces(need, u) && !(Symbol(t) < Symbol(u) <==> Digit(t) < Digit(u));
  }

  predicate OnlyTwoTurns(need: Action) { need.l == 0 && Free(need) == 2 }

  lemma DisagreeWhenFree(seed: History)
    requires !OrdersAgree(Need(seed)) && !OnlyTwoTurns(Need(seed))
    ensures !ComparatorAgrees(seed)
  {
    hide SignedAction, Need, OrdersAgree, Conflict, Anticommute, Reduces, After, ComparatorAgrees, AxisOf, Free;
    var need := Need(seed);
    var t, u := ConflictPair(need);
    if !Anticommute(t, u) {
      GaugeConflict(seed, t, u);
    } else if need.l != 0 {
      Spatial(t, u);
      Gauges(need, t);
      GaugeConflict(seed, Wanted(Plus, Minus, need.l), t);
    } else {
      AfterPair(need, t, u);
      var x := Wants(After(After(need, t), u));
      SpatialThird(need, t, u, x);
      if AxisOf(x) != AxisOf(t) {
        SpatialConflict(seed, t, u, x);
      } else {
        ConflictIsMutual(t, u);
        AfterCommutes(need, t, u);
        SpatialThird(need, u, t, x);
        SpatialConflict(seed, u, t, x);
      }
    }
  }

  lemma Spatial(t: Twist, u: Twist)
    requires Anticommute(t, u)
    ensures AxisOf(t) != Gauge
  {
  }

  // Two turns left: the two words differ in phase

  lemma SignIsPhase(h: History)
    requires IsPairwiseBalanced(h)
    ensures PhaseOf(h) == if FoldPositive(h) then PosOne else NegOne
  {
    hide PauliFold, ParitiesOf, FoldPositive, SignedAction;
    BalancedParities(h);
    FoldNormalForm(h);
  }

  lemma PairIsSum(t: Twist, u: Twist)
    ensures SignedAction([t, u]) == AddAction(SignedAction([t]), SignedAction([u]))
  {
    hide SignedAction, Unit;
    assert [t, u] == [t] + [u];
    ActionConcat([t], [u]);
  }

  /** The second of two twists is what the first leaves wanted. */
  lemma LastWanted(t: Twist, u: Twist)
    ensures After(SignedAction([t, u]), t) == SignedAction([u])
  {
    hide Unit, SignedAction;
    PairIsSum(t, u);
    ActionOfOne(t);
  }

  predicate WantsOnly(need: Action, t: Twist) { forall u :: Reduces(need, u) <==> t == u }

  lemma UnitWantsOnly(t: Twist)
    ensures WantsOnly(Unit(t), t)
  {
  }

  lemma TwoTurnsShape(t: Twist, u: Twist, x: Twist, y: Twist, need: Action)
    requires need.l == 0 && WantsOnly(After(need, t), u) && WantsOnly(After(need, x), y)
    requires Reduces(need, t) && Reduces(need, u) && Reduces(need, x)
    requires t != x || u != y
    ensures x == u && y == t && Anticommute(t, u)
  {
    hide Unit, Free, After, Reduces, Anticommute;
    assert Reduces(After(need, x), y);
    if x != t {
      StillReduces(need, t, x);
      StillReduces(need, x, t);
      BothTurns(need, t, x);
    }
  }

  lemma BothTurns(need: Action, t: Twist, u: Twist)
    requires need.l == 0 && Reduces(need, t) && Reduces(need, u) && t != u
    ensures Anticommute(t, u)
  {
  }

  lemma AgreeOnTwoTurns(seed: History, u: History, w: History)
    requires OnlyTwoTurns(Need(seed)) && Completes(seed, u) && Completes(seed, w) && u != w
    ensures PhaseOf(seed + u) != PhaseOf(seed + w)
  {
    hide SignedAction, Need, PhaseOf, Free, Unit, FoldPositive, ParitiesOf, After, Anticommute, Reduces, WantsOnly;
    FloorIsNeed(seed);
    LastWanted(u[0], u[1]);
    LastWanted(w[0], w[1]);
    ActionOfOne(u[1]);
    ActionOfOne(w[1]);
    UnitWantsOnly(u[1]);
    UnitWantsOnly(w[1]);
    assert u == [u[0], u[1]] && w == [w[0], w[1]];
    CompletesWithWanted(seed, u, u[0]);
    CompletesWithWanted(seed, u, u[1]);
    CompletesWithWanted(seed, w, w[0]);
    TwoTurnsShape(u[0], u[1], w[0], w[1], Need(seed));
    Swapped(seed, u[0], u[1]);
    BalanceIsNeed(seed, u);
    BalanceIsNeed(seed, w);
    SignIsPhase(seed + u);
    SignIsPhase(seed + w);
  }

  lemma CompletesWithWanted(seed: History, w: History, t: Twist)
    requires Completes(seed, w) && t in w
    ensures Reduces(Need(seed), t)
  {
    hide SignedAction, Need, Reduces, Free;
    FloorIsNeed(seed);
    ShortestTwists(w, Need(seed), t);
  }

  lemma AgreeWhenAgreed(seed: History, u: History, w: History)
    requires OrdersAgree(Need(seed)) && Completes(seed, u) && Completes(seed, w)
    ensures CodeLess(seed + u, seed + w) <==> LexLess(u, w)
  {
    hide SignedAction, Need, Reduces, Free, OrdersAgree, CodeLess, LexLess;
    forall t | t in u || t in w
      ensures Reduces(Need(seed), t)
    {
      if t in u {
        CompletesWithWanted(seed, u, t);
      } else {
        CompletesWithWanted(seed, w, t);
      }
    }
    SameOrderOnWords(Need(seed), u, w);
    CodeLessBehind(seed, u, w);
  }

  /** On a position's shortest completions, the order by character code is TWIST_ORDER
      within each phase exactly when it is on the twists wanted, or when just two turns are. */
  lemma ComparatorAgreesIff(seed: History)
    ensures ComparatorAgrees(seed) <==> OrdersAgree(Need(seed)) || OnlyTwoTurns(Need(seed))
  {
    hide Completes, Need, OrdersAgree, OnlyTwoTurns, PhaseOf, CodeLess, LexLess;
    if OrdersAgree(Need(seed)) || OnlyTwoTurns(Need(seed)) {
      forall u, w | Completes(seed, u) && Completes(seed, w) && PhaseOf(seed + u) == PhaseOf(seed + w)
        ensures |u| == |w| && (CodeLess(seed + u, seed + w) <==> LexLess(u, w))
      {
        SameLength(seed, u, w);
        if OrdersAgree(Need(seed)) {
          AgreeWhenAgreed(seed, u, w);
        } else if u == w {
          CodeLessIrreflexive(seed + u);
          LexIrreflexive(u);
        } else {
          AgreeOnTwoTurns(seed, u, w);
        }
      }
    } else {
      DisagreeWhenFree(seed);
    }
  }

  lemma SameLength(seed: History, u: History, w: History)
    requires Completes(seed, u) && Completes(seed, w)
    ensures |u| == |w| == Floor(seed)
  {
    hide SignedAction, Need, Free;
  }

  // The winner

  /** Of the closures of its depth and phase, the first in TWIST_ORDER. */
  ghost predicate IsFirstInTwistOrder(job: Job, e: Closure) {
    && |e.cont| == e.depth
    && forall w :: Closes(job, w) && |w| == |e.cont| && w != e.cont && PhaseOf(job.seed + w) == e.phase ==>
       LexLess(e.cont, w)
  }

  /** The residual itself is the least depth. */
  lemma FloorIsLeastDepth(seed: History, minLen: int)
    requires 1 <= Floor(seed) && |seed| + Floor(seed) >= minLen
    ensures LeastDepth(seed, minLen) == Floor(seed) && !AlreadyClosed(seed, minLen)
  {
    hide SignedAction;
    NonZeroFloor(seed);
  }

  /** Closures of that depth are the shortest completions, and stray no further than the seed. */
  lemma FloorClosuresComplete(job: Job, w: History)
    requires 1 <= Floor(job.seed) && Closes(job, w) && |w| == Floor(job.seed)
    ensures Completes(job.seed, w) && MaxExcursion(job.seed + w) == LeastPeak(job.seed)
  {
    hide Closes, SignedAction, Need, MaxExcursion, LeastPeak, Free;
    var seed := job.seed;
    ClosuresReachFloor(job, w);
    NoNeedAtStart(seed);
    DescentKeepsExcursion(seed, w, |w|);
    assert w[..|w|] == w;
    LeastPeakIsLeast(seed, w);
  }

  /** The string order of the last tie-break is not TWIST_ORDER: from `v-` the words `^+`
      and `+^` both close with the same phase, `^+` is listed first, and `+^` is taken. */
  lemma TieBreakIsNotTwistOrder()
    ensures LexLess([Up, Plus], [Plus, Up])
    ensures var r := Solve([Down, Minus], MAX_DEPTH_CAP, MIN_ZFA_LENGTH); r.Win? && r.best.cont == [Plus, Up]
  {
    hide Solve, SignedAction, CodeLess, PauliScalarOf, Closes, Shallowest, LeastDepth, IsLeastAction, AlreadyClosed;
    var seed := [Down, Minus];
    ActionsOfExample();
    FloorIsLeastDepth(seed, MIN_ZFA_LENGTH);
    ShallowestFits(seed, MIN_ZFA_LENGTH);
    SolverTakesLeastAction(seed, MAX_DEPTH_CAP, MIN_ZFA_LENGTH);
    var e := Solve(seed, MAX_DEPTH_CAP, MIN_ZFA_LENGTH).best;
    ExampleTie(e);
  }

  lemma ExampleTie(e: Closure)
    requires IsLeastAction([Down, Minus], MIN_ZFA_LENGTH, e)
    ensures e.cont == [Plus, Up]
  {
    hide SignedAction, CodeLess, PauliFold, IsPauliClosed, MaxExcursion;
    var seed, w, job := [Down, Minus], [Plus, Up], Job([Down, Minus], MIN_ZFA_LENGTH, false);
    ActionsOfExample();
    BalanceIsNeed(seed, w);
    BalancedFoldsToSign(seed + w);
    assert Closes(job, w);
    ClosuresReachFloor(job, e.cont);
    FloorIsLeastDepth(seed, MIN_ZFA_LENGTH);
    FloorClosuresComplete(job, w);
    if e.cont != w {
      assert TieGoesTo(e, ClosureOf(seed, w));
      ExampleFold();
      assert CodeLess(seed + e.cont, seed + w);
      assert |e.cont| == 2 && SignedAction(e.cont) == Action(1, 0, 0, 1);
      OnlyTwoWords(e.cont);
      NotBeforeInCode(e.cont, w);
    }
  }

  lemma OnlyTwoTwists(t: Twist, u: Twist)
    requires Unit(t).v + Unit(u).v == 1 && Unit(t).l + Unit(u).l == 1
    ensures (t == Up && u == Plus) || (t == Plus && u == Up)
  {
  }

  lemma OnlyTwoWords(w: History)
    requires |w| == 2 && SignedAction(w) == Action(1, 0, 0, 1)
    ensures w == [Up, Plus] || w == [Plus, Up]
  {
    hide SignedAction, Unit;
    assert w == [w[0], w[1]];
    PairIsSum(w[0], w[1]);
    ActionOfOne(w[0]);
    ActionOfOne(w[1]);
    OnlyTwoTwists(w[0], w[1]);
  }

  lemma NotBeforeInCode(u: History, w: History)
    requires u == [Up, Plus] && w == [Plus, Up]
    ensures !CodeLess([Down, Minus] + u, [Down, Minus] + w)
  {
    var a, b := [Down, Minus] + u, [Down, Minus] + w;
    assert a[1..] == [Minus] + u && b[1..] == [Minus] + w;
    assert a[1..][1..] == u && b[1..][1..] == w;
    assert CodeLess(a, b) == CodeLess(a[1..], b[1..]);
    assert CodeLess(a[1..], b[1..]) == CodeLess(u, w);
  }

  lemma ExampleFold()
    ensures PhaseOf([Down, Minus] + [Plus, Up]) == PosOne
  {
    var h := [Down, Minus] + [Plus, Up];
    assert h[..3] == [Down, Minus, Plus] && h[..3][..2] == [Down, Minus] && h[..3][..2][..1] == [Down];
    assert PauliFold(h[..3][..2][..1]) == TwistMatrix(Down);
    assert PauliFold(h[..3][..2]) == TwistMatrix(Up);
    assert PauliFold(h[..3]) == TwistMatrix(Up);
    assert PauliFold(h) == IDENTITY;
  }

  lemma ActionsOfExample()
    ensures SignedAction([Down, Minus]) == Action(-1, 0, 0, -1)
    ensures SignedAction([Plus, Up]) == Action(1, 0, 0, 1)
  {
    hide SignedAction;
    PairIsSum(Down, Minus);
    PairIsSum(Plus, Up);
    ActionOfOne(Down);
    ActionOfOne(Minus);
    ActionOfOne(Plus);
    ActionOfOne(Up);
  }
}
