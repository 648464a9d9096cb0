/** Where the solver's cap of 5000 ranked events can do no harm. */
module CapBound {
  import opened Permutations
  import opened Twists
  import opened Pauli
  import opened Histories
  import opened Closures
  import opened Enumerator
  import opened Solver
  import opened Solving
  import opened LeastAction
  import opened EventCap
  import opened TieBreaks

  // Counting the words that supply a residual

  /** All words of length `n` that supply `need`. */
  function AllPaths(n: nat, need: Action): seq<History>
    decreases n, 1
  {
    if n == 0 then if need == NO_ACTION then [[]] else []
    else
      Via(n, need, Up) + Via(n, need, Down) + Via(n, need, Right) + Via(n, need, Left) +
      Via(n, need, Slash) + Via(n, need, BSlash) + Via(n, need, Plus) + Via(n, need, Minus)
  }

  function Via(n: nat, need: Action, t: Twist): seq<History>
    requires n >= 1
    decreases n, 0
  {
    Prepend(t, AllPaths(n - 1, After(need, t)))
  }

  lemma InPaths(n: nat, need: Action, t: Twist, w: History)
    requires n >= 1 && w in Via(n, need, t)
    ensures w in AllPaths(n, need)
  {
    hide Via;
    match t
    case Up =>
    case Down =>
    case Right =>
    case Left =>
    case Slash =>
    case BSlash =>
    case Plus =>
    case Minus =>
  }

  lemma {:induction false} PathsHoldAll(w: History, need: Action)
    requires SignedAction(w) == need
    ensures w in AllPaths(|w|, need)
    ensures w != [] ==> w in Via(|w|, need, w[0])
  {
    hide SignedAction, After;
    if w != [] {
      var t, rest := w[0], w[1..];
      RestSupplies(w, need);
      PathsHoldAll(rest, After(need, t));
      assert w == [t] + rest;
      InPaths(|w|, need, t, w);
    } else {
      EmptyAction();
      assert w == [];
    }
  }

  lemma RestSupplies(w: History, need: Action)
    requires w != [] && SignedAction(w) == need
    ensures SignedAction(w[1..]) == After(need, w[0])
  {
    hide SignedAction, Unit;
    ActionCons(w);
  }

  function Lifted(x: int): nat { if x == 0 then 0 else 1 }

  /** The number of axes a residual lies on. */
  function Axes(need: Action): nat { Lifted(need.v) + Lifted(need.h) + Lifted(need.d) + Lifted(need.l) }

  /** At most so many words of length `n` supply a residual of size `f` on `k` axes. */
  function PathBound(n: nat, f: nat, k: nat): nat
    decreases n, 1
  {
    if f > n || k > f || k > 4 then 0
    else if n == 0 then 1
    else k * (Lowered(n, f, k) + PathBound(n - 1, f + 1, k)) + 2 * (4 - k) * PathBound(n - 1, f + 1, k + 1)
  }

  function Lowered(n: nat, f: nat, k: nat): nat
    requires n >= 1
    decreases n, 0
  {
    if f == 0 || k == 0 then 0 else Max(PathBound(n - 1, f - 1, k), PathBound(n - 1, f - 1, k - 1))
  }

  lemma AfterAxes(need: Action, t: Twist)
    ensures Axes(need) <= Min(4, Free(need))
    ensures Reduces(need, t) ==>
            Axes(need) >= 1 && Free(need) >= 1 && Axes(After(need, t)) in {Axes(need), Axes(need) - 1}
  {
  }

  /** The two twists of one axis: one brings the residual down and one up, or both open the axis. */
  lemma PairWithin(n: nat, need: Action, t: Twist, u: Twist)
    requires n >= 1 && Opposites(t, u)
    requires |Via(n, need, t)| <= PathBound(n - 1, Free(After(need, t)), Axes(After(need, t)))
    requires |Via(n, need, u)| <= PathBound(n - 1, Free(After(need, u)), Axes(After(need, u)))
    ensures var f, k := Free(need), Axes(need);
            |Via(n, need, t)| + |Via(n, need, u)| <=
            if Reduces(need, t) || Reduces(need, u) then Lowered(n, f, k) + PathBound(n - 1, f + 1, k)
            else 2 * PathBound(n - 1, f + 1, k + 1)
  {
    hide Via, PathBound, Free, Axes, After, Opposites, Reduces;
    AfterFree(need, t);
    AfterFree(need, u);
    AfterAxes(need, t);
    AfterAxes(need, u);
    RaisedAxes(need, t, u);
  }

  lemma RaisedAxes(need: Action, t: Twist, u: Twist)
    requires Opposites(t, u)
    ensures !(Reduces(need, t) && Reduces(need, u))
    ensures Reduces(need, t) ==> Axes(After(need, u)) == Axes(need)
    ensures Reduces(need, u) ==> Axes(After(need, t)) == Axes(need)
    ensures !Reduces(need, t) && !Reduces(need, u) ==>
              Axes(After(need, t)) == Axes(need) + 1 && Axes(After(need, u)) == Axes(need) + 1
  {
    hide Axes, After, Reduces, Opposites, Size;
    SameSize(need, t, u);
    if !Reduces(need, t) {
      AxesRaised(need, t);
    }
    if !Reduces(need, u) {
      AxesRaised(need, u);
    }
  }

  /** A step away from the residual opens an axis exactly when there was nothing on it. */
  lemma AxesRaised(need: Action, t: Twist)
    requires !Reduces(need, t)
    ensures Axes(After(need, t)) == Axes(need) + (if Size(need, t) == 0 then 1 else 0)
  {
    hide Unit;
    var a, u := After(need, t), Unit(t);
    UnitOnAxis(t);
    assert a.v == need.v - u.v && a.h == need.h - u.h && a.d == need.d - u.d && a.l == need.l - u.l;
  }

  lemma UnitOnAxis(t: Twist)
    ensures var u := Unit(t);
            && (t == Up ==> u.v == 1) && (t == Down ==> u.v == -1) && (t != Up && t != Down ==> u.v == 0)
            && (t == Right ==> u.h == 1) && (t == Left ==> u.h == -1) && (t != Right && t != Left ==> u.h == 0)
            && (t == Slash ==> u.d == 1) && (t == BSlash ==> u.d == -1) && (t != Slash && t != BSlash ==> u.d == 0)
            && (t == Plus ==> u.l == 1) && (t == Minus ==> u.l == -1) && (t != Plus && t != Minus ==> u.l == 0)
  {
  }

  lemma {:induction false} PathsWithin(n: nat, need: Action)
    ensures |AllPaths(n, need)| <= PathBound(n, Free(need), Axes(need))
    decreases n, 1
  {
    hide PathBound, After, Via, Free, Axes, AllPaths;
    if n == 0 {
      NoPaths(need);
    } else if Free(need) > n {
      TooFar(n, need);
    } else {
      forall t: Twist
        ensures |Via(n, need, t)| <= PathBound(n - 1, Free(After(need, t)), Axes(After(need, t)))
      {
        ViaWithin(n, need, t);
      }
      SumWithin(n, need);
    }
  }

  lemma {:induction false} ViaWithin(n: nat, need: Action, t: Twist)
    requires n >= 1
    ensures |Via(n, need, t)| <= PathBound(n - 1, Free(After(need, t)), Axes(After(need, t)))
    decreases n, 0
  {
    hide PathBound, After, Free, Axes;
    PathsWithin(n - 1, After(need, t));
  }

  lemma SumWithin(n: nat, need: Action)
    requires 1 <= n && Free(need) <= n
    requires forall t: Twist :: |Via(n, need, t)| <= PathBound(n - 1, Free(After(need, t)), Axes(After(need, t)))
    ensures |AllPaths(n, need)| <= PathBound(n, Free(need), Axes(need))
  {
    hide PathBound, After, Via, Free, Axes, Reduces, Lowered, AllPaths;
    PairWithin(n, need, Up, Down);
    PairWithin(n, need, Right, Left);
    PairWithin(n, need, Slash, BSlash);
    PairWithin(n, need, Plus, Minus);
    AllPathsSum(n, need);
    AxesAreReduced(need);
    AfterAxes(need, Up);
    var f, k := Free(need), Axes(need);
    var s, o := Lowered(n, f, k) + PathBound(n - 1, f + 1, k), PathBound(n - 1, f + 1, k + 1);
    var p0, p1 := |Via(n, need, Up)| + |Via(n, need, Down)|, |Via(n, need, Right)| + |Via(n, need, Left)|;
    var p2, p3 := |Via(n, need, Slash)| + |Via(n, need, BSlash)|, |Via(n, need, Plus)| + |Via(n, need, Minus)|;
    FourPairs(k, s, o, p0, p1, p2, p3, Has(need, Up, Down), Has(need, Right, Left), Has(need, Slash, BSlash),
              Has(need, Plus, Minus));
    Unfolded(n, f, k, s, o);
  }

  lemma Unfolded(n: nat, f: nat, k: nat, s: nat, o: nat)
    requires 1 <= n && f <= n && k <= f && k <= 4
    requires s == Lowered(n, f, k) + PathBound(n - 1, f + 1, k) && o == PathBound(n - 1, f + 1, k + 1)
    ensures PathBound(n, f, k) == k * s + 2 * (4 - k) * o
  {
    hide Lowered;
  }

  predicate Has(need: Action, t: Twist, u: Twist) { Reduces(need, t) || Reduces(need, u) }

  lemma AxesAreReduced(need: Action)
    ensures Axes(need) == (if Has(need, Up, Down) then 1 else 0) + (if Has(need, Right, Left) then 1 else 0) +
                          (if Has(need, Slash, BSlash) then 1 else 0) + (if Has(need, Plus, Minus) then 1 else 0)
  {
    hide Has;
    HasAxis(need);
  }

  lemma HasAxis(need: Action)
    ensures Has(need, Up, Down) <==> need.v != 0
    ensures Has(need, Right, Left) <==> need.h != 0
    ensures Has(need, Slash, BSlash) <==> need.d != 0
    ensures Has(need, Plus, Minus) <==> need.l != 0
  {
  }

  lemma FourPairs(k: nat, s: nat, o: nat, p0: nat, p1: nat, p2: nat, p3: nat, b0: bool, b1: bool, b2: bool, b3: bool)
    requires k == (if b0 then 1 else 0) + (if b1 then 1 else 0) + (if b2 then 1 else 0) + (if b3 then 1 else 0)
    requires p0 <= (if b0 then s else 2 * o) && p1 <= (if b1 then s else 2 * o)
    requires p2 <= (if b2 then s else 2 * o) && p3 <= (if b3 then s else 2 * o)
    ensures p0 + p1 + p2 + p3 <= k * s + 2 * (4 - k) * o
  {
    if k == 0 {
    } else if k == 1 {
    } else if k == 2 {
    } else if k == 3 {
    }
  }

  lemma AllPathsSum(n: nat, need: Action)
    requires n >= 1
    ensures |AllPaths(n, need)| ==
            |Via(n, need, Up)| + |Via(n, need, Down)| + |Via(n, need, Right)| + |Via(n, need, Left)| +
            |Via(n, need, Slash)| + |Via(n, need, BSlash)| + |Via(n, need, Plus)| + |Via(n, need, Minus)|
  {
    hide Via;
  }

  lemma NoPaths(need: Action)
    ensures |AllPaths(0, need)| <= PathBound(0, Free(need), Axes(need))
  {
  }

  lemma {:induction false} TooFar(n: nat, need: Action)
    requires Free(need) > n
    ensures AllPaths(n, need) == []
    decreases n
  {
    if n > 0 {
      hide Free, After;
      forall t: Twist
        ensures Via(n, need, t) == []
      {
        AfterFree(need, t);
        TooFar(n - 1, After(need, t));
      }
    }
  }

  lemma Rise(n: nat, f: nat, k: nat)
    requires 1 <= n && 1 <= f <= n && k <= f && k <= 4
    ensures k >= 1 ==>
              PathBound(n, f, k) ==
              k * (Max(PathBound(n - 1, f - 1, k), PathBound(n - 1, f - 1, k - 1)) + PathBound(n - 1, f + 1, k)) +
              2 * (4 - k) * PathBound(n - 1, f + 1, k + 1)
    ensures k == 0 ==> PathBound(n, f, k) == 8 * PathBound(n - 1, f + 1, 1)
  {
  }

  lemma RiseFromNothing(n: nat)
    requires n >= 1
    ensures PathBound(n, 0, 0) == 8 * PathBound(n - 1, 1, 1)
  {
  }

  lemma Void(n: nat, f: nat, k: nat)
    requires f > n || k > f || k > 4
    ensures PathBound(n, f, k) == 0
  {
  }

  lemma TwoDeep()
    ensures PathBound(2, 0, 0) == 8 && PathBound(2, 2, 0) == 0 && PathBound(2, 2, 1) == 1 && PathBound(2, 2, 2) == 2
  {
    hide PathBound;
    OneDeep();
    RiseFromNothing(2);
    Rise(2, 2, 0);
    Rise(2, 2, 1);
    Rise(2, 2, 2);
    Void(1, 1, 2);
    Void(1, 3, 1);
    Void(1, 3, 2);
    Void(1, 3, 3);
  }

  lemma OneDeep()
    ensures PathBound(1, 1, 0) == 0 && PathBound(1, 1, 1) == 1
  {
  }

  lemma ThreeDeep()
    ensures PathBound(3, 1, 0) == 8 && PathBound(3, 1, 1) == 21 && PathBound(3, 3, 1) == 1
    ensures PathBound(3, 3, 2) == 4 && PathBound(3, 3, 3) == 6
  {
    hide PathBound;
    TwoDeep();
    Rise(3, 1, 0);
    Rise(3, 1, 1);
    Rise(3, 3, 1);
    Rise(3, 3, 2);
    Rise(3, 3, 3);
    Void(2, 0, 1);
    Void(2, 2, 3);
    Void(2, 4, 1);
    Void(2, 4, 2);
    Void(2, 4, 3);
    Void(2, 4, 4);
  }

  lemma FourDeep()
    ensures PathBound(4, 0, 0) == 168 && PathBound(4, 2, 1) == 46 && PathBound(4, 2, 2) == 74
    ensures PathBound(4, 4, 1) == 1 && PathBound(4, 4, 2) == 8 && PathBound(4, 4, 3) == 18 && PathBound(4, 4, 4) == 24
  {
    hide PathBound;
    ThreeDeep();
    RiseFromNothing(4);
    Rise(4, 2, 1);
    Rise(4, 2, 2);
    Void(3, 1, 2);
    FourFour();
  }

  lemma FourFour()
    ensures PathBound(4, 4, 1) == 1 && PathBound(4, 4, 2) == 8 && PathBound(4, 4, 3) == 18 && PathBound(4, 4, 4) == 24
  {
    hide PathBound;
    ThreeDeep();
    Rise(3, 3, 0);
    Rise(4, 4, 1);
    Rise(4, 4, 2);
    Rise(4, 4, 3);
    Rise(4, 4, 4);
    Void(2, 4, 1);
    Void(3, 3, 4);
    Void(3, 5, 1);
    Void(3, 5, 2);
    Void(3, 5, 3);
    Void(3, 5, 4);
    Void(3, 5, 5);
  }

  lemma FiveDeep()
    ensures PathBound(5, 1, 0) == 368 && PathBound(5, 1, 1) == 658
    ensures PathBound(5, 3, 1) == 95 && PathBound(5, 3, 2) == 236 && PathBound(5, 3, 3) == 324
    ensures PathBound(5, 5, 1) == 1 && PathBound(5, 5, 2) == 16 && PathBound(5, 5, 3) == 54 && PathBound(5, 5, 4) == 96
  {
    hide PathBound;
    FourDeep();
    Rise(5, 1, 0);
    Rise(5, 1, 1);
    Void(4, 0, 1);
    FiveThree();
    FiveFive();
  }

  lemma FiveThree()
    ensures PathBound(5, 3, 1) == 95 && PathBound(5, 3, 2) == 236 && PathBound(5, 3, 3) == 324
  {
    hide PathBound;
    FourDeep();
    Rise(4, 2, 0);
    ThreeDeep();
    Rise(5, 3, 1);
    Rise(5, 3, 2);
    Rise(5, 3, 3);
    Void(4, 2, 3);
  }

  lemma FiveFive()
    ensures PathBound(5, 5, 1) == 1 && PathBound(5, 5, 2) == 16 && PathBound(5, 5, 3) == 54 && PathBound(5, 5, 4) == 96
  {
    hide PathBound;
    FourDeep();
    Rise(4, 4, 0);
    Rise(5, 5, 1);
    Rise(5, 5, 2);
    Rise(5, 5, 3);
    Rise(5, 5, 4);
    Void(3, 5, 1);
    Void(4, 6, 1);
    Void(4, 6, 2);
    Void(4, 6, 3);
    Void(4, 6, 4);
    Void(4, 6, 5);
  }

  /** Six twists: at most 3084 ways to supply a residual of size 2 or 4. */
  lemma SixDeep(f: nat, k: nat)
    requires f == 2 || f == 4
    requires 1 <= k <= 4
    ensures PathBound(6, f, k) <= 3084
  {
    hide PathBound;
    FiveDeep();
    if k > f {
      Void(6, f, k);
    } else {
      Rise(6, f, k);
      Rise(5, 3, 0);
      FourDeep();
      Void(5, 1, 2);
      Void(5, 3, 4);
      Void(5, 5, 5);
    }
  }

  // Least depth six

  lemma ShallowestSupply(seed: History, minLen: int, w: History)
    requires !AlreadyClosed(seed, minLen) && w in Shallowest(seed, minLen)
    ensures SignedAction(w) == Need(seed) && |w| == LeastDepth(seed, minLen) && Closes(Job(seed, minLen, false), w)
  {
    hide SignedAction, Need, Closes, LeastDepth, Shallowest, AlreadyClosed;
    ShallowestAre(seed, minLen, w);
    ClosuresReachLeastDepth(seed, minLen, false, w);
  }

  lemma ShallowestAtSix(seed: History, minLen: int)
    requires !AlreadyClosed(seed, minLen) && LeastDepth(seed, minLen) == 6 && (Floor(seed) == 2 || Floor(seed) == 4)
    ensures |Shallowest(seed, minLen)| <= SOLVE_CONSIDER
  {
    hide SignedAction, Need, Closes, LeastDepth, Shallowest, AlreadyClosed, AllPaths, PathBound, Free;
    var s, need := Shallowest(seed, minLen), Need(seed);
    FloorIsNeed(seed);
    forall w | w in s
      ensures w in AllPaths(6, need)
    {
      ShallowestSupply(seed, minLen, w);
      PathsHoldAll(w, need);
    }
    ShallowestDistinct(seed, minLen);
    DistinctFits(s, AllPaths(6, need));
    PathsWithin(6, need);
    NotNothing(need);
    SixDeep(Free(need), Axes(need));
  }

  lemma NotNothing(need: Action)
    requires Free(need) >= 1
    ensures 1 <= Axes(need) <= 4
  {
  }

  /** Each gauge twist turned into the other. */
  function Mirror(w: History): (m: History)
    ensures |m| == |w|
  {
    if w == [] then [] else Mirror(w[..|w| - 1]) + [Flip(w[|w| - 1])]
  }

  function Flip(t: Twist): Twist {
    match t
    case Plus => Minus
    case Minus => Plus
    case _ => t
  }

  function Turned(a: Action): Action { Action(a.v, a.h, a.d, 0 - a.l) }

  function GaugeOdd(w: History): bool {
    if w == [] then false else GaugeOdd(w[..|w| - 1]) != (w[|w| - 1] == Plus || w[|w| - 1] == Minus)
  }

  lemma FlipActs(a: Action, t: Twist)
    ensures Step(Turned(a), Flip(t)) == Turned(Step(a, t)) && Free(Turned(a)) == Free(a)
    ensures AxisOf(Flip(t)) == AxisOf(t)
  {
  }

  /** Behind a balanced position, mirroring changes neither the excursion nor, if the gauge
      twists are even in number, the fold. */
  lemma {:induction false} MirrorKeeps(seed: History, w: History)
    requires SignedAction(seed) == NO_ACTION
    ensures SignedAction(seed + Mirror(w)) == Turned(SignedAction(seed + w))
    ensures MaxExcursion(seed + Mirror(w)) == MaxExcursion(seed + w)
    ensures ParitiesOf(seed + Mirror(w)) == ParitiesOf(seed + w)
    ensures FoldPositive(seed + Mirror(w)) == FoldPositive(seed + w) <==> !GaugeOdd(w)
  {
    hide SignedAction, MaxExcursion, ParitiesOf, FoldPositive, Step, Turned, Flip, Free, Toggle, KeepsSign;
    if w == [] {
      assert seed + Mirror(w) == seed && seed + w == seed;
      NothingTurned();
    } else {
      var g, t := w[..|w| - 1], w[|w| - 1];
      MirrorKeeps(seed, g);
      assert seed + w == seed + g + [t] && seed + Mirror(w) == seed + Mirror(g) + [Flip(t)];
      ExcursionSnoc(seed + g, t);
      ExcursionSnoc(seed + Mirror(g), Flip(t));
      FoldSnoc(seed + g, t);
      FoldSnoc(seed + Mirror(g), Flip(t));
      FlipActs(SignedAction(seed + g), t);
      FlipActs(SignedAction(seed + w), t);
      FlipFolds(ParitiesOf(seed + g), t);
    }
  }

  lemma NothingTurned()
    ensures Turned(NO_ACTION) == NO_ACTION
  {
  }

  lemma FlipFolds(p: Parities, t: Twist)
    ensures Toggle(p, Flip(t)) == Toggle(p, t)
    ensures KeepsSign(p, Flip(t)) == KeepsSign(p, t) <==> !(t == Plus || t == Minus)
  {
  }

  lemma {:induction false} GaugesCounted(w: History)
    ensures GaugeOdd(w) <==> Odd(Count(w, Plus) + Count(w, Minus))
  {
    hide Count, Odd;
    if w == [] {
      NothingCounted();
      OddNext(0);
    } else {
      var g := w[..|w| - 1];
      GaugesCounted(g);
      OddNext(Count(g, Plus) + Count(g, Minus));
      CountSnoc(w, Plus);
      CountSnoc(w, Minus);
    }
  }

  lemma MirrorFirst(w: History)
    requires w != []
    ensures Mirror(w)[0] == Flip(w[0]) && (w[0] == Minus ==> Mirror(w)[0] == Plus)
  {
    if |w| > 1 {
      MirrorFirst(w[..|w| - 1]);
    }
  }

  /** From a balanced position the least action never begins with `-`: its mirror image comes first. */
  lemma LeastBeginsEarly(seed: History, minLen: int, e: Closure)
    requires IsLeastAction(seed, minLen, e) && Floor(seed) == 0 && e.cont != []
    ensures e.cont[0] != Minus
  {
    hide SignedAction, Need, Free, Closes, MaxExcursion, CodeLess, PhaseOf, Mirror, LeastDepth, LeastPeak, GaugeOdd,
         Flip, FoldPositive, ParitiesOf, Count;
    var job, c := Job(seed, minLen, false), e.cont;
    var m := Mirror(c);
    NoNeed(seed);
    NothingFree(seed);
    MirrorKeeps(seed, c);
    ClosesIsBalanced(job, c);
    EvenGauges(c);
    SamePhase(seed + m, seed + c);
    MirrorCloses(job, c);
    MirrorFirst(c);
    MirrorAhead(seed, c);
    LeastBeats(seed, minLen, e, m);
  }

  lemma LeastBeats(seed: History, minLen: int, e: Closure, w: History)
    requires IsLeastAction(seed, minLen, e) && Closes(Job(seed, minLen, false), w) && |w| == e.depth
    requires MaxExcursion(seed + w) == MaxExcursion(e.history) && PhaseOf(seed + w) == PhaseOf(seed + e.cont)
    ensures w != e.cont ==> CodeLess(seed + e.cont, seed + w)
  {
    hide Closes, MaxExcursion, CodeLess, PhaseOf, LeastDepth, LeastPeak;
  }

  lemma NothingFree(seed: History)
    requires Free(SignedAction(seed)) == 0
    ensures SignedAction(seed) == NO_ACTION
  {
    hide SignedAction;
  }

  lemma ClosesIsBalanced(job: Job, w: History)
    requires Closes(job, w) && Need(job.seed) == NO_ACTION
    ensures SignedAction(w) == NO_ACTION
  {
    hide SignedAction, Need;
    BalanceIsNeed(job.seed, w);
  }

  lemma EvenGauges(w: History)
    requires SignedAction(w) == NO_ACTION
    ensures !GaugeOdd(w)
  {
    hide Count;
    GaugesCounted(w);
    EvenDouble(Count(w, Plus), Count(w, Minus));
  }

  lemma MirrorCloses(job: Job, w: History)
    requires Closes(job, w) && SignedAction(job.seed) == NO_ACTION
    ensures Closes(job, Mirror(w))
  {
    hide SignedAction, Mirror, MaxExcursion, Turned, FoldPositive, ParitiesOf, IsPauliClosed, PauliScalarOf;
    MirrorKeeps(job.seed, w);
    NothingTurned();
    BalancedFoldsToSign(job.seed + Mirror(w));
  }

  lemma MirrorAhead(seed: History, c: History)
    requires c != [] && (c[0] == Minus ==> Mirror(c)[0] == Plus)
    ensures c[0] == Minus ==> Mirror(c) != c && !CodeLess(seed + c, seed + Mirror(c))
  {
    hide Mirror;
    CodeLessBehind(seed, c, Mirror(c));
  }

  /** The words of length six that do not begin with `-`. */
  function Early(need: Action): seq<History> {
    Via(6, need, Up) + Via(6, need, Down) + Via(6, need, Right) + Via(6, need, Left) + Via(6, need, Slash) +
    Via(6, need, BSlash) + Via(6, need, Plus)
  }

  lemma InEarly(need: Action, w: History)
    requires w != [] && w[0] != Minus && w in Via(6, need, w[0])
    ensures w in Early(need)
  {
    hide Via;
    match w[0]
    case Up =>
    case Down =>
    case Right =>
    case Left =>
    case Slash =>
    case BSlash =>
    case Plus =>
  }

  lemma EarlyAreFew(need: Action)
    requires Free(need) == 0
    ensures |Early(need)| <= 4606
  {
    hide Via, PathBound, After, Free, Axes, Reduces;
    FiveDeep();
    forall t: Twist
      ensures |Via(6, need, t)| <= 658
    {
      ViaWithin(6, need, t);
      NothingWanted(need, t);
      AfterFree(need, t);
      SizeOne(After(need, t));
    }
  }

  lemma NothingWanted(need: Action, t: Twist)
    requires Free(need) == 0
    ensures !Reduces(need, t)
  {
  }

  lemma SizeOne(a: Action)
    requires Free(a) == 1
    ensures Axes(a) == 1
  {
  }

  /** What comes before a word in TWIST_ORDER does not begin with `-` unless it does. */
  lemma EarlierBeginsEarly(seed: History, minLen: int, i: nat, j: nat)
    requires !AlreadyClosed(seed, minLen)
    requires j <= i < |Shallowest(seed, minLen)| && Shallowest(seed, minLen)[i] != []
    requires Shallowest(seed, minLen)[i][0] != Minus
    ensures var w := Shallowest(seed, minLen)[j]; |w| == |Shallowest(seed, minLen)[i]| && w[0] != Minus
  {
    hide LeastDepth, Search, AlreadyClosed, SignedAction, Need, Closes;
    var s := Shallowest(seed, minLen);
    assert s[i] in s && s[j] in s;
    ShallowestSupply(seed, minLen, s[i]);
    ShallowestSupply(seed, minLen, s[j]);
    if j < i {
      SearchOrdered(Job(seed, minLen, true), LeastDepth(seed, minLen), j, i);
      DigitAtMost(s[j][0], s[i][0]);
    }
  }

  lemma DigitAtMost(t: Twist, u: Twist)
    ensures u != Minus && Digit(t) <= Digit(u) ==> t != Minus
  {
  }

  lemma EarlierIsEarly(seed: History, minLen: int, i: nat, w: History)
    requires !AlreadyClosed(seed, minLen) && LeastDepth(seed, minLen) == 6
    requires i < |Shallowest(seed, minLen)| && Shallowest(seed, minLen)[i] != []
    requires Shallowest(seed, minLen)[i][0] != Minus && w in Shallowest(seed, minLen)[..i + 1]
    ensures w in Early(Need(seed))
  {
    hide LeastDepth, Shallowest, AlreadyClosed, SignedAction, Need, Closes, Early, Via;
    var s := Shallowest(seed, minLen);
    var j :| 0 <= j < i + 1 && s[j] == w;
    EarlierBeginsEarly(seed, minLen, i, j);
    assert w in s;
    ShallowestSupply(seed, minLen, w);
    PathsHoldAll(w, Need(seed));
    InEarly(Need(seed), w);
  }

  lemma EarlyIndex(seed: History, minLen: int, i: nat)
    requires !AlreadyClosed(seed, minLen) && LeastDepth(seed, minLen) == 6 && Floor(seed) == 0
    requires i < |Shallowest(seed, minLen)| && Shallowest(seed, minLen)[i] != []
    requires Shallowest(seed, minLen)[i][0] != Minus
    ensures i < SOLVE_CONSIDER
  {
    hide LeastDepth, Shallowest, AlreadyClosed, SignedAction, Need, Closes, Early, Distinct, Free;
    NoNeed(seed);
    forall w | w in Shallowest(seed, minLen)[..i + 1]
      ensures w in Early(Need(seed))
    {
      EarlierIsEarly(seed, minLen, i, w);
    }
    ShallowestDistinct(seed, minLen);
    FirstDistinct(Shallowest(seed, minLen), i + 1);
    DistinctFits(Shallowest(seed, minLen)[..i + 1], Early(Need(seed)));
    EarlyAreFew(Need(seed));
  }

  lemma FirstDistinct(ws: seq<History>, n: nat)
    requires Distinct(ws) && n <= |ws|
    ensures Distinct(ws[..n])
  {
  }

  /** At least depth six the cap does no harm: the least action is among the first 5000. */
  lemma HarmlessAtSix(seed: History, minLen: int) returns (i: nat)
    requires !AlreadyClosed(seed, minLen) && LeastDepth(seed, minLen) == 6
    ensures i < SOLVE_CONSIDER && LeastAt(seed, minLen, Shallowest(seed, minLen), i)
  {
    hide LeastDepth, Shallowest, AlreadyClosed, IsLeastAction, Floor, ClosureOf;
    i := LeastExists(seed, minLen);
    FloorAtSix(seed, minLen);
    if Floor(seed) == 0 {
      var w := Shallowest(seed, minLen)[i];
      assert w in Shallowest(seed, minLen);
      ShallowestSupply(seed, minLen, w);
      ContOf(seed, w);
      LeastBeginsEarly(seed, minLen, ClosureOf(seed, w));
      EarlyIndex(seed, minLen, i);
    } else if Floor(seed) == 6 {
      ShallowestFits(seed, minLen);
    } else {
      ShallowestAtSix(seed, minLen);
    }
  }

  lemma FloorAtSix(seed: History, minLen: int)
    requires LeastDepth(seed, minLen) == 6
    ensures Floor(seed) in {0, 2, 4, 6}
  {
    hide Floor;
  }

  // Least depth seven, a residual of size five

  function Product4(a: nat, b: nat, c: nat, d: nat): nat {
    Factorial(a) * (Factorial(b) * (Factorial(c) * Factorial(d)))
  }

  function Orders(need: Action): nat { Product4(Abs(need.v), Abs(need.h), Abs(need.d), Abs(need.l)) }

  lemma Product4Steps(a: nat, b: nat, c: nat, d: nat)
    ensures a >= 1 ==> Product4(a, b, c, d) == a * Product4(a - 1, b, c, d)
    ensures b >= 1 ==> Product4(a, b, c, d) == b * Product4(a, b - 1, c, d)
    ensures c >= 1 ==> Product4(a, b, c, d) == c * Product4(a, b, c - 1, d)
    ensures d >= 1 ==> Product4(a, b, c, d) == d * Product4(a, b, c, d - 1)
  {
    hide Product4;
    if a >= 1 {
      FirstFactor(a, b, c, d);
    }
    if b >= 1 {
      SecondFactor(a, b, c, d);
    }
    if c >= 1 {
      ThirdFactor(a, b, c, d);
    }
    if d >= 1 {
      FourthFactor(a, b, c, d);
    }
  }

  lemma FirstFactor(a: nat, b: nat, c: nat, d: nat)
    requires a >= 1
    ensures Product4(a, b, c, d) == a * Product4(a - 1, b, c, d)
  {
    hide Factorial;
    FactorialStep(a);
    Regroup(a, Factorial(a - 1), Factorial(b) * (Factorial(c) * Factorial(d)));
  }

  lemma SecondFactor(a: nat, b: nat, c: nat, d: nat)
    requires b >= 1
    ensures Product4(a, b, c, d) == b * Product4(a, b - 1, c, d)
  {
    hide Factorial;
    FactorialStep(b);
    Regroup(b, Factorial(b - 1), Factorial(c) * Factorial(d));
    Move(Factorial(a), b, Factorial(b - 1) * (Factorial(c) * Factorial(d)));
  }

  lemma ThirdFactor(a: nat, b: nat, c: nat, d: nat)
    requires c >= 1
    ensures Product4(a, b, c, d) == c * Product4(a, b, c - 1, d)
  {
    hide Factorial;
    FactorialStep(c);
    Regroup(c, Factorial(c - 1), Factorial(d));
    Move(Factorial(b), c, Factorial(c - 1) * Factorial(d));
    Move(Factorial(a), c, Factorial(b) * (Factorial(c - 1) * Factorial(d)));
  }

  lemma FourthFactor(a: nat, b: nat, c: nat, d: nat)
    requires d >= 1
    ensures Product4(a, b, c, d) == d * Product4(a, b, c, d - 1)
  {
    hide Factorial;
    FactorialStep(d);
    Move(Factorial(c), d, Factorial(d - 1));
    Move(Factorial(b), d, Factorial(c) * Factorial(d - 1));
    Move(Factorial(a), d, Factorial(b) * (Factorial(c) * Factorial(d - 1)));
  }

  lemma Regroup(x: nat, y: nat, z: nat)
    ensures (x * y) * z == x * (y * z)
  {
  }

  lemma Move(x: nat, y: nat, z: nat)
    ensures x * (y * z) == y * (x * z)
  {
  }

  function Size(need: Action, t: Twist): nat {
    match t
    case Up | Down => Abs(need.v)
    case Right | Left => Abs(need.h)
    case Slash | BSlash => Abs(need.d)
    case Plus | Minus => Abs(need.l)
  }

  lemma OrdersStep(need: Action, t: Twist)
    requires Reduces(need, t)
    ensures Orders(need) == Size(need, t) * Orders(After(need, t))
  {
    hide Product4;
    Product4Steps(Abs(need.v), Abs(need.h), Abs(need.d), Abs(need.l));
  }

  /** A residual of size `n` is supplied in `n` steps in as many ways as the multinomial says. */
  lemma {:induction false} DescentsCount(n: nat, need: Action)
    requires Free(need) == n
    ensures |Descents(n, need)| * Orders(need) == Factorial(n)
    decreases n, 1
  {
    hide Through, Orders, Reduces, Free, Factorial, Size;
    if n == 0 {
      NothingToOrder(need);
    } else {
      PairCount(n, need, Up, Down);
      PairCount(n, need, Right, Left);
      PairCount(n, need, Slash, BSlash);
      PairCount(n, need, Plus, Minus);
      var o, f := Orders(need), Factorial(n - 1);
      var p0, p1 :=
        |Through(n, need, Up)| + |Through(n, need, Down)|, |Through(n, need, Right)| + |Through(n, need, Left)|;
      var p2, p3 :=
        |Through(n, need, Slash)| + |Through(n, need, BSlash)|, |Through(n, need, Plus)| + |Through(n, need, Minus)|;
      SumTimes(p0, p1, p2, p3, o);
      SumTimes(Size(need, Up), Size(need, Right), Size(need, Slash), Size(need, Plus), f);
      SizesAddUp(need);
      FactorialStep(n);
    }
  }

  lemma NothingToOrder(need: Action)
    requires Free(need) == 0
    ensures Orders(need) == 1 == Factorial(0)
  {
    hide Factorial;
    assert Abs(need.v) == 0 && Abs(need.h) == 0 && Abs(need.d) == 0 && Abs(need.l) == 0;
    FactorialOfNothing();
  }

  lemma FactorialOfNothing()
    ensures Factorial(0) == 1
  {
  }

  lemma SizesAddUp(need: Action)
    ensures Size(need, Up) + Size(need, Right) + Size(need, Slash) + Size(need, Plus) == Free(need)
  {
  }

  lemma FactorialStep(n: nat)
    requires n >= 1
    ensures Factorial(n) == n * Factorial(n - 1)
  {
  }

  lemma SumTimes(a: nat, b: nat, c: nat, d: nat, o: nat)
    ensures (a + b + c + d) * o == a * o + b * o + c * o + d * o
  {
  }

  lemma {:induction false} PairCount(n: nat, need: Action, t: Twist, u: Twist)
    requires n >= 1 && Free(need) == n && Opposites(t, u)
    ensures (|Through(n, need, t)| + |Through(n, need, u)|) * Orders(need) == Size(need, t) * Factorial(n - 1)
    decreases n, 0
  {
    hide Orders, Reduces, Free, Factorial, Size, After, Opposites;
    AfterFree(need, t);
    AfterFree(need, u);
    RaisedAxes(need, t, u);
    SameSize(need, t, u);
    if Reduces(need, t) {
      OrdersStep(need, t);
      DescentsCount(n - 1, After(need, t));
      Move(|Descents(n - 1, After(need, t))|, Size(need, t), Orders(After(need, t)));
    } else if Reduces(need, u) {
      OrdersStep(need, u);
      DescentsCount(n - 1, After(need, u));
      Move(|Descents(n - 1, After(need, u))|, Size(need, u), Orders(After(need, u)));
    }
  }

  lemma SameSize(need: Action, t: Twist, u: Twist)
    requires Opposites(t, u)
    ensures Size(need, t) == Size(need, u) && !(Reduces(need, t) && Reduces(need, u))
    ensures !Reduces(need, t) && !Reduces(need, u) <==> Size(need, t) == 0
  {
  }

  /** A lower bound of the factorial. */
  function Least(x: nat): nat { if x <= 1 then 1 else if x == 2 then 2 else 6 }

  lemma {:induction false} FactorialAtLeast(x: nat)
    ensures Factorial(x) >= Least(x)
  {
    if x > 3 {
      FactorialAtLeast(x - 1);
      assert Factorial(x) == x * Factorial(x - 1) >= 1 * Factorial(x - 1);
    } else {
      assert Factorial(1) == 1 && Factorial(2) == 2;
    }
  }

  lemma ProductAtLeast(a: nat, b: nat, c: nat, d: nat)
    ensures Product4(a, b, c, d) >= Least(a) * (Least(b) * (Least(c) * Least(d)))
  {
    hide Factorial, Least;
    FactorialAtLeast(a);
    FactorialAtLeast(b);
    FactorialAtLeast(c);
    FactorialAtLeast(d);
    Larger(Factorial(c), Least(c), Factorial(d), Least(d));
    Larger(Factorial(b), Least(b), Factorial(c) * Factorial(d), Least(c) * Least(d));
    Larger(Factorial(a), Least(a), Factorial(b) * (Factorial(c) * Factorial(d)), Least(b) * (Least(c) * Least(d)));
  }

  lemma Larger(x: nat, y: nat, u: nat, v: nat)
    requires x >= y && u >= v
    ensures x * u >= y * v
  {
    assert x * u >= y * u >= y * v;
  }

  lemma LeastProduct(a: nat, b: nat, c: nat, d: nat)
    requires a + b + c + d == 6
    ensures Least(a) * (Least(b) * (Least(c) * Least(d))) >= 4
    ensures a >= 3 || b >= 3 || c >= 3 || d >= 3 ==> Least(a) * (Least(b) * (Least(c) * Least(d))) >= 6
  {
    var x, y := Least(c) * Least(d), Least(b) * (Least(c) * Least(d));
    assert c >= 3 ==> x >= 6 * Least(d);
    assert d >= 3 ==> x == Least(c) * 6;
    assert c == 2 ==> x >= 2 * Least(d);
    assert c <= 1 ==> x == Least(d);
    assert b >= 3 ==> y == 6 * x;
    assert b == 2 ==> y == 2 * x;
    assert b <= 1 ==> y == x;
    assert a >= 3 ==> Least(a) * y == 6 * y;
    assert a == 2 ==> Least(a) * y == 2 * y;
    assert a <= 1 ==> Least(a) * y == y;
  }

  /** Six steps: at most 180 ways, and at most 120 with three of a kind. */
  lemma SixStepsDown(need: Action)
    requires Free(need) == 6
    ensures |Descents(6, need)| <= 180
    ensures Abs(need.v) >= 3 || Abs(need.h) >= 3 || Abs(need.d) >= 3 || Abs(need.l) >= 3 ==> |Descents(6, need)| <= 120
  {
    hide Descents, Product4, Least;
    DescentsCount(6, need);
    FactorialsOfFiveAndSix();
    ProductAtLeast(Abs(need.v), Abs(need.h), Abs(need.d), Abs(need.l));
    LeastProduct(Abs(need.v), Abs(need.h), Abs(need.d), Abs(need.l));
    Quotient(|Descents(6, need)|, Orders(need));
  }

  lemma Quotient(n: nat, o: nat)
    requires n * o == 720
    ensures o >= 4 ==> n <= 180
    ensures o >= 6 ==> n <= 120
  {
    if o >= 4 {
      assert n * 4 <= n * o;
    }
    if o >= 6 {
      assert n * 6 <= n * o;
    }
  }

  /** The twist of an axis that leads away from the residual. */
  function Against(plus: Twist, minus: Twist, n: int): Twist { if n > 0 then minus else plus }

  /** One for each axis. */
  predicate Awry(need: Action, t: Twist) {
    || t == Against(Up, Down, need.v) || t == Against(Right, Left, need.h)
    || t == Against(Slash, BSlash, need.d) || t == Against(Plus, Minus, need.l)
  }

  /** A word two longer than its residual takes one step awry. */
  lemma StepAwry(w: History, need: Action) returns (p: nat)
    requires SignedAction(w) == need && |w| == Free(need) + 2
    ensures p < |w| && Awry(need, w[p])
  {
    hide Count;
    LengthIsCounts(w);
    var a, b := Against(Up, Down, need.v), Against(Right, Left, need.h);
    var c, d := Against(Slash, BSlash, need.d), Against(Plus, Minus, need.l);
    assert Count(w, a) + Count(w, b) + Count(w, c) + Count(w, d) > 0;
    var t := if Count(w, a) > 0 then a else if Count(w, b) > 0 then b else if Count(w, c) > 0 then c else d;
    assert t in w by { Occurs(w, t); }
    p :| 0 <= p < |w| && w[p] == t;
  }

  lemma Occurs(w: History, t: Twist)
    requires Count(w, t) > 0
    ensures t in w
  {
    assert t in multiset(w);
  }

  lemma AwryRaises(need: Action, t: Twist)
    requires Awry(need, t)
    ensures !Reduces(need, t)
  {
  }

  function Inserted(u: History, p: nat, t: Twist): History { if p <= |u| then u[..p] + [t] + u[p..] else u }

  function InsertedAt(ws: seq<History>, p: nat, t: Twist): (r: seq<History>)
    ensures |r| == |ws| && forall i :: 0 <= i < |ws| ==> r[i] == Inserted(ws[i], p, t)
  {
    seq(|ws|, i requires 0 <= i < |ws| => Inserted(ws[i], p, t))
  }

  /** The words with `t` put in at one of the first `n` places. */
  function Spread(ws: seq<History>, t: Twist, n: nat): seq<History> {
    if n == 0 then [] else Spread(ws, t, n - 1) + InsertedAt(ws, n - 1, t)
  }

  lemma {:induction false} SpreadHolds(ws: seq<History>, t: Twist, n: nat, u: History, p: nat)
    requires u in ws && p < n
    ensures Inserted(u, p, t) in Spread(ws, t, n)
  {
    if p < n - 1 {
      SpreadHolds(ws, t, n - 1, u, p);
    } else {
      var i :| 0 <= i < |ws| && ws[i] == u;
      assert InsertedAt(ws, p, t)[i] == Inserted(u, p, t);
    }
  }

  lemma {:induction false} SpreadSize(ws: seq<History>, t: Twist, n: nat)
    ensures |Spread(ws, t, n)| == n * |ws|
  {
    if n != 0 {
      SpreadSize(ws, t, n - 1);
      assert n * |ws| == (n - 1) * |ws| + |ws|;
    }
  }

  function Detours(need: Action, t: Twist): seq<History> { Spread(Descents(6, After(need, t)), t, 7) }

  /** The words of length seven with one step awry. */
  function Crooked(need: Action): seq<History> {
    Detours(need, Against(Up, Down, need.v)) + Detours(need, Against(Right, Left, need.h)) +
    Detours(need, Against(Slash, BSlash, need.d)) + Detours(need, Against(Plus, Minus, need.l))
  }

  lemma TakenOut(w: History, p: nat, need: Action)
    requires p < |w| && SignedAction(w) == need
    ensures SignedAction(Without(w, p)) == After(need, w[p]) && |Without(w, p)| == |w| - 1
    ensures w == Inserted(Without(w, p), p, w[p])
  {
    hide SignedAction, Unit;
    assert w == w[..p] + [w[p]] + w[p + 1..];
    ActionConcat(w[..p] + [w[p]], w[p + 1..]);
    ActionConcat(w[..p], [w[p]]);
    ActionConcat(w[..p], w[p + 1..]);
    ActionOfOne(w[p]);
  }

  lemma InCrooked(w: History, need: Action)
    requires SignedAction(w) == need && |w| == 7 && Free(need) == 5
    ensures w in Crooked(need)
  {
    hide SignedAction, After, Free, Reduces, Descents, Spread, Inserted, Against;
    var p := StepAwry(w, need);
    var t, u := w[p], Without(w, p);
    TakenOut(w, p, need);
    AwryRaises(need, t);
    AfterFree(need, t);
    ShortestWordsDescend(u, After(need, t));
    SpreadHolds(Descents(6, After(need, t)), t, 7, u, p);
    assert w in Detours(need, t);
  }

  /** At most 4620 of them. */
  lemma CrookedAreFew(need: Action)
    requires Free(need) == 5
    ensures |Crooked(need)| <= 4620
  {
    hide SignedAction, Descents, Spread, After, Reduces;
    var a, b := Against(Up, Down, need.v), Against(Right, Left, need.h);
    var c, d := Against(Slash, BSlash, need.d), Against(Plus, Minus, need.l);
    DetoursFew(need, a);
    DetoursFew(need, b);
    DetoursFew(need, c);
    DetoursFew(need, d);
    assert Abs(need.v) >= 2 || Abs(need.h) >= 2 || Abs(need.d) >= 2 || Abs(need.l) >= 2;
  }

  lemma DetoursFew(need: Action, t: Twist)
    requires Free(need) == 5 && Awry(need, t)
    ensures |Detours(need, t)| <= 1260 && (Size(need, t) >= 2 ==> |Detours(need, t)| <= 840)
  {
    hide Free, Descents, Spread, Awry, Reduces;
    AwryRaises(need, t);
    AfterFree(need, t);
    SixStepsDown(After(need, t));
    SpreadSize(Descents(6, After(need, t)), t, 7);
    SizeRaised(need, t);
  }

  lemma SizeRaised(need: Action, t: Twist)
    requires Awry(need, t)
    ensures Size(need, t) >= 2 ==>
              var a := After(need, t); Abs(a.v) >= 3 || Abs(a.h) >= 3 || Abs(a.d) >= 3 || Abs(a.l) >= 3
  {
  }

  lemma ShallowestAtSeven(seed: History, minLen: int)
    requires !AlreadyClosed(seed, minLen) && LeastDepth(seed, minLen) == 7 && Floor(seed) == 5
    ensures |Shallowest(seed, minLen)| <= SOLVE_CONSIDER
  {
    hide SignedAction, Need, Closes, LeastDepth, Shallowest, AlreadyClosed, Crooked, Free;
    var s, need := Shallowest(seed, minLen), Need(seed);
    FloorIsNeed(seed);
    forall w | w in s
      ensures w in Crooked(need)
    {
      ShallowestSupply(seed, minLen, w);
      InCrooked(w, need);
    }
    ShallowestDistinct(seed, minLen);
    DistinctFits(s, Crooked(need));
    CrookedAreFew(need);
  }

  // Where the cap does no harm

  /** Up to depth six, and at depth seven for a residual of size five or seven, the solver's
      answer is the least action: whatever the minimum length, only depth seven with a residual
      of size one or three is left. */
  lemma CapIsHarmless(seed: History, maxDepth: nat, minLen: int)
    requires !AlreadyClosed(seed, minLen) && LeastDepth(seed, minLen) <= maxDepth <= MAX_DEPTH_CAP
    requires !(LeastDepth(seed, minLen) == 7 && (Floor(seed) == 1 || Floor(seed) == 3))
    ensures var r := Solve(seed, maxDepth, minLen);
            && r.Win? && !r.alreadyClosed && r.peak == LeastPeak(seed) && IsLeastAction(seed, minLen, r.best)
  {
    hide Solve, LeastDepth, AlreadyClosed, Shallowest, IsLeastAction, MaxExcursion, LeastPeak, Floor;
    if LeastDepth(seed, minLen) == 6 {
      var i := HarmlessAtSix(seed, minLen);
      SolverTakesLeastActionIff(seed, maxDepth, minLen);
      LeastHasLeastPeak(seed, minLen, Solve(seed, maxDepth, minLen).best);
    } else {
      if LeastDepth(seed, minLen) == 7 && Floor(seed) != 7 {
        FloorAtSeven(seed, minLen);
        ShallowestAtSeven(seed, minLen);
      } else {
        ShallowestFits(seed, minLen);
      }
      SolverTakesLeastAction(seed, maxDepth, minLen);
    }
  }

  lemma FloorAtSeven(seed: History, minLen: int)
    requires LeastDepth(seed, minLen) == 7
    ensures Floor(seed) in {1, 3, 5, 7}
  {
    hide Floor;
  }
}
