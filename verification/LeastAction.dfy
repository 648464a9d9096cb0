/** Why the solver's answer is the least free action among all closures of any length, and
    exactly when its cap on ranked events gets in the way. */
module LeastAction {
  import opened Options
  import opened Twists
  import opened Pauli
  import opened Histories
  import opened Words
  import opened Closures
  import opened Enumerator
  import opened Solver
  import opened Solving

  // The least depth a closure can have

  /** The residual must fit, and the length gate must be met. */
  function Gate(seed: History, minLen: int): nat { Max(Max(Floor(seed), minLen - |seed|), 1) }

  /** One more when the parity is wrong. */
  function LeastDepth(seed: History, minLen: int): (d: nat)
    ensures d >= 1
  {
    var g := Gate(seed, minLen);
    if (g - Floor(seed)) % 2 == 0 then g else g + 1
  }

  lemma LeastDepthIsLeast(seed: History, minLen: int, d: nat)
    requires d >= 1
    ensures Promising(seed, minLen, LeastDepth(seed, minLen))
    ensures Promising(seed, minLen, d) ==> d >= LeastDepth(seed, minLen)
  {
    hide Free, Need;
    FloorIsNeed(seed);
  }

  /** The position is closed as it stands, and the solver says so. */
  predicate AlreadyClosed(seed: History, minLen: int) { IsPairwiseBalanced(seed) && |seed| >= minLen }

  lemma ClosuresReachLeastDepth(seed: History, minLen: int, absorbing: bool, w: History)
    requires Closes(Job(seed, minLen, absorbing), w)
    ensures w == [] ==> AlreadyClosed(seed, minLen)
    ensures w != [] ==> |w| >= LeastDepth(seed, minLen)
    ensures SignedAction(w) == Need(seed)
  {
    hide SignedAction, IsPauliClosed, Need, Promising, LeastDepth;
    ClosuresReachFloor(Job(seed, minLen, absorbing), w);
    if w == [] {
      assert seed + w == seed;
    } else {
      ClosureIsPromising(seed, minLen, w);
      LeastDepthIsLeast(seed, minLen, |w|);
    }
  }

  lemma ClosureIsPromising(seed: History, minLen: int, w: History)
    requires SignedAction(w) == Need(seed) && |seed| + |w| >= minLen
    ensures Promising(seed, minLen, |w|)
  {
    hide SignedAction, Need;
    FreeActionWithinLength(w);
  }

  /** The closures of least depth, in TWIST_ORDER order; no event is shorter. */
  function Shallowest(seed: History, minLen: int): seq<History> {
    Search(Job(seed, minLen, true), LeastDepth(seed, minLen))
  }

  /** They are exactly the closures of that depth: none of their prefixes closes. */
  lemma ShallowestAre(seed: History, minLen: int, w: History)
    requires !AlreadyClosed(seed, minLen)
    ensures w in Shallowest(seed, minLen) <==> Closes(Job(seed, minLen, false), w) && |w| == LeastDepth(seed, minLen)
  {
    hide Search, Closes, LeastDepth, AlreadyClosed;
    var strict, d := Job(seed, minLen, true), LeastDepth(seed, minLen);
    SearchMembers(strict, d, w);
    SameClosures(seed, minLen, w);
    if Closes(strict, w) {
      ClosuresReachLeastDepth(seed, minLen, true, w);
    }
    if Closes(strict, w) && |w| == d {
      forall k | ShortestEvent(strict) <= k < |w|
        ensures !Closes(strict, w[..k])
      {
        if Closes(strict, w[..k]) {
          ClosuresReachLeastDepth(seed, minLen, true, w[..k]);
        }
      }
    }
  }

  lemma SameClosures(seed: History, minLen: int, w: History)
    ensures Closes(Job(seed, minLen, true), w) <==> Closes(Job(seed, minLen, false), w)
  {
  }

  // The least free action

  /** No continuation can do better: a first twist already strays by one. */
  function LeastPeak(seed: History): nat { Max(MaxExcursion(seed), 1) }

  lemma LeastPeakIsLeast(seed: History, w: History)
    requires w != []
    ensures MaxExcursion(seed + w) >= LeastPeak(seed)
    ensures seed != [] ==> LeastPeak(seed) == MaxExcursion(seed)
  {
    hide SignedAction;
    ExcursionGrows(seed, w);
    var h := seed + w;
    StraysAtLeastOnce(h);
    if seed != [] {
      StraysAtLeastOnce(seed);
    }
  }

  lemma StraysAtLeastOnce(h: History)
    requires h != []
    ensures MaxExcursion(h) >= 1
  {
    hide SignedAction, MaxExcursion;
    ExcursionGrows(h[..1], h[1..]);
    assert h[..1] + h[1..] == h;
    FirstStep(h[0]);
    assert h[..1] == [h[0]];
  }

  /** `e` is the least free action from `seed`: least peak, then least depth, among all
      closures of any length; then, among those of its peak and depth, best phase and first
      in string order. */
  ghost predicate IsLeastAction(seed: History, minLen: int, e: Closure) {
    var job := Job(seed, minLen, false);
    && e == ClosureOf(seed, e.cont) && Closes(job, e.cont)
    && MaxExcursion(e.history) == LeastPeak(seed) && e.depth == LeastDepth(seed, minLen)
    && (forall w :: Closes(job, w) ==> MaxExcursion(seed + w) >= MaxExcursion(e.history) && |w| >= e.depth)
    && (forall w :: Closes(job, w) && |w| == e.depth && w != e.cont &&
                    MaxExcursion(seed + w) == MaxExcursion(e.history) ==>
          TieGoesTo(e, ClosureOf(seed, w)))
  }

  predicate TieGoesTo(e: Closure, f: Closure) {
    PhaseRank(e.phase) < PhaseRank(f.phase) ||
      (PhaseRank(e.phase) == PhaseRank(f.phase) && CodeLess(e.history, f.history))
  }

  /** Being the least action is preceding every other closure. */
  lemma LeastPrecedes(seed: History, minLen: int, e: Closure, w: History)
    requires IsLeastAction(seed, minLen, e) && Closes(Job(seed, minLen, false), w) && w != e.cont
    ensures Precedes(e, ClosureOf(seed, w))
  {
    hide Closes, MaxExcursion, CodeLess, PhaseOf, LeastDepth;
    assert MaxExcursion(seed + w) >= MaxExcursion(e.history) && |w| >= e.depth;
  }

  // A closure of least depth need not stray any further

  lemma {:induction false} PadsKeepExcursion(h: History, n: nat)
    ensures SignedAction(h + Pads(n)) == SignedAction(h)
    ensures MaxExcursion(h + Pads(n)) <= Max(MaxExcursion(h), Free(SignedAction(h)) + 1)
  {
    hide SignedAction, Free;
    if n == 0 {
      assert h + Pads(0) == h;
    } else {
      PadsKeepExcursion(h, n - 1);
      var g := h + Pads(n - 1);
      assert h + Pads(n) == g + [Plus] + [Minus];
      OnePad(g);
    }
  }

  lemma OnePad(g: History)
    ensures SignedAction(g + [Plus] + [Minus]) == SignedAction(g)
    ensures MaxExcursion(g + [Plus] + [Minus]) <= Max(MaxExcursion(g), Free(SignedAction(g)) + 1)
  {
    hide SignedAction, Free, MaxExcursion, Step;
    ExcursionSnoc(g, Plus);
    ExcursionSnoc(g + [Plus], Minus);
    PadSteps(SignedAction(g));
    if g == [] {
      EmptyAction();
    } else {
      ExcursionAtEnd(g);
    }
    FreshExcursion();
  }

  lemma ExcursionSnoc(g: History, t: Twist)
    ensures SignedAction(g + [t]) == Step(SignedAction(g), t)
    ensures MaxExcursion(g + [t]) == Max(MaxExcursion(g), Free(Step(SignedAction(g), t)))
  {
    hide SignedAction, Free, Step;
    assert (g + [t])[..|g + [t]| - 1] == g;
    ActionSnoc(g + [t]);
  }

  lemma PadSteps(a: Action)
    ensures Step(Step(a, Plus), Minus) == a && Free(Step(a, Plus)) <= Free(a) + 1
  {
  }

  lemma FreshExcursion()
    ensures MaxExcursion([]) == 0 == Free(NO_ACTION)
  {
  }

  lemma ExcursionAtEnd(h: History)
    requires h != []
    ensures MaxExcursion(h) >= Free(SignedAction(h))
  {
    hide SignedAction;
  }

  /** Step down once, pad, and go on down: the residual's size is never exceeded. */
  lemma QuietClosure(seed: History, minLen: int) returns (w: History)
    ensures Closes(Job(seed, minLen, false), w) && |w| == LeastDepth(seed, minLen)
    ensures MaxExcursion(seed + w) == LeastPeak(seed)
  {
    hide SignedAction, IsPauliClosed, Need, Promising, LeastDepth, ResidualToTwists, MaxExcursion, Free;
    var need, d := Need(seed), LeastDepth(seed, minLen);
    LeastDepthIsLeast(seed, minLen, 1);
    PromiseParity(seed, minLen, d);
    FloorIsNeed(seed);
    NeedFree(seed);
    var n := (d - Floor(seed)) / 2;
    var s := ResidualToTwists(need);
    ResidualSupplies(need);
    if Floor(seed) == 0 {
      NoNeed(seed);
      QuietWhenBalanced(seed, n);
      w := Pads(n);
    } else {
      w := [s[0]] + Pads(n) + s[1..];
      NoNeedAtStart(seed);
      QuietWhenOpen(seed, s, n);
    }
    BalanceIsNeed(seed, w);
    BalancedFoldsToSign(seed + w);
    LeastPeakIsLeast(seed, w);
  }

  lemma NoNeedAtStart(seed: History)
    requires Floor(seed) >= 1
    ensures seed != []
  {
  }

  lemma PromiseParity(seed: History, minLen: int, d: nat)
    requires Promising(seed, minLen, d)
    ensures d >= Floor(seed) && (d - Floor(seed)) % 2 == 0 && |seed| + d >= minLen
  {
    hide Free;
    FloorIsNeed(seed);
  }

  lemma NoNeed(seed: History)
    requires Floor(seed) == 0
    ensures Need(seed) == NO_ACTION && Free(SignedAction(seed)) == 0
  {
    hide SignedAction;
    NeedFree(seed);
  }

  lemma QuietWhenBalanced(seed: History, n: nat)
    requires Free(SignedAction(seed)) == 0
    ensures SignedAction(Pads(n)) == NO_ACTION
    ensures MaxExcursion(seed + Pads(n)) <= LeastPeak(seed)
  {
    hide SignedAction, Free, MaxExcursion;
    PadsAreFree(n);
    PadsKeepExcursion(seed, n);
  }

  lemma FirstStep(t: Twist)
    ensures MaxExcursion([t]) == 1
  {
    hide SignedAction;
    ActionOfOne(t);
    EmptyAction();
    assert [t][..0] == [];
  }

  lemma QuietWhenOpen(seed: History, s: History, n: nat)
    requires seed != [] && SignedAction(s) == Need(seed) && |s| == Floor(seed) >= 1
    ensures var w := [s[0]] + Pads(n) + s[1..];
            SignedAction(w) == Need(seed) && MaxExcursion(seed + w) <= MaxExcursion(seed) && |w| == |s| + 2 * n
  {
    hide SignedAction, Free, MaxExcursion, Need;
    var down, rest := seed + s[..1], s[1..];
    assert s[..1] == [s[0]] && s == [s[0]] + rest;
    DescentKeepsExcursion(seed, s, 1);
    ActionConcat([s[0]], rest);
    var padded := down + Pads(n);
    PadsKeepExcursion(down, n);
    StillNeeds(seed, s);
    NeedOfSame(down, padded);
    DescentKeepsExcursion(padded, rest, |rest|);
    assert rest[..|rest|] == rest;
    assert padded + rest == seed + ([s[0]] + Pads(n) + rest);
    PadsAreFree(n);
    ActionConcat([s[0]], Pads(n));
    ActionConcat([s[0]] + Pads(n), rest);
    NeedFree(seed);
    NeedFree(down);
    ExcursionAtEnd(seed);
  }

  lemma StillNeeds(seed: History, s: History)
    requires SignedAction(s) == Need(seed) && |s| == Floor(seed) >= 1
    ensures var down := seed + s[..1]; Need(down) == SignedAction(s[1..]) && Floor(down) == |s| - 1
  {
    hide SignedAction;
    ActionConcat(seed, s[..1]);
    ActionConcat(s[..1], s[1..]);
    assert s == s[..1] + s[1..];
    FreeActionWithinLength(s[1..]);
    assert s[..1] == [s[0]];
    ActionOfOne(s[0]);
  }

  lemma NeedOfSame(g: History, h: History)
    requires SignedAction(g) == SignedAction(h)
    ensures Need(g) == Need(h) && Floor(g) == Floor(h)
  {
    hide SignedAction;
  }

  // The least action is among the closures of least depth

  /** The first in rank of all closures of least depth. */
  lemma LeastExists(seed: History, minLen: int) returns (i: nat)
    requires !AlreadyClosed(seed, minLen)
    ensures var s := Shallowest(seed, minLen); i < |s| && IsLeastAction(seed, minLen, ClosureOf(seed, s[i]))
  {
    hide Closes, LeastDepth, MaxExcursion, Precedes, Ranked, ClosureOf, AlreadyClosed, Shallowest, TieGoesTo,
         SignedAction;
    var s := Shallowest(seed, minLen);
    var quiet := QuietClosure(seed, minLen);
    ShallowestAre(seed, minLen, quiet);
    var all := Report(seed, s);
    assert all != [] by { assert |all| == |s|; }
    RankedHead(all);
    var e := Ranked(all)[0];
    i :| 0 <= i < |all| && all[i] == e;
    ShallowestAre(seed, minLen, s[i]);
    InReport(seed, s, quiet);
    NotBehind(seed, e, s[i], quiet);
    LeastPeakIsLeast(seed, s[i]);
    forall w | Closes(Job(seed, minLen, false), w)
      ensures MaxExcursion(seed + w) >= LeastPeak(seed) && |w| >= |s[i]|
      ensures |w| == |s[i]| && w != s[i] && MaxExcursion(seed + w) == LeastPeak(seed) ==>
              TieGoesTo(e, ClosureOf(seed, w))
    {
      ClosuresReachLeastDepth(seed, minLen, false, w);
      LeastPeakIsLeast(seed, w);
      if |w| == |s[i]| && w != s[i] {
        ShallowestAre(seed, minLen, w);
        InReport(seed, s, w);
        NotBehind(seed, e, s[i], w);
      }
    }
    LeastIs(seed, minLen, e, s[i]);
  }

  lemma InReport(seed: History, ws: seq<History>, w: History)
    requires w in ws
    ensures ClosureOf(seed, w) in Report(seed, ws)
  {
    hide ClosureOf;
    var i :| 0 <= i < |ws| && ws[i] == w;
    assert Report(seed, ws)[i] == ClosureOf(seed, w);
  }

  /** What it means that `w`, as deep, does not precede `e`. */
  lemma NotBehind(seed: History, e: Closure, c: History, w: History)
    requires e == ClosureOf(seed, c) && |w| == |c| && !Precedes(ClosureOf(seed, w), e)
    ensures MaxExcursion(seed + c) <= MaxExcursion(seed + w)
    ensures w != c && MaxExcursion(seed + w) == MaxExcursion(seed + c) ==> TieGoesTo(e, ClosureOf(seed, w))
  {
    hide MaxExcursion, PhaseOf, CodeLess;
    CodeLessTotal(seed + c, seed + w);
    if seed + c == seed + w {
      assert (seed + c)[|seed|..] == c && (seed + w)[|seed|..] == w;
    }
  }

  lemma LeastIs(seed: History, minLen: int, e: Closure, c: History)
    requires e == ClosureOf(seed, c) && Closes(Job(seed, minLen, false), c) && |c| == LeastDepth(seed, minLen)
    requires MaxExcursion(seed + c) == LeastPeak(seed)
    requires forall w :: Closes(Job(seed, minLen, false), w) ==> MaxExcursion(seed + w) >= LeastPeak(seed) && |w| >= |c|
    requires forall w :: Closes(Job(seed, minLen, false), w) && |w| == |c| && w != c &&
                           MaxExcursion(seed + w) == LeastPeak(seed) ==>
               TieGoesTo(e, ClosureOf(seed, w))
    ensures IsLeastAction(seed, minLen, e)
  {
    hide Closes, MaxExcursion, TieGoesTo, PhaseOf, LeastDepth, LeastPeak;
  }

  // What the solver ranks

  /** The solver ends at a depth that holds closures, and ranks the first of them. */
  lemma SearchedDepth(seed: History, maxDepth: nat, minLen: int) returns (d: nat)
    requires !AlreadyClosed(seed, minLen) && LeastDepth(seed, minLen) <= maxDepth
    ensures LeastDepth(seed, minLen) <= d <= maxDepth && Events(seed, d, minLen) != []
    ensures Solve(seed, maxDepth, minLen) == Settle(seed, Events(seed, d, minLen), d)
  {
    hide SignedAction, Search, Promising, LeastDepth, PauliScalarOf, Settle, Floor, Report, Truncate;
    var first, least := FirstDepth(seed, maxDepth), LeastDepth(seed, minLen);
    LeastDepthIsLeast(seed, minLen, 1);
    if first >= least {
      d := first;
    } else {
      d := maxDepth;
      forall k | 1 <= k <= first
        ensures !Promising(seed, minLen, k)
      {
        LeastDepthIsLeast(seed, minLen, k);
      }
      NoPromiseNoEvent(Job(seed, minLen, true), first);
      NothingToReport(seed);
    }
    PromiseHasEvent(seed, minLen, least, d);
  }

  lemma NothingToReport(seed: History)
    ensures Report(seed, Truncate(Some(SOLVE_CONSIDER), [])) == []
  {
  }

  /** The words behind the ranked events: the first of the search, the shallowest ahead. */
  lemma RankedWords(seed: History, minLen: int, d: nat) returns (ws: seq<History>)
    requires d >= LeastDepth(seed, minLen)
    ensures Events(seed, d, minLen) == Report(seed, ws) && Distinct(ws) && |ws| <= SOLVE_CONSIDER
    ensures forall w :: w in ws ==> Closes(Job(seed, minLen, false), w)
    ensures var s := Shallowest(seed, minLen); ws <= s || (s <= ws && |s| <= SOLVE_CONSIDER)
    ensures var s := Shallowest(seed, minLen); |ws| < |s| ==> |ws| == SOLVE_CONSIDER
  {
    hide Search, Closes, LeastDepth, Absorbed, Report;
    var strict := Job(seed, minLen, true);
    var all := Search(strict, d);
    ws := Truncate(Some(SOLVE_CONSIDER), all);
    SearchPrefix(strict, LeastDepth(seed, minLen), d);
    SearchDistinct(strict, d);
    forall w | w in ws
      ensures Closes(Job(seed, minLen, false), w)
    {
      assert w in all;
      SearchMembers(strict, d, w);
      SameClosures(seed, minLen, w);
    }
  }

  ghost predicate LeastAt(seed: History, minLen: int, ws: seq<History>, i: nat) {
    i < |ws| && IsLeastAction(seed, minLen, ClosureOf(seed, ws[i]))
  }

  /** The head of the ranking is the least action as soon as any ranked word is. */
  lemma HeadIsLeast(seed: History, minLen: int, ws: seq<History>, e: Closure) returns (j: nat)
    requires ws != [] && e == Ranked(Report(seed, ws))[0]
    requires forall w :: w in ws ==> Closes(Job(seed, minLen, false), w)
    ensures j < |ws| && e == ClosureOf(seed, ws[j])
    ensures forall i: nat :: LeastAt(seed, minLen, ws, i) ==> ClosureOf(seed, ws[i]) == e
  {
    hide Closes, Precedes, Ranked, IsLeastAction, ClosureOf;
    var all := Report(seed, ws);
    RankedHead(all);
    j :| 0 <= j < |all| && all[j] == e;
    forall i: nat | LeastAt(seed, minLen, ws, i)
      ensures ClosureOf(seed, ws[i]) == e
    {
      assert all[i] == ClosureOf(seed, ws[i]) && ws[j] in ws;
      ContOf(seed, ws[i]);
      if ws[j] != ws[i] {
        LeastPrecedes(seed, minLen, all[i], ws[j]);
      }
    }
  }

  lemma ContOf(seed: History, w: History)
    ensures ClosureOf(seed, w).cont == w
  {
    hide PhaseOf;
  }

  /** The solver takes the least action exactly when it is among the first 5000 closures
      of least depth, in TWIST_ORDER order. */
  lemma SolverTakesLeastActionIff(seed: History, maxDepth: nat, minLen: int)
    requires !AlreadyClosed(seed, minLen) && LeastDepth(seed, minLen) <= maxDepth
    ensures var r, s := Solve(seed, maxDepth, minLen), Shallowest(seed, minLen);
            && r.Win? && !r.alreadyClosed && r.peak == MaxExcursion(r.best.history)
            && (IsLeastAction(seed, minLen, r.best) <==>
                exists i: nat :: i < SOLVE_CONSIDER && LeastAt(seed, minLen, s, i))
  {
    hide Solve, Closes, LeastDepth, MaxExcursion, Ranked, AlreadyClosed, Shallowest, IsLeastAction, Events, Report,
         ClosureOf;
    var s := Shallowest(seed, minLen);
    var d := SearchedDepth(seed, maxDepth, minLen);
    var ws := RankedWords(seed, minLen, d);
    NothingReported(seed, ws);
    var e := Solve(seed, maxDepth, minLen).best;
    var j := HeadIsLeast(seed, minLen, ws, e);
    forall i: nat | i < SOLVE_CONSIDER && LeastAt(seed, minLen, s, i)
      ensures ClosureOf(seed, s[i]) == e
    {
      assert LeastAt(seed, minLen, ws, i);
    }
    if IsLeastAction(seed, minLen, e) {
      LeastIsShallowest(seed, minLen, e);
      ContOf(seed, ws[j]);
      var i :| 0 <= i < |s| && s[i] == ws[j];
      ShallowestDistinct(seed, minLen);
      SameIndex(ws, s, i, j);
      assert LeastAt(seed, minLen, s, j);
    }
  }

  lemma NothingReported(seed: History, ws: seq<History>)
    ensures Report(seed, ws) == [] <==> ws == []
  {
    hide ClosureOf;
    assert |Report(seed, ws)| == |ws|;
  }

  lemma ShallowestDistinct(seed: History, minLen: int)
    ensures Distinct(Shallowest(seed, minLen))
  {
    hide Search, LeastDepth, Distinct;
    SearchDistinct(Job(seed, minLen, true), LeastDepth(seed, minLen));
  }

  lemma SameIndex(ws: seq<History>, s: seq<History>, i: nat, j: nat)
    requires Distinct(ws) && Distinct(s) && (ws <= s || s <= ws)
    requires i < |s| && j < |ws| && s[i] == ws[j]
    ensures i == j
  {
    if ws <= s {
      assert s[j] == ws[j];
    } else {
      assert ws[i] == s[i];
    }
  }

  lemma LeastIsShallowest(seed: History, minLen: int, e: Closure)
    requires IsLeastAction(seed, minLen, e) && !AlreadyClosed(seed, minLen)
    ensures e.cont in Shallowest(seed, minLen) && e == ClosureOf(seed, e.cont)
  {
    hide Closes, LeastDepth, MaxExcursion, PhaseOf, Shallowest, AlreadyClosed;
    ShallowestAre(seed, minLen, e.cont);
  }

  /** So it does whenever no more than 5000 closures have the least depth. */
  lemma SolverTakesLeastAction(seed: History, maxDepth: nat, minLen: int)
    requires !AlreadyClosed(seed, minLen) && LeastDepth(seed, minLen) <= maxDepth
    requires |Shallowest(seed, minLen)| <= SOLVE_CONSIDER
    ensures var r := Solve(seed, maxDepth, minLen);
            && r.Win? && !r.alreadyClosed && r.peak == LeastPeak(seed) && IsLeastAction(seed, minLen, r.best)
  {
    hide Solve, LeastDepth, AlreadyClosed, Shallowest, IsLeastAction, MaxExcursion, LeastPeak, ClosureOf;
    SolverTakesLeastActionIff(seed, maxDepth, minLen);
    var i := LeastExists(seed, minLen);
    assert LeastAt(seed, minLen, Shallowest(seed, minLen), i);
    LeastHasLeastPeak(seed, minLen, Solve(seed, maxDepth, minLen).best);
  }

  lemma LeastHasLeastPeak(seed: History, minLen: int, e: Closure)
    requires IsLeastAction(seed, minLen, e)
    ensures MaxExcursion(e.history) == LeastPeak(seed)
  {
    hide Closes, MaxExcursion, LeastPeak, TieGoesTo, ClosureOf, LeastDepth;
  }

  // How many closures have the least depth

  function Fronts(ws: seq<History>): (r: seq<History>)
    requires forall i :: 0 <= i < |ws| ==> ws[i] != []
    ensures |r| == |ws| && forall i :: 0 <= i < |ws| ==> r[i] == ws[i][..|ws[i]| - 1]
  {
    seq(|ws|, i requires 0 <= i < |ws| => ws[i][..|ws[i]| - 1])
  }

  function AllWords(n: nat): (r: seq<History>)
    ensures |r| == Pow8(n) && forall i :: 0 <= i < |r| ==> r[i] == WordAt(n, i)
  {
    seq(Pow8(n), i requires 0 <= i < Pow8(n) => WordAt(n, i))
  }

  /** A closure's last twist is settled by the others. */
  lemma LastTwistSettled(u: History, w: History)
    requires u != [] && w != [] && SignedAction(u) == SignedAction(w) && u[..|u| - 1] == w[..|w| - 1]
    ensures u == w
  {
    hide SignedAction;
    ActionSnoc(u);
    ActionSnoc(w);
    UnitsDiffer(u[|u| - 1], w[|w| - 1]);
    assert u == u[..|u| - 1] + [u[|u| - 1]] && w == w[..|w| - 1] + [w[|w| - 1]];
  }

  lemma UnitsDiffer(t: Twist, u: Twist)
    ensures Unit(t) == Unit(u) ==> t == u
  {
  }

  lemma FrontsDistinct(ws: seq<History>, a: Action)
    requires Distinct(ws) && forall i :: 0 <= i < |ws| ==> ws[i] != [] && SignedAction(ws[i]) == a
    ensures Distinct(Fronts(ws))
  {
    hide SignedAction;
    var fronts := Fronts(ws);
    forall i, j | 0 <= i < j < |ws|
      ensures fronts[i] != fronts[j]
    {
      if fronts[i] == fronts[j] {
        LastTwistSettled(ws[i], ws[j]);
      }
    }
  }

  lemma ShallowestBound(seed: History, minLen: int)
    requires !AlreadyClosed(seed, minLen)
    ensures |Shallowest(seed, minLen)| <= Pow8(LeastDepth(seed, minLen) - 1)
  {
    hide SignedAction, Closes, AlreadyClosed, Pow8, LeastDepth, WordAt, Rank, Search, Need, Distinct;
    var s, d := Shallowest(seed, minLen), LeastDepth(seed, minLen);
    forall w | w in s
      ensures |w| == d && SignedAction(w) == Need(seed)
    {
      ShallowestAre(seed, minLen, w);
      ClosuresReachLeastDepth(seed, minLen, false, w);
    }
    ShallowestDistinct(seed, minLen);
    forall i | 0 <= i < |s|
      ensures |s[i]| == d && SignedAction(s[i]) == Need(seed)
    {
      assert s[i] in s;
    }
    FrontsDistinct(s, Need(seed));
    var fronts, all := Fronts(s), AllWords(d - 1);
    forall w | w in fronts
      ensures w in all
    {
      var i :| 0 <= i < |fronts| && fronts[i] == w;
      RankBound(w);
      WordAtRank(w);
      assert all[Rank(w)] == w;
    }
    DistinctFits(fronts, all);
  }

  /** At most 5000 of them up to depth 5, and where the least depth is the residual's size. */
  lemma ShallowestFits(seed: History, minLen: int)
    requires !AlreadyClosed(seed, minLen)
    requires LeastDepth(seed, minLen) <= 5 || LeastDepth(seed, minLen) == Floor(seed) <= MAX_DEPTH_CAP
    ensures |Shallowest(seed, minLen)| <= SOLVE_CONSIDER
  {
    hide LeastDepth, AlreadyClosed, Search, Floor;
    var d := LeastDepth(seed, minLen);
    if d == Floor(seed) <= MAX_DEPTH_CAP {
      FloorEventsFitCap(Job(seed, minLen, true));
    } else {
      ShallowestBound(seed, minLen);
      EightPowers(d - 1);
    }
  }

  lemma EightPowers(n: nat)
    requires n <= 4
    ensures Pow8(n) <= 4096
  {
    assert Pow8(1) == 8 && Pow8(2) == 64;
    assert Pow8(3) == 512 && Pow8(4) == 4096;
  }

  /** At the default minimum length, or below it, every position is settled: it is closed
      as it stands, out of reach, or answered with the least action. */
  lemma SolverAtDefaultLength(seed: History, maxDepth: nat, minLen: int)
    requires 1 <= maxDepth <= MAX_DEPTH_CAP && minLen <= MIN_ZFA_LENGTH
    ensures var r := Solve(seed, maxDepth, minLen);
            if AlreadyClosed(seed, minLen) then r.Win? && r.alreadyClosed && r.best.cont == []
            else if LeastDepth(seed, minLen) > maxDepth then r.Miss?
            else r.Win? && r.peak == LeastPeak(seed) && IsLeastAction(seed, minLen, r.best)
  {
    hide SignedAction, PauliScalarOf, IsLeastAction, MaxExcursion, Shallowest, Settle, Promising, LeastDepth, Events;
    var least := LeastDepth(seed, minLen);
    if AlreadyClosed(seed, minLen) {
      BalancedFoldsToSign(seed);
    } else if least > maxDepth {
      SolverMissesIffNoDepthFits(seed, maxDepth, minLen);
      forall d | 1 <= d <= maxDepth
        ensures !Promising(seed, minLen, d)
      {
        LeastDepthIsLeast(seed, minLen, d);
      }
    } else {
      ShortMinimumIsShallow(seed, minLen);
      ShallowestFits(seed, minLen);
      SolverTakesLeastAction(seed, maxDepth, minLen);
    }
  }

  lemma ShortMinimumIsShallow(seed: History, minLen: int)
    requires minLen <= MIN_ZFA_LENGTH
    ensures LeastDepth(seed, minLen) <= 5 || LeastDepth(seed, minLen) == Floor(seed)
  {
  }
}
