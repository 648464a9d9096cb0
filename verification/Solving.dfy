/** The solver: which closure a position takes, and when it takes none. */
module Solving {
  import opened Options
  import opened Twists
  import opened Pauli
  import opened Histories
  import opened Words
  import opened Closures
  import opened Enumerator
  import opened Solver

  datatype Reason = BeyondMaxDepth | NoShortEvent

  datatype Outcome =
    | Win(alreadyClosed: bool, best: Closure, peak: nat, considered: nat, truncated: bool,
          searchedDepth: nat, shortlist: seq<Closure>)
    | Miss(residual: Action, floorDepth: nat, searchedDepth: nat, reason: Reason, completion: Option<History>)

  /** One continuation that supplies exactly the residual. */
  function ResidualToTwists(r: Action): History {
    Repeat(if r.v >= 0 then Up else Down, Abs(r.v)) + Repeat(if r.h >= 0 then Right else Left, Abs(r.h)) +
    Repeat(if r.d >= 0 then Slash else BSlash, Abs(r.d)) + Repeat(if r.l >= 0 then Plus else Minus, Abs(r.l))
  }

  /** The events one try of the solver ranks. */
  function Events(seed: History, depth: nat, minLen: int): seq<Closure> {
    Report(seed, Truncate(Some(SOLVE_CONSIDER), Search(Job(seed, minLen, true), depth)))
  }

  function FirstDepth(seed: History, maxDepth: nat): (d: nat)
    requires maxDepth >= 1
    ensures 1 <= d <= maxDepth
  {
    Min(Max(Floor(seed) + 2, 2), maxDepth)
  }

  function Settle(seed: History, events: seq<Closure>, searched: nat): Outcome {
    if events == [] then
      var c := ResidualToTwists(Need(seed));
      Miss(Need(seed), Floor(seed), searched, if Floor(seed) > searched then BeyondMaxDepth else NoShortEvent,
           if c == [] then None else Some(c))
    else
      RankedHead(events);
      var ranked := Ranked(events);
      Win(false, ranked[0], MaxExcursion(ranked[0].history), |events|, |events| >= SOLVE_CONSIDER, searched, ranked)
  }

  function Solve(seed: History, maxDepth: nat, minLen: int): Outcome
    requires maxDepth >= 1
  {
    if IsPairwiseBalanced(seed) && |seed| >= minLen && PauliScalarOf(seed).Some? then
      Win(true, Closure([], seed, 0, PauliScalarOf(seed).value), MaxExcursion(seed), 0, false, 0, [])
    else
      var first := FirstDepth(seed, maxDepth);
      var events := Events(seed, first, minLen);
      if events == [] && first < maxDepth then Settle(seed, Events(seed, maxDepth, minLen), maxDepth)
      else Settle(seed, events, first)
  }

  function CappedDepth(maxDepth: Option<int>): (d: nat)
    ensures 1 <= d <= MAX_DEPTH_CAP
  {
    Max(1, Min(if maxDepth.Some? then maxDepth.value else MAX_DEPTH_CAP, MAX_DEPTH_CAP))
  }

  /** Search the natural depths first, the full depth only if they hold no event. */
  method TryDepths(qc: string, seed: History, first: nat, maxDepth: nat, minLen: int)
      returns (events: seq<Closure>, searched: nat)
    requires Parse(qc) == Ok(seed) && 1 <= first <= maxDepth
    ensures searched == if Events(seed, first, minLen) == [] then maxDepth else first
    ensures events == Events(seed, searched, minLen)
  {
    hide Search, Parse, Report, Truncate;
    var tries: seq<nat> := if first < maxDepth then [first, maxDepth] else [maxDepth];
    events, searched := [], 0;
    var i := 0;
    while i < |tries| && events == []
      invariant 0 <= i <= |tries| && (i == 0 ==> events == [])
      invariant i > 0 ==> searched == tries[i - 1] && events == Events(seed, searched, minLen)
      invariant i == 2 ==> Events(seed, first, minLen) == []
    {
      searched := tries[i];
      var found := EnumerateClosures(qc, EnumOpts(Some(searched), AtMost(SOLVE_CONSIDER), Some(minLen), true));
      events := found.value;
      i := i + 1;
    }
  }

  method Conclude(seed: History, residual: Action, events: seq<Closure>, searched: nat) returns (r: Outcome)
    requires residual == Need(seed)
    ensures r == Settle(seed, events, searched)
  {
    hide Ranked, MaxExcursion, ResidualToTwists, Need, Free;
    if events == [] {
      var completion := ResidualToTwists(residual);
      r := Miss(residual, Free(residual), searched, if Free(residual) > searched then BeyondMaxDepth else NoShortEvent,
                if completion == [] then None else Some(completion));
    } else {
      RankedHead(events);
      var ranked := Ranked(events);
      var peak := ComputeMaxExcursion(ranked[0].history);
      r := Win(false, ranked[0], peak, |events|, |events| >= SOLVE_CONSIDER, searched, ranked);
    }
  }

  /** The solver's control flow computes `Solve`. */
  method SolvePosition(qc: string, maxDepthOpt: Option<int>, minTotalLen: Option<int>)
      returns (r: Result<Outcome, HistoryError>)
    ensures match Parse(qc)
            case Err(e) => r == Err(e)
            case Ok(seed) =>
              var minLen := if minTotalLen.Some? then minTotalLen.value else MIN_ZFA_LENGTH;
              r == Ok(Solve(seed, CappedDepth(maxDepthOpt), minLen))
  {
    hide Parse, Events, Settle, MaxExcursion, PauliScalarOf, SignedAction, Need, Free, IsPairwiseBalanced;
    var parsed := Parse(qc);
    if parsed.Err? {
      return Err(parsed.error);
    }
    var seed := parsed.value;
    var minLen := if minTotalLen.Some? then minTotalLen.value else MIN_ZFA_LENGTH;
    var maxDepth := CappedDepth(maxDepthOpt);
    var a := ActionOf(seed);
    var residual := Action(-a.v, -a.h, -a.d, -a.l);
    ActionsAgree(seed);
    if a == NO_ACTION && |seed| >= minLen {
      var phase := ComputeScalar(seed);
      if phase.Some? {
        var peak := ComputeMaxExcursion(seed);
        return Ok(Win(true, Closure([], seed, 0, phase.value), peak, 0, false, 0, []));
      }
    }
    var first := Min(Max(Free(residual) + 2, 2), maxDepth);
    var events, searched := TryDepths(qc, seed, first, maxDepth, minLen);
    var outcome := Conclude(seed, residual, events, searched);
    r := Ok(outcome);
  }

  lemma ActionsAgree(seed: History)
    ensures IsPairwiseBalanced(seed) <==> SignedAction(seed) == NO_ACTION
    ensures var a := SignedAction(seed); Action(-a.v, -a.h, -a.d, -a.l) == Need(seed)
  {
    hide SignedAction;
  }

  // Excursions

  lemma {:induction false} ExcursionGrows(g: History, h: History)
    ensures MaxExcursion(g) <= MaxExcursion(g + h)
  {
    hide SignedAction;
    if h == [] {
      assert g + h == g;
    } else {
      assert (g + h)[..|g + h| - 1] == g + h[..|h| - 1];
      ExcursionGrows(g, h[..|h| - 1]);
    }
  }

  lemma NeedFree(seed: History)
    ensures Floor(seed) == Free(SignedAction(seed))
  {
  }

  /** While a shortest completion is taken, the free action only falls. */
  lemma {:induction false} DescentKeepsExcursion(seed: History, w: History, k: nat)
    requires seed != [] && SignedAction(w) == Need(seed) && |w| == Floor(seed) && k <= |w|
    ensures MaxExcursion(seed + w[..k]) == MaxExcursion(seed)
  {
    hide SignedAction, Floor;
    NeedFree(seed);
    if k == 0 {
      assert seed + w[..0] == seed;
    } else {
      DescentKeepsExcursion(seed, w, k - 1);
      var h := seed + w[..k];
      assert h[..|h| - 1] == seed + w[..k - 1];
      ActionConcat(seed, w[..k]);
      ActionConcat(w[..k], w[k..]);
      assert w[..k] + w[k..] == w;
      FreeActionWithinLength(w[k..]);
      assert Free(SignedAction(h)) == Free(SignedAction(w[k..])) <= Floor(seed) <= MaxExcursion(seed);
    }
  }

  // Counting the shallowest closures

  predicate Distinct(ws: seq<History>) { forall i, j :: 0 <= i < j < |ws| ==> ws[i] != ws[j] }

  lemma {:induction false} DistinctFits(ws: seq<History>, all: seq<History>)
    requires Distinct(ws) && forall w :: w in ws ==> w in all
    ensures |ws| <= |all|
  {
    if ws != [] {
      var n := |ws| - 1;
      assert ws[n] in ws;
      var i :| 0 <= i < |all| && all[i] == ws[n];
      var rest := all[..i] + all[i + 1..];
      forall w | w in ws[..n]
        ensures w in rest
      {
        assert w != ws[n] && w in all;
      }
      DistinctFits(ws[..n], rest);
    }
  }

  lemma {:induction false} LexIrreflexive(u: History)
    ensures !LexLess(u, u)
  {
    RankIsLexicographic(u, u);
  }

  lemma SearchDistinct(job: Job, depth: nat)
    ensures Distinct(Search(job, depth))
  {
    var s := Search(job, depth);
    forall i, j | 0 <= i < j < |s|
      ensures s[i] != s[j]
    {
      SearchOrdered(job, depth, i, j);
      LexIrreflexive(s[i]);
    }
  }

  lemma SevenDeepBound(n: nat)
    requires n <= MAX_DEPTH_CAP
    ensures Bound(n) <= 1536
  {
    assert Bound(1) == 1 && Bound(2) == 2;
    assert Bound(3) == 6 && Bound(4) == 24;
    assert Bound(5) == 96 && Bound(6) == 384 && Bound(7) == 1536;
  }

  /** A continuation that closes is at least as long as the residual. */
  lemma ClosuresReachFloor(job: Job, w: History)
    requires Closes(job, w)
    ensures |w| >= Floor(job.seed) && SignedAction(w) == Need(job.seed)
  {
    hide SignedAction, IsPauliClosed, Need;
    BalanceIsNeed(job.seed, w);
    FreeActionWithinLength(w);
  }

  /** The floor-depth closures all fit under the solver's cap of 5000 events. */
  lemma FloorEventsFitCap(job: Job)
    requires Floor(job.seed) <= MAX_DEPTH_CAP
    ensures |Search(job, Floor(job.seed))| <= 1536
  {
    hide Search, Closes, Descents, Bound;
    var f := Floor(job.seed);
    var s := Search(job, f);
    forall w | w in s
      ensures w in Descents(f, Need(job.seed))
    {
      SearchMembers(job, f, w);
      ClosuresReachFloor(job, w);
      ShortestWordsDescend(w, Need(job.seed));
    }
    SearchDistinct(job, f);
    DistinctFits(s, Descents(f, Need(job.seed)));
    DescentsAreFew(f, Need(job.seed));
    SevenDeepBound(f);
  }

  // One completion

  lemma ResidualSupplies(r: Action)
    ensures |ResidualToTwists(r)| == Free(r) && SignedAction(ResidualToTwists(r)) == r
  {
    hide SignedAction;
    var a, b := Repeat(if r.v >= 0 then Up else Down, Abs(r.v)), Repeat(if r.h >= 0 then Right else Left, Abs(r.h));
    var c, d := Repeat(if r.d >= 0 then Slash else BSlash, Abs(r.d)),
      Repeat(if r.l >= 0 then Plus else Minus, Abs(r.l));
    ActionOfRun(if r.v >= 0 then Up else Down, Abs(r.v));
    ActionOfRun(if r.h >= 0 then Right else Left, Abs(r.h));
    ActionOfRun(if r.d >= 0 then Slash else BSlash, Abs(r.d));
    ActionOfRun(if r.l >= 0 then Plus else Minus, Abs(r.l));
    ActionConcat(a, b);
    ActionConcat(a + b, c);
    ActionConcat(a + b + c, d);
  }

  function Multiple(n: int, a: Action): Action { Action(n * a.v, n * a.h, n * a.d, n * a.l) }

  lemma {:induction false} ActionOfRun(t: Twist, n: nat)
    ensures SignedAction(Repeat(t, n)) == Multiple(n, Unit(t))
  {
    hide SignedAction, Multiple, AddAction, Unit;
    MultipleStep(n, Unit(t));
    if n == 0 {
      EmptyAction();
    } else {
      ActionOfRun(t, n - 1);
      var w := Repeat(t, n);
      assert w[..n - 1] == Repeat(t, n - 1);
      ActionSnoc(w);
    }
  }

  lemma MultipleStep(n: int, a: Action)
    ensures Multiple(n, a) == AddAction(Multiple(n - 1, a), a)
    ensures Multiple(0, a) == NO_ACTION
  {
  }

  lemma FloorIsNeed(seed: History)
    ensures Floor(seed) == Free(Need(seed))
  {
  }

  lemma NonZeroFloor(seed: History)
    requires Floor(seed) >= 1
    ensures !IsPairwiseBalanced(seed)
  {
  }

  // When there is no answer

  function Pads(n: nat): (w: History)
    ensures |w| == 2 * n
  {
    if n == 0 then [] else Pads(n - 1) + [Plus] + [Minus]
  }

  lemma {:induction false} PadsAreFree(n: nat)
    ensures SignedAction(Pads(n)) == NO_ACTION
  {
    hide SignedAction;
    if n == 0 {
      EmptyAction();
    } else {
      PadsAreFree(n - 1);
      ActionConcat(Pads(n - 1), [Plus]);
      ActionConcat(Pads(n - 1) + [Plus], [Minus]);
      ActionOfOne(Plus);
      ActionOfOne(Minus);
    }
  }

  /** Every feasible, long enough depth holds a closure. */
  lemma FeasibleDepthHasClosure(job: Job, d: nat) returns (w: History)
    requires Feasible(Need(job.seed), d) && |job.seed| + d >= job.minLen
    ensures |w| == d && Closes(job, w)
  {
    hide SignedAction, IsPauliClosed, Need, ResidualToTwists;
    var need := Need(job.seed);
    var n := (d - Free(need)) / 2;
    assert Free(need) + 2 * n == d by { hide Free; }
    ResidualSupplies(need);
    PadsAreFree(n);
    w := ResidualToTwists(need) + Pads(n);
    ActionConcat(ResidualToTwists(need), Pads(n));
    BalanceIsNeed(job.seed, w);
    BalancedFoldsToSign(job.seed + w);
  }

  predicate Promising(seed: History, minLen: int, d: nat) {
    Feasible(Need(seed), d) && |seed| + d >= minLen
  }

  lemma {:induction false} NoPromiseNoEvent(job: Job, depth: nat)
    requires forall d :: 1 <= d <= depth ==> !Promising(job.seed, job.minLen, d)
    ensures Search(job, depth) == []
  {
    hide Need;
    if depth != 0 {
      NoPromiseNoEvent(job, depth - 1);
      assert !Promising(job.seed, job.minLen, depth);
      SkippedDepthIsEmpty(job, depth, Pow8(depth));
    }
  }

  lemma PromiseHasEvent(seed: History, minLen: int, d: nat, depth: nat)
    requires 1 <= d <= depth && Promising(seed, minLen, d)
    ensures Events(seed, depth, minLen) != []
  {
    hide Search, Need, Closes, Report;
    var strict, loose := Job(seed, minLen, true), Job(seed, minLen, false);
    var w := FeasibleDepthHasClosure(loose, d);
    SearchMembers(loose, depth, w);
    EveryClosureExtendsOneEvent(strict, depth, w);
    var k :| 0 <= k <= |w| && IsOnlyEventIn(strict, depth, w, k);
    var ws := Truncate(Some(SOLVE_CONSIDER), Search(strict, depth));
    assert ws != [];
    assert |Report(seed, ws)| == |ws|;
  }

  /** The solver gives up exactly when the position is not already closed and no depth
      within reach is both feasible and long enough. */
  lemma SolverMissesIffNoDepthFits(seed: History, maxDepth: nat, minLen: int)
    requires maxDepth >= 1
    ensures Solve(seed, maxDepth, minLen).Miss? <==>
            !(IsPairwiseBalanced(seed) && |seed| >= minLen) &&
            forall d :: 1 <= d <= maxDepth ==> !Promising(seed, minLen, d)
  {
    hide SignedAction, Search, Need, Promising, Report, PauliScalarOf, Ranked, MaxExcursion;
    if IsPairwiseBalanced(seed) {
      BalancedFoldsToSign(seed);
    }
    var first := FirstDepth(seed, maxDepth);
    if forall d :: 1 <= d <= maxDepth ==> !Promising(seed, minLen, d) {
      NoPromiseNoEvent(Job(seed, minLen, true), first);
      NoPromiseNoEvent(Job(seed, minLen, true), maxDepth);
    } else {
      var d :| 1 <= d <= maxDepth && Promising(seed, minLen, d);
      PromiseHasEvent(seed, minLen, d, maxDepth);
    }
  }
}
