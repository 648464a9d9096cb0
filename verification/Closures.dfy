/** The enumerator of admissible continuations: what it must yield, and the loops
    that yield it. */
module Closures {
  import opened Options
  import opened Twists
  import opened Pauli
  import opened Histories
  import opened Words

  const MIN_ZFA_LENGTH := 4
  const DEFAULT_MAX_DEPTH := 6
  const DEFAULT_LIMIT := 10000

  datatype Closure = Closure(cont: History, history: History, depth: nat, phase: Scalar)

  datatype Limit = DefaultLimit | NoLimit | AtMost(n: int)

  datatype EnumOpts = EnumOpts(maxDepth: Option<int>, limit: Limit, minTotalLen: Option<int>, absorbing: bool)

  /** What one search looks for, once its options are resolved. */
  datatype Job = Job(seed: History, minLen: int, absorbing: bool)

  predicate Closes(job: Job, w: History) {
    |job.seed| + |w| >= job.minLen && AchievesZfaPairwise(job.seed + w)
  }

  /** The shortest continuation length that can be an event. */
  function ShortestEvent(job: Job): nat {
    if job.minLen - |job.seed| > 1 then job.minLen - |job.seed| else 1
  }

  /** Some proper prefix of admissible length already closes. */
  predicate Absorbed(job: Job, w: History) {
    exists k :: ShortestEvent(job) <= k < |w| && Closes(job, w[..k])
  }

  predicate Yields(job: Job, w: History) {
    Closes(job, w) && (job.absorbing ==> !Absorbed(job, w))
  }

  /** The yielded words among the first `n` of one depth, in TWIST_ORDER order. */
  function Scan(job: Job, depth: nat, n: nat): seq<History> {
    if n == 0 then []
    else
      var w := WordAt(depth, n - 1);
      Scan(job, depth, n - 1) + (if Yields(job, w) then [w] else [])
  }

  /** The yielded words of depth 1 to `depth`, shortest first. */
  function Search(job: Job, depth: nat): seq<History> {
    if depth == 0 then [] else Search(job, depth - 1) + Scan(job, depth, Pow8(depth))
  }

  // What a search contains

  lemma {:induction false} ScanMembers(job: Job, depth: nat, n: nat, w: History)
    requires n <= Pow8(depth)
    ensures w in Scan(job, depth, n) <==> |w| == depth && Rank(w) < n && Yields(job, w)
  {
    hide Yields, WordAt, Rank, Pow8;
    if n != 0 {
      RankWordAt(depth, n - 1);
      WordAtRank(w);
      ScanMembers(job, depth, n - 1, w);
    }
  }

  /** With no limit, a search yields exactly the words of admissible depth that meet
      the action, fold and length tests (and, in absorbing mode, extend no event). */
  lemma {:induction false} SearchMembers(job: Job, depth: nat, w: History)
    ensures w in Search(job, depth) <==> 1 <= |w| <= depth && Yields(job, w)
  {
    hide Scan, Yields, Rank;
    if depth != 0 {
      SearchMembers(job, depth - 1, w);
      ScanMembers(job, depth, Pow8(depth), w);
      RankBound(w);
    }
  }

  /** Shorter words first, and TWIST_ORDER order among words of one length. */
  predicate Before(u: History, w: History) { |u| < |w| || (|u| == |w| && LexLess(u, w)) }

  lemma {:induction false} ScanOrdered(job: Job, depth: nat, n: nat, i: nat, j: nat)
    requires n <= Pow8(depth) && i < j < |Scan(job, depth, n)|
    ensures Before(Scan(job, depth, n)[i], Scan(job, depth, n)[j])
  {
    hide Yields, WordAt, Rank, LexLess;
    var s, g := Scan(job, depth, n), Scan(job, depth, n - 1);
    if j < |g| {
      ScanOrdered(job, depth, n - 1, i, j);
    } else {
      ScanMembers(job, depth, n - 1, g[i]);
      RankWordAt(depth, n - 1);
      RankIsLexicographic(s[i], s[j]);
    }
  }

  /** The search lists its words strictly in order, hence each once. */
  lemma {:induction false} SearchOrdered(job: Job, depth: nat, i: nat, j: nat)
    requires i < j < |Search(job, depth)|
    ensures Before(Search(job, depth)[i], Search(job, depth)[j])
  {
    hide Scan, Yields, LexLess;
    var s, g, last := Search(job, depth), Search(job, depth - 1), Scan(job, depth, Pow8(depth));
    if j < |g| {
      SearchOrdered(job, depth - 1, i, j);
    } else if i < |g| {
      SearchMembers(job, depth - 1, g[i]);
      ScanMembers(job, depth, Pow8(depth), last[j - |g|]);
    } else {
      ScanOrdered(job, depth, Pow8(depth), i - |g|, j - |g|);
    }
  }

  // The gates that skip work never skip a closure

  function Abs(x: int): nat { if x < 0 then -x else x }

  function Free(a: Action): nat { Abs(a.v) + Abs(a.h) + Abs(a.d) + Abs(a.l) }

  predicate Feasible(need: Action, depth: int) {
    depth >= Free(need) && (depth - Free(need)) % 2 == 0
  }

  function Need(seed: History): Action {
    var a := SignedAction(seed);
    Action(-a.v, -a.h, -a.d, -a.l)
  }

  lemma {:induction false} LengthIsCounts(h: History)
    ensures |h| == Count(h, Up) + Count(h, Down) + Count(h, Right) + Count(h, Left)
                 + Count(h, Slash) + Count(h, BSlash) + Count(h, Plus) + Count(h, Minus)
  {
    if h != [] {
      LengthIsCounts(h[..|h| - 1]);
      CountSnoc(h, Up);
      CountSnoc(h, Down);
      CountSnoc(h, Right);
      CountSnoc(h, Left);
      CountSnoc(h, Slash);
      CountSnoc(h, BSlash);
      CountSnoc(h, Plus);
      CountSnoc(h, Minus);
    }
  }

  /** The length of a word bounds its free action and shares its parity. */
  lemma FreeActionWithinLength(h: History)
    ensures Feasible(SignedAction(h), |h|)
  {
    hide Count;
    LengthIsCounts(h);
    var a := Surplus(Count(h, Up), Count(h, Down));
    var b := Surplus(Count(h, Right), Count(h, Left));
    var c := Surplus(Count(h, Slash), Count(h, BSlash));
    var d := Surplus(Count(h, Plus), Count(h, Minus));
    assert |h| - Free(SignedAction(h)) == 2 * (a + b + c + d);
  }

  lemma Surplus(a: nat, b: nat) returns (m: nat)
    ensures a + b - Abs(a - b) == 2 * m
  {
    m := if a < b then a else b;
  }

  lemma BalanceIsNeed(seed: History, w: History)
    ensures IsPairwiseBalanced(seed + w) <==> SignedAction(w) == Need(seed)
  {
    ActionConcat(seed, w);
  }

  /** A depth skipped as infeasible, or as too short, holds no closure. */
  lemma {:induction false} SkippedDepthIsEmpty(job: Job, depth: nat, n: nat)
    requires n <= Pow8(depth)
    requires !Feasible(Need(job.seed), depth) || |job.seed| + depth < job.minLen
    ensures Scan(job, depth, n) == []
  {
    hide WordAt, SignedAction, Feasible, IsPauliClosed;
    if n != 0 {
      var w := WordAt(depth, n - 1);
      SkippedDepthIsEmpty(job, depth, n - 1);
      BalanceIsNeed(job.seed, w);
      FreeActionWithinLength(w);
    }
  }

  /** The Pauli gate never rejects a count-balanced candidate. */
  lemma GateNeverRejects(seed: History, w: History)
    requires SignedAction(w) == Need(seed)
    ensures PauliScalarOf(seed + w) in {Some(PosOne), Some(NegOne)}
  {
    hide PauliScalarOf, SignedAction;
    BalanceIsNeed(seed, w);
    BalancedFoldsToSign(seed + w);
  }

  // Absorbing mode

  /** The recorded prefixes suffice: a word extends a closing prefix exactly when it
      extends one that was itself yielded. */
  lemma {:induction false} AbsorbedByYielded(job: Job, w: History, k: nat)
    requires job.absorbing && ShortestEvent(job) <= k < |w| && Closes(job, w[..k])
    ensures exists j :: ShortestEvent(job) <= j <= k && Yields(job, w[..j])
    decreases k
  {
    hide Closes;
    if Absorbed(job, w[..k]) {
      var j :| ShortestEvent(job) <= j < k && Closes(job, w[..k][..j]);
      assert w[..k][..j] == w[..j];
      AbsorbedByYielded(job, w, j);
    } else {
      assert Yields(job, w[..k]);
    }
  }

  lemma AbsorbedIffYieldedPrefix(job: Job, w: History)
    requires job.absorbing
    ensures Absorbed(job, w) <==> exists k :: ShortestEvent(job) <= k < |w| && Yields(job, w[..k])
  {
    hide Closes;
    if Absorbed(job, w) {
      var k :| ShortestEvent(job) <= k < |w| && Closes(job, w[..k]);
      AbsorbedByYielded(job, w, k);
    }
  }

  ghost predicate IsProperPrefix(u: History, w: History) { |u| < |w| && u == w[..|u|] }

  /** No event extends another event. */
  lemma EventsFormAntichain(job: Job, depth: nat, u: History, w: History)
    requires job.absorbing && u in Search(job, depth) && w in Search(job, depth)
    ensures !IsProperPrefix(u, w)
  {
    hide Search, IsPauliClosed, SignedAction;
    SearchMembers(job, depth, u);
    SearchMembers(job, depth, w);
    assert !(ShortestEvent(job) <= |u| < |w| && Closes(job, w[..|u|]));
  }

  /** Every closure of the possibilities search extends exactly one event. */
  lemma EveryClosureExtendsOneEvent(job: Job, depth: nat, w: History)
    requires w in Search(job.(absorbing := false), depth)
    ensures exists k :: 0 <= k <= |w| && IsOnlyEventIn(job.(absorbing := true), depth, w, k)
  {
    hide Search, AchievesZfaPairwise, Absorbed;
    var loose, strict := job.(absorbing := false), job.(absorbing := true);
    SearchMembers(loose, depth, w);
    assert Closes(strict, w);
    var k := FirstEvent(strict, w);
    SearchMembers(strict, depth, w[..k]);
    forall j | 0 <= j <= |w| && w[..j] in Search(strict, depth)
      ensures j == k
    {
      EventsFormAntichain(strict, depth, w[..j], w[..k]);
      EventsFormAntichain(strict, depth, w[..k], w[..j]);
      PrefixesCompare(w, j, k);
    }
    assert IsOnlyEventIn(strict, depth, w, k);
  }

  /** The prefix of length `k` is an event, and no other prefix is. */
  ghost predicate IsOnlyEventIn(job: Job, depth: nat, w: History, k: nat)
    requires k <= |w|
  {
    && w[..k] in Search(job, depth)
    && forall j :: 0 <= j <= |w| && w[..j] in Search(job, depth) ==> j == k
  }

  lemma PrefixesCompare(w: History, j: nat, k: nat)
    requires j <= |w| && k <= |w|
    ensures j < k ==> IsProperPrefix(w[..j], w[..k])
    ensures k < j ==> IsProperPrefix(w[..k], w[..j])
  {
    if j < k {
      assert w[..k][..j] == w[..j];
    } else if k < j {
      assert w[..j][..k] == w[..k];
    }
  }

  lemma FirstEvent(job: Job, w: History) returns (k: nat)
    requires job.absorbing && Closes(job, w) && w != []
    ensures 1 <= k <= |w| && Yields(job, w[..k])
  {
    hide Closes;
    assert w[..|w|] == w;
    if Absorbed(job, w) {
      AbsorbedIffYieldedPrefix(job, w);
      k :| ShortestEvent(job) <= k < |w| && Yields(job, w[..k]);
    } else {
      k := |w|;
    }
  }
}
