/** What the enumerator hands out and what the solver answers, told by counting twists. */
module Answers {
  import opened Options
  import opened Twists
  import opened Pauli
  import opened Histories
  import opened Closures
  import opened Enumerator
  import opened Solver
  import opened Solving

  // Counting

  /** How many of `t` have no `u` to cancel, or the other way round. */
  function Unpaired(h: History, t: Twist, u: Twist): nat {
    var m, n := multiset(h)[t], multiset(h)[u];
    if m > n then m - n else n - m
  }

  /** The twists that nothing cancels. */
  function Imbalance(h: History): nat {
    Unpaired(h, Up, Down) + Unpaired(h, Right, Left) + Unpaired(h, Slash, BSlash) + Unpaired(h, Plus, Minus)
  }

  /** The largest imbalance on the way through `h`: reached by some beginning, passed by none. */
  predicate IsPeak(h: History, p: nat) {
    (exists i :: 0 <= i <= |h| && Imbalance(h[..i]) == p) && forall i :: 0 <= i <= |h| ==> Imbalance(h[..i]) <= p
  }

  /** The product of the twists is the scalar that `s` names. */
  predicate MultipliesTo(h: History, s: Scalar) {
    Product(h) == var g := match s
                           case PosOne => Gauss(1, 0)
                           case NegOne => Gauss(-1, 0)
                           case PosI => Gauss(0, 1)
                           case NegI => Gauss(0, -1);
                  Matrix(g, Gauss(0, 0), Gauss(0, 0), g)
  }

  /** Long enough, and every twist cancelled. */
  predicate Ends(seed: History, minLen: int, w: History) { |seed| + |w| >= minLen && Imbalance(seed + w) == 0 }

  /** ... and in absorbing mode, for the first time. */
  predicate Wanted(seed: History, minLen: int, absorbing: bool, w: History) {
    w != [] && Ends(seed, minLen, w) && (absorbing ==> forall k :: 1 <= k < |w| ==> !Ends(seed, minLen, w[..k]))
  }

  lemma ImbalanceIsFree(h: History)
    ensures Imbalance(h) == Free(SignedAction(h))
    ensures Imbalance(h) == 0 <==> IsPairwiseBalanced(h)
  {
  }

  lemma EndsIffCloses(job: Job, w: History)
    ensures Closes(job, w) <==> Ends(job.seed, job.minLen, w)
  {
    hide SignedAction, Imbalance, IsPauliClosed, Free;
    ImbalanceIsFree(job.seed + w);
    if IsPairwiseBalanced(job.seed + w) {
      BalancedFoldsToSign(job.seed + w);
    }
  }

  lemma {:induction false} PeakIsLargest(h: History)
    ensures IsPeak(h, MaxExcursion(h))
  {
    hide SignedAction, Imbalance, MaxExcursion, IsPeak;
    ExcursionStep(h);
    if h == [] {
      PeakOfNothing();
    } else {
      PeakIsLargest(h[..|h| - 1]);
      PeakSnoc(h, MaxExcursion(h[..|h| - 1]));
    }
  }

  lemma ExcursionStep(h: History)
    ensures MaxExcursion(h) == if h == [] then 0 else Max(MaxExcursion(h[..|h| - 1]), Imbalance(h))
  {
    hide SignedAction, Imbalance, Free;
    ImbalanceIsFree(h);
  }

  lemma PeakOfNothing()
    ensures IsPeak([], 0)
  {
    var h: History := [];
    assert h[..0] == h && Imbalance(h) == 0;
  }

  lemma PeakSnoc(h: History, p: nat)
    requires h != [] && IsPeak(h[..|h| - 1], p)
    ensures IsPeak(h, Max(p, Imbalance(h)))
  {
    hide Imbalance;
    var g := h[..|h| - 1];
    assert forall i :: 0 <= i <= |g| ==> g[..i] == h[..i];
    var i :| 0 <= i <= |g| && Imbalance(g[..i]) == p;
    assert h[..|h|] == h && h[..i] == g[..i];
  }

  lemma ScalarIsProduct(h: History, s: Scalar)
    ensures PauliScalarOf(h) == Some(s) <==> MultipliesTo(h, s)
  {
    hide PauliFold, Product;
    FoldIsProduct(h);
  }

  /** The search holds what is wanted, and nothing else. */
  lemma SearchIsWanted(job: Job, depth: nat, w: History)
    ensures w in Search(job, depth) <==> |w| <= depth && Wanted(job.seed, job.minLen, job.absorbing, w)
  {
    hide Search, Closes, Ends;
    SearchMembers(job, depth, w);
    EndsIffCloses(job, w);
    forall k | 1 <= k < |w|
      ensures Closes(job, w[..k]) <==> Ends(job.seed, job.minLen, w[..k])
      ensures Ends(job.seed, job.minLen, w[..k]) ==> k >= ShortestEvent(job)
    {
      EndsIffCloses(job, w[..k]);
      LongEnough(job, w[..k]);
    }
  }

  lemma LongEnough(job: Job, w: History)
    ensures w != [] && Ends(job.seed, job.minLen, w) ==> |w| >= ShortestEvent(job)
  {
  }

  // What the enumerator hands out

  /** What a closure says of its continuation is so. */
  predicate Told(seed: History, c: Closure) {
    c.history == seed + c.cont && c.depth == |c.cont| && c.phase in {PosOne, NegOne} && MultipliesTo(c.history, c.phase)
  }

  /** `out` lists, truthfully, what is wanted at no more than `depth`, shorter words first
      and in TWIST_ORDER order: all of it, or the first `most`. */
  ghost predicate IsListing(out: seq<Closure>, seed: History, minLen: int, absorbing: bool, depth: int,
      most: Option<nat>) {
    && (forall i :: 0 <= i < |out| ==>
          Told(seed, out[i]) && |out[i].cont| <= depth && Wanted(seed, minLen, absorbing, out[i].cont))
    && (forall i, j :: 0 <= i < j < |out| ==> Before(out[i].cont, out[j].cont))
    && (most.Some? ==> |out| <= most.value)
    && forall w: History :: |w| <= depth && Wanted(seed, minLen, absorbing, w) ==> IsListed(out, w, most)
  }

  /** `w` is in the list, or the list is full before its turn. */
  predicate IsListed(out: seq<Closure>, w: History, most: Option<nat>) {
    (exists i :: 0 <= i < |out| && out[i].cont == w) ||
    (most == Some(|out|) && forall i :: 0 <= i < |out| ==> Before(out[i].cont, w))
  }

  lemma WantedFolds(seed: History, minLen: int, absorbing: bool, w: History)
    requires Wanted(seed, minLen, absorbing, w)
    ensures Told(seed, ClosureOf(seed, w))
  {
    hide Imbalance, Told, ClosureOf;
    BalancedFolds(seed, w);
  }

  lemma BalancedFolds(seed: History, w: History)
    requires Imbalance(seed + w) == 0
    ensures Told(seed, ClosureOf(seed, w))
  {
    hide Imbalance, SignedAction, PauliScalarOf, MultipliesTo, PauliFold, TwistMatrix, AchievesZfaPairwise, Free;
    ImbalanceIsFree(seed + w);
    BalancedFoldsToSign(seed + w);
    ScalarIsProduct(seed + w, PhaseOf(seed + w));
  }

  lemma TruncatedIsListing(job: Job, depth: nat, cap: Option<int>)
    ensures IsListing(Report(job.seed, Truncate(cap, Search(job, depth))), job.seed, job.minLen, job.absorbing, depth,
                      if cap == None then None else Some(Max(1, cap.value)))
  {
    hide Search, Wanted, Told, Before, ClosureOf, IsListed;
    var all := Search(job, depth);
    var ws := Truncate(cap, all);
    assert ws <= all;
    var out := Report(job.seed, ws);
    forall i | 0 <= i < |out|
      ensures Told(job.seed, out[i]) && |ws[i]| <= depth && Wanted(job.seed, job.minLen, job.absorbing, ws[i])
      ensures out[i].cont == ws[i]
    {
      ContOf(job.seed, ws[i]);
      assert ws[i] in all;
      SearchIsWanted(job, depth, ws[i]);
      WantedFolds(job.seed, job.minLen, job.absorbing, ws[i]);
    }
    forall i, j | 0 <= i < j < |all|
      ensures Before(all[i], all[j])
    {
      SearchOrdered(job, depth, i, j);
    }
    forall w: History | |w| <= depth && Wanted(job.seed, job.minLen, job.absorbing, w)
      ensures IsListed(out, w, if cap == None then None else Some(Max(1, cap.value)))
    {
      SearchIsWanted(job, depth, w);
      var j :| 0 <= j < |all| && all[j] == w;
      InListOrLater(out, ws, all, j, cap);
    }
  }

  lemma InListOrLater(out: seq<Closure>, ws: seq<History>, all: seq<History>, j: nat, cap: Option<int>)
    requires j < |all| && ws == Truncate(cap, all) && |out| == |ws|
    requires forall i :: 0 <= i < |ws| ==> out[i].cont == ws[i]
    requires forall i :: 0 <= i < j ==> Before(all[i], all[j])
    ensures IsListed(out, all[j], if cap == None then None else Some(Max(1, cap.value)))
  {
    hide Before;
    if j < |ws| {
      assert out[j].cont == all[j];
    } else {
      assert forall i :: 0 <= i < |out| ==> out[i].cont == all[i];
    }
  }

  lemma ContOf(seed: History, w: History)
    ensures ClosureOf(seed, w).cont == w
  {
  }

  /** What is handed out: the wanted continuations up to the depth asked for (6 unless told,
      1 at the least), with the length asked for (4 unless told), and no more than asked for
      (10000 unless told; one even where none is asked for). */
  lemma HandedOutIsListing(seed: History, opts: EnumOpts)
    ensures var minLen := if opts.minTotalLen == None then 4 else opts.minTotalLen.value;
            var depth := match opts.maxDepth
                         case None => 6
                         case Some(d) => if d < 1 then 1 else d;
            var most := match opts.limit
                        case DefaultLimit => Some(10000)
                        case NoLimit => None
                        case AtMost(n) => Some(if n < 1 then 1 else n);
            IsListing(HandedOut(seed, opts), seed, minLen, opts.absorbing, depth, most)
  {
    hide IsListing, Search, Report, Truncate;
    TruncatedIsListing(JobOf(seed, opts), DepthOf(opts), Cap(opts.limit));
  }

  // What the solver answers

  /** The order of strings: by the first character that differs, a proper beginning first. */
  predicate TextBefore(s: string, t: string) {
    exists i :: 0 <= i <= |s| && i < |t| && s[..i] == t[..i] && (i == |s| || s[i] < t[i])
  }

  /** The smaller peak first, then the fewer twists, then the product 1 before -1, then the
      text. */
  predicate Sooner(a: Closure, b: Closure, p: nat, q: nat) {
    p < q || (p == q && (|a.cont| < |b.cont| || (|a.cont| == |b.cont| &&
      ((a.phase == PosOne && b.phase == NegOne) ||
       (a.phase == b.phase && TextBefore(Render(a.history), Render(b.history)))))))
  }

  lemma {:induction false} CodeLessIsText(u: History, w: History)
    ensures CodeLess(u, w) <==> TextBefore(Render(u), Render(w))
  {
    if u != [] && w != [] {
      SymbolsDiffer(u[0], w[0]);
      CodeLessIsText(u[1..], w[1..]);
      TextFrom(u, w);
    } else {
      TextOfNothing(u, w);
    }
  }

  lemma TextOfNothing(u: History, w: History)
    requires u == [] || w == []
    ensures TextBefore(Render(u), Render(w)) <==> u == [] && w != []
  {
    if u == [] && w != [] {
      assert Render(u)[..0] == Render(w)[..0];
    }
  }

  lemma TextFrom(u: History, w: History)
    requires u != [] && w != []
    ensures var c, d := Symbol(u[0]), Symbol(w[0]);
            TextBefore(Render(u), Render(w)) <==>
            c < d || (c == d && TextBefore(Render(u[1..]), Render(w[1..])))
  {
    hide Symbol;
    assert Render(u) == [Symbol(u[0])] + Render(u[1..]) && Render(w) == [Symbol(w[0])] + Render(w[1..]);
    TextCons(Symbol(u[0]), Render(u[1..]), Symbol(w[0]), Render(w[1..]));
  }

  lemma TextCons(c: char, s: string, d: char, t: string)
    ensures TextBefore([c] + s, [d] + t) <==> c < d || (c == d && TextBefore(s, t))
  {
    var u, w := [c] + s, [d] + t;
    if i :| 0 <= i <= |u| && i < |w| && u[..i] == w[..i] && (i == |u| || u[i] < w[i]) {
      if i > 0 {
        SameBeginning(c, s, d, t, i - 1);
      }
    }
    if c < d {
      assert u[..0] == w[..0];
    } else if c == d && TextBefore(s, t) {
      var i :| 0 <= i <= |s| && i < |t| && s[..i] == t[..i] && (i == |s| || s[i] < t[i]);
      SameBeginning(c, s, d, t, i);
    }
  }

  lemma SameBeginning(c: char, s: string, d: char, t: string, i: nat)
    requires i <= |s| && i <= |t|
    ensures ([c] + s)[..i + 1] == ([d] + t)[..i + 1] <==> c == d && s[..i] == t[..i]
  {
    assert ([c] + s)[..i + 1] == [c] + s[..i] && ([d] + t)[..i + 1] == [d] + t[..i];
    assert ([c] + s[..i])[1..] == s[..i] && ([d] + t[..i])[1..] == t[..i];
    assert ([c] + s[..i])[0] == c && ([d] + t[..i])[0] == d;
  }

  lemma PrecedesIsSooner(seed: History, a: Closure, b: Closure, p: nat, q: nat)
    requires Told(seed, a) && Told(seed, b) && IsPeak(a.history, p) && IsPeak(b.history, q)
    ensures Precedes(a, b) <==> Sooner(a, b, p, q)
  {
    hide IsPeak, MaxExcursion, CodeLess, TextBefore, MultipliesTo;
    PeakIsOne(a.history, p);
    PeakIsOne(b.history, q);
    CodeLessIsText(a.history, b.history);
  }

  lemma PeakIsOne(h: History, p: nat)
    requires IsPeak(h, p)
    ensures p == MaxExcursion(h)
  {
    hide Imbalance, MaxExcursion;
    PeakIsLargest(h);
  }

  /** No later one goes sooner than an earlier one. */
  ghost predicate IsRanking(s: seq<Closure>) {
    forall i, j, p, q :: 0 <= i < j < |s| && IsPeak(s[i].history, p) && IsPeak(s[j].history, q) ==>
      !Sooner(s[j], s[i], q, p)
  }

  lemma RankedIsRanking(seed: History, events: seq<Closure>)
    requires forall i :: 0 <= i < |events| ==> Told(seed, events[i])
    ensures IsRanking(Ranked(events)) && multiset(Ranked(events)) == multiset(events)
    ensures |Ranked(events)| == |events|
  {
    hide Ranked, Told, IsPeak, Sooner, Precedes;
    RankedInOrder(events);
    var s := Ranked(events);
    assert |s| == |multiset(s)| == |multiset(events)| == |events|;
    forall i | 0 <= i < |s|
      ensures Told(seed, s[i])
    {
      assert s[i] in multiset(events);
    }
    forall i, j, p, q | 0 <= i < j < |s| && IsPeak(s[i].history, p) && IsPeak(s[j].history, q)
      ensures !Sooner(s[j], s[i], q, p)
    {
      PrecedesIsSooner(seed, s[j], s[i], q, p);
    }
  }

  /** A position closed as it stands is its own answer. */
  ghost predicate AsItStands(seed: History, r: Outcome) {
    && r.Win? && r.alreadyClosed
    && r.best.cont == [] && r.best.history == seed && r.best.depth == 0
    && r.best.phase in {PosOne, NegOne} && MultipliesTo(seed, r.best.phase)
    && IsPeak(seed, r.peak)
    && r.considered == 0 && !r.truncated && r.searchedDepth == 0 && r.shortlist == []
  }

  /** The first of the ranking, with its peak, out of the events considered. */
  ghost predicate TakesFirst(events: seq<Closure>, r: Outcome) {
    && r.Win? && !r.alreadyClosed
    && multiset(r.shortlist) == multiset(events) && |r.shortlist| == |events| && IsRanking(r.shortlist)
    && r.shortlist != [] && r.best == r.shortlist[0] && IsPeak(r.best.history, r.peak)
    && r.considered == |events| && (r.truncated <==> |events| >= 5000)
  }

  /** So much more of each axis would leave nothing uncancelled. */
  predicate Cancels(seed: History, a: Action) {
    var m := multiset(seed);
    && m[Up] + a.v == m[Down] && m[Right] + a.h == m[Left] && m[Slash] + a.d == m[BSlash] && m[Plus] + a.l == m[Minus]
  }

  lemma NeedCancels(seed: History)
    ensures Cancels(seed, Need(seed))
  {
  }

  /** What is missing, how much, why nothing was found, and one way to supply it. */
  ghost predicate ReportsMissing(seed: History, searched: nat, r: Outcome) {
    && r.Miss? && r.searchedDepth == searched
    && Cancels(seed, r.residual)
    && r.floorDepth == Imbalance(seed)
    && r.reason == (if Imbalance(seed) > searched then BeyondMaxDepth else NoShortEvent)
    && (r.completion == None <==> Imbalance(seed) == 0)
    && (r.completion.Some? ==> |r.completion.value| == Imbalance(seed) && Imbalance(seed + r.completion.value) == 0)
  }

  lemma ClosedAnswer(seed: History, maxDepth: nat, minLen: int)
    requires maxDepth >= 1 && Ends(seed, minLen, [])
    ensures AsItStands(seed, Solve(seed, maxDepth, minLen))
  {
    hide Imbalance, SignedAction, PauliScalarOf, MultipliesTo, MaxExcursion, IsPeak, PauliFold, TwistMatrix, Free,
         AchievesZfaPairwise;
    assert seed + [] == seed;
    ImbalanceIsFree(seed);
    BalancedFoldsToSign(seed);
    PeakIsLargest(seed);
    ScalarIsProduct(seed, PauliScalarOf(seed).value);
  }

  lemma SettledWin(seed: History, events: seq<Closure>, searched: nat)
    requires events != [] && forall i :: 0 <= i < |events| ==> Told(seed, events[i])
    ensures var r := Settle(seed, events, searched); TakesFirst(events, r) && r.searchedDepth == searched
  {
    hide Ranked, MaxExcursion, IsPeak, IsRanking, Told;
    RankedIsRanking(seed, events);
    PeakIsLargest(Ranked(events)[0].history);
  }

  lemma SettledMiss(seed: History, searched: nat)
    ensures ReportsMissing(seed, searched, Settle(seed, [], searched))
  {
    hide ResidualToTwists, Imbalance, SignedAction, Free, Need, Cancels;
    NeedCancels(seed);
    ImbalanceIsFree(seed);
    NeedFree(seed);
    CompletionCancels(seed);
    assert ResidualToTwists(Need(seed)) == [] <==> |ResidualToTwists(Need(seed))| == 0;
  }

  lemma CompletionCancels(seed: History)
    ensures var c := ResidualToTwists(Need(seed)); |c| == Imbalance(seed) && Imbalance(seed + c) == 0
  {
    hide ResidualToTwists, Imbalance, SignedAction, Need, Free;
    var c := ResidualToTwists(Need(seed));
    ResidualSupplies(Need(seed));
    FloorIsNeed(seed);
    NeedFree(seed);
    ImbalanceIsFree(seed);
    BalanceIsNeed(seed, c);
    ImbalanceIsFree(seed + c);
  }

  /** The whole answer: as it stands when it is closed; otherwise from the first 5000 events
      of the natural depth, or of the full depth when that has none, the first of their
      ranking; and what is missing when there are none. */
  lemma SolverAnswer(seed: History, maxDepth: nat, minLen: int) returns (events: seq<Closure>, searched: nat)
    requires maxDepth >= 1
    ensures var r, first := Solve(seed, maxDepth, minLen), Min(Max(Imbalance(seed) + 2, 2), maxDepth);
            if Imbalance(seed) == 0 && |seed| >= minLen then AsItStands(seed, r)
            else
              && (searched == first ||
                  (searched == maxDepth && forall w: History :: |w| <= first ==> !Wanted(seed, minLen, true, w)))
              && IsListing(events, seed, minLen, true, searched, Some(5000))
              && if events == [] then searched == maxDepth && ReportsMissing(seed, maxDepth, r)
                 else r.searchedDepth == searched && TakesFirst(events, r)
  {
    hide Search, Report, Truncate, IsListing, TakesFirst, ReportsMissing, AsItStands, Imbalance, SignedAction, Settle,
         PauliScalarOf, MaxExcursion, Wanted, Need, Free;
    assert seed + [] == seed;
    ImbalanceIsFree(seed);
    NeedFree(seed);
    var first := FirstDepth(seed, maxDepth);
    events, searched := Events(seed, first, minLen), first;
    if Imbalance(seed) == 0 && |seed| >= minLen {
      ClosedAnswer(seed, maxDepth, minLen);
    } else {
      NotAsItStands(seed, maxDepth, minLen);
      TruncatedIsListing(Job(seed, minLen, true), first, Some(5000));
      if events == [] {
        EmptyListing(seed, minLen, first);
        events, searched := Events(seed, maxDepth, minLen), maxDepth;
        TruncatedIsListing(Job(seed, minLen, true), maxDepth, Some(5000));
      }
      if events == [] {
        SettledMiss(seed, searched);
      } else {
        ListingTold(events, seed, minLen, searched);
        SettledWin(seed, events, searched);
      }
    }
  }

  lemma NotAsItStands(seed: History, maxDepth: nat, minLen: int)
    requires maxDepth >= 1 && !(Imbalance(seed) == 0 && |seed| >= minLen)
    ensures var first := FirstDepth(seed, maxDepth);
            Solve(seed, maxDepth, minLen) ==
            if Events(seed, first, minLen) == [] && first < maxDepth
            then Settle(seed, Events(seed, maxDepth, minLen), maxDepth)
            else Settle(seed, Events(seed, first, minLen), first)
  {
    hide Events, Settle, Imbalance, SignedAction, PauliScalarOf, MaxExcursion, Free;
    ImbalanceIsFree(seed);
  }

  lemma EmptyListing(seed: History, minLen: int, depth: int)
    requires IsListing([], seed, minLen, true, depth, Some(5000))
    ensures forall w: History :: |w| <= depth ==> !Wanted(seed, minLen, true, w)
  {
    hide Wanted;
  }

  lemma ListingTold(out: seq<Closure>, seed: History, minLen: int, depth: int)
    requires IsListing(out, seed, minLen, true, depth, Some(5000))
    ensures forall i :: 0 <= i < |out| ==> Told(seed, out[i])
  {
    hide Wanted, Told, IsListed;
  }

  /** The depth asked for, kept between 1 and 7, which is also what is asked for untold. */
  lemma DepthAsked(maxDepth: Option<int>)
    ensures var d := CappedDepth(maxDepth);
            match maxDepth
            case None => d == 7
            case Some(n) => if n < 1 then d == 1 else if n > 7 then d == 7 else d == n
  {
  }

  /** The digits stand for the twists in TWIST_ORDER. */
  lemma TwistOrder()
    ensures Render([OfDigit(0), OfDigit(1), OfDigit(2), OfDigit(3), OfDigit(4), OfDigit(5), OfDigit(6), OfDigit(7)])
            == "^v<>/\\+-"
  {
  }
}
