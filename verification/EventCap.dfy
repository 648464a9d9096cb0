/** A position whose least action lies behind the solver's cap of 5000 events: from `+`,
    with a minimum length of eight, more than 5000 closures come ahead of the first that
    stays within one twist of balance. */
module EventCap {
  import opened Permutations
  import opened Twists
  import opened Histories
  import opened Words
  import opened Closures
  import opened Enumerator
  import opened Solver
  import opened Solving
  import opened LeastAction

  const SEED: History := [Plus]
  const MIN_LEN := 8

  // Arrangements of distinct twists

  function Factorial(n: nat): nat { if n == 0 then 1 else n * Factorial(n - 1) }

  predicate AllDifferent(ts: seq<Twist>) { forall i, j :: 0 <= i < j < |ts| ==> ts[i] != ts[j] }

  function Arrangements(ts: seq<Twist>): seq<History>
    decreases |ts|, |ts| + 1
  {
    if ts == [] then [[]] else Leading(ts, |ts|)
  }

  /** The arrangements that begin with one of the first `n`. */
  function Leading(ts: seq<Twist>, n: nat): seq<History>
    requires n <= |ts|
    decreases |ts|, n
  {
    if n == 0 then [] else Leading(ts, n - 1) + Prepend(ts[n - 1], Arrangements(Without(ts, n - 1)))
  }

  predicate SameBag(ws: seq<History>, ts: seq<Twist>) { forall w :: w in ws ==> multiset(w) == multiset(ts) }

  /** A list of arrangements is as long as the factorial says, without repetition. */
  lemma {:induction false} ArrangementsAre(ts: seq<Twist>)
    requires AllDifferent(ts)
    ensures |Arrangements(ts)| == Factorial(|ts|) && Distinct(Arrangements(ts)) && SameBag(Arrangements(ts), ts)
    decreases |ts|, |ts| + 1
  {
    hide AllDifferent;
    if ts != [] {
      LeadingAre(ts, |ts|);
    }
  }

  predicate BeginWith(ws: seq<History>, ts: seq<Twist>) { forall w :: w in ws ==> w != [] && w[0] in ts }

  lemma {:induction false} LeadingAre(ts: seq<Twist>, n: nat)
    requires n <= |ts| && ts != [] && AllDifferent(ts)
    ensures |Leading(ts, n)| == n * Factorial(|ts| - 1) && Distinct(Leading(ts, n)) && SameBag(Leading(ts, n), ts)
    ensures BeginWith(Leading(ts, n), ts[..n])
    decreases |ts|, n
  {
    hide Factorial, Arrangements, Distinct, Without, AllDifferent, SameBag, BeginWith, Prepend;
    if n == 0 {
      NoneDistinct(ts);
    } else {
      var tails := Arrangements(Without(ts, n - 1));
      LeadingAre(ts, n - 1);
      WithoutIs(ts, n - 1);
      ArrangementsAre(Without(ts, n - 1));
      AddLeader(ts, n - 1, Leading(ts, n - 1), tails);
      OneMore(n, Factorial(|ts| - 1));
    }
  }

  lemma OneMore(n: nat, f: nat)
    requires n >= 1
    ensures n * f == (n - 1) * f + f
  {
  }

  lemma AddLeader(ts: seq<Twist>, i: nat, ahead: seq<History>, tails: seq<History>)
    requires i < |ts| && AllDifferent(ts)
    requires Distinct(ahead) && SameBag(ahead, ts) && BeginWith(ahead, ts[..i])
    requires Distinct(tails) && SameBag(tails, Without(ts, i))
    ensures var r := ahead + Prepend(ts[i], tails); Distinct(r) && SameBag(r, ts) && BeginWith(r, ts[..i + 1])
  {
    hide Distinct, Without, AllDifferent, Prepend;
    var own := Prepend(ts[i], tails);
    WithoutIs(ts, i);
    PrependWords(ts[i], tails);
    PrependDistinct(ts[i], tails);
    NotAhead(ts, i);
    AppendDistinct(ahead, own);
    forall w | w in own
      ensures multiset(w) == multiset(ts)
    {
      assert w == [w[0]] + w[1..];
    }
  }

  lemma NoneDistinct(ts: seq<Twist>)
    ensures Distinct([]) && SameBag([], ts) && BeginWith([], [])
  {
  }

  lemma WithoutIs(ts: seq<Twist>, i: nat)
    requires i < |ts| && AllDifferent(ts)
    ensures AllDifferent(Without(ts, i)) && |Without(ts, i)| == |ts| - 1
    ensures multiset(Without(ts, i)) + multiset{ts[i]} == multiset(ts)
  {
    WithoutBag(ts, i);
  }

  lemma NotAhead(ts: seq<Twist>, i: nat)
    requires i < |ts| && AllDifferent(ts)
    ensures ts[i] !in ts[..i] && ts[i] in ts[..i + 1] && forall t :: t in ts[..i] ==> t in ts[..i + 1]
  {
  }

  lemma {:induction false} PrependAt(t: Twist, ws: seq<History>, i: nat)
    requires i < |ws|
    ensures Prepend(t, ws)[i] == [t] + ws[i]
  {
    if i > 0 {
      PrependAt(t, ws[1..], i - 1);
    }
  }

  lemma PrependWords(t: Twist, ws: seq<History>)
    ensures forall w :: w in Prepend(t, ws) ==> w != [] && w[0] == t && w[1..] in ws
  {
    hide Prepend;
    var r := Prepend(t, ws);
    forall w | w in r
      ensures w != [] && w[0] == t && w[1..] in ws
    {
      var i :| 0 <= i < |r| && r[i] == w;
      PrependAt(t, ws, i);
      assert w[1..] == ws[i];
    }
  }

  lemma PrependDistinct(t: Twist, ws: seq<History>)
    requires Distinct(ws)
    ensures Distinct(Prepend(t, ws))
  {
    hide Prepend;
    var r := Prepend(t, ws);
    forall i, j | 0 <= i < j < |ws|
      ensures r[i] != r[j]
    {
      PrependAt(t, ws, i);
      PrependAt(t, ws, j);
      assert r[i][1..] == ws[i] && r[j][1..] == ws[j];
    }
  }

  lemma AppendDistinct(us: seq<History>, ws: seq<History>)
    requires Distinct(us) && Distinct(ws) && forall w :: w in us ==> w !in ws
    ensures Distinct(us + ws)
  {
    var r := us + ws;
    forall i, j | 0 <= i < j < |r|
      ensures r[i] != r[j]
    {
      if i < |us| <= j {
        assert r[i] in us && r[j] in ws;
      }
    }
  }

  // More than 5000 closures that do not begin with `-`

  const ALL: seq<Twist> := [Up, Down, Left, Right, Slash, BSlash, Minus]

  /** Every axis once there and back; or the first twist's axis twice, and another once. */
  function Family(i: nat): seq<History>
    requires i < 6
  {
    Prepend(ALL[i], Arrangements(Without(ALL, i)) + Prepend(ALL[Back(i)], Arrangements(Again(i))))
  }

  function Back(i: nat): (j: nat)
    requires i < 6
    ensures j < 6
  {
    if i % 2 == 0 then i + 1 else i - 1
  }

  function Again(i: nat): seq<Twist> {
    if i < 4 then [Up, Down, Left, Right, Minus] else [Slash, BSlash, Up, Down, Minus]
  }

  function Families(n: nat): seq<History>
    requires n <= 6
  {
    if n == 0 then [] else Families(n - 1) + Family(n - 1)
  }

  lemma FactorialsOfFiveAndSix()
    ensures Factorial(5) == 120 && Factorial(6) == 720
  {
    assert Factorial(3) == 6 && Factorial(4) == 24;
  }

  predicate ClosesTheExample(w: History) { |w| == 7 && SignedAction(w) == Action(0, 0, 0, -1) }

  lemma FamilyIs(i: nat)
    requires i < 6
    ensures |Family(i)| == 840 && Distinct(Family(i))
    ensures forall w :: w in Family(i) ==> ClosesTheExample(w) && w[0] == ALL[i]
  {
    hide Arrangements, Without, Again, Distinct, ClosesTheExample, Prepend, SameBag, AllDifferent, Factorial;
    var long, back := Arrangements(Without(ALL, i)), Arrangements(Again(i));
    ShapesOf(i);
    ArrangementsAre(Without(ALL, i));
    ArrangementsAre(Again(i));
    FactorialsOfFiveAndSix();
    var short := Prepend(ALL[Back(i)], back);
    LongWords(i, long);
    ShortWords(i, back);
    PrependDistinct(ALL[Back(i)], back);
    AppendDistinct(long, short);
    PrependWords(ALL[i], long + short);
    PrependDistinct(ALL[i], long + short);
    forall w | w in Family(i)
      ensures ClosesTheExample(w) && w[0] == ALL[i]
    {
      assert w == [ALL[i]] + w[1..];
    }
  }

  lemma LongWords(i: nat, ws: seq<History>)
    requires i < 6 && SameBag(ws, Without(ALL, i))
    ensures forall w :: w in ws ==> ALL[i] !in w && ClosesTheExample([ALL[i]] + w)
  {
    hide Without, ClosesTheExample;
    forall w | w in ws
      ensures ALL[i] !in w && ClosesTheExample([ALL[i]] + w)
    {
      LongCloses(i, w);
    }
  }

  lemma ShortWords(i: nat, ws: seq<History>)
    requires i < 6 && SameBag(ws, Again(i))
    ensures forall w :: w in Prepend(ALL[Back(i)], ws) ==> ALL[i] in w && ClosesTheExample([ALL[i]] + w)
  {
    hide Again, ClosesTheExample, Prepend;
    PrependWords(ALL[Back(i)], ws);
    forall w | w in Prepend(ALL[Back(i)], ws)
      ensures ALL[i] in w && ClosesTheExample([ALL[i]] + w)
    {
      ShortCloses(i, w);
    }
  }

  lemma ShapesOf(i: nat)
    requires i < 6
    ensures AllDifferent(Without(ALL, i)) && AllDifferent(Again(i))
    ensures |Without(ALL, i)| == 6 && |Again(i)| == 5
  {
    assert AllDifferent(ALL);
  }

  lemma LongCloses(i: nat, w: History)
    requires i < 6 && multiset(w) == multiset(Without(ALL, i))
    ensures ALL[i] !in w && ClosesTheExample([ALL[i]] + w)
  {
    hide Without, SignedAction, AllDifferent;
    assert AllDifferent(ALL) by { AllAreDifferent(); }
    PutBack(ALL, i, w);
    SameBagSameAction([ALL[i]] + w, ALL);
    ActionOfAll();
  }

  lemma AllAreDifferent()
    ensures AllDifferent(ALL)
  {
  }

  lemma PutBack(ts: seq<Twist>, i: nat, w: History)
    requires i < |ts| && AllDifferent(ts) && multiset(w) == multiset(Without(ts, i))
    ensures ts[i] !in w && multiset([ts[i]] + w) == multiset(ts)
  {
    hide AllDifferent, Without;
    WithoutIs(ts, i);
    Missing(ts, i);
    SameMembers(w, Without(ts, i), ts[i]);
  }

  lemma SameMembers(u: History, w: History, t: Twist)
    requires multiset(u) == multiset(w)
    ensures t in u <==> t in w
  {
    assert t in u <==> t in multiset(u);
    assert t in w <==> t in multiset(w);
  }

  lemma Missing(ts: seq<Twist>, i: nat)
    requires i < |ts| && AllDifferent(ts)
    ensures ts[i] !in Without(ts, i)
  {
  }

  lemma SameBagSameAction(u: History, w: History)
    requires multiset(u) == multiset(w)
    ensures |u| == |w| && SignedAction(u) == SignedAction(w)
  {
    assert |multiset(u)| == |u| && |multiset(w)| == |w|;
  }

  lemma ActionOfAll()
    ensures SignedAction(ALL) == Action(0, 0, 0, -1)
  {
  }

  lemma ShortCloses(i: nat, w: History)
    requires i < 6 && w != [] && w[0] == ALL[Back(i)] && multiset(w[1..]) == multiset(Again(i))
    ensures ALL[i] in w && ClosesTheExample([ALL[i]] + w)
  {
    hide SignedAction, Again, Unit, Opposites;
    BackIsOpposite(i);
    ThereAndBack(ALL[i], w);
    SameBagSameAction(w[1..], Again(i));
    ActionOfAgain(i);
    InAgain(i);
    SameMembers(w[1..], Again(i), ALL[i]);
  }

  lemma ThereAndBack(t: Twist, w: History)
    requires w != [] && Opposites(t, w[0])
    ensures SignedAction([t] + w) == SignedAction(w[1..])
  {
    hide SignedAction, Unit, Opposites;
    assert w == [w[0]] + w[1..];
    ActionConcat([w[0]], w[1..]);
    ActionConcat([t], w);
    ActionOfOne(t);
    ActionOfOne(w[0]);
    OppositesCancel(t, w[0]);
  }

  predicate Opposites(t: Twist, u: Twist) {
    match t
    case Up => u == Down
    case Down => u == Up
    case Right => u == Left
    case Left => u == Right
    case Slash => u == BSlash
    case BSlash => u == Slash
    case Plus => u == Minus
    case Minus => u == Plus
  }

  lemma OppositesCancel(t: Twist, u: Twist)
    requires Opposites(t, u)
    ensures AddAction(Unit(t), Unit(u)) == NO_ACTION
  {
    hide AddAction;
    var a, b := Unit(t), Unit(u);
    assert a.v + b.v == 0 && a.h + b.h == 0 && a.d + b.d == 0 && a.l + b.l == 0;
    SumOf(a, b);
  }

  lemma SumOf(a: Action, b: Action)
    ensures AddAction(a, b) == Action(a.v + b.v, a.h + b.h, a.d + b.d, a.l + b.l)
  {
  }

  lemma BackIsOpposite(i: nat)
    requires i < 6
    ensures Opposites(ALL[i], ALL[Back(i)])
  {
  }

  lemma InAgain(i: nat)
    requires i < 6
    ensures ALL[i] in Again(i) && |Again(i)| == 5
  {
  }

  lemma ActionOfAgain(i: nat)
    ensures SignedAction(Again(i)) == Action(0, 0, 0, -1)
  {
    if i < 4 {
      ActionOfAround();
    } else {
      ActionOfCross();
    }
  }

  lemma ActionOfAround()
    ensures SignedAction([Up, Down, Left, Right, Minus]) == Action(0, 0, 0, -1)
  {
  }

  lemma ActionOfCross()
    ensures SignedAction([Slash, BSlash, Up, Down, Minus]) == Action(0, 0, 0, -1)
  {
  }

  lemma {:induction false} FamiliesAre(n: nat)
    requires n <= 6
    ensures |Families(n)| == 840 * n && Distinct(Families(n))
    ensures forall w :: w in Families(n) ==> ClosesTheExample(w) && w[0] in ALL[..n]
  {
    hide Family, Distinct, ClosesTheExample;
    if n == 0 {
      NoneDistinct(ALL);
    } else {
      FamiliesAre(n - 1);
      FamilyIs(n - 1);
      NotAhead(ALL, n - 1) by { assert AllDifferent(ALL); }
      AppendDistinct(Families(n - 1), Family(n - 1));
    }
  }

  // The position

  predicate ThePosition(seed: History, minLen: int) { seed == SEED && minLen == MIN_LEN }

  lemma PositionNeeds(seed: History)
    requires SignedAction(seed) == Unit(Plus)
    ensures Need(seed) == Action(0, 0, 0, -1) && Floor(seed) == 1 && !IsPairwiseBalanced(seed)
  {
    hide SignedAction;
    var a := SignedAction(seed);
    assert a.v == 0 && a.h == 0 && a.d == 0 && a.l == 1;
    var need := Need(seed);
    assert need.v == 0 && need.h == 0 && need.d == 0 && need.l == -1;
    assert Abs(need.v) == 0 && Abs(need.h) == 0 && Abs(need.d) == 0 && Abs(need.l) == 1;
  }

  lemma PositionLeast(seed: History, minLen: int)
    requires ThePosition(seed, minLen)
    ensures !AlreadyClosed(seed, minLen) && LeastDepth(seed, minLen) == 7 && LeastPeak(seed) == 1
  {
    hide SignedAction, MaxExcursion, Floor, IsPairwiseBalanced;
    ActionOfOne(Plus);
    PositionNeeds(seed);
    FirstStep(Plus);
  }

  lemma StraysUnlessMinus(seed: History, w: History)
    requires seed == SEED && w != [] && w[0] != Minus
    ensures MaxExcursion(seed + w) >= 2
  {
    hide SignedAction, MaxExcursion, Unit;
    var g := seed + [w[0]];
    assert seed + w == g + w[1..];
    ExcursionGrows(g, w[1..]);
    ExcursionAtEnd(g);
    ActionConcat(seed, [w[0]]);
    ActionOfOne(Plus);
    ActionOfOne(w[0]);
    PlusUnit();
    TwoAway(w[0]);
  }

  lemma PlusUnit()
    ensures var a := Unit(Plus); a.v == a.h == a.d == 0 && a.l == 1
  {
  }

  lemma TwoAway(t: Twist)
    requires t != Minus
    ensures var b := Unit(t); Abs(b.v) + Abs(b.h) + Abs(b.d) + Abs(b.l + 1) == 2
  {
  }

  lemma FamiliesAreShallowest(seed: History, minLen: int, w: History)
    requires ThePosition(seed, minLen) && ClosesTheExample(w)
    ensures w in Shallowest(seed, minLen) && |w| == LeastDepth(seed, minLen)
  {
    hide SignedAction, AchievesZfaPairwise, Need, LeastDepth, AlreadyClosed, Shallowest;
    ActionOfOne(Plus);
    PositionNeeds(seed);
    PositionLeast(seed, minLen);
    BalanceIsNeed(seed, w);
    BalancedFoldsToSign(seed + w);
    ShallowestAre(seed, minLen, w);
  }

  lemma EarlyStart(w: History, n: nat)
    requires n <= 6 && w != [] && w[0] in ALL[..n]
    ensures w[0] != Minus
  {
  }

  /** The closures that begin with `-` come last, and so behind 5040 others. */
  lemma MinusComesLate(seed: History, minLen: int, i: nat)
    requires ThePosition(seed, minLen) && i < |Shallowest(seed, minLen)|
    ensures Shallowest(seed, minLen)[i] != []
    ensures Shallowest(seed, minLen)[i][0] == Minus ==> i >= 5040
  {
    hide Shallowest, Families, LexLess, ClosesTheExample, AlreadyClosed, LeastDepth, Closes, ThePosition;
    var s, early := Shallowest(seed, minLen), Families(6);
    PositionLeast(seed, minLen);
    ShallowestAre(seed, minLen, s[i]);
    if s[i][0] == Minus {
      FamiliesAre(6);
      forall w | w in early
        ensures w in s[..i]
      {
        FamiliesAreShallowest(seed, minLen, w);
        var k :| 0 <= k < |s| && s[k] == w;
        NotEmptyExample(w);
        EarlyStart(w, 6);
        EarlierStart(seed, minLen, k, i);
      }
      DistinctFits(early, s[..i]);
    }
  }

  lemma NotEmptyExample(w: History)
    requires ClosesTheExample(w)
    ensures |w| == 7
  {
  }

  lemma EarlierStart(seed: History, minLen: int, k: nat, i: nat)
    requires k < |Shallowest(seed, minLen)| && i < |Shallowest(seed, minLen)|
    requires var s := Shallowest(seed, minLen);
             |s[i]| == |s[k]| > 0 && s[i][0] == Minus && s[k][0] != Minus
    ensures k < i
  {
    hide Search, LeastDepth;
    if i < k {
      SearchOrdered(Job(seed, minLen, true), LeastDepth(seed, minLen), i, k);
    }
  }

  lemma ManyShallowest(seed: History, minLen: int)
    requires ThePosition(seed, minLen)
    ensures |Shallowest(seed, minLen)| >= 5040
  {
    hide Shallowest, Families, ClosesTheExample, ThePosition;
    FamiliesAre(6);
    forall w | w in Families(6)
      ensures w in Shallowest(seed, minLen)
    {
      FamiliesAreShallowest(seed, minLen, w);
    }
    DistinctFits(Families(6), Shallowest(seed, minLen));
  }

  /** So the solver settles for a peak of two or more, where `w` would stay within one. */
  lemma CapHidesLeastAction(seed: History, minLen: int) returns (w: History)
    requires ThePosition(seed, minLen)
    ensures Closes(Job(seed, minLen, false), w) && |w| == MAX_DEPTH_CAP && MaxExcursion(seed + w) == 1
    ensures var r := Solve(seed, MAX_DEPTH_CAP, minLen);
            r.Win? && r.peak >= 2 && r.best.depth == MAX_DEPTH_CAP && !IsLeastAction(seed, minLen, r.best)
  {
    hide Solve, Shallowest, Closes, AlreadyClosed, LeastDepth, MaxExcursion, LeastPeak, IsLeastAction, Events, Ranked,
         Report, ThePosition;
    PositionLeast(seed, minLen);
    w := QuietClosure(seed, minLen);
    SolverTakesLeastActionIff(seed, MAX_DEPTH_CAP, minLen);
    var d := SearchedDepth(seed, MAX_DEPTH_CAP, minLen);
    var ws := RankedWords(seed, minLen, d);
    NothingReported(seed, ws);
    var r := Solve(seed, MAX_DEPTH_CAP, minLen);
    var j := HeadIsLeast(seed, minLen, ws, r.best);
    ManyShallowest(seed, minLen);
    var s := Shallowest(seed, minLen);
    assert ws[j] == s[j];
    MinusComesLate(seed, minLen, j);
    ShallowestAre(seed, minLen, s[j]);
    WorsePeak(seed, minLen, r.best, s[j]);
  }

  lemma WorsePeak(seed: History, minLen: int, e: Closure, w: History)
    requires ThePosition(seed, minLen) && e == ClosureOf(seed, w) && w != [] && w[0] != Minus
    ensures MaxExcursion(e.history) >= 2 && e.depth == |w| && !IsLeastAction(seed, minLen, e)
  {
    hide MaxExcursion, LeastPeak, Closes, LeastDepth, TieGoesTo, PhaseOf;
    StraysUnlessMinus(seed, w);
    PositionLeast(seed, minLen);
  }
}
