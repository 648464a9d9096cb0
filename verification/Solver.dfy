/** The one closure a position takes: least peak excursion, then least depth, then
    phase, then the order of the rendered histories. */
module Solver {
  import opened Twists
  import opened Pauli
  import opened Histories
  import opened Closures

  const MAX_DEPTH_CAP := 7
  const SOLVE_CONSIDER := 5000

  function Max(a: int, b: int): int { if a > b then a else b }

  function Min(a: int, b: int): int { if a < b then a else b }

  /** How far the walk strays from balance: the largest free action of a prefix. */
  function MaxExcursion(h: History): nat {
    if h == [] then 0 else Max(MaxExcursion(h[..|h| - 1]), Free(SignedAction(h)))
  }

  /** One twist's effect on the running counters. */
  function Step(a: Action, t: Twist): Action {
    match t
    case Up => a.(v := a.v + 1)
    case Down => a.(v := a.v - 1)
    case Right => a.(h := a.h + 1)
    case Left => a.(h := a.h - 1)
    case Slash => a.(d := a.d + 1)
    case BSlash => a.(d := a.d - 1)
    case Plus => a.(l := a.l + 1)
    case Minus => a.(l := a.l - 1)
  }

  method ComputeMaxExcursion(history: History) returns (m: nat)
    ensures m == MaxExcursion(history)
  {
    hide SignedAction, Step, Free;
    var a := NO_ACTION;
    m := 0;
    EmptyAction();
    for i := 0 to |history|
      invariant a == SignedAction(history[..i]) && m == MaxExcursion(history[..i])
    {
      assert history[..i + 1][..i] == history[..i];
      ActionSnoc(history[..i + 1]);
      a := Step(a, history[i]);
      if Free(a) > m {
        m := Free(a);
      }
    }
    assert history[..|history|] == history;
  }

  function Unit(t: Twist): Action {
    match t
    case Up => Action(1, 0, 0, 0)
    case Down => Action(-1, 0, 0, 0)
    case Right => Action(0, 1, 0, 0)
    case Left => Action(0, -1, 0, 0)
    case Slash => Action(0, 0, 1, 0)
    case BSlash => Action(0, 0, -1, 0)
    case Plus => Action(0, 0, 0, 1)
    case Minus => Action(0, 0, 0, -1)
  }

  lemma EmptyAction()
    ensures SignedAction([]) == NO_ACTION
  {
  }

  lemma ActionOfOne(t: Twist)
    ensures SignedAction([t]) == Unit(t)
  {
  }

  lemma ActionSnoc(h: History)
    requires h != []
    ensures SignedAction(h) == AddAction(SignedAction(h[..|h| - 1]), Unit(h[|h| - 1]))
    ensures SignedAction(h) == Step(SignedAction(h[..|h| - 1]), h[|h| - 1])
  {
    hide SignedAction;
    assert h == h[..|h| - 1] + [h[|h| - 1]];
    ActionConcat(h[..|h| - 1], [h[|h| - 1]]);
    ActionOfOne(h[|h| - 1]);
  }

  lemma ActionCons(h: History)
    requires h != []
    ensures SignedAction(h) == AddAction(Unit(h[0]), SignedAction(h[1..]))
  {
    hide SignedAction;
    assert h == [h[0]] + h[1..];
    ActionConcat([h[0]], h[1..]);
    ActionOfOne(h[0]);
  }

  // The ranking

  function PhaseRank(s: Scalar): nat {
    match s
    case PosOne => 0
    case NegOne => 1
    case PosI => 2
    case NegI => 3
  }

  /** String order on rendered histories: by character code, a proper prefix first. */
  predicate CodeLess(u: History, w: History) {
    if u == [] then w != []
    else w != [] && (Symbol(u[0]) < Symbol(w[0]) || (u[0] == w[0] && CodeLess(u[1..], w[1..])))
  }

  lemma SymbolsDiffer(t: Twist, u: Twist)
    ensures Symbol(t) == Symbol(u) <==> t == u
  {
    SymbolRoundTrip(t);
    SymbolRoundTrip(u);
  }

  lemma {:induction false} CodeLessTotal(u: History, w: History)
    ensures CodeLess(u, w) || CodeLess(w, u) || u == w
  {
    if u != [] && w != [] {
      SymbolsDiffer(u[0], w[0]);
      CodeLessTotal(u[1..], w[1..]);
      assert u == [u[0]] + u[1..] && w == [w[0]] + w[1..];
    }
  }

  lemma {:induction false} CodeLessTransitive(u: History, v: History, w: History)
    requires CodeLess(u, v) && CodeLess(v, w)
    ensures CodeLess(u, w)
  {
    if u != [] {
      SymbolsDiffer(u[0], v[0]);
      SymbolsDiffer(v[0], w[0]);
      if u[0] == v[0] == w[0] {
        CodeLessTransitive(u[1..], v[1..], w[1..]);
      }
    }
  }

  lemma {:induction false} CodeLessIrreflexive(u: History)
    ensures !CodeLess(u, u)
  {
    if u != [] {
      CodeLessIrreflexive(u[1..]);
    }
  }

  /** The comparator of the ranking, as "sorts strictly before". */
  predicate Precedes(a: Closure, b: Closure) {
    var ea, eb := MaxExcursion(a.history), MaxExcursion(b.history);
    ea < eb || (ea == eb && (a.depth < b.depth || (a.depth == b.depth &&
      (PhaseRank(a.phase) < PhaseRank(b.phase) || (PhaseRank(a.phase) == PhaseRank(b.phase) &&
        CodeLess(a.history, b.history))))))
  }

  lemma PrecedesTransitive(a: Closure, b: Closure, c: Closure)
    requires Precedes(a, b) && Precedes(b, c)
    ensures Precedes(a, c)
  {
    hide MaxExcursion, CodeLess;
    if CodeLess(a.history, b.history) && CodeLess(b.history, c.history) {
      CodeLessTransitive(a.history, b.history, c.history);
    }
  }

  function Insert(c: Closure, sorted: seq<Closure>): seq<Closure> {
    if sorted == [] || Precedes(c, sorted[0]) then [c] + sorted
    else [sorted[0]] + Insert(c, sorted[1..])
  }

  /** The events in ranking order; equal ones keep their order. */
  function Ranked(events: seq<Closure>): seq<Closure> {
    if events == [] then [] else Insert(events[|events| - 1], Ranked(events[..|events| - 1]))
  }

  lemma {:induction false} InsertBag(c: Closure, sorted: seq<Closure>)
    ensures multiset(Insert(c, sorted)) == multiset(sorted) + multiset{c}
  {
    if !(sorted == [] || Precedes(c, sorted[0])) {
      InsertBag(c, sorted[1..]);
      assert sorted == [sorted[0]] + sorted[1..];
    }
  }

  lemma {:induction false} RankedBag(events: seq<Closure>)
    ensures multiset(Ranked(events)) == multiset(events)
  {
    if events != [] {
      var n := |events| - 1;
      RankedBag(events[..n]);
      InsertBag(events[n], Ranked(events[..n]));
      assert events == events[..n] + [events[n]];
    }
  }

  /** Nothing that comes later in the ranking sorts strictly before what is earlier. */
  ghost predicate InOrder(s: seq<Closure>) {
    forall i, j :: 0 <= i < j < |s| ==> !Precedes(s[j], s[i])
  }

  lemma {:induction false} InsertInOrder(c: Closure, s: seq<Closure>)
    requires InOrder(s)
    ensures InOrder(Insert(c, s))
    ensures forall x :: x in Insert(c, s) <==> x == c || x in s
  {
    hide Precedes;
    if s == [] {
    } else if Precedes(c, s[0]) {
      forall j | 0 <= j < |s|
        ensures !Precedes(s[j], c)
      {
        if Precedes(s[j], c) {
          PrecedesTransitive(s[j], c, s[0]);
          if j == 0 {
            PrecedesIrreflexive(s[0]);
          }
        }
      }
    } else {
      assert forall x :: x in s <==> x == s[0] || x in s[1..];
      InsertInOrder(c, s[1..]);
      var r := Insert(c, s[1..]);
      forall j | 0 <= j < |r|
        ensures !Precedes(r[j], s[0])
      {
        assert r[j] in r;
      }
    }
  }

  lemma PrecedesIrreflexive(a: Closure)
    ensures !Precedes(a, a)
  {
    hide MaxExcursion, CodeLess;
    CodeLessIrreflexive(a.history);
  }

  /** The ranking is a reordering of the events in which none sorts before an earlier one. */
  lemma {:induction false} RankedInOrder(events: seq<Closure>)
    ensures InOrder(Ranked(events)) && multiset(Ranked(events)) == multiset(events)
  {
    RankedBag(events);
    if events != [] {
      RankedInOrder(events[..|events| - 1]);
      InsertInOrder(events[|events| - 1], Ranked(events[..|events| - 1]));
    }
  }

  /** The head of the ranking is one of the events, and none sorts before it. */
  lemma RankedHead(events: seq<Closure>)
    requires events != []
    ensures Ranked(events) != [] && Ranked(events)[0] in events
    ensures forall e :: e in events ==> !Precedes(e, Ranked(events)[0])
  {
    hide Precedes, Ranked;
    RankedInOrder(events);
    var r := Ranked(events);
    assert |r| == |multiset(r)| == |multiset(events)| == |events|;
    assert r[0] in multiset(events);
    forall e | e in events
      ensures !Precedes(e, r[0])
    {
      assert e in multiset(r);
      var i :| 0 <= i < |r| && r[i] == e;
      if i == 0 {
        PrecedesIrreflexive(e);
      }
    }
  }

  // The shallowest closures

  function Floor(seed: History): nat { Free(Need(seed)) }

  /** Has the twist a share in the residual: does taking it bring the residual down? */
  predicate Reduces(need: Action, t: Twist) {
    match t
    case Up => need.v > 0
    case Down => need.v < 0
    case Right => need.h > 0
    case Left => need.h < 0
    case Slash => need.d > 0
    case BSlash => need.d < 0
    case Plus => need.l > 0
    case Minus => need.l < 0
  }

  function After(need: Action, t: Twist): Action {
    var u := Unit(t);
    Action(need.v - u.v, need.h - u.h, need.d - u.d, need.l - u.l)
  }

  lemma AfterFree(need: Action, t: Twist)
    ensures Free(After(need, t)) == if Reduces(need, t) then Free(need) - 1 else Free(need) + 1
  {
  }

  function Prepend(t: Twist, ws: seq<History>): (r: seq<History>)
    ensures |r| == |ws|
    ensures forall w :: w in ws ==> [t] + w in r
  {
    if ws == [] then [] else [[t] + ws[0]] + Prepend(t, ws[1..])
  }

  /** The words of length `n` that take the residual down at every step. */
  function Descents(n: nat, need: Action): seq<History>
    decreases n, 1
  {
    if n == 0 then [[]]
    else
      Through(n, need, Up) + Through(n, need, Down) + Through(n, need, Right) + Through(n, need, Left) +
      Through(n, need, Slash) + Through(n, need, BSlash) + Through(n, need, Plus) + Through(n, need, Minus)
  }

  function Through(n: nat, need: Action, t: Twist): seq<History>
    requires n >= 1
    decreases n, 0
  {
    if Reduces(need, t) then Prepend(t, Descents(n - 1, After(need, t))) else []
  }

  lemma InDescents(n: nat, need: Action, t: Twist, w: History)
    requires n >= 1 && w in Through(n, need, t)
    ensures w in Descents(n, need)
  {
    hide Through;
    match t
    case Up =>
    case Down =>
    case Right =>
    case Left =>
    case Slash =>
    case BSlash =>
    case Plus =>
    case Minus =>
  }

  /** A word as short as the residual takes it down at every step. */
  lemma {:induction false} ShortestWordsDescend(w: History, need: Action)
    requires SignedAction(w) == need && |w| == Free(need)
    ensures w in Descents(|w|, need)
  {
    hide SignedAction;
    if w != [] {
      var t, rest := w[0], w[1..];
      ActionCons(w);
      AfterFree(need, t);
      FreeActionWithinLength(rest);
      assert SignedAction(rest) == After(need, t);
      ShortestWordsDescend(rest, After(need, t));
      assert w == [t] + rest;
      InDescents(|w|, need, t, w);
    } else {
      assert w == [];
    }
  }

  /** At most four twists reduce a residual, and never more than it has steps left. */
  function Bound(n: nat): (b: nat)
    ensures b >= 1
  {
    if n == 0 then 1 else Min(4, n) * Bound(n - 1)
  }

  function Hits(need: Action, t: Twist): nat { if Reduces(need, t) then 1 else 0 }

  lemma ReducersAreFew(need: Action)
    ensures Hits(need, Up) + Hits(need, Down) + Hits(need, Right) + Hits(need, Left) + Hits(need, Slash)
          + Hits(need, BSlash) + Hits(need, Plus) + Hits(need, Minus) <= Min(4, Free(need))
  {
  }

  lemma {:induction false} DescentsAreFew(n: nat, need: Action)
    requires Free(need) == n
    ensures |Descents(n, need)| <= Bound(n)
    decreases n, 1
  {
    hide Through, Reduces, Hits, Min, Free;
    if n != 0 {
      var b := Bound(n - 1);
      ThroughIsFew(n, need, Up);
      ThroughIsFew(n, need, Down);
      ThroughIsFew(n, need, Right);
      ThroughIsFew(n, need, Left);
      ThroughIsFew(n, need, Slash);
      ThroughIsFew(n, need, BSlash);
      ThroughIsFew(n, need, Plus);
      ThroughIsFew(n, need, Minus);
      ReducersAreFew(need);
      var k := Hits(need, Up) + Hits(need, Down) + Hits(need, Right) + Hits(need, Left) + Hits(need, Slash)
             + Hits(need, BSlash) + Hits(need, Plus) + Hits(need, Minus);
      Distribute(Hits(need, Up), Hits(need, Down), Hits(need, Right), Hits(need, Left),
                 Hits(need, Slash), Hits(need, BSlash), Hits(need, Plus), Hits(need, Minus), b);
      TimesMonotone(k, Min(4, n), b);
    }
  }

  lemma Distribute(h0: nat, h1: nat, h2: nat, h3: nat, h4: nat, h5: nat, h6: nat, h7: nat, b: nat)
    ensures h0 * b + h1 * b + h2 * b + h3 * b + h4 * b + h5 * b + h6 * b + h7 * b
         == (h0 + h1 + h2 + h3 + h4 + h5 + h6 + h7) * b
  {
  }

  lemma TimesMonotone(j: nat, k: nat, b: nat)
    requires j <= k
    ensures j * b <= k * b
  {
  }

  lemma {:induction false} ThroughIsFew(n: nat, need: Action, t: Twist)
    requires n >= 1 && Free(need) == n
    ensures |Through(n, need, t)| <= Hits(need, t) * Bound(n - 1)
    decreases n, 0
  {
    AfterFree(need, t);
    if Reduces(need, t) {
      DescentsAreFew(n - 1, After(need, t));
    }
  }
}
