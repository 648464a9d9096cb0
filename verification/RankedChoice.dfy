/** Instant-runoff: the reference election, the loop that runs it, and its laws. */
module RankedChoice {
  import opened Options
  import opened Ballots

  // String order, as the tie-break's `sort` compares ids

  predicate IdLess(a: Id, b: Id) {
    if a == "" then b != "" else b != "" && (a[0] < b[0] || (a[0] == b[0] && IdLess(a[1..], b[1..])))
  }

  lemma {:induction false} IdLessTotal(a: Id, b: Id)
    ensures IdLess(a, b) || IdLess(b, a) || a == b
  {
    if a != "" && b != "" {
      IdLessTotal(a[1..], b[1..]);
      assert a == [a[0]] + a[1..] && b == [b[0]] + b[1..];
    }
  }

  lemma {:induction false} IdLessAsymmetric(a: Id, b: Id)
    requires IdLess(a, b)
    ensures !IdLess(b, a)
  {
    if a != "" && a[0] == b[0] {
      IdLessAsymmetric(a[1..], b[1..]);
    }
  }

  lemma {:induction false} IdLessTransitive(a: Id, b: Id, c: Id)
    requires IdLess(a, b) && IdLess(b, c)
    ensures IdLess(a, c)
  {
    if a != "" && a[0] == b[0] == c[0] {
      IdLessTransitive(a[1..], b[1..], c[1..]);
    }
  }

  // The reference election

  datatype IrvRound = IrvRound(counts: map<Id, real>, eliminated: Option<Id>, exhausted: real)

  datatype Election = Election(rounds: seq<IrvRound>, winner: Option<Id>)

  function Continuing(votes: seq<Vote>, elim: set<Id>): real { Total(votes) - Exhausted(votes, elim) }

  /** What a round shows: the tally of what still stands, and -1 for what does not. */
  function Display(ids: set<Id>, votes: seq<Vote>, elim: set<Id>): map<Id, real> {
    map id | id in ids :: if id in elim then -1.0 else Tally(votes, elim, id)
  }

  /** More than half of the ballots that are not exhausted. */
  predicate HasMajority(votes: seq<Vote>, elim: set<Id>, id: Id) {
    Tally(votes, elim, id) * 2.0 > Continuing(votes, elim)
  }

  /** Fewest votes, and the smallest id among those with fewest. */
  ghost predicate IsVictim(standing: set<Id>, votes: seq<Vote>, elim: set<Id>, v: Id) {
    v in standing &&
    forall u :: u in standing && u != v ==>
      Tally(votes, elim, v) < Tally(votes, elim, u) || (Tally(votes, elim, v) == Tally(votes, elim, u) && IdLess(v, u))
  }

  lemma {:induction false} VictimExists(standing: set<Id>, votes: seq<Vote>, elim: set<Id>) returns (v: Id)
    requires standing != {}
    ensures IsVictim(standing, votes, elim, v)
  {
    hide Tally, IdLess;
    var x :| x in standing;
    if standing == {x} {
      v := x;
    } else {
      v := VictimExists(standing - {x}, votes, elim);
      IdLessTotal(v, x);
      if !(Tally(votes, elim, v) < Tally(votes, elim, x) ||
           (Tally(votes, elim, v) == Tally(votes, elim, x) && IdLess(v, x))) {
        forall u | u in standing && u != x
          ensures Tally(votes, elim, x) < Tally(votes, elim, u) ||
                  (Tally(votes, elim, x) == Tally(votes, elim, u) && IdLess(x, u))
        {
          if u != v && IdLess(x, v) && IdLess(v, u) {
            IdLessTransitive(x, v, u);
          }
        }
        v := x;
      }
    }
  }

  lemma VictimIsUnique(standing: set<Id>, votes: seq<Vote>, elim: set<Id>, v: Id, u: Id)
    requires IsVictim(standing, votes, elim, v) && IsVictim(standing, votes, elim, u)
    ensures v == u
  {
    hide Tally, IdLess;
    if v != u && IdLess(v, u) {
      IdLessAsymmetric(v, u);
    }
  }

  lemma SomeVictim(standing: set<Id>, votes: seq<Vote>, elim: set<Id>)
    requires standing != {}
    ensures exists v :: IsVictim(standing, votes, elim, v)
  {
    var v := VictimExists(standing, votes, elim);
  }

  ghost function Victim(standing: set<Id>, votes: seq<Vote>, elim: set<Id>): (v: Id)
    requires standing != {}
    ensures IsVictim(standing, votes, elim, v)
  {
    SomeVictim(standing, votes, elim);
    var v :| IsVictim(standing, votes, elim, v);
    v
  }

  lemma MajorityIsUnique(votes: seq<Vote>, ids: set<Id>, elim: set<Id>, x: Id, y: Id)
    requires AllCountable(votes, ids) && HasMajority(votes, elim, x) && HasMajority(votes, elim, y)
    ensures x == y
  {
    if x != y {
      PairWithinTotal(votes, elim, x, y);
    }
  }

  /** With ballots left and no majority, at least two options stand. */
  lemma TwoStandWithoutMajority(votes: seq<Vote>, ids: set<Id>, elim: set<Id>)
    requires AllCountable(votes, ids) && Continuing(votes, elim) != 0.0
    requires forall id :: id in ids - elim ==> !HasMajority(votes, elim, id)
    ensures |ids - elim| >= 2
  {
    hide Tally, Exhausted, Total;
    var standing := ids - elim;
    if standing == {} {
      assert forall x :: x in ids ==> x !in standing;
      NoneStandingExhaustsAll(votes, ids, elim);
    } else {
      var x :| x in standing;
      if standing == {x} {
        LastOneLeadsAll(votes, ids, elim, x);
        ContinuingNonNegative(votes, ids, elim);
      } else {
        assert standing == {x} + (standing - {x});
        var y :| y in standing - {x};
        assert |{x, y}| == 2 && {x, y} <= standing;
        SubsetSize({x, y}, standing);
      }
    }
  }

  lemma SubsetSize(a: set<Id>, b: set<Id>)
    requires a <= b
    ensures |a| <= |b|
  {
    assert b == a + (b - a);
  }

  lemma {:induction false} ContinuingNonNegative(votes: seq<Vote>, ids: set<Id>, elim: set<Id>)
    requires AllCountable(votes, ids)
    ensures Continuing(votes, elim) >= 0.0
  {
    if votes != [] {
      ContinuingNonNegative(votes[..|votes| - 1], ids, elim);
    }
  }

  /** The election, round by round, on the set of options. */
  ghost function Irv(ids: set<Id>, votes: seq<Vote>, elim: set<Id>): Election
    requires AllCountable(votes, ids)
    decreases |ids - elim|
  {
    var exhausted := Exhausted(votes, elim);
    var last := IrvRound(Display(ids, votes, elim), None, exhausted);
    if Continuing(votes, elim) == 0.0 then Election([last], None)
    else if exists w :: w in ids - elim && HasMajority(votes, elim, w) then
      var w :| w in ids - elim && HasMajority(votes, elim, w);
      Election([last], Some(w))
    else
      TwoStandWithoutMajority(votes, ids, elim);
      var v := Victim(ids - elim, votes, elim);
      FewerStand(ids, elim, v);
      var rest := Irv(ids, votes, elim + {v});
      Election([last.(eliminated := Some(v))] + rest.rounds, rest.winner)
  }

  lemma FewerStand(ids: set<Id>, elim: set<Id>, v: Id)
    requires v in ids - elim
    ensures |ids - (elim + {v})| == |ids - elim| - 1
  {
    assert ids - (elim + {v}) == (ids - elim) - {v};
  }

  // The tallying loop

  predicate Distinct(ids: seq<Id>) { forall i, j :: 0 <= i < j < |ids| ==> ids[i] != ids[j] }

  function AsSet(ids: seq<Id>): set<Id> { set id | id in ids }

  /** One pass over the ballots: counts per option and the exhausted weight. */
  method CountRound(ids: seq<Id>, votes: seq<Vote>, elim: set<Id>) returns (counts: map<Id, real>, exhausted: real)
    requires AllCountable(votes, AsSet(ids))
    ensures counts == map id | id in AsSet(ids) :: Tally(votes, elim, id)
    ensures exhausted == Exhausted(votes, elim)
  {
    var options := AsSet(ids);
    counts := map id | id in options :: 0.0;
    exhausted := 0.0;
    for i := 0 to |votes|
      invariant counts == map id | id in options :: Tally(votes[..i], elim, id)
      invariant exhausted == Exhausted(votes[..i], elim)
    {
      assert votes[..i + 1][..i] == votes[..i];
      var b := votes[i];
      TopStands(b.ranks, elim);
      match Top(b.ranks, elim)
      case None => exhausted := exhausted + b.w;
      case Some(top) => counts := counts[top := counts[top] + b.w];
    }
    assert votes[..|votes|] == votes;
  }

  method StandingOf(ids: seq<Id>, elim: set<Id>) returns (standing: seq<Id>)
    requires Distinct(ids)
    ensures AsSet(standing) == AsSet(ids) - elim && Distinct(standing) && |standing| == |AsSet(ids) - elim|
  {
    standing := [];
    for i := 0 to |ids|
      invariant AsSet(standing) == AsSet(ids[..i]) - elim && Distinct(standing)
    {
      assert AsSet(ids[..i + 1]) == AsSet(ids[..i]) + {ids[i]};
      assert ids[i] !in ids[..i];
      if ids[i] !in elim {
        assert AsSet(standing + [ids[i]]) == AsSet(standing) + {ids[i]};
        standing := standing + [ids[i]];
      }
    }
    assert ids[..|ids|] == ids;
    SetSize(standing);
  }

  lemma {:induction false} SetSize(ids: seq<Id>)
    requires Distinct(ids)
    ensures |AsSet(ids)| == |ids|
  {
    if ids != [] {
      var n := |ids| - 1;
      SetSize(ids[..n]);
      assert AsSet(ids) == AsSet(ids[..n]) + {ids[n]};
      assert ids[n] !in ids[..n];
    }
  }

  /** The largest count among the standing options, -1 when none stands. */
  method LeaderCount(standing: seq<Id>, counts: map<Id, real>) returns (leader: real)
    requires forall id :: id in standing ==> id in counts && counts[id] >= 0.0
    ensures forall id :: id in standing ==> counts[id] <= leader
    ensures if standing == [] then leader == -1.0 else exists id :: id in standing && counts[id] == leader
  {
    leader := -1.0;
    for i := 0 to |standing|
      invariant forall j :: 0 <= j < i ==> counts[standing[j]] <= leader
      invariant if i == 0 then leader == -1.0 else exists j :: 0 <= j < i && counts[standing[j]] == leader
    {
      if counts[standing[i]] > leader {
        leader := counts[standing[i]];
      }
    }
  }

  /** The lowest count, then the smallest id with that count. */
  method PickVictim(standing: seq<Id>, counts: map<Id, real>) returns (victim: Id)
    requires standing != [] && Distinct(standing) && forall id :: id in standing ==> id in counts
    ensures victim in standing
    ensures forall u :: u in standing && u != victim ==>
              counts[victim] < counts[u] || (counts[victim] == counts[u] && IdLess(victim, u))
  {
    hide IdLess;
    var minCount := counts[standing[0]];
    for i := 1 to |standing|
      invariant forall j :: 0 <= j < i ==> minCount <= counts[standing[j]]
      invariant exists j :: 0 <= j < i && counts[standing[j]] == minCount
    {
      if counts[standing[i]] < minCount {
        minCount := counts[standing[i]];
      }
    }
    var k :| 0 <= k < |standing| && counts[standing[k]] == minCount;
    victim := standing[k];
    for i := 0 to |standing|
      invariant victim in standing && counts[victim] == minCount
      invariant forall j :: 0 <= j < i && counts[standing[j]] == minCount && standing[j] != victim ==>
                IdLess(victim, standing[j])
    {
      if counts[standing[i]] == minCount && IdLess(standing[i], victim) {
        ghost var was := victim;
        victim := standing[i];
        forall j | 0 <= j < i && counts[standing[j]] == minCount && standing[j] != victim
          ensures IdLess(victim, standing[j])
        {
          if standing[j] != was {
            IdLessTransitive(victim, was, standing[j]);
          }
        }
      } else {
        IdLessTotal(standing[i], victim);
      }
    }
  }

  method WithCount(standing: seq<Id>, counts: map<Id, real>, leader: real, ghost w: Id) returns (winners: seq<Id>)
    requires Distinct(standing) && w in standing && forall id :: id in standing ==>
             id in counts && (counts[id] == leader <==> id == w)
    ensures winners == [w]
  {
    winners := [];
    for i := 0 to |standing|
      invariant winners == if w in standing[..i] then [w] else []
    {
      assert standing[i] !in standing[..i];
      if counts[standing[i]] == leader {
        winners := winners + [standing[i]];
      }
    }
    assert standing[..|standing|] == standing;
  }

  method CollectVotes(entries: seq<Entry>, valid: set<Id>, weights: Weights) returns (votes: seq<Vote>, total: real)
    ensures votes == Votes(entries, valid, weights) && total == Total(votes)
  {
    votes, total := [], 0.0;
    for i := 0 to |entries|
      invariant votes == Votes(entries[..i], valid, weights) && total == Total(votes)
    {
      assert entries[..i + 1][..i] == entries[..i];
      var ranks := CleanBallot(entries[i].ballot, valid);
      var w := BallotWeight(weights, entries[i].peer);
      if ranks != [] && w > 0.0 {
        assert (votes + [Vote(ranks, w)])[..|votes|] == votes;
        votes := votes + [Vote(ranks, w)];
        total := total + w;
      }
    }
    assert entries[..|entries|] == entries;
  }

  /** The reference election of a poll. */
  ghost function ElectionOf(options: seq<Id>, entries: seq<Entry>, weights: Weights): Election {
    VotesAreCountable(entries, AsSet(options), weights);
    Irv(AsSet(options), Votes(entries, AsSet(options), weights), {})
  }

  function Winners(e: Election): seq<Id> { if e.winner.Some? then [e.winner.value] else [] }

  lemma IrvEnds(ids: set<Id>, votes: seq<Vote>, elim: set<Id>, w: Id)
    requires AllCountable(votes, ids) && Continuing(votes, elim) != 0.0
    requires w in ids - elim && HasMajority(votes, elim, w)
    ensures Irv(ids, votes, elim) ==
            Election([IrvRound(Display(ids, votes, elim), None, Exhausted(votes, elim))], Some(w))
  {
    hide Exhausted, Tally, Display, HasMajority;
    forall x | x in ids - elim && HasMajority(votes, elim, x)
      ensures x == w
    {
      MajorityIsUnique(votes, ids, elim, x, w);
    }
  }

  lemma IrvEliminates(ids: set<Id>, votes: seq<Vote>, elim: set<Id>, v: Id)
    requires AllCountable(votes, ids) && Continuing(votes, elim) != 0.0
    requires forall w :: w in ids - elim ==> !HasMajority(votes, elim, w)
    requires IsVictim(ids - elim, votes, elim, v)
    ensures var rest := Irv(ids, votes, elim + {v});
            Irv(ids, votes, elim) ==
              Election([IrvRound(Display(ids, votes, elim), Some(v), Exhausted(votes, elim))] + rest.rounds,
                rest.winner)
  {
    hide Exhausted, Tally, Display, HasMajority;
    assert v in ids - elim;
    VictimIsUnique(ids - elim, votes, elim, v, Victim(ids - elim, votes, elim));
  }

  method TotalOf(votes: seq<Vote>) returns (total: real)
    ensures total == Total(votes)
  {
    total := 0.0;
    for i := 0 to |votes|
      invariant total == Total(votes[..i])
    {
      assert votes[..i + 1][..i] == votes[..i];
      total := total + votes[i].w;
    }
    assert votes[..|votes|] == votes;
  }

  lemma TalliesNonNegative(votes: seq<Vote>, ids: set<Id>, elim: set<Id>)
    requires AllCountable(votes, ids)
    ensures forall id :: Tally(votes, elim, id) >= 0.0
  {
    hide Tally;
    forall id
      ensures Tally(votes, elim, id) >= 0.0
    {
      PairWithinTotal(votes, elim, id, id + "x");
    }
  }

  /** One turn of the loop: either it settles the election or it eliminates one option. */
  method PlayRound(ids: seq<Id>, votes: seq<Vote>, elim: set<Id>, total: real)
      returns (round: IrvRound, over: bool, winners: seq<Id>)
    requires Distinct(ids) && AllCountable(votes, AsSet(ids)) && total == Total(votes)
    ensures over ==> Irv(AsSet(ids), votes, elim).rounds == [round] && winners == Winners(Irv(AsSet(ids), votes, elim))
    ensures !over ==> round.eliminated.Some? && round.eliminated.value in AsSet(ids) - elim
    ensures !over ==> var rest := Irv(AsSet(ids), votes, elim + {round.eliminated.value});
                      Irv(AsSet(ids), votes, elim) == Election([round] + rest.rounds, rest.winner)
  {
    hide Tally, Exhausted, Total, IdLess, AllCountable;
    ghost var all := AsSet(ids);
    var counts, exhausted := CountRound(ids, votes, elim);
    var continuing := total - exhausted;
    var display := map id | id in counts :: if id in elim then -1.0 else counts[id];
    assert display == Display(all, votes, elim);
    var standing := StandingOf(ids, elim);
    assert forall id :: id in standing <==> id in AsSet(standing);
    if continuing == 0.0 {
      return IrvRound(display, None, exhausted), true, [];
    }
    TalliesNonNegative(votes, all, elim);
    var leader := LeaderCount(standing, counts);
    if leader * 2.0 > continuing {
      ContinuingNonNegative(votes, all, elim);
      ghost var w :| w in standing && counts[w] == leader;
      forall id | id in standing
        ensures counts[id] == leader <==> id == w
      {
        if counts[id] == leader {
          MajorityIsUnique(votes, all, elim, id, w);
        }
      }
      winners := WithCount(standing, counts, leader, w);
      IrvEnds(all, votes, elim, w);
      return IrvRound(display, None, exhausted), true, winners;
    }
    TwoStandWithoutMajority(votes, all, elim);
    var victim := PickVictim(standing, counts);
    assert IsVictim(all - elim, votes, elim, victim);
    IrvEliminates(all, votes, elim, victim);
    return IrvRound(display, Some(victim), exhausted), false, [];
  }

  /** The loop over rounds. It always returns from inside: the bound on its turns is
      never what ends it. */
  method RunRounds(ids: seq<Id>, votes: seq<Vote>) returns (rounds: seq<IrvRound>, winners: seq<Id>)
    requires Distinct(ids) && AllCountable(votes, AsSet(ids))
    ensures rounds == Irv(AsSet(ids), votes, {}).rounds && winners == Winners(Irv(AsSet(ids), votes, {}))
  {
    hide Irv, Distinct, AllCountable, Total;
    ghost var all := AsSet(ids);
    ghost var goal := Irv(all, votes, {});
    var eliminated: set<Id> := {};
    rounds, winners := [], [];
    var total := TotalOf(votes);
    SetSize(ids);
    var guard := 0;
    while guard <= |ids|
      invariant eliminated <= all && |eliminated| == guard <= |ids|
      invariant rounds + Irv(all, votes, eliminated).rounds == goal.rounds
      invariant Irv(all, votes, eliminated).winner == goal.winner
    {
      var round, over, settled := PlayRound(ids, votes, eliminated, total);
      if over {
        return rounds + [round], settled;
      }
      rounds := rounds + [round];
      eliminated := eliminated + {round.eliminated.value};
      SubsetSize(eliminated, all);
      guard := guard + 1;
    }
    assert false;
  }

  /** The tally of a poll: the rounds and the winner of the reference election on the
      set of its options and the ballots that take part. */
  method TallyRanked(options: seq<Id>, entries: seq<Entry>, weights: Weights)
      returns (rounds: seq<IrvRound>, winners: seq<Id>, total: real)
    requires Distinct(options)
    ensures rounds == ElectionOf(options, entries, weights).rounds
    ensures winners == Winners(ElectionOf(options, entries, weights))
    ensures total == Total(Votes(entries, AsSet(options), weights))
  {
    hide Irv;
    var votes;
    votes, total := CollectVotes(entries, AsSet(options), weights);
    VotesAreCountable(entries, AsSet(options), weights);
    rounds, winners := RunRounds(options, votes);
  }

  // Laws

  /** Somebody wins as soon as one ballot takes part, whatever is eliminated on the way. */
  lemma {:induction false} SomeoneWins(ids: set<Id>, votes: seq<Vote>, elim: set<Id>)
    requires AllCountable(votes, ids) && Continuing(votes, elim) > 0.0
    ensures Irv(ids, votes, elim).winner.Some? && Irv(ids, votes, elim).winner.value in ids - elim
    decreases |ids - elim|
  {
    hide Tally, Exhausted, Total;
    if forall w :: w in ids - elim ==> !HasMajority(votes, elim, w) {
      TwoStandWithoutMajority(votes, ids, elim);
      var v := Victim(ids - elim, votes, elim);
      FewerStand(ids, elim, v);
      EliminationExhausts(votes, elim, v);
      SomeoneWins(ids, votes, elim + {v});
    }
  }

  /** Exactly one winner when some valid ballot carries positive weight, none otherwise. */
  lemma OneWinnerIffAnyVote(options: seq<Id>, entries: seq<Entry>, weights: Weights)
    ensures var votes := Votes(entries, AsSet(options), weights);
            |Winners(ElectionOf(options, entries, weights))| == if votes == [] then 0 else 1
  {
    hide Irv, Votes;
    var votes := Votes(entries, AsSet(options), weights);
    VotesAreCountable(entries, AsSet(options), weights);
    NothingExhaustedAtFirst(votes, AsSet(options));
    if votes == [] {
      NobodyWinsNothing(AsSet(options));
    } else {
      SomeoneWins(AsSet(options), votes, {});
    }
  }

  lemma NobodyWinsNothing(ids: set<Id>)
    ensures Irv(ids, [], {}).winner == None
  {
  }

  /** Sum of the tallies of a set of options. */
  ghost function SumTallies(s: set<Id>, votes: seq<Vote>, elim: set<Id>): real {
    if s == {} then 0.0
    else
      var x :| x in s;
      Tally(votes, elim, x) + SumTallies(s - {x}, votes, elim)
  }

  lemma {:induction false} SumTalliesSplit(s: set<Id>, votes: seq<Vote>, elim: set<Id>)
    requires votes != []
    ensures var n := |votes| - 1;
            var top := Top(votes[n].ranks, elim);
            SumTallies(s, votes, elim) ==
              SumTallies(s, votes[..n], elim) + (if top.Some? && top.value in s then votes[n].w else 0.0)
  {
    hide Top;
    if s != {} {
      var x :| x in s && SumTallies(s, votes, elim) == Tally(votes, elim, x) + SumTallies(s - {x}, votes, elim);
      SumTalliesSplit(s - {x}, votes, elim);
      SumTalliesTake(s, votes[..|votes| - 1], elim, x);
      assert Tally(votes, elim, x) == Tally(votes[..|votes| - 1], elim, x)
        + (if Top(votes[|votes| - 1].ranks, elim) == Some(x) then votes[|votes| - 1].w else 0.0);
    }
  }

  lemma {:induction false} SumTalliesTake(s: set<Id>, votes: seq<Vote>, elim: set<Id>, x: Id)
    requires x in s
    ensures SumTallies(s, votes, elim) == Tally(votes, elim, x) + SumTallies(s - {x}, votes, elim)
  {
    hide Tally;
    var y :| y in s && SumTallies(s, votes, elim) == Tally(votes, elim, y) + SumTallies(s - {y}, votes, elim);
    if y != x {
      SumTalliesTake(s - {y}, votes, elim, x);
      SumTalliesTake(s - {x}, votes, elim, y);
      assert s - {y} - {x} == s - {x} - {y};
    }
  }

  /** In every round the tallies of the standing options and the exhausted weight add up
      to the whole weight cast, and nothing eliminated is credited. */
  lemma {:induction false} CountsAddUp(ids: set<Id>, votes: seq<Vote>, elim: set<Id>)
    requires AllCountable(votes, ids)
    ensures SumTallies(ids - elim, votes, elim) + Exhausted(votes, elim) == Total(votes)
  {
    if votes == [] {
      SumOfNothing(ids - elim, elim);
    } else {
      CountsAddUp(ids, votes[..|votes| - 1], elim);
      SumTalliesSplit(ids - elim, votes, elim);
      TopStands(votes[|votes| - 1].ranks, elim);
    }
  }

  lemma {:induction false} SumOfNothing(s: set<Id>, elim: set<Id>)
    ensures SumTallies(s, [], elim) == 0.0
  {
    if s != {} {
      var x :| x in s && SumTallies(s, [], elim) == Tally([], elim, x) + SumTallies(s - {x}, [], elim);
      SumOfNothing(s - {x}, elim);
      assert Tally([], elim, x) == 0.0;
    }
  }

  /** Sum of a round's displayed counts, the -1 of what is eliminated left aside. */
  ghost function SumShown(s: set<Id>, counts: map<Id, real>): real
    requires s <= counts.Keys
  {
    if s == {} then 0.0
    else
      var x :| x in s;
      (if counts[x] < 0.0 then 0.0 else counts[x]) + SumShown(s - {x}, counts)
  }

  lemma {:induction false} ShownIsTallied(s: set<Id>, ids: set<Id>, votes: seq<Vote>, elim: set<Id>)
    requires s <= ids && AllCountable(votes, ids)
    ensures SumShown(s, Display(ids, votes, elim)) == SumTallies(s - elim, votes, elim)
  {
    hide Tally;
    TalliesNonNegative(votes, ids, elim);
    var counts := Display(ids, votes, elim);
    if s != {} {
      var x :| x in s &&
        SumShown(s, counts) == (if counts[x] < 0.0 then 0.0 else counts[x]) + SumShown(s - {x}, counts);
      ShownIsTallied(s - {x}, ids, votes, elim);
      if x in elim {
        assert s - {x} - elim == s - elim;
      } else {
        SumTalliesTake(s - elim, votes, elim, x);
        assert s - elim - {x} == s - {x} - elim;
      }
    } else {
      assert s == {} && s - elim == {};
    }
  }

  /** Every reported round accounts for the whole weight cast. */
  lemma {:induction false} EveryRoundAddsUp(ids: set<Id>, votes: seq<Vote>, elim: set<Id>, i: nat)
    requires AllCountable(votes, ids) && i < |Irv(ids, votes, elim).rounds|
    ensures var r := Irv(ids, votes, elim).rounds[i];
            r.counts.Keys == ids && SumShown(ids, r.counts) + r.exhausted == Total(votes)
    decreases |ids - elim|
  {
    hide Tally, Exhausted, Total, SumShown, SumTallies, IdLess, AllCountable, HasMajority;
    CountsAddUp(ids, votes, elim);
    ShownIsTallied(ids, ids, votes, elim);
    if i > 0 {
      TwoStandWithoutMajority(votes, ids, elim);
      var v := Victim(ids - elim, votes, elim);
      FewerStand(ids, elim, v);
      EveryRoundAddsUp(ids, votes, elim + {v}, i - 1);
    }
  }

  /** A count never takes more rounds than there are options (one when there is none). */
  lemma {:induction false} RoundsWithinOptions(ids: set<Id>, votes: seq<Vote>, elim: set<Id>)
    requires AllCountable(votes, ids)
    ensures 1 <= |Irv(ids, votes, elim).rounds| <= if |ids - elim| > 1 then |ids - elim| else 1
    decreases |ids - elim|
  {
    hide Tally, Exhausted, Total;
    if Continuing(votes, elim) != 0.0 && forall w :: w in ids - elim ==> !HasMajority(votes, elim, w) {
      TwoStandWithoutMajority(votes, ids, elim);
      var v := Victim(ids - elim, votes, elim);
      FewerStand(ids, elim, v);
      RoundsWithinOptions(ids, votes, elim + {v});
    }
  }

  /** Rounds and winner depend neither on the order of the options nor on that of the ballots. */
  lemma ElectionIgnoresOrder(options: seq<Id>, entries: seq<Entry>, options2: seq<Id>, entries2: seq<Entry>,
      weights: Weights)
    requires multiset(options) == multiset(options2) && multiset(entries) == multiset(entries2)
    ensures ElectionOf(options, entries, weights) == ElectionOf(options2, entries2, weights)
  {
    hide Irv, Votes;
    forall x
      ensures x in options <==> x in options2
    {
      assert x in options <==> x in multiset(options);
      assert x in options2 <==> x in multiset(options2);
    }
    var ids := AsSet(options);
    assert ids == AsSet(options2);
    VotesIgnoreOrder(entries, entries2, ids, weights);
    VotesAreCountable(entries, ids, weights);
    VotesAreCountable(entries2, ids, weights);
    IrvIgnoresOrder(ids, Votes(entries, ids, weights), Votes(entries2, ids, weights), {});
  }

  lemma {:induction false} IrvIgnoresOrder(ids: set<Id>, votes: seq<Vote>, others: seq<Vote>, elim: set<Id>)
    requires AllCountable(votes, ids) && AllCountable(others, ids) && multiset(votes) == multiset(others)
    ensures Irv(ids, votes, elim) == Irv(ids, others, elim)
    decreases |ids - elim|
  {
    hide Tally, Exhausted, Total, AllCountable, IdLess;
    forall id
      ensures Tally(votes, elim, id) == Tally(others, elim, id)
      ensures Exhausted(votes, elim) == Exhausted(others, elim) && Total(votes) == Total(others)
    {
      SumsIgnoreOrder(votes, others, elim, id);
    }
    SumsIgnoreOrder(votes, others, elim, "");
    assert Display(ids, votes, elim) == Display(ids, others, elim);
    if Continuing(votes, elim) == 0.0 {
    } else if w :| w in ids - elim && HasMajority(votes, elim, w) {
      IrvEnds(ids, votes, elim, w);
      IrvEnds(ids, others, elim, w);
    } else {
      TwoStandWithoutMajority(votes, ids, elim);
      var v := Victim(ids - elim, votes, elim);
      FewerStand(ids, elim, v);
      IrvIgnoresOrder(ids, votes, others, elim + {v});
      IrvEliminates(ids, votes, elim, v);
      IrvEliminates(ids, others, elim, v);
    }
  }

  // Mutual majority

  /** Every member of `s` is ranked, and above everything outside `s`. */
  ghost predicate Solid(ranks: seq<Id>, s: set<Id>) {
    |s| <= |ranks| && AsSet(ranks[..|s|]) == s
  }

  /** Weight of the votes that rank all of `s` above everything else. */
  ghost function SolidWeight(votes: seq<Vote>, s: set<Id>): real {
    if votes == [] then 0.0
    else
      var v := votes[|votes| - 1];
      SolidWeight(votes[..|votes| - 1], s) + (if Solid(v.ranks, s) then v.w else 0.0)
  }

  /** While some of `s` stands, a solid ballot is led by one of them. */
  lemma {:induction false} SolidBallotLeads(ranks: seq<Id>, s: set<Id>, elim: set<Id>)
    requires Solid(ranks, s) && !(s <= elim)
    ensures Top(ranks, elim).Some? && Top(ranks, elim).value in s
  {
    TopWithin(ranks, |s|, elim);
  }

  lemma {:induction false} TopWithin(ranks: seq<Id>, k: nat, elim: set<Id>)
    requires k <= |ranks| && !(AsSet(ranks[..k]) <= elim)
    ensures Top(ranks, elim).Some? && Top(ranks, elim).value in AsSet(ranks[..k])
  {
    assert ranks[..k] == [ranks[0]] + ranks[1..][..k - 1];
    if ranks[0] in elim {
      assert AsSet(ranks[..k]) == {ranks[0]} + AsSet(ranks[1..][..k - 1]);
      TopWithin(ranks[1..], k - 1, elim);
    }
  }

  lemma {:induction false} OutsiderWithinRest(votes: seq<Vote>, s: set<Id>, elim: set<Id>, x: Id)
    requires x !in s && !(s <= elim) && forall i :: 0 <= i < |votes| ==> votes[i].w > 0.0
    ensures Tally(votes, elim, x) + SolidWeight(votes, s) <= Continuing(votes, elim)
  {
    if votes != [] {
      OutsiderWithinRest(votes[..|votes| - 1], s, elim, x);
      var v := votes[|votes| - 1];
      if Solid(v.ranks, s) {
        SolidBallotLeads(v.ranks, s, elim);
      }
    }
  }

  lemma {:induction false} LastOfSolidLeads(votes: seq<Vote>, s: set<Id>, elim: set<Id>, x: Id)
    requires s - elim == {x} && forall i :: 0 <= i < |votes| ==> votes[i].w > 0.0
    ensures Tally(votes, elim, x) >= SolidWeight(votes, s)
  {
    if votes != [] {
      LastOfSolidLeads(votes[..|votes| - 1], s, elim, x);
      var v := votes[|votes| - 1];
      if Solid(v.ranks, s) {
        assert x in s && x !in elim;
        SolidBallotLeads(v.ranks, s, elim);
        TopStands(v.ranks, elim);
        assert Top(v.ranks, elim).value in s - elim;
      }
    }
  }

  lemma ContinuingWithinTotal(votes: seq<Vote>, ids: set<Id>, elim: set<Id>)
    requires AllCountable(votes, ids)
    ensures Continuing(votes, elim) <= Total(votes)
  {
    PairWithinTotal(votes, elim, "", "a");
  }

  lemma {:induction false} SolidStaysInRace(ids: set<Id>, votes: seq<Vote>, elim: set<Id>, s: set<Id>)
    requires AllCountable(votes, ids) && !(s <= elim) && s <= ids
    requires SolidWeight(votes, s) * 2.0 > Total(votes) && Continuing(votes, elim) > 0.0
    ensures Irv(ids, votes, elim).winner.Some? && Irv(ids, votes, elim).winner.value in s
    decreases |ids - elim|
  {
    hide Tally, Exhausted, Total, SolidWeight;
    ContinuingWithinTotal(votes, ids, elim);
    if w :| w in ids - elim && HasMajority(votes, elim, w) {
      IrvEnds(ids, votes, elim, w);
      if w !in s {
        OutsiderWithinRest(votes, s, elim, w);
      }
    } else {
      TwoStandWithoutMajority(votes, ids, elim);
      var v := Victim(ids - elim, votes, elim);
      FewerStand(ids, elim, v);
      EliminationExhausts(votes, elim, v);
      IrvEliminates(ids, votes, elim, v);
      if s <= elim + {v} {
        assert s - elim == {v};
        LastOfSolidLeads(votes, s, elim, v);
      }
      SolidStaysInRace(ids, votes, elim + {v}, s);
    }
  }

  /** Mutual majority: when ballots holding more than half of the weight rank all of `s`
      above everything else, the winner is in `s`. */
  lemma MutualMajority(options: seq<Id>, entries: seq<Entry>, weights: Weights, s: set<Id>)
    requires s != {} && s <= AsSet(options)
    requires var votes := Votes(entries, AsSet(options), weights); SolidWeight(votes, s) * 2.0 > Total(votes)
    ensures ElectionOf(options, entries, weights).winner.Some? &&
            ElectionOf(options, entries, weights).winner.value in s
  {
    hide Irv, Votes, SolidWeight;
    var ids := AsSet(options);
    var votes := Votes(entries, ids, weights);
    VotesAreCountable(entries, ids, weights);
    NothingExhaustedAtFirst(votes, ids);
    if votes == [] {
      NoSolidWeight(s);
    }
    SolidStaysInRace(ids, votes, {}, s);
  }

  lemma NoSolidWeight(s: set<Id>)
    ensures SolidWeight([], s) == 0.0
  {
  }
}
