/** The ranked count told on the ballots as they were cast: who takes part, whom each ballot
    counts for, who goes in each round and why, and who wins. */
module PollLaws {
  import opened Options
  import opened Ballots
  import opened RankedChoice

  // Reading the entries

  /** One vote each where there is no table; with a table, what it says, and nothing for
      whoever it does not list. */
  function WeightOf(e: Entry, weights: Weights): real {
    if weights.None? then 1.0 else if e.peer in weights.value then weights.value[e.peer] else 0.0
  }

  /** Some valid option is named, and the weight is positive. */
  predicate TakesPart(e: Entry, options: set<Id>, weights: Weights) {
    (exists x :: x in e.ballot && x in options) && WeightOf(e, weights) > 0.0
  }

  /** The first option named that stands. */
  function Choice(ballot: seq<Id>, standing: set<Id>): (c: Option<Id>)
    ensures c.None? ==> forall x :: x in ballot ==> x !in standing
    ensures c.Some? ==> exists i :: 0 <= i < |ballot| && ballot[i] == c.value && c.value in standing &&
                                    forall j :: 0 <= j < i ==> ballot[j] !in standing
  {
    if ballot == [] then None
    else if ballot[0] in standing then Some(ballot[0])
    else
      var c := Choice(ballot[1..], standing);
      assert c.Some? ==> exists i :: 0 <= i < |ballot[1..]| && ballot[1..][i] == c.value && ballot[i + 1] == c.value &&
                                     forall j :: 0 <= j < i ==> ballot[1..][j] !in standing;
      c
  }

  /** The weight of the entries that take part. */
  function Cast(entries: seq<Entry>, options: set<Id>, weights: Weights): real {
    if entries == [] then 0.0
    else
      var n := |entries| - 1;
      Cast(entries[..n], options, weights) +
      (if TakesPart(entries[n], options, weights) then WeightOf(entries[n], weights) else 0.0)
  }

  /** The weight of those that count for `x` while `standing` stand. */
  function LedBy(entries: seq<Entry>, options: set<Id>, weights: Weights, standing: set<Id>, x: Id): real {
    if entries == [] then 0.0
    else
      var n := |entries| - 1;
      LedBy(entries[..n], options, weights, standing, x) +
      (if TakesPart(entries[n], options, weights) && Choice(entries[n].ballot, standing) == Some(x)
       then WeightOf(entries[n], weights) else 0.0)
  }

  /** The weight of those that name nobody who stands. */
  function Silent(entries: seq<Entry>, options: set<Id>, weights: Weights, standing: set<Id>): real {
    if entries == [] then 0.0
    else
      var n := |entries| - 1;
      Silent(entries[..n], options, weights, standing) +
      (if TakesPart(entries[n], options, weights) && Choice(entries[n].ballot, standing) == None
       then WeightOf(entries[n], weights) else 0.0)
  }

  // Cleaning and filtering change nothing of it

  lemma ChoiceIs(ballot: seq<Id>, standing: set<Id>, i: nat)
    requires i < |ballot| && ballot[i] in standing && forall j :: 0 <= j < i ==> ballot[j] !in standing
    ensures Choice(ballot, standing) == Some(ballot[i])
  {
  }

  lemma ChoiceSnoc(ballot: seq<Id>, x: Id, standing: set<Id>)
    ensures Choice(ballot + [x], standing) ==
            if Choice(ballot, standing).Some? then Choice(ballot, standing) else if x in standing then Some(x) else None
  {
    hide Choice;
    var c := Choice(ballot, standing);
    if c.Some? {
      var i :| 0 <= i < |ballot| && ballot[i] == c.value && c.value in standing &&
               forall j :: 0 <= j < i ==> ballot[j] !in standing;
      ChoiceIs(ballot + [x], standing, i);
    } else if x in standing {
      forall j | 0 <= j < |ballot|
        ensures (ballot + [x])[j] !in standing
      {
        assert ballot[j] in ballot;
      }
      ChoiceIs(ballot + [x], standing, |ballot|);
    } else {
      forall y | y in ballot + [x]
        ensures y !in standing
      {
        assert y in ballot || y == x;
      }
      ChoiceOfNone(ballot + [x], standing);
    }
  }

  lemma {:induction false} ChoiceOfNone(ballot: seq<Id>, standing: set<Id>)
    requires forall y :: y in ballot ==> y !in standing
    ensures Choice(ballot, standing) == None
  {
    if ballot != [] {
      ChoiceOfNone(ballot[1..], standing);
    }
  }

  lemma {:induction false} TopSnoc(ranks: seq<Id>, x: Id, elim: set<Id>)
    ensures Top(ranks + [x], elim) ==
            if Top(ranks, elim).Some? then Top(ranks, elim) else if x !in elim then Some(x) else None
  {
    if ranks != [] {
      TopSnoc(ranks[1..], x, elim);
      assert (ranks + [x])[1..] == ranks[1..] + [x];
    } else {
      assert ([x])[1..] == [];
    }
  }

  /** The top of a cleaned ballot is the first option of the raw one that stands. */
  lemma {:induction false} TopIsChoice(ballot: seq<Id>, options: set<Id>, elim: set<Id>)
    ensures Top(Clean(ballot, options), elim) == Choice(ballot, options - elim)
  {
    hide Top, Choice;
    if ballot == [] {
      NothingChosen(options, elim);
    } else {
      var n := |ballot| - 1;
      TopIsChoice(ballot[..n], options, elim);
      ChoiceSnoc(ballot[..n], ballot[n], options - elim);
      assert ballot == ballot[..n] + [ballot[n]];
      TopSnoc(Clean(ballot[..n], options), ballot[n], elim);
      TopStands(Clean(ballot[..n], options), elim);
    }
  }

  lemma NothingChosen(options: set<Id>, elim: set<Id>)
    ensures Top(Clean([], options), elim) == None == Choice([], options - elim)
  {
  }

  lemma CleanIffNamed(e: Entry, options: set<Id>, weights: Weights)
    ensures Clean(e.ballot, options) != [] && BallotWeight(weights, e.peer) > 0.0 <==> TakesPart(e, options, weights)
    ensures BallotWeight(weights, e.peer) == WeightOf(e, weights)
  {
    var c := Clean(e.ballot, options);
    hide Clean;
    CleanKeepsValid(e.ballot, options);
    if c != [] {
      assert c[0] in c;
    }
  }

  lemma VotesSnoc(entries: seq<Entry>, options: set<Id>, weights: Weights)
    requires entries != []
    ensures var n := |entries| - 1;
            var e := entries[n];
            Votes(entries, options, weights) ==
            Votes(entries[..n], options, weights) +
            (if TakesPart(e, options, weights) then [Vote(Clean(e.ballot, options), WeightOf(e, weights))] else [])
  {
    hide Clean, BallotWeight, WeightOf, TakesPart;
    CleanIffNamed(entries[|entries| - 1], options, weights);
  }

  lemma SumsSnoc(votes: seq<Vote>, v: Vote, elim: set<Id>, x: Id)
    ensures Total(votes + [v]) == Total(votes) + v.w
    ensures Tally(votes + [v], elim, x) == Tally(votes, elim, x) + (if Top(v.ranks, elim) == Some(x) then v.w else 0.0)
    ensures Exhausted(votes + [v], elim) == Exhausted(votes, elim) + (if Top(v.ranks, elim) == None then v.w else 0.0)
  {
    hide Top;
    assert (votes + [v])[..|votes|] == votes;
  }

  lemma EntriesSnoc(entries: seq<Entry>, options: set<Id>, weights: Weights, standing: set<Id>, x: Id)
    requires entries != []
    ensures var n := |entries| - 1;
            var e, front := entries[n], entries[..n];
            var w := if TakesPart(e, options, weights) then WeightOf(e, weights) else 0.0;
            var c := Choice(e.ballot, standing);
            && Cast(entries, options, weights) == Cast(front, options, weights) + w
            && LedBy(entries, options, weights, standing, x) ==
               LedBy(front, options, weights, standing, x) + (if c == Some(x) then w else 0.0)
            && Silent(entries, options, weights, standing) ==
               Silent(front, options, weights, standing) + (if c == None then w else 0.0)
  {
    hide WeightOf, TakesPart, Choice;
  }

  lemma NoEntries(options: set<Id>, weights: Weights, elim: set<Id>, standing: set<Id>, x: Id)
    ensures Votes([], options, weights) == []
    ensures Total([]) == Cast([], options, weights) == Tally([], elim, x) == LedBy([], options, weights, standing, x)
    ensures Cast([], options, weights) == Exhausted([], elim) == Silent([], options, weights, standing)
  {
  }

  /** The sums of the count are sums over the entries. */
  lemma {:induction false} SumsAreOfEntries(entries: seq<Entry>, options: set<Id>, weights: Weights, elim: set<Id>,
      x: Id)
    ensures var votes := Votes(entries, options, weights);
            && Total(votes) == Cast(entries, options, weights)
            && Tally(votes, elim, x) == LedBy(entries, options, weights, options - elim, x)
            && Exhausted(votes, elim) == Silent(entries, options, weights, options - elim)
  {
    hide Votes, Clean, Total, Tally, Exhausted, WeightOf, TakesPart, Top, Choice, Cast, LedBy, Silent;
    if entries == [] {
      NoEntries(options, weights, elim, options - elim, x);
    } else {
      var n := |entries| - 1;
      var e := entries[n];
      SumsAreOfEntries(entries[..n], options, weights, elim, x);
      TopIsChoice(e.ballot, options, elim);
      VotesSnoc(entries, options, weights);
      EntriesSnoc(entries, options, weights, options - elim, x);
      var before := Votes(entries[..n], options, weights);
      SumsSnoc(before, Vote(Clean(e.ballot, options), WeightOf(e, weights)), elim, x);
      assert before + [] == before;
    }
  }

  // The rounds

  /** Who has gone before round `i`. */
  function Gone(rounds: seq<IrvRound>, i: nat): set<Id>
    requires i <= |rounds|
  {
    set j | 0 <= j < i && rounds[j].eliminated.Some? :: rounds[j].eliminated.value
  }

  /** A round shows, for each option that stands, the weight that counts for it, and -1 for
      the others; and the weight that counts for nobody any more. */
  predicate Shows(r: IrvRound, options: set<Id>, entries: seq<Entry>, weights: Weights, gone: set<Id>) {
    && r.counts.Keys == options
    && (forall x :: x in options ==>
          r.counts[x] == if x in gone then -1.0 else LedBy(entries, options, weights, options - gone, x))
    && r.exhausted == Silent(entries, options, weights, options - gone)
  }

  /** Somebody still counts, nobody has more than half, and the option with fewest goes, the
      first in string order among several. */
  predicate Drops(r: IrvRound, options: set<Id>, total: real, gone: set<Id>)
    requires r.counts.Keys == options
  {
    && r.eliminated.Some? && r.eliminated.value in options - gone
    && total != r.exhausted
    && (forall x :: x in options - gone ==> r.counts[x] * 2.0 <= total - r.exhausted)
    && var v := r.eliminated.value;
       forall u :: u in options - gone && u != v ==>
         r.counts[v] < r.counts[u] || (r.counts[v] == r.counts[u] && IdLess(v, u))
  }

  /** The last round: nobody counts any more and nobody wins, or one option has more than half. */
  predicate Settles(r: IrvRound, winner: Option<Id>, options: set<Id>, total: real, gone: set<Id>)
    requires r.counts.Keys == options
  {
    && r.eliminated == None
    && (if total == r.exhausted then winner == None
        else winner.Some? && winner.value in options - gone && r.counts[winner.value] * 2.0 > total - r.exhausted)
  }

  /** Rounds and winner are what the entries make them; `gone` have gone before. */
  predicate IsCount(e: Election, options: set<Id>, entries: seq<Entry>, weights: Weights, gone: set<Id>) {
    var total, n := Cast(entries, options, weights), |e.rounds| - 1;
    && n >= 0
    && (forall i :: 0 <= i <= n ==> Shows(e.rounds[i], options, entries, weights, gone + Gone(e.rounds, i)))
    && (forall i :: 0 <= i < n ==> Drops(e.rounds[i], options, total, gone + Gone(e.rounds, i)))
    && Settles(e.rounds[n], e.winner, options, total, gone + Gone(e.rounds, n))
  }

  lemma GoneAtFirst(rounds: seq<IrvRound>, gone: set<Id>)
    ensures gone + Gone(rounds, 0) == gone
  {
  }

  lemma GoneLater(r: IrvRound, rest: seq<IrvRound>, i: nat)
    requires r.eliminated.Some? && i <= |rest|
    ensures Gone([r] + rest, i + 1) == {r.eliminated.value} + Gone(rest, i)
  {
    var all := [r] + rest;
    assert forall j :: 0 < j < i + 1 ==> all[j] == rest[j - 1];
    forall x
      ensures x in Gone(all, i + 1) <==> x == r.eliminated.value || x in Gone(rest, i)
    {
      if x in Gone(rest, i) {
        var j :| 0 <= j < i && rest[j].eliminated.Some? && rest[j].eliminated.value == x;
        assert all[j + 1] == rest[j];
      }
      assert all[0] == r;
    }
  }

  lemma RoundShows(options: set<Id>, entries: seq<Entry>, weights: Weights, elim: set<Id>, out: Option<Id>)
    ensures var votes := Votes(entries, options, weights);
            Shows(IrvRound(Display(options, votes, elim), out, Exhausted(votes, elim)), options, entries, weights, elim)
  {
    hide Votes, Tally, Exhausted, LedBy, Silent;
    forall x
      ensures Tally(Votes(entries, options, weights), elim, x) == LedBy(entries, options, weights, options - elim, x)
    {
      SumsAreOfEntries(entries, options, weights, elim, x);
    }
    SumsAreOfEntries(entries, options, weights, elim, "");
  }

  /** The election is the count. */
  lemma {:induction false} ElectionIsCount(options: set<Id>, entries: seq<Entry>, weights: Weights, elim: set<Id>)
    requires AllCountable(Votes(entries, options, weights), options)
    ensures IsCount(Irv(options, Votes(entries, options, weights), elim), options, entries, weights, elim)
    decreases |options - elim|
  {
    hide Votes, Tally, Exhausted, Total, AllCountable, LedBy, Silent, Cast, IdLess, Gone, Shows;
    var votes := Votes(entries, options, weights);
    var e := Irv(options, votes, elim);
    SumsAreOfEntries(entries, options, weights, elim, "");
    if Continuing(votes, elim) == 0.0 {
      RoundShows(options, entries, weights, elim, None);
      GoneAtFirst(e.rounds, elim);
    } else if w :| w in options - elim && HasMajority(votes, elim, w) {
      IrvEnds(options, votes, elim, w);
      RoundShows(options, entries, weights, elim, None);
      GoneAtFirst(e.rounds, elim);
    } else {
      TwoStandWithoutMajority(votes, options, elim);
      var v := Victim(options - elim, votes, elim);
      FewerStand(options, elim, v);
      IrvEliminates(options, votes, elim, v);
      ElectionIsCount(options, entries, weights, elim + {v});
      RoundShows(options, entries, weights, elim, Some(v));
      var r := IrvRound(Display(options, votes, elim), Some(v), Exhausted(votes, elim));
      assert Drops(r, options, Cast(entries, options, weights), elim);
      CountGrows(r, Irv(options, votes, elim + {v}), options, entries, weights, elim);
    }
  }

  lemma CountGrows(r: IrvRound, rest: Election, options: set<Id>, entries: seq<Entry>, weights: Weights, gone: set<Id>)
    requires r.eliminated.Some? && Shows(r, options, entries, weights, gone)
    requires Drops(r, options, Cast(entries, options, weights), gone)
    requires IsCount(rest, options, entries, weights, gone + {r.eliminated.value})
    ensures IsCount(Election([r] + rest.rounds, rest.winner), options, entries, weights, gone)
  {
    hide Shows, Cast, Drops, Settles, Gone;
    var all, n := [r] + rest.rounds, |rest.rounds|;
    GoneAtFirst(all, gone);
    forall i | 0 <= i < n
      ensures all[i + 1] == rest.rounds[i] && all[i + 1].counts.Keys == options
      ensures gone + Gone(all, i + 1) == gone + {r.eliminated.value} + Gone(rest.rounds, i)
    {
      ShowsOptions(rest.rounds[i], options, entries, weights, gone + {r.eliminated.value} + Gone(rest.rounds, i));
      GoneLater(r, rest.rounds, i);
    }
    ShowsOptions(r, options, entries, weights, gone);
    forall i | 0 <= i <= n
      ensures Shows(all[i], options, entries, weights, gone + Gone(all, i))
    {
      assert i > 0 ==> all[i] == rest.rounds[i - 1];
    }
    forall i | 0 <= i < n
      ensures Drops(all[i], options, Cast(entries, options, weights), gone + Gone(all, i))
    {
      assert i > 0 ==> all[i] == rest.rounds[i - 1];
    }
  }

  lemma ShowsOptions(r: IrvRound, options: set<Id>, entries: seq<Entry>, weights: Weights, gone: set<Id>)
    requires Shows(r, options, entries, weights, gone)
    ensures r.counts.Keys == options
  {
  }

  /** Every poll, with whatever weights, is counted so; and the total is the weight cast. */
  lemma CountOfPoll(options: seq<Id>, entries: seq<Entry>, weights: Weights)
    ensures IsCount(ElectionOf(options, entries, weights), AsSet(options), entries, weights, {})
    ensures Total(Votes(entries, AsSet(options), weights)) == Cast(entries, AsSet(options), weights)
  {
    hide Votes, Cast, Irv, IsCount;
    VotesAreCountable(entries, AsSet(options), weights);
    ElectionIsCount(AsSet(options), entries, weights, {});
    SumsAreOfEntries(entries, AsSet(options), weights, {}, "");
  }

  lemma {:induction false} SomeVoteIffTaking(entries: seq<Entry>, options: set<Id>, weights: Weights)
    ensures Votes(entries, options, weights) != [] <==>
            exists i :: 0 <= i < |entries| && TakesPart(entries[i], options, weights)
  {
    hide TakesPart, Clean, WeightOf;
    if entries == [] {
      NoEntries(options, weights, {}, {}, "");
    } else {
      hide Votes;
      var n := |entries| - 1;
      SomeVoteIffTaking(entries[..n], options, weights);
      VotesSnoc(entries, options, weights);
    }
  }

  /** One winner exactly when somebody takes part: names a valid option, and has weight. */
  lemma OneWinnerIffTaking(options: seq<Id>, entries: seq<Entry>, weights: Weights)
    ensures |Winners(ElectionOf(options, entries, weights))| ==
            if exists i :: 0 <= i < |entries| && TakesPart(entries[i], AsSet(options), weights) then 1 else 0
  {
    hide Votes, TakesPart, ElectionOf;
    OneWinnerIffAnyVote(options, entries, weights);
    SomeVoteIffTaking(entries, AsSet(options), weights);
  }

  // Mutual majority

  /** All of `s` is named, and before every other valid option. */
  predicate RanksFirst(ballot: seq<Id>, options: set<Id>, s: set<Id>) {
    && (forall x :: x in s ==> x in ballot)
    && forall x, y :: x in s && y in ballot && y in options && y !in s ==> FirstAt(ballot, x) < FirstAt(ballot, y)
  }

  /** The weight of the entries that do so. */
  function SupportOf(entries: seq<Entry>, options: set<Id>, weights: Weights, s: set<Id>): real {
    if entries == [] then 0.0
    else
      var n := |entries| - 1;
      SupportOf(entries[..n], options, weights, s) +
      (if TakesPart(entries[n], options, weights) && RanksFirst(entries[n].ballot, options, s)
       then WeightOf(entries[n], weights) else 0.0)
  }

  lemma FirstIsSolid(ballot: seq<Id>, options: set<Id>, s: set<Id>)
    requires s <= options && RanksFirst(ballot, options, s)
    ensures Solid(Clean(ballot, options), s)
  {
    var c := Clean(ballot, options);
    hide Clean;
    CleanKeepsValid(ballot, options);
    assert s <= AsSet(c);
    SetSize(c);
    SubsetSize(s, AsSet(c));
    var head := c[..|s|];
    SetSize(head);
    HeadHolds(c, |s|);
    forall k | 0 <= k < |head|
      ensures head[k] in s
    {
      assert c[k] in c;
      if c[k] !in s {
        var x := Outside(s, AsSet(head), c[k]);
        assert x in c;
        var j :| 0 <= j < |c| && c[j] == x;
        CleanKeepsOrder(ballot, options, k, j);
      }
    }
    assert AsSet(head) <= s;
    SameSize(AsSet(head), s);
  }

  lemma HeadHolds(c: seq<Id>, n: nat)
    requires n <= |c|
    ensures forall j :: 0 <= j < n ==> c[j] in AsSet(c[..n])
  {
    forall j | 0 <= j < n
      ensures c[j] in AsSet(c[..n])
    {
      assert c[..n][j] == c[j];
    }
  }

  lemma SameSize(a: set<Id>, b: set<Id>)
    requires a <= b && |a| == |b|
    ensures a == b
  {
    assert b == a + (b - a) && |b| == |a| + |b - a|;
  }

  lemma Outside(s: set<Id>, p: set<Id>, y: Id) returns (x: Id)
    requires |s| == |p| && y in p && y !in s
    ensures x in s && x !in p
  {
    if s <= p {
      SameSize(s, p);
    }
    x :| x in s && x !in p;
  }

  lemma {:induction false} SupportIsSolid(entries: seq<Entry>, options: set<Id>, weights: Weights, s: set<Id>)
    requires s <= options
    ensures SupportOf(entries, options, weights, s) <= SolidWeight(Votes(entries, options, weights), s)
  {
    hide TakesPart, Clean, WeightOf, RanksFirst, Solid, Votes, SupportOf, SolidWeight;
    if entries == [] {
      NoSupport(options, weights, s);
      NoEntries(options, weights, {}, {}, "");
    } else {
      var n := |entries| - 1;
      var e := entries[n];
      var before := Votes(entries[..n], options, weights);
      SupportIsSolid(entries[..n], options, weights, s);
      VotesSnoc(entries, options, weights);
      SupportSnoc(entries, options, weights, s);
      if TakesPart(e, options, weights) {
        SolidSnoc(before, Vote(Clean(e.ballot, options), WeightOf(e, weights)), s);
        TakingHasWeight(e, options, weights);
        if RanksFirst(e.ballot, options, s) {
          FirstIsSolid(e.ballot, options, s);
        }
      } else {
        assert before + [] == before;
      }
    }
  }

  lemma NoSupport(options: set<Id>, weights: Weights, s: set<Id>)
    ensures SupportOf([], options, weights, s) == 0.0 == SolidWeight([], s)
  {
  }

  lemma SupportSnoc(entries: seq<Entry>, options: set<Id>, weights: Weights, s: set<Id>)
    requires entries != []
    ensures var e := entries[|entries| - 1];
            SupportOf(entries, options, weights, s) ==
            SupportOf(entries[..|entries| - 1], options, weights, s) +
            (if TakesPart(e, options, weights) && RanksFirst(e.ballot, options, s) then WeightOf(e, weights) else 0.0)
  {
    hide WeightOf, TakesPart, RanksFirst;
  }

  lemma SolidSnoc(votes: seq<Vote>, v: Vote, s: set<Id>)
    ensures SolidWeight(votes + [v], s) == SolidWeight(votes, s) + (if Solid(v.ranks, s) then v.w else 0.0)
  {
    hide Solid;
    assert (votes + [v])[..|votes|] == votes;
  }

  lemma TakingHasWeight(e: Entry, options: set<Id>, weights: Weights)
    requires TakesPart(e, options, weights)
    ensures WeightOf(e, weights) > 0.0
  {
  }

  /** When entries holding more than half of the weight cast rank all of `s` before every
      other option, the winner is in `s`. */
  lemma MajorityOfEntries(options: seq<Id>, entries: seq<Entry>, weights: Weights, s: set<Id>)
    requires s != {} && s <= AsSet(options)
    requires SupportOf(entries, AsSet(options), weights, s) * 2.0 > Cast(entries, AsSet(options), weights)
    ensures exists w :: w in s && Winners(ElectionOf(options, entries, weights)) == [w]
  {
    hide Votes, Cast, SupportOf, SolidWeight, ElectionOf;
    SupportIsSolid(entries, AsSet(options), weights, s);
    SumsAreOfEntries(entries, AsSet(options), weights, {}, "");
    MutualMajority(options, entries, weights, s);
    assert ElectionOf(options, entries, weights).winner.value in s;
  }

  /** Ids compare character by character, a proper beginning first. */
  lemma {:induction false} IdOrder(a: Id, b: Id)
    ensures IdLess(a, b) <==>
            exists i :: 0 <= i <= |a| && i < |b| && a[..i] == b[..i] && (i == |a| || a[i] < b[i])
  {
    if IdLess(a, b) {
      var i := Differs(a, b);
    }
    if i :| 0 <= i <= |a| && i < |b| && a[..i] == b[..i] && (i == |a| || a[i] < b[i]) {
      LessAt(a, b, i);
    }
  }

  lemma {:induction false} Differs(a: Id, b: Id) returns (i: nat)
    requires IdLess(a, b)
    ensures i <= |a| && i < |b| && a[..i] == b[..i] && (i == |a| || a[i] < b[i])
  {
    if a == "" || a[0] < b[0] {
      i := 0;
    } else {
      i := Differs(a[1..], b[1..]);
      assert a[..i + 1] == [a[0]] + a[1..][..i] && b[..i + 1] == [b[0]] + b[1..][..i];
      i := i + 1;
    }
  }

  lemma {:induction false} LessAt(a: Id, b: Id, i: nat)
    requires i <= |a| && i < |b| && a[..i] == b[..i] && (i == |a| || a[i] < b[i])
    ensures IdLess(a, b)
  {
    if i > 0 {
      assert a[0] == a[..i][0] == b[..i][0] == b[0];
      assert a[1..][..i - 1] == a[..i][1..] && b[1..][..i - 1] == b[..i][1..];
      LessAt(a[1..], b[1..], i - 1);
    }
  }
}
