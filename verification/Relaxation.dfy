/** The in-place relaxation of trust levels, whatever order members are visited in. */
module Relaxation {
  import opened Groups
  import opened Trust

  /** Every rating of `r` has been applied, with `r` standing at `level`. */
  ghost predicate RowApplied(g: Group, pos: map<Id, real>, r: Id, level: real) {
    forall m :: Rates(g, r, m) && level >= 1.0 ==> m in pos && pos[m] >= Confers(g, r, m, level)
  }

  ghost predicate AtLeast(pos: map<Id, real>, was: map<Id, real>) {
    pos.Keys == was.Keys && forall m :: m in was ==> pos[m] >= was[m]
  }

  /** Between the best values over k ratings and the final levels. */
  ghost predicate Between(g: Group, k: nat, pos: map<Id, real>) {
    pos.Keys == g.members.Keys && forall m :: m in g.members ==> Best(g, k, m) <= pos[m] <= Level(g, m)
  }

  predicate BelowLevels(pos: map<Id, real>, levels: map<Id, real>) {
    pos.Keys == levels.Keys && forall m :: m in pos ==> pos[m] <= levels[m]
  }

  /** One rater's turn: each positive rating of another member confers at most one less
      than the rater's own standing. */
  method ApplyRow(g: Group, pos0: map<Id, real>, rater: Id) returns (pos: map<Id, real>, changed: bool)
    requires g.ratings.Some? && pos0.Keys == g.members.Keys && rater in g.members
    requires BelowLevels(pos0, Levels(g))
    ensures AtLeast(pos, pos0) && BelowLevels(pos, Levels(g)) && pos[rater] == pos0[rater]
    ensures RowApplied(g, pos, rater, pos0[rater])
    ensures !changed <==> pos == pos0
  {
    hide Level, Best, IsAdmin;
    pos, changed := pos0, false;
    var cap := pos[rater] - 1.0;
    if cap < 0.0 || rater !in g.ratings.value {
      return;
    }
    var row := g.ratings.value[rater];
    LevelsAreClosed(g);
    var todo := row.Keys;
    while todo != {}
      invariant todo <= row.Keys
      invariant AtLeast(pos, pos0) && BelowLevels(pos, Levels(g)) && pos[rater] == pos0[rater]
      invariant forall m :: m in row.Keys - todo && Rates(g, rater, m) ==> pos[m] >= Confers(g, rater, m, pos0[rater])
      invariant !changed <==> pos == pos0
    {
      var ratee :| ratee in todo;
      todo := todo - {ratee};
      if ratee != rater && ratee in g.members && row[ratee] > 0.0 {
        var conferred := Min(row[ratee], cap);
        assert conferred == Confers(g, rater, ratee, pos0[rater]) && Rates(g, rater, ratee);
        ConfersBounds(g, rater, ratee, pos0[rater], Levels(g)[rater]);
        if conferred > pos[ratee] {
          pos := pos[ratee := conferred];
          changed := true;
        }
      }
    }
  }

  lemma RowsKeep(g: Group, pos: map<Id, real>, was: map<Id, real>, r: Id, level: real)
    requires AtLeast(pos, was) && RowApplied(g, was, r, level)
    ensures RowApplied(g, pos, r, level)
  {
    hide Rates, Confers;
  }

  /** One round over all raters, in the order given. */
  method Round(g: Group, ids: seq<Id>, pos0: map<Id, real>) returns (pos: map<Id, real>, changed: bool)
    requires g.ratings.Some? && Enumerates(ids, g.members.Keys)
    requires pos0.Keys == g.members.Keys && BelowLevels(pos0, Levels(g))
    ensures AtLeast(pos, pos0) && BelowLevels(pos, Levels(g))
    ensures forall r :: r in g.members ==> RowApplied(g, pos, r, pos0[r])
    ensures !changed <==> pos == pos0
  {
    hide Level, Best, RowApplied, Levels, IsAdmin;
    pos, changed := pos0, false;
    for i := 0 to |ids|
      invariant AtLeast(pos, pos0) && BelowLevels(pos, Levels(g))
      invariant forall j :: 0 <= j < i ==> RowApplied(g, pos, ids[j], pos0[ids[j]])
      invariant !changed <==> pos == pos0
    {
      ghost var was := pos;
      var touched;
      pos, touched := ApplyRow(g, pos, ids[i]);
      changed := changed || touched;
      RowWithLess(g, pos, ids[i], was[ids[i]], pos0[ids[i]]);
      forall j | 0 <= j < i
        ensures RowApplied(g, pos, ids[j], pos0[ids[j]])
      {
        RowsKeep(g, pos, was, ids[j], pos0[ids[j]]);
      }
    }
  }

  lemma RowWithLess(g: Group, pos: map<Id, real>, r: Id, level: real, less: real)
    requires less <= level && RowApplied(g, pos, r, level)
    ensures RowApplied(g, pos, r, less)
  {
    hide Rates, Confers;
    forall m | Rates(g, r, m) && less >= 1.0
      ensures m in pos && pos[m] >= Confers(g, r, m, less)
    {
      ConfersBounds(g, r, m, less, level);
    }
  }

  /** After a round at least one more rating of every chain has taken effect. */
  lemma RoundAdvances(g: Group, k: nat, pos0: map<Id, real>, pos: map<Id, real>)
    requires Between(g, k, pos0) && AtLeast(pos, pos0) && BelowLevels(pos, Levels(g))
    requires forall r :: r in g.members ==> RowApplied(g, pos, r, pos0[r])
    ensures Between(g, k + 1, pos)
  {
    hide Best, Level, Rates, Confers;
    forall m | m in g.members
      ensures Best(g, k + 1, m) <= pos[m] <= Level(g, m)
    {
      assert Levels(g)[m] == Level(g, m);
      SeedRange(g, m);
      BestFromStart(g, k, m);
      var r := BestComesFrom(g, k, m);
      if Best(g, k + 1, m) != Seed(g, m) {
        RatesMembers(g, r, m);
        assert RowApplied(g, pos, r, pos0[r]);
        ConfersBounds(g, r, m, Best(g, k, r), pos0[r]);
      }
    }
  }

  lemma {:induction false} BestFromStart(g: Group, k: nat, m: Id)
    ensures Best(g, k, m) >= Seed(g, m)
  {
    hide *;
    SeedRange(g, m);
    if k > 0 {
      BestAtLeast(g, k - 1, m, m);
    }
  }

  /** A round that changes nothing has reached the levels. */
  lemma QuietRoundIsFinal(g: Group, k: nat, pos: map<Id, real>)
    requires Between(g, k, pos) && forall r :: r in g.members ==> RowApplied(g, pos, r, pos[r])
    ensures pos == Levels(g)
  {
    hide Best, Level, Rates, Confers;
    forall m | m in g.members
      ensures pos[m] >= Seed(g, m)
    {
      BestFromStart(g, k, m);
    }
    forall r, m | Rates(g, r, m)
      ensures r in g.members && m in g.members && (pos[r] >= 1.0 ==> pos[m] >= Confers(g, r, m, pos[r]))
    {
      RatesMembers(g, r, m);
      assert RowApplied(g, pos, r, pos[r]);
    }
    assert Closed(g, pos);
    LevelsAreLeast(g, pos);
    forall m | m in g.members
      ensures pos[m] == Levels(g)[m]
    {
      assert Levels(g)[m] == Level(g, m);
    }
  }

  lemma FifthRoundIsFinal(g: Group, k: nat, pos: map<Id, real>)
    requires Between(g, k, pos) && k >= 5
    ensures pos == Levels(g)
  {
    hide Best;
    forall m | m in g.members
      ensures pos[m] == Levels(g)[m]
    {
      BestIncreases(g, 5, k, m);
    }
  }

  lemma {:induction false} BestIncreases(g: Group, j: nat, k: nat, m: Id)
    requires j <= k
    ensures Best(g, j, m) <= Best(g, k, m)
    decreases k - j
  {
    hide *;
    if j < k {
      BestGrows(g, j, m);
      BestIncreases(g, j + 1, k, m);
    }
  }

  lemma NoRatingsNoRise(g: Group, m: Id, k: nat)
    requires g.ratings.None?
    ensures Best(g, k, m) == Seed(g, m)
  {
    if k > 0 {
      var r := BestComesFrom(g, k - 1, m);
    }
  }

  /** Phase 1. Whatever the order of the members, the relaxation stops because a round
      changed nothing, with rounds to spare, at the least fixed point above the seed. */
  method PositiveTrust(g: Group, ids: seq<Id>) returns (pos: map<Id, real>, ghost rounds: nat, ghost quiet: bool)
    requires Enumerates(ids, g.members.Keys)
    ensures pos == Levels(g)
    ensures g.ratings.Some? ==> quiet && 1 <= rounds <= 6 && rounds <= |ids| * 6 + 1
    ensures g.ratings.Some? && ids != [] ==> rounds < |ids| * 6 + 1
  {
    hide Best, Level, RowApplied, Enumerates;
    pos := map m | m in g.members :: Seed(g, m);
    rounds, quiet := 0, true;
    forall m | m in g.members
      ensures Best(g, 0, m) <= pos[m] <= Level(g, m)
    {
      SeedRange(g, m);
      BestFromStart(g, 5, m);
      LevelIsBest(g, m);
    }
    if g.ratings.Some? {
      var maxRounds := |ids| * 6 + 1;
      EmptyHasNoMembers(g, ids);
      var round := 0;
      quiet := false;
      while round < maxRounds
        invariant 0 <= round <= maxRounds && rounds == round && Between(g, round, pos) && round <= 6
        invariant !quiet && (round >= 1 ==> ids != []) && round <= 5
      {
        ghost var was := pos;
        var changed;
        pos, changed := Round(g, ids, pos);
        RoundAdvances(g, round, was, pos);
        rounds := rounds + 1;
        if !changed {
          QuietRoundIsFinal(g, round, pos);
          quiet := true;
          return;
        }
        if round >= 5 {
          FifthRoundIsFinal(g, round, was);
          FifthRoundIsFinal(g, round + 1, pos);
        }
        round := round + 1;
      }
      assert false;
    } else {
      forall m | m in g.members
        ensures pos[m] == Level(g, m)
      {
        NoRatingsNoRise(g, m, 5);
        LevelIsBest(g, m);
      }
    }
  }

  lemma LevelIsBest(g: Group, m: Id)
    ensures Level(g, m) == Best(g, 5, m)
  {
  }

  lemma EmptyHasNoMembers(g: Group, ids: seq<Id>)
    requires Enumerates(ids, g.members.Keys)
    ensures ids == [] ==> g.members == map[]
  {
    if ids == [] {
      assert forall m :: m in g.members ==> m in ids;
    }
  }
}
