/** Accountability told on the tables of censures and ratings. */
module AccountLaws {
  import opened Groups
  import opened Trust
  import opened Accountability
  import opened TrustLaws

  /** Others standing at least as high as `t`. */
  function Peers(g: Group, eff: Standing, t: Id): set<Id>
    requires eff.Keys == g.members.Keys && t in g.members
  {
    set c | c in g.members && c != t && eff[c] >= eff[t]
  }

  predicate Censures(g: Group, c: Id, t: Id) {
    g.censures.Some? && c in g.censures.value && t in g.censures.value[c] && g.censures.value[c][t] != 0.0
  }

  /** Two of them at least, and two thirds of them, censure a member who has standing. */
  predicate Falls(g: Group, eff: Standing, t: Id)
    requires eff.Keys == g.members.Keys && t in g.members
  {
    var against := set c | c in Peers(g, eff, t) && Censures(g, c, t);
    eff[t] > 0.0 && |against| >= 2 && 3 * |against| >= 2 * |Peers(g, eff, t)|
  }

  function Fallen(g: Group, eff: Standing): set<Id>
    requires eff.Keys == g.members.Keys
  {
    set t | t in g.members && Falls(g, eff, t)
  }

  /** What `v` staked on `t`: the rating, but no more than `v` stood at. */
  function Stake(g: Group, pos: Standing, v: Id, t: Id): real
    requires v in pos
  {
    if !Rated(g, v, t) then 0.0 else if RatingOf(g, v, t) < pos[v] then RatingOf(g, v, t) else pos[v]
  }

  lemma QuorumLaw(censured: nat, eligible: nat)
    ensures censured >= Quorum(eligible) <==> censured >= 2 && 3 * censured >= 2 * eligible
  {
  }

  /** A member falls exactly when the quorum is met, whoever did not censure them. */
  lemma FallsIffDoomed(g: Group, eff: Standing, t: Id)
    requires eff.Keys == g.members.Keys
    ensures t in Doomed(g, eff) <==> t in g.members && Falls(g, eff, t)
  {
    hide Quorum;
    if t in g.members {
      assert Peers(g, eff, t) == Eligible(g, eff, t);
      assert (set c | c in Peers(g, eff, t) && Censures(g, c, t)) == Censurers(g, eff, t);
      QuorumLaw(|Censurers(g, eff, t)|, |Eligible(g, eff, t)|);
    }
  }

  lemma FallenAreDoomed(g: Group, eff: Standing)
    requires eff.Keys == g.members.Keys
    ensures Fallen(g, eff) == Doomed(g, eff)
  {
    hide Falls, IsDoomed;
    forall t
      ensures t in Fallen(g, eff) <==> t in Doomed(g, eff)
    {
      FallsIffDoomed(g, eff, t);
    }
  }

  /** With nobody fallen nothing changes; one more fallen stands at 0, and everybody else
      loses what they staked on them, down to 0 and no further. */
  lemma OneMoreFallen(g: Group, pos: Standing, eff: Standing, s: set<Id>, t: Id, v: Id)
    requires Sound(g, pos) && Sound(g, eff) && t in g.members && t !in s && v in g.members
    ensures After(g, pos, eff, {}) == eff
    ensures var left := After(g, pos, eff, s)[v] - Stake(g, pos, v, t);
            After(g, pos, eff, s + {t})[v] == if v == t then 0.0 else if left > 0.0 then left else 0.0
  {
    hide After, Stake, Rated, Slash;
    AfterNothing(g, pos, eff);
    SlashedAfter(g, pos, eff, s, t);
    StakeIsSlash(g, pos, v, t);
  }

  lemma StakeIsSlash(g: Group, pos: Standing, v: Id, t: Id)
    requires v in pos && v in g.members && t in g.members
    ensures v != t ==> Stake(g, pos, v, t) == Slash(g, pos, v, t)
  {
    hide Rated, RatingOf, Cell;
    RatedIsRates(g, v, t);
  }

  /** From one standing to the next: somebody falls, and all who do at once. */
  ghost predicate IsRound(g: Group, pos: Standing, eff: Standing, next: Standing) {
    && Sound(g, pos) && Sound(g, eff) && Sound(g, next)
    && Fallen(g, eff) != {} && next == After(g, pos, eff, Fallen(g, eff))
  }

  ghost predicate AreRounds(g: Group, pos: Standing, steps: seq<Standing>) {
    && steps != [] && (forall i :: 0 < i < |steps| ==> IsRound(g, pos, steps[i - 1], steps[i]))
    && steps[|steps| - 1].Keys == g.members.Keys && Fallen(g, steps[|steps| - 1]) == {}
  }

  lemma {:induction false} SettledByRounds(g: Group, pos: Standing, eff: Standing) returns (steps: seq<Standing>)
    requires Sound(g, pos) && Sound(g, eff)
    ensures AreRounds(g, pos, steps) && steps[0] == eff && steps[|steps| - 1] == Settle(g, pos, eff)
    decreases |Positive(eff)|
  {
    hide Doomed, Fallen, After, Positive;
    FallenAreDoomed(g, eff);
    if Doomed(g, eff) == {} {
      steps := [eff];
    } else {
      RoundLowers(g, pos, eff);
      RoundShrinks(g, pos, eff);
      var next := After(g, pos, eff, Doomed(g, eff));
      var rest := SettledByRounds(g, pos, next);
      steps := [eff] + rest;
      assert IsRound(g, pos, eff, next);
    }
  }

  /** The levels are those of the ratings, taken through rounds until nobody falls. */
  lemma LevelsByRounds(g: Group) returns (steps: seq<Standing>)
    ensures g.censures.None? ==> TrustLevelsOf(g) == Levels(g)
    ensures g.censures.Some? ==> AreRounds(g, Levels(g), steps) && steps[0] == Levels(g) &&
                                 steps[|steps| - 1] == TrustLevelsOf(g)
  {
    hide Levels, Settle, AreRounds;
    LevelsSound(g);
    steps := SettledByRounds(g, Levels(g), Levels(g));
  }
}
