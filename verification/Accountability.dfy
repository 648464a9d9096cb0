/** Accountability: members are discredited by quorum and their vouchers slashed, round
    by round, until nobody is left to discredit. */
module Accountability {
  import opened Groups
  import opened Trust
  import opened Relaxation

  type Standing = map<Id, real>

  /** Members who may call `t` out: everyone else standing at least as high. */
  function Eligible(g: Group, eff: Standing, t: Id): set<Id>
    requires eff.Keys == g.members.Keys && t in g.members
  {
    set c | c in g.members && c != t && eff[c] >= eff[t]
  }

  function Censurers(g: Group, eff: Standing, t: Id): set<Id>
    requires eff.Keys == g.members.Keys && t in g.members
  {
    set c | c in Eligible(g, eff, t) && Cell(g.censures, c, t) != 0.0
  }

  /** Two thirds of the eligible, rounded up, and never fewer than two. */
  function Quorum(eligible: nat): (q: nat)
    ensures q >= 2 && 3 * q >= 2 * eligible
    ensures q > 2 ==> 3 * (q - 1) < 2 * eligible
  {
    var q := (2 * eligible + 2) / 3;
    if q > 2 then q else 2
  }

  predicate IsDoomed(g: Group, eff: Standing, t: Id)
    requires eff.Keys == g.members.Keys && t in g.members
  {
    eff[t] > 0.0 && |Censurers(g, eff, t)| >= Quorum(|Eligible(g, eff, t)|)
  }

  function Doomed(g: Group, eff: Standing): set<Id>
    requires eff.Keys == g.members.Keys
  {
    set t | t in g.members && IsDoomed(g, eff, t)
  }

  /** What a voucher loses for having vouched for `t`: the level staked. */
  function Slash(g: Group, pos: Standing, v: Id, t: Id): real
    requires v in pos
  {
    if Cell(g.ratings, v, t) > 0.0 then Min(Cell(g.ratings, v, t), pos[v]) else 0.0
  }

  ghost function Loss(g: Group, pos: Standing, v: Id, s: set<Id>): real
    requires v in pos
  {
    if s == {} then 0.0
    else
      var t :| t in s;
      Slash(g, pos, v, t) + Loss(g, pos, v, s - {t})
  }

  lemma {:induction false} LossTake(g: Group, pos: Standing, v: Id, s: set<Id>, t: Id)
    requires v in pos && t in s
    ensures Loss(g, pos, v, s) == Slash(g, pos, v, t) + Loss(g, pos, v, s - {t})
  {
    hide Slash;
    var u :| u in s && Loss(g, pos, v, s) == Slash(g, pos, v, u) + Loss(g, pos, v, s - {u});
    if u != t {
      LossTake(g, pos, v, s - {u}, t);
      LossTake(g, pos, v, s - {t}, u);
      assert s - {u} - {t} == s - {t} - {u};
    }
  }

  function NonNegative(x: real): real { if x > 0.0 then x else 0.0 }

  /** The standing after discrediting `s` from the snapshot `eff`. */
  ghost function After(g: Group, pos: Standing, eff: Standing, s: set<Id>): Standing
    requires eff.Keys == g.members.Keys == pos.Keys
  {
    map v | v in g.members :: if v in s then 0.0 else NonNegative(eff[v] - Loss(g, pos, v, s))
  }

  function Positive(eff: Standing): set<Id> { set v | v in eff && eff[v] > 0.0 }

  /** Levels that vouchers can be slashed by: none is negative. */
  predicate Sound(g: Group, eff: Standing) {
    eff.Keys == g.members.Keys && forall v :: v in eff ==> eff[v] >= 0.0
  }

  lemma {:induction false} LossNonNegative(g: Group, pos: Standing, v: Id, s: set<Id>)
    requires v in pos && pos[v] >= 0.0
    ensures Loss(g, pos, v, s) >= 0.0
  {
    if s != {} {
      var t :| t in s && Loss(g, pos, v, s) == Slash(g, pos, v, t) + Loss(g, pos, v, s - {t});
      LossNonNegative(g, pos, v, s - {t});
      SlashBounds(g, pos, v, t);
    }
  }

  /** A round only lowers levels, and takes every discredited member to 0. */
  lemma RoundLowers(g: Group, pos: Standing, eff: Standing)
    requires Sound(g, pos) && Sound(g, eff)
    ensures var next := After(g, pos, eff, Doomed(g, eff));
            Sound(g, next) && (forall v :: v in eff ==> next[v] <= eff[v]) &&
            Positive(next) <= Positive(eff) - Doomed(g, eff)
  {
    hide Doomed, Loss;
    var s := Doomed(g, eff);
    forall v | v in eff
      ensures NonNegative(eff[v] - Loss(g, pos, v, s)) <= eff[v]
    {
      LossNonNegative(g, pos, v, s);
    }
  }

  lemma DoomedStandPositive(g: Group, eff: Standing)
    requires eff.Keys == g.members.Keys
    ensures Doomed(g, eff) <= Positive(eff)
  {
  }

  lemma StrictSubset(a: set<Id>, b: set<Id>)
    requires a < b
    ensures |a| < |b|
  {
    assert b == a + (b - a) && |b| == |a| + |b - a|;
    assert b - a != {};
  }

  lemma RoundShrinks(g: Group, pos: Standing, eff: Standing)
    requires Sound(g, pos) && Sound(g, eff) && Doomed(g, eff) != {}
    ensures |Positive(After(g, pos, eff, Doomed(g, eff)))| < |Positive(eff)|
  {
    hide Doomed, After, Positive;
    RoundLowers(g, pos, eff);
    DoomedStandPositive(g, eff);
    StrictSubset(Positive(After(g, pos, eff, Doomed(g, eff))), Positive(eff));
  }

  /** The settled standing: rounds until nobody is doomed. */
  ghost function Settle(g: Group, pos: Standing, eff: Standing): (r: Standing)
    requires Sound(g, pos) && Sound(g, eff)
    ensures r.Keys == g.members.Keys
    decreases |Positive(eff)|
  {
    if Doomed(g, eff) == {} then eff
    else
      RoundLowers(g, pos, eff);
      RoundShrinks(g, pos, eff);
      Settle(g, pos, After(g, pos, eff, Doomed(g, eff)))
  }

  /** Nobody who still stands meets the quorum, and no level has risen. */
  lemma {:induction false} SettledNobodyDoomed(g: Group, pos: Standing, eff: Standing)
    requires Sound(g, pos) && Sound(g, eff)
    ensures var r := Settle(g, pos, eff);
            Sound(g, r) && Doomed(g, r) == {} && forall v :: v in eff ==> r[v] <= eff[v]
    decreases |Positive(eff)|
  {
    hide Doomed, After, Positive;
    if Doomed(g, eff) != {} {
      RoundLowers(g, pos, eff);
      RoundShrinks(g, pos, eff);
      SettledNobodyDoomed(g, pos, After(g, pos, eff, Doomed(g, eff)));
    }
  }

  /** Nobody is discredited by fewer than two members of at least equal standing, nor by
      less than two thirds of those who had a say. */
  lemma DiscreditNeedsQuorum(g: Group, eff: Standing, t: Id)
    requires eff.Keys == g.members.Keys && t in Doomed(g, eff)
    ensures exists a, b :: a != b && a in Censurers(g, eff, t) && b in Censurers(g, eff, t)
    ensures 3 * |Censurers(g, eff, t)| >= 2 * |Eligible(g, eff, t)|
    ensures t !in Censurers(g, eff, t)
  {
    var s := Censurers(g, eff, t);
    assert |s| >= 2;
    TwoElements(s);
  }

  lemma TwoElements(s: set<Id>)
    requires |s| >= 2
    ensures exists a, b :: a != b && a in s && b in s
  {
    var a :| a in s;
    assert s == {a} + (s - {a});
    assert s - {a} != {};
    var b :| b in s - {a};
  }

  // The loops

  /** Counts the eligible and the censuring among them, member by member. */
  method CountCensure(g: Group, ids: seq<Id>, eff: Standing, t: Id) returns (doomed: bool)
    requires Enumerates(ids, g.members.Keys) && eff.Keys == g.members.Keys && t in g.members && eff[t] > 0.0
    ensures doomed <==> IsDoomed(g, eff, t)
  {
    var eligible, censured := 0, 0;
    for i := 0 to |ids|
      invariant eligible == |set c | c in Eligible(g, eff, t) && c in ids[..i]|
      invariant censured == |set c | c in Censurers(g, eff, t) && c in ids[..i]|
    {
      var c := ids[i];
      assert c !in ids[..i];
      GrowByOne(Eligible(g, eff, t), ids, i);
      GrowByOne(Censurers(g, eff, t), ids, i);
      if c != t && eff[c] >= eff[t] {
        eligible := eligible + 1;
        if Cell(g.censures, c, t) != 0.0 {
          censured := censured + 1;
        }
      }
    }
    assert (set c | c in Eligible(g, eff, t) && c in ids[..|ids|]) == Eligible(g, eff, t);
    assert (set c | c in Censurers(g, eff, t) && c in ids[..|ids|]) == Censurers(g, eff, t);
    doomed := censured >= Quorum(eligible);
  }

  lemma GrowByOne(s: set<Id>, ids: seq<Id>, i: nat)
    requires i < |ids| && ids[i] !in ids[..i]
    ensures |set c | c in s && c in ids[..i + 1]| == |set c | c in s && c in ids[..i]| + (if ids[i] in s then 1 else 0)
  {
    var a, b := set c | c in s && c in ids[..i], set c | c in s && c in ids[..i + 1];
    if ids[i] in s {
      assert b == a + {ids[i]};
    } else {
      assert b == a;
    }
  }

  /** All decisions of a round are taken from one snapshot. */
  method Decide(g: Group, ids: seq<Id>, eff: Standing) returns (targets: seq<Id>)
    requires Enumerates(ids, g.members.Keys) && eff.Keys == g.members.Keys
    ensures Enumerates(targets, Doomed(g, eff))
  {
    hide IsDoomed;
    targets := [];
    for i := 0 to |ids|
      invariant forall t :: t in targets <==> t in ids[..i] && IsDoomedIn(g, eff, t)
      invariant forall j, k :: 0 <= j < k < |targets| ==> targets[j] != targets[k]
    {
      var t := ids[i];
      assert t in ids && t !in ids[..i];
      if eff[t] > 0.0 {
        var doomed := CountCensure(g, ids, eff, t);
        if doomed {
          targets := targets + [t];
        }
      } else {
        NotDoomedAtZero(g, eff, t);
      }
    }
  }

  predicate IsDoomedIn(g: Group, eff: Standing, t: Id)
    requires eff.Keys == g.members.Keys
  {
    t in g.members && IsDoomed(g, eff, t)
  }

  lemma NotDoomedAtZero(g: Group, eff: Standing, t: Id)
    requires eff.Keys == g.members.Keys && t in g.members && eff[t] <= 0.0
    ensures !IsDoomed(g, eff, t)
  {
  }

  /** One target: down to 0, and every voucher with standing left loses the stake. */
  method Discredit(g: Group, ids: seq<Id>, pos: Standing, eff0: Standing, t: Id) returns (eff: Standing)
    requires Enumerates(ids, g.members.Keys) && Sound(g, pos) && Sound(g, eff0) && t in g.members
    ensures eff == Slashed(g, pos, eff0, t)
  {
    hide Slash;
    eff := eff0[t := 0.0];
    ghost var goal := Slashed(g, pos, eff0, t);
    for i := 0 to |ids|
      invariant eff.Keys == g.members.Keys
      invariant forall j :: 0 <= j < i ==> eff[ids[j]] == goal[ids[j]]
      invariant forall j :: i <= j < |ids| ==> eff[ids[j]] == if ids[j] == t then 0.0 else eff0[ids[j]]
    {
      var v := ids[i];
      assert v in ids;
      SlashBounds(g, pos, v, t);
      var stake := Cell(g.ratings, v, t);
      if stake > 0.0 && eff[v] > 0.0 {
        SlashIs(g, pos, v, t);
        eff := eff[v := NonNegative(eff[v] - Min(stake, pos[v]))];
      }
    }
    forall v | v in g.members
      ensures eff[v] == goal[v]
    {
      assert v in ids;
    }
  }

  function Slashed(g: Group, pos: Standing, eff: Standing, t: Id): Standing
    requires eff.Keys == g.members.Keys == pos.Keys
  {
    map v | v in g.members :: if v == t then 0.0 else NonNegative(eff[v] - Slash(g, pos, v, t))
  }

  lemma SlashIs(g: Group, pos: Standing, v: Id, t: Id)
    requires v in pos && Cell(g.ratings, v, t) > 0.0
    ensures Slash(g, pos, v, t) == Min(Cell(g.ratings, v, t), pos[v])
  {
  }

  lemma SlashBounds(g: Group, pos: Standing, v: Id, t: Id)
    requires v in pos && pos[v] >= 0.0
    ensures Slash(g, pos, v, t) >= 0.0
    ensures Cell(g.ratings, v, t) <= 0.0 ==> Slash(g, pos, v, t) == 0.0
  {
  }

  /** Targets may be taken in any order: what is left is a function of their set. */
  lemma SlashedAfter(g: Group, pos: Standing, eff: Standing, s: set<Id>, t: Id)
    requires Sound(g, pos) && Sound(g, eff) && t !in s
    ensures Slashed(g, pos, After(g, pos, eff, s), t) == After(g, pos, eff, s + {t})
  {
    hide Slash, Loss;
    forall v | v in g.members
      ensures Loss(g, pos, v, s + {t}) == Slash(g, pos, v, t) + Loss(g, pos, v, s) && Slash(g, pos, v, t) >= 0.0
    {
      LossTake(g, pos, v, s + {t}, t);
      assert s + {t} - {t} == s;
      SlashBounds(g, pos, v, t);
    }
  }

  lemma AfterNothing(g: Group, pos: Standing, eff: Standing)
    requires Sound(g, pos) && Sound(g, eff)
    ensures After(g, pos, eff, {}) == eff
  {
    forall v | v in g.members
      ensures Loss(g, pos, v, {}) == 0.0
    {
    }
  }

  lemma AfterIsSound(g: Group, pos: Standing, eff: Standing, s: set<Id>)
    requires Sound(g, pos) && Sound(g, eff)
    ensures Sound(g, After(g, pos, eff, s))
  {
  }

  method ApplyAll(g: Group, ids: seq<Id>, pos: Standing, eff0: Standing, targets: seq<Id>) returns (eff: Standing)
    requires Enumerates(ids, g.members.Keys) && Sound(g, pos) && Sound(g, eff0)
    requires Enumerates(targets, Doomed(g, eff0))
    ensures eff == After(g, pos, eff0, Doomed(g, eff0))
  {
    hide After, Slashed, IsDoomed;
    eff := eff0;
    ghost var done: set<Id> := {};
    AfterNothing(g, pos, eff0);
    for i := 0 to |targets|
      invariant forall u :: u in done <==> u in targets[..i]
      invariant eff == After(g, pos, eff0, done)
    {
      var t := targets[i];
      assert t in targets && t !in targets[..i];
      AfterIsSound(g, pos, eff0, done);
      eff := Discredit(g, ids, pos, eff, t);
      SlashedAfter(g, pos, eff0, done, t);
      done := done + {t};
    }
    assert done == Doomed(g, eff0);
  }

  /** Phase 2. For every order of members the rounds end with nobody left to discredit,
      before the bound on rounds is used up. */
  method Account(g: Group, ids: seq<Id>, pos: Standing) returns (eff: Standing, ghost rounds: nat)
    requires Enumerates(ids, g.members.Keys) && Sound(g, pos)
    ensures eff == Settle(g, pos, pos) && Doomed(g, eff) == {}
    ensures rounds < |ids| + 2
  {
    hide Doomed, After, Positive, Enumerates;
    SettledNobodyDoomed(g, pos, pos);
    eff := pos;
    rounds := 0;
    var maxRounds := |ids| + 2;
    PositiveFits(g, ids, pos);
    var round := 0;
    while round < maxRounds
      invariant 0 <= round <= maxRounds && rounds == round && Sound(g, eff)
      invariant Settle(g, pos, eff) == Settle(g, pos, pos)
      invariant round + |Positive(eff)| <= |ids|
    {
      var targets := Decide(g, ids, eff);
      EnumeratesNothing(targets, Doomed(g, eff));
      if targets == [] {
        return;
      }
      RoundLowers(g, pos, eff);
      RoundShrinks(g, pos, eff);
      eff := ApplyAll(g, ids, pos, eff, targets);
      round := round + 1;
      rounds := round;
    }
    assert false;
  }

  lemma EnumeratesNothing(ids: seq<Id>, s: set<Id>)
    requires Enumerates(ids, s)
    ensures ids == [] <==> s == {}
  {
    if ids != [] {
      assert ids[0] in ids;
    }
  }

  lemma PositiveFits(g: Group, ids: seq<Id>, pos: Standing)
    requires Enumerates(ids, g.members.Keys) && pos.Keys == g.members.Keys
    ensures |Positive(pos)| <= |ids|
  {
    EnumerationSize(ids, g.members.Keys);
    assert Positive(pos) <= g.members.Keys;
    assert g.members.Keys == Positive(pos) + (g.members.Keys - Positive(pos));
  }

  lemma {:induction false} EnumerationSize(ids: seq<Id>, s: set<Id>)
    requires Enumerates(ids, s)
    ensures |ids| == |s|
  {
    if ids == [] {
      assert s == {};
    } else {
      var n := |ids| - 1;
      assert ids[n] in ids && ids == ids[..n] + [ids[n]];
      EnumerationSize(ids[..n], s - {ids[n]});
    }
  }

  /** The trust levels of a group. */
  ghost function TrustLevelsOf(g: Group): Standing {
    LevelsSound(g);
    if g.censures.None? then Levels(g) else Settle(g, Levels(g), Levels(g))
  }

  lemma LevelsSound(g: Group)
    ensures Sound(g, Levels(g))
  {
    forall m | m in g.members
      ensures Levels(g)[m] >= 0.0
    {
      LevelRange(g, m);
    }
  }

  /** Both phases, for any order in which the members are listed. */
  method TrustLevels(g: Group, ids: seq<Id>) returns (levels: Standing)
    requires Enumerates(ids, g.members.Keys)
    ensures levels == TrustLevelsOf(g)
  {
    hide Levels, Settle;
    ghost var rounds, quiet;
    levels, rounds, quiet := PositiveTrust(g, ids);
    LevelsSound(g);
    if g.censures.Some? {
      levels, rounds := Account(g, ids, levels);
    }
  }
}
