/** Affirmative trust: the admin-rooted relaxation and what it computes. */
module Trust {
  import opened Groups

  const TRUST_MAX := 5.0

  function Min(a: real, b: real): real { if a < b then a else b }

  function Seed(g: Group, m: Id): real { if IsAdmin(g, m) then TRUST_MAX else 0.0 }

  /** Rater and ratee are distinct members and the rating is positive. */
  predicate Rates(g: Group, r: Id, m: Id) {
    r != m && r in g.members && m in g.members && Cell(g.ratings, r, m) > 0.0
  }

  /** What a rater of standing `level` confers: strictly less than that standing. */
  function Confers(g: Group, r: Id, m: Id, level: real): real { Min(Cell(g.ratings, r, m), level - 1.0) }

  // Reference: the best value over chains of at most k ratings

  /** What `r` offers `m` when chains to `r` have at most `k` ratings; 0 for nothing. */
  ghost function Offer(g: Group, k: nat, r: Id, m: Id): real
    decreases k, 2
  {
    if Rates(g, r, m) && Best(g, k, r) >= 1.0 then Confers(g, r, m, Best(g, k, r)) else 0.0
  }

  /** The best offer from a set of raters. */
  ghost function BestOffer(g: Group, k: nat, m: Id, raters: set<Id>): (x: real)
    ensures x >= 0.0 && forall r :: r in raters ==> Offer(g, k, r, m) <= x
    ensures x == 0.0 || exists r :: r in raters && Offer(g, k, r, m) == x
    decreases k, 3, raters
  {
    if raters == {} then 0.0
    else
      var r :| r in raters;
      var x, y := Offer(g, k, r, m), BestOffer(g, k, m, raters - {r});
      if x > y then x else y
  }

  ghost function Best(g: Group, k: nat, m: Id): real
    decreases k, 1
  {
    if k == 0 then Seed(g, m)
    else
      var x := BestOffer(g, k - 1, m, g.members.Keys);
      if x > Seed(g, m) then x else Seed(g, m)
  }

  /** A member's trust level: five ratings exhaust the ladder. */
  ghost function Level(g: Group, m: Id): real { Best(g, 5, m) }

  lemma BestAtLeast(g: Group, k: nat, r: Id, m: Id)
    ensures Best(g, k + 1, m) >= Seed(g, m)
    ensures Rates(g, r, m) && Best(g, k, r) >= 1.0 ==> Best(g, k + 1, m) >= Confers(g, r, m, Best(g, k, r))
  {
    hide Confers, Seed;
    if Rates(g, r, m) && Best(g, k, r) >= 1.0 {
      assert Offer(g, k, r, m) == Confers(g, r, m, Best(g, k, r));
    }
  }

  /** Where the best value comes from. */
  lemma BestComesFrom(g: Group, k: nat, m: Id) returns (r: Id)
    ensures Best(g, k + 1, m) == Seed(g, m) ||
            (Rates(g, r, m) && Best(g, k, r) >= 1.0 && Best(g, k + 1, m) == Confers(g, r, m, Best(g, k, r)))
  {
    hide Confers, Rates;
    r := m;
    var x := BestOffer(g, k, m, g.members.Keys);
    if x > Seed(g, m) {
      r :| r in g.members.Keys && Offer(g, k, r, m) == x;
    }
  }

  lemma ConfersBounds(g: Group, r: Id, m: Id, level: real, higher: real)
    requires level <= higher
    ensures Confers(g, r, m, level) <= level - 1.0 && Confers(g, r, m, level) <= Confers(g, r, m, higher)
    ensures Rates(g, r, m) && level >= 1.0 ==> Confers(g, r, m, level) >= 0.0
  {
    hide Cell;
  }

  lemma SeedRange(g: Group, m: Id)
    ensures 0.0 <= Seed(g, m) <= TRUST_MAX && Best(g, 0, m) == Seed(g, m)
  {
  }

  lemma {:induction false} BestRange(g: Group, k: nat, m: Id)
    ensures 0.0 <= Best(g, k, m) <= TRUST_MAX
  {
    hide *;
    SeedRange(g, m);
    if k > 0 {
      var r := BestComesFrom(g, k - 1, m);
      BestRange(g, k - 1, r);
      BestAtLeast(g, k - 1, r, m);
      ConfersBounds(g, r, m, Best(g, k - 1, r), Best(g, k - 1, r));
    }
  }

  lemma {:induction false} BestGrows(g: Group, k: nat, m: Id)
    ensures Best(g, k, m) <= Best(g, k + 1, m)
  {
    hide *;
    SeedRange(g, m);
    BestAtLeast(g, k, m, m);
    if k > 0 {
      var r := BestComesFrom(g, k - 1, m);
      BestAtLeast(g, k, r, m);
      BestGrows(g, k - 1, r);
      ConfersBounds(g, r, m, Best(g, k - 1, r), Best(g, k, r));
    }
  }

  /** A value first reached by k + 1 ratings has fallen by as many steps. */
  lemma {:induction false} LateGainsAreSmall(g: Group, k: nat, m: Id)
    requires Best(g, k + 1, m) > Best(g, k, m)
    ensures Best(g, k + 1, m) <= TRUST_MAX - (k + 1) as real
  {
    hide *;
    SeedRange(g, m);
    var r := BestComesFrom(g, k, m);
    ConfersBounds(g, r, m, Best(g, k, r), Best(g, k, r));
    BestRange(g, k, r);
    if k > 0 {
      BestAtLeast(g, k - 1, m, m);
      BestAtLeast(g, k - 1, r, m);
      BestGrows(g, k - 1, r);
      LateGainsAreSmall(g, k - 1, r);
    }
  }

  lemma FiveRatingsSuffice(g: Group, m: Id)
    ensures Best(g, 6, m) == Level(g, m)
  {
    hide Best, Seed;
    BestGrows(g, 5, m);
    BestRange(g, 5, m);
    if Best(g, 6, m) > Best(g, 5, m) {
      LateGainsAreSmall(g, 5, m);
    }
  }

  // Fixed points

  /** A levelling at or above the seed that no rating can raise. */
  ghost predicate Closed(g: Group, level: map<Id, real>) {
    && level.Keys == g.members.Keys
    && (forall m :: m in g.members ==> level[m] >= Seed(g, m))
    && (forall r, m :: Rates(g, r, m) && level[r] >= 1.0 ==> level[m] >= Confers(g, r, m, level[r]))
  }

  ghost function Levels(g: Group): map<Id, real> { map m | m in g.members :: Level(g, m) }

  lemma RatesMembers(g: Group, r: Id, m: Id)
    requires Rates(g, r, m)
    ensures r in g.members && m in g.members && r != m
  {
  }

  /** The levels are a fixed point ... */
  lemma LevelsAreClosed(g: Group)
    ensures Closed(g, Levels(g))
  {
    hide Best, Seed, Rates, Confers;
    forall m | m in g.members
      ensures Level(g, m) >= Seed(g, m)
    {
      BestAtLeast(g, 4, m, m);
    }
    forall r, m | Rates(g, r, m)
      ensures r in g.members && m in g.members
      ensures Level(g, r) >= 1.0 ==> Level(g, m) >= Confers(g, r, m, Level(g, r))
    {
      RatesMembers(g, r, m);
      BestAtLeast(g, 5, r, m);
      FiveRatingsSuffice(g, m);
    }
  }

  /** ... and lie below every other. */
  lemma {:induction false} BestBelowClosed(g: Group, level: map<Id, real>, k: nat, m: Id)
    requires Closed(g, level) && m in g.members
    ensures Best(g, k, m) <= level[m]
  {
    hide Best, Seed, Rates, Confers;
    SeedRange(g, m);
    if k > 0 {
      var r := BestComesFrom(g, k - 1, m);
      if Best(g, k, m) != Seed(g, m) {
        RatesMembers(g, r, m);
        BestBelowClosed(g, level, k - 1, r);
        ConfersBounds(g, r, m, Best(g, k - 1, r), level[r]);
      }
    }
  }

  lemma LevelsAreLeast(g: Group, level: map<Id, real>)
    requires Closed(g, level)
    ensures forall m :: m in g.members ==> Levels(g)[m] <= level[m]
  {
    forall m | m in g.members
      ensures Level(g, m) <= level[m]
    {
      BestBelowClosed(g, level, 5, m);
    }
  }

  // Chains

  /** An admin, then members each rated by the one before. */
  predicate IsChain(g: Group, c: seq<Id>) {
    && c != [] && c[0] in g.members && IsAdmin(g, c[0])
    && forall i :: 0 < i < |c| ==> Rates(g, c[i - 1], c[i])
  }

  function ChainValue(g: Group, c: seq<Id>): real
    requires c != []
  {
    var n := |c| - 1;
    if n == 0 then TRUST_MAX else Confers(g, c[n - 1], c[n], ChainValue(g, c[..n]))
  }

  lemma {:induction false} ChainsStayBelow(g: Group, c: seq<Id>)
    requires IsChain(g, c)
    ensures ChainValue(g, c) <= Level(g, c[|c| - 1])
  {
    hide Level, Rates, Confers, Best;
    var n := |c| - 1;
    LevelsAreClosed(g);
    if n == 0 {
      assert Levels(g)[c[0]] >= Seed(g, c[0]);
    } else {
      var r := c[n - 1];
      assert Rates(g, r, c[n]);
      RatesMembers(g, r, c[n]);
      ChainsStayBelow(g, c[..n]);
      LevelRange(g, c[n]);
      ConfersBounds(g, r, c[n], ChainValue(g, c[..n]), Levels(g)[r]);
    }
  }

  lemma LevelRange(g: Group, m: Id)
    ensures 0.0 <= Level(g, m) <= TRUST_MAX
  {
    BestRange(g, 5, m);
  }

  lemma SeedIsTop(g: Group, m: Id)
    ensures Seed(g, m) > 0.0 ==> IsAdmin(g, m) && Seed(g, m) == TRUST_MAX
  {
  }

  lemma {:induction false} BestIsAChain(g: Group, k: nat, m: Id) returns (c: seq<Id>)
    requires m in g.members && Best(g, k, m) > 0.0
    ensures IsChain(g, c) && c[|c| - 1] == m && ChainValue(g, c) == Best(g, k, m)
  {
    if k == 0 {
      c := [m];
    } else {
      hide Best, Seed, Confers;
      SeedIsTop(g, m);
      var r := BestComesFrom(g, k - 1, m);
      if Best(g, k, m) == Seed(g, m) {
        c := [m];
      } else {
        var d := BestIsAChain(g, k - 1, r);
        c := d + [m];
        assert c[..|d|] == d;
      }
    }
  }

  /** A level is the best value over admin-rooted chains, 0 where there is none. */
  lemma LevelIsBestChain(g: Group, m: Id)
    requires m in g.members
    ensures forall c :: IsChain(g, c) && c[|c| - 1] == m ==> ChainValue(g, c) <= Level(g, m)
    ensures Level(g, m) == 0.0 || exists c :: IsChain(g, c) && c[|c| - 1] == m && ChainValue(g, c) == Level(g, m)
  {
    forall c | IsChain(g, c) && c[|c| - 1] == m
      ensures ChainValue(g, c) <= Level(g, m)
    {
      ChainsStayBelow(g, c);
    }
    LevelRange(g, m);
    if Level(g, m) > 0.0 {
      var c := BestIsAChain(g, 5, m);
    }
  }

  // Monotone, and no bootstrapping

  /** The second group differs only in ratings, and none of its ratings is lower. */
  predicate RatesAtLeast(g: Group, h: Group) {
    && h.members == g.members && h.creator == g.creator
    && forall r, m :: r in g.members && m in g.members ==> Cell(g.ratings, r, m) <= Cell(h.ratings, r, m)
  }

  lemma RatesGrow(g: Group, h: Group, r: Id, m: Id, level: real)
    requires RatesAtLeast(g, h) && Rates(g, r, m)
    ensures Rates(h, r, m) && Confers(g, r, m, level) <= Confers(h, r, m, level) && Seed(g, m) == Seed(h, m)
  {
  }

  /** Raising ratings never lowers a level. */
  lemma LevelsAreMonotone(g: Group, h: Group, m: Id)
    requires RatesAtLeast(g, h) && m in g.members
    ensures Level(g, m) <= Level(h, m)
  {
    hide Level, Rates, Confers, Cell;
    LevelsAreClosed(h);
    forall r, m | Rates(g, r, m) && r in g.members && Levels(h)[r] >= 1.0
      ensures m in g.members && Levels(h)[m] >= Confers(g, r, m, Levels(h)[r])
    {
      RatesMembers(g, r, m);
      RatesGrow(g, h, r, m, Levels(h)[r]);
    }
    forall r, m | Rates(g, r, m)
      ensures r in g.members && m in g.members
    {
      RatesMembers(g, r, m);
    }
    assert Closed(g, Levels(h));
    LevelsAreLeast(g, Levels(h));
    assert Levels(g)[m] == Level(g, m) && Levels(h)[m] == Level(h, m);
  }

  /** Members whom nobody outside the group of them rates cannot raise each other. */
  lemma NoBootstrapping(g: Group, s: set<Id>, m: Id)
    requires s <= g.members.Keys && m in s
    requires forall x :: x in s ==> !IsAdmin(g, x)
    requires forall r, x :: x in s && Rates(g, r, x) ==> r in s
    ensures Level(g, m) == 0.0
  {
    hide Level, Rates, Confers, IsAdmin;
    LevelsAreClosed(g);
    var level := map x | x in g.members :: if x in s then 0.0 else Level(g, x);
    forall r, x | Rates(g, r, x)
      ensures r in g.members && x in g.members && (level[r] >= 1.0 ==> level[x] >= Confers(g, r, x, level[r]))
    {
      RatesMembers(g, r, x);
      assert Levels(g)[r] == Level(g, r) && Levels(g)[x] == Level(g, x);
    }
    assert Closed(g, level);
    LevelsAreLeast(g, level);
    LevelRange(g, m);
    assert Levels(g)[m] == Level(g, m);
  }
}
