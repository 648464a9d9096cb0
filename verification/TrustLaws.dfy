/** Trust levels told on the table of ratings. */
module TrustLaws {
  import opened Groups
  import opened Trust

  /** The table holds a positive rating of one member by another. */
  predicate Rated(g: Group, r: Id, m: Id) {
    && r in g.members && m in g.members && r != m
    && g.ratings.Some? && r in g.ratings.value && m in g.ratings.value[r] && g.ratings.value[r][m] > 0.0
  }

  function RatingOf(g: Group, r: Id, m: Id): real
    requires Rated(g, r, m)
  {
    g.ratings.value[r][m]
  }

  /** A member who is an admin, then members rated each by the one before. */
  predicate Leads(g: Group, c: seq<Id>) {
    && c != [] && c[0] in g.members && (c[0] == g.creator || g.members[c[0]].role == Admin)
    && forall i :: 0 < i < |c| ==> Rated(g, c[i - 1], c[i])
  }

  /** A chain carries `x` to its end when it is no longer than 5 allows, and each rating on
      it is at least `x` and one more for every rating still to come. */
  predicate Carries(g: Group, c: seq<Id>, x: real)
    requires Leads(g, c)
  {
    var n := |c| - 1;
    && x <= 5.0 - n as real
    && forall i :: 0 < i <= n ==> x + (n - i) as real <= RatingOf(g, c[i - 1], c[i])
  }

  lemma RatedIsRates(g: Group, r: Id, m: Id)
    ensures Rated(g, r, m) <==> Rates(g, r, m)
    ensures Rated(g, r, m) ==> RatingOf(g, r, m) == Cell(g.ratings, r, m)
  {
  }

  lemma LeadsIsChain(g: Group, c: seq<Id>)
    ensures Leads(g, c) <==> IsChain(g, c)
  {
    hide Rated, Rates;
    forall r, m
      ensures Rated(g, r, m) <==> Rates(g, r, m)
    {
      RatedIsRates(g, r, m);
    }
  }

  /** The value of a chain is the most it carries. */
  lemma {:induction false} ValueIsCarried(g: Group, c: seq<Id>, x: real)
    requires Leads(g, c)
    ensures x <= ChainValue(g, c) <==> Carries(g, c, x)
  {
    hide Rated, Cell, RatingOf;
    var n := |c| - 1;
    if n > 0 {
      var d := c[..n];
      ValueIsCarried(g, d, x + 1.0);
      RatedIsRates(g, c[n - 1], c[n]);
      CarriesSnoc(g, c, x);
    }
  }

  lemma CarriesSnoc(g: Group, c: seq<Id>, x: real)
    requires Leads(g, c) && |c| > 1
    ensures var n := |c| - 1;
            Carries(g, c, x) <==> Carries(g, c[..n], x + 1.0) && x <= RatingOf(g, c[n - 1], c[n])
  {
    hide Rated, RatingOf;
    var n := |c| - 1;
    var d := c[..n];
    if Carries(g, c, x) {
      forall i | 0 < i <= n - 1
        ensures x + 1.0 + (n - 1 - i) as real <= RatingOf(g, d[i - 1], d[i])
      {
        assert x + (n - i) as real <= RatingOf(g, c[i - 1], c[i]);
      }
    }
    if Carries(g, d, x + 1.0) && x <= RatingOf(g, c[n - 1], c[n]) {
      forall i | 0 < i <= n
        ensures x + (n - i) as real <= RatingOf(g, c[i - 1], c[i])
      {
        if i < n {
          assert x + 1.0 + (n - 1 - i) as real <= RatingOf(g, d[i - 1], d[i]);
        }
      }
    }
  }

  /** A level is the most that any chain to the member carries, and 0 where none carries
      anything. */
  lemma LevelInRatings(g: Group, m: Id)
    requires m in g.members
    ensures Level(g, m) >= 0.0
    ensures forall c, x :: Leads(g, c) && c[|c| - 1] == m && Carries(g, c, x) ==> x <= Level(g, m)
    ensures Level(g, m) > 0.0 ==> exists c :: Leads(g, c) && c[|c| - 1] == m && Carries(g, c, Level(g, m))
  {
    hide Level, Rated, Rates, Carries, ChainValue, IsAdmin;
    LevelRange(g, m);
    LevelIsBestChain(g, m);
    forall c: seq<Id>
      ensures Leads(g, c) <==> IsChain(g, c)
    {
      LeadsIsChain(g, c);
    }
    forall c, x | Leads(g, c) && c[|c| - 1] == m && Carries(g, c, x)
      ensures x <= Level(g, m)
    {
      ValueIsCarried(g, c, x);
    }
    if Level(g, m) > 0.0 {
      var c :| IsChain(g, c) && c[|c| - 1] == m && ChainValue(g, c) == Level(g, m);
      ValueIsCarried(g, c, Level(g, m));
    }
  }

  /** An admin stands at 5. Nobody else stands above what some member rates them, nor less
      than one below that member. */
  lemma NobodyAboveRating(g: Group, m: Id)
    requires m in g.members
    ensures m == g.creator || g.members[m].role == Admin ==> Level(g, m) == 5.0
    ensures m != g.creator && g.members[m].role != Admin && Level(g, m) > 0.0 ==>
              exists r :: Rated(g, r, m) && Level(g, m) <= RatingOf(g, r, m) && Level(g, m) <= Level(g, r) - 1.0
  {
    hide Best, Rates, Rated, RatingOf, Cell;
    LevelRange(g, m);
    BestAtLeast(g, 4, m, m);
    var r := BestComesFrom(g, 4, m);
    RatedIsRates(g, r, m);
    BestGrows(g, 4, r);
  }
}
