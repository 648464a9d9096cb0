/** Where votes go and what they weigh, told on the delegations and the record. */
module FlowLaws {
  import opened Options
  import opened Groups
  import opened Accountability
  import opened Delegations
  import opened Governance
  import opened Rekeying

  /** `m` did not vote and delegates to the member `d`. */
  predicate PassesTo(e: Electorate, m: Id, d: Id) {
    m !in e.voters && m in e.delegations && e.delegations[m] == d && d in e.members
  }

  /** From member to member along the delegations, past nobody who voted, to one who did. */
  predicate LeadsTo(e: Electorate, c: seq<Id>, v: Id) {
    && c != [] && c[|c| - 1] == v && v in e.voters
    && forall i :: 0 < i < |c| ==> PassesTo(e, c[i - 1], c[i])
  }

  lemma {:induction false} ReachedAlong(e: Electorate, m: Id, v: Id, k: nat) returns (c: seq<Id>)
    requires ReachesIn(e, m, v, k)
    ensures LeadsTo(e, c, v) && c[0] == m
    decreases k
  {
    if k == 0 {
      c := [m];
    } else {
      var rest := ReachedAlong(e, Next(e, m).value, v, k - 1);
      c := [m] + rest;
      assert PassesTo(e, m, rest[0]);
    }
  }

  lemma {:induction false} AlongReaches(e: Electorate, c: seq<Id>, v: Id)
    requires LeadsTo(e, c, v)
    ensures ReachesIn(e, c[0], v, |c| - 1)
    decreases |c|
  {
    if |c| > 1 {
      assert PassesTo(e, c[0], c[1]);
      AlongReaches(e, c[1..], v);
    }
  }

  /** A vote lands on `v` exactly when delegations lead there; with none that lead anywhere
      it abstains. */
  lemma LandsWhereLed(e: Electorate, m: Id)
    requires m in e.members
    ensures forall v :: Landed(e, m) == Some(v) <==> v != "" && exists c :: LeadsTo(e, c, v) && c[0] == m
  {
    hide Landed, PassesTo, ReachesIn;
    LandingLaw(e, m);
    forall v
      ensures Reaches(e, m, v) <==> exists c :: LeadsTo(e, c, v) && c[0] == m
    {
      ReachesIffLed(e, m, v);
    }
  }

  lemma ReachesIffLed(e: Electorate, m: Id, v: Id)
    ensures Reaches(e, m, v) <==> exists c :: LeadsTo(e, c, v) && c[0] == m
  {
    hide ReachesIn;
    if Reaches(e, m, v) {
      var k: nat :| ReachesIn(e, m, v, k);
      var c := ReachedAlong(e, m, v, k);
    }
    if c :| LeadsTo(e, c, v) && c[0] == m {
      AlongReaches(e, c, v);
    }
  }

  /** One more listed member either adds to the weight of the voter their vote lands on, what
      the table gives them, or 1 where it gives nothing or less than nothing; or abstains. */
  lemma OneMoreMember(e: Electorate, ms: seq<Id>, m: Id)
    requires AllMembers(e, ms) && m in e.members
    ensures Weights(e, []) == map[] && Flow(e, []) == map[] && Abstaining(e, []) == []
    ensures AllMembers(e, ms + [m])
    ensures var own := if m in e.weights && e.weights[m] >= 0.0 then e.weights[m] else 1.0;
            var all, w := ms + [m], Weights(e, ms);
            match Landed(e, m)
            case None =>
              Weights(e, all) == w && Flow(e, all) == Flow(e, ms) && Abstaining(e, all) == Abstaining(e, ms) + [m]
            case Some(v) =>
              && Weights(e, all) == w[v := (if v in w then w[v] else 0.0) + own]
              && Flow(e, all) == Flow(e, ms)[m := v] && Abstaining(e, all) == Abstaining(e, ms)
  {
    hide Landed, Receivers, WeightAt, Flow, Abstaining;
    NobodyListed(e);
    NobodyFlows(e);
    var all := ms + [m];
    assert all[..|ms|] == ms && all[..|ms| + 1] == all;
    Extend(e, all, |ms|);
  }

  lemma NobodyFlows(e: Electorate)
    ensures Flow(e, []) == map[]
  {
  }

  /** Somebody has rated somebody. */
  ghost predicate AnyRated(g: Group) {
    exists r, x :: g.ratings.Some? && r in g.ratings.value && x in g.ratings.value[r]
  }

  /** The delegate of the issue's own table where it has a row for the member, else the
      standing one; the empty id for nobody. */
  function DelegateIn(g: Group, issue: string, m: Id): Id {
    if g.topics.Some? && issue in g.topics.value && m in g.topics.value[issue] then g.topics.value[issue][m].delegate
    else if m in g.delegations then g.delegations[m].delegate
    else ""
  }

  /** One vote each, and the trust level on top once anybody has rated anybody. */
  lemma BaseWeightsLaw(g: Group, m: Id)
    requires m in g.members
    ensures m in TrustWeightsOf(g) && m in TrustLevelsOf(g)
    ensures TrustWeightsOf(g)[m] ==
            if AnyRated(g) then 1.0 + TrustLevelsOf(g)[m] else 1.0
  {
    hide TrustLevelsOf;
    SettledKeys(g);
    if g.ratings.Some? {
      forall r | r in g.ratings.value
        ensures |g.ratings.value[r]| > 0 <==> exists x :: x in g.ratings.value[r]
      {
        assert |g.ratings.value[r]| == |g.ratings.value[r].Keys|;
      }
    }
  }

  lemma DelegateLaw(g: Group, issue: string, m: Id)
    ensures m in DelegationMap(g, issue) <==> m in g.members && DelegateIn(g, issue, m) != ""
    ensures m in DelegationMap(g, issue) ==> DelegationMap(g, issue)[m] == DelegateIn(g, issue, m)
  {
  }

  /** The electorate of a poll: the members, those of them with something on their ballot, their
      delegations for the issue, and their base weights. */
  lemma ElectorateOfPoll(g: Group, issue: string, ballots: Polled, m: Id)
    ensures var e := ElectorateAt(g, issue, Cast(ballots));
            && (m in e.members <==> m in g.members)
            && (m in e.voters <==> m in g.members && m in ballots && |ballots[m]| > 0)
            && (m in g.members ==> m in TrustLevelsOf(g) && m in e.weights)
            && (m in g.members ==> e.weights[m] == if AnyRated(g) then 1.0 + TrustLevelsOf(g)[m] else 1.0)
            && (m in e.delegations <==> m in g.members && DelegateIn(g, issue, m) != "")
            && (m in e.delegations ==> e.delegations[m] == DelegateIn(g, issue, m))
  {
    hide TrustLevelsOf, TrustWeightsOf, DelegationMap, AnyRated, DelegateIn;
    DelegateLaw(g, issue, m);
    if m in g.members {
      BaseWeightsLaw(g, m);
    }
  }
}
