/** What the re-keying of a member does to a vote under way. Ballots are kept outside the
    group's record, under the ids they were cast with, and are not moved. */
module Rekeying {
  import opened Options
  import opened Groups
  import opened Permutations
  import opened Governance
  import opened Delegations
  import opened Renaming
  import opened RenamingLaws

  type Polled = map<Id, seq<string>>

  /** Ids with something on their ballot. */
  function Cast(ballots: Polled): set<Id> { set p | p in ballots && ballots[p] != [] }

  /** The electorate of an issue when the ballots of `cast` are in: only members vote. */
  ghost function ElectorateAt(g: Group, issue: string, cast: set<Id>): Electorate {
    ElectorateFor(g, issue, g.members.Keys * cast)
  }

  /** The weights an issue's ballots count with. */
  method GovWeights(g: Group, ids: seq<Id>, issue: string, ballots: Polled) returns (weightByVoter: map<Id, real>)
    requires Enumerates(ids, g.members.Keys)
    ensures weightByVoter == Weights(ElectorateAt(g, issue, Cast(ballots)), ids)
  {
    hide DelegationMap, TrustWeightsOf, Weights, Flow, Abstaining;
    var delegations := DelegationMapFor(g, issue);
    var direct := set p | p in ids && p in ballots && ballots[p] != [];
    assert direct == g.members.Keys * Cast(ballots);
    var weights := TrustWeightsFor(g, ids);
    assert (set m | m in ids) == g.members.Keys;
    var flow, abstained;
    weightByVoter, flow, abstained := ResolveWeights(ids, delegations, direct, weights);
  }

  /** What a caller can check: both ids have a ballot in the poll, or neither has. */
  predicate BallotsAgree(cast: set<Id>, o: Id, n: Id) { o in cast <==> n in cast }

  /** Re-keying a member of the record to an id it does not know. */
  predicate Rekeys(g: Group, o: Id, n: Id) { o in g.members && Fresh(g, n) && o != "" && n != "" }

  lemma VotersAfter(g: Group, o: Id, n: Id, cast: set<Id>)
    requires Rekeys(g, o, n)
    ensures Moved(g, o, n).members.Keys == g.members.Keys - {o} + {n}
    ensures Moved(g, o, n).members.Keys * cast == SwapSet(o, n, g.members.Keys * cast) <==> BallotsAgree(cast, o, n)
  {
    hide Moved, SwapSet;
    MovedMemberKeys(g, o, n);
    var a, b := Moved(g, o, n).members.Keys * cast, SwapSet(o, n, g.members.Keys * cast);
    forall x
      ensures x in SwapSet(o, n, g.members.Keys) <==> x in g.members.Keys - {o} + {n}
      ensures x in b <==> Swap(o, n, x) in g.members.Keys * cast
    {
      InSwapSet(o, n, g.members.Keys, x);
      InSwapSet(o, n, g.members.Keys * cast, x);
    }
    assert n in a <==> n in cast;
    assert n in b <==> o in cast;
  }

  /** The electorate after the re-keying is the renamed electorate exactly when the ballots agree. */
  lemma ElectorateFollowsIff(g: Group, o: Id, n: Id, issue: string, cast: set<Id>)
    requires Rekeys(g, o, n)
    ensures ElectorateAt(Moved(g, o, n), issue, cast) == MovedElectorate(ElectorateAt(g, issue, cast), o, n) <==>
            BallotsAgree(cast, o, n)
  {
    hide DelegationMap, TrustWeightsOf, Moved, SwapSet, MoveLinks, MoveKeys, Fresh;
    VotersAfter(g, o, n, cast);
    ElectoratesCommute(g, o, n, issue, g.members.Keys * cast);
  }

  /** Votes land on direct voters, and a direct voter's own vote lands with them. */
  lemma LandsOnVoter(e: Electorate, m: Id)
    requires m in e.members
    ensures Landed(e, m).Some? ==> Landed(e, m).value in e.voters
    ensures m in e.voters && m != "" ==> Landed(e, m) == Some(m)
  {
    hide Landed;
    LandingLaw(e, m);
    if Landed(e, m).Some? {
      var v := Landed(e, m).value;
      var k: nat :| ReachesIn(e, m, v, k);
      ReachEnds(e, m, v, k);
    }
    if m in e.voters {
      assert ReachesIn(e, m, m, 0);
    }
  }

  lemma {:induction false} ReachEnds(e: Electorate, m: Id, v: Id, k: nat)
    requires ReachesIn(e, m, v, k)
    ensures v in e.voters
    decreases k
  {
    if k > 0 {
      ReachEnds(e, Next(e, m).value, v, k - 1);
    }
  }

  ghost predicate LandingsFollow(g: Group, o: Id, n: Id, issue: string, cast: set<Id>) {
    var e, f := ElectorateAt(g, issue, cast), ElectorateAt(Moved(g, o, n), issue, cast);
    forall m :: m in g.members ==> Swap(o, n, m) in f.members && Landed(f, Swap(o, n, m)) == MovedId(o, n, Landed(e, m))
  }

  /** Every vote lands on the renamed voter it landed on exactly when the ballots agree. */
  lemma LandingsFollowIff(g: Group, o: Id, n: Id, issue: string, cast: set<Id>)
    requires Rekeys(g, o, n)
    ensures LandingsFollow(g, o, n, issue, cast) <==> BallotsAgree(cast, o, n)
  {
    hide Landed, DelegationMap, TrustWeightsOf, Moved, MovedElectorate, Fresh;
    var e, f := ElectorateAt(g, issue, cast), ElectorateAt(Moved(g, o, n), issue, cast);
    ElectorateFollowsIff(g, o, n, issue, cast);
    VotersAfter(g, o, n, cast);
    if BallotsAgree(cast, o, n) {
      forall m | m in g.members
        ensures Swap(o, n, m) in f.members && Landed(f, Swap(o, n, m)) == MovedId(o, n, Landed(e, m))
      {
        LandingsCommute(e, o, n, m);
      }
    } else {
      LandsOnVoter(e, o);
      LandsOnVoter(f, n);
      assert Landed(f, Swap(o, n, o)) != MovedId(o, n, Landed(e, o));
    }
  }

  // The weights handed to the tally

  lemma CountInListing(ids: seq<Id>, s: set<Id>, x: Id)
    requires Enumerates(ids, s)
    ensures multiset(ids)[x] == if x in s then 1 else 0
  {
    if x in s {
      var i :| 0 <= i < |ids| && ids[i] == x;
      WithoutBag(ids, i);
      NotElsewhere(ids, i);
    } else {
      assert x !in multiset(ids);
    }
  }

  lemma NotElsewhere(ids: seq<Id>, i: nat)
    requires i < |ids| && forall j, k :: 0 <= j < k < |ids| ==> ids[j] != ids[k]
    ensures multiset(Without(ids, i))[ids[i]] == 0
  {
    var rest := Without(ids, i);
    assert ids[i] !in rest;
    assert ids[i] !in multiset(rest);
  }

  lemma SameListing(a: seq<Id>, b: seq<Id>, s: set<Id>)
    requires Enumerates(a, s) && Enumerates(b, s)
    ensures multiset(a) == multiset(b)
  {
    hide Enumerates;
    forall x
      ensures multiset(a)[x] == multiset(b)[x]
    {
      CountInListing(a, s, x);
      CountInListing(b, s, x);
    }
  }

  lemma MovedListing(o: Id, n: Id, ids: seq<Id>, s: set<Id>)
    requires Enumerates(ids, s)
    ensures Enumerates(MovedList(o, n, ids), SwapSet(o, n, s))
  {
    hide SwapSet;
    var xs := MovedList(o, n, ids);
    forall x
      ensures x in xs <==> x in SwapSet(o, n, s)
    {
      InSwapSet(o, n, s, x);
      SwapTwice(o, n, x);
      if Swap(o, n, x) in ids {
        var i :| 0 <= i < |ids| && ids[i] == Swap(o, n, x);
        assert xs[i] == x;
      }
    }
  }

  lemma ReceiversCommute(e: Electorate, o: Id, n: Id, ms: seq<Id>, xs: seq<Id>)
    requires AllMembers(e, ms) && o != "" && n != "" && multiset(xs) == multiset(MovedList(o, n, ms))
    requires AllMembers(MovedElectorate(e, o, n), xs)
    ensures Weights(MovedElectorate(e, o, n), xs) == MoveKeys(o, n, Weights(e, ms))
  {
    hide MovedElectorate, Landed, WeightAt, Receivers, MoveKeys, Swap;
    var f := MovedElectorate(e, o, n);
    forall v
      ensures Swap(o, n, v) in Receivers(f, xs) <==> v in Receivers(e, ms)
    {
      InReceivers(e, ms, v);
      InReceivers(f, xs, Swap(o, n, v));
      if m :| m in ms && Landed(e, m) == Some(v) {
        LandingsCommute(e, o, n, m);
        ListedMoved(o, n, ms, xs, Swap(o, n, m));
        SwapTwice(o, n, m);
      }
      if x :| x in xs && Landed(f, x) == Some(Swap(o, n, v)) {
        ListedMoved(o, n, ms, xs, x);
        SwapTwice(o, n, x);
        var m := Swap(o, n, x);
        LandingsCommute(e, o, n, m);
        SwapBack(o, n, v, Landed(e, m));
      }
    }
    var a, b := Weights(f, xs), MoveKeys(o, n, Weights(e, ms));
    forall x
      ensures x in a <==> x in b
      ensures x in a ==> a[x] == b[x]
    {
      SwapTwice(o, n, x);
      MovedKey(o, n, Weights(e, ms), x);
      VotesCommute(e, o, n, ms, xs, Swap(o, n, x));
    }
  }

  lemma SwapBack(o: Id, n: Id, v: Id, l: Option<Id>)
    requires MovedId(o, n, l) == Some(Swap(o, n, v))
    ensures l == Some(v)
  {
  }

  lemma ListedMoved(o: Id, n: Id, ms: seq<Id>, xs: seq<Id>, x: Id)
    requires multiset(xs) == multiset(MovedList(o, n, ms))
    ensures x in xs <==> Swap(o, n, x) in ms
  {
    var moved := MovedList(o, n, ms);
    assert x in xs <==> x in multiset(xs);
    assert x in moved <==> x in multiset(moved);
    SwapTwice(o, n, x);
    if Swap(o, n, x) in ms {
      var i :| 0 <= i < |ms| && ms[i] == Swap(o, n, x);
      assert moved[i] == x;
    }
  }

  /** The weights the tally is given follow the member exactly when the ballots agree,
      however the members are listed before and after. */
  lemma WeightsFollowIff(g: Group, o: Id, n: Id, issue: string, cast: set<Id>, ids: seq<Id>, xs: seq<Id>)
    requires Rekeys(g, o, n) && Enumerates(ids, g.members.Keys) && Enumerates(xs, g.members.Keys - {o} + {n})
    ensures AllMembers(ElectorateAt(g, issue, cast), ids) && AllMembers(ElectorateAt(Moved(g, o, n), issue, cast), xs)
    ensures Weights(ElectorateAt(Moved(g, o, n), issue, cast), xs) ==
            MoveKeys(o, n, Weights(ElectorateAt(g, issue, cast), ids)) <==>
            BallotsAgree(cast, o, n)
  {
    hide DelegationMap, TrustWeightsOf, Moved, MovedElectorate, Fresh, Weights, MoveKeys, Landed;
    var e, f := ElectorateAt(g, issue, cast), ElectorateAt(Moved(g, o, n), issue, cast);
    VotersAfter(g, o, n, cast);
    ElectorateFollowsIff(g, o, n, issue, cast);
    if BallotsAgree(cast, o, n) {
      MovedListing(o, n, ids, g.members.Keys);
      MovedMemberKeys(g, o, n);
      SameListing(xs, MovedList(o, n, ids), g.members.Keys - {o} + {n});
      ReceiversCommute(e, o, n, ids, xs);
    } else {
      VoterIsWeighed(e, ids, o);
      VoterIsWeighed(f, xs, n);
      MovedKey(o, n, Weights(e, ids), n);
    }
  }

  /** A listed member carries weight exactly when they voted. */
  lemma VoterIsWeighed(e: Electorate, ids: seq<Id>, v: Id)
    requires AllMembers(e, ids) && v in ids && v != ""
    ensures v in Weights(e, ids) <==> v in e.voters
  {
    hide Landed, Receivers, WeightAt;
    InReceivers(e, ids, v);
    if v in e.voters {
      assert v in e.members;
      LandsOnVoter(e, v);
    }
    if m :| m in ids && Landed(e, m) == Some(v) {
      LandsOnVoter(e, m);
    }
  }

  /** When the ballot was cast under the old id only, the vote is lost: neither id carries
      weight any more, and nobody's vote lands on either. */
  lemma RekeyLosesVote(g: Group, o: Id, n: Id, issue: string, cast: set<Id>, ids: seq<Id>, xs: seq<Id>)
    requires Rekeys(g, o, n) && Enumerates(ids, g.members.Keys) && Enumerates(xs, g.members.Keys - {o} + {n})
    requires o in cast && n !in cast
    ensures AllMembers(ElectorateAt(g, issue, cast), ids) && AllMembers(ElectorateAt(Moved(g, o, n), issue, cast), xs)
    ensures o in Weights(ElectorateAt(g, issue, cast), ids)
    ensures var w := Weights(ElectorateAt(Moved(g, o, n), issue, cast), xs); o !in w && n !in w
    ensures var f := ElectorateAt(Moved(g, o, n), issue, cast);
            forall m :: m in f.members ==> Landed(f, m) != Some(o) && Landed(f, m) != Some(n)
  {
    hide DelegationMap, TrustWeightsOf, Moved, Fresh, Weights, Landed;
    var e, f := ElectorateAt(g, issue, cast), ElectorateAt(Moved(g, o, n), issue, cast);
    VotersAfter(g, o, n, cast);
    VoterIsWeighed(e, ids, o);
    forall m | m in f.members
      ensures Landed(f, m) != Some(o) && Landed(f, m) != Some(n)
    {
      LandsOnVoter(f, m);
    }
    OnlyLandings(f, xs, o);
    OnlyLandings(f, xs, n);
  }

  lemma OnlyLandings(f: Electorate, xs: seq<Id>, v: Id)
    requires AllMembers(f, xs) && forall m :: m in f.members ==> Landed(f, m) != Some(v)
    ensures v !in Weights(f, xs)
  {
    hide Landed, WeightAt;
    InReceivers(f, xs, v);
  }

  /** The smallest case: the one member of a group has voted, comes back under another id,
      and the vote counts for nothing. */
  lemma LoneVoteLost()
    ensures var g := Group("a", map["a" := Member("a", Admin, "", 0)], map[], None, None, None);
            var e, f := ElectorateAt(g, "i", {"a"}), ElectorateAt(Moved(g, "a", "b"), "i", {"a"});
            && AllMembers(e, ["a"]) && AllMembers(f, ["b"])
            && "a" in Weights(e, ["a"]) && Weights(f, ["b"]) == map[]
  {
    hide DelegationMap, TrustWeightsOf, Moved, Landed;
    var g := Group("a", map["a" := Member("a", Admin, "", 0)], map[], None, None, None);
    LoneGroup(g);
    VotersAfter(g, "a", "b", {"a"});
    var f := ElectorateAt(Moved(g, "a", "b"), "i", {"a"});
    assert f.members == {"b"} && f.voters == {};
    NobodyVoted(f, ["b"]);
    RekeyLosesVote(g, "a", "b", "i", {"a"}, ["a"], ["b"]);
  }

  lemma NobodyVoted(f: Electorate, xs: seq<Id>)
    requires AllMembers(f, xs) && f.voters == {}
    ensures Weights(f, xs) == map[]
  {
    hide Landed, WeightAt;
    forall v
      ensures v !in Receivers(f, xs)
    {
      InReceivers(f, xs, v);
      if m :| m in xs && Landed(f, m) == Some(v) {
        LandsOnVoter(f, m);
      }
    }
  }

  lemma LoneGroup(g: Group)
    requires g == Group("a", map["a" := Member("a", Admin, "", 0)], map[], None, None, None)
    ensures Rekeys(g, "a", "b") && Enumerates(["a"], g.members.Keys) &&
            Enumerates(["b"], g.members.Keys - {"a"} + {"b"})
  {
  }

  /** A member returns under a fresh id while a poll is open: the record is re-keyed in
      place and the issue's weights are resolved again. */
  method ReweighAfterRekey(r: GroupRecord, o: Id, n: Id, ids: seq<Id>, xs: seq<Id>, issue: string, ballots: Polled)
      returns (before: map<Id, real>, after: map<Id, real>)
    requires Rekeys(r.State(), o, n)
    requires Enumerates(ids, r.members.Keys) && Enumerates(xs, r.members.Keys - {o} + {n})
    modifies r
    ensures r.State() == Moved(old(r.State()), o, n)
    ensures after == MoveKeys(o, n, before) <==> BallotsAgree(Cast(ballots), o, n)
    ensures o in Cast(ballots) && n !in Cast(ballots) ==> o in before && o !in after && n !in after
  {
    hide DelegationMap, TrustWeightsOf, Moved, Weights, MoveKeys, Landed, ElectorateAt;
    ghost var g := r.State();
    VotersAfter(g, o, n, {});
    WeightsFollowIff(g, o, n, issue, Cast(ballots), ids, xs);
    before := GovWeights(r.State(), ids, issue, ballots);
    r.RekeyMember(o, n);
    after := GovWeights(r.State(), xs, issue, ballots);
    if o in Cast(ballots) && n !in Cast(ballots) {
      RekeyLosesVote(g, o, n, issue, Cast(ballots), ids, xs);
    }
  }
}
