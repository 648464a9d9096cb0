/** Liquid democracy: each member's vote flows along delegations to the first direct
    voter reached, despite dead ends and cycles. */
module Delegations {
  import opened Options
  import opened Groups
  import opened Permutations

  datatype Electorate = Electorate(members: set<Id>, delegations: map<Id, Id>, voters: set<Id>, weights: map<Id, real>)

  /** The delegate to follow, when there is one and it is a member. */
  function Next(e: Electorate, n: Id): Option<Id> {
    if n in e.delegations && e.delegations[n] in e.members then Some(e.delegations[n]) else None
  }

  /** The walk the resolver makes, with the nodes seen so far. */
  function Walk(e: Electorate, n: Id, seen: set<Id>): Option<Id>
    requires n in e.members && seen <= e.members
    decreases e.members - seen
  {
    if n in e.voters then Some(n)
    else if n in seen then None
    else
      match Next(e, n)
      case None => None
      case Some(d) => Walk(e, d, seen + {n})
  }

  // Reference: reaching a voter after exactly k delegations, none of the members
  // passed on the way having voted

  predicate ReachesIn(e: Electorate, n: Id, v: Id, k: nat)
    decreases k
  {
    if k == 0 then n == v && n in e.voters
    else n !in e.voters && Next(e, n).Some? && ReachesIn(e, Next(e, n).value, v, k - 1)
  }

  ghost predicate Reaches(e: Electorate, n: Id, v: Id) { exists k: nat :: ReachesIn(e, n, v, k) }

  lemma {:induction false} ReachedOnce(e: Electorate, n: Id, v: Id, k: nat, u: Id, j: nat)
    requires ReachesIn(e, n, v, k) && ReachesIn(e, n, u, j)
    ensures v == u && k == j
    decreases k
  {
    if k > 0 && j > 0 {
      ReachedOnce(e, Next(e, n).value, v, k - 1, u, j - 1);
    }
  }

  lemma {:induction false} WalkIsSound(e: Electorate, n: Id, seen: set<Id>) returns (k: nat)
    requires n in e.members && seen <= e.members && Walk(e, n, seen).Some?
    ensures ReachesIn(e, n, Walk(e, n, seen).value, k)
    decreases e.members - seen
  {
    if n in e.voters {
      k := 0;
    } else {
      k := WalkIsSound(e, Next(e, n).value, seen + {n});
      k := k + 1;
    }
  }

  /** Everything seen lies strictly farther from the voter than the walk does now. */
  ghost predicate Farther(e: Electorate, seen: set<Id>, v: Id, k: nat) {
    forall s :: s in seen ==> exists j: nat :: j > k && ReachesIn(e, s, v, j)
  }

  lemma {:induction false} WalkIsComplete(e: Electorate, n: Id, seen: set<Id>, v: Id, k: nat)
    requires n in e.members && seen <= e.members
    requires ReachesIn(e, n, v, k) && Farther(e, seen, v, k)
    ensures Walk(e, n, seen) == Some(v)
    decreases k
  {
    if n in seen {
      var j: nat :| j > k && ReachesIn(e, n, v, j);
      ReachedOnce(e, n, v, k, v, j);
    } else if k > 0 {
      forall s | s in seen + {n}
        ensures exists j: nat :: j > k - 1 && ReachesIn(e, s, v, j)
      {
        if s in seen {
          var j: nat :| j > k && ReachesIn(e, s, v, j);
        } else {
          assert ReachesIn(e, n, v, k);
        }
      }
      WalkIsComplete(e, Next(e, n).value, seen + {n}, v, k - 1);
    }
  }

  /** The walk ends at `v` exactly when `v` is the first direct voter on the chain. */
  lemma WalkIffReaches(e: Electorate, m: Id, v: Id)
    requires m in e.members
    ensures Walk(e, m, {}) == Some(v) <==> Reaches(e, m, v)
  {
    if Walk(e, m, {}) == Some(v) {
      var k := WalkIsSound(e, m, {});
    }
    if Reaches(e, m, v) {
      var k: nat :| ReachesIn(e, m, v, k);
      WalkIsComplete(e, m, {}, v, k);
    }
  }

  /** Where a vote lands. The code tests the landing place for truth, so a chain that
      ends at a voter with an empty id abstains. */
  function Landed(e: Electorate, m: Id): Option<Id>
    requires m in e.members
  {
    var w := Walk(e, m, {});
    if w == Some("") then None else w
  }

  /** A vote lands on the first direct voter of its chain, and abstains exactly when the
      chain reaches none (with a non-empty id). */
  lemma LandingLaw(e: Electorate, m: Id)
    requires m in e.members
    ensures forall v :: Landed(e, m) == Some(v) <==> v != "" && Reaches(e, m, v)
    ensures Landed(e, m) == None <==> forall v :: v != "" ==> !Reaches(e, m, v)
  {
    hide Walk, Reaches;
    forall v
      ensures Walk(e, m, {}) == Some(v) <==> Reaches(e, m, v)
    {
      WalkIffReaches(e, m, v);
    }
  }

  function BaseWeight(e: Electorate, m: Id): (w: real)
    ensures w >= 0.0
  {
    if m in e.weights && e.weights[m] >= 0.0 then e.weights[m] else 1.0
  }

  predicate AllMembers(e: Electorate, ms: seq<Id>) { forall i :: 0 <= i < |ms| ==> ms[i] in e.members }

  /** The weight that flows to `v`. */
  function WeightAt(e: Electorate, ms: seq<Id>, v: Id): real
    requires AllMembers(e, ms)
  {
    if ms == [] then 0.0
    else
      var n := |ms| - 1;
      WeightAt(e, ms[..n], v) + (if Landed(e, ms[n]) == Some(v) then BaseWeight(e, ms[n]) else 0.0)
  }

  function Abstaining(e: Electorate, ms: seq<Id>): seq<Id>
    requires AllMembers(e, ms)
  {
    if ms == [] then []
    else
      var n := |ms| - 1;
      Abstaining(e, ms[..n]) + (if Landed(e, ms[n]) == None then [ms[n]] else [])
  }

  function Receivers(e: Electorate, ms: seq<Id>): set<Id>
    requires AllMembers(e, ms)
  {
    set i | 0 <= i < |ms| && Landed(e, ms[i]).Some? :: Landed(e, ms[i]).value
  }

  function Flow(e: Electorate, ms: seq<Id>): map<Id, Id>
    requires AllMembers(e, ms)
  {
    map m | m in ms && m in e.members && Landed(e, m).Some? :: Landed(e, m).value
  }

  function Weights(e: Electorate, ms: seq<Id>): map<Id, real>
    requires AllMembers(e, ms)
  {
    map v | v in Receivers(e, ms) :: WeightAt(e, ms, v)
  }

  // The order of the members

  lemma MembersIgnoreOrder(e: Electorate, ms: seq<Id>, ns: seq<Id>)
    requires AllMembers(e, ms) && multiset(ms) == multiset(ns)
    ensures AllMembers(e, ns)
  {
    forall i | 0 <= i < |ns|
      ensures ns[i] in e.members
    {
      assert ns[i] in multiset(ns);
      assert ns[i] in ms;
    }
  }

  lemma MembersWithout(e: Electorate, ms: seq<Id>, i: nat)
    requires AllMembers(e, ms) && i < |ms|
    ensures AllMembers(e, Without(ms, i))
  {
  }

  /** One member's share of the result, wherever in the list they stand. */
  lemma {:induction false} ShareOf(e: Electorate, ms: seq<Id>, i: nat, v: Id)
    requires AllMembers(e, ms) && i < |ms|
    ensures AllMembers(e, Without(ms, i))
    ensures WeightAt(e, ms, v) ==
            WeightAt(e, Without(ms, i), v) + (if Landed(e, ms[i]) == Some(v) then BaseWeight(e, ms[i]) else 0.0)
    ensures multiset(Abstaining(e, ms)) ==
            multiset(Abstaining(e, Without(ms, i))) + (if Landed(e, ms[i]) == None then multiset{ms[i]} else multiset{})
  {
    hide Landed, BaseWeight, WeightAt, Abstaining;
    MembersWithout(e, ms, i);
    var n := |ms| - 1;
    var rest := Without(ms, i);
    ShareOfLast(e, ms, v);
    if i == n {
      assert rest == ms[..n];
    } else {
      ShareOf(e, ms[..n], i, v);
      assert rest[..n - 1] == Without(ms[..n], i);
      assert rest[n - 1] == ms[n];
      ShareOfLast(e, rest, v);
    }
  }

  lemma ShareOfLast(e: Electorate, ms: seq<Id>, v: Id)
    requires AllMembers(e, ms) && ms != []
    ensures var n := |ms| - 1;
            && WeightAt(e, ms, v) ==
               WeightAt(e, ms[..n], v) + (if Landed(e, ms[n]) == Some(v) then BaseWeight(e, ms[n]) else 0.0)
            && multiset(Abstaining(e, ms)) ==
               multiset(Abstaining(e, ms[..n])) + (if Landed(e, ms[n]) == None then multiset{ms[n]} else multiset{})
  {
    hide Landed, BaseWeight;
  }

  /** Weights and abstentions depend on who is listed, not on the order. */
  lemma {:induction false} SharesIgnoreOrder(e: Electorate, ms: seq<Id>, ns: seq<Id>, v: Id)
    requires AllMembers(e, ms) && multiset(ms) == multiset(ns)
    ensures AllMembers(e, ns) && WeightAt(e, ns, v) == WeightAt(e, ms, v)
    ensures multiset(Abstaining(e, ns)) == multiset(Abstaining(e, ms))
  {
    hide Landed, BaseWeight, Without;
    MembersIgnoreOrder(e, ms, ns);
    if ms == [] {
      EmptyMatch(ns);
    } else {
      var n := |ms| - 1;
      var i := MatchLast(ms, ns);
      MembersWithout(e, ns, i);
      SharesIgnoreOrder(e, ms[..n], Without(ns, i), v);
      ShareOf(e, ns, i, v);
    }
  }

  /** The whole resolution is the same for every listing of the same members. */
  lemma ResolutionIgnoresOrder(e: Electorate, ms: seq<Id>, ns: seq<Id>)
    requires AllMembers(e, ms) && multiset(ms) == multiset(ns)
    ensures AllMembers(e, ns) && Flow(e, ns) == Flow(e, ms) && Weights(e, ns) == Weights(e, ms)
    ensures multiset(Abstaining(e, ns)) == multiset(Abstaining(e, ms))
  {
    hide Landed, WeightAt, Abstaining;
    SharesIgnoreOrder(e, ms, ns, "");
    forall m
      ensures m in ms <==> m in ns
    {
      assert m in ms <==> m in multiset(ms);
      assert m in ns <==> m in multiset(ns);
    }
    SameReceivers(e, ms, ns);
    forall v
      ensures WeightAt(e, ns, v) == WeightAt(e, ms, v)
    {
      SharesIgnoreOrder(e, ms, ns, v);
    }
  }

  lemma SameReceivers(e: Electorate, ms: seq<Id>, ns: seq<Id>)
    requires AllMembers(e, ms) && AllMembers(e, ns) && forall m :: m in ms <==> m in ns
    ensures Receivers(e, ms) == Receivers(e, ns)
  {
    hide Landed;
    forall v
      ensures v in Receivers(e, ms) <==> v in Receivers(e, ns)
    {
      InReceivers(e, ms, v);
      InReceivers(e, ns, v);
    }
  }

  lemma InReceivers(e: Electorate, ms: seq<Id>, v: Id)
    requires AllMembers(e, ms)
    ensures v in Receivers(e, ms) <==> exists m :: m in ms && Landed(e, m) == Some(v)
  {
    hide Landed;
    if v in Receivers(e, ms) {
      var i :| 0 <= i < |ms| && Landed(e, ms[i]) == Some(v);
      assert ms[i] in ms;
    }
    if m :| m in ms && Landed(e, m) == Some(v) {
      var i :| 0 <= i < |ms| && ms[i] == m;
      assert Landed(e, ms[i]).Some?;
    }
  }

  // The loops

  /** Follows one member's chain until it lands, dies or closes on itself. */
  method FollowChain(e: Electorate, m: Id) returns (landed: Option<Id>)
    requires m in e.members
    ensures landed == Walk(e, m, {})
  {
    var seen: set<Id> := {};
    var node := m;
    while true
      invariant node in e.members && seen <= e.members
      invariant Walk(e, m, {}) == Walk(e, node, seen)
      decreases e.members - seen
    {
      if node in e.voters {
        return Some(node);
      }
      if node in seen {
        return None;
      }
      var next := Next(e, node);
      if next == None {
        return None;
      }
      seen := seen + {node};
      node := next.value;
    }
  }

  /** The resolver: flow, weights and abstentions of one issue, for members listed in
      any order. */
  method ResolveWeights(members: seq<Id>, delegations: map<Id, Id>, voters: set<Id>, trust: map<Id, real>)
      returns (weightByVoter: map<Id, real>, flow: map<Id, Id>, abstained: seq<Id>)
    ensures var e := Electorate((set m | m in members), delegations, voters, trust);
            && flow == Flow(e, members) && weightByVoter == Weights(e, members) && abstained == Abstaining(e, members)
            && forall ns :: multiset(ns) == multiset(members) ==> IsResolution(e, ns, flow, weightByVoter, abstained)
  {
    hide Walk, IsResolution;
    var e := Electorate((set m | m in members), delegations, voters, trust);
    weightByVoter, flow, abstained := map[], map[], [];
    for i := 0 to |members|
      invariant AllMembers(e, members[..i])
      invariant flow == Flow(e, members[..i])
      invariant weightByVoter.Keys == Receivers(e, members[..i])
      invariant forall v :: v in weightByVoter ==> weightByVoter[v] == WeightAt(e, members[..i], v)
      invariant abstained == Abstaining(e, members[..i])
    {
      var m := members[i];
      Extend(e, members, i);
      var landed := FollowChain(e, m);
      if landed.Some? && landed.value != "" {
        flow := flow[m := landed.value];
        var w := if landed.value in weightByVoter then weightByVoter[landed.value] else 0.0;
        weightByVoter := weightByVoter[landed.value := w + BaseWeight(e, m)];
      } else {
        abstained := abstained + [m];
      }
    }
    assert members[..|members|] == members;
    EveryListing(e, members);
  }

  /** The result of resolving the members in the order of `ns`, up to the order in which
      the abstaining are named. */
  predicate IsResolution(e: Electorate, ns: seq<Id>, flow: map<Id, Id>, weights: map<Id, real>, abstained: seq<Id>) {
    AllMembers(e, ns) && flow == Flow(e, ns) && weights == Weights(e, ns) &&
      multiset(abstained) == multiset(Abstaining(e, ns))
  }

  lemma EveryListing(e: Electorate, ms: seq<Id>)
    requires AllMembers(e, ms)
    ensures forall ns :: multiset(ns) == multiset(ms) ==>
            IsResolution(e, ns, Flow(e, ms), Weights(e, ms), Abstaining(e, ms))
  {
    hide Flow, Weights, Abstaining;
    forall ns | multiset(ns) == multiset(ms)
      ensures IsResolution(e, ns, Flow(e, ms), Weights(e, ms), Abstaining(e, ms))
    {
      ResolutionIgnoresOrder(e, ms, ns);
    }
  }

  /** What one more listed member changes. */
  lemma Extend(e: Electorate, ms: seq<Id>, i: nat)
    requires i < |ms| && AllMembers(e, ms[..i]) && ms[i] in e.members
    ensures AllMembers(e, ms[..i + 1])
    ensures var l := Landed(e, ms[i]);
      && Flow(e, ms[..i + 1]) == (if l.Some? then Flow(e, ms[..i])[ms[i] := l.value] else Flow(e, ms[..i]))
      && Receivers(e, ms[..i + 1]) == Receivers(e, ms[..i]) + (if l.Some? then {l.value} else {})
      && Abstaining(e, ms[..i + 1]) == Abstaining(e, ms[..i]) + (if l == None then [ms[i]] else [])
      && (forall v :: WeightAt(e, ms[..i + 1], v) ==
             WeightAt(e, ms[..i], v) + (if l == Some(v) then BaseWeight(e, ms[i]) else 0.0))
      && (l.Some? && l.value !in Receivers(e, ms[..i]) ==> WeightAt(e, ms[..i], l.value) == 0.0)
  {
    hide Landed, BaseWeight;
    var g, h := ms[..i], ms[..i + 1];
    assert h[..i] == g && h[i] == ms[i] && |h| - 1 == i;
    assert forall m :: m in h <==> m in g || m == ms[i];
    if Landed(e, ms[i]).Some? && Landed(e, ms[i]).value !in Receivers(e, g) {
      NothingFlows(e, g, Landed(e, ms[i]).value);
    }
  }

  lemma {:induction false} NothingFlows(e: Electorate, ms: seq<Id>, v: Id)
    requires AllMembers(e, ms) && v !in Receivers(e, ms)
    ensures WeightAt(e, ms, v) == 0.0
  {
    hide Landed, BaseWeight;
    if ms != [] {
      var n := |ms| - 1;
      forall i | 0 <= i < |ms|
        ensures Landed(e, ms[i]) != Some(v)
      {
      }
      NothingFlows(e, ms[..n], v);
    }
  }

  // Conservation

  function TotalBase(e: Electorate, ms: seq<Id>): real {
    if ms == [] then 0.0 else TotalBase(e, ms[..|ms| - 1]) + BaseWeight(e, ms[|ms| - 1])
  }

  ghost function SumValues(s: set<Id>, w: map<Id, real>): real
    requires s <= w.Keys
  {
    if s == {} then 0.0
    else
      var v :| v in s;
      w[v] + SumValues(s - {v}, w)
  }

  lemma {:induction false} SumTake(s: set<Id>, w: map<Id, real>, v: Id)
    requires s <= w.Keys && v in s
    ensures SumValues(s, w) == w[v] + SumValues(s - {v}, w)
  {
    var u :| u in s && SumValues(s, w) == w[u] + SumValues(s - {u}, w);
    if u != v {
      SumTake(s - {u}, w, v);
      SumTake(s - {v}, w, u);
      assert s - {u} - {v} == s - {v} - {u};
    }
  }

  lemma {:induction false} SumAgrees(s: set<Id>, w: map<Id, real>, u: map<Id, real>)
    requires s <= w.Keys && s <= u.Keys && forall v :: v in s ==> w[v] == u[v]
    ensures SumValues(s, w) == SumValues(s, u)
  {
    if s != {} {
      var v :| v in s && SumValues(s, w) == w[v] + SumValues(s - {v}, w);
      SumAgrees(s - {v}, w, u);
      SumTake(s, u, v);
    }
  }

  /** Raising one entry, possibly a new one, raises the sum by as much. */
  lemma SumRaised(u: map<Id, real>, w: map<Id, real>, v: Id, d: real)
    requires w.Keys == u.Keys + {v} && forall x :: x in u && x != v ==> w[x] == u[x]
    requires w[v] == (if v in u then u[v] else 0.0) + d
    ensures SumValues(w.Keys, w) == SumValues(u.Keys, u) + d
  {
    var rest := u.Keys - {v};
    SumAgrees(rest, w, u);
    SumTake(w.Keys, w, v);
    assert w.Keys - {v} == rest;
    if v in u {
      SumTake(u.Keys, u, v);
    } else {
      assert rest == u.Keys;
    }
  }

  /** The weights of all voters and the base weight of the abstaining are, together, the
      base weight of the electorate. */
  lemma {:induction false} WeightIsConserved(e: Electorate, ms: seq<Id>)
    requires AllMembers(e, ms)
    ensures SumValues(Weights(e, ms).Keys, Weights(e, ms)) + TotalBase(e, Abstaining(e, ms)) == TotalBase(e, ms)
  {
    hide Landed, BaseWeight, SumValues, Receivers, WeightAt;
    if ms == [] {
      NobodyListed(e);
    } else {
      var n := |ms| - 1;
      var g, m := ms[..n], ms[n];
      WeightIsConserved(e, g);
      Extend(e, ms, n);
      assert ms[..n + 1] == ms;
      if Landed(e, m) == None {
        assert Weights(e, ms) == Weights(e, g);
        assert (Abstaining(e, g) + [m])[..|Abstaining(e, g)|] == Abstaining(e, g);
      } else {
        assert Abstaining(e, ms) == Abstaining(e, g);
        SumRaised(Weights(e, g), Weights(e, ms), Landed(e, m).value, BaseWeight(e, m));
      }
    }
  }

  lemma NobodyListed(e: Electorate)
    ensures Weights(e, []) == map[] && SumValues({}, map[]) == 0.0 && Abstaining(e, []) == []
    ensures SumValues(Weights(e, []).Keys, Weights(e, [])) == 0.0
  {
    assert Weights(e, []).Keys == {};
  }

  // Adding a direct voter

  lemma {:induction false} FewerVotersSameLanding(e: Electorate, x: Id, n: Id, v: Id, k: nat)
    requires ReachesIn(e.(voters := e.voters + {x}), n, v, k) && v != x
    ensures ReachesIn(e, n, v, k)
    decreases k
  {
    if k > 0 {
      FewerVotersSameLanding(e, x, Next(e, n).value, v, k - 1);
    }
  }

  lemma {:induction false} MoreVotersStillLands(e: Electorate, x: Id, n: Id, v: Id, k: nat) returns (u: Id, j: nat)
    requires ReachesIn(e, n, v, k)
    ensures ReachesIn(e.(voters := e.voters + {x}), n, u, j) && (u == v || u == x)
    decreases k
  {
    if n == x || k == 0 {
      u, j := n, 0;
    } else {
      u, j := MoreVotersStillLands(e, x, Next(e, n).value, v, k - 1);
      j := j + 1;
    }
  }

  /** One more direct voter: nobody newly abstains, and a vote that does not go to the
      newcomer goes where it went before. */
  lemma LandingWithOneMoreVoter(e: Electorate, x: Id, m: Id)
    requires m in e.members && x != ""
    ensures var f := e.(voters := e.voters + {x});
            && (Landed(f, m) == None ==> Landed(e, m) == None)
            && (Landed(f, m).Some? && Landed(f, m) != Some(x) ==> Landed(e, m) == Landed(f, m))
  {
    hide Walk, Landed;
    var f := e.(voters := e.voters + {x});
    LandingLaw(e, m);
    LandingLaw(f, m);
    if Landed(e, m).Some? {
      var v := Landed(e, m).value;
      var k: nat :| ReachesIn(e, m, v, k);
      var u, j := MoreVotersStillLands(e, x, m, v, k);
      assert Reaches(f, m, u) && u != "";
    }
    if Landed(f, m).Some? && Landed(f, m) != Some(x) {
      var v := Landed(f, m).value;
      var k: nat :| ReachesIn(f, m, v, k);
      FewerVotersSameLanding(e, x, m, v, k);
      assert Reaches(e, m, v);
    }
  }

  /** Adding a direct voter never enlarges the abstained set and never raises the weight
      of another voter. */
  lemma {:induction false} OneMoreVoter(e: Electorate, x: Id, ms: seq<Id>, v: Id)
    requires AllMembers(e, ms) && x != ""
    ensures var f := e.(voters := e.voters + {x});
            && (forall m :: m in Abstaining(f, ms) ==> m in Abstaining(e, ms))
            && (v != x ==> WeightAt(f, ms, v) <= WeightAt(e, ms, v))
  {
    hide Landed;
    if ms != [] {
      OneMoreVoter(e, x, ms[..|ms| - 1], v);
      LandingWithOneMoreVoter(e, x, ms[|ms| - 1]);
    }
  }
}
