/** What the group's record feeds into a vote: base weights from trust, and the
    delegations that hold for one issue. */
module Governance {
  import opened Options
  import opened Groups
  import opened Accountability

  /** Some member has rated somebody. */
  predicate HasRatings(g: Group) {
    g.ratings.Some? && exists r :: r in g.ratings.value && |g.ratings.value[r]| > 0
  }

  /** One vote each, plus the trust level once any rating exists. */
  ghost function TrustWeightsOf(g: Group): map<Id, real> {
    SettledKeys(g);
    map m | m in g.members :: if HasRatings(g) then 1.0 + TrustLevelsOf(g)[m] else 1.0
  }

  lemma SettledKeys(g: Group)
    ensures TrustLevelsOf(g).Keys == g.members.Keys
  {
  }

  method TrustWeightsFor(g: Group, ids: seq<Id>) returns (out: map<Id, real>)
    requires Enumerates(ids, g.members.Keys)
    ensures out == TrustWeightsOf(g)
  {
    hide TrustLevelsOf;
    SettledKeys(g);
    if !HasRatings(g) {
      return map m | m in g.members :: 1.0;
    }
    var level := TrustLevels(g, ids);
    out := map m | m in g.members :: 1.0 + level[m];
  }

  /** A delegate given for the issue wins over the standing one. An issue row that names
      the empty id hides the standing delegate and names nobody. */
  function DelegateOf(g: Group, issue: string, m: Id): Option<Id> {
    var topic := if g.topics.Some? && issue in g.topics.value then g.topics.value[issue] else map[];
    if m in topic then Some(topic[m].delegate)
    else if m in g.delegations then Some(g.delegations[m].delegate)
    else None
  }

  predicate HasDelegate(g: Group, issue: string, m: Id) {
    DelegateOf(g, issue, m).Some? && DelegateOf(g, issue, m) != Some("")
  }

  function DelegationMap(g: Group, issue: string): map<Id, Id> {
    map m | m in g.members && HasDelegate(g, issue, m) :: DelegateOf(g, issue, m).value
  }

  method DelegationMapFor(g: Group, issue: string) returns (out: map<Id, Id>)
    ensures out == DelegationMap(g, issue)
  {
    hide DelegateOf;
    out := map[];
    var todo := g.members.Keys;
    while todo != {}
      invariant todo <= g.members.Keys
      invariant out == map m | m in g.members.Keys - todo && HasDelegate(g, issue, m) :: DelegateOf(g, issue, m).value
    {
      var m :| m in todo;
      todo := todo - {m};
      var d := DelegateOf(g, issue, m);
      if d.Some? && d.value != "" {
        out := out[m := d.value];
      }
    }
  }
}
