/** Renaming commutes with everything computed from the record: trust levels, trust
    weights, delegations and the resolved votes. */
module RenamingLaws {
  import opened Options
  import opened Groups
  import opened Trust
  import opened Accountability
  import opened Governance
  import opened Delegations
  import opened Renaming

  // Reading the moved record

  lemma MovedMember(g: Group, o: Id, n: Id, x: Id)
    ensures Swap(o, n, x) in Moved(g, o, n).members <==> x in g.members
    ensures x in g.members ==> Moved(g, o, n).members[Swap(o, n, x)].role == g.members[x].role
  {
    hide MoveKeys, Swap;
    var ms := g.members;
    MovedKey(o, n, if o in ms then ms[o := ms[o].(peerId := n)] else ms, Swap(o, n, x));
    SwapTwice(o, n, x);
  }

  lemma MovedMemberKeys(g: Group, o: Id, n: Id)
    ensures Moved(g, o, n).members.Keys == SwapSet(o, n, g.members.Keys)
  {
    hide Moved, Swap, SwapSet;
    forall x
      ensures x in Moved(g, o, n).members <==> x in SwapSet(o, n, g.members.Keys)
    {
      SwapTwice(o, n, x);
      MovedMember(g, o, n, Swap(o, n, x));
      InSwapSet(o, n, g.members.Keys, x);
    }
  }

  lemma SwapInjective(o: Id, n: Id, x: Id, y: Id)
    ensures Swap(o, n, x) == Swap(o, n, y) <==> x == y
  {
  }

  lemma MovedAdmin(g: Group, o: Id, n: Id, x: Id)
    ensures IsAdmin(Moved(g, o, n), Swap(o, n, x)) <==> IsAdmin(g, x)
  {
    hide MoveMembers, MoveDelegations, MoveTopics, MoveRows, Swap;
    MovedMember(g, o, n, x);
    SwapInjective(o, n, x, g.creator);
  }

  lemma MovedCell(rows: Option<Rows>, o: Id, n: Id, r: Id, m: Id)
    ensures Cell(MoveRows(o, n, rows), Swap(o, n, r), Swap(o, n, m)) == Cell(rows, r, m)
  {
    hide MoveKeys, Swap;
    if rows.Some? {
      SwapTwice(o, n, r);
      SwapTwice(o, n, m);
      MovedKey(o, n, MoveCells(o, n, rows.value), Swap(o, n, r));
      if r in rows.value {
        MovedKey(o, n, rows.value[r], Swap(o, n, m));
      }
    }
  }

  lemma MovedRatings(g: Group, o: Id, n: Id, r: Id, m: Id)
    ensures Cell(Moved(g, o, n).ratings, Swap(o, n, r), Swap(o, n, m)) == Cell(g.ratings, r, m)
    ensures Cell(Moved(g, o, n).censures, Swap(o, n, r), Swap(o, n, m)) == Cell(g.censures, r, m)
    ensures Rates(Moved(g, o, n), Swap(o, n, r), Swap(o, n, m)) <==> Rates(g, r, m)
    ensures forall l :: Confers(Moved(g, o, n), Swap(o, n, r), Swap(o, n, m), l) == Confers(g, r, m, l)
  {
    hide Cell, MoveMembers, MoveDelegations, MoveTopics, MoveRows, Swap;
    MovedCell(g.ratings, o, n, r, m);
    MovedCell(g.censures, o, n, r, m);
    MovedMember(g, o, n, r);
    MovedMember(g, o, n, m);
    SwapInjective(o, n, r, m);
  }

  /** In each table of delegations the row of `x` is now under its new id and names the new id
      of its delegate; the old id has no row. */
  predicate RowsFollow(ds: map<Id, Delegation>, moved: map<Id, Delegation>, o: Id, n: Id) {
    && o !in moved
    && (forall x :: x in ds && x != o ==> x in moved)
    && (n in moved <==> o in ds) && (forall x :: x in moved && x != n ==> x in ds)
    && forall x :: x in moved ==>
         var was := ds[if x == n then o else x];
         moved[x] == was.(delegate := if was.delegate == o then n else was.delegate)
  }

  lemma MovedRows(ds: map<Id, Delegation>, o: Id, n: Id)
    requires FreshInDelegations(ds, n) && o != n
    ensures RowsFollow(ds, MoveDelegations(o, n, ds), o, n)
  {
    hide MoveKeys;
    forall x
      ensures x in MoveDelegations(o, n, ds) <==> Swap(o, n, x) in ds
      ensures x in MoveDelegations(o, n, ds) ==> MoveDelegations(o, n, ds)[x] == Redelegate(o, n, ds)[Swap(o, n, x)]
    {
      MovedKey(o, n, Redelegate(o, n, ds), x);
    }
  }

  /** Moving a member moves the standing delegations and those of every issue alike. */
  lemma DelegationsFollow(g: Group, o: Id, n: Id)
    requires Fresh(g, n) && o != n
    ensures var h := Moved(g, o, n);
            && RowsFollow(g.delegations, h.delegations, o, n)
            && (h.topics.Some? <==> g.topics.Some?)
            && (g.topics.Some? ==> h.topics.value.Keys == g.topics.value.Keys)
            && (g.topics.Some? ==>
                  forall i :: i in g.topics.value ==> RowsFollow(g.topics.value[i], h.topics.value[i], o, n))
  {
    hide MoveMembers, MoveDelegations, MoveRows, RowsFollow, FreshInDelegations;
    MovedRows(g.delegations, o, n);
    if g.topics.Some? {
      forall i | i in g.topics.value
        ensures RowsFollow(g.topics.value[i], Moved(g, o, n).topics.value[i], o, n)
      {
        MovedRows(g.topics.value[i], o, n);
      }
    }
  }

  // Trust

  lemma {:induction false} MovedBest(g: Group, o: Id, n: Id, k: nat, m: Id)
    ensures Best(Moved(g, o, n), k, Swap(o, n, m)) == Best(g, k, m)
    decreases k
  {
    hide Best, Moved, Rates, Confers, IsAdmin, Swap;
    var h, x := Moved(g, o, n), Swap(o, n, m);
    MovedAdmin(g, o, n, m);
    assert Seed(h, x) == Seed(g, m);
    SeedRange(g, m);
    SeedRange(h, x);
    if k > 0 {
      MovedBestBelow(g, o, n, k, m);
      var r := BestComesFrom(g, k - 1, m);
      MovedBest(g, o, n, k - 1, r);
      MovedRatings(g, o, n, r, m);
      BestAtLeast(h, k - 1, Swap(o, n, r), x);
    }
  }

  lemma {:induction false} MovedBestBelow(g: Group, o: Id, n: Id, k: nat, m: Id)
    requires k > 0
    ensures Best(Moved(g, o, n), k, Swap(o, n, m)) <= Best(g, k, m)
    decreases k, 0
  {
    hide Best, Moved, Rates, Confers, IsAdmin, Swap;
    var h, x := Moved(g, o, n), Swap(o, n, m);
    MovedAdmin(g, o, n, m);
    assert Seed(h, x) == Seed(g, m);
    var s := BestComesFrom(h, k - 1, x);
    var r := Swap(o, n, s);
    SwapTwice(o, n, s);
    MovedBest(g, o, n, k - 1, r);
    MovedRatings(g, o, n, r, m);
    BestAtLeast(g, k - 1, r, m);
  }

  lemma MovedLevels(g: Group, o: Id, n: Id)
    ensures Levels(Moved(g, o, n)) == MoveKeys(o, n, Levels(g))
  {
    hide Best, Moved, Swap, MoveKeys;
    var h := Moved(g, o, n);
    forall x
      ensures x in Levels(h) <==> x in MoveKeys(o, n, Levels(g))
      ensures x in Levels(h) ==> Levels(h)[x] == MoveKeys(o, n, Levels(g))[x]
    {
      SwapTwice(o, n, x);
      MovedKey(o, n, Levels(g), x);
      MovedMember(g, o, n, Swap(o, n, x));
      MovedBest(g, o, n, 5, Swap(o, n, x));
    }
  }

  // Accountability

  lemma {:induction false} SwapSetSize(o: Id, n: Id, s: set<Id>)
    ensures |SwapSet(o, n, s)| == |s|
  {
    hide SwapSet, Swap;
    if s == {} {
      forall x
        ensures x !in SwapSet(o, n, s)
      {
        InSwapSet(o, n, s, x);
      }
      assert SwapSet(o, n, s) == {};
    } else {
      var x :| x in s;
      SwapSetTake(o, n, s, x);
      SwapSetSize(o, n, s - {x});
    }
  }

  lemma SwapSetTake(o: Id, n: Id, s: set<Id>, x: Id)
    requires x in s
    ensures SwapSet(o, n, s) == SwapSet(o, n, s - {x}) + {Swap(o, n, x)}
    ensures Swap(o, n, x) !in SwapSet(o, n, s - {x})
  {
    hide SwapSet, Swap;
    forall y
      ensures y in SwapSet(o, n, s) <==> y in SwapSet(o, n, s - {x}) + {Swap(o, n, x)}
    {
      SwapTwice(o, n, y);
      SwapInjective(o, n, Swap(o, n, y), x);
      InSwapSet(o, n, s, y);
      InSwapSet(o, n, s - {x}, y);
    }
    InSwapSet(o, n, s - {x}, x);
  }

  lemma MovedStanding(o: Id, n: Id, eff: Standing, x: Id)
    ensures Swap(o, n, x) in MoveKeys(o, n, eff) <==> x in eff
    ensures x in eff ==> MoveKeys(o, n, eff)[Swap(o, n, x)] == eff[x]
  {
    hide MoveKeys, Swap;
    MovedKey(o, n, eff, Swap(o, n, x));
    SwapTwice(o, n, x);
  }

  lemma MovedKeysMatch(g: Group, o: Id, n: Id, eff: Standing)
    requires eff.Keys == g.members.Keys
    ensures MoveKeys(o, n, eff).Keys == Moved(g, o, n).members.Keys
  {
    hide MoveKeys, Moved, Swap;
    forall x
      ensures x in MoveKeys(o, n, eff) <==> x in Moved(g, o, n).members
    {
      SwapTwice(o, n, x);
      MovedKey(o, n, eff, x);
      MovedMember(g, o, n, Swap(o, n, x));
    }
  }

  lemma MovedEligible(g: Group, o: Id, n: Id, eff: Standing, t: Id)
    requires eff.Keys == g.members.Keys && t in g.members
    ensures MoveKeys(o, n, eff).Keys == Moved(g, o, n).members.Keys && Swap(o, n, t) in Moved(g, o, n).members
    ensures Eligible(Moved(g, o, n), MoveKeys(o, n, eff), Swap(o, n, t)) == SwapSet(o, n, Eligible(g, eff, t))
    ensures Censurers(Moved(g, o, n), MoveKeys(o, n, eff), Swap(o, n, t)) == SwapSet(o, n, Censurers(g, eff, t))
  {
    hide MoveKeys, Moved, Swap, SwapSet, Cell;
    MovedKeysMatch(g, o, n, eff);
    MovedMember(g, o, n, t);
    MovedStanding(o, n, eff, t);
    var h, f, u := Moved(g, o, n), MoveKeys(o, n, eff), Swap(o, n, t);
    forall x
      ensures x in Eligible(h, f, u) <==> x in SwapSet(o, n, Eligible(g, eff, t))
      ensures x in Censurers(h, f, u) <==> x in SwapSet(o, n, Censurers(g, eff, t))
    {
      var c := Swap(o, n, x);
      SwapTwice(o, n, x);
      InSwapSet(o, n, Eligible(g, eff, t), x);
      InSwapSet(o, n, Censurers(g, eff, t), x);
      MovedMember(g, o, n, c);
      MovedStanding(o, n, eff, c);
      MovedRatings(g, o, n, c, t);
      SwapInjective(o, n, c, t);
    }
  }

  lemma MovedDoomed(g: Group, o: Id, n: Id, eff: Standing)
    requires eff.Keys == g.members.Keys
    ensures MoveKeys(o, n, eff).Keys == Moved(g, o, n).members.Keys
    ensures Doomed(Moved(g, o, n), MoveKeys(o, n, eff)) == SwapSet(o, n, Doomed(g, eff))
  {
    hide MoveKeys, Moved, Swap, SwapSet, Eligible, Censurers, Quorum;
    MovedKeysMatch(g, o, n, eff);
    var h, f := Moved(g, o, n), MoveKeys(o, n, eff);
    forall x
      ensures x in Doomed(h, f) <==> x in SwapSet(o, n, Doomed(g, eff))
    {
      var t := Swap(o, n, x);
      SwapTwice(o, n, x);
      InSwapSet(o, n, Doomed(g, eff), x);
      MovedMember(g, o, n, t);
      if t in g.members {
        MovedStanding(o, n, eff, t);
        MovedEligible(g, o, n, eff, t);
        SwapSetSize(o, n, Eligible(g, eff, t));
        SwapSetSize(o, n, Censurers(g, eff, t));
      }
    }
  }

  lemma MovedSlash(g: Group, o: Id, n: Id, pos: Standing, v: Id, t: Id)
    requires v in pos
    ensures Swap(o, n, v) in MoveKeys(o, n, pos)
    ensures Slash(Moved(g, o, n), MoveKeys(o, n, pos), Swap(o, n, v), Swap(o, n, t)) == Slash(g, pos, v, t)
  {
    hide MoveKeys, Moved, Swap, Cell;
    MovedStanding(o, n, pos, v);
    MovedRatings(g, o, n, v, t);
  }

  lemma {:induction false} MovedLoss(g: Group, o: Id, n: Id, pos: Standing, v: Id, s: set<Id>)
    requires v in pos
    ensures Swap(o, n, v) in MoveKeys(o, n, pos)
    ensures Loss(Moved(g, o, n), MoveKeys(o, n, pos), Swap(o, n, v), SwapSet(o, n, s)) == Loss(g, pos, v, s)
  {
    hide MoveKeys, Moved, Swap, SwapSet, Slash;
    MovedStanding(o, n, pos, v);
    SwapSetSize(o, n, s);
    if s == {} {
      assert SwapSet(o, n, s) == {};
    } else {
      var t :| t in s;
      LossTake(g, pos, v, s, t);
      SwapSetTake(o, n, s, t);
      LossTake(Moved(g, o, n), MoveKeys(o, n, pos), Swap(o, n, v), SwapSet(o, n, s), Swap(o, n, t));
      assert SwapSet(o, n, s) - {Swap(o, n, t)} == SwapSet(o, n, s - {t});
      MovedSlash(g, o, n, pos, v, t);
      MovedLoss(g, o, n, pos, v, s - {t});
    }
  }

  lemma MovedAfter(g: Group, o: Id, n: Id, pos: Standing, eff: Standing, s: set<Id>)
    requires pos.Keys == eff.Keys == g.members.Keys
    ensures MoveKeys(o, n, eff).Keys == MoveKeys(o, n, pos).Keys == Moved(g, o, n).members.Keys
    ensures Accountability.After(Moved(g, o, n), MoveKeys(o, n, pos), MoveKeys(o, n, eff), SwapSet(o, n, s)) ==
            MoveKeys(o, n, Accountability.After(g, pos, eff, s))
  {
    hide MoveKeys, Moved, Swap, SwapSet, Loss;
    MovedKeysMatch(g, o, n, eff);
    MovedKeysMatch(g, o, n, pos);
    var next := Accountability.After(g, pos, eff, s);
    var moved := Accountability.After(Moved(g, o, n), MoveKeys(o, n, pos), MoveKeys(o, n, eff), SwapSet(o, n, s));
    forall x
      ensures x in moved <==> x in MoveKeys(o, n, next)
      ensures x in moved ==> moved[x] == MoveKeys(o, n, next)[x]
    {
      var v := Swap(o, n, x);
      SwapTwice(o, n, x);
      MovedKey(o, n, next, x);
      MovedMember(g, o, n, v);
      if v in g.members {
        MovedStanding(o, n, eff, v);
        MovedLoss(g, o, n, pos, v, s);
        InSwapSet(o, n, s, x);
      }
    }
  }

  lemma MovedSound(g: Group, o: Id, n: Id, eff: Standing)
    requires Sound(g, eff)
    ensures Sound(Moved(g, o, n), MoveKeys(o, n, eff))
  {
    hide MoveKeys, Moved, Swap;
    MovedKeysMatch(g, o, n, eff);
    forall x | x in MoveKeys(o, n, eff)
      ensures MoveKeys(o, n, eff)[x] >= 0.0
    {
      MovedKey(o, n, eff, x);
    }
  }

  lemma {:induction false} MovedSettle(g: Group, o: Id, n: Id, pos: Standing, eff: Standing)
    requires Sound(g, pos) && Sound(g, eff)
    ensures Sound(Moved(g, o, n), MoveKeys(o, n, pos)) && Sound(Moved(g, o, n), MoveKeys(o, n, eff))
    ensures Settle(Moved(g, o, n), MoveKeys(o, n, pos), MoveKeys(o, n, eff)) == MoveKeys(o, n, Settle(g, pos, eff))
    decreases |Positive(eff)|
  {
    hide MoveKeys, Moved, Swap, SwapSet, Doomed, Accountability.After, Positive;
    MovedSound(g, o, n, pos);
    MovedSound(g, o, n, eff);
    MovedDoomed(g, o, n, eff);
    SwapSetSize(o, n, Doomed(g, eff));
    if Doomed(g, eff) != {} {
      RoundLowers(g, pos, eff);
      RoundShrinks(g, pos, eff);
      MovedAfter(g, o, n, pos, eff, Doomed(g, eff));
      MovedSettle(g, o, n, pos, Accountability.After(g, pos, eff, Doomed(g, eff)));
    }
  }

  /** Trust levels after the renaming are the renamed trust levels. */
  lemma TrustLevelsCommute(g: Group, o: Id, n: Id)
    ensures TrustLevelsOf(Moved(g, o, n)) == MoveKeys(o, n, TrustLevelsOf(g))
  {
    hide MoveKeys, Levels, Settle, MoveMembers, MoveDelegations, MoveTopics, Swap;
    MovedLevels(g, o, n);
    LevelsSound(g);
    if g.censures.Some? {
      MovedSettle(g, o, n, Levels(g), Levels(g));
    }
  }

  lemma MovedHasRatings(g: Group, o: Id, n: Id)
    ensures HasRatings(Moved(g, o, n)) <==> HasRatings(g)
  {
    hide MoveKeys, Swap, MoveMembers, MoveDelegations, MoveTopics;
    if g.ratings.Some? {
      var rows := g.ratings.value;
      forall r
        ensures Swap(o, n, r) in MoveKeys(o, n, MoveCells(o, n, rows)) <==> r in rows
        ensures r in rows ==> |MoveKeys(o, n, MoveCells(o, n, rows))[Swap(o, n, r)]| == |rows[r]|
      {
        SwapTwice(o, n, r);
        MovedKey(o, n, MoveCells(o, n, rows), Swap(o, n, r));
        if r in rows {
          MovedSize(o, n, rows[r]);
        }
      }
      forall x | x in MoveKeys(o, n, MoveCells(o, n, rows))
        ensures Swap(o, n, x) in rows && x == Swap(o, n, Swap(o, n, x))
      {
        SwapTwice(o, n, x);
        MovedKey(o, n, MoveCells(o, n, rows), x);
      }
    }
  }

  lemma MovedSize<V>(o: Id, n: Id, m: map<Id, V>)
    ensures |MoveKeys(o, n, m)| == |m|
  {
    hide MoveKeys, Swap, SwapSet;
    forall x
      ensures x in MoveKeys(o, n, m) <==> x in SwapSet(o, n, m.Keys)
    {
      MovedKey(o, n, m, x);
      InSwapSet(o, n, m.Keys, x);
    }
    assert MoveKeys(o, n, m).Keys == SwapSet(o, n, m.Keys);
    SwapSetSize(o, n, m.Keys);
    assert |MoveKeys(o, n, m).Keys| == |MoveKeys(o, n, m)| && |m.Keys| == |m|;
  }

  /** Base voting weights follow the member. */
  lemma TrustWeightsCommute(g: Group, o: Id, n: Id)
    ensures TrustWeightsOf(Moved(g, o, n)) == MoveKeys(o, n, TrustWeightsOf(g))
  {
    hide MoveKeys, TrustLevelsOf, Moved, Swap, HasRatings;
    var h := Moved(g, o, n);
    TrustLevelsCommute(g, o, n);
    MovedHasRatings(g, o, n);
    SettledKeys(g);
    SettledKeys(h);
    var a, b := TrustWeightsOf(h), MoveKeys(o, n, TrustWeightsOf(g));
    forall x
      ensures x in a <==> x in b
      ensures x in a ==> a[x] == b[x]
    {
      SwapTwice(o, n, x);
      MovedMember(g, o, n, Swap(o, n, x));
      MovedKey(o, n, TrustWeightsOf(g), x);
      MovedKey(o, n, TrustLevelsOf(g), x);
    }
  }

  // Delegations and votes

  /** A map from members to members under the exchange. */
  function MoveLinks(o: Id, n: Id, links: map<Id, Id>): map<Id, Id> {
    MoveKeys(o, n, map x | x in links :: Swap(o, n, links[x]))
  }

  lemma MovedDelegation(o: Id, n: Id, ds: map<Id, Delegation>, m: Id)
    ensures Swap(o, n, m) in MoveDelegations(o, n, ds) <==> m in ds
    ensures m in ds ==> MoveDelegations(o, n, ds)[Swap(o, n, m)].delegate == Swap(o, n, ds[m].delegate)
  {
    hide MoveKeys, Swap;
    SwapTwice(o, n, m);
    MovedKey(o, n, Redelegate(o, n, ds), Swap(o, n, m));
  }

  lemma MovedDelegate(g: Group, o: Id, n: Id, issue: string, m: Id)
    ensures var d := DelegateOf(g, issue, m);
            DelegateOf(Moved(g, o, n), issue, Swap(o, n, m)) == if d.Some? then Some(Swap(o, n, d.value)) else None
  {
    hide MoveDelegations, MoveMembers, MoveRows, Swap;
    MovedDelegation(o, n, g.delegations, m);
    if g.topics.Some? && issue in g.topics.value {
      MovedDelegation(o, n, g.topics.value[issue], m);
    }
  }

  /** The delegations of an issue follow the member, as delegator and as delegate. The
      empty id means "nobody", so it is not one of the two ids exchanged. */
  lemma DelegationMapsCommute(g: Group, o: Id, n: Id, issue: string)
    requires o != "" && n != ""
    ensures DelegationMap(Moved(g, o, n), issue) == MoveLinks(o, n, DelegationMap(g, issue))
  {
    hide MoveKeys, DelegateOf, Moved;
    var h := Moved(g, o, n);
    var links := DelegationMap(g, issue);
    var a, b := DelegationMap(h, issue), MoveLinks(o, n, links);
    forall x
      ensures x in a <==> x in b
      ensures x in a ==> a[x] == b[x]
    {
      var m := Swap(o, n, x);
      SwapTwice(o, n, x);
      MovedMember(g, o, n, m);
      MovedDelegate(g, o, n, issue, m);
      MovedKey(o, n, (map y | y in links :: Swap(o, n, links[y])), x);
    }
  }

  function MovedElectorate(e: Electorate, o: Id, n: Id): Electorate {
    Electorate(SwapSet(o, n, e.members), MoveLinks(o, n, e.delegations), SwapSet(o, n, e.voters),
      MoveKeys(o, n, e.weights))
  }

  lemma MovedNext(e: Electorate, o: Id, n: Id, m: Id)
    ensures Next(MovedElectorate(e, o, n), Swap(o, n, m)) ==
            if Next(e, m).Some? then Some(Swap(o, n, Next(e, m).value)) else None
    ensures Swap(o, n, m) in MovedElectorate(e, o, n).voters <==> m in e.voters
    ensures Swap(o, n, m) in MovedElectorate(e, o, n).members <==> m in e.members
    ensures BaseWeight(MovedElectorate(e, o, n), Swap(o, n, m)) == BaseWeight(e, m)
  {
    hide MoveKeys, SwapSet, Swap;
    SwapTwice(o, n, m);
    InSwapSet(o, n, e.members, m);
    InSwapSet(o, n, e.voters, m);
    MovedKey(o, n, (map x | x in e.delegations :: Swap(o, n, e.delegations[x])), Swap(o, n, m));
    MovedKey(o, n, e.weights, Swap(o, n, m));
    if m in e.delegations {
      InSwapSet(o, n, e.members, e.delegations[m]);
    }
  }

  lemma {:induction false} MovedReach(e: Electorate, o: Id, n: Id, m: Id, v: Id, k: nat)
    ensures ReachesIn(MovedElectorate(e, o, n), Swap(o, n, m), Swap(o, n, v), k) <==> ReachesIn(e, m, v, k)
    decreases k
  {
    hide MovedElectorate, Next, Swap;
    MovedNext(e, o, n, m);
    SwapInjective(o, n, m, v);
    if k > 0 && Next(e, m).Some? {
      MovedReach(e, o, n, Next(e, m).value, v, k - 1);
    }
  }

  function MovedId(o: Id, n: Id, x: Option<Id>): Option<Id> {
    if x.Some? then Some(Swap(o, n, x.value)) else None
  }

  /** A vote lands on the renamed voter it landed on before. */
  lemma LandingsCommute(e: Electorate, o: Id, n: Id, m: Id)
    requires m in e.members && o != "" && n != ""
    ensures Swap(o, n, m) in MovedElectorate(e, o, n).members
    ensures Landed(MovedElectorate(e, o, n), Swap(o, n, m)) == MovedId(o, n, Landed(e, m))
  {
    hide MovedElectorate, Landed;
    var f, x := MovedElectorate(e, o, n), Swap(o, n, m);
    MovedNext(e, o, n, m);
    LandingLaw(e, m);
    LandingLaw(f, x);
    forall v
      ensures Reaches(f, x, Swap(o, n, v)) <==> Reaches(e, m, v)
    {
      if k: nat :| ReachesIn(e, m, v, k) {
        MovedReach(e, o, n, m, v, k);
      }
      if k: nat :| ReachesIn(f, x, Swap(o, n, v), k) {
        MovedReach(e, o, n, m, v, k);
      }
    }
    if Landed(f, x).Some? {
      var v := Swap(o, n, Landed(f, x).value);
      SwapTwice(o, n, Landed(f, x).value);
      assert Reaches(f, x, Swap(o, n, v));
    }
  }

  function MovedList(o: Id, n: Id, ms: seq<Id>): seq<Id> {
    seq(|ms|, i requires 0 <= i < |ms| => Swap(o, n, ms[i]))
  }

  /** Position for position, the resolved vote is the renamed vote. */
  lemma {:induction false} VotesMove(e: Electorate, o: Id, n: Id, ms: seq<Id>, v: Id)
    requires AllMembers(e, ms) && o != "" && n != ""
    ensures var f, xs := MovedElectorate(e, o, n), MovedList(o, n, ms);
            && AllMembers(f, xs)
            && WeightAt(f, xs, Swap(o, n, v)) == WeightAt(e, ms, v)
            && Abstaining(f, xs) == MovedList(o, n, Abstaining(e, ms))
  {
    hide MovedElectorate, Landed, Swap, BaseWeight;
    var f, xs := MovedElectorate(e, o, n), MovedList(o, n, ms);
    forall i | 0 <= i < |ms|
      ensures xs[i] in f.members
    {
      MovedNext(e, o, n, ms[i]);
    }
    if ms != [] {
      var k := |ms| - 1;
      VotesMove(e, o, n, ms[..k], v);
      assert xs[..k] == MovedList(o, n, ms[..k]);
      LandingsCommute(e, o, n, ms[k]);
      MovedNext(e, o, n, ms[k]);
      if Landed(e, ms[k]).Some? {
        SwapInjective(o, n, Landed(e, ms[k]).value, v);
      }
    }
  }

  /** In an electorate renamed throughout, its direct voters included, the resolved vote is
      the renamed vote, in whatever order either electorate's members are listed. */
  lemma VotesCommute(e: Electorate, o: Id, n: Id, ms: seq<Id>, xs: seq<Id>, v: Id)
    requires AllMembers(e, ms) && o != "" && n != "" && multiset(xs) == multiset(MovedList(o, n, ms))
    ensures var f := MovedElectorate(e, o, n);
            && AllMembers(f, xs)
            && WeightAt(f, xs, Swap(o, n, v)) == WeightAt(e, ms, v)
            && multiset(Abstaining(f, xs)) == multiset(MovedList(o, n, Abstaining(e, ms)))
  {
    hide MovedElectorate, WeightAt, Abstaining, Swap;
    VotesMove(e, o, n, ms, v);
    SharesIgnoreOrder(MovedElectorate(e, o, n), MovedList(o, n, ms), xs, Swap(o, n, v));
  }

  /** The electorate of an issue: the members, the delegations that hold for it, those
      who voted directly, and the base weights. */
  ghost function ElectorateFor(g: Group, issue: string, voters: set<Id>): Electorate {
    Electorate(g.members.Keys, DelegationMap(g, issue), voters, TrustWeightsOf(g))
  }

  /** Building an issue's electorate commutes with the renaming of the record as long as
      the direct voters are renamed along with it. The record does not hold them: what
      becomes of a vote when only the record is renamed is the subject of `Rekeying`. */
  lemma ElectoratesCommute(g: Group, o: Id, n: Id, issue: string, voters: set<Id>)
    requires o != "" && n != ""
    ensures ElectorateFor(Moved(g, o, n), issue, SwapSet(o, n, voters)) ==
            MovedElectorate(ElectorateFor(g, issue, voters), o, n)
  {
    hide DelegationMap, TrustWeightsOf, Moved, SwapSet, MoveLinks, MoveKeys;
    MovedMemberKeys(g, o, n);
    DelegationMapsCommute(g, o, n, issue);
    TrustWeightsCommute(g, o, n);
  }
}
