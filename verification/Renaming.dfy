/** Moving a member to a new id, and why nothing the group computes notices. */
module Renaming {
  import opened Options
  import opened Groups

  /** The code's renaming of one id. */
  function Remap(o: Id, n: Id, x: Id): Id { if x == o then n else x }

  /** The same renaming as an exchange of two ids, which is its own inverse. */
  function Swap(o: Id, n: Id, x: Id): Id { if x == o then n else if x == n then o else x }

  function SwapSet(o: Id, n: Id, s: set<Id>): set<Id> { set x | x in s :: Swap(o, n, x) }

  lemma SwapTwice(o: Id, n: Id, x: Id)
    ensures Swap(o, n, Swap(o, n, x)) == x
  {
  }

  lemma InSwapSet(o: Id, n: Id, s: set<Id>, x: Id)
    ensures x in SwapSet(o, n, s) <==> Swap(o, n, x) in s
    ensures Swap(o, n, x) in SwapSet(o, n, s) <==> x in s
  {
    SwapTwice(o, n, x);
  }

  function MoveKeys<V>(o: Id, n: Id, m: map<Id, V>): map<Id, V> {
    map x | x in SwapSet(o, n, m.Keys) && Swap(o, n, x) in m :: m[Swap(o, n, x)]
  }

  lemma MovedKey<V>(o: Id, n: Id, m: map<Id, V>, x: Id)
    ensures x in MoveKeys(o, n, m) <==> Swap(o, n, x) in m
    ensures x in MoveKeys(o, n, m) ==> MoveKeys(o, n, m)[x] == m[Swap(o, n, x)]
  {
    InSwapSet(o, n, m.Keys, x);
  }

  function Redelegate(o: Id, n: Id, ds: map<Id, Delegation>): map<Id, Delegation> {
    map x | x in ds :: ds[x].(delegate := Swap(o, n, ds[x].delegate))
  }

  function MoveDelegations(o: Id, n: Id, ds: map<Id, Delegation>): map<Id, Delegation> {
    MoveKeys(o, n, Redelegate(o, n, ds))
  }

  function MoveTopics(o: Id, n: Id, ts: Option<map<string, map<Id, Delegation>>>)
      : Option<map<string, map<Id, Delegation>>> {
    match ts
    case None => None
    case Some(t) => Some(map i | i in t :: MoveDelegations(o, n, t[i]))
  }

  function MoveCells(o: Id, n: Id, r: Rows): Rows { map x | x in r :: MoveKeys(o, n, r[x]) }

  function MoveRows(o: Id, n: Id, rows: Option<Rows>): Option<Rows> {
    match rows
    case None => None
    case Some(r) => Some(MoveKeys(o, n, MoveCells(o, n, r)))
  }

  function MoveMembers(o: Id, n: Id, ms: map<Id, Member>): map<Id, Member> {
    MoveKeys(o, n, if o in ms then ms[o := ms[o].(peerId := n)] else ms)
  }

  /** The whole record under the exchange. */
  function Moved(g: Group, o: Id, n: Id): Group {
    Group(Swap(o, n, g.creator), MoveMembers(o, n, g.members), MoveDelegations(o, n, g.delegations),
          MoveTopics(o, n, g.topics), MoveRows(o, n, g.ratings), MoveRows(o, n, g.censures))
  }

  predicate FreshInDelegations(ds: map<Id, Delegation>, n: Id) {
    n !in ds && forall x :: x in ds ==> ds[x].delegate != n
  }

  predicate FreshInRows(rows: Option<Rows>, n: Id) {
    rows.Some? ==> n !in rows.value && forall x :: x in rows.value ==> n !in rows.value[x]
  }

  /** The id occurs nowhere in the record. */
  predicate Fresh(g: Group, n: Id) {
    && n != g.creator && n !in g.members && FreshInDelegations(g.delegations, n)
    && (g.topics.Some? ==> forall i :: i in g.topics.value ==> FreshInDelegations(g.topics.value[i], n))
    && FreshInRows(g.ratings, n) && FreshInRows(g.censures, n)
  }

  lemma MoveKeysUpdate<V>(o: Id, n: Id, m: map<Id, V>, k: Id, v: V)
    ensures MoveKeys(o, n, m[k := v]) == MoveKeys(o, n, m)[Swap(o, n, k) := v]
  {
    var a, b := MoveKeys(o, n, m[k := v]), MoveKeys(o, n, m)[Swap(o, n, k) := v];
    forall x
      ensures x in a <==> x in b
      ensures x in a ==> a[x] == b[x]
    {
      hide MoveKeys, SwapSet;
      MovedKey(o, n, m[k := v], x);
      MovedKey(o, n, m, x);
    }
  }

  lemma RemapIsSwap(o: Id, n: Id, x: Id)
    requires x != n
    ensures Remap(o, n, x) == Swap(o, n, x)
  {
  }

  lemma MoveNothing<V>(o: Id, n: Id, m: map<Id, V>)
    requires m == map[]
    ensures MoveKeys(o, n, m) == map[]
  {
  }

  // The loops

  method RemapDelegations(o: Id, n: Id, ds: map<Id, Delegation>) returns (nd: map<Id, Delegation>)
    ensures FreshInDelegations(ds, n) ==> nd == MoveDelegations(o, n, ds)
  {
    hide MoveKeys, Swap, Remap;
    nd := map[];
    ghost var done: map<Id, Delegation> := map[];
    MoveNothing(o, n, done);
    ghost var goal := Redelegate(o, n, ds);
    var todo := ds.Keys;
    while todo != {}
      invariant todo <= ds.Keys && done.Keys == ds.Keys - todo
      invariant FreshInDelegations(ds, n) ==> nd == MoveKeys(o, n, done)
      invariant FreshInDelegations(ds, n) ==> forall x :: x in done ==> done[x] == goal[x]
    {
      var k :| k in todo;
      todo := todo - {k};
      var d := ds[k].(delegate := Remap(o, n, ds[k].delegate));
      nd := nd[Remap(o, n, k) := d];
      if FreshInDelegations(ds, n) {
        RemapIsSwap(o, n, k);
        RemapIsSwap(o, n, ds[k].delegate);
        MoveKeysUpdate(o, n, done, k, d);
      }
      done := done[k := d];
    }
    if FreshInDelegations(ds, n) {
      assert done == goal;
    }
  }

  method RemapTopics(o: Id, n: Id, ts: map<string, map<Id, Delegation>>) returns (out: map<string, map<Id, Delegation>>)
    ensures (forall i :: i in ts ==> FreshInDelegations(ts[i], n)) ==> Some(out) == MoveTopics(o, n, Some(ts))
  {
    hide MoveDelegations, FreshInDelegations;
    out := ts;
    var todo := ts.Keys;
    while todo != {}
      invariant todo <= ts.Keys && out.Keys == ts.Keys
      invariant forall i :: i in todo ==> out[i] == ts[i]
      invariant forall i :: i in ts.Keys - todo && FreshInDelegations(ts[i], n) ==>
                out[i] == MoveDelegations(o, n, ts[i])
    {
      var i :| i in todo;
      todo := todo - {i};
      var moved := RemapDelegations(o, n, ts[i]);
      out := out[i := moved];
    }
    if forall i :: i in ts ==> FreshInDelegations(ts[i], n) {
      assert out == MoveTopics(o, n, Some(ts)).value;
    }
  }

  method RemapRow(o: Id, n: Id, row: map<Id, real>) returns (out: map<Id, real>)
    ensures n !in row ==> out == MoveKeys(o, n, row)
  {
    hide MoveKeys, Swap, Remap;
    out := map[];
    ghost var done: map<Id, real> := map[];
    MoveNothing(o, n, done);
    var todo := row.Keys;
    while todo != {}
      invariant todo <= row.Keys && done.Keys == row.Keys - todo
      invariant n !in row ==> out == MoveKeys(o, n, done)
      invariant forall x :: x in done ==> done[x] == row[x]
    {
      var k :| k in todo;
      todo := todo - {k};
      out := out[Remap(o, n, k) := row[k]];
      if n !in row {
        RemapIsSwap(o, n, k);
        MoveKeysUpdate(o, n, done, k, row[k]);
      }
      done := done[k := row[k]];
    }
    assert done == row;
  }

  method RemapRows(o: Id, n: Id, rows: Option<Rows>) returns (out: Option<Rows>)
    ensures FreshInRows(rows, n) ==> out == MoveRows(o, n, rows)
  {
    hide MoveKeys, Swap, Remap;
    if rows.None? {
      return None;
    }
    var rm := rows.value;
    var acc: Rows := map[];
    ghost var done: Rows := map[];
    MoveNothing(o, n, done);
    ghost var goal := MoveCells(o, n, rm);
    var todo := rm.Keys;
    while todo != {}
      invariant todo <= rm.Keys && done.Keys == rm.Keys - todo
      invariant FreshInRows(rows, n) ==> acc == MoveKeys(o, n, done)
      invariant FreshInRows(rows, n) ==> forall x :: x in done ==> done[x] == goal[x]
    {
      var k :| k in todo;
      todo := todo - {k};
      var row := RemapRow(o, n, rm[k]);
      acc := acc[Remap(o, n, k) := row];
      if FreshInRows(rows, n) {
        RemapIsSwap(o, n, k);
        MoveKeysUpdate(o, n, done, k, row);
      }
      done := done[k := row];
    }
    if FreshInRows(rows, n) {
      assert done == goal;
    }
    return Some(acc);
  }

  lemma MembersMoved(o: Id, n: Id, ms: map<Id, Member>)
    requires o != n && o in ms && n !in ms
    ensures (ms - {o})[n := ms[o].(peerId := n)] == MoveMembers(o, n, ms)
  {
    var a, b := (ms - {o})[n := ms[o].(peerId := n)], MoveMembers(o, n, ms);
    forall x
      ensures x in a <==> x in b
      ensures x in a ==> a[x] == b[x]
    {
      hide MoveKeys, SwapSet;
      MovedKey(o, n, ms[o := ms[o].(peerId := n)], x);
    }
  }

  /** The group as the application holds it, updated in place. */
  class GroupRecord {
    var creator: Id
    var members: map<Id, Member>
    var delegations: map<Id, Delegation>
    var topics: Option<map<string, map<Id, Delegation>>>
    var ratings: Option<Rows>
    var censures: Option<Rows>

    function State(): Group
      reads this
    {
      Group(creator, members, delegations, topics, ratings, censures)
    }

    /** Moves a member, and every reference to them, to a fresh id; an unknown member or
        an unchanged id leaves the record alone. */
    method RekeyMember(oldId: Id, newId: Id)
      modifies this
      ensures oldId == newId || oldId !in old(members) ==> State() == old(State())
      ensures oldId != newId && oldId in old(members) ==>
                creator == Remap(oldId, newId, old(creator)) &&
                members == (old(members) - {oldId})[newId := old(members)[oldId].(peerId := newId)]
      ensures oldId != newId && oldId in old(members) && Fresh(old(State()), newId) ==>
                State() == Moved(old(State()), oldId, newId)
    {
      hide MoveDelegations, MoveTopics, MoveRows, MoveMembers, FreshInDelegations, FreshInRows;
      if oldId == newId || oldId !in members {
        return;
      }
      if newId !in members {
        MembersMoved(oldId, newId, members);
      }
      var m := members[oldId];
      members := members - {oldId};
      members := members[newId := m.(peerId := newId)];
      delegations := RemapDelegations(oldId, newId, delegations);
      if topics.Some? {
        var moved := RemapTopics(oldId, newId, topics.value);
        topics := Some(moved);
      } else {
        NoTopics(oldId, newId);
      }
      ratings := RemapRows(oldId, newId, ratings);
      censures := RemapRows(oldId, newId, censures);
      if creator == oldId {
        creator := newId;
      }
    }
  }

  lemma NoTopics(o: Id, n: Id)
    ensures MoveTopics(o, n, None) == None
  {
  }
}
