/** Ranked ballots: cleaning, weighting, and the sums an instant-runoff round reads. */
module Ballots {
  import opened Options
  import opened Permutations

  type Id = string

  /** One row of the poll's ballot record. */
  datatype Entry = Entry(peer: string, ballot: seq<Id>)

  /** A cleaned ballot and the weight it carries. */
  datatype Vote = Vote(ranks: seq<Id>, w: real)

  type Weights = Option<map<string, real>>

  /** The first occurrence of each valid option, in ballot order. */
  function Clean(ballot: seq<Id>, valid: set<Id>): seq<Id> {
    if ballot == [] then []
    else
      var n := |ballot| - 1;
      var out := Clean(ballot[..n], valid);
      if ballot[n] in valid && ballot[n] !in out then out + [ballot[n]] else out
  }

  method CleanBallot(ballot: seq<Id>, valid: set<Id>) returns (out: seq<Id>)
    ensures out == Clean(ballot, valid)
  {
    var seen: set<Id> := {};
    out := [];
    for i := 0 to |ballot|
      invariant out == Clean(ballot[..i], valid)
      invariant forall x :: x in seen <==> x in out
    {
      assert ballot[..i + 1][..i] == ballot[..i];
      if ballot[i] in valid && ballot[i] !in seen {
        seen := seen + {ballot[i]};
        out := out + [ballot[i]];
      }
    }
    assert ballot[..|ballot|] == ballot;
  }

  predicate NoRepeats(s: seq<Id>) { forall i, j :: 0 <= i < j < |s| ==> s[i] != s[j] }

  /** Cleaning keeps exactly the valid options of the ballot, each once. */
  lemma {:induction false} CleanKeepsValid(ballot: seq<Id>, valid: set<Id>)
    ensures NoRepeats(Clean(ballot, valid))
    ensures forall x :: x in Clean(ballot, valid) <==> x in ballot && x in valid
  {
    if ballot != [] {
      var n := |ballot| - 1;
      CleanKeepsValid(ballot[..n], valid);
      assert forall x :: x in ballot <==> x in ballot[..n] || x == ballot[n];
    }
  }

  /** Position of the first occurrence. */
  function FirstAt(s: seq<Id>, x: Id): (i: nat)
    requires x in s
    ensures i < |s| && s[i] == x && x !in s[..i]
  {
    if s[0] == x then 0 else
      assert s == [s[0]] + s[1..];
      var i := FirstAt(s[1..], x);
      assert s[..i + 1] == [s[0]] + s[1..][..i];
      i + 1
  }

  /** Cleaning keeps the order of first occurrence. */
  lemma {:induction false} CleanKeepsOrder(ballot: seq<Id>, valid: set<Id>, i: nat, j: nat)
    requires i < j < |Clean(ballot, valid)|
    ensures var c := Clean(ballot, valid);
            c[i] in ballot && c[j] in ballot && FirstAt(ballot, c[i]) < FirstAt(ballot, c[j])
  {
    CleanKeepsValid(ballot, valid);
    var n, c := |ballot| - 1, Clean(ballot, valid);
    var shorter := Clean(ballot[..n], valid);
    CleanKeepsValid(ballot[..n], valid);
    assert c[i] in c && c[j] in c;
    if j < |shorter| {
      CleanKeepsOrder(ballot[..n], valid, i, j);
      FirstAtPrefix(ballot, n, c[i]);
      FirstAtPrefix(ballot, n, c[j]);
    } else {
      assert shorter[i] in shorter;
      FirstAtPrefix(ballot, n, c[i]);
    }
  }

  lemma {:induction false} FirstAtPrefix(s: seq<Id>, n: nat, x: Id)
    requires n <= |s| && x in s[..n]
    ensures x in s && FirstAt(s, x) == FirstAt(s[..n], x)
  {
    var head, tail := s[0], s[1..];
    assert s[..n] == [head] + tail[..n - 1] && s == [head] + tail;
    if head != x {
      assert x in tail[..n - 1];
      FirstAtPrefix(tail, n - 1, x);
      assert s[..n][1..] == tail[..n - 1];
    }
  }

  function BallotWeight(weights: Weights, peer: string): real {
    match weights
    case None => 1.0
    case Some(m) => if peer in m then m[peer] else 0.0
  }

  /** The ballots that take part: something valid on them, and a positive weight. */
  function Votes(entries: seq<Entry>, valid: set<Id>, weights: Weights): seq<Vote> {
    if entries == [] then []
    else
      var n := |entries| - 1;
      var v := Vote(Clean(entries[n].ballot, valid), BallotWeight(weights, entries[n].peer));
      Votes(entries[..n], valid, weights) + (if v.ranks != [] && v.w > 0.0 then [v] else [])
  }

  /** A vote an election over `ids` can count. */
  predicate Countable(v: Vote, ids: set<Id>) {
    v.ranks != [] && v.w > 0.0 && NoRepeats(v.ranks) && forall x :: x in v.ranks ==> x in ids
  }

  predicate AllCountable(votes: seq<Vote>, ids: set<Id>) { forall i :: 0 <= i < |votes| ==> Countable(votes[i], ids) }

  lemma {:induction false} VotesAreCountable(entries: seq<Entry>, valid: set<Id>, weights: Weights)
    ensures AllCountable(Votes(entries, valid, weights), valid)
  {
    if entries != [] {
      var n := |entries| - 1;
      VotesAreCountable(entries[..n], valid, weights);
      CleanKeepsValid(entries[n].ballot, valid);
    }
  }

  // Sums over the votes

  /** The highest ranked option still standing. */
  function Top(ranks: seq<Id>, elim: set<Id>): Option<Id> {
    if ranks == [] then None else if ranks[0] !in elim then Some(ranks[0]) else Top(ranks[1..], elim)
  }

  function Total(votes: seq<Vote>): real {
    if votes == [] then 0.0 else Total(votes[..|votes| - 1]) + votes[|votes| - 1].w
  }

  function Exhausted(votes: seq<Vote>, elim: set<Id>): real {
    if votes == [] then 0.0
    else
      var v := votes[|votes| - 1];
      Exhausted(votes[..|votes| - 1], elim) + (if Top(v.ranks, elim) == None then v.w else 0.0)
  }

  function Tally(votes: seq<Vote>, elim: set<Id>, id: Id): real {
    if votes == [] then 0.0
    else
      var v := votes[|votes| - 1];
      Tally(votes[..|votes| - 1], elim, id) + (if Top(v.ranks, elim) == Some(id) then v.w else 0.0)
  }

  lemma {:induction false} TopStands(ranks: seq<Id>, elim: set<Id>)
    ensures match Top(ranks, elim)
            case None => forall x :: x in ranks ==> x in elim
            case Some(t) => t in ranks && t !in elim
  {
    if ranks != [] && ranks[0] in elim {
      TopStands(ranks[1..], elim);
      assert forall x :: x in ranks <==> x == ranks[0] || x in ranks[1..];
    }
  }

  /** Two options and the exhausted ballots never share a vote. */
  lemma {:induction false} PairWithinTotal(votes: seq<Vote>, elim: set<Id>, x: Id, y: Id)
    requires x != y && forall i :: 0 <= i < |votes| ==> votes[i].w > 0.0
    ensures Tally(votes, elim, x) >= 0.0 && Tally(votes, elim, y) >= 0.0 && Exhausted(votes, elim) >= 0.0
    ensures Tally(votes, elim, x) + Tally(votes, elim, y) + Exhausted(votes, elim) <= Total(votes)
  {
    if votes != [] {
      PairWithinTotal(votes[..|votes| - 1], elim, x, y);
    }
  }

  /** Eliminating one option can exhaust only the ballots it led. */
  lemma {:induction false} EliminationExhausts(votes: seq<Vote>, elim: set<Id>, x: Id)
    requires forall i :: 0 <= i < |votes| ==> votes[i].w > 0.0
    ensures Exhausted(votes, elim + {x}) <= Exhausted(votes, elim) + Tally(votes, elim, x)
  {
    if votes != [] {
      var v := votes[|votes| - 1];
      EliminationExhausts(votes[..|votes| - 1], elim, x);
      TopStands(v.ranks, elim);
      TopStands(v.ranks, elim + {x});
    }
  }

  /** With one option left standing, it leads every ballot that is not exhausted. */
  lemma {:induction false} LastOneLeadsAll(votes: seq<Vote>, ids: set<Id>, elim: set<Id>, x: Id)
    requires AllCountable(votes, ids) && ids - elim == {x}
    ensures Tally(votes, elim, x) == Total(votes) - Exhausted(votes, elim)
  {
    if votes != [] {
      var v := votes[|votes| - 1];
      LastOneLeadsAll(votes[..|votes| - 1], ids, elim, x);
      TopStands(v.ranks, elim);
      if Top(v.ranks, elim).Some? {
        assert Top(v.ranks, elim).value in ids - elim;
      }
    }
  }

  lemma {:induction false} NoneStandingExhaustsAll(votes: seq<Vote>, ids: set<Id>, elim: set<Id>)
    requires AllCountable(votes, ids) && ids <= elim
    ensures Exhausted(votes, elim) == Total(votes)
  {
    if votes != [] {
      NoneStandingExhaustsAll(votes[..|votes| - 1], ids, elim);
      TopStands(votes[|votes| - 1].ranks, elim);
    }
  }

  lemma {:induction false} NothingExhaustedAtFirst(votes: seq<Vote>, ids: set<Id>)
    requires AllCountable(votes, ids)
    ensures Exhausted(votes, {}) == 0.0 && Total(votes) >= 0.0 && (Total(votes) == 0.0 <==> votes == [])
  {
    if votes != [] {
      NothingExhaustedAtFirst(votes[..|votes| - 1], ids);
      TopStands(votes[|votes| - 1].ranks, {});
      assert votes[|votes| - 1].ranks[0] in votes[|votes| - 1].ranks;
    }
  }

  // Order independence of the sums

  lemma {:induction false} SumsIgnoreOrder(votes: seq<Vote>, others: seq<Vote>, elim: set<Id>, id: Id)
    requires multiset(votes) == multiset(others)
    ensures Total(votes) == Total(others) && Exhausted(votes, elim) == Exhausted(others, elim)
    ensures Tally(votes, elim, id) == Tally(others, elim, id)
  {
    hide Top;
    if votes == [] {
      EmptyMatch(others);
    } else {
      var i := MatchLast(votes, others);
      SumsIgnoreOrder(votes[..|votes| - 1], Without(others, i), elim, id);
      SumsRemove(others, i, elim, id);
    }
  }

  lemma {:induction false} SumsRemove(votes: seq<Vote>, i: nat, elim: set<Id>, id: Id)
    requires i < |votes|
    ensures var rest, v := Without(votes, i), votes[i];
            && Total(votes) == Total(rest) + v.w
            && Exhausted(votes, elim) == Exhausted(rest, elim) + (if Top(v.ranks, elim) == None then v.w else 0.0)
            && Tally(votes, elim, id) == Tally(rest, elim, id) + (if Top(v.ranks, elim) == Some(id) then v.w else 0.0)
  {
    hide Top;
    var n := |votes| - 1;
    var rest := Without(votes, i);
    if i == n {
      assert rest == votes[..n];
    } else {
      SumsRemove(votes[..n], i, elim, id);
      assert rest[..n - 1] == Without(votes[..n], i);
      assert rest[n - 1] == votes[n];
    }
  }

  lemma {:induction false} VotesIgnoreOrder(entries: seq<Entry>, others: seq<Entry>, valid: set<Id>, weights: Weights)
    requires multiset(entries) == multiset(others)
    ensures multiset(Votes(entries, valid, weights)) == multiset(Votes(others, valid, weights))
  {
    hide Votes;
    if entries == [] {
      EmptyMatch(others);
    } else {
      var n := |entries| - 1;
      var i := MatchLast(entries, others);
      VotesIgnoreOrder(entries[..n], Without(others, i), valid, weights);
      VotesConcat(entries[..n], [entries[n]], valid, weights);
      VotesConcat(others[..i] + [others[i]], others[i + 1..], valid, weights);
      VotesConcat(others[..i], [others[i]], valid, weights);
      VotesConcat(others[..i], others[i + 1..], valid, weights);
      assert entries == entries[..n] + [entries[n]];
      assert others == others[..i] + [others[i]] + others[i + 1..];
    }
  }

  lemma {:induction false} VotesConcat(a: seq<Entry>, b: seq<Entry>, valid: set<Id>, weights: Weights)
    ensures Votes(a + b, valid, weights) == Votes(a, valid, weights) + Votes(b, valid, weights)
  {
    if b == [] {
      assert a + b == a;
    } else {
      assert (a + b)[..|a + b| - 1] == a + b[..|b| - 1];
      VotesConcat(a, b[..|b| - 1], valid, weights);
    }
  }
}
