/** What a holder is worth in a pool with aborts allowed: trading, preparing and taking
    prepared trades back together never make anyone richer. */
module Estates {
  import opened Exchange
  import opened ExchangeLaws

  function SideWorth(rate: Rate, side: Side, n: int): int { if side == A then rate * n else RATE_SCALE * n }

  /** What an abort of the leg gives back, in worth at the rate. */
  function Refund(e: Tx, rate: Rate): int {
    (if e.receive then 0 else SideWorth(rate, e.from, e.amount)) - SideWorth(rate, Other(e.from), e.out)
  }

  /** A leg still prepared can be taken back in its pool, at no loss to the holder. */
  function Claim(e: Tx, pool: string, who: Key, rate: Rate): (c: int)
    ensures c >= 0
  {
    if e.status == Prepared && e.holder == who && e.poolId == pool && Refund(e, rate) > 0 then Refund(e, rate) else 0
  }

  ghost function SumClaims(txs: map<string, Tx>, pool: string, who: Key, rate: Rate): (c: int)
    ensures c >= 0
  {
    if txs == map[] then 0
    else
      var tx :| tx in txs;
      Claim(txs[tx], pool, who, rate) + SumClaims(txs - {tx}, pool, who, rate)
  }

  lemma {:induction false} ClaimsTake(txs: map<string, Tx>, pool: string, who: Key, rate: Rate, tx: string)
    requires tx in txs
    ensures SumClaims(txs, pool, who, rate) == Claim(txs[tx], pool, who, rate) + SumClaims(txs - {tx}, pool, who, rate)
  {
    hide Claim;
    var j :| j in txs &&
      SumClaims(txs, pool, who, rate) == Claim(txs[j], pool, who, rate) + SumClaims(txs - {j}, pool, who, rate);
    if j != tx {
      ClaimsTake(txs - {j}, pool, who, rate, tx);
      ClaimsTake(txs - {tx}, pool, who, rate, j);
      assert txs - {j} - {tx} == txs - {tx} - {j};
    }
  }

  lemma ClaimsPut(txs: map<string, Tx>, pool: string, who: Key, rate: Rate, tx: string, e: Tx)
    ensures SumClaims(txs[tx := e], pool, who, rate) ==
            SumClaims(txs, pool, who, rate) - (if tx in txs then Claim(txs[tx], pool, who, rate) else 0) +
              Claim(e, pool, who, rate)
  {
    hide SumClaims, Claim;
    ClaimsTake(txs[tx := e], pool, who, rate, tx);
    assert txs[tx := e] - {tx} == txs - {tx};
    if tx in txs {
      ClaimsTake(txs, pool, who, rate, tx);
    } else {
      assert txs - {tx} == txs;
    }
  }

  /** A holder's position and what their prepared legs would give back. */
  ghost function Estate(s: State, pool: string, who: Key, rate: Rate): int {
    Worth(rate, Balance(s, pool, who)) + SumClaims(s.txs, pool, who, rate)
  }

  /** All verbs by anyone, but for a change of this pool's rate, a credit to this holder
      from another shard, and an abort that reverses another pool's leg of theirs here. */
  predicate Admitted(s: State, me: Key, op: Op, pool: string, who: Key) {
    match op
    case SetRate(p, _) => p != pool
    case PrepareReceive(p, _, _, _, _, _) => p != pool || me != who
    case Abort(p, tx) => p == pool && tx in s.txs && s.txs[tx].holder == who ==> s.txs[tx].poolId == pool
    case _ => true
  }

  lemma ReverseWorth(s: State, pool: string, e: Tx, rate: Rate)
    requires pool in s.pools
    ensures Worth(rate, Balance(Reverse(s, pool, e), pool, e.holder)) ==
            Worth(rate, Balance(s, pool, e.holder)) + Refund(e, rate)
  {
    hide Worth;
    var h := Balance(s, pool, e.holder);
    var back, given: int := if e.receive then 0 else e.amount, 0 - e.out;
    if e.from == A {
      assert Balance(Reverse(s, pool, e), pool, e.holder) == Bal(h.a + back, h.b + given);
      WorthOf(rate, h, back, given);
    } else {
      assert Balance(Reverse(s, pool, e), pool, e.holder) == Bal(h.a + given, h.b + back);
      WorthOf(rate, h, given, back);
    }
    TimesNegative(rate, e.out);
  }

  lemma TimesNegative(rate: Rate, n: int)
    ensures rate * (0 - n) == -(rate * n)
    ensures rate * 0 == 0
  {
  }

  lemma ReverseSpares(s: State, at: string, e: Tx, pool: string, who: Key)
    requires at in s.pools && (at != pool || e.holder != who)
    ensures Balance(Reverse(s, at, e), pool, who) == Balance(s, pool, who)
    ensures Reverse(s, at, e).txs == s.txs
  {
  }

  lemma AbortEstate(s: State, me: Key, block: int, at: string, tx: string, pool: string, who: Key)
    requires pool in s.pools && Admitted(s, me, Abort(at, tx), pool, who)
    ensures var rate := s.pools[pool].rate;
            Estate(Apply(s, me, block, Abort(at, tx)).0, pool, who, rate) <= Estate(s, pool, who, rate)
  {
    hide Worth, Refund, SumClaims, Reverse;
    var rate := s.pools[pool].rate;
    var t := Apply(s, me, block, Abort(at, tx)).0;
    if t != s {
      var e := s.txs[tx];
      ReverseKeepsTxs(s, at, e);
      assert t == Settle(Reverse(s, at, e), tx, Aborted);
      ClaimsPut(s.txs, pool, who, rate, tx, e.(status := Aborted));
      if at == pool && e.holder == who {
        ReverseWorth(s, pool, e, rate);
      } else {
        ReverseSpares(s, at, e, pool, who);
      }
    }
  }

  lemma ReverseKeepsTxs(s: State, at: string, e: Tx)
    requires at in s.pools
    ensures Reverse(s, at, e).txs == s.txs
  {
  }

  lemma CommitEstate(s: State, me: Key, block: int, tx: string, pool: string, who: Key, rate: Rate)
    ensures Estate(Apply(s, me, block, Commit(tx)).0, pool, who, rate) <= Estate(s, pool, who, rate)
  {
    hide Worth, Refund, SumClaims;
    if tx in s.txs {
      ClaimsPut(s.txs, pool, who, rate, tx, s.txs[tx].(status := Committed));
    }
  }

  /** Selling at the pool's rate costs exactly what taking the sale back would return. */
  lemma TradeRefund(s: State, me: Key, pool: string, tx: Tx)
    requires pool in s.pools && !tx.receive && tx.amount >= 0 && tx.out == OutOf(s.pools[pool].rate, tx.from, tx.amount)
    ensures var rate := s.pools[pool].rate;
            && Refund(tx, rate) >= 0
            && Worth(rate, Balance(Trade(s, me, pool, tx.from, tx.amount, tx.out), pool, me)) ==
               Worth(rate, Balance(s, pool, me)) - Refund(tx, rate)
  {
    hide OutOf, Worth;
    var rate, h := s.pools[pool].rate, Balance(s, pool, me);
    OutWorth(rate, tx.from, tx.amount);
    var paid: int := 0 - tx.amount;
    TimesNegative(rate, tx.amount);
    if tx.from == A {
      WorthOf(rate, h, paid, tx.out);
    } else {
      WorthOf(rate, h, tx.out, paid);
    }
  }

  lemma PrepareEstate(s: State, me: Key, block: int, op: Op, pool: string, who: Key)
    requires pool in s.pools && op.Prepare?
    ensures var rate := s.pools[pool].rate;
            Estate(Apply(s, me, block, op).0, pool, who, rate) <= Estate(s, pool, who, rate)
  {
    hide Worth, Refund, SumClaims, OutOf, ParseSide, Trade;
    var rate := s.pools[pool].rate;
    var (t, reply) := Apply(s, me, block, op);
    if reply.PreparedAs? {
      var e := t.txs[op.tx];
      ClaimsPut(s.txs, pool, who, rate, op.tx, e);
      TradeTouches(s, me, op.pool, e.from, e.amount, e.out, pool, who);
      if op.pool == pool && me == who {
        TradeRefund(s, me, pool, e);
      }
    }
  }

  lemma ReceiveEstate(s: State, me: Key, block: int, op: Op, pool: string, who: Key)
    requires pool in s.pools && op.PrepareReceive? && Admitted(s, me, op, pool, who)
    ensures var rate := s.pools[pool].rate;
            Estate(Apply(s, me, block, op).0, pool, who, rate) <= Estate(s, pool, who, rate)
  {
    hide Worth, Refund, SumClaims, OutOf, ParseSide;
    var rate := s.pools[pool].rate;
    var (t, reply) := Apply(s, me, block, op);
    if reply.PreparedAs? {
      ClaimsPut(s.txs, pool, who, rate, op.tx, t.txs[op.tx]);
    }
  }

  lemma PoolStays(s: State, me: Key, block: int, op: Op, pool: string, who: Key)
    requires pool in s.pools && Admitted(s, me, op, pool, who)
    ensures var t := Apply(s, me, block, op).0; pool in t.pools && t.pools[pool].rate == s.pools[pool].rate
  {
    hide OutOf, ParseSide, Row, AddTo;
  }

  lemma CalmKeepsTxs(s: State, me: Key, block: int, op: Op)
    requires !op.Prepare? && !op.PrepareReceive? && !op.Commit? && !op.Abort?
    ensures Apply(s, me, block, op).0.txs == s.txs
  {
    hide OutOf, ParseSide, Row, AddTo, AddReserve;
  }

  lemma PreparesBringNothing(s: State, me: Key, block: int, op: Op, who: Key, pool: string, rate: Rate)
    requires op.Prepare? || op.PrepareReceive? || op.Commit? || op.Abort?
    ensures Brought(op, Apply(s, me, block, op).1, me, who, pool, rate) == 0
  {
    hide Apply;
  }

  /** No step makes an estate larger than what it was and what was brought in. */
  lemma StepEstate(s: State, me: Key, block: int, op: Op, pool: string, who: Key)
    requires pool in s.pools && Admitted(s, me, op, pool, who)
    ensures var (t, reply) := Apply(s, me, block, op);
            var rate := s.pools[pool].rate;
            && pool in t.pools && t.pools[pool].rate == rate
            && Estate(t, pool, who, rate) <= Estate(s, pool, who, rate) + Brought(op, reply, me, who, pool, rate)
  {
    hide Apply, Worth, SumClaims, Brought, Balance;
    var rate := s.pools[pool].rate;
    PoolStays(s, me, block, op, pool, who);
    match op
    case Prepare(_, _, _, _, _) =>
      PrepareEstate(s, me, block, op, pool, who);
      PreparesBringNothing(s, me, block, op, who, pool, rate);
    case PrepareReceive(_, _, _, _, _, _) =>
      ReceiveEstate(s, me, block, op, pool, who);
      PreparesBringNothing(s, me, block, op, who, pool, rate);
    case Commit(tx) =>
      CommitEstate(s, me, block, tx, pool, who, rate);
      PreparesBringNothing(s, me, block, op, who, pool, rate);
    case Abort(at, tx) =>
      AbortEstate(s, me, block, at, tx, pool, who);
      PreparesBringNothing(s, me, block, op, who, pool, rate);
    case _ =>
      CalmKeepsTxs(s, me, block, op);
      StepWorth(s, me, block, op, pool, who);
  }

  ghost predicate AllAdmitted(s: State, events: seq<Event>, pool: string, who: Key) {
    forall i :: 0 <= i < |events| ==> Admitted(Run(s, events[..i]), events[i].me, events[i].op, pool, who)
  }

  /** Over every run, aborts of one's own legs included, a holder's worth stays within what
      they had, could claim back and brought in. */
  lemma {:induction false} EstateNeverGrows(s: State, events: seq<Event>, who: Key, pool: string)
    requires pool in s.pools && AllAdmitted(s, events, pool, who)
    ensures var rate, t := s.pools[pool].rate, Run(s, events);
            && pool in t.pools && t.pools[pool].rate == rate
            && Estate(t, pool, who, rate) <= Estate(s, pool, who, rate) + TotalBrought(s, events, who, pool, rate)
            && Worth(rate, Balance(t, pool, who)) <= Estate(t, pool, who, rate)
  {
    hide Apply, Worth, Brought, Balance, Admitted, SumClaims;
    if events != [] {
      var n := |events| - 1;
      forall i | 0 <= i < n
        ensures Admitted(Run(s, events[..n][..i]), events[..n][i].me, events[..n][i].op, pool, who)
      {
        assert events[..n][..i] == events[..i];
      }
      EstateNeverGrows(s, events[..n], who, pool);
      StepEstate(Run(s, events[..n]), events[n].me, events[n].block, events[n].op, pool, who);
    }
  }
}
