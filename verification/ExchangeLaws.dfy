/** What every run of the exchange keeps: nothing is created or lost, nothing goes
    negative without an abort, and trading never makes a holder richer. */
module ExchangeLaws {
  import opened Options
  import opened Exchange

  // Conservation

  ghost function SumSide(row: map<Key, Bal>, side: Side): int {
    if row == map[] then 0
    else
      var k :| k in row;
      Get(row[k], side) + SumSide(row - {k}, side)
  }

  lemma {:induction false} SumTake(row: map<Key, Bal>, side: Side, k: Key)
    requires k in row
    ensures SumSide(row, side) == Get(row[k], side) + SumSide(row - {k}, side)
  {
    hide Get;
    var j :| j in row && SumSide(row, side) == Get(row[j], side) + SumSide(row - {j}, side);
    if j != k {
      SumTake(row - {j}, side, k);
      SumTake(row - {k}, side, j);
      assert row - {j} - {k} == row - {k} - {j};
    }
  }

  lemma SumPut(row: map<Key, Bal>, side: Side, k: Key, h: Bal)
    ensures SumSide(row[k := h], side) == SumSide(row, side) - Get(BalanceIn(row, k), side) + Get(h, side)
  {
    hide SumSide;
    SumTake(row[k := h], side, k);
    assert row[k := h] - {k} == row - {k};
    if k in row {
      SumTake(row, side, k);
    } else {
      assert row - {k} == row;
    }
  }

  /** One side of one pool: the reserve and all the holders' balances. */
  ghost function Holdings(s: State, pool: string, side: Side): int {
    (if pool in s.pools then Reserve(s.pools[pool], side) else 0) + SumSide(Row(s.bals, pool), side)
  }

  lemma PutBalanceHoldings(s: State, at: string, who: Key, h: Bal, pool: string, side: Side)
    ensures Holdings(PutBalance(s, at, who, h), pool, side) ==
            Holdings(s, pool, side) + (if at == pool then Get(h, side) - Get(Balance(s, at, who), side) else 0)
  {
    hide SumSide, Get;
    SumPut(Row(s.bals, at), side, who, h);
  }

  lemma PutPoolHoldings(s: State, at: string, p: Pool, pool: string, side: Side)
    ensures Holdings(PutPool(s, at, p), pool, side) ==
            Holdings(s, pool, side) +
            (if at == pool then Reserve(p, side) - (if at in s.pools then Reserve(s.pools[at], side) else 0) else 0)
  {
  }

  /** A trade moves value between a holder and the reserve, and nothing else. */
  lemma TradeConserves(s: State, me: Key, at: string, from: Side, amount: int, out: int, pool: string, side: Side)
    requires at in s.pools
    ensures Holdings(Trade(s, me, at, from, amount, out), pool, side) == Holdings(s, pool, side)
  {
    hide Holdings;
    var p, h := s.pools[at], Balance(s, at, me);
    var q := AddReserve(AddReserve(p, from, amount), Other(from), -out);
    PutPoolHoldings(s, at, q, pool, side);
    PutBalanceHoldings(PutPool(s, at, q), at, me, AddTo(AddTo(h, from, -amount), Other(from), out), pool, side);
  }

  lemma CreditConserves(s: State, who: Key, at: string, to: Side, out: int, pool: string, side: Side)
    requires at in s.pools
    ensures Holdings(Credit(s, who, at, to, out), pool, side) == Holdings(s, pool, side)
  {
    hide Holdings;
    var p, h := s.pools[at], Balance(s, at, who);
    PutPoolHoldings(s, at, AddReserve(p, to, -out), pool, side);
    PutBalanceHoldings(PutPool(s, at, AddReserve(p, to, -out)), at, who, AddTo(h, to, out), pool, side);
  }

  lemma TxsDoNotHold(s: State, txs: map<string, Tx>, pool: string, side: Side)
    ensures Holdings(s.(txs := txs), pool, side) == Holdings(s, pool, side)
  {
  }

  /** What a verb, given its reply, brings into one side of one pool from outside. */
  function Inflow(op: Op, reply: Reply, pool: string, side: Side): int {
    if reply.Refused? then 0
    else
      match op
      case Provide(p, s, n) => if p == pool && ParseSide(s) == Some(side) then n else 0
      case Deposit(p, s, n) => if p == pool && ParseSide(s) == Some(side) then n else 0
      case Withdraw(p, s, n) => if p == pool && ParseSide(s) == Some(side) then -n else 0
      case _ => 0
  }

  /** Every verb, aborts of any transaction in any pool included, changes the holdings by
      exactly what was moved in or out. */
  lemma StepConserves(s: State, me: Key, block: int, op: Op, pool: string, side: Side)
    ensures var (t, reply) := Apply(s, me, block, op);
            Holdings(t, pool, side) == Holdings(s, pool, side) + Inflow(op, reply, pool, side)
  {
    hide Holdings, Trade, Credit, OutOf, PutBalance, PutPool, ParseSide;
    var (t, reply) := Apply(s, me, block, op);
    if !reply.Refused? {
      match op
      case Open(p, ta, tb, r) =>
        PutPoolHoldings(s, p, Pool(me, ta, tb, r, 0, 0, map[]), pool, side);
      case Provide(p, sd, n) =>
        PutPoolHoldings(s, p, AddReserve(s.pools[p], ParseSide(sd).value, n), pool, side);
      case Deposit(p, sd, n) =>
        PutBalanceHoldings(s, p, me, AddTo(Balance(s, p, me), ParseSide(sd).value, n), pool, side);
      case Withdraw(p, sd, n) =>
        PutBalanceHoldings(s, p, me, AddTo(Balance(s, p, me), ParseSide(sd).value, -n), pool, side);
      case Swap(p, sd, n) =>
        TradeConserves(s, me, p, ParseSide(sd).value, n, OutOf(s.pools[p].rate, ParseSide(sd).value, n), pool, side);
      case LinkPool(p, name, uri, shard) =>
        PutPoolHoldings(s, p, s.pools[p].(links := s.pools[p].links[name := Link(uri, shard)]), pool, side);
      case SetRate(p, r) =>
        PutPoolHoldings(s, p, s.pools[p].(rate := r), pool, side);
      case Prepare(p, tx, sd, n, _) =>
        var from := ParseSide(sd).value;
        var moved := Trade(s, me, p, from, n, OutOf(s.pools[p].rate, from, n));
        TradeConserves(s, me, p, from, n, OutOf(s.pools[p].rate, from, n), pool, side);
        TxsDoNotHold(moved, t.txs, pool, side);
      case PrepareReceive(p, tx, sd, n, _, _) =>
        var from := ParseSide(sd).value;
        var moved := Credit(s, me, p, Other(from), OutOf(s.pools[p].rate, from, n));
        CreditConserves(s, me, p, Other(from), OutOf(s.pools[p].rate, from, n), pool, side);
        TxsDoNotHold(moved, t.txs, pool, side);
      case Commit(tx) =>
        TxsDoNotHold(s, t.txs, pool, side);
      case Abort(p, tx) =>
        var e := s.txs[tx];
        if e.status == Prepared {
          if e.receive {
            CreditConserves(s, e.holder, p, Other(e.from), -e.out, pool, side);
          } else {
            TradeConserves(s, e.holder, p, e.from, -e.amount, -e.out, pool, side);
          }
          TxsDoNotHold(Reverse(s, p, e), t.txs, pool, side);
        }
    }
  }

  // Runs

  datatype Event = Event(me: Key, block: int, op: Op)

  function Run(s: State, events: seq<Event>): State {
    if events == [] then s
    else
      var n := |events| - 1;
      Apply(Run(s, events[..n]), events[n].me, events[n].block, events[n].op).0
  }

  function ReplyTo(s: State, events: seq<Event>, i: nat): Reply
    requires i < |events|
  {
    Apply(Run(s, events[..i]), events[i].me, events[i].block, events[i].op).1
  }

  function TotalInflow(s: State, events: seq<Event>, pool: string, side: Side): int {
    if events == [] then 0
    else
      var n := |events| - 1;
      TotalInflow(s, events[..n], pool, side) + Inflow(events[n].op, ReplyTo(s, events, n), pool, side)
  }

  const EMPTY := State(map[], map[], map[])

  /** Over every interleaving of verbs by any callers, each side of each pool holds what
      was provided and deposited less what was withdrawn. */
  lemma {:induction false} RunConserves(events: seq<Event>, pool: string, side: Side)
    ensures Holdings(Run(EMPTY, events), pool, side) == TotalInflow(EMPTY, events, pool, side)
  {
    hide Inflow, Apply;
    if events == [] {
      EmptyHoldsNothing(pool, side);
    } else {
      hide Holdings;
      var n := |events| - 1;
      RunConserves(events[..n], pool, side);
      StepConserves(Run(EMPTY, events[..n]), events[n].me, events[n].block, events[n].op, pool, side);
    }
  }

  lemma EmptyHoldsNothing(pool: string, side: Side)
    ensures Holdings(EMPTY, pool, side) == 0
  {
  }

  // Non-negativity

  predicate Solvent(s: State) {
    && (forall p :: p in s.pools ==> s.pools[p].reserveA >= 0 && s.pools[p].reserveB >= 0)
    && (forall p, k :: p in s.bals && k in s.bals[p] ==> s.bals[p][k].a >= 0 && s.bals[p][k].b >= 0)
  }

  lemma BalanceSolvent(s: State, pool: string, who: Key)
    requires Solvent(s)
    ensures Balance(s, pool, who).a >= 0 && Balance(s, pool, who).b >= 0
  {
  }

  lemma PutSolvent(s: State, pool: string, who: Key, h: Bal)
    requires Solvent(s) && h.a >= 0 && h.b >= 0
    ensures Solvent(PutBalance(s, pool, who, h))
  {
  }

  lemma PutPoolSolvent(s: State, pool: string, p: Pool)
    requires Solvent(s) && p.reserveA >= 0 && p.reserveB >= 0
    ensures Solvent(PutPool(s, pool, p))
  {
  }

  lemma TradeSolvent(s: State, me: Key, pool: string, from: Side, amount: int, out: int)
    requires Solvent(s) && pool in s.pools
    requires Get(Balance(s, pool, me), from) >= amount && Get(Balance(s, pool, me), Other(from)) >= -out
    requires Reserve(s.pools[pool], Other(from)) >= out && Reserve(s.pools[pool], from) >= -amount
    ensures Solvent(Trade(s, me, pool, from, amount, out))
  {
    hide Solvent;
    var p, h := s.pools[pool], Balance(s, pool, me);
    var q := AddReserve(AddReserve(p, from, amount), Other(from), -out);
    BalanceSolvent(s, pool, me);
    SolventPool(s, pool);
    PutPoolSolvent(s, pool, q);
    PutSolvent(PutPool(s, pool, q), pool, me, AddTo(AddTo(h, from, -amount), Other(from), out));
  }

  lemma SolventPool(s: State, pool: string)
    requires Solvent(s) && pool in s.pools
    ensures s.pools[pool].reserveA >= 0 && s.pools[pool].reserveB >= 0
  {
  }

  lemma CreditSolvent(s: State, who: Key, pool: string, to: Side, out: int)
    requires Solvent(s) && pool in s.pools
    requires Reserve(s.pools[pool], to) >= out && Get(Balance(s, pool, who), to) >= -out
    ensures Solvent(Credit(s, who, pool, to, out))
  {
    hide Solvent;
    BalanceSolvent(s, pool, who);
    SolventPool(s, pool);
    PutPoolSolvent(s, pool, AddReserve(s.pools[pool], to, -out));
    PutSolvent(PutPool(s, pool, AddReserve(s.pools[pool], to, -out)), pool, who, AddTo(Balance(s, pool, who), to, out));
  }

  lemma TxsDoNotOwe(s: State, txs: map<string, Tx>)
    ensures Solvent(s.(txs := txs)) <==> Solvent(s)
  {
  }

  /** No verb but `abort` can take a balance or a reserve below zero. */
  lemma StepStaysSolvent(s: State, me: Key, block: int, op: Op)
    requires Solvent(s) && !op.Abort?
    ensures Solvent(Apply(s, me, block, op).0)
  {
    hide Solvent, Trade, Credit, OutOf, PutBalance, PutPool, ParseSide, Balance;
    var (t, reply) := Apply(s, me, block, op);
    if !reply.Refused? {
      match op
      case Open(p, ta, tb, r) =>
        PutPoolSolvent(s, p, Pool(me, ta, tb, r, 0, 0, map[]));
      case Provide(p, sd, n) =>
        SolventPool(s, p);
        PutPoolSolvent(s, p, AddReserve(s.pools[p], ParseSide(sd).value, n));
      case Deposit(p, sd, n) =>
        BalanceSolvent(s, p, me);
        PutSolvent(s, p, me, AddTo(Balance(s, p, me), ParseSide(sd).value, n));
      case Withdraw(p, sd, n) =>
        BalanceSolvent(s, p, me);
        PutSolvent(s, p, me, AddTo(Balance(s, p, me), ParseSide(sd).value, -n));
      case Swap(p, sd, n) =>
        BalanceSolvent(s, p, me);
        SolventPool(s, p);
        TradeSolvent(s, me, p, ParseSide(sd).value, n, OutOf(s.pools[p].rate, ParseSide(sd).value, n));
      case LinkPool(p, name, uri, shard) =>
        SolventPool(s, p);
        PutPoolSolvent(s, p, s.pools[p].(links := s.pools[p].links[name := Link(uri, shard)]));
      case SetRate(p, r) =>
        SolventPool(s, p);
        PutPoolSolvent(s, p, s.pools[p].(rate := r));
      case Prepare(p, tx, sd, n, _) =>
        var from := ParseSide(sd).value;
        BalanceSolvent(s, p, me);
        SolventPool(s, p);
        TradeSolvent(s, me, p, from, n, OutOf(s.pools[p].rate, from, n));
        TxsDoNotOwe(Trade(s, me, p, from, n, OutOf(s.pools[p].rate, from, n)), t.txs);
      case PrepareReceive(p, tx, sd, n, _, _) =>
        var from := ParseSide(sd).value;
        BalanceSolvent(s, p, me);
        CreditSolvent(s, me, p, Other(from), OutOf(s.pools[p].rate, from, n));
        TxsDoNotOwe(Credit(s, me, p, Other(from), OutOf(s.pools[p].rate, from, n)), t.txs);
      case Commit(tx) =>
        TxsDoNotOwe(s, t.txs);
    }
  }

  /** Without aborts, every reserve and every balance of every run is non-negative. */
  lemma {:induction false} AbortFreeRunsStaySolvent(events: seq<Event>)
    requires forall i :: 0 <= i < |events| ==> !events[i].op.Abort?
    ensures Solvent(Run(EMPTY, events))
  {
    hide Apply;
    if events != [] {
      var n := |events| - 1;
      AbortFreeRunsStaySolvent(events[..n]);
      StepStaysSolvent(Run(EMPTY, events[..n]), events[n].me, events[n].block, events[n].op);
    }
  }

  /** Exactly when an abort that goes through keeps everything non-negative: the holder
      still has what was bought, and the pool still has what was sold to it. */
  lemma AbortSolventIff(s: State, me: Key, block: int, pool: string, tx: string)
    requires Solvent(s) && tx in s.txs && s.txs[tx].status == Prepared && pool in s.pools
    requires s.txs[tx].amount >= 0 && s.txs[tx].out >= 0
    requires s.txs[tx].holder == me || block >= s.txs[tx].expiryBlock
    ensures var e := s.txs[tx];
            Solvent(Apply(s, me, block, Abort(pool, tx)).0) <==>
            Get(Balance(s, pool, e.holder), Other(e.from)) >= e.out &&
            (e.receive || Reserve(s.pools[pool], e.from) >= e.amount)
  {
    hide Solvent, Trade, Credit, Balance;
    var e := s.txs[tx];
    var r := Reverse(s, pool, e);
    var t := Apply(s, me, block, Abort(pool, tx)).0;
    TxsDoNotOwe(r, t.txs);
    BalanceSolvent(s, pool, e.holder);
    SolventPool(s, pool);
    if Solvent(r) {
      BalanceSolvent(r, pool, e.holder);
      ReversePoolIn(s, pool, e);
      SolventPool(r, pool);
      ReverseEffect(s, pool, e);
    } else if Get(Balance(s, pool, e.holder), Other(e.from)) >= e.out &&
      (e.receive || Reserve(s.pools[pool], e.from) >= e.amount) {
      if e.receive {
        CreditSolvent(s, e.holder, pool, Other(e.from), -e.out);
      } else {
        TradeSolvent(s, e.holder, pool, e.from, -e.amount, -e.out);
      }
    }
  }

  lemma ReversePoolIn(s: State, pool: string, e: Tx)
    requires pool in s.pools
    ensures pool in Reverse(s, pool, e).pools
  {
  }

  lemma ReverseEffect(s: State, pool: string, e: Tx)
    requires pool in s.pools
    ensures pool in Reverse(s, pool, e).pools
    ensures Get(Balance(Reverse(s, pool, e), pool, e.holder), Other(e.from)) ==
            Get(Balance(s, pool, e.holder), Other(e.from)) - e.out
    ensures !e.receive ==> Reserve(Reverse(s, pool, e).pools[pool], e.from) == Reserve(s.pools[pool], e.from) - e.amount
  {
  }

  /** Recorded amounts are never negative, so the condition above is the whole story for
      every transaction of every run. */
  lemma {:induction false} RecordedAmountsNonNegative(events: seq<Event>, tx: string)
    requires tx in Run(EMPTY, events).txs
    ensures Run(EMPTY, events).txs[tx].amount >= 0 && Run(EMPTY, events).txs[tx].out >= 0
  {
    hide Apply;
    if events != [] {
      var n := |events| - 1;
      var s := Run(EMPTY, events[..n]);
      NewTxNonNegative(s, events[n].me, events[n].block, events[n].op, tx);
      if tx in s.txs {
        RecordedAmountsNonNegative(events[..n], tx);
      }
    }
  }

  lemma NewTxNonNegative(s: State, me: Key, block: int, op: Op, tx: string)
    requires tx in Apply(s, me, block, op).0.txs
    ensures var e := Apply(s, me, block, op).0.txs[tx];
            if tx in s.txs then e.amount == s.txs[tx].amount && e.out == s.txs[tx].out else e.amount >= 0 && e.out >= 0
  {
    hide OutOf, ParseSide, AddReserve, AddTo, Row;
  }

  lemma RunSnoc(s: State, events: seq<Event>, e: Event)
    ensures Run(s, events + [e]) == Apply(Run(s, events), e.me, e.block, e.op).0
    ensures ReplyTo(s, events + [e], |events|) == Apply(Run(s, events), e.me, e.block, e.op).1
  {
    hide Apply;
    assert (events + [e])[..|events|] == events;
  }

  /** One pool with unit rate and one holder: the states of the example run below. */
  function Example(reserveA: int, reserveB: int, h: Bal, txs: map<string, Tx>): State {
    State(map["p" := Pool("o", "a", "b", RATE_SCALE, reserveA, reserveB, map[])], map["p" := map["m" := h]], txs)
  }

  const EXAMPLE_TX := Tx("m", "p", A, 2, 2, 9, Prepared, false)

  /** An abort can overdraw: provide 5 B, deposit 2 A, prepare their sale for 2 B,
      withdraw the B, and abort. No verb is refused, and the holder ends at -2 B. */
  lemma AbortCanOverdraw() returns (events: seq<Event>, h: Bal)
    ensures h.a == 2 && h.b == -2
    ensures Run(EMPTY, events) == Example(0, 5, h, map["x" := EXAMPLE_TX.(status := Aborted)])
    ensures !Solvent(Run(EMPTY, events))
    ensures AbortFree(events[..|events| - 1]) && Solvent(Run(EMPTY, events[..|events| - 1]))
  {
    var s3 := Example(0, 5, Bal(2, 0), map[]);
    var s4 := Example(2, 3, Bal(0, 2), map["x" := EXAMPLE_TX]);
    var s5 := Example(2, 3, Bal(0, 0), map["x" := EXAMPLE_TX]);
    var open, fill := Event("o", 0, Open("p", "a", "b", RATE_SCALE)), Event("o", 0, Provide("p", "B", 5));
    var deposit, prepare := Event("m", 0, Deposit("p", "A", 2)), Event("m", 0, Prepare("p", "x", "A", 2, 9));
    var withdraw, abort := Event("m", 0, Withdraw("p", "B", 2)), Event("m", 0, Abort("p", "x"));
    ExampleSetup();
    ExamplePrepare(s3);
    ExampleWithdraw(s4);
    h := ExampleAbort(s5);
    hide Apply, Solvent, Example;
    RunSnoc(EMPTY, [], open);
    RunSnoc(EMPTY, [] + [open], fill);
    RunSnoc(EMPTY, [] + [open] + [fill], deposit);
    RunSnoc(EMPTY, [] + [open] + [fill] + [deposit], prepare);
    RunSnoc(EMPTY, [] + [open] + [fill] + [deposit] + [prepare], withdraw);
    var before := [] + [open] + [fill] + [deposit] + [prepare] + [withdraw];
    RunSnoc(EMPTY, before, abort);
    events := before + [abort];
    assert events[..|events| - 1] == before;
    AbortFreeRunsStaySolvent(before);
    NegativeIsNotSolvent(Run(EMPTY, events), h);
  }

  predicate AbortFree(events: seq<Event>) { forall i :: 0 <= i < |events| ==> !events[i].op.Abort? }

  lemma NegativeIsNotSolvent(s: State, h: Bal)
    requires s == Example(0, 5, h, map["x" := EXAMPLE_TX.(status := Aborted)]) && h.b < 0
    ensures !Solvent(s)
  {
    if Solvent(s) {
      BalanceSolvent(s, "p", "m");
    }
  }

  lemma ExampleSetup()
    ensures Apply(Apply(Apply(EMPTY, "o", 0, Open("p", "a", "b", RATE_SCALE)).0, "o", 0, Provide("p", "B", 5)).0,
                  "m", 0, Deposit("p", "A", 2)).0 == Example(0, 5, Bal(2, 0), map[])
  {
    SidesParse();
    hide ParseSide;
    var s1 := Apply(EMPTY, "o", 0, Open("p", "a", "b", RATE_SCALE)).0;
    assert s1 == State(map["p" := Pool("o", "a", "b", RATE_SCALE, 0, 0, map[])], map[], map[]);
    var s2 := Apply(s1, "o", 0, Provide("p", "B", 5)).0;
    assert s2.pools == map["p" := Pool("o", "a", "b", RATE_SCALE, 0, 5, map[])];
    var s3 := Apply(s2, "m", 0, Deposit("p", "A", 2)).0;
    assert s3.bals == map["p" := map["m" := Bal(2, 0)]];
  }

  lemma TradeSellsA(s: State, me: Key, pool: string, amount: int, out: int)
    requires pool in s.pools
    ensures var t, p, h := Trade(s, me, pool, A, amount, out), s.pools[pool], Balance(s, pool, me);
            && t.pools == s.pools[pool := p.(reserveA := p.reserveA + amount, reserveB := p.reserveB - out)]
            && t.bals == s.bals[pool := Row(s.bals, pool)[me := Bal(h.a - amount, h.b + out)]]
            && t.txs == s.txs
  {
    hide Row, BalanceIn;
  }

  lemma ExamplePrepare(s: State)
    requires s == Example(0, 5, Bal(2, 0), map[])
    ensures Apply(s, "m", 0, Prepare("p", "x", "A", 2, 9)).0 == Example(2, 3, Bal(0, 2), map["x" := EXAMPLE_TX])
  {
    hide ParseSide, OutOf, Trade, AddTo, AddReserve;
    SidesParse();
    TradeSellsA(s, "m", "p", 2, 2);
    var t := Trade(s, "m", "p", A, 2, 2);
    assert t.pools == map["p" := Pool("o", "a", "b", RATE_SCALE, 2, 3, map[])];
    assert Row(s.bals, "p") == map["m" := Bal(2, 0)] && Balance(s, "p", "m") == Bal(2, 0);
    assert t.bals["p"] == map["m" := Bal(0, 2)];
    assert t.bals == map["p" := map["m" := Bal(0, 2)]];
    assert DoPrepare(s, "m", Prepare("p", "x", "A", 2, 9)).0 == t.(txs := t.txs["x" := EXAMPLE_TX]);
  }

  lemma ExampleWithdraw(s: State)
    requires s == Example(2, 3, Bal(0, 2), map["x" := EXAMPLE_TX])
    ensures Apply(s, "m", 0, Withdraw("p", "B", 2)).0 == Example(2, 3, Bal(0, 0), map["x" := EXAMPLE_TX])
  {
    SidesParse();
    hide ParseSide;
    var t := Apply(s, "m", 0, Withdraw("p", "B", 2)).0;
    assert t.bals["p"] == map["m" := Bal(0, 0)];
    assert t.bals == map["p" := map["m" := Bal(0, 0)]];
  }

  lemma ExampleAbort(s: State) returns (h: Bal)
    requires s == Example(2, 3, Bal(0, 0), map["x" := EXAMPLE_TX])
    ensures h.a == 2 && h.b == -2
    ensures Apply(s, "m", 0, Abort("p", "x")).0 == Example(0, 5, h, map["x" := EXAMPLE_TX.(status := Aborted)])
  {
    var e := s.txs["x"];
    var t := Reverse(s, "p", e);
    h := t.bals["p"]["m"];
    assert t.pools["p"] == Pool("o", "a", "b", RATE_SCALE, 0, 5, map[]);
    assert t.pools == map["p" := t.pools["p"]];
    assert t.bals["p"] == map["m" := h];
    assert t.bals == map["p" := t.bals["p"]];
    hide Reverse;
    assert DoAbort(s, "m", 0, Abort("p", "x")).0 == Settle(t, "x", Aborted);
  }

  lemma SidesParse()
    ensures ParseSide("A") == Some(A) && ParseSide("B") == Some(B)
    ensures OutOf(RATE_SCALE, A, 2) == 2
  {
  }

  // Worth

  /** A holder's position valued at the pool's rate. */
  function Worth(rate: Rate, h: Bal): int { rate * h.a + RATE_SCALE * h.b }

  /** Rounding: what is bought is worth at most what is sold, by less than one unit of
      the divisor. */
  lemma OutWorth(rate: Rate, from: Side, amount: nat)
    ensures from == A ==>
            RATE_SCALE * OutOf(rate, A, amount) <= rate * amount < RATE_SCALE * OutOf(rate, A, amount) + RATE_SCALE
    ensures from == B ==> rate * OutOf(rate, B, amount) <= RATE_SCALE * amount < rate * OutOf(rate, B, amount) + rate
  {
    if from == A {
      DivBounds(amount * rate, RATE_SCALE);
    } else {
      DivBounds(amount * RATE_SCALE, rate);
    }
  }

  lemma DivBounds(n: int, d: int)
    requires d > 0
    ensures d * (n / d) <= n < d * (n / d) + d
  {
  }

  lemma WorthOf(rate: Rate, h: Bal, da: int, db: int)
    ensures Worth(rate, Bal(h.a + da, h.b + db)) == Worth(rate, h) + rate * da + RATE_SCALE * db
  {
  }

  function Larger(m: int, n: int): int { if m > n then m else n }

  /** A trade at the pool's rate never gains, and loses less than max(RATE_SCALE, rate). */
  lemma TradeWorth(s: State, me: Key, pool: string, from: Side, amount: nat)
    requires pool in s.pools
    ensures var rate := s.pools[pool].rate;
            var w := Worth(rate, Balance(s, pool, me));
            var v := Worth(rate, Balance(Trade(s, me, pool, from, amount, OutOf(rate, from, amount)), pool, me));
            v <= w < v + Larger(RATE_SCALE, rate)
  {
    hide OutOf, Worth;
    var rate, h := s.pools[pool].rate, Balance(s, pool, me);
    var out := OutOf(rate, from, amount);
    OutWorth(rate, from, amount);
    var paid: int := 0 - amount;
    if from == A {
      WorthOf(rate, h, paid, out);
      assert rate * paid == -(rate * amount);
    } else {
      WorthOf(rate, h, out, paid);
    }
  }

  /** Verbs that leave the pool's rate alone and credit nobody from another shard. */
  predicate Calm(op: Op, pool: string) {
    !op.Abort? && !op.PrepareReceive? && !(op.SetRate? && op.pool == pool)
  }

  /** Worth a holder brings in (or takes out) by a verb of their own. */
  function Brought(op: Op, reply: Reply, me: Key, who: Key, pool: string, rate: Rate): int {
    if me != who then 0
    else
      rate * Inflow(op, reply, pool, A) + RATE_SCALE * Inflow(op, reply, pool, B) - OwnerInflow(op, reply, pool, rate)
  }

  /** Liquidity goes to the reserve, not to the owner's balance. */
  function OwnerInflow(op: Op, reply: Reply, pool: string, rate: Rate): int {
    if op.Provide? then rate * Inflow(op, reply, pool, A) + RATE_SCALE * Inflow(op, reply, pool, B) else 0
  }

  /** A step's effect on one holder's worth: nothing is gained beyond what was brought in. */
  predicate Fair(s: State, t: State, rate: Rate, brought: int, pool: string, who: Key) {
    var before, after := Worth(rate, Balance(s, pool, who)), Worth(rate, Balance(t, pool, who));
    after <= before + brought < after + Larger(RATE_SCALE, rate)
  }

  lemma StepWorth(s: State, me: Key, block: int, op: Op, pool: string, who: Key)
    requires pool in s.pools && Calm(op, pool)
    ensures var (t, reply) := Apply(s, me, block, op);
            var rate := s.pools[pool].rate;
            && pool in t.pools && t.pools[pool].rate == rate
            && Fair(s, t, rate, Brought(op, reply, me, who, pool, rate), pool, who)
  {
    hide OutOf, Worth, ParseSide, Trade, Fair, Brought;
    var (t, reply) := Apply(s, me, block, op);
    if op.Swap? || op.Prepare? {
      TradeStepWorth(s, me, block, op, pool, who);
    } else if op.Deposit? || op.Withdraw? {
      MoveStepWorth(s, me, block, op, pool, who);
    } else {
      StillStepWorth(s, me, block, op, pool, who);
    }
  }

  lemma TradeStepWorth(s: State, me: Key, block: int, op: Op, pool: string, who: Key)
    requires pool in s.pools && (op.Swap? || op.Prepare?)
    ensures var (t, reply) := Apply(s, me, block, op);
            && pool in t.pools && t.pools[pool].rate == s.pools[pool].rate
            && Fair(s, t, s.pools[pool].rate, Brought(op, reply, me, who, pool, s.pools[pool].rate), pool, who)
  {
    hide OutOf, Worth, ParseSide, Trade;
    var reply := Apply(s, me, block, op).1;
    if !reply.Refused? {
      var side := ParseSide(op.side).value;
      TradeTouches(s, me, op.pool, side, op.amount, OutOf(s.pools[op.pool].rate, side, op.amount), pool, who);
      TradeWorth(s, me, op.pool, side, op.amount);
    }
  }

  lemma MoveStepWorth(s: State, me: Key, block: int, op: Op, pool: string, who: Key)
    requires pool in s.pools && (op.Deposit? || op.Withdraw?)
    ensures var (t, reply) := Apply(s, me, block, op);
            && pool in t.pools && t.pools[pool].rate == s.pools[pool].rate
            && Fair(s, t, s.pools[pool].rate, Brought(op, reply, me, who, pool, s.pools[pool].rate), pool, who)
  {
    hide Worth, ParseSide;
    var reply := Apply(s, me, block, op).1;
    if !reply.Refused? {
      var moved := if op.Deposit? then op.amount else 0 - op.amount;
      MovedWorth(s, op.pool, me, ParseSide(op.side).value, moved, pool, who, s.pools[pool].rate);
    }
  }

  lemma StillStepWorth(s: State, me: Key, block: int, op: Op, pool: string, who: Key)
    requires pool in s.pools && Calm(op, pool) && !op.Swap? && !op.Prepare? && !op.Deposit? && !op.Withdraw?
    ensures var (t, reply) := Apply(s, me, block, op);
            && pool in t.pools && t.pools[pool].rate == s.pools[pool].rate
            && Fair(s, t, s.pools[pool].rate, Brought(op, reply, me, who, pool, s.pools[pool].rate), pool, who)
  {
    hide Worth, ParseSide;
  }

  lemma TradeTouches(s: State, me: Key, at: string, from: Side, amount: int, out: int, pool: string, who: Key)
    requires at in s.pools && pool in s.pools
    ensures var t := Trade(s, me, at, from, amount, out);
            && pool in t.pools && t.pools[pool].rate == s.pools[pool].rate && t.txs == s.txs
            && (at != pool || me != who ==> Balance(t, pool, who) == Balance(s, pool, who))
  {
  }

  lemma MovedWorth(s: State, at: string, me: Key, side: Side, n: int, pool: string, who: Key, rate: Rate)
    ensures var h := Balance(s, at, me);
            Worth(rate, Balance(PutBalance(s, at, me, AddTo(h, side, n)), pool, who)) ==
              Worth(rate, Balance(s, pool, who)) +
            (if at == pool && me == who then (if side == A then rate * n else RATE_SCALE * n) else 0)
  {
    hide Worth;
    WorthOf(rate, Balance(s, at, me), if side == A then n else 0, if side == B then n else 0);
  }

  function TotalBrought(s: State, events: seq<Event>, who: Key, pool: string, rate: Rate): int {
    if events == [] then 0
    else
      var n := |events| - 1;
      TotalBrought(s, events[..n], who, pool, rate) +
        Brought(events[n].op, ReplyTo(s, events, n), events[n].me, who, pool, rate)
  }

  /** At a fixed rate no run of trades, by whomever, leaves a holder worth more than what
      they had and brought in; each step costs them less than max(RATE_SCALE, rate). */
  lemma {:induction false} TradingNeverEnriches(s: State, events: seq<Event>, who: Key, pool: string)
    requires pool in s.pools && forall i :: 0 <= i < |events| ==> Calm(events[i].op, pool)
    ensures var rate, t := s.pools[pool].rate, Run(s, events);
            && pool in t.pools && t.pools[pool].rate == rate
            && Worth(rate, Balance(t, pool, who)) <=
               Worth(rate, Balance(s, pool, who)) + TotalBrought(s, events, who, pool, rate)
            && Worth(rate, Balance(s, pool, who)) + TotalBrought(s, events, who, pool, rate) <=
               Worth(rate, Balance(t, pool, who)) + |events| * Larger(RATE_SCALE, rate)
  {
    hide Apply, Worth, Brought, Balance, Larger;
    if events != [] {
      var n := |events| - 1;
      TradingNeverEnriches(s, events[..n], who, pool);
      StepWorth(Run(s, events[..n]), events[n].me, events[n].block, events[n].op, pool, who);
      var l := Larger(RATE_SCALE, s.pools[pool].rate);
      assert |events| * l == n * l + l;
    }
  }
}
