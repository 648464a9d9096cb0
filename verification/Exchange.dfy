/** The pooled exchange contract: each verb is one atomic step on three state cells. */
module Exchange {
  import opened Options

  type Key = string

  const RATE_SCALE := 1000000

  /** `open` and `setRate` only ever store a positive rate. */
  type Rate = r: int | r > 0 witness 1

  datatype Side = A | B

  function ParseSide(s: string): Option<Side> {
    if s == "A" then Some(A) else if s == "B" then Some(B) else None
  }

  function Other(s: Side): Side { if s == A then B else A }

  datatype Link = Link(uri: string, shard: string)

  datatype Pool = Pool(owner: Key, tokenA: string, tokenB: string, rate: Rate,
                       reserveA: int, reserveB: int, links: map<string, Link>)

  datatype Bal = Bal(a: int, b: int)

  datatype Status = Prepared | Committed | Aborted

  /** One leg of a two-phase trade; `receive` marks the leg credited from another shard. */
  datatype Tx = Tx(holder: Key, poolId: string, from: Side, amount: int, out: int,
                   expiryBlock: int, status: Status, receive: bool)

  datatype State = State(pools: map<string, Pool>, bals: map<string, map<Key, Bal>>, txs: map<string, Tx>)

  datatype Op =
    | Open(pool: string, tokenA: string, tokenB: string, rate: int)
    | Provide(pool: string, side: string, amount: int)
    | Deposit(pool: string, side: string, amount: int)
    | Swap(pool: string, side: string, amount: int)
    | Withdraw(pool: string, side: string, amount: int)
    | LinkPool(pool: string, name: string, uri: string, shard: string)
    | SetRate(pool: string, rate: int)
    | Prepare(pool: string, tx: string, side: string, amount: int, expiry: int)
    | PrepareReceive(pool: string, tx: string, side: string, amount: int, expiry: int, link: string)
    | Commit(tx: string)
    | Abort(pool: string, tx: string)

  datatype Reply =
    | Refused(reason: string)
    | Opened
    | Amount(n: int)
    | Swapped(gave: int, got: int, to: Side)
    | Withdrawn(amount: int, side: Side, left: int)
    | Linked(name: string)
    | RateIs(rate: int)
    | PreparedAs(tx: string, out: int, to: Side, expiry: int)
    | CommittedAs(tx: string, out: int, to: Side)
    | AbortedAs(tx: string)

  // Reading and writing the cells

  function Row(bals: map<string, map<Key, Bal>>, pool: string): map<Key, Bal> {
    if pool in bals then bals[pool] else map[]
  }

  function BalanceIn(row: map<Key, Bal>, who: Key): Bal { if who in row then row[who] else Bal(0, 0) }

  function Balance(s: State, pool: string, who: Key): Bal { BalanceIn(Row(s.bals, pool), who) }

  function PutBalance(s: State, pool: string, who: Key, h: Bal): State {
    s.(bals := s.bals[pool := Row(s.bals, pool)[who := h]])
  }

  function PutPool(s: State, pool: string, p: Pool): State { s.(pools := s.pools[pool := p]) }

  function Get(h: Bal, side: Side): int { if side == A then h.a else h.b }

  function AddTo(h: Bal, side: Side, n: int): Bal { if side == A then h.(a := h.a + n) else h.(b := h.b + n) }

  function Reserve(p: Pool, side: Side): int { if side == A then p.reserveA else p.reserveB }

  function AddReserve(p: Pool, side: Side, n: int): Pool {
    if side == A then p.(reserveA := p.reserveA + n) else p.(reserveB := p.reserveB + n)
  }

  /** What `amount` of side `from` buys: rate is B per RATE_SCALE of A, rounded down. */
  function OutOf(rate: Rate, from: Side, amount: nat): (out: nat) {
    if from == A then
      ProductNonNegative(amount, rate);
      amount * rate / RATE_SCALE
    else
      amount * RATE_SCALE / rate
  }

  lemma ProductNonNegative(m: nat, n: nat)
    ensures m * n >= 0
  {
  }

  // The verbs

  function DoOpen(s: State, me: Key, op: Op): (State, Reply)
    requires op.Open?
  {
    if op.pool in s.pools then (s, Refused("pool exists"))
    else if op.rate <= 0 then (s, Refused("rate must be positive"))
    else (PutPool(s, op.pool, Pool(me, op.tokenA, op.tokenB, op.rate, 0, 0, map[])), Opened)
  }

  function DoProvide(s: State, me: Key, op: Op): (State, Reply)
    requires op.Provide?
  {
    if op.pool !in s.pools then (s, Refused("no such pool"))
    else
      var p := s.pools[op.pool];
      if p.owner != me then (s, Refused("not owner"))
      else if ParseSide(op.side) == None || op.amount < 0 then (s, Refused("bad provide"))
      else
        var side := ParseSide(op.side).value;
        (PutPool(s, op.pool, AddReserve(p, side, op.amount)), Amount(Reserve(p, side) + op.amount))
  }

  function DoDeposit(s: State, me: Key, op: Op): (State, Reply)
    requires op.Deposit?
  {
    if op.pool !in s.pools || ParseSide(op.side) == None || op.amount < 0 then (s, Refused("bad deposit"))
    else
      var side, h := ParseSide(op.side).value, Balance(s, op.pool, me);
      (PutBalance(s, op.pool, me, AddTo(h, side, op.amount)), Amount(Get(h, side) + op.amount))
  }

  /** The common effect of `swap` and `prepare`. */
  function Trade(s: State, me: Key, pool: string, from: Side, amount: int, out: int): State
    requires pool in s.pools
  {
    var p, h := s.pools[pool], Balance(s, pool, me);
    var q := AddReserve(AddReserve(p, from, amount), Other(from), -out);
    PutBalance(PutPool(s, pool, q), pool, me, AddTo(AddTo(h, from, -amount), Other(from), out))
  }

  function DoSwap(s: State, me: Key, op: Op): (State, Reply)
    requires op.Swap?
  {
    if op.pool !in s.pools then (s, Refused("no such pool"))
    else if ParseSide(op.side) == None || op.amount < 0 then (s, Refused("bad swap"))
    else
      var from, p, h := ParseSide(op.side).value, s.pools[op.pool], Balance(s, op.pool, me);
      var out := OutOf(p.rate, from, op.amount);
      if Get(h, from) < op.amount then (s, Refused("insufficient balance"))
      else if Reserve(p, Other(from)) < out then (s, Refused("insufficient reserve"))
      else (Trade(s, me, op.pool, from, op.amount, out), Swapped(op.amount, out, Other(from)))
  }

  function DoWithdraw(s: State, me: Key, op: Op): (State, Reply)
    requires op.Withdraw?
  {
    if ParseSide(op.side) == None || op.amount < 0 then (s, Refused("bad withdraw"))
    else
      var side, h := ParseSide(op.side).value, Balance(s, op.pool, me);
      if Get(h, side) < op.amount then (s, Refused("insufficient balance"))
      else
        (PutBalance(s, op.pool, me, AddTo(h, side, -op.amount)),
         Withdrawn(op.amount, side, Get(h, side) - op.amount))
  }

  function DoLink(s: State, me: Key, op: Op): (State, Reply)
    requires op.LinkPool?
  {
    if op.pool !in s.pools then (s, Refused("no such pool"))
    else
      var p := s.pools[op.pool];
      if p.owner != me then (s, Refused("not owner"))
      else (PutPool(s, op.pool, p.(links := p.links[op.name := Link(op.uri, op.shard)])), Linked(op.name))
  }

  function DoSetRate(s: State, me: Key, op: Op): (State, Reply)
    requires op.SetRate?
  {
    if op.pool !in s.pools then (s, Refused("no such pool"))
    else
      var p := s.pools[op.pool];
      if p.owner != me then (s, Refused("not owner"))
      else if op.rate <= 0 then (s, Refused("rate must be positive"))
      else (PutPool(s, op.pool, p.(rate := op.rate)), RateIs(op.rate))
  }

  function DoPrepare(s: State, me: Key, op: Op): (State, Reply)
    requires op.Prepare?
  {
    if op.tx in s.txs then (s, Refused("duplicate txId"))
    else if op.pool !in s.pools then (s, Refused("no such pool"))
    else if ParseSide(op.side) == None || op.amount < 0 then (s, Refused("bad prepare"))
    else
      var from, p, h := ParseSide(op.side).value, s.pools[op.pool], Balance(s, op.pool, me);
      var out := OutOf(p.rate, from, op.amount);
      if Get(h, from) < op.amount then (s, Refused("insufficient balance"))
      else if Reserve(p, Other(from)) < out then (s, Refused("insufficient reserve"))
      else
        var t := Trade(s, me, op.pool, from, op.amount, out);
        (t.(txs := t.txs[op.tx := Tx(me, op.pool, from, op.amount, out, op.expiry, Prepared, false)]),
         PreparedAs(op.tx, out, Other(from), op.expiry))
  }

  /** The effect of `prepareReceive`: only the bought side moves. */
  function Credit(s: State, who: Key, pool: string, side: Side, out: int): State
    requires pool in s.pools
  {
    var p, h := s.pools[pool], Balance(s, pool, who);
    PutBalance(PutPool(s, pool, AddReserve(p, side, -out)), pool, who, AddTo(h, side, out))
  }

  function DoPrepareReceive(s: State, me: Key, op: Op): (State, Reply)
    requires op.PrepareReceive?
  {
    if op.tx in s.txs then (s, Refused("duplicate txId"))
    else if op.pool !in s.pools then (s, Refused("no such pool"))
    else if op.link !in s.pools[op.pool].links then (s, Refused("no such link"))
    else if ParseSide(op.side) == None || op.amount < 0 then (s, Refused("bad prepareReceive"))
    else
      var from, p := ParseSide(op.side).value, s.pools[op.pool];
      var out := OutOf(p.rate, from, op.amount);
      if Reserve(p, Other(from)) < out then (s, Refused("insufficient reserve"))
      else
        var t := Credit(s, me, op.pool, Other(from), out);
        (t.(txs := t.txs[op.tx := Tx(me, op.pool, from, op.amount, out, op.expiry, Prepared, true)]),
         PreparedAs(op.tx, out, Other(from), op.expiry))
  }

  function Settle(s: State, tx: string, status: Status): State
    requires tx in s.txs
  {
    s.(txs := s.txs[tx := s.txs[tx].(status := status)])
  }

  function DoCommit(s: State, me: Key, op: Op): (State, Reply)
    requires op.Commit?
  {
    if op.tx !in s.txs then (s, Refused("unknown tx"))
    else
      var e := s.txs[op.tx];
      if e.holder != me then (s, Refused("not holder"))
      else
        match e.status
        case Aborted => (s, Refused("already aborted"))
        case Committed => (s, CommittedAs(op.tx, e.out, Other(e.from)))
        case Prepared => (Settle(s, op.tx, Committed), CommittedAs(op.tx, e.out, Other(e.from)))
  }

  /** Reverses what preparing `e` moved, in the pool the caller names. */
  function Reverse(s: State, pool: string, e: Tx): State
    requires pool in s.pools
  {
    if e.receive then Credit(s, e.holder, pool, Other(e.from), -e.out)
    else Trade(s, e.holder, pool, e.from, -e.amount, -e.out)
  }

  /** Naming a pool that does not exist makes the contract fail on a missing record; the
      deploy is then rolled back, which is modelled as a refusal. */
  function DoAbort(s: State, me: Key, block: int, op: Op): (State, Reply)
    requires op.Abort?
  {
    if op.tx !in s.txs then (s, Refused("unknown tx"))
    else
      var e := s.txs[op.tx];
      match e.status
      case Aborted => (s, AbortedAs(op.tx))
      case Committed => (s, Refused("already committed"))
      case Prepared =>
        if e.holder != me && block < e.expiryBlock then (s, Refused("not holder; not yet expired"))
        else if op.pool !in s.pools then (s, Refused("rolled back"))
        else (Settle(Reverse(s, op.pool, e), op.tx, Aborted), AbortedAs(op.tx))
  }

  /** One step of the contract: the caller's key, the current block, the verb. */
  function Apply(s: State, me: Key, block: int, op: Op): (State, Reply) {
    match op
    case Open(_, _, _, _) => DoOpen(s, me, op)
    case Provide(_, _, _) => DoProvide(s, me, op)
    case Deposit(_, _, _) => DoDeposit(s, me, op)
    case Swap(_, _, _) => DoSwap(s, me, op)
    case Withdraw(_, _, _) => DoWithdraw(s, me, op)
    case LinkPool(_, _, _, _) => DoLink(s, me, op)
    case SetRate(_, _) => DoSetRate(s, me, op)
    case Prepare(_, _, _, _, _) => DoPrepare(s, me, op)
    case PrepareReceive(_, _, _, _, _, _) => DoPrepareReceive(s, me, op)
    case Commit(_) => DoCommit(s, me, op)
    case Abort(_, _) => DoAbort(s, me, block, op)
  }

  /** The deployed contract. Each method consumes the cells it needs and puts them back. */
  class Contract {
    var pools: map<string, Pool>
    var bals: map<string, map<Key, Bal>>
    var txs: map<string, Tx>

    constructor ()
      ensures Cells() == State(map[], map[], map[])
    {
      pools, bals, txs := map[], map[], map[];
    }

    function Cells(): State
      reads this
    {
      State(pools, bals, txs)
    }

    method OpenPool(me: Key, poolId: string, tokenA: string, tokenB: string, rate: int) returns (reply: Reply)
      modifies `pools
      ensures (Cells(), reply) == Apply(old(Cells()), me, 0, Open(poolId, tokenA, tokenB, rate))
    {
      if poolId in pools {
        return Refused("pool exists");
      }
      if rate <= 0 {
        return Refused("rate must be positive");
      }
      pools := pools[poolId := Pool(me, tokenA, tokenB, rate, 0, 0, map[])];
      return Opened;
    }

    method ProvideLiquidity(me: Key, poolId: string, side: string, amount: int) returns (reply: Reply)
      modifies `pools
      ensures (Cells(), reply) == Apply(old(Cells()), me, 0, Provide(poolId, side, amount))
    {
      if poolId !in pools {
        return Refused("no such pool");
      }
      var p := pools[poolId];
      if p.owner == me && side == "A" && amount >= 0 {
        pools := pools[poolId := p.(reserveA := p.reserveA + amount)];
        return Amount(p.reserveA + amount);
      } else if p.owner == me && side == "B" && amount >= 0 {
        pools := pools[poolId := p.(reserveB := p.reserveB + amount)];
        return Amount(p.reserveB + amount);
      } else if p.owner != me {
        return Refused("not owner");
      }
      return Refused("bad provide");
    }

    method DepositToken(me: Key, poolId: string, side: string, amount: int) returns (reply: Reply)
      modifies `bals
      ensures (Cells(), reply) == Apply(old(Cells()), me, 0, Deposit(poolId, side, amount))
    {
      var row := Row(bals, poolId);
      var h := BalanceIn(row, me);
      if poolId in pools && side == "A" && amount >= 0 {
        bals := bals[poolId := row[me := h.(a := h.a + amount)]];
        return Amount(h.a + amount);
      } else if poolId in pools && side == "B" && amount >= 0 {
        bals := bals[poolId := row[me := h.(b := h.b + amount)]];
        return Amount(h.b + amount);
      }
      return Refused("bad deposit");
    }

    method SwapTokens(me: Key, poolId: string, fromSide: string, amount: int) returns (reply: Reply)
      modifies `pools, `bals
      ensures (Cells(), reply) == Apply(old(Cells()), me, 0, Swap(poolId, fromSide, amount))
    {
      hide OutOf;
      if poolId !in pools {
        return Refused("no such pool");
      }
      var p, row := pools[poolId], Row(bals, poolId);
      var h := BalanceIn(row, me);
      if fromSide == "A" && amount >= 0 {
        var out := OutOf(p.rate, A, amount);
        if h.a >= amount && p.reserveB >= out {
          pools := pools[poolId := p.(reserveA := p.reserveA + amount, reserveB := p.reserveB - out)];
          bals := bals[poolId := row[me := h.(a := h.a - amount, b := h.b + out)]];
          return Swapped(amount, out, B);
        } else if h.a < amount {
          return Refused("insufficient balance");
        }
        return Refused("insufficient reserve");
      } else if fromSide == "B" && amount >= 0 {
        var out := OutOf(p.rate, B, amount);
        if h.b >= amount && p.reserveA >= out {
          pools := pools[poolId := p.(reserveB := p.reserveB + amount, reserveA := p.reserveA - out)];
          bals := bals[poolId := row[me := h.(b := h.b - amount, a := h.a + out)]];
          return Swapped(amount, out, A);
        } else if h.b < amount {
          return Refused("insufficient balance");
        }
        return Refused("insufficient reserve");
      }
      return Refused("bad swap");
    }

    method WithdrawToken(me: Key, poolId: string, side: string, amount: int) returns (reply: Reply)
      modifies `bals
      ensures (Cells(), reply) == Apply(old(Cells()), me, 0, Withdraw(poolId, side, amount))
    {
      var row := Row(bals, poolId);
      var h := BalanceIn(row, me);
      if side == "A" && amount >= 0 {
        if h.a >= amount {
          bals := bals[poolId := row[me := h.(a := h.a - amount)]];
          return Withdrawn(amount, A, h.a - amount);
        }
        return Refused("insufficient balance");
      } else if side == "B" && amount >= 0 {
        if h.b >= amount {
          bals := bals[poolId := row[me := h.(b := h.b - amount)]];
          return Withdrawn(amount, B, h.b - amount);
        }
        return Refused("insufficient balance");
      }
      return Refused("bad withdraw");
    }

    method LinkExchange(me: Key, poolId: string, name: string, uri: string, shard: string) returns (reply: Reply)
      modifies `pools
      ensures (Cells(), reply) == Apply(old(Cells()), me, 0, LinkPool(poolId, name, uri, shard))
    {
      if poolId !in pools {
        return Refused("no such pool");
      }
      var p := pools[poolId];
      if p.owner != me {
        return Refused("not owner");
      }
      pools := pools[poolId := p.(links := p.links[name := Link(uri, shard)])];
      return Linked(name);
    }

    method ChangeRate(me: Key, poolId: string, rate: int) returns (reply: Reply)
      modifies `pools
      ensures (Cells(), reply) == Apply(old(Cells()), me, 0, SetRate(poolId, rate))
    {
      if poolId !in pools {
        return Refused("no such pool");
      }
      var p := pools[poolId];
      if p.owner == me && rate > 0 {
        pools := pools[poolId := p.(rate := rate)];
        return RateIs(rate);
      } else if p.owner != me {
        return Refused("not owner");
      }
      return Refused("rate must be positive");
    }

    method PrepareLeg(me: Key, poolId: string, txId: string, fromSide: string, amount: int, expiry: int)
        returns (reply: Reply)
      modifies this
      ensures (Cells(), reply) == Apply(old(Cells()), me, 0, Prepare(poolId, txId, fromSide, amount, expiry))
    {
      hide OutOf;
      if txId in txs {
        return Refused("duplicate txId");
      }
      if poolId !in pools {
        return Refused("no such pool");
      }
      var p, row := pools[poolId], Row(bals, poolId);
      var h := BalanceIn(row, me);
      if fromSide == "A" && amount >= 0 {
        var out := OutOf(p.rate, A, amount);
        if h.a >= amount && p.reserveB >= out {
          pools := pools[poolId := p.(reserveA := p.reserveA + amount, reserveB := p.reserveB - out)];
          bals := bals[poolId := row[me := h.(a := h.a - amount, b := h.b + out)]];
          txs := txs[txId := Tx(me, poolId, A, amount, out, expiry, Prepared, false)];
          return PreparedAs(txId, out, B, expiry);
        } else if h.a < amount {
          return Refused("insufficient balance");
        }
        return Refused("insufficient reserve");
      } else if fromSide == "B" && amount >= 0 {
        var out := OutOf(p.rate, B, amount);
        if h.b >= amount && p.reserveA >= out {
          pools := pools[poolId := p.(reserveB := p.reserveB + amount, reserveA := p.reserveA - out)];
          bals := bals[poolId := row[me := h.(b := h.b - amount, a := h.a + out)]];
          txs := txs[txId := Tx(me, poolId, B, amount, out, expiry, Prepared, false)];
          return PreparedAs(txId, out, A, expiry);
        } else if h.b < amount {
          return Refused("insufficient balance");
        }
        return Refused("insufficient reserve");
      }
      return Refused("bad prepare");
    }

    method PrepareReceiveLeg(me: Key, poolId: string, txId: string, side: string, amount: int, expiry: int,
        link: string)
        returns (reply: Reply)
      modifies this
      ensures (Cells(), reply) == Apply(old(Cells()), me, 0, PrepareReceive(poolId, txId, side, amount, expiry, link))
    {
      hide OutOf;
      if txId in txs {
        return Refused("duplicate txId");
      }
      if poolId !in pools {
        return Refused("no such pool");
      }
      var p, row := pools[poolId], Row(bals, poolId);
      if link !in p.links {
        return Refused("no such link");
      }
      var h := BalanceIn(row, me);
      if side == "A" && amount >= 0 {
        var out := OutOf(p.rate, A, amount);
        if p.reserveB >= out {
          pools := pools[poolId := p.(reserveB := p.reserveB - out)];
          bals := bals[poolId := row[me := h.(b := h.b + out)]];
          txs := txs[txId := Tx(me, poolId, A, amount, out, expiry, Prepared, true)];
          return PreparedAs(txId, out, B, expiry);
        }
        return Refused("insufficient reserve");
      } else if side == "B" && amount >= 0 {
        var out := OutOf(p.rate, B, amount);
        if p.reserveA >= out {
          pools := pools[poolId := p.(reserveA := p.reserveA - out)];
          bals := bals[poolId := row[me := h.(a := h.a + out)]];
          txs := txs[txId := Tx(me, poolId, B, amount, out, expiry, Prepared, true)];
          return PreparedAs(txId, out, A, expiry);
        }
        return Refused("insufficient reserve");
      }
      return Refused("bad prepareReceive");
    }

    method CommitLeg(me: Key, txId: string) returns (reply: Reply)
      modifies `txs
      ensures (Cells(), reply) == Apply(old(Cells()), me, 0, Commit(txId))
    {
      if txId !in txs {
        return Refused("unknown tx");
      }
      var e := txs[txId];
      if e.holder != me {
        return Refused("not holder");
      }
      match e.status {
        case Aborted => return Refused("already aborted");
        case Committed => return CommittedAs(txId, e.out, Other(e.from));
        case Prepared =>
          txs := txs[txId := e.(status := Committed)];
          return CommittedAs(txId, e.out, Other(e.from));
      }
    }

    method AbortLeg(me: Key, block: int, poolId: string, txId: string) returns (reply: Reply)
      modifies this
      ensures (Cells(), reply) == Apply(old(Cells()), me, block, Abort(poolId, txId))
    {
      if txId !in txs {
        return Refused("unknown tx");
      }
      var e := txs[txId];
      match e.status {
        case Aborted => return AbortedAs(txId);
        case Committed => return Refused("already committed");
        case Prepared =>
      }
      if e.holder != me && block < e.expiryBlock {
        return Refused("not holder; not yet expired");
      }
      if poolId !in pools {
        return Refused("rolled back");
      }
      var p, row := pools[poolId], Row(bals, poolId);
      var h := BalanceIn(row, e.holder);
      if e.receive && e.from == A {
        pools := pools[poolId := p.(reserveB := p.reserveB + e.out)];
        bals := bals[poolId := row[e.holder := h.(b := h.b - e.out)]];
      } else if e.receive {
        pools := pools[poolId := p.(reserveA := p.reserveA + e.out)];
        bals := bals[poolId := row[e.holder := h.(a := h.a - e.out)]];
      } else if e.from == A {
        pools := pools[poolId := p.(reserveA := p.reserveA - e.amount, reserveB := p.reserveB + e.out)];
        bals := bals[poolId := row[e.holder := h.(a := h.a + e.amount, b := h.b - e.out)]];
      } else {
        pools := pools[poolId := p.(reserveB := p.reserveB - e.amount, reserveA := p.reserveA + e.out)];
        bals := bals[poolId := row[e.holder := h.(b := h.b + e.amount, a := h.a - e.out)]];
      }
      txs := txs[txId := e.(status := Aborted)];
      return AbortedAs(txId);
    }
  }
}
