/** When each verb of the exchange is accepted, and what its caller, everybody else and the
    pools then have, told by what can be read from the cells. */
module VerbLaws {
  import opened Options
  import opened Exchange

  /** Refused for this reason, and nothing has changed. */
  predicate Stays(s: State, t: State, reply: Reply, why: string) { reply == Refused(why) && t == s }

  /** What keeps a caller from a pool, if anything does. */
  function Barred(s: State, me: Key, pool: string, otherwise: string): string {
    if pool !in s.pools then "no such pool" else if s.pools[pool].owner != me then "not owner" else otherwise
  }

  /** Of all pools only the two reserves of this one differ. */
  predicate ReservesBecome(s: State, t: State, pool: string, a: int, b: int) {
    && pool in s.pools && t.pools.Keys == s.pools.Keys
    && t.pools[pool] == s.pools[pool].(reserveA := a, reserveB := b)
    && forall q :: q in s.pools && q != pool ==> t.pools[q] == s.pools[q]
  }

  /** Of all balances only this holder's in this pool differs. */
  ghost predicate BalanceBecomes(s: State, t: State, pool: string, who: Key, a: int, b: int) {
    && Balance(t, pool, who) == Bal(a, b)
    && forall q, k :: q != pool || k != who ==> Balance(t, q, k) == Balance(s, q, k)
  }

  /** `out` is the largest amount of the other side not worth more than `amount` of this one. */
  predicate Buys(rate: Rate, from: Side, amount: int, out: nat) {
    if from == A then out * 1000000 <= amount * rate < (out + 1) * 1000000
    else out * rate <= amount * 1000000 < (out + 1) * rate
  }

  lemma Bought(rate: Rate, from: Side, amount: nat)
    ensures Buys(rate, from, amount, OutOf(rate, from, amount))
  {
    Quotient(amount * rate, 1000000);
    Quotient(amount * 1000000, rate);
    Spread(OutOf(rate, from, amount), rate);
  }

  lemma Quotient(x: int, y: int)
    requires y > 0
    ensures (x / y) * y <= x < (x / y) * y + y
  {
  }

  lemma Spread(x: int, y: int)
    ensures (x + 1) * y == x * y + y
  {
  }

  lemma PutBalanceBecomes(s: State, t: State, pool: string, who: Key, h: Bal)
    requires t.bals == PutBalance(s, pool, who, h).bals
    ensures BalanceBecomes(s, t, pool, who, h.a, h.b)
  {
  }

  lemma SideNames()
    ensures ParseSide("A") == Some(A) && ParseSide("B") == Some(B)
    ensures forall side :: side != "A" && side != "B" ==> ParseSide(side) == None
  {
  }

  // Pools

  lemma OpenLaw(s: State, me: Key, block: int, pool: string, tokenA: string, tokenB: string, rate: int)
    ensures var (t, reply) := Apply(s, me, block, Open(pool, tokenA, tokenB, rate));
            if pool in s.pools || rate <= 0 then
              Stays(s, t, reply, if pool in s.pools then "pool exists" else "rate must be positive")
            else
              && reply == Opened && t.bals == s.bals && t.txs == s.txs
              && t.pools.Keys == s.pools.Keys + {pool} && (forall q :: q in s.pools ==> t.pools[q] == s.pools[q])
              && var p := t.pools[pool];
                 && p.owner == me && p.tokenA == tokenA && p.tokenB == tokenB && p.rate == rate
                 && p.reserveA == 0 && p.reserveB == 0 && p.links == map[]
  {
  }

  /** The rate is the one asked for, and only the owner sets it. */
  lemma SetRateLaw(s: State, me: Key, block: int, pool: string, rate: int)
    ensures var (t, reply) := Apply(s, me, block, SetRate(pool, rate));
            if pool !in s.pools || s.pools[pool].owner != me || rate <= 0 then
              Stays(s, t, reply, Barred(s, me, pool, "rate must be positive"))
            else
              && reply == RateIs(rate) && t.bals == s.bals && t.txs == s.txs && t.pools.Keys == s.pools.Keys
              && t.pools[pool].rate == rate && t.pools[pool] == s.pools[pool].(rate := t.pools[pool].rate)
              && forall q :: q in s.pools && q != pool ==> t.pools[q] == s.pools[q]
  {
  }

  lemma LinkLaw(s: State, me: Key, block: int, pool: string, name: string, uri: string, shard: string)
    ensures var (t, reply) := Apply(s, me, block, LinkPool(pool, name, uri, shard));
            if pool !in s.pools || s.pools[pool].owner != me then
              Stays(s, t, reply, if pool in s.pools then "not owner" else "no such pool")
            else
              && reply == Linked(name) && t.bals == s.bals && t.txs == s.txs && t.pools.Keys == s.pools.Keys
              && name in t.pools[pool].links && t.pools[pool].links[name] == Link(uri, shard)
              && (forall n :: n != name ==> (n in t.pools[pool].links <==> n in s.pools[pool].links))
              && (forall n :: n != name && n in s.pools[pool].links ==>
                    t.pools[pool].links[n] == s.pools[pool].links[n])
              && t.pools[pool] == s.pools[pool].(links := t.pools[pool].links)
              && forall q :: q in s.pools && q != pool ==> t.pools[q] == s.pools[q]
  {
  }

  // Moving tokens in and out

  lemma ProvideLaw(s: State, me: Key, block: int, pool: string, side: string, amount: int)
    ensures var (t, reply) := Apply(s, me, block, Provide(pool, side, amount));
            if !(pool in s.pools && s.pools[pool].owner == me && (side == "A" || side == "B") && amount >= 0) then
              Stays(s, t, reply, Barred(s, me, pool, "bad provide"))
            else
              var a := s.pools[pool].reserveA + (if side == "A" then amount else 0);
              var b := s.pools[pool].reserveB + (if side == "B" then amount else 0);
              && reply == Amount(if side == "A" then a else b)
              && ReservesBecome(s, t, pool, a, b) && t.bals == s.bals && t.txs == s.txs
  {
    SideNames();
  }

  lemma DepositLaw(s: State, me: Key, block: int, pool: string, side: string, amount: int)
    ensures var (t, reply) := Apply(s, me, block, Deposit(pool, side, amount));
            if !(pool in s.pools && (side == "A" || side == "B") && amount >= 0) then Stays(s, t, reply, "bad deposit")
            else
              var a := Balance(s, pool, me).a + (if side == "A" then amount else 0);
              var b := Balance(s, pool, me).b + (if side == "B" then amount else 0);
              && reply == Amount(if side == "A" then a else b)
              && BalanceBecomes(s, t, pool, me, a, b) && t.pools == s.pools && t.txs == s.txs
  {
    SideNames();
    if pool in s.pools && (side == "A" || side == "B") && amount >= 0 {
      var t := Apply(s, me, block, Deposit(pool, side, amount)).0;
      PutBalanceBecomes(s, t, pool, me, AddTo(Balance(s, pool, me), ParseSide(side).value, amount));
    }
  }

  /** The pool need not exist: an unknown one holds nothing of anybody's. */
  lemma WithdrawLaw(s: State, me: Key, block: int, pool: string, side: string, amount: int)
    ensures var (t, reply) := Apply(s, me, block, Withdraw(pool, side, amount));
            var h := Balance(s, pool, me);
            if !((side == "A" || side == "B") && 0 <= amount <= (if side == "A" then h.a else h.b)) then
              Stays(s, t, reply, if (side == "A" || side == "B") && amount >= 0 then "insufficient balance"
                                 else "bad withdraw")
            else
              var a := h.a - (if side == "A" then amount else 0);
              var b := h.b - (if side == "B" then amount else 0);
              && reply == Withdrawn(amount, if side == "A" then A else B, if side == "A" then a else b)
              && BalanceBecomes(s, t, pool, me, a, b) && t.pools == s.pools && t.txs == s.txs
  {
    SideNames();
    if (side == "A" || side == "B") && amount >= 0 {
      var t := Apply(s, me, block, Withdraw(pool, side, amount)).0;
      if t != s {
        PutBalanceBecomes(s, t, pool, me, AddTo(Balance(s, pool, me), ParseSide(side).value, -amount));
      }
    }
  }

  // Trading

  /** Selling `amount` of A for `out` of B in this pool. */
  ghost predicate SoldA(s: State, t: State, me: Key, pool: string, amount: int, out: int)
    requires pool in s.pools
  {
    var p, h := s.pools[pool], Balance(s, pool, me);
    && ReservesBecome(s, t, pool, p.reserveA + amount, p.reserveB - out)
    && BalanceBecomes(s, t, pool, me, h.a - amount, h.b + out)
  }

  ghost predicate SoldB(s: State, t: State, me: Key, pool: string, amount: int, out: int)
    requires pool in s.pools
  {
    var p, h := s.pools[pool], Balance(s, pool, me);
    && ReservesBecome(s, t, pool, p.reserveA - out, p.reserveB + amount)
    && BalanceBecomes(s, t, pool, me, h.a + out, h.b - amount)
  }

  lemma TradeSells(s: State, t: State, me: Key, pool: string, from: Side, amount: int, out: int)
    requires pool in s.pools && t.pools == Trade(s, me, pool, from, amount, out).pools
    requires t.bals == Trade(s, me, pool, from, amount, out).bals
    ensures if from == A then SoldA(s, t, me, pool, amount, out) else SoldB(s, t, me, pool, amount, out)
  {
    var h := Balance(s, pool, me);
    PutBalanceBecomes(s, t, pool, me, AddTo(AddTo(h, from, -amount), Other(from), out));
  }

  /** Why a sale is refused that the caller cannot cover, or else the pool. */
  function Shortage(held: int, amount: int): string {
    if held < amount then "insufficient balance" else "insufficient reserve"
  }

  /** What selling A takes, of the caller and of the pool. */
  predicate CanSellA(s: State, me: Key, pool: string, amount: int, out: int)
    requires pool in s.pools
  {
    Balance(s, pool, me).a >= amount && s.pools[pool].reserveB >= out
  }

  predicate CanSellB(s: State, me: Key, pool: string, amount: int, out: int)
    requires pool in s.pools
  {
    Balance(s, pool, me).b >= amount && s.pools[pool].reserveA >= out
  }

  lemma SwapOfA(s: State, me: Key, block: int, pool: string, amount: nat) returns (out: nat)
    requires pool in s.pools
    ensures Buys(s.pools[pool].rate, A, amount, out)
    ensures var (t, reply) := Apply(s, me, block, Swap(pool, "A", amount));
            if CanSellA(s, me, pool, amount, out) then
              reply == Swapped(amount, out, B) && SoldA(s, t, me, pool, amount, out) && t.txs == s.txs
            else Stays(s, t, reply, Shortage(Balance(s, pool, me).a, amount))
  {
    hide OutOf, Trade, ReservesBecome, BalanceBecomes, Buys;
    SideNames();
    out := OutOf(s.pools[pool].rate, A, amount);
    Bought(s.pools[pool].rate, A, amount);
    TradeKeepsRecords(s, me, pool, A, amount, out);
    TradeSells(s, Trade(s, me, pool, A, amount, out), me, pool, A, amount, out);
  }

  lemma TradeKeepsRecords(s: State, me: Key, pool: string, from: Side, amount: int, out: int)
    requires pool in s.pools
    ensures Trade(s, me, pool, from, amount, out).txs == s.txs
  {
  }

  lemma SwapOfB(s: State, me: Key, block: int, pool: string, amount: nat) returns (out: nat)
    requires pool in s.pools
    ensures Buys(s.pools[pool].rate, B, amount, out)
    ensures var (t, reply) := Apply(s, me, block, Swap(pool, "B", amount));
            if CanSellB(s, me, pool, amount, out) then
              reply == Swapped(amount, out, A) && SoldB(s, t, me, pool, amount, out) && t.txs == s.txs
            else Stays(s, t, reply, Shortage(Balance(s, pool, me).b, amount))
  {
    hide OutOf, Trade, ReservesBecome, BalanceBecomes, Buys;
    SideNames();
    out := OutOf(s.pools[pool].rate, B, amount);
    Bought(s.pools[pool].rate, B, amount);
    TradeKeepsRecords(s, me, pool, B, amount, out);
    TradeSells(s, Trade(s, me, pool, B, amount, out), me, pool, B, amount, out);
  }

  lemma NoSwap(s: State, me: Key, block: int, pool: string, side: string, amount: int)
    requires pool !in s.pools || (side != "A" && side != "B") || amount < 0
    ensures var (t, reply) := Apply(s, me, block, Swap(pool, side, amount));
            Stays(s, t, reply, if pool in s.pools then "bad swap" else "no such pool")
  {
    SideNames();
  }

  /** An accepted swap of either side never raises what the caller has in the pool, valued
      at the pool's rate, and lowers it by less than one unit of the divisor. */
  lemma SwapWorth(s: State, me: Key, block: int, pool: string, side: string, amount: int)
    requires !Apply(s, me, block, Swap(pool, side, amount)).1.Refused?
    ensures pool in s.pools && (side == "A" || side == "B")
    ensures var t := Apply(s, me, block, Swap(pool, side, amount)).0;
            var rate, h, k := s.pools[pool].rate, Balance(s, pool, me), Balance(t, pool, me);
            var lost := rate * h.a + 1000000 * h.b - (rate * k.a + 1000000 * k.b);
            0 <= lost < if side == "A" then 1000000 else rate
  {
    hide OutOf, SoldA, SoldB, ReservesBecome;
    SideNames();
    if pool !in s.pools || (side != "A" && side != "B") || amount < 0 {
      NoSwap(s, me, block, pool, side, amount);
    } else {
      var t, rate, h := Apply(s, me, block, Swap(pool, side, amount)).0, s.pools[pool].rate, Balance(s, pool, me);
      hide Apply, Balance, BalanceBecomes;
      if side == "A" {
        var out := SwapOfA(s, me, block, pool, amount);
        SoldBalance(s, t, me, pool, amount, out);
        Linear(rate, h.a, -amount);
      } else {
        var out := SwapOfB(s, me, block, pool, amount);
        SoldBalance(s, t, me, pool, amount, out);
        Linear(rate, h.a, out);
        Spread(out, rate);
      }
    }
  }

  lemma SoldBalance(s: State, t: State, me: Key, pool: string, amount: int, out: int)
    requires pool in s.pools
    ensures var h, k := Balance(s, pool, me), Balance(t, pool, me);
            && (SoldA(s, t, me, pool, amount, out) ==> k == Bal(h.a - amount, h.b + out))
            && (SoldB(s, t, me, pool, amount, out) ==> k == Bal(h.a + out, h.b - amount))
  {
    hide ReservesBecome, Balance;
  }

  lemma Linear(x: int, y: int, z: int)
    ensures x * (y + z) == x * y + x * z && x * -z == -(x * z)
  {
  }

  // Two-phase legs

  predicate Recorded(s: State, t: State, tx: string, e: Tx) { t.txs == s.txs[tx := e] }

  lemma PrepareOfA(s: State, me: Key, block: int, pool: string, tx: string, amount: nat, expiry: int)
      returns (out: nat)
    requires pool in s.pools
    ensures Buys(s.pools[pool].rate, A, amount, out)
    ensures var (t, reply) := Apply(s, me, block, Prepare(pool, tx, "A", amount, expiry));
            if tx !in s.txs && CanSellA(s, me, pool, amount, out) then
              && reply == PreparedAs(tx, out, B, expiry) && SoldA(s, t, me, pool, amount, out)
              && Recorded(s, t, tx, Tx(me, pool, A, amount, out, expiry, Prepared, false))
            else Stays(s, t, reply, if tx in s.txs then "duplicate txId" else Shortage(Balance(s, pool, me).a, amount))
  {
    hide OutOf, Trade, ReservesBecome, BalanceBecomes, Buys;
    SideNames();
    out := OutOf(s.pools[pool].rate, A, amount);
    Bought(s.pools[pool].rate, A, amount);
    TradeKeepsRecords(s, me, pool, A, amount, out);
    if tx !in s.txs && CanSellA(s, me, pool, amount, out) {
      TradeSells(s, Apply(s, me, block, Prepare(pool, tx, "A", amount, expiry)).0, me, pool, A, amount, out);
    }
  }

  lemma PrepareOfB(s: State, me: Key, block: int, pool: string, tx: string, amount: nat, expiry: int)
      returns (out: nat)
    requires pool in s.pools
    ensures Buys(s.pools[pool].rate, B, amount, out)
    ensures var (t, reply) := Apply(s, me, block, Prepare(pool, tx, "B", amount, expiry));
            if tx !in s.txs && CanSellB(s, me, pool, amount, out) then
              && reply == PreparedAs(tx, out, A, expiry) && SoldB(s, t, me, pool, amount, out)
              && Recorded(s, t, tx, Tx(me, pool, B, amount, out, expiry, Prepared, false))
            else Stays(s, t, reply, if tx in s.txs then "duplicate txId" else Shortage(Balance(s, pool, me).b, amount))
  {
    hide OutOf, Trade, ReservesBecome, BalanceBecomes, Buys;
    SideNames();
    out := OutOf(s.pools[pool].rate, B, amount);
    Bought(s.pools[pool].rate, B, amount);
    TradeKeepsRecords(s, me, pool, B, amount, out);
    if tx !in s.txs && CanSellB(s, me, pool, amount, out) {
      TradeSells(s, Apply(s, me, block, Prepare(pool, tx, "B", amount, expiry)).0, me, pool, B, amount, out);
    }
  }

  lemma NoPrepare(s: State, me: Key, block: int, pool: string, tx: string, side: string, amount: int, expiry: int)
    requires pool !in s.pools || (side != "A" && side != "B") || amount < 0
    ensures var (t, reply) := Apply(s, me, block, Prepare(pool, tx, side, amount, expiry));
            Stays(s, t, reply, if tx in s.txs then "duplicate txId" else if pool in s.pools then "bad prepare"
                               else "no such pool")
  {
    SideNames();
  }

  /** The credit asks nothing of the caller's balance, only a link and the reserve. */
  lemma ReceiveLaw(s: State, me: Key, block: int, pool: string, tx: string, from: Side, amount: nat, expiry: int,
      link: string) returns (out: nat)
    requires pool in s.pools
    ensures Buys(s.pools[pool].rate, from, amount, out)
    ensures var side := if from == A then "A" else "B";
            var (t, reply) := Apply(s, me, block, PrepareReceive(pool, tx, side, amount, expiry, link));
            var p, h := s.pools[pool], Balance(s, pool, me);
            if tx !in s.txs && link in p.links && out <= (if from == A then p.reserveB else p.reserveA) then
              && reply == PreparedAs(tx, out, if from == A then B else A, expiry)
              && Recorded(s, t, tx, Tx(me, pool, from, amount, out, expiry, Prepared, true))
              && (from == A ==> ReservesBecome(s, t, pool, p.reserveA, p.reserveB - out) &&
                                BalanceBecomes(s, t, pool, me, h.a, h.b + out))
              && (from == B ==> ReservesBecome(s, t, pool, p.reserveA - out, p.reserveB) &&
                                BalanceBecomes(s, t, pool, me, h.a + out, h.b))
            else
              Stays(s, t, reply, if tx in s.txs then "duplicate txId" else if link !in p.links then "no such link"
                                 else "insufficient reserve")
  {
    hide OutOf, BalanceBecomes, Buys;
    SideNames();
    out := OutOf(s.pools[pool].rate, from, amount);
    Bought(s.pools[pool].rate, from, amount);
    var side := if from == A then "A" else "B";
    var t := Apply(s, me, block, PrepareReceive(pool, tx, side, amount, expiry, link)).0;
    if t != s {
      PutBalanceBecomes(s, t, pool, me, AddTo(Balance(s, pool, me), Other(from), out));
    }
  }

  lemma NoReceive(s: State, me: Key, block: int, pool: string, tx: string, side: string, amount: int, expiry: int,
      link: string)
    requires pool !in s.pools || (side != "A" && side != "B") || amount < 0
    ensures var (t, reply) := Apply(s, me, block, PrepareReceive(pool, tx, side, amount, expiry, link));
            Stays(s, t, reply, if tx in s.txs then "duplicate txId" else if pool !in s.pools then "no such pool"
                               else if link !in s.pools[pool].links then "no such link" else "bad prepareReceive")
  {
    SideNames();
  }

  /** Only the holder commits, and not what has been aborted; a second time changes nothing. */
  lemma CommitLaw(s: State, me: Key, block: int, tx: string)
    ensures var (t, reply) := Apply(s, me, block, Commit(tx));
            if !(tx in s.txs && s.txs[tx].holder == me && s.txs[tx].status != Aborted) then
              Stays(s, t, reply, if tx !in s.txs then "unknown tx" else if s.txs[tx].holder != me then "not holder"
                                 else "already aborted")
            else
              var e := s.txs[tx];
              && reply == CommittedAs(tx, e.out, if e.from == A then B else A)
              && t.pools == s.pools && t.bals == s.bals && Recorded(s, t, tx, e.(status := Committed))
  {
  }

  predicate TooSoon(s: State, me: Key, block: int, tx: string)
    requires tx in s.txs
  {
    s.txs[tx].holder != me && block < s.txs[tx].expiryBlock
  }

  /** The holder aborts at any time and everybody from the expiry on, in the pool they name;
      what has committed stays, and what is aborted already stays so. */
  lemma AbortLaw(s: State, me: Key, block: int, pool: string, tx: string)
    ensures var (t, reply) := Apply(s, me, block, Abort(pool, tx));
            if tx !in s.txs || s.txs[tx].status == Committed then
              Stays(s, t, reply, if tx in s.txs then "already committed" else "unknown tx")
            else if s.txs[tx].status == Aborted then reply == AbortedAs(tx) && t == s
            else if TooSoon(s, me, block, tx) || pool !in s.pools then
              Stays(s, t, reply, if TooSoon(s, me, block, tx) then "not holder; not yet expired" else "rolled back")
            else
              var e, p, h := s.txs[tx], s.pools[pool], Balance(s, pool, s.txs[tx].holder);
              var gave := if e.receive then 0 else e.amount;
              && reply == AbortedAs(tx) && Recorded(s, t, tx, e.(status := Aborted))
              && (e.from == A ==> ReservesBecome(s, t, pool, p.reserveA - gave, p.reserveB + e.out) &&
                                  BalanceBecomes(s, t, pool, e.holder, h.a + gave, h.b - e.out))
              && (e.from == B ==> ReservesBecome(s, t, pool, p.reserveA + e.out, p.reserveB - gave) &&
                                  BalanceBecomes(s, t, pool, e.holder, h.a - e.out, h.b + gave))
  {
    hide BalanceBecomes, ReservesBecome, Reverse;
    if tx in s.txs && s.txs[tx].status == Prepared && !TooSoon(s, me, block, tx) && pool in s.pools {
      var e := s.txs[tx];
      ReverseKeepsRecords(s, pool, e);
      ReverseLaw(s, Apply(s, me, block, Abort(pool, tx)).0, pool, e);
    }
  }

  /** Both sides of a sale go back, and the one side of a credit. */
  lemma ReverseLaw(s: State, t: State, pool: string, e: Tx)
    requires pool in s.pools && t.pools == Reverse(s, pool, e).pools && t.bals == Reverse(s, pool, e).bals
    ensures var p, h, gave := s.pools[pool], Balance(s, pool, e.holder), if e.receive then 0 else e.amount;
            && (e.from == A ==> ReservesBecome(s, t, pool, p.reserveA - gave, p.reserveB + e.out) &&
                                BalanceBecomes(s, t, pool, e.holder, h.a + gave, h.b - e.out))
            && (e.from == B ==> ReservesBecome(s, t, pool, p.reserveA + e.out, p.reserveB - gave) &&
                                BalanceBecomes(s, t, pool, e.holder, h.a - e.out, h.b + gave))
  {
    hide BalanceBecomes;
    var h := Balance(s, pool, e.holder);
    if e.receive {
      PutBalanceBecomes(s, t, pool, e.holder, AddTo(h, Other(e.from), -e.out));
    } else {
      PutBalanceBecomes(s, t, pool, e.holder, AddTo(AddTo(h, e.from, e.amount), Other(e.from), -e.out));
    }
  }

  lemma ReverseKeepsRecords(s: State, pool: string, e: Tx)
    requires pool in s.pools
    ensures Reverse(s, pool, e).txs == s.txs
  {
  }
}
