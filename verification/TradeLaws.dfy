/** The cross-shard trade run without interruption: what is asked of each exchange, and what
    each records in the end. */
module TradeLaws {
  import opened Exchange
  import opened TwoPhase

  /** The client after one more answered call, in these two states. */
  function Answered(w: World, local: State, remote: State, phase: Phase): World {
    w.(local := local, remote := remote, phase := phase)
  }

  /** A sale that is refused ends the trade; one that is accepted is offered, at what it buys,
      to the other exchange. Refused there it is taken back here; accepted there it is
      committed here and then there. */
  lemma RunsToEnd(w: World, p: Plan, b: int)
    requires w.phase == Start
    ensures var (l, sold) := Apply(w.local, p.me, b, Prepare(p.localPool, p.tx, p.side, p.amount, p.expiry));
            var w1 := Next(w, p, Client(b));
            if !sold.PreparedAs? then w1 == Answered(w, l, w.remote, Finished)
            else
              var receive := PrepareReceive(p.remotePool, p.tx, p.remoteSide, sold.out, p.expiry, p.link);
              var (r, credited) := Apply(w.remote, p.me, b, receive);
              var w2 := Next(w1, p, Client(b));
              if !credited.PreparedAs? then
                Next(w2, p, Client(b)) == Answered(w, Apply(l, p.me, b, Abort(p.localPool, p.tx)).0, r, Finished)
              else
                Next(Next(w2, p, Client(b)), p, Client(b)) ==
                Answered(w, Apply(l, p.me, b, Commit(p.tx)).0, Apply(r, p.me, b, Commit(p.tx)).0, Finished)
  {
    hide Apply;
  }

  /** Both legs are recorded in the trader's name, the one crediting for what the other buys. */
  predicate Traded(p: Plan, l: State, r: State) {
    && p.tx in l.txs && p.tx in r.txs
    && l.txs[p.tx].holder == p.me == r.txs[p.tx].holder
    && l.txs[p.tx].status == Committed == r.txs[p.tx].status
    && l.txs[p.tx].poolId == p.localPool && r.txs[p.tx].poolId == p.remotePool
    && l.txs[p.tx].amount == p.amount && r.txs[p.tx].amount == l.txs[p.tx].out
    && !l.txs[p.tx].receive && r.txs[p.tx].receive
  }

  lemma PrepareRecords(s: State, p: Plan, b: int)
    ensures var (t, reply) := Apply(s, p.me, b, Prepare(p.localPool, p.tx, p.side, p.amount, p.expiry));
            if reply.PreparedAs? then
              p.tx !in s.txs && p.tx in t.txs && t.txs[p.tx].holder == p.me && t.txs[p.tx].status == Prepared &&
              t.txs[p.tx].poolId == p.localPool && t.txs[p.tx].amount == p.amount && t.txs[p.tx].out == reply.out &&
              !t.txs[p.tx].receive && p.localPool in t.pools
            else t == s
  {
    hide OutOf, ParseSide, AddReserve, AddTo, Row;
  }

  lemma ReceiveRecords(s: State, p: Plan, b: int, n: int)
    ensures var (t, reply) := Apply(s, p.me, b, PrepareReceive(p.remotePool, p.tx, p.remoteSide, n, p.expiry, p.link));
            if reply.PreparedAs? then
              p.tx in t.txs && t.txs[p.tx].holder == p.me && t.txs[p.tx].status == Prepared &&
              t.txs[p.tx].poolId == p.remotePool && t.txs[p.tx].amount == n && t.txs[p.tx].receive
            else t == s
  {
    hide OutOf, ParseSide, AddReserve, AddTo, Row;
  }

  lemma CommitRecords(s: State, p: Plan, b: int)
    requires p.tx in s.txs && s.txs[p.tx].holder == p.me && s.txs[p.tx].status == Prepared
    ensures var t := Apply(s, p.me, b, Commit(p.tx)).0;
            p.tx in t.txs && t.txs[p.tx] == s.txs[p.tx].(status := Committed)
  {
  }

  lemma AbortRecords(s: State, p: Plan, b: int)
    requires p.tx in s.txs && s.txs[p.tx].holder == p.me && s.txs[p.tx].status == Prepared && p.localPool in s.pools
    ensures var t := Apply(s, p.me, b, Abort(p.localPool, p.tx)).0;
            p.tx in t.txs && t.txs[p.tx] == s.txs[p.tx].(status := Aborted)
  {
    hide AddReserve, AddTo, Row;
  }

  /** Left alone the client finishes: nothing recorded anywhere, or the sale recorded and
      aborted, or both legs committed. */
  lemma TradeCompletes(w: World, p: Plan, b: int)
    requires w.phase == Start
    ensures var w1 := Next(w, p, Client(b));
            var w3 := Next(Next(w1, p, Client(b)), p, Client(b));
            var w4 := Next(w3, p, Client(b));
            || w1 == w.(phase := Finished)
            || (w3.phase == Finished && w3.remote == w.remote && p.tx in w3.local.txs &&
                w3.local.txs[p.tx].status == Aborted)
            || (w4.phase == Finished && Traded(p, w4.local, w4.remote))
  {
    hide Apply;
    RunsToEnd(w, p, b);
    PrepareRecords(w.local, p, b);
    var (l, sold) := Apply(w.local, p.me, b, Prepare(p.localPool, p.tx, p.side, p.amount, p.expiry));
    if sold.PreparedAs? {
      ReceiveRecords(w.remote, p, b, sold.out);
      AbortRecords(l, p, b);
      CommitRecords(l, p, b);
      var (r, credited) := Apply(w.remote, p.me, b,
        PrepareReceive(p.remotePool, p.tx, p.remoteSide, sold.out, p.expiry, p.link));
      if credited.PreparedAs? {
        CommitRecords(r, p, b);
      }
    }
  }
}
