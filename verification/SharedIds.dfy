/** One id, two traders: the exchanges record a trade's id for whoever comes first, and the
    recovery table does not look at the holder. What that costs the trader, and exactly when. */
module SharedIds {
  import opened Exchange
  import opened ExchangeLaws
  import opened TwoPhase

  /** The trader's sale stands, and no credit of theirs does or can come to. */
  predicate Lost(w: World, p: Plan) {
    OwnLeg(w.local, p) == CommittedLeg && OwnLeg(w.remote, p) != PreparedLeg && OwnLeg(w.remote, p) != CommittedLeg
  }

  function TodoOf(phase: Phase): seq<LegCall> { if phase.Recovering? then phase.todo else [] }

  /** What working off the first call does to the trader's legs. */
  function LocalAfter(todo: seq<LegCall>, l: LegStatus): LegStatus {
    if todo == [] || l != PreparedLeg then l
    else
      match todo[0]
      case CallCommitLocal => CommittedLeg
      case CallAbortLocal => AbortedLeg
      case _ => l
  }

  function RemoteAfter(todo: seq<LegCall>, r: LegStatus): LegStatus {
    if todo == [] || r != PreparedLeg then r
    else
      match todo[0]
      case CallCommitRemote => CommittedLeg
      case CallAbortRemote => AbortedLeg
      case _ => r
  }

  predicate BothSound(p: Plan, w: World) {
    LegSound(w.local, p, p.localPool, false) && LegSound(w.remote, p, p.remotePool, true)
  }

  lemma OneCall(p: Plan, w: World, others: seq<Step>, block: int)
    requires BothSound(p, w) && OnlyOthers(p, w, others) && (w.phase.Recovering? || w.phase == Finished)
    ensures var v := ClientStep(Steps(w, p, others), p, block);
            && BothSound(p, v) && (v.phase.Recovering? || v.phase == Finished)
            && TodoOf(v.phase) == (if TodoOf(w.phase) == [] then [] else TodoOf(w.phase)[1..])
            && OwnLeg(v.local, p) == LocalAfter(TodoOf(w.phase), OwnLeg(w.local, p))
            && OwnLeg(v.remote, p) == RemoteAfter(TodoOf(w.phase), OwnLeg(w.remote, p))
  {
    hide Apply, LegSound, OwnLeg, Taken, OnlyOthers, Steps;
    OthersKeep(p, w, others);
    var u := Steps(w, p, others);
    OwnCall(u.local, p, block, p.localPool, false);
    OwnCall(u.remote, p, block, p.remotePool, true);
  }

  lemma TwoCalls(p: Plan, w: World, blocks: seq<int>, others: seq<seq<Step>>)
    requires |blocks| == |others| == 2 && OthersFit(p, w, blocks, others)
    ensures OnlyOthers(p, w, others[0])
    ensures var v := ClientStep(Steps(w, p, others[0]), p, blocks[0]);
            && OnlyOthers(p, v, others[1])
            && Finish(w, p, blocks, others) == ClientStep(Steps(v, p, others[1]), p, blocks[1])
  {
    hide OnlyOthers, Steps, ClientStep;
    var v := ClientStep(Steps(w, p, others[0]), p, blocks[0]);
    assert OthersFit(p, v, blocks[1..], others[1..]);
    assert Finish(v, p, blocks[1..], others[1..]) ==
           Finish(ClientStep(Steps(v, p, others[1]), p, blocks[1]), p, blocks[1..][1..], others[1..][1..]);
  }

  /** A recovery from a sale still pending, and its two calls, with others acting in between:
      the sale ends up standing without a credit exactly when, as `stateOf` shows beforehand,
      the id is recorded on the remote exchange in another's name and not aborted. */
  lemma MisledLosesIff(p: Plan, w: World, remoteFirst: bool, blocks: seq<int>, others: seq<seq<Step>>)
    requires BothSound(p, w) && MayRecover(w) && OwnLeg(w.local, p) == PreparedLeg
    requires |blocks| == |others| == 2 && OthersFit(p, Next(w, p, Recover(true, remoteFirst)), blocks, others)
    ensures Lost(Finish(Next(w, p, Recover(true, remoteFirst)), p, blocks, others), p) <==> Misled(w, p)
  {
    hide LegOf, OwnLeg, Taken, LegSound, OnlyOthers, OthersFit, Steps, ClientStep, Finish;
    OwnIsShown(w.local, p);
    OwnIsShown(w.remote, p);
    var u := Next(w, p, Recover(true, remoteFirst));
    TwoCalls(p, u, blocks, others);
    OneCall(p, u, others[0], blocks[0]);
    OneCall(p, ClientStep(Steps(u, p, others[0]), p, blocks[0]), others[1], blocks[1]);
  }

  /** Somebody else records the trade's id on the remote exchange, for a leg of either kind. */
  predicate TakesId(w: World, p: Plan, e: Event) {
    && (e.op.Prepare? || e.op.PrepareReceive?) && e.op.tx == p.tx && e.me != p.me
    && Apply(w.remote, e.me, e.block, e.op).1.PreparedAs?
  }

  lemma IdTaken(w: World, p: Plan, e: Event)
    requires TakesId(w, p, e)
    ensures var s := Apply(w.remote, e.me, e.block, e.op).0;
            && Taken(s, p) && LegOf(s, p.tx) == PreparedLeg && s.txs[p.tx].holder == e.me && e.op.pool in s.pools
    ensures Foreign(w.remote, p, e)
  {
    hide OutOf, ParseSide, AddReserve, AddTo, Row;
  }

  lemma HolderCalls(s: State, p: Plan, who: Key, block: int, pool: string)
    requires Taken(s, p) && s.txs[p.tx].holder == who && LegOf(s, p.tx) == PreparedLeg
    ensures var t := Apply(s, who, block, Commit(p.tx)).0; Taken(t, p) && LegOf(t, p.tx) == CommittedLeg
    ensures pool in s.pools ==>
              var t := Apply(s, who, block, Abort(pool, p.tx)).0; Taken(t, p) && LegOf(t, p.tx) == AbortedLeg
    ensures Apply(s, p.me, block, Commit(p.tx)) == (s, Refused("not holder"))
  {
    hide AddReserve, AddTo, Row;
  }

  function TakeId(w: World, p: Plan, e: Event): World { Next(w, p, OtherRemote(e)) }

  function HolderCommits(w: World, p: Plan, e: Event, block: int): World {
    Next(w, p, OtherRemote(Event(e.me, block, Commit(p.tx))))
  }

  function HolderAborts(w: World, p: Plan, e: Event, block: int): World
    requires e.op.Prepare? || e.op.PrepareReceive?
  {
    Next(w, p, OtherRemote(Event(e.me, block, Abort(e.op.pool, p.tx))))
  }

  /** In order and without a crash: the credit is refused as a duplicate and the trader backs
      out; when the other commits, a truthful reading says `Inconsistent`. */
  lemma BackedOutReadsInconsistent(d: Discipline, p: Plan, w: World, e: Event, b1: int, b2: int, b3: int)
    requires Inv(d, p, w) && w.phase.LocalReady? && TakesId(w, p, e)
    ensures var v := ClientStep(ClientStep(TakeId(w, p, e), p, b1), p, b2);
            && v.phase == Finished && OwnLeg(v.local, p) == AbortedLeg && OwnLeg(v.remote, p) == UnknownLeg
            && Reading(HolderCommits(v, p, e, b3), p, true) == Inconsistent
  {
    hide Apply, LegOf, OwnLeg, Taken, LegSound;
    IdTaken(w, p, e);
    var u := TakeId(w, p, e);
    OwnIsShown(u.remote, p);
    ReceiveLeg(u.remote, p, b1, u.phase.out);
    OwnCall(w.local, p, b2, p.localPool, false);
    var v := ClientStep(ClientStep(u, p, b1), p, b2);
    HolderCalls(v.remote, p, e.me, b3, e.op.pool);
    OwnIsShown(v.local, p);
  }

  /** A crash instead: recovery reads both legs prepared, commits the sale, and is refused the
      credit. When the other then aborts, it reads `Inconsistent`; when the other commits, it
      reads settled, and the trader has sold for nothing. */
  lemma CrashedIsMisled(d: Discipline, p: Plan, w: World, e: Event, b1: int, b2: int, b3: int)
    requires Inv(d, p, w) && w.phase.LocalReady? && TakesId(w, p, e)
    ensures var u := Next(TakeId(w, p, e), p, Crash);
            var v := ClientStep(ClientStep(Next(u, p, Recover(true, false)), p, b1), p, b2);
            && Misled(u, p) && Lost(v, p)
            && Apply(v.remote, p.me, b2, Commit(p.tx)).1 == Refused("not holder")
            && Reading(HolderAborts(v, p, e, b3), p, true) == Inconsistent
            && Reading(HolderCommits(v, p, e, b3), p, true) == Noop && Lost(HolderCommits(v, p, e, b3), p)
  {
    hide Apply, LegOf, OwnLeg, Taken, LegSound;
    IdTaken(w, p, e);
    var u := Next(TakeId(w, p, e), p, Crash);
    OwnIsShown(w.local, p);
    OwnIsShown(u.remote, p);
    OwnCall(w.local, p, b1, p.localPool, false);
    HolderCalls(u.remote, p, e.me, b2, e.op.pool);
    HolderCalls(u.remote, p, e.me, b3, e.op.pool);
    var v := ClientStep(ClientStep(Next(u, p, Recover(true, false)), p, b1), p, b2);
    assert v.remote == u.remote;
    OwnIsShown(v.local, p);
    OwnIsShown(HolderCommits(v, p, e, b3).remote, p);
  }

  /** A trade to which either happens: the pool's owner records the id "x" in "q". */
  lemma SharedIdHappens() returns (p: Plan, w: World, e: Event)
    ensures Begins(p, w) && TakesId(ClientStep(w, p, 0), p, e)
    ensures Inv(TruthfulReads, p, ClientStep(w, p, 0)) && ClientStep(w, p, 0).phase.LocalReady?
  {
    hide LegOf, OwnLeg, Begins, LegSound, Inv;
    p := Plan("m", "x", "p", "A", 2, 9, "q", "A", "l");
    w := World(Example(0, 5, Bal(2, 0), map[]), TwoPhase.Linked(), Start);
    e := Event("o", 0, PrepareReceive("q", "x", "A", 2, 9, "l"));
    NobodyRecorded(p, w);
    BeginsKeeps(TruthfulReads, p, w);
    ClientKeepsInv(TruthfulReads, p, w, 0);
    FirstCall(w, p);
    OwnerRecords(e);
  }

  lemma OwnerRecords(e: Event)
    requires e == Event("o", 0, PrepareReceive("q", "x", "A", 2, 9, "l"))
    ensures Apply(TwoPhase.Linked(), e.me, e.block, e.op).1.PreparedAs?
  {
    hide ParseSide, OutOf, Credit;
    SidesParse();
    assert Apply(TwoPhase.Linked(), "o", 0, e.op).1 == PreparedAs("x", 2, B, 9);
  }
}
