/** A cross-shard trade: one client driving a leg on each of two exchanges, crashing and
    recovering, while anyone else uses both exchanges. */
module TwoPhase {
  import opened Exchange
  import opened ExchangeLaws

  datatype LegStatus = UnknownLeg | PreparedLeg | CommittedLeg | AbortedLeg

  datatype RecoveryAction = CommitBoth | CommitLocal | CommitRemote | AbortLocal | AbortRemote | Noop | Inconsistent

  /** The recovery table. */
  function DecideRecovery(local: LegStatus, remote: LegStatus): RecoveryAction {
    match local
    case PreparedLeg =>
      (match remote
       case UnknownLeg => AbortLocal
       case PreparedLeg => CommitBoth
       case CommittedLeg => CommitLocal
       case AbortedLeg => AbortLocal)
    case CommittedLeg =>
      (match remote
       case UnknownLeg => Inconsistent
       case PreparedLeg => CommitRemote
       case CommittedLeg => Noop
       case AbortedLeg => Inconsistent)
    case AbortedLeg =>
      (match remote
       case UnknownLeg => Noop
       case PreparedLeg => AbortRemote
       case CommittedLeg => Inconsistent
       case AbortedLeg => Noop)
    case UnknownLeg => Noop
  }

  datatype TradeOutcome = TradeOutcome(local: LegStatus, remote: LegStatus, action: RecoveryAction, settled: bool)

  function EvaluateTrade(local: LegStatus, remote: LegStatus): TradeOutcome {
    var action := DecideRecovery(local, remote);
    TradeOutcome(local, remote, action, action == Noop || action == Inconsistent)
  }

  /** What `stateOf` shows of a leg. */
  function LegOf(s: State, tx: string): LegStatus {
    if tx !in s.txs then UnknownLeg
    else
      match s.txs[tx].status
      case Prepared => PreparedLeg
      case Committed => CommittedLeg
      case Aborted => AbortedLeg
  }

  // The client

  datatype Plan = Plan(me: Key, tx: string, localPool: string, side: string, amount: int, expiry: int,
                       remotePool: string, remoteSide: string, link: string)

  datatype LegCall = CallCommitLocal | CallCommitRemote | CallAbortLocal | CallAbortRemote

  /** Where the client is; `Finished` and `Crashed` are where recovery may begin. */
  datatype Phase =
    | Start
    | LocalReady(out: int)
    | BothReady
    | LocalDone
    | MustAbort
    | Finished
    | Crashed
    | Recovering(todo: seq<LegCall>)

  datatype World = World(local: State, remote: State, phase: Phase)

  datatype Step =
    | Client(block: int)
    | Crash
    | Recover(reachable: bool, remoteFirst: bool)
    | OtherLocal(e: Event)
    | OtherRemote(e: Event)

  function CallsFor(action: RecoveryAction, remoteFirst: bool): seq<LegCall> {
    match action
    case CommitBoth => if remoteFirst then [CallCommitRemote, CallCommitLocal] else [CallCommitLocal, CallCommitRemote]
    case CommitLocal => [CallCommitLocal]
    case CommitRemote => [CallCommitRemote]
    case AbortLocal => [CallAbortLocal]
    case AbortRemote => [CallAbortRemote]
    case Noop => []
    case Inconsistent => []
  }

  function OnLocal(w: World, p: Plan, block: int, op: Op): World { w.(local := Apply(w.local, p.me, block, op).0) }

  function OnRemote(w: World, p: Plan, block: int, op: Op): World { w.(remote := Apply(w.remote, p.me, block, op).0) }

  function Call(w: World, p: Plan, block: int, c: LegCall): World {
    match c
    case CallCommitLocal => OnLocal(w, p, block, Commit(p.tx))
    case CallCommitRemote => OnRemote(w, p, block, Commit(p.tx))
    case CallAbortLocal => OnLocal(w, p, block, Abort(p.localPool, p.tx))
    case CallAbortRemote => OnRemote(w, p, block, Abort(p.remotePool, p.tx))
  }

  function PrepareOp(p: Plan): Op { Prepare(p.localPool, p.tx, p.side, p.amount, p.expiry) }

  function ReceiveOp(p: Plan, out: int): Op { PrepareReceive(p.remotePool, p.tx, p.remoteSide, out, p.expiry, p.link) }

  /** The five-call protocol, one answered call at a time; recovery works off its calls. */
  function ClientStep(w: World, p: Plan, block: int): World {
    match w.phase
    case Start =>
      (match Apply(w.local, p.me, block, PrepareOp(p)).1
       case PreparedAs(_, out, _, _) => OnLocal(w, p, block, PrepareOp(p)).(phase := LocalReady(out))
       case _ => OnLocal(w, p, block, PrepareOp(p)).(phase := Finished))
    case LocalReady(out) =>
      (match Apply(w.remote, p.me, block, ReceiveOp(p, out)).1
       case PreparedAs(_, _, _, _) => OnRemote(w, p, block, ReceiveOp(p, out)).(phase := BothReady)
       case _ => OnRemote(w, p, block, ReceiveOp(p, out)).(phase := MustAbort))
    case BothReady => Call(w, p, block, CallCommitLocal).(phase := LocalDone)
    case LocalDone => Call(w, p, block, CallCommitRemote).(phase := Finished)
    case MustAbort => Call(w, p, block, CallAbortLocal).(phase := Finished)
    case Recovering(todo) =>
      if todo == [] then w.(phase := Finished)
      else Call(w, p, block, todo[0]).(phase := Recovering(todo[1..]))
    case Finished => w
    case Crashed => w
  }

  /** What recovery reads: an exchange that cannot be reached shows an unknown leg. */
  function Reading(w: World, p: Plan, reachable: bool): RecoveryAction {
    DecideRecovery(LegOf(w.local, p.tx), if reachable then LegOf(w.remote, p.tx) else UnknownLeg)
  }

  function Next(w: World, p: Plan, step: Step): World {
    match step
    case Client(block) => ClientStep(w, p, block)
    case Crash => w.(phase := Crashed)
    case Recover(reachable, remoteFirst) =>
      if MayRecover(w) then
        w.(phase := Recovering(CallsFor(Reading(w, p, reachable), remoteFirst)))
      else w
    case OtherLocal(e) => w.(local := Apply(w.local, e.me, e.block, e.op).0)
    case OtherRemote(e) => w.(remote := Apply(w.remote, e.me, e.block, e.op).0)
  }

  /** The id is public, and the exchanges record it for whoever comes first: the record
      under it may be somebody else's. */
  predicate Taken(s: State, p: Plan) { p.tx in s.txs && s.txs[p.tx].holder != p.me }

  /** The trader's own leg, whatever `stateOf` shows under the id. */
  function OwnLeg(s: State, p: Plan): LegStatus { if Taken(s, p) then UnknownLeg else LegOf(s, p.tx) }

  /** Anything by anyone, but for acting on the trade's id with the trader's key. */
  predicate Bystander(p: Plan, e: Event) {
    match e.op
    case Prepare(_, tx, _, _, _) => tx != p.tx || e.me != p.me
    case PrepareReceive(_, tx, _, _, _, _) => tx != p.tx || e.me != p.me
    case Commit(tx) => tx != p.tx || e.me != p.me
    case Abort(_, tx) => tx != p.tx || e.me != p.me
    case _ => true
  }

  predicate ExpiredAbort(s: State, p: Plan, e: Event) {
    e.op.Abort? && e.op.tx == p.tx && e.block >= p.expiry && OwnLeg(s, p) == PreparedLeg
  }

  /** What others may do while the trade runs: anything, recording its id included, except
      to abort a leg of it once expired. */
  predicate Foreign(s: State, p: Plan, e: Event) { Bystander(p, e) && !ExpiredAbort(s, p, e) }

  /** Either every status read is truthful, or every commit goes to the local leg first. */
  datatype Discipline = TruthfulReads | LocalFirst

  /** A recovery would take somebody else's record on the remote exchange for the credit:
      `stateOf` shows the id in another's name, and not aborted. */
  predicate Misled(w: World, p: Plan) {
    OwnLeg(w.local, p) == PreparedLeg && Taken(w.remote, p) && LegOf(w.remote, p.tx) != AbortedLeg
  }

  predicate MayRecover(w: World) { w.phase == Crashed || w.phase == Finished }

  predicate Allowed(d: Discipline, p: Plan, w: World, step: Step) {
    match step
    case OtherLocal(e) => Foreign(w.local, p, e)
    case OtherRemote(e) => Foreign(w.remote, p, e)
    case Recover(reachable, remoteFirst) =>
      && (if d == TruthfulReads then reachable else !remoteFirst)
      && (MayRecover(w) && reachable ==> !Misled(w, p))
    case _ => true
  }

  // The invariant

  /** The trader's own record on one exchange, if there is one. */
  predicate LegSound(s: State, p: Plan, pool: string, receive: bool) {
    p.tx in s.txs && s.txs[p.tx].holder == p.me ==>
      var t := s.txs[p.tx];
      t.poolId == pool && t.expiryBlock == p.expiry && t.receive == receive && pool in s.pools
  }

  predicate SafePair(d: Discipline, l: LegStatus, r: LegStatus) {
    match l
    case UnknownLeg => r == UnknownLeg
    case PreparedLeg => r == UnknownLeg || r == PreparedLeg || (r == CommittedLeg && d == TruthfulReads)
    case CommittedLeg => r == PreparedLeg || r == CommittedLeg
    case AbortedLeg => r == UnknownLeg || (d == LocalFirst && (r == PreparedLeg || r == AbortedLeg))
  }

  /** No leg is reversible any more, and both committed or neither did. */
  predicate Done(l: LegStatus, r: LegStatus) {
    l != PreparedLeg && r != PreparedLeg && (l == CommittedLeg <==> r == CommittedLeg)
  }

  /** Do the calls left settle the legs as they stand? */
  predicate TodoSettles(d: Discipline, todo: seq<LegCall>, l: LegStatus, r: LegStatus) {
    || l == UnknownLeg
    || (todo == [] && Done(l, r))
    || (todo == [CallCommitLocal, CallCommitRemote] && l == PreparedLeg && r == PreparedLeg)
    || (todo == [CallCommitRemote, CallCommitLocal] && l == PreparedLeg && r == PreparedLeg && d == TruthfulReads)
    || (todo == [CallCommitLocal] && l == PreparedLeg && r == CommittedLeg)
    || (todo == [CallCommitRemote] && l == CommittedLeg && r == PreparedLeg)
    || (todo == [CallAbortLocal] && l == PreparedLeg && r == UnknownLeg)
    || (todo == [CallAbortRemote] && l == AbortedLeg && (r == PreparedLeg || r == UnknownLeg))
  }

  /** They do, unless the remote leg could not be reached. */
  predicate TodoFits(d: Discipline, todo: seq<LegCall>, l: LegStatus, r: LegStatus) {
    || TodoSettles(d, todo, l, r)
    || (d == LocalFirst && todo == [] && l != PreparedLeg)
    || (d == LocalFirst && todo == [CallAbortLocal] && l == PreparedLeg && r == PreparedLeg)
  }

  predicate PhaseFits(d: Discipline, phase: Phase, l: LegStatus, r: LegStatus) {
    match phase
    case Start => l == UnknownLeg
    case LocalReady(_) => l == PreparedLeg && r == UnknownLeg
    case BothReady => l == PreparedLeg && r == PreparedLeg
    case LocalDone => l == CommittedLeg && r == PreparedLeg
    case MustAbort => l == PreparedLeg && r == UnknownLeg
    case Recovering(todo) => TodoFits(d, todo, l, r)
    case Finished => l != PreparedLeg && (d == TruthfulReads ==> Done(l, r))
    case Crashed => true
  }

  predicate Inv(d: Discipline, p: Plan, w: World) {
    && LegSound(w.local, p, p.localPool, false) && LegSound(w.remote, p, p.remotePool, true)
    && SafePair(d, OwnLeg(w.local, p), OwnLeg(w.remote, p))
    && PhaseFits(d, w.phase, OwnLeg(w.local, p), OwnLeg(w.remote, p))
  }

  // One exchange at a time

  /** Pools are never removed and a recorded leg keeps everything but its status. */
  lemma RecordsPersist(s: State, me: Key, block: int, op: Op, tx: string, pool: string)
    ensures var t := Apply(s, me, block, op).0;
            && (pool in s.pools ==> pool in t.pools)
            && (tx in s.txs ==> tx in t.txs && t.txs[tx] == s.txs[tx].(status := t.txs[tx].status))
  {
    hide OutOf, ParseSide, AddReserve, AddTo, Row;
  }

  /** A leg of the trader's own is what `stateOf` shows. */
  lemma OwnIsShown(s: State, p: Plan)
    ensures OwnLeg(s, p) != UnknownLeg ==> !Taken(s, p) && LegOf(s, p.tx) == OwnLeg(s, p)
    ensures !Taken(s, p) ==> LegOf(s, p.tx) == OwnLeg(s, p)
    ensures Taken(s, p) ==> OwnLeg(s, p) == UnknownLeg && LegOf(s, p.tx) != UnknownLeg
  {
  }

  /** Bystanders can at most abort the trader's leg, and take the id where it is free. */
  lemma BystanderLeg(s: State, p: Plan, e: Event, pool: string, receive: bool)
    requires Bystander(p, e) && LegSound(s, p, pool, receive)
    ensures var t := Apply(s, e.me, e.block, e.op).0;
            && LegSound(t, p, pool, receive) && (Taken(s, p) ==> Taken(t, p))
            && (OwnLeg(t, p) == OwnLeg(s, p) || (ExpiredAbort(s, p, e) && OwnLeg(t, p) == AbortedLeg))
  {
    hide OutOf, ParseSide, AddReserve, AddTo, Row;
    RecordsPersist(s, e.me, e.block, e.op, p.tx, pool);
  }

  /** Others leave the trader's leg exactly as it is. */
  lemma ForeignLeavesLeg(s: State, p: Plan, e: Event, pool: string, receive: bool)
    requires Foreign(s, p, e) && LegSound(s, p, pool, receive)
    ensures var t := Apply(s, e.me, e.block, e.op).0;
            LegSound(t, p, pool, receive) && OwnLeg(t, p) == OwnLeg(s, p) && (Taken(s, p) ==> Taken(t, p))
  {
    hide Apply, LegSound, OwnLeg, Bystander, ExpiredAbort, Taken;
    BystanderLeg(s, p, e, pool, receive);
  }

  /** What a call of the trader does to their own leg; a record in another's name stays so. */
  lemma OwnCall(s: State, p: Plan, block: int, pool: string, receive: bool)
    requires LegSound(s, p, pool, receive)
    ensures var t, l := Apply(s, p.me, block, Commit(p.tx)).0, OwnLeg(s, p);
            && LegSound(t, p, pool, receive) && OwnLeg(t, p) == (if l == PreparedLeg then CommittedLeg else l)
            && (Taken(t, p) <==> Taken(s, p)) && (Taken(s, p) ==> t == s)
    ensures var t, l := Apply(s, p.me, block, Abort(pool, p.tx)).0, OwnLeg(s, p);
            && LegSound(t, p, pool, receive) && OwnLeg(t, p) == (if l == PreparedLeg then AbortedLeg else l)
            && (Taken(t, p) <==> Taken(s, p))
            && (Taken(s, p) && LegOf(t, p.tx) == CommittedLeg ==> LegOf(s, p.tx) == CommittedLeg)
  {
    hide AddReserve, AddTo, Row;
  }

  lemma PrepareLeg(s: State, p: Plan, block: int)
    requires OwnLeg(s, p) == UnknownLeg
    ensures var (t, reply) := Apply(s, p.me, block, PrepareOp(p));
            && LegSound(t, p, p.localPool, false)
            && OwnLeg(t, p) == if reply.PreparedAs? then PreparedLeg else UnknownLeg
  {
    hide OutOf, ParseSide, AddReserve, AddTo, Row;
  }

  lemma ReceiveLeg(s: State, p: Plan, block: int, out: int)
    requires OwnLeg(s, p) == UnknownLeg
    ensures var (t, reply) := Apply(s, p.me, block, ReceiveOp(p, out));
            && LegSound(t, p, p.remotePool, true) && (Taken(s, p) ==> t == s && !reply.PreparedAs?)
            && OwnLeg(t, p) == if reply.PreparedAs? then PreparedLeg else UnknownLeg
  {
    hide OutOf, ParseSide, AddReserve, AddTo, Row;
  }

  // Steps

  lemma CallKeepsInv(d: Discipline, p: Plan, w: World, block: int)
    requires Inv(d, p, w) && w.phase.Recovering? && w.phase.todo != []
    ensures var v := Call(w, p, block, w.phase.todo[0]).(phase := Recovering(w.phase.todo[1..]));
            && Inv(d, p, v)
            && (TodoSettles(d, w.phase.todo, OwnLeg(w.local, p), OwnLeg(w.remote, p)) ==>
                TodoSettles(d, v.phase.todo, OwnLeg(v.local, p), OwnLeg(v.remote, p)))
  {
    hide Apply, LegSound, OwnLeg;
    OwnCall(w.local, p, block, p.localPool, false);
    OwnCall(w.remote, p, block, p.remotePool, true);
  }

  lemma ClientKeepsInv(d: Discipline, p: Plan, w: World, block: int)
    requires Inv(d, p, w)
    ensures Inv(d, p, ClientStep(w, p, block))
  {
    hide Apply, LegSound, OwnLeg, TodoSettles;
    match w.phase
    case Start => PrepareLeg(w.local, p, block);
    case LocalReady(out) => ReceiveLeg(w.remote, p, block, out);
    case BothReady => OwnCall(w.local, p, block, p.localPool, false);
    case LocalDone => OwnCall(w.remote, p, block, p.remotePool, true);
    case MustAbort => OwnCall(w.local, p, block, p.localPool, false);
    case Recovering(todo) =>
      if todo == [] {
        NothingLeft(d, OwnLeg(w.local, p), OwnLeg(w.remote, p));
      } else {
        CallKeepsInv(d, p, w, block);
      }
    case Finished =>
    case Crashed =>
  }

  lemma NothingLeft(d: Discipline, l: LegStatus, r: LegStatus)
    requires SafePair(d, l, r)
    ensures TodoSettles(d, [], l, r) <==> Done(l, r)
  {
  }

  /** A reading that is not misled calls for what settles the legs. */
  lemma ReadingSettles(d: Discipline, p: Plan, w: World, remoteFirst: bool)
    requires SafePair(d, OwnLeg(w.local, p), OwnLeg(w.remote, p)) && !Misled(w, p)
    requires d == TruthfulReads || !remoteFirst
    ensures TodoSettles(d, CallsFor(Reading(w, p, true), remoteFirst), OwnLeg(w.local, p), OwnLeg(w.remote, p))
  {
    hide LegOf, OwnLeg;
    OwnIsShown(w.local, p);
    OwnIsShown(w.remote, p);
  }

  lemma RecoverKeepsInv(d: Discipline, p: Plan, w: World, reachable: bool, remoteFirst: bool)
    requires Inv(d, p, w) && Allowed(d, p, w, Recover(reachable, remoteFirst))
    ensures Inv(d, p, Next(w, p, Recover(reachable, remoteFirst)))
  {
    hide LegOf, LegSound, OwnLeg, TodoSettles, Misled;
    if MayRecover(w) {
      if reachable {
        ReadingSettles(d, p, w, remoteFirst);
      } else {
        OwnIsShown(w.local, p);
        UnreachedFits(OwnLeg(w.local, p), OwnLeg(w.remote, p));
        UnknownFits(d, CallsFor(Reading(w, p, false), remoteFirst), OwnLeg(w.remote, p));
      }
    }
  }

  lemma UnreachedFits(l: LegStatus, r: LegStatus)
    requires SafePair(LocalFirst, l, r)
    ensures TodoFits(LocalFirst, CallsFor(DecideRecovery(l, UnknownLeg), false), l, r)
  {
  }

  lemma UnknownFits(d: Discipline, todo: seq<LegCall>, r: LegStatus)
    ensures TodoSettles(d, todo, UnknownLeg, r)
  {
  }

  lemma StepKeepsInv(d: Discipline, p: Plan, w: World, step: Step)
    requires Inv(d, p, w) && Allowed(d, p, w, step)
    ensures Inv(d, p, Next(w, p, step))
  {
    hide Apply, LegSound, OwnLeg, ClientStep, Foreign, TodoFits;
    match step
    case Client(block) => ClientKeepsInv(d, p, w, block);
    case Crash =>
    case Recover(reachable, remoteFirst) => RecoverKeepsInv(d, p, w, reachable, remoteFirst);
    case OtherLocal(e) => ForeignLeavesLeg(w.local, p, e, p.localPool, false);
    case OtherRemote(e) => ForeignLeavesLeg(w.remote, p, e, p.remotePool, true);
  }

  // Runs

  function Steps(w: World, p: Plan, steps: seq<Step>): World {
    if steps == [] then w else Next(Steps(w, p, steps[..|steps| - 1]), p, steps[|steps| - 1])
  }

  /** Every step was allowed when it came. */
  predicate AllAllowed(d: Discipline, p: Plan, w: World, steps: seq<Step>) {
    steps != [] ==>
      var n := |steps| - 1;
      AllAllowed(d, p, w, steps[..n]) && Allowed(d, p, Steps(w, p, steps[..n]), steps[n])
  }

  /** A trade begins with an id the trader has not used. Others may have. */
  predicate Begins(p: Plan, w: World) {
    w.phase == Start && OwnLeg(w.local, p) == UnknownLeg && OwnLeg(w.remote, p) == UnknownLeg
  }

  lemma BeginsKeeps(d: Discipline, p: Plan, w: World)
    requires Begins(p, w)
    ensures Inv(d, p, w)
  {
  }

  lemma {:induction false} RunKeepsInv(d: Discipline, p: Plan, w: World, steps: seq<Step>)
    requires Begins(p, w) && AllAllowed(d, p, w, steps)
    ensures Inv(d, p, Steps(w, p, steps))
  {
    hide Next, Inv, Allowed, Begins;
    if steps == [] {
      BeginsKeeps(d, p, w);
    } else {
      var n := |steps| - 1;
      RunKeepsInv(d, p, w, steps[..n]);
      StepKeepsInv(d, p, Steps(w, p, steps[..n]), steps[n]);
    }
  }

  /** The trader's legs never disagree: whatever the interleaving, whoever records the id and
      wherever the client crashes, one leg is never committed while the other is aborted or
      was never prepared. Where the id is the trader's on the local exchange, a truthful
      reading says `Inconsistent` exactly when the trader has backed out and somebody else's
      record under the id, on the remote one, has committed. What a recovery reads when it
      cannot reach the remote exchange is another matter: see `UnreachableReadIff`. */
  lemma LegsNeverSplit(d: Discipline, p: Plan, w: World, steps: seq<Step>)
    requires Begins(p, w) && AllAllowed(d, p, w, steps)
    ensures var v := Steps(w, p, steps);
            var l, r := OwnLeg(v.local, p), OwnLeg(v.remote, p);
            && (l == CommittedLeg ==> r == PreparedLeg || r == CommittedLeg)
            && (r == CommittedLeg ==> l == PreparedLeg || l == CommittedLeg)
            && (!Taken(v.local, p) ==>
                  (Reading(v, p, true) == Inconsistent <==>
                   l == AbortedLeg && Taken(v.remote, p) && LegOf(v.remote, p.tx) == CommittedLeg))
  {
    hide Steps, LegOf, LegSound, OwnLeg, Taken, PhaseFits, AllAllowed;
    RunKeepsInv(d, p, w, steps);
    OwnIsShown(Steps(w, p, steps).local, p);
    OwnIsShown(Steps(w, p, steps).remote, p);
  }

  /** The outcome a client reads truthfully off both exchanges, at any moment of any run: when it
      says settled, no leg of the trader's is still reversible, and both committed or neither did.
      Where nobody else has recorded the id, it says so exactly then, and there is nothing to do. */
  lemma SettledMeansDone(d: Discipline, p: Plan, w: World, steps: seq<Step>)
    requires Begins(p, w) && AllAllowed(d, p, w, steps)
    ensures var v := Steps(w, p, steps);
            var l, r := OwnLeg(v.local, p), OwnLeg(v.remote, p);
            var o := EvaluateTrade(LegOf(v.local, p.tx), LegOf(v.remote, p.tx));
            && (o.settled ==> Done(l, r))
            && (!Taken(v.local, p) && !Taken(v.remote, p) ==>
                  (o.settled <==> l != PreparedLeg && r != PreparedLeg) && (o.settled ==> o.action == Noop))
  {
    hide Steps, LegOf, LegSound, OwnLeg, Taken, PhaseFits, AllAllowed;
    RunKeepsInv(d, p, w, steps);
    OwnIsShown(Steps(w, p, steps).local, p);
    OwnIsShown(Steps(w, p, steps).remote, p);
  }

  /** What a client that has made all its calls may conclude: its local leg is settled, and the
      whole trade exactly when the remote leg is not left prepared; with truthful reads, always. */
  lemma FinishedMeansDone(d: Discipline, p: Plan, w: World, steps: seq<Step>)
    requires Begins(p, w) && AllAllowed(d, p, w, steps) && Steps(w, p, steps).phase == Finished
    ensures var v := Steps(w, p, steps);
            var l, r := OwnLeg(v.local, p), OwnLeg(v.remote, p);
            && l != PreparedLeg && (Done(l, r) <==> r != PreparedLeg) && (d == TruthfulReads ==> Done(l, r))
            && (Done(l, r) && !Taken(v.local, p) && !Taken(v.remote, p) ==> Reading(v, p, true) == Noop)
  {
    hide Steps, LegOf, LegSound, OwnLeg, Taken, AllAllowed;
    RunKeepsInv(d, p, w, steps);
    OwnIsShown(Steps(w, p, steps).local, p);
    OwnIsShown(Steps(w, p, steps).remote, p);
  }

  /** A recovery that cannot reach the remote exchange reads `Inconsistent` exactly when the local
      leg has committed, though the legs then agree. It reads settled and stops; the truth
      differs exactly when the remote leg is still prepared. */
  lemma UnreachableReadIff(d: Discipline, p: Plan, w: World, steps: seq<Step>)
    requires Begins(p, w) && AllAllowed(d, p, w, steps)
    ensures var v := Steps(w, p, steps);
            var l, r := LegOf(v.local, p.tx), LegOf(v.remote, p.tx);
            && (Reading(v, p, false) == Inconsistent <==> l == CommittedLeg)
            && (l == CommittedLeg && !Taken(v.local, p) ==>
                  !Taken(v.remote, p) && (r == PreparedLeg || r == CommittedLeg))
            && (EvaluateTrade(l, UnknownLeg).settled <==> l != PreparedLeg)
            && (!Taken(v.remote, p) && !Taken(v.local, p) ==>
                  (EvaluateTrade(l, UnknownLeg).settled != EvaluateTrade(l, r).settled <==>
                   l != PreparedLeg && r == PreparedLeg))
  {
    hide Steps, LegOf, LegSound, OwnLeg, Taken, PhaseFits, AllAllowed;
    RunKeepsInv(d, p, w, steps);
    OwnIsShown(Steps(w, p, steps).local, p);
    OwnIsShown(Steps(w, p, steps).remote, p);
  }

  lemma StepsSnoc(w: World, p: Plan, steps: seq<Step>, step: Step)
    ensures Steps(w, p, steps + [step]) == Next(Steps(w, p, steps), p, step)
  {
    hide Next;
    assert (steps + [step])[..|steps|] == steps;
  }

  lemma AllowedSnoc(d: Discipline, p: Plan, w: World, steps: seq<Step>, step: Step)
    ensures AllAllowed(d, p, w, steps + [step]) <==>
            AllAllowed(d, p, w, steps) && Allowed(d, p, Steps(w, p, steps), step)
  {
    hide Next, Allowed, Steps;
    assert (steps + [step])[..|steps|] == steps;
  }

  /** The client makes its calls in order and crashes after the local commit; reconnecting,
      it cannot reach the remote exchange. */
  function InOrderCrash(block: int): seq<Step> {
    [Client(block), Client(block)] + [Client(block)] + [Crash] + [Recover(false, false)]
  }

  /** Following the protocol in order can read `Inconsistent`: the trade counts as settled
      and recovery stops, with the remote leg still prepared. */
  lemma InOrderCrashReadsInconsistent(p: Plan, w: World, block: int)
    requires Begins(p, w) && Steps(w, p, [Client(block), Client(block)]).phase == BothReady
    ensures AllAllowed(LocalFirst, p, w, InOrderCrash(block))
    ensures var v := Steps(w, p, InOrderCrash(block));
            && OwnLeg(v.local, p) == CommittedLeg && OwnLeg(v.remote, p) == PreparedLeg
            && Reading(v, p, false) == Inconsistent && v.phase == Recovering([])
            && EvaluateTrade(LegOf(v.local, p.tx), UnknownLeg).settled
  {
    hide Steps, Apply, LegOf, LegSound, OwnLeg, AllAllowed;
    var start := [Client(block), Client(block)];
    TwoCallsAllowed(LocalFirst, p, w, block);
    RunKeepsInv(LocalFirst, p, w, start);
    OneMore(LocalFirst, p, w, start, Client(block));
    OneMore(LocalFirst, p, w, start + [Client(block)], Crash);
    OneMore(LocalFirst, p, w, start + [Client(block)] + [Crash], Recover(false, false));
    OwnCall(Steps(w, p, start).local, p, block, p.localPool, false);
    OwnIsShown(Steps(w, p, InOrderCrash(block)).local, p);
  }

  lemma OneMore(d: Discipline, p: Plan, w: World, steps: seq<Step>, step: Step)
    ensures Steps(w, p, steps + [step]) == Next(Steps(w, p, steps), p, step)
    ensures AllAllowed(d, p, w, steps + [step]) <==>
            AllAllowed(d, p, w, steps) && Allowed(d, p, Steps(w, p, steps), step)
  {
    StepsSnoc(w, p, steps, step);
    AllowedSnoc(d, p, w, steps, step);
  }

  lemma TwoCallsAllowed(d: Discipline, p: Plan, w: World, block: int)
    ensures AllAllowed(d, p, w, [Client(block), Client(block)])
  {
    AllowedSnoc(d, p, w, [], Client(block));
    AllowedSnoc(d, p, w, [Client(block)], Client(block));
    assert [] + [Client(block)] == [Client(block)];
    assert [Client(block)] + [Client(block)] == [Client(block), Client(block)];
  }

  /** A trade to which this happens: 2 A for 2 B on one exchange, then 2 A for 2 B on the other. */
  lemma InOrderCrashHappens() returns (p: Plan, w: World)
    ensures Begins(p, w) && p.expiry == 9 && Steps(w, p, [Client(0), Client(0)]).phase == BothReady
    ensures Reading(Steps(w, p, InOrderCrash(0)), p, false) == Inconsistent
    ensures OwnLeg(Steps(w, p, InOrderCrash(0)).remote, p) == PreparedLeg
  {
    hide Steps, LegOf, OwnLeg, Begins, AllAllowed, InOrderCrash;
    p := Plan("m", "x", "p", "A", 2, 9, "q", "A", "l");
    w := World(Example(0, 5, Bal(2, 0), map[]), Linked(), Start);
    NobodyRecorded(p, w);
    var mid := ClientStep(w, p, 0);
    FirstCall(w, p);
    SecondCall(mid, p);
    StepsSnoc(w, p, [], Client(0));
    StepsSnoc(w, p, [Client(0)], Client(0));
    assert [] + [Client(0)] == [Client(0)] && [Client(0)] + [Client(0)] == [Client(0), Client(0)];
    assert Steps(w, p, []) == w by { NoSteps(w, p); }
    InOrderCrashReadsInconsistent(p, w, 0);
  }

  lemma NobodyRecorded(p: Plan, w: World)
    requires w.phase == Start && w.local.txs == map[] == w.remote.txs
    ensures Begins(p, w)
  {
  }

  lemma NoSteps(w: World, p: Plan)
    ensures Steps(w, p, []) == w
  {
  }

  /** An exchange whose one pool trusts the first by a link. */
  function Linked(): State {
    State(map["q" := Pool("o", "a", "b", RATE_SCALE, 0, 5, map["l" := Link("u", "s")])], map[], map[])
  }

  lemma FirstCall(w: World, p: Plan)
    requires w.local == Example(0, 5, Bal(2, 0), map[]) && w.phase == Start &&
             p == Plan("m", "x", "p", "A", 2, 9, "q", "A", "l")
    ensures var v := ClientStep(w, p, 0); v.phase == LocalReady(2) && v.remote == w.remote
  {
    hide ParseSide, OutOf, Trade;
    SidesParse();
    assert Apply(w.local, "m", 0, PrepareOp(p)).1 == PreparedAs("x", 2, B, 9);
  }

  lemma SecondCall(w: World, p: Plan)
    requires w.remote == Linked() && w.phase == LocalReady(2) && p == Plan("m", "x", "p", "A", 2, 9, "q", "A", "l")
    ensures ClientStep(w, p, 0).phase == BothReady
  {
    hide ParseSide, OutOf, Credit;
    SidesParse();
    assert Apply(w.remote, "m", 0, ReceiveOp(p, 2)).1 == PreparedAs("x", 2, B, 9);
  }

  /** Leg calls a truthful recovery still has to make. */
  function CallsLeft(l: LegStatus, r: LegStatus): nat { |CallsFor(DecideRecovery(l, r), false)| }

  /** Recovery from any reachable state, read truthfully, not misled by somebody else's record
      and not interrupted by a crash, takes at most two leg calls; then no leg of the trader's
      is reversible, and both committed or neither did. Others may act between the calls. */
  lemma RecoveryEnds(d: Discipline, p: Plan, w: World, steps: seq<Step>, remoteFirst: bool, blocks: seq<int>,
      others: seq<seq<Step>>)
    requires Begins(p, w) && AllAllowed(d, p, w, steps)
    requires MayRecover(Steps(w, p, steps)) && !Misled(Steps(w, p, steps), p) && (d == TruthfulReads || !remoteFirst)
    requires |blocks| == |others| ==
             CallsLeft(LegOf(Steps(w, p, steps).local, p.tx), LegOf(Steps(w, p, steps).remote, p.tx))
    requires OthersFit(p, Next(Steps(w, p, steps), p, Recover(true, remoteFirst)), blocks, others)
    ensures |blocks| <= 2
    ensures var v := Finish(Next(Steps(w, p, steps), p, Recover(true, remoteFirst)), p, blocks, others);
            && Done(OwnLeg(v.local, p), OwnLeg(v.remote, p))
            && (!Taken(v.local, p) && !Taken(v.remote, p) ==> Reading(v, p, true) == Noop)
  {
    hide Steps, Apply, LegSound, LegOf, OwnLeg, Taken, Finish, OthersFit, Misled, AllAllowed, TodoSettles, PhaseFits;
    RunKeepsInv(d, p, w, steps);
    var u := Steps(w, p, steps);
    var v := Next(u, p, Recover(true, remoteFirst));
    RecoversInto(d, p, u, remoteFirst);
    FinishSettles(d, p, v, blocks, others);
    var z := Finish(v, p, blocks, others);
    OwnIsShown(z.local, p);
    OwnIsShown(z.remote, p);
  }

  lemma RecoversInto(d: Discipline, p: Plan, w: World, remoteFirst: bool)
    requires Inv(d, p, w) && MayRecover(w) && !Misled(w, p) && (d == TruthfulReads || !remoteFirst)
    ensures var v := Next(w, p, Recover(true, remoteFirst));
            && v.local == w.local && v.remote == w.remote && v.phase.Recovering?
            && Sound(d, p, v)
            && TodoSettles(d, v.phase.todo, OwnLeg(v.local, p), OwnLeg(v.remote, p))
            && |v.phase.todo| == CallsLeft(LegOf(w.local, p.tx), LegOf(w.remote, p.tx)) <= 2
  {
    hide LegOf, OwnLeg, LegSound, TodoSettles, Misled;
    ReadingSettles(d, p, w, remoteFirst);
  }

  /** The invariant, but for the calls left. */
  predicate Sound(d: Discipline, p: Plan, w: World) {
    && LegSound(w.local, p, p.localPool, false) && LegSound(w.remote, p, p.remotePool, true)
    && SafePair(d, OwnLeg(w.local, p), OwnLeg(w.remote, p))
  }

  /** Others act, within bounds. */
  predicate OnlyOthers(p: Plan, w: World, steps: seq<Step>) {
    steps != [] ==>
      var n := |steps| - 1;
      && OnlyOthers(p, w, steps[..n])
      && match steps[n]
         case OtherLocal(e) => Foreign(Steps(w, p, steps[..n]).local, p, e)
         case OtherRemote(e) => Foreign(Steps(w, p, steps[..n]).remote, p, e)
         case _ => false
  }

  /** The calls of a recovery, each preceded by what others do meanwhile. */
  function Finish(w: World, p: Plan, blocks: seq<int>, others: seq<seq<Step>>): World
    requires |blocks| == |others|
    decreases |blocks|
  {
    if blocks == [] then w
    else Finish(ClientStep(Steps(w, p, others[0]), p, blocks[0]), p, blocks[1..], others[1..])
  }

  predicate OthersFit(p: Plan, w: World, blocks: seq<int>, others: seq<seq<Step>>)
    requires |blocks| == |others|
    decreases |blocks|
  {
    blocks != [] ==>
      && OnlyOthers(p, w, others[0])
      && OthersFit(p, ClientStep(Steps(w, p, others[0]), p, blocks[0]), blocks[1..], others[1..])
  }

  /** The trader's legs are as before; somebody else's record stays. */
  predicate LegsKept(p: Plan, w: World, v: World) {
    && LegSound(v.local, p, p.localPool, false) && LegSound(v.remote, p, p.remotePool, true)
    && OwnLeg(v.local, p) == OwnLeg(w.local, p) && OwnLeg(v.remote, p) == OwnLeg(w.remote, p)
    && (Taken(w.local, p) ==> Taken(v.local, p)) && (Taken(w.remote, p) ==> Taken(v.remote, p))
  }

  lemma {:induction false} OthersKeep(p: Plan, w: World, steps: seq<Step>)
    requires LegSound(w.local, p, p.localPool, false) && LegSound(w.remote, p, p.remotePool, true)
    requires OnlyOthers(p, w, steps)
    ensures Steps(w, p, steps).phase == w.phase && LegsKept(p, w, Steps(w, p, steps))
  {
    hide Apply, OwnLeg, LegSound, Foreign, Taken;
    if steps != [] {
      var n := |steps| - 1;
      OthersKeep(p, w, steps[..n]);
      var u := Steps(w, p, steps[..n]);
      match steps[n]
      case OtherLocal(e) => ForeignLeavesLeg(u.local, p, e, p.localPool, false);
      case OtherRemote(e) => ForeignLeavesLeg(u.remote, p, e, p.remotePool, true);
    }
  }

  /** Working the calls off settles the trade. */
  lemma {:induction false} FinishSettles(d: Discipline, p: Plan, w: World, blocks: seq<int>, others: seq<seq<Step>>)
    requires Sound(d, p, w) && w.phase.Recovering? && |w.phase.todo| == |blocks| == |others|
    requires TodoSettles(d, w.phase.todo, OwnLeg(w.local, p), OwnLeg(w.remote, p)) && OthersFit(p, w, blocks, others)
    ensures var v := Finish(w, p, blocks, others); Done(OwnLeg(v.local, p), OwnLeg(v.remote, p))
    decreases |blocks|
  {
    hide Apply, OwnLeg, LegSound, OnlyOthers, Steps, TodoSettles, Taken, Call;
    if blocks == [] {
      NothingLeft(d, OwnLeg(w.local, p), OwnLeg(w.remote, p));
    } else {
      var u := Steps(w, p, others[0]);
      OthersKeep(p, w, others[0]);
      CallKeepsInv(d, p, u, blocks[0]);
      FinishSettles(d, p, ClientStep(u, p, blocks[0]), blocks[1..], others[1..]);
    }
  }

  // Cancelling

  function ReserveAt(s: State, pool: string, side: Side): int {
    if pool in s.pools then Reserve(s.pools[pool], side) else 0
  }

  /** What preparing a leg moved into a side of its pool's reserve. */
  function MovedReserve(t: Tx, side: Side): int {
    if side != t.from then -t.out else if t.receive then 0 else t.amount
  }

  /** What it moved into that side of the holder's balance. */
  function MovedBalance(t: Tx, side: Side): int {
    if side != t.from then t.out else if t.receive then 0 else -t.amount
  }

  predicate Prepares(op: Op, tx: string, pool: string) {
    (op.Prepare? && op.tx == tx && op.pool == pool) || (op.PrepareReceive? && op.tx == tx && op.pool == pool)
  }

  lemma PrepareMoves(s: State, me: Key, block: int, op: Op, tx: string, pool: string, side: Side)
    requires Prepares(op, tx, pool) && Apply(s, me, block, op).1.PreparedAs?
    ensures var t := Apply(s, me, block, op).0;
            && tx in t.txs && t.txs[tx].holder == me && t.txs[tx].status == Prepared
            && ReserveAt(t, pool, side) == ReserveAt(s, pool, side) + MovedReserve(t.txs[tx], side)
            && Get(Balance(t, pool, me), side) == Get(Balance(s, pool, me), side) + MovedBalance(t.txs[tx], side)
  {
    hide OutOf, ParseSide;
  }

  lemma AbortMovesBack(s: State, me: Key, block: int, tx: string, pool: string, side: Side)
    requires tx in s.txs && s.txs[tx].status == Prepared && Apply(s, me, block, Abort(pool, tx)).1.AbortedAs?
    ensures var t, e := Apply(s, me, block, Abort(pool, tx)).0, s.txs[tx];
            && ReserveAt(t, pool, side) == ReserveAt(s, pool, side) - MovedReserve(e, side)
            && Get(Balance(t, pool, e.holder), side) == Get(Balance(s, pool, e.holder), side) - MovedBalance(e, side)
  {
  }

  lemma {:induction false} RunRecordsPersist(s: State, events: seq<Event>, tx: string)
    requires tx in s.txs
    ensures var t := Run(s, events); tx in t.txs && t.txs[tx] == s.txs[tx].(status := t.txs[tx].status)
  {
    hide Apply;
    if events != [] {
      var n := |events| - 1;
      RunRecordsPersist(s, events[..n], tx);
      RecordsPersist(Run(s, events[..n]), events[n].me, events[n].block, events[n].op, tx, "");
    }
  }

  /** An abort that names another pool leaves this one alone. */
  lemma AbortSpares(s: State, me: Key, block: int, tx: string, named: string, pool: string, side: Side)
    requires tx in s.txs && s.txs[tx].status == Prepared && named != pool
    ensures var t := Apply(s, me, block, Abort(named, tx)).0;
            && ReserveAt(t, pool, side) == ReserveAt(s, pool, side)
            && Get(Balance(t, pool, s.txs[tx].holder), side) == Get(Balance(s, pool, s.txs[tx].holder), side)
  {
    hide AddReserve, AddTo;
  }

  predicate TakenBackAt(s: State, t: State, e: Tx, side: Side) {
    && ReserveAt(t, e.poolId, side) == ReserveAt(s, e.poolId, side) - MovedReserve(e, side)
    && Get(Balance(t, e.poolId, e.holder), side) == Get(Balance(s, e.poolId, e.holder), side) - MovedBalance(e, side)
  }

  /** From `s` to `t` what preparing `e` moved in its pool has been moved back, on both sides. */
  predicate TakenBack(s: State, t: State, e: Tx) { forall side: Side :: TakenBackAt(s, t, e, side) }

  /** The leg moved nothing, so there is nothing to take back. */
  predicate MovedNothing(e: Tx) { e.out == 0 && (e.receive || e.amount == 0) }

  /** The pool is an argument of the abort. What the leg moved is taken back exactly when
      that argument is the pool the leg was prepared in, or the leg moved nothing. */
  lemma AbortTakesBackIff(s: State, me: Key, block: int, tx: string, named: string)
    requires tx in s.txs && s.txs[tx].status == Prepared && Apply(s, me, block, Abort(named, tx)).1.AbortedAs?
    ensures TakenBack(s, Apply(s, me, block, Abort(named, tx)).0, s.txs[tx]) <==>
            named == s.txs[tx].poolId || MovedNothing(s.txs[tx])
  {
    hide Apply, Balance, ReserveAt;
    var e := s.txs[tx];
    forall side: Side
      ensures named == e.poolId ==> TakenBackAt(s, Apply(s, me, block, Abort(named, tx)).0, e, side)
      ensures named != e.poolId ==>
                (TakenBackAt(s, Apply(s, me, block, Abort(named, tx)).0, e, side) <==>
                 MovedReserve(e, side) == 0 == MovedBalance(e, side))
    {
      if named == e.poolId {
        AbortMovesBack(s, me, block, tx, named, side);
      } else {
        AbortSpares(s, me, block, tx, named, e.poolId, side);
      }
    }
    BothSides(s, Apply(s, me, block, Abort(named, tx)).0, e);
  }

  lemma BothSides(s: State, t: State, e: Tx)
    ensures TakenBack(s, t, e) <==> TakenBackAt(s, t, e, A) && TakenBackAt(s, t, e, B)
  {
    hide TakenBackAt;
    if TakenBackAt(s, t, e, A) && TakenBackAt(s, t, e, B) {
      forall side: Side
        ensures TakenBackAt(s, t, e, side)
      {
        match side
        case A =>
        case B =>
      }
    }
  }

  /** What one pool's reserve and one holder gain from `s` to `t`. */
  function Gains(s: State, t: State, pool: string, who: Key, side: Side): (int, int) {
    (ReserveAt(t, pool, side) - ReserveAt(s, pool, side),
     Get(Balance(t, pool, who), side) - Get(Balance(s, pool, who), side))
  }

  predicate Cancel(a: (int, int), b: (int, int)) { a.0 + b.0 == 0 && a.1 + b.1 == 0 }

  /** An abort takes back, to the unit, what its prepare moved, whatever ran in between
      (trades and withdrawals by anyone, changes of the rate), exactly when it names the
      pool the leg was prepared in or the leg moved nothing. */
  lemma AbortCancelsPrepare(s: State, first: Event, between: seq<Event>, last: Event, tx: string, pool: string)
    requires Prepares(first.op, tx, pool) && Apply(s, first.me, first.block, first.op).1.PreparedAs?
    requires last.op.Abort? && last.op.tx == tx
    requires var v := Run(Apply(s, first.me, first.block, first.op).0, between);
             tx in v.txs && v.txs[tx].status == Prepared && Apply(v, last.me, last.block, last.op).1.AbortedAs?
    ensures var u := Apply(s, first.me, first.block, first.op).0;
            var v := Run(u, between);
            var w := Apply(v, last.me, last.block, last.op).0;
            tx in u.txs &&
            ((forall side: Side :: Cancel(Gains(s, u, pool, first.me, side), Gains(v, w, pool, first.me, side))) <==>
             last.op.pool == pool || MovedNothing(u.txs[tx]))
  {
    hide Apply, Balance, ReserveAt, Run;
    var u := Apply(s, first.me, first.block, first.op).0;
    var v := Run(u, between);
    var w := Apply(v, last.me, last.block, last.op).0;
    PreparedIn(s, first.me, first.block, first.op, tx, pool);
    forall side: Side
      ensures Gains(s, u, pool, first.me, side) == (MovedReserve(u.txs[tx], side), MovedBalance(u.txs[tx], side))
    {
      PrepareMoves(s, first.me, first.block, first.op, tx, pool, side);
    }
    RunRecordsPersist(u, between, tx);
    var e := v.txs[tx];
    assert last.op == Abort(last.op.pool, tx);
    AbortTakesBackIff(v, last.me, last.block, tx, last.op.pool);
    forall side: Side
      ensures Cancel(Gains(s, u, pool, first.me, side), Gains(v, w, pool, first.me, side)) <==>
              TakenBackAt(v, w, e, side)
    {
      assert Gains(s, u, pool, first.me, side) == (MovedReserve(e, side), MovedBalance(e, side));
    }
  }

  lemma PreparedIn(s: State, me: Key, block: int, op: Op, tx: string, pool: string)
    requires Prepares(op, tx, pool) && Apply(s, me, block, op).1.PreparedAs?
    ensures var t := Apply(s, me, block, op).0; tx in t.txs && t.txs[tx].holder == me && t.txs[tx].poolId == pool
  {
    hide OutOf, ParseSide;
  }

  /** Two pools with unit rate: 2 A were sold for 2 B in `p`, and the abort names `q`. The
      sale in `p` stays, and `q` ends up owing 2 A to a holder who owes it 2 B. */
  lemma AbortElsewhere(s: State) returns (h: Bal)
    requires s.pools == map["p" := Pool("o", "a", "b", RATE_SCALE, 2, 3, map[]),
                            "q" := Pool("o", "a", "b", RATE_SCALE, 0, 0, map[])]
    requires s.bals == map["p" := map["m" := Bal(0, 2)]] && s.txs == map["x" := EXAMPLE_TX]
    ensures var (t, reply) := Apply(s, "m", 0, Abort("q", "x"));
            && reply == AbortedAs("x") && t.txs["x"].status == Aborted
            && t.pools["p"] == s.pools["p"] && Balance(t, "p", "m") == Bal(0, 2)
            && t.pools["q"].reserveA < 0 && Balance(t, "q", "m") == h
            && !TakenBack(s, t, s.txs["x"])
    ensures h.a == 2 && h.b < 0
  {
    AbortTakesBackIff(s, "m", 0, "x", "q");
    hide TakenBack;
    var e := s.txs["x"];
    h := Balance(Reverse(s, "q", e), "q", "m");
    assert DoAbort(s, "m", 0, Abort("q", "x")).0 == Settle(Reverse(s, "q", e), "x", Aborted);
  }

  /** It is one verb away from an ordinary prepared sale: the owner opens `q`. */
  lemma AbortElsewhereIsReached()
    ensures var s := Apply(Example(2, 3, Bal(0, 2), map["x" := EXAMPLE_TX]), "o", 0, Open("q", "a", "b", RATE_SCALE)).0;
            && s.pools == map["p" := Pool("o", "a", "b", RATE_SCALE, 2, 3, map[]),
                              "q" := Pool("o", "a", "b", RATE_SCALE, 0, 0, map[])]
            && s.bals == map["p" := map["m" := Bal(0, 2)]] && s.txs == map["x" := EXAMPLE_TX]
  {
  }
}
