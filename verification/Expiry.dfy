/** Why a trade assumes what it does: aborts by strangers once a leg has expired, and
    recoveries that cannot reach the remote exchange. The client goes on with its calls
    after one that was refused; the source leaves that to whoever makes the calls. */
module Expiry {
  import opened Exchange
  import opened ExchangeLaws
  import opened TwoPhase

  // One exchange at a time

  lemma StrangerAborts(s: State, p: Plan, stranger: Key, block: int, pool: string, receive: bool)
    requires LegSound(s, p, pool, receive) && OwnLeg(s, p) == PreparedLeg && block >= p.expiry
    ensures var t := Apply(s, stranger, block, Abort(pool, p.tx)).0;
            LegSound(t, p, pool, receive) && OwnLeg(t, p) == AbortedLeg
  {
    hide AddReserve, AddTo, Row;
  }

  // Once a stranger has aborted a leg

  /** The remote leg is gone and no local commit is to come. */
  predicate RemoteGone(p: Plan, w: World) {
    && LegSound(w.local, p, p.localPool, false) && LegSound(w.remote, p, p.remotePool, true)
    && OwnLeg(w.remote, p) == AbortedLeg && (OwnLeg(w.local, p) == PreparedLeg || OwnLeg(w.local, p) == AbortedLeg)
    && (MayRecover(w) || (w.phase.Recovering? && CallCommitLocal !in w.phase.todo))
  }

  /** The local leg is gone and no remote commit is to come. */
  predicate LocalGone(p: Plan, w: World) {
    && LegSound(w.local, p, p.localPool, false) && LegSound(w.remote, p, p.remotePool, true)
    && OwnLeg(w.local, p) == AbortedLeg && OwnLeg(w.remote, p) != CommittedLeg
    && (MayRecover(w) || w.phase == MustAbort || (w.phase.Recovering? && CallCommitRemote !in w.phase.todo))
  }

  /** Every step but acting on the trade's id with the trader's key behind the client's back:
      any recovery, any crash, any stranger. */
  predicate Possible(p: Plan, step: Step) {
    match step
    case OtherLocal(e) => Bystander(p, e)
    case OtherRemote(e) => Bystander(p, e)
    case _ => true
  }

  lemma CallKeepsGone(p: Plan, w: World, block: int)
    requires w.phase.Recovering? && w.phase.todo != []
    ensures RemoteGone(p, w) ==> RemoteGone(p, ClientStep(w, p, block))
    ensures LocalGone(p, w) ==> LocalGone(p, ClientStep(w, p, block))
  {
    hide Apply, OwnLeg, LegSound;
    if RemoteGone(p, w) || LocalGone(p, w) {
      assert w.phase.todo[0] in w.phase.todo && forall c :: c in w.phase.todo[1..] ==> c in w.phase.todo;
      OwnCall(w.local, p, block, p.localPool, false);
      OwnCall(w.remote, p, block, p.remotePool, true);
    }
  }

  lemma RecoverKeepsGone(p: Plan, w: World, reachable: bool, remoteFirst: bool)
    ensures RemoteGone(p, w) ==> RemoteGone(p, Next(w, p, Recover(reachable, remoteFirst)))
    ensures LocalGone(p, w) ==> LocalGone(p, Next(w, p, Recover(reachable, remoteFirst)))
  {
    hide OwnLeg, LegOf, LegSound;
    OwnIsShown(w.local, p);
    OwnIsShown(w.remote, p);
  }

  lemma StepKeepsGone(p: Plan, w: World, step: Step)
    requires Possible(p, step)
    ensures RemoteGone(p, w) ==> RemoteGone(p, Next(w, p, step))
    ensures LocalGone(p, w) ==> LocalGone(p, Next(w, p, step))
  {
    hide Apply, OwnLeg, LegSound, Bystander;
    if RemoteGone(p, w) || LocalGone(p, w) {
      match step
      case Client(block) =>
        if w.phase.Recovering? && w.phase.todo != [] {
          CallKeepsGone(p, w, block);
        }
        OwnCall(w.local, p, block, p.localPool, false);
      case OtherLocal(e) => BystanderLeg(w.local, p, e, p.localPool, false);
      case OtherRemote(e) => BystanderLeg(w.remote, p, e, p.remotePool, true);
      case Recover(reachable, remoteFirst) => RecoverKeepsGone(p, w, reachable, remoteFirst);
      case Crash =>
    }
  }

  lemma {:induction false} RunKeepsGone(p: Plan, w: World, steps: seq<Step>)
    requires forall i :: 0 <= i < |steps| ==> Possible(p, steps[i])
    ensures RemoteGone(p, w) ==> RemoteGone(p, Steps(w, p, steps))
    ensures LocalGone(p, w) ==> LocalGone(p, Steps(w, p, steps))
  {
    hide Next, Possible, RemoteGone, LocalGone;
    if steps != [] {
      var n := |steps| - 1;
      RunKeepsGone(p, w, steps[..n]);
      StepKeepsGone(p, Steps(w, p, steps[..n]), steps[n]);
    }
  }

  /** Somebody else's record under the id has committed on the remote exchange. */
  predicate OtherCommitted(w: World, p: Plan) { Taken(w.remote, p) && LegOf(w.remote, p.tx) == CommittedLeg }

  lemma GoneReads(p: Plan, w: World)
    ensures RemoteGone(p, w) ==> Reading(w, p, true) != Inconsistent && OwnLeg(w.local, p) != CommittedLeg
    ensures LocalGone(p, w) ==> (Reading(w, p, true) == Inconsistent <==> OtherCommitted(w, p))
  {
    hide LegOf, LegSound, OwnLeg, Taken;
    OwnIsShown(w.local, p);
    OwnIsShown(w.remote, p);
  }

  function AbortRemoteBy(w: World, p: Plan, stranger: Key, block: int): World {
    Next(w, p, OtherRemote(Event(stranger, block, Abort(p.remotePool, p.tx))))
  }

  function AbortLocalBy(w: World, p: Plan, stranger: Key, block: int): World {
    Next(w, p, OtherLocal(Event(stranger, block, Abort(p.localPool, p.tx))))
  }

  /** A local commit has been made, or is among the calls the client has set out to make. */
  predicate LocalCommitDue(w: World, p: Plan) {
    OwnLeg(w.local, p) == CommittedLeg || w.phase == BothReady ||
      (w.phase.Recovering? && CallCommitLocal in w.phase.todo)
  }

  /** A remote commit has been made, or is among those calls. */
  predicate RemoteCommitDue(w: World, p: Plan) {
    OwnLeg(w.remote, p) == CommittedLeg || w.phase == BothReady ||
      (w.phase.Recovering? && CallCommitRemote in w.phase.todo)
  }

  lemma RemoteAborted(d: Discipline, p: Plan, w: World, stranger: Key, block: int)
    requires Inv(d, p, w) && OwnLeg(w.remote, p) == PreparedLeg && block >= p.expiry
    ensures var v := AbortRemoteBy(w, p, stranger, block);
            && LegSound(v.remote, p, p.remotePool, true) && OwnLeg(v.remote, p) == AbortedLeg
            && v.local == w.local && v.phase == w.phase
            && (!LocalCommitDue(w, p) ==> RemoteGone(p, v))
  {
    hide Apply, OwnLeg, LegSound;
    StrangerAborts(w.remote, p, stranger, block, p.remotePool, true);
  }

  lemma LocalAborted(d: Discipline, p: Plan, w: World, stranger: Key, block: int)
    requires Inv(d, p, w) && OwnLeg(w.local, p) == PreparedLeg && block >= p.expiry
    ensures var v := AbortLocalBy(w, p, stranger, block);
            && LegSound(v.local, p, p.localPool, false) && OwnLeg(v.local, p) == AbortedLeg
            && v.remote == w.remote && v.phase == w.phase
            && (!RemoteCommitDue(w, p) && !w.phase.LocalReady? ==> LocalGone(p, v))
  {
    hide Apply, OwnLeg, LegSound;
    StrangerAborts(w.local, p, stranger, block, p.localPool, false);
  }

  /** No harm comes of an expired abort of the remote leg while no local commit is due:
      whatever follows, the trader's legs never split. */
  lemma RemoteExpiryHarmless(d: Discipline, p: Plan, w: World, stranger: Key, block: int, steps: seq<Step>)
    requires Inv(d, p, w) && OwnLeg(w.remote, p) == PreparedLeg && block >= p.expiry
    requires !LocalCommitDue(w, p) && forall i :: 0 <= i < |steps| ==> Possible(p, steps[i])
    ensures var v := Steps(AbortRemoteBy(w, p, stranger, block), p, steps);
            && OwnLeg(v.remote, p) == AbortedLeg && OwnLeg(v.local, p) != CommittedLeg
            && Reading(v, p, true) != Inconsistent
  {
    hide Inv, OwnLeg, LocalGone, Possible, Steps, LocalCommitDue, AbortRemoteBy, Reading, LegSound;
    RemoteAborted(d, p, w, stranger, block);
    RunKeepsGone(p, AbortRemoteBy(w, p, stranger, block), steps);
    GoneReads(p, Steps(AbortRemoteBy(w, p, stranger, block), p, steps));
  }

  /** Nor of one of the local leg while no remote commit is due and the credit is not the next
      thing to ask for; a reading says `Inconsistent` only of somebody else's record. */
  lemma LocalExpiryHarmless(d: Discipline, p: Plan, w: World, stranger: Key, block: int, steps: seq<Step>)
    requires Inv(d, p, w) && OwnLeg(w.local, p) == PreparedLeg && block >= p.expiry
    requires !RemoteCommitDue(w, p) && !w.phase.LocalReady? && forall i :: 0 <= i < |steps| ==> Possible(p, steps[i])
    ensures var v := Steps(AbortLocalBy(w, p, stranger, block), p, steps);
            && OwnLeg(v.local, p) == AbortedLeg && OwnLeg(v.remote, p) != CommittedLeg
            && (Reading(v, p, true) == Inconsistent <==> OtherCommitted(v, p))
  {
    hide Inv, OwnLeg, RemoteGone, Possible, Steps, RemoteCommitDue, AbortLocalBy, Reading, LegSound, OtherCommitted;
    LocalAborted(d, p, w, stranger, block);
    RunKeepsGone(p, AbortLocalBy(w, p, stranger, block), steps);
    GoneReads(p, Steps(AbortLocalBy(w, p, stranger, block), p, steps));
  }

  // The client goes on

  /** A truthful reading says `Inconsistent`, now or after one of the client's calls. */
  predicate SplitSeen(w: World, p: Plan, blocks: seq<int>)
    decreases blocks
  {
    Reading(w, p, true) == Inconsistent || (blocks != [] && SplitSeen(ClientStep(w, p, blocks[0]), p, blocks[1..]))
  }

  lemma CallSparesOther(p: Plan, w: World, block: int)
    requires LocalGone(p, w) && !OtherCommitted(w, p)
    ensures !OtherCommitted(ClientStep(w, p, block), p)
  {
    hide Apply, OwnLeg, LegOf, LegSound, Taken;
    OwnIsShown(w.remote, p);
    OwnCall(w.remote, p, block, p.remotePool, true);
    OwnIsShown(ClientStep(w, p, block).remote, p);
  }

  lemma {:induction false} GoneSeesNoSplit(p: Plan, w: World, blocks: seq<int>)
    requires RemoteGone(p, w) || (LocalGone(p, w) && !OtherCommitted(w, p))
    ensures !SplitSeen(w, p, blocks)
    decreases blocks
  {
    hide RemoteGone, LocalGone, ClientStep, Reading, OtherCommitted;
    GoneReads(p, w);
    if blocks != [] {
      StepKeepsGone(p, w, Client(blocks[0]));
      assert Next(w, p, Client(blocks[0])) == ClientStep(w, p, blocks[0]);
      if !RemoteGone(p, w) {
        CallSparesOther(p, w, blocks[0]);
      }
      GoneSeesNoSplit(p, ClientStep(w, p, blocks[0]), blocks[1..]);
    }
  }

  /** An expired abort of the remote leg splits the trade, at once or as the client goes on,
      exactly when a local commit has been made or is due. */
  lemma RemoteExpirySplitsIff(d: Discipline, p: Plan, w: World, stranger: Key, block: int, blocks: seq<int>)
    requires Inv(d, p, w) && OwnLeg(w.remote, p) == PreparedLeg && block >= p.expiry && |blocks| >= 2
    ensures SplitSeen(AbortRemoteBy(w, p, stranger, block), p, blocks) <==> LocalCommitDue(w, p)
  {
    hide Apply, OwnLeg, LegOf, LegSound, SplitSeen, RemoteGone, AbortRemoteBy, Taken;
    var v := AbortRemoteBy(w, p, stranger, block);
    RemoteAborted(d, p, w, stranger, block);
    if !LocalCommitDue(w, p) {
      GoneSeesNoSplit(p, v, blocks);
    } else {
      var v1 := ClientStep(v, p, blocks[0]);
      var v2 := ClientStep(v1, p, blocks[1]);
      OwnCall(v.local, p, blocks[0], p.localPool, false);
      OwnCall(v.remote, p, blocks[0], p.remotePool, true);
      OwnCall(v1.local, p, blocks[1], p.localPool, false);
      OwnCall(v1.remote, p, blocks[1], p.remotePool, true);
      OwnReading(v, p);
      OwnReading(v1, p);
      OwnReading(v2, p);
      assert Reading(v, p, true) == Inconsistent || Reading(v1, p, true) == Inconsistent ||
             Reading(v2, p, true) == Inconsistent;
      SeenWithin(v, p, blocks);
    }
  }

  /** Where both legs are the trader's own, that is what a truthful reading sees. */
  lemma OwnReading(w: World, p: Plan)
    ensures OwnLeg(w.local, p) != UnknownLeg && OwnLeg(w.remote, p) != UnknownLeg ==>
              Reading(w, p, true) == DecideRecovery(OwnLeg(w.local, p), OwnLeg(w.remote, p))
  {
    hide LegOf, OwnLeg, Taken;
    OwnIsShown(w.local, p);
    OwnIsShown(w.remote, p);
  }

  lemma SeenWithin(v: World, p: Plan, blocks: seq<int>)
    ensures Reading(v, p, true) == Inconsistent ==> SplitSeen(v, p, blocks)
    ensures |blocks| >= 1 && SplitSeen(ClientStep(v, p, blocks[0]), p, blocks[1..]) ==> SplitSeen(v, p, blocks)
    ensures |blocks| >= 1 && Reading(ClientStep(v, p, blocks[0]), p, true) == Inconsistent ==> SplitSeen(v, p, blocks)
    ensures |blocks| >= 2 &&
            Reading(ClientStep(ClientStep(v, p, blocks[0]), p, blocks[1]), p, true) == Inconsistent ==>
              SplitSeen(v, p, blocks)
  {
    hide Reading, ClientStep;
    if |blocks| >= 1 {
      var v1 := ClientStep(v, p, blocks[0]);
      assert SplitSeen(v, p, blocks) <==> Reading(v, p, true) == Inconsistent || SplitSeen(v1, p, blocks[1..]);
      if |blocks| >= 2 {
        assert blocks[1..][0] == blocks[1];
        assert SplitSeen(v1, p, blocks[1..]) <==>
               Reading(v1, p, true) == Inconsistent || SplitSeen(ClientStep(v1, p, blocks[1]), p, blocks[1..][1..]);
      }
    }
  }

  /** Is the credit granted at the client's next call? */
  predicate CreditGranted(w: World, p: Plan, block: int) {
    w.phase.LocalReady? && Apply(w.remote, p.me, block, ReceiveOp(p, w.phase.out)).1.PreparedAs?
  }

  /** An expired abort of the local leg splits the trade, at once or as the client goes on,
      exactly when a remote commit has been made or is due, or the credit is granted next;
      or it reads so of somebody else's record. */
  lemma LocalExpirySplitsIff(d: Discipline, p: Plan, w: World, stranger: Key, block: int, blocks: seq<int>)
    requires Inv(d, p, w) && OwnLeg(w.local, p) == PreparedLeg && block >= p.expiry && |blocks| >= 3
    ensures SplitSeen(AbortLocalBy(w, p, stranger, block), p, blocks) <==>
            RemoteCommitDue(w, p) || CreditGranted(w, p, blocks[0]) || OtherCommitted(w, p)
  {
    hide Apply, OwnLeg, LegOf, LegSound, SplitSeen, LocalGone, AbortLocalBy, Taken;
    var v := AbortLocalBy(w, p, stranger, block);
    LocalAborted(d, p, w, stranger, block);
    OwnIsShown(v.local, p);
    if OtherCommitted(w, p) {
      SeenFirst(v, p, blocks);
    } else if w.phase.LocalReady? {
      CreditSplitsIff(p, v, blocks);
    } else if !RemoteCommitDue(w, p) {
      GoneSeesNoSplit(p, v, blocks);
    } else {
      var v1 := ClientStep(v, p, blocks[0]);
      var v2 := ClientStep(v1, p, blocks[1]);
      OwnCall(v.local, p, blocks[0], p.localPool, false);
      OwnCall(v.remote, p, blocks[0], p.remotePool, true);
      OwnCall(v1.local, p, blocks[1], p.localPool, false);
      OwnCall(v1.remote, p, blocks[1], p.remotePool, true);
      OwnReading(v, p);
      OwnReading(v1, p);
      OwnReading(v2, p);
      assert Reading(v, p, true) == Inconsistent || Reading(v1, p, true) == Inconsistent ||
             Reading(v2, p, true) == Inconsistent;
      SeenWithin(v, p, blocks);
    }
  }

  /** With the local leg gone before the credit is asked for, all hangs on the reply. */
  lemma CreditSplitsIff(p: Plan, v: World, blocks: seq<int>)
    requires LegSound(v.local, p, p.localPool, false) && OwnLeg(v.local, p) == AbortedLeg
    requires LegSound(v.remote, p, p.remotePool, true) && OwnLeg(v.remote, p) == UnknownLeg && !OtherCommitted(v, p)
    requires v.phase.LocalReady? && |blocks| >= 3
    ensures SplitSeen(v, p, blocks) <==> CreditGranted(v, p, blocks[0])
  {
    hide Apply, OwnLeg, LegOf, LegSound, SplitSeen, Taken;
    var v1 := ClientStep(v, p, blocks[0]);
    ReceiveLeg(v.remote, p, blocks[0], v.phase.out);
    SeenFirst(v, p, blocks);
    OwnIsShown(v.local, p);
    OwnIsShown(v.remote, p);
    OwnIsShown(v1.remote, p);
    if CreditGranted(v, p, blocks[0]) {
      var v2 := ClientStep(v1, p, blocks[1]);
      var v3 := ClientStep(v2, p, blocks[2]);
      OwnCall(v1.local, p, blocks[1], p.localPool, false);
      OwnCall(v2.remote, p, blocks[2], p.remotePool, true);
      OwnReading(v3, p);
      assert Reading(v3, p, true) == Inconsistent;
      assert blocks[1..][0] == blocks[1] && blocks[1..][1] == blocks[2];
      SeenWithin(v1, p, blocks[1..]);
    } else {
      assert Taken(v.remote, p) ==> v1.remote == v.remote;
      RefusedStaysUnknown(v.remote, p, blocks[0], v.phase.out);
      GoneSeesNoSplit(p, v1, blocks[1..]);
    }
  }

  /** A refused credit leaves the exchange as it is. */
  lemma RefusedStaysUnknown(s: State, p: Plan, block: int, out: int)
    requires !Apply(s, p.me, block, ReceiveOp(p, out)).1.PreparedAs?
    ensures Apply(s, p.me, block, ReceiveOp(p, out)).0 == s
  {
    hide OutOf, ParseSide, Credit;
  }

  lemma SeenFirst(v: World, p: Plan, blocks: seq<int>)
    requires |blocks| >= 1
    ensures SplitSeen(v, p, blocks) <==>
            Reading(v, p, true) == Inconsistent || SplitSeen(ClientStep(v, p, blocks[0]), p, blocks[1..])
  {
  }

  /** The client is about to commit both legs when a stranger aborts the local one: its local
      commit is refused, its remote commit goes through. */
  lemma LocalExpiryInBothReady(d: Discipline, p: Plan, w: World, stranger: Key, block: int, b1: int, b2: int)
    requires Inv(d, p, w) && w.phase == BothReady && block >= p.expiry
    ensures var v := ClientStep(ClientStep(AbortLocalBy(w, p, stranger, block), p, b1), p, b2);
            && OwnLeg(v.local, p) == AbortedLeg && OwnLeg(v.remote, p) == CommittedLeg && v.phase == Finished
            && Reading(v, p, true) == Inconsistent
  {
    hide Apply, OwnLeg, LegOf, LegSound, AbortLocalBy, Taken;
    LocalAborted(d, p, w, stranger, block);
    var v := AbortLocalBy(w, p, stranger, block);
    OwnCall(v.local, p, b1, p.localPool, false);
    OwnCall(v.remote, p, b2, p.remotePool, true);
    OwnReading(ClientStep(ClientStep(v, p, b1), p, b2), p);
  }

  /** A trade to which that happens: prepared on both sides at block 0, to expire at block 9. */
  lemma LocalExpiryHappens() returns (p: Plan, w: World)
    ensures Begins(p, w)
    ensures var v := Steps(w, p, [Client(0), Client(0)]);
            && v.phase == BothReady
            && Reading(ClientStep(ClientStep(AbortLocalBy(v, p, "z", 9), p, 9), p, 9), p, true) == Inconsistent
  {
    hide Steps, OwnLeg, LegOf, LegSound, Begins, AllAllowed, Inv;
    p, w := InOrderCrashHappens();
    TwoCallsAllowed(TruthfulReads, p, w, 0);
    RunKeepsInv(TruthfulReads, p, w, [Client(0), Client(0)]);
    LocalExpiryInBothReady(TruthfulReads, p, Steps(w, p, [Client(0), Client(0)]), "z", 9, 9, 9);
  }

  // At once

  /** Once the remote leg has expired anyone may abort it: that splits the trade there and
      then exactly when the local leg has committed. */
  lemma ExpiryAbortSplitsIff(d: Discipline, p: Plan, w: World, stranger: Key, block: int)
    requires Inv(d, p, w) && OwnLeg(w.remote, p) == PreparedLeg && block >= p.expiry
    ensures var v := AbortRemoteBy(w, p, stranger, block);
            && OwnLeg(v.local, p) == OwnLeg(w.local, p) && OwnLeg(v.remote, p) == AbortedLeg
            && (Reading(v, p, true) == Inconsistent <==> OwnLeg(w.local, p) == CommittedLeg)
  {
    hide Apply, OwnLeg, LegOf, LegSound, AbortRemoteBy, Taken, LocalCommitDue;
    RemoteAborted(d, p, w, stranger, block);
    OwnReading(AbortRemoteBy(w, p, stranger, block), p);
  }

  /** Between the two commits, that is: recovery can then only report it. */
  lemma ExpiryAbortSplits(d: Discipline, p: Plan, w: World, stranger: Key, block: int)
    requires Inv(d, p, w) && w.phase == LocalDone && block >= p.expiry
    ensures var v := AbortRemoteBy(w, p, stranger, block);
            OwnLeg(v.local, p) == CommittedLeg && OwnLeg(v.remote, p) == AbortedLeg &&
              Reading(v, p, true) == Inconsistent
  {
    hide OwnLeg, LegOf, LegSound, AbortRemoteBy, Taken;
    ExpiryAbortSplitsIff(d, p, w, stranger, block);
  }

  /** Committing the remote leg first and later failing to reach it splits the trade:
      neither discipline can be dropped without keeping the other. */
  lemma MixedRecoverySplits(p: Plan, w: World, block: int)
    requires Inv(TruthfulReads, p, w) && w.phase == Crashed
    requires OwnLeg(w.local, p) == PreparedLeg && OwnLeg(w.remote, p) == PreparedLeg
    ensures var u := Next(Next(Next(w, p, Recover(true, true)), p, Client(block)), p, Crash);
            var v := Next(Next(u, p, Recover(false, false)), p, Client(block));
            OwnLeg(v.local, p) == AbortedLeg && OwnLeg(v.remote, p) == CommittedLeg
  {
    hide Apply, LegSound, OwnLeg, LegOf, Taken;
    OwnReading(w, p);
    OwnIsShown(w.local, p);
    var w1 := Next(w, p, Recover(true, true));
    OwnCall(w1.remote, p, block, p.remotePool, true);
    var w2 := Next(w1, p, Client(block));
    var w3 := Next(Next(w2, p, Crash), p, Recover(false, false));
    OwnCall(w3.local, p, block, p.localPool, false);
  }

  /** A recovery that cannot reach the remote exchange splits the trader's legs exactly when the
      remote one has committed and the local one has not. Where the local id is the trader's, a
      truthful reading then says `Inconsistent` exactly when what the remote exchange shows has
      committed, and the trader's sale had not. */
  lemma UnreachableRecoverySplitsIff(d: Discipline, p: Plan, w: World, remoteFirst: bool, block: int)
    requires Inv(d, p, w) && MayRecover(w)
    ensures var v := Next(Next(w, p, Recover(false, remoteFirst)), p, Client(block));
            && (OwnLeg(v.local, p) == AbortedLeg && OwnLeg(v.remote, p) == CommittedLeg <==>
                OwnLeg(w.local, p) == PreparedLeg && OwnLeg(w.remote, p) == CommittedLeg)
            && (!Taken(w.local, p) ==>
                  (Reading(v, p, true) == Inconsistent <==>
                   (OwnLeg(w.local, p) == PreparedLeg || OwnLeg(w.local, p) == AbortedLeg) &&
                   LegOf(w.remote, p.tx) == CommittedLeg))
  {
    hide Apply, OwnLeg, LegOf, LegSound, Taken;
    OwnIsShown(w.local, p);
    OwnIsShown(w.remote, p);
    OwnCall(w.local, p, block, p.localPool, false);
    OwnIsShown(Next(Next(w, p, Recover(false, remoteFirst)), p, Client(block)).local, p);
  }
}
