/** Clients that keep each peer in one room and each socket to one name never upset the
    signaling server. */
module SignalingDiscipline {
  import opened Seats
  import opened Signaling
  import opened SignalingSafety
  import opened SignalingJoin
  import opened SignalingRuns
  import opened SignalingQueues

  /** Each peer keeps to one room, and each socket joins under one name. */
  predicate Disciplined(step: Step, home: Id -> Id, voice: Socket -> Id) {
    match step
    case JoinMsg(ws, room, peer) => room == home(peer) && peer == voice(ws)
    case LeaveMsg(_, room, peer) => room == home(peer)
    case _ => true
  }

  predicate AtHome(st: Server, home: Id -> Id, voice: Socket -> Id) {
    && (forall p :: p in st.peerIndex ==> st.peerIndex[p].room == home(p))
    && (forall ws :: ws in st.wsIndex ==> st.wsIndex[ws] == voice(ws))
  }

  lemma DisciplinedFits(st: Server, step: Step, home: Id -> Id, voice: Socket -> Id)
    requires Inv(st) && AtHome(st, home, voice) && Disciplined(step, home, voice)
    ensures StepFits(st, step)
  {
    hide Inv, IndexesAgree, SocketsAgree, SeatsSound, RostersAgree;
    if step.LeaveMsg? && step.ws in st.wsIndex {
      InvIsStructured(st);
      LiveSeat(st, step.ws);
    }
  }

  /** No step but a join lists anything new. */
  predicate ListsLess(st: Server, t: Server) {
    && t.peerIndex.Keys <= st.peerIndex.Keys && t.wsIndex.Keys <= st.wsIndex.Keys
    && (forall p :: p in t.peerIndex ==> t.peerIndex[p] == st.peerIndex[p])
    && (forall ws :: ws in t.wsIndex ==> t.wsIndex[ws] == st.wsIndex[ws])
  }

  lemma LeaveLists(st: Server, room: Id, peer: Id)
    requires peer in st.peerIndex
    ensures ListsLess(st, Leave(st, room, peer))
  {
    hide Leave;
    if room in st.rooms {
      LeaveRooms(st, room, peer);
    } else {
      LeaveUnknownRoom(st, room, peer);
    }
  }

  lemma OthersList(st: Server, step: Step)
    requires Inv(st) && !step.JoinMsg?
    ensures ListsLess(st, Next(st, step))
  {
    hide Inv, Structured, Announce, SendAll, Leave, RelayData, Expire, Copies;
    InvIsStructured(st);
    match step
    case LeaveMsg(ws, room, peer) =>
      SendListsSame(st, ws, Error("leave peerId mismatch"));
      if ws in st.wsIndex && st.wsIndex[ws] == peer {
        LiveSeat(st, ws);
        LeaveLists(st, room, peer);
      }
    case DataMsg(ws, room, from, to, payload) => RelayListsSame(st, step);
    case Timeout(room, peer) =>
      ExpireIsLeave(st, room, peer);
      if room in st.rooms && peer in st.rooms[room] {
        LeaveLists(st, room, peer);
      }
    case _ =>
  }

  lemma SendListsSame(st: Server, ws: Socket, f: Frame)
    ensures Send(st, ws, f).peerIndex == st.peerIndex && Send(st, ws, f).wsIndex == st.wsIndex
  {
  }

  lemma RelayListsSame(st: Server, step: Step)
    requires step.DataMsg?
    ensures Next(st, step).peerIndex == st.peerIndex && Next(st, step).wsIndex == st.wsIndex
  {
    hide Copies, Queued;
  }

  /** A join lists the joiner, on its socket, and nothing else anew. */
  predicate ListsJoiner(st: Server, t: Server, ws: Socket, room: Id, peer: Id) {
    && (forall p :: p in t.peerIndex ==>
           (p == peer && t.peerIndex[p] == Entry(room, ws)) || (p in st.peerIndex && t.peerIndex[p] == st.peerIndex[p]))
    && (forall w :: w in t.wsIndex ==>
           (w == ws && t.wsIndex[w] == peer) || (w in st.wsIndex && t.wsIndex[w] == st.wsIndex[w]))
  }

  lemma JoinLists(st: Server, ws: Socket, room: Id, peer: Id)
    requires Inv(st) && ws in st.sent && JoinFits(st, ws, room, peer)
    ensures var t := Join(st, ws, room, peer);
            ListsJoiner(st, t, ws, room, peer)
  {
    hide Inv, Join, Settle, Leave, IndexesAgree, SocketsAgree, SeatsSound, RostersAgree;
    InvIsStructured(st);
    JoinIsSettle(st, ws, room, peer);
    if HasPrior(st, ws, peer) {
      LiveSeat(st, ws);
      var home := st.peerIndex[st.wsIndex[ws]].room;
      LeaveRooms(st, home, st.wsIndex[ws]);
      SettleLists(Leave(st, home, st.wsIndex[ws]), ws, room, peer);
    } else {
      SettleLists(st, ws, room, peer);
    }
  }

  lemma SettleLists(st: Server, ws: Socket, room: Id, peer: Id)
    ensures var t := Settle(Entered(st, room), ws, room, peer);
            ListsJoiner(st, t, ws, room, peer)
  {
    hide Announce, SendAll, Replay, Resume, Seated, Stale;
    SendsKeepLists();
    if peer in Members(st, room) {
      assert Entered(st, room) == st;
      ResumeIsPlaced(st, ws, room, peer);
    } else {
      SeatedIsPlaced(st, ws, room, peer);
    }
  }

  lemma SendsKeepLists()
    ensures forall st, ws, frames ::
              SendAll(st, ws, frames).peerIndex == st.peerIndex &&
              SendAll(st, ws, frames).wsIndex == st.wsIndex
    ensures forall st, room, sender, f ::
              Announce(st, room, sender, f).peerIndex == st.peerIndex &&
              Announce(st, room, sender, f).wsIndex == st.wsIndex
  {
    hide Copies;
  }

  /** With one room a peer and one name a socket, every run stays consistent. */
  lemma {:induction false} DisciplinedRunsConsistent(steps: seq<Step>, home: Id -> Id, voice: Socket -> Id)
    requires Possible(steps) && forall i :: 0 <= i < |steps| ==> Disciplined(steps[i], home, voice)
    ensures AllFit(steps) && AlwaysConsistent(steps) && AtHome(After(steps), home, voice)
  {
    hide Inv, Next, Enabled, StepFits, Disciplined;
    if steps != [] {
      DisciplinedRunsConsistent(Before(steps), home, voice);
      var st, step := After(Before(steps)), Last(steps);
      DisciplinedFits(st, step, home, voice);
      if step.JoinMsg? {
        JoinStaysHome(st, step, home, voice);
      } else {
        OthersList(st, step);
      }
    }
    RunConsistentIff(steps);
  }

  lemma JoinStaysHome(st: Server, step: Step, home: Id -> Id, voice: Socket -> Id)
    requires Inv(st) && Enabled(st, step) && step.JoinMsg? && AtHome(st, home, voice)
    requires StepFits(st, step) && Disciplined(step, home, voice)
    ensures AtHome(Next(st, step), home, voice)
  {
    hide Inv, Join, JoinFits;
    JoinLists(st, step.ws, step.room, step.peer);
  }
}
