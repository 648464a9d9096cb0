/** Whole runs of the signaling server: what every step keeps, and what a held seat has
    waiting for it. */
module SignalingRuns {
  import opened Options
  import opened Seats
  import opened Signaling
  import opened SignalingSafety
  import opened SignalingJoin

  // Socket deaths, timers and the control plane

  lemma CloseKeepsInv(st: Server, ws: Socket)
    requires Inv(st) && ws in st.sent && ws !in st.wsIndex
    ensures Inv(st.(open := st.open - {ws}, closed := st.closed + {ws}))
  {
    hide Roster, SeatSound;
    var t := st.(open := st.open - {ws}, closed := st.closed + {ws});
    forall p | p in t.peerIndex
      ensures t.peerIndex[p].room in t.rooms && p in t.rooms[t.peerIndex[p].room] && SeatSound(t, p)
    {
      SeatOf(st, p);
      assert SeatSound(st, p);
      SeatStays(st, t, p);
    }
  }

  /** Holding a seat keeps everyone in the room and tells nobody. */
  lemma HoldShape(st: Server, ws: Socket)
    requires Structured(st) && ws in st.wsIndex
    ensures var t, p, r := Disconnect(st, ws), st.wsIndex[ws], st.peerIndex[st.wsIndex[ws]].room;
            && r in st.rooms && p in st.rooms[r]
            && t == st.(open := st.open - {ws}, closed := st.closed + {ws}, wsIndex := st.wsIndex - {ws},
                        rooms := st.rooms[r := st.rooms[r][p := Seat(None, true, [], 0)]])
  {
    LiveSeat(st, ws);
    assert SeatSound(st, st.wsIndex[ws]);
  }

  lemma HoldKeepsStructure(st: Server, ws: Socket)
    requires Structured(st) && ws in st.wsIndex
    ensures Structured(Disconnect(st, ws))
  {
    hide SeatSound, Disconnect;
    HoldShape(st, ws);
    LiveSeat(st, ws);
    var t, p := Disconnect(st, ws), st.wsIndex[ws];
    forall q | q in t.peerIndex
      ensures t.peerIndex[q].room in t.rooms && q in t.rooms[t.peerIndex[q].room] && SeatSound(t, q)
    {
      SeatOf(st, q);
      if q == p {
        HeldIsSound(t, p);
      } else {
        assert SeatSound(st, q);
        SeatStays(st, t, q);
      }
    }
  }

  lemma HeldIsSound(t: Server, p: Id)
    requires p in t.peerIndex && t.peerIndex[p].room in t.rooms && p in RoomOf(t, p)
    requires RoomOf(t, p)[p] == Seat(None, true, [], 0) && t.peerIndex[p].ws in t.closed
    ensures SeatSound(t, p)
  {
  }

  lemma DisconnectKeepsInv(st: Server, ws: Socket)
    requires Inv(st) && ws in st.sent && ws !in st.closed
    ensures Inv(Disconnect(st, ws))
  {
    hide Inv, Structured, Roster, SeatSound, SeatsSound, IndexesAgree, SocketsAgree, RostersAgree;
    InvIsStructured(st);
    if ws !in st.wsIndex {
      CloseKeepsInv(st, ws);
    } else {
      HoldShape(st, ws);
      HoldKeepsStructure(st, ws);
      var t := Disconnect(st, ws);
      hide Disconnect;
      forall w | w in t.wsIndex && w in t.open
        ensures RosterAgrees(t, w)
      {
        RosterHeld(st, w);
        assert RoomOf(t, t.wsIndex[w]).Keys == RoomOf(st, t.wsIndex[w]).Keys;
      }
      RostersOneByOne(t);
    }
  }

  /** The timer's departure is the ordinary one: the seat's own value does not matter. */
  lemma ExpireIsLeave(st: Server, roomId: Id, peerId: Id)
    requires Structured(st)
    ensures var held := roomId in st.rooms && peerId in st.rooms[roomId] && st.rooms[roomId][peerId].ws == None;
            Expire(st, roomId, peerId) == if held then Leave(st, roomId, peerId) else st
    ensures roomId in st.rooms && peerId in st.rooms[roomId] ==>
            peerId in st.peerIndex && st.peerIndex[peerId].room == roomId
  {
    hide Announce;
    if roomId in st.rooms && peerId in st.rooms[roomId] {
      assert SeatSound(st, peerId);
      var room := st.rooms[roomId];
      var st1 := st.(rooms := st.rooms[roomId := room[peerId := room[peerId].(timer := false)]]);
      assert st1.rooms[roomId] - {peerId} == room - {peerId};
      assert st1.rooms[roomId := room - {peerId}] == st.rooms[roomId := room - {peerId}];
    }
  }

  lemma ExpireKeepsInv(st: Server, roomId: Id, peerId: Id)
    requires Inv(st)
    ensures Inv(Expire(st, roomId, peerId))
  {
    hide Inv, Structured, Expire, Leave;
    InvIsStructured(st);
    ExpireIsLeave(st, roomId, peerId);
    if roomId in st.rooms && peerId in st.rooms[roomId] && st.rooms[roomId][peerId].ws == None {
      LeaveKeepsInv(st, roomId, peerId);
    }
  }

  /** Queues of held seats may change; nothing else in a room does. */
  predicate QueuesOnly(room: Room, after: Room) {
    && after.Keys == room.Keys
    && forall p :: p in room ==>
         || after[p] == room[p]
         || (room[p].ws == None &&
           after[p] == room[p].(queue := after[p].queue, queuedBytes := Bytes(after[p].queue)) && Fits(after[p].queue))
  }

  lemma QueuesKeepInv(st: Server, roomId: Id, after: Room)
    requires Inv(st) && roomId in st.rooms && QueuesOnly(st.rooms[roomId], after)
    ensures Inv(st.(rooms := st.rooms[roomId := after]))
  {
    hide Inv, Roster, SeatSound, SeatsSound, RostersAgree;
    InvIsStructured(st);
    var t := st.(rooms := st.rooms[roomId := after]);
    assert IndexesAgree(t) by {
      hide SocketsAgree;
    }
    hide IndexesAgree, SocketsAgree;
    QueuesKeepSeats(st, roomId, after);
    forall w | w in t.wsIndex && w in t.open
      ensures RosterAgrees(t, w)
    {
      RosterHeld(st, w);
      assert RoomOf(t, t.wsIndex[w]).Keys == RoomOf(st, t.wsIndex[w]).Keys;
    }
    RostersOneByOne(t);
  }

  lemma QueuesKeepSeats(st: Server, roomId: Id, after: Room)
    requires Structured(st) && roomId in st.rooms && QueuesOnly(st.rooms[roomId], after)
    requires IndexesAgree(st.(rooms := st.rooms[roomId := after]))
    ensures SeatsSound(st.(rooms := st.rooms[roomId := after]))
  {
    hide SocketsAgree;
    var t := st.(rooms := st.rooms[roomId := after]);
    forall p | p in t.peerIndex
      ensures t.peerIndex[p].room in t.rooms && p in t.rooms[t.peerIndex[p].room] && SeatSound(t, p)
    {
      SeatOf(st, p);
      SeatOf(t, p);
      assert SeatSound(st, p);
    }
  }

  lemma QueueHeldIsQueuesOnly(room: Room, from: Id, payload: string)
    ensures QueuesOnly(room, QueueHeld(room, from, payload))
  {
  }

  /** Is it the same frames, followed by data only? */
  predicate DataAdded(before: seq<Frame>, after: seq<Frame>) {
    && before <= after && forall i :: |before| <= i < |after| ==> after[i].Data?
  }

  lemma DataSentKeepsInv(st: Server, t: Server)
    requires Inv(st) && t == st.(sent := t.sent) && t.sent.Keys == st.sent.Keys
    requires forall w :: w in t.sent ==> DataAdded(st.sent[w], t.sent[w])
    ensures Inv(t)
  {
    hide Inv, Roster;
    forall w | w in st.sent
      ensures Roster(t.sent[w]) == Roster(st.sent[w])
    {
      var n := |st.sent[w]|;
      assert DataAdded(st.sent[w], t.sent[w]);
      assert t.sent[w] == st.sent[w] + t.sent[w][n..];
      DataKeepsRoster(st.sent[w], t.sent[w][n..]);
    }
    InvIsStructured(st);
    SocketsSent(st);
    SentKeepsInv(st, t.sent);
  }

  lemma RelayKeepsInv(st: Server, ws: Socket, roomId: Id, from: Id, to: Option<Id>, payload: string)
    requires Inv(st)
    ensures Inv(RelayData(st, ws, roomId, from, to, payload))
  {
    hide Inv, Roster, QueueHeld, QueuesOnly;
    if roomId in st.rooms {
      var room := st.rooms[roomId];
      if !(ws in st.wsIndex && st.wsIndex[ws] == from) {
        ErrorKeepsInv(st, ws, "relay from mismatch");
      } else if to == None {
        AnnounceShape(st, room, from, Data(payload));
        DataSentKeepsInv(st, Announce(st, room, from, Data(payload)));
        QueueHeldIsQueuesOnly(room, from, payload);
        QueuesKeepInv(Announce(st, room, from, Data(payload)), roomId, QueueHeld(room, from, payload));
      } else if to.value in room {
        if room[to.value].ws == None {
          OneQueueOnly(room, to.value, payload);
          QueuesKeepInv(st, roomId, room[to.value := Queued(room[to.value], payload)]);
        } else {
          DataSentKeepsInv(st, Send(st, room[to.value].ws.value, Data(payload)));
        }
      }
    }
  }

  lemma OneQueueOnly(room: Room, p: Id, payload: string)
    requires p in room && room[p].ws == None
    ensures QueuesOnly(room, room[p := Queued(room[p], payload)])
  {
  }

  // Every step

  predicate StepFits(st: Server, step: Step) {
    match step
    case JoinMsg(ws, room, peer) => JoinFits(st, ws, room, peer)
    case LeaveMsg(ws, room, peer) => LeaveFits(st, ws, room, peer)
    case _ => true
  }

  lemma ConnectKeepsInv(st: Server, ws: Socket)
    requires Inv(st) && ws !in st.sent
    ensures Inv(st.(sent := st.sent[ws := []], open := st.open + {ws}))
  {
    hide Roster, SeatSound;
    var t := st.(sent := st.sent[ws := []], open := st.open + {ws});
    forall p | p in t.peerIndex
      ensures t.peerIndex[p].room in t.rooms && p in t.rooms[t.peerIndex[p].room] && SeatSound(t, p)
    {
      SeatOf(st, p);
      assert SeatSound(st, p);
      SeatStays(st, t, p);
    }
  }

  lemma BreakKeepsInv(st: Server, ws: Socket)
    requires Inv(st)
    ensures Inv(st.(open := st.open - {ws}))
  {
    hide Roster, SeatSound;
    var t := st.(open := st.open - {ws});
    forall p | p in t.peerIndex
      ensures t.peerIndex[p].room in t.rooms && p in t.rooms[t.peerIndex[p].room] && SeatSound(t, p)
    {
      SeatOf(st, p);
      assert SeatSound(st, p);
      SeatStays(st, t, p);
    }
  }

  /** A step keeps the server consistent exactly when it is not a misplaced join or leave. */
  lemma StepKeepsInvIff(st: Server, step: Step)
    requires Inv(st) && Enabled(st, step)
    ensures Inv(Next(st, step)) <==> StepFits(st, step)
  {
    hide Inv, Join, LeaveMessage, RelayData, Disconnect, Expire, JoinFits, LeaveFits;
    match step
    case Connect(ws) => ConnectKeepsInv(st, ws);
    case JoinMsg(ws, room, peer) => JoinKeepsInvIff(st, ws, room, peer);
    case LeaveMsg(ws, room, peer) => LeaveKeepsInvIff(st, ws, room, peer);
    case DataMsg(ws, room, from, to, payload) => RelayKeepsInv(st, ws, room, from, to, payload);
    case Break(ws) => BreakKeepsInv(st, ws);
    case Close(ws) => DisconnectKeepsInv(st, ws);
    case Timeout(room, peer) => ExpireKeepsInv(st, room, peer);
  }
}
