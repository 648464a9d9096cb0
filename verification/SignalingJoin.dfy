/** Joining, resuming and giving up an earlier seat: exactly which joins keep the
    server's indexes, seats and rosters in agreement. */
module SignalingJoin {
  import opened Options
  import opened Seats
  import opened Signaling
  import opened SignalingSafety

  // One seat taken or retaken

  function Members(st: Server, roomId: Id): Room {
    if roomId in st.rooms then st.rooms[roomId] else map[]
  }

  /** The socket a returning peer leaves behind. */
  function Stale(st: Server, ws: Socket, roomId: Id, peerId: Id): set<Socket> {
    var room := Members(st, roomId);
    if peerId in room && room[peerId].ws.Some? && room[peerId].ws != Some(ws) then {room[peerId].ws.value} else {}
  }

  /** What resuming and joining anew both do to the indexes. */
  function Placed(st: Server, ws: Socket, roomId: Id, peerId: Id): Server {
    var stale := Stale(st, ws, roomId, peerId);
    st.(wsIndex := (st.wsIndex - stale)[ws := peerId], open := st.open - stale,
        peerIndex := st.peerIndex[peerId := Entry(roomId, ws)],
        rooms := st.rooms[roomId := Members(st, roomId)[peerId := Seat(Some(ws), false, [], 0)]])
  }

  /** The socket is live and speaks for nobody else, and the peer sits nowhere else. */
  predicate Placeable(st: Server, ws: Socket, roomId: Id, peerId: Id) {
    && ws in st.sent && ws !in st.closed
    && (ws in st.wsIndex ==> st.wsIndex[ws] == peerId)
    && (peerId in st.peerIndex ==> st.peerIndex[peerId].room == roomId)
  }

  lemma PlacedKeepsIndexes(st: Server, ws: Socket, roomId: Id, peerId: Id)
    requires IndexesAgree(st) && Placeable(st, ws, roomId, peerId)
    ensures IndexesAgree(Placed(st, ws, roomId, peerId))
  {
    hide Stale;
    var t := Placed(st, ws, roomId, peerId);
    assert peerId in t.rooms[roomId];
    forall q | q in t.peerIndex
      ensures t.peerIndex[q].room in t.rooms && q in t.rooms[t.peerIndex[q].room]
    {
      if q != peerId {
        SeatOf(st, q);
      }
    }
    forall r, q | r in t.rooms && q in t.rooms[r]
      ensures q in t.peerIndex && t.peerIndex[q].room == r
    {
      if q != peerId {
        assert r in st.rooms && q in st.rooms[r];
      }
    }
  }

  /** What is known of a stale socket: it spoke for the returning peer. */
  lemma StaleIsPeers(st: Server, ws: Socket, roomId: Id, peerId: Id)
    requires Structured(st)
    ensures forall w :: w in Stale(st, ws, roomId, peerId) ==>
              w != ws && w in st.wsIndex && st.wsIndex[w] == peerId && st.peerIndex[peerId].ws == w
    ensures peerId in st.peerIndex && st.peerIndex[peerId].room == roomId && st.peerIndex[peerId].ws in st.wsIndex ==>
              st.peerIndex[peerId].ws == ws || st.peerIndex[peerId].ws in Stale(st, ws, roomId, peerId)
  {
    if peerId in Members(st, roomId) {
      assert SeatSound(st, peerId);
    } else if peerId in st.peerIndex {
      SeatOf(st, peerId);
    }
  }

  lemma PlacedKeepsSockets(st: Server, ws: Socket, roomId: Id, peerId: Id)
    requires Structured(st) && Placeable(st, ws, roomId, peerId)
    ensures SocketsAgree(Placed(st, ws, roomId, peerId))
  {
    hide Stale, Structured, IndexesAgree, SeatsSound, Members;
    StructuredSockets(st);
    StaleIsPeers(st, ws, roomId, peerId);
  }

  lemma StructuredSockets(st: Server)
    requires Structured(st)
    ensures SocketsAgree(st)
  {
  }

  lemma PlacedKeepsSeats(st: Server, ws: Socket, roomId: Id, peerId: Id)
    requires Structured(st) && Placeable(st, ws, roomId, peerId) && IndexesAgree(Placed(st, ws, roomId, peerId))
    ensures SeatsSound(Placed(st, ws, roomId, peerId))
  {
    hide Stale, SeatSound;
    StaleIsPeers(st, ws, roomId, peerId);
    var t := Placed(st, ws, roomId, peerId);
    forall q | q in t.peerIndex
      ensures t.peerIndex[q].room in t.rooms && q in t.rooms[t.peerIndex[q].room] && SeatSound(t, q)
    {
      if q == peerId {
        NewSeatSound(t, ws, roomId, peerId);
      } else {
        SeatOf(st, q);
        SeatOf(t, q);
        assert SeatSound(st, q);
        SeatStays(st, t, q);
      }
    }
  }

  lemma NewSeatSound(t: Server, ws: Socket, roomId: Id, peerId: Id)
    requires roomId in t.rooms && peerId in t.rooms[roomId] && t.rooms[roomId][peerId] == Seat(Some(ws), false, [], 0)
    requires peerId in t.peerIndex && t.peerIndex[peerId] == Entry(roomId, ws) && ws in t.wsIndex &&
             t.wsIndex[ws] == peerId
    ensures SeatSound(t, peerId)
  {
  }

  lemma PlacedIsStructured(st: Server, ws: Socket, roomId: Id, peerId: Id)
    requires Structured(st) && Placeable(st, ws, roomId, peerId)
    ensures Structured(Placed(st, ws, roomId, peerId))
  {
    PlacedKeepsIndexes(st, ws, roomId, peerId);
    PlacedKeepsSockets(st, ws, roomId, peerId);
    PlacedKeepsSeats(st, ws, roomId, peerId);
  }

  // The frames that go with it

  lemma SendShape(st: Server, ws: Socket, frames: seq<Frame>)
    requires ws in st.sent
    ensures var t := SendAll(st, ws, frames);
            && t == st.(sent := t.sent) && t.sent.Keys == st.sent.Keys
            && (forall w :: w in t.sent && w != ws ==> t.sent[w] == st.sent[w])
            && t.sent[ws] == if ws in st.open then st.sent[ws] + frames else st.sent[ws]
  {
  }

  lemma AnnounceShape(st: Server, room: Room, sender: Id, f: Frame)
    ensures var t := Announce(st, room, sender, f);
            && t == st.(sent := t.sent) && t.sent.Keys == st.sent.Keys
            && forall w :: w in t.sent ==>
               t.sent[w] == if w in st.open then st.sent[w] + Copies(room, sender, f, w) else st.sent[w]
  {
    hide Copies;
  }

  lemma SeatedIsPlaced(st: Server, ws: Socket, roomId: Id, peerId: Id)
    requires peerId !in Members(st, roomId)
    ensures var u := Placed(st, ws, roomId, peerId);
            && roomId in u.rooms
            && Seated(Entered(st, roomId), ws, roomId, peerId) ==
               Announce(Send(u, ws, Peers(roomId, Members(st, roomId).Keys - {peerId}, false)), u.rooms[roomId],
                 peerId, Joined(roomId, peerId))
  {
    hide Announce, SendAll;
    var u := Placed(st, ws, roomId, peerId);
    var e := Entered(st, roomId);
    var grown := u.rooms[roomId];
    assert grown == Members(st, roomId)[peerId := Seat(Some(ws), false, [], 0)];
    assert grown.Keys - {peerId} == Members(st, roomId).Keys - {peerId};
    assert e.rooms[roomId := grown] == u.rooms;
    assert u.open == e.open && u.wsIndex == e.wsIndex[ws := peerId];
  }

  /** The joiner hears its list, not its own arrival. */
  lemma SeatedShape(st: Server, ws: Socket, roomId: Id, peerId: Id)
    requires Structured(st) && Placeable(st, ws, roomId, peerId) && peerId !in Members(st, roomId)
    ensures var t, u := Seated(Entered(st, roomId), ws, roomId, peerId), Placed(st, ws, roomId, peerId);
            && roomId in u.rooms && t == u.(sent := t.sent) && t.sent.Keys == st.sent.Keys
            && forall w :: w in t.sent && w in u.open ==>
                 && (w == ws ==> t.sent[w] == st.sent[w] + [Peers(roomId, Members(st, roomId).Keys - {peerId}, false)])
                 && (w != ws ==>
                     t.sent[w] == if Reached(u.rooms[roomId], peerId, w) then st.sent[w] + [Joined(roomId, peerId)]
                                  else st.sent[w])
    ensures var t, u := Seated(Entered(st, roomId), ws, roomId, peerId), Placed(st, ws, roomId, peerId);
            forall w :: w in st.sent && w !in u.open ==> t.sent[w] == st.sent[w]
  {
    hide Copies, Reached, Structured, Placed, Placeable, Seated, Entered, Announce, SendAll, Members;
    PlaceableSocket(st, ws, roomId, peerId);
    SeatedIsPlaced(st, ws, roomId, peerId);
    NotReachedItself(st, ws, roomId, peerId);
    var u := Placed(st, ws, roomId, peerId);
    PlacedOwn(st, ws, roomId, peerId);
    PlacedIsStructured(st, ws, roomId, peerId);
    AllToldOnce(u, roomId, peerId, Joined(roomId, peerId));
    var peers := Peers(roomId, Members(st, roomId).Keys - {peerId}, false);
    SendShape(u, ws, [peers]);
    var sent := Send(u, ws, peers);
    AnnounceShape(sent, u.rooms[roomId], peerId, Joined(roomId, peerId));
    forall w | w in sent.sent
      ensures sent.sent[w] + [] == sent.sent[w]
    {
    }
  }

  lemma PlaceableSocket(st: Server, ws: Socket, roomId: Id, peerId: Id)
    requires Placeable(st, ws, roomId, peerId)
    ensures ws in st.sent
  {
  }

  lemma AllToldOnce(st: Server, r: Id, sender: Id, f: Frame)
    requires Structured(st) && r in st.rooms
    ensures forall ws :: Copies(st.rooms[r], sender, f, ws) == if Reached(st.rooms[r], sender, ws) then [f] else []
  {
    hide Structured, Reached, Copies;
    forall ws
      ensures Copies(st.rooms[r], sender, f, ws) == if Reached(st.rooms[r], sender, ws) then [f] else []
    {
      ToldOnce(st, r, sender, f, ws);
    }
  }

  lemma NotReachedItself(st: Server, ws: Socket, roomId: Id, peerId: Id)
    requires Structured(st) && Placeable(st, ws, roomId, peerId)
    ensures !Reached(Placed(st, ws, roomId, peerId).rooms[roomId], peerId, ws)
  {
    PlacedIsStructured(st, ws, roomId, peerId);
    hide Reached, Structured;
    ReachedIsSeat(Placed(st, ws, roomId, peerId), roomId, peerId, ws);
  }

  lemma ResumeIsPlaced(st: Server, ws: Socket, roomId: Id, peerId: Id)
    requires roomId in st.rooms && peerId in st.rooms[roomId]
    ensures Resume(st, ws, roomId, peerId) ==
            SendAll(Send(Placed(st, ws, roomId, peerId), ws, Peers(roomId, st.rooms[roomId].Keys - {peerId}, true)),
              ws, Replay(st.rooms[roomId][peerId].queue))
  {
    hide SendAll, Replay;
  }

  lemma ResumeShape(st: Server, ws: Socket, roomId: Id, peerId: Id)
    requires roomId in st.rooms && peerId in st.rooms[roomId] && ws in st.sent
    ensures var t, u := Resume(st, ws, roomId, peerId), Placed(st, ws, roomId, peerId);
            && t == u.(sent := t.sent) && t.sent.Keys == st.sent.Keys
            && (forall w :: w in t.sent && w != ws ==> t.sent[w] == st.sent[w])
            && (ws !in u.open ==> t.sent[ws] == st.sent[ws])
            && (ws in u.open ==>
                  t.sent[ws] == st.sent[ws] + [Peers(roomId, st.rooms[roomId].Keys - {peerId}, true)] +
                    Replay(st.rooms[roomId][peerId].queue))
  {
    hide SendAll, Replay, Resume;
    ResumeIsPlaced(st, ws, roomId, peerId);
    var u := Placed(st, ws, roomId, peerId);
    var peers := Peers(roomId, st.rooms[roomId].Keys - {peerId}, true);
    SendShape(u, ws, [peers]);
    SendShape(Send(u, ws, peers), ws, Replay(st.rooms[roomId][peerId].queue));
  }

  /** What the other clients' rosters have to match after the seat is taken. */
  lemma PlacedOther(st: Server, ws: Socket, roomId: Id, peerId: Id, w: Socket)
    requires Inv(st) && Placeable(st, ws, roomId, peerId)
    requires var u := Placed(st, ws, roomId, peerId); w != ws && w in u.wsIndex && w in u.open
    ensures w in st.wsIndex && w in st.open && w in st.sent
    ensures var u, q := Placed(st, ws, roomId, peerId), st.wsIndex[w];
            && u.wsIndex[w] == q && q != peerId && q in st.peerIndex && q in u.peerIndex &&
               u.peerIndex[q] == st.peerIndex[q]
            && st.peerIndex[q].room in st.rooms && st.peerIndex[q].room in u.rooms
            && RoomOf(u, q).Keys == RoomOf(st, q).Keys + (if st.peerIndex[q].room == roomId then {peerId} else {})
            && Roster(st.sent[w]) == RoomOf(st, q).Keys - {q}
  {
    hide Roster, SeatsSound, SeatSound, Stale, Reached, Inv, IndexesAgree, RostersAgree;
    InvIsStructured(st);
    StaleIsPeers(st, ws, roomId, peerId);
    SocketsSent(st);
    LiveSeat(st, w);
    RosterHeld(st, w);
  }

  lemma RosterHeld(st: Server, w: Socket)
    requires Inv(st) && w in st.wsIndex && w in st.open
    ensures RosterAgrees(st, w)
  {
    hide Roster, SeatSound;
  }

  lemma SeatedRoster(st: Server, ws: Socket, roomId: Id, peerId: Id, w: Socket)
    requires Inv(st) && Placeable(st, ws, roomId, peerId) && peerId !in Members(st, roomId)
    requires var t := Seated(Entered(st, roomId), ws, roomId, peerId); w in t.wsIndex && w in t.open && Structured(t)
    ensures RosterAgrees(Seated(Entered(st, roomId), ws, roomId, peerId), w)
  {
    hide Seated, Entered, Reached, Roster, Structured, Inv, Placed, Placeable, Members, IndexesAgree, SocketsAgree,
         SeatsSound, RostersAgree;
    InvIsStructured(st);
    SeatedShape(st, ws, roomId, peerId);
    PlacedOwn(st, ws, roomId, peerId);
    PlacedIsStructured(st, ws, roomId, peerId);
    var t, u := Seated(Entered(st, roomId), ws, roomId, peerId), Placed(st, ws, roomId, peerId);
    SocketsSent(t);
    if w == ws {
      RosterSnoc(st.sent[w], Peers(roomId, Members(st, roomId).Keys - {peerId}, false));
    } else {
      PlacedOther(st, ws, roomId, peerId, w);
      ReachedIsSeat(u, roomId, peerId, w);
      RosterSnoc(st.sent[w], Joined(roomId, peerId));
    }
  }

  lemma SeatedKeepsInv(st: Server, ws: Socket, roomId: Id, peerId: Id)
    requires Inv(st) && Placeable(st, ws, roomId, peerId) && peerId !in Members(st, roomId)
    ensures Inv(Seated(Entered(st, roomId), ws, roomId, peerId))
  {
    SeatedShape(st, ws, roomId, peerId);
    PlacedIsStructured(st, ws, roomId, peerId);
    var t, u := Seated(Entered(st, roomId), ws, roomId, peerId), Placed(st, ws, roomId, peerId);
    hide *;
    SentKeepsStructure(u, t.sent);
    forall w | w in t.wsIndex && w in t.open
      ensures RosterAgrees(t, w)
    {
      SeatedRoster(st, ws, roomId, peerId, w);
    }
    RostersOneByOne(t);
  }

  lemma ResumeRoster(st: Server, ws: Socket, roomId: Id, peerId: Id, w: Socket)
    requires Inv(st) && Placeable(st, ws, roomId, peerId) && roomId in st.rooms && peerId in st.rooms[roomId]
    requires var t := Resume(st, ws, roomId, peerId); w in t.wsIndex && w in t.open && Structured(t)
    ensures RosterAgrees(Resume(st, ws, roomId, peerId), w)
  {
    ResumeShape(st, ws, roomId, peerId);
    PlacedOwn(st, ws, roomId, peerId);
    var t := Resume(st, ws, roomId, peerId);
    assert Members(st, roomId) == st.rooms[roomId];
    hide Resume, Roster, Structured, Inv, Placed, Placeable, Members, IndexesAgree, SocketsAgree, SeatsSound,
         RostersAgree;
    SocketsSent(t);
    if w == ws {
      var peers, replay :=
        Peers(roomId, st.rooms[roomId].Keys - {peerId}, true), Replay(st.rooms[roomId][peerId].queue);
      RosterSnoc(st.sent[w], peers);
      DataKeepsRoster(st.sent[w] + [peers], replay);
    } else {
      PlacedOther(st, ws, roomId, peerId, w);
    }
  }

  lemma ResumeKeepsInv(st: Server, ws: Socket, roomId: Id, peerId: Id)
    requires Inv(st) && Placeable(st, ws, roomId, peerId) && roomId in st.rooms && peerId in st.rooms[roomId]
    ensures Inv(Resume(st, ws, roomId, peerId))
  {
    assert ws in st.sent;
    ResumeShape(st, ws, roomId, peerId);
    PlacedIsStructured(st, ws, roomId, peerId);
    var t, u := Resume(st, ws, roomId, peerId), Placed(st, ws, roomId, peerId);
    hide *;
    SentKeepsStructure(u, t.sent);
    forall w | w in t.wsIndex && w in t.open
      ensures RosterAgrees(t, w)
    {
      ResumeRoster(st, ws, roomId, peerId, w);
    }
    RostersOneByOne(t);
  }

  lemma PlacedOwn(st: Server, ws: Socket, roomId: Id, peerId: Id)
    ensures var u := Placed(st, ws, roomId, peerId);
            && u.sent == st.sent && ws in u.wsIndex && u.wsIndex[ws] == peerId && peerId in u.peerIndex &&
               u.peerIndex[peerId] == Entry(roomId, ws)
            && roomId in u.rooms && u.rooms[roomId].Keys == Members(st, roomId).Keys + {peerId}
            && u.open <= st.open
  {
  }

  predicate RosterAgrees(t: Server, w: Socket) {
    && w in t.sent && w in t.wsIndex && t.wsIndex[w] in t.peerIndex && t.peerIndex[t.wsIndex[w]].room in t.rooms
    && Roster(t.sent[w]) == RoomOf(t, t.wsIndex[w]).Keys - {t.wsIndex[w]}
  }

  lemma RostersOneByOne(t: Server)
    requires Structured(t) && forall w :: w in t.wsIndex && w in t.open ==> RosterAgrees(t, w)
    ensures Inv(t)
  {
    hide Roster, SeatSound;
  }

  lemma SentKeepsStructure(st: Server, sent: map<Socket, seq<Frame>>)
    requires Structured(st) && sent.Keys == st.sent.Keys
    ensures Structured(st.(sent := sent))
  {
    hide SeatSound;
    var t := st.(sent := sent);
    forall p | p in st.peerIndex && st.peerIndex[p].room in st.rooms && p in st.rooms[st.peerIndex[p].room]
      ensures SeatSound(st, p) <==> SeatSound(t, p)
    {
      SentIsNoSeat(st, sent, p);
    }
  }

  // The whole of a join

  /** What the handler does once the earlier seat, if any, is given up. */
  function Settle(st: Server, ws: Socket, roomId: Id, peerId: Id): Server {
    if roomId in st.rooms && peerId in st.rooms[roomId] then Resume(st, ws, roomId, peerId)
    else Seated(st, ws, roomId, peerId)
  }

  lemma SettleKeepsInv(st: Server, ws: Socket, roomId: Id, peerId: Id)
    requires Inv(st) && Placeable(st, ws, roomId, peerId)
    ensures Inv(Settle(Entered(st, roomId), ws, roomId, peerId))
  {
    hide Inv, Placeable, Resume, Seated;
    if peerId in Members(st, roomId) {
      assert Entered(st, roomId) == st;
      ResumeKeepsInv(st, ws, roomId, peerId);
    } else {
      SeatedKeepsInv(st, ws, roomId, peerId);
    }
  }

  lemma EnterSent(st: Server, r: Id, p: Id, roomId: Id)
    requires r in st.rooms && p in st.peerIndex
    ensures Leave(Entered(st, roomId), r, p).sent == Leave(st, r, p).sent
  {
    hide Leave, Copies;
    LeaveShape(st, r, p);
    LeaveShape(Entered(st, roomId), r, p);
  }

  /** Opening the room first or leaving the other room first comes to the same. */
  lemma LeaveThenEnter(st: Server, r: Id, p: Id, roomId: Id)
    requires r in st.rooms && p in st.peerIndex && (r == roomId ==> st.rooms[r] - {p} != map[])
    ensures Leave(Entered(st, roomId), r, p) == Entered(Leave(st, r, p), roomId)
  {
    hide Leave;
    EnterSent(st, r, p, roomId);
    LeaveRooms(st, r, p);
    LeaveRooms(Entered(st, roomId), r, p);
    RoomsCommute(st.rooms, r, st.rooms[r] - {p}, roomId);
  }

  function Opened(rooms: map<Id, Room>, roomId: Id): map<Id, Room> {
    if roomId in rooms then rooms else rooms[roomId := map[]]
  }

  function Shrunk(rooms: map<Id, Room>, r: Id, rest: Room): map<Id, Room> {
    if rest == map[] then rooms - {r} else rooms[r := rest]
  }

  lemma RoomsCommute(rooms: map<Id, Room>, r: Id, rest: Room, roomId: Id)
    requires r in rooms && (r == roomId ==> rest != map[])
    ensures Shrunk(Opened(rooms, roomId), r, rest) == Opened(Shrunk(rooms, r, rest), roomId)
  {
  }

  lemma LeaveRooms(st: Server, r: Id, p: Id)
    requires r in st.rooms && p in st.peerIndex
    ensures var t := Leave(st, r, p);
            && t == st.(rooms := t.rooms, sent := t.sent, peerIndex := st.peerIndex - {p},
                        wsIndex := st.wsIndex - {st.peerIndex[p].ws})
            && t.rooms == Shrunk(st.rooms, r, st.rooms[r] - {p})
  {
    hide Leave, Copies;
    LeaveShape(st, r, p);
  }

  /** A leave takes nobody else out of any room and puts nobody into one. */
  lemma LeaveSpares(st: Server, r: Id, p: Id, q: Id, o: Id)
    requires r in st.rooms && p in st.peerIndex && q != p
    ensures var t := Leave(st, r, p);
            o in t.rooms && q in t.rooms[o] <==> o in st.rooms && q in st.rooms[o]
  {
    hide Leave;
    LeaveRooms(st, r, p);
    if o == r && q in st.rooms[r] {
      assert q in st.rooms[r] - {p};
    }
  }

  /** The other seat a joining socket gives up. */
  predicate HasPrior(st: Server, ws: Socket, peerId: Id) { ws in st.wsIndex && st.wsIndex[ws] != peerId }

  /** When a join keeps the server consistent: the peer sits in no other room, and the
      socket does not empty this very room by giving up the seat it had in it. */
  predicate JoinFits(st: Server, ws: Socket, roomId: Id, peerId: Id) {
    && (peerId in st.peerIndex ==> st.peerIndex[peerId].room == roomId)
    && !(HasPrior(st, ws, peerId) && roomId in st.rooms && st.rooms[roomId].Keys == {st.wsIndex[ws]})
  }

  /** A fitting join is a plain leave, if need be, followed by taking the seat. */
  lemma JoinIsSettle(st: Server, ws: Socket, roomId: Id, peerId: Id)
    requires Structured(st) && JoinFits(st, ws, roomId, peerId)
    ensures HasPrior(st, ws, peerId) ==> st.wsIndex[ws] in st.peerIndex
    ensures var g := if HasPrior(st, ws, peerId) then Leave(st, st.peerIndex[st.wsIndex[ws]].room, st.wsIndex[ws])
                     else st;
            Join(st, ws, roomId, peerId) == Settle(Entered(g, roomId), ws, roomId, peerId)
  {
    hide Leave, Resume, Seated, IndexesAgree, SocketsAgree, SeatsSound;
    if HasPrior(st, ws, peerId) {
      LiveSeat(st, ws);
      var prior, r := st.wsIndex[ws], st.peerIndex[st.wsIndex[ws]].room;
      if r == roomId && st.rooms[r] - {prior} == map[] {
        AloneKeys(st.rooms[r], prior);
      }
      LeaveThenEnter(st, r, prior, roomId);
    }
  }

  lemma JoinKeepsInv(st: Server, ws: Socket, roomId: Id, peerId: Id)
    requires Inv(st) && ws in st.sent && ws !in st.closed && JoinFits(st, ws, roomId, peerId)
    ensures Inv(Join(st, ws, roomId, peerId))
  {
    hide Inv, Join, Settle, Leave, IndexesAgree, SocketsAgree, SeatsSound, RostersAgree;
    InvIsStructured(st);
    JoinIsSettle(st, ws, roomId, peerId);
    if HasPrior(st, ws, peerId) {
      var prior := st.wsIndex[ws];
      LiveSeat(st, ws);
      LeaveKeepsInv(st, st.peerIndex[prior].room, prior);
      LeaveShape(st, st.peerIndex[prior].room, prior);
      SettleKeepsInv(Leave(st, st.peerIndex[prior].room, prior), ws, roomId, peerId);
    } else {
      SettleKeepsInv(st, ws, roomId, peerId);
    }
  }

  lemma AloneKeys(room: Room, p: Id)
    requires p in room
    ensures room - {p} == map[] <==> room.Keys == {p}
  {
    if room - {p} == map[] {
      forall q | q in room
        ensures q == p
      {
        assert q != p ==> q in room - {p};
      }
    }
  }

  lemma SeatedIndexes(st: Server, ws: Socket, roomId: Id, peerId: Id)
    ensures var t := Seated(st, ws, roomId, peerId);
            && t.peerIndex == st.peerIndex[peerId := Entry(roomId, ws)]
            && t.rooms.Keys == st.rooms.Keys
            && forall r :: r in st.rooms && r != roomId ==> t.rooms[r] == st.rooms[r]
  {
    hide Copies;
  }

  /** A peer that joins a second room stays listed in the first. */
  lemma SecondRoomBreaks(st: Server, ws: Socket, roomId: Id, peerId: Id)
    requires Inv(st) && peerId in st.peerIndex && st.peerIndex[peerId].room != roomId
    ensures !Inv(Join(st, ws, roomId, peerId))
  {
    hide Leave, Resume, Seated, SocketsAgree, SeatsSound, RostersAgree;
    var other := st.peerIndex[peerId].room;
    SeatOf(st, peerId);
    var e := Entered(st, roomId);
    var g := GiveUpPrior(e, ws, roomId, peerId);
    assert other in e.rooms && peerId in e.rooms[other];
    assert roomId in e.rooms && peerId !in e.rooms[roomId];
    if HasPrior(st, ws, peerId) {
      InvIsStructured(st);
      LiveSeat(st, ws);
      LeaveSpares(e, st.peerIndex[st.wsIndex[ws]].room, st.wsIndex[ws], peerId, other);
      LeaveSpares(e, st.peerIndex[st.wsIndex[ws]].room, st.wsIndex[ws], peerId, roomId);
    }
    SeatedIndexes(g, ws, roomId, peerId);
    var t := Join(st, ws, roomId, peerId);
    assert t == Seated(g, ws, roomId, peerId);
    assert other in t.rooms && peerId in t.rooms[other] && t.peerIndex[peerId].room == roomId;
  }

  /** A socket alone in a room that joins it as someone else lands in a room no longer listed. */
  lemma OrphanBreaks(st: Server, ws: Socket, roomId: Id, peerId: Id)
    requires Inv(st) && HasPrior(st, ws, peerId) && roomId in st.rooms && st.rooms[roomId].Keys == {st.wsIndex[ws]}
    ensures !Inv(Join(st, ws, roomId, peerId))
  {
    hide Leave, Resume, Seated, SocketsAgree, SeatsSound, RostersAgree;
    var prior := st.wsIndex[ws];
    assert prior in st.rooms[roomId];
    assert st.peerIndex[prior].room == roomId;
    AloneKeys(st.rooms[roomId], prior);
    LeaveShape(st, roomId, prior);
    SeatedIndexes(Leave(st, roomId, prior), ws, roomId, peerId);
    assert Join(st, ws, roomId, peerId).peerIndex[peerId].room !in Join(st, ws, roomId, peerId).rooms;
  }

  /** Exactly those joins keep the indexes, the seats and the rosters in agreement. */
  lemma JoinKeepsInvIff(st: Server, ws: Socket, roomId: Id, peerId: Id)
    requires Inv(st) && ws in st.sent && ws !in st.closed
    ensures Inv(Join(st, ws, roomId, peerId)) <==> JoinFits(st, ws, roomId, peerId)
  {
    hide Inv, Join;
    if JoinFits(st, ws, roomId, peerId) {
      JoinKeepsInv(st, ws, roomId, peerId);
    } else if peerId in st.peerIndex && st.peerIndex[peerId].room != roomId {
      SecondRoomBreaks(st, ws, roomId, peerId);
    } else {
      OrphanBreaks(st, ws, roomId, peerId);
    }
  }
}
