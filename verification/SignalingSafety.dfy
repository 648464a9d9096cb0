/** The server's indexes, seats and the clients' rosters agree after every run, exactly
    as long as joins and leaves keep each peer in one room. */
module SignalingSafety {
  import opened Options
  import opened Seats
  import opened Signaling

  // Frames and rosters

  lemma RosterSnoc(frames: seq<Frame>, f: Frame)
    ensures Roster(frames + [f]) == Heard(Roster(frames), f)
  {
    assert (frames + [f])[..|frames|] == frames;
  }

  lemma {:induction false} DataKeepsRoster(frames: seq<Frame>, more: seq<Frame>)
    requires forall i :: 0 <= i < |more| ==> more[i].Data?
    ensures Roster(frames + more) == Roster(frames)
  {
    if more == [] {
      assert frames + more == frames;
    } else {
      var n := |more| - 1;
      DataKeepsRoster(frames, more[..n]);
      RosterSnoc(frames + more[..n], more[n]);
      assert frames + more == frames + more[..n] + [more[n]];
    }
  }

  /** The seat a socket speaks for. */
  lemma LiveSeat(st: Server, ws: Socket)
    requires Structured(st) && ws in st.wsIndex
    ensures var p := st.wsIndex[ws];
            && p in st.peerIndex && st.peerIndex[p].room in st.rooms && p in RoomOf(st, p)
            && RoomOf(st, p)[p].ws == Some(ws) && !RoomOf(st, p)[p].timer && RoomOf(st, p)[p].queue == []
            && st.peerIndex[p].ws == ws
  {
    assert SeatSound(st, st.wsIndex[ws]);
  }

  /** Sockets under the seats of a room, the sender's excepted. */
  predicate Reached(room: Room, sender: Id, ws: Socket) {
    exists id :: id in room && id != sender && room[id].ws == Some(ws)
  }

  /** Within a room, being reached means speaking for one of its other seats. */
  lemma ReachedIsSeat(st: Server, r: Id, sender: Id, ws: Socket)
    requires Structured(st) && r in st.rooms
    ensures Reached(st.rooms[r], sender, ws) <==>
            ws in st.wsIndex && st.wsIndex[ws] != sender && st.peerIndex[st.wsIndex[ws]].room == r
  {
    if Reached(st.rooms[r], sender, ws) {
      var id :| id in st.rooms[r] && id != sender && st.rooms[r][id].ws == Some(ws);
      SeatSocket(st, r, id);
    }
    if ws in st.wsIndex && st.wsIndex[ws] != sender && st.peerIndex[st.wsIndex[ws]].room == r {
      LiveSeat(st, ws);
    }
  }

  /** A seat's socket maps back to it. */
  lemma SeatSocket(st: Server, r: Id, q: Id)
    requires Structured(st) && r in st.rooms && q in st.rooms[r]
    ensures q in st.peerIndex && st.peerIndex[q].room == r
    ensures st.rooms[r][q].ws.Some? ==>
            st.rooms[r][q].ws.value in st.wsIndex && st.wsIndex[st.rooms[r][q].ws.value] == q
  {
    assert SeatSound(st, q);
  }

  /** With the indexes in agreement no two seats share a socket: a broadcast is heard once. */
  lemma ToldOnce(st: Server, r: Id, sender: Id, f: Frame, ws: Socket)
    requires Structured(st) && r in st.rooms
    ensures Copies(st.rooms[r], sender, f, ws) == if Reached(st.rooms[r], sender, ws) then [f] else []
  {
    hide Structured;
    var on := SeatsOn(st.rooms[r], sender, ws);
    if Reached(st.rooms[r], sender, ws) {
      var id :| id in st.rooms[r] && id != sender && st.rooms[r][id].ws == Some(ws);
      forall q | q in on
        ensures q == id
      {
        SeatSocket(st, r, q);
        SeatSocket(st, r, id);
      }
      assert on == {id};
    } else {
      assert on == {};
    }
  }

  // Leaving

  lemma LeaveShape(st: Server, r: Id, p: Id)
    requires r in st.rooms && p in st.peerIndex
    ensures var t := Leave(st, r, p);
            && t.peerIndex == st.peerIndex - {p} && t.wsIndex == st.wsIndex - {st.peerIndex[p].ws}
            && t.open == st.open && t.closed == st.closed && t.sent.Keys == st.sent.Keys
            && t.rooms == (if st.rooms[r] - {p} == map[] then st.rooms - {r} else st.rooms[r := st.rooms[r] - {p}])
            && forall ws :: ws in t.sent ==>
                 t.sent[ws] == if ws in st.open then st.sent[ws] + Copies(st.rooms[r], p, Left(r, p), ws)
                               else st.sent[ws]
  {
    hide Copies;
    forall ws
      ensures Copies(st.rooms[r] - {p}, p, Left(r, p), ws) == Copies(st.rooms[r], p, Left(r, p), ws)
    {
      CopiesWithout(st.rooms[r], p, Left(r, p), ws);
    }
  }

  /** Taking the departed seat out of the room does not change what others are told. */
  lemma CopiesWithout(room: Room, sender: Id, f: Frame, ws: Socket)
    ensures Copies(room - {sender}, sender, f, ws) == Copies(room, sender, f, ws)
  {
    assert SeatsOn(room - {sender}, sender, ws) == SeatsOn(room, sender, ws);
  }

  lemma SeatOf(st: Server, p: Id)
    requires IndexesAgree(st) && p in st.peerIndex
    ensures st.peerIndex[p].room in st.rooms && p in st.rooms[st.peerIndex[p].room]
  {
  }

  /** The three parts of the invariant that do not mention frames. */
  predicate Structured(st: Server) { IndexesAgree(st) && SocketsAgree(st) && SeatsSound(st) }

  lemma InvIsStructured(st: Server)
    requires Inv(st)
    ensures Structured(st)
  {
  }

  lemma LeaveKeepsIndexes(st: Server, r: Id, p: Id)
    requires IndexesAgree(st) && p in st.peerIndex && st.peerIndex[p].room == r
    ensures IndexesAgree(Leave(st, r, p))
  {
    hide Leave, Copies;
    LeaveShape(st, r, p);
    var t := Leave(st, r, p);
    forall q | q in t.peerIndex
      ensures t.peerIndex[q].room in t.rooms && q in t.rooms[t.peerIndex[q].room]
    {
      SeatOf(st, q);
      if st.peerIndex[q].room == r {
        assert q in st.rooms[r] - {p};
      }
    }
  }

  lemma LeaveKeepsSockets(st: Server, r: Id, p: Id)
    requires SocketsAgree(st) && r in st.rooms && p in st.peerIndex
    ensures SocketsAgree(Leave(st, r, p))
  {
    hide Leave, Copies;
    LeaveShape(st, r, p);
  }

  /** A seat stays sound when its own entries stay. */
  lemma SeatStays(st: Server, t: Server, q: Id)
    requires q in st.peerIndex && st.peerIndex[q].room in st.rooms && q in RoomOf(st, q)
    requires q in t.peerIndex && t.peerIndex[q] == st.peerIndex[q]
    requires t.peerIndex[q].room in t.rooms && q in RoomOf(t, q) && RoomOf(t, q)[q] == RoomOf(st, q)[q]
    requires var ws := st.peerIndex[q].ws;
             (ws in st.wsIndex && st.wsIndex[ws] == q ==> ws in t.wsIndex && t.wsIndex[ws] == q) &&
             (ws in st.closed ==> ws in t.closed)
    ensures SeatSound(st, q) ==> SeatSound(t, q)
  {
  }

  /** No socket is claimed twice: a socket listed for a seat maps to that seat or to none. */
  lemma EntryIsOwn(st: Server, p: Id)
    requires Structured(st) && p in st.peerIndex
    ensures st.peerIndex[p].ws in st.wsIndex ==> st.wsIndex[st.peerIndex[p].ws] == p
  {
    assert SeatSound(st, p);
  }

  lemma LeaveKeepsSeats(st: Server, r: Id, p: Id)
    requires Structured(st) && p in st.peerIndex && st.peerIndex[p].room == r && IndexesAgree(Leave(st, r, p))
    ensures SeatsSound(Leave(st, r, p))
  {
    hide Leave, Copies, SeatSound;
    LeaveShape(st, r, p);
    var t := Leave(st, r, p);
    forall q | q in t.peerIndex
      ensures t.peerIndex[q].room in t.rooms && q in t.rooms[t.peerIndex[q].room] && SeatSound(t, q)
    {
      SeatOf(st, q);
      SeatOf(t, q);
      assert SeatSound(st, q);
      EntryIsOwn(st, p);
      SeatStays(st, t, q);
    }
  }

  lemma LeaveKeepsRosters(st: Server, r: Id, p: Id)
    requires Inv(st) && p in st.peerIndex && st.peerIndex[p].room == r
    requires Structured(Leave(st, r, p))
    ensures RostersAgree(Leave(st, r, p))
  {
    hide Leave, Reached, Copies, SeatsSound, SeatSound, Roster;
    LeaveShape(st, r, p);
    var t := Leave(st, r, p);
    forall ws | ws in t.wsIndex && ws in t.open
      ensures t.wsIndex[ws] in t.peerIndex && t.peerIndex[t.wsIndex[ws]].room in t.rooms
      ensures Roster(t.sent[ws]) == RoomOf(t, t.wsIndex[ws]).Keys - {t.wsIndex[ws]}
    {
      var q := st.wsIndex[ws];
      LiveSeat(st, ws);
      SeatOf(t, q);
      ToldOnce(st, r, p, Left(r, p), ws);
      ReachedIsSeat(st, r, p, ws);
      RosterSnoc(st.sent[ws], Left(r, p));
      assert st.sent[ws] + [] == st.sent[ws];
      assert Roster(st.sent[ws]) == RoomOf(st, q).Keys - {q};
      if st.peerIndex[q].room == r {
        assert q in st.rooms[r] - {p};
        assert RoomOf(t, q).Keys == RoomOf(st, q).Keys - {p};
      } else {
        assert RoomOf(t, q) == RoomOf(st, q);
      }
    }
  }

  lemma LeaveKeepsInv(st: Server, r: Id, p: Id)
    requires Inv(st) && p in st.peerIndex && st.peerIndex[p].room == r
    ensures Inv(Leave(st, r, p))
  {
    hide Leave, IndexesAgree, SocketsAgree, SeatsSound, RostersAgree;
    SeatOf(st, p);
    LeaveKeepsIndexes(st, r, p);
    LeaveKeepsSockets(st, r, p);
    LeaveKeepsSeats(st, r, p);
    LeaveKeepsRosters(st, r, p);
  }

  /** When a `leave` message keeps the server consistent: the room named is unknown, or it
      is the one the sender sits in. */
  predicate LeaveFits(st: Server, ws: Socket, room: Id, peer: Id) {
    ws in st.wsIndex && st.wsIndex[ws] == peer && room in st.rooms ==>
      peer in st.peerIndex && st.peerIndex[peer].room == room
  }

  /** Frames that leave every roster as it was keep the invariant. */
  lemma SentKeepsInv(st: Server, sent: map<Socket, seq<Frame>>)
    requires Inv(st) && sent.Keys == st.sent.Keys
    requires forall ws :: ws in st.wsIndex && ws in st.open ==> ws in sent && Roster(sent[ws]) == Roster(st.sent[ws])
    ensures Inv(st.(sent := sent))
  {
    hide Roster, SeatSound;
    var t := st.(sent := sent);
    forall p | p in st.peerIndex && st.peerIndex[p].room in st.rooms && p in st.rooms[st.peerIndex[p].room]
      ensures SeatSound(st, p) <==> SeatSound(t, p)
    {
      SentIsNoSeat(st, sent, p);
    }
  }

  lemma SentIsNoSeat(st: Server, sent: map<Socket, seq<Frame>>, p: Id)
    requires p in st.peerIndex && st.peerIndex[p].room in st.rooms && p in st.rooms[st.peerIndex[p].room]
    ensures SeatSound(st, p) <==> SeatSound(st.(sent := sent), p)
  {
  }

  lemma ErrorKeepsInv(st: Server, ws: Socket, message: string)
    requires Inv(st)
    ensures Inv(Send(st, ws, Error(message)))
  {
    hide Roster, Inv;
    if ws in st.sent {
      RosterSnoc(st.sent[ws], Error(message));
    }
    var t := Send(st, ws, Error(message));
    InvIsStructured(st);
    SocketsSent(st);
    SentKeepsInv(st, t.sent);
  }

  lemma SocketsSent(st: Server)
    requires Structured(st)
    ensures forall ws :: ws in st.wsIndex ==> ws in st.sent
  {
  }

  lemma OtherRoomBreaks(st: Server, room: Id, peer: Id)
    requires Inv(st) && room in st.rooms && peer in st.peerIndex && st.peerIndex[peer].room != room
    ensures !Inv(Leave(st, room, peer))
  {
    hide Leave, SocketsAgree, SeatsSound, RostersAgree;
    SeatOf(st, peer);
    LeaveShape(st, room, peer);
    var own, t := st.peerIndex[peer].room, Leave(st, room, peer);
    assert own in t.rooms && peer in t.rooms[own] && peer !in t.peerIndex;
  }

  /** A leave that names another room's id breaks the indexes, and no other leave does. */
  lemma LeaveKeepsInvIff(st: Server, ws: Socket, room: Id, peer: Id)
    requires Inv(st)
    ensures Inv(LeaveMessage(st, ws, room, peer)) <==> LeaveFits(st, ws, room, peer)
  {
    hide Leave, Inv, IndexesAgree, SocketsAgree, SeatsSound, RostersAgree;
    if !(ws in st.wsIndex && st.wsIndex[ws] == peer) {
      ErrorKeepsInv(st, ws, "leave peerId mismatch");
    } else if room !in st.rooms {
      LeaveUnknownRoom(st, room, peer);
    } else {
      InvIsStructured(st);
      LiveSeat(st, ws);
      if st.peerIndex[peer].room == room {
        LeaveKeepsInv(st, room, peer);
      } else {
        OtherRoomBreaks(st, room, peer);
      }
    }
  }

  lemma LeaveUnknownRoom(st: Server, room: Id, peer: Id)
    requires room !in st.rooms
    ensures Leave(st, room, peer) == st
  {
  }
}
