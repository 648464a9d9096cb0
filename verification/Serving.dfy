/** The signaling server as an object whose handlers change its maps in place, each proved
    to do what the value-level handlers say, and the client's roster beside it. */
module Serving {
  import opened Options
  import opened Seats
  import opened Signaling
  import opened SignalingJoin
  import opened SignalingRuns

  /** `queuedBytes` is exact on every seat. It is so from the start and every step keeps it
      so, misplaced or not; without it the dropping loop would not end. */
  predicate Counted(st: Server) {
    forall r, p :: r in st.rooms && p in st.rooms[r] ==> st.rooms[r][p].queuedBytes == Bytes(st.rooms[r][p].queue)
  }

  class SignalingServer {
    var rooms: map<Id, Room>
    var peerIndex: map<Id, Entry>
    var wsIndex: map<Socket, Id>
    var open: set<Socket>
    var closed: set<Socket>
    var sent: map<Socket, seq<Frame>>

    ghost function State(): Server
      reads this
    {
      Server(rooms, peerIndex, wsIndex, open, closed, sent)
    }

    constructor ()
      ensures State() == NOBODY
    {
      rooms, peerIndex, wsIndex, open, closed, sent := map[], map[], map[], {}, {}, map[];
    }

    method Send(ws: Socket, f: Frame)
      modifies `sent
      ensures State() == Signaling.Send(old(State()), ws, f)
    {
      if ws in open && ws in sent {
        sent := sent[ws := sent[ws] + [f]];
      }
    }

    /** A frame reaches an open socket, waits on a held seat if it may, or is lost. */
    method Deliver(seat: Seat, f: Frame, queueIfHeld: bool) returns (after: Seat)
      requires queueIfHeld ==> f.Data? && seat.queuedBytes == Bytes(seat.queue)
      modifies `sent
      ensures after == if queueIfHeld && seat.ws == None then Queued(seat, f.payload) else seat
      ensures State() == if seat.ws.Some? then Signaling.Send(old(State()), seat.ws.value, f) else old(State())
    {
      after := seat;
      if seat.ws.Some? && seat.ws.value in open {
        Send(seat.ws.value, f);
        return;
      }
      if !queueIfHeld || seat.ws.Some? {
        return;
      }
      var queue, queuedBytes := Push(seat.queue, seat.queuedBytes, f.payload);
      after := after.(queue := queue, queuedBytes := queuedBytes);
    }

    method Broadcast(room: Room, sender: Id, f: Frame, queueIfHeld: bool) returns (after: Room)
      requires queueIfHeld ==> f.Data? && forall id :: id in room ==> room[id].queuedBytes == Bytes(room[id].queue)
      modifies `sent
      ensures after == if queueIfHeld then QueueHeld(room, sender, f.payload) else room
      ensures State() == Announce(old(State()), room, sender, f)
    {
      hide Queued, Announce, QueueHeld;
      after := room;
      var todo := room.Keys;
      NobodyYet(State(), room, sender, f);
      while todo != {}
        invariant todo <= room.Keys
        invariant queueIfHeld ==> after == room + QueueHeld(room - todo, sender, f.payload)
        invariant !queueIfHeld ==> after == room
        invariant State() == Announce(old(State()), room - todo, sender, f)
        decreases todo
      {
        var id :| id in todo;
        AnnounceOneMore(old(State()), room, todo, id, sender, f);
        if id != sender {
          var seat := Deliver(room[id], f, queueIfHeld);
          after := after[id := seat];
        }
        if queueIfHeld {
          QueueOneMore(room, todo, id, sender, f.payload);
        }
        todo := todo - {id};
      }
      AllServed(room, sender, f);
    }

    /** Replays what a returning peer missed, oldest first, and empties its queue. */
    method Flush(roomId: Id, peerId: Id)
      requires roomId in rooms && peerId in rooms[roomId] && rooms[roomId][peerId].ws.Some?
      modifies `rooms, `sent
      ensures var seat := old(rooms[roomId][peerId]);
              State() == SendAll(old(State()), seat.ws.value, Replay(seat.queue)).(
                rooms := old(rooms)[roomId := old(rooms[roomId])[peerId := seat.(queue := [], queuedBytes := 0)]])
    {
      var seat := rooms[roomId][peerId];
      var ws, replay := seat.ws.value, Replay(seat.queue);
      hide SendAll;
      var i := 0;
      SendAllTwice(State(), ws, [], []);
      while i < |seat.queue|
        invariant 0 <= i <= |seat.queue| && rooms == old(rooms)
        invariant State() == SendAll(old(State()), ws, replay[..i])
      {
        Send(ws, Data(seat.queue[i]));
        SendAllTwice(old(State()), ws, replay[..i], [replay[i]]);
        assert replay[..i] + [replay[i]] == replay[..i + 1];
        i := i + 1;
      }
      assert replay[..i] == replay;
      rooms := rooms[roomId := rooms[roomId][peerId := seat.(queue := [], queuedBytes := 0)]];
    }

    method OnLeave(roomId: Id, peerId: Id)
      modifies this
      ensures State() == Leave(old(State()), roomId, peerId)
    {
      hide Announce;
      if roomId !in rooms {
        return;
      }
      var room := rooms[roomId] - {peerId};
      rooms := rooms[roomId := room];
      var entry := if peerId in peerIndex then {peerIndex[peerId].ws} else {};
      peerIndex := peerIndex - {peerId};
      wsIndex := wsIndex - entry;
      var _ := Broadcast(room, peerId, Left(roomId, peerId), false);
      if room == map[] {
        rooms := rooms - {roomId};
      }
    }

    method OnJoin(ws: Socket, roomId: Id, peerId: Id)
      modifies this
      ensures State() == Join(old(State()), ws, roomId, peerId)
    {
      hide Leave, Resume, Seated;
      if roomId !in rooms {
        rooms := rooms[roomId := map[]];
      }
      assert State() == Entered(old(State()), roomId);
      if ws in wsIndex && wsIndex[ws] != peerId {
        var prior := wsIndex[ws];
        OnLeave(if prior in peerIndex then peerIndex[prior].room else roomId, prior);
      }
      assert State() == GiveUpPrior(Entered(old(State()), roomId), ws, roomId, peerId);
      if roomId in rooms && peerId in rooms[roomId] {
        ResumeSeat(ws, roomId, peerId);
      } else {
        TakeSeat(ws, roomId, peerId);
      }
    }

    method ResumeSeat(ws: Socket, roomId: Id, peerId: Id)
      requires roomId in rooms && peerId in rooms[roomId]
      modifies this
      ensures State() == Resume(old(State()), ws, roomId, peerId)
    {
      hide SendAll, Replay, Resume, Stale;
      var room, existing := rooms[roomId], rooms[roomId][peerId];
      ResumeIsPlaced(State(), ws, roomId, peerId);
      StaleAlone(State(), ws, roomId, peerId);
      if existing.ws.Some? && existing.ws != Some(ws) {
        wsIndex := wsIndex - {existing.ws.value};
        open := open - {existing.ws.value};
      }
      assert wsIndex == old(wsIndex) - Stale(old(State()), ws, roomId, peerId);
      assert open == old(open) - Stale(old(State()), ws, roomId, peerId);
      var seat := existing.(ws := Some(ws), timer := false);
      rooms := rooms[roomId := room[peerId := seat]];
      peerIndex := peerIndex[peerId := Entry(roomId, ws)];
      wsIndex := wsIndex[ws := peerId];
      ghost var placed := Placed(old(State()), ws, roomId, peerId);
      SeatTwice(old(rooms), roomId, room, peerId, seat, Seat(Some(ws), false, [], 0));
      assert State().(rooms := placed.rooms) == placed;
      hide Placed;
      RoomsAside(State(), ws, [Peers(roomId, room.Keys - {peerId}, true)], placed.rooms);
      Send(ws, Peers(roomId, room.Keys - {peerId}, true));
      RoomsAside(State(), ws, Replay(existing.queue), placed.rooms);
      Flush(roomId, peerId);
    }

    /** The room the handler fetched may have been dropped from the index meanwhile. */
    method TakeSeat(ws: Socket, roomId: Id, peerId: Id)
      modifies this
      ensures State() == Seated(old(State()), ws, roomId, peerId)
    {
      hide Announce, SendAll;
      var listed := roomId in rooms;
      var room := if listed then rooms[roomId] else map[];
      room := room[peerId := Seat(Some(ws), false, [], 0)];
      if listed {
        rooms := rooms[roomId := room];
      }
      peerIndex := peerIndex[peerId := Entry(roomId, ws)];
      wsIndex := wsIndex[ws := peerId];
      Send(ws, Peers(roomId, room.Keys - {peerId}, false));
      var _ := Broadcast(room, peerId, Joined(roomId, peerId), false);
    }

    method HoldSeat(roomId: Id, peerId: Id)
      modifies this
      ensures State() == Hold(old(State()), roomId, peerId)
    {
      if roomId !in rooms || peerId !in rooms[roomId] {
        return;
      }
      var peer := rooms[roomId][peerId];
      if peer.ws.Some? {
        wsIndex := wsIndex - {peer.ws.value};
        peer := peer.(ws := None);
      }
      peer := peer.(timer := true);
      rooms := rooms[roomId := rooms[roomId][peerId := peer]];
    }

    method OnDisconnect(ws: Socket)
      modifies this
      ensures State() == Disconnect(old(State()), ws)
    {
      open, closed := open - {ws}, closed + {ws};
      if ws !in wsIndex {
        return;
      }
      var peerId := wsIndex[ws];
      if peerId !in peerIndex || peerIndex[peerId].ws != ws {
        return;
      }
      HoldSeat(peerIndex[peerId].room, peerId);
    }

    method OnGraceTimer(roomId: Id, peerId: Id)
      modifies this
      ensures State() == Expire(old(State()), roomId, peerId)
    {
      hide Leave;
      if roomId !in rooms || peerId !in rooms[roomId] || !rooms[roomId][peerId].timer {
        return;
      }
      var peer := rooms[roomId][peerId].(timer := false);
      rooms := rooms[roomId := rooms[roomId][peerId := peer]];
      if peer.ws == None {
        OnLeave(roomId, peerId);
      }
    }

    method OnLeaveMessage(ws: Socket, roomId: Id, peerId: Id)
      modifies this
      ensures State() == LeaveMessage(old(State()), ws, roomId, peerId)
    {
      hide Leave;
      if !(ws in wsIndex && wsIndex[ws] == peerId) {
        Send(ws, Error("leave peerId mismatch"));
        return;
      }
      OnLeave(roomId, peerId);
    }

    method OnData(ws: Socket, roomId: Id, from: Id, to: Option<Id>, payload: string)
      requires Counted(State())
      modifies this
      ensures State() == RelayData(old(State()), ws, roomId, from, to, payload)
    {
      hide Announce, SendAll, QueueHeld, Queued;
      if roomId !in rooms {
        return;
      }
      if !(ws in wsIndex && wsIndex[ws] == from) {
        Send(ws, Error("relay from mismatch"));
        return;
      }
      var room := rooms[roomId];
      if to == None {
        var after := Broadcast(room, from, Data(payload), true);
        rooms := rooms[roomId := after];
      } else if to.value in room {
        var seat := Deliver(room[to.value], Data(payload), true);
        assert room[to.value].ws.Some? ==> room[to.value := seat] == room;
        assert rooms[roomId := room] == rooms;
        rooms := rooms[roomId := room[to.value := seat]];
      }
    }

    /** Any event the network or a timer can bring, in any state. A consistent server stays
        consistent unless the event was a misplaced join or leave. */
    method Serve(step: Step)
      requires Counted(State()) && Enabled(State(), step)
      modifies this
      ensures State() == Next(old(State()), step) && Counted(State())
      ensures Inv(old(State())) ==> (Inv(State()) <==> StepFits(old(State()), step))
    {
      hide Inv, Join, LeaveMessage, RelayData, Disconnect, Expire, StepFits, Counted;
      StepKeepsCount(State(), step);
      if Inv(State()) {
        StepKeepsInvIff(State(), step);
      }
      match step
      case Connect(ws) => sent, open := sent[ws := []], open + {ws};
      case JoinMsg(ws, room, peer) => OnJoin(ws, room, peer);
      case LeaveMsg(ws, room, peer) => OnLeaveMessage(ws, room, peer);
      case DataMsg(ws, room, from, to, payload) => OnData(ws, room, from, to, payload);
      case Break(ws) => open := open - {ws};
      case Close(ws) => OnDisconnect(ws);
      case Timeout(room, peer) => OnGraceTimer(room, peer);
    }
  }

  /** The client's picture of who is in its room. */
  class Client {
    var roster: set<Id>

    constructor ()
      ensures roster == {}
    {
      roster := {};
    }

    method HandleSignal(f: Frame)
      modifies this
      ensures roster == Heard(old(roster), f)
    {
      match f
      case Peers(_, peers, _) => roster := peers;
      case Joined(_, peer) => roster := roster + {peer};
      case Left(_, peer) => roster := roster - {peer};
      case Data(_) =>
      case Error(_) =>
    }
  }

  // Every step keeps the count of queued bytes

  lemma LeaveKeepsCount(st: Server, r: Id, p: Id)
    requires Counted(st)
    ensures Counted(Leave(st, r, p))
  {
    hide Announce;
    AnnounceRooms();
  }

  lemma AnnounceRooms()
    ensures forall st, room, sender, f :: Announce(st, room, sender, f).rooms == st.rooms
  {
    hide Copies;
  }

  lemma ResumeKeepsCount(st: Server, ws: Socket, r: Id, p: Id)
    requires Counted(st) && r in st.rooms && p in st.rooms[r]
    ensures Counted(Resume(st, ws, r, p))
  {
    hide Replay;
  }

  lemma SeatedKeepsCount(st: Server, ws: Socket, r: Id, p: Id)
    requires Counted(st)
    ensures Counted(Seated(st, ws, r, p))
  {
    hide Announce;
    AnnounceRooms();
  }

  lemma StepKeepsCount(st: Server, step: Step)
    requires Counted(st)
    ensures Counted(Next(st, step))
  {
    hide Leave, Resume, Seated, Announce, LongestFit;
    AnnounceRooms();
    match step
    case JoinMsg(ws, room, peer) =>
      var e := Entered(st, room);
      if ws in e.wsIndex {
        var prior := e.wsIndex[ws];
        LeaveKeepsCount(e, if prior in e.peerIndex then e.peerIndex[prior].room else room, prior);
      }
      var g := GiveUpPrior(e, ws, room, peer);
      if room in g.rooms && peer in g.rooms[room] {
        ResumeKeepsCount(g, ws, room, peer);
      } else {
        SeatedKeepsCount(g, ws, room, peer);
      }
    case LeaveMsg(ws, room, peer) => LeaveKeepsCount(st, room, peer);
    case Timeout(room, peer) =>
      if room in st.rooms && peer in st.rooms[room] {
        var seat := st.rooms[room][peer].(timer := false);
        LeaveKeepsCount(st.(rooms := st.rooms[room := st.rooms[room][peer := seat]]), room, peer);
      }
    case _ =>
  }

  lemma StaleAlone(st: Server, ws: Socket, roomId: Id, peerId: Id)
    requires roomId in st.rooms && peerId in st.rooms[roomId]
    ensures var seat := st.rooms[roomId][peerId];
            Stale(st, ws, roomId, peerId) == if seat.ws.Some? && seat.ws != Some(ws) then {seat.ws.value} else {}
  {
  }

  lemma SeatTwice(rooms: map<Id, Room>, r: Id, room: Room, p: Id, a: Seat, b: Seat)
    ensures rooms[r := room[p := a]][r := room[p := a][p := b]] == rooms[r := room[p := b]]
  {
    assert room[p := a][p := b] == room[p := b];
  }

  lemma SendAllTwice(st: Server, ws: Socket, a: seq<Frame>, b: seq<Frame>)
    ensures SendAll(SendAll(st, ws, a), ws, b) == SendAll(st, ws, a + b)
    ensures SendAll(st, ws, []) == st
  {
    if ws in st.sent {
      assert st.sent[ws] + a + b == st.sent[ws] + (a + b);
      assert st.sent[ws] + [] == st.sent[ws];
      assert st.sent[ws := st.sent[ws] + a][ws := st.sent[ws] + a + b] == st.sent[ws := st.sent[ws] + (a + b)];
    }
  }

  lemma RoomsAside(st: Server, ws: Socket, frames: seq<Frame>, rooms: map<Id, Room>)
    ensures SendAll(st.(rooms := rooms), ws, frames) == SendAll(st, ws, frames).(rooms := rooms)
  {
  }

  lemma NobodyYet(st: Server, room: Room, sender: Id, f: Frame)
    ensures Announce(st, room - room.Keys, sender, f) == st
    ensures f.Data? ==> room + QueueHeld(room - room.Keys, sender, f.payload) == room
  {
    hide Copies, Announce, Queued;
    AnnounceShape(st, room - room.Keys, sender, f);
    forall w | w in st.sent
      ensures st.sent[w] + Copies(room - room.Keys, sender, f, w) == st.sent[w]
    {
      NoCopies(sender, f, w);
      assert room - room.Keys == map[];
    }
    assert Announce(st, room - room.Keys, sender, f).sent == st.sent;
  }

  lemma NoCopies(sender: Id, f: Frame, ws: Socket)
    ensures Copies(map[], sender, f, ws) == []
  {
    assert SeatsOn(map[], sender, ws) == {};
  }

  lemma AllServed(room: Room, sender: Id, f: Frame)
    ensures room - {} == room
    ensures f.Data? ==> room + QueueHeld(room, sender, f.payload) == QueueHeld(room, sender, f.payload)
  {
  }

  lemma SeatsOnPart(room: Room, todo: set<Id>, sender: Id, ws: Socket)
    ensures SeatsOn(room - todo, sender, ws) == SeatsOn(room, sender, ws) - todo
  {
  }

  lemma CopiesOneMore(room: Room, todo: set<Id>, id: Id, sender: Id, f: Frame, ws: Socket)
    requires id in todo && id in room
    ensures Copies(room - (todo - {id}), sender, f, ws) ==
            Copies(room - todo, sender, f, ws) + if id in SeatsOn(room, sender, ws) then [f] else []
  {
    hide SeatsOn;
    SeatsOnPart(room, todo, sender, ws);
    SeatsOnPart(room, todo - {id}, sender, ws);
    var all := SeatsOn(room, sender, ws);
    if id in all {
      assert all - (todo - {id}) == (all - todo) + {id};
    } else {
      assert all - (todo - {id}) == all - todo;
    }
  }

  lemma AnnounceOneMore(st: Server, room: Room, todo: set<Id>, id: Id, sender: Id, f: Frame)
    requires id in todo && id in room
    ensures var before := Announce(st, room - todo, sender, f);
            Announce(st, room - (todo - {id}), sender, f) ==
            if id != sender && room[id].ws.Some? then Signaling.Send(before, room[id].ws.value, f) else before
  {
    hide Copies, SeatsOn, Announce, SendAll;
    AnnounceShape(st, room - todo, sender, f);
    AnnounceShape(st, room - (todo - {id}), sender, f);
    var before, after := Announce(st, room - todo, sender, f), Announce(st, room - (todo - {id}), sender, f);
    var expected := if id != sender && room[id].ws.Some? then Signaling.Send(before, room[id].ws.value, f) else before;
    if id != sender && room[id].ws.Some? {
      SendIs(before, room[id].ws.value, f);
    }
    forall w | w in st.sent
      ensures after.sent[w] == expected.sent[w]
    {
      CopiesOneMore(room, todo, id, sender, f, w);
      InSeatsOn(room, sender, w, id);
      AppendLater(st.sent[w], Copies(room - todo, sender, f, w), f);
    }
    assert after.sent == expected.sent;
  }

  lemma AppendLater(frames: seq<Frame>, more: seq<Frame>, f: Frame)
    ensures frames + (more + [f]) == frames + more + [f]
    ensures frames + (more + []) == frames + more
  {
  }

  lemma InSeatsOn(room: Room, sender: Id, ws: Socket, id: Id)
    ensures id in SeatsOn(room, sender, ws) <==> id in room && id != sender && room[id].ws == Some(ws)
  {
  }

  lemma SendIs(st: Server, ws: Socket, f: Frame)
    ensures var t := Signaling.Send(st, ws, f);
            && t == st.(sent := t.sent) && t.sent.Keys == st.sent.Keys
            && forall w :: w in t.sent ==> t.sent[w] == if w == ws && w in st.open then st.sent[w] + [f] else st.sent[w]
  {
  }

  lemma QueueOneMore(room: Room, todo: set<Id>, id: Id, sender: Id, payload: string)
    requires id in todo && id in room
    ensures room + QueueHeld(room - (todo - {id}), sender, payload) ==
            (room + QueueHeld(room - todo, sender, payload))
              [id := if id != sender && room[id].ws == None then Queued(room[id], payload) else room[id]]
    ensures id == sender ==>
            room + QueueHeld(room - (todo - {id}), sender, payload) == room + QueueHeld(room - todo, sender, payload)
  {
    hide Queued;
  }
}
