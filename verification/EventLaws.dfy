/** What each event does to a server whose indexes agree: who is seated, who hears what, and
    what waits for whom, told on the rooms and on the frames each socket has been sent. */
module EventLaws {
  import opened Options
  import opened Seats
  import opened Signaling
  import opened SignalingSafety
  import opened SignalingJoin
  import opened SignalingRuns

  /** Sits on this socket in the room, and is not `p`. */
  predicate SitsBeside(st: Server, r: Id, p: Id, w: Socket) {
    r in st.rooms && exists q :: q in st.rooms[r] && q != p && st.rooms[r][q].ws == Some(w)
  }

  /** Every open socket under another seat of the room gets this frame, and nothing else is
      sent. */
  predicate OthersHear(st: Server, t: Server, r: Id, p: Id, f: Frame) {
    t.sent.Keys == st.sent.Keys &&
    forall w :: w in st.sent ==>
      t.sent[w] == if w in st.open && SitsBeside(st, r, p, w) then st.sent[w] + [f] else st.sent[w]
  }

  /** Nothing changes but that this socket, if it is open, gets this frame. */
  predicate OnlyHears(st: Server, t: Server, ws: Socket, f: Frame) {
    && t == st.(sent := t.sent) && t.sent.Keys == st.sent.Keys
    && forall w :: w in st.sent ==> t.sent[w] == if w == ws && w in st.open then st.sent[w] + [f] else st.sent[w]
  }

  /** The seat is gone with its index entries, and with the room when it was the last, and
      the others are told. */
  predicate Departed(st: Server, t: Server, r: Id, p: Id)
    requires r in st.rooms && p in st.peerIndex
  {
    && t.rooms == (if st.rooms[r].Keys == {p} then st.rooms - {r} else st.rooms[r := st.rooms[r] - {p}])
    && t.peerIndex == st.peerIndex - {p} && t.wsIndex == st.wsIndex - {st.peerIndex[p].ws}
    && t.open == st.open && t.closed == st.closed && OthersHear(st, t, r, p, Left(r, p))
  }

  lemma SeatedIsReached(st: Server, r: Id, p: Id, w: Socket)
    requires r in st.rooms
    ensures SitsBeside(st, r, p, w) <==> Reached(st.rooms[r], p, w)
  {
  }

  lemma AnnouncedOnce(st: Server, r: Id, p: Id, f: Frame)
    requires Structured(st) && r in st.rooms
    ensures forall w :: Copies(st.rooms[r], p, f, w) == if SitsBeside(st, r, p, w) then [f] else []
  {
    hide Structured, Copies, SitsBeside, Reached;
    forall w
      ensures Copies(st.rooms[r], p, f, w) == if SitsBeside(st, r, p, w) then [f] else []
    {
      ToldOnce(st, r, p, f, w);
      SeatedIsReached(st, r, p, w);
    }
  }

  lemma LeaveDeparts(st: Server, r: Id, p: Id)
    requires Structured(st) && p in st.peerIndex && st.peerIndex[p].room == r
    ensures r in st.rooms && p in st.rooms[r] && Departed(st, Leave(st, r, p), r, p)
  {
    hide Leave, Copies, SitsBeside, SocketsAgree, SeatsSound;
    SeatOf(st, p);
    LeaveShape(st, r, p);
    AnnouncedOnce(st, r, p, Left(r, p));
    AloneKeys(st.rooms[r], p);
    assert forall w :: w in st.sent ==> st.sent[w] + [] == st.sent[w];
  }

  /** A socket takes out the peer it speaks for, and only that one. */
  lemma LeaveLaw(st: Server, ws: Socket, peer: Id)
    requires Structured(st) && ws in st.sent && ws in st.wsIndex && st.wsIndex[ws] == peer
    ensures peer in st.peerIndex
    ensures var r := st.peerIndex[peer].room; r in st.rooms && Departed(st, Next(st, LeaveMsg(ws, r, peer)), r, peer)
  {
    hide Leave, Structured, Departed;
    LiveSeat(st, ws);
    LeaveDeparts(st, st.peerIndex[peer].room, peer);
  }

  lemma LeaveRefused(st: Server, ws: Socket, room: Id, peer: Id)
    requires ws in st.sent && !(ws in st.wsIndex && st.wsIndex[ws] == peer)
    ensures OnlyHears(st, Next(st, LeaveMsg(ws, room, peer)), ws, Error("leave peerId mismatch"))
  {
  }

  /** A held seat whose time runs out is given up; anywhere else the timer does nothing. */
  lemma TimeoutLaw(st: Server, r: Id, p: Id)
    requires Structured(st)
    ensures var t := Next(st, Timeout(r, p));
            if r in st.rooms && p in st.rooms[r] && st.rooms[r][p].ws == None
            then p in st.peerIndex && Departed(st, t, r, p) else t == st
  {
    hide Leave, Expire, Structured, Departed;
    ExpireIsLeave(st, r, p);
    if r in st.rooms && p in st.rooms[r] {
      SeatSocket(st, r, p);
      LeaveDeparts(st, r, p);
    }
  }

  /** Of all seats only those on this socket differ: they have none now, and a timer. */
  predicate SeatsLose(st: Server, t: Server, ws: Socket) {
    && t.rooms.Keys == st.rooms.Keys && (forall r :: r in st.rooms ==> t.rooms[r].Keys == st.rooms[r].Keys)
    && forall r, p :: r in st.rooms && p in st.rooms[r] ==>
         t.rooms[r][p] == if st.rooms[r][p].ws == Some(ws) then Seat(None, true, [], 0) else st.rooms[r][p]
  }

  /** A dead socket leaves its seat without one, on its timer; nobody hears of it. */
  lemma CloseLaw(st: Server, ws: Socket)
    requires Structured(st)
    ensures var t := Next(st, Close(ws));
            && t.sent == st.sent && t.open == st.open - {ws} && t.closed == st.closed + {ws}
            && t.peerIndex == st.peerIndex && t.wsIndex == st.wsIndex - {ws} && SeatsLose(st, t, ws)
  {
    hide Structured;
    var t := Disconnect(st, ws);
    if ws in st.wsIndex {
      HoldShape(st, ws);
      LiveSeat(st, ws);
    }
    forall r, p | r in st.rooms && p in st.rooms[r]
      ensures t.rooms[r][p] == if st.rooms[r][p].ws == Some(ws) then Seat(None, true, [], 0) else st.rooms[r][p]
    {
      SeatSocket(st, r, p);
    }
  }

  // Joining

  /** The peer's seat in the room is on this socket with nothing waiting, in the indexes too. */
  predicate TakesSeat(st: Server, t: Server, ws: Socket, r: Id, p: Id, stale: set<Socket>) {
    var others := if r in st.rooms then st.rooms[r] else map[];
    && t.rooms == st.rooms[r := others[p := Seat(Some(ws), false, [], 0)]]
    && t.peerIndex == st.peerIndex[p := Entry(r, ws)] && t.wsIndex == (st.wsIndex - stale)[ws := p]
    && t.open == st.open - stale && t.closed == st.closed && t.sent.Keys == st.sent.Keys
  }

  /** A new peer is told who is there, and they are told of it. */
  lemma JoinLaw(st: Server, ws: Socket, r: Id, p: Id)
    requires Structured(st) && Placeable(st, ws, r, p) && !(r in st.rooms && p in st.rooms[r])
    ensures var t, others := Next(st, JoinMsg(ws, r, p)), if r in st.rooms then st.rooms[r].Keys else {};
            && TakesSeat(st, t, ws, r, p, {})
            && forall w :: w in st.sent ==>
                 t.sent[w] == if w !in st.open then st.sent[w]
                              else if w == ws then st.sent[w] + [Peers(r, others, false)]
                              else if SitsBeside(st, r, p, w) then st.sent[w] + [Joined(r, p)]
                              else st.sent[w]
  {
    hide Structured, Seated, Resume, SitsBeside;
    JoinIsSettle(st, ws, r, p);
    SeatedShape(st, ws, r, p);
    var u := Placed(st, ws, r, p);
    forall w
      ensures Reached(u.rooms[r], p, w) <==> SitsBeside(st, r, p, w)
    {
      NewcomerAside(st, u, ws, r, p, w);
    }
    assert Members(st, r).Keys - {p} == Members(st, r).Keys;
    assert Members(st, r).Keys == if r in st.rooms then st.rooms[r].Keys else {};
  }

  lemma NewcomerAside(st: Server, u: Server, ws: Socket, r: Id, p: Id, w: Socket)
    requires r in u.rooms && u.rooms[r] == Members(st, r)[p := Seat(Some(ws), false, [], 0)]
    ensures Reached(u.rooms[r], p, w) <==> SitsBeside(st, r, p, w)
  {
    var room := u.rooms[r];
    if q :| q in room && q != p && room[q].ws == Some(w) {
      assert q in st.rooms[r] && st.rooms[r][q].ws == Some(w);
    }
    if r in st.rooms {
      if q :| q in st.rooms[r] && q != p && st.rooms[r][q].ws == Some(w) {
        assert q in room && room[q].ws == Some(w);
      }
    }
  }

  /** A peer that comes back takes its seat over from the socket it had, which is cut off, and
      gets what waited for it, oldest first; nobody else hears of it. */
  lemma ResumeLaw(st: Server, ws: Socket, r: Id, p: Id)
    requires Structured(st) && Placeable(st, ws, r, p) && r in st.rooms && p in st.rooms[r]
    ensures var t, seat := Next(st, JoinMsg(ws, r, p)), st.rooms[r][p];
            && TakesSeat(st, t, ws, r, p, if seat.ws.Some? && seat.ws.value != ws then {seat.ws.value} else {})
            && forall w :: w in st.sent ==>
                 t.sent[w] == if w == ws && w in st.open
                              then st.sent[w] + [Peers(r, st.rooms[r].Keys - {p}, true)] + Replay(seat.queue)
                              else st.sent[w]
  {
    hide Structured, Seated, Resume, Replay;
    JoinIsSettle(st, ws, r, p);
    ResumeShape(st, ws, r, p);
  }

  /** A socket that speaks for another peer first takes that one out. */
  lemma JoinGivesUp(st: Server, ws: Socket, r: Id, p: Id)
    requires Structured(st) && ws in st.sent && HasPrior(st, ws, p) && JoinFits(st, ws, r, p)
    ensures st.wsIndex[ws] in st.peerIndex
    ensures var left := Next(st, LeaveMsg(ws, st.peerIndex[st.wsIndex[ws]].room, st.wsIndex[ws]));
            Next(st, JoinMsg(ws, r, p)) == Next(left, JoinMsg(ws, r, p))
  {
    hide Structured, Join, Leave, JoinFits;
    var q := st.wsIndex[ws];
    LiveSeat(st, ws);
    var home := st.peerIndex[q].room;
    var g := Leave(st, home, q);
    JoinIsSettle(st, ws, r, p);
    LeaveKeepsStructure(st, home, q);
    StillFits(st, home, q, ws, r, p);
    JoinIsSettle(g, ws, r, p);
  }

  lemma LeaveKeepsStructure(st: Server, r: Id, p: Id)
    requires Structured(st) && p in st.peerIndex && st.peerIndex[p].room == r
    ensures Structured(Leave(st, r, p))
  {
    hide SeatsSound, Leave;
    SeatOf(st, p);
    LeaveKeepsIndexes(st, r, p);
    LeaveKeepsSockets(st, r, p);
    LeaveKeepsSeats(st, r, p);
  }

  lemma StillFits(st: Server, home: Id, q: Id, ws: Socket, r: Id, p: Id)
    requires home in st.rooms && q in st.peerIndex && st.peerIndex[q].ws == ws && JoinFits(st, ws, r, p)
    ensures JoinFits(Leave(st, home, q), ws, r, p) && !HasPrior(Leave(st, home, q), ws, p)
  {
    hide Leave, Copies;
    LeaveShape(st, home, q);
  }

  // The control plane

  predicate IsFor(q: Id, from: Id, to: Option<Id>) { if to.None? then q != from else q == to.value }

  /** Every seat it is for gets the payload: on its socket if that is open, in its queue if it
      has none; and nothing else changes. */
  predicate Relayed(st: Server, t: Server, r: Id, from: Id, to: Option<Id>, payload: string)
    requires r in st.rooms
  {
    && t == st.(rooms := t.rooms, sent := t.sent)
    && t.rooms.Keys == st.rooms.Keys && (forall o :: o in st.rooms && o != r ==> t.rooms[o] == st.rooms[o])
    && t.rooms[r].Keys == st.rooms[r].Keys
    && (forall q :: q in st.rooms[r] ==> var s := st.rooms[r][q];
          t.rooms[r][q] ==
          if IsFor(q, from, to) && s.ws == None then Waiting(s, LongestFit(s.queue + [payload])) else s)
    && t.sent.Keys == st.sent.Keys
    && forall w :: w in st.sent ==>
         t.sent[w] == if w in st.open && IsOn(st.rooms[r], from, to, w) then st.sent[w] + [Data(payload)]
                      else st.sent[w]
  }

  predicate IsOn(room: Room, from: Id, to: Option<Id>, w: Socket) {
    exists q :: q in room && IsFor(q, from, to) && room[q].ws == Some(w)
  }

  function Waiting(s: Seat, queue: seq<string>): Seat { s.(queue := queue, queuedBytes := Bytes(queue)) }

  lemma DataLaw(st: Server, ws: Socket, r: Id, from: Id, to: Option<Id>, payload: string)
    requires Structured(st)
    ensures var t := Next(st, DataMsg(ws, r, from, to, payload));
            if r !in st.rooms then t == st
            else if !(ws in st.wsIndex && st.wsIndex[ws] == from) then
              OnlyHears(st, t, ws, Error("relay from mismatch"))
            else Relayed(st, t, r, from, to, payload)
  {
    hide Structured, Announce, Copies, SitsBeside, LongestFit, Relayed, IsOn;
    if r in st.rooms && ws in st.wsIndex && st.wsIndex[ws] == from {
      match to
      case None => RoomRelayed(st, r, from, payload);
      case Some(q) => PeerRelayed(st, r, from, q, payload);
    }
  }

  lemma RoomRelayed(st: Server, r: Id, from: Id, payload: string)
    requires Structured(st) && r in st.rooms
    ensures var heard := Announce(st, st.rooms[r], from, Data(payload));
            Relayed(st, heard.(rooms := st.rooms[r := QueueHeld(st.rooms[r], from, payload)]), r, from, None, payload)
  {
    hide Structured, Copies, LongestFit;
    AnnouncedOnce(st, r, from, Data(payload));
  }

  lemma PeerRelayed(st: Server, r: Id, from: Id, q: Id, payload: string)
    requires Structured(st) && r in st.rooms
    ensures var room := st.rooms[r];
            var t := if q !in room then st
                     else if room[q].ws == None then st.(rooms := st.rooms[r := room[q := Queued(room[q], payload)]])
                     else Send(st, room[q].ws.value, Data(payload));
            Relayed(st, t, r, from, Some(q), payload)
  {
    hide Structured, LongestFit;
    if q in st.rooms[r] {
      SeatSocket(st, r, q);
      SocketsSent(st);
    }
  }
}
