/** Delivery over whole runs: what was addressed to a seat is what went out on its successive
    sockets, what waits for it, and what three kinds of step lost. */
module SignalingDelivery {
  import opened Options
  import opened Seats
  import opened Signaling
  import opened SignalingSafety
  import opened SignalingJoin
  import opened SignalingRuns
  import opened SignalingQueues

  predicate SeatIn(st: Server, r: Id, p: Id) { r in st.rooms && p in st.rooms[r] }

  /** The control-plane payloads among the frames. */
  function Payloads(frames: seq<Frame>): seq<string> {
    if frames == [] then []
    else
      var f := frames[|frames| - 1];
      Payloads(frames[..|frames| - 1]) + (if f.Data? then [f.payload] else [])
  }

  lemma PayloadsSnoc(frames: seq<Frame>, f: Frame)
    ensures Payloads(frames + [f]) == Payloads(frames) + (if f.Data? then [f.payload] else [])
  {
    assert (frames + [f])[..|frames|] == frames;
  }

  lemma {:induction false} PayloadsAppend(u: seq<Frame>, w: seq<Frame>)
    ensures Payloads(u + w) == Payloads(u) + Payloads(w)
  {
    hide Payloads;
    if w == [] {
      Silence();
      assert u + w == u;
    } else {
      var g, f := w[..|w| - 1], w[|w| - 1];
      PayloadsAppend(u, g);
      PayloadsSnoc(u + g, f);
      PayloadsSnoc(g, f);
      assert w == g + [f];
      assert u + (g + [f]) == (u + g) + [f];
    }
  }

  lemma {:induction false} PayloadsOfReplay(q: seq<string>)
    ensures Payloads(Replay(q)) == q
  {
    if q != [] {
      var n := |q| - 1;
      PayloadsOfReplay(q[..n]);
      assert Replay(q)[..n] == Replay(q[..n]);
      assert q == q[..n] + [q[n]];
    }
  }

  /** What a step put on a socket. */
  function Added(st: Server, t: Server, s: Socket): seq<Frame> {
    if s in st.sent && s in t.sent && st.sent[s] <= t.sent[s] then t.sent[s][|st.sent[s]|..] else []
  }

  /** The payloads a step put on the socket under the seat. */
  function Handed(st: Server, t: Server, r: Id, p: Id): seq<string>
    requires SeatIn(t, r, p)
  {
    if t.rooms[r][p].ws == None then [] else Payloads(Added(st, t, t.rooms[r][p].ws.value))
  }

  /** What a step lost of what waited for the seat or was addressed to it: the oldest of a
      queue over its caps, a frame for a socket that is broken but not yet closed, and a
      queue replayed to a socket that is no longer open. */
  function LostAt(st: Server, step: Step, r: Id, p: Id): seq<string>
    requires SeatIn(st, r, p)
  {
    var seat := st.rooms[r][p];
    match step
    case DataMsg(_, _, _, _, _) =>
      var pending := seat.queue + SentTo(st, step, r, p);
      if seat.ws == None then pending[..|pending| - |LongestFit(pending)|]
      else if seat.ws.value !in st.open then SentTo(st, step, r, p)
      else []
    case JoinMsg(ws, room, peer) => if room == r && peer == p && ws !in st.open then seat.queue else []
    case _ => []
  }

  // Frames that carry no payload

  /** A socket hears more, but no payloads. */
  predicate QuietOn(st: Server, t: Server, s: Socket) {
    s in st.sent ==> s in t.sent && st.sent[s] <= t.sent[s] && Payloads(Added(st, t, s)) == []
  }

  predicate Quiet(st: Server, t: Server) { forall s :: s in st.sent ==> QuietOn(st, t, s) }

  lemma QuietSame(st: Server, t: Server)
    requires t.sent == st.sent
    ensures Quiet(st, t)
  {
  }

  lemma QuietThen(st: Server, t: Server, u: Server)
    requires Quiet(st, t) && Quiet(t, u)
    ensures Quiet(st, u)
  {
    hide QuietOn;
    forall s | s in st.sent
      ensures QuietOn(st, u, s)
    {
      assert QuietOn(st, t, s);
      QuietStays(st, t, s);
      QuietThenOn(st, t, u, s);
    }
  }

  lemma QuietStays(st: Server, t: Server, s: Socket)
    requires QuietOn(st, t, s) && s in st.sent
    ensures s in t.sent
  {
  }

  lemma QuietThenOn(st: Server, t: Server, u: Server, s: Socket)
    requires QuietOn(st, t, s) && QuietOn(t, u, s)
    ensures QuietOn(st, u, s)
  {
    hide Payloads;
    if s in st.sent {
      HeardOn(st.sent[s], t.sent[s], u.sent[s]);
    }
  }

  lemma HeardOn(a: seq<Frame>, b: seq<Frame>, c: seq<Frame>)
    requires a <= b <= c
    ensures a <= c && Payloads(c[|a|..]) == Payloads(b[|a|..]) + Payloads(c[|b|..])
  {
    hide Payloads;
    assert c[|a|..] == b[|a|..] + c[|b|..];
    PayloadsAppend(b[|a|..], c[|b|..]);
  }

  lemma {:induction false} Voiceless(frames: seq<Frame>)
    requires forall i :: 0 <= i < |frames| ==> !frames[i].Data?
    ensures Payloads(frames) == []
  {
    if frames != [] {
      Voiceless(frames[..|frames| - 1]);
    }
  }

  lemma SendIsQuiet(st: Server, ws: Socket, f: Frame)
    requires !f.Data?
    ensures Quiet(st, Send(st, ws, f))
  {
    Voiceless([f]);
    Voiceless([]);
    var t := Send(st, ws, f);
    forall s | s in st.sent
      ensures s in t.sent && st.sent[s] <= t.sent[s] && (Added(st, t, s) == [] || Added(st, t, s) == [f])
    {
    }
  }

  lemma AnnounceIsQuiet(st: Server, room: Room, sender: Id, f: Frame)
    requires !f.Data?
    ensures Quiet(st, Announce(st, room, sender, f))
  {
    var t := Announce(st, room, sender, f);
    forall s | s in st.sent
      ensures s in t.sent && st.sent[s] <= t.sent[s] && Payloads(Added(st, t, s)) == []
    {
      Voiceless(Copies(room, sender, f, s));
      Voiceless([]);
      assert Added(st, t, s) == Copies(room, sender, f, s) || Added(st, t, s) == [];
    }
  }

  lemma LeaveIsQuiet(st: Server, room: Id, peer: Id)
    ensures Quiet(st, Leave(st, room, peer))
  {
    hide Announce, Quiet;
    if room !in st.rooms {
      QuietSame(st, st);
    } else {
      var rest := st.rooms[room] - {peer};
      var ws := if peer in st.peerIndex then {st.peerIndex[peer].ws} else {};
      var st1 := st.(rooms := st.rooms[room := rest], peerIndex := st.peerIndex - {peer}, wsIndex := st.wsIndex - ws);
      QuietSame(st, st1);
      AnnounceIsQuiet(st1, rest, peer, Left(room, peer));
      var st2 := Announce(st1, rest, peer, Left(room, peer));
      QuietThen(st, st1, st2);
      QuietSame(st2, Leave(st, room, peer));
      QuietThen(st, st2, Leave(st, room, peer));
    }
  }

  lemma SeatedIsQuiet(st: Server, ws: Socket, room: Id, peer: Id)
    ensures Quiet(st, Seated(st, ws, room, peer))
  {
    hide Announce, Quiet, SendAll;
    var members := if room in st.rooms then st.rooms[room] else map[];
    var grown := members[peer := Seat(Some(ws), false, [], 0)];
    var st1 := st.(peerIndex := st.peerIndex[peer := Entry(room, ws)], wsIndex := st.wsIndex[ws := peer],
                   rooms := if room in st.rooms then st.rooms[room := grown] else st.rooms);
    QuietSame(st, st1);
    var st2 := Send(st1, ws, Peers(room, grown.Keys - {peer}, false));
    SendIsQuiet(st1, ws, Peers(room, grown.Keys - {peer}, false));
    QuietThen(st, st1, st2);
    AnnounceIsQuiet(st2, grown, peer, Joined(room, peer));
    QuietThen(st, st2, Seated(st, ws, room, peer));
  }

  // One step

  /** Where the seat's socket hears no payload, none is handed over. */
  lemma QuietStep(st: Server, t: Server, r: Id, p: Id)
    requires SeatIn(t, r, p) && (t.rooms[r][p].ws.Some? ==> QuietOn(st, t, t.rooms[r][p].ws.value))
    ensures Handed(st, t, r, p) == []
  {
  }

  lemma AllQuietStep(st: Server, t: Server, r: Id, p: Id)
    requires SeatIn(t, r, p) && Quiet(st, t)
    ensures Handed(st, t, r, p) == []
  {
  }

  lemma LeaveKeepsSeat(st: Server, room: Id, peer: Id, r: Id, p: Id)
    requires peer in st.peerIndex && SeatIn(Leave(st, room, peer), r, p)
    ensures SeatIn(st, r, p) && Leave(st, room, peer).rooms[r][p] == st.rooms[r][p]
  {
    hide Leave;
    if room in st.rooms {
      LeaveRooms(st, room, peer);
    } else {
      LeaveUnknownRoom(st, room, peer);
    }
  }

  /** Pending before, and addressed now, is what was lost, then handed over, then left waiting. */
  predicate Accounted(st: Server, step: Step, t: Server, r: Id, p: Id)
    requires SeatIn(st, r, p) && SeatIn(t, r, p)
  {
    st.rooms[r][p].queue + SentTo(st, step, r, p) ==
    LostAt(st, step, r, p) + Handed(st, t, r, p) + t.rooms[r][p].queue
  }

  lemma LeaveMsgAccounted(st: Server, ws: Socket, room: Id, peer: Id, r: Id, p: Id)
    requires Structured(st) && SeatIn(st, r, p) && SeatIn(LeaveMessage(st, ws, room, peer), r, p)
    ensures Accounted(st, LeaveMsg(ws, room, peer), LeaveMessage(st, ws, room, peer), r, p)
  {
    hide Leave, Quiet, Handed, Structured, SendAll;
    var t := LeaveMessage(st, ws, room, peer);
    if ws in st.wsIndex && st.wsIndex[ws] == peer {
      LiveSeat(st, ws);
      LeaveIsQuiet(st, room, peer);
      LeaveKeepsSeat(st, room, peer, r, p);
    } else {
      SendIsQuiet(st, ws, Error("leave peerId mismatch"));
      SendsKeepRooms();
    }
    AllQuietStep(st, t, r, p);
  }

  lemma TimeoutAccounted(st: Server, room: Id, peer: Id, r: Id, p: Id)
    requires Structured(st) && SeatIn(st, r, p) && SeatIn(Expire(st, room, peer), r, p)
    ensures Accounted(st, Timeout(room, peer), Expire(st, room, peer), r, p)
  {
    hide Leave, Quiet, Handed, Structured, Expire;
    var t := Expire(st, room, peer);
    ExpireIsLeave(st, room, peer);
    if t == st {
      QuietSame(st, st);
    } else {
      LeaveIsQuiet(st, room, peer);
      LeaveKeepsSeat(st, room, peer, r, p);
    }
    AllQuietStep(st, t, r, p);
  }

  lemma CloseAccounted(st: Server, ws: Socket, r: Id, p: Id)
    requires Structured(st) && SeatIn(st, r, p) && SeatIn(Disconnect(st, ws), r, p)
    ensures Accounted(st, Close(ws), Disconnect(st, ws), r, p)
  {
    hide Quiet, Handed, Structured, Disconnect;
    var t := Disconnect(st, ws);
    ClosedSeat(st, ws, r, p);
    QuietSame(st, t);
    AllQuietStep(st, t, r, p);
  }

  lemma ClosedSeat(st: Server, ws: Socket, r: Id, p: Id)
    requires Structured(st) && SeatIn(st, r, p) && SeatIn(Disconnect(st, ws), r, p)
    ensures var t := Disconnect(st, ws);
            && t.sent == st.sent && t.rooms[r][p].queue == st.rooms[r][p].queue
            && (t.rooms[r][p].ws == None || t.rooms[r][p].ws == st.rooms[r][p].ws)
  {
    if ws in st.wsIndex {
      LiveSeat(st, ws);
      HoldShape(st, ws);
    }
    hide Structured;
  }

  lemma StillAccounted(st: Server, t: Server, step: Step, r: Id, p: Id)
    requires Structured(st) && SeatIn(st, r, p) && t.rooms == st.rooms && t.sent.Keys >= st.sent.Keys
    requires step.Connect? || step.Break?
    requires forall s :: s in st.sent ==> t.sent[s] == st.sent[s]
    ensures Accounted(st, step, t, r, p)
  {
    hide Structured, Handed;
    Voiceless([]);
    assert Quiet(st, t);
    AllQuietStep(st, t, r, p);
  }

  // Joins

  /** Somebody else's seat is taken: payloads go to the joining socket alone. */
  lemma OtherSettle(st: Server, ws: Socket, room: Id, peer: Id, r: Id, p: Id, s: Socket)
    requires ws in st.sent && !(room == r && peer == p)
    requires SeatIn(Settle(Entered(st, room), ws, room, peer), r, p)
    ensures var t := Settle(Entered(st, room), ws, room, peer);
            SeatIn(st, r, p) && t.rooms[r][p] == st.rooms[r][p] && (s != ws ==> QuietOn(st, t, s))
  {
    hide Resume, Seated, SendAll, Announce, Stale, Replay, Payloads;
    if peer in Members(st, room) {
      assert Entered(st, room) == st;
      ResumeIsPlaced(st, ws, room, peer);
      ResumeShape(st, ws, room, peer);
      if s != ws {
        NothingAdded(st, Resume(st, ws, room, peer), s);
      }
    } else {
      SeatedIsPlaced(st, ws, room, peer);
      SeatedIsQuiet(Entered(st, room), ws, room, peer);
      QuietEntered(st, room, Seated(Entered(st, room), ws, room, peer), s);
    }
    SendsKeepRooms();
  }

  lemma NothingAdded(st: Server, t: Server, s: Socket)
    requires s in st.sent ==> s in t.sent && t.sent[s] == st.sent[s]
    ensures QuietOn(st, t, s)
  {
  }

  lemma QuietEntered(st: Server, room: Id, t: Server, s: Socket)
    requires Quiet(Entered(st, room), t)
    ensures QuietOn(st, t, s)
  {
    hide Payloads;
    assert Entered(st, room).sent == st.sent;
    if s in st.sent {
      assert QuietOn(Entered(st, room), t, s);
    }
  }

  /** The seat, if live, is on another socket than the one that joins as somebody else. */
  lemma OnOtherSocket(st: Server, ws: Socket, room: Id, peer: Id, r: Id, p: Id)
    requires Structured(st) && JoinFits(st, ws, room, peer) && !(room == r && peer == p) && SeatIn(st, r, p)
    ensures st.rooms[r][p].ws == Some(ws) ==> ws in st.wsIndex && st.wsIndex[ws] == p && HasPrior(st, ws, peer)
  {
    SeatSocket(st, r, p);
  }

  lemma GivenUp(st: Server, ws: Socket)
    requires Structured(st) && ws in st.wsIndex
    ensures var q := st.wsIndex[ws];
            forall o :: !SeatIn(Leave(st, st.peerIndex[q].room, q), o, q)
  {
    LiveSeat(st, ws);
    var q := st.wsIndex[ws];
    var home := st.peerIndex[q].room;
    LeaveRooms(st, home, q);
    hide Leave;
    forall o | SeatIn(st, o, q)
      ensures o == home
    {
      SeatSocket(st, o, q);
    }
  }

  lemma OtherJoinAccounted(st: Server, ws: Socket, room: Id, peer: Id, r: Id, p: Id)
    requires Structured(st) && ws in st.sent && JoinFits(st, ws, room, peer) && !(room == r && peer == p)
    requires SeatIn(st, r, p) && SeatIn(Join(st, ws, room, peer), r, p)
    ensures Accounted(st, JoinMsg(ws, room, peer), Join(st, ws, room, peer), r, p)
  {
    hide Structured, Join, Quiet, QuietOn, Handed, Leave, Settle, JoinFits;
    JoinIsSettle(st, ws, room, peer);
    OnOtherSocket(st, ws, room, peer, r, p);
    var t := Join(st, ws, room, peer);
    var s := if t.rooms[r][p].ws.Some? then t.rooms[r][p].ws.value else ws;
    if HasPrior(st, ws, peer) {
      LiveSeat(st, ws);
      var home, q := st.peerIndex[st.wsIndex[ws]].room, st.wsIndex[ws];
      var g := Leave(st, home, q);
      LeaveShape(st, home, q);
      OtherSettle(g, ws, room, peer, r, p, s);
      LeaveKeepsSeat(st, home, q, r, p);
      GivenUp(st, ws);
      LeaveIsQuiet(st, home, q);
      if s != ws {
        QuietAt(st, g, s);
        QuietThenOn(st, g, t, s);
      }
    } else {
      OtherSettle(st, ws, room, peer, r, p, s);
    }
    QuietStep(st, t, r, p);
  }

  lemma QuietAt(st: Server, t: Server, s: Socket)
    requires Quiet(st, t)
    ensures QuietOn(st, t, s)
  {
  }

  /** Coming back: the queue goes out on the new socket, if that is open. */
  lemma ResumeAccounted(st: Server, ws: Socket, r: Id, p: Id)
    requires Structured(st) && ws in st.sent && JoinFits(st, ws, r, p) && SeatIn(st, r, p)
    ensures SeatIn(Join(st, ws, r, p), r, p) && Accounted(st, JoinMsg(ws, r, p), Join(st, ws, r, p), r, p)
  {
    hide Structured, Join, Quiet, Leave, JoinFits, Payloads, Resume, Replay;
    JoinIsSettle(st, ws, r, p);
    var g := st;
    if HasPrior(st, ws, p) {
      LiveSeat(st, ws);
      var home, q := st.peerIndex[st.wsIndex[ws]].room, st.wsIndex[ws];
      g := Leave(st, home, q);
      LeaveShape(st, home, q);
      LeaveSpares(st, home, q, p, r);
      LeaveKeepsSeat(st, home, q, r, p);
      LeaveIsQuiet(st, home, q);
    } else {
      QuietSame(st, st);
    }
    assert Entered(g, r) == g && Join(st, ws, r, p) == Resume(g, ws, r, p);
    QuietAt(st, g, ws);
    ResumeHands(st, g, ws, r, p);
  }

  lemma ResumeHands(st: Server, g: Server, ws: Socket, r: Id, p: Id)
    requires SeatIn(st, r, p) && SeatIn(g, r, p) && g.rooms[r][p] == st.rooms[r][p] && g.open == st.open
    requires ws in st.sent && QuietOn(st, g, ws)
    ensures var t := Resume(g, ws, r, p);
            && SeatIn(t, r, p) && t.rooms[r][p] == Seat(Some(ws), false, [], 0)
            && Handed(st, t, r, p) == if ws in st.open then st.rooms[r][p].queue else []
  {
    hide Payloads, Resume, Replay;
    ResumeShape(g, ws, r, p);
    ResumeIsPlaced(g, ws, r, p);
    SendsKeepRooms();
    var t, q := Resume(g, ws, r, p), st.rooms[r][p].queue;
    var peers := Peers(r, g.rooms[r].Keys - {p}, true);
    assert t.rooms[r][p] == Seat(Some(ws), false, [], 0);
    if ws in st.open {
      PayloadsOfReplay(q);
      Voiceless([peers]);
      PayloadsAppend([peers], Replay(q));
      assert t.sent[ws] == g.sent[ws] + ([peers] + Replay(q));
      assert t.sent[ws][|g.sent[ws]|..] == [peers] + Replay(q);
      HeardOn(st.sent[ws], g.sent[ws], t.sent[ws]);
    }
  }

  /** A seat that was not there before begins empty-handed. */
  lemma NewSeat(st: Server, step: Step, r: Id, p: Id)
    requires Structured(st) && Enabled(st, step) && StepFits(st, step) && !SeatIn(st, r, p) &&
             SeatIn(Next(st, step), r, p)
    ensures Next(st, step).rooms[r][p].queue == [] && Handed(st, Next(st, step), r, p) == []
  {
    hide Structured, Join, Leave, JoinFits, Quiet, QuietOn, Payloads, Announce, SendAll, Expire, Seated, Settle, Handed;
    var t := Next(st, step);
    match step
    case Connect(ws) =>
    case JoinMsg(ws, room, peer) => NewSeatJoined(st, ws, room, peer, r, p);
    case LeaveMsg(ws, room, peer) =>
      if ws in st.wsIndex && st.wsIndex[ws] == peer {
        LiveSeat(st, ws);
        LeaveKeepsSeat(st, room, peer, r, p);
      } else {
        SendsKeepRooms();
      }
    case DataMsg(ws, room, from, to, payload) => SendsKeepRooms();
    case Break(ws) =>
    case Close(ws) => NoNewHold(st, ws, r, p);
    case Timeout(room, peer) =>
      ExpireIsLeave(st, room, peer);
      if t != st {
        LeaveKeepsSeat(st, room, peer, r, p);
      }
  }

  lemma NoNewHold(st: Server, ws: Socket, r: Id, p: Id)
    requires Structured(st) && SeatIn(Disconnect(st, ws), r, p)
    ensures SeatIn(st, r, p)
  {
    if ws in st.wsIndex {
      LiveSeat(st, ws);
      HoldShape(st, ws);
    }
    hide Structured;
  }

  lemma NewSeatJoined(st: Server, ws: Socket, room: Id, peer: Id, r: Id, p: Id)
    requires Structured(st) && ws in st.sent && JoinFits(st, ws, room, peer)
    requires !SeatIn(st, r, p) && SeatIn(Join(st, ws, room, peer), r, p)
    ensures Join(st, ws, room, peer).rooms[r][p].queue == [] && Handed(st, Join(st, ws, room, peer), r, p) == []
  {
    hide Structured, Join, Leave, JoinFits, Quiet, QuietOn, Handed, Settle;
    JoinIsSettle(st, ws, room, peer);
    var g, t := st, Join(st, ws, room, peer);
    if HasPrior(st, ws, peer) {
      LiveSeat(st, ws);
      var home, q := st.peerIndex[st.wsIndex[ws]].room, st.wsIndex[ws];
      g := Leave(st, home, q);
      LeaveShape(st, home, q);
      if SeatIn(g, r, p) {
        LeaveKeepsSeat(st, home, q, r, p);
      }
      LeaveIsQuiet(st, home, q);
    } else {
      QuietSame(st, st);
    }
    if !(room == r && peer == p) {
      OtherSettle(g, ws, room, peer, r, p, ws);
    }
    NewSettled(g, ws, r, p);
    QuietAt(st, g, ws);
    QuietThenOn(st, g, t, ws);
    QuietStep(st, t, r, p);
  }

  lemma NewSettled(g: Server, ws: Socket, r: Id, p: Id)
    requires ws in g.sent && !SeatIn(g, r, p)
    ensures var t := Settle(Entered(g, r), ws, r, p);
            && SeatIn(t, r, p) && t.rooms[r][p] == Seat(Some(ws), false, [], 0) && QuietOn(g, t, ws)
  {
    hide Resume, Seated, SendAll, Announce, Stale, Payloads;
    SeatedIsPlaced(g, ws, r, p);
    SeatedIsQuiet(Entered(g, r), ws, r, p);
    QuietEntered(g, r, Seated(Entered(g, r), ws, r, p), ws);
    SendsKeepRooms();
  }

  // The control plane

  lemma DroppedAndKept(pending: seq<string>)
    ensures pending == pending[..|pending| - |LongestFit(pending)|] + LongestFit(pending)
  {
    hide LongestFit;
    LongestFitIsLongest(pending);
  }

  /** What the seat's own socket hears of a payload: nothing, or the payload once. */
  predicate HandsOver(st: Server, t: Server, step: Step, r: Id, p: Id)
    requires SeatIn(st, r, p) && st.rooms[r][p].ws.Some?
  {
    var s := st.rooms[r][p].ws.value;
    && SeatIn(t, r, p) && t.rooms[r][p] == st.rooms[r][p]
    && Payloads(Added(st, t, s)) == if s in st.open then SentTo(st, step, r, p) else []
  }

  lemma BroadcastHands(st: Server, ws: Socket, room: Id, from: Id, payload: string, r: Id, p: Id)
    requires Structured(st) && SeatIn(st, r, p) && st.rooms[r][p].ws.Some?
    requires room in st.rooms && ws in st.wsIndex && st.wsIndex[ws] == from
    ensures HandsOver(st, RelayData(st, ws, room, from, None, payload), DataMsg(ws, room, from, None, payload), r, p)
  {
    hide Structured, Announce, Copies, Reached, Payloads;
    var s := st.rooms[r][p].ws.value;
    SeatSocket(st, r, p);
    SocketsSent(st);
    Silence();
    OnePayload(payload);
    AnnounceShape(st, st.rooms[room], from, Data(payload));
    ToldOnce(st, room, from, Data(payload), s);
    ReachedIsSeat(st, room, from, s);
    assert st.sent[s] + [] == st.sent[s];
  }

  lemma DirectHands(st: Server, ws: Socket, room: Id, from: Id, to: Id, payload: string, r: Id, p: Id)
    requires Structured(st) && SeatIn(st, r, p) && st.rooms[r][p].ws.Some?
    requires room in st.rooms && ws in st.wsIndex && st.wsIndex[ws] == from
    ensures HandsOver(st, RelayData(st, ws, room, from, Some(to), payload), DataMsg(ws, room, from, Some(to), payload),
            r, p)
  {
    hide Structured, SendAll, Payloads;
    SeatSocket(st, r, p);
    SocketsSent(st);
    Silence();
    OnePayload(payload);
    if to in st.rooms[room] && st.rooms[room][to].ws.Some? {
      var u := st.rooms[room][to].ws.value;
      SeatSocket(st, room, to);
      SendShape(st, u, [Data(payload)]);
    }
    SameFrames(st.sent[st.rooms[r][p].ws.value]);
  }

  lemma SameFrames(frames: seq<Frame>)
    ensures frames[|frames|..] == []
  {
  }

  lemma RelayHands(st: Server, ws: Socket, room: Id, from: Id, to: Option<Id>, payload: string, r: Id, p: Id)
    requires Structured(st) && SeatIn(st, r, p) && st.rooms[r][p].ws.Some?
    ensures HandsOver(st, RelayData(st, ws, room, from, to, payload), DataMsg(ws, room, from, to, payload), r, p)
  {
    hide Structured, Announce, SendAll, Payloads;
    SeatSocket(st, r, p);
    SocketsSent(st);
    Silence();
    SameFrames(st.sent[st.rooms[r][p].ws.value]);
    if room in st.rooms && ws in st.wsIndex && st.wsIndex[ws] == from {
      match to
      case None => BroadcastHands(st, ws, room, from, payload, r, p);
      case Some(q) => DirectHands(st, ws, room, from, q, payload, r, p);
    } else if room in st.rooms {
      SendIsQuiet(st, ws, Error("relay from mismatch"));
      SendsKeepRooms();
      assert QuietOn(st, RelayData(st, ws, room, from, to, payload), st.rooms[r][p].ws.value);
    }
  }

  lemma Silence()
    ensures Payloads([]) == []
  {
  }

  lemma OnePayload(payload: string)
    ensures Payloads([Data(payload)]) == [payload]
  {
    assert [] + [Data(payload)] == [Data(payload)];
    PayloadsSnoc([], Data(payload));
  }

  lemma RelayQueues(st: Server, ws: Socket, room: Id, from: Id, to: Option<Id>, payload: string, r: Id, p: Id)
    requires Structured(st) && HeldIn(st, r, p)
    ensures var t, pending := RelayData(st, ws, room, from, to, payload),
                              st.rooms[r][p].queue + SentTo(st, DataMsg(ws, room, from, to, payload), r, p);
            SeatIn(t, r, p) && t.rooms[r][p].ws == None && t.rooms[r][p].queue == LongestFit(pending)
  {
    hide Structured, Announce, SendAll, LongestFit;
    SeatFits(st, r, p);
    SendsKeepRooms();
    assert st.rooms[r][p].queue + [] == st.rooms[r][p].queue;
  }

  lemma RelayAccounted(st: Server, ws: Socket, room: Id, from: Id, to: Option<Id>, payload: string, r: Id, p: Id)
    requires Structured(st) && SeatIn(st, r, p)
    ensures SeatIn(RelayData(st, ws, room, from, to, payload), r, p)
    ensures Accounted(st, DataMsg(ws, room, from, to, payload), RelayData(st, ws, room, from, to, payload), r, p)
  {
    hide RelayData, SentTo, LongestFit, Payloads, Added;
    var step := DataMsg(ws, room, from, to, payload);
    if HeldIn(st, r, p) {
      RelayQueues(st, ws, room, from, to, payload, r, p);
      DroppedAndKept(st.rooms[r][p].queue + SentTo(st, step, r, p));
    } else {
      RelayHands(st, ws, room, from, to, payload, r, p);
      LiveQueue(st, r, p);
    }
  }

  lemma LiveQueue(st: Server, r: Id, p: Id)
    requires Structured(st) && SeatIn(st, r, p) && st.rooms[r][p].ws.Some?
    ensures st.rooms[r][p].queue == []
  {
    assert SeatSound(st, p);
  }

  /** Every step accounts for every payload. */
  lemma StepAccounted(st: Server, step: Step, r: Id, p: Id)
    requires Structured(st) && Enabled(st, step) && StepFits(st, step) && SeatIn(st, r, p) &&
             SeatIn(Next(st, step), r, p)
    ensures Accounted(st, step, Next(st, step), r, p)
  {
    hide Structured, Join, LeaveMessage, RelayData, Disconnect, Expire, JoinFits, LeaveFits, Accounted;
    match step
    case Connect(ws) => StillAccounted(st, Next(st, step), step, r, p);
    case JoinMsg(ws, room, peer) =>
      if room == r && peer == p {
        ResumeAccounted(st, ws, r, p);
      } else {
        OtherJoinAccounted(st, ws, room, peer, r, p);
      }
    case LeaveMsg(ws, room, peer) => LeaveMsgAccounted(st, ws, room, peer, r, p);
    case DataMsg(ws, room, from, to, payload) => RelayAccounted(st, ws, room, from, to, payload, r, p);
    case Break(ws) => StillAccounted(st, Next(st, step), step, r, p);
    case Close(ws) => CloseAccounted(st, ws, r, p);
    case Timeout(room, peer) => TimeoutAccounted(st, room, peer, r, p);
  }

  // Runs

  /** Was the seat there before the last step, too? */
  predicate SeatStood(steps: seq<Step>, r: Id, p: Id)
    requires steps != []
  {
    SeatIn(After(Before(steps)), r, p)
  }

  /** Everything addressed to the seat since it was taken. */
  function Addressed(steps: seq<Step>, r: Id, p: Id): seq<string> {
    if steps == [] || !SeatStood(steps, r, p) then []
    else Addressed(Before(steps), r, p) + SentTo(After(Before(steps)), Last(steps), r, p)
  }

  /** Everything that went out on its successive sockets. */
  function Delivered(steps: seq<Step>, r: Id, p: Id): seq<string> {
    if steps == [] || !SeatIn(After(steps), r, p) then []
    else
      (if SeatStood(steps, r, p) then Delivered(Before(steps), r, p) else []) +
      Handed(After(Before(steps)), After(steps), r, p)
  }

  /** Everything the steps lost. */
  function Lost(steps: seq<Step>, r: Id, p: Id): seq<string> {
    if steps == [] || !SeatStood(steps, r, p) then []
    else Lost(Before(steps), r, p) + LostAt(After(Before(steps)), Last(steps), r, p)
  }

  /** `u` is `w` with some elements left out. */
  predicate Subsequence(u: seq<string>, w: seq<string>) {
    u == [] || (w != [] && (Subsequence(u, w[..|w| - 1]) ||
                            (u[|u| - 1] == w[|w| - 1] && Subsequence(u[..|u| - 1], w[..|w| - 1]))))
  }

  lemma {:induction false} SubsequenceAppend(u: seq<string>, w: seq<string>, v: seq<string>)
    requires Subsequence(u, w)
    ensures Subsequence(u + v, w + v)
  {
    if v == [] {
      assert u + v == u && w + v == w;
    } else {
      var n := |v| - 1;
      SubsequenceAppend(u, w, v[..n]);
      assert (u + v)[..|u + v| - 1] == u + v[..n] && (w + v)[..|w + v| - 1] == w + v[..n];
    }
  }

  lemma {:induction false} SubsequenceFront(u: seq<string>, w: seq<string>)
    requires u != [] && Subsequence(u, w)
    ensures Subsequence(u[..|u| - 1], w)
  {
    if Subsequence(u, w[..|w| - 1]) {
      SubsequenceFront(u, w[..|w| - 1]);
    } else if |u| > 1 {
      SubsequenceGrows(u[..|u| - 1], w[..|w| - 1], w[|w| - 1]);
      assert w == w[..|w| - 1] + [w[|w| - 1]];
    }
  }

  lemma SubsequenceGrows(u: seq<string>, w: seq<string>, x: string)
    requires Subsequence(u, w)
    ensures Subsequence(u, w + [x])
  {
    assert (w + [x])[..|w + [x]| - 1] == w;
  }

  /** What is left out may lie in the middle. */
  lemma {:induction false} SubsequenceWithout(a: seq<string>, l: seq<string>, b: seq<string>, w: seq<string>)
    requires Subsequence(a + l + b, w)
    ensures Subsequence(a + b, w)
    decreases |w|
  {
    if b == [] {
      assert a + l + b == a + l && a + b == a;
      FrontIsSubsequence(a, l, w);
    } else if w != [] {
      var u, n := a + l + b, |b| - 1;
      assert u[..|u| - 1] == a + l + b[..n] && (a + b)[..|a + b| - 1] == a + b[..n];
      if Subsequence(u, w[..|w| - 1]) {
        SubsequenceWithout(a, l, b, w[..|w| - 1]);
      } else {
        SubsequenceWithout(a, l, b[..n], w[..|w| - 1]);
      }
    }
  }

  lemma {:induction false} FrontIsSubsequence(a: seq<string>, l: seq<string>, w: seq<string>)
    requires Subsequence(a + l, w)
    ensures Subsequence(a, w)
  {
    if l == [] {
      assert a + l == a;
    } else {
      var n := |l| - 1;
      assert (a + l)[..|a + l| - 1] == a + l[..n];
      SubsequenceFront(a + l, w);
      FrontIsSubsequence(a, l[..n], w);
    }
  }

  lemma {:induction false} SubsequenceIsShorter(u: seq<string>, w: seq<string>)
    requires Subsequence(u, w)
    ensures |u| <= |w| && (|u| == |w| ==> u == w)
  {
    if u != [] {
      var v := w[..|w| - 1];
      if Subsequence(u, v) {
        SubsequenceIsShorter(u, v);
      } else {
        SubsequenceIsShorter(u[..|u| - 1], v);
        assert u == u[..|u| - 1] + [u[|u| - 1]] && w == v + [w[|w| - 1]];
      }
    }
  }

  lemma RunIsStructured(steps: seq<Step>)
    requires Possible(steps) && AllFit(steps)
    ensures Structured(After(steps))
  {
    hide Inv, Structured, Next, Enabled, StepFits;
    RunConsistentIff(steps);
    AlwaysNow(steps);
    InvIsStructured(After(steps));
  }

  /** Delivered, then waiting: an ordered part of everything addressed to the seat. What is
      missing is exactly what the steps lost. */
  lemma {:induction false} DeliveryInOrder(steps: seq<Step>, r: Id, p: Id)
    requires Possible(steps) && AllFit(steps) && SeatIn(After(steps), r, p)
    ensures var kept := Delivered(steps, r, p) + After(steps).rooms[r][p].queue;
            && Subsequence(kept, Addressed(steps, r, p))
            && multiset(Addressed(steps, r, p)) == multiset(kept) + multiset(Lost(steps, r, p))
  {
    hide Structured, Next, Enabled, StepFits, SentTo, LostAt, Handed, Subsequence;
    if steps == [] {
      EmptyRun(r, p);
    } else {
      var st, step := After(Before(steps)), Last(steps);
      RunIsStructured(Before(steps));
      if SeatStood(steps, r, p) {
        DeliveryInOrder(Before(steps), r, p);
        StepAccounted(st, step, r, p);
        OneMoreStep(Delivered(Before(steps), r, p), st.rooms[r][p].queue, Addressed(Before(steps), r, p),
                    Lost(Before(steps), r, p), SentTo(st, step, r, p), LostAt(st, step, r, p),
                    Handed(st, After(steps), r, p), After(steps).rooms[r][p].queue);
      } else {
        NewSeat(st, step, r, p);
        NothingLeftOut();
        assert Delivered(steps, r, p) + After(steps).rooms[r][p].queue == [];
      }
    }
  }

  lemma EmptyRun(r: Id, p: Id)
    ensures !SeatIn(After([]), r, p)
  {
  }

  lemma NothingLeftOut()
    ensures Subsequence([], [])
  {
  }

  lemma OneMoreStep(got: seq<string>, q: seq<string>, all: seq<string>, lost: seq<string>,
                    news: seq<string>, now: seq<string>, handed: seq<string>, left: seq<string>)
    requires Subsequence(got + q, all) && multiset(all) == multiset(got + q) + multiset(lost)
    requires q + news == now + handed + left
    ensures Subsequence(got + handed + left, all + news)
    ensures multiset(all + news) == multiset(got + handed + left) + multiset(lost + now)
  {
    InOrderStill(got, q, all, news, now, handed, left);
    hide Subsequence;
    Bag(got, q);
    Bag(q, news);
    Bag(now + handed, left);
    Bag(now, handed);
    Bag(all, news);
    Bag(got + handed, left);
    Bag(got, handed);
    Bag(lost, now);
    Balanced(multiset(all), multiset(got), multiset(q), multiset(lost), multiset(news), multiset(now), multiset(handed),
             multiset(left));
  }

  lemma InOrderStill(got: seq<string>, q: seq<string>, all: seq<string>, news: seq<string>, now: seq<string>,
                     handed: seq<string>, left: seq<string>)
    requires Subsequence(got + q, all) && q + news == now + handed + left
    ensures Subsequence(got + handed + left, all + news)
  {
    hide Subsequence;
    SubsequenceAppend(got + q, all, news);
    Grouped(got, q, news);
    Grouped(got, now, handed + left);
    Grouped(now, handed, left);
    SubsequenceWithout(got, now, handed + left, all + news);
    Grouped(got, handed, left);
  }

  lemma Grouped(u: seq<string>, v: seq<string>, w: seq<string>)
    ensures u + v + w == u + (v + w)
  {
  }

  lemma Bag(u: seq<string>, w: seq<string>)
    ensures multiset(u + w) == multiset(u) + multiset(w)
  {
  }

  lemma Balanced(all: multiset<string>, got: multiset<string>, q: multiset<string>, lost: multiset<string>,
                 news: multiset<string>, now: multiset<string>, handed: multiset<string>, left: multiset<string>)
    requires all == got + q + lost && q + news == now + handed + left
    ensures all + news == got + handed + left + (lost + now)
  {
    forall x: string
      ensures (all + news)[x] == (got + handed + left + (lost + now))[x]
    {
      assert (q + news)[x] == (now + handed + left)[x];
    }
  }

  /** A seat has been sent, or is kept, everything addressed to it, exactly when no step lost any. */
  lemma NothingLostIff(steps: seq<Step>, r: Id, p: Id)
    requires Possible(steps) && AllFit(steps) && SeatIn(After(steps), r, p)
    ensures Delivered(steps, r, p) + After(steps).rooms[r][p].queue == Addressed(steps, r, p) <==>
            Lost(steps, r, p) == []
  {
    hide Possible, AllFit, After, Delivered, Addressed, Lost, Subsequence;
    DeliveryInOrder(steps, r, p);
    var kept, all := Delivered(steps, r, p) + After(steps).rooms[r][p].queue, Addressed(steps, r, p);
    SubsequenceIsShorter(kept, all);
    assert |multiset(all)| == |all| && |multiset(kept)| == |kept|;
    assert |multiset(Lost(steps, r, p))| == |Lost(steps, r, p)|;
  }
}
