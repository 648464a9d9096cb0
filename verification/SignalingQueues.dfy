/** Runs of the signaling server from its start: consistency over whole runs, what waits
    for a held seat, and how silent a dropped connection is. */
module SignalingQueues {
  import opened Options
  import opened Seats
  import opened Signaling
  import opened SignalingSafety
  import opened SignalingJoin
  import opened SignalingRuns

  // Runs

  function Before(steps: seq<Step>): seq<Step>
    requires steps != []
  {
    steps[..|steps| - 1]
  }

  function Last(steps: seq<Step>): Step
    requires steps != []
  {
    steps[|steps| - 1]
  }

  function After(steps: seq<Step>): Server {
    if steps == [] then NOBODY else Next(After(Before(steps)), Last(steps))
  }

  /** Every step could happen when it did. */
  predicate Possible(steps: seq<Step>) {
    steps != [] ==> Possible(Before(steps)) && Enabled(After(Before(steps)), Last(steps))
  }

  predicate AllFit(steps: seq<Step>) {
    steps != [] ==> AllFit(Before(steps)) && StepFits(After(Before(steps)), Last(steps))
  }

  predicate AlwaysConsistent(steps: seq<Step>) {
    Inv(After(steps)) && (steps != [] ==> AlwaysConsistent(Before(steps)))
  }

  lemma NobodyConsistent()
    ensures Inv(NOBODY)
  {
  }

  /** Over every run: indexes, seats, timers and rosters agree throughout exactly when no
      join or leave was misplaced. */
  lemma {:induction false} RunConsistentIff(steps: seq<Step>)
    requires Possible(steps)
    ensures AlwaysConsistent(steps) <==> AllFit(steps)
  {
    hide Inv, Next, Enabled, StepFits;
    if steps == [] {
      NobodyConsistent();
    } else {
      RunConsistentIff(Before(steps));
      if AlwaysConsistent(Before(steps)) {
        StepKeepsInvIff(After(Before(steps)), Last(steps));
      }
    }
  }

  // The queue of a held seat

  predicate HeldIn(st: Server, r: Id, p: Id) { r in st.rooms && p in st.rooms[r] && st.rooms[r][p].ws == None }

  /** The payload an accepted data frame addresses to a seat. */
  function SentTo(st: Server, step: Step, r: Id, p: Id): seq<string> {
    match step
    case DataMsg(ws, room, from, to, payload) =>
      if room == r && ws in st.wsIndex && st.wsIndex[ws] == from && (to == Some(p) || (to == None && from != p))
      then [payload] else []
    case _ => []
  }

  /** Everything addressed to the seat since it was last held. */
  function Since(steps: seq<Step>, r: Id, p: Id): seq<string> {
    if steps == [] || !HeldIn(After(Before(steps)), r, p) then []
    else Since(Before(steps), r, p) + SentTo(After(Before(steps)), Last(steps), r, p)
  }

  /** A seat found in a room after a leave was there before. */
  lemma LeaveSeats(st: Server, room: Id, peer: Id, r: Id, p: Id)
    requires peer in st.peerIndex && HeldIn(Leave(st, room, peer), r, p)
    ensures HeldIn(st, r, p) && Leave(st, room, peer).rooms[r][p] == st.rooms[r][p]
  {
    hide Leave;
    if room in st.rooms {
      LeaveRooms(st, room, peer);
    } else {
      LeaveUnknownRoom(st, room, peer);
    }
  }

  lemma SettleSeats(st: Server, ws: Socket, room: Id, peer: Id, r: Id, p: Id)
    requires ws in st.sent && HeldIn(Settle(Entered(st, room), ws, room, peer), r, p)
    ensures HeldIn(st, r, p) && Settle(Entered(st, room), ws, room, peer).rooms[r][p] == st.rooms[r][p]
  {
    hide Resume, Seated, SendAll, Announce, Stale, Replay;
    if peer in Members(st, room) {
      assert Entered(st, room) == st;
      ResumeIsPlaced(st, ws, room, peer);
    } else {
      SeatedIsPlaced(st, ws, room, peer);
    }
    SendsKeepRooms();
  }

  lemma SendsKeepRooms()
    ensures forall st, ws, frames :: SendAll(st, ws, frames).rooms == st.rooms
    ensures forall st, room, sender, f :: Announce(st, room, sender, f).rooms == st.rooms
  {
    hide Copies;
  }

  /** Joining touches no held seat but the joiner's own. */
  lemma JoinSeats(st: Server, ws: Socket, room: Id, peer: Id, r: Id, p: Id)
    requires Inv(st) && ws in st.sent && JoinFits(st, ws, room, peer) && HeldIn(Join(st, ws, room, peer), r, p)
    ensures HeldIn(st, r, p) && Join(st, ws, room, peer).rooms[r][p] == st.rooms[r][p]
  {
    hide Inv, Settle, Leave, HeldIn, IndexesAgree, SocketsAgree, SeatsSound, RostersAgree;
    InvIsStructured(st);
    JoinIsSettle(st, ws, room, peer);
    if HasPrior(st, ws, peer) {
      LiveSeat(st, ws);
      var home := st.peerIndex[st.wsIndex[ws]].room;
      LeaveShape(st, home, st.wsIndex[ws]);
      SettleSeats(Leave(st, home, st.wsIndex[ws]), ws, room, peer, r, p);
      LeaveSeats(st, home, st.wsIndex[ws], r, p);
    } else {
      SettleSeats(st, ws, room, peer, r, p);
    }
  }

  lemma RelaySeats(st: Server, step: Step, r: Id, p: Id)
    requires Inv(st) && step.DataMsg? && HeldIn(Next(st, step), r, p)
    ensures HeldIn(st, r, p)
    ensures Next(st, step).rooms[r][p].queue == LongestFit(st.rooms[r][p].queue + SentTo(st, step, r, p))
  {
    hide SendAll, Announce, IndexesAgree, SocketsAgree, RostersAgree, Fits;
    SeatFits(st, r, p);
    SendsKeepRooms();
    assert HeldIn(st, r, p);
    if SentTo(st, step, r, p) == [] {
      assert Next(st, step).rooms[r][p] == st.rooms[r][p];
      assert st.rooms[r][p].queue + [] == st.rooms[r][p].queue;
    }
  }

  lemma SeatFits(st: Server, r: Id, p: Id)
    requires Structured(st)
    ensures r in st.rooms && p in st.rooms[r] ==> LongestFit(st.rooms[r][p].queue) == st.rooms[r][p].queue
  {
    if r in st.rooms && p in st.rooms[r] {
      assert SeatSound(st, p);
    }
  }

  /** A seat is held with an empty queue, and each step then adds what it addresses to it. */
  lemma StepQueue(st: Server, step: Step, r: Id, p: Id)
    requires Inv(st) && Enabled(st, step) && StepFits(st, step) && HeldIn(Next(st, step), r, p)
    ensures Next(st, step).rooms[r][p].queue ==
            if HeldIn(st, r, p) then LongestFit(st.rooms[r][p].queue + SentTo(st, step, r, p)) else []
  {
    hide Inv, Structured, Leave, Join, RelayData, JoinFits, Fits, Announce, SendAll, LongestFit;
    InvIsStructured(st);
    SeatFits(st, r, p);
    if HeldIn(st, r, p) {
      assert st.rooms[r][p].queue + [] == st.rooms[r][p].queue;
    }
    match step
    case Connect(ws) =>
    case JoinMsg(ws, room, peer) => JoinSeats(st, ws, room, peer, r, p);
    case LeaveMsg(ws, room, peer) => LeaveMessageSeats(st, ws, room, peer, r, p);
    case DataMsg(ws, room, from, to, payload) => RelaySeats(st, step, r, p);
    case Break(ws) =>
    case Close(ws) => CloseSeats(st, ws, r, p);
    case Timeout(room, peer) => ExpireSeats(st, room, peer, r, p);
  }

  lemma LeaveMessageSeats(st: Server, ws: Socket, room: Id, peer: Id, r: Id, p: Id)
    requires Inv(st) && HeldIn(LeaveMessage(st, ws, room, peer), r, p)
    ensures HeldIn(st, r, p) && LeaveMessage(st, ws, room, peer).rooms[r][p] == st.rooms[r][p]
  {
    hide Leave, Inv;
    if ws in st.wsIndex && st.wsIndex[ws] == peer {
      InvIsStructured(st);
      LiveSeat(st, ws);
      LeaveSeats(st, room, peer, r, p);
    }
  }

  lemma CloseSeats(st: Server, ws: Socket, r: Id, p: Id)
    requires Inv(st) && HeldIn(Disconnect(st, ws), r, p)
    ensures Disconnect(st, ws).rooms[r][p].queue == if HeldIn(st, r, p) then st.rooms[r][p].queue else []
  {
    hide Inv;
    if ws in st.wsIndex {
      InvIsStructured(st);
      LiveSeat(st, ws);
      HoldShape(st, ws);
    }
  }

  lemma ExpireSeats(st: Server, room: Id, peer: Id, r: Id, p: Id)
    requires Inv(st) && HeldIn(Expire(st, room, peer), r, p)
    ensures HeldIn(st, r, p) && Expire(st, room, peer).rooms[r][p] == st.rooms[r][p]
  {
    hide Inv, Expire, Leave;
    InvIsStructured(st);
    ExpireIsLeave(st, room, peer);
    if Expire(st, room, peer) != st {
      LeaveSeats(st, room, peer, r, p);
    }
  }

  /** While a seat is held, its queue is the longest suffix of everything addressed to it
      since the hold that fits both caps, and `queuedBytes` is its exact size. */
  lemma {:induction false} QueueIsLongestFit(steps: seq<Step>, r: Id, p: Id)
    requires Possible(steps) && AllFit(steps) && HeldIn(After(steps), r, p)
    ensures var seat := After(steps).rooms[r][p];
            seat.queue == LongestFit(Since(steps, r, p)) && seat.queuedBytes == Bytes(seat.queue) && seat.timer
  {
    hide Inv, Next, Enabled, StepFits, LongestFit, IndexesAgree, SocketsAgree, RostersAgree;
    RunConsistentIff(steps);
    HeldSeat(After(steps), r, p);
    if steps != [] {
      var st := After(Before(steps));
      StepQueue(st, Last(steps), r, p);
      if HeldIn(st, r, p) {
        QueueIsLongestFit(Before(steps), r, p);
        var more := SentTo(st, Last(steps), r, p);
        if more != [] {
          LongestFitSnoc(Since(Before(steps), r, p), more[0]);
        } else {
          InvIsStructured(st);
          SeatFits(st, r, p);
          assert Since(steps, r, p) == Since(Before(steps), r, p);
          assert st.rooms[r][p].queue + more == st.rooms[r][p].queue;
        }
      } else {
        NothingFits();
      }
    }
  }

  lemma NothingFits()
    ensures LongestFit([]) == []
  {
  }

  lemma HeldSeat(st: Server, r: Id, p: Id)
    requires Inv(st) && HeldIn(st, r, p)
    ensures st.rooms[r][p].timer && st.rooms[r][p].queuedBytes == Bytes(st.rooms[r][p].queue)
  {
    assert SeatSound(st, p);
  }

  /** A socket that dies is announced to nobody and empties no seat. */
  lemma HoldIsSilent(st: Server, ws: Socket)
    requires Inv(st) && ws in st.sent && ws !in st.closed
    ensures var t := Disconnect(st, ws);
            && t.sent == st.sent && t.rooms.Keys == st.rooms.Keys
            && (forall r :: r in st.rooms ==> t.rooms[r].Keys == st.rooms[r].Keys)
            && forall r, p :: r in st.rooms && p in st.rooms[r] && st.rooms[r][p].ws == Some(ws) ==> HeldIn(t, r, p)
  {
    hide Inv;
    InvIsStructured(st);
    if ws in st.wsIndex {
      HoldShape(st, ws);
    }
    hide Disconnect;
    forall r, p | r in st.rooms && p in st.rooms[r] && st.rooms[r][p].ws == Some(ws)
      ensures HeldIn(Disconnect(st, ws), r, p)
    {
      assert SeatSound(st, p);
    }
  }

  /** A resume hands over the list of peers and then everything the seat missed that fits,
      oldest first; nobody else hears of it, beyond the departure of a seat the socket
      gives up for it. On a socket that is already closing both are lost, and the queue
      is empty all the same. */
  lemma ResumeReplays(steps: seq<Step>, ws: Socket, r: Id, p: Id)
    requires Possible(steps) && AllFit(steps) && HeldIn(After(steps), r, p)
    requires Enabled(After(steps), JoinMsg(ws, r, p))
    ensures var st := After(steps);
            var t, g := Next(st, JoinMsg(ws, r, p)), GiveUpPrior(st, ws, r, p);
            && Inv(t) && t.sent.Keys == st.sent.Keys && r in g.rooms && p in g.rooms[r]
            && t.sent[ws] == (if ws !in st.open then st.sent[ws]
                              else
                                st.sent[ws] + [Peers(r, g.rooms[r].Keys - {p}, true)] +
                                Replay(LongestFit(Since(steps, r, p))))
            && (forall w :: w in t.sent && w != ws ==> w in g.sent && t.sent[w] == g.sent[w])
            && t.rooms == g.rooms[r := g.rooms[r][p := Seat(Some(ws), false, [], 0)]]
            && ws in t.wsIndex && t.wsIndex[ws] == p
            && (ws !in st.wsIndex ==> g == st)
  {
    hide Possible, AllFit, After, Since, LongestFit, Replay, Resume, Leave, Join, Settle, Inv, Structured, Placed;
    var st := After(steps);
    QueueIsLongestFit(steps, r, p);
    RunConsistentIff(steps);
    AlwaysNow(steps);
    InvIsStructured(st);
    HeldJoinFits(st, ws, r, p);
    JoinKeepsInvIff(st, ws, r, p);
    JoinIsSettle(st, ws, r, p);
    HeldStays(st, ws, r, p);
    var g := GiveUpPrior(st, ws, r, p);
    ResumedAfter(g, ws, r, p);
  }

  lemma AlwaysNow(steps: seq<Step>)
    requires AlwaysConsistent(steps)
    ensures Inv(After(steps))
  {
  }

  /** Coming back to a held seat is never misplaced. */
  lemma HeldJoinFits(st: Server, ws: Socket, r: Id, p: Id)
    requires Structured(st) && HeldIn(st, r, p)
    ensures JoinFits(st, ws, r, p)
  {
    SeatSocket(st, r, p);
    hide Structured;
  }

  /** Giving up another seat first leaves the held one as it is and tells the socket nothing. */
  lemma HeldStays(st: Server, ws: Socket, r: Id, p: Id)
    requires Structured(st) && HeldIn(st, r, p) && ws in st.sent
    requires HasPrior(st, ws, p) ==> st.wsIndex[ws] in st.peerIndex
    ensures var g := GiveUpPrior(st, ws, r, p);
            && (HasPrior(st, ws, p) ==> g == Leave(st, st.peerIndex[st.wsIndex[ws]].room, st.wsIndex[ws]))
            && (ws !in st.wsIndex ==> g == st)
            && HeldIn(g, r, p) && g.rooms[r][p] == st.rooms[r][p]
            && ws in g.sent && g.sent.Keys == st.sent.Keys && g.sent[ws] == st.sent[ws] && g.open == st.open
  {
    hide Structured, Leave, Copies;
    if HasPrior(st, ws, p) {
      LiveSeat(st, ws);
      var q, home := st.wsIndex[ws], st.peerIndex[st.wsIndex[ws]].room;
      LeaveShape(st, home, q);
      ToldOnce(st, home, q, Left(home, q), ws);
      ReachedIsSeat(st, home, q, ws);
      assert st.sent[ws] + [] == st.sent[ws];
      LeaveSpares(st, home, q, p, r);
      if home == r {
        assert p in st.rooms[r] - {q};
      }
    }
  }

  lemma ResumedAfter(g: Server, ws: Socket, r: Id, p: Id)
    requires HeldIn(g, r, p) && ws in g.sent
    ensures var t := Settle(Entered(g, r), ws, r, p);
            && t == Resume(g, ws, r, p) && t.sent.Keys == g.sent.Keys
            && t.sent[ws] == (if ws !in g.open then g.sent[ws]
                              else g.sent[ws] + [Peers(r, g.rooms[r].Keys - {p}, true)] + Replay(g.rooms[r][p].queue))
            && (forall w :: w in t.sent && w != ws ==> t.sent[w] == g.sent[w])
            && t.rooms == g.rooms[r := g.rooms[r][p := Seat(Some(ws), false, [], 0)]]
            && ws in t.wsIndex && t.wsIndex[ws] == p
  {
    hide Resume, Replay;
    ResumeShape(g, ws, r, p);
    PlacedOwn(g, ws, r, p);
  }
}
