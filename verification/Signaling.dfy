/** The signaling server's rooms and indexes as one value, and what each message, socket
    event and timer does to it. */
module Signaling {
  import opened Options
  import opened Seats

  type Id = string

  datatype Frame =
    | Peers(room: Id, peers: set<Id>, resumed: bool)
    | Joined(room: Id, peer: Id)
    | Left(room: Id, peer: Id)
    | Data(payload: string)
    | Error(message: string)

  datatype Entry = Entry(room: Id, ws: Socket)

  type Room = map<Id, Seat>

  /** `open`: sockets that take frames; `closed`: sockets whose close event has been seen;
      `sent`: every connected socket with the frames put on it so far. */
  datatype Server = Server(
    rooms: map<Id, Room>,
    peerIndex: map<Id, Entry>,
    wsIndex: map<Socket, Id>,
    open: set<Socket>,
    closed: set<Socket>,
    sent: map<Socket, seq<Frame>>)

  // Putting frames on sockets

  function SendAll(st: Server, ws: Socket, frames: seq<Frame>): Server {
    if ws in st.open && ws in st.sent then st.(sent := st.sent[ws := st.sent[ws] + frames]) else st
  }

  function Send(st: Server, ws: Socket, f: Frame): Server { SendAll(st, ws, [f]) }

  /** The seats of a room, the sender's excepted, that sit on a socket. */
  function SeatsOn(room: Room, sender: Id, ws: Socket): set<Id> {
    set id | id in room && id != sender && room[id].ws == Some(ws)
  }

  /** What a broadcast puts on a socket: the frame once for every seat on it. */
  function Copies(room: Room, sender: Id, f: Frame, ws: Socket): seq<Frame> { seq(|SeatsOn(room, sender, ws)|, _ => f) }

  /** A live-only broadcast: held seats and dying sockets miss it. */
  function Announce(st: Server, room: Room, sender: Id, f: Frame): Server {
    st.(sent := map ws | ws in st.sent ::
          if ws in st.open then st.sent[ws] + Copies(room, sender, f, ws) else st.sent[ws])
  }

  /** What a data frame does to the seats of a room: held ones queue it. */
  function QueueHeld(room: Room, sender: Id, payload: string): Room {
    map id | id in room :: if id != sender && room[id].ws == None then Queued(room[id], payload) else room[id]
  }

  // The handlers

  function Entered(st: Server, roomId: Id): Server {
    if roomId in st.rooms then st else st.(rooms := st.rooms[roomId := map[]])
  }

  function Leave(st: Server, roomId: Id, peerId: Id): Server {
    if roomId !in st.rooms then st
    else
      var room := st.rooms[roomId] - {peerId};
      var ws := if peerId in st.peerIndex then {st.peerIndex[peerId].ws} else {};
      var st1 := st.(rooms := st.rooms[roomId := room], peerIndex := st.peerIndex - {peerId},
                     wsIndex := st.wsIndex - ws);
      var st2 := Announce(st1, room, peerId, Left(roomId, peerId));
      if room == map[] then st2.(rooms := st2.rooms - {roomId}) else st2
  }

  /** A socket speaks for one peer: joining as another first gives up the earlier seat. */
  function GiveUpPrior(st: Server, ws: Socket, roomId: Id, peerId: Id): Server {
    if ws in st.wsIndex && st.wsIndex[ws] != peerId then
      var prior := st.wsIndex[ws];
      Leave(st, if prior in st.peerIndex then st.peerIndex[prior].room else roomId, prior)
    else st
  }

  /** Same seat, new socket: the old one is cut off, the timer disarmed, and what was
      queued is replayed behind a fresh list of peers. */
  function Resume(st: Server, ws: Socket, roomId: Id, peerId: Id): Server
    requires roomId in st.rooms && peerId in st.rooms[roomId]
  {
    var room := st.rooms[roomId];
    var seat := room[peerId];
    var stale := if seat.ws.Some? && seat.ws != Some(ws) then {seat.ws.value} else {};
    var st1 := st.(wsIndex := (st.wsIndex - stale)[ws := peerId], open := st.open - stale,
                   peerIndex := st.peerIndex[peerId := Entry(roomId, ws)],
                   rooms := st.rooms[roomId := room[peerId := Seat(Some(ws), false, [], 0)]]);
    SendAll(Send(st1, ws, Peers(roomId, room.Keys - {peerId}, true)), ws, Replay(seat.queue))
  }

  function Replay(q: seq<string>): (r: seq<Frame>)
    ensures |r| == |q| && forall i :: 0 <= i < |q| ==> r[i] == Data(q[i])
  {
    seq(|q|, i requires 0 <= i < |q| => Data(q[i]))
  }

  /** A new seat: the joiner is told who is there, the others that someone came. When the
      room the handler holds is no longer in the index, the seat is added to that orphan. */
  function Seated(st: Server, ws: Socket, roomId: Id, peerId: Id): Server {
    var room := if roomId in st.rooms then st.rooms[roomId] else map[];
    var grown := room[peerId := Seat(Some(ws), false, [], 0)];
    var st1 := st.(peerIndex := st.peerIndex[peerId := Entry(roomId, ws)], wsIndex := st.wsIndex[ws := peerId],
                   rooms := if roomId in st.rooms then st.rooms[roomId := grown] else st.rooms);
    Announce(Send(st1, ws, Peers(roomId, grown.Keys - {peerId}, false)), grown, peerId, Joined(roomId, peerId))
  }

  function Join(st: Server, ws: Socket, roomId: Id, peerId: Id): Server {
    var st2 := GiveUpPrior(Entered(st, roomId), ws, roomId, peerId);
    if roomId in st2.rooms && peerId in st2.rooms[roomId] then Resume(st2, ws, roomId, peerId)
    else Seated(st2, ws, roomId, peerId)
  }

  function Hold(st: Server, roomId: Id, peerId: Id): Server {
    if roomId !in st.rooms || peerId !in st.rooms[roomId] then st
    else
      var seat := st.rooms[roomId][peerId];
      var ws := if seat.ws.Some? then {seat.ws.value} else {};
      st.(wsIndex := st.wsIndex - ws,
          rooms := st.rooms[roomId := st.rooms[roomId][peerId := seat.(ws := None, timer := true)]])
  }

  function Disconnect(st: Server, ws: Socket): Server {
    var st1 := st.(open := st.open - {ws}, closed := st.closed + {ws});
    if ws !in st.wsIndex then st1
    else
      var peerId := st.wsIndex[ws];
      if peerId !in st.peerIndex || st.peerIndex[peerId].ws != ws then st1
      else Hold(st1, st.peerIndex[peerId].room, peerId)
  }

  /** The grace timer of a held seat runs out. */
  function Expire(st: Server, roomId: Id, peerId: Id): Server {
    if roomId !in st.rooms || peerId !in st.rooms[roomId] || !st.rooms[roomId][peerId].timer then st
    else
      var seat := st.rooms[roomId][peerId].(timer := false);
      var st1 := st.(rooms := st.rooms[roomId := st.rooms[roomId][peerId := seat]]);
      if seat.ws == None then Leave(st1, roomId, peerId) else st1
  }

  function LeaveMessage(st: Server, ws: Socket, roomId: Id, peerId: Id): Server {
    if !(ws in st.wsIndex && st.wsIndex[ws] == peerId) then Send(st, ws, Error("leave peerId mismatch"))
    else Leave(st, roomId, peerId)
  }

  /** Control-plane traffic to one peer or to the room. */
  function RelayData(st: Server, ws: Socket, roomId: Id, from: Id, to: Option<Id>, payload: string): Server {
    if roomId !in st.rooms then st
    else if !(ws in st.wsIndex && st.wsIndex[ws] == from) then Send(st, ws, Error("relay from mismatch"))
    else
      var room := st.rooms[roomId];
      match to
      case None => Announce(st, room, from, Data(payload)).(rooms := st.rooms[roomId := QueueHeld(room, from, payload)])
      case Some(t) =>
        if t !in room then st
        else
          match room[t].ws
          case None => st.(rooms := st.rooms[roomId := room[t := Queued(room[t], payload)]])
          case Some(s) => Send(st, s, Data(payload))
  }

  // Steps

  datatype Step =
    | Connect(ws: Socket)
    | JoinMsg(ws: Socket, room: Id, peer: Id)
    | LeaveMsg(ws: Socket, room: Id, peer: Id)
    | DataMsg(ws: Socket, room: Id, from: Id, to: Option<Id>, payload: string)
    | Break(ws: Socket)
    | Close(ws: Socket)
    | Timeout(room: Id, peer: Id)

  /** Can the network or a timer produce this step now? */
  predicate Enabled(st: Server, step: Step) {
    match step
    case Connect(ws) => ws !in st.sent
    case JoinMsg(ws, _, _) => ws in st.sent && ws !in st.closed
    case LeaveMsg(ws, _, _) => ws in st.sent && ws !in st.closed
    case DataMsg(ws, _, _, _, _) => ws in st.sent && ws !in st.closed
    case Break(ws) => ws in st.sent
    case Close(ws) => ws in st.sent && ws !in st.closed
    case Timeout(_, _) => true
  }

  function Next(st: Server, step: Step): Server {
    match step
    case Connect(ws) => st.(sent := st.sent[ws := []], open := st.open + {ws})
    case JoinMsg(ws, room, peer) => Join(st, ws, room, peer)
    case LeaveMsg(ws, room, peer) => LeaveMessage(st, ws, room, peer)
    case DataMsg(ws, room, from, to, payload) => RelayData(st, ws, room, from, to, payload)
    case Break(ws) => st.(open := st.open - {ws})
    case Close(ws) => Disconnect(st, ws)
    case Timeout(room, peer) => Expire(st, room, peer)
  }

  // The client's roster

  function Heard(roster: set<Id>, f: Frame): set<Id> {
    match f
    case Peers(_, peers, _) => peers
    case Joined(_, peer) => roster + {peer}
    case Left(_, peer) => roster - {peer}
    case Data(_) => roster
    case Error(_) => roster
  }

  /** The roster of a client that has heard the frames sent on its socket. */
  function Roster(frames: seq<Frame>): set<Id> {
    if frames == [] then {} else Heard(Roster(frames[..|frames| - 1]), frames[|frames| - 1])
  }

  // The invariant

  predicate IndexesAgree(st: Server) {
    && (forall r :: r in st.rooms ==> st.rooms[r] != map[])
    && (forall r, p :: r in st.rooms && p in st.rooms[r] ==> p in st.peerIndex && st.peerIndex[p].room == r)
    && (forall p :: p in st.peerIndex ==> st.peerIndex[p].room in st.rooms && p in st.rooms[st.peerIndex[p].room])
  }

  /** A live seat's socket maps back to it; a seat without a socket waits on its timer. */
  predicate SeatSound(st: Server, p: Id)
    requires p in st.peerIndex && st.peerIndex[p].room in st.rooms && p in st.rooms[st.peerIndex[p].room]
  {
    var seat, ws := st.rooms[st.peerIndex[p].room][p], st.peerIndex[p].ws;
    && (seat.ws.Some? ==>
           seat.ws == Some(ws) && ws in st.wsIndex && st.wsIndex[ws] == p && !seat.timer && seat.queue == [])
    && (seat.ws.None? ==> seat.timer && ws in st.closed)
    && seat.queuedBytes == Bytes(seat.queue) && Fits(seat.queue)
  }

  predicate SocketsAgree(st: Server) {
    && (forall ws :: ws in st.wsIndex ==> ws in st.sent && ws !in st.closed)
    && (forall ws :: ws in st.wsIndex ==> st.wsIndex[ws] in st.peerIndex && st.peerIndex[st.wsIndex[ws]].ws == ws)
    && (forall ws :: ws in st.closed ==> ws in st.sent && ws !in st.open)
  }

  predicate SeatsSound(st: Server)
    requires IndexesAgree(st)
  {
    forall p :: p in st.peerIndex ==> SeatSound(st, p)
  }

  /** A client on an open socket believes in exactly the room minus itself. */
  predicate RostersAgree(st: Server)
    requires IndexesAgree(st) && SocketsAgree(st)
  {
    forall ws :: ws in st.wsIndex && ws in st.open ==>
      Roster(st.sent[ws]) == RoomOf(st, st.wsIndex[ws]).Keys - {st.wsIndex[ws]}
  }

  function RoomOf(st: Server, p: Id): Room
    requires p in st.peerIndex && st.peerIndex[p].room in st.rooms
  {
    st.rooms[st.peerIndex[p].room]
  }

  predicate Inv(st: Server) {
    IndexesAgree(st) && SocketsAgree(st) && SeatsSound(st) && RostersAgree(st)
  }

  const NOBODY := Server(map[], map[], map[], {}, {}, map[])
}
