/**
  Websocket connections to one live kernel: connect, nudge, replay, disconnect
  and the offline message buffer.

  Connections, zmq streams and buffers are objects with identity in the source;
  here they are indices into the sequences of a `State`.  What each operation does
  is a function on states.
 */
module Connections {
  import opened Common

  type Msg = seq<Bytes>
  type StreamId = nat
  type ConnId = nat
  type BufferId = nat

  /** What a zmq stream does with an arriving message; `Off` leaves it in its queue. */
  datatype Handler = Off | ToBuffer(buffer: BufferId) | ToNudge(conn: ConnId) | ToWeb(conn: ConnId)

  /**
    A zmq stream.  The last three fields only record what happened since the
    stream was created or last handed over to a buffer: what arrived, the index
    of the message that a nudge consumed, and what was handed to
    `handle_outgoing_message` of which connection.
   */
  datatype Stream = Stream(channel: Channel, handler: Handler, closed: bool, queue: seq<Msg>,
                           since: seq<Msg>, lost: Option<nat>, handed: seq<(ConnId, Msg)>)

  /** The four streams of a connection. */
  datatype Quad = Quad(iopub: StreamId, shell: StreamId, control: StreamId, stdin: StreamId)

  function At(q: Quad, ch: Channel): StreamId {
    match ch
    case Iopub => q.iopub
    case Shell => q.shell
    case Control => q.control
    case Stdin => q.stdin
  }

  function Ids(q: Quad): seq<StreamId> {
    [q.iopub, q.shell, q.control, q.stdin]
  }

  datatype BufferInfo = BufferInfo(key: string, messages: seq<(Channel, Msg)>, channels: Quad)

  /** A nudge in flight: the iopub stream it captured, and the buffer to replay when it is done. */
  datatype Nudge = Nudge(iopub: StreamId, restored: Option<BufferId>, busy: bool)

  datatype Conn = Conn(key: string, connected: bool, disconnected: bool, nudge: Option<Nudge>, channels: Option<Quad>)

  datatype State = State(bufferOffline: bool, connections: int, buffer: Option<BufferId>,
                         buffers: seq<BufferInfo>, streams: seq<Stream>, conns: seq<Conn>,
                         openSessions: map<string, ConnId>, openSockets: set<ConnId>)

  predicate Active(s: State, c: ConnId) {
    c < |s.conns| && s.conns[c].connected && !s.conns[c].disconnected
  }

  /** Every reference leads to an object. */
  ghost predicate Sound(s: State) {
    && (s.buffer.Some? ==> s.buffer.value < |s.buffers|)
    && (forall b :: 0 <= b < |s.buffers| ==> InRange(s, s.buffers[b].channels))
    && (forall c :: 0 <= c < |s.conns| ==> ConnSound(s, s.conns[c]))
    && (forall x :: 0 <= x < |s.streams| ==>
          s.streams[x].handler.ToBuffer? ==> s.streams[x].handler.buffer < |s.buffers|)
  }

  predicate InRange(s: State, q: Quad) {
    Within(q, |s.streams|)
  }

  predicate Within(q: Quad, n: nat) {
    q.iopub < n && q.shell < n && q.control < n && q.stdin < n
  }

  predicate ConnSound(s: State, k: Conn) {
    && (k.connected && !k.disconnected ==> k.channels.Some?)
    && (k.channels.Some? ==> InRange(s, k.channels.value))
    && (k.nudge.Some? ==> k.nudge.value.iopub < |s.streams|)
    && (k.nudge.Some? && k.nudge.value.restored.Some? ==> k.nudge.value.restored.value < |s.buffers|)
  }

  // ---------------------------------------------------------------------
  // The functions on states
  // ---------------------------------------------------------------------

  datatype Change = Listen(handler: Handler) | Buffering(buffer: BufferId) | Shut

  function Touch(x: Stream, change: Change): Stream {
    match change
    case Shut => x.(closed := true, handler := Off)
    case Listen(h) => if x.closed then x else x.(handler := h)
    case Buffering(b) =>
      if x.closed then x else x.(handler := ToBuffer(b), since := x.queue, lost := None, handed := [])
  }

  /** Makes the same change to each stream of a list, one after the other. */
  function TouchAll(streams: seq<Stream>, ids: seq<StreamId>, change: Change): (r: seq<Stream>)
    requires forall i :: 0 <= i < |ids| ==> ids[i] < |streams|
    ensures |r| == |streams|
    decreases |ids|
  {
    if ids == [] then streams
    else TouchAll(streams[ids[0] := Touch(streams[ids[0]], change)], ids[1..], change)
  }

  function Fresh(ch: Channel): Stream {
    Stream(ch, Off, false, [], [], None, [])
  }

  function AfterCreateStream(s: State): (State, Quad) {
    var n := |s.streams|;
    (s.(streams := s.streams + [Fresh(Iopub), Fresh(Shell), Fresh(Control), Fresh(Stdin)]),
     Quad(n, n + 1, n + 2, n + 3))
  }

  function AfterStopBuffering(s: State): State
    requires Sound(s)
  {
    if s.buffer.None? then s
    else s.(buffer := None, streams := TouchAll(s.streams, Ids(s.buffers[s.buffer.value].channels), Shut))
  }

  function AfterStartBuffering(s: State, key: string, q: Quad): State
    requires Sound(s) && InRange(s, q)
  {
    if !s.bufferOffline then s.(streams := TouchAll(s.streams, Ids(q), Shut))
    else
      var s := AfterStopBuffering(s);
      var b := |s.buffers|;
      s.(buffer := Some(b), buffers := s.buffers + [BufferInfo(key, [], q)],
         streams := TouchAll(s.streams, Ids(q), Buffering(b)))
  }

  function AfterGetBuffer(s: State, key: string): (State, Option<BufferId>)
    requires Sound(s)
  {
    if s.buffer.None? then (s, None)
    else if s.buffers[s.buffer.value].key == key then (s.(buffer := None), s.buffer)
    else (AfterStopBuffering(s), None)
  }

  function AfterRegister(s: State, key: string): State {
    s.(conns := s.conns + [Conn(key, false, false, None, None)],
       openSessions := s.openSessions[key := |s.conns|])
  }

  function AfterConnect(s: State, c: ConnId, busy: bool): State
    requires Sound(s) && c < |s.conns|
  {
    var (s, got) := AfterGetBuffer(s.(connections := s.connections + 1), s.conns[c].key);
    var (s, q) := if got.Some? then (s, s.buffers[got.value].channels) else AfterCreateStream(s);
    s.(streams := if busy then s.streams else TouchAll(s.streams, [q.iopub], Listen(ToNudge(c))),
       conns := s.conns[c := s.conns[c].(connected := true, channels := Some(q),
         nudge := Some(Nudge(q.iopub, got, busy)))],
       openSockets := s.openSockets + {c})
  }

  function HandOver(x: Stream, c: ConnId, m: Msg): Stream {
    x.(handed := x.handed + [(c, m)])
  }

  /** Hands the buffered messages to connection `c`, each on the stream of its channel. */
  function Replay(streams: seq<Stream>, q: Quad, c: ConnId, msgs: seq<(Channel, Msg)>): (r: seq<Stream>)
    requires Within(q, |streams|)
    ensures |r| == |streams|
    decreases |msgs|
  {
    if msgs == [] then streams
    else
      var x := At(q, msgs[0].0);
      Replay(streams[x := HandOver(streams[x], c, msgs[0].1)], q, c, msgs[1..])
  }

  function AfterNudge(s: State, c: ConnId): State
    requires Sound(s) && c < |s.conns| && s.conns[c].nudge.Some?
  {
    var k := s.conns[c];
    var n := k.nudge.value;
    var streams := if n.busy then s.streams else TouchAll(s.streams, [n.iopub], Listen(Off));
    var streams := if n.restored.Some? && k.channels.Some?
                   then Replay(streams, k.channels.value, c, s.buffers[n.restored.value].messages) else streams;
    s.(streams := if k.channels.Some? then TouchAll(streams, Ids(k.channels.value), Listen(ToWeb(c))) else streams,
       conns := s.conns[c := k.(nudge := None)])
  }

  function AfterDisconnect(s: State, c: ConnId): State
    requires Sound(s) && Active(s, c)
  {
    var k := s.conns[c];
    var s := s.(openSessions := if k.key in s.openSessions && s.openSessions[k.key] == c
                                then s.openSessions - {k.key} else s.openSessions,
                connections := s.connections - 1);
    if s.connections == 0 then
      var s := AfterStartBuffering(s, k.key, k.channels.value);
      s.(openSockets := s.openSockets - {c}, conns := s.conns[c := k.(disconnected := true)])
    else
      s.(streams := TouchAll(s.streams, Ids(k.channels.value), Shut), openSockets := s.openSockets - {c},
         conns := s.conns[c := k.(disconnected := true, channels := None)])
  }

  function Arrive(s: State, x: StreamId, m: Msg): State
    requires x < |s.streams|
  {
    s.(streams := s.streams[x := s.streams[x].(queue := s.streams[x].queue + [m], since := s.streams[x].since + [m])])
  }

  function Deliver(s: State, x: StreamId): State
    requires Sound(s) && x < |s.streams| && s.streams[x].queue != [] && s.streams[x].handler != Off
  {
    var st := s.streams[x];
    var m, rest := st.queue[0], st.(queue := st.queue[1..]);
    match st.handler
    case ToBuffer(b) =>
      s.(streams := s.streams[x := rest],
         buffers := s.buffers[b := s.buffers[b].(messages := s.buffers[b].messages + [(st.channel, m)])])
    case ToNudge(_) =>
      var at := if |st.queue| <= |st.since| then |st.since| - |st.queue| else 0;
      s.(streams := s.streams[x := rest.(handler := Off, lost := Some(at))])
    case ToWeb(c) =>
      s.(streams := s.streams[x := HandOver(rest, c, m)])
  }

  function Init(bufferOffline: bool): State {
    State(bufferOffline, 0, None, [], [], [], map[], {})
  }
}
