/**
  The code of connections and buffers, method by method.  Each method computes
  the function of its operation, and keeps what every interleaving keeps.
 */
module ConnectionServer {
  import opened Common
  import opened Connections
  import opened ConnectionRuns

  class Server {
    const bufferOffline: bool
    var connections: int
    var buffer: Option<BufferId>
    var buffers: seq<BufferInfo>
    var streams: seq<Stream>
    var conns: seq<Conn>
    var openSessions: map<string, ConnId>
    var openSockets: set<ConnId>

    function Abs(): State
      reads this
    {
      State(bufferOffline, connections, buffer, buffers, streams, conns, openSessions, openSockets)
    }

    constructor (bufferOffline: bool)
      ensures Abs() == Init(bufferOffline) && Inv(Abs())
    {
      this.bufferOffline := bufferOffline;
      connections, buffer, buffers, streams, conns := 0, None, [], [], [];
      openSessions, openSockets := map[], {};
    }

    method ForEachStream(ids: seq<StreamId>, change: Change)
      requires forall i :: 0 <= i < |ids| ==> ids[i] < |streams|
      modifies this`streams
      ensures streams == TouchAll(old(streams), ids, change)
    {
      for i := 0 to |ids|
        invariant |streams| == |old(streams)|
        invariant TouchAll(streams, ids[i..], change) == TouchAll(old(streams), ids, change)
      {
        var x := streams[ids[i]];
        assert ids[i..][1..] == ids[i + 1..];
        match change {
          case Shut =>
            x := x.(closed := true, handler := Off);
          case Listen(h) =>
            if !x.closed {
              x := x.(handler := h);
            }
          case Buffering(b) =>
            if !x.closed {
              x := x.(handler := ToBuffer(b), since := x.queue, lost := None, handed := []);
            }
        }
        streams := streams[ids[i] := x];
      }
    }

    method StopBuffering()
      requires Sound(Abs())
      modifies this`buffer, this`streams
      ensures Abs() == AfterStopBuffering(old(Abs()))
    {
      if buffer.None? {
        return;
      }
      var info := buffers[buffer.value];
      buffer := None;
      ForEachStream(Ids(info.channels), Shut);
    }

    method StartBuffering(key: string, q: Quad)
      requires Sound(Abs()) && InRange(Abs(), q)
      modifies this`buffer, this`buffers, this`streams
      ensures Abs() == AfterStartBuffering(old(Abs()), key, q)
    {
      if !bufferOffline {
        ForEachStream(Ids(q), Shut);
        return;
      }
      StopBuffering();
      var b := |buffers|;
      buffers := buffers + [BufferInfo(key, [], q)];
      buffer := Some(b);
      ForEachStream(Ids(q), Buffering(b));
    }

    method GetBuffer(key: string) returns (got: Option<BufferId>)
      requires Sound(Abs())
      modifies this`buffer, this`streams
      ensures (Abs(), got) == AfterGetBuffer(old(Abs()), key)
    {
      if buffer.None? {
        return None;
      }
      if buffers[buffer.value].key == key {
        got := buffer;
        buffer := None;
      } else {
        StopBuffering();
        got := None;
      }
    }

    method RegisterSession(key: string) returns (c: ConnId)
      modifies this`conns, this`openSessions
      ensures c == |old(conns)| && Abs() == AfterRegister(old(Abs()), key)
      ensures old(Inv(Abs())) ==> Inv(Abs())
    {
      hide Inv, Enabled, Registry, Counts;
      if Inv(Abs()) {
        RegisterKeepsInv(Abs(), key);
      }
      c := |conns|;
      conns := conns + [Conn(key, false, false, None, None)];
      openSessions := openSessions[key := c];
    }

    method CreateStream() returns (q: Quad)
      modifies this`streams
      ensures (Abs(), q) == AfterCreateStream(old(Abs()))
    {
      var n := |streams|;
      streams := streams + [Fresh(Iopub), Fresh(Shell), Fresh(Control), Fresh(Stdin)];
      q := Quad(n, n + 1, n + 2, n + 3);
    }

    /** Counts the connection and finds its channels: those of a matching buffer, or new ones. */
    method AttachChannels(key: string) returns (got: Option<BufferId>, q: Quad)
      requires Sound(Abs())
      modifies this`connections, this`buffer, this`streams
      ensures (Abs(), got, q) == Attach(old(Abs()), key)
    {
      connections := connections + 1;
      got := GetBuffer(key);
      if got.Some? {
        q := buffers[got.value].channels;
      } else {
        q := CreateStream();
      }
    }

    method Connect(c: ConnId, busy: bool)
      requires Sound(Abs()) && c < |conns|
      modifies this
      ensures Abs() == AfterConnect(old(Abs()), c, busy)
      ensures old(Inv(Abs()) && Enabled(Abs(), DoConnect(c, busy))) ==> Inv(Abs())
    {
      hide Inv, Enabled, Registry, Counts, AfterGetBuffer, AfterCreateStream;
      if Inv(Abs()) && Enabled(Abs(), DoConnect(c, busy)) {
        ConnectKeepsInv(Abs(), c, busy);
      }
      var k := conns[c];
      AttachSound(Abs(), k.key);
      var got, q := AttachChannels(k.key);
      if !busy {
        ForEachStream([q.iopub], Listen(ToNudge(c)));
      }
      conns := conns[c := k.(connected := true, channels := Some(q), nudge := Some(Nudge(q.iopub, got, busy)))];
      openSockets := openSockets + {c};
    }

    /** The done-callbacks of a nudge: clean up, replay the buffer, subscribe. */
    method NudgeDone(c: ConnId)
      requires Sound(Abs()) && c < |conns| && conns[c].nudge.Some?
      modifies this`streams, this`conns
      ensures Abs() == AfterNudge(old(Abs()), c)
      ensures old(Inv(Abs()) && Enabled(Abs(), DoFinishNudge(c))) ==> Inv(Abs())
    {
      hide Inv, Enabled, Registry, Counts;
      if Inv(Abs()) && Enabled(Abs(), DoFinishNudge(c)) {
        NudgeKeepsInv(Abs(), c);
      }
      var k := conns[c];
      var n := k.nudge.value;
      if !n.busy {
        ForEachStream([n.iopub], Listen(Off));
      }
      if n.restored.Some? && k.channels.Some? {
        ReplayBuffer(k.channels.value, c, buffers[n.restored.value].messages);
      }
      if k.channels.Some? {
        ForEachStream(Ids(k.channels.value), Listen(ToWeb(c)));
      }
      conns := conns[c := k.(nudge := None)];
    }

    method ReplayBuffer(q: Quad, c: ConnId, msgs: seq<(Channel, Msg)>)
      requires Within(q, |streams|)
      modifies this`streams
      ensures streams == Replay(old(streams), q, c, msgs)
    {
      for i := 0 to |msgs|
        invariant |streams| == |old(streams)|
        invariant Replay(streams, q, c, msgs[i..]) == Replay(old(streams), q, c, msgs)
      {
        assert msgs[i..][1..] == msgs[i + 1..];
        var (channel, m) := msgs[i];
        var x := At(q, channel);
        streams := streams[x := HandOver(streams[x], c, m)];
      }
    }

    method Disconnect(c: ConnId)
      requires Sound(Abs()) && Active(Abs(), c)
      modifies this
      ensures Abs() == AfterDisconnect(old(Abs()), c)
      ensures old(Inv(Abs()) && Enabled(Abs(), DoDisconnect(c))) ==> Inv(Abs())
    {
      hide Inv, Enabled, Registry, Counts;
      if Inv(Abs()) && Enabled(Abs(), DoDisconnect(c)) {
        DisconnectKeepsInv(Abs(), c);
      }
      var k := conns[c];
      if k.key in openSessions && openSessions[k.key] == c {
        openSessions := openSessions - {k.key};
      }
      connections := connections - 1;
      if connections == 0 {
        StartBuffering(k.key, k.channels.value);
        openSockets := openSockets - {c};
        conns := conns[c := k.(disconnected := true)];
        return;
      }
      ForEachStream(Ids(k.channels.value), Shut);
      conns := conns[c := k.(disconnected := true, channels := None)];
      openSockets := openSockets - {c};
    }
  }
}
