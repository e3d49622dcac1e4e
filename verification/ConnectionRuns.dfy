/** Interleavings of connections to one live kernel, and what they keep. */
module ConnectionRuns {
  import opened Common
  import opened Connections

  datatype Step =
    | DoRegister(key: string)
    | DoConnect(c: ConnId, busy: bool)
    | DoFinishNudge(c: ConnId)
    | DoDisconnect(c: ConnId)
    | DoArrive(x: StreamId, m: Msg)
    | DoDeliver(x: StreamId)

  /** Each connection connects once and later disconnects at most once. */
  predicate Enabled(s: State, step: Step) {
    match step
    case DoRegister(_) => true
    case DoConnect(c, _) => c < |s.conns| && !s.conns[c].connected
    case DoFinishNudge(c) => c < |s.conns| && s.conns[c].nudge.Some?
    case DoDisconnect(c) => Active(s, c)
    case DoArrive(x, _) => x < |s.streams| && !s.streams[x].closed
    case DoDeliver(x) =>
      x < |s.streams| && !s.streams[x].closed && s.streams[x].queue != [] && s.streams[x].handler != Off
  }

  function Next(s: State, step: Step): State
    requires Sound(s) && Enabled(s, step)
  {
    match step
    case DoRegister(key) => AfterRegister(s, key)
    case DoConnect(c, busy) => AfterConnect(s, c, busy)
    case DoFinishNudge(c) => AfterNudge(s, c)
    case DoDisconnect(c) => AfterDisconnect(s, c)
    case DoArrive(x, m) => Arrive(s, x, m)
    case DoDeliver(x) => Deliver(s, x)
  }

  /**
    The last connection to leave, if messages are then to be buffered, stays up
    until its nudge has completed; nobody else has to.
   */
  predicate Waits(s: State, step: Step) {
    step.DoDisconnect? && step.c < |s.conns| && s.connections == 1 && s.bufferOffline ==> s.conns[step.c].nudge.None?
  }

  /** `run` leads from one state to another; `patient` if every step of it waits. */
  ghost predicate Leads(from: State, patient: bool, run: seq<Step>, s: State) {
    if run == [] then s == from
    else
      var step := run[|run| - 1];
      exists p: State :: Leads(from, patient, run[..|run| - 1], p) && Sound(p) &&
        Enabled(p, step) && (patient ==> Waits(p, step)) && s == Next(p, step)
  }

  ghost predicate Reaches(bufferOffline: bool, patient: bool, run: seq<Step>, s: State) {
    Leads(Init(bufferOffline), patient, run, s)
  }

  function CountOpen(conns: seq<Conn>): nat {
    if conns == [] then 0
    else CountOpen(conns[..|conns| - 1]) +
         (if conns[|conns| - 1].connected && !conns[|conns| - 1].disconnected then 1 else 0)
  }

  lemma CountOpenUpdate(conns: seq<Conn>, c: ConnId, k: Conn)
    requires c < |conns|
    ensures CountOpen(conns[c := k]) == CountOpen(conns)
      - (if conns[c].connected && !conns[c].disconnected then 1 else 0)
      + (if k.connected && !k.disconnected then 1 else 0)
  {
    var n := |conns| - 1;
    if c < n {
      assert conns[c := k][..n] == conns[..n][c := k];
      CountOpenUpdate(conns[..n], c, k);
    } else {
      assert conns[c := k][..n] == conns[..n];
    }
  }

  lemma CountOpenPositive(conns: seq<Conn>, c: ConnId)
    requires c < |conns| && conns[c].connected && !conns[c].disconnected
    ensures CountOpen(conns) > 0
  {
    if c < |conns| - 1 {
      CountOpenPositive(conns[..|conns| - 1], c);
    }
  }

  lemma TouchAllEffect(streams: seq<Stream>, ids: seq<StreamId>, change: Change, x: StreamId)
    requires x < |streams| && forall i :: 0 <= i < |ids| ==> ids[i] < |streams|
    ensures TouchAll(streams, ids, change)[x] == if x in ids then Touch(streams[x], change) else streams[x]
    decreases |ids|
  {
    if ids != [] {
      TouchAllEffect(streams[ids[0] := Touch(streams[ids[0]], change)], ids[1..], change, x);
    }
  }

  /** No connection registered later has the same session key. */
  predicate Newest(conns: seq<Conn>, c: ConnId) {
    c < |conns| && forall d :: c < d < |conns| ==> conns[d].key != conns[c].key
  }

  /** The registry of open sessions leads from a key to the newest connection that has it. */
  ghost predicate Registry(conns: seq<Conn>, openSessions: map<string, ConnId>) {
    && (forall c: nat :: Newest(conns, c) && !conns[c].disconnected ==>
          conns[c].key in openSessions && openSessions[conns[c].key] == c)
    && (forall k :: k in openSessions ==> openSessions[k] < |conns| && conns[openSessions[k]].key == k)
  }

  ghost predicate Counts(s: State) {
    && s.connections == CountOpen(s.conns)
    && (s.buffer.Some? ==> s.connections == 0)
    && (forall c: nat :: c in s.openSockets <==> Active(s, c))
    && (forall c :: 0 <= c < |s.conns| && s.conns[c].disconnected ==> s.conns[c].connected)
  }

  /** What every interleaving keeps. */
  ghost predicate Inv(s: State) {
    Sound(s) && Counts(s) && Registry(s.conns, s.openSessions)
  }

  lemma ReplayFrame(streams: seq<Stream>, q: Quad, c: ConnId, msgs: seq<(Channel, Msg)>, x: StreamId)
    requires Within(q, |streams|) && x < |streams|
    ensures Replay(streams, q, c, msgs)[x].(handed := []) == streams[x].(handed := [])
    decreases |msgs|
  {
    if msgs != [] {
      var y := At(q, msgs[0].0);
      ReplayFrame(streams[y := HandOver(streams[y], c, msgs[0].1)], q, c, msgs[1..], x);
    }
  }

  lemma NoBufferWhileOpen(s: State, c: ConnId)
    requires Inv(s) && Active(s, c)
    ensures s.connections > 0 && s.buffer.None?
  {
    CountOpenPositive(s.conns, c);
  }

  lemma RegisterKeepsInv(s: State, key: string)
    requires Inv(s)
    ensures Inv(AfterRegister(s, key))
  {
    var t := AfterRegister(s, key);
    assert t.conns[..|t.conns| - 1] == s.conns;
    forall c: nat | Newest(t.conns, c) && !t.conns[c].disconnected
      ensures t.conns[c].key in t.openSessions && t.openSessions[t.conns[c].key] == c
    {
      if c < |s.conns| {
        assert t.conns[|s.conns|].key != t.conns[c].key;
        assert forall d :: c < d < |s.conns| ==> s.conns[d] == t.conns[d];
        assert Newest(s.conns, c);
      }
    }
  }

  /** Changing handlers keeps all references sound. */
  lemma TouchAllSound(s: State, ids: seq<StreamId>, change: Change)
    requires Sound(s) && forall i :: 0 <= i < |ids| ==> ids[i] < |s.streams|
    requires change.Buffering? ==> change.buffer < |s.buffers|
    requires change.Listen? && change.handler.ToBuffer? ==> change.handler.buffer < |s.buffers|
    ensures Sound(s.(streams := TouchAll(s.streams, ids, change)))
  {
    var t := s.(streams := TouchAll(s.streams, ids, change));
    forall x | 0 <= x < |t.streams|
      ensures t.streams[x].handler.ToBuffer? ==> t.streams[x].handler.buffer < |t.buffers|
    {
      TouchAllEffect(s.streams, ids, change, x);
    }
  }

  lemma GetBufferSound(s: State, key: string)
    requires Sound(s)
    ensures Sound(AfterGetBuffer(s, key).0)
  {
    if s.buffer.Some? {
      TouchAllSound(s, Ids(s.buffers[s.buffer.value].channels), Shut);
    }
  }

  lemma CreateStreamSound(s: State)
    requires Sound(s)
    ensures Sound(AfterCreateStream(s).0)
  {
    var t := AfterCreateStream(s).0;
    assert forall b :: 0 <= b < |s.buffers| ==> InRange(t, s.buffers[b].channels);
  }

  /** The streams that a connect ends up with, before the nudge listens on iopub. */
  function Attach(s: State, key: string): (State, Option<BufferId>, Quad)
    requires Sound(s)
  {
    var (s, got) := AfterGetBuffer(s.(connections := s.connections + 1), key);
    if got.Some? then (s, got, s.buffers[got.value].channels)
    else var (s, q) := AfterCreateStream(s); (s, got, q)
  }

  lemma AttachSound(s: State, key: string)
    requires Sound(s)
    ensures var (t, got, q) := Attach(s, key);
      Sound(t) && InRange(t, q) && t.buffer == None && t.conns == s.conns && t.buffers == s.buffers &&
      t.openSessions == s.openSessions && t.openSockets == s.openSockets && t.connections == s.connections + 1 &&
      (got.Some? ==> got.value < |t.buffers|)
  {
    var s1 := s.(connections := s.connections + 1);
    GetBufferSound(s1, key);
    CreateStreamSound(AfterGetBuffer(s1, key).0);
  }

  /** Replacing one connection record, and nothing but flags and sets besides. */
  lemma SetConnSound(s: State, c: ConnId, k: Conn, t: State)
    requires Sound(s) && c < |s.conns| && ConnSound(s, k)
    requires t.conns == s.conns[c := k] && t.streams == s.streams && t.buffers == s.buffers && t.buffer == s.buffer
    ensures Sound(t)
  {
    assert forall d :: 0 <= d < |s.conns| ==> ConnSound(t, s.conns[d]);
    assert forall b :: 0 <= b < |s.buffers| ==> InRange(t, s.buffers[b].channels);
  }

  lemma ConnectSound(s: State, c: ConnId, busy: bool)
    requires Sound(s) && c < |s.conns|
    ensures var t := AfterConnect(s, c, busy);
      Sound(t) && t.buffer == None && t.connections == s.connections + 1 &&
      t.openSessions == s.openSessions && t.openSockets == s.openSockets + {c}
  {
    var t := AfterConnect(s, c, busy);
    AttachSound(s, s.conns[c].key);
    var (a, got, q) := Attach(s, s.conns[c].key);
    TouchAllSound(a, [q.iopub], Listen(ToNudge(c)));
    var b := if busy then a else a.(streams := TouchAll(a.streams, [q.iopub], Listen(ToNudge(c))));
    SetConnSound(b, c, t.conns[c], t);
  }

  lemma ConnectKeepsInv(s: State, c: ConnId, busy: bool)
    requires Inv(s) && Enabled(s, DoConnect(c, busy))
    ensures Inv(AfterConnect(s, c, busy))
  {
    ConnectSound(s, c, busy);
    var t := AfterConnect(s, c, busy);
    var k := t.conns[c];
    assert t.conns == s.conns[c := k] && k.key == s.conns[c].key && k.connected &&
        k.disconnected == s.conns[c].disconnected;
    SetConnKeepsCounts(s, c, k, t);
    SameKeysSameRegistry(s.conns, t.conns, s.openSessions);
  }

  lemma SetConnKeepsCounts(s: State, c: ConnId, k: Conn, t: State)
    requires Counts(s) && c < |s.conns| && t.conns == s.conns[c := k] && (k.disconnected ==> k.connected)
    requires t.connections == s.connections
      + (if k.connected && !k.disconnected then 1 else 0)
      - (if s.conns[c].connected && !s.conns[c].disconnected then 1 else 0)
    requires t.buffer.Some? ==> t.connections == 0
    requires t.openSockets == if k.connected && !k.disconnected then s.openSockets + {c} else s.openSockets - {c}
    ensures Counts(t)
  {
    CountOpenUpdate(s.conns, c, k);
    assert forall d: nat :: d != c ==> (Active(t, d) <==> Active(s, d));
  }

  lemma SameKeysSameRegistry(conns: seq<Conn>, conns': seq<Conn>, openSessions: map<string, ConnId>)
    requires Registry(conns, openSessions) && |conns| == |conns'|
    requires forall c :: 0 <= c < |conns| ==>
        conns'[c].key == conns[c].key && (conns[c].disconnected ==> conns'[c].disconnected)
    ensures Registry(conns', openSessions)
  {
    assert forall c: nat :: Newest(conns', c) ==> Newest(conns, c);
  }

  lemma NudgeSound(s: State, c: ConnId)
    requires Sound(s) && c < |s.conns| && s.conns[c].nudge.Some?
    ensures Sound(AfterNudge(s, c))
  {
    var t := AfterNudge(s, c);
    var k := s.conns[c];
    var n := k.nudge.value;
    TouchAllSound(s, [n.iopub], Listen(Off));
    var a := if n.busy then s else s.(streams := TouchAll(s.streams, [n.iopub], Listen(Off)));
    if k.channels.Some? {
      var q := k.channels.value;
      var b := a;
      if n.restored.Some? {
        ReplaySound(a, q, c, s.buffers[n.restored.value].messages);
        b := a.(streams := Replay(a.streams, q, c, s.buffers[n.restored.value].messages));
      }
      TouchAllSound(b, Ids(q), Listen(ToWeb(c)));
      SetConnSound(b.(streams := TouchAll(b.streams, Ids(q), Listen(ToWeb(c)))), c, k.(nudge := None), t);
    } else {
      SetConnSound(a, c, k.(nudge := None), t);
    }
  }

  lemma NudgeKeepsInv(s: State, c: ConnId)
    requires Inv(s) && Enabled(s, DoFinishNudge(c))
    ensures Inv(AfterNudge(s, c))
  {
    NudgeSound(s, c);
    var t := AfterNudge(s, c);
    var k := s.conns[c].(nudge := None);
    assert t.conns == s.conns[c := k] && t.connections == s.connections && t.buffer == s.buffer;
    assert t.openSockets == s.openSockets && t.openSessions == s.openSessions;
    assert Active(s, c) <==> c in s.openSockets;
    SetConnKeepsCounts(s, c, k, t);
    SameKeysSameRegistry(s.conns, t.conns, s.openSessions);
  }

  lemma ReplaySound(s: State, q: Quad, c: ConnId, msgs: seq<(Channel, Msg)>)
    requires Sound(s) && InRange(s, q)
    ensures Sound(s.(streams := Replay(s.streams, q, c, msgs)))
  {
    var t := s.(streams := Replay(s.streams, q, c, msgs));
    forall x | 0 <= x < |t.streams|
      ensures t.streams[x].handler == s.streams[x].handler
    {
      ReplayFrame(s.streams, q, c, msgs, x);
    }
  }

  lemma DisconnectSound(s: State, c: ConnId)
    requires Sound(s) && Active(s, c) && s.buffer.None?
    ensures Sound(AfterDisconnect(s, c))
  {
    var t := AfterDisconnect(s, c);
    var k := s.conns[c];
    var q := k.channels.value;
    TouchAllSound(s, Ids(q), Shut);
    var grown := s.(buffers := s.buffers + [BufferInfo(k.key, [], q)]);
    assert forall b :: 0 <= b < |grown.buffers| ==> InRange(grown, grown.buffers[b].channels);
    assert Sound(grown);
    TouchAllSound(grown, Ids(q), Buffering(|s.buffers|));
    if s.connections != 1 {
      SetConnSound(s.(streams := TouchAll(s.streams, Ids(q), Shut)), c, t.conns[c], t);
    } else if s.bufferOffline {
      var a := grown.(streams := TouchAll(s.streams, Ids(q), Buffering(|s.buffers|)), buffer := Some(|s.buffers|));
      SetConnSound(a, c, t.conns[c], t);
    } else {
      SetConnSound(s.(streams := TouchAll(s.streams, Ids(q), Shut)), c, t.conns[c], t);
    }
  }

  lemma DisconnectKeepsInv(s: State, c: ConnId)
    requires Inv(s) && Enabled(s, DoDisconnect(c))
    ensures Inv(AfterDisconnect(s, c))
  {
    NoBufferWhileOpen(s, c);
    DisconnectSound(s, c);
    var t := AfterDisconnect(s, c);
    var k := t.conns[c];
    assert t.conns == s.conns[c := k] && k.key == s.conns[c].key && k.connected && k.disconnected;
    assert t.connections == s.connections - 1 && t.openSockets == s.openSockets - {c};
    SetConnKeepsCounts(s, c, k, t);
    SameKeysSameRegistry(s.conns, t.conns, s.openSessions);
    DisconnectKeepsRegistry(s, c, t);
  }

  lemma DisconnectKeepsRegistry(s: State, c: ConnId, t: State)
    requires c < |s.conns| && Registry(t.conns, s.openSessions) && |t.conns| == |s.conns| && t.conns[c].disconnected
    requires t.conns[c].key == s.conns[c].key
    requires t.openSessions == if s.conns[c].key in s.openSessions && s.openSessions[s.conns[c].key] == c
                               then s.openSessions - {s.conns[c].key} else s.openSessions
    ensures Registry(t.conns, t.openSessions)
  {
  }

  lemma TrafficKeepsInv(s: State, step: Step)
    requires Inv(s) && Enabled(s, step) && (step.DoArrive? || step.DoDeliver?)
    ensures Inv(Next(s, step))
  {
    var t := Next(s, step);
    assert forall b :: 0 <= b < |s.buffers| ==> t.buffers[b].channels == s.buffers[b].channels;
  }

  lemma StepKeepsInv(s: State, step: Step)
    requires Inv(s) && Enabled(s, step)
    ensures Inv(Next(s, step))
  {
    match step
    case DoRegister(key) => RegisterKeepsInv(s, key);
    case DoConnect(c, busy) => ConnectKeepsInv(s, c, busy);
    case DoFinishNudge(c) => NudgeKeepsInv(s, c);
    case DoDisconnect(c) => DisconnectKeepsInv(s, c);
    case _ => TrafficKeepsInv(s, step);
  }

  lemma {:induction false} LeadsKeepsInv(from: State, patient: bool, run: seq<Step>, s: State)
    requires Inv(from) && Leads(from, patient, run, s)
    ensures Inv(s)
    decreases |run|
  {
    if run != [] {
      var front, step := run[..|run| - 1], run[|run| - 1];
      var p: State :| Leads(from, patient, front, p) && Sound(p) && Enabled(p, step) && s == Next(p, step);
      LeadsKeepsInv(from, patient, front, p);
      StepKeepsInv(p, step);
    }
  }

  /**
    Over every interleaving the recorded count is the number of open
    connections, a buffer exists only when there are none, and the registry
    leads to the newest connection of each key.
   */
  lemma EveryRunKeepsInv(bufferOffline: bool, patient: bool, run: seq<Step>, s: State)
    requires Reaches(bufferOffline, patient, run, s)
    ensures Inv(s)
  {
    LeadsKeepsInv(Init(bufferOffline), patient, run, s);
  }

  /**
    A late disconnect of a replaced connection leaves the registry alone, which
    goes on leading to the newer connection.
   */
  lemma LateDisconnectKeepsNewer(bufferOffline: bool, patient: bool, run: seq<Step>, s: State, c: ConnId, d: ConnId)
    requires Reaches(bufferOffline, patient, run, s) && Sound(s) && Active(s, c)
    requires c < d && Newest(s.conns, d) && s.conns[d].key == s.conns[c].key && !s.conns[d].disconnected
    ensures s.conns[d].key in s.openSessions && s.openSessions[s.conns[d].key] == d
    ensures AfterDisconnect(s, c).openSessions == s.openSessions
  {
    EveryRunKeepsInv(bufferOffline, patient, run, s);
  }
}
