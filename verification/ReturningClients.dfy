/**
  What a client that goes away and comes back is handed, in terms of the run
  alone: the messages queued when it left, and those that arrive afterwards.
 */
module ReturningClients {
  import opened Common
  import opened Connections
  import opened ConnectionRuns
  import opened Reconnects

  /** The messages that arrive on stream `x` in the course of a run, in order. */
  function Arrived(run: seq<Step>, x: StreamId): seq<Msg> {
    if run == [] then []
    else
      var step := run[|run| - 1];
      Arrived(run[..|run| - 1], x) + (if step.DoArrive? && step.x == x then [step.m] else [])
  }

  /** No connection is made. */
  predicate NobodyConnects(run: seq<Step>) {
    forall i :: 0 <= i < |run| ==> !run[i].DoConnect?
  }

  /** Connection `c` stays. */
  predicate Remains(run: seq<Step>, c: ConnId) {
    forall i :: 0 <= i < |run| ==> run[i] != DoDisconnect(c)
  }

  /** The step by which the last connection turns its streams over to a buffer. */
  predicate Detaches(s: State, step: Step) {
    step.DoDisconnect? && s.connections == 1 && s.bufferOffline
  }

  lemma {:induction false} ArrivedConcat(a: seq<Step>, b: seq<Step>, x: StreamId)
    ensures Arrived(a + b, x) == Arrived(a, x) + Arrived(b, x)
    decreases |b|
  {
    if b == [] {
      assert a + b == a;
    } else {
      var front := b[..|b| - 1];
      assert (a + b)[..|a + b| - 1] == a + front;
      ArrivedConcat(a, front, x);
    }
  }

  // ---------------------------------------------------------------------
  // Only arrivals and detaches change what counts as arrived
  // ---------------------------------------------------------------------

  lemma TouchKeepsSince(streams: seq<Stream>, ids: seq<StreamId>, change: Change, x: StreamId)
    requires x < |streams| && forall i :: 0 <= i < |ids| ==> ids[i] < |streams|
    requires !change.Buffering?
    ensures TouchAll(streams, ids, change)[x].since == streams[x].since
  {
    TouchAllEffect(streams, ids, change, x);
  }

  lemma GetBufferKeepsSince(s: State, key: string, x: StreamId)
    requires Sound(s) && x < |s.streams|
    ensures var t := AfterGetBuffer(s, key).0;
      |t.streams| == |s.streams| && t.streams[x].since == s.streams[x].since
  {
    if s.buffer.Some? {
      TouchKeepsSince(s.streams, Ids(s.buffers[s.buffer.value].channels), Shut, x);
    }
  }

  lemma ConnectKeepsSince(s: State, c: ConnId, busy: bool, x: StreamId)
    requires Sound(s) && c < |s.conns| && x < |s.streams|
    ensures var t := AfterConnect(s, c, busy);
      x < |t.streams| && t.streams[x].since == s.streams[x].since
  {
    GetBufferKeepsSince(s.(connections := s.connections + 1), s.conns[c].key, x);
    AttachSound(s, s.conns[c].key);
    var (a, got, q) := Attach(s, s.conns[c].key);
    assert x < |a.streams| && a.streams[x].since == s.streams[x].since;
    TouchKeepsSince(a.streams, [q.iopub], Listen(ToNudge(c)), x);
  }

  lemma NudgeKeepsSince(s: State, c: ConnId, x: StreamId)
    requires Sound(s) && c < |s.conns| && s.conns[c].nudge.Some? && x < |s.streams|
    ensures var t := AfterNudge(s, c);
      |t.streams| == |s.streams| && t.streams[x].since == s.streams[x].since
  {
    var k := s.conns[c];
    var n := k.nudge.value;
    TouchKeepsSince(s.streams, [n.iopub], Listen(Off), x);
    if k.channels.Some? {
      var q := k.channels.value;
      var a := Cleaned(s, n);
      ReplayFrame(a, q, c, ToReplay(s, n), x);
      TouchKeepsSince(Replay(a, q, c, ToReplay(s, n)), Ids(q), Listen(ToWeb(c)), x);
    }
  }

  lemma DisconnectKeepsSince(s: State, c: ConnId, x: StreamId)
    requires Sound(s) && Active(s, c) && x < |s.streams| && !Detaches(s, DoDisconnect(c))
    ensures var t := AfterDisconnect(s, c);
      |t.streams| == |s.streams| && t.streams[x].since == s.streams[x].since
  {
    TouchKeepsSince(s.streams, Ids(s.conns[c].channels.value), Shut, x);
  }

  lemma StepSince(s: State, step: Step, x: StreamId)
    requires Sound(s) && Enabled(s, step) && x < |s.streams| && !Detaches(s, step)
    ensures var t := Next(s, step);
      x < |t.streams| &&
      t.streams[x].since == s.streams[x].since + (if step.DoArrive? && step.x == x then [step.m] else [])
  {
    match step
    case DoConnect(c, busy) => ConnectKeepsSince(s, c, busy, x);
    case DoFinishNudge(c) => NudgeKeepsSince(s, c, x);
    case DoDisconnect(c) => DisconnectKeepsSince(s, c, x);
    case _ =>
  }

  // ---------------------------------------------------------------------
  // Nobody there
  // ---------------------------------------------------------------------

  /** The buffer in place and whose it is. */
  ghost predicate Holding(s: State, b: BufferId, key: string, q: Quad) {
    s.buffer == Some(b) && b < |s.buffers| && s.buffers[b].key == key && s.buffers[b].channels == q
  }

  lemma NobodyLeaves(s: State, step: Step)
    requires Inv(s) && Enabled(s, step) && s.buffer.Some?
    ensures !step.DoDisconnect?
  {
    if step.DoDisconnect? {
      NoBufferWhileOpen(s, step.c);
    }
  }

  lemma AwayStep(s: State, step: Step, b: BufferId, key: string, q: Quad)
    requires Inv(s) && Enabled(s, step) && !step.DoConnect? && Holding(s, b, key, q)
    ensures !Detaches(s, step) && Holding(Next(s, step), b, key, q)
  {
    NobodyLeaves(s, step);
  }

  /**
    While nobody connects, the buffer stays, and what has arrived on a stream
    since the detach grows by the arrivals of the run.
   */
  lemma {:induction false} WhileAway(from: State, patient: bool, run: seq<Step>, s: State,
                                     b: BufferId, key: string, q: Quad, x: StreamId)
    requires Inv(from) && Leads(from, patient, run, s) && NobodyConnects(run)
    requires Holding(from, b, key, q) && x < |from.streams|
    ensures Inv(s) && Holding(s, b, key, q) && x < |s.streams|
    ensures s.streams[x].since == from.streams[x].since + Arrived(run, x)
    decreases |run|
  {
    hide Inv, Holding, Sound, Enabled, Next;
    if run != [] {
      var front, step := run[..|run| - 1], run[|run| - 1];
      var p: State :| Leads(from, patient, front, p) && Sound(p) && Enabled(p, step) && s == Next(p, step);
      WhileAway(from, patient, front, p, b, key, q, x);
      StepKeepsInv(p, step);
      AwayStep(p, step, b, key, q);
      StepSince(p, step, x);
    }
  }

  // ---------------------------------------------------------------------
  // Back again
  // ---------------------------------------------------------------------

  /** A connection with the key of the buffer gets the streams of the buffer. */
  lemma ComesBack(s: State, c: ConnId, busy: bool, b: BufferId, key: string, q: Quad)
    requires Inv(s) && Holding(s, b, key, q) && Enabled(s, DoConnect(c, busy)) && s.conns[c].key == key
    ensures Present(AfterConnect(s, c, busy), c, q)
  {
  }

  /** Connection `c` is there, with the channels `q`. */
  predicate Present(s: State, c: ConnId, q: Quad) {
    Active(s, c) && s.conns[c].channels == Some(q)
  }

  lemma NotTheLast(s: State, c: ConnId, d: ConnId)
    requires Inv(s) && Active(s, c) && Active(s, d) && c != d
    ensures s.connections > 1
  {
    if s.connections <= 1 {
      NoBufferWhileOpen(s, c);
      OnlyOneOpen(s, c, d);
    }
  }

  lemma ConnOfStep(s: State, step: Step, c: ConnId)
    requires Sound(s) && Enabled(s, step) && step != DoDisconnect(c) && Active(s, c)
    ensures c < |Next(s, step).conns| && Next(s, step).conns[c].(nudge := None) == s.conns[c].(nudge := None)
  {
  }

  lemma BackStep(s: State, step: Step, c: ConnId, q: Quad)
    requires Inv(s) && Enabled(s, step) && step != DoDisconnect(c) && Present(s, c, q)
    ensures !Detaches(s, step) && Present(Next(s, step), c, q)
  {
    ConnOfStep(s, step, c);
    hide Next, Inv;
    if step.DoDisconnect? {
      NotTheLast(s, c, step.c);
    }
  }

  /** As long as a connection stays, whoever else comes and goes, it keeps its channels, and arrivals add up. */
  lemma {:induction false} WhileThere(from: State, patient: bool, run: seq<Step>, s: State,
                                      c: ConnId, q: Quad, x: StreamId)
    requires Inv(from) && Leads(from, patient, run, s) && Remains(run, c)
    requires Present(from, c, q) && x < |from.streams|
    ensures Inv(s) && Present(s, c, q) && x < |s.streams|
    ensures s.streams[x].since == from.streams[x].since + Arrived(run, x)
    decreases |run|
  {
    hide Inv, Present, Sound, Enabled, Next;
    if run != [] {
      var front, step := run[..|run| - 1], run[|run| - 1];
      var p: State :| Leads(from, patient, front, p) && Sound(p) && Enabled(p, step) && s == Next(p, step);
      WhileThere(from, patient, front, p, c, q, x);
      StepKeepsInv(p, step);
      BackStep(p, step, c, q);
      StepSince(p, step, x);
    }
  }

  /** The stream of one channel, at the moment its last client leaves. */
  lemma LeftBehind(s: State, c: ConnId, ch: Channel)
    requires Conserved(s) && Active(s, c) && s.connections == 1 && s.bufferOffline
    requires s.conns[c].channels.Some? && InRange(s, s.conns[c].channels.value)
    ensures var q, t := s.conns[c].channels.value, AfterDisconnect(s, c);
      && Holding(t, |s.buffers|, s.conns[c].key, q)
      && At(q, ch) < |t.streams| && t.streams[At(q, ch)].since == s.streams[At(q, ch)].queue
  {
    var q := s.conns[c].channels.value;
    assert ConnOk(s, c);
    DetachBuffers(s, c, AfterDisconnect(s, c));
    DisconnectStreams(s, c, At(q, ch));
    QuadInIds(q, At(q, ch));
  }

  lemma ChannelsOf(s: State, c: ConnId)
    requires Conserved(s) && Active(s, c)
    ensures s.conns[c].channels.Some? && InRange(s, s.conns[c].channels.value)
  {
    assert ConnOk(s, c);
  }

  /** `got` is `all`, less one message at most, and that only on iopub. */
  ghost predicate NearlyAll(ch: Channel, got: seq<Msg>, all: seq<Msg>) {
    got == all || (ch == Iopub && AllButOne(got, all))
  }

  lemma PresentGetsAll(s: State, c: ConnId, q: Quad, ch: Channel)
    requires Conserved(s) && Present(s, c, q) && s.conns[c].nudge.None?
    ensures At(q, ch) < |s.streams| && AllBy(s.streams[At(q, ch)].handed, c)
    ensures NearlyAll(ch, Msgs(s.streams[At(q, ch)].handed) + s.streams[At(q, ch)].queue, s.streams[At(q, ch)].since)
  {
    assert ConnOk(s, c);
    LiveStreamComplete(c, s.streams[At(q, ch)]);
  }

  predicate Nudged(s: State, c: ConnId) {
    c < |s.conns| && s.conns[c].nudge.None?
  }

  lemma {:induction false} OfflineSetting(from: State, patient: bool, run: seq<Step>, s: State)
    requires Leads(from, patient, run, s)
    ensures s.bufferOffline == from.bufferOffline
    decreases |run|
  {
    if run != [] {
      var front, step := run[..|run| - 1], run[|run| - 1];
      var p: State :| Leads(from, patient, front, p) && Sound(p) && Enabled(p, step) && s == Next(p, step);
      OfflineSetting(from, patient, front, p);
      SettingKept(p, step);
    }
  }

  lemma SettingKept(s: State, step: Step)
    requires Sound(s) && Enabled(s, step)
    ensures Next(s, step).bufferOffline == s.bufferOffline
  {
  }

  lemma ConservedIsSound(s: State)
    requires Conserved(s)
    ensures Sound(s) && Inv(s)
  {
  }

  lemma NudgeOver(s: State, c: ConnId)
    requires Nudged(s, c)
    ensures c < |s.conns| && s.conns[c].nudge.None?
  {
  }

  /** From the connect on. */
  lemma SinceConnect(s: State, c: ConnId, q: Quad, more: seq<Step>, u: State, ch: Channel)
    requires Conserved(s) && Present(s, c, q) && At(q, ch) < |s.streams|
    requires Leads(s, true, more, u) && Remains(more, c) && Nudged(u, c)
    ensures Present(u, c, q) && At(q, ch) < |u.streams| && AllBy(u.streams[At(q, ch)].handed, c)
    ensures NearlyAll(ch, Msgs(u.streams[At(q, ch)].handed) + u.streams[At(q, ch)].queue,
                      s.streams[At(q, ch)].since + Arrived(more, At(q, ch)))
  {
    hide *;
    ConservedIsSound(s);
    PatientRunsKeepConserving(s, more, u);
    WhileThere(s, true, more, u, c, q, At(q, ch));
    NudgeOver(u, c);
    PresentGetsAll(u, c, q, ch);
  }

  /** From the detach to the connect. */
  lemma SinceDetach(s: State, b: BufferId, key: string, q: Quad, away: seq<Step>, t: State,
                    d: ConnId, busy: bool, ch: Channel)
    requires Conserved(s) && Holding(s, b, key, q) && At(q, ch) < |s.streams|
    requires Leads(s, true, away, t) && NobodyConnects(away) && Sound(t)
    requires Enabled(t, DoConnect(d, busy)) && t.conns[d].key == key
    ensures var v := Next(t, DoConnect(d, busy));
      && Conserved(v) && Present(v, d, q) && At(q, ch) < |v.streams|
      && v.streams[At(q, ch)].since == s.streams[At(q, ch)].since + Arrived(away, At(q, ch))
  {
    hide Conserved, Holding, Leads, NobodyConnects, Present, AfterConnect;
    ConservedIsSound(s);
    hide Sound, Inv;
    PatientRunsKeepConserving(s, away, t);
    WhileAway(s, true, away, t, b, key, q, At(q, ch));
    ComesBack(t, d, busy, b, key, q);
    ConnectConserves(t, d, busy);
    ConnectKeepsSince(t, d, busy, At(q, ch));
  }

  /** No buffer waits for this key. */
  predicate Unawaited(s: State, key: string)
    requires Sound(s)
  {
    s.buffer.Some? ==> s.buffers[s.buffer.value].key != key
  }

  /** A newcomer gets streams that have seen nothing yet. */
  lemma AttachesAfresh(s: State, key: string, ch: Channel) returns (a: State, q: Quad)
    requires Sound(s) && Unawaited(s, key)
    ensures Attach(s, key) == (a, None, q)
    ensures |s.streams| <= At(q, ch) < |a.streams| && a.streams[At(q, ch)].since == []
  {
    var n := |s.streams|;
    q := Quad(n, n + 1, n + 2, n + 3);
    a := Attach(s, key).0;
  }

  lemma ConnectListens(s: State, c: ConnId, busy: bool, a: State, q: Quad)
    requires Sound(s) && c < |s.conns| && Attach(s, s.conns[c].key) == (a, None, q)
    ensures q.iopub < |a.streams|
    ensures var t := AfterConnect(s, c, busy);
      && t.streams == (if busy then a.streams else TouchAll(a.streams, [q.iopub], Listen(ToNudge(c))))
      && t.conns[c].channels == Some(q)
  {
    AttachSound(s, s.conns[c].key);
  }

  lemma StartsAfresh(s: State, c: ConnId, busy: bool, ch: Channel) returns (q: Quad)
    requires Inv(s) && Enabled(s, DoConnect(c, busy)) && Unawaited(s, s.conns[c].key)
    ensures var t := AfterConnect(s, c, busy);
      && Present(t, c, q) && |s.streams| <= At(q, ch) < |t.streams|
      && t.streams[At(q, ch)].since == []
  {
    ConnectMakesPresent(s, c, busy);
    hide AfterConnect, Attach, AfterGetBuffer;
    var a;
    a, q := AttachesAfresh(s, s.conns[c].key, ch);
    ConnectListens(s, c, busy, a, q);
    TouchKeepsSince(a.streams, [q.iopub], Listen(ToNudge(c)), At(q, ch));
  }

  lemma ConnectMakesPresent(s: State, c: ConnId, busy: bool)
    requires Inv(s) && Enabled(s, DoConnect(c, busy))
    ensures Active(AfterConnect(s, c, busy), c)
  {
  }

  /**
    A client for which no buffer is kept is handed what arrives on its own new
    streams after it connects, and nothing that arrived before.
   */
  lemma NewcomerGetsArrivals(bufferOffline: bool, before: seq<Step>, s: State, c: ConnId, busy: bool,
                             more: seq<Step>, u: State, ch: Channel)
    requires Reaches(bufferOffline, true, before, s) && Sound(s)
    requires Enabled(s, DoConnect(c, busy)) && Unawaited(s, s.conns[c].key)
    requires Leads(Next(s, DoConnect(c, busy)), true, more, u) && Remains(more, c) && Nudged(u, c)
    ensures Active(u, c) && u.conns[c].channels.Some? && InRange(u, u.conns[c].channels.value)
    ensures var x := At(u.conns[c].channels.value, ch);
      && |s.streams| <= x && AllBy(u.streams[x].handed, c)
      && NearlyAll(ch, Msgs(u.streams[x].handed) + u.streams[x].queue, Arrived(more, x))
  {
    PatientRunsConserve(bufferOffline, before, s);
    ConnectConserves(s, c, busy);
    PatientRunsKeepConserving(AfterConnect(s, c, busy), more, u);
    hide Conserved, Leads, AfterConnect, Remains, Nudged, NearlyAll;
    ConservedIsSound(s);
    var q := StartsAfresh(s, c, busy, ch);
    SinceConnect(AfterConnect(s, c, busy), c, q, more, u, ch);
    ChannelsOf(u, c);
    NothingBefore(Arrived(more, At(q, ch)));
  }

  lemma NothingBefore(all: seq<Msg>)
    ensures [] + all == all
  {
  }

  /**
    While the client is away, each channel of the buffer followed by what is
    still queued is what was queued when it left and everything that arrived since.
   */
  lemma AwayIsBuffered(before: seq<Step>, s: State, c: ConnId, away: seq<Step>, t: State, ch: Channel)
    requires Reaches(true, true, before, s) && Sound(s)
    requires Enabled(s, DoDisconnect(c)) && Waits(s, DoDisconnect(c)) && s.connections == 1
    requires Leads(Next(s, DoDisconnect(c)), true, away, t) && NobodyConnects(away)
    ensures s.conns[c].channels.Some? && InRange(s, s.conns[c].channels.value)
    ensures var q := s.conns[c].channels.value;
      && Holding(t, |s.buffers|, s.conns[c].key, q) && At(q, ch) < |t.streams|
      && OnChannel(t.buffers[|s.buffers|].messages, ch) + t.streams[At(q, ch)].queue
           == s.streams[At(q, ch)].queue + Arrived(away, At(q, ch))
  {
    PatientRunsConserve(true, before, s);
    OfflineSetting(Init(true), true, before, s);
    hide *;
    LeaverOfRun(s, c);
    ChannelsOf(s, c);
    var q, l := s.conns[c].channels.value, Next(s, DoDisconnect(c));
    LeftBehind(s, c, ch);
    StepConserves(s, DoDisconnect(c));
    ConservedIsSound(l);
    WhileAway(l, true, away, t, |s.buffers|, s.conns[c].key, q, At(q, ch));
    PatientRunsKeepConserving(l, away, t);
    HoldsEverything(t, |s.buffers|, s.conns[c].key, q, ch);
  }

  lemma HoldsEverything(s: State, b: BufferId, key: string, q: Quad, ch: Channel)
    requires Conserved(s) && Holding(s, b, key, q)
    ensures b < |s.buffers| && At(q, ch) < |s.streams|
    ensures OnChannel(s.buffers[b].messages, ch) + s.streams[At(q, ch)].queue == s.streams[At(q, ch)].since
  {
    assert BufferedStream(s, b, ch, s.streams[At(q, ch)]);
    NothingBefore(OnChannel(s.buffers[b].messages, ch));
  }

  /**
    A client goes away as the last one (its nudge complete), anything happens
    but a connect, and a client with its key connects; anything happens again,
    but the new connection stays.  Once its nudge is complete it has the streams
    of the old one, and what was handed to it, with what is still queued, is what
    was queued when the old one left followed by everything that arrived since;
    on iopub at most one message is missing.
   */
  lemma ReturningClientGetsAll(before: seq<Step>, s: State, c: ConnId, away: seq<Step>, t: State,
                               d: ConnId, busy: bool, more: seq<Step>, u: State, ch: Channel)
    requires Reaches(true, true, before, s) && Sound(s)
    requires Enabled(s, DoDisconnect(c)) && Waits(s, DoDisconnect(c)) && s.connections == 1
    requires Leads(Next(s, DoDisconnect(c)), true, away, t) && Sound(t) && NobodyConnects(away)
    requires Enabled(t, DoConnect(d, busy)) && t.conns[d].key == s.conns[c].key
    requires Leads(Next(t, DoConnect(d, busy)), true, more, u) && Remains(more, d)
    requires Nudged(u, d)
    ensures s.conns[c].channels.Some? && InRange(s, s.conns[c].channels.value)
    ensures var q := s.conns[c].channels.value;
      && Present(u, d, q) && At(q, ch) < |u.streams| && AllBy(u.streams[At(q, ch)].handed, d)
      && NearlyAll(ch, Msgs(u.streams[At(q, ch)].handed) + u.streams[At(q, ch)].queue,
                   s.streams[At(q, ch)].queue + Arrived(away + more, At(q, ch)))
  {
    PatientRunsConserve(true, before, s);
    OfflineSetting(Init(true), true, before, s);
    hide *;
    LeaverOfRun(s, c);
    ChannelsOf(s, c);
    var q, l := s.conns[c].channels.value, Next(s, DoDisconnect(c));
    LeftBehind(s, c, ch);
    StepConserves(s, DoDisconnect(c));
    SinceDetach(l, |s.buffers|, s.conns[c].key, q, away, t, d, busy, ch);
    SinceConnect(Next(t, DoConnect(d, busy)), d, q, more, u, ch);
    ArrivedConcat(away, more, At(q, ch));
    AppendAssociates(s.streams[At(q, ch)].queue, Arrived(away, At(q, ch)), Arrived(more, At(q, ch)));
  }

  lemma LeaverOfRun(s: State, c: ConnId)
    requires Sound(s) && Enabled(s, DoDisconnect(c))
    ensures Active(s, c) && Next(s, DoDisconnect(c)) == AfterDisconnect(s, c)
  {
  }
}
