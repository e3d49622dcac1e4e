/**
  Which zmq streams of a kernel are open: those of open connections and of the
  buffer, and no others, so that none goes on filling up for nobody.
 */
module OpenStreams {
  import opened Common
  import opened Connections
  import opened ConnectionRuns
  import opened Reconnects

  /** Discarding a buffer closes its four streams, leaves the others alone, and there is no buffer then. */
  lemma DiscardCloses(s: State, x: StreamId)
    requires Sound(s) && s.buffer.Some? && x < |s.streams|
    ensures var q, t := s.buffers[s.buffer.value].channels, AfterStopBuffering(s);
      && t.buffer == None && |t.streams| == |s.streams| && t.conns == s.conns && t.buffers == s.buffers
      && (x in {q.iopub, q.shell, q.control, q.stdin} ==> t.streams[x].closed && t.streams[x].handler == Off)
      && (x !in {q.iopub, q.shell, q.control, q.stdin} ==> t.streams[x] == s.streams[x])
  {
    TouchAllEffect(s.streams, Ids(s.buffers[s.buffer.value].channels), Shut, x);
  }

  predicate Has(q: Quad, x: StreamId) {
    x == q.iopub || x == q.shell || x == q.control || x == q.stdin
  }

  ghost predicate OfConnection(s: State, x: StreamId) {
    exists c: nat :: Active(s, c) && s.conns[c].channels.Some? && Has(s.conns[c].channels.value, x)
  }

  predicate OfBuffer(s: State, x: StreamId) {
    s.buffer.Some? && s.buffer.value < |s.buffers| && Has(s.buffers[s.buffer.value].channels, x)
  }

  /** An open stream has somebody to receive what it gets. */
  ghost predicate NoStrays(s: State) {
    forall x: nat :: x < |s.streams| && !s.streams[x].closed ==> OfConnection(s, x) || OfBuffer(s, x)
  }

  lemma TouchedIsClosed(streams: seq<Stream>, ids: seq<StreamId>, change: Change, x: StreamId)
    requires x < |streams| && forall i :: 0 <= i < |ids| ==> ids[i] < |streams|
    ensures TouchAll(streams, ids, change)[x].closed <==> streams[x].closed || (change.Shut? && x in ids)
  {
    TouchAllEffect(streams, ids, change, x);
  }

  lemma InIds(q: Quad, x: StreamId)
    ensures x in Ids(q) <==> Has(q, x)
  {
    assert Ids(q)[0] == q.iopub && Ids(q)[1] == q.shell && Ids(q)[2] == q.control && Ids(q)[3] == q.stdin;
  }

  /** Steps that open no stream and take none from its connection or buffer. */
  lemma StillBelongs(s: State, t: State)
    requires NoStrays(s) && |t.streams| == |s.streams|
    requires forall x: nat :: x < |s.streams| && s.streams[x].closed ==> t.streams[x].closed
    requires forall c: nat :: Active(s, c) ==> Active(t, c) && t.conns[c].channels == s.conns[c].channels
    requires t.buffer == s.buffer && |t.buffers| == |s.buffers|
    requires forall b :: 0 <= b < |s.buffers| ==> t.buffers[b].channels == s.buffers[b].channels
    ensures NoStrays(t)
  {
    forall x: nat | x < |t.streams| && !t.streams[x].closed ensures OfConnection(t, x) || OfBuffer(t, x) {
      assert OfConnection(s, x) || OfBuffer(s, x);
      if OfConnection(s, x) {
        var c: nat :| Active(s, c) && s.conns[c].channels.Some? && Has(s.conns[c].channels.value, x);
        assert Active(t, c) && t.conns[c].channels.Some? && Has(t.conns[c].channels.value, x);
      }
    }
  }

  lemma NudgeOpensNone(s: State, c: ConnId, x: StreamId)
    requires Sound(s) && c < |s.conns| && s.conns[c].nudge.Some? && x < |s.streams|
    ensures var t := AfterNudge(s, c);
      |t.streams| == |s.streams| && t.streams[x].closed == s.streams[x].closed
  {
    var k := s.conns[c];
    var n := k.nudge.value;
    TouchedIsClosed(s.streams, [n.iopub], Listen(Off), x);
    if k.channels.Some? {
      var q := k.channels.value;
      ReplayFrame(Cleaned(s, n), q, c, ToReplay(s, n), x);
      TouchedIsClosed(Cleaned(s, n), Ids(q), Listen(ToWeb(c)), x);
      TouchedIsClosed(Replay(Cleaned(s, n), q, c, ToReplay(s, n)), Ids(q), Listen(ToWeb(c)), x);
    }
  }

  /** A connect leaves open the streams of the connection, and what was open of others. */
  lemma ConnectOpens(s: State, c: ConnId, busy: bool)
    requires Inv(s) && Enabled(s, DoConnect(c, busy)) && NoStrays(s)
    ensures NoStrays(AfterConnect(s, c, busy))
  {
    var t := AfterConnect(s, c, busy);
    var (a, got, q) := Attach(s, s.conns[c].key);
    AttachSound(s, s.conns[c].key);
    ConnectKeepsInv(s, c, busy);
    assert Active(t, c) && t.conns[c].channels == Some(q);
    forall x: nat | x < |t.streams| && !t.streams[x].closed ensures OfConnection(t, x) {
      TouchedIsClosed(a.streams, [q.iopub], Listen(ToNudge(c)), x);
      AttachedIsOwned(s, s.conns[c].key, x);
      if !Has(q, x) {
        var d: nat :| Active(s, d) && s.conns[d].channels.Some? && Has(s.conns[d].channels.value, x);
        assert d != c && t.conns[d] == s.conns[d];
        assert Active(t, d) && Has(t.conns[d].channels.value, x);
      } else {
        assert Has(t.conns[c].channels.value, x);
      }
    }
  }

  lemma AttachedIsOwned(s: State, key: string, x: StreamId)
    requires Inv(s) && NoStrays(s)
    ensures var (a, got, q) := Attach(s, key);
      x < |a.streams| && !a.streams[x].closed ==> Has(q, x) || OfConnection(s, x)
  {
    var s1 := s.(connections := s.connections + 1);
    if s.buffer.Some? && x < |s.streams| {
      DiscardCloses(s, x);
      DiscardCloses(s1, x);
    }
    assert x < |s.streams| && !s.streams[x].closed ==> OfConnection(s, x) || OfBuffer(s, x);
  }

  lemma DisconnectStream(s: State, c: ConnId, x: StreamId)
    requires Inv(s) && Active(s, c) && x < |s.streams|
    ensures s.conns[c].channels.Some?
    ensures var q, t := s.conns[c].channels.value, AfterDisconnect(s, c);
      && |t.streams| == |s.streams|
      && (s.streams[x].closed ==> t.streams[x].closed)
      && (Has(q, x) && !t.streams[x].closed ==> OfBuffer(t, x))
  {
    var q := s.conns[c].channels.value;
    NoBufferWhileOpen(s, c);
    InIds(q, x);
    TouchedIsClosed(s.streams, Ids(q), Shut, x);
    TouchedIsClosed(s.streams, Ids(q), Buffering(|s.buffers|), x);
  }

  /** Whoever leaves takes the streams along, unless they go to a buffer. */
  lemma DisconnectCloses(s: State, c: ConnId)
    requires Inv(s) && Active(s, c) && NoStrays(s)
    ensures NoStrays(AfterDisconnect(s, c))
  {
    var t := AfterDisconnect(s, c);
    NoBufferWhileOpen(s, c);
    forall x: nat | x < |t.streams| && !t.streams[x].closed ensures OfConnection(t, x) || OfBuffer(t, x) {
      DisconnectStream(s, c, x);
      assert OfConnection(s, x);
      var d: nat :| Active(s, d) && s.conns[d].channels.Some? && Has(s.conns[d].channels.value, x);
      if d != c {
        assert t.conns[d] == s.conns[d];
        assert Active(t, d) && Has(t.conns[d].channels.value, x);
      }
    }
  }

  lemma StepKeepsNoStrays(s: State, step: Step)
    requires Inv(s) && Enabled(s, step) && NoStrays(s)
    ensures NoStrays(Next(s, step))
  {
    match step
    case DoConnect(c, busy) => ConnectOpens(s, c, busy);
    case DoDisconnect(c) => DisconnectCloses(s, c);
    case DoFinishNudge(c) =>
      forall x: nat | x < |s.streams|
        ensures |Next(s, step).streams| == |s.streams| && Next(s, step).streams[x].closed == s.streams[x].closed
      {
        NudgeOpensNone(s, c, x);
      }
      StillBelongs(s, Next(s, step));
    case _ => StillBelongs(s, Next(s, step));
  }

  lemma {:induction false} LeadsKeepsNoStrays(from: State, patient: bool, run: seq<Step>, s: State)
    requires Inv(from) && NoStrays(from) && Leads(from, patient, run, s)
    ensures NoStrays(s)
    decreases |run|
  {
    hide Inv, NoStrays, Sound, Enabled, Next;
    if run != [] {
      var front, step := run[..|run| - 1], run[|run| - 1];
      var p: State :| Leads(from, patient, front, p) && Sound(p) && Enabled(p, step) && s == Next(p, step);
      LeadsKeepsNoStrays(from, patient, front, p);
      LeadsKeepsInv(from, patient, front, p);
      StepKeepsNoStrays(p, step);
    }
  }

  /**
    In every state that any interleaving reaches, a stream is open only if it
    belongs to an open connection or to the buffer in place.
   */
  lemma OpenStreamsBelong(bufferOffline: bool, patient: bool, run: seq<Step>, s: State, x: StreamId)
    requires Reaches(bufferOffline, patient, run, s) && x < |s.streams| && !s.streams[x].closed
    ensures OfConnection(s, x) || OfBuffer(s, x)
  {
    assert Inv(Init(bufferOffline)) && NoStrays(Init(bufferOffline)) by {
      assert Reaches(bufferOffline, false, [], Init(bufferOffline));
      EveryRunKeepsInv(bufferOffline, false, [], Init(bufferOffline));
    }
    LeadsKeepsNoStrays(Init(bufferOffline), patient, run, s);
  }

  lemma WiredAreOpen(s: State, q: Quad, x: StreamId)
    requires Wired(s, q) && Has(q, x)
    ensures x < |s.streams| && !s.streams[x].closed
  {
    assert At(q, Iopub) == q.iopub && At(q, Shell) == q.shell && At(q, Control) == q.control && At(q, Stdin) == q.stdin;
  }

  /** And exactly those are open, if last connections wait for their nudge. */
  lemma OpenIff(bufferOffline: bool, run: seq<Step>, s: State, x: StreamId)
    requires Reaches(bufferOffline, true, run, s)
    ensures (x < |s.streams| && !s.streams[x].closed) <==> OfConnection(s, x) || OfBuffer(s, x)
  {
    PatientRunsConserve(bufferOffline, run, s);
    if OfConnection(s, x) {
      var c: nat :| Active(s, c) && s.conns[c].channels.Some? && Has(s.conns[c].channels.value, x);
      assert ConnOk(s, c);
      WiredAreOpen(s, s.conns[c].channels.value, x);
    } else if OfBuffer(s, x) {
      WiredAreOpen(s, s.buffers[s.buffer.value].channels, x);
    } else if x < |s.streams| && !s.streams[x].closed {
      OpenStreamsBelong(bufferOffline, true, run, s, x);
    }
  }

  /**
    What a connect starts: unless the kernel is busy, the nudge listens on the
    iopub stream, and every other stream stays as it is: feeding the old buffer
    if there was a matching one, and silent if it is new.
   */
  lemma ConnectStartsNudge(s: State, c: ConnId, busy: bool, ch: Channel)
    requires Conserved(s) && Enabled(s, DoConnect(c, busy))
    ensures var t := AfterConnect(s, c, busy);
      && t.conns[c].channels.Some? && At(t.conns[c].channels.value, ch) < |t.streams|
      && t.conns[c].nudge.Some? && t.conns[c].nudge.value.busy == busy
      && t.streams[At(t.conns[c].channels.value, ch)].handler ==
           (if ch == Iopub && !busy then ToNudge(c)
            else if t.conns[c].nudge.value.restored.Some? then ToBuffer(t.conns[c].nudge.value.restored.value)
            else Off)
  {
    var (a, got, q) := Attach(s, s.conns[c].key);
    ConnectOfAttach(s, c, busy);
    AttachedStream(s, s.conns[c].key, ch);
    hide *;
    ListensOnly(a.streams, q, c, ch);
  }

  lemma ListensOnly(streams: seq<Stream>, q: Quad, c: ConnId, ch: Channel)
    requires q.iopub < |streams| && At(q, ch) < |streams|
    requires !streams[At(q, ch)].closed && (At(q, ch) == q.iopub <==> ch == Iopub)
    ensures var r := TouchAll(streams, [q.iopub], Listen(ToNudge(c)));
      r[At(q, ch)].handler == if ch == Iopub then ToNudge(c) else streams[At(q, ch)].handler
  {
    TouchAllEffect(streams, [q.iopub], Listen(ToNudge(c)), At(q, ch));
  }

  lemma ConnectOfAttach(s: State, c: ConnId, busy: bool)
    requires Sound(s) && c < |s.conns|
    ensures var (a, got, q) := Attach(s, s.conns[c].key);
      var t := AfterConnect(s, c, busy);
      && q.iopub < |a.streams|
      && t.streams == (if busy then a.streams else TouchAll(a.streams, [q.iopub], Listen(ToNudge(c))))
      && t.conns[c].channels == Some(q) && t.conns[c].nudge == Some(Nudge(q.iopub, got, busy))
  {
    AttachSound(s, s.conns[c].key);
  }

  lemma AttachedStream(s: State, key: string, ch: Channel)
    requires Conserved(s)
    ensures var (a, got, q) := Attach(s, key);
      && At(q, ch) < |a.streams| && q.iopub < |a.streams| && !a.streams[At(q, ch)].closed
      && (At(q, ch) == q.iopub <==> ch == Iopub)
      && a.streams[At(q, ch)].handler == if got.Some? then ToBuffer(got.value) else Off
  {
    AttachSound(s, key);
    if s.buffer.Some? && s.buffers[s.buffer.value].key == key {
      var b := s.buffer.value;
      assert BufferedStream(s, b, ch, s.streams[At(s.buffers[b].channels, ch)]);
      assert ch == Iopub <==> At(s.buffers[b].channels, ch) == At(s.buffers[b].channels, Iopub);
    }
  }

  /**
    A delivery takes exactly the first message off its stream: to the end of the
    buffer under the name of its channel, to nobody if it went to a nudge, which
    then stops listening, or to the web socket.  Nothing else changes.
   */
  lemma DeliveryTakesOne(s: State, x: StreamId)
    requires Sound(s) && Enabled(s, DoDeliver(x))
    ensures var (m, t, h) := (s.streams[x].queue[0], Deliver(s, x), s.streams[x].handler);
      && |t.streams| == |s.streams| && t == s.(streams := t.streams, buffers := t.buffers)
      && [m] + t.streams[x].queue == s.streams[x].queue && t.streams[x].since == s.streams[x].since
      && (forall y :: 0 <= y < |s.streams| && y != x ==> t.streams[y] == s.streams[y])
      && t.streams[x].handler == (if h.ToNudge? then Off else h)
      && t.streams[x].handed == s.streams[x].handed + (if h.ToWeb? then [(h.conn, m)] else [])
      && (!h.ToBuffer? ==> t.buffers == s.buffers)
      && (h.ToBuffer? ==>
            var info := s.buffers[h.buffer];
            t.buffers == s.buffers[h.buffer := info.(messages := info.messages + [(s.streams[x].channel, m)])])
  {
  }
}
