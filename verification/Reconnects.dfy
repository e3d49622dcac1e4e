/**
  What reaches a client that goes away and comes back: nothing is lost or
  doubled, except for the one iopub message that a nudge consumes.  That is so in
  every interleaving in which the last connection to leave does not leave in the
  middle of its nudge while messages are to be buffered.
 */
module Reconnects {
  import opened Common
  import opened Connections
  import opened ConnectionRuns

  function Msgs(handed: seq<(ConnId, Msg)>): (r: seq<Msg>)
    ensures |r| == |handed|
  {
    seq(|handed|, i requires 0 <= i < |handed| => handed[i].1)
  }

  /** The buffered messages of one channel, in order. */
  function OnChannel(msgs: seq<(Channel, Msg)>, ch: Channel): seq<Msg> {
    if msgs == [] then []
    else OnChannel(msgs[..|msgs| - 1], ch) + (if msgs[|msgs| - 1].0 == ch then [msgs[|msgs| - 1].1] else [])
  }

  /** What arrived, less the message a nudge consumed. */
  function Kept(x: Stream): seq<Msg> {
    if x.lost.Some? && x.lost.value < |x.since| then x.since[..x.lost.value] + x.since[x.lost.value + 1..] else x.since
  }

  /** Everything kept is handed over, waiting in a buffer, or queued: in this order, and nothing twice. */
  predicate Accounted(x: Stream, waiting: seq<Msg>) {
    && Msgs(x.handed) + waiting + x.queue == Kept(x)
    && (x.lost.Some? ==> x.lost.value < |x.since|)
    && (x.channel != Iopub ==> x.lost == None)
  }

  ghost predicate Wired(s: State, q: Quad) {
    && InRange(s, q)
    && (forall ch, dh :: ch != dh ==> At(q, ch) != At(q, dh))
    && (forall ch :: s.streams[At(q, ch)].channel == ch && !s.streams[At(q, ch)].closed)
  }

  function Waiting(s: State, n: Nudge, ch: Channel): seq<Msg> {
    if n.restored.Some? && n.restored.value < |s.buffers| then OnChannel(s.buffers[n.restored.value].messages, ch)
      else []
  }

  predicate NudgingStream(s: State, c: ConnId, n: Nudge, ch: Channel, x: Stream) {
    && x.handed == []
    && Accounted(x, Waiting(s, n, ch))
    && if ch == Iopub && !n.busy then (x.handler == ToNudge(c) && x.lost == None) || x.handler == Off
       else x.lost == None && x.handler == (if n.restored.Some? then ToBuffer(n.restored.value) else Off)
  }

  predicate LiveStream(c: ConnId, x: Stream) {
    && x.handler == ToWeb(c)
    && Accounted(x, [])
    && AllBy(x.handed, c)
  }

  ghost predicate ConnOk(s: State, c: ConnId)
    requires Active(s, c)
  {
    var k := s.conns[c];
    k.channels.Some? && Wired(s, k.channels.value) &&
    match k.nudge
    case None => forall ch :: LiveStream(c, s.streams[At(k.channels.value, ch)])
    case Some(n) =>
      && n.iopub == k.channels.value.iopub
      && (n.restored.Some? ==>
            n.restored.value < |s.buffers| && s.buffers[n.restored.value].channels == k.channels.value)
      && forall ch :: NudgingStream(s, c, n, ch, s.streams[At(k.channels.value, ch)])
  }

  predicate BufferedStream(s: State, b: BufferId, ch: Channel, x: Stream)
    requires b < |s.buffers|
  {
    x.handler == ToBuffer(b) && x.handed == [] && x.lost == None && Accounted(x, OnChannel(s.buffers[b].messages, ch))
  }

  ghost predicate BufferOk(s: State, b: BufferId) {
    b < |s.buffers| && Wired(s, s.buffers[b].channels) &&
    forall ch :: BufferedStream(s, b, ch, s.streams[At(s.buffers[b].channels, ch)])
  }

  ghost predicate Apart(q: Quad, r: Quad) {
    forall ch, dh :: At(q, ch) != At(r, dh)
  }

  /** A stream that feeds a buffer is the one the buffer has for that channel. */
  ghost predicate Feeds(s: State) {
    forall x :: 0 <= x < |s.streams| && s.streams[x].handler.ToBuffer? ==>
      s.streams[x].handler.buffer < |s.buffers| &&
      At(s.buffers[s.streams[x].handler.buffer].channels, s.streams[x].channel) == x
  }

  /** The callbacks of a nudge whose connection is gone find closed streams only, and nothing to replay. */
  ghost predicate Spent(streams: seq<Stream>, k: Conn) {
    k.nudge.Some? ==>
      && k.nudge.value.iopub < |streams| && streams[k.nudge.value.iopub].closed
      && (k.channels.Some? ==>
            && k.nudge.value.restored.None? && Within(k.channels.value, |streams|)
            && forall ch :: streams[At(k.channels.value, ch)].closed)
  }

  ghost predicate Leftovers(s: State) {
    && (forall c: nat :: c < |s.conns| && !Active(s, c) ==> Spent(s.streams, s.conns[c]))
    && (!s.bufferOffline ==> s.buffers == [])
  }

  ghost predicate StaysClosed(before: seq<Stream>, after: seq<Stream>) {
    |before| <= |after| && forall x :: 0 <= x < |before| && before[x].closed ==> after[x].closed
  }

  ghost predicate Conserved(s: State) {
    && Inv(s)
    && (forall c: nat :: Active(s, c) ==> ConnOk(s, c))
    && (forall c: nat, d: nat :: Active(s, c) && Active(s, d) && c != d ==>
          Apart(s.conns[c].channels.value, s.conns[d].channels.value))
    && Leftovers(s)
    && (s.buffer.Some? ==> BufferOk(s, s.buffer.value))
    && Feeds(s)
  }

  // ---------------------------------------------------------------------
  // Frames and effects
  // ---------------------------------------------------------------------

  lemma ConnFrame(s: State, t: State, c: ConnId)
    requires Active(s, c) && Active(t, c) && ConnOk(s, c) && t.conns[c] == s.conns[c] && |s.streams| <= |t.streams|
    requires forall ch :: t.streams[At(s.conns[c].channels.value, ch)] == s.streams[At(s.conns[c].channels.value, ch)]
    requires |s.buffers| <= |t.buffers|
    requires s.conns[c].nudge.Some? && s.conns[c].nudge.value.restored.Some? ==>
      t.buffers[s.conns[c].nudge.value.restored.value] == s.buffers[s.conns[c].nudge.value.restored.value]
    ensures ConnOk(t, c)
  {
  }

  lemma QuadInIds(q: Quad, x: StreamId)
    ensures x in Ids(q) <==> exists ch :: At(q, ch) == x
  {
    assert Ids(q)[0] == At(q, Iopub) && Ids(q)[1] == At(q, Shell) &&
        Ids(q)[2] == At(q, Control) && Ids(q)[3] == At(q, Stdin);
    if x in Ids(q) {
      var i :| 0 <= i < 4 && Ids(q)[i] == x;
    }
  }

  lemma OnChannelFront(msgs: seq<(Channel, Msg)>, ch: Channel)
    requires msgs != []
    ensures OnChannel(msgs, ch) == (if msgs[0].0 == ch then [msgs[0].1] else []) + OnChannel(msgs[1..], ch)
  {
    if |msgs| > 1 {
      OnChannelFront(msgs[..|msgs| - 1], ch);
      assert msgs[..|msgs| - 1][1..] == msgs[1..][..|msgs| - 2];
    } else {
      assert msgs[..0] == [];
    }
  }

  lemma MsgsAppend(handed: seq<(ConnId, Msg)>, c: ConnId, m: Msg)
    ensures Msgs(handed + [(c, m)]) == Msgs(handed) + [m]
  {
  }

  predicate AllBy(handed: seq<(ConnId, Msg)>, c: ConnId) {
    forall i :: 0 <= i < |handed| ==> handed[i].0 == c
  }

  lemma ReplayBy(streams: seq<Stream>, q: Quad, c: ConnId, msgs: seq<(Channel, Msg)>, x: StreamId)
    requires Within(q, |streams|) && x < |streams| && AllBy(streams[x].handed, c)
    ensures AllBy(Replay(streams, q, c, msgs)[x].handed, c)
    decreases |msgs|
  {
    if msgs != [] {
      var y := At(q, msgs[0].0);
      ReplayBy(streams[y := HandOver(streams[y], c, msgs[0].1)], q, c, msgs[1..], x);
    }
  }

  /** A replay hands over the buffered messages of each channel, in order. */
  lemma ReplayEffect(streams: seq<Stream>, q: Quad, c: ConnId, msgs: seq<(Channel, Msg)>, ch: Channel)
    requires Within(q, |streams|) && forall eh, dh :: eh != dh ==> At(q, eh) != At(q, dh)
    ensures Msgs(Replay(streams, q, c, msgs)[At(q, ch)].handed) == Msgs(streams[At(q, ch)].handed) + OnChannel(msgs, ch)
    decreases |msgs|
  {
    if msgs != [] {
      var y := At(q, msgs[0].0);
      var next := streams[y := HandOver(streams[y], c, msgs[0].1)];
      ReplayEffect(next, q, c, msgs[1..], ch);
      OnChannelFront(msgs, ch);
      HandOverMsgs(streams, q, c, msgs[0], ch);
      AppendAssociates(Msgs(streams[At(q, ch)].handed), if msgs[0].0 == ch then [msgs[0].1] else [],
        OnChannel(msgs[1..], ch));
    }
  }

  lemma HandOverMsgs(streams: seq<Stream>, q: Quad, c: ConnId, m: (Channel, Msg), ch: Channel)
    requires Within(q, |streams|) && forall eh, dh :: eh != dh ==> At(q, eh) != At(q, dh)
    ensures var next := streams[At(q, m.0) := HandOver(streams[At(q, m.0)], c, m.1)];
      Msgs(next[At(q, ch)].handed) == Msgs(streams[At(q, ch)].handed) + (if m.0 == ch then [m.1] else [])
  {
    MsgsAppend(streams[At(q, m.0)].handed, c, m.1);
  }

  lemma AppendAssociates(a: seq<Msg>, b: seq<Msg>, c: seq<Msg>)
    ensures (a + b) + c == a + (b + c)
  {
  }

  lemma ReplayOutside(streams: seq<Stream>, q: Quad, c: ConnId, msgs: seq<(Channel, Msg)>, x: StreamId)
    requires Within(q, |streams|) && x < |streams| && forall ch :: At(q, ch) != x
    ensures Replay(streams, q, c, msgs)[x] == streams[x]
    decreases |msgs|
  {
    if msgs != [] {
      var y := At(q, msgs[0].0);
      ReplayOutside(streams[y := HandOver(streams[y], c, msgs[0].1)], q, c, msgs[1..], x);
    }
  }

  // ---------------------------------------------------------------------
  // Steps
  // ---------------------------------------------------------------------

  lemma ArriveConn(s: State, x: StreamId, m: Msg, c: ConnId)
    requires Sound(s) && x < |s.streams| && Active(s, c) && ConnOk(s, c)
    ensures ConnOk(Arrive(s, x, m), c)
  {
    var t := Arrive(s, x, m);
    var k := s.conns[c];
    var q := k.channels.value;
    forall ch
      ensures k.nudge.None? ==> LiveStream(c, t.streams[At(q, ch)])
      ensures k.nudge.Some? ==> NudgingStream(t, c, k.nudge.value, ch, t.streams[At(q, ch)])
    {
      if At(q, ch) == x {
        AccountArrival(s.streams[x], if k.nudge.None? then [] else Waiting(s, k.nudge.value, ch), m);
      }
    }
  }

  lemma ArriveBuffer(s: State, x: StreamId, m: Msg, b: BufferId)
    requires Sound(s) && x < |s.streams| && BufferOk(s, b)
    ensures BufferOk(Arrive(s, x, m), b)
  {
    var t := Arrive(s, x, m);
    var q := s.buffers[b].channels;
    forall ch
      ensures BufferedStream(t, b, ch, t.streams[At(q, ch)])
    {
      if At(q, ch) == x {
        AccountArrival(s.streams[x], OnChannel(s.buffers[b].messages, ch), m);
      }
    }
  }

  lemma ArriveConserves(s: State, x: StreamId, m: Msg)
    requires Conserved(s) && Enabled(s, DoArrive(x, m))
    ensures Conserved(Arrive(s, x, m))
  {
    var t := Arrive(s, x, m);
    TrafficKeepsInv(s, DoArrive(x, m));
    forall c: nat | Active(t, c) ensures ConnOk(t, c) {
      assert Active(s, c);
      ArriveConn(s, x, m, c);
    }
    if s.buffer.Some? {
      ArriveBuffer(s, x, m, s.buffer.value);
    }
    OthersUnchanged(s, t);
  }

  /** Traffic does not touch the connections themselves. */
  lemma OthersUnchanged(s: State, t: State)
    requires Conserved(s) && t.conns == s.conns && StaysClosed(s.streams, t.streams)
    requires t.bufferOffline == s.bufferOffline && |t.buffers| == |s.buffers|
    ensures forall c: nat, d: nat :: Active(t, c) && Active(t, d) && c != d ==>
      Apart(t.conns[c].channels.value, t.conns[d].channels.value)
    ensures Leftovers(t)
  {
    assert forall c: nat :: Active(t, c) <==> Active(s, c);
  }

  /** Closed streams stay closed, so what is spent stays spent; only connection `c` is to be looked at again. */
  lemma LeftoversKept(s: State, t: State, c: ConnId)
    requires Leftovers(s) && StaysClosed(s.streams, t.streams) && t.bufferOffline == s.bufferOffline
    requires |s.conns| == |t.conns| && forall d: nat :: d < |s.conns| && d != c ==> t.conns[d] == s.conns[d]
    requires c < |t.conns| && !Active(t, c) ==> Spent(t.streams, t.conns[c])
    requires !s.bufferOffline ==> t.buffers == s.buffers
    ensures Leftovers(t)
  {
    assert forall d: nat :: d != c ==> (Active(t, d) <==> Active(s, d));
  }

  lemma AccountArrival(x: Stream, waiting: seq<Msg>, m: Msg)
    requires Accounted(x, waiting)
    ensures Accounted(x.(queue := x.queue + [m], since := x.since + [m]), waiting)
  {
    var y := x.(queue := x.queue + [m], since := x.since + [m]);
    assert Kept(y) == Kept(x) + [m];
    assert Msgs(x.handed) + waiting + (x.queue + [m]) == Msgs(x.handed) + waiting + x.queue + [m];
  }

  lemma AccountHandOver(x: Stream, c: ConnId)
    requires Accounted(x, []) && x.queue != []
    ensures Accounted(HandOver(x.(queue := x.queue[1..]), c, x.queue[0]), [])
  {
    MsgsAppend(x.handed, c, x.queue[0]);
    assert x.queue == [x.queue[0]] + x.queue[1..];
    assert Msgs(x.handed) + [x.queue[0]] + [] + x.queue[1..] == Msgs(x.handed) + [] + x.queue;
  }

  lemma AccountBuffered(x: Stream, waiting: seq<Msg>)
    requires Accounted(x, waiting) && x.queue != []
    ensures Accounted(x.(queue := x.queue[1..]), waiting + [x.queue[0]])
  {
    assert x.queue == [x.queue[0]] + x.queue[1..];
    assert Msgs(x.handed) + (waiting + [x.queue[0]]) + x.queue[1..] == Msgs(x.handed) + waiting + x.queue;
  }

  /** The message that a nudge consumes is the only one to go missing. */
  lemma AccountNudged(x: Stream, waiting: seq<Msg>)
    requires Accounted(x, waiting) && x.queue != [] && x.lost == None && x.channel == Iopub
    ensures |x.queue| <= |x.since|
    ensures Accounted(x.(queue := x.queue[1..], lost := Some(|x.since| - |x.queue|), handler := Off), waiting)
  {
    var before := Msgs(x.handed) + waiting;
    assert x.since == before + x.queue;
    assert x.since[..|before|] == before && x.since[|before| + 1..] == x.queue[1..];
  }

  lemma BufferAppend(s: State, x: StreamId, ch: Channel)
    requires Sound(s) && Enabled(s, DoDeliver(x)) && s.streams[x].handler.ToBuffer?
    ensures var t, b := Deliver(s, x), s.streams[x].handler.buffer;
      OnChannel(t.buffers[b].messages, ch) ==
        OnChannel(s.buffers[b].messages, ch) + (if ch == s.streams[x].channel then [s.streams[x].queue[0]] else [])
  {
    var b := s.streams[x].handler.buffer;
    var msgs := s.buffers[b].messages + [(s.streams[x].channel, s.streams[x].queue[0])];
    assert msgs[..|msgs| - 1] == s.buffers[b].messages;
  }

  /** Delivery on a stream that connection `c` does not have leaves `c` alone. */
  lemma DeliverElsewhere(s: State, x: StreamId, c: ConnId)
    requires Sound(s) && Feeds(s) && Enabled(s, DoDeliver(x)) && Active(s, c) && ConnOk(s, c)
    requires forall ch :: At(s.conns[c].channels.value, ch) != x
    ensures ConnOk(Deliver(s, x), c)
  {
    var t := Deliver(s, x);
    var n := s.conns[c].nudge;
    if n.Some? && n.value.restored.Some? && s.streams[x].handler == ToBuffer(n.value.restored.value) {
      assert false;
    }
    ConnFrame(s, t, c);
  }

  lemma DeliverLive(s: State, x: StreamId, c: ConnId)
    requires Sound(s) && Enabled(s, DoDeliver(x)) && Active(s, c) && ConnOk(s, c) && s.conns[c].nudge.None?
    requires exists ch :: At(s.conns[c].channels.value, ch) == x
    ensures ConnOk(Deliver(s, x), c)
  {
    var t := Deliver(s, x);
    var q := s.conns[c].channels.value;
    forall ch ensures LiveStream(c, t.streams[At(q, ch)]) {
      if At(q, ch) == x {
        AccountHandOver(s.streams[x], c);
      }
    }
  }

  /** Delivery changes neither channels nor which streams are open, nor whose streams a buffer has. */
  lemma DeliverFrame(s: State, x: StreamId, q: Quad)
    requires Sound(s) && Enabled(s, DoDeliver(x)) && Wired(s, q)
    ensures var t := Deliver(s, x);
      Wired(t, q) && t.conns == s.conns && |t.buffers| == |s.buffers| && |t.streams| == |s.streams| &&
      forall b :: 0 <= b < |s.buffers| ==> t.buffers[b].channels == s.buffers[b].channels
  {
  }

  lemma DeliverNudging(s: State, x: StreamId, c: ConnId, xh: Channel)
    requires Sound(s) && Enabled(s, DoDeliver(x)) && Active(s, c) && ConnOk(s, c) && s.conns[c].nudge.Some?
    requires At(s.conns[c].channels.value, xh) == x
    ensures ConnOk(Deliver(s, x), c)
  {
    hide NudgingStream, LiveStream, Accounted;
    var t := Deliver(s, x);
    var q := s.conns[c].channels.value;
    var n := s.conns[c].nudge.value;
    assert s.streams[x].channel == xh && NudgingStream(s, c, n, xh, s.streams[x]);
    DeliverFrame(s, x, q);
    forall ch ensures NudgingStream(t, c, n, ch, t.streams[At(q, ch)]) {
      DeliverNudgingStream(s, x, c, n, xh, ch, At(q, ch));
    }
  }

  lemma DeliverNudgingStream(s: State, x: StreamId, c: ConnId, n: Nudge, xh: Channel, ch: Channel, y: StreamId)
    requires Sound(s) && Enabled(s, DoDeliver(x)) && y < |s.streams| && (y == x <==> ch == xh)
    requires s.streams[x].channel == xh && s.streams[y].channel == ch
    requires n.restored.Some? ==> n.restored.value < |s.buffers|
    requires NudgingStream(s, c, n, xh, s.streams[x]) && NudgingStream(s, c, n, ch, s.streams[y])
    ensures NudgingStream(Deliver(s, x), c, n, ch, Deliver(s, x).streams[y])
  {
    hide Accounted, OnChannel;
    var t := Deliver(s, x);
    if s.streams[x].handler.ToBuffer? {
      BufferAppend(s, x, ch);
      if ch == xh {
        AccountBuffered(s.streams[x], Waiting(s, n, ch));
      } else {
        assert Waiting(t, n, ch) == Waiting(s, n, ch);
      }
    } else if ch == xh {
      assert Waiting(t, n, ch) == Waiting(s, n, ch);
      AccountNudged(s.streams[x], Waiting(s, n, ch));
    }
  }

  lemma DeliverBuffered(s: State, x: StreamId, b: BufferId)
    requires Sound(s) && Feeds(s) && Enabled(s, DoDeliver(x)) && BufferOk(s, b)
    ensures BufferOk(Deliver(s, x), b)
  {
    hide Accounted, OnChannel, Kept, Msgs;
    var t := Deliver(s, x);
    var q := s.buffers[b].channels;
    assert t.buffers[b].channels == q;
    forall ch ensures BufferedStream(t, b, ch, t.streams[At(q, ch)]) {
      assert BufferedStream(s, b, ch, s.streams[At(q, ch)]);
      DeliverBufferedStream(s, x, b, ch, At(q, ch));
    }
    assert Wired(t, q);
  }

  lemma DeliverBufferedStream(s: State, x: StreamId, b: BufferId, ch: Channel, y: StreamId)
    requires Sound(s) && Enabled(s, DoDeliver(x)) && y < |s.streams| && b < |s.buffers|
    requires BufferedStream(s, b, ch, s.streams[y]) && s.streams[y].channel == ch
    requires s.streams[x].handler == ToBuffer(b) && y != x ==> s.streams[x].channel != ch
    ensures BufferedStream(Deliver(s, x), b, ch, Deliver(s, x).streams[y])
  {
    var t := Deliver(s, x);
    if s.streams[x].handler == ToBuffer(b) {
      BufferAppend(s, x, ch);
      if y == x {
        AccountBuffered(s.streams[x], OnChannel(s.buffers[b].messages, ch));
      } else {
        assert OnChannel(t.buffers[b].messages, ch) == OnChannel(s.buffers[b].messages, ch);
      }
    }
  }

  lemma DeliverConserves(s: State, x: StreamId)
    requires Conserved(s) && Enabled(s, DoDeliver(x))
    ensures Conserved(Deliver(s, x))
  {
    hide NudgingStream, LiveStream, BufferedStream, Accounted, Wired;
    var t := Deliver(s, x);
    TrafficKeepsInv(s, DoDeliver(x));
    forall c: nat | Active(t, c) ensures ConnOk(t, c) {
      assert Active(s, c);
      if ch :| At(s.conns[c].channels.value, ch) == x {
        if s.conns[c].nudge.None? {
          DeliverLive(s, x, c);
        } else {
          DeliverNudging(s, x, c, ch);
        }
      } else {
        DeliverElsewhere(s, x, c);
      }
    }
    if s.buffer.Some? {
      DeliverBuffered(s, x, s.buffer.value);
    }
    OthersUnchanged(s, t);
  }

  lemma RegisterConserves(s: State, key: string)
    requires Conserved(s)
    ensures Conserved(AfterRegister(s, key))
  {
    hide NudgingStream, LiveStream, BufferedStream, Accounted, Inv, Feeds, Wired;
    var t := AfterRegister(s, key);
    RegisterKeepsInv(s, key);
    forall c: nat | Active(t, c) ensures Active(s, c) && t.conns[c] == s.conns[c] && ConnOk(t, c) {
      ConnFrame(s, t, c);
    }
    assert forall c: nat :: c < |s.conns| ==> t.conns[c] == s.conns[c];
    assert Leftovers(t);
    if s.buffer.Some? {
      SameBufferOk(s, t, s.buffer.value);
    }
    SameFeeds(s, t);
  }

  /** Nobody is connected while messages are being buffered. */
  lemma NobodyWhileBuffering(s: State)
    requires Inv(s) && s.buffer.Some?
    ensures forall c: nat :: !Active(s, c)
  {
    forall c: nat ensures !Active(s, c) {
      if Active(s, c) {
        CountOpenPositive(s.conns, c);
      }
    }
  }

  lemma RestoredStream(s: State, b: BufferId, ch: Channel, x: Stream, c: ConnId, busy: bool, t: State, iopub: StreamId)
    requires b < |s.buffers| && BufferedStream(s, b, ch, x) && t.buffers == s.buffers && !x.closed
    ensures NudgingStream(t, c, Nudge(iopub, Some(b), busy), ch,
                          if !busy && ch == Iopub then Touch(x, Listen(ToNudge(c))) else x)
  {
  }

  lemma RestoreConserves(s: State, c: ConnId, busy: bool)
    requires Conserved(s) && Enabled(s, DoConnect(c, busy))
    requires s.buffer.Some? && s.buffers[s.buffer.value].key == s.conns[c].key
    ensures Conserved(AfterConnect(s, c, busy))
  {
    hide NudgingStream, LiveStream, BufferedStream, Accounted, Spent, Leftovers;
    var t := AfterConnect(s, c, busy);
    var b := s.buffer.value;
    var q := s.buffers[b].channels;
    ConnectKeepsInv(s, c, busy);
    NobodyWhileBuffering(s);
    assert t.buffers == s.buffers && t.conns[c].channels == Some(q) &&
        t.conns[c].nudge == Some(Nudge(q.iopub, Some(b), busy));
    assert t.streams == if busy then s.streams else TouchAll(s.streams, [q.iopub], Listen(ToNudge(c)));
    forall x: nat | x < |s.streams|
      ensures t.streams[x] == if !busy && x == q.iopub then Touch(s.streams[x], Listen(ToNudge(c))) else s.streams[x]
    {
      TouchAllEffect(s.streams, [q.iopub], Listen(ToNudge(c)), x);
    }
    forall ch ensures NudgingStream(t, c, t.conns[c].nudge.value, ch, t.streams[At(q, ch)]) {
      assert BufferedStream(s, b, ch, s.streams[At(q, ch)]);
      assert ch == Iopub <==> At(q, ch) == At(q, Iopub);
      RestoredStream(s, b, ch, s.streams[At(q, ch)], c, busy, t, q.iopub);
    }
    assert Wired(t, q);
    assert StaysClosed(s.streams, t.streams);
    LeftoversKept(s, t, c);
    assert forall d: nat :: Active(t, d) <==> d == c;
  }

  lemma FreshStreams(s: State, c: ConnId, busy: bool, t: State, q: Quad, x: StreamId)
    requires t.streams == if busy then s.streams + [Fresh(Iopub), Fresh(Shell), Fresh(Control), Fresh(Stdin)]
      else TouchAll(s.streams + [Fresh(Iopub), Fresh(Shell), Fresh(Control), Fresh(Stdin)],
        [|s.streams|], Listen(ToNudge(c)))
    requires q == Quad(|s.streams|, |s.streams| + 1, |s.streams| + 2, |s.streams| + 3) && x < |t.streams|
    ensures x < |s.streams| ==> t.streams[x] == s.streams[x]
    ensures x == q.iopub ==> t.streams[x] == if busy then Fresh(Iopub) else Fresh(Iopub).(handler := ToNudge(c))
    ensures x == q.shell ==> t.streams[x] == Fresh(Shell)
    ensures x == q.control ==> t.streams[x] == Fresh(Control)
    ensures x == q.stdin ==> t.streams[x] == Fresh(Stdin)
  {
    var grown := s.streams + [Fresh(Iopub), Fresh(Shell), Fresh(Control), Fresh(Stdin)];
    TouchAllEffect(grown, [q.iopub], Listen(ToNudge(c)), x);
  }

  lemma FreshStreamNudging(t: State, c: ConnId, ch: Channel, busy: bool, iopub: StreamId)
    ensures NudgingStream(t, c, Nudge(iopub, None, busy), ch,
                          if !busy && ch == Iopub then Fresh(ch).(handler := ToNudge(c)) else Fresh(ch))
  {
  }

  /** A connect without a buffer to restore: four new streams, and the old ones untouched. */
  lemma ConnectFreshStreams(s: State, c: ConnId, busy: bool, t: State, q: Quad)
    requires Sound(s) && Feeds(s) && c < |s.conns| && s.buffer.None? && t == AfterConnect(s, c, busy)
    requires q == Quad(|s.streams|, |s.streams| + 1, |s.streams| + 2, |s.streams| + 3)
    ensures t.conns == s.conns[c := s.conns[c].(connected := true, channels := Some(q),
        nudge := Some(Nudge(|s.streams|, None, busy)))]
    ensures t.buffers == s.buffers && t.buffer == None && |s.streams| <= |t.streams| && Wired(t, q) && Feeds(t)
    ensures forall x: nat :: x < |s.streams| ==> t.streams[x] == s.streams[x]
    ensures forall ch :: NudgingStream(t, c, Nudge(|s.streams|, None, busy), ch, t.streams[At(q, ch)])
  {
    hide NudgingStream;
    forall x: nat | x < |t.streams|
      ensures x < |s.streams| ==> t.streams[x] == s.streams[x]
      ensures |s.streams| <= x ==> !t.streams[x].handler.ToBuffer?
    {
      FreshStreams(s, c, busy, t, q, x);
    }
    forall ch
      ensures t.streams[At(q, ch)].channel == ch && !t.streams[At(q, ch)].closed
      ensures NudgingStream(t, c, Nudge(|s.streams|, None, busy), ch, t.streams[At(q, ch)])
    {
      FreshStreams(s, c, busy, t, q, At(q, ch));
      FreshStreamNudging(t, c, ch, busy, |s.streams|);
    }
  }

  lemma ConnectFresh(s: State, c: ConnId, busy: bool, t: State)
    requires Conserved(s) && Enabled(s, DoConnect(c, busy)) && s.buffer.None?
    requires t == AfterConnect(s, c, busy)
    ensures Conserved(t)
  {
    assert Inv(s) && Sound(s) && Feeds(s) && !Active(s, c);
    hide *;
    var q := Quad(|s.streams|, |s.streams| + 1, |s.streams| + 2, |s.streams| + 3);
    ConnectKeepsInv(s, c, busy);
    ConnectFreshStreams(s, c, busy, t, q);
    ConnectFreshConns(s, c, t, q, busy);
    FreshApart(s, c, t, q);
    FreshLeftovers(s, c, t);
    AllConserved(t);
  }

  lemma AllConserved(t: State)
    requires Inv(t) && t.buffer == None && Feeds(t)
    requires forall c: nat :: Active(t, c) ==> ConnOk(t, c)
    requires forall c: nat, d: nat :: Active(t, c) && Active(t, d) && c != d ==>
      t.conns[c].channels.Some? && t.conns[d].channels.Some? &&
        Apart(t.conns[c].channels.value, t.conns[d].channels.value)
    requires Leftovers(t)
    ensures Conserved(t)
  {
    hide ConnOk, Inv, Feeds, Apart;
  }

  lemma FreshLeftovers(s: State, c: ConnId, t: State)
    requires Conserved(s) && c < |s.conns| == |t.conns| && t.conns == s.conns[c := t.conns[c]] && Active(t, c)
    requires |s.streams| <= |t.streams| && forall x: nat :: x < |s.streams| ==> t.streams[x] == s.streams[x]
    requires t.buffers == s.buffers && t.bufferOffline == s.bufferOffline
    ensures Leftovers(t)
  {
    assert StaysClosed(s.streams, t.streams);
    LeftoversKept(s, t, c);
  }

  lemma ConnectFreshConns(s: State, c: ConnId, t: State, q: Quad, busy: bool)
    requires Conserved(s) && c < |s.conns| == |t.conns| && !Active(s, c)
    requires t.conns == s.conns[c := s.conns[c].(connected := true, channels := Some(q),
        nudge := Some(Nudge(q.iopub, None, busy)))]
    requires |s.streams| <= |t.streams| && t.buffers == s.buffers && Wired(t, q)
    requires forall x: nat :: x < |s.streams| ==> t.streams[x] == s.streams[x]
    requires forall ch :: NudgingStream(t, c, Nudge(q.iopub, None, busy), ch, t.streams[At(q, ch)])
    ensures forall d: nat :: Active(t, d) ==> ConnOk(t, d)
  {
    hide NudgingStream, LiveStream, BufferedStream, Accounted, Inv, Feeds, Apart;
    forall d: nat | Active(t, d) ensures ConnOk(t, d) {
      if d != c {
        assert Active(s, d) && t.conns[d] == s.conns[d];
        FreshOther(s, c, d, t);
      }
    }
  }

  lemma FreshOther(s: State, c: ConnId, d: ConnId, t: State)
    requires Active(s, d) && ConnOk(s, d) && Active(t, d) && t.conns[d] == s.conns[d] && |s.streams| <= |t.streams|
    requires t.buffers == s.buffers
    requires forall x: nat :: x < |s.streams| ==> t.streams[x] == s.streams[x]
    ensures ConnOk(t, d)
  {
    hide NudgingStream, LiveStream, BufferedStream, Accounted;
    assert forall ch :: At(s.conns[d].channels.value, ch) < |s.streams|;
    ConnFrame(s, t, d);
  }

  lemma FreshApart(s: State, c: ConnId, t: State, q: Quad)
    requires Conserved(s) && c < |s.conns| == |t.conns| && t.conns == s.conns[c := t.conns[c]] &&
        t.conns[c].channels == Some(q)
    requires q == Quad(|s.streams|, |s.streams| + 1, |s.streams| + 2, |s.streams| + 3)
    ensures forall d: nat, e: nat :: Active(t, d) && Active(t, e) && d != e ==>
      t.conns[d].channels.Some? && t.conns[e].channels.Some? &&
        Apart(t.conns[d].channels.value, t.conns[e].channels.value)
  {
    hide NudgingStream, LiveStream, BufferedStream, Accounted;
    forall d: nat | Active(t, d) && d != c
      ensures Active(s, d) && t.conns[d] == s.conns[d] && t.conns[d].channels.Some? &&
          forall ch :: At(t.conns[d].channels.value, ch) < |s.streams|
    {
      assert Active(s, d) && ConnOk(s, d);
    }
  }

  /** Discarding a buffer closes its streams, which nobody else has. */
  lemma DiscardConserves(s: State)
    requires Conserved(s) && s.buffer.Some?
    ensures Conserved(AfterStopBuffering(s)) && AfterStopBuffering(s).buffer.None?
    ensures AfterStopBuffering(s).conns == s.conns
  {
    var t := AfterStopBuffering(s);
    var q := s.buffers[s.buffer.value].channels;
    NobodyWhileBuffering(s);
    TouchAllSound(s, Ids(q), Shut);
    assert forall c: nat :: Active(t, c) <==> Active(s, c);
    forall x: nat | x < |s.streams|
      ensures t.streams[x] == s.streams[x] || t.streams[x] == Touch(s.streams[x], Shut)
    {
      TouchAllEffect(s.streams, Ids(q), Shut, x);
    }
    assert Feeds(t);
  }

  lemma ConnectConserves(s: State, c: ConnId, busy: bool)
    requires Conserved(s) && Enabled(s, DoConnect(c, busy))
    ensures Conserved(AfterConnect(s, c, busy))
  {
    if s.buffer.None? {
      ConnectFresh(s, c, busy, AfterConnect(s, c, busy));
    } else if s.buffers[s.buffer.value].key == s.conns[c].key {
      RestoreConserves(s, c, busy);
    } else {
      DiscardConserves(s);
      ConnectFresh(AfterStopBuffering(s), c, busy, AfterConnect(s, c, busy));
    }
  }

  /** The streams after the nudge's cleanup. */
  function Cleaned(s: State, n: Nudge): (r: seq<Stream>)
    requires n.iopub < |s.streams|
    ensures |r| == |s.streams|
  {
    if n.busy then s.streams else TouchAll(s.streams, [n.iopub], Listen(Off))
  }

  function ToReplay(s: State, n: Nudge): seq<(Channel, Msg)> {
    if n.restored.Some? && n.restored.value < |s.buffers| then s.buffers[n.restored.value].messages else []
  }

  lemma NudgeShape(s: State, c: ConnId)
    requires Conserved(s) && Enabled(s, DoFinishNudge(c)) && Active(s, c)
    ensures Active(s, c) && ConnOk(s, c)
    ensures var q, n := s.conns[c].channels.value, s.conns[c].nudge.value;
      AfterNudge(s, c).streams == TouchAll(Replay(Cleaned(s, n), q, c, ToReplay(s, n)), Ids(q), Listen(ToWeb(c)))
  {
    hide NudgingStream, LiveStream, BufferedStream, Accounted;
    assert Active(s, c) && ConnOk(s, c);
  }

  lemma NudgeStreams(s: State, c: ConnId, x: StreamId)
    requires Conserved(s) && Enabled(s, DoFinishNudge(c)) && Active(s, c) && x < |s.streams|
    ensures var q := s.conns[c].channels.value;
      (x !in Ids(q) ==> AfterNudge(s, c).streams[x] == s.streams[x])
  {
    hide NudgingStream, LiveStream, BufferedStream, Accounted;
    NudgeShape(s, c);
    var q, n := s.conns[c].channels.value, s.conns[c].nudge.value;
    QuadInIds(q, x);
    if x !in Ids(q) {
      TouchAllEffect(s.streams, [n.iopub], Listen(Off), x);
      ReplayOutside(Cleaned(s, n), q, c, ToReplay(s, n), x);
      TouchAllEffect(Replay(Cleaned(s, n), q, c, ToReplay(s, n)), Ids(q), Listen(ToWeb(c)), x);
    }
  }

  /** Replaying and subscribing make a nudging stream live. */
  lemma GoesLive(a: seq<Stream>, q: Quad, c: ConnId, msgs: seq<(Channel, Msg)>, ch: Channel)
    requires Within(q, |a|) && forall eh, dh :: eh != dh ==> At(q, eh) != At(q, dh)
    requires var x := a[At(q, ch)];
      x.handed == [] && Accounted(x, OnChannel(msgs, ch)) && x.channel == ch && !x.closed
    ensures var y := TouchAll(Replay(a, q, c, msgs), Ids(q), Listen(ToWeb(c)))[At(q, ch)];
      LiveStream(c, y) && y.channel == ch && !y.closed
  {
    ReplayEffect(a, q, c, msgs, ch);
    ReplayFrame(a, q, c, msgs, At(q, ch));
    ReplayBy(a, q, c, msgs, At(q, ch));
    AccountReplay(a[At(q, ch)], Replay(a, q, c, msgs)[At(q, ch)], OnChannel(msgs, ch));
    QuadInIds(q, At(q, ch));
    SubscribeEffect(Replay(a, q, c, msgs), q, c, At(q, ch));
  }

  lemma AccountReplay(x: Stream, r: Stream, waiting: seq<Msg>)
    requires Accounted(x, waiting) && x.handed == []
    requires r.(handed := []) == x && Msgs(r.handed) == Msgs(x.handed) + waiting
    ensures Accounted(r, [])
  {
    assert Kept(r) == Kept(x);
    assert Msgs(r.handed) + [] + r.queue == Msgs(x.handed) + waiting + x.queue;
  }

  lemma SubscribeEffect(streams: seq<Stream>, q: Quad, c: ConnId, x: StreamId)
    requires Within(q, |streams|) && x < |streams| && x in Ids(q) && !streams[x].closed
    requires Accounted(streams[x], []) && AllBy(streams[x].handed, c)
    ensures var y := TouchAll(streams, Ids(q), Listen(ToWeb(c)))[x];
      LiveStream(c, y) && y.channel == streams[x].channel && !y.closed
  {
    TouchAllEffect(streams, Ids(q), Listen(ToWeb(c)), x);
  }

  lemma NudgeGoesLive(s: State, c: ConnId, ch: Channel)
    requires Conserved(s) && Enabled(s, DoFinishNudge(c)) && Active(s, c)
    ensures var q, t := s.conns[c].channels.value, AfterNudge(s, c);
      LiveStream(c, t.streams[At(q, ch)]) && t.streams[At(q, ch)].channel == ch && !t.streams[At(q, ch)].closed
  {
    hide LiveStream, BufferedStream, NudgingStream;
    NudgeShape(s, c);
    var q, n := s.conns[c].channels.value, s.conns[c].nudge.value;
    var x := s.streams[At(q, ch)];
    assert NudgingStream(s, c, n, ch, x);
    TouchAllEffect(s.streams, [n.iopub], Listen(Off), At(q, ch));
    CleanedStream(s, c, n, ch, x, Cleaned(s, n)[At(q, ch)]);
    GoesLive(Cleaned(s, n), q, c, ToReplay(s, n), ch);
  }

  lemma CleanedStream(s: State, c: ConnId, n: Nudge, ch: Channel, x: Stream, y: Stream)
    requires NudgingStream(s, c, n, ch, x) && y.(handler := Off) == x.(handler := Off)
    ensures y.handed == [] && Accounted(y, OnChannel(ToReplay(s, n), ch))
  {
    assert Kept(y) == Kept(x);
  }

  lemma NudgeOther(s: State, c: ConnId, d: ConnId)
    requires Conserved(s) && Enabled(s, DoFinishNudge(c)) && Active(s, c) && d != c && Active(s, d)
    ensures Active(AfterNudge(s, c), d) && ConnOk(AfterNudge(s, c), d)
  {
    hide NudgingStream, LiveStream, BufferedStream, Accounted;
    var t := AfterNudge(s, c);
    assert Active(s, c) && ConnOk(s, c) && ConnOk(s, d);
    var q, r := s.conns[c].channels.value, s.conns[d].channels.value;
    assert Apart(q, r);
    forall ch ensures t.streams[At(r, ch)] == s.streams[At(r, ch)] {
      QuadInIds(q, At(r, ch));
      NudgeStreams(s, c, At(r, ch));
    }
    ConnFrame(s, t, d);
  }

  lemma NudgeFeeds(s: State, c: ConnId)
    requires Conserved(s) && Enabled(s, DoFinishNudge(c)) && Active(s, c)
    ensures Feeds(AfterNudge(s, c))
  {
    var t := AfterNudge(s, c);
    assert Active(s, c) && ConnOk(s, c);
    var q := s.conns[c].channels.value;
    forall x: nat | x < |t.streams|
      ensures t.streams[x] == s.streams[x] || !t.streams[x].handler.ToBuffer?
    {
      QuadInIds(q, x);
      NudgeStreams(s, c, x);
      if ch :| At(q, ch) == x {
        NudgeGoesLive(s, c, ch);
      }
    }
  }

  lemma NudgeKeepsClosed(s: State, c: ConnId)
    requires Sound(s) && Enabled(s, DoFinishNudge(c))
    ensures StaysClosed(s.streams, AfterNudge(s, c).streams)
  {
    var k := s.conns[c];
    var n := k.nudge.value;
    forall x: nat | x < |s.streams| && s.streams[x].closed ensures AfterNudge(s, c).streams[x].closed {
      TouchAllEffect(s.streams, [n.iopub], Listen(Off), x);
      if k.channels.Some? {
        var q := k.channels.value;
        ReplayFrame(Cleaned(s, n), q, c, ToReplay(s, n), x);
        TouchAllEffect(Cleaned(s, n), Ids(q), Listen(ToWeb(c)), x);
        TouchAllEffect(Replay(Cleaned(s, n), q, c, ToReplay(s, n)), Ids(q), Listen(ToWeb(c)), x);
      }
    }
  }

  lemma NudgedIsLive(s: State, c: ConnId)
    requires Conserved(s) && Enabled(s, DoFinishNudge(c)) && Active(s, c)
    ensures var t := AfterNudge(s, c);
      t.conns == s.conns[c := s.conns[c].(nudge := None)] && Active(t, c) && ConnOk(t, c)
  {
    hide NudgingStream, LiveStream, BufferedStream, Accounted, Leftovers, Feeds, Apart;
    var t := AfterNudge(s, c);
    assert ConnOk(s, c);
    var q := s.conns[c].channels.value;
    forall ch
      ensures At(q, ch) < |t.streams|
      ensures LiveStream(c, t.streams[At(q, ch)])
      ensures t.streams[At(q, ch)].channel == ch && !t.streams[At(q, ch)].closed
    {
      NudgeKeepsClosed(s, c);
      NudgeGoesLive(s, c, ch);
    }
    assert Wired(t, q);
  }

  lemma PendingNudgeConserves(s: State, c: ConnId)
    requires Conserved(s) && Enabled(s, DoFinishNudge(c)) && Active(s, c)
    ensures Conserved(AfterNudge(s, c))
  {
    var t := AfterNudge(s, c);
    NudgeKeepsInv(s, c);
    NoBufferWhileOpen(s, c);
    NudgeFeeds(s, c);
    NudgeKeepsClosed(s, c);
    NudgedIsLive(s, c);
    hide ConnOk, Inv, Feeds, Spent, Apart;
    LeftoversKept(s, t, c);
    forall d: nat | Active(t, d) ensures Active(s, d) && ConnOk(t, d) && t.conns[d].channels == s.conns[d].channels {
      if d != c {
        NudgeOther(s, c, d);
      }
    }
    SameChannelsApart(s, t);
  }

  lemma SameChannelsApart(s: State, t: State)
    requires Conserved(s)
    requires forall d: nat :: Active(t, d) ==> Active(s, d) && t.conns[d].channels == s.conns[d].channels
    ensures forall d: nat, e: nat :: Active(t, d) && Active(t, e) && d != e ==>
      && t.conns[d].channels.Some? && t.conns[e].channels.Some?
      && Apart(t.conns[d].channels.value, t.conns[e].channels.value)
  {
    hide Inv, Feeds, Spent, Apart, Wired, NudgingStream, LiveStream;
  }

  /** The callbacks of a nudge whose connection is gone change no stream. */
  lemma SpentNudgeIsHarmless(s: State, c: ConnId)
    requires Conserved(s) && Enabled(s, DoFinishNudge(c)) && !Active(s, c)
    ensures AfterNudge(s, c) == s.(conns := s.conns[c := s.conns[c].(nudge := None)])
  {
    var k := s.conns[c];
    var n := k.nudge.value;
    assert Spent(s.streams, k);
    forall x: nat | x < |s.streams| ensures TouchAll(s.streams, [n.iopub], Listen(Off))[x] == s.streams[x] {
      TouchAllEffect(s.streams, [n.iopub], Listen(Off), x);
    }
    assert TouchAll(s.streams, [n.iopub], Listen(Off)) == s.streams;
    if k.channels.Some? {
      var q := k.channels.value;
      forall x: nat | x < |s.streams| ensures TouchAll(s.streams, Ids(q), Listen(ToWeb(c)))[x] == s.streams[x] {
        TouchAllEffect(s.streams, Ids(q), Listen(ToWeb(c)), x);
        QuadInIds(q, x);
      }
      assert TouchAll(s.streams, Ids(q), Listen(ToWeb(c))) == s.streams;
    }
  }

  lemma SpentNudgeConserves(s: State, c: ConnId, t: State)
    requires Conserved(s) && c < |s.conns| && !Active(s, c) && Inv(t)
    requires t == s.(conns := s.conns[c := s.conns[c].(nudge := None)])
    ensures Conserved(t)
  {
    hide NudgingStream, LiveStream, BufferedStream, Accounted, Inv, Feeds, Wired;
    LeftoversKept(s, t, c);
    assert forall d: nat :: Active(t, d) <==> Active(s, d);
    forall d: nat | Active(t, d) ensures ConnOk(t, d) {
      SameConnOk(s, t, d);
    }
    if s.buffer.Some? {
      SameBufferOk(s, t, s.buffer.value);
    }
    SameFeeds(s, t);
  }

  lemma SameConnOk(s: State, t: State, d: ConnId)
    requires Active(s, d) && ConnOk(s, d) && Active(t, d) && t.conns[d] == s.conns[d]
    requires t.streams == s.streams && t.buffers == s.buffers
    ensures ConnOk(t, d)
  {
    ConnFrame(s, t, d);
  }

  lemma SameBufferOk(s: State, t: State, b: BufferId)
    requires BufferOk(s, b) && t.streams == s.streams && t.buffers == s.buffers
    ensures BufferOk(t, b)
  {
  }

  lemma SameFeeds(s: State, t: State)
    requires Feeds(s) && t.streams == s.streams && t.buffers == s.buffers
    ensures Feeds(t)
  {
  }

  lemma NudgeConserves(s: State, c: ConnId)
    requires Conserved(s) && Enabled(s, DoFinishNudge(c))
    ensures Conserved(AfterNudge(s, c))
  {
    if Active(s, c) {
      PendingNudgeConserves(s, c);
    } else {
      SpentNudgeIsHarmless(s, c);
      NudgeKeepsInv(s, c);
      SpentNudgeConserves(s, c, AfterNudge(s, c));
    }
  }

  lemma DisconnectStreams(s: State, c: ConnId, x: StreamId)
    requires Conserved(s) && Active(s, c) && x < |s.streams|
    ensures var q, t := s.conns[c].channels.value, AfterDisconnect(s, c);
      t.streams[x] ==
        if x !in Ids(q) then s.streams[x]
        else if s.connections == 1 && s.bufferOffline then Touch(s.streams[x], Buffering(|s.buffers|))
        else Touch(s.streams[x], Shut)
  {
    var q := s.conns[c].channels.value;
    NoBufferWhileOpen(s, c);
    TouchAllEffect(s.streams, Ids(q), Shut, x);
    TouchAllEffect(s.streams, Ids(q), Buffering(|s.buffers|), x);
  }

  lemma DetachBuffers(s: State, c: ConnId, t: State)
    requires Conserved(s) && Active(s, c) && s.connections == 1 && s.bufferOffline
    requires t == AfterDisconnect(s, c)
    ensures t.buffer == Some(|s.buffers|) &&
        t.buffers == s.buffers + [BufferInfo(s.conns[c].key, [], s.conns[c].channels.value)]
    ensures BufferOk(t, |s.buffers|)
  {
    var q := s.conns[c].channels.value;
    NoBufferWhileOpen(s, c);
    assert ConnOk(s, c);
    forall ch
      ensures BufferedStream(t, |s.buffers|, ch, t.streams[At(q, ch)])
      ensures t.streams[At(q, ch)].channel == ch && !t.streams[At(q, ch)].closed
    {
      DisconnectStreams(s, c, At(q, ch));
      QuadInIds(q, At(q, ch));
    }
  }

  lemma OnlyOneOpen(s: State, c: ConnId, d: ConnId)
    requires Counts(s) && s.connections == 1 && Active(s, c) && Active(s, d)
    ensures c == d
  {
    if c != d {
      var k := s.conns[c].(disconnected := true);
      CountOpenUpdate(s.conns, c, k);
      CountOpenPositive(s.conns[c := k], d);
    }
  }

  lemma DisconnectOther(s: State, c: ConnId, d: ConnId)
    requires Conserved(s) && Active(s, c) && Active(s, d) && d != c
    ensures s.connections != 1 && Active(AfterDisconnect(s, c), d) && ConnOk(AfterDisconnect(s, c), d)
  {
    hide NudgingStream, LiveStream, BufferedStream, Accounted;
    var t := AfterDisconnect(s, c);
    if s.connections == 1 {
      OnlyOneOpen(s, c, d);
    }
    assert ConnOk(s, c) && ConnOk(s, d);
    var q, r := s.conns[c].channels.value, s.conns[d].channels.value;
    assert Apart(q, r);
    forall ch ensures t.streams[At(r, ch)] == s.streams[At(r, ch)] {
      DisconnectStreams(s, c, At(r, ch));
      QuadInIds(q, At(r, ch));
    }
    NoBufferWhileOpen(s, c);
    ConnFrame(s, t, d);
  }

  lemma DisconnectFeeds(s: State, c: ConnId)
    requires Conserved(s) && Active(s, c)
    ensures Feeds(AfterDisconnect(s, c))
  {
    var t := AfterDisconnect(s, c);
    var q := s.conns[c].channels.value;
    NoBufferWhileOpen(s, c);
    assert ConnOk(s, c);
    if s.connections == 1 && s.bufferOffline {
      DetachBuffers(s, c, t);
    }
    forall x: nat | x < |t.streams| && t.streams[x].handler.ToBuffer?
      ensures t.streams[x].handler.buffer < |t.buffers|
      ensures At(t.buffers[t.streams[x].handler.buffer].channels, t.streams[x].channel) == x
    {
      DisconnectStreams(s, c, x);
      QuadInIds(q, x);
      if x in Ids(q) {
        var ch :| At(q, ch) == x;
        assert s.streams[x].channel == ch;
      }
    }
  }

  lemma DisconnectKeepsClosed(s: State, c: ConnId)
    requires Conserved(s) && Active(s, c)
    ensures StaysClosed(s.streams, AfterDisconnect(s, c).streams)
  {
    forall x: nat | x < |s.streams| ensures s.streams[x].closed ==> AfterDisconnect(s, c).streams[x].closed {
      DisconnectStreams(s, c, x);
    }
  }

  /** Anybody but the last to leave while messages are buffered leaves only closed streams to its callbacks. */
  lemma LeaverIsSpent(s: State, c: ConnId)
    requires Conserved(s) && Active(s, c) && !(s.connections == 1 && s.bufferOffline)
    ensures Spent(AfterDisconnect(s, c).streams, AfterDisconnect(s, c).conns[c])
  {
    assert Sound(s);
    hide NudgingStream, LiveStream, Accounted, Inv, Feeds, Apart;
    var t := AfterDisconnect(s, c);
    var k := s.conns[c];
    assert ConnOk(s, c) && Leftovers(s);
    var q := k.channels.value;
    forall ch ensures t.streams[At(q, ch)].closed {
      QuadInIds(q, At(q, ch));
      DisconnectStreams(s, c, At(q, ch));
    }
    assert q.iopub == At(q, Iopub);
  }

  lemma DisconnectLeftovers(s: State, c: ConnId)
    requires Conserved(s) && Enabled(s, DoDisconnect(c)) && Waits(s, DoDisconnect(c))
    ensures Leftovers(AfterDisconnect(s, c))
  {
    var t := AfterDisconnect(s, c);
    NoBufferWhileOpen(s, c);
    DisconnectKeepsClosed(s, c);
    if !(s.connections == 1 && s.bufferOffline) {
      LeaverIsSpent(s, c);
    }
    hide ConnOk, Inv, Feeds, Apart, BufferOk;
    assert t.conns == s.conns[c := t.conns[c]];
    LeftoversKept(s, t, c);
  }

  lemma DisconnectConserves(s: State, c: ConnId)
    requires Conserved(s) && Enabled(s, DoDisconnect(c)) && Waits(s, DoDisconnect(c))
    ensures Conserved(AfterDisconnect(s, c))
  {
    hide NudgingStream, LiveStream, BufferedStream, Accounted, Leftovers;
    DisconnectLeftovers(s, c);
    var t := AfterDisconnect(s, c);
    DisconnectKeepsInv(s, c);
    DisconnectFeeds(s, c);
    NoBufferWhileOpen(s, c);
    forall d: nat | Active(t, d) ensures d != c && Active(s, d) && ConnOk(t, d) && t.conns[d] == s.conns[d] {
      DisconnectOther(s, c, d);
    }
    if s.connections == 1 && s.bufferOffline {
      DetachBuffers(s, c, t);
    }
  }

  lemma StepConserves(s: State, step: Step)
    requires Conserved(s) && Enabled(s, step) && Waits(s, step)
    ensures Conserved(Next(s, step))
  {
    match step
    case DoRegister(key) => RegisterConserves(s, key);
    case DoConnect(c, busy) => ConnectConserves(s, c, busy);
    case DoFinishNudge(c) => NudgeConserves(s, c);
    case DoDisconnect(c) => DisconnectConserves(s, c);
    case DoArrive(x, m) => ArriveConserves(s, x, m);
    case DoDeliver(x) => DeliverConserves(s, x);
  }

  lemma {:induction false} PatientRunsKeepConserving(from: State, run: seq<Step>, s: State)
    requires Conserved(from) && Leads(from, true, run, s)
    ensures Conserved(s)
    decreases |run|
  {
    hide Conserved, Sound, Enabled, Next;
    if run != [] {
      var front, step := run[..|run| - 1], run[|run| - 1];
      var p: State :| Leads(from, true, front, p) && Sound(p) && Enabled(p, step) &&
          Waits(p, step) && s == Next(p, step);
      PatientRunsKeepConserving(from, front, p);
      StepConserves(p, step);
    }
  }

  lemma PatientRunsConserve(bufferOffline: bool, run: seq<Step>, s: State)
    requires Reaches(bufferOffline, true, run, s)
    ensures Conserved(s)
  {
    assert Conserved(Init(bufferOffline));
    hide Conserved;
    PatientRunsKeepConserving(Init(bufferOffline), run, s);
  }

  ghost predicate AllButOne(got: seq<Msg>, all: seq<Msg>) {
    exists i :: 0 <= i < |all| && got == all[..i] + all[i + 1..]
  }

  /**
    Reconnect conservation.  In every interleaving in which the last connection
    to leave, if messages are to be buffered, has waited for its nudge, take a connection whose nudge is complete and
    one of its channels.  What has been handed to that connection (replayed
    first, live after), together with what is still queued for it, is exactly
    what arrived since the stream was detached from its last client, in order
    and without repetition; on iopub at most one message is missing.
   */
  lemma ReconnectConserves(bufferOffline: bool, run: seq<Step>, s: State, c: ConnId, ch: Channel)
    requires Reaches(bufferOffline, true, run, s) && Active(s, c) && s.conns[c].nudge.None?
    ensures s.conns[c].channels.Some? && InRange(s, s.conns[c].channels.value)
    ensures var x := s.streams[At(s.conns[c].channels.value, ch)];
      && AllBy(x.handed, c)
      && (Msgs(x.handed) + x.queue == x.since || (ch == Iopub && AllButOne(Msgs(x.handed) + x.queue, x.since)))
  {
    PatientRunsConserve(bufferOffline, run, s);
    assert ConnOk(s, c);
    LiveStreamComplete(c, s.streams[At(s.conns[c].channels.value, ch)]);
  }

  lemma LiveStreamComplete(c: ConnId, x: Stream)
    requires LiveStream(c, x)
    ensures Msgs(x.handed) + x.queue == x.since || (x.channel == Iopub && AllButOne(Msgs(x.handed) + x.queue, x.since))
  {
    assert Msgs(x.handed) + [] + x.queue == Msgs(x.handed) + x.queue;
  }

  /** And while nobody is connected, everything since the detach is in the buffer or still queued. */
  lemma BufferHoldsEverything(bufferOffline: bool, run: seq<Step>, s: State, ch: Channel)
    requires Reaches(bufferOffline, true, run, s) && s.buffer.Some?
    ensures s.buffer.value < |s.buffers| && InRange(s, s.buffers[s.buffer.value].channels)
    ensures var info := s.buffers[s.buffer.value];
      var x := s.streams[At(info.channels, ch)];
      OnChannel(info.messages, ch) + x.queue == x.since
  {
    PatientRunsConserve(bufferOffline, run, s);
    var info := s.buffers[s.buffer.value];
    var x := s.streams[At(info.channels, ch)];
    assert BufferedStream(s, s.buffer.value, ch, x);
    assert [] + OnChannel(info.messages, ch) == OnChannel(info.messages, ch);
  }

  // ---------------------------------------------------------------------
  // Who has to wait for the nudge
  // ---------------------------------------------------------------------

  /**
    If the last client leaves in the middle of its nudge, the callbacks of that
    nudge can run next; they leave the new buffer in place, but turn all four of
    its streams over to the connection that is gone.
   */
  lemma LeavingMidNudgeUnwires(s: State, c: ConnId)
    requires Conserved(s) && Active(s, c) && s.conns[c].nudge.Some? && s.connections == 1 && s.bufferOffline
    ensures var t := AfterDisconnect(s, c);
      && Inv(t) && Enabled(t, DoFinishNudge(c))
      && var u := AfterNudge(t, c);
         && !Active(u, c) && u.buffer == Some(|s.buffers|) && |u.buffers| == |s.buffers| + 1
         && InRange(u, u.buffers[|s.buffers|].channels)
         && forall ch :: u.streams[At(u.buffers[|s.buffers|].channels, ch)].handler == ToWeb(c)
  {
    var t := AfterDisconnect(s, c);
    MidNudgeLeft(s, c, t);
    assert Sound(t);
    hide *;
    assert Enabled(t, DoFinishNudge(c)) by { PendingCanFinish(t, c); }
    NudgeFrame(t, c);
    var q := t.conns[c].channels.value;
    forall ch
      ensures At(q, ch) < |AfterNudge(t, c).streams| && AfterNudge(t, c).streams[At(q, ch)].handler == ToWeb(c)
    {
      WiredIsOpen(t, q, ch);
      SubscribesOpenStreams(t, c, ch);
    }
    WiredStays(t, c, q);
  }

  lemma WiredIsOpen(s: State, q: Quad, ch: Channel)
    requires Wired(s, q)
    ensures At(q, ch) < |s.streams| && !s.streams[At(q, ch)].closed
  {
  }

  lemma WiredStays(t: State, c: ConnId, q: Quad)
    requires Sound(t) && c < |t.conns| && t.conns[c].nudge.Some? && Wired(t, q)
    ensures InRange(AfterNudge(t, c), q)
  {
  }

  lemma PendingCanFinish(t: State, c: ConnId)
    requires c < |t.conns| && t.conns[c].nudge.Some?
    ensures Enabled(t, DoFinishNudge(c))
  {
  }

  lemma MidNudgeLeft(s: State, c: ConnId, t: State)
    requires Conserved(s) && Active(s, c) && s.conns[c].nudge.Some? && s.connections == 1 && s.bufferOffline
    requires t == AfterDisconnect(s, c)
    ensures Inv(t) && c < |t.conns| && t.conns[c] == s.conns[c].(disconnected := true) && t.conns[c].channels.Some?
    ensures !Active(t, c) && t.buffer == Some(|s.buffers|) && |t.buffers| == |s.buffers| + 1
    ensures t.buffers[|s.buffers|].channels == t.conns[c].channels.value && Wired(t, t.conns[c].channels.value)
  {
    DisconnectKeepsInv(s, c);
    DetachBuffers(s, c, t);
  }

  lemma NudgeFrame(t: State, c: ConnId)
    requires Sound(t) && c < |t.conns| && t.conns[c].nudge.Some?
    ensures var u := AfterNudge(t, c);
      && u.buffer == t.buffer && u.buffers == t.buffers && u.conns == t.conns[c := t.conns[c].(nudge := None)]
      && (Active(u, c) <==> Active(t, c)) && forall q :: InRange(u, q) <==> InRange(t, q)
  {
  }

  /** Whichever connection they belong to, the callbacks of a nudge subscribe every stream that is open. */
  lemma SubscribesOpenStreams(t: State, c: ConnId, ch: Channel)
    requires Sound(t) && c < |t.conns| && t.conns[c].nudge.Some? && t.conns[c].channels.Some?
    requires !t.streams[At(t.conns[c].channels.value, ch)].closed
    ensures |AfterNudge(t, c).streams| == |t.streams|
    ensures AfterNudge(t, c).streams[At(t.conns[c].channels.value, ch)].handler == ToWeb(c)
  {
    var q, n := t.conns[c].channels.value, t.conns[c].nudge.value;
    var x := At(q, ch);
    QuadInIds(q, x);
    TouchAllEffect(t.streams, [n.iopub], Listen(Off), x);
    ReplayFrame(Cleaned(t, n), q, c, ToReplay(t, n), x);
    TouchAllEffect(Cleaned(t, n), Ids(q), Listen(ToWeb(c)), x);
    TouchAllEffect(Replay(Cleaned(t, n), q, c, ToReplay(t, n)), Ids(q), Listen(ToWeb(c)), x);
  }

  /** The buffer, if there is one, is fed by its four streams and holds everything since the detach. */
  ghost predicate BufferIntact(s: State) {
    s.buffer.Some? ==> BufferOk(s, s.buffer.value)
  }

  /** Whatever happens after connection `c` leaves (later clients waiting as they have to), buffers stay intact. */
  ghost predicate HarmlessLeave(s: State, c: ConnId)
    requires Sound(s) && Active(s, c)
  {
    forall more: seq<Step>, u: State :: Leads(AfterDisconnect(s, c), true, more, u) ==> BufferIntact(u)
  }

  /**
    In every state that such interleavings reach, a leave is harmless exactly
    unless it is the last connection that leaves, messages are to be buffered,
    and its nudge is still pending.
   */
  lemma LeavingIsHarmlessIff(bufferOffline: bool, run: seq<Step>, s: State, c: ConnId)
    requires Reaches(bufferOffline, true, run, s) && Active(s, c) && Sound(s)
    ensures HarmlessLeave(s, c) <==> !(s.connections == 1 && s.bufferOffline && s.conns[c].nudge.Some?)
  {
    PatientRunsConserve(bufferOffline, run, s);
    var t := AfterDisconnect(s, c);
    if s.connections == 1 && s.bufferOffline && s.conns[c].nudge.Some? {
      MidNudgeLeaveHarms(s, c);
    } else {
      DisconnectConserves(s, c);
      forall more: seq<Step>, u: State | Leads(t, true, more, u) ensures BufferIntact(u) {
        PatientRunsKeepConserving(t, more, u);
        ConservedIsIntact(u);
      }
    }
  }

  lemma ConservedIsIntact(s: State)
    requires Conserved(s)
    ensures BufferIntact(s)
  {
  }

  lemma MidNudgeLeaveHarms(s: State, c: ConnId)
    requires Conserved(s) && Active(s, c) && s.conns[c].nudge.Some? && s.connections == 1 && s.bufferOffline
    ensures !HarmlessLeave(s, c)
  {
    var t := AfterDisconnect(s, c);
    LeavingMidNudgeUnwires(s, c);
    var u := AfterNudge(t, c);
    assert Leads(t, true, [], t);
    Extend(t, true, [], t, DoFinishNudge(c));
    assert Leads(t, true, [] + [DoFinishNudge(c)], u);
    var x := u.streams[At(u.buffers[|s.buffers|].channels, Iopub)];
    assert !BufferedStream(u, |s.buffers|, Iopub, x);
    assert !BufferIntact(u);
  }

  lemma Extend(from: State, patient: bool, run: seq<Step>, p: State, step: Step)
    requires Leads(from, patient, run, p) && Sound(p) && Enabled(p, step) && (patient ==> Waits(p, step))
    ensures Leads(from, patient, run + [step], Next(p, step))
  {
    assert (run + [step])[..|run|] == run;
  }

  function FourStreams(iopub: Handler, others: Handler): seq<Stream> {
    [Fresh(Iopub).(handler := iopub), Fresh(Shell).(handler := others),
     Fresh(Control).(handler := others), Fresh(Stdin).(handler := others)]
  }

  const FIRST := Quad(0, 1, 2, 3)

  function RegisteredFirst(key: string): State {
    State(true, 0, None, [], [], [Conn(key, false, false, None, None)], map[key := 0], {})
  }

  /** The first connection, in the middle of its nudge. */
  function NudgingFirst(key: string): State {
    State(true, 1, None, [], FourStreams(ToNudge(0), Off),
          [Conn(key, true, false, Some(Nudge(0, None, false)), Some(FIRST))], map[key := 0], {0})
  }

  /** The same connection gone before its nudge completed. */
  function GoneFirst(key: string): State {
    State(true, 0, Some(0), [BufferInfo(key, [], FIRST)], FourStreams(ToBuffer(0), ToBuffer(0)),
          [Conn(key, true, true, Some(Nudge(0, None, false)), Some(FIRST))], map[], {})
  }

  /** And after the callbacks of the nudge have run all the same. */
  function HauntedBuffer(key: string): (s: State)
    ensures s.buffer == Some(0) && |s.buffers| == 1 && |s.conns| == 1 && s.conns[0].disconnected
    ensures InRange(s, s.buffers[0].channels)
    ensures forall ch :: s.streams[At(s.buffers[0].channels, ch)].handler == ToWeb(0)
  {
    GoneFirst(key).(streams := FourStreams(ToWeb(0), ToWeb(0)), conns := [Conn(key, true, true, None, Some(FIRST))])
  }

  lemma TouchFour(streams: seq<Stream>, change: Change)
    requires |streams| == 4
    ensures TouchAll(streams, Ids(FIRST), change) ==
        [Touch(streams[0], change), Touch(streams[1], change), Touch(streams[2], change), Touch(streams[3], change)]
  {
    var r := TouchAll(streams, Ids(FIRST), change);
    assert Ids(FIRST) == [0, 1, 2, 3];
    hide *;
    forall x: nat | x < 4 ensures r[x] == Touch(streams[x], change) {
      assert [0 as nat, 1, 2, 3][x] == x;
      TouchAllEffect(streams, Ids(FIRST), change, x);
    }
  }

  lemma TouchIopub(streams: seq<Stream>, change: Change)
    requires |streams| == 4
    ensures TouchAll(streams, [0], change) == [Touch(streams[0], change), streams[1], streams[2], streams[3]]
  {
    TouchAllEffect(streams, [0], change, 0);
    assert TouchAll(streams[0 := Touch(streams[0], change)], [], change) == streams[0 := Touch(streams[0], change)];
  }

  lemma FirstRegisters(key: string)
    ensures Sound(Init(true)) && Enabled(Init(true), DoRegister(key)) &&
        Next(Init(true), DoRegister(key)) == RegisteredFirst(key)
  {
  }

  lemma FirstConnects(key: string)
    requires Sound(RegisteredFirst(key))
    ensures Enabled(RegisteredFirst(key), DoConnect(0, false))
    ensures Next(RegisteredFirst(key), DoConnect(0, false)) == NudgingFirst(key)
  {
    TouchIopub([Fresh(Iopub), Fresh(Shell), Fresh(Control), Fresh(Stdin)], Listen(ToNudge(0)));
  }

  lemma FirstLeaves(key: string)
    requires Sound(NudgingFirst(key))
    ensures Enabled(NudgingFirst(key), DoDisconnect(0))
    ensures Next(NudgingFirst(key), DoDisconnect(0)) == GoneFirst(key)
  {
    TouchFour(NudgingFirst(key).streams, Buffering(0));
    assert map[key := 0 as ConnId] - {key} == map[];
    assert {0 as ConnId} - {0} == {};
  }

  lemma NudgeCompletesAllTheSame(key: string)
    requires Sound(GoneFirst(key))
    ensures Enabled(GoneFirst(key), DoFinishNudge(0))
    ensures Next(GoneFirst(key), DoFinishNudge(0)) == HauntedBuffer(key)
  {
    TouchIopub(GoneFirst(key).streams, Listen(Off));
    TouchFour(TouchAll(GoneFirst(key).streams, [0], Listen(Off)), Listen(ToWeb(0)));
  }

  /**
    Such a leave is possible: a run of one client that goes away before its nudge
    completes, at the end of which all four streams hand whatever arrives to a
    connection that is gone.
   */
  lemma ImpatientDisconnectUnwiresTheBuffer(key: string) returns (run: seq<Step>, s: State)
    ensures Leads(Init(true), false, run, s) && s == HauntedBuffer(key)
  {
    assert Leads(Init(true), false, [], Init(true));
    hide *;
    FirstRegisters(key);
    run := OneMoreStep([], Init(true), DoRegister(key), RegisteredFirst(key));
    FirstConnects(key);
    run := OneMoreStep(run, RegisteredFirst(key), DoConnect(0, false), NudgingFirst(key));
    FirstLeaves(key);
    run := OneMoreStep(run, NudgingFirst(key), DoDisconnect(0), GoneFirst(key));
    NudgeCompletesAllTheSame(key);
    run := OneMoreStep(run, GoneFirst(key), DoFinishNudge(0), HauntedBuffer(key));
    s := HauntedBuffer(key);
  }

  lemma OneMoreStep(run: seq<Step>, p: State, step: Step, s: State) returns (run': seq<Step>)
    requires Leads(Init(true), false, run, p) && Sound(p) && Enabled(p, step) && s == Next(p, step)
    ensures Sound(s) && Leads(Init(true), false, run', s)
  {
    LeadsKeepsInv(Init(true), false, run, p);
    run' := run + [step];
    Extend(Init(true), false, run, p, step);
    StepKeepsInv(p, step);
  }
}
