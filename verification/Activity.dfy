/**
  Watching a kernel's iopub messages for activity, and culling idle kernels.

  `KernelManager` is the code.  It also keeps, per kernel, the history of what
  happened since the kernel was started, and every verdict of the culler; the
  lemmas say what the fields and the verdicts mean in terms of that history.
 */
module Activity {
  import opened Common

  type Time = real
  type Client = nat

  datatype Settings = Settings(untracked: set<MsgType>, cullIdleTimeout: Time, cullBusy: bool, cullConnected: bool)

  /** An iopub message; `parent` is the type of its parent and `state` the content of a status message. */
  datatype Message = Message(msgType: MsgType, parent: Option<MsgType>, state: ExecutionState)

  datatype Event =
    | Watched(now: Time)                      // activity watching starts (again)
    | Arrived(msg: Message, now: Time)
    | MarkedDead                              // a connection found that the kernel did not start
    | Connected(client: Client)
    | Disconnected(client: Client)

  /** A kernel's history; `timeout` is the one its kernel spec may set. */
  datatype Life = Life(start: Time, timeout: Option<Time>, events: seq<Event>)

  datatype Vitals = Vitals(state: ExecutionState, lastActivity: Time, connections: int)

  datatype Kernel = Kernel(executionState: ExecutionState, lastActivity: Time, timeout: Option<Time>)

  /** What the culler decided about a kernel, and what it knew. */
  datatype Verdict = Verdict(id: KernelId, life: Life, now: Time, culled: bool)

  // ---------------------------------------------------------------------
  // Specification
  // ---------------------------------------------------------------------

  /** A missing parent type is in no list of untracked types. */
  predicate Tracked(cfg: Settings, msgType: Option<MsgType>) {
    msgType.None? || msgType.value !in cfg.untracked
  }

  predicate IsActivity(cfg: Settings, m: Message, state: ExecutionState) {
    Tracked(cfg, Some(m.msgType)) || Tracked(cfg, m.parent) || state == "busy"
  }

  function NextState(cfg: Settings, m: Message, state: ExecutionState): ExecutionState {
    if m.msgType != "status" then state
    else if Tracked(cfg, m.parent) then m.state
    else if state == "starting" && m.state != "starting" then "idle"
    else state
  }

  function Next(cfg: Settings, s: Vitals, e: Event): Vitals {
    match e
    case Watched(now) => s.(lastActivity := now)
    case Arrived(m, now) =>
      Vitals(NextState(cfg, m, s.state), if IsActivity(cfg, m, s.state) then now else s.lastActivity, s.connections)
    case MarkedDead => s.(state := "dead")
    case Connected(_) => s.(connections := s.connections + 1)
    case Disconnected(_) => s.(connections := s.connections - 1)
  }

  function After(cfg: Settings, start: Time, events: seq<Event>): Vitals {
    if events == [] then Vitals("starting", start, 0)
    else Next(cfg, After(cfg, start, events[..|events| - 1]), events[|events| - 1])
  }

  function Timeout(cfg: Settings, timeout: Option<Time>): Time {
    if timeout.Some? then timeout.value else cfg.cullIdleTimeout
  }

  predicate ShouldCull(cfg: Settings, life: Life, now: Time) {
    var s := After(cfg, life.start, life.events);
    || s.state == "dead"
    || (&& now - s.lastActivity > Timeout(cfg, life.timeout)
        && (cfg.cullBusy || s.state != "busy")
        && (cfg.cullConnected || s.connections == 0))
  }

  // ---------------------------------------------------------------------
  // The kernel manager
  // ---------------------------------------------------------------------

  class KernelManager {
    const cfg: Settings
    var kernels: map<KernelId, Kernel>
    var connections: map<KernelId, int>
    ghost var lives: map<KernelId, Life>
    ghost var verdicts: seq<Verdict>

    /** The fields are what the histories say, and no verdict was ever wrong. */
    ghost predicate Valid()
      reads this
    {
      && kernels.Keys == lives.Keys == connections.Keys
      && (forall id :: id in kernels ==> Follows(id))
      && (forall i :: 0 <= i < |verdicts| ==> Just(cfg, verdicts[i]))
    }

    ghost predicate Follows(id: KernelId)
      requires id in kernels && id in lives && id in connections
      reads this
    {
      var k := kernels[id];
      && k.timeout == lives[id].timeout
      && VitalsOf(id) == After(cfg, lives[id].start, lives[id].events)
    }

    constructor (cfg: Settings)
      ensures Valid() && this.cfg == cfg && kernels == map[] && verdicts == []
    {
      this.cfg := cfg;
      kernels, connections, lives, verdicts := map[], map[], map[], [];
    }

    ghost method Record(id: KernelId, e: Event)
      requires id in lives
      modifies this`lives
      ensures lives == old(lives)[id := Extended(old(lives[id]), e)]
      ensures var was := old(lives[id]);
        After(cfg, was.start, lives[id].events) == Next(cfg, After(cfg, was.start, was.events), e)
    {
      lives := lives[id := Extended(lives[id], e)];
      assert lives[id].events[..|lives[id].events| - 1] == old(lives[id].events);
    }

    /** Writes a kernel's fields back after an event. */
    method Update(id: KernelId, kernel: Kernel, ghost e: Event)
      requires Valid() && id in kernels && kernel.timeout == kernels[id].timeout
      requires Vitals(kernel.executionState, kernel.lastActivity, connections[id]) == Next(cfg, VitalsOf(id), e)
      modifies this`kernels, this`lives
      ensures Valid() && lives == old(lives)[id := Extended(old(lives[id]), e)]
    {
      hide After, Next, Just;
      assert Follows(id);
      kernels := kernels[id := kernel];
      Record(id, e);
    }

    ghost function VitalsOf(id: KernelId): Vitals
      requires id in kernels && id in connections
      reads this
    {
      Vitals(kernels[id].executionState, kernels[id].lastActivity, connections[id])
    }

    method StartKernel(id: KernelId, timeout: Option<Time>, now: Time)
      requires Valid()
      modifies this`kernels, this`connections, this`lives
      ensures Valid()
      ensures lives == if id in old(kernels) then old(lives) else old(lives)[id := Life(now, timeout, [])]
    {
      if id !in kernels {
        connections := connections[id := 0];
        kernels := kernels[id := Kernel("starting", now, timeout)];
        lives := lives[id := Life(now, timeout, [])];
      }
    }

    method StartWatchingActivity(id: KernelId, now: Time)
      requires Valid() && id in kernels
      modifies this`kernels, this`lives
      ensures Valid() && lives == old(lives)[id := Extended(old(lives[id]), Watched(now))]
    {
      Update(id, kernels[id].(lastActivity := now), Watched(now));
    }

    method RecordActivity(id: KernelId, m: Message, now: Time)
      requires Valid() && id in kernels
      modifies this`kernels, this`lives
      ensures Valid() && lives == old(lives)[id := Extended(old(lives[id]), Arrived(m, now))]
    {
      var kernel := kernels[id];
      if m.msgType !in cfg.untracked || Tracked(cfg, m.parent) || kernel.executionState == "busy" {
        kernel := kernel.(lastActivity := now);
      }
      if m.msgType == "status" {
        if Tracked(cfg, m.parent) {
          kernel := kernel.(executionState := m.state);
        } else if kernel.executionState == "starting" && m.state != "starting" {
          kernel := kernel.(executionState := "idle");
        }
      }
      Update(id, kernel, Arrived(m, now));
    }

    method MarkDead(id: KernelId)
      requires Valid() && id in kernels
      modifies this`kernels, this`lives
      ensures Valid() && lives == old(lives)[id := Extended(old(lives[id]), MarkedDead)]
    {
      Update(id, kernels[id].(executionState := "dead"), MarkedDead);
    }

    method NotifyConnect(id: KernelId, ghost client: Client)
      requires Valid()
      modifies this`connections, this`lives
      ensures Valid()
      ensures lives == if id in old(lives) then old(lives)[id := Extended(old(lives[id]), Connected(client))]
              else old(lives)
    {
      if id in connections {
        connections := connections[id := connections[id] + 1];
        Record(id, Connected(client));
      }
    }

    method NotifyDisconnect(id: KernelId, ghost client: Client)
      requires Valid()
      modifies this`connections, this`lives
      ensures Valid()
      ensures lives == if id in old(lives) then old(lives)[id := Extended(old(lives[id]), Disconnected(client))]
              else old(lives)
    {
      if id in connections {
        connections := connections[id := connections[id] - 1];
        Record(id, Disconnected(client));
      }
    }

    method ShutdownKernel(id: KernelId)
      requires Valid()
      modifies this`kernels, this`connections, this`lives
      ensures Valid() && lives == old(lives) - {id}
    {
      kernels, connections, lives := kernels - {id}, connections - {id}, lives - {id};
    }

    /** A kernel is culled exactly when its history says so. */
    method CullKernelIfIdle(id: KernelId, now: Time) returns (culled: bool)
      requires Valid() && id in kernels
      modifies this
      ensures Valid() && culled == ShouldCull(cfg, old(lives[id]), now)
      ensures verdicts == old(verdicts) + [Verdict(id, old(lives[id]), now, culled)]
      ensures lives == if culled then old(lives) - {id} else old(lives)
    {
      var kernel := kernels[id];
      if kernel.executionState == "dead" {
        culled := true;
      } else {
        var timeout := if kernel.timeout.Some? then kernel.timeout.value else cfg.cullIdleTimeout;
        var isIdleTime := now - kernel.lastActivity > timeout;
        var isIdleExecute := cfg.cullBusy || kernel.executionState != "busy";
        var isIdleConnected := cfg.cullConnected || connections[id] == 0;
        culled := isIdleTime && isIdleExecute && isIdleConnected;
      }
      assert Follows(id);
      verdicts := verdicts + [Verdict(id, lives[id], now, culled)];
      if culled {
        ShutdownKernel(id);
      }
    }

    /** What other tasks may do while a shutdown is awaited. */
    method Meanwhile()
      requires Valid()
      modifies this`kernels, this`connections, this`lives
      ensures Valid()
    {
      var steps: nat := *;
      while steps > 0
        invariant Valid()
      {
        var id: KernelId := *;
        var event: Event := *;
        var stop: bool := *;
        if stop {
          ShutdownKernel(id);
        } else if id !in kernels {
          var timeout: Option<Time>, now: Time := *, *;
          StartKernel(id, timeout, now);
        } else {
          match event
          case Watched(now) => StartWatchingActivity(id, now);
          case Arrived(m, now) => RecordActivity(id, m, now);
          case MarkedDead => MarkDead(id);
          case Connected(c) => NotifyConnect(id, c);
          case Disconnected(c) => NotifyDisconnect(id, c);
        }
        steps := steps - 1;
      }
    }

    /** One turn of the culler's loop: a kernel that is gone by then raises an error that is only logged. */
    method CullNext(id: KernelId) returns (ghost verdict: Option<Verdict>)
      requires Valid()
      modifies this
      ensures Valid() && verdict.Some? == (id in old(lives))
      ensures verdict.None? ==> verdicts == old(verdicts) && lives == old(lives)
      ensures verdict.Some? ==> verdict.value.id == id && verdicts == old(verdicts) + [verdict.value]
      ensures verdict.Some? && !verdict.value.culled ==> lives == old(lives)
    {
      if id !in kernels {
        return None;
      }
      var now: Time := *;
      verdict := Some(Verdict(id, lives[id], now, ShouldCull(cfg, lives[id], now)));
      var culled := CullKernelIfIdle(id, now);
      if culled {
        Meanwhile();
      }
    }

    /**
      Every kernel there was at the start is judged exactly once, except those
      gone before their turn; and none can be gone unless one was culled.
     */
    method CullKernels() returns (ghost judged: seq<Verdict>, ghost missed: set<KernelId>)
      requires Valid()
      modifies this
      ensures Valid() && verdicts == old(verdicts) + judged
      ensures Accounted(old(kernels.Keys), judged, missed, {})
      ensures AnyCulled(judged) || (missed == {} && lives == old(lives))
    {
      hide *;
      var todo := kernels.Keys;
      judged, missed := [], {};
      ghost var sweep := Sweep(todo, lives, verdicts);
      LivesOfKernels();
      SweepStart(sweep);
      while todo != {}
        invariant Valid() && InSweep(sweep, verdicts, lives, judged, missed, todo)
        decreases |todo|
      {
        var id :| id in todo;
        ghost var vs, before := verdicts, lives;
        var verdict := CullNext(id);
        if verdict.None? {
          MissOne(sweep, vs, before, judged, missed, todo, id);
          missed := missed + {id};
        } else {
          JudgeOne(sweep, vs, before, lives, judged, missed, todo, verdict.value);
          judged := judged + [verdict.value];
        }
        todo := todo - {id};
      }
      SweepDone(sweep, verdicts, lives, judged, missed);
    }

    lemma LivesOfKernels()
      requires Valid()
      ensures kernels.Keys == lives.Keys
    {
    }
  }

  /** What the culler's loop started from. */
  datatype Sweep = Sweep(keys: set<KernelId>, lives: map<KernelId, Life>, verdicts: seq<Verdict>)

  ghost predicate InSweep(s: Sweep, verdicts: seq<Verdict>, lives: map<KernelId, Life>,
                          judged: seq<Verdict>, missed: set<KernelId>, todo: set<KernelId>)
  {
    && verdicts == s.verdicts + judged && s.keys == s.lives.Keys && todo <= s.keys
    && Accounted(s.keys, judged, missed, todo)
    && (AnyCulled(judged) || (missed == {} && lives == s.lives))
  }

  /** The kernels of `keys` are those judged, each once, those missed and those still to come. */
  ghost predicate Accounted(keys: set<KernelId>, judged: seq<Verdict>, missed: set<KernelId>, todo: set<KernelId>) {
    && keys == IdsOf(judged) + missed + todo
    && IdsOf(judged) !! missed !! todo
    && |IdsOf(judged)| == |judged|
  }

  predicate AnyCulled(vs: seq<Verdict>) {
    exists v :: v in vs && v.culled
  }

  lemma SweepStart(s: Sweep)
    requires s.keys == s.lives.Keys
    ensures InSweep(s, s.verdicts, s.lives, [], {}, s.keys)
  {
    assert s.verdicts + [] == s.verdicts;
  }

  lemma MissOne(s: Sweep, verdicts: seq<Verdict>, lives: map<KernelId, Life>,
                judged: seq<Verdict>, missed: set<KernelId>, todo: set<KernelId>, id: KernelId)
    requires InSweep(s, verdicts, lives, judged, missed, todo) && id in todo && id !in lives
    ensures InSweep(s, verdicts, lives, judged, missed + {id}, todo - {id})
  {
  }

  lemma SweepDone(s: Sweep, verdicts: seq<Verdict>, lives: map<KernelId, Life>,
                  judged: seq<Verdict>, missed: set<KernelId>)
    requires InSweep(s, verdicts, lives, judged, missed, {})
    ensures verdicts == s.verdicts + judged && Accounted(s.keys, judged, missed, {})
    ensures AnyCulled(judged) || (missed == {} && lives == s.lives)
  {
  }

  lemma JudgeOne(s: Sweep, verdicts: seq<Verdict>, lives: map<KernelId, Life>, after: map<KernelId, Life>,
                 judged: seq<Verdict>, missed: set<KernelId>, todo: set<KernelId>, v: Verdict)
    requires InSweep(s, verdicts, lives, judged, missed, todo) && v.id in todo && (v.culled || after == lives)
    ensures InSweep(s, verdicts + [v], after, judged + [v], missed, todo - {v.id})
  {
    IdsOfMore(judged, v);
    assert forall x :: x in judged + [v] <==> x in judged || x == v;
    assert v in judged + [v];
    assert verdicts + [v] == s.verdicts + (judged + [v]);
  }

  ghost function IdsOf(vs: seq<Verdict>): set<KernelId> {
    set v | v in vs :: v.id
  }

  lemma IdsOfMore(vs: seq<Verdict>, v: Verdict)
    ensures IdsOf(vs + [v]) == IdsOf(vs) + {v.id}
  {
    assert forall x :: x in vs + [v] <==> x in vs || x == v;
  }

  function Extended(life: Life, e: Event): Life {
    life.(events := life.events + [e])
  }

  ghost predicate Just(cfg: Settings, v: Verdict) {
    v.culled == ShouldCull(cfg, v.life, v.now)
  }

  // ---------------------------------------------------------------------
  // Histories
  // ---------------------------------------------------------------------

  /** The execution state is set outright: by the status of a tracked request, or by a failed start. */
  predicate Sets(cfg: Settings, e: Event) {
    e.MarkedDead? || (e.Arrived? && e.msg.msgType == "status" && Tracked(cfg, e.msg.parent))
  }

  function SetTo(e: Event): ExecutionState
    requires e.MarkedDead? || e.Arrived?
  {
    if e.MarkedDead? then "dead" else e.msg.state
  }

  /** An untracked status that says the kernel is past its start. */
  predicate Wakes(cfg: Settings, e: Event) {
    e.Arrived? && e.msg.msgType == "status" && !Tracked(cfg, e.msg.parent) && e.msg.state != "starting"
  }

  predicate LastSetter(cfg: Settings, h: seq<Event>, i: nat) {
    i < |h| && Sets(cfg, h[i]) && forall j :: i < j < |h| ==> !Sets(cfg, h[j])
  }

  predicate WakesFrom(cfg: Settings, h: seq<Event>, i: nat) {
    exists j :: i <= j < |h| && Wakes(cfg, h[j])
  }

  /** The state was last set to `v`, and not since. */
  predicate LastSetTo(cfg: Settings, h: seq<Event>, v: ExecutionState) {
    exists i | 0 <= i < |h| :: LastSetter(cfg, h, i) && SetTo(h[i]) == v
  }

  lemma AfterMore(cfg: Settings, start: Time, h: seq<Event>, e: Event)
    ensures After(cfg, start, h + [e]) == Next(cfg, After(cfg, start, h), e)
  {
    assert (h + [e])[..|h|] == h;
  }

  /** With nothing setting it, the state stays "starting" until an untracked status wakes it. */
  lemma {:induction false} StateNeverSet(cfg: Settings, start: Time, h: seq<Event>)
    requires forall j :: 0 <= j < |h| ==> !Sets(cfg, h[j])
    ensures After(cfg, start, h).state == if WakesFrom(cfg, h, 0) then "idle" else "starting"
  {
    if h != [] {
      var front, e := h[..|h| - 1], h[|h| - 1];
      StateNeverSet(cfg, start, front);
      assert Wakes(cfg, e) ==> WakesFrom(cfg, h, 0);
      assert WakesFrom(cfg, front, 0) ==> WakesFrom(cfg, h, 0) by {
        assert forall j :: 0 <= j < |front| ==> front[j] == h[j];
      }
      assert WakesFrom(cfg, h, 0) ==> WakesFrom(cfg, front, 0) || Wakes(cfg, e) by {
        assert forall j :: 0 <= j < |front| ==> front[j] == h[j];
      }
    }
  }

  /**
    The state is what it was last set to, whatever untracked statuses follow;
    except that "starting" gives way to "idle" at the first that is past it.
   */
  lemma {:induction false} StateIsLastSet(cfg: Settings, start: Time, h: seq<Event>, i: nat)
    requires LastSetter(cfg, h, i)
    ensures After(cfg, start, h).state ==
      if SetTo(h[i]) == "starting" && WakesFrom(cfg, h, i + 1) then "idle" else SetTo(h[i])
  {
    var front, e := h[..|h| - 1], h[|h| - 1];
    if i < |front| {
      assert forall j :: 0 <= j < |front| ==> front[j] == h[j];
      StateIsLastSet(cfg, start, front, i);
      assert Wakes(cfg, e) ==> WakesFrom(cfg, h, i + 1);
      assert WakesFrom(cfg, h, i + 1) <==> WakesFrom(cfg, front, i + 1) || Wakes(cfg, e);
    }
  }

  lemma SomeLastSetter(cfg: Settings, h: seq<Event>)
    ensures (exists i | 0 <= i < |h| :: LastSetter(cfg, h, i)) || forall j :: 0 <= j < |h| ==> !Sets(cfg, h[j])
  {
    if h != [] && Sets(cfg, h[|h| - 1]) {
      assert LastSetter(cfg, h, |h| - 1);
    } else if h != [] {
      var front := h[..|h| - 1];
      SomeLastSetter(cfg, front);
      if i :| 0 <= i < |front| && LastSetter(cfg, front, i) {
        assert forall j :: 0 <= j < |front| ==> front[j] == h[j];
        assert LastSetter(cfg, h, i);
      }
    }
  }

  /** Any state but "starting" and "idle" is there exactly when it was last set; "busy" and "dead" are such. */
  lemma StateIff(cfg: Settings, start: Time, h: seq<Event>, v: ExecutionState)
    requires v != "starting" && v != "idle"
    ensures After(cfg, start, h).state == v <==> LastSetTo(cfg, h, v)
  {
    SomeLastSetter(cfg, h);
    if i :| 0 <= i < |h| && LastSetter(cfg, h, i) {
      StateIsLastSet(cfg, start, h, i);
      assert forall k :: 0 <= k < |h| && LastSetter(cfg, h, k) ==> k == i;
    } else {
      StateNeverSet(cfg, start, h);
    }
  }

  /** Events that count as activity: (re)starts of watching, tracked traffic, and anything while busy. */
  predicate Counted(cfg: Settings, h: seq<Event>, i: nat) {
    i < |h| &&
    match h[i]
    case Watched(_) => true
    case Arrived(m, _) => Tracked(cfg, Some(m.msgType)) || Tracked(cfg, m.parent) || LastSetTo(cfg, h[..i], "busy")
    case _ => false
  }

  function TimeOf(e: Event): Time
    requires e.Watched? || e.Arrived?
  {
    e.now
  }

  /** `last_activity` is the time of the last event that counts, or of the start. */
  lemma {:induction false} LastActivityIs(cfg: Settings, start: Time, h: seq<Event>)
    ensures forall i | 0 <= i < |h| :: Counted(cfg, h, i) && (forall j :: i < j < |h| ==> !Counted(cfg, h, j)) ==>
      After(cfg, start, h).lastActivity == TimeOf(h[i])
    ensures (forall i :: 0 <= i < |h| ==> !Counted(cfg, h, i)) ==> After(cfg, start, h).lastActivity == start
  {
    if h != [] {
      var n := |h| - 1;
      LastActivityIs(cfg, start, h[..n]);
      StateIff(cfg, start, h[..n], "busy");
      forall i | 0 <= i < n ensures Counted(cfg, h[..n], i) == Counted(cfg, h, i) {
        assert h[..n][..i] == h[..i];
      }
      assert Counted(cfg, h, n) || After(cfg, start, h).lastActivity == After(cfg, start, h[..n]).lastActivity;
    }
  }

  /** Each client connects once and disconnects at most once, after that. */
  ghost predicate Orderly(h: seq<Event>) {
    forall i :: 0 <= i < |h| ==>
      && (h[i].Connected? ==> h[i] !in h[..i])
      && (h[i].Disconnected? ==> h[i] !in h[..i] && Connected(h[i].client) in h[..i])
  }

  ghost predicate IsOpen(h: seq<Event>, client: Client) {
    Connected(client) in h && Disconnected(client) !in h
  }

  ghost function Open(h: seq<Event>): set<Client> {
    set i | 0 <= i < |h| && h[i].Connected? && IsOpen(h, h[i].client) :: h[i].client
  }

  lemma OpenHas(h: seq<Event>, client: Client)
    ensures client in Open(h) <==> IsOpen(h, client)
  {
    if IsOpen(h, client) {
      var i :| 0 <= i < |h| && h[i] == Connected(client);
      assert h[i].client in Open(h);
    }
  }

  /** The number kept for a kernel is the number of its open connections. */
  lemma {:induction false} CountIsOpen(cfg: Settings, start: Time, h: seq<Event>)
    requires Orderly(h)
    ensures After(cfg, start, h).connections == |Open(h)|
  {
    if h != [] {
      var front, e := h[..|h| - 1], h[|h| - 1];
      assert Orderly(front) by {
        assert forall i :: 0 <= i < |front| ==> front[..i] == h[..i] && front[i] == h[i];
      }
      CountIsOpen(cfg, start, front);
      assert front + [e] == h;
      OpenMore(front, e);
    }
  }

  /** An event opens or closes its own client only. */
  lemma OpenMoreAt(h: seq<Event>, e: Event, c: Client)
    requires Orderly(h + [e])
    ensures c in Open(h + [e]) <==> (c in Open(h) && e != Disconnected(c)) || e == Connected(c)
    ensures e == Connected(c) ==> c !in Open(h)
    ensures e == Disconnected(c) ==> c in Open(h)
  {
    var all := h + [e];
    assert all[..|h|] == h && all[|h|] == e;
    OpenHas(all, c);
    OpenHas(h, c);
    assert Disconnected(c) in h ==> Connected(c) in h by {
      assert forall j :: 0 <= j < |h| ==> all[j] == h[j] && all[..j] == h[..j];
    }
  }

  lemma OpenMore(h: seq<Event>, e: Event)
    requires Orderly(h + [e])
    ensures |Open(h + [e])| == |Open(h)| + (if e.Connected? then 1 else if e.Disconnected? then -1 else 0)
  {
    hide *;
    var before, after := Open(h), Open(h + [e]);
    forall c ensures c in after <==> (c in before && e != Disconnected(c)) || e == Connected(c) {
      OpenMoreAt(h, e, c);
    }
    if e.Connected? {
      OpenMoreAt(h, e, e.client);
      assert after == before + {e.client};
    } else if e.Disconnected? {
      OpenMoreAt(h, e, e.client);
      assert before == after + {e.client};
    } else {
      assert after == before;
    }
  }

  predicate Timed(e: Event) {
    e.Watched? || e.Arrived?
  }

  /** The clock never went back. */
  ghost predicate InOrder(life: Life) {
    && (forall i :: 0 <= i < |life.events| && Timed(life.events[i]) ==> life.start <= TimeOf(life.events[i]))
    && (forall i, j :: 0 <= i < j < |life.events| && Timed(life.events[i]) && Timed(life.events[j]) ==>
          TimeOf(life.events[i]) <= TimeOf(life.events[j]))
  }

  /** Nothing that counts, nor the start, is as recent as `timeout`. */
  ghost predicate Quiet(cfg: Settings, life: Life, now: Time, timeout: Time) {
    && now - life.start > timeout
    && forall i :: 0 <= i < |life.events| && Counted(cfg, life.events, i) ==> now - TimeOf(life.events[i]) > timeout
  }

  lemma SomeLastCounted(cfg: Settings, h: seq<Event>, n: nat) returns (last: Option<nat>)
    requires n <= |h|
    ensures last.None? ==> forall i :: 0 <= i < n ==> !Counted(cfg, h, i)
    ensures last.Some? ==> last.value < n && Counted(cfg, h, last.value)
    ensures last.Some? ==> forall j :: last.value < j < n ==> !Counted(cfg, h, j)
  {
    if n == 0 {
      last := None;
    } else if Counted(cfg, h, n - 1) {
      last := Some(n - 1);
    } else {
      last := SomeLastCounted(cfg, h, n - 1);
    }
  }

  lemma QuietIff(cfg: Settings, life: Life, now: Time, timeout: Time)
    requires InOrder(life)
    ensures now - After(cfg, life.start, life.events).lastActivity > timeout <==> Quiet(cfg, life, now, timeout)
  {
    var h := life.events;
    LastActivityIs(cfg, life.start, h);
    var last := SomeLastCounted(cfg, h, |h|);
    if last.Some? {
      assert forall i :: 0 <= i < |h| && Counted(cfg, h, i) ==>
          i <= last.value && TimeOf(h[i]) <= TimeOf(h[last.value]);
    }
  }

  /**
    What a verdict means: a kernel is culled exactly when it was last marked
    dead, or when nothing that counts as activity is as recent as the timeout of
    its own kernel spec, or else of the settings, it was not last set busy unless
    `cull_busy`, and no client is connected unless `cull_connected`.
   */
  lemma CulledExactlyWhen(cfg: Settings, v: Verdict)
    requires Just(cfg, v) && InOrder(v.life) && Orderly(v.life.events)
    ensures v.culled <==>
      || LastSetTo(cfg, v.life.events, "dead")
      || (&& Quiet(cfg, v.life, v.now, if v.life.timeout.Some? then v.life.timeout.value else cfg.cullIdleTimeout)
          && (cfg.cullBusy || !LastSetTo(cfg, v.life.events, "busy"))
          && (cfg.cullConnected || Open(v.life.events) == {}))
  {
    StateIff(cfg, v.life.start, v.life.events, "dead");
    StateIff(cfg, v.life.start, v.life.events, "busy");
    QuietIff(cfg, v.life, v.now, Timeout(cfg, v.life.timeout));
    CountIsOpen(cfg, v.life.start, v.life.events);
  }

  /**
    What one iopub message does.  It counts as activity if its type is tracked, or
    its parent's is, or it has no parent type, or the kernel is busy.  Only a
    status message touches the state: in reply to something tracked, or to nothing
    known, it sets it; otherwise it at most ends the start.
   */
  lemma MessageIs(cfg: Settings, start: Time, h: seq<Event>, m: Message, now: Time)
    ensures var (s, t) := (After(cfg, start, h), After(cfg, start, h + [Arrived(m, now)]));
      var known := m.parent.Some? && m.parent.value in cfg.untracked;
      && t.connections == s.connections
      && t.lastActivity == (if m.msgType in cfg.untracked && known && s.state != "busy" then s.lastActivity else now)
      && (m.msgType != "status" ==> t.state == s.state)
      && (m.msgType == "status" && !known ==> t.state == m.state)
      && (m.msgType == "status" && known ==>
            t.state == if s.state == "starting" && m.state != "starting" then "idle" else s.state)
  {
    AfterMore(cfg, start, h, Arrived(m, now));
  }

  const DEFAULT_UNTRACKED := {
    "comm_info_request", "comm_info_reply", "kernel_info_request", "kernel_info_reply", "shutdown_request",
    "shutdown_reply", "interrupt_request", "interrupt_reply", "debug_request", "debug_reply", "stream",
    "display_data", "update_display_data", "execute_input", "execute_result", "error", "status", "clear_output",
    "debug_event", "input_request", "input_reply"
  }

  /**
    With the default list, a status in reply to a `kernel_info_request`, such as a
    nudge causes, never makes a kernel busy: it only takes one from "starting" to
    "idle", and counts as activity only while the kernel is busy already.
   */
  lemma NudgesAreInvisible(cfg: Settings, start: Time, h: seq<Event>, m: Message, now: Time)
    requires cfg.untracked == DEFAULT_UNTRACKED && m.msgType == "status" && m.parent == Some("kernel_info_request")
    ensures var s := After(cfg, start, h);
      After(cfg, start, h + [Arrived(m, now)]) ==
        Vitals(if s.state == "starting" && m.state != "starting" then "idle" else s.state,
               if s.state == "busy" then now else s.lastActivity, s.connections)
  {
    AfterMore(cfg, start, h, Arrived(m, now));
  }
}
