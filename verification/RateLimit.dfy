/**
  The iopub rate limiter of a kernel websocket connection.

  The source keeps a queue of pending removals together with two counters that
  it updates incrementally, and two flags with hysteresis.  Here the class
  `Limiter` is that code; `Step` is its specification, which has no counters and
  reads everything off the queue; and the lemmas at the end speak about whole
  runs, in terms of the messages that were forwarded.
 */
module RateLimit {
  import opened Common

  datatype Config = Config(enabled: bool, msgLimit: real, dataLimit: real, window: real)

  type Limits = c: Config | c.window > 0.0 witness Config(true, 1000.0, 1000000.0, 3.0)

  datatype Message = Message(channel: Channel, msgType: MsgType, executionState: ExecutionState, parts: seq<Bytes>)

  datatype Warning = MessageRate | DataRate

  /** A removal queued for a time in the future. */
  datatype Entry = Entry(expires: real, bytes: nat)

  datatype State = State(queue: seq<Entry>, msgsExceeded: bool, dataExceeded: bool)

  datatype Outcome = Outcome(state: State, dropped: bool, warnings: seq<Warning>)

  const FRESH := State([], false, false)

  predicate Watched(cfg: Limits, m: Message) {
    cfg.enabled && m.channel.Iopub?
  }

  predicate Resets(cfg: Limits, m: Message) {
    Watched(cfg, m) && m.msgType == "status" && m.executionState == "idle"
  }

  predicate Counted(cfg: Limits, m: Message) {
    Watched(cfg, m) && m.msgType !in {"status", "comm_open", "execute_input"}
  }

  /** Only stream output counts towards the data rate. */
  function Size(m: Message): nat {
    if m.msgType == "stream" then TotalLength(m.parts) else 0
  }

  function ByteSum(q: seq<Entry>): nat {
    if q == [] then 0 else q[0].bytes + ByteSum(q[1..])
  }

  /** Drops the leading entries whose time has come. */
  function Prune(q: seq<Entry>, now: real): seq<Entry> {
    if q != [] && now >= q[0].expires then Prune(q[1..], now) else q
  }

  /**
    The hysteresis on what the queue holds for one window: set above the
    allowance of a window, cleared only below 80% of it.
   */
  predicate Exceeds(limit: real, allowance: real, amount: nat, flag: bool) {
    if limit > 0.0 && amount as real > allowance then true else flag && !(amount as real < 0.8 * allowance)
  }

  function MsgAllowance(cfg: Limits): real {
    cfg.msgLimit * cfg.window
  }

  function DataAllowance(cfg: Limits): real {
    cfg.dataLimit * cfg.window
  }

  function Step(cfg: Limits, s: State, m: Message, now: real): Outcome {
    var s := if Resets(cfg, m) then FRESH else s;
    if !Counted(cfg, m) then Outcome(s, false, [])
    else
      var kept := Prune(s.queue, now);
      var tried := kept + [Entry(now + cfg.window, Size(m))];
      var msgs := Exceeds(cfg.msgLimit, MsgAllowance(cfg), |tried|, s.msgsExceeded);
      var data := Exceeds(cfg.dataLimit, DataAllowance(cfg), ByteSum(tried), s.dataExceeded);
      Outcome(State(if msgs || data then kept else tried, msgs, data),
              msgs || data,
              (if msgs && !s.msgsExceeded then [MessageRate] else []) +
              (if data && !s.dataExceeded then [DataRate] else []))
  }

  // ---------------------------------------------------------------------
  // Which messages do what
  // ---------------------------------------------------------------------

  /** An idle status on iopub clears everything and is let through. */
  lemma IdleStatusResets(cfg: Limits, s: State, m: Message, now: real)
    requires cfg.enabled && m.channel == Iopub && m.msgType == "status" && m.executionState == "idle"
    ensures Step(cfg, s, m, now) == Outcome(State([], false, false), false, [])
  {
  }

  /** Any other status, the two other exempt types, and whatever is not on iopub are let through and leave no trace. */
  lemma OthersPassThrough(cfg: Limits, s: State, m: Message, now: real)
    requires || !cfg.enabled || m.channel != Iopub || m.msgType == "comm_open" || m.msgType == "execute_input"
             || (m.msgType == "status" && m.executionState != "idle")
    ensures Step(cfg, s, m, now) == Outcome(s, false, [])
  {
  }

  /** The test as the code has it: on a rate per second, with headroom before the flag goes down again. */
  predicate TooFast(limit: real, count: nat, window: real, flag: bool)
    requires window > 0.0
  {
    var rate := count as real / window;
    (limit > 0.0 && rate > limit) || (flag && rate >= 0.8 * limit)
  }

  /**
    Anything else counts: with `kept` left of the queue, the flags are decided by
    the rates with the message included; while one is set the message is dropped
    and taken out again, else it stays for a window with its bytes, if it is a stream.
   */
  lemma EverythingElseCounts(cfg: Limits, s: State, m: Message, now: real, kept: seq<Entry>, bytes: nat)
    requires cfg.enabled && m.channel == Iopub
    requires m.msgType != "status" && m.msgType != "comm_open" && m.msgType != "execute_input"
    requires kept == Prune(s.queue, now)
    requires bytes == if m.msgType == "stream" then TotalLength(m.parts) else 0
    ensures var out := Step(cfg, s, m, now);
      && (out.state.msgsExceeded <==> TooFast(cfg.msgLimit, |kept| + 1, cfg.window, s.msgsExceeded))
      && (out.state.dataExceeded <==> TooFast(cfg.dataLimit, ByteSum(kept) + bytes, cfg.window, s.dataExceeded))
      && (out.dropped <==> out.state.msgsExceeded || out.state.dataExceeded)
      && out.state.queue == if out.dropped then kept else kept + [Entry(now + cfg.window, bytes)]
  {
    hide Exceeds, TooFast, ByteSum, Prune, MsgAllowance, DataAllowance, TotalLength;
    var e := Entry(now + cfg.window, bytes);
    assert !Resets(cfg, m) && Counted(cfg, m) && Size(m) == bytes;
    ByteSumOneMore(kept, e);
    FlagsInRates(cfg, |kept + [e]|, s.msgsExceeded);
    FlagsInRates(cfg, ByteSum(kept + [e]), s.dataExceeded);
  }

  lemma FlagsInRates(cfg: Limits, amount: nat, flag: bool)
    ensures Exceeds(cfg.msgLimit, MsgAllowance(cfg), amount, flag) <==> TooFast(cfg.msgLimit, amount, cfg.window, flag)
    ensures Exceeds(cfg.dataLimit, DataAllowance(cfg), amount, flag) <==>
            TooFast(cfg.dataLimit, amount, cfg.window, flag)
  {
    RateMeansCount(amount as real, cfg.window, cfg.msgLimit);
    RateMeansCount(amount as real, cfg.window, cfg.dataLimit);
  }

  lemma ByteSumOneMore(q: seq<Entry>, e: Entry)
    ensures ByteSum(q + [e]) == ByteSum(q) + e.bytes
  {
    ByteSumAppend(q, [e]);
    assert ByteSum([e]) == e.bytes + ByteSum([e][1..]);
  }

  /** What is left of a queue in order of expiry are the entries that expire later than now. */
  lemma PruneKeepsTheUnexpired(q: seq<Entry>, now: real) returns (n: nat)
    requires forall i, j :: 0 <= i <= j < |q| ==> q[i].expires <= q[j].expires
    ensures n <= |q| && Prune(q, now) == q[n..]
    ensures forall i :: 0 <= i < n ==> q[i].expires <= now
    ensures forall i :: n <= i < |q| ==> now < q[i].expires
  {
    if q != [] && now >= q[0].expires {
      n := PruneKeepsTheUnexpired(q[1..], now);
      assert forall i :: 1 <= i < |q| ==> q[i] == q[1..][i - 1];
      assert q[1..][n..] == q[n + 1..];
      n := n + 1;
    } else {
      n := 0;
    }
  }

  lemma ByteSumAppend(p: seq<Entry>, q: seq<Entry>)
    ensures ByteSum(p + q) == ByteSum(p) + ByteSum(q)
  {
    if p == [] {
      assert p + q == q;
    } else {
      assert (p + q)[1..] == p[1..] + q;
      ByteSumAppend(p[1..], q);
    }
  }

  /** Comparing a rate with a limit is comparing a count with the allowance of one window. */
  lemma RateMeansCount(count: real, window: real, limit: real)
    requires window > 0.0
    ensures count / window > limit <==> count > limit * window
    ensures count / window < limit <==> count < limit * window
    ensures count / window < 0.8 * limit <==> count < 0.8 * (limit * window)
  {
    var rate := count / window;
    assert rate * window == count;
    if rate > limit { assert rate * window > limit * window; }
    if rate < limit { assert rate * window < limit * window; }
    var low := 0.8 * limit;
    assert low * window == 0.8 * (limit * window);
    if rate > low { assert rate * window > low * window; }
    if rate < low { assert rate * window < low * window; }
  }

  class Limiter {
    const cfg: Limits
    var windowMsgCount: int
    var windowByteCount: int
    var msgsExceeded: bool
    var dataExceeded: bool
    var windowByteQueue: seq<Entry>

    /** The counters are exactly what the queue says. */
    ghost predicate Valid()
      reads this
    {
      windowMsgCount == |windowByteQueue| && windowByteCount == ByteSum(windowByteQueue)
    }

    function Abs(): State
      reads this
    {
      State(windowByteQueue, msgsExceeded, dataExceeded)
    }

    constructor (cfg: Limits)
      ensures Valid() && this.cfg == cfg && Abs() == FRESH
    {
      this.cfg := cfg;
      windowMsgCount, windowByteCount := 0, 0;
      msgsExceeded, dataExceeded := false, false;
      windowByteQueue := [];
    }

    method LimitRate(m: Message, now: real) returns (dropped: bool, warnings: seq<Warning>)
      requires Valid()
      modifies this
      ensures Valid()
      ensures Outcome(Abs(), dropped, warnings) == Step(cfg, old(Abs()), m, now)
    {
      warnings := [];
      if !(cfg.enabled && m.channel.Iopub?) {
        return false, warnings;
      }
      if m.msgType == "status" && m.executionState == "idle" {
        windowByteQueue := [];
        windowMsgCount, windowByteCount := 0, 0;
        msgsExceeded, dataExceeded := false, false;
      }
      if m.msgType in {"status", "comm_open", "execute_input"} {
        return false, warnings;
      }
      RemoveExpired(now);
      ghost var kept := windowByteQueue;

      var byteCount := Size(m);
      windowMsgCount := windowMsgCount + 1;
      windowByteCount := windowByteCount + byteCount;
      windowByteQueue := windowByteQueue + [Entry(now + cfg.window, byteCount)];
      ByteSumAppend(kept, [Entry(now + cfg.window, byteCount)]);

      var w1 := CheckMsgRate();
      var w2 := CheckDataRate();
      warnings := w1 + w2;
      if msgsExceeded || dataExceeded {
        windowMsgCount := windowMsgCount - 1;
        windowByteCount := windowByteCount - byteCount;
        windowByteQueue := windowByteQueue[..|windowByteQueue| - 1];
        assert windowByteQueue == kept;
        return true, warnings;
      }
      return false, warnings;
    }

    method CheckMsgRate() returns (warnings: seq<Warning>)
      requires Valid()
      modifies this`msgsExceeded
      ensures msgsExceeded == Exceeds(cfg.msgLimit, MsgAllowance(cfg), |windowByteQueue|, old(msgsExceeded))
      ensures warnings == if msgsExceeded && !old(msgsExceeded) then [MessageRate] else []
    {
      warnings := [];
      var msgRate := windowMsgCount as real / cfg.window;
      RateMeansCount(windowMsgCount as real, cfg.window, cfg.msgLimit);
      if cfg.msgLimit > 0.0 && msgRate > cfg.msgLimit {
        if !msgsExceeded {
          msgsExceeded := true;
          warnings := [MessageRate];
        }
      } else if msgsExceeded && msgRate < 0.8 * cfg.msgLimit {
        msgsExceeded := false;
      }
    }

    method CheckDataRate() returns (warnings: seq<Warning>)
      requires Valid()
      modifies this`dataExceeded
      ensures dataExceeded == Exceeds(cfg.dataLimit, DataAllowance(cfg), ByteSum(windowByteQueue), old(dataExceeded))
      ensures warnings == if dataExceeded && !old(dataExceeded) then [DataRate] else []
    {
      warnings := [];
      var dataRate := windowByteCount as real / cfg.window;
      RateMeansCount(windowByteCount as real, cfg.window, cfg.dataLimit);
      if cfg.dataLimit > 0.0 && dataRate > cfg.dataLimit {
        if !dataExceeded {
          dataExceeded := true;
          warnings := [DataRate];
        }
      } else if dataExceeded && dataRate < 0.8 * cfg.dataLimit {
        dataExceeded := false;
      }
    }

    method RemoveExpired(now: real)
      requires Valid()
      modifies this`windowByteQueue, this`windowMsgCount, this`windowByteCount
      ensures Valid() && windowByteQueue == Prune(old(windowByteQueue), now)
    {
      while |windowByteQueue| > 0
        invariant Valid()
        invariant Prune(windowByteQueue, now) == Prune(old(windowByteQueue), now)
        decreases |windowByteQueue|
      {
        var queued := windowByteQueue[0];
        if now >= queued.expires {
          windowByteCount := windowByteCount - queued.bytes;
          windowMsgCount := windowMsgCount - 1;
          windowByteQueue := windowByteQueue[1..];
        } else {
          break;
        }
      }
    }
  }

  // ---------------------------------------------------------------------
  // Runs
  // ---------------------------------------------------------------------

  datatype Event = Event(msg: Message, at: real)

  /** A run of the limiter: what arrived when, and what was done about it. */
  datatype RawRun = RawRun(events: seq<Event>, outcomes: seq<Outcome>)

  type Run = r: RawRun | |r.events| == |r.outcomes| witness RawRun([], [])

  /** The state before event `k`; at the end of the run, the final state. */
  function Before(r: Run, k: nat): State
    requires k <= |r.events|
  {
    if k == 0 then FRESH else r.outcomes[k - 1].state
  }

  predicate Follows(cfg: Limits, r: Run, k: nat)
    requires k < |r.events|
  {
    r.outcomes[k] == Step(cfg, Before(r, k), r.events[k].msg, r.events[k].at)
  }

  ghost predicate IsRun(cfg: Limits, r: Run) {
    forall k: nat :: k < |r.events| ==> Follows(cfg, r, k)
  }

  /** Every sequence of arrivals has a run. */
  function RunOf(cfg: Limits, events: seq<Event>): (r: Run)
    ensures r.events == events && IsRun(cfg, r)
  {
    if events == [] then RawRun([], [])
    else
      var n := |events| - 1;
      var r := RunOf(cfg, events[..n]);
      var full := RawRun(events, r.outcomes + [Step(cfg, Before(r, n), events[n].msg, events[n].at)]);
      assert forall k: nat :: k < n ==> Follows(cfg, r, k) && Before(full, k) == Before(r, k);
      full
  }

  /** And only one. */
  lemma {:induction false} RunIsUnique(cfg: Limits, r: Run)
    requires IsRun(cfg, r)
    ensures r == RunOf(cfg, r.events)
    decreases |r.events|
  {
    if r.events != [] {
      var n := |r.events| - 1;
      RunPrefix(cfg, r, n);
      RunIsUnique(cfg, RawRun(r.events[..n], r.outcomes[..n]));
      assert Follows(cfg, r, n);
      assert r.outcomes == r.outcomes[..n] + [r.outcomes[n]];
    }
  }

  lemma RunPrefix(cfg: Limits, r: Run, n: nat)
    requires IsRun(cfg, r) && n <= |r.events|
    ensures IsRun(cfg, RawRun(r.events[..n], r.outcomes[..n]))
  {
    var p: Run := RawRun(r.events[..n], r.outcomes[..n]);
    forall k: nat | k < n ensures Follows(cfg, p, k) {
      assert Follows(cfg, r, k) && Before(p, k) == Before(r, k);
    }
  }

  /** The clock never goes back. */
  predicate Monotone(r: Run) {
    forall i, j :: 0 <= i <= j < |r.events| ==> r.events[i].at <= r.events[j].at
  }

  /** Event `k` is a counted message and was forwarded. */
  predicate Forwarded(cfg: Limits, r: Run, k: nat)
    requires k < |r.events|
  {
    Counted(cfg, r.events[k].msg) && !r.outcomes[k].dropped
  }

  function EntryAt(cfg: Limits, r: Run, k: nat): Entry
    requires k < |r.events|
  {
    Entry(r.events[k].at + cfg.window, Size(r.events[k].msg))
  }

  /** The forwarded counted messages among events `i` to `j - 1`, in order. */
  function SentRange(cfg: Limits, r: Run, i: nat, j: nat): seq<Entry>
    requires i <= j <= |r.events|
    decreases j - i
  {
    if i == j then []
    else SentRange(cfg, r, i, j - 1) +
         (if Forwarded(cfg, r, j - 1) then [EntryAt(cfg, r, j - 1)] else [])
  }

  /** The forwarded counted messages among the first `n` events sent at a time in `[from, to)`. */
  function SentBetween(cfg: Limits, r: Run, n: nat, from: real, to: real): seq<Entry>
    requires n <= |r.events|
  {
    if n == 0 then []
    else SentBetween(cfg, r, n - 1, from, to) +
         (if Forwarded(cfg, r, n - 1) && from <= r.events[n - 1].at < to then [EntryAt(cfg, r, n - 1)] else [])
  }

  /** One past the last idle reset among the first `n` events, or 0. */
  function EpochStart(cfg: Limits, r: Run, n: nat): (k: nat)
    requires n <= |r.events|
    ensures k <= n
    ensures k > 0 ==> Resets(cfg, r.events[k - 1].msg)
    ensures forall i :: k <= i < n ==> !Resets(cfg, r.events[i].msg)
  {
    if n == 0 then 0 else if Resets(cfg, r.events[n - 1].msg) then n else EpochStart(cfg, r, n - 1)
  }

  function Unexpired(q: seq<Entry>, now: real): seq<Entry> {
    if q == [] then []
    else (if q[0].expires > now then [q[0]] else []) + Unexpired(q[1..], now)
  }

  predicate Sorted(q: seq<Entry>) {
    forall i, j :: 0 <= i <= j < |q| ==> q[i].expires <= q[j].expires
  }

  lemma UnexpiredAppend(p: seq<Entry>, q: seq<Entry>, now: real)
    ensures Unexpired(p + q, now) == Unexpired(p, now) + Unexpired(q, now)
  {
    if p == [] {
      assert p + q == q;
    } else {
      assert (p + q)[1..] == p[1..] + q;
      UnexpiredAppend(p[1..], q, now);
    }
  }

  lemma AllUnexpired(q: seq<Entry>, now: real)
    requires forall i :: 0 <= i < |q| ==> q[i].expires > now
    ensures Unexpired(q, now) == q
  {
    if q != [] {
      AllUnexpired(q[1..], now);
    }
  }

  lemma AllExpired(q: seq<Entry>, now: real)
    requires forall i :: 0 <= i < |q| ==> q[i].expires <= now
    ensures Unexpired(q, now) == [] && Prune(q, now) == []
  {
    if q != [] {
      AllExpired(q[1..], now);
    }
  }

  lemma PruneIsUnexpired(q: seq<Entry>, now: real)
    requires Sorted(q)
    ensures Prune(q, now) == Unexpired(q, now)
  {
    if q != [] && now >= q[0].expires {
      PruneIsUnexpired(q[1..], now);
    } else {
      AllUnexpired(q, now);
    }
  }

  /** Pruning twice is pruning at the later time. */
  lemma UnexpiredTwice(q: seq<Entry>, earlier: real, now: real)
    requires earlier <= now
    ensures Unexpired(Unexpired(q, earlier), now) == Unexpired(q, now)
  {
    if q != [] {
      UnexpiredTwice(q[1..], earlier, now);
      UnexpiredAppend(if q[0].expires > earlier then [q[0]] else [], Unexpired(q[1..], earlier), now);
    }
  }

  lemma SentRangeBounds(cfg: Limits, r: Run, i: nat, j: nat)
    requires i <= j <= |r.events| && Monotone(r)
    ensures var q := SentRange(cfg, r, i, j);
      Sorted(q) &&
      forall k :: 0 <= k < |q| ==>
        r.events[i].at + cfg.window <= q[k].expires <= r.events[j - 1].at + cfg.window
    decreases j - i
  {
    if i < j {
      SentRangeBounds(cfg, r, i, j - 1);
    }
  }

  lemma SentRangeSplit(cfg: Limits, r: Run, i: nat, m: nat, j: nat)
    requires i <= m <= j <= |r.events|
    ensures SentRange(cfg, r, i, j) == SentRange(cfg, r, i, m) + SentRange(cfg, r, m, j)
    decreases j - m
  {
    if m < j {
      SentRangeSplit(cfg, r, i, m, j - 1);
    }
  }

  /** The forwarded counted messages since the last idle reset. */
  function SentSinceReset(cfg: Limits, r: Run, n: nat): seq<Entry>
    requires n <= |r.events|
  {
    SentRange(cfg, r, EpochStart(cfg, r, n), n)
  }

  /** What event `k` does to the queue, without the arithmetic of the limits. */
  lemma QueueStep(cfg: Limits, r: Run, k: nat)
    requires IsRun(cfg, r) && k < |r.events|
    ensures var m, now := r.events[k].msg, r.events[k].at;
      Before(r, k + 1).queue ==
        if Resets(cfg, m) then []
        else if !Counted(cfg, m) then Before(r, k).queue
        else if !Forwarded(cfg, r, k) then Prune(Before(r, k).queue, now)
        else Prune(Before(r, k).queue, now) + [EntryAt(cfg, r, k)]
  {
    assert Follows(cfg, r, k);
  }

  lemma PrunedIsSuffix(q: seq<Entry>, now: real)
    ensures |Prune(q, now)| <= |q| && Prune(q, now) == q[|q| - |Prune(q, now)|..]
  {
  }

  lemma PrunedStaysSorted(q: seq<Entry>, e: Entry, now: real)
    requires Sorted(q) && forall x :: x in q ==> x.expires <= e.expires
    ensures var kept := Prune(q, now);
      Sorted(kept) && Sorted(kept + [e]) && forall x :: x in kept ==> x.expires <= e.expires
  {
    PrunedIsSuffix(q, now);
    hide Prune;
    assert forall x :: x in Prune(q, now) ==> x in q;
  }

  /** One counted message keeps a queue and a history in agreement at every later time. */
  lemma AgreementKept(q: seq<Entry>, history: seq<Entry>, e: Entry, now: real, later: real)
    requires Sorted(q) && Prune(q, now) == Unexpired(history, now) && now <= later
    requires forall x :: x in q ==> x.expires <= e.expires
    ensures var kept := Prune(q, now);
      && Sorted(kept) && Sorted(kept + [e])
      && Prune(kept, later) == Unexpired(history, later)
      && Prune(kept + [e], later) == Unexpired(history + [e], later)
      && (forall x :: x in kept ==> x.expires <= e.expires)
  {
    var kept := Prune(q, now);
    PrunedStaysSorted(q, e, now);
    hide *;
    UnexpiredTwice(history, now, later);
    UnexpiredAppend(kept, [e], later);
    UnexpiredAppend(history, [e], later);
    PruneIsUnexpired(kept, later);
    PruneIsUnexpired(kept + [e], later);
  }

  lemma HistoryGrows(cfg: Limits, r: Run, k: nat)
    requires k < |r.events| && !Resets(cfg, r.events[k].msg)
    ensures SentSinceReset(cfg, r, k + 1) ==
      if Forwarded(cfg, r, k) then SentSinceReset(cfg, r, k) + [EntryAt(cfg, r, k)]
      else SentSinceReset(cfg, r, k)
  {
  }

  /**
    The queue and the history agree on everything that has not expired yet,
    whatever was pruned on the way.
   */
  lemma {:induction false} QueueMatchesHistory(cfg: Limits, r: Run, n: nat, now: real)
    requires IsRun(cfg, r) && n <= |r.events| && Monotone(r)
    requires n > 0 ==> r.events[n - 1].at <= now
    ensures Sorted(Before(r, n).queue)
    ensures Prune(Before(r, n).queue, now) == Unexpired(SentSinceReset(cfg, r, n), now)
    ensures forall e :: e in Before(r, n).queue ==> e.expires <= now + cfg.window
  {
    if n > 0 {
      var k := n - 1;
      var q := Before(r, k).queue;
      QueueMatchesHistory(cfg, r, k, r.events[k].at);
      QueueStep(cfg, r, k);
      if !Resets(cfg, r.events[k].msg) {
        HistoryGrows(cfg, r, k);
        if Counted(cfg, r.events[k].msg) {
          AgreementKept(q, SentSinceReset(cfg, r, k), EntryAt(cfg, r, k), r.events[k].at, now);
        } else {
          QueueMatchesHistory(cfg, r, k, now);
        }
      }
    }
  }

  /**
    Refinement of the limiter: when a counted message has been pruned for, the
    queue is exactly the forwarded counted messages since the last idle reset
    that are still within the window; a dropped message leaves no trace in it.
   */
  lemma QueueIsTheLiveHistory(cfg: Limits, r: Run, k: nat)
    requires IsRun(cfg, r) && k < |r.events| && Monotone(r) && Counted(cfg, r.events[k].msg)
    ensures Prune(Before(r, k).queue, r.events[k].at)
         == Unexpired(SentSinceReset(cfg, r, k), r.events[k].at)
    ensures Before(r, k + 1).queue == Unexpired(SentSinceReset(cfg, r, k + 1), r.events[k].at)
  {
    var at := r.events[k].at;
    QueueMatchesHistory(cfg, r, k, at);
    QueueStep(cfg, r, k);
    HistoryGrows(cfg, r, k);
    UnexpiredAppend(SentSinceReset(cfg, r, k), [EntryAt(cfg, r, k)], at);
    AllUnexpired([EntryAt(cfg, r, k)], at);
  }

  /** A forwarded message leaves the whole queue within both limits. */
  lemma ForwardedWithinLimits(cfg: Limits, r: Run, k: nat)
    requires IsRun(cfg, r) && k < |r.events| && Forwarded(cfg, r, k)
    ensures var q := Before(r, k + 1).queue;
      (cfg.msgLimit > 0.0 ==> |q| as real <= MsgAllowance(cfg)) &&
      (cfg.dataLimit > 0.0 ==> ByteSum(q) as real <= DataAllowance(cfg))
  {
    assert Follows(cfg, r, k);
  }

  ghost predicate WithinLimits(cfg: Limits, sent: seq<Entry>) {
    && (cfg.msgLimit > 0.0 ==> |sent| as real <= cfg.msgLimit * cfg.window)
    && (cfg.dataLimit > 0.0 ==> ByteSum(sent) as real <= cfg.dataLimit * cfg.window)
  }

  /** At a counted message the queue still holds everything forwarded less than a window ago. */
  lemma StretchIsInQueue(cfg: Limits, r: Run, i: nat, j: nat) returns (rest: seq<Entry>)
    requires IsRun(cfg, r) && i < j <= |r.events| && Monotone(r) && Counted(cfg, r.events[j - 1].msg)
    requires r.events[j - 1].at < r.events[i].at + cfg.window
    requires forall k :: i <= k < j ==> !Resets(cfg, r.events[k].msg)
    ensures Before(r, j).queue == rest + SentRange(cfg, r, i, j)
  {
    var at := r.events[j - 1].at;
    var start := EpochStart(cfg, r, j);
    var earlier := SentRange(cfg, r, start, i);
    var recent := SentRange(cfg, r, i, j);
    QueueIsTheLiveHistory(cfg, r, j - 1);
    SentRangeSplit(cfg, r, start, i, j);
    UnexpiredAppend(earlier, recent, at);
    SentRangeBounds(cfg, r, i, j);
    AllUnexpired(recent, at);
    rest := Unexpired(earlier, at);
  }

  /** The rate bound for a stretch of consecutive events shorter than the window. */
  lemma {:induction false} StretchWithinLimits(cfg: Limits, r: Run, i: nat, j: nat)
    requires IsRun(cfg, r) && i <= j <= |r.events| && Monotone(r)
    requires i < j ==> r.events[j - 1].at < r.events[i].at + cfg.window
    requires forall k :: i <= k < j ==> !Resets(cfg, r.events[k].msg)
    ensures WithinLimits(cfg, SentRange(cfg, r, i, j))
    decreases j - i
  {
    if i == j {
      NothingSentIsWithin(cfg);
    } else if !Forwarded(cfg, r, j - 1) {
      StretchWithinLimits(cfg, r, i, j - 1);
      assert SentRange(cfg, r, i, j) == SentRange(cfg, r, i, j - 1);
    } else {
      var rest := StretchIsInQueue(cfg, r, i, j);
      ByteSumAppend(rest, SentRange(cfg, r, i, j));
      ForwardedWithinLimits(cfg, r, j - 1);
    }
  }

  lemma AllowancesPositive(cfg: Limits)
    ensures cfg.msgLimit > 0.0 ==> MsgAllowance(cfg) > 0.0
    ensures cfg.dataLimit > 0.0 ==> DataAllowance(cfg) > 0.0
  {
  }

  lemma NothingSentIsWithin(cfg: Limits)
    ensures WithinLimits(cfg, [])
  {
    AllowancesPositive(cfg);
  }

  /**
    Rate bound: in any half-open interval as long as the window, with no idle
    reset inside it, at most `limit * window` counted messages and stream bytes
    are forwarded, whatever arrives.
   */
  lemma {:induction false} RateBound(cfg: Limits, r: Run, n: nat, from: real)
    requires IsRun(cfg, r) && n <= |r.events| && Monotone(r)
    requires forall k :: 0 <= k < n && from <= r.events[k].at < from + cfg.window ==> !Resets(cfg, r.events[k].msg)
    ensures WithinLimits(cfg, SentBetween(cfg, r, n, from, from + cfg.window))
  {
    var to := from + cfg.window;
    if n == 0 {
      NothingSentIsWithin(cfg);
    } else if from <= r.events[n - 1].at < to {
      var i := FirstAt(r, n, from);
      SentBetweenIsStretch(cfg, r, i, n, from, to);
      StretchWithinLimits(cfg, r, i, n);
    } else {
      RateBound(cfg, r, n - 1, from);
      assert SentBetween(cfg, r, n, from, to) == SentBetween(cfg, r, n - 1, from, to);
    }
  }

  function FirstAt(r: Run, n: nat, from: real): (i: nat)
    requires n <= |r.events| && Monotone(r)
    ensures i <= n
    ensures forall k :: 0 <= k < i ==> r.events[k].at < from
    ensures forall k :: i <= k < n ==> from <= r.events[k].at
  {
    if n == 0 || r.events[n - 1].at < from then n else FirstAt(r, n - 1, from)
  }

  lemma SentBetweenIsStretch(cfg: Limits, r: Run, i: nat, n: nat, from: real, to: real)
    requires i <= n <= |r.events|
    requires forall k :: 0 <= k < i ==> r.events[k].at < from
    requires forall k :: i <= k < n ==> from <= r.events[k].at
    requires Monotone(r) && (n > 0 ==> r.events[n - 1].at < to)
    ensures SentBetween(cfg, r, n, from, to) == SentRange(cfg, r, i, n)
  {
    if i < n {
      SentBetweenIsStretch(cfg, r, i, n - 1, from, to);
    } else if 0 < n {
      SentBetweenIsStretch(cfg, r, n - 1, n - 1, from, to);
    }
  }

  // ---------------------------------------------------------------------
  // Blocking and warnings
  // ---------------------------------------------------------------------

  /** A flag can only be set for a limit that is switched on. */
  lemma FlagsNeedLimits(cfg: Limits, r: Run, n: nat)
    requires IsRun(cfg, r) && n <= |r.events|
    ensures Before(r, n).msgsExceeded ==> cfg.msgLimit > 0.0
    ensures Before(r, n).dataExceeded ==> cfg.dataLimit > 0.0
  {
    if n > 0 {
      FlagsNeedLimits(cfg, r, n - 1);
      assert Follows(cfg, r, n - 1);
    }
  }

  // ---------------------------------------------------------------------
  // After a silence
  // ---------------------------------------------------------------------

  predicate Flag(s: State, w: Warning) {
    if w == MessageRate then s.msgsExceeded else s.dataExceeded
  }

  function Limit(cfg: Limits, w: Warning): real {
    if w == MessageRate then cfg.msgLimit else cfg.dataLimit
  }

  function Allowance(cfg: Limits, w: Warning): real {
    if w == MessageRate then MsgAllowance(cfg) else DataAllowance(cfg)
  }

  /** What a message counts for one of the limits. */
  function Amount(w: Warning, m: Message): nat {
    if w == MessageRate then 1 else Size(m)
  }

  /** The message is within the limit on its own, and below 80% of it if that limit has been exceeded. */
  predicate Admits(cfg: Limits, w: Warning, m: Message, flag: bool) {
    && (Limit(cfg, w) > 0.0 ==> Amount(w, m) as real <= Allowance(cfg, w))
    && (flag ==> (Amount(w, m) as real) < 0.8 * Allowance(cfg, w))
  }

  /** Nothing was forwarded in the window before event `k`. */
  predicate Silent(cfg: Limits, r: Run, k: nat)
    requires k < |r.events|
  {
    forall i :: 0 <= i < k && Forwarded(cfg, r, i) ==> r.events[i].at + cfg.window <= r.events[k].at
  }

  lemma EverythingExpired(cfg: Limits, r: Run, i: nat, j: nat, now: real)
    requires i <= j <= |r.events|
    requires forall k :: i <= k < j && Forwarded(cfg, r, k) ==> r.events[k].at + cfg.window <= now
    ensures forall x :: 0 <= x < |SentRange(cfg, r, i, j)| ==> SentRange(cfg, r, i, j)[x].expires <= now
    decreases j - i
  {
    if i < j {
      EverythingExpired(cfg, r, i, j - 1, now);
    }
  }

  lemma SilenceEmptiesTheQueue(cfg: Limits, r: Run, k: nat)
    requires IsRun(cfg, r) && k < |r.events| && Monotone(r) && Silent(cfg, r, k)
    ensures Prune(Before(r, k).queue, r.events[k].at) == []
  {
    QueueMatchesHistory(cfg, r, k, r.events[k].at);
    EverythingExpired(cfg, r, EpochStart(cfg, r, k), k, r.events[k].at);
    AllExpired(SentSinceReset(cfg, r, k), r.events[k].at);
  }

  /** After a silent window a counted message is forwarded exactly if both limits admit it on its own. */
  lemma AfterSilenceForwardedIff(cfg: Limits, r: Run, k: nat)
    requires IsRun(cfg, r) && k < |r.events| && Monotone(r) && Counted(cfg, r.events[k].msg) && Silent(cfg, r, k)
    ensures Forwarded(cfg, r, k) <==>
      && Admits(cfg, MessageRate, r.events[k].msg, Before(r, k).msgsExceeded)
      && Admits(cfg, DataRate, r.events[k].msg, Before(r, k).dataExceeded)
  {
    var m, now := r.events[k].msg, r.events[k].at;
    SilenceEmptiesTheQueue(cfg, r, k);
    assert Follows(cfg, r, k);
    var e := Entry(now + cfg.window, Size(m));
    assert [] + [e] == [e] && ByteSum([e]) == e.bytes;
  }

  /** The message alone stays below 80% of every limit that is switched on. */
  predicate Fits(cfg: Limits, m: Message) {
    forall w :: Limit(cfg, w) > 0.0 ==> (Amount(w, m) as real) < 0.8 * Allowance(cfg, w)
  }

  /**
    Bounded blocking: whatever the flags, a counted message that comes at least
    one window after the last forwarded one is forwarded, provided that it fits
    below 80% of each limit on its own.
   */
  lemma BlockingIsBounded(cfg: Limits, r: Run, k: nat)
    requires IsRun(cfg, r) && k < |r.events| && Monotone(r) && Counted(cfg, r.events[k].msg) && Silent(cfg, r, k)
    requires Fits(cfg, r.events[k].msg)
    ensures Forwarded(cfg, r, k)
  {
    FlagsNeedLimits(cfg, r, k);
    AllowancesPositive(cfg);
    assert Limit(cfg, MessageRate) == cfg.msgLimit && Limit(cfg, DataRate) == cfg.dataLimit;
    AfterSilenceForwardedIff(cfg, r, k);
  }

  /** The message gets through after every silence, in every run. */
  ghost predicate AlwaysGetsThrough(cfg: Limits, m: Message) {
    forall r: Run, k: nat ::
      IsRun(cfg, r) && Monotone(r) && k < |r.events| && r.events[k].msg == m && Silent(cfg, r, k) ==>
        Forwarded(cfg, r, k)
  }

  /** Output without bytes; or, for the data limit, more bytes at once than a window allows. */
  function Offender(cfg: Limits, w: Warning): Message {
    if w == MessageRate || DataAllowance(cfg) < 0.0 then Message(Iopub, "display_data", "", [])
    else Message(Iopub, "stream", "", [seq(DataAllowance(cfg).Floor + 1, _ => 0 as byte)])
  }

  /** Two offenders, then after any silence of at least a window the message itself. */
  function Provoked(cfg: Limits, w: Warning, m: Message, at: real): seq<Event> {
    [Event(Offender(cfg, w), 0.0), Event(Offender(cfg, w), 0.0), Event(m, at)]
  }

  lemma OffenderSize(cfg: Limits)
    requires cfg.dataLimit > 0.0
    ensures Size(Offender(cfg, MessageRate)) == 0
    ensures Size(Offender(cfg, DataRate)) as real > DataAllowance(cfg)
  {
    AllowancesPositive(cfg);
    var parts := Offender(cfg, DataRate).parts;
    assert parts[1..] == [] && TotalLength(parts) == |parts[0]| + TotalLength(parts[1..]);
  }

  /** The offenders set the flag. */
  lemma OffendersSetTheFlag(cfg: Limits, w: Warning, m: Message, r: Run)
    requires cfg.enabled && Limit(cfg, w) > 0.0 && !((Amount(w, m) as real) < 0.8 * Allowance(cfg, w))
    requires IsRun(cfg, r) && |r.events| >= 2
    requires r.events[0] == r.events[1] == Event(Offender(cfg, w), 0.0)
    ensures Flag(Before(r, 2), w)
  {
    var o := Offender(cfg, w);
    AllowancesPositive(cfg);
    if w == DataRate {
      OffenderSize(cfg);
    }
    assert Follows(cfg, r, 0) && Follows(cfg, r, 1);
    var e := Entry(0.0 + cfg.window, Size(o));
    assert [] + [e] == [e] && ByteSum([e]) == e.bytes && ByteSum([e, e]) == e.bytes + ByteSum([e, e][1..]);
    assert [e, e][1..] == [e] && [e] + [e] == [e, e];
  }

  /**
    A message that does not fit below 80% of a limit can be blocked after any
    silence: for every such limit there are runs in which it is, however long
    the silence.
   */
  lemma MisfitCanBeBlocked(cfg: Limits, w: Warning, m: Message, at: real)
    requires Counted(cfg, m) && Limit(cfg, w) > 0.0 && !((Amount(w, m) as real) < 0.8 * Allowance(cfg, w)) &&
        at >= cfg.window
    ensures var r := RunOf(cfg, Provoked(cfg, w, m, at));
      Monotone(r) && Silent(cfg, r, 2) && !Forwarded(cfg, r, 2)
  {
    var r := RunOf(cfg, Provoked(cfg, w, m, at));
    OffendersSetTheFlag(cfg, w, m, r);
    AfterSilenceForwardedIff(cfg, r, 2);
  }

  /** Exactly the messages that fit below 80% of each limit always get through after a silent window. */
  lemma GetsThroughIff(cfg: Limits, m: Message)
    requires Counted(cfg, m)
    ensures AlwaysGetsThrough(cfg, m) <==> Fits(cfg, m)
  {
    if Fits(cfg, m) {
      forall r: Run, k: nat | IsRun(cfg, r) && Monotone(r) && k < |r.events| &&
          r.events[k].msg == m && Silent(cfg, r, k)
        ensures Forwarded(cfg, r, k)
      {
        BlockingIsBounded(cfg, r, k);
      }
    } else {
      var w :| Limit(cfg, w) > 0.0 && !((Amount(w, m) as real) < 0.8 * Allowance(cfg, w));
      MisfitCanBeBlocked(cfg, w, m, cfg.window);
    }
  }

  /** In figures: one message, and its bytes if it is a stream, against 80% of a window at each limit. */
  lemma FitsInFigures(cfg: Limits, m: Message)
    ensures Fits(cfg, m) <==>
      && (cfg.msgLimit > 0.0 ==> 1.0 < 0.8 * (cfg.msgLimit * cfg.window))
      && (cfg.dataLimit > 0.0 ==>
            (if m.msgType == "stream" then TotalLength(m.parts) as real else 0.0) < 0.8 * (cfg.dataLimit * cfg.window))
  {
    assert MsgAllowance(cfg) == cfg.msgLimit * cfg.window && DataAllowance(cfg) == cfg.dataLimit * cfg.window;
    hide TotalLength, MsgAllowance, DataAllowance;
    assert Limit(cfg, MessageRate) == cfg.msgLimit && Limit(cfg, DataRate) == cfg.dataLimit;
    assert Amount(MessageRate, m) == 1;
    assert Amount(DataRate, m) == if m.msgType == "stream" then TotalLength(m.parts) else 0;
  }

  /**
    While one limit has been exceeded, messages that do not fit below 80% of it
    are dropped for good: until the next idle reset, however long the silence.
   */
  lemma {:induction false} MisfitsBlockForGood(cfg: Limits, r: Run, w: Warning, i: nat, k: nat)
    requires IsRun(cfg, r) && i <= k < |r.events| && Flag(Before(r, i), w)
    requires forall x :: i <= x <= k ==> !Resets(cfg, r.events[x].msg)
    requires forall x :: i <= x <= k && Counted(cfg, r.events[x].msg) ==>
      !((Amount(w, r.events[x].msg) as real) < 0.8 * Allowance(cfg, w))
    ensures Flag(Before(r, k + 1), w)
    ensures Counted(cfg, r.events[k].msg) ==> r.outcomes[k].dropped
    decreases k
  {
    if i < k {
      MisfitsBlockForGood(cfg, r, w, i, k - 1);
    }
    assert Follows(cfg, r, k);
    var kept, e := Prune(Before(r, k).queue, r.events[k].at), Entry(r.events[k].at + cfg.window, Size(r.events[k].msg));
    ByteSumAppend(kept, [e]);
    assert ByteSum([e]) == e.bytes;
  }

  /** How often event `k` writes warning `w` to stderr. */
  function WarnedBy(cfg: Limits, r: Run, w: Warning, k: nat): nat
    requires k < |r.events|
  {
    multiset(r.outcomes[k].warnings)[w]
  }

  /** How often events `i` to `j - 1` write it. */
  function Warned(cfg: Limits, r: Run, w: Warning, i: nat, j: nat): nat
    requires i <= j <= |r.events|
    decreases j - i
  {
    if i == j then 0 else Warned(cfg, r, w, i, j - 1) + WarnedBy(cfg, r, w, j - 1)
  }

  /** Event `k` begins an exceeded episode: it sets a flag that it did not find set. */
  predicate Begins(cfg: Limits, r: Run, w: Warning, k: nat)
    requires k < |r.events|
  {
    Flag(Before(r, k + 1), w) && (Flag(Before(r, k), w) ==> Resets(cfg, r.events[k].msg))
  }

  /** A warning is written exactly by the events that begin an episode. */
  lemma WarningsBeginEpisodes(cfg: Limits, r: Run, w: Warning, k: nat)
    requires IsRun(cfg, r) && k < |r.events|
    ensures WarnedBy(cfg, r, w, k) == if Begins(cfg, r, w, k) then 1 else 0
  {
    assert Follows(cfg, r, k);
  }

  /**
    Each warning is written exactly once per exceeded episode: whenever a flag
    is set, some earlier event began the episode, the flag has been set ever
    since, and only that event wrote the warning.
   */
  lemma {:induction false} OneWarningPerEpisode(cfg: Limits, r: Run, w: Warning, n: nat) returns (start: nat)
    requires IsRun(cfg, r) && n <= |r.events| && Flag(Before(r, n), w)
    ensures start < n && Begins(cfg, r, w, start)
    ensures forall k :: start < k <= n ==> Flag(Before(r, k), w)
    ensures WarnedBy(cfg, r, w, start) == 1 == Warned(cfg, r, w, start, n)
  {
    if n == 0 {
      assert false;
    } else {
      WarningsBeginEpisodes(cfg, r, w, n - 1);
      if Begins(cfg, r, w, n - 1) {
        start := n - 1;
        assert Warned(cfg, r, w, start, start) == 0;
      } else {
        start := OneWarningPerEpisode(cfg, r, w, n - 1);
      }
    }
  }
}
