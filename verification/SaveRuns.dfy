/**
  Runs of saves and reads of one notebook: saves that complete, that fail at any
  point, that a crash cuts off, in any order, with or without reads in between.

  Between operations the disk is in one of two states.  Either the file holds a
  notebook; or it is half saved: it holds the beginning of one, and the old
  notebook is beside it in the intermediate file, for the next read to restore.
  A save that fails when it is flushed leaves the same as a crash, since flushing
  lies outside of what restores the backup; and the next save overwrites it.
 */
module SaveRuns {
  import opened Common
  import opened Utf8
  import opened AtomicSave

  datatype Op =
    | Save(text: string, fault: Fault)
    | Crash(text: string, fault: Fault, at: nat)   // a save cut off at one of its moments
    | Read

  function Moments(d: Disk, path: string, op: Op): seq<Disk>
    requires !op.Read?
  {
    SaveTrace(d, path, Encode(op.text), op.fault).moments
  }

  /** The disk after an operation. */
  function Perform<N>(d: Disk, path: string, parse: string -> Option<N>, op: Op): Disk {
    match op
    case Save(_, _) => Final(d, Moments(d, path, op))
    case Crash(_, _, at) => if at < |Moments(d, path, op)| then Moments(d, path, op)[at] else d
    case Read => Reading(d, path, parse, true).1
  }

  function PerformAll<N>(d: Disk, path: string, parse: string -> Option<N>, ops: seq<Op>): Disk {
    if ops == [] then d else Perform(PerformAll(d, path, parse, ops[..|ops| - 1]), path, parse, ops[|ops| - 1])
  }

  /** The notebook that the next read gives, if it gives one. */
  function Kept<N>(d: Disk, path: string, parse: string -> Option<N>): Option<N> {
    var r := Reading(d, path, parse, true).0;
    if r.Ok? then Some(r.value) else None
  }

  /** No beginning of the contents is a notebook, and the old one is in the intermediate file. */
  ghost predicate HalfSaved<N(!new)>(d: Disk, path: string, parse: string -> Option<N>, old_: N) {
    && path in d && Intermediate(path) in d && Decode(d[path]).Some?
    && (forall j :: 0 <= j <= |d[path]| ==> Parsed(d[path][..j], parse).None?)
    && Parsed(d[Intermediate(path)], parse) == Some(old_)
  }

  /** What a run keeps: a notebook in the file, or half saved beside it. */
  ghost predicate Safe<N(!new)>(d: Disk, path: string, parse: string -> Option<N>, nb: N) {
    Content(d, path, parse) == Some(nb) || HalfSaved(d, path, parse, nb)
  }

  /** Once a beginning of the text parses, so do all longer ones. */
  ghost predicate StaysParsed<N(!new)>(parse: string -> Option<N>, text: string) {
    forall j, k :: 0 <= j <= k <= |text| && parse(text[..j]).Some? ==> parse(text[..k]).Some?
  }

  ghost predicate GoodText<N(!new)>(parse: string -> Option<N>, text: string) {
    parse(text).Some? && Serialises(parse, text, parse(text).value) && StaysParsed(parse, text)
  }

  /** The texts saved serialise notebooks, and neither a crash nor a failed flush cuts a character in two. */
  ghost predicate Sane<N(!new)>(d: Disk, path: string, parse: string -> Option<N>, op: Op) {
    !op.Read? ==>
      && GoodText(parse, op.text)
      && path in Perform(d, path, parse, op) && Decode(Perform(d, path, parse, op)[path]).Some?
  }

  // ---------------------------------------------------------------------
  // From a whole notebook
  // ---------------------------------------------------------------------

  lemma NoBeginningParses<N(!new)>(parse: string -> Option<N>, text: string, k: nat, j: nat)
    requires StaysParsed(parse, text) && j <= k <= |Encode(text)|
    requires Decode(Encode(text)[..k]).Some? && Parsed(Encode(text)[..k], parse).None?
    ensures Parsed(Encode(text)[..j], parse).None?
  {
    if Decode(Encode(text)[..j]).Some? {
      DecodeCut(text, k);
      DecodeCut(text, j);
      var b :| 0 <= b <= |text| && Decode(Encode(text)[..k]) == Some(text[..b]) &&
               Encode(text)[..k] == Encode(text[..b]);
      var a :| 0 <= a <= |text| && Decode(Encode(text)[..j]) == Some(text[..a]) &&
               Encode(text)[..j] == Encode(text[..a]);
      hide Encode, Decode;
      if b < a {
        LongerIsLonger(text, b, a);
      }
    }
  }

  /** Any moment of a save over a notebook leaves the file whole, or half saved over that notebook. */
  lemma MomentIsSafe<N(!new)>(
    d: Disk, path: string, parse: string -> Option<N>, old_: N, text: string, fault: Fault, m: Disk
  )
    requires Content(d, path, parse) == Some(old_) && GoodText(parse, text)
    requires m in SaveTrace(d, path, Encode(text), fault).moments && path in m && Decode(m[path]).Some?
    ensures Safe(m, path, parse, old_) || Content(m, path, parse) == parse(text)
  {
    var data := Encode(text);
    MomentsOfSave(d, path, data, fault, m);
    DecodeEncode(text);
    hide SaveTrace, Encode, Decode, Intermediate;
    if Content(m, path, parse) != Some(old_) && Content(m, path, parse) != parse(text) {
      var k :| 0 <= k <= |data| && m[path] == data[..k];
      CutParsesAs(parse, text, k);
      forall j | 0 <= j <= k ensures Parsed(m[path][..j], parse).None? {
        assert m[path][..j] == data[..j];
        NoBeginningParses(parse, text, k, j);
      }
    }
  }

  /** A cut that parses gives the notebook of the whole text. */
  lemma CutParsesAs<N(!new)>(parse: string -> Option<N>, text: string, k: nat)
    requires GoodText(parse, text) && k <= |Encode(text)| && Decode(Encode(text)[..k]).Some?
    ensures Parsed(Encode(text)[..k], parse).None? || Parsed(Encode(text)[..k], parse) == parse(text)
  {
    DecodeCut(text, k);
    assert text[..|text|] == text;
  }

  // ---------------------------------------------------------------------
  // From a half saved one
  // ---------------------------------------------------------------------

  lemma HalfSavedReads<N(!new)>(d: Disk, path: string, parse: string -> Option<N>, old_: N)
    requires HalfSaved(d, path, parse, old_)
    ensures Content(d, path, parse).None?
    ensures Reading(d, path, parse, true).0 == Ok(old_)
    ensures Content(Reading(d, path, parse, true).1, path, parse) == Some(old_)
  {
    NamesDiffer(path);
    assert d[path][..|d[path]|] == d[path];
    hide Intermediate, Invalid, Decode;
    var restored := Replaced(Replaced(d, path, Invalid(path)), Intermediate(path), path);
    assert restored[path] == d[Intermediate(path)];
  }

  /** A save over any file makes the backup of that file, and nothing else, in the intermediate. */
  lemma BackupOfHalf(d: Disk, path: string, data: Bytes, fault: Fault, m: Disk)
    requires path in d && m in SaveTrace(d, path, data, fault).moments
    ensures path in m
    ensures Intermediate(path) in m ==> exists k :: 0 <= k <= |d[path]| && m[Intermediate(path)] == d[path][..k]
  {
    NamesDiffer(path);
    var t := SaveTrace(d, path, data, fault);
    var i :| 0 <= i < |t.moments| && t.moments[i] == m;
    assert d[path][..|d[path]|] == d[path];
  }

  /** Without a notebook in the file nor in the intermediate, there is nothing left to read. */
  lemma NothingKept<N(!new)>(m: Disk, path: string, parse: string -> Option<N>)
    requires path in m && Content(m, path, parse).None?
    requires Intermediate(path) in m ==> Parsed(m[Intermediate(path)], parse).None?
    ensures Kept(m, path, parse) == None
  {
    NamesDiffer(path);
    var tmp := Intermediate(path);
    if tmp in m && Decode(m[path]).Some? {
      hide Intermediate, Invalid, Decode;
      var restored := Replaced(Replaced(m, path, Invalid(path)), tmp, path);
      assert restored[path] == m[tmp] && tmp !in restored;
      assert Reading(restored, path, parse, true).0.Err?;
    }
  }

  /** From its first moment on, a save over a half saved file gives up the old notebook for the new one. */
  lemma MomentOverHalf<N(!new)>(
    d: Disk, path: string, parse: string -> Option<N>, old_: N, data: Bytes, fault: Fault, m: Disk
  )
    requires HalfSaved(d, path, parse, old_) && m in SaveTrace(d, path, data, fault).moments
    ensures path in m && Kept(m, path, parse) == Content(m, path, parse)
  {
    BackupOfHalf(d, path, data, fault, m);
    if Content(m, path, parse).None? {
      hide SaveTrace, Intermediate, Decode;
      NothingKept(m, path, parse);
    }
  }

  // ---------------------------------------------------------------------
  // One operation
  // ---------------------------------------------------------------------

  /**
    An operation that overwrites the backup of a half saved file, and does not
    get so far as to leave a notebook in its place.
   */
  predicate Unfinished<N>(d: Disk, path: string, parse: string -> Option<N>, op: Op) {
    match op
    case Read => false
    case Save(_, NoFault) => false
    case Save(_, NotWritable) => false
    case Save(_, CopyFails(_)) => true
    case Save(_, BodyFails(_)) => true
    case Save(text, FlushFails(n)) => Parsed(Encode(text)[..Min(n, |Encode(text)|)], parse).None?
    case Crash(_, _, at) =>
      at < |Moments(d, path, op)| && Content(Moments(d, path, op)[at], path, parse).None?
  }

  /** The operation completes a save, or is cut off and may have. */
  predicate MayLeave(op: Op) {
    op.Crash? || (op.Save? && (op.fault.NoFault? || op.fault.FlushFails?))
  }

  lemma SafeIsKept<N(!new)>(d: Disk, path: string, parse: string -> Option<N>, nb: N)
    requires Safe(d, path, parse, nb)
    ensures Kept(d, path, parse) == Some(nb)
    ensures path in d && Decode(d[path]).Some?
  {
    if Content(d, path, parse) != Some(nb) {
      HalfSavedReads(d, path, parse, nb);
    }
  }

  lemma ReadKeeps<N(!new)>(d: Disk, path: string, parse: string -> Option<N>, nb: N)
    requires Safe(d, path, parse, nb)
    ensures Content(Perform(d, path, parse, Read), path, parse) == Some(nb)
  {
    if Content(d, path, parse) != Some(nb) {
      HalfSavedReads(d, path, parse, nb);
    }
  }

  lemma CompletedSaveKeeps<N(!new)>(d: Disk, path: string, parse: string -> Option<N>, text: string)
    requires path in d
    ensures Content(Perform(d, path, parse, Save(text, NoFault)), path, parse) == parse(text)
  {
    NamesDiffer(path);
    SaveEnds(d, path, Encode(text), NoFault);
    DecodeEncode(text);
  }

  /** Saves that fail and say so before the end leave the file as it was. */
  lemma FailedSaveKeepsFile<N(!new)>(d: Disk, path: string, parse: string -> Option<N>, op: Op)
    requires path in d && op.Save? && (op.fault.NotWritable? || op.fault.CopyFails? || op.fault.BodyFails?)
    ensures path in Perform(d, path, parse, op) && Perform(d, path, parse, op)[path] == d[path]
    ensures op.fault.NotWritable? ==> Perform(d, path, parse, op) == d
  {
    NamesDiffer(path);
    SaveEnds(d, path, Encode(op.text), op.fault);
    var after := Perform(d, path, parse, op);
    var tmp := Intermediate(path);
    hide SaveTrace, Intermediate, Encode;
    assert path in d - {tmp} && (d - {tmp})[path] == d[path];
    assert op.fault.CopyFails? ==> (after - {tmp})[path] == (d - {tmp})[path];
  }

  lemma FinalIsAMoment<N(!new)>(d: Disk, path: string, parse: string -> Option<N>, op: Op)
    requires op.Save? && (op.fault.FlushFails? || op.fault.CopyFails? || op.fault.BodyFails?) && path in d
    ensures Perform(d, path, parse, op) in Moments(d, path, op)
  {
    var moments := Moments(d, path, op);
    assert |moments| > 0;
  }

  /** From a whole notebook every operation is safe, and leaves that notebook or the new one. */
  lemma WholeStaysSafe<N(!new)>(d: Disk, path: string, parse: string -> Option<N>, op: Op, nb: N)
    requires Content(d, path, parse) == Some(nb) && Sane(d, path, parse, op)
    ensures var after := Perform(d, path, parse, op);
      Safe(after, path, parse, nb) || (MayLeave(op) && Content(after, path, parse) == parse(op.text))
  {
    hide SaveTrace, Encode, Decode, Intermediate, GoodText;
    match op
    case Read => ReadKeeps(d, path, parse, nb);
    case Save(text, fault) =>
      if fault.NoFault? {
        CompletedSaveKeeps(d, path, parse, text);
      } else if fault.FlushFails? {
        FinalIsAMoment(d, path, parse, op);
        MomentIsSafe(d, path, parse, nb, text, fault, Perform(d, path, parse, op));
      } else {
        FailedSaveKeepsFile(d, path, parse, op);
      }
    case Crash(text, fault, at) =>
      if at < |Moments(d, path, op)| {
        MomentIsSafe(d, path, parse, nb, text, fault, Perform(d, path, parse, op));
      }
  }

  /** From a half saved one, exactly the operations that are not left unfinished are. */
  lemma HalfStaysSafeIff<N(!new)>(d: Disk, path: string, parse: string -> Option<N>, op: Op, nb: N)
    requires HalfSaved(d, path, parse, nb) && Sane(d, path, parse, op)
    ensures var after := Perform(d, path, parse, op);
      && (Unfinished(d, path, parse, op) ==> Kept(after, path, parse) == None)
      && (!Unfinished(d, path, parse, op) ==>
            Safe(after, path, parse, nb) || (MayLeave(op) && Content(after, path, parse) == parse(op.text)))
  {
    hide SaveTrace, Encode, Decode, Intermediate, GoodText;
    match op
    case Read => ReadKeeps(d, path, parse, nb);
    case Save(text, fault) => SaveOverHalf(d, path, parse, op, nb);
    case Crash(text, fault, at) =>
      if at < |Moments(d, path, op)| {
        var m := Perform(d, path, parse, op);
        MomentOverHalf(d, path, parse, nb, Encode(text), fault, m);
        if Content(m, path, parse).Some? {
          CrashOverHalf(d, path, parse, nb, text, fault, m);
        }
      }
  }

  lemma SaveOverHalf<N(!new)>(d: Disk, path: string, parse: string -> Option<N>, op: Op, nb: N)
    requires HalfSaved(d, path, parse, nb) && Sane(d, path, parse, op) && op.Save?
    ensures var after := Perform(d, path, parse, op);
      && (Unfinished(d, path, parse, op) ==> Kept(after, path, parse) == None)
      && (!Unfinished(d, path, parse, op) ==>
            Safe(after, path, parse, nb) || (MayLeave(op) && Content(after, path, parse) == parse(op.text)))
  {
    var after := Perform(d, path, parse, op);
    HalfSavedReads(d, path, parse, nb);
    match op.fault {
      case NoFault =>
        CompletedSaveKeeps(d, path, parse, op.text);
      case NotWritable =>
        FailedSaveKeepsFile(d, path, parse, op);
      case FlushFails(_) =>
        FlushOverHalf(d, path, parse, op, nb);
      case _ =>
        FailedSaveKeepsFile(d, path, parse, op);
        FinalIsAMoment(d, path, parse, op);
        MomentOverHalf(d, path, parse, nb, Encode(op.text), op.fault, after);
    }
  }

  lemma FlushOverHalf<N(!new)>(d: Disk, path: string, parse: string -> Option<N>, op: Op, nb: N)
    requires HalfSaved(d, path, parse, nb) && Sane(d, path, parse, op) && op.Save? && op.fault.FlushFails?
    ensures var after := Perform(d, path, parse, op);
      && (Unfinished(d, path, parse, op) ==> Kept(after, path, parse) == None)
      && (!Unfinished(d, path, parse, op) ==> Content(after, path, parse) == parse(op.text))
  {
    var after := Perform(d, path, parse, op);
    FinalIsAMoment(d, path, parse, op);
    MomentOverHalf(d, path, parse, nb, Encode(op.text), op.fault, after);
    FlushedOver(d, path, parse, op);
    CutParsesAs(parse, op.text, Min(op.fault.after, |Encode(op.text)|));
  }

  /** A failed flush leaves what was written of the new contents. */
  lemma FlushedOver<N(!new)>(d: Disk, path: string, parse: string -> Option<N>, op: Op)
    requires path in d && op.Save? && op.fault.FlushFails?
    ensures var data := Encode(op.text);
      Content(Perform(d, path, parse, op), path, parse) == Parsed(data[..Min(op.fault.after, |data|)], parse)
  {
    NamesDiffer(path);
    SaveEnds(d, path, Encode(op.text), op.fault);
  }

  /** What parses at a moment of a save over a half saved file is the new notebook. */
  lemma CrashOverHalf<N(!new)>(
    d: Disk, path: string, parse: string -> Option<N>, old_: N, text: string, fault: Fault, m: Disk
  )
    requires HalfSaved(d, path, parse, old_) && GoodText(parse, text)
    requires m in SaveTrace(d, path, Encode(text), fault).moments && Content(m, path, parse).Some?
    ensures Content(m, path, parse) == parse(text)
  {
    var data := Encode(text);
    MomentsOfSave(d, path, data, fault, m);
    DecodeEncode(text);
    HalfSavedReads(d, path, parse, old_);
    hide SaveTrace, Encode, Decode, Intermediate;
    if m[path] != d[path] && m[path] != data {
      var k :| 0 <= k <= |data| && m[path] == data[..k];
      CutParsesAs(parse, text, k);
    }
  }

  // ---------------------------------------------------------------------
  // Runs
  // ---------------------------------------------------------------------

  /** The disk after the first `n` operations. */
  function DiskAfter<N>(d: Disk, path: string, parse: string -> Option<N>, ops: seq<Op>, n: nat): Disk
    requires n <= |ops|
  {
    PerformAll(d, path, parse, ops[..n])
  }

  lemma NoOps<N(!new)>(d: Disk, path: string, parse: string -> Option<N>, ops: seq<Op>)
    ensures DiskAfter(d, path, parse, ops, 0) == d
    ensures DiskAfter(d, path, parse, ops, |ops|) == PerformAll(d, path, parse, ops)
  {
    assert ops[..0] == [] && ops[..|ops|] == ops;
  }

  lemma OneMoreOp<N(!new)>(d: Disk, path: string, parse: string -> Option<N>, ops: seq<Op>, n: nat)
    requires n < |ops|
    ensures DiskAfter(d, path, parse, ops, n + 1) == Perform(DiskAfter(d, path, parse, ops, n), path, parse, ops[n])
  {
    assert ops[..n + 1][..n] == ops[..n] && ops[..n + 1][n] == ops[n];
  }

  ghost predicate SaneAt<N(!new)>(d: Disk, path: string, parse: string -> Option<N>, ops: seq<Op>, n: nat)
    requires n < |ops|
  {
    Sane(DiskAfter(d, path, parse, ops, n), path, parse, ops[n])
  }

  /** Operation `n` finds the file without a notebook, and does not finish. */
  predicate LosesAt<N>(d: Disk, path: string, parse: string -> Option<N>, ops: seq<Op>, n: nat)
    requires n < |ops|
  {
    var before := DiskAfter(d, path, parse, ops, n);
    Content(before, path, parse).None? && Unfinished(before, path, parse, ops[n])
  }

  function KeptAfter<N>(d: Disk, path: string, parse: string -> Option<N>, ops: seq<Op>, n: nat): Option<N>
    requires n <= |ops|
  {
    Kept(DiskAfter(d, path, parse, ops, n), path, parse)
  }

  ghost predicate SafeAfter<N(!new)>(d: Disk, path: string, parse: string -> Option<N>, ops: seq<Op>, n: nat)
    requires n <= |ops|
  {
    exists nb :: Safe(DiskAfter(d, path, parse, ops, n), path, parse, nb)
  }

  /** As long as the notebook is safe, the operations are sane. */
  ghost predicate SaneRun<N(!new)>(d: Disk, path: string, parse: string -> Option<N>, ops: seq<Op>) {
    forall n :: 0 <= n < |ops| && SafeAfter(d, path, parse, ops, n) ==> SaneAt(d, path, parse, ops, n)
  }

  /** One operation of a run. */
  lemma RunStep<N(!new)>(d: Disk, path: string, parse: string -> Option<N>, ops: seq<Op>, n: nat)
    requires n < |ops| && SafeAfter(d, path, parse, ops, n) && SaneAt(d, path, parse, ops, n)
    ensures LosesAt(d, path, parse, ops, n) ==> KeptAfter(d, path, parse, ops, n + 1) == None
    ensures var before, after := KeptAfter(d, path, parse, ops, n), KeptAfter(d, path, parse, ops, n + 1);
      !LosesAt(d, path, parse, ops, n) ==>
        && SafeAfter(d, path, parse, ops, n + 1) && after.Some?
        && (after == before || (MayLeave(ops[n]) && after == parse(ops[n].text)))
        && (ops[n].Save? && ops[n].fault.NoFault? ==> after == parse(ops[n].text))
  {
    OneMoreOp(d, path, parse, ops, n);
    var disk := DiskAfter(d, path, parse, ops, n);
    var nb :| Safe(disk, path, parse, nb);
    hide DiskAfter;
    OpStep(disk, path, parse, ops[n], nb);
  }

  lemma OpStep<N(!new)>(d: Disk, path: string, parse: string -> Option<N>, op: Op, nb: N)
    requires Safe(d, path, parse, nb) && Sane(d, path, parse, op)
    ensures var after := Perform(d, path, parse, op);
      && Kept(d, path, parse) == Some(nb)
      && (Content(d, path, parse).None? && Unfinished(d, path, parse, op) ==> Kept(after, path, parse) == None)
      && (!(Content(d, path, parse).None? && Unfinished(d, path, parse, op)) ==>
            && (exists x :: Safe(after, path, parse, x) && Kept(after, path, parse) == Some(x))
            && (Kept(after, path, parse) == Some(nb) ||
                (MayLeave(op) && Kept(after, path, parse) == parse(op.text)))
            && (op.Save? && op.fault.NoFault? ==> Kept(after, path, parse) == parse(op.text)))
  {
    var after := Perform(d, path, parse, op);
    SafeIsKept(d, path, parse, nb);
    hide Reading, Unfinished, Sane, Kept, Decode, Perform;
    if Content(d, path, parse).Some? {
      WholeIsNotHalf(d, path, parse, nb);
      WholeStaysSafe(d, path, parse, op, nb);
    } else {
      HalfStaysSafeIff(d, path, parse, op, nb);
    }
    if !(Content(d, path, parse).None? && Unfinished(d, path, parse, op)) {
      if op.Save? && op.fault.NoFault? {
        CompletedSaveKeeps(d, path, parse, op.text);
        SaneParses(d, path, parse, op);
        SafeIsKept(after, path, parse, parse(op.text).value);
      } else if Safe(after, path, parse, nb) {
        SafeIsKept(after, path, parse, nb);
      } else {
        SaneParses(d, path, parse, op);
        SafeIsKept(after, path, parse, parse(op.text).value);
      }
    }
  }

  lemma WholeIsNotHalf<N(!new)>(d: Disk, path: string, parse: string -> Option<N>, nb: N)
    requires Safe(d, path, parse, nb) && Content(d, path, parse).Some?
    ensures Content(d, path, parse) == Some(nb)
  {
    if HalfSaved(d, path, parse, nb) {
      HalfSavedReads(d, path, parse, nb);
    }
  }

  lemma SaneParses<N(!new)>(d: Disk, path: string, parse: string -> Option<N>, op: Op)
    requires Sane(d, path, parse, op)
    ensures !op.Read? ==> parse(op.text).Some?
  {
  }

  lemma SafeAtStart<N(!new)>(d: Disk, path: string, parse: string -> Option<N>, ops: seq<Op>)
    requires Content(d, path, parse).Some?
    ensures SafeAfter(d, path, parse, ops, 0) && KeptAfter(d, path, parse, ops, 0) == Content(d, path, parse)
  {
    NoOps(d, path, parse, ops);
    var nb := Content(d, path, parse).value;
    assert Safe(d, path, parse, nb);
    SafeIsKept(d, path, parse, nb);
  }

  lemma SaneRunAt<N(!new)>(d: Disk, path: string, parse: string -> Option<N>, ops: seq<Op>, n: nat)
    requires SaneRun(d, path, parse, ops) && n < |ops| && SafeAfter(d, path, parse, ops, n)
    ensures SaneAt(d, path, parse, ops, n)
  {
  }

  lemma SafeIsReadable<N(!new)>(d: Disk, path: string, parse: string -> Option<N>, ops: seq<Op>, n: nat)
    requires n <= |ops| && SafeAfter(d, path, parse, ops, n)
    ensures KeptAfter(d, path, parse, ops, n).Some?
  {
    var nb :| Safe(DiskAfter(d, path, parse, ops, n), path, parse, nb);
    SafeIsKept(DiskAfter(d, path, parse, ops, n), path, parse, nb);
  }

  lemma {:induction false} NothingLostSoFar<N(!new)>(
    d: Disk, path: string, parse: string -> Option<N>, ops: seq<Op>, n: nat
  )
    requires Content(d, path, parse).Some? && SaneRun(d, path, parse, ops) && n <= |ops|
    requires forall i :: 0 <= i < n ==> !LosesAt(d, path, parse, ops, i)
    ensures SafeAfter(d, path, parse, ops, n)
  {
    hide *;
    if n == 0 {
      SafeAtStart(d, path, parse, ops);
    } else {
      NothingLostSoFar(d, path, parse, ops, n - 1);
      SaneRunAt(d, path, parse, ops, n - 1);
      RunStep(d, path, parse, ops, n - 1);
    }
  }

  lemma {:induction false} ReadableSoFar<N(!new)>(
    d: Disk, path: string, parse: string -> Option<N>, ops: seq<Op>, n: nat
  )
    requires Content(d, path, parse).Some? && SaneRun(d, path, parse, ops) && n <= |ops|
    requires forall i :: 0 <= i <= n ==> KeptAfter(d, path, parse, ops, i).Some?
    ensures SafeAfter(d, path, parse, ops, n)
    ensures forall i :: 0 <= i < n ==> !LosesAt(d, path, parse, ops, i)
  {
    hide *;
    if n == 0 {
      SafeAtStart(d, path, parse, ops);
    } else {
      ReadableSoFar(d, path, parse, ops, n - 1);
      SaneRunAt(d, path, parse, ops, n - 1);
      RunStep(d, path, parse, ops, n - 1);
    }
  }

  /**
    Over every run from a notebook on disk: the next read always gives a
    notebook, exactly if no operation overwrites the backup of a half saved file
    and then does not finish.
   */
  lemma RunsStayReadableIff<N(!new)>(d: Disk, path: string, parse: string -> Option<N>, ops: seq<Op>)
    requires Content(d, path, parse).Some? && SaneRun(d, path, parse, ops)
    ensures (forall n :: 0 <= n <= |ops| ==> KeptAfter(d, path, parse, ops, n).Some?) <==>
      (forall n :: 0 <= n < |ops| ==> !LosesAt(d, path, parse, ops, n))
  {
    hide *;
    if forall n :: 0 <= n < |ops| ==> !LosesAt(d, path, parse, ops, n) {
      forall n | 0 <= n <= |ops| ensures KeptAfter(d, path, parse, ops, n).Some? {
        NothingLostSoFar(d, path, parse, ops, n);
        SafeIsReadable(d, path, parse, ops, n);
      }
    }
    if forall n :: 0 <= n <= |ops| ==> KeptAfter(d, path, parse, ops, n).Some? {
      ReadableSoFar(d, path, parse, ops, |ops|);
    }
  }

  /** The notebook is that of a save that completed, or was cut off, among operations `n` to `m - 1`. */
  predicate LeftBetween<N(==)>(parse: string -> Option<N>, ops: seq<Op>, n: nat, m: nat, nb: Option<N>)
    requires m <= |ops|
  {
    exists i | n <= i < m :: MayLeave(ops[i]) && nb == parse(ops[i].text)
  }

  lemma LeftLater<N>(parse: string -> Option<N>, ops: seq<Op>, n: nat, m: nat, nb: Option<N>)
    requires n <= m < |ops|
    ensures LeftBetween(parse, ops, n, m, nb) ==> LeftBetween(parse, ops, n, m + 1, nb)
    ensures MayLeave(ops[m]) && nb == parse(ops[m].text) ==> LeftBetween(parse, ops, n, m + 1, nb)
  {
  }

  ghost predicate LosesNothing<N(!new)>(d: Disk, path: string, parse: string -> Option<N>, ops: seq<Op>) {
    forall n :: 0 <= n < |ops| ==> !LosesAt(d, path, parse, ops, n)
  }

  lemma SafeRunStep<N(!new)>(d: Disk, path: string, parse: string -> Option<N>, ops: seq<Op>, n: nat)
    requires Content(d, path, parse).Some? && SaneRun(d, path, parse, ops) && LosesNothing(d, path, parse, ops)
    requires n < |ops|
    ensures var before, after := KeptAfter(d, path, parse, ops, n), KeptAfter(d, path, parse, ops, n + 1);
      && before.Some? && after.Some?
      && (after == before || (MayLeave(ops[n]) && after == parse(ops[n].text)))
      && (ops[n].Save? && ops[n].fault.NoFault? ==> after == parse(ops[n].text))
  {
    assert forall i :: 0 <= i < |ops| ==> !LosesAt(d, path, parse, ops, i);
    hide *;
    NothingLostSoFar(d, path, parse, ops, n);
    SafeIsReadable(d, path, parse, ops, n);
    SaneRunAt(d, path, parse, ops, n);
    RunStep(d, path, parse, ops, n);
  }

  lemma {:induction false} RunsKeepFrom<N(!new)>(
    d: Disk, path: string, parse: string -> Option<N>, ops: seq<Op>, n: nat, m: nat
  )
    requires Content(d, path, parse).Some? && SaneRun(d, path, parse, ops) && LosesNothing(d, path, parse, ops)
    requires n <= m <= |ops|
    ensures KeptAfter(d, path, parse, ops, m) == KeptAfter(d, path, parse, ops, n) ||
            LeftBetween(parse, ops, n, m, KeptAfter(d, path, parse, ops, m))
    decreases m
  {
    hide *;
    if n < m {
      RunsKeepFrom(d, path, parse, ops, n, m - 1);
      SafeRunStep(d, path, parse, ops, m - 1);
      LeftLater(parse, ops, n, m - 1, KeptAfter(d, path, parse, ops, m));
    }
  }

  /**
    Over every run that loses nothing, what the next read gives is the notebook
    the run began with, or one of a save in it that completed or was cut off.
   */
  lemma RunsKeepNotebook<N(!new)>(d: Disk, path: string, parse: string -> Option<N>, ops: seq<Op>)
    requires Content(d, path, parse).Some? && SaneRun(d, path, parse, ops) && LosesNothing(d, path, parse, ops)
    ensures var after := Kept(PerformAll(d, path, parse, ops), path, parse);
      after.Some? && (after == Content(d, path, parse) || LeftBetween(parse, ops, 0, |ops|, after))
  {
    assert LosesNothing(d, path, parse, ops) ==> forall n :: 0 <= n < |ops| ==> !LosesAt(d, path, parse, ops, n);
    KeptAtEnd(d, path, parse, ops);
    hide *;
    SafeAtStart(d, path, parse, ops);
    NothingLostSoFar(d, path, parse, ops, |ops|);
    SafeIsReadable(d, path, parse, ops, |ops|);
    RunsKeepFrom(d, path, parse, ops, 0, |ops|);
  }

  lemma KeptAtEnd<N(!new)>(d: Disk, path: string, parse: string -> Option<N>, ops: seq<Op>)
    ensures KeptAfter(d, path, parse, ops, |ops|) == Kept(PerformAll(d, path, parse, ops), path, parse)
  {
    NoOps(d, path, parse, ops);
  }

  /** No such run falls back behind a save that completed: a read gives that notebook or a later one. */
  lemma RunsNeverFallBack<N(!new)>(d: Disk, path: string, parse: string -> Option<N>, ops: seq<Op>, n: nat)
    requires Content(d, path, parse).Some? && SaneRun(d, path, parse, ops) && LosesNothing(d, path, parse, ops)
    requires n < |ops| && ops[n].Save? && ops[n].fault.NoFault?
    ensures var after := Kept(PerformAll(d, path, parse, ops), path, parse);
      after == parse(ops[n].text) || LeftBetween(parse, ops, n + 1, |ops|, after)
  {
    KeptAtEnd(d, path, parse, ops);
    hide *;
    SafeRunStep(d, path, parse, ops, n);
    RunsKeepFrom(d, path, parse, ops, n + 1, |ops|);
  }

  // ---------------------------------------------------------------------
  // Which runs lose nothing
  // ---------------------------------------------------------------------

  /** A read, a save that completes, or one that is refused before its copy. */
  predicate SparesBackup(op: Op) {
    op.Read? || (op.Save? && (op.fault.NoFault? || op.fault.NotWritable?))
  }

  /** No save has been cut off, by a crash or by a failing flush, since the last read or completed save. */
  predicate SurelyWhole(ops: seq<Op>, n: nat)
    requires n <= |ops|
  {
    n == 0 ||
    match ops[n - 1]
    case Read => true
    case Crash(_, _, _) => false
    case Save(_, fault) => fault.NoFault? || (!fault.FlushFails? && SurelyWhole(ops, n - 1))
  }

  /** After a save was cut off, the backup is spared until a read or a completed save. */
  predicate Prudent(ops: seq<Op>) {
    forall n :: 0 <= n < |ops| && !SurelyWhole(ops, n) ==> SparesBackup(ops[n])
  }

  lemma {:induction false} PrudentIsSafe<N(!new)>(
    d: Disk, path: string, parse: string -> Option<N>, ops: seq<Op>, n: nat
  )
    requires Content(d, path, parse).Some? && SaneRun(d, path, parse, ops) && Prudent(ops) && n <= |ops|
    ensures SafeAfter(d, path, parse, ops, n)
    ensures SurelyWhole(ops, n) ==> Content(DiskAfter(d, path, parse, ops, n), path, parse).Some?
  {
    hide DiskAfter, Content, Unfinished, SaneAt, Safe, SafeAfter, SaneRun;
    if n == 0 {
      NoOps(d, path, parse, ops);
      SafeAtStart(d, path, parse, ops);
    } else {
      PrudentIsSafe(d, path, parse, ops, n - 1);
      SaneRunAt(d, path, parse, ops, n - 1);
      PrudentStep(d, path, parse, ops, n - 1);
    }
  }

  lemma PrudentStep<N(!new)>(d: Disk, path: string, parse: string -> Option<N>, ops: seq<Op>, n: nat)
    requires n < |ops| && SafeAfter(d, path, parse, ops, n) && SaneAt(d, path, parse, ops, n)
    requires Content(DiskAfter(d, path, parse, ops, n), path, parse).Some? || SparesBackup(ops[n])
    ensures !LosesAt(d, path, parse, ops, n) && SafeAfter(d, path, parse, ops, n + 1)
    ensures ops[n].Read? || (ops[n].Save? && ops[n].fault.NoFault?) ==>
      Content(DiskAfter(d, path, parse, ops, n + 1), path, parse).Some?
    ensures Content(DiskAfter(d, path, parse, ops, n), path, parse).Some? ==>
      ops[n].Save? && !ops[n].fault.FlushFails? ==>
      Content(DiskAfter(d, path, parse, ops, n + 1), path, parse).Some?
  {
    var disk := DiskAfter(d, path, parse, ops, n);
    var nb :| Safe(disk, path, parse, nb);
    OneMoreOp(d, path, parse, ops, n);
    RunStep(d, path, parse, ops, n);
    hide DiskAfter, Reading, Decode, Encode, SaneAt;
    SafeIsKept(disk, path, parse, nb);
    match ops[n]
    case Read => ReadKeeps(disk, path, parse, nb);
    case Save(text, fault) =>
      if fault.NoFault? {
        CompletedSaveKeeps(disk, path, parse, text);
        SaneAtParses(d, path, parse, ops, n);
      } else if !fault.FlushFails? {
        FailedSaveKeepsFile(disk, path, parse, ops[n]);
      }
    case Crash(_, _, _) =>
  }

  lemma SaneAtParses<N(!new)>(d: Disk, path: string, parse: string -> Option<N>, ops: seq<Op>, n: nat)
    requires n < |ops| && SaneAt(d, path, parse, ops, n)
    ensures !ops[n].Read? ==> parse(ops[n].text).Some?
  {
  }

  /** Runs that read, or complete a save, after each save that was cut off lose nothing. */
  lemma PrudentRunsLoseNothing<N(!new)>(d: Disk, path: string, parse: string -> Option<N>, ops: seq<Op>)
    requires Content(d, path, parse).Some? && SaneRun(d, path, parse, ops) && Prudent(ops)
    ensures LosesNothing(d, path, parse, ops)
  {
    forall n | 0 <= n < |ops| ensures !LosesAt(d, path, parse, ops, n) {
      assert !SurelyWhole(ops, n) ==> SparesBackup(ops[n]);
      hide *;
      PrudentIsSafe(d, path, parse, ops, n);
      SaneRunAt(d, path, parse, ops, n);
      PrudentStep(d, path, parse, ops, n);
    }
  }

  /** Two failed saves and no crash lose the notebook: one fails when it is flushed, and then one in its body. */
  lemma TwoFailedSavesLoseTheNotebook<N(!new)>(d: Disk, path: string, parse: string -> Option<N>, text: string)
    requires Content(d, path, parse).Some? && GoodText(parse, text) && parse([]) == None
    ensures var after := PerformAll(d, path, parse, [Save(text, FlushFails(0)), Save(text, BodyFails(0))]);
      Content(after, path, parse).None? && Kept(after, path, parse) == None
  {
    var first, second := Save(text, FlushFails(0)), Save(text, BodyFails(0));
    var ops := [first, second];
    var d1 := Perform(d, path, parse, first);
    var d2 := Perform(d1, path, parse, second);
    OneMoreOp(d, path, parse, ops, 0);
    OneMoreOp(d, path, parse, ops, 1);
    NoOps(d, path, parse, ops);
    NamesDiffer(path);
    var nb := Content(d, path, parse).value;
    SaveEnds(d, path, Encode(text), FlushFails(0));
    assert d1[path] == [] && Decode([]) == Some([]);
    assert HalfSaved(d1, path, parse, nb);
    FailedSaveKeepsFile(d1, path, parse, second);
    HalfStaysSafeIff(d1, path, parse, second, nb);
  }

  // ---------------------------------------------------------------------
  // ASCII texts
  // ---------------------------------------------------------------------

  /** For ASCII texts nothing is cut inside a character. */
  lemma AsciiIsSane<N(!new)>(d: Disk, path: string, parse: string -> Option<N>, op: Op, nb: N)
    requires Safe(d, path, parse, nb) && (!op.Read? ==> Ascii(op.text) && GoodText(parse, op.text))
    ensures Sane(d, path, parse, op)
  {
    SafeIsKept(d, path, parse, nb);
    if !op.Read? {
      var m := Perform(d, path, parse, op);
      var data := Encode(op.text);
      hide SaveTrace, Encode, Decode, GoodText, Ascii;
      if m in Moments(d, path, op) {
        MomentsOfSave(d, path, data, op.fault, m);
        DecodeEncode(op.text);
        EncodeAscii(op.text);
        if m[path] != d[path] && m[path] != data {
          var k :| 0 <= k <= |data| && m[path] == data[..k];
          DecodeEncode(op.text[..k]);
        }
      } else {
        assert m == d;
      }
    }
  }

  /**
    A save of ASCII text is safe whatever happens to it, exactly if the file
    itself holds a notebook when the save begins: having read it will do.
   */
  lemma SaveIsSafeIff<N(!new)>(d: Disk, path: string, parse: string -> Option<N>, text: string, nb: N)
    requires Safe(d, path, parse, nb) && Ascii(text) && GoodText(parse, text)
    ensures (forall op: Op :: !op.Read? && op.text == text ==> Kept(Perform(d, path, parse, op), path, parse).Some?)
      <==> Content(d, path, parse).Some?
  {
    hide Perform, Kept, Content, Ascii, GoodText, Safe;
    if Content(d, path, parse).Some? {
      forall op: Op | !op.Read? && op.text == text ensures Kept(Perform(d, path, parse, op), path, parse).Some? {
        AsciiIsSane(d, path, parse, op, nb);
        OpStep(d, path, parse, op, nb);
      }
    } else {
      var op := Save(text, BodyFails(0));
      AsciiIsSane(d, path, parse, op, nb);
      OpStep(d, path, parse, op, nb);
    }
  }

  /** Every run with ASCII texts is sane, whenever the crashes and failures come. */
  lemma AsciiRunsAreSane<N(!new)>(d: Disk, path: string, parse: string -> Option<N>, ops: seq<Op>)
    requires forall i :: 0 <= i < |ops| && !ops[i].Read? ==> Ascii(ops[i].text) && GoodText(parse, ops[i].text)
    ensures SaneRun(d, path, parse, ops)
  {
    forall n | 0 <= n < |ops| && SafeAfter(d, path, parse, ops, n) ensures SaneAt(d, path, parse, ops, n) {
      var nb :| Safe(DiskAfter(d, path, parse, ops, n), path, parse, nb);
      hide Sane, Safe, GoodText, Ascii, DiskAfter;
      AsciiIsSane(DiskAfter(d, path, parse, ops, n), path, parse, ops[n], nb);
    }
  }

  /**
    Every prudent run with ASCII texts, whenever the crashes and failures come:
    a read gives the first notebook or one of a save that completed or was cut
    off, never one from before a completed save; and the file itself holds it,
    unless a save has just been cut off.
   */
  lemma AsciiRunsKeepNotebook<N(!new)>(d: Disk, path: string, parse: string -> Option<N>, ops: seq<Op>)
    requires Content(d, path, parse).Some? && Prudent(ops)
    requires forall i :: 0 <= i < |ops| && !ops[i].Read? ==> Ascii(ops[i].text) && GoodText(parse, ops[i].text)
    ensures var last := PerformAll(d, path, parse, ops);
      var after := Kept(last, path, parse);
      && after.Some? && (after == Content(d, path, parse) || LeftBetween(parse, ops, 0, |ops|, after))
      && (forall n :: 0 <= n < |ops| && ops[n].Save? && ops[n].fault.NoFault? ==>
            after == parse(ops[n].text) || LeftBetween(parse, ops, n + 1, |ops|, after))
      && (SurelyWhole(ops, |ops|) ==> Content(last, path, parse) == after)
  {
    AsciiRunsAreSane(d, path, parse, ops);
    hide *;
    PrudentRunsLoseNothing(d, path, parse, ops);
    RunsKeepNotebook(d, path, parse, ops);
    NoOps(d, path, parse, ops);
    PrudentIsSafe(d, path, parse, ops, |ops|);
    ContentIsKept(PerformAll(d, path, parse, ops), path, parse);
    var after := Kept(PerformAll(d, path, parse, ops), path, parse);
    forall n | 0 <= n < |ops| && ops[n].Save? && ops[n].fault.NoFault?
      ensures after == parse(ops[n].text) || LeftBetween(parse, ops, n + 1, |ops|, after)
    {
      RunsNeverFallBack(d, path, parse, ops, n);
    }
  }

  lemma ContentIsKept<N>(d: Disk, path: string, parse: string -> Option<N>)
    ensures Content(d, path, parse).Some? ==> Kept(d, path, parse) == Content(d, path, parse)
  {
  }
}
