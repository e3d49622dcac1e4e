/**
  Saving a notebook in place with a backup beside it, and the reader that
  repairs what a cut-off save leaves behind.

  The disk is a map from paths to contents.  `FileSystem` keeps, besides the
  disk itself, the sequence of all states the disk has been in: a crash freezes
  the disk in any one of them.
 */
module AtomicSave {
  import opened Common
  import opened Utf8

  type Disk = map<string, Bytes>

  // ---------------------------------------------------------------------
  // Names
  // ---------------------------------------------------------------------

  /** `os.path.split(path)[1]` */
  function Base(path: string): (r: string)
    ensures '/' !in r && |r| <= |path|
  {
    if path == [] then [] else if path[|path| - 1] == '/' then [] else Base(path[..|path| - 1]) + [path[|path| - 1]]
  }

  function StripSlashes(s: string): string {
    if s != [] && s[|s| - 1] == '/' then StripSlashes(s[..|s| - 1]) else s
  }

  /** `os.path.split(path)[0]` */
  function Dir(path: string): string {
    var head := path[..|path| - |Base(path)|];
    if StripSlashes(head) == [] then head else StripSlashes(head)
  }

  /** `os.path.join` for a name without slashes. */
  function JoinPath(dir: string, name: string): string {
    if dir == [] || dir[|dir| - 1] == '/' then dir + name else dir + "/" + name
  }

  function Intermediate(path: string): string {
    JoinPath(Dir(path), ".~" + Base(path))
  }

  function Invalid(path: string): string {
    JoinPath(Dir(path), Base(path) + ".invalid")
  }

  lemma BaseAfterSlash(head: string, name: string)
    requires '/' !in name && (head == [] || head[|head| - 1] == '/')
    ensures Base(head + name) == name
  {
    if name == [] {
      assert head + name == head;
    } else {
      var n := |name| - 1;
      assert (head + name)[..|head + name| - 1] == head + name[..n];
      BaseAfterSlash(head, name[..n]);
    }
  }

  lemma BaseOfJoin(dir: string, name: string)
    requires '/' !in name
    ensures Base(JoinPath(dir, name)) == name
  {
    if dir == [] || dir[|dir| - 1] == '/' {
      BaseAfterSlash(dir, name);
    } else {
      BaseAfterSlash(dir + "/", name);
    }
  }

  /** A save works on three different files. */
  lemma NamesDiffer(path: string)
    ensures Intermediate(path) != path && Invalid(path) != path && Intermediate(path) != Invalid(path)
  {
    BaseOfJoin(Dir(path), ".~" + Base(path));
    BaseOfJoin(Dir(path), Base(path) + ".invalid");
  }

  /** The directory and the name of a path join to it again, up to slashes; the name is what follows the last slash. */
  lemma PathParts(path: string) returns (head: string)
    ensures path == head + Base(path) && '/' !in Base(path)
    ensures head == [] || head[|head| - 1] == '/'
    ensures Dir(path) <= head && forall i :: |Dir(path)| <= i < |head| ==> head[i] == '/'
    ensures Dir(path) == [] ==> head == []
    ensures Dir(path) == [] || Dir(path)[|Dir(path)| - 1] != '/' ||
            (Dir(path) == head && forall i :: 0 <= i < |head| ==> head[i] == '/')
  {
    BaseIsSuffix(path);
    head := path[..|path| - |Base(path)|];
    SlashesStripped(head);
  }

  lemma BaseIsSuffix(path: string)
    ensures path[|path| - |Base(path)|..] == Base(path)
    ensures |Base(path)| < |path| ==> path[|path| - |Base(path)| - 1] == '/'
  {
    if path != [] && path[|path| - 1] != '/' {
      var front := path[..|path| - 1];
      BaseIsSuffix(front);
      assert path == front + [path[|path| - 1]];
    }
  }

  lemma SlashesStripped(s: string)
    ensures StripSlashes(s) <= s && forall i :: |StripSlashes(s)| <= i < |s| ==> s[i] == '/'
    ensures StripSlashes(s) == [] || StripSlashes(s)[|StripSlashes(s)| - 1] != '/'
  {
    if s != [] && s[|s| - 1] == '/' {
      SlashesStripped(s[..|s| - 1]);
    }
  }

  /**
    The intermediate file of a path is called as its file with ".~" before it,
    the invalid file as its file with ".invalid" after it; both in its directory.
   */
  lemma NamesBeside(path: string)
    ensures var sep := if Dir(path) == [] || Dir(path)[|Dir(path)| - 1] == '/' then "" else "/";
      && Intermediate(path) == Dir(path) + sep + ".~" + Base(path)
      && Invalid(path) == Dir(path) + sep + Base(path) + ".invalid"
    ensures Base(Intermediate(path)) == ".~" + Base(path) && Base(Invalid(path)) == Base(path) + ".invalid"
  {
    BaseOfJoin(Dir(path), ".~" + Base(path));
    BaseOfJoin(Dir(path), Base(path) + ".invalid");
  }

  // ---------------------------------------------------------------------
  // Saving
  // ---------------------------------------------------------------------

  /**
    What goes wrong during a save, if anything.  The numbers say after how many
    bytes: while copying the old contents, in the body of the `with` statement,
    or when the file is finally flushed, synced or closed.
   */
  datatype Fault = NoFault | NotWritable | CopyFails(after: nat) | BodyFails(after: nat) | FlushFails(after: nat)

  /** The states the disk goes through, and whether the save returns normally. */
  datatype Trace = Trace(moments: seq<Disk>, ok: bool)

  function Final(d: Disk, moments: seq<Disk>): Disk {
    if moments == [] then d else moments[|moments| - 1]
  }

  function Min(a: nat, b: nat): nat {
    if a < b then a else b
  }

  /** A file is emptied and then grows byte by byte. */
  function WriteMoments(d: Disk, path: string, data: Bytes, n: nat): (r: seq<Disk>)
    requires n <= |data|
    ensures |r| == n + 1 && Final(d, r) == d[path := data[..n]]
  {
    seq(n + 1, k requires 0 <= k < n + 1 => d[path := data[..k]])
  }

  function Replaced(d: Disk, src: string, dst: string): Disk
    requires src in d && src != dst
  {
    (d - {src})[dst := d[src]]
  }

  /** From opening the target for writing to the end. */
  function BodyTrace(d: Disk, path: string, data: Bytes, fault: Fault): Trace {
    NamesDiffer(path);
    var tmp := Intermediate(path);
    match fault
    case BodyFails(n) =>
      var written := WriteMoments(d, path, data, Min(n, |data|));
      var broken := d[path := data[..Min(n, |data|)]];
      if tmp in broken then Trace(written + [Replaced(broken, tmp, path)], false) else Trace(written, false)
    case FlushFails(n) => Trace(WriteMoments(d, path, data, Min(n, |data|)), false)
    case _ =>
      var written := WriteMoments(d, path, data, |data|);
      if tmp in d then Trace(written + [d[path := data] - {tmp}], true) else Trace(written, true)
  }

  function SaveTrace(d: Disk, path: string, data: Bytes, fault: Fault): Trace {
    var tmp := Intermediate(path);
    if path !in d then BodyTrace(d, path, data, fault)
    else match fault
      case NotWritable => Trace([], false)
      case CopyFails(n) => Trace(WriteMoments(d, tmp, d[path], Min(n, |d[path]|)), false)
      case _ =>
        var body := BodyTrace(d[tmp := d[path]], path, data, fault);
        Trace(WriteMoments(d, tmp, d[path], |d[path]|) + body.moments, body.ok)
  }

  class FileSystem {
    var disk: Disk
    ghost var moments: seq<Disk>

    constructor (disk: Disk)
      ensures this.disk == disk && moments == []
    {
      this.disk := disk;
      moments := [];
    }

    /** Opens a file for writing and writes the first `n` bytes of the data. */
    method WriteFile(path: string, data: Bytes, n: nat)
      requires n <= |data|
      modifies this
      ensures disk == old(disk)[path := data[..n]]
      ensures moments == old(moments) + WriteMoments(old(disk), path, data, n)
    {
      disk := disk[path := []];
      assert data[..0] == [];
      moments := moments + [disk];
      for k := 0 to n
        invariant disk == old(disk)[path := data[..k]]
        invariant moments == old(moments) + WriteMoments(old(disk), path, data, k)
      {
        disk := disk[path := disk[path] + [data[k]]];
        assert data[..k] + [data[k]] == data[..k + 1];
        moments := moments + [disk];
      }
    }

    method ReplaceFile(src: string, dst: string) returns (ok: bool)
      requires src != dst
      modifies this
      ensures ok == (src in old(disk))
      ensures ok ==> disk == Replaced(old(disk), src, dst) && moments == old(moments) + [disk]
      ensures !ok ==> disk == old(disk) && moments == old(moments)
    {
      if src !in disk {
        return false;
      }
      disk := (disk - {src})[dst := disk[src]];
      moments := moments + [disk];
      return true;
    }

    method AtomicWriting(path: string, data: Bytes, fault: Fault) returns (ok: bool)
      modifies this
      ensures var t := SaveTrace(old(disk), path, data, fault);
        ok == t.ok && moments == old(moments) + t.moments && disk == Final(old(disk), t.moments)
    {
      var tmp := Intermediate(path);
      NamesDiffer(path);
      if path in disk {
        if fault.NotWritable? {
          return false;
        }
        if fault.CopyFails? {
          WriteFile(tmp, disk[path], Min(fault.after, |disk[path]|));
          return false;
        }
        assert disk[path][..|disk[path]|] == disk[path];
        WriteFile(tmp, disk[path], |disk[path]|);
      }
      ok := WriteBody(path, data, fault);
    }

    method WriteBody(path: string, data: Bytes, fault: Fault) returns (ok: bool)
      modifies this
      ensures var t := BodyTrace(old(disk), path, data, fault);
        ok == t.ok && moments == old(moments) + t.moments && disk == Final(old(disk), t.moments)
    {
      var tmp := Intermediate(path);
      NamesDiffer(path);
      if fault.BodyFails? {
        WriteFile(path, data, Min(fault.after, |data|));
        var _ := ReplaceFile(tmp, path);
        return false;
      }
      if fault.FlushFails? {
        WriteFile(path, data, Min(fault.after, |data|));
        return false;
      }
      assert data[..|data|] == data;
      WriteFile(path, data, |data|);
      if tmp in disk {
        disk := disk - {tmp};
        moments := moments + [disk];
      }
      return true;
    }

    method ReadNotebook<N>(path: string, parse: string -> Option<N>, useAtomic: bool) returns (r: Result<N, ReadError>)
      modifies this
      ensures (r, disk) == Reading(old(disk), path, parse, useAtomic)
      decreases if Intermediate(path) in disk then 1 else 0
    {
      NamesDiffer(path);
      if path !in disk {
        return Err(NotAFile);
      }
      var text := Decode(disk[path]);
      if text.None? {
        return Err(BadEncoding);
      }
      var nb := parse(text.value);
      if nb.Some? {
        return Ok(nb.value);
      }
      var tmp := Intermediate(path);
      if !useAtomic || tmp !in disk {
        return Err(Unreadable);
      }
      var _ := ReplaceFile(path, Invalid(path));
      var _ := ReplaceFile(tmp, path);
      r := ReadNotebook(path, parse, useAtomic);
    }
  }

  // ---------------------------------------------------------------------
  // Reading
  // ---------------------------------------------------------------------

  datatype ReadError = NotAFile | BadEncoding | Unreadable

  /** The notebook in some bytes, if they can be decoded and parsed. */
  function Parsed<N>(b: Bytes, parse: string -> Option<N>): Option<N> {
    if Decode(b).None? then None else parse(Decode(b).value)
  }

  function Content<N>(d: Disk, path: string, parse: string -> Option<N>): Option<N> {
    if path in d then Parsed(d[path], parse) else None
  }

  /** The result of reading a notebook, and the disk afterwards. */
  function Reading<N>(d: Disk, path: string, parse: string -> Option<N>, useAtomic: bool): (Result<N, ReadError>, Disk)
    decreases if Intermediate(path) in d then 1 else 0
  {
    NamesDiffer(path);
    var tmp := Intermediate(path);
    if path !in d then (Err(NotAFile), d)
    else if Decode(d[path]).None? then (Err(BadEncoding), d)
    else if Content(d, path, parse).Some? then (Ok(Content(d, path, parse).value), d)
    else if !useAtomic || tmp !in d then (Err(Unreadable), d)
    else Reading(Replaced(Replaced(d, path, Invalid(path)), tmp, path), path, parse, useAtomic)
  }

  /**
    What the reader does with a file that decodes and does not parse, when there
    is an intermediate: the bad contents are kept in the invalid file, the
    intermediate takes the place of the file, and the answer is what is in it.
    No other file is touched.
   */
  lemma BadFileIsSetAside<N>(d: Disk, path: string, parse: string -> Option<N>)
    requires path in d && Decode(d[path]).Some? && parse(Decode(d[path]).value).None? && Intermediate(path) in d
    ensures var (tmp, invalid, bad, kept) := (Intermediate(path), Invalid(path), d[path], d[Intermediate(path)]);
      var (r, after) := Reading(d, path, parse, true);
      && invalid in after && after[invalid] == bad && path in after && after[path] == kept
      && tmp !in after && after - {path, tmp, invalid} == d - {path, tmp, invalid}
      && r == (if Decode(kept).None? then Err(BadEncoding)
               else if parse(Decode(kept).value).None? then Err(Unreadable)
               else Ok(parse(Decode(kept).value).value))
  {
    NamesDiffer(path);
    hide Intermediate, Invalid, Decode;
    var restored := Replaced(Replaced(d, path, Invalid(path)), Intermediate(path), path);
    assert restored[path] == d[Intermediate(path)] && restored[Invalid(path)] == d[path];
    assert Intermediate(path) !in restored;
  }

  /** In all other cases nothing is moved, and the error says what is wrong. */
  lemma OtherwiseNothingMoves<N>(d: Disk, path: string, parse: string -> Option<N>, useAtomic: bool)
    requires path in d && Decode(d[path]).Some? && parse(Decode(d[path]).value).None? ==>
      !useAtomic || Intermediate(path) !in d
    ensures Reading(d, path, parse, useAtomic) ==
      (if path !in d then Err(NotAFile)
       else if Decode(d[path]).None? then Err(BadEncoding)
       else if parse(Decode(d[path]).value).None? then Err(Unreadable)
       else Ok(parse(Decode(d[path]).value).value), d)
  {
  }

  // ---------------------------------------------------------------------
  // Crash safety
  // ---------------------------------------------------------------------

  /** The serialised text of a notebook, no proper prefix of which is another notebook. */
  ghost predicate Serialises<N(!new)>(parse: string -> Option<N>, text: string, nb: N) {
    && parse(text) == Some(nb)
    && forall k :: 0 <= k < |text| ==> parse(text[..k]) == None || parse(text[..k]) == Some(nb)
  }

  /** A read gives one of the two notebooks, and leaves it in the file. */
  predicate Recovers<N(==)>(d: Disk, path: string, parse: string -> Option<N>, old_: N, new_: N) {
    var (r, after) := Reading(d, path, parse, true);
    (r == Ok(old_) || r == Ok(new_)) && Content(after, path, parse) == Some(r.value)
  }

  lemma ReadableRecovers<N>(d: Disk, path: string, parse: string -> Option<N>, old_: N, new_: N)
    requires Content(d, path, parse) == Some(old_) || Content(d, path, parse) == Some(new_)
    ensures Recovers(d, path, parse, old_, new_)
  {
  }

  /** The new contents cut where they can be decoded, with the old ones in the intermediate file. */
  lemma CutRecovers<N(!new)>(d: Disk, path: string, parse: string -> Option<N>, old_: N, new_: N, text: string, k: nat)
    requires Serialises(parse, text, new_) && k <= |Encode(text)|
    requires path in d && d[path] == Encode(text)[..k] && Decode(d[path]).Some?
    requires Intermediate(path) in d && Parsed(d[Intermediate(path)], parse) == Some(old_)
    ensures Recovers(d, path, parse, old_, new_)
  {
    NamesDiffer(path);
    DecodeCut(text, k);
    var j :| 0 <= j <= |text| && Decode(d[path]) == Some(text[..j]);
    hide Decode, Encode, Intermediate, Invalid;
    assert text[..|text|] == text;
    if parse(text[..j]) == None {
      var restored := Replaced(Replaced(d, path, Invalid(path)), Intermediate(path), path);
      assert restored[path] == d[Intermediate(path)];
      ReadableRecovers(restored, path, parse, old_, new_);
    }
  }

  /** Every state that a save over a valid notebook goes through. */
  lemma MomentsOfSave(d: Disk, path: string, data: Bytes, fault: Fault, m: Disk)
    requires path in d && m in SaveTrace(d, path, data, fault).moments
    ensures path in m
    ensures var tmp := Intermediate(path);
      m[path] == d[path] || m[path] == data ||
      (tmp in m && m[tmp] == d[path] && exists k :: 0 <= k <= |data| && m[path] == data[..k])
  {
    NamesDiffer(path);
    var tmp := Intermediate(path);
    var t := SaveTrace(d, path, data, fault);
    var i :| 0 <= i < |t.moments| && t.moments[i] == m;
    assert data[..|data|] == data;
  }

  /**
    Crash safety.  However a save over a valid notebook is cut off, the next
    read gives the whole old or the whole new notebook and leaves it in the
    file, exactly if what the file holds at that moment can be decoded: the
    reader repairs contents that do not parse, but not ones that do not decode.
   */
  lemma CrashSafe<N(!new)>(d: Disk, path: string, parse: string -> Option<N>, old_: N,
      new_: N, text: string, fault: Fault, m: Disk)
    requires Content(d, path, parse) == Some(old_) && Serialises(parse, text, new_)
    requires m in SaveTrace(d, path, Encode(text), fault).moments
    ensures path in m && (Recovers(m, path, parse, old_, new_) <==> Decode(m[path]).Some?)
  {
    var data := Encode(text);
    MomentsOfSave(d, path, data, fault, m);
    DecodeEncode(text);
    hide Encode, Decode, SaveTrace, Intermediate, Serialises;
    if Decode(m[path]).Some? {
      if m[path] != d[path] && m[path] != data {
        var k :| 0 <= k <= |data| && m[path] == data[..k];
        CutRecovers(m, path, parse, old_, new_, text, k);
      } else {
        SerialisesParses(parse, text, new_);
        ReadableRecovers(m, path, parse, old_, new_);
      }
    }
  }

  lemma SerialisesParses<N(!new)>(parse: string -> Option<N>, text: string, nb: N)
    ensures Serialises(parse, text, nb) ==> parse(text) == Some(nb)
  {
  }

  /** Every moment of a save of ASCII text over a valid notebook is safe. */
  lemma AsciiIsCrashSafe<N(!new)>(d: Disk, path: string, parse: string -> Option<N>, old_: N,
      new_: N, text: string, fault: Fault, m: Disk)
    requires Content(d, path, parse) == Some(old_) && Serialises(parse, text, new_) && Ascii(text)
    requires m in SaveTrace(d, path, Encode(text), fault).moments
    ensures path in m && Recovers(m, path, parse, old_, new_)
  {
    var data := Encode(text);
    CrashSafe(d, path, parse, old_, new_, text, fault, m);
    MomentsOfSave(d, path, data, fault, m);
    DecodeEncode(text);
    EncodeAscii(text);
    if m[path] != d[path] && m[path] != data {
      var k :| 0 <= k <= |data| && m[path] == data[..k];
      DecodeEncode(text[..k]);
    }
  }

  /** The first character that is not ASCII. */
  lemma FirstNonAscii(text: string) returns (j: nat)
    requires !Ascii(text)
    ensures j < |text| && |EncodeChar(text[j])| > 1
  {
    j :| 0 <= j < |text| && !(text[j] < 128 as char);
  }

  /** Text that is not ASCII can be cut where it cannot be decoded. */
  lemma UndecodableCut(text: string) returns (k: nat)
    requires !Ascii(text)
    ensures k <= |Encode(text)| && Decode(Encode(text)[..k]) == None
  {
    var j := FirstNonAscii(text);
    var c := text[j];
    k := |Encode(text[..j])| + 1;
    assert text == text[..j] + ([c] + text[j + 1..]);
    EncodeAppend(text[..j], [c] + text[j + 1..]);
    assert Encode([c] + text[j + 1..]) == EncodeChar(c) + Encode(text[j + 1..]);
    hide Encode, EncodeChar;
    assert Encode(text)[..k] == Encode(text[..j]) + EncodeChar(c)[..1];
    CutChar(text[..j], c, 1);
  }

  /** For example e with an acute accent, cut after the first of its two bytes. */
  lemma CutInsideEAcute()
    ensures Decode(Encode(['\U{E9}'])[..1]) == None
  {
    assert EncodeChar('\U{E9}') == [0xC3, 0xA9];
    CutChar([], '\U{E9}', 1);
    assert Encode([]) + EncodeChar('\U{E9}')[..1] == Encode(['\U{E9}'])[..1];
  }

  lemma EveryCutIsAMoment(d: Disk, path: string, data: Bytes, k: nat)
    requires path in d && k <= |data|
    ensures d[Intermediate(path) := d[path]][path := data[..k]] in SaveTrace(d, path, data, NoFault).moments
  {
    var backed := d[Intermediate(path) := d[path]];
    var moments := BodyTrace(backed, path, data, NoFault).moments;
    assert moments[k] == backed[path := data[..k]];
  }

  /** Cut in the middle of a character, the new contents cannot be decoded, and the reader gives up. */
  lemma CutInsideCharacter<N(!new)>(d: Disk, path: string, parse: string -> Option<N>, old_: N, new_: N, text: string)
      returns (m: Disk)
    requires path in d && !Ascii(text)
    ensures m in SaveTrace(d, path, Encode(text), NoFault).moments
    ensures Reading(m, path, parse, true).0 == Err(BadEncoding) && !Recovers(m, path, parse, old_, new_)
  {
    var k := UndecodableCut(text);
    EveryCutIsAMoment(d, path, Encode(text), k);
    m := d[Intermediate(path) := d[path]][path := Encode(text)[..k]];
    hide Encode, Decode, SaveTrace, Intermediate;
  }

  /**
    Exactly for ASCII text is a save safe against a crash at every moment.
   */
  lemma CrashSafeIffAscii<N(!new)>(d: Disk, path: string, parse: string -> Option<N>, old_: N, new_: N, text: string)
    requires Content(d, path, parse) == Some(old_) && Serialises(parse, text, new_)
    ensures Ascii(text) <==>
      forall m :: m in SaveTrace(d, path, Encode(text), NoFault).moments ==> Recovers(m, path, parse, old_, new_)
  {
    if Ascii(text) {
      forall m | m in SaveTrace(d, path, Encode(text), NoFault).moments ensures Recovers(m, path, parse, old_, new_) {
        AsciiIsCrashSafe(d, path, parse, old_, new_, text, NoFault, m);
      }
    } else {
      var m := CutInsideCharacter(d, path, parse, old_, new_, text);
    }
  }

  /** Where there was no file before, a crash can leave one that nothing repairs. */
  lemma FirstSaveIsNotProtected<N(!new)>(d: Disk, path: string, parse: string -> Option<N>, data: Bytes)
      returns (m: Disk)
    requires path !in d && Intermediate(path) !in d && parse([]) == None
    ensures m in SaveTrace(d, path, data, NoFault).moments && Reading(m, path, parse, true).0 == Err(Unreadable)
  {
    m := d[path := []];
    var moments := BodyTrace(d, path, data, NoFault).moments;
    assert data[..0] == [] && moments[0] == m;
    NamesDiffer(path);
  }

  /** Over contents that are no notebook, a crash while the backup is made leaves nothing to read. */
  lemma NothingToRecover<N(!new)>(d: Disk, path: string, parse: string -> Option<N>, data: Bytes) returns (m: Disk)
    requires path in d && Content(d, path, parse).None? && parse([]) == None
    ensures m in SaveTrace(d, path, data, NoFault).moments && Reading(m, path, parse, true).0.Err?
  {
    var tmp := Intermediate(path);
    NamesDiffer(path);
    m := d[tmp := []];
    var backup := WriteMoments(d, tmp, d[path], |d[path]|);
    assert d[path][..0] == [] && backup[0] == m;
    assert SaveTrace(d, path, data, NoFault).moments[0] == backup[0];
    hide SaveTrace, Intermediate, Invalid;
    var restored := Replaced(Replaced(m, path, Invalid(path)), tmp, path);
    assert restored[path] == [] && tmp !in restored;
    assert Decode([]) == Some([]);
    assert Reading(restored, path, parse, true).0.Err?;
  }

  /**
    A save of ASCII text is safe at every moment exactly if there was a notebook
    in the file to back up: not over a missing file, and not over a broken one.
   */
  lemma SafeIffNotebookBefore<N(!new)>(d: Disk, path: string, parse: string -> Option<N>, new_: N, text: string)
    requires Serialises(parse, text, new_) && Ascii(text) && parse([]) == None && Intermediate(path) !in d
    ensures Content(d, path, parse).Some? <==>
      forall m :: m in SaveTrace(d, path, Encode(text), NoFault).moments ==> Reading(m, path, parse, true).0.Ok?
  {
    hide SaveTrace, Encode, Ascii, Serialises, Intermediate;
    var moments := SaveTrace(d, path, Encode(text), NoFault).moments;
    if Content(d, path, parse).Some? {
      var old_ := Content(d, path, parse).value;
      forall m | m in moments ensures Reading(m, path, parse, true).0.Ok? {
        AsciiIsCrashSafe(d, path, parse, old_, new_, text, NoFault, m);
      }
    } else if path in d {
      var m := NothingToRecover(d, path, parse, Encode(text));
    } else {
      var m := FirstSaveIsNotProtected(d, path, parse, Encode(text));
    }
  }

  // ---------------------------------------------------------------------
  // Whole saves
  // ---------------------------------------------------------------------

  /** What a save over an existing file leaves when it ends, normally or not. */
  lemma SaveEnds(d: Disk, path: string, data: Bytes, fault: Fault)
    requires path in d
    ensures var t := SaveTrace(d, path, data, fault);
      var tmp := Intermediate(path);
      var after := Final(d, t.moments);
      && (t.ok <==> fault.NoFault?)
      && (fault.NoFault? ==> after == d[path := data] - {tmp})
      && (fault.BodyFails? ==> after == d - {tmp})
      && (fault.NotWritable? ==> after == d)
      && (fault.CopyFails? ==> after == d[tmp := d[path][..Min(fault.after, |d[path]|)]])
      && (fault.FlushFails? ==>
            after == d[tmp := d[path]][path := data[..Min(fault.after, |data|)]])
  {
    NamesDiffer(path);
    var tmp := Intermediate(path);
    var backed := d[tmp := d[path]];
    assert data[..|data|] == data;
    if fault.NoFault? {
      assert backed[path := data] - {tmp} == d[path := data] - {tmp};
    } else if fault.BodyFails? {
      assert Replaced(backed[path := data[..Min(fault.after, |data|)]], tmp, path) == d - {tmp};
    }
  }

  /** And what a first save leaves, with no intermediate file from before: there is nothing to fall back on. */
  lemma FirstSaveEnds(d: Disk, path: string, data: Bytes, fault: Fault)
    requires path !in d && Intermediate(path) !in d
    ensures var t := SaveTrace(d, path, data, fault);
      var failed := fault.BodyFails? || fault.FlushFails?;
      && t.ok == !failed
      && Final(d, t.moments) == d[path := if failed then data[..Min(fault.after, |data|)] else data]
  {
    NamesDiffer(path);
    assert data[..|data|] == data;
  }

  /** At no moment does a save touch any file but its own and the intermediate. */
  lemma SaveTouchesTwoFiles(d: Disk, path: string, data: Bytes, fault: Fault, m: Disk)
    requires m in SaveTrace(d, path, data, fault).moments
    ensures m - {path, Intermediate(path)} == d - {path, Intermediate(path)}
  {
    NamesDiffer(path);
    var tmp := Intermediate(path);
    var t := SaveTrace(d, path, data, fault);
    hide Intermediate;
    if path !in d {
      BodyTouchesTwoFiles(d, path, data, fault);
    } else {
      BodyTouchesTwoFiles(d[tmp := d[path]], path, data, fault);
      assert d[tmp := d[path]] - {path, tmp} == d - {path, tmp};
    }
    var i :| 0 <= i < |t.moments| && t.moments[i] == m;
  }

  lemma BodyTouchesTwoFiles(d: Disk, path: string, data: Bytes, fault: Fault)
    ensures forall m :: m in BodyTrace(d, path, data, fault).moments ==>
      m - {path, Intermediate(path)} == d - {path, Intermediate(path)}
  {
    NamesDiffer(path);
    hide Intermediate;
    forall m | m in BodyTrace(d, path, data, fault).moments
      ensures m - {path, Intermediate(path)} == d - {path, Intermediate(path)}
    {
      var t := BodyTrace(d, path, data, fault);
      var i :| 0 <= i < |t.moments| && t.moments[i] == m;
    }
  }
}
