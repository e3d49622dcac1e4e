/**
  The building blocks of layered configuration, each in terms of the JSON values
  themselves: which values Python takes for equal, which leaves are stripped,
  what is kept by a merge, when a loop raises, and in which order files count.
 */
module ConfigLaws {
  import opened Common
  import opened ConfigLayers
  import opened ConfigTheorems

  // ---------------------------------------------------------------------
  // Python's equality
  // ---------------------------------------------------------------------

  /** The same value with every boolean and number as a float, at every depth. */
  function Canon(x: Json): Json {
    match x
    case Bool(b) => Float(if b then 1.0 else 0.0)
    case Int(n) => Float(n as real)
    case List(items) => List(seq(|items|, i requires 0 <= i < |items| => Canon(items[i])))
    case Obj(fields) => Obj(map k | k in fields :: Canon(fields[k]))
    case _ => x
  }

  /** Two values are equal in Python exactly if they are the same but for the types of their numbers. */
  lemma {:induction false} PyEqIff(x: Json, y: Json)
    ensures PyEq(x, y) <==> Canon(x) == Canon(y)
    decreases x
  {
    if x.List? && y.List? {
      PyEqListIff(x.items, y.items);
    } else if x.Obj? && y.Obj? {
      forall k | k in x.fields && k in y.fields
        ensures PyEq(x.fields[k], y.fields[k]) <==> Canon(x.fields[k]) == Canon(y.fields[k])
      {
        PyEqIff(x.fields[k], y.fields[k]);
      }
      assert Canon(x).fields.Keys == x.fields.Keys && Canon(y).fields.Keys == y.fields.Keys;
      if Canon(x) == Canon(y) {
        forall k | k in x.fields ensures Canon(x.fields[k]) == Canon(y.fields[k]) {
          assert Canon(x).fields[k] == Canon(y).fields[k];
        }
      }
    }
  }

  lemma {:induction false} PyEqListIff(p: seq<Json>, q: seq<Json>)
    ensures PyEq(List(p), List(q)) <==> Canon(List(p)) == Canon(List(q))
    decreases p
  {
    forall i | 0 <= i < |p| && i < |q| ensures PyEq(p[i], q[i]) <==> Canon(p[i]) == Canon(q[i]) {
      PyEqIff(p[i], q[i]);
    }
    if Canon(List(p)) == Canon(List(q)) {
      forall i | 0 <= i < |p| ensures |p| == |q| && Canon(p[i]) == Canon(q[i]) {
        assert Canon(List(p)).items[i] == Canon(List(q)).items[i];
      }
    }
  }

  /** Neither booleans nor numbers, at any depth. */
  predicate Textual(x: Json) {
    match x
    case Null => true
    case Str(_) => true
    case List(items) => forall i :: 0 <= i < |items| ==> Textual(items[i])
    case Obj(fields) => forall k :: k in fields ==> Textual(fields[k])
    case _ => false
  }

  lemma {:induction false} TextIsOnlyItself(x: Json, y: Json)
    requires Textual(x)
    ensures PyEq(x, y) <==> x == y
    decreases x
  {
    if x.List? && y.List? {
      forall i | 0 <= i < |x.items| && i < |y.items|
        ensures PyEq(x.items[i], y.items[i]) <==> x.items[i] == y.items[i]
      {
        TextIsOnlyItself(x.items[i], y.items[i]);
      }
    } else if x.Obj? && y.Obj? {
      forall k | k in x.fields && k in y.fields
        ensures PyEq(x.fields[k], y.fields[k]) <==> x.fields[k] == y.fields[k]
      {
        TextIsOnlyItself(x.fields[k], y.fields[k]);
      }
    }
  }

  lemma {:induction false} TextHasNoAlias(def: Option<Json>, v: Json)
    requires Textual(v)
    ensures NoAlias(def, v)
    decreases v
  {
    if def.Some? {
      if !v.Obj? {
        TextIsOnlyItself(v, def.value);
      } else if def.value.Obj? {
        forall k | k in v.fields ensures NoAlias(At(def.value.fields, k), v.fields[k]) {
          TextHasNoAlias(At(def.value.fields, k), v.fields[k]);
        }
      }
    }
  }

  /**
    For data without booleans and numbers, whatever the defaults: a `get` after
    `set(data)` gives exactly the defaults overlaid with the data.
   */
  lemma TextIsReadBack(directory: seq<File>, data: Dict)
    requires ReadAll(map[], directory).Some? && FitsDict(ReadAll(map[], directory).value, data)
    requires Textual(Obj(data))
    ensures !SetRaises(true, directory, data)
    ensures ReadAll(map[], directory + [Data(Obj(Stored(true, directory, data)))]) ==
      Some(Overlay(ReadAll(map[], directory).value, data))
  {
    var defaults := ReadAll(map[], directory).value;
    forall k | k in data ensures NoAlias(At(defaults, k), data[k]) {
      TextHasNoAlias(At(defaults, k), data[k]);
    }
    GetAfterSet(directory, data);
  }

  // ---------------------------------------------------------------------
  // Stripping, leaf by leaf
  // ---------------------------------------------------------------------

  /** Of the leaves of the data, exactly those go that are equal in Python to the default at the same path. */
  lemma {:induction false} StripLookup(data: Dict, defaults: Dict, path: seq<string>)
    ensures var (mine, theirs) := (Lookup(data, path), Lookup(defaults, path));
      Lookup(Strip(data, defaults), path) ==
        if mine.Some? && theirs.Some? && Canon(mine.value) == Canon(theirs.value) then None else mine
    decreases |path|
  {
    if path != [] {
      var k := path[0];
      StripAt(data, defaults, k);
      if k in data && k in defaults {
        if !data[k].Obj? {
          PyEqIff(data[k], defaults[k]);
        } else if |path| > 1 && defaults[k].Obj? {
          StripLookup(data[k].fields, defaults[k].fields, path[1..]);
        }
      }
    }
  }

  /** And no object is left empty where there is a default. */
  lemma StripPrunes(data: Dict, defaults: Dict, k: string)
    requires k in Strip(data, defaults)
    ensures k in data && (k in defaults ==> Strip(data, defaults)[k] != Obj(map[]))
  {
    StripAt(data, defaults, k);
  }

  // ---------------------------------------------------------------------
  // When the loops raise
  // ---------------------------------------------------------------------

  /** What is at a path of keys, object or not. */
  function Node(d: Dict, path: seq<string>): Option<Json>
    decreases |path|
  {
    if path == [] || path[0] !in d then None
    else if |path| == 1 then Some(d[path[0]])
    else if d[path[0]].Obj? then Node(d[path[0]].fields, path[1..])
    else None
  }

  /** At this path the merge has to put something into a value that is not an object. */
  predicate Obstructs(target: Dict, patch: Dict, path: seq<string>) {
    var (cur, v) := (Node(target, path), Node(patch, path));
    v.Some? && v.value.Obj? && v.value.fields != map[] && cur.Some? && !cur.value.Obj?
  }

  lemma Beneath(d: Dict, k: string, path: seq<string>)
    requires path != []
    ensures Node(d, [k] + path) == if k in d && d[k].Obj? then Node(d[k].fields, path) else None
  {
    assert ([k] + path)[1..] == path;
  }

  lemma NothingThere(path: seq<string>)
    ensures Node(map[], path) == None
  {
  }

  /** The merge raises exactly if some object of the patch with something in it meets a value that is not an object. */
  lemma {:induction false} MergeRaisesIff(target: Dict, patch: Dict)
    ensures OverlayRaises(target, patch) <==> exists path :: Obstructs(target, patch, path)
    decreases Obj(patch)
  {
    if k :| k in patch && MergeRaises(At(target, k), patch[k]) {
      var f := patch[k].fields;
      if k in target && !target[k].Obj? {
        assert Obstructs(target, patch, [k]);
      } else {
        var cur: Dict := if k in target then target[k].fields else map[];
        MergeRaisesIff(cur, f);
        var path :| Obstructs(cur, f, path);
        NothingThere(path);
        Beneath(target, k, path);
        Beneath(patch, k, path);
        assert Obstructs(target, patch, [k] + path);
      }
    }
    if path :| Obstructs(target, patch, path) {
      var k := path[0];
      if |path| > 1 {
        assert path == [k] + path[1..];
        Beneath(target, k, path[1..]);
        Beneath(patch, k, path[1..]);
        MergeRaisesIff(target[k].fields, patch[k].fields);
        assert Obstructs(target[k].fields, patch[k].fields, path[1..]);
      }
      assert MergeRaises(At(target, k), patch[k]);
    }
  }

  /** At this path an object of the data meets a default in which looking up one of its keys raises. */
  predicate Misfits(data: Dict, defaults: Dict, path: seq<string>) {
    var (v, def) := (Node(data, path), Node(defaults, path));
    v.Some? && v.value.Obj? && def.Some? && !def.value.Obj? &&
    exists k :: k in v.value.fields && LookupRaises(def.value, k)
  }

  /** Stripping raises exactly at such a path. */
  lemma {:induction false} StripRaisesIff(data: Dict, defaults: Dict)
    ensures StripRaises(data, defaults) <==> exists path :: Misfits(data, defaults, path)
    decreases Obj(data)
  {
    hide LookupRaises;
    if k :| k in data && StripKeyRaises(data[k], At(defaults, k)) {
      var f := data[k].fields;
      if !defaults[k].Obj? {
        assert Misfits(data, defaults, [k]);
      } else {
        StripRaisesIff(f, defaults[k].fields);
        var path :| Misfits(f, defaults[k].fields, path);
        Beneath(data, k, path);
        Beneath(defaults, k, path);
        assert Misfits(data, defaults, [k] + path);
      }
    }
    if path :| Misfits(data, defaults, path) {
      var k := path[0];
      if |path| > 1 {
        assert path == [k] + path[1..];
        Beneath(data, k, path[1..]);
        Beneath(defaults, k, path[1..]);
        StripRaisesIff(data[k].fields, defaults[k].fields);
        assert Misfits(data[k].fields, defaults[k].fields, path[1..]);
      }
      assert StripKeyRaises(data[k], At(defaults, k));
    }
  }

  lemma InfixIff(s: string, t: string)
    ensures IsInfix(s, t) <==> exists i | 0 <= i <= |t| :: s <= t[i..]
  {
    if s <= t {
      assert s <= t[0..];
    } else if t != [] {
      InfixIff(s, t[1..]);
      if i :| 0 <= i <= |t[1..]| && s <= t[1..][i..] {
        assert t[1..][i..] == t[i + 1..];
      }
      if i :| 0 <= i <= |t| && s <= t[i..] {
        assert i > 0 ==> t[1..][i - 1..] == t[i..];
        assert t[0..] == t;
      }
    }
  }

  /** Looking up a key: a string raises if the key occurs in it, a list if it is one of the items, all else always. */
  lemma LookupRaisesIff(x: Json, key: string)
    ensures LookupRaises(x, key) <==>
      && (x.Str? ==> exists i | 0 <= i <= |x.s| :: key <= x.s[i..])
      && (x.List? ==> Str(key) in x.items)
  {
    match x
    case Str(s) => InfixIff(key, s);
    case List(items) =>
      forall i | 0 <= i < |items| ensures PyEq(items[i], Str(key)) <==> items[i] == Str(key) {
        TextIsOnlyItself(Str(key), items[i]);
      }
    case _ =>
  }

  // ---------------------------------------------------------------------
  // What a merge does to a key
  // ---------------------------------------------------------------------

  /** A null deletes whatever is there, a leaf replaces it, and other keys keep what they have. */
  lemma NullsAndLeaves(target: Dict, patch: Dict, k: string)
    ensures k in patch && patch[k].Null? ==> k !in Overlay(target, patch)
    ensures k in patch && !patch[k].Null? && !patch[k].Obj? ==> At(Overlay(target, patch), k) == Some(patch[k])
    ensures k !in patch ==> At(Overlay(target, patch), k) == At(target, k)
  {
    OverlayAt(target, patch, k);
  }

  /** An object is merged into the object there, or into an empty one; if nothing is left of it, the key goes. */
  lemma ObjectsMerge(target: Dict, patch: Dict, k: string)
    requires k in patch && patch[k].Obj? && (k in target ==> target[k].Obj?)
    ensures var sub := Overlay(if k in target then target[k].fields else map[], patch[k].fields);
      At(Overlay(target, patch), k) == if sub == map[] then None else Some(Obj(sub))
  {
    OverlayAt(target, patch, k);
  }

  /** An empty object over a leaf leaves it, unless Python takes the leaf for false: then it goes. */
  lemma EmptyObjectOverLeaf(target: Dict, patch: Dict, k: string)
    requires k in patch && patch[k] == Obj(map[]) && k in target && !target[k].Obj?
    ensures At(Overlay(target, patch), k) ==
      if target[k] in {Null, Bool(false), Int(0), Float(0.0), Str(""), List([])} then None else Some(target[k])
  {
    OverlayAt(target, patch, k);
  }

  // ---------------------------------------------------------------------
  // Which files count
  // ---------------------------------------------------------------------

  lemma OneFile(data: Dict, f: File)
    ensures f.Undecodable? ==> ReadAll(data, [f]) == None
    ensures f in {Absent, Blank, Garbage} ==> ReadAll(data, [f]) == Some(data)
    ensures f.Data? && (!f.json.Obj? || OverlayRaises(data, f.json.fields)) ==> ReadAll(data, [f]) == None
    ensures f.Data? && f.json.Obj? && !OverlayRaises(data, f.json.fields) ==>
      ReadAll(data, [f]) == Some(Overlay(data, f.json.fields))
  {
    assert [f][1..] == [];
  }

  lemma ReadThrough(data: Dict, before: seq<File>, f: File, after: seq<File>)
    ensures ReadAll(data, before + [f] + after) ==
      var d := ReadAll(data, before);
      if d.None? || ReadAll(d.value, [f]).None? then None else ReadAll(ReadAll(d.value, [f]).value, after)
  {
    ReadAllAppend(data, before + [f], after);
    ReadAllAppend(data, before, [f]);
  }

  /** Missing and empty files and files that are not JSON are as good as not there. */
  lemma UnusableFilesAreSkipped(data: Dict, before: seq<File>, f: File, after: seq<File>)
    requires f in {Absent, Blank, Garbage}
    ensures ReadAll(data, before + [f] + after) == ReadAll(data, before + after)
  {
    ReadThrough(data, before, f, after);
    OneFile(if ReadAll(data, before).Some? then ReadAll(data, before).value else map[], f);
    ReadAllAppend(data, before, after);
  }

  /** A file that is not UTF-8, and JSON that is not an object, make reading raise, whatever comes before and after. */
  lemma OtherFilesRaise(data: Dict, before: seq<File>, f: File, after: seq<File>)
    requires f.Undecodable? || (f.Data? && !f.json.Obj?)
    ensures ReadAll(data, before + [f] + after) == None
  {
    ReadThrough(data, before, f, after);
    OneFile(if ReadAll(data, before).Some? then ReadAll(data, before).value else map[], f);
  }

  /** Of two files the later counts: each leaf path has its value if it has one, and what was read before otherwise. */
  lemma LaterFilesWin(data: Dict, before: seq<File>, last: Dict, path: seq<string>)
    requires ReadAll(data, before).Some? && CleanDict(last)
    requires SameShape(Obj(ReadAll(data, before).value), Obj(last))
    ensures var all := ReadAll(data, before + [Data(Obj(last))]);
      && all.Some?
      && Lookup(all.value, path) ==
           if Lookup(last, path).Some? then Lookup(last, path) else Lookup(ReadAll(data, before).value, path)
  {
    var d := ReadAll(data, before).value;
    ReadAllAppend(data, before, [Data(Obj(last))]);
    OneFile(d, Data(Obj(last)));
    SameShapeFits(d, last);
    FitsDictNeverRaises(d, last);
    OverlayLookup(d, last, path);
  }
}
