/**
  Layered JSON configuration: the recursive merge in which null deletes and
  empty objects are pruned, the pass that strips what is already default, and
  the managers that read and write sections with them.
 */
module ConfigLayers {
  import opened Common

  datatype Json =
    | Null
    | Bool(b: bool)
    | Int(n: int)
    | Float(r: real)
    | Str(s: string)
    | List(items: seq<Json>)
    | Obj(fields: Dict)

  type Dict = map<string, Json>

  /** Python's `==`, under which booleans and numbers compare by value. */
  predicate PyEq(x: Json, y: Json) {
    match (x, y)
    case (Null, Null) => true
    case (Str(s), Str(t)) => s == t
    case (List(p), List(q)) => |p| == |q| && forall i :: 0 <= i < |p| ==> PyEq(p[i], q[i])
    case (Obj(p), Obj(q)) => p.Keys == q.Keys && forall k :: k in p ==> PyEq(p[k], q[k])
    case _ => Number(x).Some? && Number(x) == Number(y)
  }

  function Number(x: Json): Option<real> {
    match x
    case Bool(b) => Some(if b then 1.0 else 0.0)
    case Int(n) => Some(n as real)
    case Float(r) => Some(r)
    case _ => None
  }

  /** Python's `not x`. */
  predicate Falsy(x: Json) {
    match x
    case Null => true
    case Bool(b) => !b
    case Int(n) => n == 0
    case Float(r) => r == 0.0
    case Str(s) => s == []
    case List(p) => p == []
    case Obj(f) => f == map[]
  }

  // ---------------------------------------------------------------------
  // The merge
  // ---------------------------------------------------------------------

  function At(d: Dict, k: string): Option<Json> {
    if k in d then Some(d[k]) else None
  }

  function NonEmpty(d: Dict): Option<Json> {
    if d == map[] then None else Some(Obj(d))
  }

  /** What the merge makes of a key that now holds `cur`, when the patch says `v`. */
  function Merged(cur: Option<Json>, v: Json): Option<Json>
    decreases v, 1
  {
    match v
    case Null => None
    case Obj(f) =>
      if cur.None? then NonEmpty(Overlay(map[], f))
      else if cur.value.Obj? then NonEmpty(Overlay(cur.value.fields, f))
      else if f == map[] && Falsy(cur.value) then None else cur
    case _ => Some(v)
  }

  function Overlay(target: Dict, patch: Dict): Dict
    decreases Obj(patch), 0
  {
    map k | k in target.Keys + patch.Keys && (k in patch ==> Merged(At(target, k), patch[k]).Some?) ::
      if k in patch then Merged(At(target, k), patch[k]).value else target[k]
  }

  /** The merge raises where a non-empty object meets a value that is not an object. */
  predicate MergeRaises(cur: Option<Json>, v: Json)
    decreases v, 1
  {
    v.Obj? &&
    if cur.Some? && !cur.value.Obj? then v.fields != map[]
    else OverlayRaises(if cur.Some? then cur.value.fields else map[], v.fields)
  }

  predicate OverlayRaises(target: Dict, patch: Dict)
    decreases Obj(patch), 0
  {
    exists k :: k in patch && MergeRaises(At(target, k), patch[k])
  }

  function Put(d: Dict, k: string, v: Option<Json>): Dict {
    if v.Some? then d[k := v.value] else d - {k}
  }

  function Without(d: Dict, keys: set<string>): Dict {
    map k | k in d && k !in keys :: d[k]
  }

  /** One more key of the patch changes the result at that key only. */
  lemma OverlayOneMore(target: Dict, patch: Dict, todo: set<string>, k: string)
    requires k in patch && k in todo
    ensures At(Overlay(target, Without(patch, todo)), k) == At(target, k)
    ensures Overlay(target, Without(patch, todo - {k})) ==
      Put(Overlay(target, Without(patch, todo)), k, Merged(At(target, k), patch[k]))
  {
    var before, after := Overlay(target, Without(patch, todo)), Overlay(target, Without(patch, todo - {k}));
    forall j ensures At(after, j) == if j == k then Merged(At(target, k), patch[k]) else At(before, j) {
      OverlayAt(target, Without(patch, todo), j);
      OverlayAt(target, Without(patch, todo - {k}), j);
    }
    OverlayAt(target, Without(patch, todo), k);
    SameDict(after, Put(before, k, Merged(At(target, k), patch[k])));
  }

  lemma SameDict(a: Dict, b: Dict)
    requires forall j :: At(a, j) == At(b, j)
    ensures a == b
  {
    forall j ensures (j in a <==> j in b) && (j in a ==> a[j] == b[j]) {
      assert At(a, j) == At(b, j);
    }
  }

  /** The merge, key by key. */
  lemma OverlayAt(target: Dict, patch: Dict, k: string)
    ensures At(Overlay(target, patch), k) == if k in patch then Merged(At(target, k), patch[k]) else At(target, k)
  {
    hide Merged;
  }

  method RecursiveUpdate(target: Dict, patch: Dict) returns (ok: bool, result: Dict)
    ensures ok <==> !OverlayRaises(target, patch)
    ensures ok ==> result == Overlay(target, patch)
    decreases Obj(patch), 0
  {
    result := target;
    var todo := patch.Keys;
    assert Overlay(target, Without(patch, todo)) == target;
    while todo != {}
      invariant todo <= patch.Keys
      invariant forall k :: k in patch && k !in todo ==> !MergeRaises(At(target, k), patch[k])
      invariant result == Overlay(target, Without(patch, todo))
      decreases todo
    {
      var k :| k in todo;
      OverlayOneMore(target, patch, todo, k);
      var fine;
      fine, result := UpdateKey(result, k, patch[k]);
      if !fine {
        return false, result;
      }
      todo := todo - {k};
    }
    assert Without(patch, {}) == patch;
    return true, result;
  }

  /** The body of the loop: one key and its new value. */
  method UpdateKey(target: Dict, k: string, v: Json) returns (ok: bool, result: Dict)
    ensures ok <==> !MergeRaises(At(target, k), v)
    ensures ok ==> result == Put(target, k, Merged(At(target, k), v))
    decreases v, 1
  {
    result := target;
    match v {
      case Obj(f) =>
        if k !in result {
          result := result[k := Obj(map[])];
        }
        var cur := result[k];
        if cur.Obj? {
          var fine, m := RecursiveUpdate(cur.fields, f);
          if !fine {
            return false, result;
          }
          result := if m == map[] then result - {k} else result[k := Obj(m)];
          assert result == Put(target, k, NonEmpty(m));
        } else {
          if f != map[] {
            return false, result;
          }
          if Falsy(cur) {
            result := result - {k};
          }
          assert result == Put(target, k, Merged(At(target, k), v));
        }
      case Null =>
        result := result - {k};
      case _ =>
        result := result[k := v];
    }
    return true, result;
  }

  // ---------------------------------------------------------------------
  // Stripping defaults
  // ---------------------------------------------------------------------

  /** What is left of value `v` when the default is `def`. */
  function Stripped(v: Json, def: Option<Json>): Option<Json>
    decreases v, 1
  {
    if def.None? then Some(v)
    else if v.Obj? then NonEmpty(if def.value.Obj? then Strip(v.fields, def.value.fields) else v.fields)
    else if PyEq(v, def.value) then None
    else Some(v)
  }

  function Strip(data: Dict, defaults: Dict): Dict
    decreases Obj(data), 0
  {
    map k | k in data && Stripped(data[k], At(defaults, k)).Some? :: Stripped(data[k], At(defaults, k)).value
  }

  predicate IsInfix(s: string, t: string) {
    s <= t || (t != [] && IsInfix(s, t[1..]))
  }

  /** `key in x` raises, or `x[key]` does, for an `x` that is not an object. */
  predicate LookupRaises(x: Json, key: string) {
    match x
    case Str(s) => IsInfix(key, s)
    case List(items) => exists i :: 0 <= i < |items| && PyEq(items[i], Str(key))
    case _ => true
  }

  predicate StripKeyRaises(v: Json, def: Option<Json>)
    decreases v, 1
  {
    def.Some? && v.Obj? &&
    if def.value.Obj? then StripRaises(v.fields, def.value.fields)
    else exists k :: k in v.fields && LookupRaises(def.value, k)
  }

  predicate StripRaises(data: Dict, defaults: Dict)
    decreases Obj(data), 0
  {
    exists k :: k in data && StripKeyRaises(data[k], At(defaults, k))
  }

  /** `data` stripped at all keys but those in `todo`. */
  function PartlyStripped(data: Dict, defaults: Dict, todo: set<string>): Dict {
    map k | k in data && (k in todo || Stripped(data[k], At(defaults, k)).Some?) ::
      if k in todo then data[k] else Stripped(data[k], At(defaults, k)).value
  }

  method RemoveDefaults(data: Dict, defaults: Dict) returns (ok: bool, result: Dict)
    ensures ok <==> !StripRaises(data, defaults)
    ensures ok ==> result == Strip(data, defaults)
    decreases Obj(data), 0
  {
    result := data;
    var todo := data.Keys;
    while todo != {}
      invariant todo <= data.Keys
      invariant forall k :: k in data && k !in todo ==> !StripKeyRaises(data[k], At(defaults, k))
      invariant result == PartlyStripped(data, defaults, todo)
      decreases todo
    {
      var k :| k in todo;
      StripOneMore(data, defaults, todo, k);
      if k in defaults {
        var fine;
        fine, result := StripKey(result, k, defaults[k]);
        if !fine {
          return false, result;
        }
      }
      todo := todo - {k};
    }
    return true, result;
  }

  lemma StripOneMore(data: Dict, defaults: Dict, todo: set<string>, k: string)
    requires k in data && k in todo
    ensures At(PartlyStripped(data, defaults, todo), k) == Some(data[k])
    ensures PartlyStripped(data, defaults, todo - {k}) ==
      Put(PartlyStripped(data, defaults, todo), k, Stripped(data[k], At(defaults, k)))
    ensures k !in defaults ==> PartlyStripped(data, defaults, todo - {k}) == PartlyStripped(data, defaults, todo)
  {
    var after := Put(PartlyStripped(data, defaults, todo), k, Stripped(data[k], At(defaults, k)));
    assert PartlyStripped(data, defaults, todo - {k}).Keys == after.Keys;
  }

  method StripKey(data: Dict, k: string, def: Json) returns (ok: bool, result: Dict)
    requires k in data
    ensures ok <==> !StripKeyRaises(data[k], Some(def))
    ensures ok ==> result == Put(data, k, Stripped(data[k], Some(def)))
    decreases data[k], 1
  {
    result := data;
    var value := data[k];
    if value.Obj? {
      var f := value.fields;
      if def.Obj? {
        var fine;
        fine, f := RemoveDefaults(f, def.fields);
        if !fine {
          return false, result;
        }
      } else if exists j :: j in f && LookupRaises(def, j) {
        return false, result;
      }
      result := if f == map[] then result - {k} else result[k := Obj(f)];
    } else if PyEq(value, def) {
      result := result - {k};
    }
    return true, result;
  }

  // ---------------------------------------------------------------------
  // The managers
  // ---------------------------------------------------------------------

  /** A configuration file: missing, empty, not UTF-8, not JSON, or some JSON. */
  datatype File = Absent | Blank | Undecodable | Garbage | Data(json: Json)

  /** Merges files into `data` in order; `None` if that raises. */
  function ReadAll(data: Dict, files: seq<File>): Option<Dict>
    decreases |files|
  {
    if files == [] then Some(data)
    else if files[0].Undecodable? then None
    else if !files[0].Data? then ReadAll(data, files[1..])
    else if !files[0].json.Obj? || OverlayRaises(data, files[0].json.fields) then None
    else ReadAll(Overlay(data, files[0].json.fields), files[1..])
  }

  /** The manager of one section in one directory. */
  class SectionManager {
    const readDirectory: bool
    /** The files of the `.d` directory, in sorted order. */
    const directory: seq<File>
    var root: File

    constructor (readDirectory: bool, directory: seq<File>, root: File)
      ensures this.readDirectory == readDirectory && this.directory == directory && this.root == root
    {
      this.readDirectory := readDirectory;
      this.directory := directory;
      this.root := root;
    }

    function Paths(includeRoot: bool): seq<File>
      reads this
    {
      (if readDirectory then directory else []) + (if includeRoot then [root] else [])
    }

    method Get(includeRoot: bool) returns (data: Option<Dict>)
      ensures data == ReadAll(map[], Paths(includeRoot))
    {
      var paths := Paths(includeRoot);
      var result: Dict := map[];
      for i := 0 to |paths|
        invariant ReadAll(result, paths[i..]) == ReadAll(map[], paths)
      {
        assert paths[i..][1..] == paths[i + 1..];
        if paths[i].Undecodable? {
          return None;
        }
        if paths[i].Data? {
          if !paths[i].json.Obj? {
            return None;
          }
          var ok, merged := RecursiveUpdate(result, paths[i].json.fields);
          if !ok {
            return None;
          }
          result := merged;
        }
      }
      return Some(result);
    }

    method Set(data: Dict) returns (ok: bool)
      modifies this`root
      ensures root == if ok then Data(Obj(Stored(readDirectory, directory, data))) else old(root)
      ensures ok <==> !SetRaises(readDirectory, directory, data)
    {
      var kept := data;
      if readDirectory {
        assert directory + [] == directory;
        var defaults := Get(false);
        if defaults.None? {
          return false;
        }
        ok, kept := RemoveDefaults(data, defaults.value);
        if !ok {
          return false;
        }
      }
      root := Data(Obj(kept));
      return true;
    }

    method Update(patch: Dict) returns (data: Option<Dict>)
      modifies this`root
      ensures data == Updated(readDirectory, directory, old(root), patch)
      ensures root == if data.Some? then Data(Obj(Stored(readDirectory, directory, data.value))) else old(root)
    {
      var before := Get(true);
      if before.None? {
        return None;
      }
      var ok, merged := RecursiveUpdate(before.value, patch);
      if !ok {
        return None;
      }
      ok := Set(merged);
      if !ok {
        return None;
      }
      return Some(merged);
    }
  }

  predicate SetRaises(readDirectory: bool, directory: seq<File>, data: Dict) {
    readDirectory && (ReadAll(map[], directory).None? || StripRaises(data, ReadAll(map[], directory).value))
  }

  /** What `set` writes. */
  function Stored(readDirectory: bool, directory: seq<File>, data: Dict): Dict {
    if readDirectory && ReadAll(map[], directory).Some? then Strip(data, ReadAll(map[], directory).value) else data
  }

  /** What `update` returns, `None` if it raises. */
  function Updated(readDirectory: bool, directory: seq<File>, root: File, patch: Dict): Option<Dict> {
    var before := ReadAll(map[], (if readDirectory then directory else []) + [root]);
    if before.None? || OverlayRaises(before.value, patch) ||
       SetRaises(readDirectory, directory, Overlay(before.value, patch)) then None
    else Some(Overlay(before.value, patch))
  }

  function Layered(sections: seq<Option<Dict>>): Option<Dict> {
    if sections == [] then Some(map[])
    else
      var rest := Layered(sections[1..]);
      if rest.None? || sections[0].None? || OverlayRaises(rest.value, sections[0].value) then None
      else Some(Overlay(rest.value, sections[0].value))
  }

  /** What each manager reads, root file included. */
  function Sections(managers: seq<SectionManager>): (r: seq<Option<Dict>>)
    reads managers
    ensures |r| == |managers|
    ensures forall i :: 0 <= i < |managers| ==> r[i] == ReadAll(map[], managers[i].Paths(true))
  {
    if managers == [] then [] else [ReadAll(map[], managers[0].Paths(true))] + Sections(managers[1..])
  }

  /** The sections from `i` on. */
  function LayeredFrom(sections: seq<Option<Dict>>, i: nat): Option<Dict>
    requires i <= |sections|
  {
    Layered(sections[i..])
  }

  lemma LayeredEnds(sections: seq<Option<Dict>>)
    ensures LayeredFrom(sections, |sections|) == Some(map[])
    ensures LayeredFrom(sections, 0) == Layered(sections)
  {
    assert sections[|sections|..] == [] && sections[0..] == sections;
  }

  lemma LayeredStep(sections: seq<Option<Dict>>, i: nat)
    requires i < |sections|
    ensures LayeredFrom(sections, i) ==
      var rest := LayeredFrom(sections, i + 1);
      if rest.None? || sections[i].None? || OverlayRaises(rest.value, sections[i].value) then None
      else Some(Overlay(rest.value, sections[i].value))
  {
    hide Overlay, OverlayRaises;
    assert sections[i..][1..] == sections[i + 1..];
  }

  lemma LayeredFails(sections: seq<Option<Dict>>, i: nat)
    requires i <= |sections| && LayeredFrom(sections, i).None?
    ensures Layered(sections).None?
  {
    if i > 0 {
      LayeredStep(sections, i - 1);
      LayeredFails(sections, i - 1);
    } else {
      LayeredEnds(sections);
    }
  }

  /** `ConfigManager.get`: steps through the directories back to front, so that the first has the last word. */
  method GetLayered(managers: seq<SectionManager>) returns (config: Option<Dict>)
    ensures config == Layered(Sections(managers))
  {
    hide *;
    var result: Dict := map[];
    ghost var all := Sections(managers);
    LayeredEnds(all);
    var i := |managers|;
    while i > 0
      invariant 0 <= i <= |managers|
      invariant LayeredFrom(all, i) == Some(result)
    {
      i := i - 1;
      LayeredStep(all, i);
      var section := managers[i].Get(true);
      if section.None? {
        LayeredFails(all, i);
        return None;
      }
      var ok, merged := RecursiveUpdate(result, section.value);
      if !ok {
        LayeredFails(all, i);
        return None;
      }
      result := merged;
    }
    return Some(result);
  }
}
