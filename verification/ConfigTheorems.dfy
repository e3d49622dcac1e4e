/** What reading, storing and updating layered configuration promises. */
module ConfigTheorems {
  import opened Common
  import opened ConfigLayers

  // ---------------------------------------------------------------------
  // Clean results
  // ---------------------------------------------------------------------

  /** No null and no empty object, at any depth of nested objects. */
  predicate Clean(v: Json) {
    v != Null && (v.Obj? ==> v.fields != map[] && forall k :: k in v.fields ==> Clean(v.fields[k]))
  }

  predicate CleanDict(d: Dict) {
    forall k :: k in d ==> Clean(d[k])
  }

  lemma {:induction false} MergedClean(cur: Option<Json>, v: Json)
    requires (cur.Some? ==> Clean(cur.value)) && !MergeRaises(cur, v)
    ensures Merged(cur, v).Some? ==> Clean(Merged(cur, v).value)
    decreases v, 1
  {
    if v.Obj? {
      if cur.None? {
        OverlayClean(map[], v.fields);
      } else if cur.value.Obj? {
        OverlayClean(cur.value.fields, v.fields);
      }
    }
  }

  /** Merging anything into clean data leaves clean data. */
  lemma {:induction false} OverlayClean(target: Dict, patch: Dict)
    requires CleanDict(target) && !OverlayRaises(target, patch)
    ensures CleanDict(Overlay(target, patch))
    decreases Obj(patch), 0
  {
    forall k | k in Overlay(target, patch) ensures Clean(Overlay(target, patch)[k]) {
      OverlayAt(target, patch, k);
      if k in patch {
        MergedClean(At(target, k), patch[k]);
      }
    }
  }

  /** Whatever the files hold, a result of `get` is clean. */
  lemma {:induction false} ReadAllClean(data: Dict, files: seq<File>)
    requires CleanDict(data) && ReadAll(data, files).Some?
    ensures CleanDict(ReadAll(data, files).value)
    decreases |files|
  {
    if files != [] {
      if files[0].Data? {
        OverlayClean(data, files[0].json.fields);
        ReadAllClean(Overlay(data, files[0].json.fields), files[1..]);
      } else {
        ReadAllClean(data, files[1..]);
      }
    }
  }

  // ---------------------------------------------------------------------
  // Stripping defaults loses nothing
  // ---------------------------------------------------------------------

  /** No object where the default is not one. */
  predicate Fits(def: Option<Json>, v: Json)
    decreases v
  {
    v.Obj? && def.Some? ==>
      def.value.Obj? && forall k :: k in v.fields ==> Fits(At(def.value.fields, k), v.fields[k])
  }

  predicate FitsDict(defaults: Dict, data: Dict) {
    forall k :: k in data ==> Fits(At(defaults, k), data[k])
  }

  /** Only a default itself is equal to it in Python. */
  predicate NoAlias(def: Option<Json>, v: Json)
    decreases v
  {
    def.Some? ==>
      if v.Obj? then def.value.Obj? ==> forall k :: k in v.fields ==> NoAlias(At(def.value.fields, k), v.fields[k])
      else PyEq(v, def.value) ==> v == def.value
  }

  predicate NoAliasDict(defaults: Dict, data: Dict) {
    forall k :: k in data ==> NoAlias(At(defaults, k), data[k])
  }

  predicate SameOpt(x: Option<Json>, y: Option<Json>) {
    x.None? == y.None? && (x.Some? ==> PyEq(x.value, y.value))
  }

  /** Equal keys, and values equal in Python, at every depth. */
  predicate SameValues(x: Dict, y: Dict) {
    x.Keys == y.Keys && forall k :: k in x ==> PyEq(x[k], y[k])
  }

  lemma PyEqReflexive(x: Json)
    ensures PyEq(x, x)
  {
    if x.List? {
      forall i | 0 <= i < |x.items| ensures PyEq(x.items[i], x.items[i]) {
        PyEqReflexive(x.items[i]);
      }
    } else if x.Obj? {
      forall k | k in x.fields ensures PyEq(x.fields[k], x.fields[k]) {
        PyEqReflexive(x.fields[k]);
      }
    }
  }

  /** The default `def` overlaid with what is left of `v`. */
  function Restored(def: Option<Json>, v: Json): Option<Json> {
    if Stripped(v, def).None? then def else Merged(def, Stripped(v, def).value)
  }

  lemma StripAt(data: Dict, defaults: Dict, k: string)
    ensures At(Strip(data, defaults), k) == if k in data then Stripped(data[k], At(defaults, k)) else None
  {
    hide Stripped;
  }

  lemma RestoredAt(defaults: Dict, data: Dict, k: string)
    ensures At(Overlay(defaults, Strip(data, defaults)), k) ==
      if k in data then Restored(At(defaults, k), data[k]) else At(defaults, k)
  {
    OverlayAt(defaults, Strip(data, defaults), k);
    StripAt(data, defaults, k);
    hide Stripped, Merged, Overlay, Strip;
  }

  lemma OverlayNothing(d: Dict)
    ensures Overlay(d, map[]) == d
  {
  }

  /** Object by object: `Restored` is the overlay of what was stripped. */
  lemma RestoredObject(def: Dict, f: Dict)
    requires def != map[]
    ensures Restored(Some(Obj(def)), Obj(f)) == NonEmpty(Overlay(def, Strip(f, def)))
  {
    OverlayNothing(def);
  }

  lemma {:induction false} StripValue(def: Option<Json>, v: Json)
    requires (def.Some? ==> Clean(def.value)) && Fits(def, v)
    ensures SameOpt(Merged(def, v), Restored(def, v))
    ensures Merged(def, v) == Restored(def, v) <==> NoAlias(def, v)
    decreases v, 1
  {
    if def.None? {
      if Merged(def, v).Some? {
        PyEqReflexive(Merged(def, v).value);
      }
    } else if v.Obj? {
      var d := def.value.fields;
      RestoredObject(d, v.fields);
      StrippingLosesNothing(d, v.fields);
      NonEmptySame(Overlay(d, v.fields), Overlay(d, Strip(v.fields, d)));
    } else if !v.Null? {
      PyEqReflexive(v);
    }
  }

  lemma NonEmptySame(x: Dict, y: Dict)
    requires SameValues(x, y)
    ensures SameOpt(NonEmpty(x), NonEmpty(y))
    ensures NonEmpty(x) == NonEmpty(y) <==> x == y
  {
  }

  /**
    Stripping defaults loses nothing: overlaying the defaults with what is left
    of the data gives the same as overlaying them with all of it, up to Python's
    equality of leaves; and exactly the same unless the data holds a leaf that
    is merely equal to its default, like `True` over 1.
   */
  lemma {:induction false} StrippingLosesNothing(defaults: Dict, data: Dict)
    requires CleanDict(defaults) && FitsDict(defaults, data)
    ensures SameValues(Overlay(defaults, data), Overlay(defaults, Strip(data, defaults)))
    ensures Overlay(defaults, data) == Overlay(defaults, Strip(data, defaults)) <==> NoAliasDict(defaults, data)
    decreases Obj(data), 0
  {
    var x, y := Overlay(defaults, data), Overlay(defaults, Strip(data, defaults));
    forall k
      ensures SameOpt(At(x, k), At(y, k))
      ensures At(x, k) == At(y, k) <==> (k in data ==> NoAlias(At(defaults, k), data[k]))
    {
      OverlayAt(defaults, data, k);
      RestoredAt(defaults, data, k);
      if k in data {
        StripValue(At(defaults, k), data[k]);
      } else if k in defaults {
        PyEqReflexive(defaults[k]);
      }
    }
    PointwiseSame(x, y);
    if NoAliasDict(defaults, data) {
      SameDict(x, y);
    }
  }

  lemma PointwiseSame(x: Dict, y: Dict)
    requires forall k :: SameOpt(At(x, k), At(y, k))
    ensures SameValues(x, y)
  {
    forall k ensures (k in x <==> k in y) && (k in x ==> PyEq(x[k], y[k])) {
      assert SameOpt(At(x, k), At(y, k));
    }
  }

  /** An example of a leaf that does not come back exactly. */
  lemma TrueOverOne()
    ensures var d, x := map["a" := Int(1)], map["a" := Bool(true)];
      Overlay(d, x)["a"] == Bool(true) && Overlay(d, Strip(x, d))["a"] == Int(1)
  {
    var d, x := map["a" := Int(1)], map["a" := Bool(true)];
    assert Strip(x, d) == map[];
    OverlayNothing(d);
  }

  // ---------------------------------------------------------------------
  // What the managers promise
  // ---------------------------------------------------------------------

  lemma {:induction false} FitsNeverRaises(def: Option<Json>, v: Json)
    requires Fits(def, v)
    ensures !MergeRaises(def, v) && !StripKeyRaises(v, def)
    ensures Stripped(v, def).Some? ==> Fits(def, Stripped(v, def).value)
    decreases v, 1
  {
    if v.Obj? {
      FitsDictNeverRaises(if def.Some? then def.value.fields else map[], v.fields);
    }
  }

  lemma {:induction false} FitsDictNeverRaises(defaults: Dict, data: Dict)
    requires FitsDict(defaults, data)
    ensures !OverlayRaises(defaults, data) && !StripRaises(data, defaults)
    ensures FitsDict(defaults, Strip(data, defaults))
    decreases Obj(data), 0
  {
    forall k | k in data
      ensures !MergeRaises(At(defaults, k), data[k]) && !StripKeyRaises(data[k], At(defaults, k))
      ensures Stripped(data[k], At(defaults, k)).Some? ==>
          Fits(At(defaults, k), Stripped(data[k], At(defaults, k)).value)
    {
      FitsNeverRaises(At(defaults, k), data[k]);
    }
  }

  lemma {:induction false} ReadAllAppend(data: Dict, p: seq<File>, q: seq<File>)
    ensures ReadAll(data, p + q) == if ReadAll(data, p).None? then None else ReadAll(ReadAll(data, p).value, q)
    decreases |p|
  {
    if p == [] {
      assert p + q == q;
    } else {
      assert (p + q)[1..] == p[1..] + q;
      if !p[0].Data? {
        ReadAllAppend(data, p[1..], q);
      } else if p[0].json.Obj? && !OverlayRaises(data, p[0].json.fields) {
        ReadAllAppend(Overlay(data, p[0].json.fields), p[1..], q);
      }
    }
  }

  /** The data of the `.d` directory with the root file on top. */
  lemma ReadWithRoot(directory: seq<File>, root: Dict)
    requires ReadAll(map[], directory).Some? && !OverlayRaises(ReadAll(map[], directory).value, root)
    ensures ReadAll(map[], directory + [Data(Obj(root))]) == Some(Overlay(ReadAll(map[], directory).value, root))
  {
    ReadAllAppend(map[], directory, [Data(Obj(root))]);
    assert [Data(Obj(root))][1..] == [];
  }

  /** A `get` after `set(data)` gives the defaults overlaid with the data. */
  lemma GetAfterSet(directory: seq<File>, data: Dict)
    requires ReadAll(map[], directory).Some? && FitsDict(ReadAll(map[], directory).value, data)
    ensures var defaults := ReadAll(map[], directory).value;
      var next := ReadAll(map[], directory + [Data(Obj(Stored(true, directory, data)))]);
      && !SetRaises(true, directory, data)
      && next.Some? && SameValues(Overlay(defaults, data), next.value) && CleanDict(next.value)
      && (next.value == Overlay(defaults, data) <==> NoAliasDict(defaults, data))
  {
    var defaults := ReadAll(map[], directory).value;
    ReadAllClean(map[], directory);
    FitsDictNeverRaises(defaults, data);
    FitsDictNeverRaises(defaults, Strip(data, defaults));
    StrippingLosesNothing(defaults, data);
    ReadWithRoot(directory, Strip(data, defaults));
    OverlayClean(defaults, Strip(data, defaults));
  }

  /** `a` has a value wherever `d` has one, except below a value of `a` that is not an object. */
  predicate Covers(a: Json, d: Json) {
    a.Obj? && d.Obj? ==> forall k :: k in d.fields ==> k in a.fields && Covers(a.fields[k], d.fields[k])
  }

  /** Overlaying covering data gives that data. */
  lemma {:induction false} CoveringOverlay(d: Dict, a: Dict)
    requires CleanDict(a) && FitsDict(d, a) && Covers(Obj(a), Obj(d))
    ensures Overlay(d, a) == a
    decreases Obj(a)
  {
    forall k ensures At(Overlay(d, a), k) == At(a, k) {
      OverlayAt(d, a, k);
      if k in a && a[k].Obj? {
        assert Clean(a[k]) && Fits(At(d, k), a[k]);
        if k in d {
          CoveringOverlay(d[k].fields, a[k].fields);
        } else {
          CoveringOverlay(map[], a[k].fields);
        }
      }
    }
    SameDict(Overlay(d, a), a);
  }

  /** Where data does not cover the defaults, what is read back differs from it. */
  lemma {:induction false} UncoveredDiffers(d: Dict, a: Dict)
    requires CleanDict(d) && CleanDict(a) && FitsDict(d, a) && !Covers(Obj(a), Obj(d))
    ensures !SameValues(a, Overlay(d, Strip(a, d)))
    decreases Obj(a)
  {
    var k :| k in d && !(k in a && Covers(a[k], d[k]));
    RestoredAt(d, a, k);
    hide Overlay, Strip, Restored;
    if k in a {
      assert Clean(d[k]) && Clean(a[k]) && Fits(At(d, k), a[k]);
      var x, y := d[k].fields, a[k].fields;
      UncoveredDiffers(x, y);
      RestoredObject(x, y);
      DiffersAt(a, Overlay(d, Strip(a, d)), k, Overlay(x, Strip(y, x)));
    }
  }

  lemma DiffersAt(a: Dict, next: Dict, k: string, sub: Dict)
    requires k in a && a[k].Obj? && !SameValues(a[k].fields, sub) && At(next, k) == NonEmpty(sub)
    ensures !SameValues(a, next)
  {
    if k in next {
      assert !PyEq(a[k], next[k]);
    }
  }

  /** No null at any depth of nested objects. */
  predicate NoNulls(v: Json) {
    v != Null && (v.Obj? ==> forall k :: k in v.fields ==> NoNulls(v.fields[k]))
  }

  predicate NoNullsDict(d: Dict) {
    forall k :: k in d ==> NoNulls(d[k])
  }

  lemma CoversReflexive(d: Json)
    ensures Covers(d, d)
  {
    if d.Obj? {
      forall k | k in d.fields ensures Covers(d.fields[k], d.fields[k]) {
        CoversReflexive(d.fields[k]);
      }
    }
  }

  /** A merge without nulls never removes a key of clean data. */
  lemma {:induction false} MergeKeepsKeys(target: Dict, patch: Dict)
    requires CleanDict(target) && NoNullsDict(patch) && FitsDict(target, patch)
    ensures target.Keys <= Overlay(target, patch).Keys
    decreases Obj(patch)
  {
    forall k | k in target ensures k in Overlay(target, patch) {
      OverlayAt(target, patch, k);
      if k in patch && patch[k].Obj? {
        assert Clean(target[k]) && NoNulls(patch[k]) && Fits(At(target, k), patch[k]);
        MergeKeepsKeys(target[k].fields, patch[k].fields);
      }
    }
  }

  lemma {:induction false} MergeKeepsCover(d: Dict, target: Dict, patch: Dict)
    requires CleanDict(target) && NoNullsDict(patch) && FitsDict(target, patch)
    requires Covers(Obj(target), Obj(d))
    ensures Covers(Obj(Overlay(target, patch)), Obj(d))
    decreases Obj(patch)
  {
    MergeKeepsKeys(target, patch);
    var a := Overlay(target, patch);
    forall k | k in d ensures k in a && Covers(a[k], d[k]) {
      assert k in target && Covers(target[k], d[k]);
      OverlayAt(target, patch, k);
      if k in patch && patch[k].Obj? {
        assert Clean(target[k]) && NoNulls(patch[k]) && Fits(At(target, k), patch[k]);
        if d[k].Obj? {
          MergeKeepsCover(d[k].fields, target[k].fields, patch[k].fields);
        }
      }
    }
  }

  /**
    When `update` tells the truth.  It returns the merged data but stores only
    what is not default; the next `get` gives the same values exactly if the
    merged data has a value wherever the defaults have one, and the very same
    data exactly if, besides, no leaf is merely equal to its default.
   */
  lemma UpdateTruth(directory: seq<File>, root: File, patch: Dict)
    requires Updated(true, directory, root, patch).Some?
    requires FitsDict(ReadAll(map[], directory).value, Updated(true, directory, root, patch).value)
    ensures var defaults, returned := ReadAll(map[], directory).value, Updated(true, directory, root, patch).value;
      var next := ReadAll(map[], directory + [Data(Obj(Stored(true, directory, returned)))]);
      && next.Some? && (SameValues(returned, next.value) <==> Covers(Obj(returned), Obj(defaults)))
      && (next == Some(returned) <==> Covers(Obj(returned), Obj(defaults)) && NoAliasDict(defaults, returned))
  {
    var defaults, returned := ReadAll(map[], directory).value, Updated(true, directory, root, patch).value;
    var before := ReadAll(map[], directory + [root]).value;
    ReadAllClean(map[], directory);
    ReadAllClean(map[], directory + [root]);
    OverlayClean(before, patch);
    FitsDictNeverRaises(defaults, returned);
    FitsDictNeverRaises(defaults, Strip(returned, defaults));
    ReadWithRoot(directory, Strip(returned, defaults));
    StrippingLosesNothing(defaults, returned);
    if Covers(Obj(returned), Obj(defaults)) {
      CoveringOverlay(defaults, returned);
    } else {
      UncoveredDiffers(defaults, returned);
      PyEqReflexive(Obj(returned));
    }
  }

  lemma FitsReflexive(x: Json)
    ensures Fits(Some(x), x)
  {
    if x.Obj? {
      forall k | k in x.fields ensures Fits(At(x.fields, k), x.fields[k]) {
        FitsReflexive(x.fields[k]);
      }
    }
  }

  lemma {:induction false} FitsOverlay(defaults: Dict, target: Dict, patch: Dict)
    requires FitsDict(defaults, target) && FitsDict(defaults, patch) && FitsDict(target, patch)
    ensures FitsDict(defaults, Overlay(target, patch))
    decreases Obj(patch)
  {
    var o := Overlay(target, patch);
    forall k | k in o ensures Fits(At(defaults, k), o[k]) {
      OverlayAt(target, patch, k);
      if k in patch && patch[k].Obj? && k in defaults {
        assert Fits(At(defaults, k), patch[k]) && Fits(At(target, k), patch[k]);
        FitsOverlay(defaults[k].fields, if k in target then target[k].fields else map[], patch[k].fields);
      }
    }
  }

  // ---------------------------------------------------------------------
  // When `update` tells the truth, from what it is given
  // ---------------------------------------------------------------------

  /** What a key holds after one more layer. */
  function Layer(cur: Option<Json>, v: Option<Json>): Option<Json> {
    if v.None? then cur else Merged(cur, v.value)
  }

  /** What a layer says about a key below: a null there deletes everything below as well. */
  function Below(v: Option<Json>, k: string): Option<Json> {
    if v.None? || v.value.Null? then v
    else if v.value.Obj? then At(v.value.fields, k)
    else None
  }

  /** The default `d` is not deleted, by a null at its key or above, in the root file `r` or the new data `p`. */
  predicate Survives(d: Json, r: Option<Json>, p: Option<Json>)
    decreases d
  {
    var last := if p.Some? then p else r;
    last.None? ||
    (&& !last.value.Null?
     && (last.value.Obj? && d.Obj? ==> forall k :: k in d.fields ==>
           Survives(d.fields[k], Below(r, k), if p.Some? then At(p.value.fields, k) else None)))
  }

  /** No leaf given over a default is merely equal to it. */
  predicate Plain(d: Json, r: Option<Json>, p: Option<Json>)
    decreases d
  {
    var last := if p.Some? then p else r;
    last.None? ||
    if last.value.Obj? then
      d.Obj? ==> forall k :: k in d.fields ==>
        Plain(d.fields[k], Below(r, k), if p.Some? then At(p.value.fields, k) else None)
    else PyEq(last.value, d) ==> last.value == d
  }

  /** Objects are given over objects only, in either layer. */
  predicate FitLayers(d: Json, r: Option<Json>, p: Option<Json>) {
    && (r.Some? ==> Fits(Some(d), r.value))
    && (p.Some? ==> Fits(Some(d), p.value) && Fits(Layer(Some(d), r), p.value))
  }

  /** What a key below holds, if there is an object. */
  function Under(cur: Option<Json>, k: string): Option<Json> {
    if cur.Some? && cur.value.Obj? then At(cur.value.fields, k) else None
  }

  lemma UnderLayer(cur: Option<Json>, v: Option<Json>, k: string)
    requires cur.Some? ==> cur.value.Obj?
    requires v.Some? ==> v.value.Null? || (v.value.Obj? && Fits(cur, v.value))
    ensures Layer(cur, v).Some? ==> Layer(cur, v).value.Obj?
    ensures Under(Layer(cur, v), k) == Layer(Under(cur, k), Below(v, k))
  {
    if v.Some? && v.value.Obj? {
      OverlayAt(if cur.Some? then cur.value.fields else map[], v.value.fields, k);
    }
    hide Overlay, Fits;
  }

  /** One key below an object, where the last layer gives an object. */
  lemma LayersBelow(d: Json, r: Option<Json>, p: Option<Json>, k: string)
    requires d.Obj? && Clean(d) && FitLayers(d, r, p) && k in d.fields
    requires var last := if p.Some? then p else r; last.Some? && last.value.Obj?
    ensures var pk := if p.Some? then At(p.value.fields, k) else None;
      var out := Layer(Layer(Some(d), r), p);
      && FitLayers(d.fields[k], Below(r, k), pk) && Clean(d.fields[k])
      && (out.Some? ==> out.value.Obj?)
      && Under(out, k) == Layer(Layer(Some(d.fields[k]), Below(r, k)), pk)
  {
    CleanBelow(d, k);
    hide Fits, Overlay, Clean, OverlayRaises, Merged;
    var mid := Layer(Some(d), r);
    if p.Some? {
      FitsBelow(Some(d), p.value, k);
      FitsBelow(mid, p.value, k);
    }
    if r.Some? && r.value.Obj? {
      FitsBelow(Some(d), r.value, k);
    }
    NoLeafBetween(d, r, p);
    UnderLayer(Some(d), r, k);
    UnderLayer(mid, p, k);
    FitsNull(Some(d.fields[k]));
  }

  /** An object is not given over a leaf, so the layer under one is an object, nothing, or a null. */
  lemma NoLeafBetween(d: Json, r: Option<Json>, p: Option<Json>)
    requires d.Obj? && FitLayers(d, r, p)
    requires var last := if p.Some? then p else r; last.Some? && last.value.Obj?
    ensures r.Some? ==> r.value.Null? || r.value.Obj?
  {
  }

  lemma FitsNull(def: Option<Json>)
    ensures Fits(def, Null)
  {
  }

  lemma CleanBelow(d: Json, k: string)
    requires d.Obj? && Clean(d) && k in d.fields
    ensures Clean(d.fields[k])
  {
  }

  lemma FitsBelow(def: Option<Json>, v: Json, k: string)
    requires v.Obj? && Fits(def, v)
    ensures def.Some? ==> def.value.Obj?
    ensures def.Some? && k in v.fields ==> Fits(At(def.value.fields, k), v.fields[k])
    ensures k in v.fields ==> Fits(None, v.fields[k])
  {
  }

  lemma {:induction false} SurvivesIff(d: Json, r: Option<Json>, p: Option<Json>)
    requires Clean(d) && FitLayers(d, r, p)
    ensures var out := Layer(Layer(Some(d), r), p);
      Survives(d, r, p) <==> out.Some? && Covers(out.value, d)
    decreases d
  {
    var out := Layer(Layer(Some(d), r), p);
    var last := if p.Some? then p else r;
    if last.None? {
      CoversReflexive(d);
    } else if last.value.Obj? && d.Obj? {
      forall k | k in d.fields
        ensures Survives(d.fields[k], Below(r, k), if p.Some? then At(p.value.fields, k) else None) <==>
          (out.Some? && k in out.value.fields && Covers(out.value.fields[k], d.fields[k]))
      {
        LayersBelow(d, r, p, k);
        SurvivesIff(d.fields[k], Below(r, k), if p.Some? then At(p.value.fields, k) else None);
      }
      var k :| k in d.fields;
      LayersBelow(d, r, p, k);
    }
  }

  lemma {:induction false} NoAliasReflexive(d: Json)
    ensures NoAlias(Some(d), d)
    decreases d
  {
    if d.Obj? {
      forall k | k in d.fields ensures NoAlias(At(d.fields, k), d.fields[k]) {
        NoAliasReflexive(d.fields[k]);
      }
    }
  }

  lemma {:induction false} PlainIff(d: Json, r: Option<Json>, p: Option<Json>)
    requires Clean(d) && FitLayers(d, r, p) && Survives(d, r, p)
    ensures var out := Layer(Layer(Some(d), r), p);
      out.Some? && (Plain(d, r, p) <==> NoAlias(Some(d), out.value))
    decreases d
  {
    SurvivesIff(d, r, p);
    var out := Layer(Layer(Some(d), r), p);
    var last := if p.Some? then p else r;
    if last.None? {
      NoAliasReflexive(d);
    } else if last.value.Obj? && d.Obj? {
      forall k | k in d.fields
        ensures k in out.value.fields
        ensures Plain(d.fields[k], Below(r, k), if p.Some? then At(p.value.fields, k) else None) <==>
          NoAlias(Some(d.fields[k]), out.value.fields[k])
      {
        LayersBelow(d, r, p, k);
        PlainIff(d.fields[k], Below(r, k), if p.Some? then At(p.value.fields, k) else None);
      }
      var k :| k in d.fields;
      LayersBelow(d, r, p, k);
    }
  }

  predicate AllSurvive(defaults: Dict, root: Dict, patch: Dict) {
    forall k :: k in defaults ==> Survives(defaults[k], At(root, k), At(patch, k))
  }

  predicate AllPlain(defaults: Dict, root: Dict, patch: Dict) {
    forall k :: k in defaults ==> Plain(defaults[k], At(root, k), At(patch, k))
  }

  lemma KeyOfTwoLayers(defaults: Dict, root: Dict, patch: Dict, k: string)
    requires CleanDict(defaults) && FitsDict(defaults, root) && FitsDict(defaults, patch)
    requires FitsDict(Overlay(defaults, root), patch) && k in defaults
    ensures Clean(defaults[k]) && FitLayers(defaults[k], At(root, k), At(patch, k))
    ensures At(Overlay(Overlay(defaults, root), patch), k) == Layer(Layer(Some(defaults[k]), At(root, k)), At(patch, k))
  {
    OverlayAt(defaults, root, k);
    OverlayAt(Overlay(defaults, root), patch, k);
  }

  lemma KeySurvivesIff(defaults: Dict, root: Dict, patch: Dict, k: string)
    requires CleanDict(defaults) && FitsDict(defaults, root) && FitsDict(defaults, patch)
    requires FitsDict(Overlay(defaults, root), patch) && k in defaults
    ensures var out := Overlay(Overlay(defaults, root), patch);
      && (Survives(defaults[k], At(root, k), At(patch, k)) <==> k in out && Covers(out[k], defaults[k]))
      && (Survives(defaults[k], At(root, k), At(patch, k)) ==>
            (Plain(defaults[k], At(root, k), At(patch, k)) <==> NoAlias(At(defaults, k), out[k])))
  {
    KeyOfTwoLayers(defaults, root, patch, k);
    hide Overlay, Fits, Clean, Plain, NoAlias, Layer, FitLayers, Survives, Covers;
    SurvivesIff(defaults[k], At(root, k), At(patch, k));
    if Survives(defaults[k], At(root, k), At(patch, k)) {
      PlainIff(defaults[k], At(root, k), At(patch, k));
    }
  }

  lemma TwoLayersIff(defaults: Dict, root: Dict, patch: Dict)
    requires CleanDict(defaults) && FitsDict(defaults, root) && FitsDict(defaults, patch)
    requires FitsDict(Overlay(defaults, root), patch)
    ensures var out := Overlay(Overlay(defaults, root), patch);
      && (Covers(Obj(out), Obj(defaults)) <==> AllSurvive(defaults, root, patch))
      && (AllSurvive(defaults, root, patch) ==> (NoAliasDict(defaults, out) <==> AllPlain(defaults, root, patch)))
  {
    hide Overlay, Survives, Plain, CleanDict, FitsDict;
    forall k | k in defaults
      ensures var out := Overlay(Overlay(defaults, root), patch);
        && (Survives(defaults[k], At(root, k), At(patch, k)) <==> k in out && Covers(out[k], defaults[k]))
        && (Survives(defaults[k], At(root, k), At(patch, k)) ==>
              (Plain(defaults[k], At(root, k), At(patch, k)) <==> NoAlias(At(defaults, k), out[k])))
    {
      KeySurvivesIff(defaults, root, patch, k);
    }
  }

  /** A root file that can be read; one that is missing, empty or not JSON holds nothing. */
  predicate ReadableRoot(root: File) {
    !root.Undecodable? && (root.Data? ==> root.json.Obj?)
  }

  function Held(root: File): Dict
    requires ReadableRoot(root)
  {
    if root.Data? then root.json.fields else map[]
  }

  lemma ReadWithRootFile(directory: seq<File>, root: File)
    requires ReadAll(map[], directory).Some? && ReadableRoot(root)
    requires !OverlayRaises(ReadAll(map[], directory).value, Held(root))
    ensures ReadAll(map[], directory + [root]) == Some(Overlay(ReadAll(map[], directory).value, Held(root)))
  {
    ReadAllAppend(map[], directory, [root]);
    assert [root][1..] == [];
    OverlayNothing(ReadAll(map[], directory).value);
  }

  /**
    When `update` tells the truth, in terms of the files and the new data, nulls
    and all: the next `get` gives the values that were returned exactly if no
    null deletes a default; and the very same data exactly if, besides, no leaf
    given over a default is merely equal to it.
   */
  lemma UpdateTruthIff(directory: seq<File>, root: File, patch: Dict)
    requires ReadAll(map[], directory).Some? && ReadableRoot(root)
    requires var defaults := ReadAll(map[], directory).value;
      && FitsDict(defaults, Held(root)) && FitsDict(defaults, patch) && FitsDict(Overlay(defaults, Held(root)), patch)
    ensures var defaults := ReadAll(map[], directory).value;
      var returned := Updated(true, directory, root, patch);
      && returned.Some?
      && var next := ReadAll(map[], directory + [Data(Obj(Stored(true, directory, returned.value)))]);
         && next.Some?
         && (SameValues(returned.value, next.value) <==> AllSurvive(defaults, Held(root), patch))
         && (next == returned <==> AllSurvive(defaults, Held(root), patch) && AllPlain(defaults, Held(root), patch))
  {
    var defaults, held := ReadAll(map[], directory).value, Held(root);
    var before := Overlay(defaults, held);
    ReadAllClean(map[], directory);
    FitsDictNeverRaises(defaults, held);
    ReadWithRootFile(directory, root);
    FitsDictNeverRaises(before, patch);
    FitsReflexive(Obj(defaults));
    FitsOverlay(defaults, defaults, held);
    FitsOverlay(defaults, before, patch);
    FitsDictNeverRaises(defaults, Overlay(before, patch));
    TwoLayersIff(defaults, held, patch);
    UpdateTruth(directory, root, patch);
  }

  lemma {:induction false} NoNullsSurvive(d: Json, r: Option<Json>, p: Option<Json>)
    requires (r.Some? ==> NoNulls(r.value)) && (p.Some? ==> NoNulls(p.value))
    ensures Survives(d, r, p)
    decreases d
  {
    var last := if p.Some? then p else r;
    if last.Some? && last.value.Obj? && d.Obj? {
      forall k | k in d.fields
        ensures Survives(d.fields[k], Below(r, k), if p.Some? then At(p.value.fields, k) else None)
      {
        NoNullsSurvive(d.fields[k], Below(r, k), if p.Some? then At(p.value.fields, k) else None);
      }
    }
  }

  /** In particular when neither the root file nor the new data holds a null, and shapes agree. */
  lemma UpdateWithoutNulls(directory: seq<File>, root: Dict, patch: Dict)
    requires ReadAll(map[], directory).Some?
    requires var defaults := ReadAll(map[], directory).value;
      && NoNullsDict(root) && NoNullsDict(patch) && FitsDict(defaults, root)
      && FitsDict(defaults, patch) && FitsDict(Overlay(defaults, root), patch)
    ensures var defaults := ReadAll(map[], directory).value;
      var returned := Updated(true, directory, Data(Obj(root)), patch);
      && returned.Some?
      && var next := ReadAll(map[], directory + [Data(Obj(Stored(true, directory, returned.value)))]);
         && next.Some? && SameValues(returned.value, next.value)
         && (next == returned <==> AllPlain(defaults, root, patch))
  {
    var defaults := ReadAll(map[], directory).value;
    forall k | k in defaults ensures Survives(defaults[k], At(root, k), At(patch, k)) {
      NoNullsSurvive(defaults[k], At(root, k), At(patch, k));
    }
    UpdateTruthIff(directory, Data(Obj(root)), patch);
  }

  /** Without a `.d` directory there is nothing to strip, and what is returned is what is read back. */
  lemma UpdateWithoutDirectory(directory: seq<File>, root: File, patch: Dict)
    requires Updated(false, directory, root, patch).Some?
    ensures var returned := Updated(false, directory, root, patch);
      ReadAll(map[], [Data(Obj(Stored(false, directory, returned.value)))]) == returned
  {
    var returned := Updated(false, directory, root, patch).value;
    assert [] + [root] == [root];
    ReadAllClean(map[], [root]);
    OverlayClean(ReadAll(map[], [root]).value, patch);
    FitsDictNeverRaises(map[], returned);
    CoveringOverlay(map[], returned);
    assert [Data(Obj(returned))][1..] == [];
  }

  /** With a null it need not: deleting a default is reported, but does not last. */
  lemma DeletedDefaultComesBack()
    ensures var directory, patch := [Data(Obj(map["a" := Int(1)]))], map["a" := Null];
      && Updated(true, directory, Absent, patch) == Some(map[])
      && ReadAll(map[], directory + [Data(Obj(Stored(true, directory, map[])))]) == Some(map["a" := Int(1)])
  {
    var one: Dict := map["a" := Int(1)];
    var directory := [Data(Obj(one))];
    SameDict(Overlay(map[], one), one);
    assert directory[1..] == [];
    assert ReadAll(map[], directory) == Some(one);
    ReadAllAppend(map[], directory, [Absent]);
    assert [Absent][1..] == [];
    assert Overlay(one, map["a" := Null]) == map[];
    assert Strip(map[], one) == map[];
    OverlayNothing(one);
    ReadWithRoot(directory, map[]);
  }

  // ---------------------------------------------------------------------
  // Layers
  // ---------------------------------------------------------------------

  /** The leaf at a path of keys. */
  function Lookup(d: Dict, path: seq<string>): Option<Json>
    decreases |path|
  {
    if path == [] || path[0] !in d then None
    else
      var v := d[path[0]];
      if |path| == 1 then (if v.Obj? then None else Some(v))
      else if v.Obj? then Lookup(v.fields, path[1..])
      else None
  }

  /** Objects meet objects only. */
  predicate SameShape(x: Json, y: Json) {
    x.Obj? == y.Obj? &&
    (x.Obj? ==> forall k :: k in x.fields && k in y.fields ==> SameShape(x.fields[k], y.fields[k]))
  }

  lemma {:induction false} SameShapeFits(t: Dict, n: Dict)
    requires SameShape(Obj(t), Obj(n))
    ensures FitsDict(t, n)
    decreases Obj(n)
  {
    forall k | k in n ensures Fits(At(t, k), n[k]) {
      if k in t && n[k].Obj? {
        SameShapeFits(t[k].fields, n[k].fields);
      }
    }
  }

  /** A merge gives each leaf path the patch's value if it has one, and the target's otherwise. */
  lemma {:induction false} OverlayLookup(target: Dict, patch: Dict, path: seq<string>)
    requires SameShape(Obj(target), Obj(patch)) && CleanDict(patch)
    ensures Lookup(Overlay(target, patch), path) ==
      if Lookup(patch, path).Some? then Lookup(patch, path) else Lookup(target, path)
    decreases |path|
  {
    if path != [] {
      var k := path[0];
      OverlayAt(target, patch, k);
      if k in patch && patch[k].Obj? && |path| > 1 {
        assert Clean(patch[k]);
        var cur: Dict := if k in target then target[k].fields else map[];
        OverlayLookup(cur, patch[k].fields, path[1..]);
      }
    }
  }

  lemma {:induction false} OverlaySameShape(x: Dict, target: Dict, patch: Dict)
    requires SameShape(Obj(target), Obj(patch)) && SameShape(Obj(x), Obj(target)) && SameShape(Obj(x), Obj(patch))
    ensures SameShape(Obj(x), Obj(Overlay(target, patch)))
    decreases Obj(x)
  {
    var o := Overlay(target, patch);
    forall k | k in x && k in o ensures SameShape(x[k], o[k]) {
      OverlayAt(target, patch, k);
      if k in patch && patch[k].Obj? {
        var cur: Dict := if k in target then target[k].fields else map[];
        OverlaySameShape(x[k].fields, cur, patch[k].fields);
      }
    }
  }

  /** The value of a path in the first of the sections that defines it. */
  function FirstDefining(sections: seq<Dict>, path: seq<string>): Option<Json> {
    if sections == [] then None
    else if Lookup(sections[0], path).Some? then Lookup(sections[0], path)
    else FirstDefining(sections[1..], path)
  }

  function Read(sections: seq<Dict>): (r: seq<Option<Dict>>)
    ensures |r| == |sections|
  {
    seq(|sections|, i requires 0 <= i < |sections| => Some(sections[i]))
  }

  /**
    Layered lookup: when the shapes of clean sections agree, reading the layers
    succeeds, the result is clean, and each leaf path has the value of the first
    directory whose own section defines it.
   */
  lemma {:induction false} LayeredLookup(sections: seq<Dict>)
    requires forall i :: 0 <= i < |sections| ==> CleanDict(sections[i])
    requires forall i, j :: 0 <= i < |sections| && 0 <= j < |sections| ==> SameShape(Obj(sections[i]), Obj(sections[j]))
    ensures Layered(Read(sections)).Some?
    ensures CleanDict(Layered(Read(sections)).value)
    ensures forall path :: Lookup(Layered(Read(sections)).value, path) == FirstDefining(sections, path)
    ensures forall x :: (forall i :: 0 <= i < |sections| ==> SameShape(Obj(x), Obj(sections[i]))) ==>
      SameShape(Obj(x), Obj(Layered(Read(sections)).value))
    decreases |sections|
  {
    if sections != [] {
      var rest := sections[1..];
      assert Read(sections)[1..] == Read(rest);
      LayeredLookup(rest);
      LayerOnTop(Layered(Read(rest)).value, sections);
    }
  }

  lemma LayerOnTop(under: Dict, sections: seq<Dict>)
    requires sections != [] && CleanDict(under) && CleanDict(sections[0])
    requires forall i :: 0 <= i < |sections| ==> SameShape(Obj(sections[0]), Obj(sections[i]))
    requires forall x :: (forall i :: 0 <= i < |sections| - 1 ==> SameShape(Obj(x), Obj(sections[1..][i]))) ==>
        SameShape(Obj(x), Obj(under))
    requires forall path :: Lookup(under, path) == FirstDefining(sections[1..], path)
    ensures !OverlayRaises(under, sections[0]) && CleanDict(Overlay(under, sections[0]))
    ensures forall path :: Lookup(Overlay(under, sections[0]), path) == FirstDefining(sections, path)
    ensures forall x :: (forall i :: 0 <= i < |sections| ==> SameShape(Obj(x), Obj(sections[i]))) ==>
      SameShape(Obj(x), Obj(Overlay(under, sections[0])))
  {
    var top := sections[0];
    assert SameShape(Obj(top), Obj(under));
    SameShapeSymmetric(Obj(top), Obj(under));
    SameShapeFits(under, top);
    FitsDictNeverRaises(under, top);
    OverlayClean(under, top);
    forall path ensures Lookup(Overlay(under, top), path) == FirstDefining(sections, path) {
      OverlayLookup(under, top, path);
    }
    forall x | forall i :: 0 <= i < |sections| ==> SameShape(Obj(x), Obj(sections[i]))
      ensures SameShape(Obj(x), Obj(Overlay(under, top)))
    {
      OverlaySameShape(x, under, top);
    }
  }

  lemma SameShapeSymmetric(x: Json, y: Json)
    requires SameShape(x, y)
    ensures SameShape(y, x)
  {
    if x.Obj? {
      forall k | k in x.fields && k in y.fields ensures SameShape(y.fields[k], x.fields[k]) {
        SameShapeSymmetric(x.fields[k], y.fields[k]);
      }
    }
  }

  /** No file of any directory makes reading raise, and the shapes of what is read agree. */
  ghost predicate Readable(managers: seq<SectionManager>)
    reads managers
  {
    && (forall i :: 0 <= i < |managers| ==> ReadAll(map[], managers[i].Paths(true)).Some?)
    && forall i, j :: 0 <= i < |managers| && 0 <= j < |managers| ==>
         SameShape(Obj(ReadAll(map[], managers[i].Paths(true)).value),
           Obj(ReadAll(map[], managers[j].Paths(true)).value))
  }

  /** The merged config of each directory. */
  ghost function Configs(managers: seq<SectionManager>): (r: seq<Dict>)
    requires forall i :: 0 <= i < |managers| ==> ReadAll(map[], managers[i].Paths(true)).Some?
    reads managers
    ensures |r| == |managers|
    ensures forall i :: 0 <= i < |managers| ==> r[i] == ReadAll(map[], managers[i].Paths(true)).value
  {
    if managers == [] then [] else [ReadAll(map[], managers[0].Paths(true)).value] + Configs(managers[1..])
  }

  /**
    What `ConfigManager.get` gives, in terms of the files of its directories:
    whatever they hold, the result is clean, and each leaf path has the value of
    the first directory whose own merged config defines it.
   */
  lemma GetLayeredLookup(managers: seq<SectionManager>)
    requires Readable(managers)
    ensures var config := Layered(Sections(managers));
      && config.Some? && CleanDict(config.value)
      && forall path :: Lookup(config.value, path) == FirstDefining(Configs(managers), path)
  {
    var configs := Configs(managers);
    forall i | 0 <= i < |managers| ensures CleanDict(configs[i]) {
      ReadAllClean(map[], managers[i].Paths(true));
    }
    assert Read(configs) == Sections(managers);
    LayeredLookup(configs);
  }
}
