/**
  Requests that overlap.  A POST suspends while a kernel is started for it; until
  it resumes, other requests may do anything, and then it adds its row without
  looking the path up again.  Exactly when this gives two sessions one path is
  stated for single acts, for logs, and for interleavings of POSTs.
 */
module SessionOverlaps {
  import opened Common
  import opened Sessions
  import opened SessionHandlers

  // ---------------------------------------------------------------------
  // Acts and logs
  // ---------------------------------------------------------------------

  ghost predicate PathTaken(rows: seq<Row>, path: string) {
    exists r :: r in rows && r.path == path
  }

  /** The act does not bring a path into the table that another session has. */
  ghost predicate KeepsPaths(rows: seq<Row>, act: Act) {
    match act
    case Insert(row) => !PathTaken(rows, row.path)
    case Change(id, c) =>
      c.path.Some? && HasId(rows, id) ==> forall r :: r in rows && r.id != id ==> r.path != c.path.value
    case _ => true
  }

  lemma InsertKeepsPathsIff(rows: seq<Row>, row: Row)
    requires UniquePaths(rows)
    ensures UniquePaths(rows + [row]) <==> !PathTaken(rows, row.path)
  {
    var after := rows + [row];
    if r :| r in rows && r.path == row.path {
      var i :| 0 <= i < |rows| && rows[i] == r;
      assert after[i].path == after[|rows|].path;
    } else {
      assert forall i :: 0 <= i < |rows| ==> rows[i] in rows;
    }
  }

  lemma ChangeKeepsPathsIff(rows: seq<Row>, id: SessionId, c: Changes)
    requires UniquePaths(rows) && UniqueIds(rows)
    ensures UniquePaths(UpdateId(rows, id, c)) <==> KeepsPaths(rows, Change(id, c))
  {
    var after := UpdateId(rows, id, c);
    if c.path.Some? && HasId(rows, id) {
      RenamingKeepsPathsIff(rows, id, c);
    } else {
      assert forall i :: 0 <= i < |rows| ==> rows[i] in rows && after[i].path == rows[i].path;
    }
  }

  /** One act keeps paths unique exactly if it brings in no path that is taken. */
  lemma ActKeepsPathsIff(t: Table, act: Act)
    requires UniquePaths(t.rows) && UniqueIds(t.rows)
    ensures UniquePaths(Apply(t, act).rows) <==> KeepsPaths(t.rows, act)
  {
    match act
    case Insert(row) => InsertKeepsPathsIff(t.rows, row);
    case LookUp(row) => DeleteIdMembers(t.rows, row.id);
    case Remove(id) => DeleteIdMembers(t.rows, id);
    case Change(id, c) => ChangeKeepsPathsIff(t.rows, id, c);
    case _ =>
  }

  lemma ActAt(log: seq<Act>, n: nat)
    requires FreshIds(log) && n < |log| && UniquePaths(Exec(log[..n]).rows)
    ensures UniquePaths(Exec(log[..n + 1]).rows) <==> KeepsPaths(Exec(log[..n]).rows, log[n])
  {
    assert log[..n + 1][..n] == log[..n] && log[..n + 1][n] == log[n];
    LogsKeepUniqueIds(log[..n]);
    ActKeepsPathsIff(Exec(log[..n]), log[n]);
  }

  lemma {:induction false} NothingTakenSoFar(log: seq<Act>, n: nat)
    requires FreshIds(log) && n <= |log|
    requires forall i :: 0 <= i < n ==> KeepsPaths(Exec(log[..i]).rows, log[i])
    ensures UniquePaths(Exec(log[..n]).rows)
  {
    if n > 0 {
      NothingTakenSoFar(log, n - 1);
      ActAt(log, n - 1);
    }
  }

  /**
    Over every log, whatever requests overlap in it: no two sessions ever have
    the same path exactly if no insert and no change of a path met a taken one.
   */
  lemma LogKeepsPathsIff(log: seq<Act>)
    requires FreshIds(log)
    ensures (forall n :: 0 <= n <= |log| ==> UniquePaths(Exec(log[..n]).rows)) <==>
      (forall n :: 0 <= n < |log| ==> KeepsPaths(Exec(log[..n]).rows, log[n]))
  {
    hide *;
    if forall n :: 0 <= n < |log| ==> KeepsPaths(Exec(log[..n]).rows, log[n]) {
      forall n | 0 <= n <= |log| ensures UniquePaths(Exec(log[..n]).rows) {
        NothingTakenSoFar(log, n);
      }
    }
    if forall n :: 0 <= n <= |log| ==> UniquePaths(Exec(log[..n]).rows) {
      forall n | 0 <= n < |log| ensures KeepsPaths(Exec(log[..n]).rows, log[n]) {
        ActAt(log, n);
        assert UniquePaths(Exec(log[..n + 1]).rows);
      }
    }
  }

  // ---------------------------------------------------------------------
  // Interleavings of POSTs
  // ---------------------------------------------------------------------

  /** POSTs under way, and how far each has come. */
  datatype World = World(table: Table, asks: seq<Ask>, phases: seq<Phase>)

  datatype Move =
    | Look(i: nat)
    | Spawn(i: nat, kernel: KernelId)         // the kernel of a waiting POST has started
    | Fail(i: nat, error: Error)              // or has not
    | Resume(i: nat)
    | Other(act: Act)                         // an act of some other request, or kernels vanishing

  predicate Can(w: World, m: Move) {
    |w.phases| == |w.asks| &&
    match m
    case Look(i) => i < |w.asks| && w.phases[i].Fresh?
    case Spawn(i, kernel) => i < |w.asks| && w.phases[i].Starting? && kernel !in w.table.kernels
    case Fail(i, _) => i < |w.asks| && w.phases[i].Starting?
    case Resume(i) => i < |w.asks| && w.phases[i].Started?
    case Other(act) => !act.Insert?
  }

  function Do(w: World, m: Move): World
    requires Can(w, m)
  {
    match m
    case Look(i) =>
      var (t, phase) := Looked(w.table, w.asks[i]);
      w.(table := t, phases := w.phases[i := phase])
    case Spawn(i, kernel) => w.(table := Apply(w.table, Start(kernel)), phases := w.phases[i := Started(kernel)])
    case Fail(i, error) => w.(phases := w.phases[i := Done(Err(error))])
    case Resume(i) =>
      var (t, phase) := Resumed(w.table, w.asks[i], w.phases[i].kernel);
      w.(table := t, phases := w.phases[i := phase])
    case Other(act) => w.(table := Apply(w.table, act))
  }

  /** Ids are fresh: no two POSTs share one, and none is in the table before its POST is done. */
  ghost predicate Sound(w: World) {
    && |w.phases| == |w.asks| && UniqueIds(w.table.rows)
    && (forall i, j :: 0 <= i < j < |w.asks| ==> w.asks[i].id != w.asks[j].id)
    && (forall i :: 0 <= i < |w.asks| && !w.phases[i].Done? ==> !HasId(w.table.rows, w.asks[i].id))
  }

  ghost predicate IsCourse(ws: seq<World>, ms: seq<Move>) {
    && |ws| == |ms| + 1 && Sound(ws[0])
    && forall i :: 0 <= i < |ms| ==> Can(ws[i], ms[i]) && ws[i + 1] == Do(ws[i], ms[i])
  }

  /** The ids of the rows are those of before, except that a finished POST may have added its own. */
  lemma LookedIds(t: Table, a: Ask)
    requires UniqueIds(t.rows) && !HasId(t.rows, a.id)
    ensures UniqueIds(Looked(t, a).0.rows)
    ensures forall id :: HasId(Looked(t, a).0.rows, id) ==> HasId(t.rows, id) || (id == a.id && Looked(t, a).1.Done?)
  {
    var first := FirstWithPath(t.rows, a.path);
    if first.Some? {
      DeleteIdMembers(t.rows, first.value.id);
    }
    var left := PathLookup(t.rows, t.kernels, a.path).0;
    assert forall r :: r in left ==> r in t.rows;
    assert forall i :: 0 <= i < |left| ==> left[i] in left;
  }

  lemma OtherIds(t: Table, act: Act)
    requires UniqueIds(t.rows) && !act.Insert?
    ensures UniqueIds(Apply(t, act).rows)
    ensures forall id :: HasId(Apply(t, act).rows, id) ==> HasId(t.rows, id)
  {
    match act {
      case LookUp(row) => DeleteIdMembers(t.rows, row.id);
      case Remove(id) => DeleteIdMembers(t.rows, id);
      case _ =>
    }
    forall id | HasId(Apply(t, act).rows, id) ensures HasId(t.rows, id) {
      var r :| r in Apply(t, act).rows && r.id == id;
      ActKeepsIds(t, act, r);
    }
  }

  lemma DoKeepsSound(w: World, m: Move)
    requires Sound(w) && Can(w, m)
    ensures Sound(Do(w, m))
  {
    match m
    case Look(i) => LookedIds(w.table, w.asks[i]);
    case Resume(i) =>
      assert forall j :: 0 <= j < |w.table.rows| ==> w.table.rows[j] in w.table.rows;
    case Other(act) => OtherIds(w.table, act);
    case _ =>
  }

  /** The move brings a path into the table that another session has. */
  ghost predicate Clashes(w: World, m: Move)
    requires Can(w, m)
  {
    match m
    case Resume(i) => w.phases[i].kernel in w.table.kernels && PathTaken(w.table.rows, w.asks[i].path)
    case Other(act) => !KeepsPaths(w.table.rows, act)
    case _ => false
  }

  /** A POST is safe up to its await; from there on it is exactly if the path is still free when it resumes. */
  lemma MoveKeepsPathsIff(w: World, m: Move)
    requires Sound(w) && Can(w, m) && UniquePaths(w.table.rows)
    ensures UniquePaths(Do(w, m).table.rows) <==> !Clashes(w, m)
  {
    match m
    case Look(i) => LookKeepsPaths(w.table, w.asks[i]);
    case Resume(i) =>
      InsertKeepsPathsIff(w.table.rows, NewRow(w.asks[i], w.phases[i].kernel));
    case Other(act) => ActKeepsPathsIff(w.table, act);
    case _ =>
  }

  lemma LookKeepsPaths(t: Table, a: Ask)
    requires UniquePaths(t.rows) && UniqueIds(t.rows)
    ensures UniquePaths(Looked(t, a).0.rows)
    ensures Looked(t, a).1.Starting? ==> !PathTaken(Looked(t, a).0.rows, a.path)
    ensures forall path :: PathTaken(Looked(t, a).0.rows, path) ==> PathTaken(t.rows, path) || path == a.path
  {
    var first := FirstWithPath(t.rows, a.path);
    if first.Some? {
      DeleteIdMembers(t.rows, first.value.id);
    }
    var (left, found) := PathLookup(t.rows, t.kernels, a.path);
    if !found {
      NoPathLeft(t.rows, t.kernels, a.path);
      if a.kernelId.Some? {
        InsertKeepsPathsIff(left, NewRow(a, a.kernelId.value));
      }
    }
  }

  /** Over every interleaving: no two sessions ever have the same path exactly if no move clashes. */
  lemma CourseKeepsPathsIff(ws: seq<World>, ms: seq<Move>)
    requires IsCourse(ws, ms) && UniquePaths(ws[0].table.rows)
    ensures (forall n :: 0 <= n <= |ms| ==> UniquePaths(ws[n].table.rows)) <==>
      (forall n :: 0 <= n < |ms| ==> !Clashes(ws[n], ms[n]))
  {
    if forall n :: 0 <= n < |ms| ==> !Clashes(ws[n], ms[n]) {
      forall n | 0 <= n <= |ms| ensures UniquePaths(ws[n].table.rows) {
        NoClashSoFar(ws, ms, n);
      }
    }
    if forall n :: 0 <= n <= |ms| ==> UniquePaths(ws[n].table.rows) {
      forall n | 0 <= n < |ms| ensures !Clashes(ws[n], ms[n]) {
        CourseStaysSound(ws, ms, n);
        MoveKeepsPathsIff(ws[n], ms[n]);
        assert UniquePaths(ws[n + 1].table.rows);
      }
    }
  }

  lemma {:induction false} CourseStaysSound(ws: seq<World>, ms: seq<Move>, n: nat)
    requires IsCourse(ws, ms) && n <= |ms|
    ensures Sound(ws[n])
  {
    if n > 0 {
      CourseStaysSound(ws, ms, n - 1);
      DoKeepsSound(ws[n - 1], ms[n - 1]);
    }
  }

  lemma {:induction false} NoClashSoFar(ws: seq<World>, ms: seq<Move>, n: nat)
    requires IsCourse(ws, ms) && UniquePaths(ws[0].table.rows) && n <= |ms|
    requires forall i :: 0 <= i < n ==> !Clashes(ws[i], ms[i])
    ensures UniquePaths(ws[n].table.rows)
  {
    if n > 0 {
      NoClashSoFar(ws, ms, n - 1);
      CourseStaysSound(ws, ms, n - 1);
      MoveKeepsPathsIff(ws[n - 1], ms[n - 1]);
    }
  }

  // ---------------------------------------------------------------------
  // POSTs for different paths, and POSTs for one
  // ---------------------------------------------------------------------

  /** The path of every POST that waits for its kernel is still free. */
  ghost predicate Reserved(w: World) {
    && |w.phases| == |w.asks|
    && forall i :: 0 <= i < |w.asks| && (w.phases[i].Starting? || w.phases[i].Started?) ==>
         !PathTaken(w.table.rows, w.asks[i].path)
  }

  ghost predicate DifferentPaths(asks: seq<Ask>) {
    forall i, j :: 0 <= i < j < |asks| ==> asks[i].path != asks[j].path
  }

  predicate Renames(m: Move) {
    m.Other? && m.act.Change? && m.act.changes.path.Some?
  }

  lemma OtherPaths(t: Table, act: Act, path: string)
    requires !act.Insert? && !Renames(Other(act)) && PathTaken(Apply(t, act).rows, path)
    ensures PathTaken(t.rows, path)
  {
    var r :| r in Apply(t, act).rows && r.path == path;
    match act {
      case LookUp(row) => DeleteIdMembers(t.rows, row.id);
      case Remove(id) => DeleteIdMembers(t.rows, id);
      case Change(id, c) =>
        var i :| 0 <= i < |t.rows| && UpdateId(t.rows, id, c)[i] == r;
        assert t.rows[i] in t.rows && t.rows[i].path == path;
      case _ =>
    }
  }

  lemma DoKeepsReserved(w: World, m: Move)
    requires Sound(w) && Can(w, m) && UniquePaths(w.table.rows) && Reserved(w)
    requires DifferentPaths(w.asks) && !Renames(m)
    ensures Reserved(Do(w, m)) && UniquePaths(Do(w, m).table.rows)
  {
    MoveKeepsPathsIff(w, m);
    var v := Do(w, m);
    forall j | 0 <= j < |v.asks| && (v.phases[j].Starting? || v.phases[j].Started?)
      ensures !PathTaken(v.table.rows, v.asks[j].path)
    {
      match m
      case Look(i) => LookKeepsPaths(w.table, w.asks[i]);
      case Resume(i) =>
        assert j != i;
        assert forall r :: r in v.table.rows ==> r in w.table.rows || r.path == w.asks[i].path;
      case Other(act) =>
        if PathTaken(v.table.rows, v.asks[j].path) {
          OtherPaths(w.table, act, v.asks[j].path);
        }
      case _ =>
    }
  }

  /** POSTs for different paths never clash, however they overlap, if no PATCH changes a path meanwhile. */
  lemma {:induction false} DifferentPathsNeverClash(ws: seq<World>, ms: seq<Move>, n: nat)
    requires IsCourse(ws, ms) && n <= |ms| && UniquePaths(ws[0].table.rows) && Reserved(ws[0])
    requires DifferentPaths(ws[0].asks) && forall i :: 0 <= i < n ==> !Renames(ms[i])
    ensures ws[n].asks == ws[0].asks && Reserved(ws[n]) && UniquePaths(ws[n].table.rows)
  {
    if n > 0 {
      DifferentPathsNeverClash(ws, ms, n - 1);
      CourseStaysSound(ws, ms, n - 1);
      DoKeepsReserved(ws[n - 1], ms[n - 1]);
    }
  }

  /**
    Two POSTs for one path, each of which has a kernel started for it, overlap
    like this in every table where the path is free: both find it free, both
    wait, and both add a session for it.
   */
  lemma OverlappingPostsShareAPath(t: Table, a: Ask, b: Ask, k: KernelId, l: KernelId) returns (ws: seq<World>)
    requires UniqueIds(t.rows) && a.path == b.path && !PathTaken(t.rows, a.path)
    requires a.id != b.id && !HasId(t.rows, a.id) && !HasId(t.rows, b.id)
    requires a.kernelId.Some? ==> a.kernelId.value !in t.kernels
    requires b.kernelId.Some? ==> b.kernelId.value !in t.kernels
    requires k !in t.kernels && l !in t.kernels && k != l
    ensures IsCourse(ws, [Look(0), Look(1), Spawn(0, k), Spawn(1, l), Resume(0), Resume(1)])
    ensures ws[0] == World(t, [a, b], [Fresh, Fresh])
    ensures ws[6].phases == [Done(Ok(NewRow(a, k))), Done(Ok(NewRow(b, l)))]
    ensures ws[6].table.rows == t.rows + [NewRow(a, k)] + [NewRow(b, l)] && !UniquePaths(ws[6].table.rows)
  {
    assert FirstWithPath(t.rows, a.path).None?;
    assert Sound(World(t, [a, b], [Fresh, Fresh]));
    hide FirstWithPath, DeleteId, Sound, UniqueIds, HasId, PathTaken;
    var started := t.(kernels := t.kernels + {k} + {l});
    var w0 := World(t, [a, b], [Fresh, Fresh]);
    var w1 := World(t, [a, b], [Starting, Fresh]);
    var w2 := World(t, [a, b], [Starting, Starting]);
    var w3 := World(t.(kernels := t.kernels + {k}), [a, b], [Started(k), Starting]);
    var w4 := World(started, [a, b], [Started(k), Started(l)]);
    var w5 := World(started.(rows := t.rows + [NewRow(a, k)]), [a, b], [Done(Ok(NewRow(a, k))), Started(l)]);
    var w6 := World(started.(rows := t.rows + [NewRow(a, k)] + [NewRow(b, l)]), [a, b],
                    [Done(Ok(NewRow(a, k))), Done(Ok(NewRow(b, l)))]);
    ws := [w0, w1, w2, w3, w4, w5, w6];
    assert w1 == Do(w0, Look(0)) && w2 == Do(w1, Look(1));
    assert w3 == Do(w2, Spawn(0, k)) && w4 == Do(w3, Spawn(1, l));
    assert w5 == Do(w4, Resume(0)) && w6 == Do(w5, Resume(1));
    assert w6.table.rows[|t.rows|].path == w6.table.rows[|t.rows| + 1].path;
  }

  /** POSTs that have arrived and not been looked at. */
  ghost predicate Arrived(w: World) {
    Sound(w) && UniquePaths(w.table.rows) && forall i :: 0 <= i < |w.phases| ==> w.phases[i].Fresh?
  }

  /** However the POSTs overlap, with each other and with anything but a PATCH of a path, paths stay unique. */
  ghost predicate AlwaysUnique(w: World) {
    forall ws: seq<World>, ms: seq<Move> ::
      IsCourse(ws, ms) && ws[0] == w && (forall i :: 0 <= i < |ms| ==> !Renames(ms[i])) ==>
        UniquePaths(ws[|ms|].table.rows)
  }

  /** After every kernel has gone, a POST waits for a kernel, and its path is free. */
  lemma LooksAndWaits(t: Table, a: Ask)
    requires UniquePaths(t.rows) && UniqueIds(t.rows) && t.kernels == {}
    ensures Looked(t, a).1 == Starting && Looked(t, a).0.kernels == {}
    ensures UniquePaths(Looked(t, a).0.rows) && UniqueIds(Looked(t, a).0.rows)
    ensures !PathTaken(Looked(t, a).0.rows, a.path)
  {
    LookKeepsPaths(t, a);
    if FirstWithPath(t.rows, a.path).Some? {
      DeleteIdMembers(t.rows, FirstWithPath(t.rows, a.path).value.id);
    }
  }

  /** A second POST for the path then finds it free as well. */
  lemma LooksAgain(t: Table, a: Ask)
    requires !PathTaken(t.rows, a.path) && t.kernels == {}
    ensures Looked(t, a) == (t, Starting)
  {
  }

  /** The moves by which two POSTs for one path clash. */
  function ClashOf(w: World, i: nat, j: nat): seq<Move> {
    [Other(Vanish(w.table.kernels)), Look(i), Look(j), Spawn(i, "k"), Spawn(j, "l"), Resume(i), Resume(j)]
  }

  ghost predicate Goes(w: World, m: Move, v: World) {
    Can(w, m) && v == Do(w, m)
  }

  /** Two POSTs wait for kernels, and there are none yet. */
  ghost predicate BothWait(w: World, i: nat, j: nat) {
    && i < j < |w.asks| == |w.phases| && w.table.kernels == {}
    && w.phases[i].Starting? && w.phases[j].Starting?
  }

  lemma BothLook(w: World, i: nat, j: nat) returns (w1: World, w2: World, w3: World)
    requires Arrived(w) && i < j < |w.asks| && w.asks[i].path == w.asks[j].path
    ensures Goes(w, Other(Vanish(w.table.kernels)), w1) && Goes(w1, Look(i), w2) && Goes(w2, Look(j), w3)
    ensures BothWait(w3, i, j) && w3.asks == w.asks
  {
    assert w.phases[i].Fresh? && w.phases[j].Fresh?;
    hide UniquePaths, UniqueIds, PathTaken, PathLookup, Looked;
    w1 := Do(w, Other(Vanish(w.table.kernels)));
    assert w1.table == Table(w.table.rows, {});
    LooksAndWaits(w1.table, w.asks[i]);
    w2 := Do(w1, Look(i));
    LooksAgain(w2.table, w.asks[j]);
    w3 := Do(w2, Look(j));
  }

  lemma BothResume(w: World, i: nat, j: nat) returns (w1: World, w2: World, w3: World, w4: World)
    requires BothWait(w, i, j) && w.asks[i].path == w.asks[j].path
    ensures Goes(w, Spawn(i, "k"), w1) && Goes(w1, Spawn(j, "l"), w2)
    ensures Goes(w2, Resume(i), w3) && Goes(w3, Resume(j), w4)
    ensures !UniquePaths(w4.table.rows)
  {
    w1 := Do(w, Spawn(i, "k"));
    w2 := Do(w1, Spawn(j, "l"));
    w3 := Do(w2, Resume(i));
    w4 := Do(w3, Resume(j));
    assert w4.table.rows == w.table.rows + [NewRow(w.asks[i], "k")] + [NewRow(w.asks[j], "l")];
    NotUnique(w.table.rows, NewRow(w.asks[i], "k"), NewRow(w.asks[j], "l"));
  }

  lemma SamePathsCanClash(w: World, i: nat, j: nat) returns (ws: seq<World>)
    requires Arrived(w) && i < j < |w.asks| && w.asks[i].path == w.asks[j].path
    ensures IsCourse(ws, ClashOf(w, i, j)) && ws[0] == w && !UniquePaths(ws[7].table.rows)
  {
    var w1, w2, w3 := BothLook(w, i, j);
    assert Sound(w);
    hide Sound, Can, Do, BothWait, UniquePaths;
    var w4, w5, w6, w7 := BothResume(w3, i, j);
    ws := [w, w1, w2, w3, w4, w5, w6, w7];
    SevenMoves(ws, ClashOf(w, i, j));
  }

  lemma SevenMoves(ws: seq<World>, ms: seq<Move>)
    requires |ws| == 8 && |ms| == 7 && Sound(ws[0])
    requires Goes(ws[0], ms[0], ws[1]) && Goes(ws[1], ms[1], ws[2]) && Goes(ws[2], ms[2], ws[3])
    requires Goes(ws[3], ms[3], ws[4]) && Goes(ws[4], ms[4], ws[5]) && Goes(ws[5], ms[5], ws[6])
    requires Goes(ws[6], ms[6], ws[7])
    ensures IsCourse(ws, ms)
  {
    hide Sound, Can, Do;
    forall i | 0 <= i < |ms| ensures Goes(ws[i], ms[i], ws[i + 1]) {
    }
  }

  lemma NotUnique(rows: seq<Row>, a: Row, b: Row)
    requires a.path == b.path
    ensures !UniquePaths(rows + [a] + [b])
  {
    var all := rows + [a] + [b];
    assert all[|rows|] == a && all[|rows| + 1] == b;
  }

  /** Exactly POSTs for different paths keep paths unique in every overlap. */
  lemma AlwaysUniqueIff(w: World)
    requires Arrived(w)
    ensures AlwaysUnique(w) <==> DifferentPaths(w.asks)
  {
    if DifferentPaths(w.asks) {
      forall ws: seq<World>, ms: seq<Move>
        | IsCourse(ws, ms) && ws[0] == w && (forall i :: 0 <= i < |ms| ==> !Renames(ms[i]))
        ensures UniquePaths(ws[|ms|].table.rows)
      {
        DifferentPathsNeverClash(ws, ms, |ms|);
      }
    } else {
      var i, j :| 0 <= i < j < |w.asks| && w.asks[i].path == w.asks[j].path;
      var ws := SamePathsCanClash(w, i, j);
      assert IsCourse(ws, ClashOf(w, i, j));
    }
  }

  // ---------------------------------------------------------------------
  // Why sessions disappear, over runs of requests
  // ---------------------------------------------------------------------

  /** The sessions that a request may delete by `delete_session`. */
  function Deleted(q: Request): set<SessionId> {
    if q.Deleting? then {q.id} else {}
  }

  /** The log after each request of a run. */
  ghost predicate IsLogged(logs: seq<seq<Act>>, qs: seq<Request>) {
    && |logs| == |qs| + 1
    && forall i :: 0 <= i < |qs| ==> Grows(logs[i], logs[i + 1], Deleted(qs[i]))
  }

  ghost predicate AnyDeletes(qs: seq<Request>, id: SessionId) {
    exists i :: 0 <= i < |qs| && qs[i] == Deleting(id)
  }

  /**
    Over every run of requests: a session that was there before and is not there
    after was named by a DELETE, or its kernel was gone when its row was looked up.
   */
  lemma WhyRequestsRemove(logs: seq<seq<Act>>, qs: seq<Request>, id: SessionId)
    requires IsLogged(logs, qs) && Genuine(logs[|qs|])
    requires HasId(Exec(logs[0]).rows, id) && !HasId(Exec(logs[|qs|]).rows, id)
    ensures AnyDeletes(qs, id) || exists n :: |logs[0]| <= n < |logs[|qs|]| && FoundDead(logs[|qs|], n, id)
  {
    RunGrows(logs, qs, |qs|);
    var all := set q | q in qs && q.Deleting? :: q.id;
    WhyAStretchRemoves(logs[0], logs[|qs|], all, id);
    if id in all {
      var q :| q in qs && q.Deleting? && q.id == id;
      var i :| 0 <= i < |qs| && qs[i] == q;
      assert qs[i] == Deleting(id);
    }
  }

  lemma {:induction false} RunGrows(logs: seq<seq<Act>>, qs: seq<Request>, n: nat)
    requires IsLogged(logs, qs) && n <= |qs|
    ensures Grows(logs[0], logs[n], set q | q in qs && q.Deleting? :: q.id)
  {
    if n > 0 {
      RunGrows(logs, qs, n - 1);
      assert qs[n - 1] in qs;
    }
  }
}
