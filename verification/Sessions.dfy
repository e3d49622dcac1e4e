/**
  The session table, cleaned lazily while kernels vanish, and the requests that
  work on it.

  Every change to the table or to the set of running kernels is one of a few
  atomic acts; the manager records them in a log, so that statements about all
  logs cover overlapping requests as well.
 */
module Sessions {
  import opened Common

  type SessionId = string

  datatype Row = Row(id: SessionId, path: string, name: Option<string>, kind: string, kernel: KernelId)

  datatype Table = Table(rows: seq<Row>, kernels: set<KernelId>)

  /** New values for some columns of a row. */
  datatype Changes = Changes(path: Option<string>, name: Option<string>, kind: Option<string>, kernel: Option<KernelId>)

  const NO_CHANGES := Changes(None, None, None, None)

  datatype Act =
    | Insert(row: Row)
    | LookUp(row: Row)                        // turning a row into a model
    | Remove(id: SessionId)
    | Change(id: SessionId, changes: Changes)
    | Vanish(gone: set<KernelId>)
    | Start(kernel: KernelId)

  /** `DELETE FROM session WHERE session_id=id` */
  function DeleteId(rows: seq<Row>, id: SessionId): seq<Row> {
    if rows == [] then []
    else DeleteId(rows[..|rows| - 1], id) + (if rows[|rows| - 1].id == id then [] else [rows[|rows| - 1]])
  }

  function Updated(row: Row, c: Changes): Row {
    row.(path := if c.path.Some? then c.path.value else row.path,
         name := if c.name.Some? then c.name else row.name,
         kind := if c.kind.Some? then c.kind.value else row.kind,
         kernel := if c.kernel.Some? then c.kernel.value else row.kernel)
  }

  /** `UPDATE session SET ... WHERE session_id=id` */
  function UpdateId(rows: seq<Row>, id: SessionId, c: Changes): (r: seq<Row>)
    ensures |r| == |rows|
  {
    seq(|rows|, i requires 0 <= i < |rows| => if rows[i].id == id then Updated(rows[i], c) else rows[i])
  }

  function Apply(t: Table, act: Act): Table {
    match act
    case Insert(row) => t.(rows := t.rows + [row])
    case LookUp(row) => if row.kernel in t.kernels then t else t.(rows := DeleteId(t.rows, row.id))
    case Remove(id) => t.(rows := DeleteId(t.rows, id))
    case Change(id, c) => t.(rows := UpdateId(t.rows, id, c))
    case Vanish(gone) => t.(kernels := t.kernels - gone)
    case Start(k) => t.(kernels := t.kernels + {k})
  }

  function Exec(log: seq<Act>): Table {
    if log == [] then Table([], {}) else Apply(Exec(log[..|log| - 1]), log[|log| - 1])
  }

  /** Session ids are uuids: no two inserted rows share one. */
  ghost predicate FreshIds(log: seq<Act>) {
    forall i, j :: 0 <= i < j < |log| && log[i].Insert? && log[j].Insert? ==> log[i].row.id != log[j].row.id
  }

  /** Only rows that are in the table are turned into models. */
  ghost predicate Genuine(log: seq<Act>) {
    forall n :: 0 <= n < |log| && log[n].LookUp? ==> log[n].row in Exec(log[..n]).rows
  }

  ghost predicate Unused(log: seq<Act>, id: SessionId) {
    forall i :: 0 <= i < |log| && log[i].Insert? ==> log[i].row.id != id
  }

  /** Acts were added to a log; of all sessions, `delete_session` was carried out on those in `ids` at most. */
  ghost predicate Grows(before: seq<Act>, after: seq<Act>, ids: set<SessionId>) {
    before <= after && forall i :: |before| <= i < |after| && after[i].Remove? ==> after[i].id in ids
  }

  predicate UniqueIds(rows: seq<Row>) {
    forall i, j :: 0 <= i < j < |rows| ==> rows[i].id != rows[j].id
  }

  predicate UniquePaths(rows: seq<Row>) {
    forall i, j :: 0 <= i < j < |rows| ==> rows[i].path != rows[j].path
  }

  /** The rows whose kernels are running, in table order. */
  function Live(rows: seq<Row>, kernels: set<KernelId>): seq<Row> {
    if rows == [] then []
    else Live(rows[..|rows| - 1], kernels) + (if rows[|rows| - 1].kernel in kernels then [rows[|rows| - 1]] else [])
  }

  function FirstWithPath(rows: seq<Row>, path: string): (r: Option<Row>)
    ensures r.Some? ==> r.value in rows && r.value.path == path
    ensures r.None? ==> forall x :: x in rows ==> x.path != path
  {
    if rows == [] then None else if rows[0].path == path then Some(rows[0]) else FirstWithPath(rows[1..], path)
  }

  function FirstWithId(rows: seq<Row>, id: SessionId): (r: Option<Row>)
    ensures r.Some? ==> r.value in rows && r.value.id == id
    ensures r.None? ==> forall x :: x in rows ==> x.id != id
  {
    if rows == [] then None else if rows[0].id == id then Some(rows[0]) else FirstWithId(rows[1..], id)
  }

  datatype Error = NotFound | BadRequest | ServerError | NotImplemented

  class SessionManager {
    var rows: seq<Row>
    var kernels: set<KernelId>
    ghost var log: seq<Act>

    ghost predicate Valid()
      reads this
    {
      Table(rows, kernels) == Exec(log) && FreshIds(log) && Genuine(log)
    }

    /** The table as it stands, for the specification of what follows. */
    function Now(): Table
      reads this
    {
      Table(rows, kernels)
    }

    constructor ()
      ensures Valid() && Now() == Table([], {}) && log == []
    {
      rows, kernels, log := [], {}, [];
    }

    ghost method Record(act: Act)
      requires Table(rows, kernels) == Apply(Exec(log), act) && FreshIds(log) && Genuine(log)
      requires act.LookUp? ==> act.row in Exec(log).rows
      requires act.Insert? ==> Unused(log, act.row.id)
      modifies this`log
      ensures Valid() && log == old(log) + [act]
      ensures forall id :: old(Unused(log, id)) && !act.Insert? ==> Unused(log, id)
    {
      LogMore(log, act);
      hide Exec, Apply, FreshIds, Genuine;
      log := log + [act];
    }

    /** An await: any kernels may be gone afterwards. */
    method Pause()
      requires Valid()
      modifies this`kernels, this`log
      ensures Valid() && kernels <= old(kernels) && log == old(log) + [Vanish(old(kernels) - kernels)]
      ensures forall id :: old(Unused(log, id)) ==> Unused(log, id)
    {
      var gone: set<KernelId> := *;
      kernels := kernels - gone;
      assert old(kernels) - (old(kernels) - kernels) == kernels;
      Record(Vanish(old(kernels) - kernels));
    }

    method RowToModel(row: Row) returns (alive: bool)
      requires Valid() && row in rows
      modifies this`rows, this`log
      ensures Valid() && log == old(log) + [LookUp(row)]
      ensures forall id :: old(Unused(log, id)) ==> Unused(log, id)
      ensures alive == (row.kernel in kernels)
      ensures rows == if alive then old(rows) else DeleteId(old(rows), row.id)
    {
      alive := row.kernel in kernels;
      if !alive {
        rows := DeleteId(rows, row.id);
      }
      Record(LookUp(row));
    }

    method SessionExists(path: string) returns (exists_: bool)
      requires Valid()
      modifies this`rows, this`log
      ensures Valid() && Grows(old(log), log, {})
      ensures (rows, exists_) == PathLookup(old(rows), kernels, path)
      ensures forall id :: old(Unused(log, id)) ==> Unused(log, id)
    {
      var row := FirstWithPath(rows, path);
      if row.None? {
        return false;
      }
      exists_ := RowToModel(row.value);
    }

    method GetSessionByPath(path: string) returns (r: Result<Row, Error>)
      requires Valid()
      modifies this`rows, this`log
      ensures Valid() && Grows(old(log), log, {})
      ensures rows == PathLookup(old(rows), kernels, path).0
      ensures r == if PathLookup(old(rows), kernels, path).1 then Ok(FirstWithPath(old(rows), path).value)
              else Err(NotFound)
    {
      var row := FirstWithPath(rows, path);
      if row.None? {
        return Err(NotFound);
      }
      var alive := RowToModel(row.value);
      return if alive then Ok(row.value) else Err(NotFound);
    }

    method GetSession(id: SessionId) returns (r: Result<Row, Error>)
      requires Valid()
      modifies this`rows, this`log
      ensures Valid() && Grows(old(log), log, {})
      ensures (rows, r) == IdLookup(old(rows), kernels, id)
    {
      var row := FirstWithId(rows, id);
      if row.None? {
        return Err(NotFound);
      }
      var alive := RowToModel(row.value);
      return if alive then Ok(row.value) else Err(NotFound);
    }

    method ListSessions() returns (result: seq<Row>)
      requires Valid()
      modifies this`rows, this`log
      ensures Valid() && Grows(old(log), log, {})
      ensures rows == result == Live(old(rows), kernels)
    {
      hide *;
      StartListing();
      var fetched := rows;
      result := [];
      for i := 0 to |fetched|
        invariant Valid() && Grows(old(log), log, {})
        invariant HalfListed(fetched, i, kernels, rows, result)
      {
        ListOne(fetched, i, kernels, rows, result);
        GrowsByLookUp(old(log), log, fetched[i]);
        var alive := RowToModel(fetched[i]);
        if alive {
          result := result + [fetched[i]];
        }
      }
      ListEnd(fetched, kernels, rows, result);
    }

    lemma StartListing()
      requires Valid()
      ensures UniqueIds(rows) && HalfListed(rows, 0, kernels, rows, []) && Grows(log, log, {})
    {
      LogsKeepUniqueIds(log);
      assert rows[0..] == rows && [] + rows == rows;
    }

    /** Starts a kernel with a fresh id, unless that fails; kernels may die meanwhile. */
    method StartKernel(spawn: Result<KernelId, Error>)
      requires Valid()
      modifies this`kernels, this`log
      ensures Valid() && Grows(old(log), log, {})
      ensures kernels <= old(kernels) + (if spawn.Ok? then {spawn.value} else {})
      ensures forall id :: old(Unused(log, id)) ==> Unused(log, id)
    {
      hide Exec, FreshIds, Unused;
      if spawn.Ok? {
        assert Valid();
        kernels := kernels + {spawn.value};
        Record(Start(spawn.value));
      }
      Pause();
    }

    /** Shuts a kernel down; the answer is whether there was one. */
    method ShutdownKernel(kernel: KernelId) returns (ok: bool)
      requires Valid()
      modifies this`kernels, this`log
      ensures Valid() && Grows(old(log), log, {})
      ensures ok == (kernel in old(kernels)) && kernels <= old(kernels) && kernel !in kernels
    {
      if kernel !in kernels {
        return false;
      }
      kernels := kernels - {kernel};
      Record(Vanish({kernel}));
      Pause();
      ok := true;
    }

    method CreateSession(newId: SessionId, path: string, name: Option<string>, kind: string,
                         kernelId: Option<KernelId>, spawn: Result<KernelId, Error>) returns (r: Result<Row, Error>)
      requires Valid() && Unused(log, newId)
      modifies this
      ensures Valid() && Grows(old(log), log, {})
      ensures r.Ok? ==> r.value == Row(newId, path, name, kind, r.value.kernel) && r.value.kernel in kernels
      ensures r.Ok? && kernelId.Some? && kernelId.value in old(kernels) ==> r.value.kernel == kernelId.value
      ensures r.Ok? && !(kernelId.Some? && kernelId.value in old(kernels)) ==> Ok(r.value.kernel) == spawn
      ensures rows == if r.Ok? then old(rows) + [r.value] else old(rows)
      ensures r.Err? ==> r == Err(NotFound) || spawn == Err(r.error)
      ensures kernelId.Some? && kernelId.value in old(kernels) ==> r.Ok? && kernels == old(kernels)
    {
      var kernel: KernelId;
      if kernelId.Some? && kernelId.value in kernels {
        kernel := kernelId.value;
      } else {
        StartKernel(spawn);
        if spawn.Err? {
          return Err(spawn.error);
        }
        kernel := spawn.value;
      }
      r := SaveSession(Row(newId, path, name, kind, kernel));
    }

    method SaveSession(row: Row) returns (r: Result<Row, Error>)
      requires Valid() && Unused(log, row.id)
      modifies this`rows, this`log
      ensures Valid() && Grows(old(log), log, {})
      ensures r == if row.kernel in kernels then Ok(row) else Err(NotFound)
      ensures rows == if row.kernel in kernels then old(rows) + [row] else old(rows)
    {
      NewIdIsNew(log, row.id);
      hide Exec, FreshIds, Genuine, Unused, HasId, DeleteId, FirstWithId;
      rows := rows + [row];
      Record(Insert(row));
      FirstWithNewId(old(rows), row);
      DeleteNewId(old(rows), row);
      r := GetSession(row.id);
    }

    method UpdateSession(id: SessionId, changes: Changes) returns (r: Result<Row, Error>)
      requires Valid()
      modifies this`rows, this`log
      ensures Valid() && Grows(old(log), log, {})
      ensures r == IdLookup(old(rows), kernels, id).1
      ensures rows == if r.Ok? then UpdateId(old(rows), id, changes) else IdLookup(old(rows), kernels, id).0
    {
      r := GetSession(id);
      if r.Err? {
        return;
      }
      if changes == NO_CHANGES {
        assert UpdateId(rows, id, changes) == rows;
        return;
      }
      rows := UpdateId(rows, id, changes);
      Record(Change(id, changes));
    }

    /** The kernel was found by the lookup, so shutting it down does not fail. */
    method DeleteSession(id: SessionId) returns (r: Result<Row, Error>)
      requires Valid()
      modifies this
      ensures Valid() && Grows(old(log), log, if r.Ok? then {id} else {})
      ensures r == IdLookup(old(rows), old(kernels), id).1 && kernels <= old(kernels)
      ensures r.Ok? ==> rows == DeleteId(old(rows), id) && r.value.kernel !in kernels
      ensures r.Err? ==> rows == IdLookup(old(rows), old(kernels), id).0
    {
      r := GetSession(id);
      if r.Err? {
        return;
      }
      var down := ShutdownKernel(r.value.kernel);
      assert down;
      rows := DeleteId(rows, id);
      Record(Remove(id));
    }
  }

  /** What looking up the first row with a path does to the table, and whether its kernel is running. */
  function PathLookup(rows: seq<Row>, kernels: set<KernelId>, path: string): (seq<Row>, bool) {
    var row := FirstWithPath(rows, path);
    if row.None? then (rows, false)
    else if row.value.kernel in kernels then (rows, true)
    else (DeleteId(rows, row.value.id), false)
  }

  function IdLookup(rows: seq<Row>, kernels: set<KernelId>, id: SessionId): (seq<Row>, Result<Row, Error>) {
    var row := FirstWithId(rows, id);
    if row.None? then (rows, Err(NotFound))
    else if row.value.kernel in kernels then (rows, Ok(row.value))
    else (DeleteId(rows, id), Err(NotFound))
  }

  // ---------------------------------------------------------------------
  // Logs: what holds however requests overlap
  // ---------------------------------------------------------------------

  lemma {:induction false} DeleteMembers(rows: seq<Row>, id: SessionId)
    ensures forall r :: r in DeleteId(rows, id) <==> r in rows && r.id != id
  {
    if rows != [] {
      DeleteMembers(rows[..|rows| - 1], id);
      assert rows == rows[..|rows| - 1] + [rows[|rows| - 1]];
    }
  }

  lemma {:induction false} DeleteKeepsIds(rows: seq<Row>, id: SessionId)
    requires UniqueIds(rows)
    ensures UniqueIds(DeleteId(rows, id))
  {
    if rows != [] {
      var front := rows[..|rows| - 1];
      DeleteKeepsIds(front, id);
      DeleteMembers(front, id);
      var rest := DeleteId(front, id);
      assert forall i :: 0 <= i < |rest| ==> rest[i] in front;
    }
  }

  lemma {:induction false} DeleteKeepsPaths(rows: seq<Row>, id: SessionId)
    requires UniquePaths(rows)
    ensures UniquePaths(DeleteId(rows, id))
  {
    if rows != [] {
      var front := rows[..|rows| - 1];
      DeleteKeepsPaths(front, id);
      DeleteMembers(front, id);
      var rest := DeleteId(front, id);
      assert forall i :: 0 <= i < |rest| ==> rest[i] in front;
    }
  }

  lemma DeleteIdMembers(rows: seq<Row>, id: SessionId)
    ensures forall r :: r in DeleteId(rows, id) <==> r in rows && r.id != id
    ensures UniqueIds(rows) ==> UniqueIds(DeleteId(rows, id))
    ensures UniquePaths(rows) ==> UniquePaths(DeleteId(rows, id))
  {
    hide *;
    DeleteMembers(rows, id);
    if UniqueIds(rows) {
      DeleteKeepsIds(rows, id);
    }
    if UniquePaths(rows) {
      DeleteKeepsPaths(rows, id);
    }
  }

  lemma {:induction false} OnlyInsertedIds(log: seq<Act>)
    ensures forall r :: r in Exec(log).rows ==> !Unused(log, r.id)
  {
    if log != [] {
      var front, act := log[..|log| - 1], log[|log| - 1];
      OnlyInsertedIds(front);
      var t := Exec(front);
      forall r | r in Exec(log).rows ensures !Unused(log, r.id) {
        if act.Insert? && r == act.row {
          assert log[|log| - 1].row.id == r.id;
        } else {
          ActKeepsIds(t, act, r);
          var x :| x in t.rows && x.id == r.id;
          var i :| 0 <= i < |front| && front[i].Insert? && front[i].row.id == x.id;
          assert log[i] == front[i];
        }
      }
    }
  }

  /** Only an insert brings in a new id. */
  lemma ActKeepsIds(t: Table, act: Act, r: Row)
    requires r in Apply(t, act).rows && !(act.Insert? && r == act.row)
    ensures exists x :: x in t.rows && x.id == r.id
  {
    if act.Change? {
      var i :| 0 <= i < |t.rows| && UpdateId(t.rows, act.id, act.changes)[i] == r;
      assert t.rows[i] in t.rows;
    } else if act.Remove? {
      DeleteIdMembers(t.rows, act.id);
    } else if act.LookUp? {
      DeleteIdMembers(t.rows, act.row.id);
    }
  }

  lemma NewIdIsNew(log: seq<Act>, id: SessionId)
    requires Unused(log, id)
    ensures !HasId(Exec(log).rows, id)
  {
    OnlyInsertedIds(log);
  }

  /** Session ids stay unique in every log. */
  lemma {:induction false} LogsKeepUniqueIds(log: seq<Act>)
    requires FreshIds(log)
    ensures UniqueIds(Exec(log).rows)
  {
    if log != [] {
      var front, act := log[..|log| - 1], log[|log| - 1];
      LogsKeepUniqueIds(front);
      var t := Exec(front);
      match act {
        case Insert(row) =>
          OnlyInsertedIds(front);
          assert Unused(front, row.id);
          assert forall i :: 0 <= i < |t.rows| ==> t.rows[i] in t.rows;
        case LookUp(row) => DeleteIdMembers(t.rows, row.id);
        case Remove(id) => DeleteIdMembers(t.rows, id);
        case _ =>
      }
    }
  }

  predicate HasId(rows: seq<Row>, id: SessionId) {
    exists r :: r in rows && r.id == id
  }

  /** Any other act keeps a session. */
  lemma ActKeepsSession(t: Table, act: Act, id: SessionId)
    requires HasId(t.rows, id) && act != Remove(id)
    requires act.LookUp? && act.row.id == id ==> act.row.kernel in t.kernels
    ensures HasId(Apply(t, act).rows, id)
  {
    var r :| r in t.rows && r.id == id;
    match act {
      case Insert(row) => assert r in Apply(t, act).rows;
      case LookUp(row) => DeleteIdMembers(t.rows, row.id);
      case Remove(i) => DeleteIdMembers(t.rows, i);
      case Change(i, c) =>
        var k :| 0 <= k < |t.rows| && t.rows[k] == r;
        assert Apply(t, act).rows[k].id == id && Apply(t, act).rows[k] in Apply(t, act).rows;
      case _ =>
    }
  }

  /**
    A session disappears only by `delete_session` on its id, or because its
    kernel was not running when its row was looked up.
   */
  lemma WhySessionsDisappear(log: seq<Act>, n: nat, id: SessionId)
    requires n < |log| && Genuine(log) && HasId(Exec(log[..n]).rows, id) && !HasId(Exec(log[..n + 1]).rows, id)
    ensures log[n] == Remove(id) || FoundDead(log, n, id)
  {
    var t, act := Exec(log[..n]), log[n];
    assert log[..n + 1][..n] == log[..n] && log[..n + 1][n] == act;
    assert Exec(log[..n + 1]) == Apply(t, act);
    if act != Remove(id) && !(act.LookUp? && act.row.id == id && act.row.kernel !in t.kernels) {
      ActKeepsSession(t, act, id);
    }
  }

  /** Act `n` looked up a row of the session, which was in the table but without a running kernel. */
  ghost predicate FoundDead(log: seq<Act>, n: nat, id: SessionId) {
    && n < |log| && log[n].LookUp? && log[n].row.id == id
    && log[n].row in Exec(log[..n]).rows && log[n].row.kernel !in Exec(log[..n]).kernels
  }

  /**
    Over a stretch of the log, and so over any request and any number of them: a
    session that is there before and not after was deleted by `delete_session`
    on its id, or its kernel was gone when its row was looked up.
   */
  lemma {:induction false} WhyAStretchRemoves(before: seq<Act>, log: seq<Act>, ids: set<SessionId>, id: SessionId)
    requires Grows(before, log, ids) && Genuine(log)
    requires HasId(Exec(before).rows, id) && !HasId(Exec(log).rows, id)
    ensures id in ids || exists n :: |before| <= n < |log| && FoundDead(log, n, id)
    decreases |log|
  {
    assert |log| == |before| ==> log == before;
    if |log| > |before| {
      var last := |log| - 1;
      assert log[..|log|] == log && before == log[..|before|] && before <= log[..last];
      if HasId(Exec(log[..last]).rows, id) {
        WhySessionsDisappear(log, last, id);
      } else {
        GenuineFront(log, last);
        WhyAStretchRemoves(before, log[..last], ids, id);
        if n :| |before| <= n < last && FoundDead(log[..last], n, id) {
          assert log[..last][..n] == log[..n];
          assert FoundDead(log, n, id);
        }
      }
    }
  }

  lemma LogMore(log: seq<Act>, act: Act)
    requires FreshIds(log) && Genuine(log)
    requires act.Insert? ==> Unused(log, act.row.id)
    requires act.LookUp? ==> act.row in Exec(log).rows
    ensures FreshIds(log + [act]) && Genuine(log + [act]) && Exec(log + [act]) == Apply(Exec(log), act)
  {
    hide Apply;
    var more := log + [act];
    assert more[..|log|] == log && more[|log|] == act;
    assert forall n :: 0 <= n < |log| ==> more[..n] == log[..n] && more[n] == log[n];
  }

  lemma GenuineFront(log: seq<Act>, last: nat)
    requires last <= |log| && Genuine(log)
    ensures Genuine(log[..last])
  {
    assert forall n :: 0 <= n < last ==> log[..last][..n] == log[..n];
  }

  lemma {:induction false} LiveIsPart(rows: seq<Row>, kernels: set<KernelId>)
    ensures forall r :: r in Live(rows, kernels) <==> r in rows && r.kernel in kernels
  {
    if rows != [] {
      LiveIsPart(rows[..|rows| - 1], kernels);
      assert rows == rows[..|rows| - 1] + [rows[|rows| - 1]];
    }
  }

  lemma DeleteOneMore(rows: seq<Row>, last: Row, id: SessionId)
    ensures DeleteId(rows + [last], id) == DeleteId(rows, id) + (if last.id == id then [] else [last])
  {
    assert (rows + [last])[..|rows|] == rows;
  }

  lemma {:induction false} DeleteAbsent(rows: seq<Row>, id: SessionId)
    requires !HasId(rows, id)
    ensures DeleteId(rows, id) == rows
  {
    if rows != [] {
      var front, last := rows[..|rows| - 1], rows[|rows| - 1];
      assert last in rows && !HasId(front, id);
      assert rows == front + [last];
      hide HasId, DeleteId;
      DeleteAbsent(front, id);
      DeleteOneMore(front, last, id);
    }
  }

  lemma {:induction false} DeleteInMiddle(p: seq<Row>, row: Row, q: seq<Row>)
    requires !HasId(p, row.id) && !HasId(q, row.id)
    ensures DeleteId(p + ([row] + q), row.id) == p + q
    decreases |q|
  {
    if q == [] {
      DeleteAbsent(p, row.id);
      DeleteOneMore(p, row, row.id);
      hide DeleteId, HasId;
      assert p + ([row] + q) == p + [row] && p + [] == p && p + q == p;
    } else {
      var front, last := q[..|q| - 1], q[|q| - 1];
      assert last in q && !HasId(front, row.id);
      hide DeleteId, HasId;
      DeleteInMiddle(p, row, front);
      DeleteOneMore(p + ([row] + front), last, row.id);
      assert q == front + [last];
      assert p + ([row] + q) == p + ([row] + front) + [last];
      assert p + q == p + front + [last];
    }
  }

  /** A listing after i rows: those seen are the live ones, those to come are still in the table. */
  ghost predicate HalfListed(fetched: seq<Row>, i: nat, kernels: set<KernelId>, rows: seq<Row>, result: seq<Row>)
    requires i <= |fetched|
  {
    result == Live(fetched[..i], kernels) && rows == result + fetched[i..]
  }

  lemma GrowsByLookUp(before: seq<Act>, after: seq<Act>, row: Row)
    requires Grows(before, after, {})
    ensures Grows(before, after + [LookUp(row)], {})
  {
  }

  lemma ListOne(fetched: seq<Row>, i: nat, kernels: set<KernelId>, rows: seq<Row>, result: seq<Row>)
    requires i < |fetched| && UniqueIds(fetched) && HalfListed(fetched, i, kernels, rows, result)
    ensures fetched[i] in rows
    ensures fetched[i].kernel in kernels ==> HalfListed(fetched, i + 1, kernels, rows, result + [fetched[i]])
    ensures fetched[i].kernel !in kernels ==>
      HalfListed(fetched, i + 1, kernels, DeleteId(rows, fetched[i].id), result)
  {
    var row, rest := fetched[i], fetched[i + 1..];
    assert fetched[..i + 1][..i] == fetched[..i] && fetched[i..] == [row] + rest;
    if row.kernel in kernels {
      assert result + ([row] + rest) == result + [row] + rest;
    } else {
      LiveIsPart(fetched[..i], kernels);
      DeleteInMiddle(result, row, rest);
      assert result + [] == result;
    }
  }

  lemma ListEnd(fetched: seq<Row>, kernels: set<KernelId>, rows: seq<Row>, result: seq<Row>)
    requires HalfListed(fetched, |fetched|, kernels, rows, result)
    ensures rows == result == Live(fetched, kernels)
  {
    assert fetched[..|fetched|] == fetched && result + [] == result;
  }

  lemma FirstWithNewId(rows: seq<Row>, row: Row)
    requires !HasId(rows, row.id)
    ensures FirstWithId(rows + [row], row.id) == Some(row)
  {
    if rows != [] {
      assert rows[0] in rows;
      assert forall r :: r in rows[1..] ==> r in rows;
      assert (rows + [row])[1..] == rows[1..] + [row];
      FirstWithNewId(rows[1..], row);
    }
  }

  lemma DeleteNewId(rows: seq<Row>, row: Row)
    requires !HasId(rows, row.id)
    ensures DeleteId(rows + [row], row.id) == rows
  {
    DeleteInMiddle(rows, row, []);
    assert [row] + [] == [row] && rows + [] == rows;
  }
}
