/**
  The requests that drive the session manager, what each does to the session
  table, and what a run of them keeps.
 */
module SessionHandlers {
  import opened Common
  import opened Sessions

  /** The deprecated `notebook` entry of a request body. */
  datatype Notebook = Notebook(name: Option<string>, path: Option<string>)

  datatype Body = Body(path: Option<string>, name: Option<string>, kind: Option<string>,
                       notebook: Option<Notebook>, kernel: KernelChoice)

  /** The kernel a body asks for: a running one, a new one of some name, or none in particular. */
  datatype KernelChoice = Unsaid | ById(id: KernelId) | ByName(name: string)

  function PostBody(b: Body): Body {
    if b.notebook.None? then b
    else b.(kind := Some("notebook"),
            path := if b.notebook.value.name.Some? then b.notebook.value.name
                    else if b.notebook.value.path.Some? then b.notebook.value.path else b.path)
  }

  /** The columns a PATCH changes, `spawn` being the outcome of starting a kernel if one is asked for. */
  function PatchChanges(b: Body, spawn: Result<KernelId, Error>): Changes {
    var old_ := b.notebook.Some? && b.notebook.value.path.Some?;
    Changes(if old_ then b.notebook.value.path else b.path,
            b.name,
            if old_ then Some("notebook") else b.kind,
            match b.kernel
            case Unsaid => None
            case ById(k) => Some(k)
            case ByName(_) => if spawn.Ok? then Some(spawn.value) else None)
  }

  // ---------------------------------------------------------------------
  // What a request may do to the table
  // ---------------------------------------------------------------------

  datatype Request =
    | Posting(path: string)
    | Listing
    | Getting(id: SessionId)
    | Patching(id: SessionId, changes: Changes)
    | Deleting(id: SessionId)
    | Dying                                   // kernels vanish between requests

  /** The table after a whole request, kernels having come and gone meanwhile. */
  ghost predicate Served(rows: seq<Row>, kernels: set<KernelId>, q: Request, after: seq<Row>) {
    match q
    case Posting(path) =>
      var (left, found) := PathLookup(rows, kernels, path);
      after == left || (!found && Added(rows, left, path, after))
    case Listing => after == Live(rows, kernels)
    case Getting(id) => after == IdLookup(rows, kernels, id).0
    case Patching(id, c) => after == rows || after == DeleteId(rows, id) || after == UpdateId(rows, id, c)
    case Deleting(id) => after == rows || after == DeleteId(rows, id)
    case Dying => after == rows
  }

  /** A session for the path was added, under an id no row had. */
  ghost predicate Added(rows: seq<Row>, left: seq<Row>, path: string, after: seq<Row>) {
    exists row :: after == left + [row] && row.path == path && !HasId(rows, row.id)
  }

  /** A POST to be served, `id` being the fresh id of its session should it create one. */
  datatype Ask = Ask(id: SessionId, path: string, name: Option<string>, kind: string, kernelId: Option<KernelId>)

  function NewRow(a: Ask, kernel: KernelId): Row {
    Row(a.id, a.path, a.name, a.kind, kernel)
  }

  /** How far a POST has come: it suspends only while a kernel is started for it. */
  datatype Phase = Fresh | Starting | Started(kernel: KernelId) | Done(answer: Result<Row, Error>)

  /** From the lookup to the answer, or to where a kernel has to be started. */
  function Looked(t: Table, a: Ask): (Table, Phase) {
    var (left, found) := PathLookup(t.rows, t.kernels, a.path);
    if found then (t.(rows := left), Done(Ok(FirstWithPath(t.rows, a.path).value)))
    else if a.kernelId.Some? && a.kernelId.value in t.kernels then
      (t.(rows := left + [NewRow(a, a.kernelId.value)]), Done(Ok(NewRow(a, a.kernelId.value))))
    else (t.(rows := left), Starting)
  }

  /** From there on, with the kernel that was started. */
  function Resumed(t: Table, a: Ask, kernel: KernelId): (Table, Phase) {
    if kernel in t.kernels then (t.(rows := t.rows + [NewRow(a, kernel)]), Done(Ok(NewRow(a, kernel))))
    else (t, Done(Err(ServerError)))
  }

  method PostLook(sm: SessionManager, a: Ask) returns (phase: Phase)
    requires sm.Valid() && Unused(sm.log, a.id)
    modifies sm
    ensures sm.Valid() && Grows(old(sm.log), sm.log, {})
    ensures (sm.Now(), phase) == Looked(old(sm.Now()), a)
    ensures phase.Starting? ==> Unused(sm.log, a.id)
  {
    var exists_ := sm.SessionExists(a.path);
    if exists_ {
      var r := sm.GetSessionByPath(a.path);
      phase := Done(r);
    } else if a.kernelId.Some? && a.kernelId.value in sm.kernels {
      var r := sm.CreateSession(a.id, a.path, a.name, a.kind, a.kernelId, Err(ServerError));
      phase := Done(r);
    } else {
      phase := Starting;
    }
  }

  method PostResume(sm: SessionManager, a: Ask, kernel: KernelId) returns (phase: Phase)
    requires sm.Valid() && Unused(sm.log, a.id)
    modifies sm
    ensures sm.Valid() && Grows(old(sm.log), sm.log, {})
    ensures (sm.Now(), phase) == Resumed(old(sm.Now()), a, kernel)
  {
    var r := sm.SaveSession(NewRow(a, kernel));
    phase := Done(if r.Ok? then r else Err(ServerError));
  }

  method Post(sm: SessionManager, body: Option<Body>, newId: SessionId, spawn: Result<KernelId, Error>)
    returns (r: Result<Row, Error>)
    requires sm.Valid() && Unused(sm.log, newId)
    modifies sm
    ensures sm.Valid() && Grows(old(sm.log), sm.log, {})
    ensures body.None? || PostBody(body.value).path.None? || PostBody(body.value).kind.None? ==>
      r == Err(BadRequest) && sm.rows == old(sm.rows)
    ensures body.Some? && PostBody(body.value).path.Some? && PostBody(body.value).kind.Some? ==>
      var (b, path) := (PostBody(body.value), PostBody(body.value).path.value);
      var (left, found) := PathLookup(old(sm.rows), old(sm.kernels), path);
      && Served(old(sm.rows), old(sm.kernels), Posting(path), sm.rows)
      && (found ==> r == Ok(FirstWithPath(old(sm.rows), path).value))
      && (!found && r.Ok? ==> sm.rows == left + [r.value] && r.value.kernel in sm.kernels
                              && r.value == Row(newId, path, b.name, b.kind.value, r.value.kernel))
      && (!found && r.Err? ==> sm.rows == left && r.error in {ServerError, NotImplemented})
      && (found ==> sm.kernels == old(sm.kernels))
      && (!found && b.kernel.ById? && b.kernel.id in old(sm.kernels) ==>
            r.Ok? && r.value.kernel == b.kernel.id && sm.kernels == old(sm.kernels))
      && (!found && !(b.kernel.ById? && b.kernel.id in old(sm.kernels)) ==>
            match spawn
            case Ok(k) =>
              r == if k in sm.kernels then Ok(Row(newId, path, b.name, b.kind.value, k)) else Err(ServerError)
            case Err(e) => r == Err(if e == NotImplemented then NotImplemented else ServerError))
  {
    if body.None? {
      return Err(BadRequest);
    }
    var b := PostBody(body.value);
    if b.path.None? || b.kind.None? {
      return Err(BadRequest);
    }
    OnlyInsertedIds(sm.log);
    var a := Ask(newId, b.path.value, b.name, b.kind.value, if b.kernel.ById? then Some(b.kernel.id) else None);
    var phase := PostLook(sm, a);
    if phase.Starting? {
      sm.StartKernel(spawn);
      if spawn.Err? {
        return Err(if spawn.error == NotImplemented then NotImplemented else ServerError);
      }
      phase := PostResume(sm, a, spawn.value);
    }
    r := phase.answer;
  }

  method Get(sm: SessionManager, id: SessionId) returns (r: Result<Row, Error>)
    requires sm.Valid()
    modifies sm
    ensures sm.Valid() && Grows(old(sm.log), sm.log, {})
    ensures (sm.rows, r) == IdLookup(old(sm.rows), old(sm.kernels), id)
    ensures Served(old(sm.rows), old(sm.kernels), Getting(id), sm.rows)
  {
    r := sm.GetSession(id);
  }

  method List(sm: SessionManager) returns (sessions: seq<Row>)
    requires sm.Valid()
    modifies sm
    ensures sm.Valid() && Grows(old(sm.log), sm.log, {})
    ensures sessions == sm.rows == Live(old(sm.rows), sm.kernels)
    ensures Served(old(sm.rows), old(sm.kernels), Listing, sm.rows)
  {
    sessions := sm.ListSessions();
  }

  method Delete(sm: SessionManager, id: SessionId) returns (r: Result<Row, Error>)
    requires sm.Valid()
    modifies sm
    ensures sm.Valid() && Grows(old(sm.log), sm.log, if r.Ok? then {id} else {})
    ensures r == IdLookup(old(sm.rows), old(sm.kernels), id).1
    ensures r.Ok? ==> sm.rows == DeleteId(old(sm.rows), id) && r.value.kernel !in sm.kernels
    ensures Served(old(sm.rows), old(sm.kernels), Deleting(id), sm.rows)
  {
    r := sm.DeleteSession(id);
  }

  /**
    A kernel asked for by id takes precedence over one asked for by name. The
    answer may be "not found" although the row was changed, when the old kernel
    was gone before it could be shut down.
   */
  method Patch(sm: SessionManager, id: SessionId, body: Option<Body>, spawn: Result<KernelId, Error>)
    returns (r: Result<Row, Error>)
    requires sm.Valid()
    modifies sm
    ensures sm.Valid() && Grows(old(sm.log), sm.log, {})
    ensures body.None? ==> r == Err(BadRequest) && sm.rows == old(sm.rows)
    ensures body.Some? ==>
      var (left, found) := IdLookup(old(sm.rows), old(sm.kernels), id);
      var c := PatchChanges(body.value, spawn);
      && Served(old(sm.rows), old(sm.kernels), Patching(id, c), sm.rows)
      && (found.Err? ==> r == found && sm.rows == left)
      && (r.Ok? ==> r.value == Updated(found.value, c) && sm.rows == UpdateId(old(sm.rows), id, c))
      && (r.Ok? && r.value.kernel != found.value.kernel ==> found.value.kernel !in sm.kernels)
      && (r.Ok? && r.value.kernel == found.value.kernel && !body.value.kernel.ByName? ==>
            sm.kernels == old(sm.kernels))
      && (found.Ok? && body.value.kernel.ById? && body.value.kernel.id !in old(sm.kernels) ==>
            sm.rows == old(sm.rows) && sm.kernels == old(sm.kernels) && r == Err(BadRequest))
      && (found.Ok? && body.value.kernel.ByName? && spawn.Err? ==>
            sm.rows == old(sm.rows) && r == Err(NotImplemented))
      && (found.Ok? && r.Err? && r.error != NotFound ==>
            (body.value.kernel.ById? && body.value.kernel.id !in old(sm.kernels)) ||
            (body.value.kernel.ByName? && spawn.Err?))
  {
    if body.None? {
      return Err(BadRequest);
    }
    hide DeleteId, UpdateId, FirstWithId, Exec, FreshIds, Unused, Live, PathLookup;
    var before := sm.GetSession(id);
    if before.Err? {
      return before;
    }
    var changes := PatchChanges(body.value, spawn);
    if body.value.kernel.ById? && body.value.kernel.id !in sm.kernels {
      return Err(BadRequest);
    } else if body.value.kernel.ByName? {
      sm.StartKernel(spawn);
      if spawn.Err? {
        return Err(NotImplemented);
      }
    }
    r := PatchRow(sm, id, before.value.kernel, changes);
  }

  /** The part of a PATCH after the kernel is settled: update, read back, shut an old kernel down. */
  method PatchRow(sm: SessionManager, id: SessionId, oldKernel: KernelId, changes: Changes)
    returns (r: Result<Row, Error>)
    requires sm.Valid()
    modifies sm
    ensures sm.Valid() && Grows(old(sm.log), sm.log, {})
    ensures sm.rows in {old(sm.rows), DeleteId(old(sm.rows), id), UpdateId(old(sm.rows), id, changes)}
    ensures r.Ok? ==> sm.rows == UpdateId(old(sm.rows), id, changes)
    ensures r.Ok? ==> FirstWithId(old(sm.rows), id).Some?
    ensures r.Ok? ==> r.value == Updated(FirstWithId(old(sm.rows), id).value, changes)
    ensures r.Ok? && r.value.kernel != oldKernel ==> oldKernel !in sm.kernels
    ensures r.Ok? && r.value.kernel == oldKernel ==> sm.kernels == old(sm.kernels)
    ensures r.Err? ==> r.error == NotFound
  {
    hide DeleteId, UpdateId, FirstWithId, Exec, FreshIds, Unused;
    DeleteChanged(sm.rows, id, changes);
    FirstChanged(sm.rows, id, changes);
    r := sm.UpdateSession(id, changes);
    if r.Err? {
      return;
    }
    r := sm.GetSession(id);
    if r.Ok? && r.value.kernel != oldKernel {
      var down := sm.ShutdownKernel(oldKernel);
      if !down {
        r := Err(NotFound);
      }
    }
  }

  /** An update keeps the id, so a delete after it takes the same rows. */
  lemma {:induction false} DeleteChanged(rows: seq<Row>, id: SessionId, c: Changes)
    ensures DeleteId(UpdateId(rows, id, c), id) == DeleteId(rows, id)
  {
    if rows != [] {
      var front := rows[..|rows| - 1];
      assert UpdateId(rows, id, c)[..|rows| - 1] == UpdateId(front, id, c);
      DeleteChanged(front, id, c);
    }
  }

  lemma {:induction false} FirstChanged(rows: seq<Row>, id: SessionId, c: Changes)
    ensures FirstWithId(UpdateId(rows, id, c), id) ==
      if FirstWithId(rows, id).Some? then Some(Updated(FirstWithId(rows, id).value, c)) else None
  {
    if rows != [] {
      assert UpdateId(rows, id, c)[1..] == UpdateId(rows[1..], id, c);
      FirstChanged(rows[1..], id, c);
    }
  }

  // ---------------------------------------------------------------------
  // Runs of whole requests
  // ---------------------------------------------------------------------

  /** States of the table and of the running kernels, with the request that leads from each to the next. */
  ghost predicate IsRun(ts: seq<Table>, qs: seq<Request>) {
    && |ts| == |qs| + 1 && ts[0].rows == []
    && forall i :: 0 <= i < |qs| ==> Served(ts[i].rows, ts[i].kernels, qs[i], ts[i + 1].rows)
  }

  predicate RenamesPath(q: Request) {
    q.Patching? && q.changes.path.Some?
  }

  lemma LiveIsUnique(rows: seq<Row>, kernels: set<KernelId>)
    ensures UniquePaths(rows) ==> UniquePaths(Live(rows, kernels))
    ensures UniqueIds(rows) ==> UniqueIds(Live(rows, kernels))
  {
    if rows != [] {
      LiveIsUnique(rows[..|rows| - 1], kernels);
      LiveIsPart(rows[..|rows| - 1], kernels);
      var rest := Live(rows[..|rows| - 1], kernels);
      assert forall i :: 0 <= i < |rest| ==> rest[i] in rows[..|rows| - 1];
    }
  }

  /** After a failed lookup no session has the path: the one that had it, if any, has been removed. */
  lemma NoPathLeft(rows: seq<Row>, kernels: set<KernelId>, path: string)
    requires UniquePaths(rows) && !PathLookup(rows, kernels, path).1
    ensures forall r :: r in PathLookup(rows, kernels, path).0 ==> r.path != path
  {
    var row := FirstWithPath(rows, path);
    if row.Some? {
      DeleteIdMembers(rows, row.value.id);
      var k :| 0 <= k < |rows| && rows[k] == row.value;
      forall r | r in DeleteId(rows, row.value.id) ensures r.path != path {
        var i :| 0 <= i < |rows| && rows[i] == r;
        assert i != k;
      }
    }
  }

  lemma PostKeepsPaths(rows: seq<Row>, kernels: set<KernelId>, path: string, after: seq<Row>)
    requires UniquePaths(rows) && UniqueIds(rows) && Served(rows, kernels, Posting(path), after)
    ensures UniquePaths(after) && UniqueIds(after)
  {
    var (left, found) := PathLookup(rows, kernels, path);
    if FirstWithPath(rows, path).Some? {
      DeleteIdMembers(rows, FirstWithPath(rows, path).value.id);
    }
    if after != left {
      NoPathLeft(rows, kernels, path);
      var row :| after == left + [row] && row.path == path && !HasId(rows, row.id);
      assert forall i :: 0 <= i < |left| ==> left[i] in left && left[i] in rows;
    }
  }

  /** One request of any kind, except a PATCH of a path, keeps ids and paths unique. */
  lemma ServedKeepsPaths(rows: seq<Row>, kernels: set<KernelId>, q: Request, after: seq<Row>)
    requires UniquePaths(rows) && UniqueIds(rows) && Served(rows, kernels, q, after) && !RenamesPath(q)
    ensures UniquePaths(after) && UniqueIds(after)
  {
    match q
    case Posting(path) => PostKeepsPaths(rows, kernels, path, after);
    case Listing => LiveIsUnique(rows, kernels);
    case Getting(id) => DeleteIdMembers(rows, id);
    case Patching(id, c) => DeleteIdMembers(rows, id);
    case Deleting(id) => DeleteIdMembers(rows, id);
    case Dying =>
  }

  /** One session per path, over every run of requests that do not overlap. */
  lemma {:induction false} OneSessionPerPath(ts: seq<Table>, qs: seq<Request>, n: nat)
    requires IsRun(ts, qs) && n <= |qs|
    requires forall i :: 0 <= i < n ==> !RenamesPath(qs[i])
    ensures UniquePaths(ts[n].rows) && UniqueIds(ts[n].rows)
  {
    if n > 0 {
      OneSessionPerPath(ts, qs, n - 1);
      ServedKeepsPaths(ts[n - 1].rows, ts[n - 1].kernels, qs[n - 1], ts[n].rows);
    }
  }

  /** A PATCH of a path is safe exactly when no other session has the new path. */
  lemma RenamingKeepsPathsIff(rows: seq<Row>, id: SessionId, c: Changes)
    requires UniquePaths(rows) && UniqueIds(rows) && HasId(rows, id) && c.path.Some?
    ensures UniquePaths(UpdateId(rows, id, c)) <==> forall r :: r in rows && r.id != id ==> r.path != c.path.value
  {
    var after := UpdateId(rows, id, c);
    var row :| row in rows && row.id == id;
    var k :| 0 <= k < |rows| && rows[k] == row;
    assert after[k].path == c.path.value;
    assert forall i :: 0 <= i < |rows| && i != k ==> rows[i].id != id && after[i] == rows[i];
    if UniquePaths(after) {
      forall r | r in rows && r.id != id ensures r.path != c.path.value {
        var i :| 0 <= i < |rows| && rows[i] == r;
        assert after[i] == r && i != k;
        if i < k { assert after[i].path != after[k].path; } else { assert after[k].path != after[i].path; }
      }
    } else {
      var i, j :| 0 <= i < j < |after| && after[i].path == after[j].path;
      assert i == k || j == k;
      assert rows[i] in rows && rows[j] in rows;
    }
  }
}
