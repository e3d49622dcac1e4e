/** What the statements on the session table do to its rows, and how request bodies are read. */
module SessionLaws {
  import opened Common
  import opened Sessions
  import opened SessionHandlers

  // ---------------------------------------------------------------------
  // Rows
  // ---------------------------------------------------------------------

  /** A row takes over the new columns that are given and keeps all others, its id in any case. */
  lemma UpdatedColumns(row: Row, c: Changes)
    ensures var u := Updated(row, c);
      && u.id == row.id
      && (c.path == None ==> u.path == row.path) && (forall x :: c.path == Some(x) ==> u.path == x)
      && (c.name == None ==> u.name == row.name) && (forall x :: c.name == Some(x) ==> u.name == Some(x))
      && (c.kind == None ==> u.kind == row.kind) && (forall x :: c.kind == Some(x) ==> u.kind == x)
      && (c.kernel == None ==> u.kernel == row.kernel) && (forall x :: c.kernel == Some(x) ==> u.kernel == x)
  {
  }

  /** An update changes the rows with its id, in place, and no others. */
  lemma UpdateRowByRow(rows: seq<Row>, id: SessionId, c: Changes, i: nat)
    requires i < |rows|
    ensures |UpdateId(rows, id, c)| == |rows|
    ensures rows[i].id == id ==> UpdateId(rows, id, c)[i] == Updated(rows[i], c)
    ensures rows[i].id != id ==> UpdateId(rows, id, c)[i] == rows[i]
  {
  }

  /** A delete works on each part of the table for itself: what is left stays in order. */
  lemma {:induction false} DeleteInParts(p: seq<Row>, q: seq<Row>, id: SessionId)
    ensures DeleteId(p + q, id) == DeleteId(p, id) + DeleteId(q, id)
    decreases |q|
  {
    if q == [] {
      assert p + q == p;
    } else {
      assert (p + q)[..|p + q| - 1] == p + q[..|q| - 1];
      DeleteInParts(p, q[..|q| - 1], id);
    }
  }

  predicate OthersOnly(rows: seq<Row>, id: SessionId) {
    forall i :: 0 <= i < |rows| ==> rows[i].id != id
  }

  lemma {:induction false} DeleteNothing(rows: seq<Row>, id: SessionId)
    requires OthersOnly(rows, id)
    ensures DeleteId(rows, id) == rows
  {
    if rows != [] {
      var front := rows[..|rows| - 1];
      DeleteNothing(front, id);
      assert rows == front + [rows[|rows| - 1]];
    }
  }

  /** With ids unique, the table is left as it was but for the one row. */
  lemma DeleteTakesOneRow(rows: seq<Row>, i: nat)
    requires i < |rows| && UniqueIds(rows)
    ensures DeleteId(rows, rows[i].id) == rows[..i] + rows[i + 1..]
  {
    OthersHaveOtherIds(rows, i);
    RowInPlace(rows, i);
    hide *;
    DeleteBetween(rows[..i], rows[i], rows[i + 1..]);
  }

  lemma RowInPlace(rows: seq<Row>, i: nat)
    requires i < |rows|
    ensures rows == rows[..i] + ([rows[i]] + rows[i + 1..])
  {
  }

  lemma DeleteBetween(before: seq<Row>, row: Row, after: seq<Row>)
    requires OthersOnly(before, row.id) && OthersOnly(after, row.id)
    ensures DeleteId(before + ([row] + after), row.id) == before + after
  {
    DeleteOne(row);
    hide *;
    DeleteInParts(before, [row] + after, row.id);
    DeleteInParts([row], after, row.id);
    DeleteNothing(before, row.id);
    DeleteNothing(after, row.id);
    EmptyFront(after);
  }

  lemma EmptyFront(rows: seq<Row>)
    ensures [] + rows == rows
  {
  }

  lemma OthersHaveOtherIds(rows: seq<Row>, i: nat)
    requires i < |rows| && UniqueIds(rows)
    ensures OthersOnly(rows[..i], rows[i].id) && OthersOnly(rows[i + 1..], rows[i].id)
  {
  }

  lemma DeleteOne(row: Row)
    ensures DeleteId([row], row.id) == []
  {
    assert [row][..0] == [];
  }

  /** Listing too: the rows with running kernels, in table order. */
  lemma {:induction false} LiveInParts(p: seq<Row>, q: seq<Row>, kernels: set<KernelId>)
    ensures Live(p + q, kernels) == Live(p, kernels) + Live(q, kernels)
    decreases |q|
  {
    if q == [] {
      assert p + q == p;
    } else {
      assert (p + q)[..|p + q| - 1] == p + q[..|q| - 1];
      LiveInParts(p, q[..|q| - 1], kernels);
    }
  }

  lemma LiveOne(row: Row, kernels: set<KernelId>)
    ensures Live([row], kernels) == if row.kernel in kernels then [row] else []
  {
    assert [row][..0] == [];
  }

  /** A lookup by path takes the first row that has the path. */
  lemma FirstWithPathIs(rows: seq<Row>, path: string, i: nat)
    requires i < |rows|
    ensures rows[i].path == path && (forall j :: 0 <= j < i ==> rows[j].path != path) ==>
      FirstWithPath(rows, path) == Some(rows[i])
  {
    if i > 0 && rows[i].path == path && forall j :: 0 <= j < i ==> rows[j].path != path {
      FirstWithPathIs(rows[1..], path, i - 1);
    }
  }

  lemma FirstWithIdIs(rows: seq<Row>, id: SessionId, i: nat)
    requires i < |rows|
    ensures rows[i].id == id && (forall j :: 0 <= j < i ==> rows[j].id != id) ==>
      FirstWithId(rows, id) == Some(rows[i])
  {
    if i > 0 && rows[i].id == id && forall j :: 0 <= j < i ==> rows[j].id != id {
      FirstWithIdIs(rows[1..], id, i - 1);
    }
  }

  /**
    Looking a session up, with ids unique: while its kernel is running the row is
    the answer and the table stays; if its kernel is gone the answer is "not
    found" and exactly its row goes.
   */
  lemma LookupOfId(rows: seq<Row>, kernels: set<KernelId>, i: nat)
    requires i < |rows| && UniqueIds(rows)
    ensures IdLookup(rows, kernels, rows[i].id) ==
      if rows[i].kernel in kernels then (rows, Ok(rows[i])) else (rows[..i] + rows[i + 1..], Err(NotFound))
  {
    FirstWithIdIs(rows, rows[i].id, i);
    DeleteTakesOneRow(rows, i);
  }

  lemma LookupOfUnknownId(rows: seq<Row>, kernels: set<KernelId>, id: SessionId)
    requires forall r :: r in rows ==> r.id != id
    ensures IdLookup(rows, kernels, id) == (rows, Err(NotFound))
  {
  }

  /** The same by path, where the row is the first that has the path. */
  lemma LookupOfPath(rows: seq<Row>, kernels: set<KernelId>, i: nat)
    requires i < |rows| && UniqueIds(rows) && forall j :: 0 <= j < i ==> rows[j].path != rows[i].path
    ensures PathLookup(rows, kernels, rows[i].path) ==
      if rows[i].kernel in kernels then (rows, true) else (rows[..i] + rows[i + 1..], false)
  {
    FirstWithPathIs(rows, rows[i].path, i);
    DeleteTakesOneRow(rows, i);
  }

  lemma LookupOfUnknownPath(rows: seq<Row>, kernels: set<KernelId>, path: string)
    requires forall r :: r in rows ==> r.path != path
    ensures PathLookup(rows, kernels, path) == (rows, false)
  {
  }

  // ---------------------------------------------------------------------
  // Request bodies
  // ---------------------------------------------------------------------

  /**
    A POST with a `notebook` entry is about a notebook, at the entry's name or
    else at its path; all other fields count as they are.
   */
  lemma NotebookOfPost(b: Body)
    ensures var p := PostBody(b);
      && p.name == b.name && p.kernel == b.kernel
      && (b.notebook == None ==> p.path == b.path && p.kind == b.kind)
      && (b.notebook != None ==> p.kind == Some("notebook"))
      && (b.notebook == Some(Notebook(None, None)) ==> p.path == b.path)
      && (forall x :: b.notebook == Some(Notebook(None, Some(x))) ==> p.path == Some(x))
      && (forall n, x :: b.notebook == Some(Notebook(Some(n), x)) ==> p.path == Some(n))
  {
  }

  /**
    In a PATCH only the path of such an entry counts, and makes it one about a
    notebook. The kernel changes to the one asked for by id, or to the one
    started for a name.
   */
  lemma ChangesOfPatch(b: Body, spawn: Result<KernelId, Error>)
    ensures var c := PatchChanges(b, spawn);
      && c.name == b.name
      && (b.notebook == None || b.notebook.value.path == None ==> c.path == b.path && c.kind == b.kind)
      && (forall n, x :: b.notebook == Some(Notebook(n, Some(x))) ==> c.path == Some(x) && c.kind == Some("notebook"))
      && (b.kernel == Unsaid ==> c.kernel == None)
      && (forall k :: b.kernel == ById(k) ==> c.kernel == Some(k))
      && (forall n, k :: b.kernel == ByName(n) && spawn == Ok(k) ==> c.kernel == Some(k))
  {
  }
}
