/**
 * The `repositories` table of the SQLite store, held in memory: its rows in
 * ascending rowid, and whether the connection is still open. SQLite itself is
 * not modelled; only what the program's three statements do to the table.
 */
module Database {

  import opened Common

  /** One row of `repositories`; a missing `last_sync` is SQL NULL, `is_active` defaults to 1. */
  datatype Row = Row(id: int, name: string, url: string, localPath: string,
                     lastSync: Option<string>, isActive: bool)

  /**
   * `id INTEGER PRIMARY KEY` makes the table a rowid table, which SQLite keeps
   * and scans in ascending rowid: ids strictly increase along the sequence, so
   * no two rows share one.
   */
  ghost predicate IdsAscending(rows: seq<Row>) {
    forall i, j :: 0 <= i < j < |rows| ==> rows[i].id < rows[j].id
  }

  predicate HasId(rows: seq<Row>, id: int) {
    exists i :: 0 <= i < |rows| && rows[i].id == id
  }

  function MaxId(rows: seq<Row>): (m: int)
    requires rows != []
    ensures forall i :: 0 <= i < |rows| ==> rows[i].id <= m
    ensures HasId(rows, m)
  {
    if |rows| == 1 then rows[0].id
    else
      var rest := MaxId(rows[1..]);
      assert rows[1..][0] == rows[1];
      if rows[0].id >= rest then rows[0].id else rest
  }

  /** SQLite's choice of rowid for an INSERT without one: 1 in an empty table, else one more than the largest. */
  function NextRowId(rows: seq<Row>): (id: int)
    ensures forall i :: 0 <= i < |rows| ==> rows[i].id < id
    ensures !HasId(rows, id)
    ensures rows == [] ==> id == 1
  {
    if rows == [] then 1 else MaxId(rows) + 1
  }

  /** `CREATE TABLE IF NOT EXISTS`: an existing table keeps its rows, a new one starts empty. */
  function TableOnOpen(stored: Option<seq<Row>>): seq<Row> {
    if stored.Some? then stored.value else []
  }

  /** The table after `INSERT INTO repositories (name, url, local_path) VALUES (...)`. */
  function Inserted(rows: seq<Row>, name: string, url: string, localPath: string): (r: seq<Row>)
    ensures |r| == |rows| + 1 && r[..|rows|] == rows
    ensures r[|rows|] == Row(NextRowId(rows), name, url, localPath, None, true)
    ensures IdsAscending(rows) ==> IdsAscending(r)
  {
    rows + [Row(NextRowId(rows), name, url, localPath, None, true)]
  }

  /** The table after `UPDATE repositories SET last_sync = time WHERE id = id`. */
  function Stamped(rows: seq<Row>, id: int, time: string): (r: seq<Row>)
    ensures |r| == |rows|
    ensures forall i :: 0 <= i < |rows| ==>
              r[i] == if rows[i].id == id then rows[i].(lastSync := Some(time)) else rows[i]
  {
    if rows == [] then []
    else [if rows[0].id == id then rows[0].(lastSync := Some(time)) else rows[0]]
         + Stamped(rows[1..], id, time)
  }

  /** `SELECT * FROM repositories [WHERE is_active = 1]`, in rowid order. */
  function Selected(rows: seq<Row>, activeOnly: bool): (r: seq<Row>)
    ensures |r| <= |rows|
  {
    if rows == [] then []
    else (if !activeOnly || rows[0].isActive then [rows[0]] else [])
         + Selected(rows[1..], activeOnly)
  }

  /** A row is returned exactly when it is stored and, under the filter, active. */
  lemma {:induction false} SelectedMembers(rows: seq<Row>, activeOnly: bool)
    ensures forall x :: x in Selected(rows, activeOnly) <==> x in rows && (activeOnly ==> x.isActive)
  {
    if rows != [] {
      SelectedMembers(rows[1..], activeOnly);
      assert rows == [rows[0]] + rows[1..];
    }
  }

  /** Only the row with the given id changes, and no row at all when the id is absent. */
  lemma StampedTouchesOnlyTarget(rows: seq<Row>, id: int, time: string)
    ensures !HasId(rows, id) ==> Stamped(rows, id, time) == rows
    ensures IdsAscending(rows) ==> IdsAscending(Stamped(rows, id, time))
  {
  }

  /** A row whose id exceeds every stored id can go at the end. */
  lemma AscendingAppend(rows: seq<Row>, x: Row)
    requires IdsAscending(rows) && x.id == NextRowId(rows)
    ensures IdsAscending(rows + [x])
  {
  }

  /** The query returns only stored rows, so a bound below every stored id bounds the result. */
  lemma {:induction false} SelectedAbove(rows: seq<Row>, activeOnly: bool, bound: int)
    requires forall i :: 0 <= i < |rows| ==> bound < rows[i].id
    ensures forall j :: 0 <= j < |Selected(rows, activeOnly)| ==> bound < Selected(rows, activeOnly)[j].id
  {
    if rows != [] {
      SelectedAbove(rows[1..], activeOnly, bound);
    }
  }

  /** The filtered query keeps rowid order. */
  lemma {:induction false} SelectedAscending(rows: seq<Row>, activeOnly: bool)
    requires IdsAscending(rows)
    ensures IdsAscending(Selected(rows, activeOnly))
  {
    if rows != [] {
      var head := if !activeOnly || rows[0].isActive then [rows[0]] else [];
      var tail := Selected(rows[1..], activeOnly);
      SelectedAscending(rows[1..], activeOnly);
      SelectedAbove(rows[1..], activeOnly, rows[0].id);
      assert Selected(rows, activeOnly) == head + tail;
    }
  }

  /** Stamping the row just inserted leaves every earlier row as it was. */
  lemma StampNewest(rows: seq<Row>, name: string, url: string, localPath: string, time: string)
    ensures var id := NextRowId(rows);
            Stamped(Inserted(rows, name, url, localPath), id, time)
            == rows + [Row(id, name, url, localPath, Some(time), true)]
  {
    var id := NextRowId(rows);
    var r := Stamped(Inserted(rows, name, url, localPath), id, time);
    assert forall i :: 0 <= i < |rows| ==> r[i] == rows[i];
  }

  /** Selecting distributes over concatenation, so rows come back in insertion order. */
  lemma {:induction false} SelectedAppend(a: seq<Row>, b: seq<Row>, activeOnly: bool)
    ensures Selected(a + b, activeOnly) == Selected(a, activeOnly) + Selected(b, activeOnly)
  {
    if a == [] {
      assert a + b == b;
    } else {
      var ab := a + b;
      var head := if !activeOnly || a[0].isActive then [a[0]] else [];
      assert ab[0] == a[0];
      assert ab[1..] == a[1..] + b;
      assert Selected(ab, activeOnly) == head + Selected(a[1..] + b, activeOnly);
      SelectedAppend(a[1..], b, activeOnly);
      assert Selected(a, activeOnly) == head + Selected(a[1..], activeOnly);
      assert head + (Selected(a[1..], activeOnly) + Selected(b, activeOnly))
             == (head + Selected(a[1..], activeOnly)) + Selected(b, activeOnly);
    }
  }

  /** Without the filter every row is returned, in order. */
  lemma {:induction false} SelectedAll(rows: seq<Row>)
    ensures Selected(rows, false) == rows
  {
    if rows != [] {
      SelectedAll(rows[1..]);
    }
  }

  /** Rows are added active, so while none is deactivated the filtered query returns the whole table. */
  lemma {:induction false} SelectedActive(rows: seq<Row>)
    requires forall i :: 0 <= i < |rows| ==> rows[i].isActive
    ensures Selected(rows, true) == rows
  {
    if rows != [] {
      SelectedActive(rows[1..]);
    }
  }

  /** Adding the same repository twice gives two rows with the same fields and different ids. */
  lemma InsertTwiceKeepsBoth(rows: seq<Row>, name: string, url: string, localPath: string)
    ensures var once := Inserted(rows, name, url, localPath);
            var twice := Inserted(once, name, url, localPath);
            && |twice| == |rows| + 2
            && twice[|rows|].(id := 0) == twice[|rows| + 1].(id := 0)
            && twice[|rows|].id != twice[|rows| + 1].id
  {
  }

  class RepositoryDatabase {
    var rows: seq<Row>
    var open: bool

    ghost predicate Valid()
      reads this
    {
      IdsAscending(rows)
    }

    /** Opens the store; `stored` is the table already on disk, if any. */
    constructor (stored: Option<seq<Row>>)
      requires stored.Some? ==> IdsAscending(stored.value)
      ensures Valid() && open
      ensures rows == TableOnOpen(stored)
      ensures stored.Some? ==> rows == stored.value
    {
      rows := TableOnOpen(stored);
      open := true;
    }

    method AddRepository(name: string, url: string, localPath: string) returns (id: int)
      requires Valid() && open
      modifies this
      ensures Valid() && open
      ensures id == NextRowId(old(rows)) && !HasId(old(rows), id)
      ensures rows == Inserted(old(rows), name, url, localPath)
    {
      id := NextRowId(rows);
      rows := rows + [Row(id, name, url, localPath, None, true)];
    }

    method GetRepositories(activeOnly: bool := true) returns (repos: seq<Row>)
      requires Valid() && open
      ensures repos == Selected(rows, activeOnly)
      ensures forall x :: x in repos <==> x in rows && (activeOnly ==> x.isActive)
      ensures IdsAscending(repos)
    {
      repos := Selected(rows, activeOnly);
      SelectedMembers(rows, activeOnly);
      SelectedAscending(rows, activeOnly);
    }

    method UpdateLastSync(repoId: int, syncTime: string)
      requires Valid() && open
      modifies this
      ensures Valid() && open
      ensures rows == Stamped(old(rows), repoId, syncTime)
    {
      StampedTouchesOnlyTarget(rows, repoId, syncTime);
      rows := Stamped(rows, repoId, syncTime);
    }

    method Close()
      modifies this
      ensures !open && rows == old(rows)
    {
      open := false;
    }
  }

  /**
   * Two repositories added to a fresh store get ids 1 and 2, come back in
   * insertion order and active, and stamping the first leaves the second unsynced.
   */
  method TwoInsertsScenario() returns (id1: int, id2: int, repos: seq<Row>, stamped: seq<Row>)
    ensures id1 == 1 && id2 == 2
    ensures |repos| == 2 && repos[0].name == "Repo1" && repos[1].name == "Repo2"
    ensures repos[0].isActive && repos[1].isActive
    ensures |stamped| == 2 && stamped[0].lastSync == Some("2024-01-01T00:00:00") && stamped[1].lastSync == None
  {
    var db := new RepositoryDatabase(None);
    id1 := db.AddRepository("Repo1", "https://github.com/test/repo1", "/path/1");
    id2 := db.AddRepository("Repo2", "https://github.com/test/repo2", "/path/2");
    ghost var added := db.rows;
    assert |added| == 2 && added[0].id == 1 && added[1].id == 2;
    assert added[0].isActive && added[1].isActive;
    SelectedActive(added);
    repos := db.GetRepositories();
    assert repos == added;
    db.UpdateLastSync(id1, "2024-01-01T00:00:00");
    stamped := db.rows;
    assert stamped[0] == added[0].(lastSync := Some("2024-01-01T00:00:00")) && stamped[1] == added[1];
  }
}
