/**
 * `GitHubBackupTool`: the loop of `backup_and_sync` over the configured
 * repositories, `run`'s guarantee that the store is closed, and the
 * question-and-answer loop of `interactive_setup`.
 *
 * The loop is proved against `ProcessAll`, a fold of `ProcessEntry` over the
 * list; each step records the effects it issued, in order, as one block of
 * the trace.
 */
module BackupTool {

  import opened Common
  import opened Clock
  import opened FileSystem
  import opened Database
  import opened GitSync
  import opened Config

  /** One externally visible action of `backup_and_sync`, with what it reported. */
  datatype Effect =
    | MakeDirs(path: Path)
    | Clone(url: string, path: Path, ok: bool)
    | Sync(path: Path, result: SyncResult)
    | Backup(path: Path, name: string, backupPath: string)
    | AddRepository(name: string, url: string, path: Path, id: int)
    | UpdateLastSync(id: int, time: string)

  /** What the program cannot see for one repository: git's answers and the three clock readings it takes. */
  datatype RepoOracle = RepoOracle(clone: CloneOutcome, remote: Remote,
                                   syncTime: Instant, backupTime: Instant, stampTime: Instant)

  /** The state `backup_and_sync` changes: the filesystem and the `repositories` table. */
  datatype World = World(dirs: Dirs, rows: seq<Row>)

  datatype Step = Step(world: World, effects: seq<Effect>)

  /** Where a run got to: the state, one block of effects per processed repository, and the exception that stopped it. */
  datatype RunState = RunState(world: World, blocks: seq<seq<Effect>>, raised: Option<Failure>)

  function Flatten(blocks: seq<seq<Effect>>): seq<Effect> {
    if blocks == [] then [] else Flatten(blocks[..|blocks| - 1]) + blocks[|blocks| - 1]
  }

  /**
   * The effects for one repository, in order: make the directory, clone (only
   * sometimes), sync, back up, insert a row, and stamp the row just inserted.
   */
  predicate IsBlockFor(b: seq<Effect>, name: string, url: string, path: Path) {
    && (|b| == 5 || |b| == 6)
    && b[0] == MakeDirs(path)
    && (|b| == 6 ==> b[1].Clone? && b[1].url == url && b[1].path == path)
    && b[|b| - 4].Sync? && b[|b| - 4].path == path
    && b[|b| - 3].Backup? && b[|b| - 3].path == path && b[|b| - 3].name == name
    && b[|b| - 2].AddRepository? && b[|b| - 2].name == name
    && b[|b| - 2].url == url && b[|b| - 2].path == path
    && b[|b| - 1].UpdateLastSync? && b[|b| - 1].id == b[|b| - 2].id
  }

  predicate IsRepoBlock(b: seq<Effect>, e: ConfigEntry)
    requires WellFormedEntry(e)
  {
    IsBlockFor(b, e["name"], e["url"], e["local_path"])
  }

  /** The id a block's `add_repository` returned. */
  function AddedId(b: seq<Effect>): int {
    if |b| >= 2 && b[|b| - 2].AddRepository? then b[|b| - 2].id else 0
  }

  /** The row one repository leaves behind, stamped with the time `update_last_sync` was given. */
  function RowFor(e: ConfigEntry, id: int, o: RepoOracle): Row
    requires WellFormedEntry(e)
  {
    Row(id, e["name"], e["url"], e["local_path"], Some(IsoFormat(o.stampTime)), true)
  }

  /** The effects of one iteration, given what each call reported (`clone` is `None` when no clone was issued). */
  function RepoBlock(name: string, url: string, path: Path, clone: Option<bool>, sync: SyncResult,
                     backupPath: string, id: int, time: string): (b: seq<Effect>)
    ensures IsBlockFor(b, name, url, path) && AddedId(b) == id
    ensures |b| == 6 <==> clone.Some?
    ensures b[|b| - 4] == Sync(path, sync) && b[|b| - 3] == Backup(path, name, backupPath)
    ensures b[|b| - 1] == UpdateLastSync(id, time)
  {
    var head := if clone.Some? then [MakeDirs(path), Clone(url, path, clone.value)] else [MakeDirs(path)];
    head + [Sync(path, sync), Backup(path, name, backupPath), AddRepository(name, url, path, id),
            UpdateLastSync(id, time)]
  }

  /** What one iteration does to the filesystem, and what the clone (if issued), sync and backup reported. */
  datatype GitWork = GitWork(dirs: Dirs, clone: Option<bool>, sync: SyncResult, backupPath: string)

  function RepoGitWork(dirs: Dirs, base: Path, name: string, url: string, path: Path, o: RepoOracle): (g: GitWork)
    requires path != ""
    ensures g.clone.Some? <==> !HasCheckout(dirs, path)
  {
    var d1 := Made(dirs, path);
    var c := CloneEffect(d1, path, o.clone);
    var cloneNeeded := !HasCheckout(d1, path);
    var d2 := if cloneNeeded then c.dirs else d1;
    var s := SyncEffect(d2, path, o.remote, o.syncTime);
    var bk := BackupEffect(s.dirs, base, path, name, o.backupTime);
    GitWork(bk.dirs, if cloneNeeded then Some(c.ok) else None, s.result, bk.backupPath)
  }

  /**
   * A clone that fails leaves no directory behind, so the sync that follows
   * finds no path and the backup has nothing to copy.
   */
  lemma FailedCloneSkipsSyncAndBackup(dirs: Dirs, base: Path, name: string, url: string, path: Path, o: RepoOracle)
    requires path != "" && !HasCheckout(dirs, path) && o.clone.CloneFailed?
    ensures var g := RepoGitWork(dirs, base, name, url, path, o);
            g.clone == Some(false) && g.sync == SyncFailed(NoSuchPath) && g.backupPath == ""
  {
    var d1 := Made(dirs, path);
    assert !HasCheckout(d1, path);
  }

  /**
   * When git writes checkouts, an iteration that had a checkout or cloned one
   * leaves a checkout behind, so the next run over the same path issues no clone.
   */
  lemma RepoGitWorkLeavesCheckout(dirs: Dirs, base: Path, name: string, url: string, path: Path, o: RepoOracle)
    requires path != "" && GitWritten(o.clone, o.remote)
    requires HasCheckout(dirs, path) || o.clone.Cloned?
    ensures var g := RepoGitWork(dirs, base, name, url, path, o);
            HasCheckout(g.dirs, path)
            && !RepoGitWork(g.dirs, base, name, url, path, o).clone.Some?
  {
    var d1 := Made(dirs, path);
    var d2 := if HasCheckout(d1, path) then d1 else CloneEffect(d1, path, o.clone).dirs;
    assert HasCheckout(d2, path);
    var s := SyncEffect(d2, path, o.remote, o.syncTime);
    assert HasCheckout(s.dirs, path);
  }

  /**
   * One iteration of the loop in `backup_and_sync`. A missing key raises
   * `KeyError` (name, then url, then local_path) and an empty local path makes
   * `os.makedirs` raise, before any effect. Otherwise every step runs whatever
   * the clone or the sync reported.
   */
  function ProcessEntry(w: World, base: Path, e: ConfigEntry, o: RepoOracle): (r: Result<Step>)
    ensures r.Ok? <==> WellFormedEntry(e)
    ensures "name" !in e ==> r == Err(KeyError("name"))
    ensures "name" in e && "url" !in e ==> r == Err(KeyError("url"))
    ensures "name" in e && "url" in e && "local_path" !in e ==> r == Err(KeyError("local_path"))
    ensures r.Ok? ==>
              var b := r.value.effects;
              && IsRepoBlock(b, e)
              && (|b| == 6 <==> !HasCheckout(w.dirs, e["local_path"]))
              && AddedId(b) == NextRowId(w.rows)
              && r.value.world.rows == w.rows + [RowFor(e, NextRowId(w.rows), o)]
  {
    if "name" !in e then Err(KeyError("name"))
    else if "url" !in e then Err(KeyError("url"))
    else if "local_path" !in e then Err(KeyError("local_path"))
    else if e["local_path"] == "" then Err(FileNotFoundError(""))
    else
      var name, url, path := e["name"], e["url"], e["local_path"];
      var g := RepoGitWork(w.dirs, base, name, url, path, o);
      var id := NextRowId(w.rows);
      var time := IsoFormat(o.stampTime);
      StampNewest(w.rows, name, url, path, time);
      Ok(Step(World(g.dirs, Stamped(Inserted(w.rows, name, url, path), id, time)),
              RepoBlock(name, url, path, g.clone, g.sync, g.backupPath, id, time)))
  }

  /** One iteration of the loop after the state `prev`: nothing happens once an exception has been raised. */
  function Continue(prev: RunState, base: Path, e: ConfigEntry, o: RepoOracle): RunState {
    if prev.raised.Some? then prev
    else match ProcessEntry(prev.world, base, e, o)
      case Err(x) => prev.(raised := Some(x))
      case Ok(step) => RunState(step.world, prev.blocks + [step.effects], None)
  }

  /** The iteration for a well-formed entry, given the git work, the table and the effects it produced. */
  lemma EntryStep(w: World, base: Path, e: ConfigEntry, o: RepoOracle, dirs: Dirs, rows: seq<Row>, effects: seq<Effect>)
    requires WellFormedEntry(e)
    requires var g := RepoGitWork(w.dirs, base, e["name"], e["url"], e["local_path"], o);
             var id := NextRowId(w.rows);
             var time := IsoFormat(o.stampTime);
             && dirs == g.dirs
             && rows == Stamped(Inserted(w.rows, e["name"], e["url"], e["local_path"]), id, time)
             && effects == RepoBlock(e["name"], e["url"], e["local_path"], g.clone, g.sync, g.backupPath, id, time)
    ensures ProcessEntry(w, base, e, o) == Ok(Step(World(dirs, rows), effects))
  {
  }

  /** The loop of `backup_and_sync` over a list, the `i`-th repository seeing `env(i)`; it stops at the first exception. */
  function ProcessAll(w: World, base: Path, es: seq<ConfigEntry>, env: nat -> RepoOracle): RunState
    decreases |es|
  {
    if es == [] then RunState(w, [], None)
    else Continue(ProcessAll(w, base, es[..|es| - 1], env), base, es[|es| - 1], env(|es| - 1))
  }

  /** One more iteration of the loop. */
  lemma ProcessAllNext(w: World, base: Path, es: seq<ConfigEntry>, i: nat, env: nat -> RepoOracle)
    requires i < |es|
    ensures ProcessAll(w, base, es[..i + 1], env) == Continue(ProcessAll(w, base, es[..i], env), base, es[i], env(i))
  {
    assert es[..i + 1][..i] == es[..i];
  }

  /** The loop's step for an entry that was processed: the state, one more block, still no exception. */
  lemma ProcessAllOk(w: World, base: Path, es: seq<ConfigEntry>, i: nat, env: nat -> RepoOracle,
                     blocks: seq<seq<Effect>>, step: Step)
    requires i < |es|
    requires ProcessAll(w, base, es[..i], env).raised.None? && ProcessAll(w, base, es[..i], env).blocks == blocks
    requires ProcessEntry(ProcessAll(w, base, es[..i], env).world, base, es[i], env(i)) == Ok(step)
    ensures ProcessAll(w, base, es[..i + 1], env) == RunState(step.world, blocks + [step.effects], None)
  {
    ProcessAllNext(w, base, es, i, env);
  }

  /** The loop's step for an entry that raised: the run ends there with the state it had. */
  lemma ProcessAllErr(w: World, base: Path, es: seq<ConfigEntry>, i: nat, env: nat -> RepoOracle, x: Failure)
    requires i < |es|
    requires ProcessAll(w, base, es[..i], env).raised.None?
    requires ProcessEntry(ProcessAll(w, base, es[..i], env).world, base, es[i], env(i)) == Err(x)
    ensures ProcessAll(w, base, es, env) == ProcessAll(w, base, es[..i], env).(raised := Some(x))
  {
    ProcessAllNext(w, base, es, i, env);
    ProcessAllStops(w, base, es, i + 1, env);
  }

  lemma FlattenSnoc(blocks: seq<seq<Effect>>, b: seq<Effect>)
    ensures Flatten(blocks + [b]) == Flatten(blocks) + b
  {
    assert (blocks + [b])[..|blocks|] == blocks;
  }

  /** `backup_and_sync` as a whole: load the list (which may raise), then process it. */
  function BackupAndSyncSpec(file: ConfigFile, w: World, base: Path, env: nat -> RepoOracle): RunState {
    match LoadRepositories(file)
    case Err(x) => RunState(w, [], Some(x))
    case Ok(es) => ProcessAll(w, base, es, env)
  }

  /**
   * `r` went through `es` in order, one block per repository, and stopped at the
   * first entry it could not process; it completed exactly when every entry is
   * well formed.
   */
  predicate BlocksFor(r: RunState, es: seq<ConfigEntry>) {
    && |r.blocks| <= |es|
    && (r.raised.None? ==> |r.blocks| == |es|)
    && (r.raised.Some? ==> |r.blocks| < |es| && !WellFormedEntry(es[|r.blocks|]))
    && (forall k :: 0 <= k < |r.blocks| ==> WellFormedEntry(es[k]) && IsRepoBlock(r.blocks[k], es[k]))
    && (r.raised.None? <==> forall k :: 0 <= k < |es| ==> WellFormedEntry(es[k]))
  }

  lemma ContinueBlocks(prev: RunState, base: Path, es: seq<ConfigEntry>, o: RepoOracle)
    requires es != [] && BlocksFor(prev, es[..|es| - 1])
    ensures BlocksFor(Continue(prev, base, es[|es| - 1], o), es)
  {
    var r := Continue(prev, base, es[|es| - 1], o);
    ContinueStep(prev, base, es[|es| - 1], o);
    if prev.raised.None? && WellFormedEntry(es[|es| - 1]) {
      BlocksForAppend(prev, r, es);
    } else {
      BlocksForRaised(prev, r, es);
    }
  }

  lemma BlocksForAppend(prev: RunState, r: RunState, es: seq<ConfigEntry>)
    requires es != [] && BlocksFor(prev, es[..|es| - 1]) && prev.raised.None?
    requires WellFormedEntry(es[|es| - 1]) && r.raised.None?
    requires |r.blocks| == |prev.blocks| + 1 && r.blocks[..|prev.blocks|] == prev.blocks
    requires IsRepoBlock(r.blocks[|prev.blocks|], es[|es| - 1])
    ensures BlocksFor(r, es)
  {
    var front := es[..|es| - 1];
    forall k | 0 <= k < |r.blocks|
      ensures WellFormedEntry(es[k]) && IsRepoBlock(r.blocks[k], es[k])
    {
      if k < |prev.blocks| {
        assert front[k] == es[k] && r.blocks[k] == prev.blocks[k];
      }
    }
    forall k | 0 <= k < |es|
      ensures WellFormedEntry(es[k])
    {
      if k < |front| {
        assert front[k] == es[k];
      }
    }
  }

  lemma BlocksForRaised(prev: RunState, r: RunState, es: seq<ConfigEntry>)
    requires es != [] && BlocksFor(prev, es[..|es| - 1])
    requires prev.raised.Some? || !WellFormedEntry(es[|es| - 1])
    requires r.blocks == prev.blocks && r.raised.Some?
    ensures BlocksFor(r, es)
  {
    var front := es[..|es| - 1];
    forall k | 0 <= k < |r.blocks|
      ensures WellFormedEntry(es[k]) && IsRepoBlock(r.blocks[k], es[k])
    {
      assert front[k] == es[k];
    }
    if prev.raised.Some? {
      var k :| 0 <= k < |front| && !WellFormedEntry(front[k]);
      assert front[k] == es[k];
      assert front[|r.blocks|] == es[|r.blocks|];
    }
  }

  /**
   * The run processes repositories in list order, one block each, and stops at
   * the first entry it cannot process; it completes exactly when every entry
   * is well formed.
   */
  lemma {:induction false} ProcessAllBlocks(w: World, base: Path, es: seq<ConfigEntry>, env: nat -> RepoOracle)
    ensures BlocksFor(ProcessAll(w, base, es, env), es)
  {
    if es != [] {
      ProcessAllBlocks(w, base, es[..|es| - 1], env);
      ContinueBlocks(ProcessAll(w, base, es[..|es| - 1], env), base, es, env(|es| - 1));
    }
  }

  /**
   * Each block of `r` added exactly one row, after the rows of `w` and in list
   * order, carrying the entry's fields, a fresh id and the stamp time; the rows
   * of `w` are unchanged.
   */
  predicate RowsFor(w: World, r: RunState, es: seq<ConfigEntry>, env: nat -> RepoOracle) {
    && |r.blocks| <= |es|
    && |r.world.rows| == |w.rows| + |r.blocks|
    && r.world.rows[..|w.rows|] == w.rows
    && (forall k :: 0 <= k < |r.blocks| ==>
          && WellFormedEntry(es[k])
          && r.world.rows[|w.rows| + k] == RowFor(es[k], AddedId(r.blocks[k]), env(k))
          && AddedId(r.blocks[k]) == NextRowId(r.world.rows[..|w.rows| + k]))
  }

  /** What one iteration adds: nothing once raised or for a malformed entry, else one block and one row. */
  lemma ContinueStep(prev: RunState, base: Path, e: ConfigEntry, o: RepoOracle)
    ensures var r := Continue(prev, base, e, o);
            && (prev.raised.Some? || !WellFormedEntry(e) ==>
                  r.world == prev.world && r.blocks == prev.blocks && r.raised.Some?)
            && (prev.raised.None? && WellFormedEntry(e) ==>
                  && r.raised.None?
                  && |r.blocks| == |prev.blocks| + 1 && r.blocks[..|prev.blocks|] == prev.blocks
                  && IsRepoBlock(r.blocks[|prev.blocks|], e)
                  && AddedId(r.blocks[|prev.blocks|]) == NextRowId(prev.world.rows)
                  && r.world.rows == prev.world.rows + [RowFor(e, NextRowId(prev.world.rows), o)])
  {
    var r := Continue(prev, base, e, o);
    if prev.raised.None? && WellFormedEntry(e) {
      var last := ProcessEntry(prev.world, base, e, o);
      assert r.blocks == prev.blocks + [last.value.effects];
      assert r.blocks[..|prev.blocks|] == prev.blocks;
    }
  }

  lemma RowsForLonger(w: World, r: RunState, es: seq<ConfigEntry>, m: nat, env: nat -> RepoOracle)
    requires m <= |es| && RowsFor(w, r, es[..m], env)
    ensures RowsFor(w, r, es, env)
  {
    forall k | 0 <= k < |r.blocks|
      ensures es[k] == es[..m][k]
    {
    }
  }

  lemma RowsForAppend(w: World, prev: RunState, r: RunState, es: seq<ConfigEntry>, env: nat -> RepoOracle)
    requires es != [] && RowsFor(w, prev, es[..|es| - 1], env) && |prev.blocks| == |es| - 1
    requires WellFormedEntry(es[|es| - 1])
    requires |r.blocks| == |es| && r.blocks[..|es| - 1] == prev.blocks
    requires AddedId(r.blocks[|es| - 1]) == NextRowId(prev.world.rows)
    requires r.world.rows == prev.world.rows + [RowFor(es[|es| - 1], NextRowId(prev.world.rows), env(|es| - 1))]
    ensures RowsFor(w, r, es, env)
  {
    var n := |es| - 1;
    RowsForLonger(w, prev, es, n, env);
    assert r.world.rows[..|w.rows| + n] == prev.world.rows;
    assert r.world.rows[..|w.rows|] == prev.world.rows[..|w.rows|];
    forall k | 0 <= k < |r.blocks|
      ensures && WellFormedEntry(es[k])
              && r.world.rows[|w.rows| + k] == RowFor(es[k], AddedId(r.blocks[k]), env(k))
              && AddedId(r.blocks[k]) == NextRowId(r.world.rows[..|w.rows| + k])
    {
      if k < n {
        assert r.blocks[k] == prev.blocks[k];
        assert r.world.rows[|w.rows| + k] == prev.world.rows[|w.rows| + k];
        assert r.world.rows[..|w.rows| + k] == prev.world.rows[..|w.rows| + k];
      }
    }
  }

  lemma ContinueRows(w: World, prev: RunState, base: Path, es: seq<ConfigEntry>, env: nat -> RepoOracle)
    requires es != [] && BlocksFor(prev, es[..|es| - 1]) && RowsFor(w, prev, es[..|es| - 1], env)
    ensures RowsFor(w, Continue(prev, base, es[|es| - 1], env(|es| - 1)), es, env)
  {
    var r := Continue(prev, base, es[|es| - 1], env(|es| - 1));
    ContinueStep(prev, base, es[|es| - 1], env(|es| - 1));
    if prev.raised.None? && WellFormedEntry(es[|es| - 1]) {
      RowsForAppend(w, prev, r, es, env);
    } else {
      RowsForLonger(w, r, es, |es| - 1, env);
    }
  }

  /**
   * Each processed repository adds exactly one row, after the existing ones and
   * in list order, carrying the entry's fields, a fresh id and the stamp time;
   * the rows that were there before do not change.
   */
  lemma {:induction false} ProcessAllRows(w: World, base: Path, es: seq<ConfigEntry>, env: nat -> RepoOracle)
    ensures RowsFor(w, ProcessAll(w, base, es, env), es, env)
  {
    if es != [] {
      ProcessAllRows(w, base, es[..|es| - 1], env);
      ProcessAllBlocks(w, base, es[..|es| - 1], env);
      ContinueRows(w, ProcessAll(w, base, es[..|es| - 1], env), base, es, env);
    } else {
      assert w.rows[..|w.rows|] == w.rows;
    }
  }

  /** Row ids keep ascending, so stay unique, across a run, however many repositories share a name, url or path. */
  lemma {:induction false} ProcessAllKeepsIdsAscending(w: World, base: Path, es: seq<ConfigEntry>, env: nat -> RepoOracle)
    requires IdsAscending(w.rows)
    ensures IdsAscending(ProcessAll(w, base, es, env).world.rows)
  {
    if es != [] {
      var prev := ProcessAll(w, base, es[..|es| - 1], env);
      ProcessAllKeepsIdsAscending(w, base, es[..|es| - 1], env);
      ContinueStep(prev, base, es[|es| - 1], env(|es| - 1));
      if prev.raised.None? && WellFormedEntry(es[|es| - 1]) {
        var rows := prev.world.rows;
        var added := RowFor(es[|es| - 1], NextRowId(rows), env(|es| - 1));
        AscendingAppend(rows, added);
      }
    }
  }

  /** Once the run has raised, later entries change nothing. */
  lemma {:induction false} ProcessAllStops(w: World, base: Path, es: seq<ConfigEntry>, n: nat, env: nat -> RepoOracle)
    requires n <= |es|
    requires ProcessAll(w, base, es[..n], env).raised.Some?
    ensures ProcessAll(w, base, es, env) == ProcessAll(w, base, es[..n], env)
  {
    if n < |es| {
      assert es[..|es| - 1][..n] == es[..n];
      ProcessAllStops(w, base, es[..|es| - 1], n, env);
    } else {
      assert es[..n] == es;
    }
  }

  /** A missing or unreadable configuration, or an empty list, leaves everything as it was. */
  lemma NoRepositoriesNoEffects(file: ConfigFile, w: World, base: Path, env: nat -> RepoOracle)
    requires LoadRepositories(file) == Ok([])
    ensures BackupAndSyncSpec(file, w, base, env) == RunState(w, [], None)
  {
  }

  /** A configuration written by `interactive_setup` is processed to the end, one block per entry. */
  lemma SetupConfigCompletes(lines: seq<string>, w: World, base: Path, env: nat -> RepoOracle)
    requires Setup(lines).Ok?
    ensures var r := BackupAndSyncSpec(Json(Some(Setup(lines).value)), w, base, env);
            r.raised.None? && |r.blocks| == |Setup(lines).value|
  {
    var es := Setup(lines).value;
    SetupEntriesWellFormed(lines);
    assert forall k :: 0 <= k < |es| ==> es[k] in es;
    ProcessAllBlocks(w, base, es, env);
  }

  /** The list `interactive_setup` has collected so far, prepended to what the remaining lines give. */
  function Prepend(acc: seq<ConfigEntry>, r: Result<seq<ConfigEntry>>): Result<seq<ConfigEntry>> {
    match r
    case Ok(es) => Ok(acc + es)
    case Err(x) => Err(x)
  }

  lemma PrependTwice(a: seq<ConfigEntry>, b: seq<ConfigEntry>, r: Result<seq<ConfigEntry>>)
    ensures Prepend(a, Prepend(b, r)) == Prepend(a + b, r)
  {
    if r.Ok? {
      assert a + (b + r.value) == (a + b) + r.value;
    }
  }

  class GitHubBackupTool {
    var configFile: ConfigFile
    const db: RepositoryDatabase
    const gitSync: GitRepositorySync
    const disk: Disk

    ghost predicate Valid()
      reads this, db
    {
      db.Valid() && gitSync.disk == disk
    }

    /**
     * Opens the store (`stored` is the table already on disk, if any) and the
     * syncer with its default backup directory; when there is no configuration
     * file yet, runs the interactive setup on `answers`.
     */
    constructor (configFile: ConfigFile, stored: Option<seq<Row>>, disk: Disk, answers: seq<string>)
      requires stored.Some? ==> IdsAscending(stored.value)
      modifies disk
      ensures Valid() && db.open && fresh(db) && fresh(gitSync)
      ensures this.disk == disk
      ensures db.rows == TableOnOpen(stored)
      ensures gitSync.baseBackupDir == "temp_backups"
      ensures disk.dirs == Made(old(disk.dirs), "temp_backups")
      ensures this.configFile == if configFile.Missing? && Setup(answers).Ok?
                                 then Json(Some(Setup(answers).value)) else configFile
    {
      this.configFile := configFile;
      this.disk := disk;
      db := new RepositoryDatabase(stored);
      gitSync := new GitRepositorySync(disk);
      new;
      if configFile.Missing? {
        var raised := InteractiveSetup(answers);
      }
    }

    method InteractiveSetup(lines: seq<string>) returns (raised: Option<Failure>)
      modifies this
      ensures Setup(lines).Ok? ==> raised == None && configFile == Json(Some(Setup(lines).value))
      ensures Setup(lines).Err? ==> raised == Some(EOFError) && configFile == old(configFile)
    {
      var repositories: seq<ConfigEntry> := [];
      var next := 0;
      assert lines[next..] == lines;
      assert Setup(lines).Ok? ==> [] + Setup(lines).value == Setup(lines).value;
      while true
        invariant 0 <= next <= |lines|
        invariant Setup(lines) == Prepend(repositories, Setup(lines[next..]))
        invariant configFile == old(configFile)
        decreases |lines| - next
      {
        if |lines| - next < 4 {
          return Some(EOFError);
        }
        var name := Strip(lines[next]);
        var url := Strip(lines[next + 1]);
        var localPath := Strip(lines[next + 2]);
        if localPath == "" {
          localPath := Join("repos", name);
        }
        var entry := map["name" := name, "url" := url, "local_path" := localPath];
        assert entry == EntryFromAnswers(lines[next], lines[next + 1], lines[next + 2]);
        var addMore := Lower(lines[next + 3]);
        SetupStep(lines, next);
        if addMore == "y" {
          PrependTwice(repositories, [entry], Setup(lines[next + 4..]));
        }
        repositories := repositories + [entry];
        next := next + 4;
        if addMore != "y" {
          break;
        }
      }
      configFile := Json(Some(repositories));
      raised := None;
    }

    /**
     * The body of the loop in `backup_and_sync` once the entry's keys have been
     * read: create the directory, clone when no checkout is there, sync, back
     * up, record the repository and stamp its row.
     */
    method ProcessRepository(name: string, url: string, localPath: Path, o: RepoOracle) returns (effects: seq<Effect>)
      requires Valid() && db.open && localPath != ""
      modifies db, disk
      ensures Valid() && db.open
      ensures var g := RepoGitWork(old(disk.dirs), gitSync.baseBackupDir, name, url, localPath, o);
              var id := NextRowId(old(db.rows));
              var time := IsoFormat(o.stampTime);
              && disk.dirs == g.dirs
              && db.rows == Stamped(Inserted(old(db.rows), name, url, localPath), id, time)
              && effects == RepoBlock(name, url, localPath, g.clone, g.sync, g.backupPath, id, time)
    {
      ghost var g := RepoGitWork(disk.dirs, gitSync.baseBackupDir, name, url, localPath, o);
      disk.MakeDirs(localPath);
      effects := [MakeDirs(localPath)];
      var clone := None;
      if !(localPath in disk.dirs && ".git" in disk.dirs[localPath]) {
        var ok := gitSync.CloneRepository(url, localPath, o.clone);
        effects := [MakeDirs(localPath), Clone(url, localPath, ok)];
        clone := Some(ok);
      }
      assert clone == g.clone;
      var syncResult := gitSync.SyncRepository(localPath, o.remote, o.syncTime);
      assert syncResult == g.sync;
      var backupPath := gitSync.BackupRepository(localPath, name, o.backupTime);
      assert disk.dirs == g.dirs && backupPath == g.backupPath;
      var repoId := db.AddRepository(name, url, localPath);
      var time := IsoFormat(o.stampTime);
      db.UpdateLastSync(repoId, time);
      effects := effects + [Sync(localPath, syncResult), Backup(localPath, name, backupPath),
                            AddRepository(name, url, localPath, repoId), UpdateLastSync(repoId, time)];
      assert effects == RepoBlock(name, url, localPath, g.clone, g.sync, g.backupPath, repoId, time);
    }

    method BackupAndSync(env: nat -> RepoOracle) returns (raised: Option<Failure>, trace: seq<Effect>)
      requires Valid() && db.open
      modifies db, disk
      ensures Valid() && db.open
      ensures var r := BackupAndSyncSpec(configFile, World(old(disk.dirs), old(db.rows)),
                                         gitSync.baseBackupDir, env);
              disk.dirs == r.world.dirs && db.rows == r.world.rows
              && trace == Flatten(r.blocks) && raised == r.raised
    {
      ghost var w0 := World(disk.dirs, db.rows);
      var base := gitSync.baseBackupDir;
      var loaded := LoadRepositories(configFile);
      if loaded.Err? {
        return Some(loaded.error), [];
      }
      var repositories := loaded.value;
      if repositories == [] {
        return None, [];
      }
      trace := [];
      ghost var blocks: seq<seq<Effect>> := [];
      for i := 0 to |repositories|
        invariant Valid() && db.open
        invariant ProcessAll(w0, base, repositories[..i], env) == RunState(World(disk.dirs, db.rows), blocks, None)
        invariant trace == Flatten(blocks)
      {
        var entry := repositories[i];
        var o := env(i);
        ghost var before := World(disk.dirs, db.rows);
        if "name" !in entry || "url" !in entry || "local_path" !in entry || entry["local_path"] == "" {
          raised := Some(if "name" !in entry then KeyError("name")
                         else if "url" !in entry then KeyError("url")
                         else if "local_path" !in entry then KeyError("local_path")
                         else FileNotFoundError(""));
          assert ProcessEntry(before, base, entry, o) == Err(raised.value);
          ProcessAllErr(w0, base, repositories, i, env, raised.value);
          return;
        }
        var effects := ProcessRepository(entry["name"], entry["url"], entry["local_path"], o);
        EntryStep(before, base, entry, o, disk.dirs, db.rows, effects);
        ProcessAllOk(w0, base, repositories, i, env, blocks, Step(World(disk.dirs, db.rows), effects));
        FlattenSnoc(blocks, effects);
        trace := trace + effects;
        blocks := blocks + [effects];
      }
      assert repositories[..|repositories|] == repositories;
      raised := None;
    }

    /** `run`: the run's exception, if any, is reported and dropped, and the store is closed either way. */
    method Run(env: nat -> RepoOracle) returns (trace: seq<Effect>)
      requires Valid() && db.open
      modifies db, disk
      ensures Valid() && !db.open
      ensures var r := BackupAndSyncSpec(configFile, World(old(disk.dirs), old(db.rows)),
                                         gitSync.baseBackupDir, env);
              disk.dirs == r.world.dirs && db.rows == r.world.rows && trace == Flatten(r.blocks)
    {
      var raised;
      raised, trace := BackupAndSync(env);
      db.Close();
    }
  }
}
