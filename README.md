# RepoGuardian core, modelled in Dafny

RepoGuardian keeps local backups of a list of git repositories. A JSON file
names each repository (`name`, `url`, `local_path`). One run of the tool
walks that list in order. For each repository it creates the local
directory, clones the repository when no checkout is there, fetches and
pulls `origin`, copies the checkout to a time-stamped directory under
`temp_backups`, and records the repository in a SQLite table together with
the time of the run. When the configuration file is missing, the tool asks
for the repositories on the terminal and writes the file.

The model has seven modules:

- `Common`: `Option`, `Result` and the Python exceptions that escape
  (`KeyError`, `FileNotFoundError`, `EOFError`).
- `Clock`: clock readings and the two text forms the program writes,
  `isoformat()` and `%Y%m%d_%H%M%S`. Both are proved to read back.
- `FileSystem`: directories as a map from path to contents, `os.path.join`,
  `os.makedirs(exist_ok=True)`, and a `Disk` class whose methods are
  `makedirs`, `rmtree`, `copytree` and "git wrote these files".
- `Database`: the `repositories` table as the class `RepositoryDatabase`
  over a sequence of rows in ascending rowid, the order in which SQLite
  stores and scans a rowid table. Pure functions give the effect of
  each SQL statement.
- `GitSync`: the class `GitRepositorySync` over a `Disk`. Each method is
  proved equal to a function of the old directory map. Git's answers (clone
  result, whether `origin` exists, fetch and pull results, branch, head
  commit) are parameters.
- `Config`: `load_repositories` over the possible file contents, `strip`,
  `lower`, and `Setup`, the list that the question-and-answer loop builds
  from the typed lines.
- `BackupTool`: the class `GitHubBackupTool`. `BackupAndSync` is a loop
  proved equal to `ProcessAll`, a left fold of `ProcessEntry` over the list.
  The run also returns the ordered trace of effects it issued (make
  directory, clone, sync, backup, insert, stamp). `InteractiveSetup` is a
  loop proved equal to `Setup`.

The code has no retries, URL validation, worker pool, backup pruning or
cancellation. `add_repository` always inserts a new row, so every run adds
one more row per repository; `InsertTwiceKeepsBoth` and `ProcessAllRows`
state this. One test constructs the tool with an `interactive_setup=False`
argument that the constructor does not accept; the model follows the
constructor.

## Model

| member | source | states |
|---|---|---|
| Database.RepositoryDatabase.constructor | src/database.py:6-30 | `CREATE TABLE IF NOT EXISTS`: an existing table keeps its rows, a new one starts empty; the connection is open and ids ascend along the table |
| Database.RepositoryDatabase.AddRepository | src/database.py:32-49 | appends one active row with no `last_sync` and returns its id, which no stored row has; it never updates an existing row |
| Database.RepositoryDatabase.GetRepositories | src/database.py:51-67 | returns `Selected` of the table, whose ids ascend (rowid order); a row is returned exactly when it is stored and, with the default filter, active |
| Database.RepositoryDatabase.UpdateLastSync | src/database.py:69-82 | the table after `UPDATE ... WHERE id = ?`; ids stay ascending |
| Database.RepositoryDatabase.Close | src/database.py:84-86 | the connection is closed and the rows are kept |
| Database.NextRowId | src/database.py:44-49 | the rowid SQLite gives an insert: larger than every stored id, not in use, and 1 in an empty table |
| Database.Inserted | src/database.py:44-47 | the insert keeps every earlier row, adds one row at the end with the given fields and the next id, and keeps ids ascending |
| Database.Stamped | src/database.py:77-81 | same length; a row gets the new `last_sync` exactly when its id matches, all other fields unchanged |
| Database.StampedTouchesOnlyTarget | src/database.py:77-81 | an id no row has changes nothing; ascending ids stay ascending |
| Database.StampNewest | src/main.py:111-112 | stamping the id an insert just returned changes only the new row |
| Database.SelectedMembers | src/database.py:61-67 | membership of the query result: stored and, under the filter, active |
| Database.SelectedAppend | src/database.py:61-67 | the query keeps row order: selecting from a concatenation is the concatenation of the selections |
| Database.SelectedAll | src/database.py:61-65 | without the filter every row comes back, in order |
| Database.SelectedAscending | src/database.py:61-67 | the result of either query keeps ascending rowid order |
| Database.SelectedActive | src/database.py:61-67 | rows are added active (`is_active DEFAULT 1`), so while none is deactivated the filtered query returns the whole table |
| Database.AscendingAppend | src/database.py:44-49 | a row with the next id can go at the end without breaking rowid order |
| Database.TableOnOpen | src/database.py:20-29 | definition: the stored table when there is one, else the empty table |
| Database.Selected | src/database.py:61-67 | definition: the stored rows, in table order, that pass the optional `is_active = 1` filter; never more rows than are stored |
| Database.TwoInsertsScenario | tests/test_database.py:44-76 | two repositories added to a fresh store get ids 1 and 2 and come back as `Repo1` then `Repo2`, both active; stamping the first sets its `last_sync` and leaves the second `NULL` |
| Database.InsertTwiceKeepsBoth | src/database.py:44-47 | adding the same repository twice gives two rows with the same fields and different ids |
| GitSync.GitRepositorySync.constructor | src/git_sync.py:7-15 | the backup base directory exists afterwards; nothing else changes |
| GitSync.GitRepositorySync.CloneRepository | src/git_sync.py:17-46 | the directory map and the answer are those of `CloneEffect` |
| GitSync.CloneEffect | src/git_sync.py:28-46 | only `local_path` changes; True exactly for a non-empty path and a clone that succeeds; on success the path holds the clone, on failure the path is gone |
| GitSync.CloneIgnoresPriorContent | src/git_sync.py:29-35 | clean slate: what was at the path before the clone never affects the result |
| GitSync.GitWritten | src/git_sync.py:38-67 | definition: a tree that `clone_from` or `pull` writes holds the `.git` directory |
| GitSync.Status | src/git_sync.py:69-80 | definition: the record's `status` is `success` for a success record and `failed` otherwise |
| GitSync.Keys | src/git_sync.py:69-80 | definition: a success record has `status`, `timestamp`, `branch` and `latest_commit`; a failed one `status` and `error` |
| GitSync.GitRepositorySync.SyncRepository | src/git_sync.py:48-80 | the directory map and the record are those of `SyncEffect` |
| GitSync.SyncEffect | src/git_sync.py:58-80 | success exactly when there is a checkout, an `origin`, fetch and pull succeed and HEAD is on a branch with a commit; the success record carries `isoformat()` of the clock, the branch and the commit; the working tree becomes the tree the pull left exactly when the pull ran, whether it succeeded or raised (a merge that stops on conflicts has already written its files); the record has the success keys or `status`/`error` |
| GitSync.GitRepositorySync.BackupRepository | src/git_sync.py:82-103 | the directory map and the returned path are those of `BackupEffect` |
| GitSync.BackupEffect | src/git_sync.py:93-103 | a non-empty answer exactly when the source exists and the stamped name is free; then the stamped name holds a copy of the source; otherwise nothing changes and the answer is "" |
| GitSync.BackupPath | src/git_sync.py:93-94 | the backup name ends in `_` and the 15-character stamp of the clock reading |
| GitSync.BackupPathShape | src/git_sync.py:94 | under a base without a trailing separator, the name is `base/<repo>_<stamp>` |
| GitSync.BackupPathStamp | src/git_sync.py:93-94 | the stamp at the end of a backup name reads back as the clock reading without its microseconds |
| GitSync.SameSecondBackupFails | src/git_sync.py:93-103 | a second backup of the same repository in the same second finds its name taken and returns "" |
| Clock.CompactStamp | src/git_sync.py:93 | `%Y%m%d_%H%M%S` is 15 characters: eight digits, `_`, six digits |
| Clock.ParseDigitsOfDigits | src/git_sync.py:93 | a zero-padded field reads back as its number |
| Clock.CompactStampRoundTrip | src/git_sync.py:93 | the stamp keeps everything but the sub-second part of the reading |
| Clock.CompactStampSameSecond | src/git_sync.py:93 | two readings give the same stamp exactly when they fall in the same second |
| Clock.IsoSeconds | src/git_sync.py:71 | the `YYYY-MM-DDTHH:MM:SS` part of `isoformat()` is 19 characters with its separators in place |
| Clock.IsoSecondsRoundTrip | src/git_sync.py:71 | that part reads back as the reading without its microseconds |
| Clock.IsoFormat | src/git_sync.py:71 | `isoformat()` is 19 characters, or 26 with `.ffffff` when the microsecond is not zero, with its separators in place |
| Clock.IsoFormatRoundTrip | src/main.py:112 | the `last_sync` text loses nothing: it reads back as the whole reading |
| FileSystem.Join | src/main.py:43 | `os.path.join`: the result ends with the second part; an absolute second part replaces the first; otherwise one `/` is put between them |
| FileSystem.HasCheckout | src/main.py:98 | definition: `os.path.exists(os.path.join(path, '.git'))` |
| FileSystem.Made | src/main.py:95 | `os.makedirs(exist_ok=True)`: the path exists afterwards, an existing directory is kept, a new one is empty, and no other path changes |
| FileSystem.Disk.MakeDirs | src/main.py:95 | the directory map becomes `Made` of the old one |
| FileSystem.Disk.RmTree | src/git_sync.py:32 | the path is removed and nothing else changes |
| FileSystem.Disk.CopyTree | src/git_sync.py:99 | the copy succeeds exactly when the source exists and the destination does not; then the destination holds the source's contents |
| Config.LoadRepositories | src/main.py:62-77 | a missing or unparsable file gives `[]`; a file without `repositories` raises `KeyError`; otherwise the list as stored |
| Config.IsSpace | src/main.py:38-40 | definition: Python's white space characters for `str.strip` (space, `\t`, `\n`, `\r`, `\x0b`, `\x0c`, `\x1c`-`\x1f`, `\x85`, and the Unicode spaces) |
| Config.TrimStart | src/main.py:38-40 | definition: `lstrip()`, dropping leading white space |
| Config.TrimEnd | src/main.py:38-40 | definition: `rstrip()`, dropping trailing white space |
| Config.Strip | src/main.py:38-40 | definition: `strip()` as `rstrip` of `lstrip` |
| Config.TrimStartSuffix | src/main.py:38-40 | `lstrip` removes exactly the leading white space |
| Config.TrimEndPrefix | src/main.py:38-40 | `rstrip` removes exactly the trailing white space |
| Config.StripSlice | src/main.py:38-40 | `strip` keeps one slice of the input with no white space at either end, and every removed character is white space |
| Config.Lower | src/main.py:51 | `lower` keeps the length and maps each character on its own |
| Config.AddsAnother | src/main.py:51-52 | definition: the lower-cased answer equals `y` |
| Config.AddsAnotherExactly | src/main.py:51-53 | the loop continues exactly on the answers "y" and "Y": the answer is lower-cased but not stripped |
| Config.WellFormedEntry | src/main.py:90-95 | definition: the entry has `name`, `url` and `local_path`, and the path is not empty (`makedirs('')` raises) |
| Config.EntryFromAnswers | src/main.py:38-49 | definition: the entry one round builds from its three answers |
| Config.Setup | src/main.py:35-58 | definition: the rounds of four lines up to the first answer that is not "y"; too few lines left for a round is `EOFError` |
| Config.EntryFromAnswersFields | src/main.py:38-49 | the entry has exactly the three keys, the stripped name and url, and the stripped path or `repos/<name>` when that is empty; the path is never empty |
| Config.SetupStep | src/main.py:36-53 | one round reads four lines; a "y" goes on to the next round, any other answer ends the list |
| Config.SetupSaved | src/main.py:35-58 | the saved list has one entry per round, in order, up to and including the first round not answered "y" |
| Config.SetupRaisesOnlyAtEnd | src/main.py:36-53 | the setup raises `EOFError` exactly when every complete round was answered "y" |
| Config.SetupEntriesWellFormed | src/main.py:42-49 | every saved entry has the three keys and a non-empty path |
| Config.SetupOneRepository | tests/test_main.py:49-64 | the answers `test-repo`, a url, an empty path and "n" save one entry with path `repos/test-repo` |
| BackupTool.RepoBlock | src/main.py:94-112 | one repository's effects in order: make the directory, clone only when asked, sync, back up, insert, stamp the inserted id |
| BackupTool.RepoGitWork | src/main.py:95-108 | a clone is issued exactly when the directory holds no `.git` |
| BackupTool.RepoGitWorkLeavesCheckout | src/main.py:95-108 | when git writes checkouts, an iteration that had a checkout or cloned one leaves a checkout, so the next run over that path issues no clone |
| BackupTool.FailedCloneSkipsSyncAndBackup | src/main.py:98-108 | after a failed clone the sync finds no path and the backup returns "" |
| BackupTool.ProcessEntry | src/main.py:90-112 | a missing key raises `KeyError` in the order name, url, local_path; an empty path raises; otherwise the block has the right shape, clones exactly when there was no checkout, and adds exactly one stamped row with the next id |
| BackupTool.Continue | src/main.py:89-112 | definition: one iteration after a given state; nothing happens once an exception was raised, a failing entry records its exception, otherwise its block and new state are added |
| BackupTool.ProcessAll | src/main.py:89-116 | definition: the loop as a left fold of `Continue` over the list, the `i`-th entry seeing `env(i)` |
| BackupTool.BackupAndSyncSpec | src/main.py:79-116 | definition: load the list, raising what loading raises, then `ProcessAll` over it |
| BackupTool.ContinueStep | src/main.py:89-112 | after an exception or for a bad entry nothing changes; otherwise one block and one row are added |
| BackupTool.ProcessAllBlocks | src/main.py:89-116 | repositories are processed in list order, one block each; the run stops at the first bad entry; it completes exactly when every entry is well formed |
| BackupTool.ProcessAllRows | src/main.py:89-112 | each processed repository adds one row after the existing rows, in list order, with its fields, a fresh id and its stamp time; earlier rows are unchanged |
| BackupTool.ProcessAllKeepsIdsAscending | src/main.py:111 | ids stay ascending, hence unique, over a whole run, even when repositories repeat |
| BackupTool.ProcessAllStops | src/main.py:89-92 | once an exception is raised, later entries change nothing |
| BackupTool.NoRepositoriesNoEffects | src/main.py:83-87 | an empty or unreadable list changes nothing and issues no effect |
| BackupTool.SetupConfigCompletes | src/main.py:45-49 | a configuration written by the setup is processed to the end, one block per entry |
| BackupTool.GitHubBackupTool.constructor | src/main.py:10-26 | the store is open, the backup base exists, and a missing configuration is replaced by what the setup saves |
| BackupTool.GitHubBackupTool.InteractiveSetup | src/main.py:28-60 | the saved configuration is `Setup` of the typed lines; on `EOFError` nothing is saved |
| BackupTool.GitHubBackupTool.ProcessRepository | src/main.py:94-112 | one iteration changes the directories, the table and the trace as `RepoGitWork`, `Stamped(Inserted(...))` and `RepoBlock` say |
| BackupTool.GitHubBackupTool.BackupAndSync | src/main.py:79-116 | the directories, the table, the trace and the raised exception are those of the fold `ProcessAll` over the loaded list |
| BackupTool.GitHubBackupTool.Run | src/main.py:118-127 | same effects as `BackupAndSync`; the exception is swallowed and the store is closed in every case |

## Left out

- Printing, `input()` prompts and `argparse` in `main`: the typed lines are a sequence parameter and the printed text is not modelled.
- `src/logger.py`, `setup.py` and `create_dirs.py`: not part of this model.
- The clock: every `datetime.now()` reading is a parameter, one per call that reads it (sync, backup, stamp).
- Git itself: clone, fetch and pull outcomes, the branch and the head commit are parameters. Exception texts become the causes in `SyncError`. Changes that fetch makes inside `.git` are not modelled. `GitWritten` (every tree git writes holds `.git`) is required only by `RepoGitWorkLeavesCheckout`; the other members accept any tree git reports.
- SQLite internals: transactions, commits, column types, and the random rowid SQLite picks once the largest rowid is 2^63-1.
- Database.RepositoryDatabase.constructor: requires the stored table to be in ascending rowid with no id twice, which a rowid table (`INTEGER PRIMARY KEY`) guarantees; the `makedirs` of the database directory is not modelled.
- Database.RepositoryDatabase.AddRepository: calls on a closed connection raise `sqlite3.ProgrammingError` in Python; the model requires an open store instead (as do `GetRepositories` and `UpdateLastSync`).
- GitSync.GitRepositorySync.constructor: requires a non-empty base directory; with `''` Python's `makedirs` raises and construction fails.
- GitSync.SyncEffect: a sync on the empty path is modelled as "no such path"; GitPython would open the current directory instead. `backup_and_sync` never reaches that call because `makedirs('')` raises first.
- FileSystem: paths are plain strings with no normalisation, no nesting between directory keys, and no regular files at directory paths; I/O errors in the middle of a copy or a clone are not modelled.
- Clock: years outside 1000..9999 are not modelled, and day-of-month validity is not checked.
- Config.Lower: only ASCII letters are lower-cased. This makes no difference to the "y" comparison.
- JSON: the configuration file is modelled as its parsed value, so the text `json.dump` writes and `json.load` reads back is not modelled. Only a missing file, an unparsable file, and an object with an optional list of string-valued objects are modelled.
- BackupTool.GitHubBackupTool.constructor: the `makedirs` of the configuration directory is not modelled. An `EOFError` raised by the setup during construction leaves the configuration missing instead of failing the construction.
- BackupTool.GitHubBackupTool.BackupAndSync: requires an open store, which holds after construction and before `Run` closes it.
- BackupTool.GitHubBackupTool.Run: the message printed for a caught exception is not modelled.
