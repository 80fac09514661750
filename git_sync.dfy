/**
 * `GitRepositorySync`: clone, sync (fetch then pull) and back up one
 * repository over the abstract filesystem. What git itself does is not
 * modelled: each call takes the outcome the git client would report.
 */
module GitSync {

  import opened Common
  import opened Clock
  import opened FileSystem

  /** What `git.Repo.clone_from` does: writes a checkout, or raises. */
  datatype CloneOutcome = Cloned(checkout: Tree) | CloneFailed

  datatype FetchOutcome = Fetched | FetchFailed(message: string)

  /**
   * What `origin.pull()` does: leaves a new working tree, or raises. A pull
   * whose merge step stops on conflicts raises after it has already written
   * the conflicted files, so a failed pull also carries the tree it left.
   */
  datatype PullOutcome = Pulled(tree: Tree) | PullFailed(message: string, tree: Tree)

  /**
   * What the git client reports for one repository: whether a remote named
   * `origin` exists, the fetch and pull outcomes, the active branch (`None`
   * for a detached HEAD) and the head commit (`None` in a repository with no commit).
   */
  datatype Remote = Remote(hasOrigin: bool, fetch: FetchOutcome, pull: PullOutcome,
                           branch: Option<string>, commit: Option<string>)

  /** A tree git writes is a checkout: it holds the `.git` directory. */
  predicate GitWritten(clone: CloneOutcome, remote: Remote) {
    && (clone.Cloned? ==> ".git" in clone.checkout)
    && ".git" in remote.pull.tree
  }

  /** The exception `sync_repository` caught, by cause. */
  datatype SyncError =
    | NoSuchPath | InvalidRepository | NoOrigin
    | FetchError(message: string) | PullError(message: string)
    | DetachedHead | NoCommits

  /** The dictionary `sync_repository` returns. */
  datatype SyncResult =
    | SyncSuccess(timestamp: string, branch: string, latestCommit: string)
    | SyncFailed(error: SyncError)

  /** The dictionary's `status` value. */
  function Status(r: SyncResult): string {
    if r.SyncSuccess? then "success" else "failed"
  }

  /** The dictionary's keys. */
  function Keys(r: SyncResult): set<string> {
    if r.SyncSuccess? then {"status", "timestamp", "branch", "latest_commit"} else {"status", "error"}
  }

  datatype Cloning = Cloning(dirs: Dirs, ok: bool)
  datatype Syncing = Syncing(dirs: Dirs, result: SyncResult)
  datatype Backing = Backing(dirs: Dirs, backupPath: string)

  /**
   * `clone_repository`: wipe whatever is at `path`, recreate it, clone into it,
   * and wipe it again if the clone raises. The empty path makes `os.makedirs`
   * raise, which is caught: nothing changes and the answer is False.
   */
  function CloneEffect(dirs: Dirs, path: Path, outcome: CloneOutcome): (r: Cloning)
    ensures r.dirs - {path} == dirs - {path}
    ensures r.ok <==> path != "" && outcome.Cloned?
    ensures r.ok ==> path in r.dirs && r.dirs[path] == outcome.checkout
    ensures !r.ok && path != "" ==> path !in r.dirs
    ensures path == "" ==> r.dirs == dirs
  {
    if path == "" then Cloning(dirs, false)
    else match outcome
      case Cloned(checkout) => Cloning(dirs[path := checkout], true)
      case CloneFailed => Cloning(dirs - {path}, false)
  }

  /** Clean slate: what was at `path` before the clone never shows in the result. */
  lemma CloneIgnoresPriorContent(d1: Dirs, d2: Dirs, path: Path, outcome: CloneOutcome)
    requires d1 - {path} == d2 - {path}
    requires path == "" ==> d1 == d2
    ensures CloneEffect(d1, path, outcome) == CloneEffect(d2, path, outcome)
  {
    if path != "" && outcome.Cloned? {
      var m1, m2 := d1[path := outcome.checkout], d2[path := outcome.checkout];
      forall k | k != path
        ensures (k in m1 <==> k in m2) && (k in m1 ==> m1[k] == m2[k])
      {
        assert (k in d1 - {path}) == (k in d1);
        assert (k in d2 - {path}) == (k in d2);
        if k in d1 {
          assert (d1 - {path})[k] == d2[k];
        }
      }
      assert m1 == m2;
    }
  }

  /**
   * `sync_repository`: open the repository, fetch `origin`, pull, then read the
   * clock, the active branch and the head commit. Every failure becomes a
   * failed record; a pull that ran has changed the working tree, even when it
   * raised or a later step fails.
   */
  function SyncEffect(dirs: Dirs, path: Path, remote: Remote, now: Instant): (r: Syncing)
    ensures r.result.SyncSuccess? <==>
              && HasCheckout(dirs, path) && remote.hasOrigin && remote.fetch.Fetched?
              && remote.pull.Pulled? && remote.branch.Some? && remote.commit.Some?
    ensures r.result.SyncSuccess? ==>
              r.result == SyncSuccess(IsoFormat(now), remote.branch.value, remote.commit.value)
    ensures r.dirs == if HasCheckout(dirs, path) && remote.hasOrigin && remote.fetch.Fetched?
                      then dirs[path := remote.pull.tree] else dirs
    ensures remote.fetch.FetchFailed? && HasCheckout(dirs, path) && remote.hasOrigin ==>
              r.result == SyncFailed(FetchError(remote.fetch.message))
    ensures Status(r.result) in {"success", "failed"}
    ensures Keys(r.result) == {"status", "timestamp", "branch", "latest_commit"}
            || Keys(r.result) == {"status", "error"}
  {
    if path !in dirs then Syncing(dirs, SyncFailed(NoSuchPath))
    else if ".git" !in dirs[path] then Syncing(dirs, SyncFailed(InvalidRepository))
    else if !remote.hasOrigin then Syncing(dirs, SyncFailed(NoOrigin))
    else match remote.fetch
      case FetchFailed(m) => Syncing(dirs, SyncFailed(FetchError(m)))
      case Fetched =>
        match remote.pull
        case PullFailed(m, tree) => Syncing(dirs[path := tree], SyncFailed(PullError(m)))
        case Pulled(tree) =>
          var pulled := dirs[path := tree];
          if remote.branch.None? then Syncing(pulled, SyncFailed(DetachedHead))
          else if remote.commit.None? then Syncing(pulled, SyncFailed(NoCommits))
          else Syncing(pulled, SyncSuccess(IsoFormat(now), remote.branch.value, remote.commit.value))
  }

  /** `os.path.join(base, f"{repo_name}_{timestamp}")` with the `%Y%m%d_%H%M%S` stamp. */
  function BackupPath(base: Path, repoName: string, now: Instant): (p: Path)
    ensures |p| >= 16
    ensures p[|p| - 15..] == CompactStamp(now) && p[|p| - 16] == '_'
  {
    var leaf := repoName + "_" + CompactStamp(now);
    assert leaf[|leaf| - 15..] == CompactStamp(now);
    Join(base, leaf)
  }

  /** A relative name under a base without a trailing separator lands directly below the base. */
  lemma BackupPathShape(base: Path, repoName: string, now: Instant)
    requires base != "" && base[|base| - 1] != '/'
    requires repoName == "" || repoName[0] != '/'
    ensures BackupPath(base, repoName, now) == base + "/" + repoName + "_" + CompactStamp(now)
  {
  }

  /** The stamp at the end of a backup's name reads back as the backup's clock reading, to the second. */
  lemma BackupPathStamp(base: Path, repoName: string, now: Instant)
    ensures var p := BackupPath(base, repoName, now);
            ParseCompactStamp(p[|p| - 15..]) == Some(now.(microsecond := 0))
  {
    CompactStampRoundTrip(now);
  }

  /**
   * `backup_repository`: copy the checkout to its stamped name and return that
   * name, or return "" when the copy raises (missing source, existing destination).
   */
  function BackupEffect(dirs: Dirs, base: Path, path: Path, repoName: string, now: Instant): (r: Backing)
    ensures r.backupPath != "" <==> path != "" && path in dirs && BackupPath(base, repoName, now) !in dirs
    ensures r.backupPath != "" ==>
              r.backupPath == BackupPath(base, repoName, now)
              && r.dirs == dirs[r.backupPath := dirs[path]]
    ensures r.backupPath == "" ==> r.dirs == dirs
  {
    var dest := BackupPath(base, repoName, now);
    if path != "" && path in dirs && dest !in dirs then Backing(dirs[dest := dirs[path]], dest)
    else Backing(dirs, "")
  }

  /** A second backup of the same repository within the same second finds its name taken and fails. */
  lemma SameSecondBackupFails(dirs: Dirs, base: Path, path: Path, repoName: string,
                              first: Instant, second: Instant)
    requires path != "" && path in dirs
    requires first.(microsecond := 0) == second.(microsecond := 0)
    requires BackupPath(base, repoName, first) !in dirs
    ensures var b1 := BackupEffect(dirs, base, path, repoName, first);
            b1.backupPath != "" && BackupEffect(b1.dirs, base, path, repoName, second).backupPath == ""
  {
    CompactStampSameSecond(first, second);
  }

  class GitRepositorySync {
    const baseBackupDir: Path
    const disk: Disk

    /** Creates the backup base directory if it is missing. */
    constructor (disk: Disk, baseBackupDir: Path := "temp_backups")
      requires baseBackupDir != ""
      modifies disk
      ensures this.disk == disk && this.baseBackupDir == baseBackupDir
      ensures disk.dirs == Made(old(disk.dirs), baseBackupDir)
      ensures baseBackupDir in disk.dirs
    {
      this.baseBackupDir := baseBackupDir;
      this.disk := disk;
      new;
      disk.MakeDirs(baseBackupDir);
    }

    method CloneRepository(repoUrl: string, localPath: Path, outcome: CloneOutcome) returns (ok: bool)
      modifies disk
      ensures var c := CloneEffect(old(disk.dirs), localPath, outcome);
              disk.dirs == c.dirs && ok == c.ok
    {
      if localPath == "" {
        return false;
      }
      if localPath in disk.dirs {
        disk.RmTree(localPath);
      }
      disk.MakeDirs(localPath);
      match outcome {
        case Cloned(checkout) =>
          disk.Populate(localPath, checkout);
          ok := true;
        case CloneFailed =>
          if localPath in disk.dirs {
            disk.RmTree(localPath);
          }
          ok := false;
      }
    }

    method SyncRepository(localPath: Path, remote: Remote, now: Instant) returns (result: SyncResult)
      modifies disk
      ensures var s := SyncEffect(old(disk.dirs), localPath, remote, now);
              disk.dirs == s.dirs && result == s.result
    {
      if localPath !in disk.dirs || ".git" !in disk.dirs[localPath] {
        result := SyncFailed(if localPath !in disk.dirs then NoSuchPath else InvalidRepository);
        return;
      }
      if !remote.hasOrigin {
        return SyncFailed(NoOrigin);
      }
      if remote.fetch.FetchFailed? {
        return SyncFailed(FetchError(remote.fetch.message));
      }
      match remote.pull {
        case PullFailed(m, tree) =>
          disk.Populate(localPath, tree);
          return SyncFailed(PullError(m));
        case Pulled(tree) =>
          disk.Populate(localPath, tree);
      }
      var timestamp := IsoFormat(now);
      if remote.branch.None? {
        return SyncFailed(DetachedHead);
      }
      if remote.commit.None? {
        return SyncFailed(NoCommits);
      }
      result := SyncSuccess(timestamp, remote.branch.value, remote.commit.value);
    }

    method BackupRepository(localPath: Path, repoName: string, now: Instant) returns (backupPath: string)
      modifies disk
      ensures var b := BackupEffect(old(disk.dirs), baseBackupDir, localPath, repoName, now);
              disk.dirs == b.dirs && backupPath == b.backupPath
    {
      var dest := Join(baseBackupDir, repoName + "_" + CompactStamp(now));
      var ok := disk.CopyTree(localPath, dest);
      backupPath := if ok then dest else "";
    }
  }
}
