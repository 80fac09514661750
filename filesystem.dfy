/**
 * The part of the host filesystem the program touches, as an abstract value:
 * each directory the program names (a local checkout, the backup base
 * directory, one backup) maps to the tree of entries below it, keyed by
 * relative path. `Disk` is the mutable filesystem that `os.makedirs`,
 * `shutil.rmtree` and `shutil.copytree` act on.
 */
module FileSystem {

  type Path = string

  datatype Node = File(data: string) | Folder

  /** The contents of one directory, by relative path (".git", ".git/HEAD", "README.md", ...). */
  type Tree = map<string, Node>

  type Dirs = map<Path, Tree>

  /** `os.path.exists(os.path.join(path, '.git'))`: the directory holds a git checkout. */
  predicate HasCheckout(dirs: Dirs, path: Path) {
    path in dirs && ".git" in dirs[path]
  }

  /** POSIX `os.path.join(a, b)`: an absolute `b` replaces `a`; one separator is inserted when needed. */
  function Join(a: Path, b: Path): (r: Path)
    ensures |r| >= |b| && r[|r| - |b|..] == b
    ensures b != "" && b[0] == '/' ==> r == b
    ensures (b == "" || b[0] != '/') && a != "" && a[|a| - 1] != '/' ==> r == a + "/" + b
  {
    if b != "" && b[0] == '/' then b
    else if a == "" || a[|a| - 1] == '/' then a + b
    else a + "/" + b
  }

  /** `os.makedirs(path, exist_ok=True)`: an existing directory is kept, a missing one is created empty. */
  function Made(dirs: Dirs, path: Path): (r: Dirs)
    ensures path in r && r - {path} == dirs - {path}
    ensures path in dirs ==> r == dirs
    ensures path !in dirs ==> r[path] == map[]
  {
    if path in dirs then dirs else dirs[path := map[]]
  }

  class Disk {
    var dirs: Dirs

    constructor (dirs: Dirs)
      ensures this.dirs == dirs
    {
      this.dirs := dirs;
    }

    /** `os.makedirs(path, exist_ok=True)`; the empty path raises, so callers check it first. */
    method MakeDirs(path: Path)
      requires path != ""
      modifies this
      ensures dirs == Made(old(dirs), path)
    {
      if path !in dirs {
        dirs := dirs[path := map[]];
      }
    }

    /** `shutil.rmtree(path)` on an existing directory. */
    method RmTree(path: Path)
      requires path in dirs
      modifies this
      ensures dirs == old(dirs) - {path}
    {
      dirs := dirs - {path};
    }

    /** Fills a directory with the entries a clone wrote into it. */
    method Populate(path: Path, tree: Tree)
      modifies this
      ensures dirs == old(dirs)[path := tree]
    {
      dirs := dirs[path := tree];
    }

    /** `shutil.copytree(src, dst)`: fails when the source is missing or the destination exists. */
    method CopyTree(src: Path, dst: Path) returns (ok: bool)
      modifies this
      ensures ok <==> src != "" && src in old(dirs) && dst != "" && dst !in old(dirs)
      ensures dirs == if ok then old(dirs)[dst := old(dirs)[src]] else old(dirs)
    {
      ok := src != "" && src in dirs && dst != "" && dst !in dirs;
      if ok {
        dirs := dirs[dst := dirs[src]];
      }
    }
  }
}
