/** The part of the machine the commands act on: file contents, existing
    directories, whether the current directory is a git repository, and the
    ordered trace of the effects performed (copies, writes, removals, commits). */
module Disk {

  import opened Wrappers
  import opened Paths

  datatype Effect =
    | CreatedDirAll(dir: Path)
    | Copied(source: Path, dest: Path)
    | Wrote(file: Path)
    | RemovedDirAll(dir: Path)
    | CommittedAdd(language: string, workload: string)
    | CommittedRemove(language: string, workload: string)

  /** The failure of opening the repository a commit goes to. */
  const OpenRepoFailed: Error := Context("Failed to open git repository", Foreign("git2"))

  /** Every non-empty prefix of `p`: the directories `create_dir_all(p)` ensures exist. */
  function Ancestors(p: Path): (s: set<Path>)
    ensures p != [] ==> p in s
    ensures forall q :: q in s ==> q != [] && IsPrefix(q, p)
  {
    var s := set k | 1 <= k <= |p| :: p[..k];
    assert p[..|p|] == p;
    assert p != [] ==> p[..|p|] in s;
    s
  }

  class FileSystem {
    var files: map<Path, string>
    var dirs: set<Path>
    var inGitRepo: bool
    var trace: seq<Effect>

    constructor (files: map<Path, string>, dirs: set<Path>, inGitRepo: bool)
      ensures this.files == files && this.dirs == dirs && this.inGitRepo == inGitRepo
      ensures trace == []
    {
      this.files := files;
      this.dirs := dirs;
      this.inGitRepo := inGitRepo;
      trace := [];
    }

    /** `Path::exists`. */
    predicate Exists(p: Path)
      reads this
    {
      p in files || p in dirs
    }

    /** `std::fs::write`: replaces the whole content of the file. */
    method WriteFile(p: Path, content: string)
      modifies this
      ensures files == old(files)[p := content]
      ensures dirs == old(dirs) && inGitRepo == old(inGitRepo)
      ensures trace == old(trace) + [Wrote(p)]
    {
      files := files[p := content];
      trace := trace + [Wrote(p)];
    }

    /** `std::fs::create_dir_all`. */
    method CreateDirAll(p: Path)
      modifies this
      ensures dirs == old(dirs) + Ancestors(p)
      ensures files == old(files) && inGitRepo == old(inGitRepo)
      ensures trace == old(trace) + [CreatedDirAll(p)]
    {
      dirs := dirs + Ancestors(p);
      trace := trace + [CreatedDirAll(p)];
    }

    /** `cp -r source dest`, as an abstract effect: the destination directory
        exists afterwards. */
    method CopyTree(source: Path, dest: Path)
      modifies this
      ensures dirs == old(dirs) + {dest}
      ensures files == old(files) && inGitRepo == old(inGitRepo)
      ensures trace == old(trace) + [Copied(source, dest)]
    {
      dirs := dirs + {dest};
      trace := trace + [Copied(source, dest)];
    }

    /** `std::fs::remove_dir_all`: fails when `p` is not a directory, and
        otherwise removes it together with everything below it. */
    method RemoveDirAll(p: Path) returns (r: Result<()>)
      modifies this
      ensures inGitRepo == old(inGitRepo)
      ensures r.Ok? <==> p in old(dirs)
      ensures r.Err? ==>
          r.error == Foreign("std::fs::remove_dir_all") &&
          files == old(files) && dirs == old(dirs) && trace == old(trace)
      ensures r.Ok? ==>
          dirs == (set d | d in old(dirs) && !IsPrefix(p, d)) &&
          files == (map f | f in old(files) && !IsPrefix(p, f) :: old(files)[f]) &&
          trace == old(trace) + [RemovedDirAll(p)]
    {
      if p !in dirs {
        return Err(Foreign("std::fs::remove_dir_all"));
      }
      dirs := set d | d in dirs && !IsPrefix(p, d);
      files := map f | f in files && !IsPrefix(p, f) :: files[f];
      trace := trace + [RemovedDirAll(p)];
      r := Ok(());
    }

    /** A git commit of the experiment repository, as an abstract effect.
        `inGitRepo` says whether the commit goes through; when it does not,
        the failure is the one of opening the repository. */
    method Commit(e: Effect) returns (r: Result<()>)
      requires e.CommittedAdd? || e.CommittedRemove?
      modifies this
      ensures files == old(files) && dirs == old(dirs) && inGitRepo == old(inGitRepo)
      ensures r.Ok? <==> inGitRepo
      ensures r.Ok? ==> trace == old(trace) + [e]
      ensures r.Err? ==>
          trace == old(trace) &&
          r.error == OpenRepoFailed
    {
      if !inGitRepo {
        return Err(OpenRepoFailed);
      }
      trace := trace + [e];
      r := Ok(());
    }
  }
}
