/** `etna workload remove`: drop a workload from the experiment's
    configuration and delete its copy in the experiment directory. */
module RemoveWorkload {

  import opened Wrappers
  import opened Paths
  import opened Seqs
  import opened Entities
  import opened Config
  import opened Disk

  /** The predicate given to `retain`: the entry differs in language or in name. */
  function Keeps(language: string, workload: string): Workload -> bool {
    (w: Workload) => w.language != language || w.name != workload
  }

  /** The list `retain` leaves behind. */
  function Without(ws: seq<Workload>, language: string, workload: string): seq<Workload> {
    Filter(ws, Keeps(language, workload))
  }

  /** `workloads.retain(...)`, run in place on a buffer holding the list. */
  method Retain(ws: seq<Workload>, language: string, workload: string) returns (kept: seq<Workload>)
    ensures kept == Without(ws, language, workload)
  {
    var buffer := new Workload[|ws|](i requires 0 <= i < |ws| => ws[i]);
    assert buffer[..] == ws;
    var len := RetainInPlace(buffer, Keeps(language, workload));
    kept := buffer[..len];
  }

  /** What removal does to the list: no entry with this language and name
      remains, every other entry stays with all its occurrences and in its
      original relative order, and the list shrinks by the number of matching
      entries. */
  lemma {:induction false} WithoutSpec(ws: seq<Workload>, language: string, workload: string)
    ensures !AnyMatch(Without(ws, language, workload), language, workload)
    ensures forall w :: !Matches(w, language, workload) ==>
      multiset(Without(ws, language, workload))[w] == multiset(ws)[w]
    ensures IsSubsequence(Without(ws, language, workload), ws)
    ensures |Without(ws, language, workload)| == |ws| - multiset(ws)[Workload(language, workload)]
    ensures AnyMatch(ws, language, workload) ==> |Without(ws, language, workload)| < |ws|
  {
    var kept := Without(ws, language, workload);
    assert forall i :: 0 <= i < |kept| ==> Keeps(language, workload)(kept[i]);
    forall w | !Matches(w, language, workload)
      ensures multiset(kept)[w] == multiset(ws)[w]
    {
      FilterCount(ws, Keeps(language, workload), w);
    }
    FilterIsSubsequence(ws, Keeps(language, workload));
    WithoutLength(ws, language, workload);
    if AnyMatch(ws, language, workload) {
      var i :| 0 <= i < |ws| && Matches(ws[i], language, workload);
      assert ws[i] == Workload(language, workload);
      assert ws[i] in multiset(ws);
    }
  }

  lemma {:induction false} WithoutLength(ws: seq<Workload>, language: string, workload: string)
    ensures |Without(ws, language, workload)| == |ws| - multiset(ws)[Workload(language, workload)]
  {
    if ws != [] {
      assert ws == [ws[0]] + ws[1..];
      assert multiset(ws) == multiset([ws[0]]) + multiset(ws[1..]);
      WithoutLength(ws[1..], language, workload);
    }
  }

  /** Removing a workload that was just added to a list without it gives the
      original list back. */
  lemma {:induction false} RemoveUndoesAdd(ws: seq<Workload>, language: string, workload: string)
    requires !AnyMatch(ws, language, workload)
    ensures Without(ws + [Workload(language, workload)], language, workload) == ws
  {
    FilterAppend(ws, [Workload(language, workload)], Keeps(language, workload));
    forall i | 0 <= i < |ws| ensures Keeps(language, workload)(ws[i]) {
      assert !Matches(ws[i], language, workload);
    }
    FilterKeepsAll(ws, Keeps(language, workload));
  }

  function DoesNotExist(language: string, workload: string): Error {
    Msg("Workload '" + language + "/" + workload + "' does not exist")
  }

  function RemoveFailed(dest: Path): Error {
    Context("Failed to remove workload at '" + Display(dest) + "'", Foreign("std::fs::remove_dir_all"))
  }

  function CommitFailed(language: string, workload: string): Error {
    Context("Failed to commit removing '" + language + "/" + workload + "'", OpenRepoFailed)
  }

  /** `remove_workload::invoke` after the two configurations are loaded.
      Returns the configuration it wrote. */
  method Invoke(fs: FileSystem, cfg: ExperimentConfig, language: string, workload: string,
                toToml: ExperimentConfig -> string)
    returns (r: Result<ExperimentConfig>)
    modifies fs
    ensures !HasWorkload(cfg, language, workload) ==>
      r == Err(DoesNotExist(language, workload)) && unchanged(fs)
    ensures HasWorkload(cfg, language, workload) ==>
      var updated := cfg.(workloads := Without(cfg.workloads, language, workload));
      var toml := ConfigTomlPath(cfg);
      var dest := WorkloadDir(cfg.path, language, workload);
      var written := old(fs.files)[toml := toToml(updated)];
      var removed := dest in old(fs.dirs);
      fs.inGitRepo == old(fs.inGitRepo) &&
      toml in fs.files && fs.files[toml] == toToml(updated) &&
      (!removed ==> fs.files == written && fs.dirs == old(fs.dirs) &&
                    fs.trace == old(fs.trace) + [Wrote(toml)] &&
                    r == Err(RemoveFailed(dest))) &&
      (removed ==>
        fs.files == (map f | f in written && !IsPrefix(dest, f) :: written[f]) &&
        fs.dirs == (set d | d in old(fs.dirs) && !IsPrefix(dest, d)) &&
        fs.trace == old(fs.trace) + [Wrote(toml), RemovedDirAll(dest)]
                    + (if fs.inGitRepo then [CommittedRemove(language, workload)] else []) &&
        r == (if fs.inGitRepo then Ok(updated) else Err(CommitFailed(language, workload))))
  {
    if !HasWorkload(cfg, language, workload) {
      return Err(DoesNotExist(language, workload));
    }

    var experimentConfig := cfg;
    var kept := Retain(experimentConfig.workloads, language, workload);
    experimentConfig := experimentConfig.(workloads := kept);

    var configPath := ConfigTomlPath(experimentConfig);
    fs.WriteFile(configPath, toToml(experimentConfig));

    var destPath := WorkloadDir(experimentConfig.path, language, workload);
    assert !IsPrefix(destPath, configPath);
    var removal := fs.RemoveDirAll(destPath);
    if removal.Err? {
      return Err(Context("Failed to remove workload at '" + Display(destPath) + "'", removal.error));
    }

    var committed := fs.Commit(CommittedRemove(language, workload));
    if committed.Err? {
      return Err(Context("Failed to commit removing '" + language + "/" + workload + "'", committed.error));
    }
    r := Ok(experimentConfig);
  }
}
