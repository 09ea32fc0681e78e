/** `etna workload add`: copy a workload of the etna repository into the
    experiment and record it in the experiment's configuration. */
module AddWorkload {

  import opened Wrappers
  import opened Paths
  import opened Entities
  import opened Config
  import opened Disk
  import Store

  /** The checkout the workload is taken from: `ETNA_REPO_DIR` when it is set
      (its value given here as a path), otherwise the configured one. */
  function RepoDir(etna: EtnaConfig, repoDirVar: Option<Path>): Path {
    if repoDirVar.Some? then repoDirVar.value else etna.repoDir
  }

  function SourcePath(etna: EtnaConfig, repoDirVar: Option<Path>, language: string, workload: string): Path {
    WorkloadDir(RepoDir(etna, repoDirVar), language, workload)
  }

  function DestPath(cfg: ExperimentConfig, language: string, workload: string): Path {
    WorkloadDir(cfg.path, language, workload)
  }

  /** The configuration with the new workload pushed at the end of its list. */
  function Added(cfg: ExperimentConfig, language: string, workload: string): ExperimentConfig {
    cfg.(workloads := cfg.workloads + [Workload(language, workload)])
  }

  function AlreadyExists(language: string, workload: string): Error {
    Msg("Workload '" + language + "/" + workload + "' already exists")
  }

  function NotFound(source: Path): Error {
    Msg("Workload '" + Display(source) + "' not found")
  }

  function CommitFailed(language: string, workload: string): Error {
    Context("Failed to commit adding '" + language + "/" + workload + "'", OpenRepoFailed)
  }

  function StoreLoadFailed(e: Error): Error {
    Context("Failed to load store", e)
  }

  /** The store once the experiment is recorded in it: one `Experiment`, built
      from the updated configuration, the id and the snapshot, is appended to
      the experiments, and nothing else changes. */
  function Recorded(store: Store.Store, cfg: ExperimentConfig, id: string, snapshot: ExperimentSnapshot): (s: Store.Store)
    ensures s.metrics == store.metrics && s.snapshots == store.snapshots
    ensures |s.experiments| == |store.experiments| + 1
    ensures s.experiments[..|store.experiments|] == store.experiments
    ensures var e := s.experiments[|store.experiments|];
      e.name == cfg.name && e.id == id && e.description == cfg.description &&
      e.path == cfg.path && e.snapshot == snapshot
  {
    store.(experiments := store.experiments + [Experiment(cfg.name, id, cfg.description, cfg.path, snapshot)])
  }

  /** `Store::take_snapshot`, which takes the store mutably: for the loaded
      store and the updated configuration it gives the store as the snapshot
      left it, the experiment id and the recorded hashes, or fails. */
  type SnapshotTaker = (Store.Store, ExperimentConfig) -> Result<(Store.Store, string, ExperimentSnapshot)>

  /** The closing step of `add_workload::invoke`: load the store, take the
      experiment's snapshot, append the experiment to the store the snapshot
      left behind and save that store. A load failure gets its context; a
      snapshot failure is passed on as it is, and nothing is saved. */
  method RecordExperiment(fs: FileSystem, etna: EtnaConfig, updated: ExperimentConfig, serde: Store.Serde,
                          takeSnapshot: SnapshotTaker)
    returns (r: Result<()>)
    modifies fs
    ensures fs.dirs == old(fs.dirs) && fs.inGitRepo == old(fs.inGitRepo)
    ensures var loaded := Store.LoadFrom(old(fs.files), old(fs.dirs), StorePath(etna), serde);
      loaded.Err? ==>
        r == Err(StoreLoadFailed(loaded.error)) && fs.files == old(fs.files) && fs.trace == old(fs.trace)
    ensures var loaded := Store.LoadFrom(old(fs.files), old(fs.dirs), StorePath(etna), serde);
      loaded.Ok? && takeSnapshot(loaded.value, updated).Err? ==>
        r == Err(takeSnapshot(loaded.value, updated).error) &&
        fs.files == old(fs.files) && fs.trace == old(fs.trace)
    ensures var loaded := Store.LoadFrom(old(fs.files), old(fs.dirs), StorePath(etna), serde);
      loaded.Ok? && takeSnapshot(loaded.value, updated).Ok? ==>
        var taken := takeSnapshot(loaded.value, updated).value;
        r == Ok(()) &&
        fs.files == old(fs.files)[StorePath(etna) := serde.printStore(Recorded(taken.0, updated, taken.1, taken.2))] &&
        fs.trace == old(fs.trace) + [Wrote(StorePath(etna))]
  {
    var loaded := Store.Load(fs, StorePath(etna), serde);
    if loaded.Err? {
      return Err(StoreLoadFailed(loaded.error));
    }
    var store := loaded.value;

    var taken := takeSnapshot(store, updated);
    if taken.Err? {
      return Err(taken.error);
    }
    var (snapshotted, id, snapshot) := taken.value;

    store := snapshotted.(experiments := snapshotted.experiments +
      [Experiment(updated.name, id, updated.description, updated.path, snapshot)]);

    Store.Save(fs, store, StorePath(etna), serde);
    r := Ok(());
  }

  /** The steps of `add_workload::invoke` that copy the workload and write the
      configuration: the parent of the destination is created, the source is
      copied to the destination, and `config.toml` is rewritten with the new
      workload pushed at the end of the list. Returns that configuration. */
  method Stage(fs: FileSystem, cfg: ExperimentConfig, source: Path, language: string, workload: string,
               toToml: ExperimentConfig -> string)
    returns (updated: ExperimentConfig)
    modifies fs
    ensures updated == Added(cfg, language, workload)
    ensures var dest := DestPath(cfg, language, workload);
      var parent := dest[..|cfg.path| + 2];
      fs.files == old(fs.files)[ConfigTomlPath(cfg) := toToml(updated)] &&
      fs.dirs == old(fs.dirs) + Ancestors(parent) + {dest} &&
      fs.inGitRepo == old(fs.inGitRepo) &&
      fs.trace == old(fs.trace) + [CreatedDirAll(parent), Copied(source, dest), Wrote(ConfigTomlPath(cfg))]
  {
    var destPath := WorkloadDir(cfg.path, language, workload);
    // `dest_path.parent()` always exists: the path ends in the workload's own component.
    var parent := Parent(destPath).value;
    fs.CreateDirAll(parent);
    fs.CopyTree(source, destPath);

    updated := cfg;
    updated := updated.(workloads := updated.workloads + [Workload(language, workload)]);

    fs.WriteFile(ConfigTomlPath(updated), toToml(updated));
  }

  /** The steps of `add_workload::invoke` after the configuration file is
      written: the commit, whose failure gets its context, then the store step. */
  method CommitAndRecord(fs: FileSystem, etna: EtnaConfig, updated: ExperimentConfig, serde: Store.Serde,
                         takeSnapshot: SnapshotTaker,
                         language: string, workload: string)
    returns (r: Result<()>)
    modifies fs
    ensures fs.dirs == old(fs.dirs) && fs.inGitRepo == old(fs.inGitRepo)
    ensures !fs.inGitRepo ==>
      r == Err(CommitFailed(language, workload)) && fs.files == old(fs.files) && fs.trace == old(fs.trace)
    ensures var loaded := Store.LoadFrom(old(fs.files), old(fs.dirs), StorePath(etna), serde);
      fs.inGitRepo && loaded.Err? ==>
        r == Err(StoreLoadFailed(loaded.error)) &&
        fs.files == old(fs.files) && fs.trace == old(fs.trace) + [CommittedAdd(language, workload)]
    ensures var loaded := Store.LoadFrom(old(fs.files), old(fs.dirs), StorePath(etna), serde);
      fs.inGitRepo && loaded.Ok? && takeSnapshot(loaded.value, updated).Err? ==>
        r == Err(takeSnapshot(loaded.value, updated).error) &&
        fs.files == old(fs.files) && fs.trace == old(fs.trace) + [CommittedAdd(language, workload)]
    ensures var loaded := Store.LoadFrom(old(fs.files), old(fs.dirs), StorePath(etna), serde);
      fs.inGitRepo && loaded.Ok? && takeSnapshot(loaded.value, updated).Ok? ==>
        var taken := takeSnapshot(loaded.value, updated).value;
        r == Ok(()) &&
        fs.files == old(fs.files)[StorePath(etna) := serde.printStore(Recorded(taken.0, updated, taken.1, taken.2))] &&
        fs.trace == old(fs.trace) + [CommittedAdd(language, workload), Wrote(StorePath(etna))]
  {
    var committed := fs.Commit(CommittedAdd(language, workload));
    if committed.Err? {
      return Err(Context("Failed to commit adding '" + language + "/" + workload + "'", committed.error));
    }
    r := RecordExperiment(fs, etna, updated, serde, takeSnapshot);
  }

  /** `add_workload::invoke` after the two configurations are loaded.
      `takeSnapshot` stands for `Store::take_snapshot`. Returns the
      configuration it wrote. */
  method Invoke(fs: FileSystem, etna: EtnaConfig, cfg: ExperimentConfig, repoDirVar: Option<Path>,
                language: string, workload: string, toToml: ExperimentConfig -> string,
                serde: Store.Serde,
                takeSnapshot: SnapshotTaker)
    returns (r: Result<ExperimentConfig>)
    modifies fs
    ensures HasWorkload(cfg, language, workload) ==>
      r == Err(AlreadyExists(language, workload)) && unchanged(fs)
    ensures !HasWorkload(cfg, language, workload) &&
            !old(fs.Exists(SourcePath(etna, repoDirVar, language, workload))) ==>
      r == Err(NotFound(SourcePath(etna, repoDirVar, language, workload))) && unchanged(fs)
    ensures !HasWorkload(cfg, language, workload) &&
            old(fs.Exists(SourcePath(etna, repoDirVar, language, workload))) ==>
      var source := SourcePath(etna, repoDirVar, language, workload);
      var dest := DestPath(cfg, language, workload);
      var parent := dest[..|cfg.path| + 2];
      var updated := Added(cfg, language, workload);
      var written := old(fs.files)[ConfigTomlPath(cfg) := toToml(updated)];
      var copied := old(fs.trace) + [CreatedDirAll(parent), Copied(source, dest), Wrote(ConfigTomlPath(cfg))];
      var loaded := Store.LoadFrom(written, fs.dirs, StorePath(etna), serde);
      fs.dirs == old(fs.dirs) + Ancestors(parent) + {dest} &&
      fs.inGitRepo == old(fs.inGitRepo) &&
      (!fs.inGitRepo ==>
        r == Err(CommitFailed(language, workload)) && fs.files == written && fs.trace == copied) &&
      (fs.inGitRepo && loaded.Err? ==>
        r == Err(StoreLoadFailed(loaded.error)) &&
        fs.files == written && fs.trace == copied + [CommittedAdd(language, workload)]) &&
      (fs.inGitRepo && loaded.Ok? && takeSnapshot(loaded.value, updated).Err? ==>
        r == Err(takeSnapshot(loaded.value, updated).error) &&
        fs.files == written && fs.trace == copied + [CommittedAdd(language, workload)]) &&
      (fs.inGitRepo && loaded.Ok? && takeSnapshot(loaded.value, updated).Ok? ==>
        var taken := takeSnapshot(loaded.value, updated).value;
        r == Ok(updated) &&
        fs.files == written[StorePath(etna) := serde.printStore(Recorded(taken.0, updated, taken.1, taken.2))] &&
        fs.trace == copied + [CommittedAdd(language, workload), Wrote(StorePath(etna))])
  {
    if HasWorkload(cfg, language, workload) {
      return Err(AlreadyExists(language, workload));
    }

    var repoDir := RepoDir(etna, repoDirVar);
    var workloadPath := WorkloadDir(repoDir, language, workload);
    if !fs.Exists(workloadPath) {
      return Err(NotFound(workloadPath));
    }

    var experimentConfig := Stage(fs, cfg, workloadPath, language, workload, toToml);
    var finished := CommitAndRecord(fs, etna, experimentConfig, serde, takeSnapshot, language, workload);
    if finished.Err? {
      return Err(finished.error);
    }
    r := Ok(experimentConfig);
  }

  /** Adding a workload that was absent grows the list by exactly that entry,
      makes `has_workload` hold, and keeps the list free of duplicates. */
  lemma {:induction false} AddedSpec(cfg: ExperimentConfig, language: string, workload: string)
    requires !HasWorkload(cfg, language, workload)
    ensures var ws := Added(cfg, language, workload).workloads;
      |ws| == |cfg.workloads| + 1 && ws[..|cfg.workloads|] == cfg.workloads &&
      ws[|cfg.workloads|] == Workload(language, workload)
    ensures HasWorkload(Added(cfg, language, workload), language, workload)
    ensures NoDuplicates(cfg.workloads) ==> NoDuplicates(Added(cfg, language, workload).workloads)
  {
    var ws := Added(cfg, language, workload).workloads;
    var n := |cfg.workloads|;
    assert Matches(ws[n], language, workload);
    if NoDuplicates(cfg.workloads) {
      forall i, j | 0 <= i < j < |ws| ensures !Matches(ws[j], ws[i].language, ws[i].name) {
        if j == n {
          assert ws[i] == cfg.workloads[i];
          assert !Matches(cfg.workloads[i], language, workload);
        } else {
          assert ws[i] == cfg.workloads[i] && ws[j] == cfg.workloads[j];
        }
      }
    }
  }
}
