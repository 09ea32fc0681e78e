/** The experiment configuration (the experiment's `config.toml`) and the
    tool's own configuration with the paths derived from its directory. */
module Config {

  import opened Wrappers
  import opened Paths
  import opened Entities

  datatype ExperimentConfig = ExperimentConfig(
    name: string,
    description: string,
    path: Path,
    workloads: seq<Workload>)

  predicate Matches(w: Workload, language: string, name: string) {
    w.language == language && w.name == name
  }

  /** `workloads.iter().any(...)`, the specification of `has_workload`:
      some entry has this language and name. */
  function AnyMatch(ws: seq<Workload>, language: string, name: string): (b: bool)
    ensures b <==> exists i :: 0 <= i < |ws| && Matches(ws[i], language, name)
  {
    if ws == [] then false
    else if Matches(ws[0], language, name) then true
    else
      var rest := AnyMatch(ws[1..], language, name);
      assert forall i :: 1 <= i < |ws| ==> ws[i] == ws[1..][i - 1];
      rest
  }

  /** `ExperimentConfig::has_workload`: the operation on a configuration.
      Its meaning is stated once, by the contract of `AnyMatch`. */
  predicate HasWorkload(c: ExperimentConfig, language: string, name: string) {
    AnyMatch(c.workloads, language, name)
  }

  /** No (language, name) pair occurs twice in the list. */
  predicate NoDuplicates(ws: seq<Workload>) {
    forall i, j :: 0 <= i < j < |ws| ==> !Matches(ws[j], ws[i].language, ws[i].name)
  }

  /** `ExperimentConfig::new`: name, description and directory as given, no workloads. */
  function NewExperimentConfig(name: string, description: string, path: Path): (c: ExperimentConfig)
    ensures c.name == name && c.description == description && c.path == path
    ensures forall language, workload :: !HasWorkload(c, language, workload)
  {
    ExperimentConfig(name, description, path, [])
  }

  /** The experiment's configuration file, `<experiment>/config.toml`. */
  function ConfigTomlPath(c: ExperimentConfig): (p: Path)
    ensures Parent(p) == Some(c.path) && p[|p| - 1] == "config.toml"
  {
    Join(c.path, "config.toml")
  }

  datatype EtnaConfig = EtnaConfig(
    etnaDir: Path,
    repoDir: Path,
    venvDir: Path,
    branch: string,
    configured: bool)

  /** `EtnaConfig::get_etna_dir`, with the home directory as a parameter
      (`None` when the platform reports none). */
  function GetEtnaDir(home: Option<Path>): (r: Result<Path>)
    ensures r.Ok? <==> home.Some?
    ensures r.Ok? ==> Parent(r.value) == Some(home.value) && r.value[|r.value| - 1] == ".etna"
    ensures r.Err? ==> r.error == Msg("Failed to get home directory")
  {
    match home
    case Some(h) => Ok(Join(h, ".etna"))
    case None => Err(Msg("Failed to get home directory"))
  }

  /** `EtnaConfig::new`: everything lives below the etna directory, and the
      configuration starts out not yet set up. */
  function NewEtnaConfig(branch: string, home: Option<Path>): (r: Result<EtnaConfig>)
    ensures r.Ok? <==> GetEtnaDir(home).Ok?
    ensures r.Err? ==> r.error == GetEtnaDir(home).error
    ensures r.Ok? ==>
      var c := r.value;
      c.etnaDir == GetEtnaDir(home).value &&
      c.repoDir == Join(c.etnaDir, "etna") &&
      c.venvDir == Join(c.etnaDir, ".venv") &&
      c.branch == branch && !c.configured
  {
    var etnaDir :- GetEtnaDir(home);
    Ok(EtnaConfig(etnaDir, Join(etnaDir, "etna"), Join(etnaDir, ".venv"), branch, false))
  }

  /** `EtnaConfig::config_path`. */
  function ConfigPath(c: EtnaConfig): (p: Path)
    ensures Parent(p) == Some(c.etnaDir) && p[|p| - 1] == "config.json"
  {
    Join(c.etnaDir, "config.json")
  }

  /** `EtnaConfig::store_path`. */
  function StorePath(c: EtnaConfig): (p: Path)
    ensures Parent(p) == Some(c.etnaDir) && p[|p| - 1] == "store.json"
  {
    Join(c.etnaDir, "store.json")
  }

  /** The two files of the etna directory never coincide, and in a freshly
      built configuration neither is the repository or the virtual environment. */
  lemma EtnaPathsDistinct(branch: string, home: Option<Path>)
    requires NewEtnaConfig(branch, home).Ok?
    ensures var c := NewEtnaConfig(branch, home).value;
      var paths := [c.repoDir, c.venvDir, ConfigPath(c), StorePath(c)];
      forall i, j :: 0 <= i < j < 4 ==> paths[i] != paths[j]
  {
    var c := NewEtnaConfig(branch, home).value;
    var n := |c.etnaDir|;
    var paths := [c.repoDir, c.venvDir, ConfigPath(c), StorePath(c)];
    assert paths[0][n] == "etna" && paths[1][n] == ".venv";
    assert paths[2][n] == "config.json" && paths[3][n] == "store.json";
    forall i, j | 0 <= i < j < 4 ensures paths[i] != paths[j] {
      assert paths[i][n] != paths[j][n];
    }
  }
}
