/** The store document (`store.json`) and its load and save over the file system. */
module Store {

  import opened Wrappers
  import opened Paths
  import opened Entities
  import opened Disk

  /** A metric document attached to an experiment id, as `store write` builds it. */
  datatype Metric = Metric(data: Json, experimentId: string)

  /** The snapshot record the store file lists. */
  datatype Snapshot = Snapshot(etna: string, collectionScript: string, workload: string)

  datatype Store = Store(metrics: seq<Metric>, snapshots: seq<Snapshot>, experiments: seq<Experiment>)

  /** `Store::default()`. */
  function Default(): (s: Store)
    ensures s.metrics == [] && s.snapshots == [] && s.experiments == []
  {
    Store([], [], [])
  }

  /** The serde_json operations the program relies on, given to the model as
      functions: parsing and pretty-printing the store, parsing and compact
      printing of a JSON value, pretty-printing of a value, and the JSON value
      of a whole store (`serde_json::json!(store)`). */
  datatype Serde = Serde(
    parseStore: string -> Result<Store>,
    printStore: Store -> string,
    parseValue: string -> Result<Json>,
    printValue: Json -> string,
    prettyValue: Json -> string,
    storeValue: Store -> Json)

  /** Deserializing what was serialized gives the store back. */
  ghost predicate StoreRoundTrips(serde: Serde) {
    forall s :: serde.parseStore(serde.printStore(s)) == Ok(s)
  }

  const MissingStore: Error := Msg("Store file does not exist")

  /** The specification of `Store::load(path)`: what it returns for a file
      system with these files and directories. */
  function LoadFrom(files: map<Path, string>, dirs: set<Path>, path: Path, serde: Serde): (r: Result<Store>)
    ensures path !in files && path !in dirs ==> r == Err(MissingStore)
    ensures path in files ==> r == serde.parseStore(files[path])
  {
    if path !in files && path !in dirs then Err(MissingStore)
    else if path !in files then Err(Foreign("std::fs::read_to_string"))
    else serde.parseStore(files[path])
  }

  /** `Store::load`, the operation on the file system: reads the file at
      `path` and parses it, changing nothing. Its result is the one `LoadFrom`
      specifies. */
  method Load(fs: FileSystem, path: Path, serde: Serde) returns (r: Result<Store>)
    ensures r == LoadFrom(fs.files, fs.dirs, path, serde)
  {
    if !fs.Exists(path) {
      return Err(MissingStore);
    }
    if path !in fs.files {
      return Err(Foreign("std::fs::read_to_string"));
    }
    var content := fs.files[path];
    r := serde.parseStore(content);
  }

  /** `Store::save`: overwrites the whole file at `path` with the pretty-printed store. */
  method Save(fs: FileSystem, store: Store, path: Path, serde: Serde)
    modifies fs
    ensures fs.files == old(fs.files)[path := serde.printStore(store)]
    ensures fs.dirs == old(fs.dirs) && fs.inGitRepo == old(fs.inGitRepo)
    ensures fs.trace == old(fs.trace) + [Wrote(path)]
  {
    var content := serde.printStore(store);
    fs.WriteFile(path, content);
  }

  /** Loading after saving at the same path gives back the saved store. */
  lemma LoadAfterSave(files: map<Path, string>, dirs: set<Path>, path: Path, s: Store, serde: Serde)
    requires StoreRoundTrips(serde)
    ensures LoadFrom(files[path := serde.printStore(s)], dirs, path, serde) == Ok(s)
  {
  }
}
