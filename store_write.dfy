/** `etna store write`: append one metric to the store. */
module StoreWrite {

  import opened Wrappers
  import opened Paths
  import opened Entities
  import opened Config
  import opened Disk
  import opened Store

  function DeserializeFailed(metric: string): string {
    "Failed to deserialize the metric as a json string '" + metric + "'"
  }

  /** `write::invoke` after the tool configuration is loaded. Returns the
      store it saved. */
  method Invoke(fs: FileSystem, etna: EtnaConfig, experimentId: string, metric: string, serde: Serde)
    returns (r: Result<Store>)
    modifies fs
    ensures var loaded := LoadFrom(old(fs.files), old(fs.dirs), StorePath(etna), serde);
      loaded.Err? ==> r == Err(Context("Failed to load the store", loaded.error)) && unchanged(fs)
    ensures var loaded := LoadFrom(old(fs.files), old(fs.dirs), StorePath(etna), serde);
      var data := serde.parseValue(metric);
      loaded.Ok? && data.Err? ==> r == Err(Context(DeserializeFailed(metric), data.error)) && unchanged(fs)
    ensures var loaded := LoadFrom(old(fs.files), old(fs.dirs), StorePath(etna), serde);
      var data := serde.parseValue(metric);
      loaded.Ok? && data.Ok? ==>
        r.Ok? &&
        r.value.metrics == loaded.value.metrics + [Metric(data.value, experimentId)] &&
        r.value.snapshots == loaded.value.snapshots &&
        r.value.experiments == loaded.value.experiments &&
        fs.files == old(fs.files)[StorePath(etna) := serde.printStore(r.value)] &&
        fs.dirs == old(fs.dirs) && fs.inGitRepo == old(fs.inGitRepo) &&
        fs.trace == old(fs.trace) + [Wrote(StorePath(etna))]
    ensures r.Ok? && StoreRoundTrips(serde) ==> LoadFrom(fs.files, fs.dirs, StorePath(etna), serde) == Ok(r.value)
  {
    var loaded := Load(fs, StorePath(etna), serde);
    if loaded.Err? {
      return Err(Context("Failed to load the store", loaded.error));
    }
    var store := loaded.value;

    var data := serde.parseValue(metric);
    if data.Err? {
      return Err(Context(DeserializeFailed(metric), data.error));
    }

    store := store.(metrics := store.metrics + [Metric(data.value, experimentId)]);

    Save(fs, store, StorePath(etna), serde);
    r := Ok(store);
  }
}
