/** Content-addressed snapshots of a directory tree or of a repository's head. */
module Snapshots {

  import opened Wrappers
  import opened Paths

  datatype SnapshotType = Etna | CollectionScript | Workload

  /** The serialized name of each variant. */
  function TypeName(t: SnapshotType): string {
    match t
    case Etna => "etna"
    case CollectionScript => "collection_script"
    case Workload => "workload"
  }

  /** Deserialization of a variant name; anything else is rejected. */
  function ParseTypeName(s: string): (r: Option<SnapshotType>)
    ensures r.Some? ==> TypeName(r.value) == s
  {
    if s == "etna" then Some(Etna)
    else if s == "collection_script" then Some(CollectionScript)
    else if s == "workload" then Some(Workload)
    else None
  }

  /** Each variant's name reads back as that variant, so the three names are distinct. */
  lemma TypeNameRoundTrip(t: SnapshotType)
    ensures ParseTypeName(TypeName(t)) == Some(t)
  {
  }

  /** Equality of snapshots is structural over `(path, typ, hash)`. */
  datatype Snapshot = Snapshot(path: Path, typ: SnapshotType, hash: string)

  /** `Snapshot::head`: the repository's head commit, hashed by `headHash`. */
  function Head(repoPath: Path, typ: SnapshotType, headHash: Path -> Result<string>): (r: Result<Snapshot>)
    ensures headHash(repoPath).Err? ==> r == Err(headHash(repoPath).error)
    ensures headHash(repoPath).Ok? ==>
      r.Ok? && r.value.path == repoPath && r.value.typ == typ && r.value.hash == headHash(repoPath).value
  {
    var hash :- headHash(repoPath);
    Ok(Snapshot(repoPath, typ, hash))
  }

  /** `Snapshot::take`: the tree at `indexPath` inside the repository, hashed
      by `hash`; the snapshot's path is the joined path. */
  function Take(repoPath: Path, indexPath: Path, typ: SnapshotType,
                hash: (Path, Path) -> Result<string>): (r: Result<Snapshot>)
    ensures hash(repoPath, indexPath).Err? ==> r == Err(hash(repoPath, indexPath).error)
    ensures hash(repoPath, indexPath).Ok? ==>
      r.Ok? && IsPrefix(repoPath, r.value.path) && r.value.path[|repoPath|..] == indexPath &&
      r.value.typ == typ && r.value.hash == hash(repoPath, indexPath).value
  {
    var h :- hash(repoPath, indexPath);
    Ok(Snapshot(JoinPath(repoPath, indexPath), typ, h))
  }
}
