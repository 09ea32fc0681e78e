/** The record types shared by the commands: workloads, experiments and the
    JSON documents the store carries without interpreting them. */
module Entities {

  import opened Paths

  /** `serde_json::Value`. Numbers keep their textual form; the model never
      computes with them. */
  datatype Json =
    | Null
    | Bool(b: bool)
    | Number(repr: string)
    | Str(s: string)
    | Array(items: seq<Json>)
    | Object(members: seq<(string, Json)>)

  /** One benchmark artifact of one language; equality is structural. */
  datatype Workload = Workload(language: string, name: string)

  /** The component hashes recorded for an experiment. */
  datatype ExperimentSnapshot = ExperimentSnapshot(etna: string, collectionScript: string, workload: string)

  /** An experiment as the store records it; `id` is the one the experiment
      commands set when they insert a record. */
  datatype Experiment = Experiment(
    name: string,
    id: string,
    description: string,
    path: Path,
    snapshot: ExperimentSnapshot)
}
