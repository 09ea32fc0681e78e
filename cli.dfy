/** The `store query` options of the command line, one variant per flag. */
module Cli {

  datatype QueryOption =
    | Jq(queryString: string)
    | ExperimentById(experimentId: string)
    | ExperimentByName(experimentName: string)
    | AllExperimentsByName(experimentName: string)
    | MetricsByExperimentId(experimentId: string)
    | MetricsByFields(fieldsJsonString: string)
    | SnapshotsByFields(fieldsJsonString: string)
    | SnapshotsByName(snapshotName: string)
    | SnapshotByHash(snapshotHash: string)
}
