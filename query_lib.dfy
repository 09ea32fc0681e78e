/** The two query handlers: the jq handler, which turns an option into a jq
    program run over the store's JSON value, and the specialized handler,
    which turns it into a typed query for the store's own resolver. */
module QueryLib {

  import opened Wrappers
  import Entities
  import opened Cli
  import opened JqText
  import Store

  datatype ExperimentQuery = Id(id: string) | NameLast(name: string) | NameAll(name: string)
  datatype MetricQuery = ByExperimentId(experimentId: string)
  datatype SnapshotQuery = ByName(name: string) | ByHash(hash: string)

  datatype SpecializedQuery =
    | Experiment(experiment: ExperimentQuery)
    | Metric(metric: MetricQuery)
    | Snapshot(snapshot: SnapshotQuery)

  /** How `jaq_handler` ends: the outputs collected into one value; an error
      it returns, when `lib.jq` or the program fails to parse or compile; or a
      panic, when running the program raises an error or converting an output
      value to JSON fails. */
  datatype JqRun =
    | Produced(value: Entities.Json)
    | Rejected(error: Error)
    | Aborted(message: string)

  /** What the program cannot see: the jq interpreter with its library of
      definitions (parse, compile and run a program over a JSON input) and the
      typed resolver with the display of each result. */
  datatype Engine = Engine(
    jq: (Entities.Json, string) -> JqRun,
    resolve: (Store.Store, SpecializedQuery) -> Result<seq<string>>)

  /** The options only the jq handler implements. */
  predicate IsJqOnly(q: QueryOption) {
    q.Jq? || q.MetricsByFields? || q.SnapshotsByFields?
  }

  /** The string every option carries. */
  function OptionArgument(q: QueryOption): string {
    match q
    case Jq(s) => s
    case ExperimentById(s) => s
    case ExperimentByName(s) => s
    case AllExperimentsByName(s) => s
    case MetricsByExperimentId(s) => s
    case MetricsByFields(s) => s
    case SnapshotsByFields(s) => s
    case SnapshotsByName(s) => s
    case SnapshotByHash(s) => s
  }

  function QueryArgument(sq: SpecializedQuery): string {
    match sq
    case Experiment(Id(s)) => s
    case Experiment(NameLast(s)) => s
    case Experiment(NameAll(s)) => s
    case Metric(ByExperimentId(s)) => s
    case Snapshot(ByName(s)) => s
    case Snapshot(ByHash(s)) => s
  }

  /** The jq library function answering the same question as a typed query. */
  function JqFunction(sq: SpecializedQuery): (name: string)
    ensures '(' !in name
  {
    match sq
    case Experiment(Id(_)) => "experiment_by_id"
    case Experiment(NameLast(_)) => "last_experiment_by_name"
    case Experiment(NameAll(_)) => "experiments_by_name"
    case Metric(ByExperimentId(_)) => "metrics_by_experiment_id"
    case Snapshot(ByName(_)) => "snapshots_by_name"
    case Snapshot(ByHash(_)) => "snapshot_by_hash"
  }

  const FieldsParseFailed := "Failed to parse the fields json string"

  /** The JSON argument of a by-fields query, re-serialized compactly. */
  function FieldsArgument(fields: string, serde: Store.Serde): Result<string> {
    match serde.parseValue(fields)
    case Ok(v) => Ok(serde.printValue(v))
    case Err(e) => Err(Context(FieldsParseFailed, e))
  }

  /** The jq program `handle_jq_query` runs for an option. */
  function JqProgram(q: QueryOption, serde: Store.Serde): (r: Result<string>)
    ensures r.Err? <==> (q.MetricsByFields? || q.SnapshotsByFields?) && serde.parseValue(OptionArgument(q)).Err?
    ensures r.Err? ==> r.error == Context(FieldsParseFailed, serde.parseValue(OptionArgument(q)).error)
    ensures q.Jq? ==> r == Ok(q.queryString)
  {
    match q
    case Jq(s) => Ok(s)
    case ExperimentById(id) => Ok(RawCall("experiment_by_id", id))
    case ExperimentByName(name) => Ok(RawCall("last_experiment_by_name", name))
    case AllExperimentsByName(name) => Ok(RawCall("experiments_by_name", name))
    case MetricsByExperimentId(id) => Ok(RawCall("metrics_by_experiment_id", id))
    case MetricsByFields(fields) =>
      var arg :- FieldsArgument(fields, serde);
      Ok(QuotedCall("metrics_by_json_string", arg))
    case SnapshotsByFields(fields) =>
      var arg :- FieldsArgument(fields, serde);
      Ok(QuotedCall("snapshots_by_json_string", arg))
    case SnapshotsByName(name) => Ok(RawCall("snapshots_by_name", name))
    case SnapshotByHash(hash) => Ok(RawCall("snapshot_by_hash", hash))
  }

  const UnreachableMessage := "Unreachable, should have been handled by handle_jq_query"

  /** The typed query `handle_specialized_query` builds for an option. */
  function Specialize(q: QueryOption): (r: Result<SpecializedQuery>)
    ensures r.Err? <==> IsJqOnly(q)
    ensures r.Err? ==> r.error == Msg(UnreachableMessage)
    ensures r.Ok? ==> QueryArgument(r.value) == OptionArgument(q)
  {
    match q
    case Jq(_) => Err(Msg(UnreachableMessage))
    case MetricsByFields(_) => Err(Msg(UnreachableMessage))
    case SnapshotsByFields(_) => Err(Msg(UnreachableMessage))
    case ExperimentById(id) => Ok(Experiment(Id(id)))
    case ExperimentByName(name) => Ok(Experiment(NameLast(name)))
    case AllExperimentsByName(name) => Ok(Experiment(NameAll(name)))
    case MetricsByExperimentId(id) => Ok(Metric(ByExperimentId(id)))
    case SnapshotsByName(name) => Ok(Snapshot(ByName(name)))
    case SnapshotByHash(hash) => Ok(Snapshot(ByHash(hash)))
  }

  /** Distinct options become distinct typed queries. */
  lemma SpecializeInjective(q1: QueryOption, q2: QueryOption)
    requires Specialize(q1).Ok? && Specialize(q1) == Specialize(q2)
    ensures q1 == q2
  {
  }

  /** For the six options both handlers implement, the jq program is a call
      of the jq function answering the typed query, applied to the same
      string (provided the string has no quote or backslash, which the raw
      splice would pass into the program text). */
  lemma TranslationsAgree(q: QueryOption, serde: Store.Serde)
    requires Specialize(q).Ok? && QuoteFree(OptionArgument(q))
    ensures JqProgram(q, serde).Ok?
    ensures ParseCall(JqProgram(q, serde).value) ==
      Some((JqFunction(Specialize(q).value), QueryArgument(Specialize(q).value)))
  {
    RawCallReads(JqFunction(Specialize(q).value), OptionArgument(q));
  }

  /** The by-fields programs pass the re-serialized JSON as one string argument. */
  lemma FieldsProgramReads(q: QueryOption, serde: Store.Serde)
    requires q.MetricsByFields? || q.SnapshotsByFields?
    requires serde.parseValue(OptionArgument(q)).Ok?
    requires '\0' !in serde.printValue(serde.parseValue(OptionArgument(q)).value)
    ensures JqProgram(q, serde).Ok?
    ensures ParseCall(JqProgram(q, serde).value) ==
      Some((if q.MetricsByFields? then "metrics_by_json_string" else "snapshots_by_json_string",
            serde.printValue(serde.parseValue(OptionArgument(q)).value)))
  {
    var arg := serde.printValue(serde.parseValue(OptionArgument(q)).value);
    QuotedCallReads(if q.MetricsByFields? then "metrics_by_json_string" else "snapshots_by_json_string", arg);
  }

  /** The raw splice changes the program for an argument holding a quote:
      the program no longer reads as a call with one string argument. */
  lemma QuotedArgumentBreaksProgram(q: QueryOption, serde: Store.Serde)
    requires Specialize(q).Ok? && OptionArgument(q) == "\""
    ensures JqProgram(q, serde).Ok? && ParseCall(JqProgram(q, serde).value) == None
  {
    RawCallBreaksOnQuote(JqFunction(Specialize(q).value));
  }

  /** `handle_jq_query`: the lines printed, one pretty-printed JSON value, or
      the panic of an evaluation error. */
  function HandleJq(store: Store.Store, q: QueryOption, serde: Store.Serde, engine: Engine): (r: Outcome<seq<string>>)
    ensures JqProgram(q, serde).Err? ==> r == Returned(Err(JqProgram(q, serde).error))
    ensures JqProgram(q, serde).Ok? ==>
      var program := JqProgram(q, serde).value;
      var run := engine.jq(serde.storeValue(store), program);
      (run.Produced? ==> r == Returned(Ok([serde.prettyValue(run.value)]))) &&
      (run.Rejected? ==> r == Returned(Err(Context("jq query '" + program + "' has failed", run.error)))) &&
      (run.Aborted? ==> r == Panicked(run.message))
  {
    match JqProgram(q, serde)
    case Err(e) => Returned(Err(e))
    case Ok(program) =>
      match engine.jq(serde.storeValue(store), program)
      case Produced(v) => Returned(Ok([serde.prettyValue(v)]))
      case Rejected(e) => Returned(Err(Context("jq query '" + program + "' has failed", e)))
      case Aborted(m) => Panicked(m)
  }

  /** `handle_specialized_query`: the lines printed, one per result, in result order. */
  function HandleSpecialized(store: Store.Store, q: QueryOption, engine: Engine): (r: Result<seq<string>>)
    ensures IsJqOnly(q) ==> r == Err(Msg(UnreachableMessage))
    ensures !IsJqOnly(q) ==>
      var results := engine.resolve(store, Specialize(q).value);
      (results.Ok? ==> r == Ok(results.value)) &&
      (results.Err? ==> r == Err(Context("Querying the store has failed", results.error)))
  {
    var query :- Specialize(q);
    match engine.resolve(store, query)
    case Ok(lines) => Ok(lines)
    case Err(e) => Err(Context("Querying the store has failed", e))
  }
}
