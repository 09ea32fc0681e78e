/** `etna store query`: load the store, read the `ETNA_USE_JQ` flag, and
    send the option to one of the two handlers. */
module StoreQuery {

  import opened Wrappers
  import opened Paths
  import opened Cli
  import opened Config
  import opened QueryLib
  import Store

  /** `std::env::var("ETNA_USE_JQ").unwrap_or("false").parse::<bool>()`,
      with `None` for an unset variable. */
  function ParseUseJq(flag: Option<string>): (r: Result<bool>)
    ensures r == Ok(true) <==> flag == Some("true")
    ensures r == Ok(false) <==> flag == None || flag == Some("false")
    ensures r.Err? ==> r.error == Foreign("str::parse::<bool>")
  {
    var text := if flag.Some? then flag.value else "false";
    if text == "true" then Ok(true)
    else if text == "false" then Ok(false)
    else Err(Foreign("str::parse::<bool>"))
  }

  datatype Handler = JqHandler | SpecializedHandler

  /** The dispatch rule of `invoke`. */
  function Route(q: QueryOption, useJq: bool): (h: Handler)
    ensures IsJqOnly(q) ==> h == JqHandler
    ensures !IsJqOnly(q) ==> (h == JqHandler <==> useJq)
  {
    match q
    case Jq(_) => JqHandler
    case MetricsByFields(_) => JqHandler
    case SnapshotsByFields(_) => JqHandler
    case _ => if useJq then JqHandler else SpecializedHandler
  }

  /** `query::invoke` after the tool configuration is loaded: the lines it
      prints, its error, or the panic of the jq handler. A store that does not
      load is reported whatever the flag says; a malformed flag is reported
      next, before any dispatch; then the jq handler answers the three
      jq-only options whatever the flag says, and the others exactly when the
      flag is "true". */
  function Invoke(files: map<Path, string>, dirs: set<Path>, etna: EtnaConfig, flag: Option<string>,
                  q: QueryOption, serde: Store.Serde, engine: Engine): (r: Outcome<seq<string>>)
    ensures var loaded := Store.LoadFrom(files, dirs, StorePath(etna), serde);
      loaded.Err? ==> r == Returned(Err(loaded.error))
    ensures var loaded := Store.LoadFrom(files, dirs, StorePath(etna), serde);
      loaded.Ok? && ParseUseJq(flag).Err? ==> r == Returned(Err(Foreign("str::parse::<bool>")))
    ensures var loaded := Store.LoadFrom(files, dirs, StorePath(etna), serde);
      loaded.Ok? && ParseUseJq(flag).Ok? ==>
        if IsJqOnly(q) || flag == Some("true")
        then r == OutcomeWithContext(HandleJq(loaded.value, q, serde, engine), "Failed to handle jq query")
        else r == Returned(WithContext(HandleSpecialized(loaded.value, q, engine), "Failed to handle special query"))
  {
    match Store.LoadFrom(files, dirs, StorePath(etna), serde)
    case Err(e) => Returned(Err(e))
    case Ok(store) =>
      match ParseUseJq(flag)
      case Err(e) => Returned(Err(e))
      case Ok(useJq) =>
        match Route(q, useJq)
        case JqHandler => OutcomeWithContext(HandleJq(store, q, serde, engine), "Failed to handle jq query")
        case SpecializedHandler => Returned(WithContext(HandleSpecialized(store, q, engine), "Failed to handle special query"))
  }

  /** The specialized handler is only ever given an option it implements, so
      its "Unreachable" error cannot come out of `invoke`. */
  lemma NeverUnreachable(files: map<Path, string>, dirs: set<Path>, etna: EtnaConfig, flag: Option<string>,
                         q: QueryOption, serde: Store.Serde, engine: Engine)
    requires Store.LoadFrom(files, dirs, StorePath(etna), serde).Ok?
    ensures forall useJq :: Route(q, useJq) == SpecializedHandler ==> Specialize(q).Ok?
    ensures Invoke(files, dirs, etna, flag, q, serde, engine) !=
      Returned(Err(Context("Failed to handle special query", Msg(UnreachableMessage))))
  {
  }
}
