/** `etna workload list`: the experiment's workloads, optionally of one
    language, as table rows sorted by language and then name. */
module ListWorkloads {

  import opened Wrappers
  import opened Seqs
  import opened Entities
  import opened Config
  import opened WorkloadOrder

  /** The predicate given to `filter`: every workload for "all", otherwise
      those of the given language. */
  function Selects(language: string): Workload -> bool {
    (w: Workload) => language == "all" || language == w.language
  }

  function Select(ws: seq<Workload>, language: string): seq<Workload> {
    Filter(ws, Selects(language))
  }

  /** The language filter: "all" selects the whole list; any other value
      selects exactly the workloads of that language, each as often as it
      occurs and in list order. */
  lemma SelectSpec(ws: seq<Workload>, language: string)
    ensures language == "all" ==> Select(ws, language) == ws
    ensures language != "all" ==>
      forall w :: multiset(Select(ws, language))[w] == (if w.language == language then multiset(ws)[w] else 0)
    ensures IsSubsequence(Select(ws, language), ws)
  {
    if language == "all" {
      FilterKeepsAll(ws, Selects(language));
    }
    forall w {
      FilterCount(ws, Selects(language), w);
    }
    FilterIsSubsequence(ws, Selects(language));
  }

  type Row = (string, string)

  const Header: Row := ("Language", "Name")

  /** One `(language, name)` row per workload, in list order. */
  function Rows(ws: seq<Workload>): seq<Row> {
    seq(|ws|, i requires 0 <= i < |ws| => (ws[i].language, ws[i].name))
  }

  lemma RowsSnoc(ws: seq<Workload>, w: Workload)
    ensures Rows(ws + [w]) == Rows(ws) + [(w.language, w.name)]
  {
  }

  /** The `for` loop that pushes one row per workload after the header. */
  method BuildTable(languages: array<Workload>) returns (table: seq<Row>)
    ensures table == [Header] + Rows(languages[..])
  {
    table := [Header];
    for i := 0 to languages.Length
      invariant table == [Header] + Rows(languages[..i])
    {
      assert languages[..i + 1] == languages[..i] + [languages[i]];
      RowsSnoc(languages[..i], languages[i]);
      table := table + [(languages[i].language, languages[i].name)];
    }
    assert languages[..languages.Length] == languages[..];
  }

  function InvalidKind(kind: string): Error {
    Msg("Invalid kind: " + kind)
  }

  const NotImplemented: Error := Msg("'available' kind is not implemented yet")

  /** `list_workloads::invoke` after the configurations are loaded: returns
      the rows of the table it prints. The configuration is taken by value
      and never changed. */
  method Invoke(cfg: ExperimentConfig, language: string, kind: string) returns (r: Result<seq<Row>>)
    ensures kind == "experiment" ==> r == Ok([Header] + Rows(Sort(Select(cfg.workloads, language))))
    ensures kind == "available" ==> r == Err(NotImplemented)
    ensures kind != "experiment" && kind != "available" ==> r == Err(InvalidKind(kind))
  {
    if kind == "experiment" {
      var selected := Select(cfg.workloads, language);
      var languages := new Workload[|selected|](i requires 0 <= i < |selected| => selected[i]);
      assert languages[..] == selected;
      SortInPlace(languages);
      var table := BuildTable(languages);
      r := Ok(table);
    } else if kind == "available" {
      r := Err(NotImplemented);
    } else {
      r := Err(InvalidKind(kind));
    }
  }

  /** The listing for kind "experiment": a header followed by one row per
      selected workload; the workloads appear sorted by (language, name) and
      are a permutation of the selection. */
  lemma ListingSpec(ws: seq<Workload>, language: string)
    ensures var sorted := Sort(Select(ws, language));
      var table := [Header] + Rows(sorted);
      Sorted(sorted) && multiset(sorted) == multiset(Select(ws, language)) &&
      |table| == 1 + |Select(ws, language)| && table[0] == Header &&
      forall i :: 0 < i < |table| ==> table[i] == (sorted[i - 1].language, sorted[i - 1].name)
  {
    var selected := Select(ws, language);
    SortSpec(selected);
    assert |multiset(Sort(selected))| == |multiset(selected)|;
  }
}
