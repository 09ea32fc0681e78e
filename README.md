# etna-cli core, modelled in Dafny

This project models the bookkeeping core of `etna`, a command-line tool for
research experiments. It covers four parts.

- The workload list of an experiment's configuration (`config.toml`) and the
  `workload add`, `workload remove` and `workload list` commands.
- The `store query` command. It sends each query option either to the jq
  handler or to the specialized (typed) handler, and translates the option
  for that handler.
- The store document (`store.json`), its load and save, and the
  `store write` command, which appends a metric.
- Snapshot records built from the two git hash operations.

Modules follow the source files:

| module | file |
|---|---|
| `Config` | `config.dfy` |
| `AddWorkload` | `add_workload.dfy` |
| `RemoveWorkload` | `remove_workload.dfy` |
| `ListWorkloads` | `list_workloads.dfy` |
| `WorkloadOrder` | `workload_order.dfy` (the sort) |
| `StoreQuery` | `query.dfy` |
| `QueryLib` | `query_lib.dfy` |
| `JqText` | `jq_text.dfy` (program text) |
| `Store` | `store.dfy` |
| `StoreWrite` | `store_write.dfy` |
| `Snapshots` | `snapshot.dfy` |
| `Cli` | `cli.dfy` (the `QueryOption` enum) |
| `Entities` | `entities.dfy` (`Workload`, `Experiment`, `ExperimentSnapshot`, JSON values) |

The helper modules are `Wrappers` (results and `anyhow`-style error chains),
`Paths`, `Seqs` (order-preserving filters, `retain`) and `Disk`.

`Disk` holds the state the commands change. Its `FileSystem` class has file
contents, existing directories, a flag for whether a commit goes through
(the current directory is a usable git repository), and an ordered trace of
effects. The effects are directory
creation, copy, write, removal and commit.

Inputs the model does not compute are parameters:
- the home directory;
- the values of the `ETNA_REPO_DIR` and `ETNA_USE_JQ` environment variables (`None` when unset);
- the loaded configurations;
- the TOML printer;
- the serde_json operations (`Store.Serde`);
- the jq interpreter and the typed resolver (`QueryLib.Engine`);
- the git hash functions.

Design choices:

- **Paths.** Paths are sequences of components. `join` appends components,
  and every joined argument is one relative, non-empty component without
  separators.
- **The experiment configuration.** It is a value. The commands work on a
  local copy, push to or retain its list, and return the configuration they
  wrote.
- **`retain`** is modelled as the in-place compaction of a buffer
  (`Seqs.RetainInPlace`).
- **Sorting.** `sort_by` is an in-place insertion sort on an array
  (`WorkloadOrder.SortInPlace`). Rust's `sort_by` is a merge sort, but the
  comparator orders `(language, name)` totally and a `Workload` has only
  those two fields. So every sort gives the same list, and
  `WorkloadOrder.SortedUnique` proves this.

Parts of the program disagree about these types. This model uses
one consistent set of them:
- `ExperimentConfig` has the `path` field that the workload commands use.
  `ExperimentConfig::new` takes a path, as `new_experiment.rs` calls it.
- `Metric` is `{data, experiment_id}`, as `store write` builds it. There is no `snapshot_id`.
- `Experiment` carries an `id`. `workload add` takes it from the snapshot it
  takes, so the snapshot taker (`takeSnapshot`) gives the id together with
  the `ExperimentSnapshot` hashes and the store as the snapshot left it.
- The store's three collections are sequences.
- `Store.snapshots` holds the store file's own snapshot record `{etna, collection_script, workload}`.

The snapshot type has three variants and no fields. The store's collections
are vectors, modelled as sequences. A jq evaluation error panics; the model
keeps the panic as an outcome of its own (`Wrappers.Outcome.Panicked`), which
`store query` passes on untouched.

## Model

| member | source | states |
|---|---|---|
| `Config.AnyMatch` | src/config.rs:28-32 | true exactly when some entry of the list has the given language and name |
| `Config.NewExperimentConfig` | src/config.rs:18-24 | name, description and directory are the given ones; `has_workload` is false for every pair |
| `Config.ConfigTomlPath` | src/commands/workload/remove_workload.rs:34 | the file named `config.toml`, a direct child of the experiment directory |
| `Config.GetEtnaDir` | src/config.rs:63-67 | succeeds exactly when a home directory exists, giving its child `.etna`; otherwise fails with "Failed to get home directory" |
| `Config.NewEtnaConfig` | src/config.rs:47-61 | fails exactly when the etna directory cannot be found, with the same error; else `repo_dir = etna_dir/etna`, `venv_dir = etna_dir/.venv`, branch passed through, `configured = false` |
| `Config.ConfigPath` | src/config.rs:87-89 | `config.json`, a direct child of the etna directory |
| `Config.StorePath` | src/config.rs:91-93 | `store.json`, a direct child of the etna directory |
| `Config.EtnaPathsDistinct` | src/config.rs:47-93 | in a new configuration the repository, the virtual environment, `config.json` and `store.json` are four different paths |
| `Paths.WorkloadDir` | src/commands/workload/add_workload.rs:40 | `<root>/workloads/<language>/<name>` extends the root by exactly those three components |
| `Seqs.RetainInPlace` | src/commands/workload/remove_workload.rs:29-31 | after compaction the buffer's prefix of the returned length is exactly the kept elements in their original order |
| `Seqs.FilterCount` | src/commands/workload/list_workloads.rs:25-29 | filtering keeps every occurrence of a kept value and none of a dropped one |
| `Seqs.FilterIsSubsequence` | src/commands/workload/list_workloads.rs:25-29 | filtering preserves relative order |
| `AddWorkload.Invoke` | src/commands/workload/add_workload.rs:26-108 | a duplicate (language, name) fails with "already exists" and nothing changes; otherwise the source is `repo_dir/workloads/<language>/<workload>`, with `repo_dir` taken from `ETNA_REPO_DIR` when set and from the configuration otherwise; a missing source fails with "not found" and nothing changes; otherwise the parent of `experiment/workloads/<language>/<workload>` is created, the source is copied there, and `config.toml` is written with the old list followed by the new workload; when the commit does not go through it fails with its context and nothing more happens; a store that does not load fails with "Failed to load store" on top of the load error; a failing snapshot is passed on and nothing is saved; otherwise the store file is rewritten with the store the snapshot left behind, the experiment appended, and the updated configuration is returned |
| `AddWorkload.Stage` | src/commands/workload/add_workload.rs:40-86 | the destination's parent directory and all its ancestors exist, the destination exists, `config.toml` holds the old list followed by the new workload, and the three effects are recorded in order |
| `AddWorkload.CommitAndRecord` | src/commands/workload/add_workload.rs:88-108 | when the commit does not go through: the commit error with its context, nothing changed; otherwise the commit is recorded, then the store step's outcome |
| `AddWorkload.RecordExperiment` | src/commands/workload/add_workload.rs:92-107 | a store that does not load gives "Failed to load store" over its error and nothing is written; a snapshot failure is passed on and nothing is written; otherwise only the store file changes, to the store that taking the snapshot left behind with the experiment appended |
| `AddWorkload.Recorded` | src/commands/workload/add_workload.rs:98-104 | exactly one experiment is appended, with the configuration's name, description and path, the snapshot's id and hashes; metrics, snapshots and earlier experiments are unchanged |
| `AddWorkload.AddedSpec` | src/commands/workload/add_workload.rs:75-78 | the new list is the old one plus exactly one entry at the end; `has_workload` then holds; a list without duplicates stays without duplicates |
| `RemoveWorkload.Retain` | src/commands/workload/remove_workload.rs:29-31 | the retained list is the filter that drops entries matching both language and name |
| `RemoveWorkload.WithoutSpec` | src/commands/workload/remove_workload.rs:24-31 | no matching entry remains; every other entry keeps all its occurrences, in original relative order; the length drops by the number of matching entries, at least one when the pair was present |
| `RemoveWorkload.RemoveUndoesAdd` | src/commands/workload/remove_workload.rs:29-31 | removing a workload just added to a list that lacked it gives the original list back |
| `RemoveWorkload.Invoke` | src/commands/workload/remove_workload.rs:24-55 | an absent pair fails with "does not exist" and nothing changes; otherwise `config.toml` is written with the retained list first; `experiment/workloads/<language>/<workload>` is removed with everything below it, and the written config survives; a missing directory fails with "Failed to remove workload at ..." after the write; then the commit happens, and a failing commit is reported with its context |
| `WorkloadOrder.StrLeReflexive` | src/commands/workload/list_workloads.rs:31 | string comparison is reflexive |
| `WorkloadOrder.StrLeTotal` | src/commands/workload/list_workloads.rs:31 | any two strings are comparable |
| `WorkloadOrder.StrLeAntisymmetric` | src/commands/workload/list_workloads.rs:31 | strings that compare both ways are equal |
| `WorkloadOrder.StrLeTransitive` | src/commands/workload/list_workloads.rs:31 | string comparison is transitive |
| `WorkloadOrder.LeTotal` | src/commands/workload/list_workloads.rs:31 | the (language, name) comparator relates any two workloads |
| `WorkloadOrder.LeAntisymmetric` | src/commands/workload/list_workloads.rs:31 | workloads that compare both ways are equal |
| `WorkloadOrder.LeTransitive` | src/commands/workload/list_workloads.rs:31 | the (language, name) comparator is transitive |
| `WorkloadOrder.SortSpec` | src/commands/workload/list_workloads.rs:31 | the reference sort yields a sorted permutation of its input |
| `WorkloadOrder.SortedUnique` | src/commands/workload/list_workloads.rs:31 | two sorted permutations of the same workloads are equal |
| `WorkloadOrder.SortInPlace` | src/commands/workload/list_workloads.rs:31 | the array afterwards is the sorted permutation of its old contents |
| `ListWorkloads.SelectSpec` | src/commands/workload/list_workloads.rs:25-29 | "all" selects the whole list; any other filter selects exactly the workloads of that language, each as often as it occurs and in list order |
| `ListWorkloads.BuildTable` | src/commands/workload/list_workloads.rs:33-36 | the header row followed by one `(language, name)` row per workload in order |
| `ListWorkloads.Invoke` | src/commands/workload/list_workloads.rs:23-52 | kind "experiment" gives the header plus the rows of the selection sorted by (language, name); "available" fails as not implemented; any other kind fails with "Invalid kind" |
| `ListWorkloads.ListingSpec` | src/commands/workload/list_workloads.rs:25-36 | the listed workloads are sorted and a permutation of the selection, and the table has one header plus one row per selected workload |
| `Store.Default` | src/store.rs:8-14 | the default store has no metrics, snapshots or experiments |
| `Store.LoadFrom` | src/store.rs:17-26 | a missing path fails with "Store file does not exist"; an existing file gives what parsing its content gives, a parse failure included |
| `Store.Load` | src/store.rs:17-26 | reads without changing anything and returns the result of loading the current files |
| `Store.Save` | src/store.rs:28-32 | the file at the path is overwritten with the serialized store; nothing else changes |
| `Store.LoadAfterSave` | src/store.rs:17-32 | with serialization and parsing inverse, loading what was saved at a path gives the same store |
| `StoreWrite.Invoke` | src/commands/store/write.rs:10-30 | a store that does not load is reported first and nothing is saved; malformed metric JSON fails with a message naming the input and nothing is saved; otherwise the metrics gain exactly one entry at the end, snapshots and experiments are unchanged, the store is saved at the path it was loaded from, and loads back as the new store |
| `Snapshots.ParseTypeName` | src/snapshot.rs:15-23 | a parsed variant name is the name of the variant it gives |
| `Snapshots.TypeNameRoundTrip` | src/snapshot.rs:15-23 | "etna", "collection_script" and "workload" read back as their variants, so the three names are distinct |
| `Snapshots.Head` | src/snapshot.rs:26-33 | a head-hash failure propagates; otherwise the snapshot has the repository path, the given type and the head hash |
| `Snapshots.Take` | src/snapshot.rs:35-52 | a hash failure propagates; otherwise the snapshot's path is the repository path extended by the index path, with the given type and the tree hash |
| `JqText.RawCallReads` | src/commands/store/query/lib.rs:131-141 | a raw splice `name("arg")` reads back as that function applied to that argument when the argument has no quote or backslash |
| `JqText.QuotedCallReads` | src/commands/store/query/lib.rs:143-154 | a splice through `{:?}` reads back as the function applied to exactly the argument, for any argument without NUL, under the modelled `{:?}` escapes |
| `JqText.RawCallBreaksOnQuote` | src/commands/store/query/lib.rs:131-132 | a raw splice of a quote no longer reads as a one-argument call |
| `QueryLib.JqProgram` | src/commands/store/query/lib.rs:128-161 | `Jq` uses the user's string unchanged; only the two by-fields options can fail, exactly when their JSON does not parse, with "Failed to parse the fields json string" |
| `QueryLib.Specialize` | src/commands/store/query/lib.rs:171-199 | fails exactly for the three jq-only options, with the "Unreachable" error; otherwise the typed query carries the option's string |
| `QueryLib.SpecializeInjective` | src/commands/store/query/lib.rs:181-198 | the six options map one-to-one onto typed queries |
| `QueryLib.TranslationsAgree` | src/commands/store/query/lib.rs:128-199 | for the six options both handlers implement, the jq program calls the jq function answering the same typed query, on the same string |
| `QueryLib.FieldsProgramReads` | src/commands/store/query/lib.rs:143-154 | the by-fields programs call `metrics_by_json_string` or `snapshots_by_json_string` on the compactly re-serialized JSON |
| `QueryLib.QuotedArgumentBreaksProgram` | src/commands/store/query/lib.rs:131-160 | an argument that is a quote breaks the program of every raw-spliced option |
| `QueryLib.HandleJq` | src/commands/store/query/lib.rs:118-168 | a program error is returned as is; the jq result is printed once, pretty-printed; a parse or compile failure of `jaq_handler` is returned under "jq query '<program>' has failed"; an evaluation error is a panic with its message |
| `QueryLib.HandleSpecialized` | src/commands/store/query/lib.rs:171-209 | jq-only options give the "Unreachable" error; otherwise the resolver's results are printed one per line in result order, and its failure is reported with context |
| `StoreQuery.ParseUseJq` | src/commands/store/query.rs:15-17 | true exactly for "true"; false exactly for an unset variable or "false"; any other value is a parse error |
| `StoreQuery.Route` | src/commands/store/query.rs:19-33 | jq-only options always go to the jq handler; the others go there exactly when the flag is true |
| `StoreQuery.Invoke` | src/commands/store/query.rs:11-33 | a store load failure is returned whatever the flag; a malformed flag is returned next, before any dispatch, for every option; then the three jq-only options, and the others exactly when the flag is "true", give the jq handler's outcome with "Failed to handle jq query" on a returned error and a panic passed on; the rest give the specialized handler's result with "Failed to handle special query" |
| `StoreQuery.NeverUnreachable` | src/commands/store/query.rs:19-31 | whenever the specialized handler is chosen it implements the option, so its "Unreachable" error never comes out of `invoke` |
| `Disk.FileSystem.WriteFile` | src/commands/workload/add_workload.rs:81-86 | the file's whole content is replaced; the write is recorded |
| `Disk.FileSystem.CreateDirAll` | src/commands/workload/add_workload.rs:54-59 | the directory and all its ancestors exist afterwards |
| `Disk.FileSystem.CopyTree` | src/commands/workload/add_workload.rs:61-72 | the destination exists afterwards; the copy is recorded |
| `Disk.FileSystem.RemoveDirAll` | src/commands/workload/remove_workload.rs:48-51 | fails exactly when the path is not a directory; otherwise everything at or below it is gone |
| `Disk.FileSystem.Commit` | src/commands/workload/add_workload.rs:89-90 | succeeds when the commit goes through (`inGitRepo`), and the commit is recorded; otherwise it fails with "Failed to open git repository" |

## Left out

- Loading the configurations is not modelled. This covers `EtnaConfig::get_etna_config`, `ExperimentConfig::from_etna_config` and `from_current_dir`. They read files. The loaded configurations are parameters.
- `EtnaConfig::save` writes a file and is not modelled.
- `Store::take_snapshot` is not part of this model. `workload add` takes it as the parameter `takeSnapshot`. It takes the store and gives back the store as the snapshot left it, the experiment id and the snapshot hashes, or fails. What it changes in the store is not specified. `Store.experiments.insert(..)` is modelled as appending the experiment at the end.
- Disk.FileSystem.Commit: only the failure to open the repository is modelled. `inGitRepo` stands for "the commit goes through". The other failures of `commit_add_workload` and `commit_remove_workload` inside a repository are not modelled. These are getting the index, adding to the index, writing the tree, reading the head and committing. Adding to the index fails, for example, when `config.toml` is outside the repository that was opened.
- The workload copy is an effect that always succeeds. The exit status of `cp -r` is not checked in the source. The model does not include the spawn failure or the `canonicalize` failure in the copy's error context.
- I/O failures are not modelled. These are failures of `std::fs::write`, `create_dir_all`, TOML serialization and `Store::save`. An unreadable store file that exists is one opaque read error.
- The serde_json and TOML operations are function parameters. The store round trip is a stated assumption (`Store.StoreRoundTrips`), not a proof about serde.
- Query evaluation is the opaque `Engine.jq`. That covers jaq's parsing, compilation and running of the programs, and the definitions in `lib.jq`. The engine says which of its three outcomes happens: a value, a returned parse or compile error, or a panic. A panic comes from an evaluation error or from the value conversion. The model does not say which programs or inputs lead to which.
- `jaq_val_to_serde_value` and `jaq_error_to_anyhow_error` are not modelled. They convert library values, including floating-point numbers, and format messages.
- The typed resolver `Queriable::query` and the display of its results are the opaque `Engine.resolve`. So are the store lookups behind it, such as the latest-by-name resolution and snapshot deduplication. None of them are part of this model.
- `JqText.DebugEscape` models only part of `{:?}` string formatting.
  - Modelled: the backslash escapes for quote, backslash, newline, carriage return, tab and NUL.
  - Not modelled: the `\u{..}` escapes Rust writes for non-printable and grapheme-extended characters (combining marks such as U+0301, variation selectors such as U+FE0F).
  - On the jq side, `JqText.ReadBody` does not read `\u` escapes.
- JqText.QuotedCallReads and QueryLib.FieldsProgramReads: the read-back holds in the real program only for arguments without non-printable or grapheme-extended characters. Rust writes those as `\u{..}`, which jq cannot read, so for them the program's text does not parse. The model's `{:?}` leaves them raw.
- Table rendering and printing are not modelled: the `tabled` styles, `Extract::segment` and `println!`. `workload list` returns the rows.
- The following are outside this model:
  - `git_driver` (git calls; the hashes are parameters of `Snapshots.Head` and `Snapshots.Take`);
  - `python_driver`;
  - command-line parsing;
  - the experiment and config commands (`new`, `run`, `show`, `setup`, `change-branch`);
  - logging.
- Paths use a simplified join. Every joined argument is one relative, non-empty component without separators. `PathBuf::join` replaces the base when its argument is absolute. It splits an argument that holds `/`, such as a language or workload name. The model captures none of these. `ETNA_REPO_DIR` is given as an already-parsed path. A variable that is not valid Unicode counts as unset, as `std::env::var` reports it.
