# sinker, modelled in Dafny

sinker keeps Elasticsearch indices in step with Postgres materialized views.
For each configured view it does four things:

- It creates the view, a trigger function and one trigger per table the view's query reads.
- The triggers record the view in a *todo* table whenever a source row changes.
- It recreates the view's index and backfills it from the view.
- It polls in a loop. Each cycle pops the todo table, refreshes the popped views, drains the logical replication slot and sends the resulting bulk actions to Elasticsearch.

This project models the core of that behaviour as pure functions over immutable data, and proves properties of the model.

| file | module | models |
|---|---|---|
| `wrappers.dfy` | `Wrappers` | `Option` and `Result` |
| `faults.dfy` | `Faults` | the exceptions the source lets escape: `IndexError`, `KeyError`, `ValueError`, a missing definition file |
| `text.dfy` | `Text` | Python's `str.split`, `sep.join`, `str.rpartition` and `str.replace(c, "")` |
| `assoc.dfy` | `Assoc` | a Python dict built from key/value pairs, where a later pair wins |
| `slot_line.dfy` | `SlotLine` | `SLOT_RE` and `re.search` with it (see below) |
| `accepted_lines.dfy` | `AcceptedLines` | the change lines `SLOT_RE` accepts, and the proof that `re.search` returns their groups |
| `index_store.dfy` | `IndexStore` | bulk actions, and the search index as a map from (index, id) to document |
| `bulk_actions.dfy` | `BulkActions` | `BulkActionGenerator`: per-line classification, `index_action`, `delete_action`, and the drain of the slot |
| `query_templates.dfy` | `QueryTemplates` | every SQL template, literally, and `str.format` on it |
| `provision.dfy` | `Provision` | `Sinker`: `setup_pg`, `backfill_stream`, `setup_es`, `setup` |
| `runner.dfy` | `Runner` | `Runner.__init__` (sinkers, parent-table map, slot set-up) and `Runner.iterate` |

How `SlotLine` models `SLOT_RE`:

- `SpanAt` is a reference definition: it states, position by position, what a match of the pattern is.
- The matcher tries the alternatives in the order Python's backtracking engine does.
- The engine's order matters in three places:
  - the leftmost start wins;
  - the schema group is greedy and backtracks from its longest run;
  - an optional closing `"` is tried before it is left out.
- `SearchCorrect` shows that `Search` returns the groups of exactly the match `re.search` reports.
- The `.` between schema and table is unescaped in the source. It is therefore modelled as "any character except a newline".

Where the source leaves work to libraries, a file or the database, the model takes the result as an input:

- `TABLE_RE.findall(query)` is a sequence of matches.
- The contents of a `.sql` file are an `Option<string>`; `None` means the file is missing.
- Whether a `.json` index definition exists is a boolean.
- The rows of a view, as the backfill cursor returns them, are a sequence of `(id, doc)` pairs.
- A view refresh is a function from the view to the lines it appends to the replication slot.
- `views_to_indices.json` is a sequence of `(view, index)` pairs with distinct views, which is what a JSON object gives.

Effects on the outside world are values rather than actions:

- A `RunSql` effect carries the statements of one `execute` of `"; ".join(...)`.
- The other effects are the index deletion, the index creation and the bulk load.
- `Perform` gives the search index that results from a list of effects.

## Model

| member | source | states |
|---|---|---|
| SlotLine.SearchCorrect | src/sinker/bulk_action_generator.py:15-19 | `SLOT_RE.search` finds something exactly when some match of the pattern lies in the line. What it returns are the groups of the one match `re.search` reports: it starts leftmost and is the first of those starting there in the engine's backtracking order. |
| SlotLine.Search | src/sinker/bulk_action_generator.py:39-40 | Every group of a reported match is a non-empty run of its class: `[\w-]` for schema, table and id, `[A-Z]` for the op. |
| SlotLine.Extract | src/sinker/bulk_action_generator.py:15-19 | The four named groups cut out of a match each match their character class. |
| SlotLine.SearchFromFound | src/sinker/bulk_action_generator.py:39 | No match is skipped: the scan stops at or before the start of any match to its right. |
| SlotLine.SearchFromReported | src/sinker/bulk_action_generator.py:39 | The scan from position 0 finds a match exactly when the pattern matches somewhere. The match it finds is the one `re.search` reports. |
| AcceptedLines.SearchLineOf | src/sinker/bulk_action_generator.py:15-19 | Take a line `table <schema>.<table>: <op>: id[text]:'<id>'` followed by any text, where each group is a non-empty run of its class. `SLOT_RE.search` matches it at position 0 and returns exactly those four groups. |
| AcceptedLines.LineMatchAt | src/sinker/bulk_action_generator.py:15-19 | On such a line the engine's first match at position 0 is the one whose groups are the line's own: the schema run is taken whole and the `.` is taken bare. |
| AcceptedLines.LineParts | src/sinker/bulk_action_generator.py:15-19 | Each group and each literal piece of such a line lies at its own position: `table ` at 0, the schema at 6, and so on up to the closing `'`. |
| AcceptedLines.LineOfChars | src/sinker/bulk_action_generator.py:15-19 | A character occurs in such a line exactly when it occurs in the fixed text of the pattern, in one of the groups, or in the text after the id. |
| AcceptedLines.LineOfAppend | src/sinker/bulk_action_generator.py:15-19 | Extending the text after the id extends the line and changes nothing before it. |
| SlotLine.MatchAtFound | src/sinker/bulk_action_generator.py:15-19 | Whenever the pattern matches at a position, the matcher reports a match there, with the same head, and no later in the engine's order than that match. |
| SlotLine.TrySchemaFound | src/sinker/bulk_action_generator.py:16 | The greedy `[\w-]+` schema group, backtracking one character at a time, finds a match no later in the engine's order than any other schema group from the same start. |
| SlotLine.TableFound | src/sinker/bulk_action_generator.py:16 | The table group never needs backtracking: the table part found at a position is the only one there. |
| SlotLine.SpanUnique | src/sinker/bulk_action_generator.py:15-19 | A match is determined by its start, the end of its schema group and whether it takes the schema's closing quote. |
| SlotLine.ReportedUnique | src/sinker/bulk_action_generator.py:39 | At most one match is the reported one. |
| SlotLine.NoMatchWithoutQuote | src/sinker/bulk_action_generator.py:17 | A line containing no `'` never matches, because the id group is closed by one. |
| BulkActions.Decide | src/sinker/bulk_action_generator.py:44-58 | The line indexes exactly when its table is a view and the op is INSERT. It deletes exactly when its table is a parent table and the op is DELETE. The index named is the one the matching map gives. |
| BulkActions.OtherOpsIgnored | src/sinker/bulk_action_generator.py:57-58 | An op other than INSERT or DELETE (an UPDATE, say) yields nothing, whatever the table. |
| BulkActions.ViewBranchFirst | src/sinker/bulk_action_generator.py:44-51 | For a table in both maps, an INSERT takes the view branch and a DELETE still deletes. |
| BulkActions.DocOf | src/sinker/bulk_action_generator.py:45 | The document fails with `IndexError` exactly when `doc[json]:` does not occur. Otherwise it is the text after the first marker, up to the next marker or the end, with every `'` removed. |
| BulkActions.YieldsOnlyOnMatch | src/sinker/bulk_action_generator.py:39-40 | A line in which the pattern matches nowhere yields nothing and does not raise. |
| BulkActions.TableQuoteFree | src/sinker/bulk_action_generator.py:43 | The extracted table never contains `"`, so the quote removal leaves it unchanged. |
| BulkActions.SchemaIgnored | src/sinker/bulk_action_generator.py:42-56 | The outcome does not depend on the schema group. |
| BulkActions.ClassifyMatched | src/sinker/bulk_action_generator.py:42-89 | The full decision table for a matching line. A view INSERT yields `Index(views_to_indices[table], id, doc)`, or `IndexError` when the doc marker is missing. A parent-table DELETE yields `Delete(parent_tables_to_indices[table], id)`. Anything else yields nothing. |
| BulkActions.ClassifyLineOf | src/sinker/bulk_action_generator.py:39-58 | A change line built from well-formed groups follows the decision table on exactly those groups, whatever follows the id. A view INSERT indexes into the view's index, or raises `IndexError` without a document. A parent-table DELETE deletes from the table's index. Anything else yields nothing. |
| BulkActions.DocOfSingleMarker | src/sinker/bulk_action_generator.py:45 | When the only `j` of a line is the one in its single `doc[json]:` marker, the document is the text after the marker with every `'` removed. |
| BulkActions.DeleteLineExample | src/sinker/bulk_action_generator.py:60-73 | The docstring's line `table public.foo: DELETE: id[text]:'a-1'` (line 64) yields the delete of document `a-1` from `parent_tables_to_indices["foo"]`. |
| BulkActions.IndexLineExample | src/sinker/bulk_action_generator.py:75-90 | The docstring's line `table sinker.foo_mv: INSERT: id[text]:'a-1' doc[json]:'{"name" : "Foo Bar"}'` (line 79) yields the index action into `views_to_indices["foo_mv"]`, with id `a-1` and source `{"name" : "Foo Bar"}`. |
| BulkActions.ClassifyLine | src/sinker/bulk_action_generator.py:39-58 | One loop iteration: no match yields nothing (`BulkActions.YieldsOnlyOnMatch`), and a match follows the decision table of `BulkActions.ClassifyMatched`. |
| BulkActions.NoTupleDeleteSkipped | src/sinker/sinker.py:122-127 | The view delete line `table sinker.foo_mv: DELETE: (no-tuple-data)` is skipped. |
| BulkActions.DrainWith | src/sinker/bulk_action_generator.py:37-58 | Draining yields at most one action per line. An exception that stops it is the one some line raised. |
| BulkActions.DrainCompletes | src/sinker/bulk_action_generator.py:37-58 | The drain runs to the end exactly when no line raises. |
| BulkActions.DrainCons | src/sinker/bulk_action_generator.py:37-58 | A failing first line stops the drain with nothing yielded. Otherwise its action, if any, comes before those of the rest. |
| BulkActions.DrainAppend | src/sinker/bulk_action_generator.py:37-58 | Draining two batches is draining the first and then, unless it raised, the second. The actions appear in line order. |
| BulkActions.GenerateFails | src/sinker/bulk_action_generator.py:37-58 | `generate_actions` stops early exactly when some pending line raises while it is classified. |
| BulkActions.Generate | src/sinker/bulk_action_generator.py:28-58 | `generate_actions` over the lines pending in the slot. It drains them through `ClassifyLine`, with the properties of `BulkActions.DrainWith`, `BulkActions.DrainCompletes` and `BulkActions.GenerateFails`. |
| BulkActions.GenerateOne | src/sinker/bulk_action_generator.py:37-58 | A single line drains to exactly the action it classifies to, or to its exception. |
| IndexStore.Apply | tests/test_e2e.py:43-55 | An index action stores its source under its (index, id). A delete removes that address. No other address changes. |
| IndexStore.ApplyAll | src/sinker/runner.py:106 | The actions are applied one after the other, in order. What a batch leaves at each address is stated by `IndexStore.LastWriteWins`, and splitting a batch by `IndexStore.ApplyAllAppend`. |
| IndexStore.ApplyAllAppend | src/sinker/runner.py:106 | Applying two batches one after the other is applying their concatenation. |
| IndexStore.LastOn | tests/test_e2e.py:43-55 | Returns the last action of a batch that names a given address: it is in the batch and no later action names that address. When it returns nothing, no action names the address. |
| IndexStore.LastWriteWins | tests/test_e2e.py:43-55 | After a batch, an address holds the source of the batch's last action on it if that action is an index. It is absent if that action is a delete. It is as before if no action names it. |
| IndexStore.DropIndex | src/sinker/sinker.py:79 | Deleting an index removes exactly that index's documents and keeps every other one. |
| QueryTemplates.FillSplit | src/sinker/query_templates.py:1-34 | `str.format` writes the n-th argument into the n-th `{}` hole, between the filled text before it and after it. |
| Text.FindFrom | src/sinker/bulk_action_generator.py:45 | A position it returns is an occurrence of the pattern at or after the start. |
| Text.FindFromFirst | src/sinker/bulk_action_generator.py:45 | The occurrence it returns is the first one. When it returns nothing, there is none. |
| Text.Split | src/sinker/runner.py:88 | `str.split` always returns at least one piece. |
| Text.SplitJoin | src/sinker/bulk_action_generator.py:45 | Joining the pieces of a split with the separator gives the original text back. |
| Text.JoinSplit | src/sinker/sinker.py:117 | Splitting a join at the separator gives the pieces back, when no piece contains the separator and the separator is two different characters, as `"; "` is. |
| Text.FirstSeparator | src/sinker/sinker.py:117 | In `p + sep + t`, with `p` free of such a separator, the first occurrence is the one right after `p`. |
| Text.OnlyOccurrence | src/sinker/bulk_action_generator.py:45 | If a character of the pattern appears in the text only where one occurrence puts it, that occurrence is the only one. |
| Text.SplitOnce | src/sinker/bulk_action_generator.py:45 | A separator that occurs exactly once splits the text into the part before it and the part after it. |
| Text.SplitPiecesFree | src/sinker/bulk_action_generator.py:45 | No piece of a split contains the separator. |
| Text.SplitMany | src/sinker/runner.py:88 | A split has a second piece exactly when the separator occurs. |
| Text.SecondPiece | src/sinker/bulk_action_generator.py:45 | Piece `[1]` is the text between the first occurrence of the separator and the next occurrence or the end. |
| Text.FirstPiece | src/sinker/runner.py:88 | Piece `[0]` is a prefix of the text that ends at the first occurrence of the separator, or at the end when there is none. |
| Text.RemoveChar | src/sinker/bulk_action_generator.py:43 | `replace(c, "")` leaves no `c` and never lengthens the text. |
| Text.RemoveAbsentChar | src/sinker/bulk_action_generator.py:43 | Removing a character that does not occur changes nothing. |
| Text.RemoveCharKeepsOthers | src/sinker/bulk_action_generator.py:45 | Removing a character keeps every other character: the multiset loses exactly its copies of `c`. |
| Text.RemoveCharAppend | src/sinker/bulk_action_generator.py:45 | Removal works piece by piece: removing from `a + b` is removing from `a`, then from `b`. So the characters kept stay in their order. |
| Text.RPartition | src/sinker/sinker.py:110 | `rpartition` gives three parts that concatenate to the input. The tail has no separator. The middle part is the separator, or both it and the head are empty. |
| Assoc.FromPairsLastWins | src/sinker/runner.py:47-49 | A dict built from pairs has exactly the pairs' keys. A key maps to the value of its last pair. |
| Provision.SplitSchemaTable | src/sinker/sinker.py:110-111 | The table is what follows the last `.`, and has none. The schema is the text before that `.`, or `public` when it is empty or there is no `.`. |
| Provision.SplitSchemaTableJoin | src/sinker/sinker.py:110-112 | Splitting `schema.table`, for a table without `.`, gives back both parts, with an empty schema read as `public`. The trigger name is `<SINKER_SCHEMA>_<view>_<schema>_<table>` over those parts. |
| Provision.Triggers | src/sinker/sinker.py:109-114 | Gives one trigger statement per `TABLE_RE` match, in match order. |
| Provision.PlanPg | src/sinker/sinker.py:92-116 | The DDL list is, in order: drop view, create view, create unique index, create function, one trigger per match in match order, then the todo entry. It has exactly 5 + matches statements. |
| Provision.PlanTriggers | src/sinker/sinker.py:105-114 | The trigger statements of the plan are exactly those of the matches, in match order. Each one executes the view's `_fn` function. |
| Provision.Render | src/sinker/sinker.py:117 | The script is made of each statement's SQL, in order. |
| Provision.ScriptSplits | src/sinker/sinker.py:117 | `Script` is `"; ".join` of the statements' SQL. Splitting it at `"; "` gives each statement's SQL back, in order, when none contains `"; "` itself. An empty plan is the empty script. |
| Provision.LastMatch | src/sinker/sinker.py:128 | `schema_tables[-1]` is the last match, or an `IndexError` when there is none. |
| Provision.SetupPg | src/sinker/sinker.py:86-128 | A missing query file raises before anything runs. Otherwise the whole plan runs as one script. The parent table becomes the last raw match. The step raises `IndexError`, after the script has run, exactly when there is no match. |
| Provision.ParentIsLastTrigger | src/sinker/sinker.py:108-128 | The parent table is the table of the plan's last trigger. |
| Provision.Backfill | src/sinker/sinker.py:58-70 | Produces exactly one `{_id, _index, _source}` index action per row, in cursor order. |
| Provision.BackfillAt | src/sinker/sinker.py:52-70 | At any address, backfilling leaves the document of the last row with that id under the index, or what was there before. |
| Provision.BackfillLoads | src/sinker/sinker.py:52-70 | Backfilling stores every row under the index, a later row with the same id winning. Every other address is left alone. |
| Provision.SetupEs | src/sinker/sinker.py:45-84 | A missing index definition raises before the index is touched. Otherwise the index is deleted, then created, then backfilled. |
| Provision.SetupEsLoads | src/sinker/sinker.py:45-84 | Afterwards the index holds exactly the view's rows, whatever it held before. Every other index is unchanged. |
| Provision.SetupParent | src/sinker/sinker.py:36-43 | `setup` sets the parent table exactly when `setup_pg` reaches its end. Otherwise it stays as it was (`""` for a fresh sinker). |
| Provision.SetupOrder | src/sinker/sinker.py:38-48 | `setup_pg`'s script runs before the index is deleted, created and loaded, in that order. Each failure stops the sequence where the source raises. |
| Provision.Setup | src/sinker/sinker.py:38-43 | `setup_pg`, then `setup_es` only if `setup_pg` did not raise. Its outcome in each case is stated by `Provision.SetupOrder` and its four case lemmas. |
| Provision.SetupNoQuery | src/sinker/sinker.py:94-96 | Without the query file `setup` raises before any effect, and the sinker is unchanged. |
| Provision.SetupPgReachesEnd | src/sinker/sinker.py:86-128 | With the query file and at least one table, `setup_pg` raises nothing. Its only effect is the one script, and the parent table becomes the last match. |
| Provision.SetupNoTable | src/sinker/sinker.py:117-128 | When `TABLE_RE` finds no table, the script has already run when `IndexError` is raised. The index is not touched and the parent table is not set. |
| Provision.SetupNoMapping | src/sinker/sinker.py:72-79 | Without the index definition, the script has run and the parent table is set, but the index is never deleted, created or loaded. |
| Provision.SetupRunsAll | src/sinker/sinker.py:38-84 | With both files and at least one table, the effects are exactly: the script, then delete, create and load of the index with the backfill actions. |
| Runner.Enqueue | src/sinker/query_templates.py:15-22 | The trigger's insert adds the view's entry unless it is already pending. The todo table stays free of duplicates. The slot and the index are untouched. |
| Runner.EnqueueIdempotent | src/sinker/query_templates.py:18 | Enqueueing a view that is already pending leaves the world unchanged (`on conflict do nothing`). Hence enqueueing twice is enqueueing once. |
| Runner.ViewOfEntry | src/sinker/runner.py:88 | `entry.split(".")[1]` raises `IndexError` exactly when the entry has no `.`. A view it returns has no `.`. |
| Runner.ViewOfEntryRoundTrip | src/sinker/runner.py:87-89 | The entry `<schema>.<view>` that `setup_pg` writes gives the view back, when neither part has a `.`. |
| Runner.LookupViews | src/sinker/runner.py:86-91 | Succeeds exactly when every popped entry splits and names a known view. It then returns those views, index by index. Otherwise it fails with `IndexError`, or with the `KeyError` of an unknown view. |
| Runner.IterateShape | src/sinker/runner.py:68-107 | With nothing popped the cycle only sleeps, leaving slot and index as they were. A cycle with work refreshes each popped view once, in order, and drains after every refresh. It leaves the todo table and the slot empty. |
| Runner.Iterate | src/sinker/runner.py:68-107 | One polling cycle: pop, refresh, drain, bulk. Its properties are in `Runner.IterateShape`, `Runner.IterateFails`, `Runner.IterateAppliesInOrder` and `Runner.IterateLastWrite`. |
| Runner.IterateFails | src/sinker/runner.py:86-106 | A cycle raises exactly when an entry names no known view or a pending line raises while it is classified. Items that Elasticsearch rejects are not modelled (see "Left out"). |
| Runner.IterateAppliesInOrder | src/sinker/runner.py:99-106 | The drain applies the actions of the lines that were already pending, then those of the lines the refreshes appended, each in slot order. |
| Runner.IterateLastWrite | tests/test_e2e.py:43-55 | After a cycle, each address holds the document of the cycle's last index action on it. It is absent after a last delete. It is untouched if no action names it. |
| Runner.ParentTablesLaterWins | src/sinker/runner.py:47-49 | The parent-table map's keys are the sinkers' parent tables. Each table maps to the index of the last sinker with that parent table. |
| Runner.ParentTablesToIndices | src/sinker/runner.py:47-49 | The dict comprehension from parent table to index over the sinkers in file order. Its keys and values are stated by `Runner.ParentTablesLaterWins`. |
| Runner.SetupSlot | src/sinker/runner.py:52-59 | The slot is counted first and created last. It is dropped exactly when one exists. Afterwards exactly one slot has that name, and other slots are unchanged. |
| Runner.SetupSlotIdempotent | src/sinker/runner.py:52-59 | Setting the slot up twice leaves the same slots as setting it up once. |
| Runner.SetupAll | src/sinker/runner.py:43-45 | Produces one set-up outcome per configured view. |
| Runner.SetupAllSinkers | src/sinker/runner.py:43-45 | Each set-up leaves its view's sinker with the view's index and the parent table its set-up reached, or `""`. |
| Runner.StartRunnerSinkers | src/sinker/runner.py:38-49 | `views_to_sinkers` sends each view to its own sinker. The parent-table map is built from the sinkers in file order. |
| Runner.Init | src/sinker/runner.py:27-61 | Start-up fails with `ValueError` exactly when no view is configured (`max_workers=0` at line 43). The todo-table reset has run by then, and it is the first effect in both cases. The state of a start-up that succeeds is stated by `Runner.InitState` and `Runner.InitSinkers`. |
| Runner.InitSinkers | src/sinker/runner.py:38-49 | After start-up every view has its sinker with its index and reached parent table. The generator's parent-table map is derived from exactly those sinkers. |
| Runner.InitState | src/sinker/runner.py:27-61 | A start-up that succeeds leaves one todo entry per view whose script ran, none twice, and an empty slot. Exactly one replication slot of the configured name exists afterwards, and the generator knows every configured view. |
| Runner.SetupEntriesSpec | src/sinker/sinker.py:115-116 | The set-up scripts leave exactly the qualified names of the views whose query exists, each once. |
| Runner.SchemaViewNameInjective | src/sinker/sinker.py:97 | Different views have different qualified names. |

## Left out

- Connections, cursors and the Elasticsearch client are left out. Cursor chunking (`PGCHUNK_SIZE`, `itersize`) does not change what is read, so the model reads whole sequences.
- The `bulk` helper's chunking, retries and raise-on-error flags are left out. A cycle that raises is modelled as a `Failure` without a resulting state: the process stops, and a restart rebuilds the todo table, the views and the slot. The model does not say which chunks reached the index before the exception.
- Runner.IterateFails: with the default `ELASTICSEARCH_RAISE_ON_ERROR` (`src/sinker/settings.py:27`), `bulk` also raises when Elasticsearch rejects an item. The commonest case is a 404 on a delete whose document is absent, because every parent-table DELETE yields a delete action (`src/sinker/bulk_action_generator.py:51-56`). The model applies such a delete as a no-op and does not model rejected items. A cycle can therefore fail in the source where `Runner.IterateFails` says it succeeds.
- Thread pools are left out. The set-ups (`src/sinker/runner.py:43-45`) and the refreshes (`src/sinker/runner.py:86-90`) run one after the other, in order. A set-up that raises inside its worker is lost with it: its effects up to the exception are kept. Its sinker keeps whatever `setup_pg` had set before the exception, so the parent table is set when only `setup_es` raised. The model claims nothing about refresh failures.
- SQL semantics are left out: materialized-view refresh, triggers firing, logical decoding. A refresh is an input function that returns the lines it appends to the slot.
- `Runner.Enqueue` is the trigger function's effect, stated on its own. The model has no step in which a concurrent write enqueues during a cycle.
- `TABLE_RE.findall` is an input sequence rather than a regex model. File reads and JSON parsing are inputs too. `recreate_index`'s mappings and settings do not affect stored documents, so they are not modelled.
- `SlotLine.SearchCorrect`: `\w` is modelled as ASCII letters, digits and underscore. `\s` is modelled as ASCII whitespace plus the separators 0x1c-0x1f. Python's Unicode classes also accept other letters and spaces.
- `Runner.Init` requires distinct view names, as a JSON object's keys are.
- Logging, `sleep(SINKER_POLL_INTERVAL)` and the endless `run` loop are left out. The sleep is the `Sleep` event of a cycle.
- `Runner.SetupAll`: its contract states only the number of outcomes. What each outcome leaves is stated by `Runner.SetupAllSinkers`.
- src/sinker/utils.py (`parse_schema_tables`) and src/sinker/es.py are not part of this model. They wrap libraries whose behaviour is not visible, and the core does not call `parse_schema_tables`.
- Settings come from the environment. Only `DEFAULT_SCHEMA` and `SCHEMA_TABLE_DELIMITER` are constants. The schema, todo table and slot name are fields of `Settings`; `DefaultSettings` holds their defaults.
