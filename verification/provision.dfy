/** sinker.py: provisioning one materialized view (`setup_pg`) and its
    Elasticsearch index (`setup_es`), and the backfill that loads the index. */
module Provision {
  import opened Wrappers
  import opened Text
  import opened Faults
  import opened IndexStore
  import opened QueryTemplates
  import opened Assoc

  /** settings.py: the schema of a table named without one. */
  const DefaultSchema: string := "public"

  /** settings.py: the separator between a schema and a table. */
  const SchemaTableDelimiter: char := '.'

  /** The environment settings the provisioning and the runner read. */
  datatype Settings = Settings(sinkerSchema: string, todoTable: string, replicationSlot: string)

  /** What settings.py falls back to when the environment sets nothing. */
  const DefaultSettings: Settings := Settings(DefaultSchema, "todo", "sinker")

  /** A `Sinker`: a view, its index, and the parent table whose deletes are
      forwarded ("" until `setup_pg` has set it). */
  datatype Sinker = Sinker(view: string, index: string, parentTable: string)

  /** `f"{SINKER_SCHEMA}.{view}"`, the qualified view name. */
  function SchemaViewName(st: Settings, view: string): string
  {
    st.sinkerSchema + "." + view
  }

  /** The trigger function of a view: its qualified name with `_fn`. */
  function FunctionName(st: Settings, view: string): string
  {
    SchemaViewName(st, view) + "_fn"
  }

  predicate HasDelimiter(m: string)
  {
    exists i :: 0 <= i < |m| && m[i] == SchemaTableDelimiter
  }

  /** `schema, _, table = m.rpartition(".")` then `schema = schema or "public"`:
      the table is what follows the last `.`, the schema what precedes it, and a
      missing or empty schema is `public`. */
  function SplitSchemaTable(m: string): (r: (string, string))
    ensures forall i :: 0 <= i < |r.1| ==> r.1[i] != SchemaTableDelimiter
    ensures !HasDelimiter(m) ==> r == (DefaultSchema, m)
    ensures HasDelimiter(m) ==>
              var d := |m| - |r.1| - 1;
              0 <= d && m[d] == SchemaTableDelimiter && m[d + 1..] == r.1 &&
              r.0 == (if d == 0 then DefaultSchema else m[..d])
  {
    var (schema, sep, table) := RPartition(m, SchemaTableDelimiter);
    if sep == "" then
      assert m == table;
      (DefaultSchema, table)
    else
      assert m == schema + [SchemaTableDelimiter] + table;
      assert m[|schema|] == SchemaTableDelimiter && m[|schema| + 1..] == table && m[..|schema|] == schema;
      (if schema == "" then DefaultSchema else schema, table)
  }

  /** `f"{SINKER_SCHEMA}_{view}_{schema}_{table}"`. */
  function TriggerName(st: Settings, view: string, m: string): string
  {
    var (schema, table) := SplitSchemaTable(m);
    st.sinkerSchema + "_" + view + "_" + schema + "_" + table
  }

  /** Splitting `schema.table` gives back both parts when the table has no `.`
      (the schema may have some: the split is at the last one), an empty schema
      reading as `public`; the trigger is named after those parts. */
  lemma {:induction false} SplitSchemaTableJoin(st: Settings, view: string, schema: string, table: string)
    requires forall i :: 0 <= i < |table| ==> table[i] != SchemaTableDelimiter
    ensures var s := if schema == "" then DefaultSchema else schema;
            SplitSchemaTable(schema + [SchemaTableDelimiter] + table) == (s, table) &&
            TriggerName(st, view, schema + [SchemaTableDelimiter] + table) == st.sinkerSchema + "_" + view + "_" + s + "_" + table
  {
    var m := schema + [SchemaTableDelimiter] + table;
    assert m[|schema|] == SchemaTableDelimiter;
    assert m[|schema| + 1..] == table && m[..|schema|] == schema;
  }

  /** The trigger statement for one `TABLE_RE` match. */
  function TriggerFor(st: Settings, view: string, m: string): Statement
  {
    var (schema, table) := SplitSchemaTable(m);
    CreateTrigger(TriggerName(st, view, m), schema, table, FunctionName(st, view))
  }

  /** One trigger per match, in match order. */
  function Triggers(st: Settings, view: string, matches: seq<string>): (r: seq<Statement>)
    ensures |r| == |matches|
    ensures forall k :: 0 <= k < |matches| ==> r[k] == TriggerFor(st, view, matches[k])
    decreases |matches|
  {
    if |matches| == 0 then []
    else [TriggerFor(st, view, matches[0])] + Triggers(st, view, matches[1..])
  }

  /** The `ddl_list` of `setup_pg` for a view whose query file holds `query` and
      in which `TABLE_RE` found `matches`. */
  function PlanPg(st: Settings, view: string, query: string, matches: seq<string>): (ddl: seq<Statement>)
    ensures |ddl| == 5 + |matches|
    ensures ddl[0] == DropView(SchemaViewName(st, view))
    ensures ddl[1] == CreateView(SchemaViewName(st, view), query)
    ensures ddl[2] == CreateViewIndex(view, SchemaViewName(st, view))
    ensures ddl[3] == CreateFunction(FunctionName(st, view), st.sinkerSchema, st.todoTable, SchemaViewName(st, view))
    ensures forall k :: 0 <= k < |matches| ==> ddl[4 + k] == TriggerFor(st, view, matches[k])
    ensures ddl[|ddl| - 1] == CreateTodoEntry(st.sinkerSchema, st.todoTable, SchemaViewName(st, view))
  {
    var name := SchemaViewName(st, view);
    var head := [DropView(name), CreateView(name, query), CreateViewIndex(view, name),
                 CreateFunction(FunctionName(st, view), st.sinkerSchema, st.todoTable, name)];
    var triggers := Triggers(st, view, matches);
    var ddl := head + triggers + [CreateTodoEntry(st.sinkerSchema, st.todoTable, name)];
    assert forall k :: 0 <= k < |matches| ==> ddl[4 + k] == triggers[k];
    ddl
  }

  /** Every trigger statement in the plan is the trigger of one match, and every
      match has its trigger: the plan guards exactly the tables the query reads. */
  lemma {:induction false} PlanTriggers(st: Settings, view: string, query: string, matches: seq<string>)
    ensures var ddl := PlanPg(st, view, query, matches);
            (forall j :: 0 <= j < |ddl| && ddl[j].CreateTrigger? ==>
               4 <= j < 4 + |matches| && ddl[j] == TriggerFor(st, view, matches[j - 4])) &&
            (forall j :: 4 <= j < 4 + |matches| ==> ddl[j].CreateTrigger? && ddl[j].procedure == FunctionName(st, view))
  {
    var ddl := PlanPg(st, view, query, matches);
    forall j | 0 <= j < |ddl| && ddl[j].CreateTrigger?
      ensures 4 <= j < 4 + |matches| && ddl[j] == TriggerFor(st, view, matches[j - 4])
    {
      assert j < |ddl| - 1;
    }
    forall j | 4 <= j < 4 + |matches|
      ensures ddl[j].CreateTrigger? && ddl[j].procedure == FunctionName(st, view)
    {
      assert ddl[4 + (j - 4)] == TriggerFor(st, view, matches[j - 4]);
    }
  }

  /** The SQL text of each statement, in order. */
  function Render(ddl: seq<Statement>): (r: seq<string>)
    ensures |r| == |ddl|
    ensures forall k :: 0 <= k < |ddl| ==> r[k] == Sql(ddl[k])
    decreases |ddl|
  {
    if |ddl| == 0 then [] else [Sql(ddl[0])] + Render(ddl[1..])
  }

  /** `"; ".join(ddl_list)`: the one script `setup_pg` executes. */
  function Script(ddl: seq<Statement>): string
  {
    Join(Render(ddl), "; ")
  }

  /** The script is the statements' SQL joined by `"; "`: splitting it there gives
      each statement's SQL back, in order, when none contains `"; "` itself. An
      empty plan is the empty script. */
  lemma {:induction false} ScriptSplits(ddl: seq<Statement>)
    requires forall k, j :: 0 <= k < |ddl| ==> !Occurs(Sql(ddl[k]), j, "; ")
    ensures |ddl| == 0 ==> Script(ddl) == ""
    ensures |ddl| > 0 ==> Split(Script(ddl), "; ") == Render(ddl)
  {
    if |ddl| > 0 {
      JoinSplit(Render(ddl), "; ");
    }
  }

  /** `schema_tables[-1]`: the last match, the table whose deletes stand for the
      view's deletes; an `IndexError` when the query names no table. */
  function LastMatch(matches: seq<string>): (r: Result<string, Fault>)
    ensures r.Failure? <==> |matches| == 0
    ensures r.Failure? ==> r.error == IndexError
    ensures r.Success? ==> r.value == matches[|matches| - 1]
  {
    if |matches| == 0 then Failure(IndexError) else Success(matches[|matches| - 1])
  }

  /** What the provisioning does to the outside world, in order. */
  datatype Effect =
    | RunSql(ddl: seq<Statement>)     /** one `execute` of `Script(ddl)` */
    | DeleteIndex(index: string)      /** `es.indices.delete(ignore_unavailable=True)` */
    | CreateIndex(index: string)      /** `es.indices.create` with the index's mappings */
    | BulkIndex(actions: seq<Action>) /** `bulk(...)` over the given actions */

  /** The effects of a provisioning step, the sinker afterwards, and the exception
      that ended it early, if any. */
  datatype Outcome = Outcome(effects: seq<Effect>, sinker: Sinker, fault: Option<Fault>)

  /** `setup_pg`: read the view's query (a missing file raises before anything
      runs), execute the whole plan as one script, then set the parent table,
      which raises `IndexError` after the script has run when no table matched. */
  function SetupPg(st: Settings, s: Sinker, query: Option<string>, matches: seq<string>): (o: Outcome)
    ensures query.None? ==> o == Outcome([], s, Some(MissingFile(s.view + ".sql")))
    ensures query.Some? ==> o.effects == [RunSql(PlanPg(st, s.view, query.value, matches))]
    ensures o.fault.None? <==> query.Some? && |matches| > 0
    ensures query.Some? && |matches| == 0 ==> o.fault == Some(IndexError)
    ensures o.fault.None? ==> o.sinker == s.(parentTable := matches[|matches| - 1])
    ensures o.fault.Some? ==> o.sinker == s
  {
    match query
    case None => Outcome([], s, Some(MissingFile(s.view + ".sql")))
    case Some(q) =>
      var effects := [RunSql(PlanPg(st, s.view, q, matches))];
      match LastMatch(matches)
      case Failure(e) => Outcome(effects, s, Some(e))
      case Success(parent) => Outcome(effects, s.(parentTable := parent), None)
  }

  /** The parent table is the table of the plan's last trigger. */
  lemma {:induction false} ParentIsLastTrigger(st: Settings, s: Sinker, query: string, matches: seq<string>)
    ensures var o := SetupPg(st, s, Some(query), matches);
            var ddl := PlanPg(st, s.view, query, matches);
            o.fault.None? ==>
              ddl[|ddl| - 2] == TriggerFor(st, s.view, o.sinker.parentTable) &&
              (ddl[|ddl| - 2].schema, ddl[|ddl| - 2].table) == SplitSchemaTable(o.sinker.parentTable)
  {
    if |matches| > 0 {
      var ddl := PlanPg(st, s.view, query, matches);
      assert ddl[4 + (|matches| - 1)] == TriggerFor(st, s.view, matches[|matches| - 1]);
    }
  }

  /** A row of the view as the backfill cursor returns it: `(id, doc)`. */
  type Row = (string, string)

  /** `backfill_stream`: one index action per row, in cursor order. */
  function Backfill(index: string, rows: seq<Row>): (acts: seq<Action>)
    ensures |acts| == |rows|
    ensures forall n :: 0 <= n < |rows| ==> acts[n] == Index(index, rows[n].0, rows[n].1)
    decreases |rows|
  {
    if |rows| == 0 then [] else [Index(index, rows[0].0, rows[0].1)] + Backfill(index, rows[1..])
  }

  /** What backfilling leaves at one address: the last row's document when the
      address is in the index and some row has its id, what was there before otherwise. */
  lemma {:induction false} BackfillAt(st: Store, index: string, rows: seq<Row>, k: Key)
    ensures var r := ApplyAll(st, Backfill(index, rows));
            var m := FromPairs(rows);
            (k in r <==> k in st || (k.0 == index && k.1 in m)) &&
            (k in r ==> r[k] == if k.0 == index && k.1 in m then m[k.1] else st[k])
    decreases |rows|
  {
    if |rows| > 0 {
      var init := rows[..|rows| - 1];
      var last := rows[|rows| - 1];
      var a := Index(index, last.0, last.1);
      assert Backfill(index, rows) == Backfill(index, init) + [a];
      ApplyAllAppend(st, Backfill(index, init), [a]);
      BackfillAt(st, index, init, k);
      var before := ApplyAll(st, Backfill(index, init));
      assert ApplyAll(before, [a]) == Apply(before, a);
    }
  }

  /** Backfilling stores every row under the index, a later row with the same id
      overwriting an earlier one, and leaves every other address alone. */
  lemma {:induction false} BackfillLoads(st: Store, index: string, rows: seq<Row>)
    ensures var r := ApplyAll(st, Backfill(index, rows));
            var m := FromPairs(rows);
            (forall k: Key :: k in r <==> k in st || (k.0 == index && k.1 in m)) &&
            (forall k: Key :: k in r ==> r[k] == if k.0 == index && k.1 in m then m[k.1] else st[k])
  {
    forall k: Key {
      BackfillAt(st, index, rows, k);
    }
  }

  /** The search index as the effects leave it; SQL scripts do not touch it. */
  function Perform(store: Store, effects: seq<Effect>): Store
    decreases |effects|
  {
    if |effects| == 0 then store
    else
      var next := match effects[0]
        case RunSql(_) => store
        case DeleteIndex(index) => DropIndex(store, index)
        case CreateIndex(_) => store
        case BulkIndex(acts) => ApplyAll(store, acts);
      Perform(next, effects[1..])
  }

  /** `setup_es`: read the index definition (a missing file raises before the
      index is touched), delete and re-create the index, then backfill it. */
  function SetupEs(s: Sinker, mappingFound: bool, rows: seq<Row>): (o: Outcome)
    ensures !mappingFound ==> o == Outcome([], s, Some(MissingFile(s.index + ".json")))
    ensures mappingFound ==> o.fault.None? && o.sinker == s
    ensures mappingFound ==> |o.effects| == 3 && o.effects[0] == DeleteIndex(s.index) &&
                             o.effects[1] == CreateIndex(s.index) && o.effects[2] == BulkIndex(Backfill(s.index, rows))
  {
    if !mappingFound then Outcome([], s, Some(MissingFile(s.index + ".json")))
    else Outcome([DeleteIndex(s.index), CreateIndex(s.index), BulkIndex(Backfill(s.index, rows))], s, None)
  }

  /** After `setup_es` the index holds exactly the view's rows (the last row of
      each id), whatever it held before, and every other index is unchanged. */
  lemma {:induction false} SetupEsLoads(store: Store, s: Sinker, rows: seq<Row>)
    ensures var r := Perform(store, SetupEs(s, true, rows).effects);
            var m := FromPairs(rows);
            (forall id :: (s.index, id) in r <==> id in m) &&
            (forall id :: id in m ==> r[(s.index, id)] == m[id]) &&
            (forall k: Key :: k.0 != s.index ==> (k in r <==> k in store)) &&
            (forall k: Key :: k.0 != s.index && k in store ==> r[k] == store[k])
  {
    var acts := Backfill(s.index, rows);
    var dropped := DropIndex(store, s.index);
    var e := [DeleteIndex(s.index), CreateIndex(s.index), BulkIndex(acts)];
    assert e[1..] == [CreateIndex(s.index), BulkIndex(acts)];
    assert e[1..][1..] == [BulkIndex(acts)];
    assert Perform(store, e) == Perform(dropped, e[1..]);
    assert Perform(dropped, e[1..]) == Perform(dropped, [BulkIndex(acts)]);
    assert Perform(dropped, [BulkIndex(acts)]) == ApplyAll(dropped, acts);
    BackfillLoads(dropped, s.index, rows);
  }

  /** What one view's provisioning finds in the outside world: its query file,
      the tables `TABLE_RE` finds in it, whether its index definition file
      exists, and the rows of the view once created. */
  datatype SetupInput = SetupInput(query: Option<string>, matches: seq<string>, mappingFound: bool, rows: seq<Row>)

  /** `setup`: `setup_pg`, then `setup_es` only if `setup_pg` did not raise. */
  function Setup(st: Settings, s: Sinker, input: SetupInput): Outcome
  {
    var pg := SetupPg(st, s, input.query, input.matches);
    if pg.fault.Some? then pg
    else
      var es := SetupEs(pg.sinker, input.mappingFound, input.rows);
      Outcome(pg.effects + es.effects, es.sinker, es.fault)
  }

  /** `setup` sets the parent table exactly when `setup_pg` reaches its end. */
  lemma {:induction false} SetupParent(st: Settings, s: Sinker, input: SetupInput)
    ensures Setup(st, s, input).sinker ==
            if input.query.Some? && |input.matches| > 0 then s.(parentTable := input.matches[|input.matches| - 1]) else s
  {
  }

  /** The Postgres script runs before the index is touched, the index is deleted
      before it is created and created before it is loaded, and each failure stops
      the sequence where the source raises. */
  lemma {:induction false} SetupOrder(st: Settings, s: Sinker, input: SetupInput)
    ensures var o := Setup(st, s, input);
            match input.query
            case None => o == Outcome([], s, Some(MissingFile(s.view + ".sql")))
            case Some(q) =>
              var script := RunSql(PlanPg(st, s.view, q, input.matches));
              if |input.matches| == 0 then o == Outcome([script], s, Some(IndexError))
              else
                var withParent := s.(parentTable := input.matches[|input.matches| - 1]);
                if !input.mappingFound then o == Outcome([script], withParent, Some(MissingFile(s.index + ".json")))
                else o == Outcome([script, DeleteIndex(s.index), CreateIndex(s.index), BulkIndex(Backfill(s.index, input.rows))], withParent, None)
  {
    match input.query
    case None =>
      SetupNoQuery(st, s, input);
    case Some(q) =>
      if |input.matches| == 0 {
        SetupNoTable(st, s, q, input);
      } else if !input.mappingFound {
        SetupNoMapping(st, s, q, input);
      } else {
        SetupRunsAll(st, s, q, input);
      }
  }

  /** Without the query file `setup` stops before anything runs. */
  lemma {:induction false} SetupNoQuery(st: Settings, s: Sinker, input: SetupInput)
    requires input.query.None?
    ensures Setup(st, s, input) == Outcome([], s, Some(MissingFile(s.view + ".sql")))
  {
  }

  /** A query that names no table: the script has run, then `IndexError`, and the
      sinker keeps its old parent table. */
  lemma {:induction false} SetupNoTable(st: Settings, s: Sinker, q: string, input: SetupInput)
    requires input.query == Some(q) && |input.matches| == 0
    ensures Setup(st, s, input) == Outcome([RunSql(PlanPg(st, s.view, q, input.matches))], s, Some(IndexError))
  {
  }

  /** Without the index definition the script has run and the parent table is
      set, but the index is left alone. */
  lemma {:induction false} SetupNoMapping(st: Settings, s: Sinker, q: string, input: SetupInput)
    requires input.query == Some(q) && |input.matches| > 0 && !input.mappingFound
    ensures Setup(st, s, input) == Outcome([RunSql(PlanPg(st, s.view, q, input.matches))],
                                           s.(parentTable := input.matches[|input.matches| - 1]), Some(MissingFile(s.index + ".json")))
  {
    SetupPgReachesEnd(st, s, q, input.matches);
    var pg := SetupPg(st, s, input.query, input.matches);
    assert pg.effects + [] == pg.effects;
  }

  /** With the query file and a matching table, `setup_pg` runs the script and
      sets the parent table without raising. */
  lemma {:induction false} SetupPgReachesEnd(st: Settings, s: Sinker, q: string, matches: seq<string>)
    requires |matches| > 0
    ensures SetupPg(st, s, Some(q), matches) ==
            Outcome([RunSql(PlanPg(st, s.view, q, matches))], s.(parentTable := matches[|matches| - 1]), None)
  {
  }

  /** When both definition files exist and the query names a table, `setup` runs
      the script, then deletes, creates and loads the index. */
  lemma {:induction false} SetupRunsAll(st: Settings, s: Sinker, q: string, input: SetupInput)
    requires input.query == Some(q) && |input.matches| > 0 && input.mappingFound
    ensures Setup(st, s, input) ==
            Outcome([RunSql(PlanPg(st, s.view, q, input.matches)), DeleteIndex(s.index), CreateIndex(s.index), BulkIndex(Backfill(s.index, input.rows))],
                    s.(parentTable := input.matches[|input.matches| - 1]), None)
  {
    var script := RunSql(PlanPg(st, s.view, q, input.matches));
    var load := [DeleteIndex(s.index), CreateIndex(s.index), BulkIndex(Backfill(s.index, input.rows))];
    var parent := s.(parentTable := input.matches[|input.matches| - 1]);
    SetupPgReachesEnd(st, s, q, input.matches);
    assert SetupEs(parent, true, input.rows) == Outcome(load, parent, None);
    assert [script] + load == [script, DeleteIndex(s.index), CreateIndex(s.index), BulkIndex(Backfill(s.index, input.rows))];
  }
}
