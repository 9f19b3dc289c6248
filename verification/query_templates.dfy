/** query_templates.py: the SQL the sinker sends to Postgres. Each template is a
    `str.format` string with positional `{}` holes; here it is kept as the literal
    text around its holes, so a template with n holes is n + 1 pieces. */
module QueryTemplates {

  /** The literal text of a template, split at its `{}` holes. */
  type Template = seq<string>

  const CheckSlotTemplate: Template := ["SELECT count(*) FROM PG_REPLICATION_SLOTS where slot_name='", "'"]
  const DropSlotTemplate: Template := ["select pg_drop_replication_slot('", "')"]
  const CreateSlotTemplate: Template := ["select pg_create_logical_replication_slot('", "', 'test_decoding')"]

  const DropTodoTableTemplate: Template := ["drop table if exists ", ".", ""]
  const CreateTodoTableTemplate: Template :=
    ["create table ", ".", " (\n        mv text primary key not null,\n        created timestamp not null default now())"]

  const DropViewTemplate: Template := ["drop materialized view if exists ", ""]
  const CreateViewTemplate: Template := ["create materialized view ", " (id, doc) as ", ""]
  const CreateViewIndexTemplate: Template := ["create unique index ", "_id on ", " (id)"]
  const RefreshViewTemplate: Template := ["refresh materialized view concurrently ", ".", ""]

  const CreateFunctionTemplate: Template :=
    ["create or replace function ",
     " ()\nRETURNS TRIGGER AS $$\nBEGIN\n    insert into ", ".", " (mv) values ('",
     "') on conflict do nothing;\n    RETURN NEW;\nEND;\n$$ LANGUAGE plpgsql;\n"]

  const CreateTriggerTemplate: Template :=
    ["create or replace trigger ", "\nafter insert or update or delete on ", ".\"",
     "\"\nfor each row\nexecute procedure ", "();\n"]

  const CreateTodoEntryTemplate: Template := ["insert into ", ".", " (mv) values ('", "')"]
  const PopTodoEntriesTemplate: Template := ["delete from ", ".", " returning mv"]
  const BackfillQueryTemplate: Template := ["SELECT id, doc FROM ", ""]
  const GetAllChangesTemplate: Template := ["SELECT xid, lsn, data FROM pg_logical_slot_get_changes('", "', NULL, NULL)"]

  /** `template.format(*args)` when every hole gets exactly one argument. */
  function Fill(t: Template, args: seq<string>): string
    requires |t| == |args| + 1
    decreases |args|
  {
    if |args| == 0 then t[0] else t[0] + args[0] + Fill(t[1..], args[1..])
  }

  /** The `n`-th argument is written into the `n`-th hole: what comes before it is
      the template's first `n` holes filled, and what follows is the rest. */
  lemma {:induction false} FillSplit(t: Template, args: seq<string>, n: nat)
    requires |t| == |args| + 1
    requires n < |args|
    ensures Fill(t, args) == Fill(t[..n] + [t[n]], args[..n]) + args[n] + Fill(t[n + 1..], args[n + 1..])
    decreases n
  {
    if n > 0 {
      var u, v := t[1..], args[1..];
      FillSplit(u, v, n - 1);
      var front := Fill(u[..n - 1] + [u[n - 1]], v[..n - 1]);
      assert u[..n - 1] + [u[n - 1]] == (t[..n] + [t[n]])[1..];
      assert v[..n - 1] == args[..n][1..];
      assert Fill(t[..n] + [t[n]], args[..n]) == t[0] + args[0] + front;
      assert u[n - 1] == t[n] && v[n - 1] == args[n];
      assert u[n..] == t[n + 1..] && v[n..] == args[n + 1..];
    } else {
      assert t[..0] + [t[0]] == [t[0]];
    }
  }

  /** The statements the sinker sends, one constructor per template. */
  datatype Statement =
    | CheckSlot(slot: string)
    | DropSlot(slot: string)
    | CreateSlot(slot: string)
    | DropTodoTable(schema: string, table: string)
    | CreateTodoTable(schema: string, table: string)
    | DropView(name: string)
    | CreateView(name: string, query: string)
    | CreateViewIndex(view: string, name: string)
    | RefreshView(schema: string, view: string)
    | CreateFunction(procedure: string, schema: string, table: string, name: string)
    | CreateTrigger(trigger: string, schema: string, table: string, procedure: string)
    | CreateTodoEntry(schema: string, table: string, name: string)
    | PopTodoEntries(schema: string, table: string)
    | BackfillQuery(name: string)
    | GetAllChanges(slot: string)

  /** The SQL text of a statement: its template formatted with its fields in order. */
  function Sql(st: Statement): string
  {
    match st
    case CheckSlot(slot) => Fill(CheckSlotTemplate, [slot])
    case DropSlot(slot) => Fill(DropSlotTemplate, [slot])
    case CreateSlot(slot) => Fill(CreateSlotTemplate, [slot])
    case DropTodoTable(schema, table) => Fill(DropTodoTableTemplate, [schema, table])
    case CreateTodoTable(schema, table) => Fill(CreateTodoTableTemplate, [schema, table])
    case DropView(name) => Fill(DropViewTemplate, [name])
    case CreateView(name, query) => Fill(CreateViewTemplate, [name, query])
    case CreateViewIndex(view, name) => Fill(CreateViewIndexTemplate, [view, name])
    case RefreshView(schema, view) => Fill(RefreshViewTemplate, [schema, view])
    case CreateFunction(procedure, schema, table, name) => Fill(CreateFunctionTemplate, [procedure, schema, table, name])
    case CreateTrigger(trigger, schema, table, procedure) => Fill(CreateTriggerTemplate, [trigger, schema, table, procedure])
    case CreateTodoEntry(schema, table, name) => Fill(CreateTodoEntryTemplate, [schema, table, name])
    case PopTodoEntries(schema, table) => Fill(PopTodoEntriesTemplate, [schema, table])
    case BackfillQuery(name) => Fill(BackfillQueryTemplate, [name])
    case GetAllChanges(slot) => Fill(GetAllChangesTemplate, [slot])
  }
}
