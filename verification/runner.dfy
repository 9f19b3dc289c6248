/** runner.py: start-up of every sinker (`Runner.__init__`) and the polling cycle
    (`Runner.iterate`) that refreshes the views named in the todo table and forwards
    the replication slot to Elasticsearch. */
module Runner {
  import opened Wrappers
  import opened Text
  import opened Faults
  import opened Assoc
  import opened IndexStore
  import opened QueryTemplates
  import opened BulkActions
  import opened Provision

  /** The world outside the process as a cycle sees it: the entries of the todo
      table, the lines pending in the replication slot, and the search index. */
  datatype World = World(todo: seq<string>, log: seq<string>, store: Store)

  predicate Distinct(xs: seq<string>)
  {
    forall i, j :: 0 <= i < j < |xs| ==> xs[i] != xs[j]
  }

  /** The trigger function's `insert ... on conflict do nothing`: the todo table
      holds at most one entry per view (`mv` is its primary key). */
  function Enqueue(w: World, entry: string): (r: World)
    ensures forall e :: e in r.todo <==> e in w.todo || e == entry
    ensures Distinct(w.todo) ==> Distinct(r.todo)
    ensures r.log == w.log && r.store == w.store
  {
    if entry in w.todo then w else w.(todo := w.todo + [entry])
  }

  /** Enqueueing a view that is already pending changes nothing, so enqueueing
      it twice is enqueueing it once. */
  lemma {:induction false} EnqueueIdempotent(w: World, entry: string)
    ensures entry in w.todo ==> Enqueue(w, entry) == w
    ensures Enqueue(Enqueue(w, entry), entry) == Enqueue(w, entry)
  {
  }

  /** The state of a running `Runner`: the settings, `views_to_sinkers` and the generator. */
  datatype RunnerState = RunnerState(settings: Settings, sinkers: map<string, Sinker>, gen: Generator)

  /** `entry.split(".")[1]`: the view of a todo entry, an `IndexError` when the
      entry has no `.`. */
  function ViewOfEntry(entry: string): (r: Result<string, Fault>)
    ensures r.Failure? <==> forall j :: 0 <= j < |entry| ==> entry[j] != SchemaTableDelimiter
    ensures r.Failure? ==> r.error == IndexError
    ensures r.Success? ==> forall j :: 0 <= j < |r.value| ==> r.value[j] != SchemaTableDelimiter
  {
    OccursChar(entry, SchemaTableDelimiter);
    SplitMany(entry, [SchemaTableDelimiter]);
    FindFromFirst(entry, [SchemaTableDelimiter], 0);
    var pieces := Split(entry, [SchemaTableDelimiter]);
    if |pieces| < 2 then Failure(IndexError)
    else
      SplitPiecesFree(entry, [SchemaTableDelimiter]);
      OccursChar(pieces[1], SchemaTableDelimiter);
      Success(pieces[1])
  }

  /** The entry `setup_pg` writes for a view, `<schema>.<view>`, gives the view
      back when neither part contains a `.`. */
  lemma {:induction false} ViewOfEntryRoundTrip(schema: string, view: string)
    requires forall j :: 0 <= j < |schema| ==> schema[j] != SchemaTableDelimiter
    requires forall j :: 0 <= j < |view| ==> view[j] != SchemaTableDelimiter
    ensures ViewOfEntry(schema + [SchemaTableDelimiter] + view) == Success(view)
  {
    var sep := [SchemaTableDelimiter];
    var e := schema + sep + view;
    OccursChar(e, SchemaTableDelimiter);
    OccursChar(view, SchemaTableDelimiter);
    assert e[|schema|] == SchemaTableDelimiter;
    assert forall j :: 0 <= j < |schema| ==> e[j] == schema[j];
    FindFromFirst(e, sep, 0);
    var f := FindFrom(e, sep, 0);
    assert f.Some? && f.value == |schema|;
    assert e[..|schema|] == schema && e[|schema| + 1..] == view;
    assert FindFrom(view, sep, 0).None?;
    assert Split(view, sep) == [view];
    assert Split(e, sep) == [schema] + Split(view, sep);
  }

  /** The views of the popped entries, in order, each looked up in
      `views_to_sinkers`; the first entry that fails stops the cycle. */
  function LookupViews(sinkers: map<string, Sinker>, entries: seq<string>): (r: Result<seq<string>, Fault>)
    ensures r.Success? <==> forall n :: 0 <= n < |entries| ==>
                              ViewOfEntry(entries[n]).Success? && ViewOfEntry(entries[n]).value in sinkers
    ensures r.Success? ==> |r.value| == |entries| &&
                           forall n :: 0 <= n < |entries| ==> r.value[n] == ViewOfEntry(entries[n]).value
    ensures r.Failure? ==> r.error == IndexError || (r.error.KeyError? && r.error.key !in sinkers)
    decreases |entries|
  {
    if |entries| == 0 then Success([])
    else
      assert forall n :: 1 <= n < |entries| ==> entries[n] == entries[1..][n - 1];
      match ViewOfEntry(entries[0])
      case Failure(e) => Failure(e)
      case Success(v) =>
        if v !in sinkers then Failure(KeyError(v))
        else
          match LookupViews(sinkers, entries[1..])
          case Failure(e) => Failure(e)
          case Success(vs) => Success([v] + vs)
  }

  /** What refreshing a view appends to the replication slot. */
  type Refresher = string -> seq<string>

  /** The lines the refreshes of `views` append, in order. */
  function RefreshAll(views: seq<string>, refresh: Refresher): seq<string>
    decreases |views|
  {
    if |views| == 0 then [] else refresh(views[0]) + RefreshAll(views[1..], refresh)
  }

  /** What a cycle does, in order. */
  datatype Event =
    | Sleep                         /** nothing was pending: `sleep(SINKER_POLL_INTERVAL)` */
    | Refresh(view: string)         /** `refresh_view` of one popped view */
    | Drained(actions: seq<Action>) /** `bulk(generate_actions())` */

  function RefreshEvents(views: seq<string>): (r: seq<Event>)
    ensures |r| == |views|
    ensures forall n :: 0 <= n < |views| ==> r[n] == Refresh(views[n])
    decreases |views|
  {
    if |views| == 0 then [] else [Refresh(views[0])] + RefreshEvents(views[1..])
  }

  /** A cycle that ran to the end: the world afterwards and what happened. */
  datatype Cycle = Cycle(world: World, events: seq<Event>)

  /** `iterate`: pop every todo entry; with none, sleep. Otherwise refresh each
      popped view, then drain the whole slot through the generator and apply the
      actions to the index. An unknown view or a failing line raises. */
  function Iterate(r: RunnerState, w: World, refresh: Refresher): Result<Cycle, Fault>
  {
    if |w.todo| == 0 then Success(Cycle(w, [Sleep]))
    else
      match LookupViews(r.sinkers, w.todo)
      case Failure(e) => Failure(e)
      case Success(views) =>
        var drain := Generate(r.gen, w.log + RefreshAll(views, refresh));
        match drain.fault
        case Some(e) => Failure(e)
        case None =>
          Success(Cycle(World([], [], ApplyAll(w.store, drain.actions)),
                        RefreshEvents(views) + [Drained(drain.actions)]))
  }

  /** An empty pop does nothing but sleep; a cycle with work pops every entry,
      refreshes each popped view once and in order, and only then drains the
      slot, leaving both the todo table and the slot empty. */
  lemma {:induction false} IterateShape(r: RunnerState, w: World, refresh: Refresher)
    ensures Iterate(r, w, refresh).Failure? ==> |w.todo| > 0
    ensures |w.todo| == 0 ==> Iterate(r, w, refresh) == Success(Cycle(w, [Sleep]))
    ensures var res := Iterate(r, w, refresh);
            res.Success? && |w.todo| > 0 ==>
              res.value.world.todo == [] && res.value.world.log == [] &&
              |res.value.events| == |w.todo| + 1 && res.value.events[|w.todo|].Drained? &&
              forall n :: 0 <= n < |w.todo| ==> res.value.events[n] == Refresh(ViewOfEntry(w.todo[n]).value)
  {
  }

  /** A cycle fails exactly when an entry names no known view or a pending line
      raises while it is classified. */
  lemma {:induction false} IterateFails(r: RunnerState, w: World, refresh: Refresher)
    ensures Iterate(r, w, refresh).Failure? <==>
            |w.todo| > 0 &&
            var views := LookupViews(r.sinkers, w.todo);
            (views.Failure? ||
             var pending := w.log + RefreshAll(views.value, refresh);
             SomeLineRaises(r.gen, pending))
  {
    if |w.todo| > 0 {
      var views := LookupViews(r.sinkers, w.todo);
      if views.Success? {
        var pending := w.log + RefreshAll(views.value, refresh);
        GenerateFails(r.gen, pending);
        assert Iterate(r, w, refresh).Failure? <==> Generate(r.gen, pending).fault.Some?;
      }
    }
  }

  /** The drain applies the actions of the lines that were already pending, then
      those of the lines the refreshes added, each in slot order. */
  lemma {:induction false} IterateAppliesInOrder(r: RunnerState, w: World, refresh: Refresher)
    ensures var res := Iterate(r, w, refresh);
            res.Success? && |w.todo| > 0 ==>
              var views := LookupViews(r.sinkers, w.todo).value;
              var before := Generate(r.gen, w.log);
              var added := Generate(r.gen, RefreshAll(views, refresh));
              before.fault.None? &&
              res.value.events[|w.todo|] == Drained(before.actions + added.actions) &&
              res.value.world.store == ApplyAll(ApplyAll(w.store, before.actions), added.actions)
  {
    if |w.todo| > 0 && LookupViews(r.sinkers, w.todo).Success? {
      var views := LookupViews(r.sinkers, w.todo).value;
      var added := RefreshAll(views, refresh);
      DrainAppend(Classify(r.gen), w.log, added);
      var all := Generate(r.gen, w.log + added);
      if all.fault.None? {
        ApplyAllAppend(w.store, Generate(r.gen, w.log).actions, Generate(r.gen, added).actions);
      }
    }
  }

  /** Last write wins across a cycle: an address ends with the document of the
      cycle's last index action on it, is absent after a last delete, and is
      untouched when no action names it. Updating a row then cycling shows the
      new document; deleting it then cycling leaves the id absent. */
  lemma {:induction false} IterateLastWrite(r: RunnerState, w: World, refresh: Refresher, k: Key)
    ensures var res := Iterate(r, w, refresh);
            res.Success? && |w.todo| > 0 ==>
              var s := res.value.world.store;
              var last := LastOn(res.value.events[|w.todo|].actions, k);
              (last.None? ==> (k in s <==> k in w.store) && (k in s ==> s[k] == w.store[k])) &&
              (last.Some? ==> (k in s <==> last.value.Index?) && (last.value.Index? ==> s[k] == last.value.source))
  {
    if |w.todo| > 0 && LookupViews(r.sinkers, w.todo).Success? {
      var views := LookupViews(r.sinkers, w.todo).value;
      var drain := Generate(r.gen, w.log + RefreshAll(views, refresh));
      LastWriteWins(w.store, drain.actions, k);
    }
  }

  /** `parent_tables_to_indices`: each sinker's parent table to its index. */
  function ParentTablesToIndices(sinkers: seq<Sinker>): map<string, string>
  {
    FromPairs(seq(|sinkers|, n requires 0 <= n < |sinkers| => (sinkers[n].parentTable, sinkers[n].index)))
  }

  /** The keys are the sinkers' parent tables; when two views share a parent
      table the later sinker's index wins. */
  lemma {:induction false} ParentTablesLaterWins(sinkers: seq<Sinker>)
    ensures var m := ParentTablesToIndices(sinkers);
            (forall t :: t in m <==> exists n :: 0 <= n < |sinkers| && sinkers[n].parentTable == t) &&
            (forall n :: 0 <= n < |sinkers| && (forall j :: n < j < |sinkers| ==> sinkers[j].parentTable != sinkers[n].parentTable) ==>
               m[sinkers[n].parentTable] == sinkers[n].index)
  {
    var pairs := seq(|sinkers|, n requires 0 <= n < |sinkers| => (sinkers[n].parentTable, sinkers[n].index));
    FromPairsLastWins(pairs);
    assert forall n :: 0 <= n < |sinkers| ==> pairs[n] == (sinkers[n].parentTable, sinkers[n].index);
  }

  /** The replication-slot set-up: count the slots of that name, drop it if there
      is one, then create it. Exactly one slot of that name exists afterwards. */
  function SetupSlot(slots: multiset<string>, name: string): (r: (seq<Statement>, multiset<string>))
    ensures r.1[name] == 1
    ensures forall other :: other != name ==> r.1[other] == slots[other]
    ensures |r.0| >= 2 && r.0[0] == CheckSlot(name) && r.0[|r.0| - 1] == CreateSlot(name)
    ensures DropSlot(name) in r.0 <==> slots[name] > 0
  {
    if slots[name] > 0 then ([CheckSlot(name), DropSlot(name), CreateSlot(name)], slots[name := 0] + multiset{name})
    else ([CheckSlot(name), CreateSlot(name)], slots + multiset{name})
  }

  /** Setting the slot up again leaves the same slots: the drop undoes the create. */
  lemma {:induction false} SetupSlotIdempotent(slots: multiset<string>, name: string)
    ensures SetupSlot(SetupSlot(slots, name).1, name).1 == SetupSlot(slots, name).1
  {
    var once := SetupSlot(slots, name).1;
    assert once[name := 0] + multiset{name} == once;
  }

  /** One entry of views_to_indices.json: a view and its index. */
  type ViewDef = (string, string)

  predicate DistinctViews(defs: seq<ViewDef>)
  {
    forall i, j :: 0 <= i < j < |defs| ==> defs[i].0 != defs[j].0
  }

  /** The todo entries the set-up scripts write: one per view whose query file
      could be read, since only then does its script run. */
  function SetupEntries(st: Settings, defs: seq<ViewDef>, inputs: seq<SetupInput>): seq<string>
    requires |inputs| == |defs|
    decreases |defs|
  {
    if |defs| == 0 then []
    else
      (if inputs[0].query.Some? then [SchemaViewName(st, defs[0].0)] else []) +
      SetupEntries(st, defs[1..], inputs[1..])
  }

  /** The effects of the set-ups, one sinker after the other. */
  function AllEffects(outs: seq<Outcome>): seq<Effect>
    decreases |outs|
  {
    if |outs| == 0 then [] else outs[0].effects + AllEffects(outs[1..])
  }

  /** A started runner, the world it leaves, the replication slots, and what
      start-up did, in order. */
  datatype Started = Started(runner: RunnerState, world: World, slots: multiset<string>, effects: seq<Effect>)

  /** What start-up leaves: a started runner, or the exception that stopped it
      and the effects that had already happened. */
  datatype StartUp = Up(started: Started) | Down(effects: seq<Effect>, fault: Fault)

  /** The first thing start-up does: drop and re-create the todo table. */
  function TodoTableReset(st: Settings): Effect
  {
    RunSql([DropTodoTable(st.sinkerSchema, st.todoTable), CreateTodoTable(st.sinkerSchema, st.todoTable)])
  }

  /** `Runner.__init__`: reset the todo table, set every sinker up (an exception
      in one set-up is lost with its worker), derive the parent-table map, set the
      slot up and build the generator. With no view configured the set-up pool
      (`max_workers=0`) raises `ValueError` once the todo table is reset. */
  function Init(st: Settings, defs: seq<ViewDef>, inputs: seq<SetupInput>, slots: multiset<string>, store: Store): (r: StartUp)
    requires |inputs| == |defs|
    requires DistinctViews(defs)
    ensures r.Down? <==> |defs| == 0
    ensures r.Down? ==> r.fault == ValueError && r.effects == [TodoTableReset(st)]
    ensures r.Up? ==> |r.started.effects| > 0 && r.started.effects[0] == TodoTableReset(st)
  {
    if |defs| == 0 then Down([TodoTableReset(st)], ValueError)
    else
      var outs := SetupAll(st, defs, inputs);
      var (slotSql, slots') := SetupSlot(slots, st.replicationSlot);
      var effects := [TodoTableReset(st)] +
                     AllEffects(outs) +
                     seq(|slotSql|, n requires 0 <= n < |slotSql| => RunSql([slotSql[n]]));
      var world := World(SetupEntries(st, defs, inputs), [], Perform(store, effects));
      Up(Started(StartRunner(st, defs, outs), world, slots', effects))
  }

  /** Every view's set-up, in file order, each starting from a fresh sinker. */
  function SetupAll(st: Settings, defs: seq<ViewDef>, inputs: seq<SetupInput>): (outs: seq<Outcome>)
    requires |inputs| == |defs|
    ensures |outs| == |defs|
  {
    seq(|defs|, n requires 0 <= n < |defs| => Setup(st, Sinker(defs[n].0, defs[n].1, ""), inputs[n]))
  }

  /** `views_to_sinkers` from the set-up sinkers, and the generator built from
      `views_to_indices` and the derived parent-table map. */
  function StartRunner(st: Settings, defs: seq<ViewDef>, outs: seq<Outcome>): RunnerState
    requires |outs| == |defs|
  {
    var sinkers := seq(|defs|, n requires 0 <= n < |defs| => outs[n].sinker);
    var byView := FromPairs(seq(|defs|, n requires 0 <= n < |defs| => (defs[n].0, sinkers[n])));
    RunnerState(st, byView, Generator(FromPairs(defs), ParentTablesToIndices(sinkers)))
  }

  /** A start-up that gets past the set-ups leaves one pending entry per view
      whose script ran, none twice, an
      empty slot, exactly one replication slot of the configured name, and a
      generator whose parent-table map sends each view's parent table to its index. */
  lemma {:induction false} InitState(st: Settings, defs: seq<ViewDef>, inputs: seq<SetupInput>, slots: multiset<string>, store: Store)
    requires |inputs| == |defs|
    requires DistinctViews(defs)
    ensures var u := Init(st, defs, inputs, slots, store);
            u.Up? ==>
            var s := u.started;
            s.runner == StartRunner(st, defs, SetupAll(st, defs, inputs)) &&
            s.world.log == [] && s.slots[st.replicationSlot] == 1 &&
            (forall e :: e in s.world.todo <==>
               exists n :: 0 <= n < |defs| && inputs[n].query.Some? && e == SchemaViewName(st, defs[n].0)) &&
            Distinct(s.world.todo) &&
            s.runner.gen.viewsToIndices.Keys == set n | 0 <= n < |defs| :: defs[n].0
  {
    SetupEntriesSpec(st, defs, inputs);
    FromPairsLastWins(defs);
  }

  /** The parent table a view's set-up leaves: the last table of its query when
      `setup_pg` got that far, "" otherwise. */
  function ParentAfterSetup(input: SetupInput): string
  {
    if input.query.Some? && |input.matches| > 0 then input.matches[|input.matches| - 1] else ""
  }

  /** Start-up keeps one sinker per view, with the view's index and the parent
      table its set-up reached, and derives the parent-table map from those
      sinkers in file order. */
  lemma {:induction false} InitSinkers(st: Settings, defs: seq<ViewDef>, inputs: seq<SetupInput>)
    requires |inputs| == |defs|
    requires DistinctViews(defs)
    ensures var r := StartRunner(st, defs, SetupAll(st, defs, inputs));
            var expected := seq(|defs|, n requires 0 <= n < |defs| => Sinker(defs[n].0, defs[n].1, ParentAfterSetup(inputs[n])));
            (forall n :: 0 <= n < |defs| ==> defs[n].0 in r.sinkers && r.sinkers[defs[n].0] == expected[n]) &&
            r.gen.parentTablesToIndices == ParentTablesToIndices(expected)
  {
    var outs := SetupAll(st, defs, inputs);
    SetupAllSinkers(st, defs, inputs);
    StartRunnerSinkers(st, defs, outs);
    var sinkers := seq(|defs|, n requires 0 <= n < |defs| => outs[n].sinker);
    var expected := seq(|defs|, n requires 0 <= n < |defs| => Sinker(defs[n].0, defs[n].1, ParentAfterSetup(inputs[n])));
    assert sinkers == expected;
  }

  /** Each set-up leaves its view's sinker with the parent table it reached. */
  lemma {:induction false} SetupAllSinkers(st: Settings, defs: seq<ViewDef>, inputs: seq<SetupInput>)
    requires |inputs| == |defs|
    ensures var outs := SetupAll(st, defs, inputs);
            forall n :: 0 <= n < |defs| ==> outs[n].sinker == Sinker(defs[n].0, defs[n].1, ParentAfterSetup(inputs[n]))
  {
    forall n | 0 <= n < |defs|
      ensures SetupAll(st, defs, inputs)[n].sinker == Sinker(defs[n].0, defs[n].1, ParentAfterSetup(inputs[n]))
    {
      SetupParent(st, Sinker(defs[n].0, defs[n].1, ""), inputs[n]);
    }
  }

  /** `views_to_sinkers` sends each view to its own sinker, and the parent-table
      map is built from the sinkers in file order. */
  lemma {:induction false} StartRunnerSinkers(st: Settings, defs: seq<ViewDef>, outs: seq<Outcome>)
    requires |outs| == |defs|
    requires DistinctViews(defs)
    ensures var r := StartRunner(st, defs, outs);
            var sinkers := seq(|defs|, n requires 0 <= n < |defs| => outs[n].sinker);
            (forall n :: 0 <= n < |defs| ==> defs[n].0 in r.sinkers && r.sinkers[defs[n].0] == outs[n].sinker) &&
            r.gen.parentTablesToIndices == ParentTablesToIndices(sinkers)
  {
    var sinkers := seq(|defs|, n requires 0 <= n < |defs| => outs[n].sinker);
    var pairs := seq(|defs|, n requires 0 <= n < |defs| => (defs[n].0, sinkers[n]));
    FromPairsLastWins(pairs);
    assert forall n :: 0 <= n < |defs| ==> pairs[n] == (defs[n].0, outs[n].sinker);
  }

  /** The entries of `SetupEntries` are the qualified names of the views whose
      query exists, each once. */
  lemma {:induction false} SetupEntriesSpec(st: Settings, defs: seq<ViewDef>, inputs: seq<SetupInput>)
    requires |inputs| == |defs|
    requires DistinctViews(defs)
    ensures var es := SetupEntries(st, defs, inputs);
            (forall e :: e in es <==> exists n :: 0 <= n < |defs| && inputs[n].query.Some? && e == SchemaViewName(st, defs[n].0)) &&
            Distinct(es)
    decreases |defs|
  {
    if |defs| > 0 {
      var tailDefs, tailInputs := defs[1..], inputs[1..];
      SetupEntriesSpec(st, tailDefs, tailInputs);
      var rest := SetupEntries(st, tailDefs, tailInputs);
      var head := SchemaViewName(st, defs[0].0);
      var front: seq<string> := if inputs[0].query.Some? then [head] else [];
      var es := SetupEntries(st, defs, inputs);
      assert es == front + rest;
      forall e
        ensures e in es <==> exists n :: 0 <= n < |defs| && inputs[n].query.Some? && e == SchemaViewName(st, defs[n].0)
      {
        if e in rest {
          var n :| 0 <= n < |tailDefs| && tailInputs[n].query.Some? && e == SchemaViewName(st, tailDefs[n].0);
          assert inputs[n + 1].query.Some? && e == SchemaViewName(st, defs[n + 1].0);
        }
        if exists n :: 0 <= n < |defs| && inputs[n].query.Some? && e == SchemaViewName(st, defs[n].0) {
          var n :| 0 <= n < |defs| && inputs[n].query.Some? && e == SchemaViewName(st, defs[n].0);
          if n > 0 {
            assert tailInputs[n - 1].query.Some? && e == SchemaViewName(st, tailDefs[n - 1].0);
          }
        }
      }
      forall e | e in rest
        ensures e != head
      {
        var n :| 0 <= n < |tailDefs| && tailInputs[n].query.Some? && e == SchemaViewName(st, tailDefs[n].0);
        SchemaViewNameInjective(st, defs[0].0, defs[n + 1].0);
      }
      assert Distinct(es) by {
        forall i, j | 0 <= i < j < |es|
          ensures es[i] != es[j]
        {
          if i < |front| {
            assert es[j] == rest[j - |front|] && es[j] in rest;
          } else {
            assert es[i] == rest[i - |front|] && es[j] == rest[j - |front|];
          }
        }
      }
    }
  }

  /** Different views have different qualified names. */
  lemma {:induction false} SchemaViewNameInjective(st: Settings, a: string, b: string)
    ensures SchemaViewName(st, a) == SchemaViewName(st, b) ==> a == b
  {
    var p := st.sinkerSchema + ".";
    if SchemaViewName(st, a) == SchemaViewName(st, b) {
      assert a == SchemaViewName(st, a)[|p|..];
      assert b == SchemaViewName(st, b)[|p|..];
    }
  }
}
