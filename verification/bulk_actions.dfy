/** bulk_action_generator.py: the per-line branch of `generate_actions` that turns
    replication-slot lines into Elasticsearch bulk actions. A line is the `data`
    column of `pg_logical_slot_get_changes`; `xid` and `lsn` are only logged. */
module BulkActions {
  import opened Wrappers
  import opened Text
  import opened Faults
  import opened SlotLine
  import opened AcceptedLines
  import opened IndexStore

  /** The two lookups a `BulkActionGenerator` holds. */
  datatype Generator = Generator(viewsToIndices: map<string, string>, parentTablesToIndices: map<string, string>)

  /** What the branch does with a matched line. */
  datatype Decision = IndexInto(index: string) | DeleteFrom(index: string) | Ignore

  /** The three-way decision on the cleaned table name and the op. */
  function Decide(g: Generator, table: string, op: string): (d: Decision)
    ensures d.IndexInto? <==> table in g.viewsToIndices && op == "INSERT"
    ensures d.DeleteFrom? <==> table in g.parentTablesToIndices && op == "DELETE"
    ensures d.IndexInto? ==> d.index == g.viewsToIndices[table]
    ensures d.DeleteFrom? ==> d.index == g.parentTablesToIndices[table]
  {
    if table in g.viewsToIndices && op == "INSERT" then IndexInto(g.viewsToIndices[table])
    else if table in g.parentTablesToIndices && op == "DELETE" then DeleteFrom(g.parentTablesToIndices[table])
    else Ignore
  }

  /** Only INSERT and DELETE lines ever produce anything; an UPDATE is always ignored. */
  lemma {:induction false} OtherOpsIgnored(g: Generator, table: string, op: string)
    requires op != "INSERT" && op != "DELETE"
    ensures Decide(g, table, op) == Ignore
  {
  }

  /** The view branch is tested first: an INSERT on a table that is both a view and
      a parent table is indexed, and a DELETE on it still deletes. */
  lemma {:induction false} ViewBranchFirst(g: Generator, table: string)
    requires table in g.viewsToIndices && table in g.parentTablesToIndices
    ensures Decide(g, table, "INSERT") == IndexInto(g.viewsToIndices[table])
    ensures Decide(g, table, "DELETE") == DeleteFrom(g.parentTablesToIndices[table])
  {
  }

  const DocMarker: string := "doc[json]:"

  /** `p` is what `split("doc[json]:")[1]` returns: the text after the first marker
      up to the next marker or the end of the line. */
  ghost predicate DocPieceAt(data: string, k: nat, p: string)
  {
    Occurs(data, k, DocMarker) && (forall j :: 0 <= j < k ==> !Occurs(data, j, DocMarker)) &&
    Occurs(data, k + |DocMarker|, p) &&
    (k + |DocMarker| + |p| == |data| || Occurs(data, k + |DocMarker| + |p|, DocMarker)) &&
    forall j :: !Occurs(p, j, DocMarker)
  }

  /** `data.split("doc[json]:")[1].replace("'", "")`: an `IndexError` when the
      marker is missing. */
  function DocOf(data: string): (r: Result<string, Fault>)
    ensures r.Failure? <==> forall j :: !Occurs(data, j, DocMarker)
    ensures r.Failure? ==> r.error == IndexError
    ensures r.Success? ==> exists k: nat, p :: DocPieceAt(data, k, p) && r.value == RemoveChar(p, '\'')
  {
    SplitMany(data, DocMarker);
    FindFromFirst(data, DocMarker, 0);
    var pieces := Split(data, DocMarker);
    if |pieces| < 2 then Failure(IndexError)
    else
      SecondPiece(data, DocMarker);
      SplitPiecesFree(data, DocMarker);
      assert DocPieceAt(data, FindFrom(data, DocMarker, 0).value, pieces[1]);
      Success(RemoveChar(pieces[1], '\''))
  }

  /** The action a matched line yields, given its groups and what `DocOf` gives for
      the line: the branches of `index_action` and `delete_action`. A helper of
      `ClassifyLine`; its decision table is stated by `ClassifyMatched`. */
  function ClassifySlot(g: Generator, slot: Slot, doc: Result<string, Fault>): Result<Option<Action>, Fault>
  {
    match Decide(g, RemoveChar(slot.table, '"'), slot.op)
    case IndexInto(index) =>
      (match doc
       case Success(source) => Success(Some(Index(index, slot.id, source)))
       case Failure(e) => Failure(e))
    case DeleteFrom(index) => Success(Some(Delete(index, slot.id)))
    case Ignore => Success(None)
  }

  /** One iteration of the loop in `generate_actions`: nothing, one action, or the
      `IndexError` of a view INSERT without a document. */
  function ClassifyLine(g: Generator, data: string): Result<Option<Action>, Fault>
  {
    match Search(data)
    case None => Success(None)
    case Some(m) => ClassifySlot(g, m.slot, DocOf(data))
  }

  /** A line yields something, or fails, only if the pattern matches somewhere in it. */
  lemma {:induction false} YieldsOnlyOnMatch(g: Generator, data: string)
    ensures !HasMatch(data) ==> ClassifyLine(g, data) == Success(None)
  {
    SearchCorrect(data);
  }

  /** The table group never holds a `"`, so removing quotes from it changes nothing. */
  lemma {:induction false} TableQuoteFree(data: string)
    ensures Search(data).Some? ==> forall i :: 0 <= i < |Search(data).value.slot.table| ==> Search(data).value.slot.table[i] != '"'
    ensures Search(data).Some? ==> RemoveChar(Search(data).value.slot.table, '"') == Search(data).value.slot.table
  {
    if Search(data).Some? {
      var table := Search(data).value.slot.table;
      assert NonEmptyRun(table, NameChars);
      RemoveAbsentChar(table, '"');
    }
  }

  /** The schema group plays no part: only the table, the op and the id matter. */
  lemma {:induction false} SchemaIgnored(g: Generator, slot: Slot, schema: string, doc: Result<string, Fault>)
    ensures ClassifySlot(g, slot.(schema := schema), doc) == ClassifySlot(g, slot, doc)
  {
  }

  /** The decision table for a matching line, with the exact action of each branch. */
  lemma {:induction false} ClassifyMatched(g: Generator, data: string)
    requires Search(data).Some?
    ensures var m := Search(data).value.slot;
            var r := ClassifyLine(g, data);
            (m.table in g.viewsToIndices && m.op == "INSERT" ==>
               r == (match DocOf(data)
                     case Success(source) => Success(Some(Index(g.viewsToIndices[m.table], m.id, source)))
                     case Failure(_) => Failure(IndexError))) &&
            (m.table in g.parentTablesToIndices && m.op == "DELETE" ==>
               r == Success(Some(Delete(g.parentTablesToIndices[m.table], m.id)))) &&
            (!(m.table in g.viewsToIndices && m.op == "INSERT") && !(m.table in g.parentTablesToIndices && m.op == "DELETE") ==>
               r == Success(None))
  {
    TableQuoteFree(data);
  }

  /** A change line built from well-formed groups is classified on exactly those
      groups, whatever follows its id. */
  lemma {:induction false} ClassifyLineOf(g: Generator, slot: Slot, rest: string)
    requires GroupsWellFormed(slot)
    ensures var r := ClassifyLine(g, LineOf(slot, rest));
            (slot.table in g.viewsToIndices && slot.op == "INSERT" ==>
               r == (match DocOf(LineOf(slot, rest))
                     case Success(source) => Success(Some(Index(g.viewsToIndices[slot.table], slot.id, source)))
                     case Failure(_) => Failure(IndexError))) &&
            (slot.table in g.parentTablesToIndices && slot.op == "DELETE" ==>
               r == Success(Some(Delete(g.parentTablesToIndices[slot.table], slot.id)))) &&
            (!(slot.table in g.viewsToIndices && slot.op == "INSERT") && !(slot.table in g.parentTablesToIndices && slot.op == "DELETE") ==>
               r == Success(None))
  {
    SearchLineOf(slot, rest);
    ClassifyMatched(g, LineOf(slot, rest));
  }

  /** A line whose only `j` is the one in its single `doc[json]:` marker has as
      document the text after that marker, less its quotes. */
  lemma {:induction false} DocOfSingleMarker(p: string, d: string)
    requires 'j' !in p && 'j' !in d
    ensures DocOf(p + DocMarker + d) == Success(RemoveChar(d, '\''))
  {
    var s := p + DocMarker + d;
    var k := |p|;
    assert s[k..k + |DocMarker|] == DocMarker;
    forall i | 0 <= i < |s| && i != k + 4
      ensures s[i] != DocMarker[4]
    {
      if i < k {
        assert s[i] == p[i];
      } else if i >= k + |DocMarker| {
        assert s[i] == d[i - k - |DocMarker|];
      } else {
        assert s[i] == DocMarker[i - k];
      }
    }
    OnlyOccurrence(s, DocMarker, k, 4);
    SplitOnce(s, DocMarker, k);
    assert s[..k] == p && s[k + |DocMarker|..] == d;
  }

  /** Removing quotes from a quoted text free of quotes gives the text. */
  lemma {:induction false} RemoveQuotesAround(m: string)
    requires '\'' !in m
    ensures RemoveChar("'" + m + "'", '\'') == m
  {
    RemoveCharAppend("'" + m, "'", '\'');
    RemoveCharAppend("'", m, '\'');
    RemoveAbsentChar(m, '\'');
  }

  // The lemmas from here to `IndexLineExample` are proof steps of the two docstring
  // examples below, kept apart so each literal-string fact is proved in a small context.

  /** The head of the `delete_action` docstring's line, up to the closing quote of the id. */
  lemma {:induction false} ParentLineHead(rest: string)
    ensures LineOf(Slot("public", "foo", "DELETE", "a-1"), rest) == "table public.foo: DELETE: id[text]:'a-1'" + rest
  {
    assert "table " + "public" == "table public";
    assert "table public" + "." == "table public.";
    assert "table public." + "foo" == "table public.foo";
    assert "table public.foo" + ": " == "table public.foo: ";
    assert "table public.foo: " + "DELETE" == "table public.foo: DELETE";
    assert "table public.foo: DELETE" + ": id[text]:'" == "table public.foo: DELETE: id[text]:'";
    assert "table public.foo: DELETE: id[text]:'" + "a-1" == "table public.foo: DELETE: id[text]:'a-1";
    assert "table public.foo: DELETE: id[text]:'a-1" + "'" == "table public.foo: DELETE: id[text]:'a-1'";
  }

  /** The parent-table line of the `delete_action` docstring deletes document `a-1`
      from the index of table `foo`. */
  lemma {:induction false} DeleteLineExample(g: Generator)
    requires "foo" in g.parentTablesToIndices
    ensures ClassifyLine(g, "table public.foo: DELETE: id[text]:'a-1'") == Success(Some(Delete(g.parentTablesToIndices["foo"], "a-1")))
  {
    var slot := Slot("public", "foo", "DELETE", "a-1");
    ParentLineHead("");
    assert "table public.foo: DELETE: id[text]:'a-1'" + "" == "table public.foo: DELETE: id[text]:'a-1'";
    ClassifyLineOf(g, slot, "");
  }

  /** The head of the `index_action` docstring's line, up to the closing quote of the id. */
  lemma {:induction false} ViewLineHead(rest: string)
    ensures LineOf(Slot("sinker", "foo_mv", "INSERT", "a-1"), rest) == "table sinker.foo_mv: INSERT: id[text]:'a-1'" + rest
  {
    assert "table " + "sinker" == "table sinker";
    assert "table sinker" + "." == "table sinker.";
    assert "table sinker." + "foo_mv" == "table sinker.foo_mv";
    assert "table sinker.foo_mv" + ": " == "table sinker.foo_mv: ";
    assert "table sinker.foo_mv: " + "INSERT" == "table sinker.foo_mv: INSERT";
    assert "table sinker.foo_mv: INSERT" + ": id[text]:'" == "table sinker.foo_mv: INSERT: id[text]:'";
    assert "table sinker.foo_mv: INSERT: id[text]:'" + "a-1" == "table sinker.foo_mv: INSERT: id[text]:'a-1";
    assert "table sinker.foo_mv: INSERT: id[text]:'a-1" + "'" == "table sinker.foo_mv: INSERT: id[text]:'a-1'";
  }

  /** The document part of the `index_action` docstring's line: a space, the marker
      and the quoted JSON. */
  lemma {:induction false} ViewLineTail()
    ensures " " + DocMarker + "'{\"name\" : \"Foo Bar\"}'" == " doc[json]:'{\"name\" : \"Foo Bar\"}'"
  {
    assert " " + "doc[json]:" == " doc[json]:";
  }

  /** The `index_action` docstring's line is its head followed by its document part. */
  lemma {:induction false} ViewLineText()
    ensures "table sinker.foo_mv: INSERT: id[text]:'a-1'" + " doc[json]:'{\"name\" : \"Foo Bar\"}'" ==
            "table sinker.foo_mv: INSERT: id[text]:'a-1' doc[json]:'{\"name\" : \"Foo Bar\"}'"
  {
  }

  /** The head of the `index_action` docstring's line, with the space after it,
      holds no `j`. */
  lemma {:induction false} ViewHeadFree()
    ensures 'j' !in LineOf(Slot("sinker", "foo_mv", "INSERT", "a-1"), " ")
  {
    LineOfChars(Slot("sinker", "foo_mv", "INSERT", "a-1"), " ", 'j');
  }

  /** The document of the `index_action` docstring's line is JSON free of quotes,
      in quotes, and holds no `j`. */
  lemma {:induction false} ViewDocQuoted()
    ensures 'j' !in "'{\"name\" : \"Foo Bar\"}'"
    ensures "'" + "{\"name\" : \"Foo Bar\"}" + "'" == "'{\"name\" : \"Foo Bar\"}'"
    ensures '\'' !in "{\"name\" : \"Foo Bar\"}"
  {
    assert "'" + "{\"name\" : \"Foo Bar\"}" == "'{\"name\" : \"Foo Bar\"}";
  }

  /** Regrouping a concatenation of three texts. */
  lemma {:induction false} RegroupAppend(a: string, b: string, c: string)
    ensures a + (b + c) == a + b + c
  {
  }

  /** The view line of the `index_action` docstring indexes document `a-1` into the
      view's index, with the text after `doc[json]:` less its quotes as the source. */
  lemma {:induction false} IndexLineExample(g: Generator)
    requires "foo_mv" in g.viewsToIndices
    ensures ClassifyLine(g, "table sinker.foo_mv: INSERT: id[text]:'a-1' doc[json]:'{\"name\" : \"Foo Bar\"}'") ==
            Success(Some(Index(g.viewsToIndices["foo_mv"], "a-1", "{\"name\" : \"Foo Bar\"}")))
  {
    var slot := Slot("sinker", "foo_mv", "INSERT", "a-1");
    var doc := "'{\"name\" : \"Foo Bar\"}'";
    var tail := " " + DocMarker + doc;
    ViewLineTail();
    ViewLineText();
    ViewLineHead(tail);
    ClassifyLineOf(g, slot, tail);
    RegroupAppend(" ", DocMarker, doc);
    LineOfAppend(slot, " ", DocMarker + doc);
    RegroupAppend(LineOf(slot, " "), DocMarker, doc);
    ViewHeadFree();
    ViewDocQuoted();
    DocOfSingleMarker(LineOf(slot, " "), doc);
    RemoveQuotesAround("{\"name\" : \"Foo Bar\"}");
  }

  /** A view delete line carries no id (`table sinker.foo_mv: DELETE: (no-tuple-data)`):
      it does not match and is skipped. */
  lemma {:induction false} NoTupleDeleteSkipped(g: Generator)
    ensures ClassifyLine(g, "table sinker.foo_mv: DELETE: (no-tuple-data)") == Success(None)
  {
    var line := "table sinker.foo_mv: DELETE: (no-tuple-data)";
    assert forall j :: 0 <= j < |line| ==> line[j] != '\'';
    NoMatchWithoutQuote(line);
  }

  /** What draining the slot produces: the actions yielded before the generator
      stopped, and the exception that stopped it, if any. */
  datatype Drain = Drain(actions: seq<Action>, fault: Option<Fault>)

  function OptionSeq(o: Option<Action>): (r: seq<Action>)
    ensures |r| <= 1
  {
    match o
    case None => []
    case Some(a) => [a]
  }

  /** How one line is turned into at most one action, or the exception it raises. */
  type Classifier = string -> Result<Option<Action>, Fault>

  /** The loop of `generate_actions` over the pending lines, in order, for any
      per-line step: it stops at the first line whose step raises. */
  function DrainWith(classify: Classifier, lines: seq<string>): (d: Drain)
    ensures |d.actions| <= |lines|
    ensures d.fault.Some? ==> exists n :: 0 <= n < |lines| && classify(lines[n]) == Failure(d.fault.value)
    decreases |lines|
  {
    if |lines| == 0 then Drain([], None)
    else
      match classify(lines[0])
      case Failure(e) => Drain([], Some(e))
      case Success(o) =>
        var rest := DrainWith(classify, lines[1..]);
        assert rest.fault.Some? ==> exists n :: 1 <= n < |lines| && classify(lines[n]) == Failure(rest.fault.value) by {
          if rest.fault.Some? {
            var n :| 0 <= n < |lines[1..]| && classify(lines[1..][n]) == Failure(rest.fault.value);
            assert lines[1..][n] == lines[n + 1];
          }
        }
        Drain(OptionSeq(o) + rest.actions, rest.fault)
  }

  /** The drain runs to the end exactly when no line's step raises. */
  lemma {:induction false} DrainCompletes(classify: Classifier, lines: seq<string>)
    ensures DrainWith(classify, lines).fault.None? <==> forall n :: 0 <= n < |lines| ==> classify(lines[n]).Success?
    decreases |lines|
  {
    if |lines| > 0 {
      DrainCompletes(classify, lines[1..]);
      assert forall n :: 1 <= n < |lines| ==> lines[n] == lines[1..][n - 1];
    }
  }

  /** Draining a line in front of others: its outcome decides whether the rest is drained. */
  lemma {:induction false} DrainCons(classify: Classifier, line: string, rest: seq<string>)
    ensures DrainWith(classify, [line] + rest) ==
            match classify(line)
            case Failure(e) => Drain([], Some(e))
            case Success(o) => Drain(OptionSeq(o) + DrainWith(classify, rest).actions, DrainWith(classify, rest).fault)
  {
    assert ([line] + rest)[0] == line && ([line] + rest)[1..] == rest;
  }

  /** Draining two batches of lines is draining the first and then, unless it
      stopped, the second: each line contributes its own actions, in line order. */
  lemma {:induction false} DrainAppend(classify: Classifier, a: seq<string>, b: seq<string>)
    ensures DrainWith(classify, a + b) ==
            if DrainWith(classify, a).fault.Some? then DrainWith(classify, a)
            else Drain(DrainWith(classify, a).actions + DrainWith(classify, b).actions, DrainWith(classify, b).fault)
    decreases |a|
  {
    if |a| == 0 {
      assert a + b == b;
    } else {
      var line, tail := a[0], a[1..];
      assert a == [line] + tail;
      assert a + b == [line] + (tail + b);
      DrainCons(classify, line, tail);
      DrainCons(classify, line, tail + b);
      match classify(line)
      case Failure(e) =>
      case Success(o) =>
        DrainAppend(classify, tail, b);
        var t, u := DrainWith(classify, tail), DrainWith(classify, b);
        if t.fault.None? {
          assert OptionSeq(o) + (t.actions + u.actions) == (OptionSeq(o) + t.actions) + u.actions;
        }
    }
  }

  /** The per-line step of a `BulkActionGenerator`. */
  function Classify(g: Generator): Classifier
  {
    line => ClassifyLine(g, line)
  }

  /** `generate_actions` over the pending lines. */
  function Generate(g: Generator, lines: seq<string>): Drain
  {
    DrainWith(Classify(g), lines)
  }

  /** Some line raises while it is classified. */
  ghost predicate SomeLineRaises(g: Generator, lines: seq<string>)
  {
    exists n :: 0 <= n < |lines| && ClassifyLine(g, lines[n]).Failure?
  }

  /** The drain stops early exactly when some line raises while it is classified. */
  lemma {:induction false} GenerateFails(g: Generator, lines: seq<string>)
    ensures Generate(g, lines).fault.Some? <==> SomeLineRaises(g, lines)
  {
    DrainCompletes(Classify(g), lines);
    assert forall n :: 0 <= n < |lines| ==> Classify(g)(lines[n]) == ClassifyLine(g, lines[n]);
  }

  /** A single line drains to exactly what it classifies to. */
  lemma {:induction false} GenerateOne(g: Generator, line: string)
    ensures Generate(g, [line]) ==
            match ClassifyLine(g, line)
            case Failure(e) => Drain([], Some(e))
            case Success(o) => Drain(OptionSeq(o), None)
  {
    assert [line][1..] == [];
  }
}
