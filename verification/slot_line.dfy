/** The replication-slot line grammar of bulk_action_generator.py (`SLOT_RE`) and a
    model of Python's `re.search` with that pattern.

    The pattern, in verbose mode, is
      table \s "? (schema [\w-]+) "? . "? (table [\w-]+) "? : \s (tg_op [A-Z]+) : \s id\[text]:' (id [\w-]+) '
    The `.` between schema and table is not escaped: it matches any character
    except a newline.

    The reference definition, `SpanAt`, says position by position what a match
    is. The matcher (`MatchAt`, `SearchFrom`, `Search`) follows the order in
    which Python's backtracking engine tries the alternatives, and every stage
    of it states in its contract which of the reference matches it returns. */
module SlotLine {
  import opened Wrappers

  /** `\w` (ASCII letters, digits and underscore). */
  predicate IsWordChar(c: char)
  {
    'a' <= c <= 'z' || 'A' <= c <= 'Z' || '0' <= c <= '9' || c == '_'
  }

  /** `\s` (ASCII whitespace, as Python's `str.isspace` sees it). */
  predicate IsSpaceChar(c: char)
  {
    c == ' ' || 9 <= c as int <= 13 || 28 <= c as int <= 31
  }

  /** The two repeated character classes of the pattern. */
  datatype CharClass = NameChars | UpperChars

  /** Membership in `[\w-]` or `[A-Z]`. */
  predicate InClass(c: char, cls: CharClass)
  {
    match cls
    case NameChars => IsWordChar(c) || c == '-'
    case UpperChars => 'A' <= c <= 'Z'
  }

  /** `x` matches `[class]+`. */
  predicate NonEmptyRun(x: string, cls: CharClass)
  {
    |x| > 0 && forall i :: 0 <= i < |x| ==> InClass(x[i], cls)
  }

  /** The four named groups of the pattern. */
  datatype Slot = Slot(schema: string, table: string, op: string, id: string)

  /** A successful search: where the match starts and its groups. */
  datatype SlotMatch = SlotMatch(start: nat, slot: Slot)

  // ---------------------------------------------------------------------------
  // Character runs

  /** Length of the longest stretch of `cls` characters starting at `p`. */
  function Run(s: string, p: nat, cls: CharClass): (n: nat)
    requires p <= |s|
    ensures p + n <= |s|
    ensures p + n == |s| || !InClass(s[p + n], cls)
    decreases |s| - p
  {
    if p < |s| && InClass(s[p], cls) then 1 + Run(s, p + 1, cls) else 0
  }

  /** `s[p..q]` matches `[class]+`. */
  predicate ClassSpan(s: string, p: nat, q: nat, cls: CharClass)
  {
    p < q <= |s| && q <= p + Run(s, p, cls)
  }

  /** Every character of the greedy run belongs to the class. */
  lemma {:induction false} RunSpan(s: string, p: nat, cls: CharClass)
    requires p <= |s|
    ensures forall j :: p <= j < p + Run(s, p, cls) ==> InClass(s[j], cls)
    decreases |s| - p
  {
    if p < |s| && InClass(s[p], cls) {
      RunSpan(s, p + 1, cls);
    }
  }

  /** A stretch of the class that is followed by a character outside it is the greedy run. */
  lemma {:induction false} RunEnds(s: string, p: nat, q: nat, cls: CharClass)
    requires ClassSpan(s, p, q, cls) && (q == |s| || !InClass(s[q], cls))
    ensures p + Run(s, p, cls) == q
  {
    RunSpan(s, p, cls);
  }

  /** The characters of a class span, as a string, match `[class]+`. */
  lemma {:induction false} SpanRun(s: string, p: nat, q: nat, cls: CharClass)
    requires ClassSpan(s, p, q, cls)
    ensures NonEmptyRun(s[p..q], cls)
  {
    RunSpan(s, p, cls);
  }

  function QuoteLen(present: bool): nat
  {
    if present then 1 else 0
  }

  // ---------------------------------------------------------------------------
  // From the op group to the end of the match: ([A-Z]+):\sid\[text]:'([\w-]+)'

  /** The literal `table` at `i`. */
  predicate KeywordAt(s: string, i: nat)
  {
    i + 5 <= |s| && s[i] == 't' && s[i + 1] == 'a' && s[i + 2] == 'b' && s[i + 3] == 'l' && s[i + 4] == 'e'
  }

  /** The literal `id[text]:'` (ten characters) at `i`. */
  predicate MarkerAt(s: string, i: nat)
  {
    i + 10 <= |s| && s[i] == 'i' && s[i + 1] == 'd' && s[i + 2] == '[' && s[i + 3] == 't' && s[i + 4] == 'e' &&
    s[i + 5] == 'x' && s[i + 6] == 't' && s[i + 7] == ']' && s[i + 8] == ':' && s[i + 9] == '\''
  }

  /** The id group occupies `s[f..h]` and the closing `'` sits at `h`. */
  predicate IdSpanAt(s: string, f: nat, h: nat)
  {
    ClassSpan(s, f, h, NameChars) && h < |s| && s[h] == '\''
  }

  function MatchId(s: string, f: nat): (r: Option<nat>)
    requires f <= |s|
    ensures r.Some? ==> IdSpanAt(s, f, r.value)
  {
    var h := f + Run(s, f, NameChars);
    if f < h && h < |s| && s[h] == '\'' then Some(h) else None
  }

  lemma {:induction false} IdFound(s: string, f: nat, h: nat)
    requires IdSpanAt(s, f, h)
    ensures MatchId(s, f) == Some(h)
  {
    RunEnds(s, f, h, NameChars);
  }

  /** Where the op group ends, the `\s` after its colon, and where the id group ends. */
  datatype OpSpan = OpSpan(opEnd: nat, ws3: char, idEnd: nat)

  predicate OpSpanAt(s: string, d: nat, o: OpSpan)
  {
    ClassSpan(s, d, o.opEnd, UpperChars) && o.opEnd + 1 < |s| && s[o.opEnd] == ':' && s[o.opEnd + 1] == o.ws3 &&
    IsSpaceChar(o.ws3) && MarkerAt(s, o.opEnd + 2) && IdSpanAt(s, o.opEnd + 12, o.idEnd)
  }

  function MatchOp(s: string, d: nat): (r: Option<OpSpan>)
    requires d <= |s|
    ensures r.Some? ==> OpSpanAt(s, d, r.value)
  {
    var e := d + Run(s, d, UpperChars);
    if d < e && e + 1 < |s| && s[e] == ':' && IsSpaceChar(s[e + 1]) && MarkerAt(s, e + 2) && MatchId(s, e + 12).Some?
    then Some(OpSpan(e, s[e + 1], MatchId(s, e + 12).value))
    else None
  }

  lemma {:induction false} OpFound(s: string, d: nat, o: OpSpan)
    requires OpSpanAt(s, d, o)
    ensures MatchOp(s, d) == Some(o)
  {
    RunEnds(s, d, o.opEnd, UpperChars);
    IdFound(s, o.opEnd + 12, o.idEnd);
  }

  // ---------------------------------------------------------------------------
  // From the table group on: "?([\w-]+)"?:\s and the op part

  /** What follows the table group: the optional closing quote, the `\s` after the colon, the op part. */
  datatype AfterTable = AfterTable(closeTable: bool, ws2: char, op: OpSpan)

  /** Where the op group starts when the table group ends at `b`. */
  function OpStart(b: nat, x: AfterTable): nat
  {
    b + QuoteLen(x.closeTable) + 2
  }

  predicate AfterTableAt(s: string, b: nat, x: AfterTable)
  {
    OpStart(b, x) <= |s| && (x.closeTable ==> s[b] == '"') && s[OpStart(b, x) - 2] == ':' &&
    s[OpStart(b, x) - 1] == x.ws2 && IsSpaceChar(x.ws2) && OpSpanAt(s, OpStart(b, x), x.op)
  }

  function MatchAfterTable(s: string, b: nat): (r: Option<AfterTable>)
    requires b <= |s|
    ensures r.Some? ==> AfterTableAt(s, b, r.value)
  {
    var closeTable := b < |s| && s[b] == '"';
    var c := b + QuoteLen(closeTable);
    if c + 2 <= |s| && s[c] == ':' && IsSpaceChar(s[c + 1]) && MatchOp(s, c + 2).Some?
    then Some(AfterTable(closeTable, s[c + 1], MatchOp(s, c + 2).value))
    else None
  }

  lemma {:induction false} AfterTableFound(s: string, b: nat, x: AfterTable)
    requires AfterTableAt(s, b, x)
    ensures MatchAfterTable(s, b) == Some(x)
  {
    var d := b + QuoteLen(b < |s| && s[b] == '"') + 2;
    assert d == OpStart(b, x);
    OpFound(s, d, x.op);
  }

  datatype TableSpan = TableSpan(tableEnd: nat, after: AfterTable)

  predicate TableSpanAt(s: string, a: nat, tb: TableSpan)
  {
    ClassSpan(s, a, tb.tableEnd, NameChars) && AfterTableAt(s, tb.tableEnd, tb.after)
  }

  function MatchTable(s: string, a: nat): (r: Option<TableSpan>)
    requires a <= |s|
    ensures r.Some? ==> TableSpanAt(s, a, r.value)
  {
    var b := a + Run(s, a, NameChars);
    if a < b && MatchAfterTable(s, b).Some? then Some(TableSpan(b, MatchAfterTable(s, b).value)) else None
  }

  /** The table group is greedy and what follows it starts with `"` or `:`, so the
      table part lying at `a` is the one found. */
  lemma {:induction false} TableFound(s: string, a: nat, tb: TableSpan)
    requires TableSpanAt(s, a, tb)
    ensures MatchTable(s, a) == Some(tb)
  {
    assert !InClass(s[tb.tableEnd], NameChars);
    RunEnds(s, a, tb.tableEnd, NameChars);
    AfterTableFound(s, tb.tableEnd, tb.after);
  }

  /** Everything after the `.`: the table's optional opening quote and the rest. */
  datatype TailSpan = TailSpan(openTable: bool, table: TableSpan)

  /** Where the table group starts when the tail starts at `t`. */
  function TableStart(t: nat, tl: TailSpan): nat
  {
    t + QuoteLen(tl.openTable)
  }

  predicate TailSpanAt(s: string, t: nat, tl: TailSpan)
  {
    (tl.openTable ==> t < |s| && s[t] == '"') && TableStart(t, tl) <= |s| && TableSpanAt(s, TableStart(t, tl), tl.table)
  }

  function MatchTail(s: string, t: nat): (r: Option<TailSpan>)
    requires t <= |s|
    ensures r.Some? ==> TailSpanAt(s, t, r.value)
  {
    var openTable := t < |s| && s[t] == '"';
    if MatchTable(s, t + QuoteLen(openTable)).Some?
    then Some(TailSpan(openTable, MatchTable(s, t + QuoteLen(openTable)).value))
    else None
  }

  /** The tail lying at `t` is the one found: a table group cannot start with `"`. */
  lemma {:induction false} TailFound(s: string, t: nat, tl: TailSpan)
    requires TailSpanAt(s, t, tl)
    ensures MatchTail(s, t) == Some(tl)
  {
    if !tl.openTable {
      assert InClass(s[t], NameChars);
    }
    var a := t + QuoteLen(t < |s| && s[t] == '"');
    assert a == TableStart(t, tl);
    TableFound(s, a, tl.table);
  }

  // ---------------------------------------------------------------------------
  // The schema group and what follows it: ([\w-]+)"?. and the tail

  /** What follows the schema group: its optional closing quote, the character `.` matched, the tail. */
  datatype SchemaRest = SchemaRest(closeSchema: bool, sep: char, tail: TailSpan)

  /** Where the tail starts when the schema group ends at `q`. */
  function TailStart(q: nat, x: SchemaRest): nat
  {
    q + QuoteLen(x.closeSchema) + 1
  }

  predicate SchemaRestAt(s: string, q: nat, x: SchemaRest)
  {
    TailStart(q, x) <= |s| && (x.closeSchema ==> s[q] == '"') && s[TailStart(q, x) - 1] == x.sep &&
    x.sep != '\n' && TailSpanAt(s, TailStart(q, x), x.tail)
  }

  /** The rest of the match after a schema group ending at `q`, with the closing quote taken or not. */
  function MatchSchemaRest(s: string, q: nat, closeSchema: bool): (r: Option<SchemaRest>)
    requires q <= |s|
    ensures r.Some? ==> SchemaRestAt(s, q, r.value) && r.value.closeSchema == closeSchema
  {
    if closeSchema && !(q < |s| && s[q] == '"') then None
    else
      var c := q + QuoteLen(closeSchema);
      if c < |s| && s[c] != '\n' && MatchTail(s, c + 1).Some?
      then Some(SchemaRest(closeSchema, s[c], MatchTail(s, c + 1).value))
      else None
  }

  lemma {:induction false} SchemaRestFound(s: string, q: nat, x: SchemaRest)
    requires SchemaRestAt(s, q, x)
    ensures MatchSchemaRest(s, q, x.closeSchema) == Some(x)
  {
    var c := q + QuoteLen(x.closeSchema);
    assert TailStart(q, x) == c + 1 && s[c] == x.sep;
    TailFound(s, c + 1, x.tail);
    SchemaRestFromTail(s, q, x);
  }

  /** The separator after the schema group, followed by a tail the matcher finds. */
  lemma {:induction false} SchemaRestFromTail(s: string, q: nat, x: SchemaRest)
    requires q + QuoteLen(x.closeSchema) < |s|
    requires x.closeSchema ==> s[q] == '"'
    requires s[q + QuoteLen(x.closeSchema)] == x.sep && x.sep != '\n'
    requires MatchTail(s, q + QuoteLen(x.closeSchema) + 1) == Some(x.tail)
    ensures MatchSchemaRest(s, q, x.closeSchema) == Some(x)
  {
  }

  /** `"?` is greedy, so the closing quote is tried before the bare `.`. */
  function BestRest(s: string, q: nat): (r: Option<SchemaRest>)
    requires q <= |s|
    ensures r.Some? ==> SchemaRestAt(s, q, r.value)
  {
    var quoted := MatchSchemaRest(s, q, true);
    if quoted.Some? then quoted else MatchSchemaRest(s, q, false)
  }

  /** Whatever follows a schema group ending at `q`, something is found, with the
      closing quote if any match takes it. */
  lemma {:induction false} BestRestFound(s: string, q: nat, x: SchemaRest)
    requires SchemaRestAt(s, q, x)
    ensures BestRest(s, q).Some? && (BestRest(s, q).value.closeSchema || !x.closeSchema)
  {
    SchemaRestFound(s, q, x);
  }

  /** The end of the schema group and what follows it. */
  datatype SchemaSpan = SchemaSpan(schemaEnd: nat, rest: SchemaRest)

  /** The backtracking engine tries `x` no later than `y`: longer schema groups first and,
      for the same group, the closing quote before the bare `.`. */
  predicate TriedFirst(x: SchemaSpan, y: SchemaSpan)
  {
    x.schemaEnd > y.schemaEnd || (x.schemaEnd == y.schemaEnd && (x.rest.closeSchema || !y.rest.closeSchema))
  }

  /** Backtracking over the schema group `s[a..a + k]`, `s[a..a + k - 1]`, ... down to one character. */
  function TrySchema(s: string, a: nat, k: nat): (r: Option<SchemaSpan>)
    requires a + k <= |s|
    ensures r.Some? ==> a < r.value.schemaEnd <= a + k && SchemaRestAt(s, r.value.schemaEnd, r.value.rest)
    decreases k
  {
    if k == 0 then None
    else
      var best := BestRest(s, a + k);
      if best.Some? then Some(SchemaSpan(a + k, best.value)) else TrySchema(s, a, k - 1)
  }

  /** The longest schema group whose rest matches ends the backtracking. */
  lemma {:induction false} TrySchemaStops(s: string, a: nat, k: nat)
    requires a + k <= |s| && 0 < k && BestRest(s, a + k).Some?
    ensures TrySchema(s, a, k) == Some(SchemaSpan(a + k, BestRest(s, a + k).value))
  {
  }

  /** When nothing follows a schema group of length `k`, one character shorter is tried. */
  lemma {:induction false} TrySchemaMoves(s: string, a: nat, k: nat)
    requires a + k <= |s| && 0 < k && BestRest(s, a + k).None?
    ensures TrySchema(s, a, k) == TrySchema(s, a, k - 1)
  {
  }

  /** The backtracking finds something no later, in the engine's order, than any
      schema part ending within `s[a + 1..a + k + 1]`. */
  lemma {:induction false} TrySchemaFound(s: string, a: nat, k: nat, y: SchemaSpan)
    requires a + k <= |s| && a < y.schemaEnd <= a + k && SchemaRestAt(s, y.schemaEnd, y.rest)
    ensures TrySchema(s, a, k).Some? && TriedFirst(TrySchema(s, a, k).value, y)
    decreases k
  {
    if BestRest(s, a + k).Some? {
      TrySchemaStops(s, a, k);
      if y.schemaEnd == a + k {
        BestRestFound(s, a + k, y.rest);
      }
    } else {
      TrySchemaMoves(s, a, k);
      if y.schemaEnd == a + k {
        BestRestFound(s, a + k, y.rest);
      } else {
        TrySchemaFound(s, a, k - 1, y);
      }
    }
  }

  /** The schema part of the match when the schema group starts at `a`. */
  predicate SchemaSpanAt(s: string, a: nat, y: SchemaSpan)
  {
    ClassSpan(s, a, y.schemaEnd, NameChars) && SchemaRestAt(s, y.schemaEnd, y.rest)
  }

  /** The schema part the engine settles on: the first success of the backtracking. */
  function MatchSchema(s: string, a: nat): (r: Option<SchemaSpan>)
    requires a <= |s|
    ensures r.Some? ==> SchemaSpanAt(s, a, r.value)
  {
    TrySchema(s, a, Run(s, a, NameChars))
  }

  lemma {:induction false} SchemaFound(s: string, a: nat, y: SchemaSpan)
    requires SchemaSpanAt(s, a, y)
    ensures MatchSchema(s, a).Some? && TriedFirst(MatchSchema(s, a).value, y)
  {
    TrySchemaFound(s, a, Run(s, a, NameChars), y);
  }

  // ---------------------------------------------------------------------------
  // A whole match: table\s"? and the schema part

  /** The `\s` after `table` and whether the schema's opening quote is there. */
  datatype Head = Head(ws1: char, openSchema: bool)

  predicate HeadAt(s: string, i: nat, h: Head)
  {
    KeywordAt(s, i) && i + 6 <= |s| && s[i + 5] == h.ws1 && IsSpaceChar(h.ws1) &&
    (h.openSchema ==> i + 6 < |s| && s[i + 6] == '"')
  }

  /** `table\s"?`; the quote is taken whenever it is there. */
  function MatchHead(s: string, i: nat): (r: Option<Head>)
    requires i <= |s|
    ensures r.Some? ==> HeadAt(s, i, r.value) && r.value.openSchema == (i + 6 < |s| && s[i + 6] == '"')
  {
    if KeywordAt(s, i) && i + 6 <= |s| && IsSpaceChar(s[i + 5])
    then Some(Head(s[i + 5], i + 6 < |s| && s[i + 6] == '"'))
    else None
  }

  /** A match: where it starts, its head and its schema part. */
  datatype Span = Span(start: nat, head: Head, schema: SchemaSpan)

  /** Where the schema group starts. */
  function SchemaStart(sp: Span): nat
  {
    sp.start + 6 + QuoteLen(sp.head.openSchema)
  }

  /** The reference definition: the pattern matches `s` as `sp` describes. */
  predicate SpanAt(s: string, sp: Span)
  {
    HeadAt(s, sp.start, sp.head) && SchemaStart(sp) <= |s| && SchemaSpanAt(s, SchemaStart(sp), sp.schema)
  }

  /** Every match has the head the engine takes: when the opening quote is there
      but left out, the schema group would have to start with `"`. */
  lemma {:induction false} HeadFound(s: string, sp: Span)
    requires SpanAt(s, sp)
    ensures MatchHead(s, sp.start) == Some(sp.head)
  {
    if !sp.head.openSchema {
      assert InClass(s[SchemaStart(sp)], NameChars);
    }
  }

  /** The match the engine reports among those starting at `i`, if any. */
  function MatchAt(s: string, i: nat): (r: Option<Span>)
    requires i <= |s|
    ensures r.Some? ==> SpanAt(s, r.value) && r.value.start == i
  {
    var head := MatchHead(s, i);
    if head.Some? then
      var tried := MatchSchema(s, i + 6 + QuoteLen(head.value.openSchema));
      if tried.Some? then Some(Span(i, head.value, tried.value)) else None
    else None
  }

  /** Whenever the pattern matches at `i`, a match is reported there, and it is
      the one the engine tries first. */
  lemma {:induction false} MatchAtFound(s: string, sp: Span)
    requires SpanAt(s, sp)
    ensures MatchAt(s, sp.start).Some?
    ensures MatchAt(s, sp.start).value.head == sp.head && TriedFirst(MatchAt(s, sp.start).value.schema, sp.schema)
  {
    HeadFound(s, sp);
    SchemaFound(s, SchemaStart(sp), sp.schema);
  }

  /** The leftmost match starting at `i` or later. */
  function SearchFrom(s: string, i: nat): (r: Option<Span>)
    requires i <= |s|
    ensures r.Some? ==> SpanAt(s, r.value) && i <= r.value.start
    decreases |s| - i
  {
    var here := MatchAt(s, i);
    if here.Some? then here else if i == |s| then None else SearchFrom(s, i + 1)
  }

  /** What the search reports is what `MatchAt` finds where it stops. */
  lemma {:induction false} SearchFromAt(s: string, i: nat)
    requires i <= |s|
    ensures SearchFrom(s, i).Some? ==> MatchAt(s, SearchFrom(s, i).value.start) == SearchFrom(s, i)
    decreases |s| - i
  {
    if MatchAt(s, i).None? && i < |s| {
      SearchFromAt(s, i + 1);
    }
  }

  /** No match is skipped: the search stops at or before any match from `i` on. */
  lemma {:induction false} SearchFromFound(s: string, i: nat, sp: Span)
    requires i <= sp.start && SpanAt(s, sp)
    ensures SearchFrom(s, i).Some? && SearchFrom(s, i).value.start <= sp.start
    decreases |s| - i
  {
    if i == sp.start {
      MatchAtFound(s, sp);
    } else if MatchAt(s, i).None? {
      SearchFromFound(s, i + 1, sp);
    }
  }

  // ---------------------------------------------------------------------------
  // The reported match and its groups

  /** Some match of the pattern lies in `s`. */
  ghost predicate HasMatch(s: string)
  {
    exists sp :: SpanAt(s, sp)
  }

  /** `sp` is the match `re.search` reports: no match starts earlier, and among
      those starting at the same place none is tried before it. */
  ghost predicate Reported(s: string, sp: Span)
  {
    SpanAt(s, sp) &&
    forall y :: SpanAt(s, y) ==> sp.start < y.start || (sp.start == y.start && sp.head == y.head && TriedFirst(sp.schema, y.schema))
  }

  /** The search from the start of the line reports the `re.search` match. */
  lemma {:induction false} SearchFromReported(s: string)
    ensures SearchFrom(s, 0).Some? <==> HasMatch(s)
    ensures SearchFrom(s, 0).Some? ==> Reported(s, SearchFrom(s, 0).value)
  {
    if HasMatch(s) {
      var sp :| SpanAt(s, sp);
      SearchFromFound(s, 0, sp);
      SearchFromAt(s, 0);
      var r := SearchFrom(s, 0).value;
      forall y | SpanAt(s, y)
        ensures r.start < y.start || (r.start == y.start && r.head == y.head && TriedFirst(r.schema, y.schema))
      {
        SearchFromFound(s, 0, y);
        if r.start == y.start {
          MatchAtFound(s, y);
        }
      }
    }
  }

  /** Every group matches its character class. */
  predicate GroupsWellFormed(g: Slot)
  {
    NonEmptyRun(g.schema, NameChars) && NonEmptyRun(g.table, NameChars) &&
    NonEmptyRun(g.op, UpperChars) && NonEmptyRun(g.id, NameChars)
  }

  /** The four groups of a match. */
  function Extract(s: string, sp: Span): (g: Slot)
    requires SpanAt(s, sp)
    ensures GroupsWellFormed(g)
  {
    var q := sp.schema.schemaEnd;
    var tl := sp.schema.rest.tail;
    var a := TableStart(TailStart(q, sp.schema.rest), tl);
    var b := tl.table.tableEnd;
    var d := OpStart(b, tl.table.after);
    var o := tl.table.after.op;
    SpanRun(s, SchemaStart(sp), q, NameChars);
    SpanRun(s, a, b, NameChars);
    SpanRun(s, d, o.opEnd, UpperChars);
    SpanRun(s, o.opEnd + 12, o.idEnd, NameChars);
    Slot(s[SchemaStart(sp)..q], s[a..b], s[d..o.opEnd], s[o.opEnd + 12..o.idEnd])
  }

  /** `SLOT_RE.search(s)`: the groups of the reported match, if there is one. */
  function Search(s: string): (r: Option<SlotMatch>)
    ensures r.Some? ==> GroupsWellFormed(r.value.slot)
  {
    var found := SearchFrom(s, 0);
    if found.Some? then Some(SlotMatch(found.value.start, Extract(s, found.value))) else None
  }

  /** `Search` finds something exactly when the pattern matches somewhere, and then
      it yields the groups of the match `re.search` reports. */
  lemma {:induction false} SearchCorrect(s: string)
    ensures Search(s).Some? <==> HasMatch(s)
    ensures Search(s).Some? ==> exists sp :: Reported(s, sp) && Search(s).value == SlotMatch(sp.start, Extract(s, sp))
  {
    SearchFromReported(s);
  }

  /** A match is determined by where it starts, where its schema group ends and
      whether the schema's closing quote is taken. */
  lemma {:induction false} SpanUnique(s: string, x: Span, y: Span)
    requires SpanAt(s, x) && SpanAt(s, y)
    requires x.start == y.start && x.schema.schemaEnd == y.schema.schemaEnd
    requires x.schema.rest.closeSchema == y.schema.rest.closeSchema
    ensures x == y
  {
    HeadFound(s, x);
    HeadFound(s, y);
    SchemaRestFound(s, x.schema.schemaEnd, x.schema.rest);
    SchemaRestFound(s, y.schema.schemaEnd, y.schema.rest);
  }

  /** There is at most one reported match. */
  lemma {:induction false} ReportedUnique(s: string, x: Span, y: Span)
    requires Reported(s, x) && Reported(s, y)
    ensures x == y
  {
    SpanUnique(s, x, y);
  }

  /** A line without a `'` never matches: the id group is closed by one. */
  lemma {:induction false} NoMatchWithoutQuote(s: string)
    ensures (forall j :: 0 <= j < |s| ==> s[j] != '\'') ==> !HasMatch(s) && Search(s) == None
  {
    SearchCorrect(s);
    if HasMatch(s) {
      var sp :| SpanAt(s, sp);
      var idEnd := sp.schema.rest.tail.table.after.op.idEnd;
      assert idEnd < |s| && s[idEnd] == '\'';
    }
  }
}
