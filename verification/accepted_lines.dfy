/** Lines the slot pattern of bulk_action_generator.py accepts: a change line built
    from well-formed groups is matched at its start, and `SLOT_RE.search` gives
    the groups back. */
module AcceptedLines {
  import opened Wrappers
  import opened Text
  import opened SlotLine

  /** The line the replication slot writes for a change carrying a text id:
      `table <schema>.<table>: <op>: id[text]:'<id>'`, then whatever follows
      (the other columns). */
  function LineOf(g: Slot, rest: string): string
  {
    "table " + g.schema + "." + g.table + ": " + g.op + ": id[text]:'" + g.id + "'" + rest
  }

  /** What follows the id can be extended without touching the rest of the line. */
  lemma {:induction false} LineOfAppend(g: Slot, rest: string, more: string)
    ensures LineOf(g, rest + more) == LineOf(g, rest) + more
  {
  }

  /** A character is in a change line exactly when it is in the fixed text, in a
      group, or in what follows the id. */
  lemma {:induction false} LineOfChars(g: Slot, rest: string, c: char)
    ensures c in LineOf(g, rest) <==>
            c in "table .: id[text]:'" || c in g.schema || c in g.table || c in g.op || c in g.id || c in rest
  {
  }

  /** `x` occurs in `s` at `p`, stated as a slice. This is `Text.Occurs` in another
      form, not a second notion (`OccursAt` proves the two equal): a proof device,
      since the solver handles slice equalities far more cheaply than the prefix
      relation `Occurs` is written with. */
  predicate At(s: string, p: int, x: string)
  {
    0 <= p && p + |x| <= |s| && s[p..p + |x|] == x
  }

  /** `At` and `Occurs` agree everywhere. */
  lemma {:induction false} OccursAt(s: string, p: int, x: string)
    ensures Occurs(s, p, x) <==> At(s, p, x)
  {
  }

  /** A group at `p`: a non-empty run of its class that occurs there. */
  predicate GroupAt(s: string, p: int, x: string, cls: CharClass)
  {
    NonEmptyRun(x, cls) && At(s, p, x)
  }

  /** From `d` on: `<op>: id[text]:'<id>'`. */
  predicate OpPiecesAt(s: string, d: int, op: string, id: string)
  {
    GroupAt(s, d, op, UpperChars) && At(s, d + |op|, ": id[text]:'") &&
    GroupAt(s, d + |op| + 12, id, NameChars) && At(s, d + |op| + 12 + |id|, "'")
  }

  /** From `a` on: `<table>: <op>: id[text]:'<id>'`. */
  predicate TablePiecesAt(s: string, a: int, table: string, op: string, id: string)
  {
    GroupAt(s, a, table, NameChars) && At(s, a + |table|, ": ") && OpPiecesAt(s, a + |table| + 2, op, id)
  }

  /** `s` starts with `table <schema>.<table>: <op>: id[text]:'<id>'`, the groups well formed. */
  predicate LineLayout(s: string, g: Slot)
  {
    At(s, 0, "table ") && GroupAt(s, 6, g.schema, NameChars) && At(s, 6 + |g.schema|, ".") &&
    TablePiecesAt(s, 7 + |g.schema|, g.table, g.op, g.id)
  }

  /** `LineOf` lays its groups out as `LineLayout` says. */
  lemma {:induction false} LineParts(g: Slot, rest: string)
    requires GroupsWellFormed(g)
    ensures LineLayout(LineOf(g, rest), g)
  {
    var s := LineOf(g, rest);
    var upToSchema := "table " + g.schema;
    var upToDot := upToSchema + ".";
    var upToTable := upToDot + g.table;
    var upToColon := upToTable + ": ";
    var upToOp := upToColon + g.op;
    var upToMarker := upToOp + ": id[text]:'";
    var upToId := upToMarker + g.id;
    var upToQuote := upToId + "'";
    assert s[0..] == upToQuote + rest;
    OccursConcat(s, 0, upToQuote, rest);
    OccursConcat(s, 0, upToId, "'");
    OccursConcat(s, 0, upToMarker, g.id);
    OccursConcat(s, 0, upToOp, ": id[text]:'");
    OccursConcat(s, 0, upToColon, g.op);
    OccursConcat(s, 0, upToTable, ": ");
    OccursConcat(s, 0, upToDot, g.table);
    OccursConcat(s, 0, upToSchema, ".");
    OccursConcat(s, 0, "table ", g.schema);
    OccursAt(s, 0, "table ");
    OccursAt(s, 6, g.schema);
    OccursAt(s, |upToSchema|, ".");
    OccursAt(s, |upToDot|, g.table);
    OccursAt(s, |upToTable|, ": ");
    OccursAt(s, |upToColon|, g.op);
    OccursAt(s, |upToOp|, ": id[text]:'");
    OccursAt(s, |upToMarker|, g.id);
    OccursAt(s, |upToId|, "'");
  }

  /** The characters of a string at `p`. */
  lemma {:induction false} AtChars(s: string, p: int, x: string)
    requires At(s, p, x)
    ensures forall k :: 0 <= k < |x| ==> s[p + k] == x[k]
  {
    forall k | 0 <= k < |x|
      ensures s[p + k] == x[k]
    {
      assert s[p + k] == s[p..p + |x|][k];
    }
  }

  /** A stretch of class characters is covered by the greedy run. */
  lemma {:induction false} RunAtLeast(s: string, p: nat, q: nat, cls: CharClass)
    requires p <= q <= |s| && forall j :: p <= j < q ==> InClass(s[j], cls)
    ensures q <= p + Run(s, p, cls)
    decreases q - p
  {
    if p < q {
      RunAtLeast(s, p + 1, q, cls);
    }
  }

  /** A group at `p` is a class span there. */
  lemma {:induction false} GroupSpan(s: string, p: nat, x: string, cls: CharClass)
    requires GroupAt(s, p, x, cls)
    ensures ClassSpan(s, p, p + |x|, cls)
  {
    AtChars(s, p, x);
    RunAtLeast(s, p, p + |x|, cls);
  }

  /** `: id[text]:'` at `e`: the colon and space after the op group, then the marker. */
  lemma {:induction false} MarkerChars(s: string, e: nat)
    requires At(s, e, ": id[text]:'")
    ensures e + 1 < |s| && s[e] == ':' && s[e + 1] == ' ' && MarkerAt(s, e + 2)
  {
    var m := s[e..e + 12];
    assert s[e] == m[0] && s[e + 1] == m[1] && s[e + 2] == m[2] && s[e + 3] == m[3] && s[e + 4] == m[4] && s[e + 5] == m[5];
    assert s[e + 6] == m[6] && s[e + 7] == m[7] && s[e + 8] == m[8] && s[e + 9] == m[9] && s[e + 10] == m[10] && s[e + 11] == m[11];
  }

  /** A one-character string at `p` is that character. */
  lemma {:induction false} CharAt(s: string, p: nat, c: char)
    requires At(s, p, [c])
    ensures p < |s| && s[p] == c
  {
    assert s[p] == s[p..p + 1][0];
  }

  /** `: ` at `b`. */
  lemma {:induction false} ColonChars(s: string, b: nat)
    requires At(s, b, ": ")
    ensures b + 1 < |s| && s[b] == ':' && s[b + 1] == ' '
  {
    assert s[b] == s[b..b + 2][0] && s[b + 1] == s[b..b + 2][1];
  }

  /** `table ` at the start. */
  lemma {:induction false} KeywordChars(s: string)
    requires At(s, 0, "table ")
    ensures KeywordAt(s, 0) && 5 < |s| && s[5] == ' '
  {
    var m := s[..6];
    assert s[0] == m[0] && s[1] == m[1] && s[2] == m[2] && s[3] == m[3] && s[4] == m[4] && s[5] == m[5];
  }

  /** The op part that `OpPiecesAt` lays out at `d`. */
  function OpOf(d: nat, op: string, id: string): OpSpan
  {
    OpSpan(d + |op|, ' ', d + |op| + 12 + |id|)
  }

  lemma {:induction false} OpPiecesSpan(s: string, d: nat, op: string, id: string)
    requires OpPiecesAt(s, d, op, id)
    ensures OpSpanAt(s, d, OpOf(d, op, id))
  {
    GroupSpan(s, d, op, UpperChars);
    GroupSpan(s, d + |op| + 12, id, NameChars);
    MarkerChars(s, d + |op|);
    CharAt(s, d + |op| + 12 + |id|, '\'');
  }

  /** The tail that `TablePiecesAt` lays out at `a`. */
  function TailOf(a: nat, table: string, op: string, id: string): TailSpan
  {
    TailSpan(false, TableSpan(a + |table|, AfterTable(false, ' ', OpOf(a + |table| + 2, op, id))))
  }

  lemma {:induction false} TablePiecesSpan(s: string, a: nat, table: string, op: string, id: string)
    requires TablePiecesAt(s, a, table, op, id)
    ensures TailSpanAt(s, a, TailOf(a, table, op, id))
  {
    AfterTableSpan(s, a + |table|, op, id);
    GroupSpan(s, a, table, NameChars);
  }

  /** `": "` and the op pieces after the table group are what follows it in the match. */
  lemma {:induction false} AfterTableSpan(s: string, b: nat, op: string, id: string)
    requires At(s, b, ": ") && OpPiecesAt(s, b + 2, op, id)
    ensures AfterTableAt(s, b, AfterTable(false, ' ', OpOf(b + 2, op, id)))
  {
    OpPiecesSpan(s, b + 2, op, id);
    ColonChars(s, b);
  }

  /** The match a laid-out line holds. */
  function LineSpan(g: Slot): Span
  {
    Span(0, Head(' ', false), SchemaSpan(6 + |g.schema|, SchemaRest(false, '.', TailOf(7 + |g.schema|, g.table, g.op, g.id))))
  }

  /** A `.` that is not a `"` is taken bare, and the tail after it follows. */
  lemma {:induction false} BestRestDot(s: string, q: nat, tl: TailSpan)
    requires q < |s| && s[q] == '.' && MatchTail(s, q + 1) == Some(tl)
    ensures BestRest(s, q) == Some(SchemaRest(false, '.', tl))
  {
  }

  /** The schema backtracking stops at once when the longest schema group is followed
      by what the pattern needs. */
  lemma {:induction false} SchemaFirstTry(s: string, a: nat, n: nat, x: SchemaRest)
    requires a + n <= |s| && Run(s, a, NameChars) == n && 0 < n && BestRest(s, a + n) == Some(x)
    ensures MatchSchema(s, a) == Some(SchemaSpan(a + n, x))
  {
    TrySchemaStops(s, a, n);
  }

  /** The schema backtracking on a laid-out line: the greedy schema group ends at the
      `.`, no closing quote stands there, and the tail follows. */
  lemma {:induction false} LineSchemaMatch(s: string, g: Slot)
    requires LineLayout(s, g)
    ensures MatchSchema(s, 6) == Some(LineSpan(g).schema)
  {
    var q := 6 + |g.schema|;
    var tl := TailOf(q + 1, g.table, g.op, g.id);
    TablePiecesSpan(s, q + 1, g.table, g.op, g.id);
    TailFound(s, q + 1, tl);
    CharAt(s, q, '.');
    BestRestDot(s, q, tl);
    GroupSpan(s, 6, g.schema, NameChars);
    RunEnds(s, 6, q, NameChars);
    SchemaFirstTry(s, 6, |g.schema|, SchemaRest(false, '.', tl));
  }

  /** The head of a laid-out line: `table`, a space, and no opening quote, since the
      schema group starts with a name character. */
  lemma {:induction false} LineHead(s: string, g: Slot)
    requires LineLayout(s, g)
    ensures MatchHead(s, 0) == Some(Head(' ', false))
  {
    KeywordChars(s);
    AtChars(s, 6, g.schema);
    assert s[6] == g.schema[0] && InClass(s[6], NameChars);
  }

  /** The engine's match at the start of a laid-out line is `LineSpan`. */
  lemma {:induction false} LineMatchAt(s: string, g: Slot)
    requires LineLayout(s, g)
    ensures MatchAt(s, 0) == Some(LineSpan(g))
  {
    LineHead(s, g);
    LineSchemaMatch(s, g);
  }

  /** The groups of that match are the ones the line was laid out with. */
  lemma {:induction false} LineExtract(s: string, g: Slot)
    requires LineLayout(s, g) && SpanAt(s, LineSpan(g))
    ensures Extract(s, LineSpan(g)) == g
  {
  }

  /** `Search` gives back the groups of a laid-out line, matched at its start. */
  lemma {:induction false} SearchLaidOut(s: string, g: Slot)
    requires LineLayout(s, g)
    ensures Search(s) == Some(SlotMatch(0, g))
  {
    LineMatchAt(s, g);
    LineExtract(s, g);
  }

  /** Round trip: the line built from well-formed groups is matched at its start,
      and `Search` gives those groups back, whatever follows the id. */
  lemma {:induction false} SearchLineOf(g: Slot, rest: string)
    requires GroupsWellFormed(g)
    ensures Search(LineOf(g, rest)) == Some(SlotMatch(0, g))
  {
    LineParts(g, rest);
    SearchLaidOut(LineOf(g, rest), g);
  }
}
