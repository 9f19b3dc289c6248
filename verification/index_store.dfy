/** The Elasticsearch side as the sinker sees it: bulk actions and an index store
    that maps an (index, id) pair to the stored document source. */
module IndexStore {
  import opened Wrappers

  /** An Elasticsearch bulk action: the dicts built in bulk_action_generator.py and
      sinker.py. `Index` is `{_index, _id, _source}` (insert or overwrite);
      `Delete` is `{_op_type: "delete", _index, _id}`. */
  datatype Action =
    | Index(index: string, id: string, source: string)
    | Delete(index: string, id: string)

  /** A document address: index name and document id. */
  type Key = (string, string)

  /** The documents of every index, by address. */
  type Store = map<Key, string>

  function KeyOf(a: Action): Key
  {
    (a.index, a.id)
  }

  /** The store after one action. */
  function Apply(st: Store, a: Action): (r: Store)
    ensures a.Index? <==> KeyOf(a) in r
    ensures a.Index? ==> r[KeyOf(a)] == a.source
    ensures forall k :: k != KeyOf(a) ==> (k in r <==> k in st)
    ensures forall k :: k != KeyOf(a) && k in st ==> r[k] == st[k]
  {
    match a
    case Index(i, id, src) => st[(i, id) := src]
    case Delete(i, id) => st - {(i, id)}
  }

  /** The store after the actions, applied in order. */
  function ApplyAll(st: Store, acts: seq<Action>): Store
    decreases |acts|
  {
    if |acts| == 0 then st else ApplyAll(Apply(st, acts[0]), acts[1..])
  }

  /** Applying two batches one after the other is applying their concatenation. */
  lemma {:induction false} ApplyAllAppend(st: Store, a: seq<Action>, b: seq<Action>)
    ensures ApplyAll(st, a + b) == ApplyAll(ApplyAll(st, a), b)
    decreases |a|
  {
    if |a| > 0 {
      assert (a + b)[0] == a[0] && (a + b)[1..] == a[1..] + b;
      ApplyAllAppend(Apply(st, a[0]), a[1..], b);
    } else {
      assert a + b == b;
    }
  }

  /** The last action of `acts` addressed to `k`, if any. */
  function LastOn(acts: seq<Action>, k: Key): (r: Option<Action>)
    ensures r.Some? ==> KeyOf(r.value) == k &&
                        exists n :: 0 <= n < |acts| && acts[n] == r.value &&
                                    forall m :: n < m < |acts| ==> KeyOf(acts[m]) != k
    ensures r.None? ==> forall n :: 0 <= n < |acts| ==> KeyOf(acts[n]) != k
    decreases |acts|
  {
    if |acts| == 0 then None
    else if KeyOf(acts[|acts| - 1]) == k then Some(acts[|acts| - 1])
    else
      var r := LastOn(acts[..|acts| - 1], k);
      assert forall m :: 0 <= m < |acts| - 1 ==> acts[..|acts| - 1][m] == acts[m];
      r
  }

  /** Last write wins: what a batch leaves at an address is decided by the batch's
      last action there (an index stores its source, a delete removes the document),
      and an address the batch never touches keeps what it had. */
  lemma {:induction false} LastWriteWins(st: Store, acts: seq<Action>, k: Key)
    ensures var r := ApplyAll(st, acts);
            match LastOn(acts, k)
            case None => (k in r <==> k in st) && (k in st ==> r[k] == st[k])
            case Some(a) => (k in r <==> a.Index?) && (a.Index? ==> r[k] == a.source)
    decreases |acts|
  {
    if |acts| > 0 {
      var init := acts[..|acts| - 1];
      var last := acts[|acts| - 1];
      assert acts == init + [last];
      ApplyAllAppend(st, init, [last]);
      LastWriteWins(st, init, k);
    }
  }

  /** Deleting an index: every document of `index` goes, the others stay. */
  function DropIndex(st: Store, index: string): (r: Store)
    ensures forall k :: k in r <==> k in st && k.0 != index
    ensures forall k :: k in r ==> r[k] == st[k]
  {
    map k | k in st && k.0 != index :: st[k]
  }
}
