/** A dict built from key/value pairs in order, as a Python dict comprehension or
    `json.load` builds one: a later pair overwrites an earlier one with the same key. */
module Assoc {

  function FromPairs<K, V>(pairs: seq<(K, V)>): map<K, V>
    decreases |pairs|
  {
    if |pairs| == 0 then map[]
    else FromPairs(pairs[..|pairs| - 1])[pairs[|pairs| - 1].0 := pairs[|pairs| - 1].1]
  }

  /** The keys are exactly the pairs' keys, and each maps to the value of the
      last pair carrying it. */
  lemma {:induction false} FromPairsLastWins<K, V>(pairs: seq<(K, V)>)
    ensures forall k :: k in FromPairs(pairs) <==> exists n :: 0 <= n < |pairs| && pairs[n].0 == k
    ensures forall n :: 0 <= n < |pairs| && (forall m :: n < m < |pairs| ==> pairs[m].0 != pairs[n].0) ==>
              FromPairs(pairs)[pairs[n].0] == pairs[n].1
    decreases |pairs|
  {
    if |pairs| > 0 {
      var init := pairs[..|pairs| - 1];
      FromPairsLastWins(init);
      assert forall n :: 0 <= n < |init| ==> init[n] == pairs[n];
    }
  }
}
