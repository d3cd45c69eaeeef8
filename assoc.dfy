/**
 * The dictionary a loop builds by assigning `d[k] = v` for a sequence of
 * optional entries, in order: a later assignment to the same key replaces
 * an earlier one.
 */
module Assoc {
  import opened Wrappers

  /** The dictionary after applying every entry in order; `None` entries change nothing. */
  function LastWins<K(==), V>(entries: seq<Option<(K, V)>>): map<K, V>
  {
    if entries == [] then map[]
    else
      var m := LastWins(entries[..|entries| - 1]);
      match entries[|entries| - 1]
      case None => m
      case Some((k, v)) => m[k := v]
  }

  /** Adding one more entry applies it to the dictionary built so far. */
  lemma LastWinsStep<K, V>(entries: seq<Option<(K, V)>>, n: int)
    requires 0 <= n < |entries|
    ensures LastWins(entries[..n + 1]) ==
      match entries[n]
      case None => LastWins(entries[..n])
      case Some((k, v)) => LastWins(entries[..n])[k := v]
  {
    assert entries[..n + 1][..n] == entries[..n];
  }

  /** Entry `i` assigns key `k`. */
  predicate Assigns<K(==), V>(entries: seq<Option<(K, V)>>, i: int, k: K)
  {
    0 <= i < |entries| && entries[i].Some? && entries[i].value.0 == k
  }

  /** A key is in the dictionary exactly when some entry assigns it. */
  lemma {:induction false} LastWinsKeys<K, V>(entries: seq<Option<(K, V)>>, k: K)
    ensures k in LastWins(entries) <==> exists i :: Assigns(entries, i, k)
  {
    if entries != [] {
      var init := entries[..|entries| - 1];
      LastWinsKeys(init, k);
      if Assigns(entries, |entries| - 1, k) {
        assert k in LastWins(entries);
      } else {
        assert k in LastWins(entries) <==> k in LastWins(init);
        if exists i :: Assigns(init, i, k) {
          var i :| Assigns(init, i, k);
          assert Assigns(entries, i, k);
        }
        if exists i :: Assigns(entries, i, k) {
          var i :| Assigns(entries, i, k);
          assert Assigns(init, i, k);
        }
      }
    }
  }

  /** The value of a key is the one given by the last entry that assigns it. */
  lemma {:induction false} LastWinsValue<K, V>(entries: seq<Option<(K, V)>>, i: int)
    requires 0 <= i < |entries| && entries[i].Some?
    requires forall j :: i < j < |entries| ==> !Assigns(entries, j, entries[i].value.0)
    ensures entries[i].value.0 in LastWins(entries)
    ensures LastWins(entries)[entries[i].value.0] == entries[i].value.1
  {
    var init := entries[..|entries| - 1];
    if i < |init| {
      forall j | i < j < |init| ensures !Assigns(init, j, entries[i].value.0) {
        assert !Assigns(entries, j, entries[i].value.0);
      }
      assert !Assigns(entries, |entries| - 1, entries[i].value.0);
      LastWinsValue(init, i);
    }
  }
}
