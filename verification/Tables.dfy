/** Maps filled from a list of entries, a later entry replacing an earlier one of the same key. */
module Tables {

  function LastWins<K(==), V>(list: seq<(K, V)>): map<K, V> {
    if list == [] then map[]
    else LastWins(list[..|list| - 1])[list[|list| - 1].0 := list[|list| - 1].1]
  }

  lemma LastWinsSnoc<K, V>(done: seq<(K, V)>, entry: (K, V))
    ensures LastWins(done + [entry]) == LastWins(done)[entry.0 := entry.1]
  {
    assert (done + [entry])[..|done|] == done;
  }

  /** list[i] is the last entry for its key. */
  ghost predicate IsLast<K, V>(list: seq<(K, V)>, i: nat) {
    i < |list| && forall j :: i < j < |list| ==> list[j].0 != list[i].0
  }

  lemma {:induction false} LastWinsAt<K, V>(list: seq<(K, V)>, i: nat)
    requires IsLast(list, i)
    ensures list[i].0 in LastWins(list) && LastWins(list)[list[i].0] == list[i].1
  {
    if i < |list| - 1 {
      LastWinsAt(list[..|list| - 1], i);
    }
  }

  lemma {:induction false} LastWinsOnly<K, V>(list: seq<(K, V)>, k: K) returns (i: nat)
    requires k in LastWins(list)
    ensures IsLast(list, i) && list[i] == (k, LastWins(list)[k])
  {
    if list[|list| - 1].0 == k {
      i := |list| - 1;
    } else {
      i := LastWinsOnly(list[..|list| - 1], k);
    }
  }

  /** The table holds exactly the last entry of every key. */
  lemma LastWinsExactly<K, V>(list: seq<(K, V)>, k: K, v: V)
    ensures k in LastWins(list) && LastWins(list)[k] == v <==>
      exists i: nat :: IsLast(list, i) && list[i] == (k, v)
  {
    if k in LastWins(list) {
      var i := LastWinsOnly(list, k);
    }
    if i: nat :| IsLast(list, i) && list[i] == (k, v) {
      LastWinsAt(list, i);
    }
  }
}
