/** Python dictionaries as the client builds them.

    A dict display `{k1: v1, ..., kn: vn}` and a dict comprehension over an
    ordered sequence of items both store their entries left to right, so a key
    that occurs twice ends up bound to the value of its LAST occurrence. This
    module writes that rule out once, as a left fold of single-key updates, and
    proves what the resulting map holds.
 */
module Dicts {

  datatype Option<T> = None | Some(value: T)

  /** The dict built from `entries`, stored one key update at a time, left to right. */
  function FromEntries<K, V>(entries: seq<(K, V)>): (d: map<K, V>)
    ensures d.Keys == set i | 0 <= i < |entries| :: entries[i].0
  {
    if entries == [] then map[]
    else
      var prefix, last := entries[..|entries| - 1], entries[|entries| - 1];
      assert (set i | 0 <= i < |entries| :: entries[i].0)
          == (set i | 0 <= i < |prefix| :: prefix[i].0) + {last.0};
      FromEntries(prefix)[last.0 := last.1]
  }

  /** `d.get(k, default)`. */
  function GetOr<K, V>(d: map<K, V>, k: K, default: V): V
  {
    if k in d then d[k] else default
  }

  /** The entry at index `i` decides key `k` when no later entry has key `k`. */
  ghost predicate LastWith<K, V>(entries: seq<(K, V)>, k: K, i: int)
  {
    0 <= i < |entries| && entries[i].0 == k &&
    forall j :: i < j < |entries| ==> entries[j].0 != k
  }

  /** A later duplicate key overwrites an earlier one: the value stored for `k`
      is the value of the last entry whose key is `k`. */
  lemma {:induction false} FromEntriesLast<K, V>(entries: seq<(K, V)>, k: K, i: int)
    requires LastWith(entries, k, i)
    ensures k in FromEntries(entries) && FromEntries(entries)[k] == entries[i].1
  {
    var n := |entries| - 1;
    if i < n {
      assert entries[n].0 != k;
      assert LastWith(entries[..n], k, i);
      FromEntriesLast(entries[..n], k, i);
    }
  }

  /** `d.get(k, default)` on a dict built from `entries`: the value of the last
      entry with key `k`, or `default` when no entry has that key. */
  lemma GetOrFromEntries<K, V>(entries: seq<(K, V)>, k: K, default: V)
    ensures (forall i :: 0 <= i < |entries| ==> entries[i].0 != k) ==>
              GetOr(FromEntries(entries), k, default) == default
    ensures forall i :: LastWith(entries, k, i) ==>
              GetOr(FromEntries(entries), k, default) == entries[i].1
  {
    forall i | LastWith(entries, k, i)
      ensures GetOr(FromEntries(entries), k, default) == entries[i].1
    {
      FromEntriesLast(entries, k, i);
    }
  }
}
