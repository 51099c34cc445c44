/**
 Ordered first-match lookup over a table of `(key, value)` pairs, the shape
 of both fallback tables: entries are tried in declaration order and the
 first key the predicate accepts decides the value.
 */
module Table {
  import opened Wrappers

  /** Reference meaning: `k` is a hit and no earlier key is. */
  ghost predicate IsFirstHit<V>(table: seq<(string, V)>, hit: string -> bool, k: int) {
    0 <= k < |table| && hit(table[k].0) && forall j :: 0 <= j < k ==> !hit(table[j].0)
  }

  /** The index of the first key at or after `from` that `hit` accepts. */
  function FirstHit<V>(table: seq<(string, V)>, hit: string -> bool, from: nat): (r: Option<nat>)
    decreases |table| - from
    ensures r.Some? ==> from <= r.value < |table| && hit(table[r.value].0)
    ensures r.Some? ==> forall j :: from <= j < r.value ==> !hit(table[j].0)
    ensures r.None? ==> forall j :: from <= j < |table| ==> !hit(table[j].0)
  {
    if from >= |table| then None
    else if hit(table[from].0) then Some(from)
    else FirstHit(table, hit, from + 1)
  }

  /** The value of the first key `hit` accepts, or `default` when there is none. */
  function Lookup<V>(table: seq<(string, V)>, hit: string -> bool, default: V): (v: V)
    ensures (exists k :: IsFirstHit(table, hit, k) && v == table[k].1)
         || ((forall j :: 0 <= j < |table| ==> !hit(table[j].0)) && v == default)
  {
    match FirstHit(table, hit, 0)
    case Some(k) =>
      assert IsFirstHit(table, hit, k);
      table[k].1
    case None => default
  }

  /** The scan stops at the first hit, whatever follows it. */
  lemma FirstHitIs<V>(table: seq<(string, V)>, hit: string -> bool, k: nat, default: V)
    requires IsFirstHit(table, hit, k)
    ensures FirstHit(table, hit, 0) == Some(k)
    ensures Lookup(table, hit, default) == table[k].1
  {
  }
}
