/**
 * Key/value pairs and the maps built from them, as JavaScript builds them:
 * `new Map(pairs)`, a `forEach` that assigns `m[k] = v` pair by pair, and
 * `Object.entries(m)`.
 */
module Entries {

  /**
   * The map `new Map(pairs)` builds, which is also what assigning `m[k] = v`
   * for each pair in order leaves in an empty object: a later pair with the
   * same key overwrites an earlier one.
   */
  function FromEntries<K, V>(pairs: seq<(K, V)>): (m: map<K, V>)
    ensures m.Keys == set i | 0 <= i < |pairs| :: pairs[i].0
    decreases |pairs|
  {
    if pairs == [] then map[]
    else
      var last := pairs[|pairs| - 1];
      FromEntries(pairs[..|pairs| - 1])[last.0 := last.1]
  }

  /** Adding one more pair assigns that one key and no other. */
  lemma FromEntriesSnoc<K, V>(pairs: seq<(K, V)>, p: (K, V))
    ensures FromEntries(pairs + [p]) == FromEntries(pairs)[p.0 := p.1]
  {
    assert (pairs + [p])[..|pairs|] == pairs;
  }

  /** The value a key ends up with is the one of its last occurrence among the pairs. */
  lemma {:induction false} LastWins<K, V>(pairs: seq<(K, V)>, i: nat)
    requires i < |pairs|
    requires forall j :: i < j < |pairs| ==> pairs[j].0 != pairs[i].0
    ensures pairs[i].0 in FromEntries(pairs) && FromEntries(pairs)[pairs[i].0] == pairs[i].1
    decreases |pairs|
  {
    var front := pairs[..|pairs| - 1];
    if i < |pairs| - 1 {
      assert front[i] == pairs[i];
      LastWins(front, i);
    }
  }

  /** `m.get(k) || fallback` for a map whose falsy values equal the fallback (false for flags, 0 for counts). */
  function GetOr<K, V>(m: map<K, V>, k: K, fallback: V): (v: V)
    ensures k in m ==> v == m[k]
    ensures k !in m ==> v == fallback
  {
    if k in m then m[k] else fallback
  }

  /**
   * `Object.entries(m)`: every key once, with its value. The order is the
   * object's insertion order, which a map does not keep, so any order may come out.
   */
  method ObjectEntries<K, V>(m: map<K, V>) returns (pairs: seq<(K, V)>)
    ensures forall i :: 0 <= i < |pairs| ==> pairs[i].0 in m && m[pairs[i].0] == pairs[i].1
    ensures forall i, j :: 0 <= i < j < |pairs| ==> pairs[i].0 != pairs[j].0
    ensures FromEntries(pairs) == m
  {
    pairs := [];
    var left := m.Keys;
    ghost var built: map<K, V> := map[];
    while left != {}
      invariant left <= m.Keys
      invariant built == FromEntries(pairs)
      invariant built.Keys == m.Keys - left
      invariant forall k :: k in built ==> built[k] == m[k]
      invariant forall i :: 0 <= i < |pairs| ==> pairs[i].0 in m && m[pairs[i].0] == pairs[i].1 && pairs[i].0 !in left
      invariant forall i, j :: 0 <= i < j < |pairs| ==> pairs[i].0 != pairs[j].0
      decreases |left|
    {
      var k :| k in left;
      FromEntriesSnoc(pairs, (k, m[k]));
      pairs := pairs + [(k, m[k])];
      built := built[k := m[k]];
      left := left - {k};
    }
  }
}
