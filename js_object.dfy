/** Plain JavaScript objects used as string-keyed dictionaries: filled by
    `obj[key] = value` in order, and combined by object spread. */
module JsObject {

  /** The object after `obj[k] = v` for each pair in order, starting from
      `{}`. */
  function Assign<V>(pairs: seq<(string, V)>): map<string, V>
  {
    if pairs == [] then map[]
    else
      var last := pairs[|pairs| - 1];
      Assign(pairs[..|pairs| - 1])[last.0 := last.1]
  }

  /** `k` is written by some pair. */
  predicate Written<V>(pairs: seq<(string, V)>, k: string)
  {
    exists i :: 0 <= i < |pairs| && pairs[i].0 == k
  }

  /** `i` is the last pair that writes `k`. */
  predicate LastWrite<V>(pairs: seq<(string, V)>, k: string, i: int)
  {
    0 <= i < |pairs| && pairs[i].0 == k &&
    forall j :: i < j < |pairs| ==> pairs[j].0 != k
  }

  /** The keys of the object are exactly the keys written. */
  lemma {:induction false} AssignKeys<V>(pairs: seq<(string, V)>, k: string)
    ensures k in Assign(pairs) <==> Written(pairs, k)
    decreases |pairs|
  {
    if pairs != [] {
      var init := pairs[..|pairs| - 1];
      AssignKeys(init, k);
      if Written(init, k) {
        var i :| 0 <= i < |init| && init[i].0 == k;
        assert pairs[i].0 == k;
      }
      if Written(pairs, k) && pairs[|pairs| - 1].0 != k {
        var i :| 0 <= i < |pairs| && pairs[i].0 == k;
        assert init[i].0 == k;
      }
    }
  }

  /** A later write to the same key overwrites an earlier one: each key
      holds the value of its last write. */
  lemma {:induction false} AssignLastWins<V>(pairs: seq<(string, V)>, k: string, i: int)
    requires LastWrite(pairs, k, i)
    ensures k in Assign(pairs) && Assign(pairs)[k] == pairs[i].1
    decreases |pairs|
  {
    var init := pairs[..|pairs| - 1];
    if i < |pairs| - 1 {
      assert LastWrite(init, k, i);
      AssignLastWins(init, k, i);
    }
  }

  /** Every key holds the value of the pair that last wrote it. */
  lemma AssignValueWritten<V>(pairs: seq<(string, V)>, k: string)
    requires k in Assign(pairs)
    ensures exists i :: LastWrite(pairs, k, i) && Assign(pairs)[k] == pairs[i].1
  {
    AssignKeys(pairs, k);
    var i :| 0 <= i < |pairs| && pairs[i].0 == k;
    var last := LastIndex(pairs, k, i);
    AssignLastWins(pairs, k, last);
  }

  /** The last index at or after `i` that writes `k`. */
  function LastIndex<V>(pairs: seq<(string, V)>, k: string, i: int): (r: int)
    requires 0 <= i < |pairs| && pairs[i].0 == k
    ensures i <= r && LastWrite(pairs, k, r)
    decreases |pairs| - i
  {
    if exists j :: i < j < |pairs| && pairs[j].0 == k then
      var j :| i < j < |pairs| && pairs[j].0 == k;
      LastIndex(pairs, k, j)
    else i
  }

  /** Writing one more pair is the same as assigning it afterwards. */
  lemma AssignSnoc<V>(pairs: seq<(string, V)>, k: string, v: V)
    ensures Assign(pairs + [(k, v)]) == Assign(pairs)[k := v]
  {
    assert (pairs + [(k, v)])[..|pairs|] == pairs;
  }

  /** `{...a, ...b}`: the keys of both, and `b` wins on a collision. */
  function Spread<K, V>(a: map<K, V>, b: map<K, V>): (r: map<K, V>)
    ensures r.Keys == a.Keys + b.Keys
    ensures forall k :: k in b ==> r[k] == b[k]
    ensures forall k :: k in a && k !in b ==> r[k] == a[k]
  {
    a + b
  }
}
