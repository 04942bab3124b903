/**
 Finite maps written by a sequence of assignments `m[k] = v`, as the Go code does
 when it loads the VM dataset and seeds the pod tables: the last write to a key wins.
 */
module Maps {

  /** The map obtained from `m` by performing the writes of `updates` in order. */
  function Assign<K, V>(m: map<K, V>, updates: seq<(K, V)>): (r: map<K, V>)
    ensures m.Keys <= r.Keys
    ensures forall i :: 0 <= i < |updates| ==> updates[i].0 in r
    decreases |updates|
  {
    if updates == [] then m
    else
      var (k, v) := updates[|updates| - 1];
      Assign(m, updates[..|updates| - 1])[k := v]
  }

  /** One more write. */
  lemma AssignSnoc<K, V>(m: map<K, V>, updates: seq<(K, V)>, kv: (K, V))
    ensures Assign(m, updates + [kv]) == Assign(m, updates)[kv.0 := kv.1]
  {
    var all := updates + [kv];
    assert all[..|all| - 1] == updates && all[|all| - 1] == kv;
  }

  /** A key's value is the one of the last write to it. */
  lemma {:induction false} AssignLast<K, V>(m: map<K, V>, updates: seq<(K, V)>, j: nat)
    requires j < |updates|
    requires forall k :: j < k < |updates| ==> updates[k].0 != updates[j].0
    ensures updates[j].0 in Assign(m, updates)
    ensures Assign(m, updates)[updates[j].0] == updates[j].1
    decreases |updates|
  {
    if j < |updates| - 1 {
      var front := updates[..|updates| - 1];
      assert forall k :: j < k < |front| ==> front[k] == updates[k];
      AssignLast(m, front, j);
    }
  }

  /** A key that is never written keeps its presence and its value. */
  lemma {:induction false} AssignUntouched<K, V>(m: map<K, V>, updates: seq<(K, V)>, key: K)
    requires forall i :: 0 <= i < |updates| ==> updates[i].0 != key
    ensures key in Assign(m, updates) <==> key in m
    ensures key in m ==> Assign(m, updates)[key] == m[key]
    decreases |updates|
  {
    if updates != [] {
      var front := updates[..|updates| - 1];
      assert forall i :: 0 <= i < |front| ==> front[i] == updates[i];
      AssignUntouched(m, front, key);
    }
  }

  /** Writing `u` then `w` is writing `u + w`. */
  lemma {:induction false} AssignAppend<K, V>(m: map<K, V>, u: seq<(K, V)>, w: seq<(K, V)>)
    ensures Assign(Assign(m, u), w) == Assign(m, u + w)
    decreases |w|
  {
    if w != [] {
      var front := w[..|w| - 1];
      assert (u + w)[..|u + w| - 1] == u + front;
      assert (u + w)[|u + w| - 1] == w[|w| - 1];
      AssignAppend(m, u, front);
    } else {
      assert u + w == u;
    }
  }
}
