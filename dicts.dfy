/**
 * Python dictionaries as association lists in insertion order: assigning to
 * a key that is present replaces its value in place, assigning a new key
 * appends it, and pop removes the key and returns its value.
 */
module Dicts {
  import opened Wrappers

  type Dict<K, V> = seq<(K, V)>

  predicate UniqueKeys<K(==), V>(m: Dict<K, V>)
  {
    forall i, j :: 0 <= i < j < |m| ==> m[i].0 != m[j].0
  }

  predicate HasKey<K(==), V>(m: Dict<K, V>, k: K)
  {
    exists i :: 0 <= i < |m| && m[i].0 == k
  }

  /** The position of a key, or |m| when it is absent. */
  function KeyPos<K(==), V>(m: Dict<K, V>, k: K): (i: nat)
    ensures i <= |m|
    ensures i < |m| ==> m[i].0 == k
    ensures forall j :: 0 <= j < i ==> m[j].0 != k
    ensures i == |m| <==> !HasKey(m, k)
    decreases |m|
  {
    if |m| == 0 then 0
    else if m[0].0 == k then 0
    else
      var i := KeyPos(m[1..], k);
      assert forall j :: 0 < j < |m| ==> m[1..][j - 1] == m[j];
      1 + i
  }

  /** m.get(k). */
  function Get<K(==), V>(m: Dict<K, V>, k: K): (r: Option<V>)
    ensures r.Some? <==> HasKey(m, k)
  {
    var i := KeyPos(m, k);
    if i < |m| then Some(m[i].1) else None
  }

  /** m[k] = v. */
  function Put<K(==), V>(m: Dict<K, V>, k: K, v: V): (r: Dict<K, V>)
    ensures |r| == if HasKey(m, k) then |m| else |m| + 1
    ensures forall i :: 0 <= i < |m| ==> r[i].0 == m[i].0
    ensures HasKey(m, k) ==> forall i :: 0 <= i < |m| && m[i].0 != k ==> r[i] == m[i]
    ensures !HasKey(m, k) ==> r == m + [(k, v)]
  {
    var i := KeyPos(m, k);
    if i < |m| then m[i := (k, v)] else m + [(k, v)]
  }

  /** m.pop(k, None), as the dictionary left behind. */
  function Remove<K(==), V>(m: Dict<K, V>, k: K): (r: Dict<K, V>)
    ensures |r| <= |m|
  {
    if |m| == 0 then []
    else if m[0].0 == k then Remove(m[1..], k)
    else [m[0]] + Remove(m[1..], k)
  }

  /** pop keeps only pairs that were there, and none for the popped key. */
  lemma {:induction false} RemoveKeeps<K, V>(m: Dict<K, V>, k: K)
    ensures forall e :: e in Remove(m, k) ==> e in m && e.0 != k
    decreases |m|
  {
    if |m| > 0 {
      RemoveKeeps(m[1..], k);
    }
  }

  /** Assigning a key makes it read back its new value and leaves every other key as it was. */
  lemma PutGet<K, V>(m: Dict<K, V>, k: K, v: V, k': K)
    requires UniqueKeys(m)
    ensures UniqueKeys(Put(m, k, v))
    ensures Get(Put(m, k, v), k) == Some(v)
    ensures k' != k ==> Get(Put(m, k, v), k') == Get(m, k')
  {
    var r := Put(m, k, v);
    var i := KeyPos(m, k);
    if i == |m| {
      assert r[|m|].0 == k;
    }
    assert r[i] == (k, v);
    assert UniqueKeys(r) by {
      forall a, b | 0 <= a < b < |r| ensures r[a].0 != r[b].0 {
        if b == |m| {
          assert !HasKey(m, k);
          assert r[a].0 == m[a].0;
        }
      }
    }
    if k' != k {
      var p := KeyPos(m, k');
      if p < |m| {
        assert r[p] == m[p];
        assert KeyPos(r, k') == p;
      } else {
        assert !HasKey(r, k');
      }
    }
  }

  /** Looking a key up in a list with a pair in front. */
  lemma GetCons<K, V>(x: (K, V), t: Dict<K, V>, k: K)
    ensures Get([x] + t, k) == if x.0 == k then Some(x.1) else Get(t, k)
  {
    assert ([x] + t)[1..] == t;
  }

  /** After a pop every other key reads as before. */
  lemma {:induction false} RemoveGet<K, V>(m: Dict<K, V>, k: K, k': K)
    requires k' != k
    ensures Get(Remove(m, k), k') == Get(m, k')
    decreases |m|
  {
    if |m| > 0 {
      var t := m[1..];
      assert m == [m[0]] + t;
      RemoveGet(t, k, k');
      GetCons(m[0], t, k');
      if m[0].0 != k {
        GetCons(m[0], Remove(t, k), k');
      }
    }
  }

  /**
   * for x in xs: if key(x) is not None: m[key(x)] = val(x) -- the dictionary
   * left behind by a loop that assigns some of its items under their keys.
   */
  function AssignBy<T, K(==), V>(m: Dict<K, V>, xs: seq<T>, key: T -> Option<K>, val: T -> V): Dict<K, V>
    decreases |xs|
  {
    if |xs| == 0 then m
    else
      var p := AssignBy(m, xs[..|xs| - 1], key, val);
      var x := xs[|xs| - 1];
      if key(x).Some? then Put(p, key(x).value, val(x)) else p
  }

  /** The loop keeps the keys unique. */
  lemma {:induction false} AssignByUnique<T, K, V>(m: Dict<K, V>, xs: seq<T>, key: T -> Option<K>, val: T -> V)
    requires UniqueKeys(m)
    ensures UniqueKeys(AssignBy(m, xs, key, val))
    decreases |xs|
  {
    if |xs| > 0 {
      var p := AssignBy(m, xs[..|xs| - 1], key, val);
      var x := xs[|xs| - 1];
      AssignByUnique(m, xs[..|xs| - 1], key, val);
      if key(x).Some? {
        PutGet(p, key(x).value, val(x), key(x).value);
      }
    }
  }

  /** A key that no item is assigned under reads as it did before the loop. */
  lemma {:induction false} AssignByUntouched<T, K, V>(m: Dict<K, V>, xs: seq<T>, key: T -> Option<K>, val: T -> V, k: K)
    requires UniqueKeys(m)
    requires forall i :: 0 <= i < |xs| ==> key(xs[i]) != Some(k)
    ensures Get(AssignBy(m, xs, key, val), k) == Get(m, k)
    decreases |xs|
  {
    if |xs| > 0 {
      var ys := xs[..|xs| - 1];
      var p := AssignBy(m, ys, key, val);
      var x := xs[|xs| - 1];
      assert forall i :: 0 <= i < |ys| ==> ys[i] == xs[i];
      AssignByUntouched(m, ys, key, val, k);
      AssignByUnique(m, ys, key, val);
      if key(x).Some? {
        PutGet(p, key(x).value, val(x), k);
      }
    }
  }

  /** A key reads the value of the last item assigned under it: the last assignment wins. */
  lemma {:induction false} AssignByLast<T, K, V>(m: Dict<K, V>, xs: seq<T>, key: T -> Option<K>, val: T -> V, i: nat)
    requires UniqueKeys(m)
    requires i < |xs| && key(xs[i]).Some?
    requires forall j :: i < j < |xs| ==> key(xs[j]) != key(xs[i])
    ensures Get(AssignBy(m, xs, key, val), key(xs[i]).value) == Some(val(xs[i]))
    decreases |xs|
  {
    var ys := xs[..|xs| - 1];
    var p := AssignBy(m, ys, key, val);
    var x := xs[|xs| - 1];
    var k := key(xs[i]).value;
    AssignByUnique(m, ys, key, val);
    if i == |xs| - 1 {
      PutGet(p, k, val(x), k);
    } else {
      assert forall j :: 0 <= j < |ys| ==> ys[j] == xs[j];
      AssignByLast(m, ys, key, val, i);
      if key(x).Some? {
        PutGet(p, key(x).value, val(x), k);
      }
    }
  }

  /** Assigning keeps the keys unique. */
  lemma PutUnique<K, V>(m: Dict<K, V>, k: K, v: V)
    requires UniqueKeys(m)
    ensures UniqueKeys(Put(m, k, v))
  {
    PutGet(m, k, v, k);
  }

  /** pop keeps the keys unique and removes its key. */
  lemma {:induction false} RemoveUnique<K, V>(m: Dict<K, V>, k: K)
    requires UniqueKeys(m)
    ensures UniqueKeys(Remove(m, k)) && !HasKey(Remove(m, k), k)
    decreases |m|
  {
    RemoveKeeps(m, k);
    var r := Remove(m, k);
    assert !HasKey(r, k) by {
      forall i | 0 <= i < |r| ensures r[i].0 != k {
        assert r[i] in r;
      }
    }
    if |m| > 0 && m[0].0 != k {
      var t := m[1..];
      assert UniqueKeys(t) by {
        forall a, b | 0 <= a < b < |t| ensures t[a].0 != t[b].0 {
          assert t[a] == m[a + 1] && t[b] == m[b + 1];
        }
      }
      RemoveUnique(t, k);
      RemoveKeeps(t, k);
      var rt := Remove(t, k);
      assert r == [m[0]] + rt;
      forall b | 0 < b < |r| ensures r[0].0 != r[b].0 {
        assert r[b] == rt[b - 1] && rt[b - 1] in rt;
        var j :| 0 <= j < |t| && t[j] == r[b];
        assert t[j] == m[j + 1];
      }
      assert UniqueKeys(r) by {
        forall a, b | 0 <= a < b < |r| ensures r[a].0 != r[b].0 {
          if a > 0 {
            assert r[a] == rt[a - 1] && r[b] == rt[b - 1];
          }
        }
      }
    } else if |m| > 0 {
      var t := m[1..];
      assert UniqueKeys(t) by {
        forall a, b | 0 <= a < b < |t| ensures t[a].0 != t[b].0 {
          assert t[a] == m[a + 1] && t[b] == m[b + 1];
        }
      }
      RemoveUnique(t, k);
    }
  }
}
