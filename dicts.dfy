/** Python dictionaries as association lists: key/value pairs in insertion
    order, each key at most once. Assigning to a present key keeps its
    place; a new key goes at the end. */
module Dicts {
  import opened Wrappers

  type Dict<K, V> = seq<(K, V)>

  /** No key appears twice. */
  predicate Distinct<K(==), V>(d: Dict<K, V>) {
    forall i, j :: 0 <= i < j < |d| ==> d[i].0 != d[j].0
  }

  function Keys<K, V>(d: Dict<K, V>): set<K> {
    set i | 0 <= i < |d| :: d[i].0
  }

  /** `d.get(k)`: the value of the first pair with key k. */
  function Get<K(==), V>(d: Dict<K, V>, k: K): Option<V> {
    if d == [] then None
    else if d[0].0 == k then Some(d[0].1)
    else Get(d[1..], k)
  }

  /** `d.get(k, default)`. */
  function GetOr<K(==), V>(d: Dict<K, V>, k: K, default: V): V {
    match Get(d, k)
    case Some(v) => v
    case None => default
  }

  /** `d[k] = v`. */
  function Put<K(==), V>(d: Dict<K, V>, k: K, v: V): Dict<K, V> {
    if d == [] then [(k, v)]
    else if d[0].0 == k then [(k, v)] + d[1..]
    else [d[0]] + Put(d[1..], k, v)
  }

  lemma KeysCons<K, V>(p: (K, V), d: Dict<K, V>)
    ensures Keys([p] + d) == {p.0} + Keys(d)
  {
    var e := [p] + d;
    assert forall i :: 0 <= i < |d| ==> e[i + 1] == d[i];
    assert e[0] == p;
  }

  // ---------------------------------------------------------------------
  // Properties

  /** `get` finds a key exactly when the dictionary has it, and what it
      finds is the value of a pair with that key. */
  lemma {:induction false} GetFound<K, V>(d: Dict<K, V>, k: K)
    ensures Get(d, k).Some? <==> k in Keys(d)
    ensures Get(d, k).Some? ==> exists i :: 0 <= i < |d| && d[i] == (k, Get(d, k).value)
  {
    if d != [] {
      KeysCons(d[0], d[1..]);
      assert d == [d[0]] + d[1..];
      if d[0].0 != k {
        GetFound(d[1..], k);
        if Get(d, k).Some? {
          var i :| 0 <= i < |d[1..]| && d[1..][i] == (k, Get(d, k).value);
          assert d[i + 1] == d[1..][i];
        }
      }
    }
  }

  /** Assigning adds the key, and adds a pair only when the key is new. */
  lemma {:induction false} PutKeys<K, V>(d: Dict<K, V>, k: K, v: V)
    ensures Keys(Put(d, k, v)) == Keys(d) + {k}
    ensures |Put(d, k, v)| == if k in Keys(d) then |d| else |d| + 1
  {
    if d == [] {
      KeysCons((k, v), []);
    } else {
      KeysCons(d[0], d[1..]);
      assert d == [d[0]] + d[1..];
      if d[0].0 == k {
        KeysCons((k, v), d[1..]);
      } else {
        PutKeys(d[1..], k, v);
        KeysCons(d[0], Put(d[1..], k, v));
      }
    }
  }

  /** Every pair after assigning is the new one or an old one. */
  lemma {:induction false} PutPairs<K, V>(d: Dict<K, V>, k: K, v: V)
    ensures forall i :: 0 <= i < |Put(d, k, v)| ==> Put(d, k, v)[i] == (k, v) || Put(d, k, v)[i] in d
  {
    if d != [] && d[0].0 != k {
      PutPairs(d[1..], k, v);
      var rest := Put(d[1..], k, v);
      forall i | 0 <= i < |Put(d, k, v)| ensures Put(d, k, v)[i] == (k, v) || Put(d, k, v)[i] in d {
        if i > 0 {
          assert Put(d, k, v)[i] == rest[i - 1];
          if rest[i - 1] in d[1..] {
            var j :| 0 <= j < |d[1..]| && d[1..][j] == rest[i - 1];
            assert d[j + 1] == rest[i - 1];
          }
        }
      }
    } else if d != [] {
      forall i | 0 <= i < |Put(d, k, v)| ensures Put(d, k, v)[i] == (k, v) || Put(d, k, v)[i] in d {
        if i > 0 {
          assert Put(d, k, v)[i] == d[i];
        }
      }
    }
  }

  /** Assigning keeps keys distinct. */
  lemma {:induction false} PutDistinct<K, V>(d: Dict<K, V>, k: K, v: V)
    requires Distinct(d)
    ensures Distinct(Put(d, k, v))
  {
    if d != [] && d[0].0 != k {
      var tail := d[1..];
      assert forall a, b :: 0 <= a < b < |tail| ==> tail[a] == d[a + 1] && tail[b] == d[b + 1];
      PutDistinct(tail, k, v);
      var rest := Put(tail, k, v);
      PutKeys(tail, k, v);
      assert d[0].0 !in Keys(tail) by {
        forall i | 0 <= i < |tail| ensures tail[i].0 != d[0].0 {
          assert tail[i] == d[i + 1];
        }
      }
      var r := [d[0]] + rest;
      forall a, b | 0 <= a < b < |r| ensures r[a].0 != r[b].0 {
        assert r[b] == rest[b - 1];
        if a == 0 {
          assert rest[b - 1].0 in Keys(rest);
        } else {
          assert r[a] == rest[a - 1];
        }
      }
    } else if d != [] {
      var r := Put(d, k, v);
      forall a, b | 0 <= a < b < |r| ensures r[a].0 != r[b].0 {
        assert r[b] == d[b] && (a == 0 || r[a] == d[a]);
      }
    }
  }

  /** Reading a key after assigning it gives the value assigned, and the
      other keys keep their values. */
  lemma {:induction false} GetPut<K, V>(d: Dict<K, V>, k: K, v: V, k': K)
    ensures Get(Put(d, k, v), k') == if k' == k then Some(v) else Get(d, k')
  {
    if d != [] && d[0].0 != k {
      GetPut(d[1..], k, v, k');
    }
  }

  /** `d.get(c, default)` after `d[k] = v`, for every key c at once. */
  lemma GetOrPut<K, V>(d: Dict<K, V>, k: K, v: V, default: V)
    ensures forall c :: GetOr(Put(d, k, v), c, default) == if c == k then v else GetOr(d, c, default)
  {
    forall c ensures GetOr(Put(d, k, v), c, default) == if c == k then v else GetOr(d, c, default) {
      GetPut(d, k, v, c);
    }
  }

  /** In a dictionary without repeated keys, the pair at index i is what
      `get` finds for its key. */
  lemma {:induction false} GetAt<K, V>(d: Dict<K, V>, i: int)
    requires Distinct(d) && 0 <= i < |d|
    ensures Get(d, d[i].0) == Some(d[i].1)
  {
    if i > 0 {
      assert Distinct(d[1..]) by {
        assert forall a, b :: 0 <= a < b < |d| - 1 ==> d[1..][a] == d[a + 1] && d[1..][b] == d[b + 1];
      }
      assert d[1..][i - 1] == d[i];
      GetAt(d[1..], i - 1);
    }
  }
}
