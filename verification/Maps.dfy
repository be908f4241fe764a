/** The smallest key of a map, since the handler walks its maps in key order, and
    what is left of a map after an entry is put and removed. */
module Maps {

  lemma SomeKey<T>(keys: set<T>) returns (k: T)
    requires keys != {}
    ensures k in keys
  {
    k :| k in keys;
  }

  predicate IsLeast(k: int, keys: set<int>) {
    k in keys && forall j :: j in keys ==> k <= j
  }

  lemma {:induction false} LeastExists(keys: set<int>, k: int)
    requires k in keys
    ensures exists l :: IsLeast(l, keys)
    decreases |keys|
  {
    if j :| j in keys && j < k {
      var rest := keys - {k};
      LeastExists(rest, j);
      var l :| IsLeast(l, rest);
      forall i | i in keys ensures l <= i { assert i == k || i in rest; }
      assert IsLeast(l, keys);
    } else {
      assert IsLeast(k, keys);
    }
  }

  lemma LeastOfAny(keys: set<int>)
    requires keys != {}
    ensures exists l :: IsLeast(l, keys)
  {
    var k := SomeKey(keys);
    LeastExists(keys, k);
  }

  lemma OneLeast(k: int, l: int, keys: set<int>)
    requires IsLeast(k, keys) && IsLeast(l, keys)
    ensures k == l
  {
  }

  ghost function Least(keys: set<int>): (k: int)
    requires keys != {}
    ensures IsLeast(k, keys)
  {
    LeastOfAny(keys);
    var k :| IsLeast(k, keys);
    k
  }

  lemma PutThenRemove<V>(m: map<int, V>, key: int, v: V)
    requires key !in m
    ensures m[key := v] - {key} == m
  {
  }

  lemma ReplaceTwice<V>(m: map<int, V>, key: int, u: V, v: V)
    ensures m[key := u][key := v] == m[key := v]
  {
  }

  lemma ReplaceThenRemove<V>(m: map<int, V>, key: int, v: V)
    ensures m[key := v] - {key} == m - {key}
  {
  }
}
