/** Maps and the sequences that list them: the source walks its maps to write them, and fills them to read. */
module Listings {

  /** The map that assigning the elements in order builds. */
  function Table<E, K, V>(key: E -> K, value: E -> V, es: seq<E>): map<K, V> {
    if es == [] then map[]
    else
      var last := es[|es| - 1];
      Table(key, value, es[..|es| - 1])[key(last) := value(last)]
  }

  function Itself<E>(e: E): E {
    e
  }

  lemma {:induction false} TableIsSmall<E, K, V>(key: E -> K, value: E -> V, es: seq<E>)
    ensures |Table(key, value, es)| <= |es|
  {
    if es != [] {
      TableIsSmall(key, value, es[..|es| - 1]);
    }
  }

  /** A list as long as the map it builds shows exactly the map's entries. */
  lemma {:induction false} ListedOnce<E, K, V>(key: E -> K, value: E -> V, es: seq<E>)
    requires |Table(key, value, es)| == |es|
    ensures forall i :: 0 <= i < |es| ==>
              key(es[i]) in Table(key, value, es) && Table(key, value, es)[key(es[i])] == value(es[i])
  {
    if es != [] {
      var init, last := es[..|es| - 1], es[|es| - 1];
      TableIsSmall(key, value, init);
      var m := Table(key, value, init);
      assert key(last) !in m;
      ListedOnce(key, value, init);
      forall i | 0 <= i < |es|
        ensures key(es[i]) in Table(key, value, es) && Table(key, value, es)[key(es[i])] == value(es[i])
      {
        if i < |init| {
          assert es[i] == init[i];
        }
      }
    }
  }

  lemma {:induction false} TableKeys<E, K, V>(key: E -> K, value: E -> V, es: seq<E>, k: K)
    requires k in Table(key, value, es)
    ensures exists i :: 0 <= i < |es| && key(es[i]) == k && value(es[i]) == Table(key, value, es)[k]
  {
    var init, last := es[..|es| - 1], es[|es| - 1];
    if key(last) != k {
      TableKeys(key, value, init, k);
      var i :| 0 <= i < |init| && key(init[i]) == k && value(init[i]) == Table(key, value, init)[k];
      assert es[i] == init[i];
    } else {
      assert es[|es| - 1] == last;
    }
  }

  method ListEntries<E, K(==), V>(m: map<K, V>, key: E -> K, value: E -> V, entry: (K, V) -> E) returns (es: seq<E>)
    requires forall k | k in m :: key(entry(k, m[k])) == k && value(entry(k, m[k])) == m[k]
    ensures Table(key, value, es) == m && |es| == |m|
  {
    es := [];
    var rest := m;
    while rest != map[]
      invariant forall k | k in rest :: k in m && m[k] == rest[k] && k !in Table(key, value, es)
      invariant forall k | k in m :: k in rest || k in Table(key, value, es)
      invariant forall k | k in Table(key, value, es) :: k in m && Table(key, value, es)[k] == m[k]
      invariant |es| + |rest| == |m|
      decreases |rest|
    {
      var k :| k in rest;
      var more := es + [entry(k, rest[k])];
      assert more[..|es|] == es;
      assert rest == (rest - {k})[k := rest[k]];
      es, rest := more, rest - {k};
    }
  }
}
