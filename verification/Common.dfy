/** What several of the modules use. */
module Common {
  datatype Option<+T> = None | Some(value: T)

  ghost predicate AgreeAt<K, V>(m: map<K, V>, n: map<K, V>, key: K) {
    (key in m <==> key in n) && (key in m ==> m[key] == n[key])
  }

  /** Maps that agree at every key are equal. */
  lemma AgreeEverywhere<K, V>(m: map<K, V>, n: map<K, V>)
    requires forall key :: AgreeAt(m, n, key)
    ensures m == n
  {
    forall key | key in m
      ensures key in n
    {
      assert AgreeAt(m, n, key);
    }
    forall key | key in n
      ensures key in m && m[key] == n[key]
    {
      assert AgreeAt(m, n, key);
    }
    assert m.Keys == n.Keys;
  }
}
