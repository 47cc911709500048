/** Vocabulary shared by the plugin models. */
module Common {
  datatype Option<+T> = None | Some(value: T)

  /** What the evictor answers to a plugin: evicted (or already under way), refused by the
      node limit, refused by the total limit, or failed for another reason. */
  datatype EvictResult = Success | NodeLimit | TotalLimit | OtherError

  function Min(a: nat, b: nat): nat { if a < b then a else b }

  function Look<K, V>(m: map<K, V>, k: K): Option<V> {
    if k in m then Some(m[k]) else None
  }

  /** No element twice. */
  ghost predicate Distinct<T>(s: seq<T>) {
    forall k, l :: 0 <= k < l < |s| ==> s[k] != s[l]
  }

  lemma DistinctCounts<T(!new)>(s: seq<T>)
    ensures Distinct(s) <==> forall x :: multiset(s)[x] <= 1
  {
    if Distinct(s) {
      forall x
        ensures multiset(s)[x] <= 1
      {
        CountsOnce(s, x);
      }
    } else {
      var k, l :| 0 <= k < l < |s| && s[k] == s[l];
      assert s == s[..l] + [s[l]] + s[l + 1..];
      assert s[k] in s[..l];
      assert multiset(s)[s[l]] >= 2;
    }
  }

  lemma {:induction false} CountsOnce<T>(s: seq<T>, x: T)
    requires Distinct(s)
    ensures multiset(s)[x] <= 1
  {
    if s != [] {
      assert s == [s[0]] + s[1..];
      CountsOnce(s[1..], x);
      if s[0] == x {
        assert x !in s[1..];
      }
    }
  }
}
