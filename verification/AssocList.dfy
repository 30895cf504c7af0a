/** Association lists with unique keys, and the maps they stand for. Both linked tables of the
    server hold such a list. */
module AssocList {
  import opened Base

  function ToMap<K, V>(s: seq<(K, V)>): map<K, V>
  {
    if s == [] then map[] else ToMap(s[1..])[s[0].0 := s[0].1]
  }

  ghost predicate UniqueKeys<K, V>(s: seq<(K, V)>)
  {
    forall i, j :: 0 <= i < j < |s| ==> s[i].0 != s[j].0
  }

  /** The keys of the map are those of the list. */
  lemma {:induction false} MapKeys<K, V>(s: seq<(K, V)>, k: K)
    ensures k in ToMap(s) <==> exists i :: 0 <= i < |s| && s[i].0 == k
  {
    if s != [] {
      MapKeys(s[1..], k);
      if s[0].0 != k {
        assert forall i :: 1 <= i < |s| ==> s[i] == s[1..][i - 1];
        assert forall i :: 0 <= i < |s| - 1 ==> s[1..][i] == s[i + 1];
      }
    }
  }

  lemma {:induction false} MapAt<K, V>(s: seq<(K, V)>, i: nat)
    requires UniqueKeys(s) && i < |s|
    ensures s[i].0 in ToMap(s) && ToMap(s)[s[i].0] == s[i].1
  {
    if i > 0 {
      MapAt(s[1..], i - 1);
    }
  }

  lemma MapCons<K, V>(s: seq<(K, V)>, k: K, v: V)
    ensures ToMap([(k, v)] + s) == ToMap(s)[k := v]
  {
  }

  lemma MapConsUpdate<K, V>(s: seq<(K, V)>, k: K, v: V, w: V)
    ensures ToMap([(k, v)] + s)[k := w] == ToMap(s)[k := w]
  {
  }

  lemma ConsUnique<K, V>(s: seq<(K, V)>, k: K, v: V)
    requires UniqueKeys(s) && k !in ToMap(s)
    ensures UniqueKeys([(k, v)] + s) && ToMap([(k, v)] + s) == ToMap(s)[k := v]
  {
  }

  lemma {:induction false} RemoveUnique<K, V>(s: seq<(K, V)>, at: nat)
    requires UniqueKeys(s) && at < |s|
    ensures UniqueKeys(RemoveAt(s, at)) && ToMap(RemoveAt(s, at)) == ToMap(s) - {s[at].0}
  {
    var k, t := s[at].0, RemoveAt(s, at);
    assert forall i :: 0 <= i < |t| ==> t[i] == s[if i < at then i else i + 1];
    if at == 0 {
      assert t == s[1..];
      MapKeys(t, k);
    } else {
      RemoveUnique(s[1..], at - 1);
      assert t[1..] == RemoveAt(s[1..], at - 1);
      assert t[0] == s[0];
    }
  }

  lemma {:induction false} UpdateUnique<K, V>(s: seq<(K, V)>, at: nat, v: V)
    requires UniqueKeys(s) && at < |s|
    ensures UniqueKeys(s[at := (s[at].0, v)]) && ToMap(s[at := (s[at].0, v)]) == ToMap(s)[s[at].0 := v]
  {
    var t := s[at := (s[at].0, v)];
    if at == 0 {
      assert t[1..] == s[1..];
    } else {
      UpdateUnique(s[1..], at - 1, v);
      assert t[1..] == s[1..][at - 1 := (s[at].0, v)];
    }
  }
}
