// A stable sort of keys that arrive in no particular order, as the printer sorts hash maps.

module Sorting {
  ghost predicate Total<K(!new)>(le: (K, K) -> bool)
  {
    && (forall a, b :: le(a, b) || le(b, a))
    && (forall a, b, c :: le(a, b) && le(b, c) ==> le(a, c))
  }

  ghost predicate Sorted<K>(ks: seq<K>, le: (K, K) -> bool)
  {
    forall i, j :: 0 <= i < j < |ks| ==> le(ks[i], ks[j])
  }

  ghost predicate ListsSet<K(!new)>(ks: seq<K>, keys: set<K>)
  {
    && (forall i, j :: 0 <= i < j < |ks| ==> ks[i] != ks[j])
    && (forall k :: k in ks <==> k in keys)
    && |ks| == |keys|
  }

  // Where `k` goes: behind everything that is not greater.
  function Position<K>(ks: seq<K>, k: K, le: (K, K) -> bool): (n: nat)
    ensures n <= |ks|
    ensures n > 0 ==> le(ks[n - 1], k)
    ensures forall i :: n <= i < |ks| ==> !le(ks[i], k)
  {
    if ks == [] then 0
    else if le(ks[|ks| - 1], k) then |ks|
    else Position(ks[..|ks| - 1], k, le)
  }

  lemma InsertSorted<K(!new)>(ks: seq<K>, k: K, le: (K, K) -> bool)
    requires Total(le) && Sorted(ks, le)
    ensures var n := Position(ks, k, le); Sorted(ks[..n] + [k] + ks[n..], le)
  {
  }

  lemma InsertLists<K(!new)>(ks: seq<K>, n: nat, k: K, keys: set<K>)
    requires ListsSet(ks, keys) && n <= |ks| && k !in keys
    ensures ListsSet(ks[..n] + [k] + ks[n..], keys + {k})
  {
  }

  method SortKeys<K(==, !new)>(keys: set<K>, le: (K, K) -> bool) returns (ks: seq<K>)
    requires Total(le)
    ensures ListsSet(ks, keys) && Sorted(ks, le)
  {
    ks := [];
    var rest := keys;
    while rest != {}
      invariant rest <= keys
      invariant ListsSet(ks, keys - rest) && Sorted(ks, le)
      decreases rest
    {
      var k :| k in rest;
      var n := Position(ks, k, le);
      InsertSorted(ks, k, le);
      InsertLists(ks, n, k, keys - rest);
      assert keys - (rest - {k}) == (keys - rest) + {k};
      ks, rest := ks[..n] + [k] + ks[n..], rest - {k};
    }
    assert keys - rest == keys;
  }
}
