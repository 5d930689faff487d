/** Posting maps: a key leads to the set of things filed under it, ids or storage slots. */
module Postings {

  function At<K, V>(index: map<K, set<V>>, key: K): set<V> {
    if key in index then index[key] else {}
  }

  ghost predicate NoEmpty<K, V>(index: map<K, set<V>>) {
    forall k :: k in index ==> index[k] != {}
  }

  /** The index is exactly the inverse of `keysOf`. */
  ghost predicate Inverse<K(!new), V(!new)>(index: map<K, set<V>>, keysOf: map<V, set<K>>) {
    forall k, id {:trigger id in At(index, k)} :: id in At(index, k) <==> id in keysOf && k in keysOf[id]
  }

  /** Two exact indexes without empty entries are the same map: incremental upkeep and a rebuild cannot differ. */
  lemma InverseIsDetermined<K(!new), V(!new)>(a: map<K, set<V>>, b: map<K, set<V>>, keysOf: map<V, set<K>>)
    requires Inverse(a, keysOf) && Inverse(b, keysOf) && NoEmpty(a) && NoEmpty(b)
    ensures a == b
  {
    forall k | k in a ensures k in b && a[k] == b[k] {
      var id :| id in a[k];
      assert id in At(a, k);
      assert forall x :: x in At(a, k) <==> x in At(b, k);
    }
    forall k | k in b ensures k in a {
      var id :| id in b[k];
      assert id in At(b, k);
      assert forall x :: x in At(a, k) <==> x in At(b, k);
    }
  }

  /** `index[key].add(id)` on a defaultdict. */
  function Add<K(!new), V(!new)>(index: map<K, set<V>>, key: K, id: V): (r: map<K, set<V>>)
    ensures forall k :: At(r, k) == if k == key then At(index, k) + {id} else At(index, k)
    ensures NoEmpty(index) ==> NoEmpty(r)
  {
    index[key := At(index, key) + {id}]
  }

  /** `index[key].discard(id)` on a defaultdict, leaving an empty set behind. */
  function Discard<K(!new), V(!new)>(index: map<K, set<V>>, key: K, id: V): (r: map<K, set<V>>)
    ensures forall k :: At(r, k) == if k == key then At(index, k) - {id} else At(index, k)
  {
    index[key := At(index, key) - {id}]
  }

  /** What `discard` leaves behind is not what a rebuild has, though no key can tell them apart. */
  lemma EmptiedEntriesStay<K(!new), V(!new)>(index: map<K, set<V>>, key: K, id: V)
    requires key !in index
    ensures
      var left := Discard(Add(index, key, id), key, id);
      left != index && forall k :: At(left, k) == At(index, k)
  {
    assert key in Discard(Add(index, key, id), key, id);
  }

  /** Discard, then delete the entry if it became empty. */
  function Drop<K(!new), V(!new)>(index: map<K, set<V>>, key: K, id: V): (r: map<K, set<V>>)
    ensures forall k :: At(r, k) == if k == key then At(index, k) - {id} else At(index, k)
    ensures NoEmpty(index) ==> NoEmpty(r)
  {
    var left := Discard(index, key, id);
    if left[key] == {} then left - {key} else left
  }

  method AddAll<K(==,!new), V(==,!new)>(index: map<K, set<V>>, keys: set<K>, id: V) returns (r: map<K, set<V>>)
    ensures forall k :: At(r, k) == if k in keys then At(index, k) + {id} else At(index, k)
    ensures NoEmpty(index) ==> NoEmpty(r)
  {
    r := index;
    var rest := keys;
    while rest != {}
      invariant rest <= keys
      invariant forall k :: At(r, k) == if k in keys - rest then At(index, k) + {id} else At(index, k)
      invariant NoEmpty(index) ==> NoEmpty(r)
      decreases rest
    {
      var key :| key in rest;
      r := Add(r, key, id);
      rest := rest - {key};
    }
  }

  method DropAll<K(==,!new), V(==,!new)>(index: map<K, set<V>>, keys: set<K>, id: V) returns (r: map<K, set<V>>)
    ensures forall k :: At(r, k) == if k in keys then At(index, k) - {id} else At(index, k)
    ensures NoEmpty(index) ==> NoEmpty(r)
  {
    r := index;
    var rest := keys;
    while rest != {}
      invariant rest <= keys
      invariant forall k :: At(r, k) == if k in keys - rest then At(index, k) - {id} else At(index, k)
      invariant NoEmpty(index) ==> NoEmpty(r)
      decreases rest
    {
      var key :| key in rest;
      r := Drop(r, key, id);
      rest := rest - {key};
    }
  }

  lemma InverseAfterAdd<K(!new), V(!new)>(before: map<K, set<V>>, after: map<K, set<V>>, keysOf: map<V, set<K>>,
                          keys: set<K>, id: V)
    requires Inverse(before, keysOf) && id !in keysOf
    requires forall k :: At(after, k) == if k in keys then At(before, k) + {id} else At(before, k)
    ensures Inverse(after, keysOf[id := keys])
  {
  }

  lemma InverseAfterDrop<K(!new), V(!new)>(before: map<K, set<V>>, after: map<K, set<V>>, keysOf: map<V, set<K>>,
                           keys: set<K>, id: V)
    requires Inverse(before, keysOf) && (id in keysOf ==> keysOf[id] <= keys)
    requires forall k :: At(after, k) == if k in keys then At(before, k) - {id} else At(before, k)
    ensures Inverse(after, keysOf - {id})
  {
  }
}
