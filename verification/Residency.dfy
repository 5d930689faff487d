/** `memory_core/memory/payloads.py`: every id of the owner is resident, but only the most recently used payloads
    are. */
module Residency {
  import opened Types
  import opened Fields
  import opened Store

  function Without(s: seq<Id>, key: Id): (r: seq<Id>)
    ensures forall x :: x in r <==> x in s && x != key
    ensures |r| <= |s|
    ensures key in s ==> |r| < |s|
  {
    if s == [] then []
    else
      assert s == [s[0]] + s[1..];
      if s[0] == key then Without(s[1..], key) else [s[0]] + Without(s[1..], key)
  }

  lemma {:induction false} WithoutDistinct(s: seq<Id>, key: Id)
    requires Distinct(s)
    ensures Distinct(Without(s, key))
    ensures key !in s ==> Without(s, key) == s
    ensures key in s ==> |Without(s, key)| == |s| - 1
  {
    if s != [] {
      assert s == [s[0]] + s[1..];
      WithoutDistinct(s[1..], key);
      var t := Without(s[1..], key);
      assert forall j :: 0 <= j < |t| ==> t[j] in t;
    }
  }

  /** The least recently used ids in front, at most `capacity` of them. */
  function Newest(s: seq<Id>, capacity: nat): seq<Id> {
    if |s| <= capacity then s else s[|s| - capacity..]
  }

  /** Use order after one more use of `key`. */
  function Used(order: seq<Id>, key: Id, capacity: nat): seq<Id> {
    Newest(Without(order, key) + [key], capacity)
  }

  /** A use puts its id last, and costs at most the one used longest ago, when the cache is full of others. */
  lemma UseMeaning(order: seq<Id>, key: Id, capacity: nat, x: Id)
    requires Distinct(order) && |order| <= capacity && capacity > 0
    ensures
      var after := Used(order, key, capacity);
      && after != [] && after[|after| - 1] == key && |after| <= capacity && (x in after ==> x == key || x in order)
      && (x in order && x !in after ==> |order| == capacity && key !in order && x == order[0])
  {
    hide Distinct, Without;
    WithoutDistinct(order, key);
    var kept := Without(order, key);
    if |kept| == capacity {
      assert (kept + [key])[1..] == kept[1..] + [key];
      if x in order && x != order[0] {
        var i :| 0 <= i < |order| && order[i] == x;
        assert kept[1..][i - 1] == x;
      }
    } else {
      assert Used(order, key, capacity) == kept + [key];
    }
  }

  /** Use order after a sequence of uses with no cache limit: each id at the place of its last use. */
  function UseOrder(uses: seq<Id>): seq<Id> {
    if uses == [] then [] else Without(UseOrder(uses[..|uses| - 1]), uses[|uses| - 1]) + [uses[|uses| - 1]]
  }

  lemma {:induction false} UseOrderDistinct(uses: seq<Id>)
    ensures Distinct(UseOrder(uses))
    ensures forall x :: x in UseOrder(uses) <==> x in uses
  {
    if uses != [] {
      var n := |uses| - 1;
      assert uses == uses[..n] + [uses[n]];
      UseOrderDistinct(uses[..n]);
      WithoutDistinct(UseOrder(uses[..n]), uses[n]);
    }
  }

  lemma {:induction false} WithoutConcat(a: seq<Id>, b: seq<Id>, key: Id)
    ensures Without(a + b, key) == Without(a, key) + Without(b, key)
  {
    if a == [] {
      assert a + b == b;
    } else {
      assert (a + b)[1..] == a[1..] + b && a == [a[0]] + a[1..];
      WithoutConcat(a[1..], b, key);
    }
  }

  lemma NewestOfSum(a: seq<Id>, b: seq<Id>, capacity: nat)
    requires |b| >= capacity
    ensures Newest(a + b, capacity) == Newest(b, capacity)
  {
    assert |b| > capacity ==> (a + b)[|a| + |b| - capacity..] == b[|b| - capacity..];
    assert a == [] ==> a + b == b;
    assert |b| == capacity ==> (a + b)[|a|..] == b;
  }

  /** Evicting the oldest as the cache fills keeps exactly the last `capacity` distinct ids used. */
  lemma UsedKeepsNewest(order: seq<Id>, key: Id, capacity: nat)
    requires Distinct(order)
    ensures Used(Newest(order, capacity), key, capacity) == Newest(Without(order, key) + [key], capacity)
  {
    if |order| > capacity {
      var cut := |order| - capacity;
      var gone, kept := order[..cut], order[cut..];
      assert order == gone + kept;
      WithoutConcat(gone, kept, key);
      WithoutDistinct(kept, key);
      var tail := Without(kept, key) + [key];
      assert Without(order, key) + [key] == Without(gone, key) + tail;
      assert |tail| >= capacity by {
        if key in kept { assert |Without(kept, key)| == |kept| - 1; } else { assert Without(kept, key) == kept; }
      }
      NewestOfSum(Without(gone, key), tail, capacity);
    }
  }

  lemma Fits(s: seq<Id>, capacity: nat)
    ensures |s| <= capacity ==> Newest(s, capacity) == s
  {
  }

  lemma OnlyNewest(s: seq<Id>)
    ensures Newest(s, 0) == []
  {
  }

  lemma CutToNewest(full: seq<Id>, rest: seq<Id>, capacity: nat)
    requires |rest| <= capacity && (rest == full || (full != [] && rest == full[1..] && |rest| == capacity))
    ensures Newest(full, capacity) == rest
  {
  }

  lemma Appended(s: seq<Id>, key: Id)
    requires Distinct(s) && key !in s
    ensures Distinct(s + [key]) && forall x :: x in s + [key] <==> x in s || x == key
  {
  }

  lemma Behead(s: seq<Id>)
    requires Distinct(s) && s != []
    ensures Distinct(s[1..]) && forall x :: x in s[1..] <==> x in s && x != s[0]
  {
    assert s == [s[0]] + s[1..];
  }

  ghost predicate Mirrored(resident: map<Id, Memory>, rows: map<Id, Row>) {
    forall id :: id in resident ==> id in rows && resident[id] == rows[id].memory
  }

  /** A payload dropped from residence frees its row to change. */
  lemma MirroredWithout(resident: map<Id, Memory>, rows: map<Id, Row>, id: Id)
    requires Mirrored(resident, rows)
    ensures Mirrored(resident - {id}, rows - {id})
  {
  }

  lemma MirroredUnless(resident: map<Id, Memory>, rows: map<Id, Row>, id: Id)
    requires Mirrored(resident, rows)
    ensures id !in rows ==> Mirrored(resident, rows - {id})
  {
  }

  lemma MirroredWith(resident: map<Id, Memory>, rows: map<Id, Row>, id: Id, row: Row)
    requires Mirrored(resident, rows)
    ensures Mirrored(resident - {id}, rows[id := row])
  {
  }

  /** The order lists exactly the resident ids, once each. */
  ghost predicate Tracks(order: seq<Id>, resident: map<Id, Memory>) {
    Distinct(order) && forall id :: id in order <==> id in resident
  }

  ghost predicate SubMap(x: map<Id, Memory>, y: map<Id, Memory>) {
    forall id :: id in x ==> id in y && x[id] == y[id]
  }

  lemma Evicted(order: seq<Id>, resident: map<Id, Memory>)
    requires Tracks(order, resident) && order != []
    ensures Tracks(order[1..], resident - {order[0]})
  {
    Behead(order);
  }

  lemma SubMapFewer(x: map<Id, Memory>, y: map<Id, Memory>, id: Id)
    requires SubMap(x, y)
    ensures SubMap(x - {id}, y)
  {
  }

  class Payloads {
    const capacity: nat
    var ids: set<Id>
    var resident: map<Id, Memory>
    var order: seq<Id>  // the OrderedDict's order, oldest first

    ghost predicate Valid()
      reads this
    {
      Tracks(order, resident) && |order| <= capacity && resident.Keys <= ids
    }

    /** Every resident payload is the stored one. */
    ghost predicate Mirrors(rows: map<Id, Row>)
      reads this
    {
      Mirrored(resident, rows)
    }

    constructor (capacity: nat)
      ensures Valid() && ids == {} && resident == map[] && order == [] && this.capacity == capacity
    {
      this.capacity := capacity;
      ids, resident, order := {}, map[], [];
    }

    /** `__getitem__`: what comes back is the stored payload, whatever was evicted before. */
    method Get(key: Id, rows: map<Id, Row>) returns (r: Option<Memory>)
      requires Valid() && Mirrors(rows) && (key in ids ==> key in rows)
      modifies this`resident, this`order
      ensures Valid() && Mirrors(rows)
      ensures r == if key in ids then Some(rows[key].memory) else None
      ensures order == if key in ids then Used(old(order), key, capacity) else old(order)
    {
      hide Without, Newest;
      if key !in ids { return None; }
      WithoutDistinct(order, key);
      if key in resident {
        order := Without(order, key) + [key];
        Fits(order, capacity);
        return Some(resident[key]);
      }
      var memory := rows[key].memory;
      if capacity == 0 {
        OnlyNewest(Without(order, key) + [key]);
        return Some(memory);
      }
      Admit(key, memory);
      return Some(memory);
    }

    /** Keep a payload just read, then `popitem(last=False)` until the rest fits. */
    method Admit(key: Id, memory: Memory)
      requires Valid() && key in ids && key !in resident && capacity > 0
      modifies this`resident, this`order
      ensures Valid() && order == Newest(old(order) + [key], capacity)
      ensures SubMap(resident, old(resident)[key := memory])
    {
      hide Newest, Distinct;
      Appended(order, key);
      ghost var full := order + [key];
      ghost var all := resident[key := memory];
      resident, order := resident[key := memory], order + [key];
      Fits(full, capacity);
      while |order| > capacity
        invariant order == full || (full != [] && order == full[1..] && |order| == capacity)
        invariant Tracks(order, resident) && SubMap(resident, all)
        decreases |order|
      {
        var oldest := order[0];
        Evicted(order, resident);
        SubMapFewer(resident, all, oldest);
        resident, order := resident - {oldest}, order[1..];
      }
      CutToNewest(full, order, capacity);
    }

    /** `__setitem__`: the id is known, its payload is read again on next use. */
    method Set(key: Id)
      requires Valid()
      modifies this
      ensures Valid() && ids == old(ids) + {key}
      ensures resident == old(resident) - {key} && order == Without(old(order), key)
    {
      WithoutDistinct(order, key);
      ids := ids + {key};
      resident, order := resident - {key}, Without(order, key);
    }

    /** `__delitem__`. */
    method Delete(key: Id)
      requires Valid() && key in ids
      modifies this
      ensures Valid() && ids == old(ids) - {key}
      ensures resident == old(resident) - {key} && order == Without(old(order), key)
    {
      WithoutDistinct(order, key);
      ids := ids - {key};
      resident, order := resident - {key}, Without(order, key);
    }
  }

  /** Starting empty, the ids resident after any sequence of lookups are exactly the last `capacity` distinct ids
      used. */
  lemma {:induction false} ResidentAreTheLastUsed(orders: seq<seq<Id>>, uses: seq<Id>, capacity: nat)
    requires |orders| == |uses| + 1 && orders[0] == []
    requires forall i :: 0 <= i < |uses| ==> orders[i + 1] == Used(orders[i], uses[i], capacity)
    ensures orders[|uses|] == Newest(UseOrder(uses), capacity)
  {
    if uses != [] {
      var n := |uses| - 1;
      ResidentAreTheLastUsed(orders[..n + 1], uses[..n], capacity);
      UseOrderDistinct(uses[..n]);
      UsedKeepsNewest(UseOrder(uses[..n]), uses[n], capacity);
    }
  }
}
