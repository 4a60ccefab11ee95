/** Sequences of records that carry a string key: the shape of every table of
    the cache snapshot. */
module Keyed {

  ghost function Keys<T(!new)>(items: seq<T>, key: T -> string): set<string> {
    set x | x in items :: key(x)
  }

  ghost predicate Distinct<T(!new)>(items: seq<T>, key: T -> string) {
    forall i, j | 0 <= i < j < |items| :: key(items[i]) != key(items[j])
  }

  /** The records whose key differs from `id`, in order. */
  function Without<T(!new)>(items: seq<T>, key: T -> string, id: string): seq<T> {
    if items == [] then []
    else
      var rest := Without(items[..|items| - 1], key, id);
      var last := items[|items| - 1];
      if key(last) == id then rest else rest + [last]
  }

  /** Total weight of the records whose key is in `ids`. */
  ghost function Bytes<T(!new)>(items: seq<T>, key: T -> string, size: T -> int, ids: set<string>): int {
    if items == [] then 0
    else
      var last := items[|items| - 1];
      Bytes(items[..|items| - 1], key, size, ids) + (if key(last) in ids then size(last) else 0)
  }

  lemma {:induction false} WithoutMembers<T(!new)>(items: seq<T>, key: T -> string, id: string)
    ensures forall x :: x in Without(items, key, id) <==> x in items && key(x) != id
  {
    if items != [] {
      var init := items[..|items| - 1];
      WithoutMembers(init, key, id);
      assert items == init + [items[|items| - 1]];
    }
  }

  lemma Snoc<T(!new)>(items: seq<T>, key: T -> string, x: T)
    ensures Keys(items + [x], key) == Keys(items, key) + {key(x)}
    ensures Distinct(items + [x], key) <==> Distinct(items, key) && key(x) !in Keys(items, key)
  {
    var all := items + [x];
    assert forall y | y in items :: y in all;
    assert x in all;
    if Distinct(all, key) {
      assert forall i | 0 <= i < |items| :: key(all[i]) != key(all[|items|]) && items[i] == all[i];
    } else {
      var i, j :| 0 <= i < j < |all| && key(all[i]) == key(all[j]);
      assert items[i] in items;
      assert j < |items| ==> all[j] == items[j];
    }
  }

  lemma {:induction false} WithoutDistinct<T(!new)>(items: seq<T>, key: T -> string, id: string)
    requires Distinct(items, key)
    ensures Distinct(Without(items, key, id), key)
    ensures |Without(items, key, id)| == |items| - (if id in Keys(items, key) then 1 else 0)
  {
    if items != [] {
      var init, last := items[..|items| - 1], items[|items| - 1];
      WithoutDistinct(init, key, id);
      WithoutMembers(init, key, id);
      assert items == init + [last];
      assert forall x | x in init :: key(x) != key(last);
      if key(last) != id {
        Snoc(Without(init, key, id), key, last);
      }
    }
  }

  lemma WithoutKeys<T(!new)>(items: seq<T>, key: T -> string, id: string)
    ensures Keys(Without(items, key, id), key) == Keys(items, key) - {id}
  {
    WithoutMembers(items, key, id);
    forall k | k in Keys(items, key) - {id}
      ensures k in Keys(Without(items, key, id), key)
    {
      var x :| x in items && key(x) == k;
      assert x in Without(items, key, id);
    }
    forall k | k in Keys(Without(items, key, id), key)
      ensures k in Keys(items, key) - {id}
    {
      var x :| x in Without(items, key, id) && key(x) == k;
    }
  }

  lemma KeyInjective<T(!new)>(items: seq<T>, key: T -> string, x: T, y: T)
    requires Distinct(items, key) && x in items && y in items && key(x) == key(y)
    ensures x == y
  {
    var i :| 0 <= i < |items| && items[i] == x;
    var j :| 0 <= j < |items| && items[j] == y;
    assert !(i < j) && !(j < i);
  }

  // ----- Weights -----

  ghost predicate NonNegative<T(!new)>(items: seq<T>, size: T -> int) {
    forall x | x in items :: 0 <= size(x)
  }

  lemma {:induction false} BytesMonotone<T(!new)>(items: seq<T>, key: T -> string, size: T -> int,
        a: set<string>, b: set<string>)
    requires NonNegative(items, size)
    requires forall x | x in items && key(x) in a :: key(x) in b
    ensures 0 <= Bytes(items, key, size, a) <= Bytes(items, key, size, b)
  {
    if items != [] {
      var init, last := items[..|items| - 1], items[|items| - 1];
      assert forall x | x in init :: x in items;
      BytesMonotone(init, key, size, a, b);
      assert last in items;
    }
  }

  /** Only which records are selected matters, not the sets that select them. */
  lemma {:induction false} BytesAgree<T(!new)>(items: seq<T>, key: T -> string, size: T -> int,
        a: set<string>, b: set<string>)
    requires forall x | x in items :: key(x) in a <==> key(x) in b
    ensures Bytes(items, key, size, a) == Bytes(items, key, size, b)
  {
    if items != [] {
      var init, last := items[..|items| - 1], items[|items| - 1];
      assert forall x | x in init :: x in items;
      BytesAgree(init, key, size, a, b);
      assert last in items;
    }
  }

  lemma {:induction false} BytesAdditive<T(!new)>(items: seq<T>, key: T -> string, size: T -> int,
        a: set<string>, b: set<string>)
    requires a !! b
    ensures Bytes(items, key, size, a + b) == Bytes(items, key, size, a) + Bytes(items, key, size, b)
  {
    if items != [] {
      BytesAdditive(items[..|items| - 1], key, size, a, b);
    }
  }

  lemma {:induction false} BytesNone<T(!new)>(items: seq<T>, key: T -> string, size: T -> int, ids: set<string>)
    requires ids !! Keys(items, key)
    ensures Bytes(items, key, size, ids) == 0
  {
    if items != [] {
      var init, last := items[..|items| - 1], items[|items| - 1];
      assert last in items && key(last) in Keys(items, key);
      assert Keys(init, key) <= Keys(items, key);
      BytesNone(init, key, size, ids);
    }
  }

  lemma BytesSnoc<T(!new)>(items: seq<T>, key: T -> string, size: T -> int, x: T, ids: set<string>)
    ensures Bytes(items + [x], key, size, ids)
         == Bytes(items, key, size, ids) + (if key(x) in ids then size(x) else 0)
  {
    assert (items + [x])[..|items|] == items;
  }

  lemma {:induction false} BytesWithout<T(!new)>(items: seq<T>, key: T -> string, size: T -> int,
        id: string, ids: set<string>)
    ensures Bytes(Without(items, key, id), key, size, ids) == Bytes(items, key, size, ids - {id})
  {
    if items != [] {
      var init, last := items[..|items| - 1], items[|items| - 1];
      BytesWithout(init, key, size, id, ids);
      if key(last) != id {
        BytesSnoc(Without(init, key, id), key, size, last, ids);
      }
    }
  }

  lemma {:induction false} BytesOne<T(!new)>(items: seq<T>, key: T -> string, size: T -> int, x: T)
    requires Distinct(items, key) && x in items
    ensures Bytes(items, key, size, {key(x)}) == size(x)
  {
    var init, last := items[..|items| - 1], items[|items| - 1];
    assert items == init + [last];
    if x == last {
      assert key(x) !in Keys(init, key);
      BytesNone(init, key, size, {key(x)});
    } else {
      assert x in init;
      KeyInjective(items, key, x, x);
      BytesOne(init, key, size, x);
      if key(last) == key(x) { KeyInjective(items, key, x, last); }
    }
  }

  /** Adding one record's key to a selection adds exactly its weight. */
  lemma BytesInsert<T(!new)>(items: seq<T>, key: T -> string, size: T -> int, ids: set<string>, x: T)
    requires Distinct(items, key) && x in items && key(x) !in ids
    ensures Bytes(items, key, size, ids + {key(x)}) == Bytes(items, key, size, ids) + size(x)
  {
    BytesAdditive(items, key, size, ids, {key(x)});
    BytesOne(items, key, size, x);
  }

  /** One more record scanned. */
  lemma BytesStep<T(!new)>(items: seq<T>, key: T -> string, size: T -> int, ids: set<string>, i: nat)
    requires i < |items|
    ensures Bytes(items[..i + 1], key, size, ids)
         == Bytes(items[..i], key, size, ids) + (if key(items[i]) in ids then size(items[i]) else 0)
  {
    assert items[..i + 1][..i] == items[..i];
  }

  /** A prefix never outweighs the whole. */
  lemma {:induction false} BytesPrefix<T(!new)>(items: seq<T>, key: T -> string, size: T -> int,
        ids: set<string>, i: nat)
    requires i <= |items| && NonNegative(items, size)
    ensures 0 <= Bytes(items[..i], key, size, ids) <= Bytes(items, key, size, ids)
    decreases |items| - i
  {
    if i == |items| {
      assert items[..i] == items;
      BytesMonotone(items, key, size, ids, ids);
    } else {
      BytesPrefix(items, key, size, ids, i + 1);
      BytesStep(items, key, size, ids, i);
      assert items[i] in items;
      assert forall x | x in items[..i] :: x in items;
      BytesMonotone(items[..i], key, size, ids, ids);
    }
  }

  lemma {:induction false} SubsetSize<T>(a: set<T>, b: set<T>)
    requires a <= b
    ensures |a| <= |b|
  {
    if a != {} {
      var x :| x in a;
      SubsetSize(a - {x}, b - {x});
    }
  }
}
