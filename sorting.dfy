/** Python's `sorted(items, key=...)`: a stable sort by a real-valued key.
    `sorted(..., reverse=True)` keeps equal items in their original order
    too, so it is the same stable sort by the negated key. */
module Sorting {
  /** Keys never decrease along the sequence. */
  predicate Ascending<T>(s: seq<T>, key: T -> real) {
    forall i, j :: 0 <= i < j < |s| ==> key(s[i]) <= key(s[j])
  }

  /** `x` placed after every leading item whose key is not larger. */
  function Insert<T>(x: T, s: seq<T>, key: T -> real): (r: seq<T>)
    ensures multiset(r) == multiset(s) + multiset([x])
    ensures |r| == |s| + 1
  {
    if |s| == 0 then [x]
    else if key(s[0]) <= key(x) then
      assert s == [s[0]] + s[1..];
      [s[0]] + Insert(x, s[1..], key)
    else [x] + s
  }

  /** Insertion sort, taking the items in input order, so that items with
      equal keys keep their order. */
  function SortBy<T>(s: seq<T>, key: T -> real): (r: seq<T>)
    ensures multiset(r) == multiset(s)
    ensures |r| == |s|
  {
    if |s| == 0 then []
    else
      assert s == s[..|s| - 1] + [s[|s| - 1]];
      Insert(s[|s| - 1], SortBy(s[..|s| - 1], key), key)
  }

  lemma {:induction false} InsertAscending<T>(x: T, s: seq<T>, key: T -> real)
    requires Ascending(s, key)
    ensures Ascending(Insert(x, s, key), key)
    decreases |s|
  {
    if |s| > 0 && key(s[0]) <= key(x) {
      var rest := Insert(x, s[1..], key);
      InsertAscending(x, s[1..], key);
      forall y | y in rest ensures key(s[0]) <= key(y) {
        assert y in multiset(rest);
        if y != x {
          assert y in multiset(s[1..]);
          var i :| 0 <= i < |s[1..]| && s[1..][i] == y;
          assert s[i + 1] == y;
        }
      }
      ConsAscending(s[0], rest, key);
    }
  }

  lemma ConsAscending<T>(h: T, rest: seq<T>, key: T -> real)
    requires Ascending(rest, key)
    requires forall y :: y in rest ==> key(h) <= key(y)
    ensures Ascending([h] + rest, key)
  {
    var r := [h] + rest;
    forall i, j | 0 <= i < j < |r| ensures key(r[i]) <= key(r[j]) {
      assert r[j] == rest[j - 1];
      if i > 0 {
        assert r[i] == rest[i - 1];
      } else {
        assert rest[j - 1] in rest;
      }
    }
  }

  /** The sort orders by key and is a permutation of its input. */
  lemma {:induction false} SortBySpec<T>(s: seq<T>, key: T -> real)
    ensures Ascending(SortBy(s, key), key)
    ensures multiset(SortBy(s, key)) == multiset(s)
    decreases |s|
  {
    if |s| > 0 {
      SortBySpec(s[..|s| - 1], key);
      InsertAscending(s[|s| - 1], SortBy(s[..|s| - 1], key), key);
    }
  }

  /** The items whose key is `v`, in their order. */
  function WithKey<T>(s: seq<T>, key: T -> real, v: real): seq<T> {
    if |s| == 0 then []
    else (if key(s[0]) == v then [s[0]] else []) + WithKey(s[1..], key, v)
  }

  lemma {:induction false} WithKeyAppend<T>(a: seq<T>, b: seq<T>, key: T -> real, v: real)
    ensures WithKey(a + b, key, v) == WithKey(a, key, v) + WithKey(b, key, v)
    decreases |a|
  {
    if |a| > 0 {
      assert (a + b)[1..] == a[1..] + b;
      WithKeyAppend(a[1..], b, key, v);
    } else {
      assert a + b == b;
    }
  }

  lemma {:induction false} WithKeyNone<T>(s: seq<T>, key: T -> real, v: real)
    requires forall i :: 0 <= i < |s| ==> key(s[i]) != v
    ensures WithKey(s, key, v) == []
    decreases |s|
  {
    if |s| > 0 {
      WithKeyNone(s[1..], key, v);
    }
  }

  /** Around the item at `i`. */
  lemma WithKeyAround<T>(s: seq<T>, key: T -> real, i: nat)
    requires i < |s|
    ensures WithKey(s, key, key(s[i])) ==
      WithKey(s[..i], key, key(s[i])) + [s[i]] + WithKey(s[i + 1..], key, key(s[i]))
  {
    SplitAt(s, i);
    WithKeySplit(s[..i], s[i], s[i + 1..], key);
  }

  lemma SplitAt<T>(s: seq<T>, i: nat)
    requires i < |s|
    ensures s == s[..i] + ([s[i]] + s[i + 1..])
  {
  }

  lemma WithKeySplit<T>(a: seq<T>, x: T, b: seq<T>, key: T -> real)
    ensures WithKey(a + ([x] + b), key, key(x)) == WithKey(a, key, key(x)) + [x] + WithKey(b, key, key(x))
  {
    WithKeyAppend(a, [x] + b, key, key(x));
    WithKeyCons(x, b, key);
  }

  lemma WithKeyCons<T>(x: T, b: seq<T>, key: T -> real)
    ensures WithKey([x] + b, key, key(x)) == [x] + WithKey(b, key, key(x))
  {
    assert ([x] + b)[1..] == b;
  }

  /** Inserting into an ascending sequence puts `x` after every item with the
      same key. */
  lemma {:induction false} InsertWithKey<T>(x: T, s: seq<T>, key: T -> real, v: real)
    requires Ascending(s, key)
    ensures WithKey(Insert(x, s, key), key, v) ==
      WithKey(s, key, v) + (if key(x) == v then [x] else [])
    decreases |s|
  {
    if |s| == 0 {
      assert Insert(x, s, key) == [x] + s;
      WithKeyHead(x, s, key, v);
    } else if key(s[0]) <= key(x) {
      assert Ascending(s[1..], key);
      InsertWithKey(x, s[1..], key, v);
      InsertWithKeyAfter(x, s, key, v);
    } else {
      InsertWithKeyBefore(x, s, key, v);
    }
  }

  /** `x` goes past the head: the head comes first among the items. */
  lemma InsertWithKeyAfter<T>(x: T, s: seq<T>, key: T -> real, v: real)
    requires |s| > 0 && key(s[0]) <= key(x)
    requires WithKey(Insert(x, s[1..], key), key, v) ==
      WithKey(s[1..], key, v) + (if key(x) == v then [x] else [])
    ensures WithKey(Insert(x, s, key), key, v) ==
      WithKey(s, key, v) + (if key(x) == v then [x] else [])
  {
    var h, t := s[0], s[1..];
    assert s == [h] + t;
    InsertAfter(x, s, key);
    WithKeyHead(h, t, key, v);
    WithKeyHead(h, Insert(x, t, key), key, v);
    AppendAssoc(if key(h) == v then [h] else [], WithKey(t, key, v), if key(x) == v then [x] else []);
  }

  /** `x` goes in front: no item after it shares its key. */
  lemma InsertWithKeyBefore<T>(x: T, s: seq<T>, key: T -> real, v: real)
    requires |s| > 0 && Ascending(s, key) && key(x) < key(s[0])
    ensures WithKey(Insert(x, s, key), key, v) ==
      WithKey(s, key, v) + (if key(x) == v then [x] else [])
  {
    assert Insert(x, s, key) == [x] + s;
    WithKeyHead(x, s, key, v);
    if key(x) == v {
      WithKeyAbove(s, key, v);
    }
  }

  lemma InsertAfter<T>(x: T, s: seq<T>, key: T -> real)
    requires |s| > 0 && key(s[0]) <= key(x)
    ensures Insert(x, s, key) == [s[0]] + Insert(x, s[1..], key)
  {
  }

  lemma AppendAssoc<T>(a: seq<T>, b: seq<T>, c: seq<T>)
    ensures a + (b + c) == (a + b) + c
  {
  }

  /** The items of `[h] + t` with key `v`. */
  lemma WithKeyHead<T>(h: T, t: seq<T>, key: T -> real, v: real)
    ensures WithKey([h] + t, key, v) == (if key(h) == v then [h] else []) + WithKey(t, key, v)
  {
    assert ([h] + t)[1..] == t;
  }

  /** An ascending sequence whose head has a key above `v` has no item with
      key `v`. */
  lemma WithKeyAbove<T>(s: seq<T>, key: T -> real, v: real)
    requires |s| > 0 && Ascending(s, key) && v < key(s[0])
    ensures WithKey(s, key, v) == []
  {
    assert forall i :: 0 <= i < |s| ==> key(s[0]) <= key(s[i]);
    WithKeyNone(s, key, v);
  }

  /** The sort is stable: the items with any one key keep their order. */
  lemma {:induction false} SortByStable<T>(s: seq<T>, key: T -> real, v: real)
    ensures WithKey(SortBy(s, key), key, v) == WithKey(s, key, v)
    decreases |s|
  {
    if |s| > 0 {
      var init, last := s[..|s| - 1], s[|s| - 1];
      SortByStep(s, key);
      SortByStable(init, key, v);
      SortBySpec(init, key);
      InsertWithKey(last, SortBy(init, key), key, v);
      InitLast(s);
      WithKeyAppend(init, [last], key, v);
      WithKeyHead(last, [], key, v);
      assert [last] + [] == [last];
    }
  }

  lemma SortByStep<T>(s: seq<T>, key: T -> real)
    requires |s| > 0
    ensures SortBy(s, key) == Insert(s[|s| - 1], SortBy(s[..|s| - 1], key), key)
  {
  }

  lemma InitLast<T>(s: seq<T>)
    requires |s| > 0
    ensures s == s[..|s| - 1] + [s[|s| - 1]]
  {
  }

  /** Every item before the one at `i` has a larger key. */
  predicate FirstOfKey<T>(s: seq<T>, key: T -> real, i: nat)
    requires i < |s|
  {
    forall j :: 0 <= j < i ==> key(s[i]) < key(s[j])
  }

  /** Every item after the one at `i` has a smaller key. */
  predicate LastOfKey<T>(s: seq<T>, key: T -> real, i: nat)
    requires i < |s|
  {
    forall j :: i < j < |s| ==> key(s[j]) < key(s[i])
  }

  /** The first index whose item has key `v`. */
  lemma {:induction false} FirstWithKey<T>(s: seq<T>, key: T -> real, v: real, m: nat) returns (i: nat)
    requires m < |s| && key(s[m]) == v
    ensures i <= m && key(s[i]) == v
    ensures forall j :: 0 <= j < i ==> key(s[j]) != v
    decreases m
  {
    if key(s[0]) == v {
      i := 0;
    } else {
      var k := FirstWithKey(s[1..], key, v, m - 1);
      i := k + 1;
      assert forall j :: 1 <= j < i ==> s[j] == s[1..][j - 1];
    }
  }

  /** The last index whose item has key `v`. */
  lemma {:induction false} LastWithKey<T>(s: seq<T>, key: T -> real, v: real, m: nat) returns (i: nat)
    requires m < |s| && key(s[m]) == v
    ensures m <= i < |s| && key(s[i]) == v
    ensures forall j :: i < j < |s| ==> key(s[j]) != v
    decreases |s| - m
  {
    if key(s[|s| - 1]) == v {
      i := |s| - 1;
    } else {
      i := LastWithKey(s[..|s| - 1], key, v, m);
    }
  }

  /** The head of the sorted sequence is the first item of the input with
      the least key. */
  lemma SortByHead<T>(s: seq<T>, key: T -> real)
    requires |s| > 0
    ensures SortBy(s, key)[0] in s
    ensures forall x :: x in s ==> key(SortBy(s, key)[0]) <= key(x)
    ensures exists i :: 0 <= i < |s| && SortBy(s, key)[0] == s[i] && FirstOfKey(s, key, i)
  {
    var r := SortBy(s, key);
    SortByLeast(s, key);
    var v := key(r[0]);
    var m :| 0 <= m < |s| && s[m] == r[0];
    var i := FirstWithKey(s, key, v, m);
    SortByStable(s, key, v);
    FirstInWithKey(s, key, i);
    FirstInWithKey(r, key, 0);
    forall j | 0 <= j < i ensures key(s[i]) < key(s[j]) {
      assert s[j] in s;
    }
  }

  /** The first item with its key heads the items with that key. */
  lemma FirstInWithKey<T>(s: seq<T>, key: T -> real, i: nat)
    requires i < |s| && forall j :: 0 <= j < i ==> key(s[j]) != key(s[i])
    ensures var w := WithKey(s, key, key(s[i])); |w| > 0 && w[0] == s[i]
  {
    WithKeyAround(s, key, i);
    assert forall j :: 0 <= j < i ==> s[..i][j] == s[j];
    WithKeyNone(s[..i], key, key(s[i]));
  }

  /** The last item with its key ends the items with that key. */
  lemma LastInWithKey<T>(s: seq<T>, key: T -> real, i: nat)
    requires i < |s| && forall j :: i < j < |s| ==> key(s[j]) != key(s[i])
    ensures var w := WithKey(s, key, key(s[i])); |w| > 0 && w[|w| - 1] == s[i]
  {
    WithKeyAround(s, key, i);
    assert forall j :: i < j < |s| ==> s[j] == s[i + 1..][j - i - 1];
    WithKeyNone(s[i + 1..], key, key(s[i]));
  }

  /** The last item of the sorted sequence is the last item of the input
      with the greatest key. */
  lemma SortByLast<T>(s: seq<T>, key: T -> real)
    requires |s| > 0
    ensures SortBy(s, key)[|s| - 1] in s
    ensures forall x :: x in s ==> key(x) <= key(SortBy(s, key)[|s| - 1])
    ensures exists i :: 0 <= i < |s| && SortBy(s, key)[|s| - 1] == s[i] && LastOfKey(s, key, i)
  {
    SortByGreatest(s, key);
    var i := SortByLastIndex(s, key);
  }

  lemma SortByLastIndex<T>(s: seq<T>, key: T -> real) returns (i: nat)
    requires |s| > 0
    ensures i < |s| && SortBy(s, key)[|s| - 1] == s[i] && LastOfKey(s, key, i)
  {
    var r := SortBy(s, key);
    var n := |s| - 1;
    SortByGreatest(s, key);
    var v := key(r[n]);
    var m :| 0 <= m < |s| && s[m] == r[n];
    i := LastWithKey(s, key, v, m);
    SortByStable(s, key, v);
    LastInWithKey(s, key, i);
    LastInWithKey(r, key, n);
    forall j | i < j < |s| ensures key(s[j]) < key(s[i]) {
      assert s[j] in s;
    }
  }

  /** The head of the sorted sequence is an item of the input with the
      least key. */
  lemma SortByLeast<T>(s: seq<T>, key: T -> real)
    requires |s| > 0
    ensures SortBy(s, key)[0] in s
    ensures forall x :: x in s ==> key(SortBy(s, key)[0]) <= key(x)
  {
    var r := SortBy(s, key);
    SortBySpec(s, key);
    forall x | x in s
      ensures key(r[0]) <= key(x)
    {
      SameItems(s, r, x);
      AscendingBounds(r, key, x);
    }
    SameItems(r, s, r[0]);
  }

  /** The last item of the sorted sequence is an item of the input with the
      greatest key. */
  lemma SortByGreatest<T>(s: seq<T>, key: T -> real)
    requires |s| > 0
    ensures SortBy(s, key)[|s| - 1] in s
    ensures forall x :: x in s ==> key(x) <= key(SortBy(s, key)[|s| - 1])
  {
    var r := SortBy(s, key);
    SortBySpec(s, key);
    forall x | x in s
      ensures key(x) <= key(r[|s| - 1])
    {
      SameItems(s, r, x);
      AscendingBounds(r, key, x);
    }
    SameItems(r, s, r[|s| - 1]);
  }

  /** An item of an ascending sequence lies between its ends. */
  lemma AscendingBounds<T>(r: seq<T>, key: T -> real, x: T)
    requires Ascending(r, key) && x in r
    ensures key(r[0]) <= key(x) <= key(r[|r| - 1])
  {
    var j :| 0 <= j < |r| && r[j] == x;
  }

  /** Sequences holding the same multiset hold the same items. */
  lemma SameItems<T>(s: seq<T>, r: seq<T>, x: T)
    requires multiset(s) == multiset(r) && x in s
    ensures x in r
  {
    assert x in multiset(s);
  }
}
