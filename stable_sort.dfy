/** `Array.prototype.sort` with a numeric comparator `(a, b) => key(a) - key(b)`.
    Since ECMAScript 2019 (ECMA-262 10th edition, section 22.1.3.27) the sort is
    required to be stable, so its result is fully determined: elements come in
    ascending key order and elements with equal keys keep their input order.
    `SortBy` is one stable sort (insertion from the front); `SortedStableUnique`
    shows that every arrangement with those two properties equals it, so the
    engine's own algorithm gives the same sequence. */
module StableSort {

  /** Ascending by `key`. */
  ghost predicate SortedBy<T>(s: seq<T>, key: T -> real) {
    forall i, j :: 0 <= i < j < |s| ==> key(s[i]) <= key(s[j])
  }

  /** The elements of `s` whose key is `k`, in their order in `s`. */
  function WithKey<T>(s: seq<T>, key: T -> real, k: real): seq<T> {
    if s == [] then []
    else (if key(s[0]) == k then [s[0]] else []) + WithKey(s[1..], key, k)
  }

  /** `WithKey` on a sequence with a known head. */
  lemma WithKeyCons<T>(x: T, t: seq<T>, key: T -> real, k: real)
    ensures WithKey([x] + t, key, k) == (if key(x) == k then [x] else []) + WithKey(t, key, k)
  {
    assert ([x] + t)[1..] == t;
  }

  /** `t` holds, for every key, the same elements as `s` in the same order:
      a permutation that keeps ties in input order. */
  ghost predicate SameTies<T>(s: seq<T>, t: seq<T>, key: T -> real) {
    forall k :: WithKey(t, key, k) == WithKey(s, key, k)
  }

  /** Puts `x` in front of the first element whose key is not below its own. */
  function Insert<T>(x: T, s: seq<T>, key: T -> real): (r: seq<T>)
    ensures |r| == |s| + 1
    ensures multiset(r) == multiset(s) + multiset{x}
  {
    if s == [] || key(x) <= key(s[0]) then [x] + s
    else
      assert s == [s[0]] + s[1..];
      [s[0]] + Insert(x, s[1..], key)
  }

  lemma {:induction false} InsertSorted<T>(x: T, s: seq<T>, key: T -> real)
    requires SortedBy(s, key)
    ensures SortedBy(Insert(x, s, key), key)
  {
    if s != [] && key(x) > key(s[0]) {
      var t := Insert(x, s[1..], key);
      InsertSorted(x, s[1..], key);
      assert x in multiset(t);
      forall i | 0 <= i < |t| ensures key(s[0]) <= key(t[i]) {
        assert t[i] in multiset(t);
        if t[i] != x {
          assert t[i] in multiset(s[1..]);
          var m :| 0 <= m < |s[1..]| && s[1..][m] == t[i];
          assert s[m + 1] == t[i];
        }
      }
    }
  }

  /** Inserting `x` into a sorted sequence puts it at the head of its group
      of ties and leaves every group's order alone. */
  lemma {:induction false} InsertTies<T>(x: T, s: seq<T>, key: T -> real, k: real)
    requires SortedBy(s, key)
    ensures WithKey(Insert(x, s, key), key, k)
      == (if key(x) == k then [x] else []) + WithKey(s, key, k)
  {
    if s == [] || key(x) <= key(s[0]) {
      WithKeyCons(x, s, key, k);
    } else {
      var t := Insert(x, s[1..], key);
      var px: seq<T> := if key(x) == k then [x] else [];
      var p0: seq<T> := if key(s[0]) == k then [s[0]] else [];
      var w := WithKey(s[1..], key, k);
      calc {
        WithKey(Insert(x, s, key), key, k);
        WithKey([s[0]] + t, key, k);
        { WithKeyCons(s[0], t, key, k); }
        p0 + WithKey(t, key, k);
        { InsertTies(x, s[1..], key, k); }
        p0 + (px + w);
        { SwapEmptyPrefix(p0, px, w); }
        px + (p0 + w);
        { WithKeyCons(s[0], s[1..], key, k); assert s == [s[0]] + s[1..]; }
        px + WithKey(s, key, k);
      }
    }
  }

  /** Two prefixes of which one is empty can be exchanged. */
  lemma SwapEmptyPrefix<T>(p: seq<T>, q: seq<T>, w: seq<T>)
    requires p == [] || q == []
    ensures p + (q + w) == q + (p + w)
  {
    if p == [] {
      assert p + (q + w) == q + w;
    } else {
      assert q + (p + w) == p + w;
    }
  }

  /** The stable ascending sort of `s` by `key`: sorted, a permutation of
      `s`, and every group of equal keys in input order. */
  function SortBy<T>(s: seq<T>, key: T -> real): (r: seq<T>)
    ensures |r| == |s|
    ensures multiset(r) == multiset(s)
    ensures SortedBy(r, key)
    ensures SameTies(s, r, key)
  {
    if s == [] then []
    else
      var t := SortBy(s[1..], key);
      assert s == [s[0]] + s[1..];
      InsertSorted(s[0], t, key);
      forall k ensures WithKey(Insert(s[0], t, key), key, k) == WithKey(s, key, k) {
        InsertTies(s[0], t, key, k);
      }
      Insert(s[0], t, key)
  }

  lemma WithKeyHasKey<T>(s: seq<T>, key: T -> real, k: real)
    requires WithKey(s, key, k) != []
    ensures exists i :: 0 <= i < |s| && key(s[i]) == k
  {
    if key(s[0]) != k {
      WithKeyHasKey(s[1..], key, k);
      var i :| 0 <= i < |s[1..]| && key(s[1..][i]) == k;
      assert key(s[i + 1]) == k;
    }
  }

  /** Two ascending, tie-preserving arrangements of the same elements start
      with the same element. */
  lemma SameHead<T>(a: seq<T>, b: seq<T>, key: T -> real)
    requires a != [] && b != []
    requires SortedBy(a, key) && SortedBy(b, key)
    requires SameTies(a, b, key)
    ensures a[0] == b[0]
  {
    var ka, kb := key(a[0]), key(b[0]);
    assert WithKey(b, key, kb) != [] by {
      WithKeyFirst(b, key, 0);
    }
    WithKeyHasKey(a, key, kb);
    assert WithKey(a, key, ka) != [] by {
      WithKeyFirst(a, key, 0);
    }
    WithKeyHasKey(b, key, ka);
    WithKeyFirst(a, key, 0);
    WithKeyFirst(b, key, 0);
  }

  /** With equal heads, the tails agree on every group of ties. */
  lemma SameTiesOfTails<T>(a: seq<T>, b: seq<T>, key: T -> real)
    requires a != [] && b != [] && a[0] == b[0]
    requires SameTies(a, b, key)
    ensures SameTies(a[1..], b[1..], key)
  {
    forall k ensures WithKey(b[1..], key, k) == WithKey(a[1..], key, k) {
      var p := if key(a[0]) == k then [a[0]] else [];
      assert WithKey(a, key, k) == p + WithKey(a[1..], key, k);
      assert WithKey(b, key, k) == p + WithKey(b[1..], key, k);
      assert (p + WithKey(a[1..], key, k))[|p|..] == WithKey(a[1..], key, k);
      assert (p + WithKey(b[1..], key, k))[|p|..] == WithKey(b[1..], key, k);
    }
  }

  /** A stable ascending arrangement is unique: two sequences that are both
      sorted by `key` and agree on the order of every group of ties are equal. */
  lemma {:induction false} SortedStableUnique<T>(a: seq<T>, b: seq<T>, key: T -> real)
    requires SortedBy(a, key) && SortedBy(b, key)
    requires SameTies(a, b, key)
    ensures a == b
    decreases |a|
  {
    if a == [] || b == [] {
      if b != [] {
        WithKeyFirst(b, key, 0);
      } else if a != [] {
        WithKeyFirst(a, key, 0);
      }
    } else {
      SameHead(a, b, key);
      SameTiesOfTails(a, b, key);
      SortedStableUnique(a[1..], b[1..], key);
      assert a == [a[0]] + a[1..] && b == [b[0]] + b[1..];
    }
  }

  /** Any sorted, tie-preserving arrangement of `s` is `SortBy(s, key)`. */
  lemma SortByIsTheStableSort<T>(s: seq<T>, t: seq<T>, key: T -> real)
    requires SortedBy(t, key) && SameTies(s, t, key)
    ensures t == SortBy(s, key)
  {
    var r := SortBy(s, key);
    forall k ensures WithKey(r, key, k) == WithKey(t, key, k) {
      assert WithKey(r, key, k) == WithKey(s, key, k);
    }
    SortedStableUnique(r, t, key);
  }

  /** Index of the first element of `s` with the least key. */
  function FirstMinIndex<T>(s: seq<T>, key: T -> real): (j: nat)
    requires |s| > 0
    ensures j < |s|
    ensures forall i :: 0 <= i < |s| ==> key(s[j]) <= key(s[i])
    ensures forall i :: 0 <= i < j ==> key(s[j]) < key(s[i])
  {
    if |s| == 1 then 0
    else
      var j := FirstMinIndex(s[1..], key);
      if key(s[0]) <= key(s[j + 1]) then 0 else j + 1
  }

  lemma WithKeyFirst<T>(s: seq<T>, key: T -> real, j: nat)
    requires j < |s|
    requires forall i :: 0 <= i < j ==> key(s[i]) != key(s[j])
    ensures WithKey(s, key, key(s[j])) != [] && WithKey(s, key, key(s[j]))[0] == s[j]
  {
    if j > 0 {
      WithKeyFirst(s[1..], key, j - 1);
    }
  }

  /** The head of the stable sort is the first element with the least key. */
  lemma SortByHead<T>(s: seq<T>, key: T -> real)
    requires |s| > 0
    ensures SortBy(s, key)[0] == s[FirstMinIndex(s, key)]
  {
    var r := SortBy(s, key);
    var j := FirstMinIndex(s, key);
    assert key(r[0]) == key(s[j]) by {
      assert r[0] in multiset(s);
      var m :| 0 <= m < |s| && s[m] == r[0];
      assert s[j] in multiset(r);
      var n :| 0 <= n < |r| && r[n] == s[j];
      assert key(r[0]) <= key(r[n]);
    }
    WithKeyFirst(s, key, j);
    WithKeyFirst(r, key, 0);
    assert WithKey(r, key, key(s[j])) == WithKey(s, key, key(s[j]));
  }
}
