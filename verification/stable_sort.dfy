/**
 * Python's `sorted(xs, key=...)` for an integer key: a stable sort. The model
 * is an insertion sort that places each element after every element already
 * placed whose key is not larger; the lemmas show the result is ordered by the
 * key, is a permutation of the input, and keeps elements with equal keys in
 * their input order. Together these three determine the result.
 */
module StableSort {

  predicate SortedBy<T>(s: seq<T>, key: T -> int) {
    forall i, j :: 0 <= i < j < |s| ==> key(s[i]) <= key(s[j])
  }

  /** Insert `x` into `s` just before the first element whose key exceeds `key(x)`. */
  function Insert<T>(x: T, s: seq<T>, key: T -> int): (r: seq<T>)
    ensures |r| == |s| + 1
  {
    if s == [] then [x]
    else if key(x) < key(s[0]) then [x] + s
    else [s[0]] + Insert(x, s[1..], key)
  }

  /** `sorted(s, key=key)`. */
  function SortBy<T>(s: seq<T>, key: T -> int): (r: seq<T>)
    ensures |r| == |s|
  {
    if s == [] then [] else Insert(s[|s| - 1], SortBy(s[..|s| - 1], key), key)
  }

  /** The elements of `s` whose key is `k`, in the order `s` has them. */
  function KeyRun<T>(s: seq<T>, key: T -> int, k: int): seq<T> {
    if s == [] then []
    else (if key(s[0]) == k then [s[0]] else []) + KeyRun(s[1..], key, k)
  }

  lemma {:induction false} InsertSorted<T>(x: T, s: seq<T>, key: T -> int)
    requires SortedBy(s, key)
    ensures SortedBy(Insert(x, s, key), key)
  {
    if s != [] && key(x) >= key(s[0]) {
      InsertSorted(x, s[1..], key);
      var r := Insert(x, s, key);
      var t := Insert(x, s[1..], key);
      InsertElements(x, s[1..], key);
      assert r == [s[0]] + t;
      forall i, j | 0 <= i < j < |r| ensures key(r[i]) <= key(r[j]) {
        if i == 0 {
          assert r[j] == t[j - 1];
        }
      }
    }
  }

  /** Every element of `Insert(x, s)` is `x` or an element of `s`. */
  lemma {:induction false} InsertElements<T>(x: T, s: seq<T>, key: T -> int)
    ensures forall i :: 0 <= i < |Insert(x, s, key)| ==>
      Insert(x, s, key)[i] == x || exists j :: 0 <= j < |s| && Insert(x, s, key)[i] == s[j]
  {
    if s != [] && key(x) >= key(s[0]) {
      InsertElements(x, s[1..], key);
      var r := Insert(x, s, key);
      var t := Insert(x, s[1..], key);
      assert r == [s[0]] + t;
      forall i | 0 <= i < |r|
        ensures r[i] == x || exists j :: 0 <= j < |s| && r[i] == s[j]
      {
        if i == 0 {
          assert r[0] == s[0];
        } else {
          assert r[i] == t[i - 1];
          if r[i] != x {
            var j :| 0 <= j < |s[1..]| && t[i - 1] == s[1..][j];
            assert r[i] == s[j + 1];
          }
        }
      }
    }
  }

  /** `sorted` returns its input ordered by the key. */
  lemma {:induction false} SortBySorted<T>(s: seq<T>, key: T -> int)
    ensures SortedBy(SortBy(s, key), key)
  {
    if s != [] {
      SortBySorted(s[..|s| - 1], key);
      InsertSorted(s[|s| - 1], SortBy(s[..|s| - 1], key), key);
    }
  }

  lemma {:induction false} InsertPermutes<T>(x: T, s: seq<T>, key: T -> int)
    ensures multiset(Insert(x, s, key)) == multiset(s) + multiset{x}
  {
    if s != [] && key(x) >= key(s[0]) {
      InsertPermutes(x, s[1..], key);
      assert s == [s[0]] + s[1..];
    }
  }

  /** `sorted` returns a permutation of its input. */
  lemma {:induction false} SortByPermutes<T>(s: seq<T>, key: T -> int)
    ensures multiset(SortBy(s, key)) == multiset(s)
  {
    if s != [] {
      var init := s[..|s| - 1];
      SortByPermutes(init, key);
      InsertPermutes(s[|s| - 1], SortBy(init, key), key);
      assert s == init + [s[|s| - 1]];
    }
  }

  lemma {:induction false} KeyRunConcat<T>(a: seq<T>, b: seq<T>, key: T -> int, k: int)
    ensures KeyRun(a + b, key, k) == KeyRun(a, key, k) + KeyRun(b, key, k)
  {
    if a == [] {
      assert a + b == b;
    } else {
      var h := if key(a[0]) == k then [a[0]] else [];
      assert (a + b)[0] == a[0];
      assert (a + b)[1..] == a[1..] + b;
      assert KeyRun(a + b, key, k) == h + KeyRun(a[1..] + b, key, k);
      KeyRunConcat(a[1..], b, key, k);
      var x, y := KeyRun(a[1..], key, k), KeyRun(b, key, k);
      assert h + (x + y) == (h + x) + y;
    }
  }

  /** In a sorted sequence that starts above `k`, no element has the key `k`. */
  lemma {:induction false} KeyRunAbove<T>(s: seq<T>, key: T -> int, k: int)
    requires SortedBy(s, key)
    requires s != [] && k < key(s[0])
    ensures KeyRun(s, key, k) == []
  {
    if |s| > 1 {
      KeyRunAbove(s[1..], key, k);
    }
  }

  /** Inserting `x` adds it after the equal-key elements already there. */
  lemma {:induction false} InsertStable<T>(x: T, s: seq<T>, key: T -> int, k: int)
    requires SortedBy(s, key)
    ensures KeyRun(Insert(x, s, key), key, k) == KeyRun(s, key, k) + (if key(x) == k then [x] else [])
  {
    if s == [] {
    } else if key(x) < key(s[0]) {
      if key(x) == k {
        KeyRunAbove(s, key, k);
      }
      KeyRunConcat([x], s, key, k);
    } else {
      var t := Insert(x, s[1..], key);
      assert Insert(x, s, key) == [s[0]] + t;
      assert SortedBy(s[1..], key);
      InsertStable(x, s[1..], key, k);
      KeyRunConcat([s[0]], t, key, k);
      KeyRunConcat([s[0]], s[1..], key, k);
      assert [s[0]] + s[1..] == s;
      var h, rest, e := KeyRun([s[0]], key, k), KeyRun(s[1..], key, k), if key(x) == k then [x] else [];
      assert h + (rest + e) == (h + rest) + e;
    }
  }

  /** `sorted` is stable: elements with the same key keep their input order. */
  lemma {:induction false} SortByStable<T>(s: seq<T>, key: T -> int, k: int)
    ensures KeyRun(SortBy(s, key), key, k) == KeyRun(s, key, k)
  {
    if s != [] {
      var init, x := s[..|s| - 1], s[|s| - 1];
      SortByStable(init, key, k);
      SortBySorted(init, key);
      InsertStable(x, SortBy(init, key), key, k);
      KeyRunConcat(init, [x], key, k);
      assert init + [x] == s;
    }
  }
}
