/**
 * A stable sort by key, as `Array.prototype.sort` performs it (stable
 * since ECMAScript 2019) when given a comparator that is consistent with
 * a total order on keys: the result is the unique arrangement that is
 * ordered by key and keeps elements with equal keys in their input order.
 */
module Sorting {

  /** `le` is a total order: reflexive, antisymmetric, transitive, total. */
  ghost predicate TotalOrder<K(!new)>(le: (K, K) -> bool) {
    && (forall a :: le(a, a))
    && (forall a, b :: le(a, b) && le(b, a) ==> a == b)
    && (forall a, b, c :: le(a, b) && le(b, c) ==> le(a, c))
    && (forall a, b :: le(a, b) || le(b, a))
  }

  /** Every element's key is at most the keys of the elements after it. */
  ghost predicate SortedBy<T, K>(s: seq<T>, key: T -> K, le: (K, K) -> bool) {
    forall i, j :: 0 <= i < j < |s| ==> le(key(s[i]), key(s[j]))
  }

  /** The elements of `s` whose key is `k`, in their order in `s`. */
  function KeyClass<T, K(==)>(s: seq<T>, key: T -> K, k: K): seq<T> {
    if s == [] then [] else (if key(s[0]) == k then [s[0]] else []) + KeyClass(s[1..], key, k)
  }

  /** Every element of the key class of `k` has key `k`. */
  lemma {:induction false} KeyClassKeys<T, K>(s: seq<T>, key: T -> K, k: K)
    ensures forall i :: 0 <= i < |KeyClass(s, key, k)| ==> key(KeyClass(s, key, k)[i]) == k
  {
    if s != [] {
      KeyClassKeys(s[1..], key, k);
      var head := if key(s[0]) == k then [s[0]] else [];
      var tail := KeyClass(s[1..], key, k);
      var r := head + tail;
      assert KeyClass(s, key, k) == r;
      forall i | 0 <= i < |r| ensures key(r[i]) == k {
        if i >= |head| {
          assert r[i] == tail[i - |head|];
        }
      }
    }
  }

  /** The key class of `k` holds every element of `s` with key `k` as
      often as `s` does, and nothing else. */
  lemma {:induction false} KeyClassCount<T, K>(s: seq<T>, key: T -> K, k: K, x: T)
    ensures multiset(KeyClass(s, key, k))[x] == if key(x) == k then multiset(s)[x] else 0
  {
    if s != [] {
      KeyClassCount(s[1..], key, k, x);
      var head := if key(s[0]) == k then [s[0]] else [];
      var tail := KeyClass(s[1..], key, k);
      assert KeyClass(s, key, k) == head + tail;
      assert multiset(head + tail) == multiset(head) + multiset(tail);
      assert s == [s[0]] + s[1..];
      assert multiset(s) == multiset{s[0]} + multiset(s[1..]);
    }
  }

  /** Places `x` in front of the first element whose key is not below
      its own, so that it precedes every element with an equal key. */
  function Insert<T, K>(x: T, s: seq<T>, key: T -> K, le: (K, K) -> bool): (r: seq<T>)
    ensures multiset(r) == multiset(s) + multiset{x}
  {
    if s == [] then [x]
    else if le(key(x), key(s[0])) then [x] + s
    else
      assert s == [s[0]] + s[1..];
      [s[0]] + Insert(x, s[1..], key, le)
  }

  /** Insertion sort, inserting the head into the sorted tail. */
  function SortBy<T, K>(s: seq<T>, key: T -> K, le: (K, K) -> bool): (r: seq<T>)
    ensures multiset(r) == multiset(s)
  {
    if s == [] then []
    else
      assert s == [s[0]] + s[1..];
      Insert(s[0], SortBy(s[1..], key, le), key, le)
  }

  /** A lower bound on the keys of `x` and of `s` bounds the keys of the
      result of inserting `x` into `s`. */
  lemma {:induction false} InsertLowerBound<T, K>(x: T, s: seq<T>, key: T -> K, le: (K, K) -> bool, k: K)
    requires le(k, key(x))
    requires forall i :: 0 <= i < |s| ==> le(k, key(s[i]))
    ensures forall i :: 0 <= i < |Insert(x, s, key, le)| ==> le(k, key(Insert(x, s, key, le)[i]))
  {
    if s != [] && !le(key(x), key(s[0])) {
      InsertLowerBound(x, s[1..], key, le, k);
      var r := Insert(x, s, key, le);
      forall i | 0 <= i < |r| ensures le(k, key(r[i])) {
        if i > 0 {
          assert r[i] == Insert(x, s[1..], key, le)[i - 1];
        }
      }
    }
  }

  lemma {:induction false} InsertSorted<T, K(!new)>(x: T, s: seq<T>, key: T -> K, le: (K, K) -> bool)
    requires TotalOrder(le) && SortedBy(s, key, le)
    ensures SortedBy(Insert(x, s, key, le), key, le)
  {
    if s != [] && !le(key(x), key(s[0])) {
      var tail := Insert(x, s[1..], key, le);
      InsertSorted(x, s[1..], key, le);
      assert le(key(s[0]), key(x));
      assert forall i :: 0 <= i < |s[1..]| ==> le(key(s[0]), key(s[1..][i])) by {
        forall i | 0 <= i < |s[1..]| ensures le(key(s[0]), key(s[1..][i])) {
          assert s[1..][i] == s[i + 1];
        }
      }
      InsertLowerBound(x, s[1..], key, le, key(s[0]));
      var r := [s[0]] + tail;
      forall i, j | 0 <= i < j < |r| ensures le(key(r[i]), key(r[j])) {
        if i == 0 {
          assert r[0] == s[0] && r[j] == tail[j - 1];
        } else {
          assert r[i] == tail[i - 1] && r[j] == tail[j - 1];
        }
      }
    }
  }

  /** The result of SortBy is ordered by key. */
  lemma {:induction false} SortBySorted<T, K(!new)>(s: seq<T>, key: T -> K, le: (K, K) -> bool)
    requires TotalOrder(le)
    ensures SortedBy(SortBy(s, key, le), key, le)
  {
    if s != [] {
      SortBySorted(s[1..], key, le);
      InsertSorted(s[0], SortBy(s[1..], key, le), key, le);
    }
  }

  /** The key class of a sequence with a given first element. */
  lemma KeyClassCons<T, K>(y: T, s: seq<T>, key: T -> K, k: K)
    ensures KeyClass([y] + s, key, k) == (if key(y) == k then [y] else []) + KeyClass(s, key, k)
  {
    assert ([y] + s)[0] == y && ([y] + s)[1..] == s;
  }

  lemma {:induction false} InsertKeyClass<T, K(!new)>(x: T, s: seq<T>, key: T -> K, le: (K, K) -> bool, k: K)
    requires le(key(x), key(x))
    ensures KeyClass(Insert(x, s, key, le), key, k)
         == (if key(x) == k then [x] else []) + KeyClass(s, key, k)
  {
    if s == [] {
      assert Insert(x, s, key, le) == [x] + s;
      KeyClassCons(x, s, key, k);
    } else if le(key(x), key(s[0])) {
      assert Insert(x, s, key, le) == [x] + s;
      KeyClassCons(x, s, key, k);
    } else {
      var tail := Insert(x, s[1..], key, le);
      assert key(s[0]) != key(x);
      InsertKeyClass(x, s[1..], key, le, k);
      assert Insert(x, s, key, le) == [s[0]] + tail;
      KeyClassCons(s[0], tail, key, k);
      assert s == [s[0]] + s[1..];
      KeyClassCons(s[0], s[1..], key, k);
      var k1 := KeyClass(s[1..], key, k);
      if key(x) == k {
        assert KeyClass(Insert(x, s, key, le), key, k) == [x] + k1;
        assert KeyClass(s, key, k) == k1;
      } else {
        assert KeyClass(tail, key, k) == k1;
      }
    }
  }

  /** Stability: the elements sharing any one key keep their input order. */
  lemma {:induction false} SortByStable<T, K(!new)>(s: seq<T>, key: T -> K, le: (K, K) -> bool, k: K)
    requires TotalOrder(le)
    ensures KeyClass(SortBy(s, key, le), key, k) == KeyClass(s, key, k)
  {
    if s != [] {
      SortByStable(s[1..], key, le, k);
      InsertKeyClass(s[0], SortBy(s[1..], key, le), key, le, k);
    }
  }
}
