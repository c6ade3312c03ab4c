/** `Array.prototype.sort` with a comparator, modelled as an insertion sort
  * under the preorder `le(a, b)`, read "the comparator does not put `b` strictly
  * before `a`". What is proved of it is that its output is sorted and a
  * permutation of its input; the order it gives to elements the comparator
  * ties is not stated. */
module Sorting {
  ghost predicate TotalPreorder<T(!new)>(le: (T, T) -> bool)
  {
    (forall a, b :: le(a, b) || le(b, a)) &&
    (forall a, b, c :: le(a, b) && le(b, c) ==> le(a, c))
  }

  predicate SortedBy<T>(s: seq<T>, le: (T, T) -> bool)
  {
    forall i, j :: 0 <= i < j < |s| ==> le(s[i], s[j])
  }

  /** Puts `x` before the first element it does not come after. */
  function Insert<T>(x: T, s: seq<T>, le: (T, T) -> bool): (r: seq<T>)
    ensures multiset(r) == multiset(s) + multiset{x}
    ensures |r| == |s| + 1
  {
    if s == [] then [x]
    else if le(x, s[0]) then [x] + s
    else
      assert s == [s[0]] + s[1..];
      [s[0]] + Insert(x, s[1..], le)
  }

  /** The sort: a permutation of its input. */
  function InsertionSort<T>(s: seq<T>, le: (T, T) -> bool): (r: seq<T>)
    ensures multiset(r) == multiset(s)
    ensures |r| == |s|
  {
    if s == [] then []
    else
      assert s == [s[0]] + s[1..];
      Insert(s[0], InsertionSort(s[1..], le), le)
  }

  lemma {:induction false} InsertSorted<T(!new)>(x: T, s: seq<T>, le: (T, T) -> bool)
    requires TotalPreorder(le)
    requires SortedBy(s, le)
    ensures SortedBy(Insert(x, s, le), le)
  {
    if s != [] && !le(x, s[0]) {
      var t := s[1..];
      assert SortedBy(t, le);
      InsertSorted(x, t, le);
      var r := Insert(x, t, le);
      assert le(s[0], x);
      forall k | 0 <= k < |r| ensures le(s[0], r[k]) {
        assert r[k] in multiset(r);
        assert r[k] in multiset(t) + multiset{x};
        if r[k] != x {
          assert r[k] in t;
          var j :| 0 <= j < |t| && t[j] == r[k];
          assert s[j + 1] == t[j];
        }
      }
      var res := [s[0]] + r;
      forall i, j | 0 <= i < j < |res| ensures le(res[i], res[j]) {
        if i > 0 {
          assert res[i] == r[i - 1] && res[j] == r[j - 1];
        } else {
          assert res[j] == r[j - 1];
        }
      }
    } else if s != [] {
      var res := [x] + s;
      forall i, j | 0 <= i < j < |res| ensures le(res[i], res[j]) {
        if i == 0 && j > 1 {
          assert le(s[0], s[j - 1]);
        }
      }
    }
  }

  /** Under a total preorder the result is sorted. */
  lemma {:induction false} InsertionSortSorted<T(!new)>(s: seq<T>, le: (T, T) -> bool)
    requires TotalPreorder(le)
    ensures SortedBy(InsertionSort(s, le), le)
  {
    if s != [] {
      InsertionSortSorted(s[1..], le);
      InsertSorted(s[0], InsertionSort(s[1..], le), le);
    }
  }

  /** Inserting an element whose key is new keeps the keys pairwise distinct. */
  lemma {:induction false} InsertDistinctKeys<T, K>(x: T, s: seq<T>, le: (T, T) -> bool, key: T -> K)
    requires forall i, j :: 0 <= i < j < |s| ==> key(s[i]) != key(s[j])
    requires forall i :: 0 <= i < |s| ==> key(s[i]) != key(x)
    ensures forall i, j :: 0 <= i < j < |Insert(x, s, le)| ==> key(Insert(x, s, le)[i]) != key(Insert(x, s, le)[j])
  {
    if s != [] && !le(x, s[0]) {
      var t := s[1..];
      InsertDistinctKeys(x, t, le, key);
      var r := Insert(x, t, le);
      forall k | 0 <= k < |r| ensures key(r[k]) != key(s[0]) {
        assert r[k] in multiset(t) + multiset{x};
        if r[k] != x {
          assert r[k] in t;
          var m :| 0 <= m < |t| && t[m] == r[k];
          assert s[m + 1] == t[m];
        }
      }
      var res := [s[0]] + r;
      forall i, j | 0 <= i < j < |res| ensures key(res[i]) != key(res[j]) {
        assert res[j] == r[j - 1];
        if i > 0 {
          assert res[i] == r[i - 1];
        }
      }
    } else if s != [] {
      var res := [x] + s;
      forall i, j | 0 <= i < j < |res| ensures key(res[i]) != key(res[j]) {
        assert res[j] == s[j - 1];
        if i > 0 {
          assert res[i] == s[i - 1];
        }
      }
    }
  }

  /** Sorting keeps the keys of a sequence pairwise distinct. */
  lemma {:induction false} InsertionSortDistinctKeys<T, K>(s: seq<T>, le: (T, T) -> bool, key: T -> K)
    requires forall i, j :: 0 <= i < j < |s| ==> key(s[i]) != key(s[j])
    ensures forall i, j :: 0 <= i < j < |InsertionSort(s, le)| ==>
      key(InsertionSort(s, le)[i]) != key(InsertionSort(s, le)[j])
  {
    if s != [] {
      var t := s[1..];
      assert forall i, j :: 0 <= i < j < |t| ==> key(t[i]) != key(t[j]) by {
        forall i, j | 0 <= i < j < |t| ensures key(t[i]) != key(t[j]) {
          assert t[i] == s[i + 1] && t[j] == s[j + 1];
        }
      }
      InsertionSortDistinctKeys(t, le, key);
      var r := InsertionSort(t, le);
      forall k | 0 <= k < |r| ensures key(r[k]) != key(s[0]) {
        assert r[k] in multiset(t);
        var m :| 0 <= m < |t| && t[m] == r[k];
        assert s[m + 1] == t[m];
      }
      InsertDistinctKeys(s[0], r, le, key);
    }
  }
}
