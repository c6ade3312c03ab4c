/** Sequence combinators that stand for the JavaScript array methods the
  * application uses: `filter`, a `map` followed by dropping `undefined`,
  * `reverse`, and a keep-first de-duplication by key. */
module Seqs {
  import opened Wrappers

  /** `Array.prototype.filter`. */
  function Filter<T>(s: seq<T>, p: T -> bool): (r: seq<T>)
    ensures |r| <= |s|
    ensures forall j :: 0 <= j < |r| ==> r[j] in s && p(r[j])
    ensures forall i :: 0 <= i < |s| && p(s[i]) ==> s[i] in r
  {
    if s == [] then [] else (if p(s[0]) then [s[0]] else []) + Filter(s[1..], p)
  }

  /** Filtering distributes over concatenation, so it keeps the input order. */
  lemma {:induction false} FilterAppend<T>(a: seq<T>, b: seq<T>, p: T -> bool)
    ensures Filter(a + b, p) == Filter(a, p) + Filter(b, p)
  {
    if a == [] {
      assert a + b == b;
    } else {
      assert (a + b)[1..] == a[1..] + b;
      FilterAppend(a[1..], b, p);
    }
  }

  /** `xs.map(f).filter(x => x !== undefined)`. */
  function FilterMap<A, B>(s: seq<A>, f: A -> Option<B>): (r: seq<B>)
    ensures |r| <= |s|
    ensures forall j :: 0 <= j < |r| ==> exists i :: 0 <= i < |s| && f(s[i]) == Some(r[j])
  {
    if s == [] then []
    else
      var rest := FilterMap(s[1..], f);
      var head := if f(s[0]).Some? then [f(s[0]).value] else [];
      assert forall j :: 0 <= j < |rest| ==> exists i :: 0 <= i < |s| && f(s[i]) == Some(rest[j]) by {
        forall j | 0 <= j < |rest| ensures exists i :: 0 <= i < |s| && f(s[i]) == Some(rest[j]) {
          var i :| 0 <= i < |s[1..]| && f(s[1..][i]) == Some(rest[j]);
          assert f(s[i + 1]) == Some(rest[j]);
        }
      }
      head + rest
  }

  /** Nothing decodable is dropped: every defined value is in the output. */
  lemma {:induction false} FilterMapComplete<A, B>(s: seq<A>, f: A -> Option<B>, i: nat)
    requires i < |s| && f(s[i]).Some?
    ensures f(s[i]).value in FilterMap(s, f)
  {
    if i > 0 {
      assert s[1..][i - 1] == s[i];
      FilterMapComplete(s[1..], f, i - 1);
    }
  }

  /** The decoded values come out in the order of their sources. */
  lemma {:induction false} FilterMapAppend<A, B>(a: seq<A>, b: seq<A>, f: A -> Option<B>)
    ensures FilterMap(a + b, f) == FilterMap(a, f) + FilterMap(b, f)
  {
    if a == [] {
      assert a + b == b;
    } else {
      assert (a + b)[1..] == a[1..] + b;
      FilterMapAppend(a[1..], b, f);
    }
  }

  /** `Array.prototype.reverse` on a copy. */
  function Reverse<T>(s: seq<T>): (r: seq<T>)
    ensures |r| == |s|
  {
    if s == [] then [] else Reverse(s[1..]) + [s[0]]
  }

  lemma {:induction false} ReverseAt<T>(s: seq<T>, k: nat)
    requires k < |s|
    ensures Reverse(s)[k] == s[|s| - 1 - k]
  {
    if k < |s| - 1 {
      ReverseAt(s[1..], k);
    }
  }

  /** The reverse starts with the last element, followed by the reverse of the
    * rest. */
  lemma {:induction false} ReverseInit<T>(s: seq<T>)
    requires s != []
    ensures Reverse(s) == [s[|s| - 1]] + Reverse(s[..|s| - 1])
  {
    if |s| > 1 {
      var init := s[..|s| - 1];
      ReverseInit(s[1..]);
      assert s[1..][..|s| - 2] == init[1..];
      assert init[0] == s[0];
    }
  }

  /** The keys a sequence carries. */
  function KeysOf<T, K(==)>(s: seq<T>, key: T -> K): set<K>
  {
    set i | 0 <= i < |s| :: key(s[i])
  }

  lemma KeysOfAppend<T, K>(s: seq<T>, x: T, key: T -> K)
    ensures KeysOf(s + [x], key) == KeysOf(s, key) + {key(x)}
  {
    var t := s + [x];
    forall k | k in KeysOf(t, key) ensures k in KeysOf(s, key) + {key(x)} {
      var i :| 0 <= i < |t| && key(t[i]) == k;
      if i < |s| { assert t[i] == s[i]; }
    }
    forall k | k in KeysOf(s, key) ensures k in KeysOf(t, key) {
      var i :| 0 <= i < |s| && key(s[i]) == k;
      assert t[i] == s[i];
    }
    assert t[|s|] == x;
  }

  /** Keeps the first element for each key, in input order; an element whose key
    * was already seen is dropped. */
  function KeepFirst<T, K(==)>(s: seq<T>, key: T -> K): seq<T>
  {
    if s == [] then []
    else
      var init := s[..|s| - 1];
      var last := s[|s| - 1];
      if key(last) in KeysOf(init, key) then KeepFirst(init, key)
      else KeepFirst(init, key) + [last]
  }

  lemma KeepFirstSnoc<T, K>(s: seq<T>, x: T, key: T -> K)
    ensures KeepFirst(s + [x], key) ==
      if key(x) in KeysOf(s, key) then KeepFirst(s, key) else KeepFirst(s, key) + [x]
  {
    assert (s + [x])[..|s|] == s;
  }

  /** `r` is `s` with some elements left out, the rest in their order. */
  ghost predicate IsSubsequence<T>(r: seq<T>, s: seq<T>)
    decreases |s|
  {
    if r == [] then true
    else if s == [] then false
    else
      (r[|r| - 1] == s[|s| - 1] && IsSubsequence(r[..|r| - 1], s[..|s| - 1])) ||
      IsSubsequence(r, s[..|s| - 1])
  }

  lemma {:induction false} KeepFirstIsSubsequence<T, K>(s: seq<T>, key: T -> K)
    ensures IsSubsequence(KeepFirst(s, key), s)
  {
    if s != [] {
      var init := s[..|s| - 1];
      KeepFirstIsSubsequence(init, key);
      var r := KeepFirst(s, key);
      if r != [] && r != KeepFirst(init, key) {
        assert r[..|r| - 1] == KeepFirst(init, key);
      }
    }
  }

  /** Every element kept is an element of the input. */
  lemma {:induction false} KeepFirstMembers<T, K>(s: seq<T>, key: T -> K)
    ensures forall x :: x in KeepFirst(s, key) ==> x in s
  {
    if s != [] {
      var init := s[..|s| - 1];
      KeepFirstMembers(init, key);
      assert forall x :: x in init ==> x in s;
    }
  }

  /** The first element of `s` with key `k`. */
  ghost function FirstWithKey<T, K>(s: seq<T>, key: T -> K, k: K): T
    requires k in KeysOf(s, key)
  {
    if key(s[0]) == k then s[0]
    else
      assert k in KeysOf(s[1..], key) by {
        var i :| 0 <= i < |s| && key(s[i]) == k;
        assert key(s[1..][i - 1]) == k;
      }
      FirstWithKey(s[1..], key, k)
  }

  lemma {:induction false} FirstWithKeyAppend<T, K>(s: seq<T>, x: T, key: T -> K, k: K)
    requires k in KeysOf(s, key)
    ensures k in KeysOf(s + [x], key)
    ensures FirstWithKey(s + [x], key, k) == FirstWithKey(s, key, k)
  {
    KeysOfAppend(s, x, key);
    if key(s[0]) != k {
      assert (s + [x])[1..] == s[1..] + [x];
      assert k in KeysOf(s[1..], key) by {
        var i :| 0 <= i < |s| && key(s[i]) == k;
        assert key(s[1..][i - 1]) == k;
      }
      FirstWithKeyAppend(s[1..], x, key, k);
    }
  }

  lemma {:induction false} FirstWithKeyNew<T, K>(s: seq<T>, x: T, key: T -> K)
    requires key(x) !in KeysOf(s, key)
    ensures key(x) in KeysOf(s + [x], key)
    ensures FirstWithKey(s + [x], key, key(x)) == x
  {
    KeysOfAppend(s, x, key);
    if s != [] {
      assert key(s[0]) in KeysOf(s, key);
      assert (s + [x])[1..] == s[1..] + [x];
      assert forall i :: 0 <= i < |s[1..]| ==> key(s[1..][i]) != key(x) by {
        forall i | 0 <= i < |s[1..]| ensures key(s[1..][i]) != key(x) {
          assert s[1..][i] == s[i + 1];
          assert key(s[i + 1]) in KeysOf(s, key);
        }
      }
      FirstWithKeyNew(s[1..], x, key);
    }
  }

  /** Extending a prefix by one element: keep-first keeps it iff its key is
    * new, and its key joins the prefix's keys. */
  lemma KeepFirstPrefixStep<T, K>(s: seq<T>, i: nat, key: T -> K)
    requires i < |s|
    ensures KeepFirst(s[..i + 1], key) ==
      (if key(s[i]) in KeysOf(s[..i], key) then KeepFirst(s[..i], key) else KeepFirst(s[..i], key) + [s[i]])
    ensures KeysOf(s[..i + 1], key) == KeysOf(s[..i], key) + {key(s[i])}
  {
    var prefix := s[..i];
    assert s[..i + 1] == prefix + [s[i]];
    KeepFirstSnoc(prefix, s[i], key);
    KeysOfAppend(prefix, s[i], key);
  }

  /** What keep-first de-duplication promises: exactly one element per key of the
    * input, each the first of the input with that key, in input order. */
  lemma {:induction false} KeepFirstSpec<T, K>(s: seq<T>, key: T -> K)
    ensures KeysOf(KeepFirst(s, key), key) == KeysOf(s, key)
    ensures forall i, j :: 0 <= i < j < |KeepFirst(s, key)| ==>
      key(KeepFirst(s, key)[i]) != key(KeepFirst(s, key)[j])
    ensures forall x :: x in KeepFirst(s, key) ==>
      key(x) in KeysOf(s, key) && x == FirstWithKey(s, key, key(x))
  {
    if s != [] {
      var init := s[..|s| - 1];
      var last := s[|s| - 1];
      assert s == init + [last];
      KeepFirstSpec(init, key);
      KeysOfAppend(init, last, key);
      var r := KeepFirst(init, key);
      if key(last) in KeysOf(init, key) {
        forall x | x in r ensures x == FirstWithKey(s, key, key(x)) {
          FirstWithKeyAppend(init, last, key, key(x));
        }
      } else {
        KeysOfAppend(r, last, key);
        forall x | x in r + [last] ensures x == FirstWithKey(s, key, key(x)) {
          if x in r {
            FirstWithKeyAppend(init, last, key, key(x));
          } else {
            FirstWithKeyNew(init, last, key);
          }
        }
        forall i, j | 0 <= i < j < |r + [last]| ensures key((r + [last])[i]) != key((r + [last])[j]) {
          if j == |r| {
            assert key((r + [last])[i]) == key(r[i]) && key(r[i]) in KeysOf(r, key);
          }
        }
      }
    }
  }

  /** Distinct keys make a sequence as long as its key set. */
  lemma {:induction false} DistinctKeysCount<T, K>(s: seq<T>, key: T -> K)
    requires forall i, j :: 0 <= i < j < |s| ==> key(s[i]) != key(s[j])
    ensures |KeysOf(s, key)| == |s|
  {
    if s != [] {
      var init := s[..|s| - 1];
      DistinctKeysCount(init, key);
      KeysOfAppend(init, s[|s| - 1], key);
      assert s == init + [s[|s| - 1]];
      assert forall i :: 0 <= i < |init| ==> key(init[i]) != key(s[|s| - 1]) by {
        forall i | 0 <= i < |init| ensures key(init[i]) != key(s[|s| - 1]) {
          assert init[i] == s[i];
        }
      }
    }
  }

  /** The de-duplicated sequence has one element per distinct key. */
  lemma KeepFirstLength<T, K>(s: seq<T>, key: T -> K)
    ensures |KeepFirst(s, key)| == |KeysOf(s, key)|
  {
    KeepFirstSpec(s, key);
    DistinctKeysCount(KeepFirst(s, key), key);
  }

  /** The sum of `f` over the elements of `s`, as a `reduce` from zero adds it. */
  function SumOf<T>(s: seq<T>, f: T -> real): real
  {
    if s == [] then 0.0 else f(s[0]) + SumOf(s[1..], f)
  }

  lemma {:induction false} SumOfAppend<T>(a: seq<T>, b: seq<T>, f: T -> real)
    ensures SumOf(a + b, f) == SumOf(a, f) + SumOf(b, f)
  {
    if a == [] {
      assert a + b == b;
    } else {
      assert (a + b)[1..] == a[1..] + b;
      SumOfAppend(a[1..], b, f);
    }
  }

  lemma {:induction false} SumOfNonNegative<T>(s: seq<T>, f: T -> real)
    requires forall i :: 0 <= i < |s| ==> f(s[i]) >= 0.0
    ensures SumOf(s, f) >= 0.0
  {
    if s != [] {
      assert forall i :: 0 <= i < |s[1..]| ==> f(s[1..][i]) >= 0.0 by {
        forall i | 0 <= i < |s[1..]| ensures f(s[1..][i]) >= 0.0 {
          assert s[1..][i] == s[i + 1];
        }
      }
      SumOfNonNegative(s[1..], f);
    }
  }

  lemma {:induction false} SumOfRemove<T>(s: seq<T>, i: nat, f: T -> real)
    requires i < |s|
    ensures SumOf(s, f) == f(s[i]) + SumOf(s[..i] + s[i + 1..], f)
  {
    var front, back := s[..i], s[i + 1..];
    assert s == (front + [s[i]]) + back;
    SumOfAppend(front + [s[i]], back, f);
    SumOfAppend(front, [s[i]], f);
    SumOfAppend(front, back, f);
    assert SumOf([s[i]], f) == f(s[i]) + SumOf([], f);
  }

  /** Removing the element at `i` removes one occurrence of it. */
  lemma MultisetRemove<T>(b: seq<T>, i: nat)
    requires i < |b|
    ensures multiset(b[..i] + b[i + 1..]) == multiset(b) - multiset{b[i]}
  {
    assert b == b[..i] + [b[i]] + b[i + 1..];
  }

  /** Two permutations of each other stay so once a common element is
    * removed from each: the head of one and its occurrence at `i` in the
    * other. */
  lemma PermutationTail<T>(a: seq<T>, b: seq<T>, i: nat)
    requires a != [] && multiset(a) == multiset(b)
    requires i < |b| && b[i] == a[0]
    ensures multiset(a[1..]) == multiset(b[..i] + b[i + 1..])
  {
    MultisetRemove(b, i);
    assert a == [a[0]] + a[1..];
    assert multiset(a) == multiset{a[0]} + multiset(a[1..]);
  }

  /** A sum does not depend on the order of the elements. */
  lemma {:induction false} SumOfPermutation<T>(a: seq<T>, b: seq<T>, f: T -> real)
    requires multiset(a) == multiset(b)
    ensures SumOf(a, f) == SumOf(b, f)
  {
    if a != [] {
      assert a[0] in multiset(b);
      var i :| 0 <= i < |b| && b[i] == a[0];
      PermutationTail(a, b, i);
      SumOfPermutation(a[1..], b[..i] + b[i + 1..], f);
      SumOfRemove(b, i, f);
    }
  }

  /** Summing over the filtered sequence is summing with the rejected elements
    * counted as zero. */
  lemma {:induction false} SumOfFilter<T>(s: seq<T>, p: T -> bool, f: T -> real, masked: T -> real)
    requires forall x :: masked(x) == if p(x) then f(x) else 0.0
    ensures SumOf(Filter(s, p), f) == SumOf(s, masked)
  {
    if s != [] {
      SumOfFilter(s[1..], p, f, masked);
      SumOfAppend(if p(s[0]) then [s[0]] else [], Filter(s[1..], p), f);
    }
  }

  /** `Array.prototype.some`. */
  function Any<T>(s: seq<T>, p: T -> bool): (r: bool)
    ensures r <==> exists i :: 0 <= i < |s| && p(s[i])
  {
    if s == [] then false
    else if p(s[0]) then true
    else
      assert forall i :: 1 <= i < |s| ==> s[i] == s[1..][i - 1];
      Any(s[1..], p)
  }
}
