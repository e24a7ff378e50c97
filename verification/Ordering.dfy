/** Sorting by a sequence-of-integers key: strings by code point, byte strings by byte. */
module Ordering {

  /** The lexicographic order of Python's str and bytes. */
  predicate Less(a: seq<int>, b: seq<int>) {
    if a == [] then b != []
    else b != [] && (a[0] < b[0] || (a[0] == b[0] && Less(a[1..], b[1..])))
  }

  lemma {:induction false} LessTransitive(a: seq<int>, b: seq<int>, c: seq<int>)
    requires Less(a, b) && Less(b, c)
    ensures Less(a, c)
  {
    if a != [] && a[0] == b[0] && b[0] == c[0] {
      LessTransitive(a[1..], b[1..], c[1..]);
    }
  }

  lemma {:induction false} LessTotal(a: seq<int>, b: seq<int>)
    ensures a == b || Less(a, b) || Less(b, a)
    ensures !(Less(a, b) && Less(b, a)) && (a == b ==> !Less(a, b))
  {
    if a != [] && b != [] {
      LessTotal(a[1..], b[1..]);
      assert a == [a[0]] + a[1..] && b == [b[0]] + b[1..];
    }
  }

  predicate DistinctKeys<T(!new)>(xs: seq<T>, key: T -> seq<int>) {
    forall i, j | 0 <= i < j < |xs| :: key(xs[i]) != key(xs[j])
  }

  predicate Sorted<T(!new)>(xs: seq<T>, key: T -> seq<int>) {
    forall i, j | 0 <= i < j < |xs| :: Less(key(xs[i]), key(xs[j]))
  }

  function Insert<T>(x: T, xs: seq<T>, key: T -> seq<int>): seq<T> {
    if xs == [] || Less(key(x), key(xs[0])) then [x] + xs
    else [xs[0]] + Insert(x, xs[1..], key)
  }

  /** Python's sorted(xs, key=key). */
  function Sort<T>(xs: seq<T>, key: T -> seq<int>): seq<T> {
    if xs == [] then [] else Insert(xs[0], Sort(xs[1..], key), key)
  }

  lemma {:induction false} InsertKeeps<T(!new)>(x: T, xs: seq<T>, key: T -> seq<int>)
    ensures multiset(Insert(x, xs, key)) == multiset(xs) + multiset{x}
  {
    if xs == [] || Less(key(x), key(xs[0])) {
    } else {
      InsertKeeps(x, xs[1..], key);
      assert xs == [xs[0]] + xs[1..];
    }
  }

  lemma {:induction false} InsertSorts<T(!new)>(x: T, xs: seq<T>, key: T -> seq<int>)
    requires Sorted(xs, key)
    requires forall y | y in xs :: key(y) != key(x)
    ensures Sorted(Insert(x, xs, key), key)
  {
    if xs == [] {
    } else if Less(key(x), key(xs[0])) {
      forall j | 0 <= j < |xs| ensures Less(key(x), key(xs[j])) {
        if j > 0 { LessTransitive(key(x), key(xs[0]), key(xs[j])); }
      }
    } else {
      var rest := Insert(x, xs[1..], key);
      InsertSorts(x, xs[1..], key);
      InsertKeeps(x, xs[1..], key);
      LessTotal(key(x), key(xs[0]));
      forall y | y in rest ensures Less(key(xs[0]), key(y)) {
        assert y in multiset(rest);
      }
    }
  }

  lemma {:induction false} SortPermutes<T(!new)>(xs: seq<T>, key: T -> seq<int>)
    ensures multiset(Sort(xs, key)) == multiset(xs)
  {
    if xs != [] {
      SortPermutes(xs[1..], key);
      InsertKeeps(xs[0], Sort(xs[1..], key), key);
      assert xs == [xs[0]] + xs[1..];
    }
  }

  lemma SortKeeps<T(!new)>(xs: seq<T>, key: T -> seq<int>)
    ensures |Sort(xs, key)| == |xs|
    ensures forall x :: x in Sort(xs, key) <==> x in xs
  {
    SortPermutes(xs, key);
    assert |multiset(Sort(xs, key))| == |multiset(xs)|;
    forall x ensures x in Sort(xs, key) <==> x in xs {
      assert x in multiset(Sort(xs, key)) <==> x in multiset(xs);
    }
  }

  lemma {:induction false} SortSorts<T(!new)>(xs: seq<T>, key: T -> seq<int>)
    requires DistinctKeys(xs, key)
    ensures Sorted(Sort(xs, key), key)
  {
    if xs != [] {
      SortSorts(xs[1..], key);
      SortKeeps(xs[1..], key);
      InsertSorts(xs[0], Sort(xs[1..], key), key);
    }
  }

  /** A strictly sorted sequence is determined by its elements. */
  lemma {:induction false} SortedUnique<T(!new)>(xs: seq<T>, ys: seq<T>, key: T -> seq<int>)
    requires Sorted(xs, key) && Sorted(ys, key)
    requires forall x :: x in xs <==> x in ys
    ensures xs == ys
  {
    assert (xs != [] ==> xs[0] in ys) && (ys != [] ==> ys[0] in xs);
    if xs == [] {
    } else {
      HeadsAgree(xs, ys, key);
      forall x ensures x in xs[1..] <==> x in ys[1..] {
        TailMembers(xs, key, x);
        TailMembers(ys, key, x);
      }
      SortedUnique(xs[1..], ys[1..], key);
      assert xs == [xs[0]] + xs[1..] && ys == [ys[0]] + ys[1..];
    }
  }

  lemma HeadsAgree<T(!new)>(xs: seq<T>, ys: seq<T>, key: T -> seq<int>)
    requires Sorted(xs, key) && Sorted(ys, key)
    requires xs != [] && ys != [] && xs[0] in ys && ys[0] in xs
    ensures xs[0] == ys[0]
  {
    var i :| 0 <= i < |ys| && ys[i] == xs[0];
    var j :| 0 <= j < |xs| && xs[j] == ys[0];
    if i > 0 && j > 0 {
      assert Less(key(ys[0]), key(ys[i])) && Less(key(xs[0]), key(xs[j]));
      LessTotal(key(xs[0]), key(ys[0]));
    }
  }

  lemma TailMembers<T(!new)>(xs: seq<T>, key: T -> seq<int>, x: T)
    requires Sorted(xs, key) && xs != []
    ensures x in xs[1..] <==> x in xs && x != xs[0]
  {
    if x in xs[1..] {
      var i :| 0 <= i < |xs[1..]| && xs[1..][i] == x;
      assert xs[i + 1] == x;
      assert Less(key(xs[0]), key(xs[i + 1]));
      LessTotal(key(xs[0]), key(x));
    }
    if x in xs && x != xs[0] {
      var i :| 0 <= i < |xs| && xs[i] == x;
      assert xs[1..][i - 1] == x;
    }
  }

  /** Sorting forgets the order its input was given in, as long as keys are distinct. */
  lemma SortForgetsOrder<T(!new)>(xs: seq<T>, ys: seq<T>, key: T -> seq<int>)
    requires DistinctKeys(xs, key) && DistinctKeys(ys, key)
    requires forall x :: x in xs <==> x in ys
    ensures Sort(xs, key) == Sort(ys, key)
  {
    SortSorts(xs, key);
    SortSorts(ys, key);
    SortKeeps(xs, key);
    SortKeeps(ys, key);
    SortedUnique(Sort(xs, key), Sort(ys, key), key);
  }

  // ---------- equal keys allowed ----------

  /** What ORDER BY promises: no later element has a smaller key. */
  predicate InOrder<T(!new)>(xs: seq<T>, key: T -> seq<int>) {
    forall i, j | 0 <= i < j < |xs| :: !Less(key(xs[j]), key(xs[i]))
  }

  lemma NotLessTransitive(a: seq<int>, b: seq<int>, c: seq<int>)
    requires !Less(b, a) && !Less(c, b)
    ensures !Less(c, a)
  {
    LessTotal(a, b);
    LessTotal(b, c);
    LessTotal(a, c);
    if Less(a, b) && Less(b, c) { LessTransitive(a, b, c); }
  }

  lemma {:induction false} InsertOrders<T(!new)>(x: T, xs: seq<T>, key: T -> seq<int>)
    requires InOrder(xs, key)
    ensures InOrder(Insert(x, xs, key), key)
  {
    if xs == [] {
    } else if Less(key(x), key(xs[0])) {
      LessTotal(key(x), key(xs[0]));
      forall j | 0 <= j < |xs| ensures !Less(key(xs[j]), key(x)) {
        if j > 0 { NotLessTransitive(key(x), key(xs[0]), key(xs[j])); }
      }
    } else {
      var rest := Insert(x, xs[1..], key);
      InsertOrders(x, xs[1..], key);
      InsertKeeps(x, xs[1..], key);
      forall y | y in rest ensures !Less(key(y), key(xs[0])) {
        assert y in multiset(rest);
        assert y in xs[1..] ==> exists k :: 1 <= k < |xs| && xs[k] == y;
      }
    }
  }

  lemma {:induction false} SortOrders<T(!new)>(xs: seq<T>, key: T -> seq<int>)
    ensures InOrder(Sort(xs, key), key)
  {
    if xs != [] {
      SortOrders(xs[1..], key);
      InsertOrders(xs[0], Sort(xs[1..], key), key);
    }
  }

  function Keys<T>(xs: seq<T>, key: T -> seq<int>): (r: seq<seq<int>>)
    ensures |r| == |xs| && forall i | 0 <= i < |xs| :: r[i] == key(xs[i])
  {
    seq(|xs|, i requires 0 <= i < |xs| => key(xs[i]))
  }

  /** Two ordered arrangements of the same elements differ only among equal keys. */
  lemma {:induction false} OrderedKeysAgree<T(!new)>(xs: seq<T>, ys: seq<T>, key: T -> seq<int>)
    requires InOrder(xs, key) && InOrder(ys, key) && multiset(xs) == multiset(ys)
    ensures |xs| == |ys| && Keys(xs, key) == Keys(ys, key)
  {
    assert |multiset(xs)| == |multiset(ys)|;
    forall i | 0 <= i < |xs| ensures key(xs[i]) == key(ys[i]) {
      KeyNotLess(xs, ys, key, i);
      KeyNotLess(ys, xs, key, i);
      LessTotal(key(xs[i]), key(ys[i]));
    }
  }

  /** The i-th smallest cannot be larger in one arrangement than in the other. */
  lemma KeyNotLess<T(!new)>(xs: seq<T>, ys: seq<T>, key: T -> seq<int>, i: nat)
    requires InOrder(xs, key) && InOrder(ys, key) && multiset(xs) == multiset(ys) && i < |xs| == |ys|
    ensures !Less(key(xs[i]), key(ys[i]))
  {
    if Less(key(xs[i]), key(ys[i])) {
      var small := multiset(xs[..i + 1]);
      forall x | x in small ensures small[x] <= multiset(ys[..i])[x] {
        var k :| 0 <= k < i + 1 && xs[..i + 1][k] == x;
        assert xs[k] == x;
        assert k < i ==> !Less(key(xs[i]), key(xs[k]));
        LessTotal(key(xs[i]), key(ys[i]));
        LessTotal(key(xs[k]), key(xs[i]));
        forall j | i <= j < |ys| ensures ys[j] != x {
          assert j > i ==> !Less(key(ys[j]), key(ys[i]));
          if ys[j] == x {
            NotLessTransitive(key(ys[i]), key(x), key(xs[i]));
          }
        }
        Split(ys, i);
        Split(xs, i + 1);
        assert x !in multiset(ys[i..]);
        assert multiset(xs)[x] == multiset(ys)[x];
      }
      assert small <= multiset(ys[..i]);
      assert |small| == i + 1 && |multiset(ys[..i])| == i;
      SubmultisetSize(small, multiset(ys[..i]));
    }
  }

  lemma Split<T>(xs: seq<T>, i: nat)
    requires i <= |xs|
    ensures multiset(xs) == multiset(xs[..i]) + multiset(xs[i..])
  {
    assert xs == xs[..i] + xs[i..];
  }

  lemma SubmultisetSize<T>(a: multiset<T>, b: multiset<T>)
    requires a <= b
    ensures |a| <= |b|
  {
    assert b == a + (b - a);
  }
}
