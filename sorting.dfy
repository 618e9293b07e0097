/** `[...xs].sort((a, b) => key(b) - key(a))`: a stable sort into descending
    order of a numeric key, as `Array.prototype.sort` performs it. */
module Sorting {
  import opened Seqs

  predicate SortedDesc<T>(s: seq<T>, key: T -> real)
  {
    forall i, j :: 0 <= i < j < |s| ==> key(s[i]) >= key(s[j])
  }

  /** Inserts `x` before the first element whose key is not above its own. */
  function InsertDesc<T>(x: T, s: seq<T>, key: T -> real): (r: seq<T>)
    ensures multiset(r) == multiset(s) + multiset{x}
    ensures |r| == |s| + 1
  {
    if s == [] then [x]
    else if key(x) >= key(s[0]) then [x] + s
    else
      assert s == [s[0]] + s[1..];
      [s[0]] + InsertDesc(x, s[1..], key)
  }

  /** A head whose key dominates a descending tail gives a descending sequence. */
  lemma ConsSorted<T>(h: T, t: seq<T>, key: T -> real)
    requires SortedDesc(t, key)
    requires forall y :: y in t ==> key(h) >= key(y)
    ensures SortedDesc([h] + t, key)
  {
    var r := [h] + t;
    forall i, j | 0 <= i < j < |r|
      ensures key(r[i]) >= key(r[j])
    {
      assert r[j] == t[j - 1];
      if i > 0 {
        assert r[i] == t[i - 1];
      } else {
        assert r[j] in t;
      }
    }
  }

  /** The tail of a descending sequence is descending. */
  lemma TailSorted<T>(s: seq<T>, key: T -> real)
    requires s != [] && SortedDesc(s, key)
    ensures SortedDesc(s[1..], key)
    ensures forall y :: y in s[1..] ==> key(s[0]) >= key(y)
  {
    var tail := s[1..];
    forall i, j | 0 <= i < j < |tail|
      ensures key(tail[i]) >= key(tail[j])
    {
      assert tail[i] == s[i + 1] && tail[j] == s[j + 1];
    }
    forall y | y in tail
      ensures key(s[0]) >= key(y)
    {
      var j :| 0 <= j < |tail| && tail[j] == y;
      assert tail[j] == s[j + 1];
    }
  }

  /** Insertion keeps a descending sequence descending. */
  lemma {:induction false} InsertDescSorted<T>(x: T, s: seq<T>, key: T -> real)
    requires SortedDesc(s, key)
    ensures SortedDesc(InsertDesc(x, s, key), key)
  {
    if s == [] {
    } else if key(x) >= key(s[0]) {
      forall y | y in s
        ensures key(x) >= key(y)
      {
        var j :| 0 <= j < |s| && s[j] == y;
        if j > 0 {
          assert key(s[0]) >= key(s[j]);
        }
      }
      ConsSorted(x, s, key);
    } else {
      var tail := s[1..];
      TailSorted(s, key);
      InsertDescSorted(x, tail, key);
      var t := InsertDesc(x, tail, key);
      forall y | y in t
        ensures key(s[0]) >= key(y)
      {
        assert y in multiset(t);
        assert y == x || y in multiset(tail);
      }
      ConsSorted(s[0], t, key);
    }
  }

  function SortDesc<T>(s: seq<T>, key: T -> real): (r: seq<T>)
    ensures multiset(r) == multiset(s)
    ensures |r| == |s|
  {
    if s == [] then []
    else
      assert s == [s[0]] + s[1..];
      InsertDesc(s[0], SortDesc(s[1..], key), key)
  }

  /** The sorted copy is in descending order of `key`. */
  lemma {:induction false} SortDescSorted<T>(s: seq<T>, key: T -> real)
    ensures SortedDesc(SortDesc(s, key), key)
  {
    if s != [] {
      SortDescSorted(s[1..], key);
      InsertDescSorted(s[0], SortDesc(s[1..], key), key);
    }
  }

  /** The elements whose key equals `k`. */
  function KeyIs<T>(key: T -> real, k: real): T -> bool
  {
    x => key(x) == k
  }

  /** Putting a head before two sequences whose filterings differ by a
      prefix `lead` keeps that difference, when the head is not kept or
      there is no prefix. */
  lemma ConsFilter<T>(h: T, t: seq<T>, u: seq<T>, p: T -> bool, lead: seq<T>)
    requires Filter(t, p) == lead + Filter(u, p)
    requires lead == [] || !p(h)
    ensures Filter([h] + t, p) == lead + Filter([h] + u, p)
  {
    FilterCons(h, t, p);
    FilterCons(h, u, p);
    if lead == [] {
      assert Filter(t, p) == Filter(u, p);
    } else {
      assert Filter([h] + t, p) == Filter(t, p);
      assert Filter([h] + u, p) == Filter(u, p);
    }
  }

  lemma {:induction false} InsertDescTies<T>(x: T, s: seq<T>, key: T -> real, k: real)
    requires SortedDesc(s, key)
    ensures Filter(InsertDesc(x, s, key), KeyIs(key, k))
         == (if key(x) == k then [x] else []) + Filter(s, KeyIs(key, k))
  {
    var p := KeyIs(key, k);
    if s == [] {
    } else if key(x) >= key(s[0]) {
      FilterAppend([x], s, p);
    } else {
      var tail := s[1..];
      TailSorted(s, key);
      InsertDescTies(x, tail, key, k);
      ConsFilter(s[0], InsertDesc(x, tail, key), tail, p, if key(x) == k then [x] else []);
      assert s == [s[0]] + tail;
    }
  }

  /** Stability: the elements with one key value stay in their input order. */
  lemma {:induction false} SortDescStable<T>(s: seq<T>, key: T -> real, k: real)
    ensures Filter(SortDesc(s, key), KeyIs(key, k)) == Filter(s, KeyIs(key, k))
  {
    if s != [] {
      SortDescStable(s[1..], key, k);
      SortDescSorted(s[1..], key);
      InsertDescTies(s[0], SortDesc(s[1..], key), key, k);
    }
  }

  /** In a descending sequence, a copy of `x` after the cut at `m` has a key
      no larger than any element before it. */
  lemma PrefixDominates<T>(t: seq<T>, key: T -> real, m: nat, x: T, y: T)
    requires SortedDesc(t, key) && m <= |t|
    requires multiset(t[..m])[x] < multiset(t)[x]
    requires y in t[..m]
    ensures key(y) >= key(x)
  {
    var top, rest := t[..m], t[m..];
    assert t == top + rest;
    assert multiset(t) == multiset(top) + multiset(rest);
    assert x in multiset(rest);
    var j :| 0 <= j < |rest| && rest[j] == x;
    var i :| 0 <= i < |top| && top[i] == y;
    assert top[i] == t[i] && rest[j] == t[m + j];
  }

  /** A copy left out of the first `n` of the sorted copy has a key no
      larger than any element that was kept: fewer occurrences of `x` kept
      than the input holds means one of them sits after the cut. */
  lemma TakeSortedIsTop<T>(s: seq<T>, key: T -> real, n: nat, x: T, y: T)
    requires multiset(Take(SortDesc(s, key), n))[x] < multiset(s)[x]
    requires y in Take(SortDesc(s, key), n)
    ensures key(y) >= key(x)
  {
    var sorted := SortDesc(s, key);
    var top := Take(sorted, n);
    SortDescSorted(s, key);
    assert top == sorted[..|top|];
    PrefixDominates(sorted, key, |top|, x, y);
  }

  /** The first `n` of the sorted copy: still sorted, drawn from the input,
      and holding the largest keys, counting every copy. */
  lemma TakeSorted<T>(s: seq<T>, key: T -> real, n: nat)
    ensures SortedDesc(Take(SortDesc(s, key), n), key)
    ensures multiset(Take(SortDesc(s, key), n)) <= multiset(s)
    ensures forall x, y ::
              multiset(Take(SortDesc(s, key), n))[x] < multiset(s)[x] && y in Take(SortDesc(s, key), n) ==>
                key(y) >= key(x)
  {
    var sorted := SortDesc(s, key);
    var top := Take(sorted, n);
    SortDescSorted(s, key);
    assert sorted == top + sorted[|top|..];
    assert SortedDesc(top, key) by {
      forall i, j | 0 <= i < j < |top| ensures key(top[i]) >= key(top[j]) {
        assert top[i] == sorted[i] && top[j] == sorted[j];
      }
    }
    forall x, y | multiset(top)[x] < multiset(s)[x] && y in top ensures key(y) >= key(x) {
      TakeSortedIsTop(s, key, n, x, y);
    }
  }
}
