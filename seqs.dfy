/** Sequence operations that the SQL clauses of the routes stand for:
    WHERE (Filter), ORDER BY ... DESC (SortDesc) and OFFSET/LIMIT (Page). */
module Seqs {

  /** `a` can be obtained from `b` by deleting elements: the order of what is
      kept is the order in `b`. */
  ghost predicate SubsequenceOf<T>(a: seq<T>, b: seq<T>)
    decreases |b|
  {
    if a == [] then true
    else if b == [] then false
    else (a[0] == b[0] && SubsequenceOf(a[1..], b[1..])) || SubsequenceOf(a, b[1..])
  }

  /** The rows of `s` that satisfy `p` (a WHERE clause). Every element keeps
      its multiplicity when `p` holds of it and disappears otherwise, and the
      survivors stay in their original order. */
  function Filter<T(!new)>(s: seq<T>, p: T -> bool): (r: seq<T>)
    ensures forall x :: multiset(r)[x] == if p(x) then multiset(s)[x] else 0
    ensures forall x :: x in r <==> x in s && p(x)
    ensures SubsequenceOf(r, s)
    ensures |r| <= |s|
  {
    if s == [] then []
    else
      var rest := Filter(s[1..], p);
      assert s == [s[0]] + s[1..];
      if p(s[0]) then
        assert ([s[0]] + rest)[1..] == rest;
        [s[0]] + rest
      else rest
  }

  /** One step of Filter, on a sequence written as head and tail. */
  lemma FilterCons<T(!new)>(x: T, s: seq<T>, p: T -> bool)
    ensures Filter([x] + s, p) == if p(x) then [x] + Filter(s, p) else Filter(s, p)
  {
    var xs := [x] + s;
    assert xs[0] == x && xs[1..] == s;
  }

  lemma {:induction false} FilterConcat<T(!new)>(a: seq<T>, b: seq<T>, p: T -> bool)
    ensures Filter(a + b, p) == Filter(a, p) + Filter(b, p)
  {
    if a == [] {
      assert a + b == b;
    } else {
      var x, rest := a[0], a[1..];
      assert a == [x] + rest;
      assert a + b == [x] + (rest + b);
      FilterConcat(rest, b, p);
      FilterCons(x, rest + b, p);
      FilterCons(x, rest, p);
      if p(x) {
        ConsAssoc(x, Filter(rest, p), Filter(b, p));
      }
    }
  }

  lemma ConsAssoc<T>(x: T, u: seq<T>, v: seq<T>)
    ensures [x] + (u + v) == ([x] + u) + v
  {
  }

  lemma {:induction false} FilterKeepsAll<T(!new)>(s: seq<T>, p: T -> bool)
    requires forall x :: x in s ==> p(x)
    ensures Filter(s, p) == s
  {
    if s != [] {
      FilterKeepsAll(s[1..], p);
    }
  }

  /** Two conditions that agree on every row select the same rows. */
  lemma {:induction false} FilterSame<T(!new)>(s: seq<T>, p: T -> bool, q: T -> bool)
    requires forall x :: x in s ==> p(x) == q(x)
    ensures Filter(s, p) == Filter(s, q)
  {
    if s != [] {
      FilterSame(s[1..], p, q);
    }
  }

  /** `s` is ordered by `key`, largest first (ORDER BY key DESC). */
  ghost predicate SortedDesc<T>(s: seq<T>, key: T -> int) {
    forall i, j :: 0 <= i < j < |s| ==> key(s[i]) >= key(s[j])
  }

  /** The first row of a sorted sequence has the largest key. */
  lemma HeadIsMax<T>(s: seq<T>, key: T -> int)
    requires SortedDesc(s, key) && s != []
    ensures forall x :: x in s ==> key(s[0]) >= key(x)
  {
    forall x | x in s ensures key(s[0]) >= key(x) {
      var i :| 0 <= i < |s| && s[i] == x;
      if i > 0 { assert key(s[0]) >= key(s[i]); }
    }
  }

  /** When no two different rows share a key, a multiset of rows has only one
      order sorted by that key: whatever order a sort picks, it is this one. */
  lemma {:induction false} SortedUnique<T>(s: seq<T>, t: seq<T>, key: T -> int)
    requires SortedDesc(s, key) && SortedDesc(t, key)
    requires multiset(s) == multiset(t)
    requires forall x, y :: x in s && y in s && key(x) == key(y) ==> x == y
    ensures s == t
  {
    assert |s| == |multiset(s)| == |multiset(t)| == |t|;
    if s != [] {
      SameHead(s, t, key);
      SortedTail(s, key);
      SortedTail(t, key);
      SortedUnique(s[1..], t[1..], key);
      assert s == [s[0]] + s[1..] && t == [t[0]] + t[1..];
    }
  }

  /** Two sorted orders of the same rows, with no key shared by different
      rows, start with the same row. */
  lemma SameHead<T>(s: seq<T>, t: seq<T>, key: T -> int)
    requires SortedDesc(s, key) && SortedDesc(t, key) && s != [] && t != []
    requires multiset(s) == multiset(t)
    requires forall x, y :: x in s && y in s && key(x) == key(y) ==> x == y
    ensures s[0] == t[0]
    ensures multiset(s[1..]) == multiset(t[1..])
  {
    var x, y := s[0], t[0];
    assert x in multiset(s) && y in multiset(t);
    assert x in t && y in s;
    HeadIsMax(s, key);
    HeadIsMax(t, key);
    assert key(x) == key(y);
    assert x == y;
    calc {
      multiset(s[1..]);
      { assert s == [x] + s[1..]; }
      multiset(s) - multiset{x};
      { assert t == [x] + t[1..]; }
      multiset(t[1..]);
    }
  }

  /** The tail of a sorted sequence is sorted and holds only its rows. */
  lemma SortedTail<T>(s: seq<T>, key: T -> int)
    requires SortedDesc(s, key) && s != []
    ensures SortedDesc(s[1..], key)
    ensures forall x :: x in s[1..] ==> x in s
  {
    forall i, j | 0 <= i < j < |s[1..]| ensures key(s[1..][i]) >= key(s[1..][j]) {
      assert s[1..][i] == s[i + 1] && s[1..][j] == s[j + 1];
    }
  }

  /** Insert `x` into a descending sequence after every element whose key is
      larger than its own. */
  function Insert<T>(x: T, s: seq<T>, key: T -> int): (r: seq<T>)
    requires SortedDesc(s, key)
    ensures SortedDesc(r, key)
    ensures multiset(r) == multiset(s) + multiset{x}
    ensures |r| == |s| + 1
    ensures r[0] == x || (s != [] && r[0] == s[0])
  {
    if s == [] then [x]
    else if key(x) >= key(s[0]) then
      ConsSorted(x, s, key);
      [x] + s
    else
      var head, tail := s[0], s[1..];
      assert s == [head] + tail;
      SortedTail(s, key);
      var rest := Insert(x, tail, key);
      ConsSorted(head, rest, key);
      assert multiset([head] + rest) == multiset{head} + multiset(tail) + multiset{x};
      [head] + rest
  }

  /** A row whose key is at least the first key of a sorted sequence can be
      put in front of it. */
  lemma ConsSorted<T>(x: T, s: seq<T>, key: T -> int)
    requires SortedDesc(s, key) && s != [] && key(x) >= key(s[0])
    ensures SortedDesc([x] + s, key)
  {
    var r := [x] + s;
    forall i, j | 0 <= i < j < |r| ensures key(r[i]) >= key(r[j]) {
      assert r[j] == s[j - 1];
      if i == 0 {
        assert key(s[0]) >= key(s[j - 1]);
      } else {
        assert r[i] == s[i - 1];
      }
    }
  }

  /** The rows of `s` ordered by `key`, largest first: a permutation of `s`
      that is sorted. */
  function SortDesc<T>(s: seq<T>, key: T -> int): (r: seq<T>)
    ensures SortedDesc(r, key)
    ensures multiset(r) == multiset(s)
    ensures |r| == |s|
  {
    if s == [] then []
    else
      assert s == [s[0]] + s[1..];
      Insert(s[0], SortDesc(s[1..], key), key)
  }

  /** OFFSET `offset` LIMIT `limit`: skip `offset` rows, keep at most `limit`. */
  function Page<T>(s: seq<T>, offset: nat, limit: nat): (r: seq<T>)
    ensures |r| == if offset >= |s| then 0 else if |s| - offset < limit then |s| - offset else limit
    ensures forall i :: 0 <= i < |r| ==> r[i] == s[offset + i]
  {
    if offset >= |s| then []
    else if |s| - offset < limit then s[offset..]
    else s[offset..offset + limit]
  }

  /** A page of a sorted sequence is sorted and holds only rows of it. */
  lemma PageOfSorted<T>(s: seq<T>, offset: nat, limit: nat, key: T -> int)
    requires SortedDesc(s, key)
    ensures SortedDesc(Page(s, offset, limit), key)
    ensures forall x :: x in Page(s, offset, limit) ==> x in s
  {
    var r := Page(s, offset, limit);
    forall x | x in r ensures x in s {
      var i :| 0 <= i < |r| && r[i] == x;
      assert r[i] == s[offset + i];
    }
    forall i, j | 0 <= i < j < |r| ensures key(r[i]) >= key(r[j]) {
      assert r[i] == s[offset + i] && r[j] == s[offset + j];
    }
  }

  /** Two consecutive pages concatenate to the page that spans both: pages
      fetched with offset o, o + a, ... are disjoint and follow the order. */
  lemma PagesAdjacent<T>(s: seq<T>, offset: nat, a: nat, b: nat)
    ensures Page(s, offset, a) + Page(s, offset + a, b) == Page(s, offset, a + b)
  {
    var left, right, whole := Page(s, offset, a), Page(s, offset + a, b), Page(s, offset, a + b);
    assert |left| + |right| == |whole|;
    forall i | 0 <= i < |whole| ensures (left + right)[i] == whole[i] {
      if i >= |left| { assert |left| == a; }
    }
  }
}
