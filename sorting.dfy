/**
 * Ordering of query results and keyword lists: an insertion sort by a total
 * preorder, the `LIMIT`/`slice(0, n)` prefix, and the code-point order on
 * strings that SQLite's BINARY collation gives on UTF-8 text.
 */
module Sorting {

  /** `le` is total and transitive: a valid comparator for a sort. */
  ghost predicate TotalPreorder<T(!new)>(le: (T, T) -> bool) {
    && (forall a, b :: le(a, b) || le(b, a))
    && (forall a, b, c :: le(a, b) && le(b, c) ==> le(a, c))
  }

  ghost predicate SortedBy<T>(s: seq<T>, le: (T, T) -> bool) {
    forall i, j :: 0 <= i < j < |s| ==> le(s[i], s[j])
  }

  /** Puts `x` in front of the first element it does not follow. */
  function Insert<T>(x: T, t: seq<T>, le: (T, T) -> bool): (r: seq<T>)
    ensures |r| == |t| + 1
    ensures multiset(r) == multiset(t) + multiset{x}
  {
    if t == [] || le(x, t[0]) then [x] + t
    else
      var r := [t[0]] + Insert(x, t[1..], le);
      assert t == [t[0]] + t[1..];
      r
  }

  /** An insertion sort: a permutation of `s` ordered by `le`. */
  function SortBy<T>(s: seq<T>, le: (T, T) -> bool): (r: seq<T>)
    ensures |r| == |s|
    ensures multiset(r) == multiset(s)
  {
    if s == [] then []
    else
      assert s == [s[0]] + s[1..];
      Insert(s[0], SortBy(s[1..], le), le)
  }

  lemma {:induction false} InsertSorted<T(!new)>(x: T, t: seq<T>, le: (T, T) -> bool)
    requires TotalPreorder(le)
    requires SortedBy(t, le)
    ensures SortedBy(Insert(x, t, le), le)
    decreases |t|
  {
    if t != [] && !le(x, t[0]) {
      InsertSorted(x, t[1..], le);
      HeadBelowTail(t, le);
      assert le(t[0], x);
      InsertAbove(x, t[1..], le, t[0]);
      ConsSorted(t[0], Insert(x, t[1..], le), le);
    }
  }

  /** The head of a sorted sequence is below every later element. */
  lemma HeadBelowTail<T>(t: seq<T>, le: (T, T) -> bool)
    requires t != [] && SortedBy(t, le)
    ensures forall y :: y in t[1..] ==> le(t[0], y)
  {
    forall y | y in t[1..]
      ensures le(t[0], y)
    {
      var j :| 0 <= j < |t[1..]| && t[1..][j] == y;
      assert t[j + 1] == y;
    }
  }

  /** Inserting an element above `lo` into elements above `lo` keeps them all above it. */
  lemma InsertAbove<T>(x: T, t: seq<T>, le: (T, T) -> bool, lo: T)
    requires le(lo, x) && forall y :: y in t ==> le(lo, y)
    ensures forall y :: y in Insert(x, t, le) ==> le(lo, y)
  {
    forall y | y in Insert(x, t, le)
      ensures le(lo, y)
    {
      assert y in multiset(Insert(x, t, le));
    }
  }

  /** A sorted sequence stays sorted behind an element below all of it. */
  lemma ConsSorted<T>(h: T, rest: seq<T>, le: (T, T) -> bool)
    requires SortedBy(rest, le) && forall y :: y in rest ==> le(h, y)
    ensures SortedBy([h] + rest, le)
  {
    var r := [h] + rest;
    forall i, j | 0 <= i < j < |r|
      ensures le(r[i], r[j])
    {
      assert r[j] == rest[j - 1];
      if i > 0 {
        assert r[i] == rest[i - 1];
      }
    }
  }

  lemma {:induction false} SortBySorted<T(!new)>(s: seq<T>, le: (T, T) -> bool)
    requires TotalPreorder(le)
    ensures SortedBy(SortBy(s, le), le)
    decreases |s|
  {
    if s != [] {
      SortBySorted(s[1..], le);
      InsertSorted(s[0], SortBy(s[1..], le), le);
    }
  }

  /** SQL `LIMIT n` (a negative limit means no limit) and JavaScript `slice(0, n)` for n >= 0. */
  function Take<T>(s: seq<T>, n: int): (r: seq<T>)
    ensures n < 0 ==> r == s
    ensures 0 <= n ==> |r| == if n < |s| then n else |s|
    ensures r == s[..|r|]
  {
    if n < 0 || |s| <= n then s else s[..n]
  }

  /** JavaScript `s.slice(0, n)`: a negative `n` counts back from the end. */
  function SliceTo<T>(s: seq<T>, n: int): (r: seq<T>)
    ensures |r| <= |s| && r == s[..|r|]
    ensures 0 <= n ==> |r| == if n < |s| then n else |s|
    ensures n < 0 ==> |r| == if |s| + n < 0 then 0 else |s| + n
  {
    if 0 <= n then Take(s, n)
    else if |s| + n < 0 then []
    else s[..|s| + n]
  }

  /** No element occurs twice. */
  ghost predicate NoRepeats<T(!new)>(s: seq<T>) {
    forall x :: multiset(s)[x] <= 1
  }

  /** Appending an element not yet present keeps the list free of repeats. */
  lemma NoRepeatsSnoc<T(!new)>(s: seq<T>, x: T)
    requires NoRepeats(s) && x !in s
    ensures NoRepeats(s + [x])
  {
    assert multiset(s + [x]) == multiset(s) + multiset{x};
  }

  lemma NoRepeatsPrefix<T(!new)>(s: seq<T>, n: nat)
    requires NoRepeats(s) && n <= |s|
    ensures NoRepeats(s[..n])
  {
    assert s == s[..n] + s[n..];
    assert multiset(s) == multiset(s[..n]) + multiset(s[n..]);
    forall x
      ensures multiset(s[..n])[x] <= 1
    {
      assert multiset(s[..n])[x] <= multiset(s)[x];
    }
  }

  lemma SameElements<T>(a: seq<T>, b: seq<T>)
    requires multiset(a) == multiset(b)
    ensures forall x :: x in a <==> x in b
  {
    forall x
      ensures x in a <==> x in b
    {
      assert x in a <==> x in multiset(a);
    }
  }

  /** An element absent from a prefix sits past it. */
  lemma PastPrefix<T>(s: seq<T>, n: nat, k: nat)
    requires n <= |s| && k < |s| && s[k] !in s[..n]
    ensures n <= k
  {
  }

  /** SQL `WHERE`: the rows satisfying `p`, in table order. */
  function Filter<T(!new)>(s: seq<T>, p: T -> bool): (r: seq<T>)
    ensures |r| <= |s|
    ensures forall x :: x in r <==> x in s && p(x)
    ensures multiset(r) <= multiset(s)
  {
    if s == [] then []
    else
      assert s == [s[0]] + s[1..];
      if p(s[0]) then [s[0]] + Filter(s[1..], p) else Filter(s[1..], p)
  }

  /** Filtering keeps every ordering the table already had. */
  lemma {:induction false} FilterSorted<T(!new)>(s: seq<T>, p: T -> bool, le: (T, T) -> bool)
    requires SortedBy(s, le)
    ensures SortedBy(Filter(s, p), le)
    decreases |s|
  {
    if s != [] {
      var rest := Filter(s[1..], p);
      assert SortedBy(s[1..], le);
      FilterSorted(s[1..], p, le);
      if p(s[0]) {
        var r := [s[0]] + rest;
        forall i, j | 0 <= i < j < |r|
          ensures le(r[i], r[j])
        {
          if i == 0 {
            assert r[j] in s[1..];
            var k :| 0 <= k < |s[1..]| && s[1..][k] == r[j];
            assert s[k + 1] == r[j];
          } else {
            assert r[i] == rest[i - 1] && r[j] == rest[j - 1];
          }
        }
      }
    }
  }

  lemma AppendAssoc<T>(a: seq<T>, b: seq<T>, c: seq<T>)
    ensures (a + b) + c == a + (b + c)
  {
  }

  /** A sequence is its prefix followed by the rest. */
  lemma TakeDrop<T>(s: seq<T>, n: nat)
    requires n <= |s|
    ensures s == s[..n] + s[n..]
  {
  }

  /** A non-empty sequence is its head followed by its tail. */
  lemma HeadTail<T>(s: seq<T>)
    requires |s| >= 1
    ensures s == [s[0]] + s[1..]
  {
  }

  /** A prefix one element longer. */
  lemma PrefixSnoc<T>(s: seq<T>, k: nat)
    requires k < |s|
    ensures s[..k + 1] == s[..k] + [s[k]]
  {
  }

  /** `array.map(f)`. */
  function Map<A, B>(s: seq<A>, f: A -> B): (r: seq<B>)
    ensures |r| == |s|
    ensures forall i :: 0 <= i < |s| ==> r[i] == f(s[i])
  {
    if s == [] then [] else Map(s[..|s| - 1], f) + [f(s[|s| - 1])]
  }

  lemma MapSnoc<A, B>(s: seq<A>, x: A, f: A -> B)
    ensures Map(s + [x], f) == Map(s, f) + [f(x)]
  {
    assert (s + [x])[..|s|] == s;
  }

  /** Filtering one more row appends it when it matches. */
  lemma {:induction false} FilterSnoc<T(!new)>(s: seq<T>, x: T, p: T -> bool)
    ensures Filter(s + [x], p) == Filter(s, p) + (if p(x) then [x] else [])
    decreases |s|
  {
    if s == [] {
      assert [] + [x] == [x];
    } else {
      assert (s + [x])[1..] == s[1..] + [x];
      FilterSnoc(s[1..], x, p);
    }
  }

  /** The negation of a row condition, `WHERE NOT p`. */
  function Not<T>(p: T -> bool): T -> bool {
    x => !p(x)
  }

  /** Every row lands on exactly one side of a `WHERE` and of its negation:
      the rows a `DELETE ... WHERE p` removes number |s| minus the rows it keeps. */
  lemma {:induction false} FilterSplit<T(!new)>(s: seq<T>, p: T -> bool)
    ensures |Filter(s, p)| + |Filter(s, Not(p))| == |s|
    decreases |s|
  {
    if s != [] {
      FilterSplit(s[1..], p);
    }
  }

  /** Two conditions that agree on every row select the same rows. */
  lemma {:induction false} FilterCongruent<T(!new)>(s: seq<T>, p: T -> bool, q: T -> bool)
    requires forall x :: x in s ==> p(x) == q(x)
    ensures Filter(s, p) == Filter(s, q)
    decreases |s|
  {
    if s != [] {
      assert forall x :: x in s[1..] ==> x in s;
      FilterCongruent(s[1..], p, q);
    }
  }

  /** `ORDER BY ... LIMIT n`: the first `n` rows of `s` sorted by `le`. */
  function Top<T>(s: seq<T>, le: (T, T) -> bool, n: int): (r: seq<T>)
    ensures multiset(r) <= multiset(s)
    ensures 0 <= n ==> |r| == if n < |s| then n else |s|
    ensures n < 0 || |s| <= n ==> multiset(r) == multiset(s)
  {
    var sorted := SortBy(s, le);
    var r := Take(sorted, n);
    assert sorted == r + sorted[|r|..];
    assert multiset(sorted) == multiset(r) + multiset(sorted[|r|..]);
    r
  }

  /** The rows `Top` returns are ordered, come from `s`, and no row it leaves out
      ranks ahead of a row it keeps. */
  lemma TopIsTop<T(!new)>(s: seq<T>, le: (T, T) -> bool, n: int)
    requires TotalPreorder(le)
    ensures var r := Top(s, le, n);
      && SortedBy(r, le)
      && (forall x :: x in r ==> x in s)
      && (forall x :: x in s && x !in r ==> forall i :: 0 <= i < |r| ==> le(r[i], x))
  {
    var sorted := SortBy(s, le);
    var r := Top(s, le, n);
    SortBySorted(s, le);
    SameElements(s, sorted);
    assert r == sorted[..|r|];
    forall x | x in r
      ensures x in s
    {
      assert x in multiset(r);
    }
    forall x | x in s && x !in r
      ensures forall i :: 0 <= i < |r| ==> le(r[i], x)
    {
      var k :| 0 <= k < |sorted| && sorted[k] == x;
      PastPrefix(sorted, |r|, k);
    }
  }

  /** Lexicographic order on code points, which equals SQLite's byte order on UTF-8. */
  predicate StrLe(a: string, b: string)
  {
    a == [] || (b != [] && (a[0] < b[0] || (a[0] == b[0] && StrLe(a[1..], b[1..]))))
  }

  lemma {:induction false} StrLeTotal(a: string, b: string)
    ensures StrLe(a, b) || StrLe(b, a)
    decreases |a|
  {
    if a != [] && b != [] && a[0] == b[0] {
      StrLeTotal(a[1..], b[1..]);
    }
  }

  lemma {:induction false} StrLeTransitive(a: string, b: string, c: string)
    requires StrLe(a, b) && StrLe(b, c)
    ensures StrLe(a, c)
    decreases |a|
  {
    if a != [] && b != [] && c != [] && a[0] == b[0] && b[0] == c[0] {
      StrLeTransitive(a[1..], b[1..], c[1..]);
    }
  }
}
