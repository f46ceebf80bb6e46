/** Generic facts about sequences: filtering (Array.prototype.filter), subsequences,
    duplicates and joining (Array.prototype.join). */
module Seqs {

  /** `a` is `b` with some elements deleted: the relative order of what `a` keeps is
      the order in `b`. */
  predicate IsSubsequence<T(==)>(a: seq<T>, b: seq<T>)
    decreases |b|
  {
    if a == [] then true
    else if b == [] then false
    else if a[0] == b[0] then IsSubsequence(a[1..], b[1..])
    else IsSubsequence(a, b[1..])
  }

  /** No element occurs twice. */
  predicate Distinct<T(==)>(s: seq<T>) {
    forall i, j | 0 <= i < j < |s| :: s[i] != s[j]
  }

  /** The elements of `s` that satisfy `p`, in their original order. */
  function Filter<T(==)>(s: seq<T>, p: T -> bool): (r: seq<T>)
    ensures |r| <= |s|
    ensures forall x | x in r :: x in s && p(x)
  {
    if s == [] then []
    else
      var rest := Filter(s[1..], p);
      if p(s[0]) then [s[0]] + rest else rest
  }

  /** The filter holds exactly the occurrences in `s` of the elements satisfying
      `p`, no more and no fewer. */
  lemma {:induction false} FilterCounts<T>(s: seq<T>, p: T -> bool)
    ensures forall x :: multiset(Filter(s, p))[x] == if p(x) then multiset(s)[x] else 0
  {
    if s != [] {
      assert s == [s[0]] + s[1..];
      FilterCounts(s[1..], p);
    }
  }

  /** The filter keeps the relative order of what it keeps. */
  lemma {:induction false} FilterIsSubsequence<T>(s: seq<T>, p: T -> bool)
    ensures IsSubsequence(Filter(s, p), s)
  {
    if s != [] {
      FilterIsSubsequence(s[1..], p);
      var rest := Filter(s[1..], p);
      if p(s[0]) {
        assert ([s[0]] + rest)[1..] == rest;
      } else {
        SubsequenceOfTail(rest, s);
      }
    }
  }

  /** A subsequence of the tail is a subsequence of the whole. */
  lemma {:induction false} SubsequenceOfTail<T>(a: seq<T>, b: seq<T>)
    requires b != [] && IsSubsequence(a, b[1..])
    ensures IsSubsequence(a, b)
    decreases |b|, 0
  {
    if a != [] && a[0] == b[0] {
      SubsequenceDropsHead(a, b[1..]);
    }
  }

  /** Deleting the first element of a subsequence leaves a subsequence. */
  lemma {:induction false} SubsequenceDropsHead<T>(a: seq<T>, c: seq<T>)
    requires a != [] && IsSubsequence(a, c)
    ensures IsSubsequence(a[1..], c)
    decreases |c|, 1
  {
    if a[0] != c[0] {
      SubsequenceDropsHead(a, c[1..]);
    }
    if a[1..] != [] {
      SubsequenceOfTail(a[1..], c);
    }
  }

  /** Filtering distributes over concatenation. */
  lemma {:induction false} FilterConcat<T>(a: seq<T>, b: seq<T>, p: T -> bool)
    ensures Filter(a + b, p) == Filter(a, p) + Filter(b, p)
  {
    if a == [] {
      assert a + b == b;
    } else {
      assert (a + b)[0] == a[0];
      assert (a + b)[1..] == a[1..] + b;
      FilterConcat(a[1..], b, p);
    }
  }

  /** Filtering twice by the same test is filtering once. */
  lemma {:induction false} FilterIdempotent<T>(s: seq<T>, p: T -> bool)
    ensures Filter(Filter(s, p), p) == Filter(s, p)
  {
    FilterKeepsAll(Filter(s, p), p);
  }

  /** A filter that every element passes changes nothing. */
  lemma {:induction false} FilterKeepsAll<T>(s: seq<T>, p: T -> bool)
    requires forall x | x in s :: p(x)
    ensures Filter(s, p) == s
  {
    if s != [] {
      assert forall x | x in s[1..] :: x in s;
      FilterKeepsAll(s[1..], p);
    }
  }

  /** A filter that no element passes yields nothing. */
  lemma {:induction false} FilterDropsAll<T>(s: seq<T>, p: T -> bool)
    requires forall x | x in s :: !p(x)
    ensures Filter(s, p) == []
  {
    if s != [] {
      assert forall x | x in s[1..] :: x in s;
      FilterDropsAll(s[1..], p);
    }
  }

  /** Two complementary filters split a sequence between them. */
  lemma {:induction false} FilterComplements<T>(s: seq<T>, p: T -> bool, q: T -> bool)
    requires forall x | x in s :: p(x) != q(x)
    ensures multiset(Filter(s, p)) + multiset(Filter(s, q)) == multiset(s)
  {
    if s != [] {
      assert s == [s[0]] + s[1..];
      assert forall x | x in s[1..] :: x in s;
      FilterComplements(s[1..], p, q);
    }
  }

  /** A sequence is free of duplicates exactly when every element occurs once. */
  lemma {:induction false} DistinctIffSingleOccurrences<T>(s: seq<T>)
    ensures Distinct(s) <==> forall x | x in s :: multiset(s)[x] == 1
  {
    if Distinct(s) {
      DistinctOccursOnce(s);
    } else {
      var i, j :| 0 <= i < j < |s| && s[i] == s[j];
      assert s == s[..j] + [s[j]] + s[j + 1..];
      assert s[i] in s[..j];
      assert multiset(s)[s[j]] == multiset(s[..j])[s[j]] + 1 + multiset(s[j + 1..])[s[j]];
    }
  }

  lemma {:induction false} DistinctOccursOnce<T>(s: seq<T>)
    requires Distinct(s)
    ensures forall x | x in s :: multiset(s)[x] == 1
  {
    if s != [] {
      assert s == [s[0]] + s[1..];
      assert Distinct(s[1..]) by {
        forall i, j | 0 <= i < j < |s[1..]| ensures s[1..][i] != s[1..][j] {
          assert s[1..][i] == s[i + 1] && s[1..][j] == s[j + 1];
        }
      }
      DistinctOccursOnce(s[1..]);
      assert s[0] !in s[1..] by {
        forall k | 0 <= k < |s| - 1 ensures s[1..][k] != s[0] {
          assert s[1..][k] == s[k + 1];
        }
      }
    }
  }

  /** Rearranging a sequence keeps it free of duplicates. */
  lemma DistinctPermutation<T>(a: seq<T>, b: seq<T>)
    requires multiset(a) == multiset(b)
    requires Distinct(a)
    ensures Distinct(b)
  {
    DistinctIffSingleOccurrences(a);
    DistinctIffSingleOccurrences(b);
    forall x | x in b ensures multiset(b)[x] == 1 {
      assert x in multiset(b);
    }
  }

  /** Array.prototype.join: the parts with `sep` between neighbours. */
  function Join<T>(parts: seq<seq<T>>, sep: seq<T>): seq<T> {
    if |parts| == 0 then []
    else if |parts| == 1 then parts[0]
    else parts[0] + sep + Join(parts[1..], sep)
  }

  /** `x` occurs as a contiguous block of `s`. */
  predicate IsInfix<T(==)>(x: seq<T>, s: seq<T>) {
    exists k | 0 <= k <= |s| - |x| :: OccursAt(x, s, k)
  }

  /** `x` occurs in `s` starting at offset `k`. */
  predicate OccursAt<T(==)>(x: seq<T>, s: seq<T>, k: int)
    requires 0 <= k <= |s| - |x|
  {
    s[k..k + |x|] == x
  }

  /** An infix of `mid` is an infix of anything that contains `mid`. */
  lemma InfixWithin<T>(x: seq<T>, pre: seq<T>, mid: seq<T>, post: seq<T>)
    requires IsInfix(x, mid)
    ensures IsInfix(x, pre + mid + post)
  {
    var k :| 0 <= k <= |mid| - |x| && OccursAt(x, mid, k);
    var s := pre + mid + post;
    assert s[|pre| + k..|pre| + k + |x|] == mid[k..k + |x|];
    assert OccursAt(x, s, |pre| + k);
  }

  /** A sequence is an infix of itself. */
  lemma InfixSelf<T>(x: seq<T>)
    ensures IsInfix(x, x)
  {
    assert OccursAt(x, x, 0);
  }

  /** An infix of `a` is an infix of `a + b`. */
  lemma InfixLeft<T>(x: seq<T>, a: seq<T>, b: seq<T>)
    requires IsInfix(x, a)
    ensures IsInfix(x, a + b)
  {
    InfixWithin(x, [], a, b);
    assert [] + a + b == a + b;
  }

  /** An infix of `b` is an infix of `a + b`. */
  lemma InfixRight<T>(x: seq<T>, a: seq<T>, b: seq<T>)
    requires IsInfix(x, b)
    ensures IsInfix(x, a + b)
  {
    InfixWithin(x, a, b, []);
    assert a + b + [] == a + b;
  }

  /** `x` is an infix of an infix of `z`. */
  lemma InfixTransitive<T>(x: seq<T>, y: seq<T>, z: seq<T>)
    requires IsInfix(x, y) && IsInfix(y, z)
    ensures IsInfix(x, z)
  {
    var k :| 0 <= k <= |y| - |x| && OccursAt(x, y, k);
    var m :| 0 <= m <= |z| - |y| && OccursAt(y, z, m);
    forall t | 0 <= t < |x| ensures z[m + k + t] == x[t] {
      assert x[t] == y[k + t] == z[m..m + |y|][k + t];
    }
    assert z[m + k..m + k + |x|] == x;
    assert OccursAt(x, z, m + k);
  }

  /** Regrouping a four-part concatenation. */
  lemma AppendThree<T>(a: seq<T>, x: seq<T>, y: seq<T>, z: seq<T>)
    ensures a + x + y + z == a + (x + y + z)
  {
  }

  /** `b` is the tail of `a + b`. */
  lemma EndsWith<T>(a: seq<T>, b: seq<T>)
    ensures |a + b| >= |b| && (a + b)[|a + b| - |b|..] == b
  {
  }

  /** Concatenation is associative. */
  lemma ConcatAssociates<T>(a: seq<T>, b: seq<T>, c: seq<T>)
    ensures a + b + c == a + (b + c)
  {
  }

  /** Every part occurs, contiguously, in the joined sequence. */
  lemma {:induction false} JoinContainsParts<T>(parts: seq<seq<T>>, sep: seq<T>, i: nat)
    requires i < |parts|
    ensures IsInfix(parts[i], Join(parts, sep))
  {
    var j := Join(parts, sep);
    if |parts| == 1 || i == 0 {
      assert OccursAt(parts[0], j, 0);
    } else {
      JoinContainsParts(parts[1..], sep, i - 1);
      var rest := Join(parts[1..], sep);
      var k :| 0 <= k <= |rest| - |parts[i]| && OccursAt(parts[i], rest, k);
      var off := |parts[0]| + |sep|;
      assert j == parts[0] + sep + rest;
      assert j[off + k..off + k + |parts[i]|] == rest[k..k + |parts[i]|];
      assert OccursAt(parts[i], j, off + k);
    }
  }

  /** `s` is in ascending order of `key`. */
  predicate SortedBy<T>(s: seq<T>, key: T -> int) {
    forall i, j | 0 <= i < j < |s| :: key(s[i]) <= key(s[j])
  }

  /** `x` inserted before the first element of `s` whose key is not smaller. */
  function InsertBy<T>(x: T, s: seq<T>, key: T -> int): (r: seq<T>)
    ensures multiset(r) == multiset(s) + multiset{x}
    ensures SortedBy(s, key) ==> SortedBy(r, key)
  {
    if s == [] then [x]
    else if key(x) <= key(s[0]) then [x] + s
    else
      var rest := InsertBy(x, s[1..], key);
      assert s == [s[0]] + s[1..];
      InsertedAfterHead(x, s, rest, key);
      [s[0]] + rest
  }

  lemma InsertedAfterHead<T>(x: T, s: seq<T>, rest: seq<T>, key: T -> int)
    requires s != [] && key(s[0]) < key(x)
    requires multiset(rest) == multiset(s[1..]) + multiset{x}
    requires SortedBy(s, key) ==> SortedBy(s[1..], key) ==> SortedBy(rest, key)
    ensures SortedBy(s, key) ==> SortedBy([s[0]] + rest, key)
  {
    if SortedBy(s, key) {
      assert SortedBy(s[1..], key) by {
        forall i, j | 0 <= i < j < |s[1..]| ensures key(s[1..][i]) <= key(s[1..][j]) {
          assert s[1..][i] == s[i + 1] && s[1..][j] == s[j + 1];
        }
      }
      var r := [s[0]] + rest;
      forall m | 0 <= m < |rest| ensures key(s[0]) <= key(rest[m]) {
        assert rest[m] in multiset(rest);
        if rest[m] != x {
          assert rest[m] in multiset(s[1..]);
          var k :| 0 <= k < |s[1..]| && s[1..][k] == rest[m];
          assert s[k + 1] == rest[m];
        }
      }
      forall i, j | 0 <= i < j < |r| ensures key(r[i]) <= key(r[j]) {
        assert r[j] == rest[j - 1];
        if i > 0 { assert r[i] == rest[i - 1]; }
      }
    }
  }

  /** Insertion sort by `key`: a rearrangement of `s` in ascending key order. */
  function SortBy<T>(s: seq<T>, key: T -> int): (r: seq<T>)
    ensures multiset(r) == multiset(s)
    ensures SortedBy(r, key)
  {
    if s == [] then []
    else
      assert s == [s[0]] + s[1..];
      InsertBy(s[0], SortBy(s[1..], key), key)
  }
}
