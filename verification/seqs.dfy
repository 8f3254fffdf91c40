/** Generic sequence operations the store's queries are built from: SQL's
    `WHERE` (Filter), `ORDER BY` (SortBy, a stable insertion sort on an integer
    key) and `LIMIT` (Prefix). */
module Seqs {

  /** The elements of `s` that satisfy `keep`, in their original order. */
  function Filter<T(!new)>(s: seq<T>, keep: T -> bool): (r: seq<T>)
    ensures |r| <= |s|
    ensures forall x :: x in r <==> x in s && keep(x)
    ensures multiset(r) <= multiset(s)
  {
    if |s| == 0 then []
    else
      assert s == [s[0]] + s[1..];
      if keep(s[0]) then [s[0]] + Filter(s[1..], keep) else Filter(s[1..], keep)
  }

  /** Filtering an extended sequence extends the filtered sequence. */
  lemma {:induction false} FilterAppend<T(!new)>(s: seq<T>, x: T, keep: T -> bool)
    ensures Filter(s + [x], keep) == Filter(s, keep) + (if keep(x) then [x] else [])
    decreases |s|
  {
    if |s| == 0 {
      assert s + [x] == [x];
    } else {
      assert (s + [x])[1..] == s[1..] + [x];
      FilterAppend(s[1..], x, keep);
    }
  }

  /** Two appends in a row keep the original as a prefix, followed by the two
      appended elements. */
  lemma AppendTwice<T>(a: seq<T>, x: T, y: T, b: seq<T>, c: seq<T>)
    requires b == a + [x] && c == b + [y]
    ensures |c| == |a| + 2 && c[..|a|] == a && c[|a|] == x && c[|a| + 1] == y
  {
    assert c == a + [x, y];
  }

  /** Filtering a concatenation filters each part. */
  lemma {:induction false} FilterConcat<T(!new)>(a: seq<T>, b: seq<T>, keep: T -> bool)
    ensures Filter(a + b, keep) == Filter(a, keep) + Filter(b, keep)
    decreases |a|
  {
    if |a| == 0 {
      assert a + b == b;
    } else {
      assert (a + b)[1..] == a[1..] + b;
      FilterConcat(a[1..], b, keep);
    }
  }

  /** When `keep` rejects everything outside `s[i..j]`, filtering `s`
      filters that piece. */
  lemma FilterOfMiddle<T(!new)>(s: seq<T>, i: nat, j: nat, keep: T -> bool)
    requires i <= j <= |s|
    requires forall k :: 0 <= k < i ==> !keep(s[k])
    requires forall k :: j <= k < |s| ==> !keep(s[k])
    ensures Filter(s, keep) == Filter(s[i..j], keep)
  {
    var front := s[..j];
    assert Filter(s, keep) == Filter(front, keep) by {
      FilterSkipsRejectedTail(s, j, keep);
    }
    assert Filter(front, keep) == Filter(front[i..], keep) by {
      FilterSkipsRejected(front, i, keep);
    }
    assert front[i..] == s[i..j];
  }

  /** Trailing elements that `keep` rejects do not show in the filter. */
  lemma FilterSkipsRejectedTail<T(!new)>(s: seq<T>, n: nat, keep: T -> bool)
    requires n <= |s| && forall k :: n <= k < |s| ==> !keep(s[k])
    ensures Filter(s, keep) == Filter(s[..n], keep)
  {
    var tail := s[n..];
    assert Filter(tail, keep) == [] by {
      forall k | 0 <= k < |tail|
        ensures !keep(tail[k])
      {
        assert tail[k] == s[n + k];
      }
      FilterNoneKept(tail, keep);
    }
    assert Filter(s[..n] + tail, keep) == Filter(s[..n], keep) by {
      FilterDropsEmptyTail(s[..n], tail, keep);
    }
    assert s == s[..n] + tail;
  }

  /** A tail `keep` rejects entirely adds nothing to the filter. */
  lemma FilterDropsEmptyTail<T(!new)>(a: seq<T>, b: seq<T>, keep: T -> bool)
    requires Filter(b, keep) == []
    ensures Filter(a + b, keep) == Filter(a, keep)
  {
    FilterConcat(a, b, keep);
    assert Filter(a, keep) + [] == Filter(a, keep);
  }

  /** Nothing is kept when `keep` rejects every element. */
  lemma {:induction false} FilterNoneKept<T(!new)>(s: seq<T>, keep: T -> bool)
    requires forall k :: 0 <= k < |s| ==> !keep(s[k])
    ensures Filter(s, keep) == []
    decreases |s|
  {
    if |s| > 0 {
      assert forall k :: 0 <= k < |s| - 1 ==> s[1..][k] == s[k + 1];
      FilterNoneKept(s[1..], keep);
    }
  }

  /** A slice holds no element more often than the whole sequence. */
  lemma SliceIsSubMultiset<T>(s: seq<T>, i: nat, j: nat)
    requires i <= j <= |s|
    ensures multiset(s[i..j]) <= multiset(s)
  {
    assert s == s[..i] + s[i..j] + s[j..];
  }

  /** Leading elements that `keep` rejects do not show in the filter. */
  lemma {:induction false} FilterSkipsRejected<T(!new)>(s: seq<T>, n: nat, keep: T -> bool)
    requires n <= |s| && forall k :: 0 <= k < n ==> !keep(s[k])
    ensures Filter(s, keep) == Filter(s[n..], keep)
    decreases n
  {
    if n > 0 {
      assert s[1..][n - 1..] == s[n..];
      FilterSkipsRejected(s[1..], n - 1, keep);
    }
  }

  ghost predicate StrictlyIncreasing<T>(s: seq<T>, key: T -> int) {
    forall i, j :: 0 <= i < j < |s| ==> key(s[i]) < key(s[j])
  }

  /** A filtered sequence is a subsequence, so it keeps a strict key order. */
  lemma {:induction false} FilterKeepsIncreasing<T(!new)>(s: seq<T>, keep: T -> bool, key: T -> int)
    requires StrictlyIncreasing(s, key)
    ensures StrictlyIncreasing(Filter(s, keep), key)
    decreases |s|
  {
    if |s| > 0 {
      FilterKeepsIncreasing(s[1..], keep, key);
      var rest := Filter(s[1..], keep);
      forall y | y in rest
        ensures key(s[0]) < key(y)
      {
        var j :| 0 <= j < |s[1..]| && s[1..][j] == y;
        assert s[j + 1] == y;
      }
    }
  }

  /** Appending an element whose key exceeds the last key keeps a strict order. */
  lemma AppendKeepsIncreasing<T>(s: seq<T>, x: T, key: T -> int)
    requires StrictlyIncreasing(s, key)
    requires |s| > 0 ==> key(s[|s| - 1]) < key(x)
    ensures StrictlyIncreasing(s + [x], key)
  {
    forall i, j | 0 <= i < j < |s| + 1
      ensures key((s + [x])[i]) < key((s + [x])[j])
    {
      if j == |s| && i < |s| - 1 {
        assert key(s[i]) < key(s[|s| - 1]);
      }
    }
  }

  /** In a strictly increasing sequence the last key bounds every key. */
  lemma LastIsLargest<T>(s: seq<T>, key: T -> int, y: T)
    requires StrictlyIncreasing(s, key) && y in s
    ensures key(y) <= key(s[|s| - 1])
  {
    var j :| 0 <= j < |s| && s[j] == y;
    if j < |s| - 1 {
      assert key(s[j]) < key(s[|s| - 1]);
    }
  }

  ghost predicate SortedBy<T>(s: seq<T>, key: T -> int) {
    forall i, j :: 0 <= i < j < |s| ==> key(s[i]) <= key(s[j])
  }

  /** `x` placed in front of the first element whose key is not smaller, so
      that an element inserted first stays ahead of later equal ones. */
  function InsertBy<T(!new)>(x: T, s: seq<T>, key: T -> int): (r: seq<T>)
    requires SortedBy(s, key)
    ensures SortedBy(r, key)
    ensures |r| == |s| + 1
    ensures multiset(r) == multiset(s) + multiset{x}
    ensures forall y :: y in r <==> y == x || y in s
  {
    if |s| == 0 || key(x) <= key(s[0]) then [x] + s
    else
      assert s == [s[0]] + s[1..];
      var rest := InsertBy(x, s[1..], key);
      assert forall y | y in rest :: key(s[0]) <= key(y) by {
        forall y | y in rest
          ensures key(s[0]) <= key(y)
        {
          if y != x {
            SortedHeadIsSmallest(s, key, y);
          }
        }
      }
      [s[0]] + rest
  }

  lemma SortedHeadIsSmallest<T>(s: seq<T>, key: T -> int, y: T)
    requires SortedBy(s, key) && |s| > 0 && y in s
    ensures key(s[0]) <= key(y)
  {
    var j :| 0 <= j < |s| && s[j] == y;
    if j > 0 {
      assert key(s[0]) <= key(s[j]);
    }
  }

  /** Stable insertion sort by ascending key. */
  function SortBy<T(!new)>(s: seq<T>, key: T -> int): (r: seq<T>)
    ensures SortedBy(r, key)
    ensures |r| == |s|
    ensures multiset(r) == multiset(s)
    ensures forall y :: y in r <==> y in s
  {
    if |s| == 0 then []
    else
      assert s == [s[0]] + s[1..];
      InsertBy(s[0], SortBy(s[1..], key), key)
  }

  /** The first `n` elements of `s`, or all of them when there are fewer. */
  function Prefix<T>(s: seq<T>, n: nat): (r: seq<T>)
    ensures |r| == if n < |s| then n else |s|
    ensures r == s[..|r|]
  {
    if n < |s| then s[..n] else s
  }

  /** Cutting a sorted sequence keeps its smallest keys: whatever was cut off
      has a key no smaller than anything kept. */
  lemma SortedPrefixKeepsSmallest<T>(s: seq<T>, k: nat, key: T -> int, x: T, y: T)
    requires SortedBy(s, key) && k <= |s|
    requires x in s && x !in s[..k] && y in s[..k]
    ensures key(y) <= key(x)
  {
    var j :| 0 <= j < |s| && s[j] == x;
    var i :| 0 <= i < k && s[..k][i] == y;
    assert s[i] == y;
  }

  /** The sum of `f` over the elements of `s`. */
  function SumOf<T>(s: seq<T>, f: T -> nat): nat {
    if |s| == 0 then 0 else f(s[0]) + SumOf(s[1..], f)
  }

  lemma {:induction false} SumOfAppend<T>(a: seq<T>, b: seq<T>, f: T -> nat)
    ensures SumOf(a + b, f) == SumOf(a, f) + SumOf(b, f)
    decreases |a|
  {
    if |a| == 0 {
      assert a + b == b;
    } else {
      assert (a + b)[1..] == a[1..] + b;
      SumOfAppend(a[1..], b, f);
    }
  }

  /** A sum does not depend on the order of its terms. */
  lemma {:induction false} SumOfPermutation<T>(a: seq<T>, b: seq<T>, f: T -> nat)
    requires multiset(a) == multiset(b)
    ensures SumOf(a, f) == SumOf(b, f)
    decreases |a|
  {
    if |a| > 0 {
      var x := a[0];
      assert x in multiset(b);
      var k :| 0 <= k < |b| && b[k] == x;
      var rest := b[..k] + b[k + 1..];
      assert b == b[..k] + [x] + b[k + 1..];
      assert a == [x] + a[1..];
      assert multiset(b) == multiset(b[..k]) + multiset{x} + multiset(b[k + 1..]);
      assert multiset(a) == multiset{x} + multiset(a[1..]);
      assert multiset(rest) == multiset(b[..k]) + multiset(b[k + 1..]);
      assert multiset(a[1..]) == multiset(a) - multiset{x};
      assert multiset(b) - multiset{x} == multiset(rest);
      SumOfPermutation(a[1..], rest, f);
      SumOfAppend(b[..k] + [x], b[k + 1..], f);
      SumOfAppend(b[..k], [x], f);
      SumOfAppend(b[..k], b[k + 1..], f);
      assert SumOf([x], f) == f(x) by {
        assert [x][1..] == [];
      }
    }
  }

  /** Filtering by a disjoint union counts the two parts separately. */
  lemma {:induction false} FilterCountSplit<T(!new)>(s: seq<T>, p: T -> bool, q: T -> bool, either: T -> bool)
    requires forall i :: 0 <= i < |s| ==> !(p(s[i]) && q(s[i])) && either(s[i]) == (p(s[i]) || q(s[i]))
    ensures |Filter(s, either)| == |Filter(s, p)| + |Filter(s, q)|
    decreases |s|
  {
    if |s| > 0 {
      FilterCountSplit(s[1..], p, q, either);
    }
  }
}
