/** Generic sequence operations used by the dashboard's list pipeline:
    an order-preserving filter (JavaScript's `Array.prototype.filter`),
    a clamped prefix (`slice(0, n)`), and the subsequence relation that
    states what both of them preserve. */
module Seqs {

  /** `a` can be obtained from `b` by deleting elements, keeping order. */
  ghost predicate IsSubseq<T>(a: seq<T>, b: seq<T>)
    decreases |b|
  {
    if |a| == 0 then true
    else if |b| == 0 then false
    else (a[0] == b[0] && IsSubseq(a[1..], b[1..])) || IsSubseq(a, b[1..])
  }

  /** No element occurs twice. */
  predicate NoDup<T(==)>(xs: seq<T>)
  {
    forall i, j :: 0 <= i < j < |xs| ==> xs[i] != xs[j]
  }

  function Min(a: int, b: int): int
  {
    if a <= b then a else b
  }

  /** The elements of `xs` that satisfy `p`, in their original order. */
  function Filter<T(==,!new)>(p: T -> bool, xs: seq<T>): (r: seq<T>)
    ensures |r| <= |xs|
    ensures forall x :: x in r <==> x in xs && p(x)
    ensures forall x {:trigger multiset(r)[x]} :: multiset(r)[x] == if p(x) then multiset(xs)[x] else 0
  {
    if |xs| == 0 then []
    else
      assert xs == [xs[0]] + xs[1..];
      (if p(xs[0]) then [xs[0]] else []) + Filter(p, xs[1..])
  }

  /** The first `n` elements of `xs`, or all of them when there are fewer:
      `xs.slice(0, n)` for a non-negative `n`. */
  function Take<T>(xs: seq<T>, n: nat): (r: seq<T>)
    ensures |r| == Min(n, |xs|)
    ensures r == xs[..|r|]
  {
    if n <= |xs| then xs[..n] else xs
  }

  lemma {:induction false} SubseqSkip<T>(a: seq<T>, b: seq<T>, k: nat)
    requires k <= |b|
    requires IsSubseq(a, b[k..])
    ensures IsSubseq(a, b)
    decreases k
  {
    if k > 0 {
      assert b[1..][k - 1..] == b[k..];
      SubseqSkip(a, b[1..], k - 1);
      if |a| > 0 {
        assert |b| > 0;
      }
    }
  }

  /** A sequence with no members is empty. */
  lemma NoMembersIsEmpty<T>(xs: seq<T>)
    requires forall x :: x !in xs
    ensures xs == []
  {
    forall x
      ensures multiset(xs)[x] == 0
    {
      assert x !in xs;
    }
    assert multiset(xs) == multiset{};
  }

  /** A subsequence only holds elements of the sequence it came from. */
  lemma {:induction false} SubseqMembers<T>(a: seq<T>, b: seq<T>)
    requires IsSubseq(a, b)
    ensures forall x :: x in a ==> x in b
    ensures |a| <= |b|
    decreases |b|
  {
    if |a| > 0 {
      if a[0] == b[0] && IsSubseq(a[1..], b[1..]) {
        SubseqMembers(a[1..], b[1..]);
        assert a == [a[0]] + a[1..];
        assert b == [b[0]] + b[1..];
      } else {
        SubseqMembers(a, b[1..]);
        assert b == [b[0]] + b[1..];
      }
    }
  }

  lemma {:induction false} SubseqTrans<T>(a: seq<T>, b: seq<T>, c: seq<T>)
    requires IsSubseq(a, b) && IsSubseq(b, c)
    ensures IsSubseq(a, c)
    decreases |a| + |b| + |c|
  {
    if |a| == 0 {
    } else if |b| == 0 || |c| == 0 {
    } else if b[0] == c[0] && IsSubseq(b[1..], c[1..]) {
      if a[0] == b[0] && IsSubseq(a[1..], b[1..]) {
        SubseqTrans(a[1..], b[1..], c[1..]);
      } else {
        SubseqTrans(a, b[1..], c[1..]);
      }
    } else {
      SubseqTrans(a, b, c[1..]);
    }
  }

  /** A prefix of a sequence is a subsequence of it. */
  lemma {:induction false} PrefixIsSubseq<T>(xs: seq<T>, n: nat)
    requires n <= |xs|
    ensures IsSubseq(xs[..n], xs)
    decreases n
  {
    if n > 0 {
      assert xs[..n][1..] == xs[1..][..n - 1];
      PrefixIsSubseq(xs[1..], n - 1);
    }
  }

  /** Filtering keeps the surviving elements in their original order. */
  lemma {:induction false} FilterIsSubseq<T(!new)>(p: T -> bool, xs: seq<T>)
    ensures IsSubseq(Filter(p, xs), xs)
    decreases |xs|
  {
    if |xs| > 0 {
      FilterIsSubseq(p, xs[1..]);
      var r := Filter(p, xs);
      if p(xs[0]) {
        assert r[0] == xs[0] && r[1..] == Filter(p, xs[1..]);
      } else {
        assert r == Filter(p, xs[1..]);
        SubseqSkip(r, xs, 1);
      }
    }
  }

  /** Filtering by `q` and then by `p` is one pass filtering by their
      conjunction `both`. */
  lemma {:induction false} FilterFuse<T(!new)>(p: T -> bool, q: T -> bool, both: T -> bool, xs: seq<T>)
    requires forall i :: 0 <= i < |xs| ==> both(xs[i]) == (q(xs[i]) && p(xs[i]))
    ensures Filter(p, Filter(q, xs)) == Filter(both, xs)
    decreases |xs|
  {
    if |xs| > 0 {
      FilterFuse(p, q, both, xs[1..]);
      var rest := Filter(q, xs[1..]);
      if q(xs[0]) {
        assert Filter(q, xs) == [xs[0]] + rest;
        assert ([xs[0]] + rest)[1..] == rest;
      } else {
        assert Filter(q, xs) == rest;
      }
    }
  }

  /** Filtering depends only on the predicate's values on the elements. */
  lemma {:induction false} FilterExt<T(!new)>(p: T -> bool, q: T -> bool, xs: seq<T>)
    requires forall i :: 0 <= i < |xs| ==> p(xs[i]) == q(xs[i])
    ensures Filter(p, xs) == Filter(q, xs)
    decreases |xs|
  {
    if |xs| > 0 {
      FilterExt(p, q, xs[1..]);
    }
  }

  /** Filtering out at least one element shortens the sequence. */
  lemma {:induction false} FilterShrinks<T(!new)>(p: T -> bool, xs: seq<T>, k: nat)
    requires k < |xs| && !p(xs[k])
    ensures |Filter(p, xs)| < |xs|
    decreases |xs|
  {
    if k > 0 {
      FilterShrinks(p, xs[1..], k - 1);
    }
  }

  /** A predicate that every element satisfies filters nothing out. */
  lemma {:induction false} FilterAllPass<T(!new)>(p: T -> bool, xs: seq<T>)
    requires forall i :: 0 <= i < |xs| ==> p(xs[i])
    ensures Filter(p, xs) == xs
    decreases |xs|
  {
    if |xs| > 0 {
      assert forall i :: 0 <= i < |xs[1..]| ==> p(xs[1..][i]) by {
        forall i | 0 <= i < |xs[1..]|
          ensures p(xs[1..][i])
        {
          assert xs[1..][i] == xs[i + 1];
        }
      }
      FilterAllPass(p, xs[1..]);
      assert p(xs[0]);
      assert Filter(p, xs) == [xs[0]] + Filter(p, xs[1..]);
      assert [xs[0]] + xs[1..] == xs;
    }
  }

  /** Filtering a duplicate-free sequence yields a duplicate-free sequence. */
  lemma {:induction false} FilterNoDup<T(!new)>(p: T -> bool, xs: seq<T>)
    requires NoDup(xs)
    ensures NoDup(Filter(p, xs))
    decreases |xs|
  {
    if |xs| > 0 {
      assert NoDup(xs[1..]) by {
        forall i, j | 0 <= i < j < |xs[1..]|
          ensures xs[1..][i] != xs[1..][j]
        {
          assert xs[1..][i] == xs[i + 1] && xs[1..][j] == xs[j + 1];
        }
      }
      FilterNoDup(p, xs[1..]);
      var rest := Filter(p, xs[1..]);
      if p(xs[0]) {
        assert xs[0] !in xs[1..];
        assert xs[0] !in rest;
        var r := [xs[0]] + rest;
        forall i, j | 0 <= i < j < |r|
          ensures r[i] != r[j]
        {
          if i == 0 {
            assert r[j] == rest[j - 1];
          } else {
            assert r[i] == rest[i - 1] && r[j] == rest[j - 1];
          }
        }
      }
    }
  }
}
