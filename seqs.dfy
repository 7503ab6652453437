/** The Some/None wrapper used for lookups that may find nothing. */
module Options {
  datatype Option<T> = None | Some(value: T)
}

/**
 * The three array combinators the two stores are built from: `map`, `filter`
 * and a summing `reduce`, written as functions on sequences, together with the
 * facts about them that the stores' lemmas rely on.
 */
module Seqs {

  /** Applies `f` to every element, keeping length and order (Array.prototype.map). */
  function Map<T, U>(f: T -> U, s: seq<T>): (r: seq<U>)
    ensures |r| == |s|
    ensures forall i :: 0 <= i < |s| ==> r[i] == f(s[i])
  {
    if s == [] then [] else [f(s[0])] + Map(f, s[1..])
  }

  /** `r` can be obtained from `s` by deleting elements, without reordering. */
  ghost predicate IsSubsequence<T>(r: seq<T>, s: seq<T>)
    decreases |s|
  {
    r == [] ||
    (s != [] && ((r[0] == s[0] && IsSubsequence(r[1..], s[1..])) || IsSubsequence(r, s[1..])))
  }

  /** Keeps the elements satisfying `p`, in their original order (Array.prototype.filter). */
  function Filter<T(!new)>(p: T -> bool, s: seq<T>): (r: seq<T>)
    ensures |r| <= |s|
    ensures forall i :: 0 <= i < |r| ==> p(r[i])
  {
    if s == [] then []
    else if p(s[0]) then [s[0]] + Filter(p, s[1..])
    else Filter(p, s[1..])
  }

  /**
   * What Filter keeps, exactly: a subsequence of `s` holding every occurrence
   * of each element that satisfies `p` and no occurrence of any other.
   */
  lemma {:induction false} FilterExact<T(!new)>(p: T -> bool, s: seq<T>)
    ensures IsSubsequence(Filter(p, s), s)
    ensures forall x :: multiset(Filter(p, s))[x] == if p(x) then multiset(s)[x] else 0
  {
    if s != [] {
      assert s == [s[0]] + s[1..];
      FilterExact(p, s[1..]);
    }
  }

  /** The sum of `f` over the elements, accumulated from the left as `reduce((acc, x) => acc + f(x), 0)` does. */
  function SumBy<T>(f: T -> int, s: seq<T>): (sum: int)
  {
    if s == [] then 0 else SumBy(f, s[..|s| - 1]) + f(s[|s| - 1])
  }

  lemma {:induction false} SubsequenceMultiset<T>(r: seq<T>, s: seq<T>)
    requires IsSubsequence(r, s)
    ensures multiset(r) <= multiset(s)
    decreases |s|
  {
    if r != [] {
      assert s == [s[0]] + s[1..];
      if r[0] == s[0] && IsSubsequence(r[1..], s[1..]) {
        assert r == [r[0]] + r[1..];
        SubsequenceMultiset(r[1..], s[1..]);
      } else {
        SubsequenceMultiset(r, s[1..]);
      }
    }
  }

  /**
   * Filter's contract determines its result: any subsequence of `s` that keeps
   * every occurrence of the elements satisfying `p` and nothing else IS
   * `Filter(p, s)`.
   */
  lemma {:induction false} FilterUnique<T(!new)>(p: T -> bool, s: seq<T>, r: seq<T>)
    requires IsSubsequence(r, s)
    requires forall x :: multiset(r)[x] == if p(x) then multiset(s)[x] else 0
    ensures r == Filter(p, s)
    decreases |s|
  {
    if s == [] {
      assert r == [];
    } else {
      var a, t := s[0], s[1..];
      assert s == [a] + t;
      if r != [] && r[0] == a && IsSubsequence(r[1..], t) {
        assert r == [a] + r[1..];
        assert p(a) by {
          assert multiset(r)[a] > 0;
        }
        forall x ensures multiset(r[1..])[x] == if p(x) then multiset(t)[x] else 0 {
          assert multiset(r)[x] == multiset(r[1..])[x] + (if x == a then 1 else 0);
        }
        FilterUnique(p, t, r[1..]);
      } else {
        assert IsSubsequence(r, t);
        SubsequenceMultiset(r, t);
        // r skips the head, so it cannot hold every occurrence of a satisfying head
        assert !p(a);
        forall x ensures multiset(r)[x] == if p(x) then multiset(t)[x] else 0 {
          if p(x) {
            assert x != a;
          }
        }
        FilterUnique(p, t, r);
      }
    }
  }

  /** Filtering with a predicate every element satisfies changes nothing. */
  lemma {:induction false} FilterKeepsAll<T(!new)>(p: T -> bool, s: seq<T>)
    requires forall i :: 0 <= i < |s| ==> p(s[i])
    ensures Filter(p, s) == s
  {
    if s != [] {
      FilterKeepsAll(p, s[1..]);
    }
  }

  /** Filtering distributes over concatenation. */
  lemma {:induction false} FilterAppend<T(!new)>(p: T -> bool, a: seq<T>, b: seq<T>)
    ensures Filter(p, a + b) == Filter(p, a) + Filter(p, b)
  {
    if a != [] {
      assert (a + b)[1..] == a[1..] + b;
      FilterAppend(p, a[1..], b);
    } else {
      assert a + b == b;
    }
  }

  /** Filtering out the one element that fails `p` closes the gap it leaves. */
  lemma FilterDropsOne<T(!new)>(p: T -> bool, a: seq<T>, x: T, b: seq<T>)
    requires forall i :: 0 <= i < |a| ==> p(a[i])
    requires !p(x)
    requires forall i :: 0 <= i < |b| ==> p(b[i])
    ensures Filter(p, a + [x] + b) == a + b
  {
    assert Filter(p, [x]) == [] by {
      assert [x][1..] == [];
      assert Filter(p, [x]) == Filter(p, []);
    }
    FilterKeepsAll(p, a);
    FilterAppend(p, a, [x]);
    assert Filter(p, a + [x]) == a;
    FilterKeepsAll(p, b);
    FilterAppend(p, a + [x], b);
  }

  /** Summing distributes over concatenation. */
  lemma {:induction false} SumByAppend<T>(f: T -> int, a: seq<T>, b: seq<T>)
    ensures SumBy(f, a + b) == SumBy(f, a) + SumBy(f, b)
    decreases |b|
  {
    if b == [] {
      assert a + b == a;
    } else {
      var b' := b[..|b| - 1];
      assert (a + b)[..|a + b| - 1] == a + b';
      SumByAppend(f, a, b');
    }
  }

  /** Replacing one element changes the sum by exactly the difference of the two summands. */
  lemma SumByUpdate<T>(f: T -> int, s: seq<T>, k: nat, x: T)
    requires k < |s|
    ensures SumBy(f, s[k := x]) == SumBy(f, s) - f(s[k]) + f(x)
  {
    var a, b := s[..k], s[k + 1..];
    var s', u := s[..k + 1], a + [x];
    assert s == s' + b;
    assert s[k := x] == u + b;
    assert s'[..k] == a && u[..k] == a;
    SumByAppend(f, s', b);
    SumByAppend(f, u, b);
  }

  /** Removing one element lowers the sum by exactly that element's summand. */
  lemma SumByDelete<T>(f: T -> int, s: seq<T>, k: nat)
    requires k < |s|
    ensures SumBy(f, s[..k] + s[k + 1..]) == SumBy(f, s) - f(s[k])
  {
    var a, b := s[..k], s[k + 1..];
    var s' := s[..k + 1];
    assert s == s' + b;
    assert s'[..k] == a;
    SumByAppend(f, s', b);
    SumByAppend(f, a, b);
  }
}
