/**
 * `Array.prototype.filter` (and SQL's WHERE, which selects the same way),
 * with the facts the listings and counters need about it.
 */
module Lists {

  /** The elements of `s` that satisfy `p`, in their original order. */
  function Filter<T(==)>(s: seq<T>, p: T -> bool): (r: seq<T>)
    ensures |r| <= |s|
    ensures forall x :: x in r ==> x in s
    ensures forall x :: x in s ==> (x in r <==> p(x))
    ensures forall i :: 0 <= i < |r| ==> p(r[i])
  {
    if s == [] then []
    else if p(s[0]) then [s[0]] + Filter(s[1..], p)
    else Filter(s[1..], p)
  }

  /** `a` is what remains of `b` after deleting some of its elements. */
  predicate IsSubsequence<T(==)>(a: seq<T>, b: seq<T>)
    decreases |b|
  {
    if a == [] then true
    else if b == [] then false
    else if a[0] == b[0] then IsSubsequence(a[1..], b[1..])
    else IsSubsequence(a, b[1..])
  }

  /** Filtering keeps the relative order: its result is a subsequence of its input. */
  lemma {:induction false} FilterIsSubsequence<T>(s: seq<T>, p: T -> bool)
    ensures IsSubsequence(Filter(s, p), s)
  {
    if s != [] {
      FilterIsSubsequence(s[1..], p);
      var r := Filter(s[1..], p);
      if p(s[0]) {
        assert ([s[0]] + r)[1..] == r;
      } else {
        SkipKeepsSubsequence(r, s);
      }
    }
  }

  lemma {:induction false} SkipKeepsSubsequence<T>(a: seq<T>, b: seq<T>)
    requires b != [] && IsSubsequence(a, b[1..])
    ensures IsSubsequence(a, b)
    decreases |a| + |b|
  {
    if a != [] && a[0] == b[0] {
      // a[0] matches b[0]; what is left of a must still fit in b[1..]
      DropFirstKeepsSubsequence(a, b[1..]);
    }
  }

  lemma {:induction false} DropFirstKeepsSubsequence<T>(a: seq<T>, b: seq<T>)
    requires a != [] && IsSubsequence(a, b)
    ensures IsSubsequence(a[1..], b)
    decreases |a| + |b|
  {
    if a[0] == b[0] {
      if a[1..] != [] {
        DropFirstKeepsSubsequence(a[1..], b[1..]);
        SkipKeepsSubsequence(a[1..], b);
      }
    } else {
      DropFirstKeepsSubsequence(a, b[1..]);
      if a[1..] != [] {
        SkipKeepsSubsequence(a[1..], b);
      }
    }
  }

  /** A filter every element passes changes nothing. */
  lemma {:induction false} FilterAll<T>(s: seq<T>, p: T -> bool)
    requires forall x :: x in s ==> p(x)
    ensures Filter(s, p) == s
  {
    if s != [] {
      FilterAll(s[1..], p);
      assert [s[0]] + s[1..] == s;
    }
  }

  /** Counting `b` among the `a`-elements counts the elements that are both. */
  lemma {:induction false} FilterFilterCount<T>(s: seq<T>, a: T -> bool, b: T -> bool, c: T -> bool)
    requires forall x :: c(x) <==> a(x) && b(x)
    ensures |Filter(Filter(s, a), b)| == |Filter(s, c)|
  {
    if s != [] {
      FilterFilterCount(s[1..], a, b, c);
      if a(s[0]) {
        assert ([s[0]] + Filter(s[1..], a))[1..] == Filter(s[1..], a);
      }
    }
  }

  /** Counting over a concatenation adds the two counts. */
  lemma {:induction false} FilterCountAppend<T>(s: seq<T>, u: seq<T>, p: T -> bool)
    ensures |Filter(s + u, p)| == |Filter(s, p)| + |Filter(u, p)|
  {
    if s != [] {
      assert (s + u)[1..] == s[1..] + u;
      FilterCountAppend(s[1..], u, p);
    } else {
      assert s + u == u;
    }
  }

  /** Counting over a non-empty sequence adds the last element's match to the count before it. */
  lemma {:induction false} FilterCountLast<T>(s: seq<T>, p: T -> bool)
    requires s != []
    ensures |Filter(s, p)| == |Filter(s[..|s| - 1], p)| + (if p(s[|s| - 1]) then 1 else 0)
  {
    var init, last := s[..|s| - 1], s[|s| - 1];
    assert s == init + [last];
    FilterCountAppend(init, [last], p);
    assert [last][1..] == [];
    assert Filter([last], p) == if p(last) then [last] else [];
  }

  /** No element occurs twice. */
  predicate Distinct<T(==)>(s: seq<T>) {
    forall i, j :: 0 <= i < j < |s| ==> s[i] != s[j]
  }

  /** The elements of a sequence, as a set. */
  function Elements<T>(s: seq<T>): set<T> {
    set x | x in s
  }

  /** The members of `v` that satisfy `p`. */
  function Matching<T>(v: set<T>, p: T -> bool): set<T> {
    set x | x in v && p(x)
  }

  /** Over a sequence without repeats, counting the matches is counting the matching elements. */
  lemma {:induction false} FilterCountDistinct<T>(s: seq<T>, p: T -> bool)
    requires Distinct(s)
    ensures |Filter(s, p)| == |Matching(Elements(s), p)|
  {
    if s != [] {
      var h, tail := s[0], s[1..];
      assert Distinct(tail) by {
        forall i, j | 0 <= i < j < |tail| ensures tail[i] != tail[j] {
          assert tail[i] == s[i + 1] && tail[j] == s[j + 1];
        }
      }
      FilterCountDistinct(tail, p);
      assert h !in tail by {
        forall k | 0 <= k < |tail| ensures tail[k] != h {
          assert tail[k] == s[k + 1];
        }
      }
      var rest := Matching(Elements(tail), p);
      var all := Matching(Elements(s), p);
      assert h !in rest;
      assert forall x :: x in s <==> x == h || x in tail by {
        assert s == [h] + tail;
      }
      if p(h) {
        assert Filter(s, p) == [h] + Filter(tail, p);
        assert all == rest + {h};
      } else {
        assert Filter(s, p) == Filter(tail, p);
        assert all == rest;
      }
    }
  }
}
