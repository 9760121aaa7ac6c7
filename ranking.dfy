/**
 * Catalog entries and the ranking the handler applies to them:
 * `.sort((a, b) => b.rating - a.rating)`, a stable sort by rating, highest
 * first, followed by `.slice(0, k)`.
 */
module Ranking {

  /** One catalog record. Ratings are only compared, so a real stands for the JS number. */
  datatype Movie = Movie(
    id: string,
    title: string,
    year: int,
    rating: real,
    genres: seq<string>,
    providers: seq<string>,
    synopsis: string)

  /** Ratings never increase from left to right. */
  predicate SortedByRating(s: seq<Movie>) {
    forall i, j :: 0 <= i < j < |s| ==> s[i].rating >= s[j].rating
  }

  /** Appending an entry rated no higher than anything in a sorted list keeps it sorted. */
  lemma AppendLowest(u: seq<Movie>, y: Movie)
    requires SortedByRating(u)
    requires forall z :: z in u ==> z.rating >= y.rating
    ensures SortedByRating(u + [y])
  {
    forall i, j | 0 <= i < j < |u| + 1 ensures (u + [y])[i].rating >= (u + [y])[j].rating {
      if j == |u| {
        assert u[i] in u;
      }
    }
  }

  /**
   * Inserts `x` into `t` after every element whose rating is at least `x`'s,
   * which is where a stable sort puts an element that comes after all of `t`.
   */
  function Insert(t: seq<Movie>, x: Movie): (r: seq<Movie>)
    ensures |r| == |t| + 1
    ensures forall y :: y in r <==> y in t || y == x
    ensures SortedByRating(t) ==> SortedByRating(r)
    decreases |t|
  {
    if t == [] then [x]
    else
      var last := t[|t| - 1];
      var front := t[..|t| - 1];
      assert t == front + [last];
      if last.rating >= x.rating then
        assert SortedByRating(t) ==> SortedByRating(t + [x]) by {
          if SortedByRating(t) {
            forall z | z in t ensures z.rating >= x.rating {
              var k :| 0 <= k < |t| && t[k] == z;
            }
            AppendLowest(t, x);
          }
        }
        t + [x]
      else
        var u := Insert(front, x);
        assert SortedByRating(t) ==> SortedByRating(u + [last]) by {
          if SortedByRating(t) {
            assert SortedByRating(front);
            forall y | y in u ensures y.rating >= last.rating {
              if y != x {
                var k :| 0 <= k < |front| && front[k] == y;
                assert t[k] == y;
              }
            }
            AppendLowest(u, last);
          }
        }
        u + [last]
  }

  /** The stable sort by rating, highest first, as insertion sort from the left. */
  function SortByRating(s: seq<Movie>): (r: seq<Movie>)
    ensures |r| == |s|
    ensures forall x :: x in r <==> x in s
    ensures SortedByRating(r)
  {
    if s == [] then []
    else
      assert s == s[..|s| - 1] + [s[|s| - 1]];
      Insert(SortByRating(s[..|s| - 1]), s[|s| - 1])
  }

  lemma {:induction false} InsertPermutes(t: seq<Movie>, x: Movie)
    ensures multiset(Insert(t, x)) == multiset(t) + multiset{x}
    decreases |t|
  {
    if t != [] && t[|t| - 1].rating < x.rating {
      var front, last := t[..|t| - 1], t[|t| - 1];
      InsertPermutes(front, x);
      assert t == front + [last];
    }
  }

  /** The sort rearranges its input: same entries, same multiplicities. */
  lemma {:induction false} SortPermutes(s: seq<Movie>)
    ensures multiset(SortByRating(s)) == multiset(s)
  {
    if s != [] {
      var front, last := s[..|s| - 1], s[|s| - 1];
      var sortedFront := SortByRating(front);
      SortPermutes(front);
      InsertPermutes(sortedFront, last);
      assert SortByRating(s) == Insert(sortedFront, last);
      SplitMultiset(s, |s| - 1);
      assert s[|s| - 1..] == [last];
    }
  }

  /** Cutting a list in two splits its multiset in two. */
  lemma SplitMultiset(t: seq<Movie>, n: nat)
    requires n <= |t|
    ensures multiset(t[..n]) + multiset(t[n..]) == multiset(t)
  {
    assert t == t[..n] + t[n..];
  }

  /** The entries of `s` rated exactly `v`, in their order in `s`. */
  function WithRating(s: seq<Movie>, v: real): seq<Movie> {
    if s == [] then []
    else WithRating(s[..|s| - 1], v) + (if s[|s| - 1].rating == v then [s[|s| - 1]] else [])
  }

  lemma {:induction false} WithRatingMembers(s: seq<Movie>, v: real, x: Movie)
    requires x in WithRating(s, v)
    ensures x in s && x.rating == v
  {
    if s != [] {
      var front := s[..|s| - 1];
      assert s == front + [s[|s| - 1]];
      if x in WithRating(front, v) {
        WithRatingMembers(front, v, x);
      }
    }
  }

  lemma {:induction false} WithRatingAppend(a: seq<Movie>, b: seq<Movie>, v: real)
    ensures WithRating(a + b, v) == WithRating(a, v) + WithRating(b, v)
    decreases |b|
  {
    if b == [] {
      assert a + b == a;
    } else {
      var b' := b[..|b| - 1];
      assert (a + b)[..|a + b| - 1] == a + b';
      WithRatingAppend(a, b', v);
    }
  }

  lemma {:induction false} InsertWithRating(t: seq<Movie>, x: Movie, v: real)
    ensures WithRating(Insert(t, x), v) == WithRating(t, v) + (if x.rating == v then [x] else [])
    decreases |t|
  {
    if t == [] {
    } else if t[|t| - 1].rating >= x.rating {
      WithRatingAppend(t, [x], v);
    } else {
      var front := t[..|t| - 1];
      InsertWithRating(front, x, v);
      WithRatingAppend(Insert(front, x), [t[|t| - 1]], v);
    }
  }

  /**
   * Stability: for every rating, the entries with that rating appear in the
   * sorted result in exactly their original relative order.
   */
  lemma {:induction false} SortIsStable(s: seq<Movie>, v: real)
    ensures WithRating(SortByRating(s), v) == WithRating(s, v)
  {
    if s != [] {
      var front := s[..|s| - 1];
      SortIsStable(front, v);
      InsertWithRating(SortByRating(front), s[|s| - 1], v);
    }
  }

  /** A non-empty list has some entry with the rating of its last entry. */
  lemma LastRatingPresent(s: seq<Movie>)
    ensures s != [] ==> WithRating(s, s[|s| - 1].rating) != []
  {
  }

  /** The last entry of a non-empty list has the lowest rating of a sorted list. */
  lemma LastIsLowest(s: seq<Movie>, y: Movie)
    requires SortedByRating(s) && y in s
    ensures s[|s| - 1].rating <= y.rating
  {
    var k :| 0 <= k < |s| && s[k] == y;
    if k < |s| - 1 { }
  }

  /**
   * A sorted list is determined by its per-rating subsequences: two sorted lists
   * that agree on the entries of every rating, in order, are equal. Hence the
   * stable sort is the only sorted rearrangement that keeps equal ratings in order.
   */
  lemma {:induction false} SortedUnique(a: seq<Movie>, b: seq<Movie>)
    requires SortedByRating(a) && SortedByRating(b)
    requires forall v :: WithRating(a, v) == WithRating(b, v)
    ensures a == b
    decreases |a| + |b|
  {
    if a == [] && b == [] {
    } else if a == [] {
      LastRatingPresent(b);
      assert false;
    } else if b == [] {
      LastRatingPresent(a);
      assert false;
    } else {
      var x, y := a[|a| - 1], b[|b| - 1];
      assert x in WithRating(a, x.rating);
      WithRatingMembers(b, x.rating, x);
      LastIsLowest(b, x);
      assert y in WithRating(b, y.rating);
      WithRatingMembers(a, y.rating, y);
      LastIsLowest(a, y);
      var v := x.rating;
      var a', b' := a[..|a| - 1], b[..|b| - 1];
      var wa, wb := WithRating(a, v), WithRating(b, v);
      assert wa == WithRating(a', v) + [x];
      assert wb == WithRating(b', v) + [y];
      assert wa == wb;
      assert x == wa[|wa| - 1] == wb[|wb| - 1] == y;
      forall w ensures WithRating(a', w) == WithRating(b', w) {
        WithRatingDropLast(a, b, w);
      }
      SortedUnique(a', b');
      assert a == a' + [x];
      assert b == b' + [y];
    }
  }

  /** Two lists with the same last entry that agree on rating `w` agree on it without that entry. */
  lemma WithRatingDropLast(a: seq<Movie>, b: seq<Movie>, w: real)
    requires a != [] && b != [] && a[|a| - 1] == b[|b| - 1]
    requires WithRating(a, w) == WithRating(b, w)
    ensures WithRating(a[..|a| - 1], w) == WithRating(b[..|b| - 1], w)
  {
    var x := a[|a| - 1];
    var tail := if x.rating == w then [x] else [];
    var pa, pb := WithRating(a[..|a| - 1], w), WithRating(b[..|b| - 1], w);
    assert WithRating(a, w) == pa + tail;
    assert WithRating(b, w) == pb + tail;
    assert pa == (pa + tail)[..|pa|];
    assert pb == (pb + tail)[..|pb|];
  }

  /** Sorting an already sorted list leaves it as it is; in particular sorting twice is sorting once. */
  lemma SortOfSorted(s: seq<Movie>)
    requires SortedByRating(s)
    ensures SortByRating(s) == s
  {
    forall v ensures WithRating(SortByRating(s), v) == WithRating(s, v) {
      SortIsStable(s, v);
    }
    SortedUnique(SortByRating(s), s);
  }

  /** `s.slice(0, k)`: the first k entries, or all of them when there are fewer. */
  function Take(s: seq<Movie>, k: nat): (r: seq<Movie>)
    ensures |r| == if |s| <= k then |s| else k
    ensures forall i :: 0 <= i < |r| ==> r[i] == s[i]
  {
    if |s| <= k then s else s[..k]
  }

  /**
   * `s.sort(byRatingDesc).slice(0, k)`: the first min(k, |s|) entries of the
   * stable sort, ordered by rating and drawn from `s`.
   */
  function TopRated(s: seq<Movie>, k: nat): (r: seq<Movie>)
    ensures |r| == if |s| <= k then |s| else k
    ensures SortedByRating(r)
    ensures forall x :: x in r ==> x in s
  {
    Take(SortByRating(s), k)
  }

  /**
   * What `TopRated` leaves out: taken together with the kept entries the left-out
   * ones are exactly the entries of `s`, and none of them is rated above a kept one.
   */
  lemma TopRatedKeepsBest(s: seq<Movie>, k: nat) returns (dropped: seq<Movie>)
    ensures multiset(TopRated(s, k)) + multiset(dropped) == multiset(s)
    ensures forall x, m :: x in TopRated(s, k) && m in dropped ==> x.rating >= m.rating
  {
    var t := SortByRating(s);
    var n := |TopRated(s, k)|;
    assert TopRated(s, k) == t[..n];
    dropped := t[n..];
    SplitMultiset(t, n);
    SortPermutes(s);
    PrefixOutranksRest(t, n);
  }

  /** In a sorted list nothing before a cut is rated below anything after it. */
  lemma PrefixOutranksRest(t: seq<Movie>, n: nat)
    requires SortedByRating(t) && n <= |t|
    ensures forall x, m :: x in t[..n] && m in t[n..] ==> x.rating >= m.rating
  {
    forall x, m | x in t[..n] && m in t[n..] ensures x.rating >= m.rating {
      var i :| 0 <= i < n && t[..n][i] == x;
      var j :| 0 <= j < |t| - n && t[n..][j] == m;
      assert t[i] == x && t[n + j] == m;
    }
  }

  /**
   * In-place stable insertion sort by rating, highest first: the effect of
   * `array.sort((a, b) => b.rating - a.rating)`.
   */
  method SortByRatingInPlace(a: array<Movie>)
    modifies a
    ensures a[..] == SortByRating(old(a[..]))
  {
    ghost var orig := a[..];
    var i := 0;
    while i < a.Length
      invariant 0 <= i <= a.Length
      invariant a[..i] == SortByRating(orig[..i])
      invariant a[i..] == orig[i..]
    {
      ghost var sortedPrefix := a[..i];
      assert a[i] == orig[i];
      InsertIntoPrefix(a, i);
      ghost var next := orig[..i + 1];
      assert next[..|next| - 1] == orig[..i] && next[|next| - 1] == orig[i];
      assert SortByRating(next) == Insert(sortedPrefix, orig[i]);
      i := i + 1;
    }
    assert orig[..a.Length] == orig;
  }

  /**
   * One step of the insertion sort: shifts the lower-rated tail of the sorted
   * prefix `a[..i]` one place right and drops `a[i]` into the gap.
   */
  method InsertIntoPrefix(a: array<Movie>, i: nat)
    requires i < a.Length
    modifies a
    ensures a[..i + 1] == Insert(old(a[..i]), old(a[i]))
    ensures a[i + 1..] == old(a[i + 1..])
  {
    var x := a[i];
    ghost var t := a[..i];
    var j := i;
    while j > 0 && a[j - 1].rating < x.rating
      invariant 0 <= j <= i
      invariant forall k :: 0 <= k < j ==> a[k] == t[k]
      invariant forall k :: j < k <= i ==> a[k] == t[k - 1]
      invariant forall k :: i < k < a.Length ==> a[k] == old(a[k])
      invariant forall k :: j <= k < i ==> t[k].rating < x.rating
    {
      a[j] := a[j - 1];
      j := j - 1;
    }
    assert j == 0 || t[j - 1].rating >= x.rating;
    a[j] := x;
    ghost var s := a[..i + 1];
    assert forall k :: 0 <= k < j ==> s[k] == t[k];
    assert forall k :: j < k < |s| ==> s[k] == t[k - 1];
    ShiftedIsInserted(s, t, x, j);
    assert a[i + 1..] == old(a[i + 1..]);
  }

  /** A list laid out as the inner loop leaves the array is `Insert(t, x)`. */
  lemma ShiftedIsInserted(s: seq<Movie>, t: seq<Movie>, x: Movie, j: nat)
    requires j <= |t| && |s| == |t| + 1
    requires forall k :: 0 <= k < j ==> s[k] == t[k]
    requires s[j] == x
    requires forall k :: j < k < |s| ==> s[k] == t[k - 1]
    requires j == 0 || t[j - 1].rating >= x.rating
    requires forall k :: j <= k < |t| ==> t[k].rating < x.rating
    ensures s == Insert(t, x)
  {
    InsertAt(t, x, j);
    var u := t[..j] + [x] + t[j..];
    forall k | 0 <= k < |s| ensures s[k] == u[k] {
      if k < j { assert u[k] == t[k]; } else if k > j { assert u[k] == t[k - 1]; }
    }
  }

  /** Where `Insert` puts `x`: just after the last entry rated at least as high. */
  lemma {:induction false} InsertAt(t: seq<Movie>, x: Movie, j: nat)
    requires j <= |t|
    requires j == 0 || t[j - 1].rating >= x.rating
    requires forall k :: j <= k < |t| ==> t[k].rating < x.rating
    ensures Insert(t, x) == t[..j] + [x] + t[j..]
    decreases |t| - j
  {
    if j == |t| {
      assert t[..j] == t && t[j..] == [];
    } else {
      var front, last := t[..|t| - 1], t[|t| - 1];
      assert last.rating < x.rating;
      assert Insert(t, x) == Insert(front, x) + [last];
      InsertAt(front, x, j);
      assert front[..j] == t[..j];
      assert front[j..] + [last] == t[j..];
    }
  }
}
