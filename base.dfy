/**
 * Vocabulary shared by every module of the model: an optional value (the
 * source's `null`/`undefined`), and the three array operations the source
 * leans on, `find`, `filter` and "is a subsequence of".
 */
module Base {

  datatype Option<T> = None | Some(value: T)

  /** Index of the first element satisfying `p` (what `find`, `findIndex` and `indexOf` locate). */
  function FindFirst<X>(s: seq<X>, p: X -> bool): (r: Option<nat>)
    ensures r.None? <==> forall i :: 0 <= i < |s| ==> !p(s[i])
    ensures r.Some? ==> r.value < |s| && p(s[r.value])
    ensures r.Some? ==> forall i :: 0 <= i < r.value ==> !p(s[i])
  {
    if |s| == 0 then None
    else if p(s[0]) then Some(0)
    else match FindFirst(s[1..], p)
      case None => None
      case Some(k) => Some(k + 1)
  }

  /** `r` is obtained from `s` by deleting elements: the order of what is kept is preserved. */
  predicate IsSubsequence<X(==)>(r: seq<X>, s: seq<X>)
    decreases |s|
  {
    |r| == 0 ||
    (|s| > 0 && ((r[0] == s[0] && IsSubsequence(r[1..], s[1..])) || IsSubsequence(r, s[1..])))
  }

  /** `Array.prototype.filter`: the elements of `s` that satisfy `p`, in their order. */
  function Filter<X(==)>(s: seq<X>, p: X -> bool): (r: seq<X>)
    ensures |r| <= |s|
    ensures forall i :: 0 <= i < |r| ==> r[i] in s && p(r[i])
    ensures forall i :: 0 <= i < |s| && p(s[i]) ==> s[i] in r
    ensures IsSubsequence(r, s)
  {
    if |s| == 0 then []
    else if p(s[0]) then
      var rest := Filter(s[1..], p);
      assert ([s[0]] + rest)[1..] == rest;
      [s[0]] + rest
    else Filter(s[1..], p)
  }

  /** Filtering by `p` and then by `q` is filtering by a predicate that accepts what both accept. */
  lemma {:induction false} FilterFilter<X>(s: seq<X>, p: X -> bool, q: X -> bool, pq: X -> bool)
    requires forall i :: 0 <= i < |s| ==> pq(s[i]) == (p(s[i]) && q(s[i]))
    ensures Filter(Filter(s, p), q) == Filter(s, pq)
  {
    if |s| > 0 {
      FilterFilter(s[1..], p, q, pq);
      if p(s[0]) {
        var rest := Filter(s[1..], p);
        assert ([s[0]] + rest)[1..] == rest;
      }
    }
  }

  /** A filter that accepts everything returns its input. */
  lemma {:induction false} FilterAll<X>(s: seq<X>, p: X -> bool)
    requires forall i :: 0 <= i < |s| ==> p(s[i])
    ensures Filter(s, p) == s
  {
    if |s| > 0 {
      FilterAll(s[1..], p);
    }
  }

  /** Filters with predicates that agree on `s` agree. */
  lemma {:induction false} FilterCongruent<X>(s: seq<X>, p: X -> bool, q: X -> bool)
    requires forall i :: 0 <= i < |s| ==> p(s[i]) == q(s[i])
    ensures Filter(s, p) == Filter(s, q)
  {
    if |s| > 0 {
      FilterCongruent(s[1..], p, q);
    }
  }

  /** Filtering a list extended by one element extends the filtered list by at most it. */
  lemma {:induction false} FilterAppend<X>(cs: seq<X>, c: X, p: X -> bool)
    ensures Filter(cs + [c], p) == Filter(cs, p) + (if p(c) then [c] else [])
  {
    if |cs| == 0 {
      assert [c][1..] == [];
    } else {
      assert (cs + [c])[1..] == cs[1..] + [c];
      FilterAppend(cs[1..], c, p);
    }
  }

  /** Every list is a subsequence of itself. */
  lemma {:induction false} SubsequenceRefl<X>(s: seq<X>)
    ensures IsSubsequence(s, s)
  {
    if |s| > 0 {
      SubsequenceRefl(s[1..]);
    }
  }

  /** Deleting elements twice is deleting elements once. */
  lemma {:induction false} SubsequenceTrans<X>(a: seq<X>, b: seq<X>, c: seq<X>)
    requires IsSubsequence(a, b) && IsSubsequence(b, c)
    ensures IsSubsequence(a, c)
    decreases |c|
  {
    if |a| > 0 {
      assert |b| > 0 && |c| > 0;
      if b[0] == c[0] && IsSubsequence(b[1..], c[1..]) {
        if a[0] == b[0] && IsSubsequence(a[1..], b[1..]) {
          SubsequenceTrans(a[1..], b[1..], c[1..]);
        } else {
          SubsequenceTrans(a, b[1..], c[1..]);
        }
      } else {
        SubsequenceTrans(a, b, c[1..]);
      }
    }
  }
}
