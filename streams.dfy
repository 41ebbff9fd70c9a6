/** `Stream.filter(p).findFirst()` over an ordered collection, and what it means:
    the first element, in iteration order, that satisfies `p`. */
module Streams {
  import opened Wrappers

  /** `stream().filter(p)`: the elements satisfying `p`, in their original order. */
  function Filter<X>(xs: seq<X>, p: X -> bool): (r: seq<X>)
    ensures |r| <= |xs|
    ensures forall k :: 0 <= k < |r| ==> p(r[k])
  {
    if xs == [] then []
    else if p(xs[0]) then [xs[0]] + Filter(xs[1..], p)
    else Filter(xs[1..], p)
  }

  /** `findFirst()`: the head of the stream, or an empty Optional. */
  function FindFirst<X>(xs: seq<X>): (r: Option<X>)
    ensures r.None? <==> xs == []
    ensures r.Some? ==> r.value == xs[0]
  {
    if xs == [] then None else Some(xs[0])
  }

  /** Position `i` holds a match and no earlier position does. */
  ghost predicate IsFirstMatch<X>(xs: seq<X>, p: X -> bool, i: int)
  {
    0 <= i < |xs| && p(xs[i]) && forall j :: 0 <= j < i ==> !p(xs[j])
  }

  /** No element of `xs` satisfies `p`. */
  ghost predicate NoneMatch<X>(xs: seq<X>, p: X -> bool)
  {
    forall i :: 0 <= i < |xs| ==> !p(xs[i])
  }

  /** The filtered stream is empty exactly when nothing matches. */
  lemma {:induction false} FindFirstFilterEmpty<X>(xs: seq<X>, p: X -> bool)
    ensures FindFirst(Filter(xs, p)).None? <==> NoneMatch(xs, p)
  {
    if xs != [] {
      FindFirstFilterEmpty(xs[1..], p);
      if !p(xs[0]) {
        assert NoneMatch(xs[1..], p) ==> NoneMatch(xs, p) by {
          if NoneMatch(xs[1..], p) {
            forall i | 0 <= i < |xs| ensures !p(xs[i]) {
              if i > 0 { assert xs[i] == xs[1..][i - 1]; }
            }
          }
        }
        assert NoneMatch(xs, p) ==> NoneMatch(xs[1..], p) by {
          if NoneMatch(xs, p) {
            forall i | 0 <= i < |xs[1..]| ensures !p(xs[1..][i]) {
              assert xs[1..][i] == xs[i + 1];
            }
          }
        }
      }
    }
  }

  /** The element found is the one at the first matching position. */
  lemma {:induction false} FindFirstFilterIsFirstMatch<X>(xs: seq<X>, p: X -> bool)
    requires FindFirst(Filter(xs, p)).Some?
    ensures exists i :: IsFirstMatch(xs, p, i) && xs[i] == FindFirst(Filter(xs, p)).value
  {
    if p(xs[0]) {
      assert IsFirstMatch(xs, p, 0);
    } else {
      FindFirstFilterIsFirstMatch(xs[1..], p);
      var i :| IsFirstMatch(xs[1..], p, i) && xs[1..][i] == FindFirst(Filter(xs[1..], p)).value;
      forall j | 0 <= j < i + 1 ensures !p(xs[j]) {
        if j > 0 { assert xs[j] == xs[1..][j - 1]; }
      }
      assert IsFirstMatch(xs, p, i + 1);
    }
  }

  /** Conversely, the first matching position is the one found: later matches are
      never returned. */
  lemma {:induction false} FirstMatchIsFound<X>(xs: seq<X>, p: X -> bool, i: int)
    requires IsFirstMatch(xs, p, i)
    ensures FindFirst(Filter(xs, p)) == Some(xs[i])
  {
    if i > 0 {
      assert !p(xs[0]);
      forall j | 0 <= j < i - 1 ensures !p(xs[1..][j]) {
        assert xs[1..][j] == xs[j + 1];
      }
      assert xs[1..][i - 1] == xs[i];
      FirstMatchIsFound(xs[1..], p, i - 1);
    }
  }

  /** Filtering with two predicates that agree on every element gives the same stream. */
  lemma {:induction false} FilterAgreeing<X>(xs: seq<X>, p: X -> bool, q: X -> bool)
    requires forall k :: 0 <= k < |xs| ==> p(xs[k]) == q(xs[k])
    ensures Filter(xs, p) == Filter(xs, q)
  {
    if xs != [] {
      forall k | 0 <= k < |xs[1..]| ensures p(xs[1..][k]) == q(xs[1..][k]) {
        assert xs[1..][k] == xs[k + 1];
      }
      FilterAgreeing(xs[1..], p, q);
    }
  }
}
