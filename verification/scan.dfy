/** The first-match scan behind the viewer's hit testing, and the
    filter-then-take-the-head formulation the source actually writes. */
module Scan {
  import opened Wrappers

  /** Index of the first element of `xs` that satisfies `p`, or `None`. */
  function FirstMatch<T>(xs: seq<T>, p: T -> bool): (r: Option<nat>)
    ensures r.Some? ==> r.value < |xs| && p(xs[r.value])
    ensures r.Some? ==> forall j :: 0 <= j < r.value ==> !p(xs[j])
    ensures r.None? <==> forall j :: 0 <= j < |xs| ==> !p(xs[j])
  {
    if |xs| == 0 then None
    else if p(xs[0]) then Some(0)
    else
      match FirstMatch(xs[1..], p)
      case None => None
      case Some(k) => Some(k + 1)
  }

  /** The elements of `xs` satisfying `p`, in their original order (`Array.prototype.filter`). */
  function Filter<T>(xs: seq<T>, p: T -> bool): seq<T>
  {
    if |xs| == 0 then []
    else (if p(xs[0]) then [xs[0]] else []) + Filter(xs[1..], p)
  }

  /** `xs.filter(p)[0]` when the filter is non-empty, `null` otherwise. */
  function HeadOfFilter<T>(xs: seq<T>, p: T -> bool): Option<T>
  {
    var kept := Filter(xs, p);
    if |kept| > 0 then Some(kept[0]) else None
  }

  /** The element found by the first-match scan. */
  function FirstMatchElement<T>(xs: seq<T>, p: T -> bool): Option<T>
  {
    match FirstMatch(xs, p)
    case None => None
    case Some(k) => Some(xs[k])
  }

  /** Taking the head of the filtered list finds exactly the element the first-match scan finds. */
  lemma {:induction false} HeadOfFilterIsFirstMatch<T>(xs: seq<T>, p: T -> bool)
    ensures HeadOfFilter(xs, p) == FirstMatchElement(xs, p)
  {
    if |xs| > 0 && !p(xs[0]) {
      HeadOfFilterIsFirstMatch(xs[1..], p);
      assert Filter(xs, p) == Filter(xs[1..], p);
    }
  }
}
