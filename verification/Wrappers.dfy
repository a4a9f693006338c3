/** Small datatypes and sequence searches shared by the models. */
module Wrappers {

  datatype Option<+T> = None | Some(value: T)

  datatype Result<+T, +E> = Ok(value: T) | Err(error: E)
}

module Search {
  import opened Wrappers

  /** `Array.prototype.find`, returning the index of the first match. */
  function FindFirst<T>(xs: seq<T>, p: T -> bool): (r: Option<nat>)
    ensures r.Some? ==> r.value < |xs| && p(xs[r.value])
    ensures r.Some? ==> forall j :: 0 <= j < r.value ==> !p(xs[j])
    ensures r.None? ==> forall j :: 0 <= j < |xs| ==> !p(xs[j])
  {
    if xs == [] then None
    else if p(xs[0]) then Some(0)
    else
      match FindFirst(xs[1..], p)
      case None =>
        assert forall j :: 0 < j < |xs| ==> xs[j] == xs[1..][j - 1];
        None
      case Some(i) =>
        assert forall j :: 0 < j < |xs| ==> xs[j] == xs[1..][j - 1];
        Some(i + 1)
  }

  /** The least value among those `f` yields, or None when it yields none. */
  function LeastOf<T>(xs: seq<T>, f: T -> Option<int>): (r: Option<int>)
    ensures r.None? ==> forall j :: 0 <= j < |xs| ==> f(xs[j]).None?
    ensures r.Some? ==> exists j :: 0 <= j < |xs| && f(xs[j]) == r
    ensures r.Some? ==> forall j :: 0 <= j < |xs| && f(xs[j]).Some? ==> r.value <= f(xs[j]).value
  {
    if xs == [] then None
    else
      var rest := LeastOf(xs[1..], f);
      assert forall j :: 0 < j < |xs| ==> xs[j] == xs[1..][j - 1];
      assert forall j :: 0 <= j < |xs[1..]| ==> xs[1..][j] == xs[j + 1];
      match (f(xs[0]), rest)
      case (None, _) => rest
      case (Some(v), None) => Some(v)
      case (Some(v), Some(w)) => if v <= w then Some(v) else Some(w)
  }

  function SumOf<T>(xs: seq<T>, f: T -> nat): nat {
    if xs == [] then 0 else SumOf(xs[..|xs| - 1], f) + f(xs[|xs| - 1])
  }

  /** Sums compare like their terms, strictly when some term does. */
  lemma {:induction false} SumCompare<A, B>(a: seq<A>, f: A -> nat, b: seq<B>, g: B -> nat)
    requires |a| == |b|
    requires forall i :: 0 <= i < |a| ==> f(a[i]) <= g(b[i])
    ensures SumOf(a, f) <= SumOf(b, g)
    ensures (exists i :: 0 <= i < |a| && f(a[i]) < g(b[i])) ==> SumOf(a, f) < SumOf(b, g)
  {
    if a != [] {
      var n := |a| - 1;
      SumCompare(a[..n], f, b[..n], g);
      if i :| 0 <= i < |a| && f(a[i]) < g(b[i]) {
        assert i < n ==> f(a[..n][i]) < g(b[..n][i]);
      }
    }
  }

  lemma SumEqual<A, B>(a: seq<A>, f: A -> nat, b: seq<B>, g: B -> nat)
    requires |a| == |b|
    requires forall i :: 0 <= i < |a| ==> f(a[i]) == g(b[i])
    ensures SumOf(a, f) == SumOf(b, g)
  {
    SumCompare(a, f, b, g);
    SumCompare(b, g, a, f);
  }

  lemma {:induction false} SumUpdate<T>(a: seq<T>, f: T -> nat, i: nat, x: T)
    requires i < |a|
    ensures SumOf(a[i := x], f) == SumOf(a, f) - f(a[i]) + f(x)
  {
    var n := |a| - 1;
    if i == n {
      assert a[i := x][..n] == a[..n];
    } else {
      assert a[i := x][..n] == a[..n][i := x];
      SumUpdate(a[..n], f, i, x);
    }
  }
}
