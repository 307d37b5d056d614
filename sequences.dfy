/** The "keep what a function accepts, in order" shape shared by the list
    comprehension of section discovery and the extraction loop of the driver. */
module Sequences {
  import opened Basics

  /** Apply `f` to every element and keep the values of the `Some` results, in order. */
  function FilterMap<A, B>(xs: seq<A>, f: A -> Option<B>): (r: seq<B>)
    ensures |r| <= |xs|
    decreases |xs|
  {
    if xs == [] then []
    else
      var last := match f(xs[|xs| - 1]) case Some(y) => [y] case None => [];
      FilterMap(xs[..|xs| - 1], f) + last
  }

  /** The indices of the elements `f` accepts, in increasing order. */
  ghost function Origins<A, B>(xs: seq<A>, f: A -> Option<B>): seq<nat>
    decreases |xs|
  {
    if xs == [] then []
    else Origins(xs[..|xs| - 1], f) + (if f(xs[|xs| - 1]).Some? then [|xs| - 1] else [])
  }

  /** Every origin is an index of `xs`, and the k-th kept value is `f` of
      the element at the k-th origin. */
  lemma {:induction false} OriginsValues<A, B>(xs: seq<A>, f: A -> Option<B>)
    ensures |Origins(xs, f)| == |FilterMap(xs, f)|
    ensures forall k :: 0 <= k < |Origins(xs, f)| ==>
              Origins(xs, f)[k] < |xs| && f(xs[Origins(xs, f)[k]]) == Some(FilterMap(xs, f)[k])
    decreases |xs|
  {
    if xs != [] {
      var n := |xs| - 1;
      var front := xs[..n];
      OriginsValues(front, f);
      var o, r := Origins(xs, f), FilterMap(xs, f);
      var o0, r0 := Origins(front, f), FilterMap(front, f);
      assert o[..|o0|] == o0 && r[..|r0|] == r0;
      forall k | 0 <= k < |o0| ensures o[k] == o0[k] && r[k] == r0[k] && xs[o0[k]] == front[o0[k]] {
      }
    }
  }

  /** The origins increase strictly and stay below `|xs|`. */
  lemma {:induction false} OriginsIncrease<A, B>(xs: seq<A>, f: A -> Option<B>)
    ensures forall k :: 0 <= k < |Origins(xs, f)| ==> Origins(xs, f)[k] < |xs|
    ensures forall k, l :: 0 <= k < l < |Origins(xs, f)| ==> Origins(xs, f)[k] < Origins(xs, f)[l]
    decreases |xs|
  {
    if xs != [] {
      var n := |xs| - 1;
      OriginsIncrease(xs[..n], f);
      var o, o0 := Origins(xs, f), Origins(xs[..n], f);
      assert forall k :: 0 <= k < |o0| ==> o[k] == o0[k];
    }
  }

  /** Every element `f` accepts is an origin. */
  lemma {:induction false} OriginsComplete<A, B>(xs: seq<A>, f: A -> Option<B>)
    ensures forall i :: 0 <= i < |xs| && f(xs[i]).Some? ==> i in Origins(xs, f)
    decreases |xs|
  {
    if xs != [] {
      var n := |xs| - 1;
      var front := xs[..n];
      OriginsComplete(front, f);
      var o, o0 := Origins(xs, f), Origins(front, f);
      assert o[..|o0|] == o0;
      forall i | 0 <= i < |xs| && f(xs[i]).Some? ensures i in o {
        if i < n {
          assert xs[i] == front[i];
          assert i in o0;
        } else {
          assert o[|o| - 1] == n;
        }
      }
    }
  }

  /** The k-th kept value is `f` of the element at the k-th origin; the origins
      increase strictly (so order is preserved and nothing is kept twice); and
      every element `f` accepts is the origin of some kept value. */
  lemma FilterMapOrigins<A, B>(xs: seq<A>, f: A -> Option<B>)
    ensures |Origins(xs, f)| == |FilterMap(xs, f)|
    ensures forall k :: 0 <= k < |Origins(xs, f)| ==>
              Origins(xs, f)[k] < |xs| && f(xs[Origins(xs, f)[k]]) == Some(FilterMap(xs, f)[k])
    ensures forall k, l :: 0 <= k < l < |Origins(xs, f)| ==> Origins(xs, f)[k] < Origins(xs, f)[l]
    ensures forall i :: 0 <= i < |xs| && f(xs[i]).Some? ==> i in Origins(xs, f)
  {
    OriginsValues(xs, f);
    OriginsIncrease(xs, f);
    OriginsComplete(xs, f);
  }

  /** A function that accepts everything as itself keeps the list unchanged. */
  lemma {:induction false} FilterMapKeepsAll<A>(xs: seq<A>, f: A -> Option<A>)
    requires forall i :: 0 <= i < |xs| ==> f(xs[i]) == Some(xs[i])
    ensures FilterMap(xs, f) == xs
    decreases |xs|
  {
    if xs != [] {
      FilterMapKeepsAll(xs[..|xs| - 1], f);
      assert xs == xs[..|xs| - 1] + [xs[|xs| - 1]];
    }
  }

  /** `FilterMap` for a function that may fail: the elements are tried in
      order and the first failure ends the scan. */
  function TryFilterMap<A, B, E>(xs: seq<A>, f: A -> Result<Option<B>, E>): Result<seq<B>, E>
    decreases |xs|
  {
    if xs == [] then Success([])
    else
      match TryFilterMap(xs[..|xs| - 1], f)
      case Failure(e) => Failure(e)
      case Success(ys) =>
        match f(xs[|xs| - 1])
        case Failure(e) => Failure(e)
        case Success(None) => Success(ys)
        case Success(Some(y)) => Success(ys + [y])
  }

  /** `f` without its failures. */
  function Recover<A, B, E>(f: A -> Result<Option<B>, E>): A -> Option<B>
  {
    x => match f(x) case Success(o) => o case Failure(_) => None
  }

  /** A scan in which nothing fails succeeds. */
  lemma {:induction false} TryFilterMapSucceeds<A, B, E>(xs: seq<A>, f: A -> Result<Option<B>, E>)
    requires forall i :: 0 <= i < |xs| ==> f(xs[i]).Success?
    ensures TryFilterMap(xs, f).Success?
    decreases |xs|
  {
    if xs != [] {
      var n := |xs| - 1;
      assert forall i :: 0 <= i < n ==> xs[..n][i] == xs[i];
      TryFilterMapSucceeds(xs[..n], f);
    }
  }

  /** A failure at any position is a failure of the scan. */
  lemma {:induction false} TryFilterMapFailsAt<A, B, E>(xs: seq<A>, f: A -> Result<Option<B>, E>, k: nat)
    requires k < |xs| && f(xs[k]).Failure?
    ensures TryFilterMap(xs, f).Failure?
    decreases |xs|
  {
    var n := |xs| - 1;
    if k < n {
      assert xs[..n][k] == xs[k];
      TryFilterMapFailsAt(xs[..n], f, k);
    }
  }

  /** The scan fails exactly when some element fails. */
  lemma TryFilterMapFails<A, B, E>(xs: seq<A>, f: A -> Result<Option<B>, E>)
    ensures TryFilterMap(xs, f).Success? <==> forall i :: 0 <= i < |xs| ==> f(xs[i]).Success?
  {
    if forall i :: 0 <= i < |xs| ==> f(xs[i]).Success? {
      TryFilterMapSucceeds(xs, f);
    } else {
      var k :| 0 <= k < |xs| && f(xs[k]).Failure?;
      TryFilterMapFailsAt(xs, f, k);
    }
  }

  /** A scan that does not fail keeps what `FilterMap` keeps. */
  lemma {:induction false} TryFilterMapKeeps<A, B, E>(xs: seq<A>, f: A -> Result<Option<B>, E>)
    requires TryFilterMap(xs, f).Success?
    ensures TryFilterMap(xs, f).value == FilterMap(xs, Recover(f))
    decreases |xs|
  {
    if xs != [] {
      var n := |xs| - 1;
      TryFilterMapKeeps(xs[..n], f);
    }
  }

  /** A failure in a prefix is the failure of the whole scan. */
  lemma {:induction false} TryFilterMapPrefixFailure<A, B, E>(xs: seq<A>, f: A -> Result<Option<B>, E>, k: nat)
    requires k <= |xs| && TryFilterMap(xs[..k], f).Failure?
    ensures TryFilterMap(xs, f) == TryFilterMap(xs[..k], f)
    decreases |xs| - k
  {
    if k < |xs| {
      assert xs[..k + 1][..k] == xs[..k];
      TryFilterMapPrefixFailure(xs, f, k + 1);
    } else {
      assert xs[..k] == xs;
    }
  }
}
