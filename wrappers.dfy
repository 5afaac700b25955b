/** Option and Result, the shapes of Rust's `Option<T>` and `Result<T, E>`,
    and the filter-map over a sequence that a loop pushing only its `Some`
    results computes. */
module Wrappers {

  datatype Option<+T> = None | Some(value: T)

  datatype Result<+T, +E> = Ok(value: T) | Err(error: E)

  /** The values `f` gives, in order, for the elements it does not reject. */
  function FilterMap<A, B>(f: A -> Option<B>, xs: seq<A>): (ys: seq<B>)
    ensures |ys| <= |xs|
  {
    if xs == [] then []
    else match f(xs[0])
      case None => FilterMap(f, xs[1..])
      case Some(y) => [y] + FilterMap(f, xs[1..])
  }

  /** Filter-mapping a concatenation: the results of the first part come first. */
  lemma {:induction false} FilterMapAppend<A, B>(f: A -> Option<B>, xs: seq<A>, zs: seq<A>)
    ensures FilterMap(f, xs + zs) == FilterMap(f, xs) + FilterMap(f, zs)
  {
    if xs != [] {
      assert (xs + zs)[0] == xs[0] && (xs + zs)[1..] == xs[1..] + zs;
      FilterMapAppend(f, xs[1..], zs);
    } else {
      assert xs + zs == zs;
    }
  }

  /** Filter-mapping one element. */
  lemma FilterMapOne<A, B>(f: A -> Option<B>, x: A)
    ensures FilterMap(f, [x]) == match f(x) case None => [] case Some(y) => [y]
  {
    assert [x][1..] == [];
  }

  /** A value is in the result exactly when `f` gives it for some element. */
  lemma {:induction false} FilterMapMembership<A, B>(f: A -> Option<B>, xs: seq<A>, y: B)
    ensures y in FilterMap(f, xs) <==> exists k :: 0 <= k < |xs| && f(xs[k]) == Some(y)
  {
    if xs != [] {
      FilterMapMembership(f, xs[1..], y);
      if exists k :: 0 <= k < |xs| && f(xs[k]) == Some(y) {
        var k :| 0 <= k < |xs| && f(xs[k]) == Some(y);
        if k > 0 {
          assert f(xs[1..][k - 1]) == Some(y);
        }
      }
      if y in FilterMap(f, xs[1..]) {
        var k :| 0 <= k < |xs[1..]| && f(xs[1..][k]) == Some(y);
        assert f(xs[k + 1]) == Some(y);
      }
    }
  }

  /** The result is empty exactly when `f` rejects every element. */
  lemma {:induction false} FilterMapEmpty<A, B>(f: A -> Option<B>, xs: seq<A>)
    ensures FilterMap(f, xs) == [] <==> forall k :: 0 <= k < |xs| ==> f(xs[k]).None?
  {
    if xs != [] {
      FilterMapEmpty(f, xs[1..]);
      if forall k :: 0 <= k < |xs| ==> f(xs[k]).None? {
        forall k | 0 <= k < |xs[1..]| ensures f(xs[1..][k]).None? {
          assert xs[1..][k] == xs[k + 1];
        }
      } else if f(xs[0]).None? {
        var k :| 0 <= k < |xs| && f(xs[k]).Some?;
        assert xs[1..][k - 1] == xs[k];
      }
    }
  }

  /** Every result satisfies `p` when `f` only ever gives values satisfying `p`. */
  lemma {:induction false} FilterMapAll<A, B>(f: A -> Option<B>, xs: seq<A>, p: B -> bool)
    requires forall k :: 0 <= k < |xs| && f(xs[k]).Some? ==> p(f(xs[k]).value)
    ensures forall k :: 0 <= k < |FilterMap(f, xs)| ==> p(FilterMap(f, xs)[k])
  {
    if xs != [] {
      forall k | 0 <= k < |xs[1..]| && f(xs[1..][k]).Some? ensures p(f(xs[1..][k]).value) {
        assert xs[1..][k] == xs[k + 1];
      }
      FilterMapAll(f, xs[1..], p);
    }
  }
}
