/**
 * The two list-building shapes the ingest loops use: appending each
 * element's list of results (`for v in vars: out.extend(...)`), and
 * appending each element's result when there is one (`try: out.append(...)
 * except: continue`).
 */
module Seqs {
  import opened Wrappers

  /** The concatenation of `f(x)` over `xs`, in order. */
  function FlatMap<A, B>(f: A -> seq<B>, xs: seq<A>): seq<B>
    decreases |xs|
  {
    if xs == [] then [] else FlatMap(f, xs[..|xs| - 1]) + f(xs[|xs| - 1])
  }

  /** The list holding the value of `o`, if any. */
  function Present<B>(o: Option<B>): (s: seq<B>)
    ensures |s| <= 1
    ensures s == [] <==> o.None?
    ensures o.Some? ==> s == [o.value]
  {
    match o
    case Some(y) => [y]
    case None => []
  }

  /** The present results of `f(x)` over `xs`, in order. */
  function Collect<A, B>(f: A -> Option<B>, xs: seq<A>): seq<B>
    decreases |xs|
  {
    if xs == [] then [] else Collect(f, xs[..|xs| - 1]) + Present(f(xs[|xs| - 1]))
  }

  lemma {:induction false} FlatMapAppend<A, B>(f: A -> seq<B>, a: seq<A>, b: seq<A>)
    ensures FlatMap(f, a + b) == FlatMap(f, a) + FlatMap(f, b)
    decreases |b|
  {
    if b == [] {
      assert a + b == a;
    } else {
      FlatMapAppend(f, a, b[..|b| - 1]);
      assert (a + b)[..|a + b| - 1] == a + b[..|b| - 1];
    }
  }

  /** One more element appends its results. */
  lemma FlatMapSnoc<A, B>(f: A -> seq<B>, xs: seq<A>, x: A)
    ensures FlatMap(f, xs + [x]) == FlatMap(f, xs) + f(x)
  {
    assert (xs + [x])[..|xs|] == xs;
  }

  lemma FlatMapSingle<A, B>(f: A -> seq<B>, x: A)
    ensures FlatMap(f, [x]) == f(x)
  {
    assert [x][..0] == [];
  }

  /** Every result comes from one element of the input. */
  lemma {:induction false} FlatMapMember<A, B>(f: A -> seq<B>, xs: seq<A>, y: B)
    requires y in FlatMap(f, xs)
    ensures exists k :: 0 <= k < |xs| && y in f(xs[k])
    decreases |xs|
  {
    var init := xs[..|xs| - 1];
    if y in FlatMap(f, init) {
      FlatMapMember(f, init, y);
      var k :| 0 <= k < |init| && y in f(init[k]);
      assert xs[k] == init[k];
    } else {
      assert y in f(xs[|xs| - 1]);
    }
  }

  /** One more element appends its result, if it has one. */
  lemma CollectSnoc<A, B>(f: A -> Option<B>, xs: seq<A>, x: A)
    ensures Collect(f, xs + [x]) == Collect(f, xs) + Present(f(x))
  {
    assert (xs + [x])[..|xs|] == xs;
  }

  /** Never more results than elements. */
  lemma {:induction false} CollectLength<A, B>(f: A -> Option<B>, xs: seq<A>)
    ensures |Collect(f, xs)| <= |xs|
    decreases |xs|
  {
    if xs != [] {
      CollectLength(f, xs[..|xs| - 1]);
    }
  }

  /** When every element has a result, the results line up with the elements. */
  lemma {:induction false} CollectAll<A, B>(f: A -> Option<B>, xs: seq<A>)
    requires forall k :: 0 <= k < |xs| ==> f(xs[k]).Some?
    ensures |Collect(f, xs)| == |xs|
    ensures forall k :: 0 <= k < |xs| ==> Collect(f, xs)[k] == f(xs[k]).value
    decreases |xs|
  {
    if xs != [] {
      CollectAll(f, xs[..|xs| - 1]);
    }
  }

  /** Every result is the result of one element of the input. */
  lemma {:induction false} CollectMember<A, B>(f: A -> Option<B>, xs: seq<A>, y: B)
    requires y in Collect(f, xs)
    ensures exists k :: 0 <= k < |xs| && f(xs[k]) == Some(y)
    decreases |xs|
  {
    var init := xs[..|xs| - 1];
    if y in Collect(f, init) {
      CollectMember(f, init, y);
      var k :| 0 <= k < |init| && f(init[k]) == Some(y);
      assert xs[k] == init[k];
    } else {
      assert f(xs[|xs| - 1]) == Some(y);
    }
  }
}
