module Wrappers {
  datatype Option<+T> = None | Some(value: T)

  type Byte = n: int | 0 <= n < 256
}

/** What a loop that appends a few results an element builds. */
module FlatMaps {
  /** The results of the first k elements. */
  function FlatMapTo<A, B>(f: A -> seq<B>, xs: seq<A>, k: nat): seq<B>
    requires k <= |xs|
  {
    if k == 0 then [] else FlatMapTo(f, xs, k - 1) + f(xs[k - 1])
  }

  function FlatMap<A, B>(f: A -> seq<B>, xs: seq<A>): seq<B> { FlatMapTo(f, xs, |xs|) }

  lemma {:induction false} FlatMapToConcat<A, B>(f: A -> seq<B>, xs: seq<A>, ys: seq<A>, k: nat)
    requires k <= |xs| + |ys|
    ensures FlatMapTo(f, xs + ys, k) ==
              if k <= |xs| then FlatMapTo(f, xs, k) else FlatMap(f, xs) + FlatMapTo(f, ys, k - |xs|)
  {
    if k > 0 {
      FlatMapToConcat(f, xs, ys, k - 1);
    }
  }

  lemma FlatMapConcat<A, B>(f: A -> seq<B>, xs: seq<A>, ys: seq<A>)
    ensures FlatMap(f, xs + ys) == FlatMap(f, xs) + FlatMap(f, ys)
  {
    FlatMapToConcat(f, xs, ys, |xs| + |ys|);
  }

  lemma FlatMapOne<A, B>(f: A -> seq<B>, x: A)
    ensures FlatMap(f, [x]) == f(x)
  {
    assert FlatMapTo(f, [x], 1) == FlatMapTo(f, [x], 0) + f([x][0]);
  }

  lemma {:induction false} FlatMapSingles<A, B>(f: A -> seq<B>, xs: seq<A>, ys: seq<B>, k: nat)
    requires |xs| == |ys| && k <= |xs|
    requires forall i :: 0 <= i < |xs| ==> f(xs[i]) == [ys[i]]
    ensures FlatMapTo(f, xs, k) == ys[..k]
  {
    if k > 0 {
      FlatMapSingles(f, xs, ys, k - 1);
    }
  }
}
