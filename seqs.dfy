/**
 * The shape of both result loops of the search engine: walk a sequence in
 * order, skip some elements and turn each kept one into a result.
 */
module Seqs {
  import opened Wrappers

  /** The results of the kept elements of xs, in the order of xs. */
  function FilterMap<A, B>(f: A --> Option<B>, xs: seq<A>): seq<B>
    requires forall x :: x in xs ==> f.requires(x)
    decreases |xs|
  {
    if |xs| == 0 then []
    else
      (match f(xs[0]) case Some(y) => [y] case None => []) + FilterMap(f, xs[1..])
  }

  /** Filtering a concatenation filters each part and keeps them in order. */
  lemma {:induction false} FilterMapConcat<A, B>(f: A --> Option<B>, xs: seq<A>, ys: seq<A>)
    requires forall x :: x in xs + ys ==> f.requires(x)
    ensures FilterMap(f, xs + ys) == FilterMap(f, xs) + FilterMap(f, ys)
    decreases |xs|
  {
    if |xs| > 0 {
      assert (xs + ys)[1..] == xs[1..] + ys;
      FilterMapConcat(f, xs[1..], ys);
    } else {
      assert xs + ys == ys;
    }
  }

  /** A result comes from some element of xs, and every element that f keeps
      gives a result. */
  lemma {:induction false} FilterMapMember<A, B>(f: A --> Option<B>, xs: seq<A>, y: B)
    requires forall x :: x in xs ==> f.requires(x)
    ensures y in FilterMap(f, xs) <==> exists i :: 0 <= i < |xs| && f(xs[i]) == Some(y)
    decreases |xs|
  {
    if |xs| > 0 {
      FilterMapMember(f, xs[1..], y);
      if y in FilterMap(f, xs[1..]) {
        var i :| 0 <= i < |xs[1..]| && f(xs[1..][i]) == Some(y);
        assert f(xs[i + 1]) == Some(y);
      }
      if exists i :: 0 <= i < |xs| && f(xs[i]) == Some(y) {
        var i :| 0 <= i < |xs| && f(xs[i]) == Some(y);
        if i > 0 {
          assert xs[1..][i - 1] == xs[i];
        }
      }
    }
  }

  /** No element is dropped when f keeps them all. */
  lemma {:induction false} FilterMapKeepsAll<A, B>(f: A --> Option<B>, xs: seq<A>)
    requires forall x :: x in xs ==> f.requires(x) && f(x).Some?
    ensures |FilterMap(f, xs)| == |xs|
    decreases |xs|
  {
    if |xs| > 0 {
      FilterMapKeepsAll(f, xs[1..]);
    }
  }

  /** Nothing is kept when f keeps nothing. */
  lemma {:induction false} FilterMapKeepsNone<A, B>(f: A --> Option<B>, xs: seq<A>)
    requires forall x :: x in xs ==> f.requires(x) && f(x).None?
    ensures FilterMap(f, xs) == []
    decreases |xs|
  {
    if |xs| > 0 {
      FilterMapKeepsNone(f, xs[1..]);
    }
  }

  /** The elements of a sequence of sequences, in order. */
  function Flatten<A>(xss: seq<seq<A>>): seq<A>
    decreases |xss|
  {
    if |xss| == 0 then [] else xss[0] + Flatten(xss[1..])
  }

  lemma {:induction false} FlattenConcat<A>(xss: seq<seq<A>>, yss: seq<seq<A>>)
    ensures Flatten(xss + yss) == Flatten(xss) + Flatten(yss)
    decreases |xss|
  {
    if |xss| > 0 {
      assert (xss + yss)[1..] == xss[1..] + yss;
      FlattenConcat(xss[1..], yss);
    } else {
      assert xss + yss == yss;
    }
  }

  /** The next list is appended at the end. */
  lemma FlattenSnoc<A>(xss: seq<seq<A>>, i: nat)
    requires i < |xss|
    ensures Flatten(xss[..i + 1]) == Flatten(xss[..i]) + xss[i]
  {
    assert xss[..i + 1] == xss[..i] + [xss[i]];
    FlattenConcat(xss[..i], [xss[i]]);
  }

  /** An element of the flattening is an element of one of the lists. */
  lemma {:induction false} FlattenMember<A>(xss: seq<seq<A>>, x: A)
    ensures x in Flatten(xss) <==> exists k :: 0 <= k < |xss| && x in xss[k]
    decreases |xss|
  {
    if |xss| > 0 {
      FlattenMember(xss[1..], x);
      if exists k :: 0 <= k < |xss| && x in xss[k] {
        var k :| 0 <= k < |xss| && x in xss[k];
        if k > 0 {
          assert xss[1..][k - 1] == xss[k];
        }
      }
    }
  }

  /** A prefix of b is a prefix of every extension of b. */
  lemma PrefixExtends<A>(a: seq<A>, b: seq<A>, c: seq<A>)
    requires a <= b
    ensures a <= b + c
  {
    assert (b + c)[..|b|] == b;
    assert (b + c)[..|a|] == b[..|a|];
  }
}
