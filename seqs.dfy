/**
 * Facts about sequence slicing and concatenation, stated once for any
 * element type so that the proofs that need them do not have to re-derive
 * them from sequence extensionality over their own, larger element types.
 */
module Seqs {

  lemma AppendAssoc<T>(a: seq<T>, b: seq<T>, c: seq<T>)
    ensures a + (b + c) == (a + b) + c
  {
  }

  /** The head and tail of a concatenation whose left part is not empty. */
  lemma AppendHeadTail<T>(a: seq<T>, b: seq<T>)
    requires a != []
    ensures (a + b)[0] == a[0] && (a + b)[1..] == a[1..] + b
  {
  }

  lemma AppendEmpty<T>(a: seq<T>)
    ensures [] + a == a && a + [] == a
  {
  }

  /** Extending a prefix by one element. */
  lemma PrefixSnoc<T>(xs: seq<T>, i: nat)
    requires i < |xs|
    ensures xs[..i + 1] == xs[..i] + [xs[i]]
  {
  }

  lemma PrefixAll<T>(xs: seq<T>)
    ensures xs[..|xs|] == xs
  {
  }

  /** Dropping `j + 1` elements is dropping `j` and then one more. */
  lemma SuffixStep<T>(xs: seq<T>, j: nat)
    requires j < |xs|
    ensures xs[j..][0] == xs[j] && xs[j..][1..] == xs[j + 1..]
  {
  }

  /** The tail of a prefix is a prefix of the tail. */
  lemma PrefixTail<T>(xs: seq<T>, j: nat)
    requires 0 < j <= |xs|
    ensures xs[..j][1..] == xs[1..][..j - 1]
  {
  }

  lemma PrefixOfPrefix<T>(xs: seq<T>, i: nat, j: nat)
    requires i <= j <= |xs|
    ensures xs[..j][..i] == xs[..i]
  {
  }

  /** The pieces of a five-piece concatenation, recovered by slicing at their offsets. */
  lemma Concat5<T>(p0: seq<T>, p1: seq<T>, p2: seq<T>, p3: seq<T>, p4: seq<T>)
    ensures var t := p0 + p1 + p2 + p3 + p4;
      var o1 := |p0|; var o2 := o1 + |p1|; var o3 := o2 + |p2|; var o4 := o3 + |p3|;
      && |t| == o4 + |p4|
      && t[..o1] == p0 && t[o1..o2] == p1 && t[o2..o3] == p2 && t[o3..o4] == p3 && t[o4..] == p4
  {
  }

  /** The pieces of a six-piece concatenation, recovered by slicing at their offsets. */
  lemma Concat6<T>(p0: seq<T>, p1: seq<T>, p2: seq<T>, p3: seq<T>, p4: seq<T>, p5: seq<T>)
    ensures var t := p0 + p1 + p2 + p3 + p4 + p5;
      var o1 := |p0|; var o2 := o1 + |p1|; var o3 := o2 + |p2|; var o4 := o3 + |p3|; var o5 := o4 + |p4|;
      && |t| == o5 + |p5|
      && t[..o1] == p0 && t[o1..o2] == p1 && t[o2..o3] == p2 && t[o3..o4] == p3 && t[o4..o5] == p4 && t[o5..] == p5
  {
  }

  /** Each element paired with its position, as Python's `enumerate`. */
  function Enumerate<T>(xs: seq<T>): (r: seq<(nat, T)>)
    ensures |r| == |xs|
    ensures forall k | 0 <= k < |xs| :: r[k] == (k, xs[k])
  {
    seq(|xs|, k requires 0 <= k < |xs| => (k, xs[k]))
  }

  /** Enumerating a prefix gives a prefix of the enumeration. */
  lemma EnumeratePrefix<T>(xs: seq<T>, j: nat)
    requires j <= |xs|
    ensures Enumerate(xs[..j]) == Enumerate(xs)[..j]
  {
  }

  /** `f` applied to every element, in order. */
  function Map<T, U>(xs: seq<T>, f: T -> U): (r: seq<U>)
    ensures |r| == |xs|
    ensures forall k | 0 <= k < |xs| :: r[k] == f(xs[k])
  {
    if xs == [] then [] else Map(xs[..|xs| - 1], f) + [f(xs[|xs| - 1])]
  }

  /** The concatenation of `f(x)` over the elements `x` of `xs`, in order. */
  function FlatMap<T, U>(xs: seq<T>, f: T -> seq<U>): seq<U> {
    if xs == [] then [] else FlatMap(xs[..|xs| - 1], f) + f(xs[|xs| - 1])
  }

  lemma MapSnoc<T, U>(xs: seq<T>, j: nat, f: T -> U)
    requires j < |xs|
    ensures Map(xs[..j + 1], f) == Map(xs[..j], f) + [f(xs[j])]
  {
    assert xs[..j + 1][..j] == xs[..j];
  }

  lemma FlatMapSnoc<T, U>(xs: seq<T>, j: nat, f: T -> seq<U>)
    requires j < |xs|
    ensures FlatMap(xs[..j + 1], f) == FlatMap(xs[..j], f) + f(xs[j])
  {
    assert xs[..j + 1][..j] == xs[..j];
  }

  /** The elements of a `FlatMap` are exactly those of the images of the elements. */
  lemma {:induction false} FlatMapMembers<T, U>(xs: seq<T>, f: T -> seq<U>)
    ensures forall y :: y in FlatMap(xs, f) <==> exists k | 0 <= k < |xs| :: y in f(xs[k])
  {
    if xs != [] {
      var init := xs[..|xs| - 1];
      FlatMapMembers(init, f);
      forall y ensures y in FlatMap(xs, f) <==> exists k | 0 <= k < |xs| :: y in f(xs[k]) {
        if y in FlatMap(init, f) {
          var k :| 0 <= k < |init| && y in f(init[k]);
          assert init[k] == xs[k];
        }
        if exists k | 0 <= k < |xs| :: y in f(xs[k]) {
          var k :| 0 <= k < |xs| && y in f(xs[k]);
          if k < |init| {
            assert init[k] == xs[k];
          }
        }
      }
    }
  }

  /** The length of a `FlatMap` whose images have at most one element is at most the input's. */
  lemma {:induction false} FlatMapAtMostOne<T, U>(xs: seq<T>, f: T -> seq<U>)
    requires forall k | 0 <= k < |xs| :: |f(xs[k])| <= 1
    ensures |FlatMap(xs, f)| <= |xs|
  {
    if xs != [] {
      var init := xs[..|xs| - 1];
      forall k | 0 <= k < |init| ensures |f(init[k])| <= 1 {
        assert init[k] == xs[k];
      }
      FlatMapAtMostOne(init, f);
    }
  }
}
