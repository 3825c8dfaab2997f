/** Facts about sequences stated for any element type. Stated generically, their proofs
    never compare elements, which for sequences of strings or records would make the
    solver compare those element by element as well. */
module Sequences {

  /** Concatenation is associative. */
  lemma ConcatAssoc<T>(x: seq<T>, y: seq<T>, z: seq<T>)
    ensures x + (y + z) == (x + y) + z
  {
  }

  /** A non-empty sequence is its head followed by its tail. */
  lemma HeadTail<T>(s: seq<T>)
    requires s != []
    ensures s == [s[0]] + s[1..]
  {
  }

  /** The head and the tail of `[x] + s`. */
  lemma ConsParts<T>(x: T, s: seq<T>)
    ensures ([x] + s)[0] == x && ([x] + s)[1..] == s
  {
  }

  /** `[f(x) for x in xs]`. The element function is passed in as a value, so proofs
      about the shape of the list never unfold it. */
  function MapAll<A, B>(f: A -> B, xs: seq<A>): (r: seq<B>)
    ensures |r| == |xs| && forall k :: 0 <= k < |r| ==> r[k] == f(xs[k])
  {
    seq(|xs|, k requires 0 <= k < |xs| => f(xs[k]))
  }

  lemma MapConcat<A, B>(f: A -> B, a: seq<A>, b: seq<A>)
    ensures MapAll(f, a + b) == MapAll(f, a) + MapAll(f, b)
  {
  }

  /** Taking one more element of `xs` appends its image. */
  lemma MapPrefixStep<A, B>(f: A -> B, xs: seq<A>, i: int)
    requires 0 <= i < |xs|
    ensures MapAll(f, xs[..i + 1]) == MapAll(f, xs[..i]) + [f(xs[i])]
    ensures MapAll(f, xs[..i + 1])[..i] == MapAll(f, xs[..i])
  {
    assert xs[..i + 1] == xs[..i] + [xs[i]];
    MapConcat(f, xs[..i], [xs[i]]);
  }
}
