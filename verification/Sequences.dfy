/**
Concatenation facts the loop invariants lean on.
 */
module Sequences {
  /** Concatenation, without ever writing `[] + b` or `a + []`. */
  function Join<T>(a: seq<T>, b: seq<T>): seq<T> {
    if a == [] then b else if b == [] then a else a + b
  }

  lemma JoinIsConcat<T>(a: seq<T>, b: seq<T>)
    ensures Join(a, b) == a + b
  {}

  /** One more element done, the others still to come. */
  lemma JoinStep<T>(done: seq<T>, x: T, others: seq<T>)
    ensures Join(done + [x], others) == Join(done, [x] + others)
    ensures Join(done + [x], others) == Join(done, Join([x], others))
  {}

  lemma JoinAssociates<T>(a: seq<T>, b: seq<T>, c: seq<T>)
    ensures Join(Join(a, b), c) == Join(a, Join(b, c))
  {}

  lemma Regroup<T>(a: seq<T>, b: seq<T>, c: seq<T>, tail: seq<T>)
    ensures a + b + c + tail == a + (b + (c + tail))
    ensures a + b + tail == a + (b + tail)
  {}

  /** A prefix that ends in the second part. */
  lemma TakeAcross<T>(a: seq<T>, b: seq<T>, tail: seq<T>, n: nat)
    requires |a| <= n <= |a| + |b|
    ensures (a + (b + tail))[..n] == a + b[..n - |a|]
  {}

  /** A concatenation without its last element. */
  lemma FrontOfConcat<T>(a: seq<T>, b: seq<T>)
    requires b != []
    ensures (a + b)[|a + b| - 1] == b[|b| - 1] && (a + b)[..|a + b| - 1] == a + b[..|b| - 1]
  {}

  /** The prefixes a loop passes through. */
  lemma TakeFront<T>(s: seq<T>, i: nat)
    requires i < |s|
    ensures |s[..i + 1]| == i + 1 && s[..i + 1][i] == s[i] && s[..i + 1][..i] == s[..i]
  {}

  /** Splitting behind the first element. */
  lemma SplitFirst<T>(s: seq<T>, i: nat)
    requires i < |s|
    ensures s[..i + 1] == [s[0]] + s[1..][..i] && s[1..][i..] == s[i + 1..]
  {}

  lemma TakeAll<T>(s: seq<T>)
    ensures s[..|s|] == s
  {}
}
