/**
Iteration in the order of a `std::map`: ascending keys under a total order.
 */
module Ordering {
  ghost predicate TotalOrder<K(!new)>(leq: (K, K) -> bool) {
    && (forall a, b :: leq(a, b) || leq(b, a))
    && (forall a, b :: leq(a, b) && leq(b, a) ==> a == b)
    && (forall a, b, c :: leq(a, b) && leq(b, c) ==> leq(a, c))
  }

  /** `order` lists every element of `keys` exactly once. */
  ghost predicate Enumerates<K(!new)>(order: seq<K>, keys: set<K>) {
    && |order| == |keys|
    && (forall k :: k in order <==> k in keys)
    && (forall i, j :: 0 <= i < j < |order| ==> order[i] != order[j])
  }

  lemma EnumeratedKeys<K(!new)>(order: seq<K>, keys: set<K>)
    requires Enumerates(order, keys)
    ensures forall i :: 0 <= i < |order| ==> order[i] in keys
    ensures forall i, j :: 0 <= i < j < |order| ==> order[i] != order[j]
  {
    forall i | 0 <= i < |order| ensures order[i] in keys {
      assert order[i] in order;
    }
  }

  lemma {:induction false} LeastExists<K(!new)>(keys: set<K>, leq: (K, K) -> bool)
    requires TotalOrder(leq)
    requires keys != {}
    ensures exists k :: k in keys && forall x | x in keys :: leq(k, x)
    decreases |keys|
  {
    var a :| a in keys;
    if keys == {a} {
      assert forall x | x in keys :: leq(a, x);
    } else {
      LeastExists(keys - {a}, leq);
      var b :| b in keys - {a} && forall x | x in keys - {a} :: leq(b, x);
      var k := if leq(a, b) then a else b;
      forall x | x in keys ensures leq(k, x) {}
    }
  }

  function Sorted<K(!new)>(keys: set<K>, leq: (K, K) -> bool): (order: seq<K>)
    requires TotalOrder(leq)
    ensures Enumerates(order, keys)
    ensures forall i, j :: 0 <= i < j < |order| ==> leq(order[i], order[j])
  {
    if keys == {} then [] else
      LeastExists(keys, leq);
      var k :| k in keys && forall x | x in keys :: leq(k, x);
      [k] + Sorted(keys - {k}, leq)
  }

  /** `std::string` order: lexicographic on characters. */
  predicate StringLeq(a: string, b: string) {
    a == "" || (b != "" && (a[0] < b[0] || (a[0] == b[0] && StringLeq(a[1..], b[1..]))))
  }

  lemma {:induction false} StringTotal(a: string, b: string)
    ensures StringLeq(a, b) || StringLeq(b, a)
  {
    if a != "" && b != "" {
      StringTotal(a[1..], b[1..]);
    }
  }

  lemma {:induction false} StringAntisymmetric(a: string, b: string)
    requires StringLeq(a, b) && StringLeq(b, a)
    ensures a == b
  {
    if a != "" {
      StringAntisymmetric(a[1..], b[1..]);
      assert a == [a[0]] + a[1..] && b == [b[0]] + b[1..];
    }
  }

  lemma {:induction false} StringTransitive(a: string, b: string, c: string)
    requires StringLeq(a, b) && StringLeq(b, c)
    ensures StringLeq(a, c)
  {
    if a != "" && a[0] == b[0] == c[0] {
      StringTransitive(a[1..], b[1..], c[1..]);
    }
  }

  /** The strings agree up to position k, where the first has the smaller character. */
  ghost predicate SmallerAt(a: string, b: string, k: nat) {
    k < |a| && k < |b| && a[..k] == b[..k] && a[k] < b[k]
  }

  /** A prefix comes first, and otherwise the first different character decides. */
  lemma {:induction false} StringLeqExact(a: string, b: string)
    ensures StringLeq(a, b) <==> a <= b || exists k :: SmallerAt(a, b, k)
    decreases |a|
  {
    if a != "" && b != "" {
      if a[0] == b[0] {
        StringLeqExact(a[1..], b[1..]);
        assert a == [a[0]] + a[1..] && b == [b[0]] + b[1..];
        if k: nat :| SmallerAt(a[1..], b[1..], k) {
          assert a[..k + 1] == [a[0]] + a[1..][..k] && b[..k + 1] == [b[0]] + b[1..][..k];
          assert SmallerAt(a, b, k + 1);
        }
        if k: nat :| SmallerAt(a, b, k) {
          assert k > 0 && a[1..][..k - 1] == a[..k][1..] && b[1..][..k - 1] == b[..k][1..];
          assert SmallerAt(a[1..], b[1..], k - 1);
        }
      } else {
        assert a[0] < b[0] ==> SmallerAt(a, b, 0) by { assert a[..0] == b[..0]; }
        forall k: nat | SmallerAt(a, b, k) ensures a[0] < b[0] {
          assert k > 0 ==> a[..k][0] == b[..k][0];
        }
      }
    }
  }

  lemma StringOrder()
    ensures TotalOrder(StringLeq)
  {
    forall a, b ensures StringLeq(a, b) || StringLeq(b, a) { StringTotal(a, b); }
    forall a, b | StringLeq(a, b) && StringLeq(b, a) ensures a == b { StringAntisymmetric(a, b); }
    forall a, b, c | StringLeq(a, b) && StringLeq(b, c) ensures StringLeq(a, c) { StringTransitive(a, b, c); }
  }

  /** The keys of a map keyed by strings, in iteration order. */
  function Ascending(keys: set<string>): (order: seq<string>)
    ensures Enumerates(order, keys)
    ensures forall i, j :: 0 <= i < j < |order| ==> StringLeq(order[i], order[j])
  {
    StringOrder();
    Sorted(keys, StringLeq)
  }
}
