/** Secret data as maps from flat keys to values, and additive measures over them. */
module Totals {

  newtype byte = x: int | 0 <= x < 256

  type Value = seq<byte>

  type Data = map<string, Value>

  /** What one entry contributes to a measure. */
  type Weight = (string, Value) -> nat

  function ByteLength(key: string, value: Value): nat {
    |value|
  }

  /** Sum of the weights of all entries. Entries contribute independently. */
  ghost function Total(m: Data, w: Weight): nat {
    if m == map[] then 0
    else
      var k :| k in m;
      w(k, m[k]) + Total(m - {k}, w)
  }

  lemma {:induction false} TotalWithout(m: Data, w: Weight, key: string)
    requires key in m
    ensures Total(m, w) == w(key, m[key]) + Total(m - {key}, w)
    decreases |m|
  {
    var k :| k in m && Total(m, w) == w(k, m[k]) + Total(m - {k}, w);
    if k != key {
      TotalWithout(m - {k}, w, key);
      TotalWithout(m - {key}, w, k);
      assert m - {k} - {key} == m - {key} - {k};
    }
  }

  /** Writing one entry moves the total by the difference between its new and its old weight. */
  lemma TotalUpdate(m: Data, w: Weight, key: string, value: Value)
    ensures Total(m[key := value], w) ==
            Total(m, w) + w(key, value) - (if key in m then w(key, m[key]) else 0)
  {
    TotalWithout(m[key := value], w, key);
    assert m[key := value] - {key} == m - {key};
    if key in m {
      TotalWithout(m, w, key);
    } else {
      assert m - {key} == m;
    }
  }

  /** Data whose every entry is outweighed by an entry under the same key is outweighed as a whole. */
  lemma {:induction false} TotalMonotone(small: Data, large: Data, w: Weight)
    requires forall k :: k in small ==> k in large && w(k, small[k]) <= w(k, large[k])
    ensures Total(small, w) <= Total(large, w)
    decreases |small|
  {
    if small != map[] {
      var k :| k in small;
      TotalWithout(small, w, k);
      TotalWithout(large, w, k);
      TotalMonotone(small - {k}, large - {k}, w);
    }
  }

  lemma UnionWithout(a: Data, b: Data, key: string)
    requires key !in a
    ensures a + b - {key} == a + (b - {key})
  {
    assert (a + b - {key}).Keys == (a + (b - {key})).Keys;
  }

  lemma {:induction false} TotalDisjointUnion(a: Data, b: Data, w: Weight)
    requires forall k :: k in b ==> k !in a
    ensures Total(a + b, w) == Total(a, w) + Total(b, w)
    decreases |b|
  {
    if b == map[] {
      assert a + b == a;
    } else {
      var k :| k in b;
      TotalWithout(b, w, k);
      TotalWithout(a + b, w, k);
      assert (a + b)[k] == b[k];
      UnionWithout(a, b, k);
      TotalDisjointUnion(a, b - {k}, w);
    }
  }

  /** Adds up the weights in one pass over the entries. */
  method Measure(m: Data, w: Weight) returns (total: nat)
    ensures total == Total(m, w)
  {
    total := 0;
    var rest := m;
    while rest != map[]
      invariant total + Total(rest, w) == Total(m, w)
      decreases |rest|
    {
      var k :| k in rest;
      TotalWithout(rest, w, k);
      total := total + w(k, rest[k]);
      rest := rest - {k};
    }
  }
}
