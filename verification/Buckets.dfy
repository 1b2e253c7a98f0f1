/** Splitting namespaces over routing buckets. */
module Buckets {
  import opened Outcomes
  import opened Totals

  const MAX_ROUTE_BUCKETS: nat := 256

  function CeilDiv(n: nat, d: nat): nat
    requires d > 0
  {
    (n + d - 1) / d
  }

  /** Conditions evaluated per event with `b` buckets: all first-level ones and one bucket's share. */
  function Cost(n: nat, b: nat): nat
    requires b > 0
  {
    b + CeilDiv(n, b)
  }

  predicate PowerOfTwo(b: nat) {
    b == 1 || (b > 1 && b % 2 == 0 && PowerOfTwo(b / 2))
  }

  /** `b` is a bucket count the operator may choose. */
  predicate Candidate(b: nat) {
    PowerOfTwo(b) && b <= MAX_ROUTE_BUCKETS
  }

  /** Doubling a count that already covers `n` as a square only costs more. */
  lemma {:induction false} DoublingCosts(n: nat, b: nat)
    requires b > 0 && b * b >= n
    ensures Cost(n, b) <= Cost(n, 2 * b)
    ensures CeilDiv(n, b) <= b
  {
    CeilDivBounds(n, b);
    CeilDivBounds(n, 2 * b);
    var c := CeilDiv(n, b);
    assert c <= b by {
      if c > b { Multiply(b, b, c - 1); }
    }
    if CeilDiv(n, 2 * b) == 0 {
      assert n == 0;
    }
  }

  lemma Multiply(d: nat, a: nat, b: nat)
    requires a <= b
    ensures d * a <= d * b
  {
  }

  lemma CeilDivBounds(n: nat, d: nat)
    requires d > 0
    ensures d * (CeilDiv(n, d) - 1) < n <= d * CeilDiv(n, d) || (n == 0 && CeilDiv(n, d) == 0)
  {
    var m := n + d - 1;
    assert m == d * (m / d) + m % d;
    if n > 0 {
      assert d * (CeilDiv(n, d) - 1) == d * CeilDiv(n, d) - d;
    }
  }

  lemma PowersHalve(c: nat, d: nat)
    requires PowerOfTwo(c) && PowerOfTwo(d) && c < d
    ensures 2 * c <= d
  {
  }

  /** Below the square root of `n`, doubling a count strictly pays off. */
  lemma DoublingPays(n: nat, q: nat)
    requires q > 0 && (2 * q) * (2 * q) < n
    ensures Cost(n, 2 * q) < Cost(n, q)
  {
    CeilDivBounds(n, q);
    CeilDivBounds(n, 2 * q);
    var m, k := CeilDiv(n, 2 * q), CeilDiv(n, q);
    Cancel(2 * q, 2 * q, m);
    assert q * (2 * (m - 1)) == 2 * q * (m - 1) < n;
    Cancel(q, 2 * (m - 1), k);
  }

  lemma Cancel(d: nat, a: int, b: int)
    requires d * a < d * b
    ensures a < b
  {
  }

  lemma Square(a: nat, b: nat)
    requires a <= b
    ensures a * a <= b * b
  {
    Multiply(a, a, b);
    Multiply(b, a, b);
  }

  lemma {:induction false} CheaperBelow(n: nat, c: nat, h: nat)
    requires PowerOfTwo(c) && PowerOfTwo(h) && c <= h && h * h < n
    ensures Cost(n, h) <= Cost(n, c) && (c < h ==> Cost(n, h) < Cost(n, c))
    decreases h - c
  {
    if c < h {
      PowersHalve(c, h);
      Square(2 * c, h);
      DoublingPays(n, c);
      CheaperBelow(n, 2 * c, h);
    }
  }

  lemma {:induction false} CheaperAbove(n: nat, b: nat, c: nat)
    requires PowerOfTwo(b) && PowerOfTwo(c) && b <= c && b * b >= n
    ensures Cost(n, b) <= Cost(n, c)
    decreases c - b
  {
    if b < c {
      var twice := 2 * b;
      PowersHalve(b, c);
      DoublingCosts(n, b);
      Square(b, twice);
      CheaperAbove(n, twice, c);
    }
  }

  /** The choice is the cheapest of all powers of two up to the limit, the smaller one on a tie. */
  ghost predicate Cheapest(n: nat, b: nat) {
    && Candidate(b)
    && forall c :: Candidate(c) ==> Cost(n, b) < Cost(n, c) || (Cost(n, b) == Cost(n, c) && b <= c)
  }

  /** `top` is the first power of two not below the square root, or the limit. */
  lemma HalfOrTop(n: nat, top: nat)
    requires Candidate(top) && (top * top >= n || top == MAX_ROUTE_BUCKETS)
    requires top > 1 ==> (top / 2) * (top / 2) < n
    ensures Cheapest(n, if top > 1 && Cost(n, top / 2) <= Cost(n, top) then top / 2 else top)
  {
    forall c: nat | Candidate(c) && c > top ensures Cost(n, top) <= Cost(n, c) {
      CheaperAbove(n, top, c);
    }
    if top > 1 {
      var half := top / 2;
      forall c: nat | Candidate(c) && c <= half
        ensures Cost(n, half) <= Cost(n, c) && (c < half ==> Cost(n, half) < Cost(n, c))
      {
        CheaperBelow(n, c, half);
      }
      forall c: nat | Candidate(c) && half < c ensures top <= c {
        PowersHalve(half, c);
      }
    }
  }

  lemma {:induction false} TopExists(n: nat, b: nat) returns (top: nat)
    requires Candidate(b) && (b > 1 ==> (b / 2) * (b / 2) < n)
    ensures Candidate(top) && (top * top >= n || top == MAX_ROUTE_BUCKETS)
    ensures top > 1 ==> (top / 2) * (top / 2) < n
    decreases MAX_ROUTE_BUCKETS - b
  {
    if b * b < n && b < MAX_ROUTE_BUCKETS {
      PowersHalve(b, MAX_ROUTE_BUCKETS);
      top := TopExists(n, 2 * b);
    } else {
      top := b;
    }
  }

  /** The cheapest bucket count for `n` namespaces. */
  ghost function BestBuckets(n: nat): (b: nat)
    ensures Cheapest(n, b) && 0 < b <= MAX_ROUTE_BUCKETS
  {
    assert exists b :: Cheapest(n, b) by {
      var top := TopExists(n, 1);
      HalfOrTop(n, top);
    }
    var b :| Cheapest(n, b);
    b
  }

  /** The count evaluates the fewest conditions per event, its own ones and one bucket's share of the
      namespaces, among the powers of two up to 256, and is the smallest that does. */
  lemma FewestConditions(n: nat, c: nat)
    requires 0 < c <= 256 && PowerOfTwo(c)
    ensures var r := BestBuckets(n);
            && 0 < r <= 256 && PowerOfTwo(r)
            && (r + (n + r - 1) / r < c + (n + c - 1) / c || (r + (n + r - 1) / r == c + (n + c - 1) / c && r <= c))
  {
    assert Candidate(c) && Cheapest(n, BestBuckets(n));
  }

  method BucketCount(n: nat) returns (r: nat)
    ensures Cheapest(n, r) && r == BestBuckets(n)
  {
    var buckets := 1;
    while buckets * buckets < n && buckets < MAX_ROUTE_BUCKETS
      invariant Candidate(buckets)
      invariant buckets > 1 ==> (buckets / 2) * (buckets / 2) < n
      decreases MAX_ROUTE_BUCKETS - buckets
    {
      PowersHalve(buckets, MAX_ROUTE_BUCKETS);
      buckets := 2 * buckets;
    }
    HalfOrTop(n, buckets);
    var half := buckets / 2;
    if half > 0 && half + (n + half - 1) / half <= buckets + (n + buckets - 1) / buckets {
      return half;
    }
    return buckets;
  }

  // The bucket an event falls in, computed twice: by the operator when it builds the routes, and by the
  // generated program when it reads an event.

  type Digest = d: seq<byte> | |d| == 16 witness seq(16, _ => 0)

  function NsBucket(md5: string -> Digest, ns: string, buckets: nat): (b: nat)
    requires buckets > 0
    ensures b < buckets
  {
    md5(ns)[0] as nat % buckets
  }

  function HexDigit(v: nat): (c: char)
    requires v < 16
  {
    "0123456789abcdef"[v]
  }

  function HexPair(v: nat): (s: string)
    requires v < 256
    ensures |s| == 2
  {
    [HexDigit(v / 16), HexDigit(v % 16)]
  }

  /** Lower-case hexadecimal text of a digest. */
  function HexText(d: seq<byte>): (s: string)
    ensures |s| == 2 * |d|
  {
    if d == [] then "" else HexPair(d[0] as nat) + HexText(d[1..])
  }

  function DigitValue(c: char): (o: Option<nat>)
    ensures o.Some? ==> o.value < 16
  {
    if '0' <= c <= '9' then Some(c as nat - '0' as nat)
    else if 'a' <= c <= 'f' then Some(c as nat - 'a' as nat + 10)
    else if 'A' <= c <= 'F' then Some(c as nat - 'A' as nat + 10)
    else None
  }

  /** The number a hexadecimal text denotes, most significant digit first. */
  function ParseHex(s: string): Option<nat> {
    if s == "" then None
    else
      match DigitValue(s[|s| - 1])
      case None => None
      case Some(low) =>
        if |s| == 1 then Some(low)
        else
          match ParseHex(s[..|s| - 1])
          case None => None
          case Some(high) => Some(16 * high + low)
  }

  /** What the generated program computes: the first two digits of the digest's text, as a number,
      modulo the bucket count. */
  function ProgramBucket(md5: string -> Digest, ns: string, buckets: nat): Option<nat>
    requires buckets > 0
  {
    match ParseHex(HexText(md5(ns))[0..2])
    case Some(v) => Some(v % buckets)
    case None => None
  }

  lemma DigitRoundTrip(v: nat)
    requires v < 16
    ensures DigitValue(HexDigit(v)) == Some(v)
  {
  }

  /** The generated program and the operator always agree on the bucket. */
  lemma ProgramAgrees(md5: string -> Digest, ns: string, buckets: nat)
    requires buckets > 0
    ensures ProgramBucket(md5, ns, buckets) == Some(NsBucket(md5, ns, buckets))
  {
    var b := md5(ns)[0] as nat;
    var text := HexText(md5(ns))[0..2];
    assert text == HexPair(b);
    DigitRoundTrip(b / 16);
    DigitRoundTrip(b % 16);
    assert text[..1] == [HexDigit(b / 16)];
    assert ParseHex(text[..1]) == Some(b / 16);
  }
}
