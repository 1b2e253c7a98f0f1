/** Byte order on strings and sorting by a strict order: the order in which the operator visits
    pipelines, namespaces, signatures and fingerprints must not depend on how they were listed. */
module Ordering {

  /** Lexicographic order, Go's `<` on strings. */
  predicate Less(a: string, b: string) {
    if b == "" then false
    else if a == "" then true
    else a[0] < b[0] || (a[0] == b[0] && Less(a[1..], b[1..]))
  }

  lemma {:induction false} LessTotal(a: string, b: string)
    ensures a == b || Less(a, b) || Less(b, a)
    ensures !(Less(a, b) && Less(b, a))
    ensures !Less(a, a)
  {
    if a != "" {
      LessTotal(a[1..], a[1..]);
      if b != "" {
        LessTotal(a[1..], b[1..]);
        assert a == [a[0]] + a[1..] && b == [b[0]] + b[1..];
      }
    }
  }

  lemma {:induction false} LessTransitive(a: string, b: string, c: string)
    requires Less(a, b) && Less(b, c)
    ensures Less(a, c)
  {
    if a != "" && a[0] == b[0] == c[0] {
      LessTransitive(a[1..], b[1..], c[1..]);
    }
  }

  /** The strings agree up to position `k`, where `a` ends or has the smaller character. */
  ghost predicate FirstDifference(a: string, b: string, k: nat) {
    k <= |a| && k < |b| && a[..k] == b[..k] && (k == |a| || a[k] < b[k])
  }

  ghost predicate ComesFirst(a: string, b: string) {
    exists k :: FirstDifference(a, b, k)
  }

  /** The order is the lexicographic one: it is decided at the first position where the strings differ. */
  lemma {:induction false} LessAtFirstDifference(a: string, b: string)
    ensures Less(a, b) <==> ComesFirst(a, b)
  {
    if a == "" {
      assert b != "" ==> FirstDifference(a, b, 0);
    } else if b != "" {
      LessAtFirstDifference(a[1..], b[1..]);
      if Less(a, b) {
        if a[0] < b[0] {
          assert FirstDifference(a, b, 0);
        } else {
          var k :| FirstDifference(a[1..], b[1..], k);
          DifferenceShifts(a, b, k);
        }
      }
      if k: nat :| FirstDifference(a, b, k) {
        if k > 0 {
          assert a[..k][0] == b[..k][0];
          DifferenceShifts(a, b, k - 1);
        }
      }
    }
  }

  lemma DifferenceShifts(a: string, b: string, k: nat)
    requires a != "" && b != "" && a[0] == b[0]
    ensures FirstDifference(a[1..], b[1..], k) <==> FirstDifference(a, b, k + 1)
  {
    if k <= |a| - 1 && k < |b| - 1 {
      assert a[..k + 1] == [a[0]] + a[1..][..k] && b[..k + 1] == [b[0]] + b[1..][..k];
    }
  }

  ghost predicate Transitive<T(!new)>(less: (T, T) -> bool) {
    forall x, y, z :: less(x, y) && less(y, z) ==> less(x, z)
  }

  ghost predicate Asymmetric<T(!new)>(less: (T, T) -> bool) {
    forall x, y :: less(x, y) ==> !less(y, x)
  }

  ghost predicate Comparable<T>(less: (T, T) -> bool, s: seq<T>) {
    forall x, y :: x in s && y in s && x != y ==> less(x, y) || less(y, x)
  }

  /** A strict order that decides between any two different elements of `s`. */
  ghost predicate Orders<T(!new)>(less: (T, T) -> bool, s: seq<T>) {
    Transitive(less) && Asymmetric(less) && Comparable(less, s)
  }

  /** No later element comes before an earlier one. */
  ghost predicate Sorted<T>(less: (T, T) -> bool, s: seq<T>) {
    forall i, j :: 0 <= i < j < |s| ==> !less(s[j], s[i])
  }

  function Insert<T(!new)>(less: (T, T) -> bool, x: T, s: seq<T>): (r: seq<T>)
    ensures multiset(r) == multiset{x} + multiset(s)
  {
    if s == [] then [x]
    else if less(s[|s| - 1], x) then s + [x]
    else
      assert s == s[..|s| - 1] + [s[|s| - 1]];
      Insert(less, x, s[..|s| - 1]) + [s[|s| - 1]]
  }

  function Sort<T(!new)>(less: (T, T) -> bool, s: seq<T>): (r: seq<T>)
    ensures multiset(r) == multiset(s)
    ensures forall x :: x in r <==> x in s
  {
    if s == [] then []
    else
      assert s == s[..|s| - 1] + [s[|s| - 1]];
      var r := Insert(less, s[|s| - 1], Sort(less, s[..|s| - 1]));
      assert multiset(r) == multiset(s);
      assert forall x :: x in r <==> x in multiset(s);
      r
  }

  lemma {:induction false} InsertSorts<T(!new)>(less: (T, T) -> bool, x: T, s: seq<T>)
    requires Transitive(less) && Asymmetric(less) && Sorted(less, s)
    ensures Sorted(less, Insert(less, x, s))
  {
    if s != [] && !less(s[|s| - 1], x) {
      var front, last := s[..|s| - 1], s[|s| - 1];
      InsertSorts(less, x, front);
      var r := Insert(less, x, front);
      forall y | y in r ensures !less(last, y) {
        assert y in multiset(r);
        if y != x {
          assert y in front;
        }
      }
    } else if s != [] {
      forall y | y in s ensures !less(x, y) {
        assert y != s[|s| - 1] ==> !less(s[|s| - 1], y);
      }
    }
  }

  lemma {:induction false} SortSorts<T(!new)>(less: (T, T) -> bool, s: seq<T>)
    requires Transitive(less) && Asymmetric(less)
    ensures Sorted(less, Sort(less, s))
  {
    if s != [] {
      var front := s[..|s| - 1];
      SortSorts(less, front);
      var sorted := Sort(less, front);
      InsertSorts(less, s[|s| - 1], sorted);
    }
  }

  ghost predicate KeysDiffer<T(!new)>(key: T -> string, s: seq<T>) {
    forall i, j :: 0 <= i < j < |s| ==> key(s[i]) != key(s[j])
  }

  /** Rearranging elements with different keys keeps them different. */
  lemma RearrangingKeepsApart<T(!new)>(key: T -> string, a: seq<T>, b: seq<T>)
    requires KeysDiffer(key, a) && multiset(a) == multiset(b)
    ensures KeysDiffer(key, b)
  {
    forall i, j | 0 <= i < j < |b| ensures key(b[i]) != key(b[j]) {
      assert b[i] in multiset(b) && b[j] in multiset(b) && b[i] in a && b[j] in a;
      if key(b[i]) == key(b[j]) {
        var k :| 0 <= k < |a| && a[k] == b[i];
        var l :| 0 <= l < |a| && a[l] == b[j];
        assert k == l;
        OncePlaced(key, a, k);
        TwicePlaced(b, i, j);
      }
    }
  }

  lemma OncePlaced<T(!new)>(key: T -> string, a: seq<T>, k: nat)
    requires KeysDiffer(key, a) && k < |a|
    ensures multiset(a)[a[k]] == 1
  {
    assert a == a[..k] + [a[k]] + a[k + 1..];
    assert a[k] !in a[..k] && a[k] !in a[k + 1..];
  }

  lemma TwicePlaced<T(!new)>(s: seq<T>, i: nat, j: nat)
    requires i < j < |s| && s[i] == s[j]
    ensures multiset(s)[s[i]] >= 2
  {
    assert s == s[..i] + [s[i]] + s[i + 1..j] + [s[j]] + s[j + 1..];
  }

  /** Two sorted listings of the same elements are the same listing. */
  lemma {:induction false} SortedUnique<T(!new)>(less: (T, T) -> bool, a: seq<T>, b: seq<T>)
    requires Orders(less, a) && Sorted(less, a) && Sorted(less, b)
    requires multiset(a) == multiset(b)
    ensures a == b
  {
    assert |a| == |multiset(a)| == |multiset(b)| == |b|;
    if a != [] {
      SameFirst(less, a, b);
      TailOf(a);
      TailOf(b);
      TailInOrder(less, a);
      TailInOrder(less, b);
      SortedUnique(less, a[1..], b[1..]);
    }
  }

  lemma SameFirst<T(!new)>(less: (T, T) -> bool, a: seq<T>, b: seq<T>)
    requires Comparable(less, a) && Sorted(less, a) && Sorted(less, b)
    requires a != [] && b != [] && multiset(a) == multiset(b)
    ensures a[0] == b[0]
  {
    assert a[0] in multiset(b) && b[0] in multiset(a);
    var i :| 0 <= i < |b| && b[i] == a[0];
    var j :| 0 <= j < |a| && a[j] == b[0];
  }

  lemma TailOf<T(!new)>(a: seq<T>)
    requires a != []
    ensures multiset(a[1..]) == multiset(a) - multiset{a[0]} && a == [a[0]] + a[1..]
  {
    assert a == [a[0]] + a[1..];
  }

  lemma TailInOrder<T(!new)>(less: (T, T) -> bool, a: seq<T>)
    requires a != [] && Sorted(less, a)
    ensures Sorted(less, a[1..]) && (Comparable(less, a) ==> Comparable(less, a[1..]))
  {
  }

  /** Sorting forgets how its input was listed. */
  lemma SortIgnoresListing<T(!new)>(less: (T, T) -> bool, a: seq<T>, b: seq<T>)
    requires Orders(less, a) && multiset(a) == multiset(b)
    ensures Sort(less, a) == Sort(less, b)
  {
    forall x | x in b ensures x in a {
      assert x in multiset(b) && x in multiset(a);
    }
    SortSorts(less, a);
    SortSorts(less, b);
    assert forall x :: x in Sort(less, a) ==> x in a;
    SortedUnique(less, Sort(less, a), Sort(less, b));
  }

  lemma NoElements<T(!new)>(s: seq<T>)
    requires forall x :: x !in s
    ensures s == []
  {
    if s != [] {
      HasElement(s);
    }
  }

  lemma HasElement<T(!new)>(s: seq<T>)
    requires s != []
    ensures exists x :: x in s
  {
    assert s[0] in s;
  }

  function Keep<T(!new)>(keep: T -> bool, s: seq<T>): (r: seq<T>)
    ensures forall x :: x in r <==> x in s && keep(x)
    ensures |r| <= |s|
  {
    if s == [] then []
    else
      assert s == s[..|s| - 1] + [s[|s| - 1]];
      Keep(keep, s[..|s| - 1]) + if keep(s[|s| - 1]) then [s[|s| - 1]] else []
  }

  /** The elements of `part` stand in `whole`, any two of them in the same order. */
  ghost predicate InOrderOf<T(!new)>(whole: seq<T>, part: seq<T>) {
    forall i, j :: 0 <= i < j < |part| ==> Precedes(whole, part[i], part[j])
  }

  ghost predicate Precedes<T(!new)>(s: seq<T>, x: T, y: T) {
    exists a, b :: 0 <= a < b < |s| && s[a] == x && s[b] == y
  }

  /** Dropping elements with different keys keeps them different. */
  lemma {:induction false} KeepApart<T(!new)>(key: T -> string, keep: T -> bool, s: seq<T>)
    requires KeysDiffer(key, s)
    ensures KeysDiffer(key, Keep(keep, s))
  {
    if s != [] {
      var front, last := s[..|s| - 1], s[|s| - 1];
      KeepApart(key, keep, front);
      var kept := Keep(keep, front);
      forall i | 0 <= i < |kept| ensures key(kept[i]) != key(last) {
        assert kept[i] in front;
      }
    }
  }

  /** Adding an element at the end of both, or of the whole alone, keeps the order. */
  lemma OrderGrows<T(!new)>(whole: seq<T>, part: seq<T>, x: T)
    requires InOrderOf(whole, part) && forall y :: y in part ==> y in whole
    ensures InOrderOf(whole + [x], part) && InOrderOf(whole + [x], part + [x])
  {
    var longer := whole + [x];
    forall i, j | 0 <= i < j < |part| ensures Precedes(longer, part[i], part[j]) {
      assert Precedes(whole, part[i], part[j]);
      var a, b :| 0 <= a < b < |whole| && whole[a] == part[i] && whole[b] == part[j];
      assert longer[a] == part[i] && longer[b] == part[j];
    }
    forall i | 0 <= i < |part| ensures Precedes(longer, part[i], x) {
      assert part[i] in whole;
      var a :| 0 <= a < |whole| && whole[a] == part[i];
      assert longer[a] == part[i] && longer[|whole|] == x;
    }
  }

  lemma {:induction false} KeepInOrder<T(!new)>(keep: T -> bool, s: seq<T>)
    ensures InOrderOf(s, Keep(keep, s))
  {
    if s != [] {
      var front, last := s[..|s| - 1], s[|s| - 1];
      assert s == front + [last];
      KeepInOrder(keep, front);
      OrderGrows(front, Keep(keep, front), last);
    }
  }

  lemma OrderChains<T(!new)>(a: seq<T>, b: seq<T>, c: seq<T>)
    requires InOrderOf(a, b) && InOrderOf(b, c)
    ensures InOrderOf(a, c)
  {
    forall i, j | 0 <= i < j < |c| ensures Precedes(a, c[i], c[j]) {
      assert Precedes(b, c[i], c[j]);
      var k, l :| 0 <= k < l < |b| && b[k] == c[i] && b[l] == c[j];
      assert Precedes(a, b[k], b[l]);
    }
  }

  /** Dropping elements before sorting or after sorting makes no difference. */
  lemma {:induction false} KeepCommutesWithSort<T(!new)>(less: (T, T) -> bool, keep: T -> bool, s: seq<T>)
    requires Orders(less, s)
    ensures Sort(less, Keep(keep, s)) == Keep(keep, Sort(less, s))
  {
    SortSorts(less, s);
    KeepSorted(less, keep, Sort(less, s));
    SortSorts(less, Keep(keep, s));
    KeepMultiset(keep, s);
    KeepMultiset(keep, Sort(less, s));
    var a, b := Sort(less, Keep(keep, s)), Keep(keep, Sort(less, s));
    forall x ensures multiset(a)[x] == multiset(b)[x] {
      assert multiset(a)[x] == multiset(Keep(keep, s))[x];
    }
    SortedUnique(less, a, b);
  }

  lemma {:induction false} KeepMultiset<T(!new)>(keep: T -> bool, s: seq<T>)
    ensures forall x :: multiset(Keep(keep, s))[x] == if keep(x) then multiset(s)[x] else 0
  {
    if s != [] {
      KeepMultiset(keep, s[..|s| - 1]);
      assert s == s[..|s| - 1] + [s[|s| - 1]];
    }
  }

  lemma KeepIgnoresListing<T(!new)>(keep: T -> bool, a: seq<T>, b: seq<T>)
    requires multiset(a) == multiset(b)
    ensures multiset(Keep(keep, a)) == multiset(Keep(keep, b))
  {
    KeepMultiset(keep, a);
    KeepMultiset(keep, b);
  }

  /** Nothing is dropped from a list whose elements are all kept. */
  lemma {:induction false} KeepAll<T(!new)>(keep: T -> bool, s: seq<T>)
    requires forall x :: x in s ==> keep(x)
    ensures Keep(keep, s) == s
  {
    if s != [] {
      var front := s[..|s| - 1];
      assert s == front + [s[|s| - 1]];
      assert forall x :: x in front ==> x in s;
      KeepAll(keep, front);
      assert s[|s| - 1] in s;
    }
  }

  lemma {:induction false} KeepSorted<T(!new)>(less: (T, T) -> bool, keep: T -> bool, s: seq<T>)
    requires Sorted(less, s)
    ensures Sorted(less, Keep(keep, s))
  {
    if s != [] {
      var front := s[..|s| - 1];
      KeepSorted(less, keep, front);
      var kept := Keep(keep, front);
      assert forall i, j :: 0 <= i < j < |front| ==> front[i] == s[i] && front[j] == s[j];
      forall k | 0 <= k < |kept| ensures !less(s[|s| - 1], kept[k]) {
        assert kept[k] in front;
        var i :| 0 <= i < |front| && front[i] == kept[k];
        assert s[i] == kept[k];
      }
    }
  }

  // Sets of strings, listed in order.

  ghost predicate Distinct<T(!new)>(s: seq<T>) {
    forall i, j :: 0 <= i < j < |s| ==> s[i] != s[j]
  }

  ghost function Enumerated(s: set<string>): (r: seq<string>)
    ensures Distinct(r) && forall x :: x in r <==> x in s
  {
    if s == {} then []
    else
      var x :| x in s;
      Enumerated(s - {x}) + [x]
  }

  /** The elements in byte order. */
  ghost function Arranged(s: set<string>): (r: seq<string>)
    ensures forall x :: x in r <==> x in s
  {
    Sort(Less, Enumerated(s))
  }

  lemma LessOrders(s: seq<string>)
    ensures Orders(Less, s)
  {
    forall x, y, z | Less(x, y) && Less(y, z) ensures Less(x, z) {
      LessTransitive(x, y, z);
    }
    forall x, y ensures Less(x, y) ==> !Less(y, x) {
      LessTotal(x, y);
    }
    forall x, y | x in s && y in s && x != y ensures Less(x, y) || Less(y, x) {
      LessTotal(x, y);
    }
  }

  lemma {:induction false} DistinctCounts<T(!new)>(s: seq<T>)
    requires Distinct(s)
    ensures forall x :: multiset(s)[x] == if x in s then 1 else 0
  {
    if s != [] {
      var front := s[..|s| - 1];
      DistinctCounts(front);
      assert s == front + [s[|s| - 1]];
    }
  }

  lemma {:induction false} CountsDistinct<T(!new)>(s: seq<T>)
    requires forall x :: x in s ==> multiset(s)[x] == 1
    ensures Distinct(s)
  {
    forall i, j | 0 <= i < j < |s| ensures s[i] != s[j] {
      var a, b := s[..j], s[j..];
      assert s == a + b && multiset(s) == multiset(a) + multiset(b);
      assert a[i] in multiset(a) && b[0] in multiset(b);
      assert s[i] in s && multiset(s)[s[i]] == 1;
    }
  }

  /** Sorting a listing without repetitions gives the arranged set, however it was listed. */
  lemma SortArranges(xs: seq<string>, s: set<string>)
    requires Distinct(xs) && forall x :: x in xs <==> x in s
    ensures Sort(Less, xs) == Arranged(s)
  {
    var ys := Enumerated(s);
    DistinctCounts(xs);
    DistinctCounts(ys);
    assert multiset(xs) == multiset(ys) by {
      forall x ensures multiset(xs)[x] == multiset(ys)[x] {
        assert x in xs <==> x in ys;
      }
    }
    LessOrders(xs);
    SortIgnoresListing(Less, xs, ys);
  }

  /** Each string comes before the ones behind it. */
  ghost predicate Ascending(s: seq<string>) {
    forall i, j :: 0 <= i < j < |s| ==> ComesFirst(s[i], s[j])
  }

  lemma ArrangedDistinct(s: set<string>)
    ensures Distinct(Arranged(s)) && Ascending(Arranged(s))
  {
    var ys := Enumerated(s);
    DistinctCounts(ys);
    assert multiset(Arranged(s)) == multiset(ys);
    CountsDistinct(Arranged(s));
    LessOrders(ys);
    SortSorts(Less, ys);
    forall i, j | 0 <= i < j < |Arranged(s)| ensures ComesFirst(Arranged(s)[i], Arranged(s)[j]) {
      LessTotal(Arranged(s)[i], Arranged(s)[j]);
      LessAtFirstDifference(Arranged(s)[i], Arranged(s)[j]);
    }
  }
}
