/** What the collision detector reports, said about the listed pipelines alone: who loses, to whom and over
    which key, by age and by the references, without the detector's own order and claims. */
module Reports {
  import opened Ordering
  import opened SecretRefs
  import opened Collisions

  /** The two pipelines read some flat key from different origins. */
  ghost predicate Apart(p: Pipeline, q: Pipeline) {
    exists r, s :: ApartOver(p, q, r, s)
  }

  ghost predicate ApartOver(p: Pipeline, q: Pipeline, r: Ref, s: Ref) {
    r in p.Refs() && s in q.Refs() && r.flat == s.flat && r.origin != s.origin
  }

  lemma ApartIsConflict(p: Pipeline, q: Pipeline)
    ensures Apart(p, q) <==> Conflict(p, q)
  {
    if r, s :| ApartOver(p, q, r, s) {
      assert r == Ref(r.flat, r.origin) && s == Ref(r.flat, s.origin);
      assert DisagreeOn(p, q, r.flat, r.origin, s.origin);
      assert Disagree(p, q, r.flat);
    }
    if Conflict(p, q) {
      var flat :| Disagree(p, q, flat);
      var a, b :| DisagreeOn(p, q, flat, a, b);
      assert ApartOver(p, q, Ref(flat, a), Ref(flat, b));
    }
  }

  lemma PlaceOf(ordered: seq<Pipeline>, p: Pipeline) returns (i: nat)
    requires p in ordered
    ensures i < |ordered| && ordered[i] == p
  {
    i :| 0 <= i < |ordered| && ordered[i] == p;
  }

  ghost predicate ByAge(ordered: seq<Pipeline>) {
    forall i, j :: 0 <= i < j < |ordered| ==> CreatedBefore(ordered[i], ordered[j])
  }

  lemma NotBothBefore(p: Pipeline, q: Pipeline)
    ensures !(CreatedBefore(p, q) && CreatedBefore(q, p)) && !CreatedBefore(p, p)
  {
    OlderIsCreatedBefore(p, q);
    OlderIsCreatedBefore(q, p);
    OlderIsCreatedBefore(p, p);
    LessTotal(p.id, q.id);
    LessTotal(p.id, p.id);
  }

  lemma EarlierPlace(ordered: seq<Pipeline>, i: nat, j: nat)
    requires ByAge(ordered) && i < |ordered| && j < |ordered|
    ensures CreatedBefore(ordered[i], ordered[j]) <==> i < j
  {
    NotBothBefore(ordered[i], ordered[j]);
  }

  /** A pipeline with references is reported exactly when it is apart from an older one that is not
      reported. Age being a strict order, this determines the whole report. */
  lemma ReportedExactly(ps: seq<Pipeline>)
    requires UniqueIds(ps) && AllSelfConsistent(ps) && forall p :: p in ps ==> p.scan.Scanned?
    ensures Detected(ps).Ok?
    ensures forall p :: p in ps ==>
              (Reported(Detected(ps).value, p) <==>
               exists q :: q in ps && CreatedBefore(q, p) && !Reported(Detected(ps).value, q) && Apart(p, q))
  {
    GatheredProperties(ps);
    DetectionCorrect(ps);
    forall p | p in ps
      ensures Reported(Detected(ps).value, p) <==>
              exists q :: q in ps && CreatedBefore(q, p) && !Reported(Detected(ps).value, q) && Apart(p, q)
    {
      ReportedOne(ps, p);
    }
  }

  lemma ReportedOne(ps: seq<Pipeline>, p: Pipeline)
    requires UniqueIds(ps) && AllSelfConsistent(ps) && Gathered(ps).Ok? && Detected(ps).Ok? && p in ps
    ensures Reported(Detected(ps).value, p) <==>
            exists q :: q in ps && CreatedBefore(q, p) && !Reported(Detected(ps).value, q) && Apart(p, q)
  {
    var ordered, cs := Gathered(ps).value, Detected(ps).value;
    GatheredProperties(ps);
    DetectionCorrect(ps);
    if Reported(cs, p) {
      var c :| c in cs && c.victim == p;
      assert NamesOlderSurvivor(ps, cs, c) && Conflict(p, c.survivor);
      ApartIsConflict(p, c.survivor);
    }
    if q :| q in ps && CreatedBefore(q, p) && !Reported(cs, q) && Apart(p, q) {
      ApartIsConflict(p, q);
      var i := PlaceOf(ordered, p);
      var j := PlaceOf(ordered, q);
      EarlierPlace(ordered, j, i);
      assert Survives(ordered, j) && !Survives(ordered, i);
    }
  }

  // The key and the survivor that are named.

  lemma FlatLessOrders()
    ensures Transitive(FlatLess) && Asymmetric(FlatLess)
  {
    forall x, y, z | FlatLess(x, y) && FlatLess(y, z) ensures FlatLess(x, z) {
      LessTransitive(x.flat, y.flat, z.flat);
    }
    forall x, y | FlatLess(x, y) ensures !FlatLess(y, x) {
      LessTotal(x.flat, y.flat);
    }
  }

  lemma {:induction false} FirstIsLeast(claims: Claims, refs: seq<Ref>, r: Ref)
    requires Sorted(FlatLess, refs) && r in refs && Contested(claims, r)
    ensures FirstContested(claims, refs).Some? && !Less(r.flat, FirstContested(claims, refs).value.flat)
  {
    if Contested(claims, refs[0]) {
      LessTotal(r.flat, r.flat);
      var i :| 0 <= i < |refs| && refs[i] == r;
      assert i > 0 ==> !FlatLess(refs[i], refs[0]);
    } else {
      assert refs == [refs[0]] + refs[1..];
      FirstIsLeast(claims, refs[1..], r);
    }
  }

  /** Where a report was made: the contested reference with the least key, and the owner of its claim. */
  lemma {:induction false} JudgedAt(ordered: seq<Pipeline>, c: Collision) returns (n: nat)
    requires c in Attributed(ordered).victims
    ensures n < |ordered| && ordered[n] == c.victim
    ensures var claims, refs := Attributed(ordered[..n]).claims, Sort(FlatLess, c.victim.Refs());
            && FirstContested(claims, refs).Some? && c.flat == FirstContested(claims, refs).value.flat
            && c.survivor == claims[c.flat].owner
  {
    n := |ordered| - 1;
    if c in Attributed(ordered[..n]).victims {
      var front := ordered[..n];
      n := JudgedAt(front, c);
      assert front[..n] == ordered[..n];
    }
  }

  /** The accepted pipelines are listed by age, and each claimed key belongs to the first of them that has it. */
  ghost predicate OwnedByFirst(v: Verdict, flat: string) {
    if flat in v.claims then
      exists i :: 0 <= i < |v.accepted| && v.accepted[i] == v.claims[flat].owner && Unclaimed(v.accepted[..i], flat)
    else Unclaimed(v.accepted, flat)
  }

  ghost predicate Unclaimed(ps: seq<Pipeline>, flat: string) {
    forall p :: p in ps ==> flat !in p.Flats()
  }

  lemma {:induction false} OwnersAreFirst(ordered: seq<Pipeline>, flat: string)
    ensures OwnedByFirst(Attributed(ordered), flat)
  {
    if ordered != [] {
      OwnersAreFirst(ordered[..|ordered| - 1], flat);
      OwnerStep(Attributed(ordered[..|ordered| - 1]), ordered[|ordered| - 1], flat);
    }
  }

  lemma OwnerStep(v: Verdict, p: Pipeline, flat: string)
    requires OwnedByFirst(v, flat)
    ensures OwnedByFirst(Judged(v, p), flat)
  {
    var refs, after := Sort(FlatLess, p.Refs()), Judged(v, p);
    if FirstContested(v.claims, refs).None? {
      ClaimedAt(v.claims, p, refs, flat);
      assert flat in FlatsOf(refs) <==> flat in p.Flats();
      if flat in v.claims {
        var i :| 0 <= i < |v.accepted| && v.accepted[i] == v.claims[flat].owner && Unclaimed(v.accepted[..i], flat);
        assert after.accepted[..i] == v.accepted[..i];
      } else if flat in after.claims {
        var i := |v.accepted|;
        assert after.accepted[..i] == v.accepted && after.accepted[i] == p;
      }
    }
  }

  lemma {:induction false} AcceptedByAge(ordered: seq<Pipeline>)
    requires ByAge(ordered)
    ensures ByAge(Attributed(ordered).accepted)
  {
    if ordered != [] {
      var n := |ordered| - 1;
      AcceptedByAge(ordered[..n]);
      AcceptedFromOrdered(ordered[..n]);
      var before := Attributed(ordered[..n]).accepted;
      forall i | 0 <= i < |before| ensures CreatedBefore(before[i], ordered[n]) {
        assert before[i] in ordered[..n];
      }
    }
  }

  lemma SurvivorAccepted(ordered: seq<Pipeline>, n: nat, j: nat)
    requires UniqueIds(ordered) && AllSelfConsistent(ordered) && j < n <= |ordered| && Survives(ordered, j)
    ensures ordered[j] in Attributed(ordered[..n]).accepted
  {
    var front := ordered[..n];
    AcceptedFromOrdered(front);
    SplitsBySurvival(front);
    SurvivesPrefix(ordered, n, j);
    assert SplitAt(front, j);
  }

  /** The named key is the least on which the victim is apart from any unreported older pipeline, and the
      named survivor is the oldest of these that has the key. */
  ghost predicate NamesLeast(ps: seq<Pipeline>, cs: seq<Collision>, c: Collision) {
    forall q :: q in ps && !Reported(cs, q) && CreatedBefore(q, c.victim) ==>
      && (forall r, s :: ApartOver(c.victim, q, r, s) ==> !Less(r.flat, c.flat))
      && (CreatedBefore(q, c.survivor) ==> c.flat !in q.Flats())
  }

  lemma NamedExactly(ps: seq<Pipeline>)
    requires UniqueIds(ps) && AllSelfConsistent(ps) && forall p :: p in ps ==> p.scan.Scanned?
    ensures Detected(ps).Ok?
    ensures forall c :: c in Detected(ps).value ==> NamesLeast(ps, Detected(ps).value, c)
  {
    GatheredProperties(ps);
    DetectionCorrect(ps);
    var cs := Detected(ps).value;
    forall c | c in cs ensures NamesLeast(ps, cs, c) {
      NamedOne(ps, c);
    }
  }

  lemma NamedOne(ps: seq<Pipeline>, c: Collision)
    requires UniqueIds(ps) && AllSelfConsistent(ps) && Gathered(ps).Ok?
    requires Detected(ps).Ok? && c in Detected(ps).value
    ensures NamesLeast(ps, Detected(ps).value, c)
  {
    var ordered, cs := Gathered(ps).value, Detected(ps).value;
    GatheredProperties(ps);
    assert c in Attributed(ordered).victims;
    var n := JudgedAt(ordered, c);
    forall q | q in ps && !Reported(cs, q) && CreatedBefore(q, c.victim)
      ensures forall r, s :: ApartOver(c.victim, q, r, s) ==> !Less(r.flat, c.flat)
      ensures CreatedBefore(q, c.survivor) ==> c.flat !in q.Flats()
    {
      if q.Refs() != [] {
        var j := PlaceOf(ordered, q);
        EarlierPlace(ordered, j, n);
        DetectionCorrect(ps);
        SurvivorAccepted(ordered, n, j);
        LeastAgainst(ordered, n, c, q);
      }
    }
  }

  lemma LeastAgainst(ordered: seq<Pipeline>, n: nat, c: Collision, q: Pipeline)
    requires UniqueIds(ordered) && AllSelfConsistent(ordered) && ByAge(ordered)
    requires n < |ordered| && ordered[n] == c.victim && q in Attributed(ordered[..n]).accepted
    requires var claims, refs := Attributed(ordered[..n]).claims, Sort(FlatLess, c.victim.Refs());
             && FirstContested(claims, refs).Some? && c.flat == FirstContested(claims, refs).value.flat
             && c.survivor == claims[c.flat].owner
    ensures forall r, s :: ApartOver(c.victim, q, r, s) ==> !Less(r.flat, c.flat)
    ensures CreatedBefore(q, c.survivor) ==> c.flat !in q.Flats()
  {
    var front := ordered[..n];
    var v, refs := Attributed(front), Sort(FlatLess, c.victim.Refs());
    AcceptedFromOrdered(front);
    AttributionSound(front);
    FlatLessOrders();
    SortSorts(FlatLess, c.victim.Refs());
    forall r, s | ApartOver(c.victim, q, r, s) ensures !Less(r.flat, c.flat) {
      assert RefClaimed(v, q, s);
      FirstIsLeast(v.claims, refs, r);
    }
    OwnersAreFirst(front, c.flat);
    AcceptedByAge(front);
    var i :| 0 <= i < |v.accepted| && v.accepted[i] == c.survivor && Unclaimed(v.accepted[..i], c.flat);
    var k := PlaceOf(v.accepted, q);
    EarlierPlace(v.accepted, k, i);
    if k < i {
      assert v.accepted[..i][k] == q;
    }
  }

  // The order of the report.

  ghost predicate InOrder(cs: seq<Collision>) {
    forall i, j :: 0 <= i < j < |cs| ==> ComesFirst(cs[i].victim.id, cs[j].victim.id)
  }

  /** Each pipeline is reported at most once, in byte order of identifiers. */
  lemma ReportInOrder(ps: seq<Pipeline>)
    requires UniqueIds(ps) && Detected(ps).Ok? && forall p :: p in ps ==> p.scan.Scanned?
    ensures InOrder(Detected(ps).value)
  {
    GatheredProperties(ps);
    if |ps| >= 2 {
      var victims := Attributed(Gathered(ps).value).victims;
      OneReportEach(Gathered(ps).value);
      SortVictims(victims);
    }
  }

  ghost predicate VictimsDiffer(cs: seq<Collision>) {
    forall i, j :: 0 <= i < j < |cs| ==> cs[i].victim.id != cs[j].victim.id
  }

  lemma {:induction false} OneReportEach(ordered: seq<Pipeline>)
    requires UniqueIds(ordered)
    ensures VictimsDiffer(Attributed(ordered).victims)
  {
    if ordered != [] {
      var n := |ordered| - 1;
      OneReportEach(ordered[..n]);
      AcceptedFromOrdered(ordered[..n]);
      var before := Attributed(ordered[..n]).victims;
      forall i | 0 <= i < |before| ensures before[i].victim.id != ordered[n].id {
        assert before[i] in before && before[i].victim in ordered[..n];
      }
    }
  }

  lemma SortVictims(cs: seq<Collision>)
    requires VictimsDiffer(cs)
    ensures InOrder(Sort(VictimLess, cs))
  {
    forall x, y, z | VictimLess(x, y) && VictimLess(y, z) ensures VictimLess(x, z) {
      LessTransitive(x.victim.id, y.victim.id, z.victim.id);
    }
    forall x, y | VictimLess(x, y) ensures !VictimLess(y, x) {
      LessTotal(x.victim.id, y.victim.id);
    }
    SortSorts(VictimLess, cs);
    var sorted := Sort(VictimLess, cs);
    RearrangingKeepsApart((c: Collision) => c.victim.id, cs, sorted);
    forall i, j | 0 <= i < j < |sorted| ensures ComesFirst(sorted[i].victim.id, sorted[j].victim.id) {
      LessTotal(sorted[i].victim.id, sorted[j].victim.id);
      LessAtFirstDifference(sorted[i].victim.id, sorted[j].victim.id);
    }
  }
}
