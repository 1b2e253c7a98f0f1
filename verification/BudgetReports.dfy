/** Who is left out for size and who waits for room, said about the listed pipelines by age, the values the
    Secrets hold and the two limits in bytes. */
module BudgetReports {
  import opened Ordering
  import opened Totals
  import opened SecretRefs
  import opened Staging
  import opened SizeBudget
  import opened Bridge
  import opened BridgePlan
  import opened BridgeSoundness
  import opened SecretValues
  import opened Reports

  /** The values are within the limit for a Secret, 1 MiB, and the object within etcd's request limit less
      what is reserved: 1572864 - 262144 - 65536 bytes. */
  ghost predicate WithinLimits(w: World, data: Data) {
    Total(data, ByteLength) <= 1048576 && w.base + Total(data, w.entry) <= 1245184
  }

  lemma LimitsInBytes(w: World, data: Data)
    ensures Fits(w, data) <==> WithinLimits(w, data)
  {
    assert MAX_SECRET_SIZE == 1048576 && SECRET_ASSETS_OBJECT_BUDGET == 1245184;
  }

  // Left out for size.

  /** `data` has exactly the flat keys of the older pipelines that are not left out, each with a value that
      one of them reads. */
  ghost predicate HeldByOlder(w: World, ps: seq<Pipeline>, es: seq<Exclusion>, p: Pipeline, data: Data) {
    && (forall q :: q in ps && CreatedBefore(q, p) && !Excluded(es, q) ==> q.Flats() <= data.Keys)
    && (forall k :: k in data ==> exists q :: HeldBy(w, ps, es, p, q, k, data[k]))
  }

  ghost predicate HeldBy(w: World, ps: seq<Pipeline>, es: seq<Exclusion>, p: Pipeline, q: Pipeline, flat: string, value: Value) {
    q in ps && CreatedBefore(q, p) && !Excluded(es, q) && Drawn(w, q.Refs(), flat, value)
  }

  /** The report gives the true sizes of what older pipelines hold and of what this one adds, and says of the
      limits which one is exceeded: that on values if both are. */
  ghost predicate Accounts(w: World, e: Exclusion, data: Data, own: Data) {
    && e.committed == Total(data, ByteLength) && e.adds == Total(own, ByteLength)
    && (e.OverValues? <==> e.committed + e.adds > 1048576)
    && (e.OverObject? ==>
          && e.committedObject == w.base + Total(data, w.entry) && e.addsObject == Total(own, w.entry)
          && e.committedObject + e.addsObject > 1245184)
  }

  /** A pipeline is left out exactly when the values it adds do not fit next to those of the older pipelines
      that are not left out, and the report accounts for it. */
  lemma ExcludedExactly(w: World, ps: seq<Pipeline>, p: Pipeline) returns (data: Data, own: Data)
    requires UniqueIds(ps) && Overflows(w, ps).Ok? && p in ps && p.Refs() != []
    ensures HeldByOlder(w, ps, Overflows(w, ps).value, p, data)
    ensures own.Keys == p.Flats() - data.Keys && DrawnFromSecrets(w, p.Refs(), own)
    ensures Excluded(Overflows(w, ps).value, p) <==> !WithinLimits(w, data + own)
    ensures forall e :: e in Overflows(w, ps).value && e.victim == p ==> Accounts(w, e, data, own)
  {
    GatheredProperties(ps);
    var ordered := Gathered(ps).value;
    var es, excluded := Overflows(w, ps).value, Packed(w, ordered).value.excluded;
    var i := PlaceOf(ordered, p);
    PackingDecides(w, ordered, i);
    var before := Packed(w, ordered[..i]).value;
    data, own := before.data, Added(w, before.data, p);
    PackedStep(w, ordered, i);
    StagedAreDrawn(w, p.Refs(), data.Keys);
    StagedNextTo(w, data, p);
    LimitsInBytes(w, data + own);
    OlderAreHeld(w, ps, i);
    ExcludedAt(w, ordered, i);
    forall e | e in es && e.victim == p ensures Accounts(w, e, data, own) {
      assert e in excluded;
      var n := ExclusionMade(w, ordered, e);
      assert n == i;
    }
  }

  /** A pipeline is left out in the end exactly when it is when its turn comes. */
  lemma ExcludedAt(w: World, ordered: seq<Pipeline>, i: nat)
    requires UniqueIds(ordered) && Packed(w, ordered).Ok? && i < |ordered|
    ensures Packed(w, ordered[..i]).Ok? && PackOne(w, Packed(w, ordered[..i]).value, ordered[i]).Ok?
    ensures Excluded(Packed(w, ordered).value.excluded, ordered[i]) <==>
            PackOne(w, Packed(w, ordered[..i]).value, ordered[i]).value.excluded != Packed(w, ordered[..i]).value.excluded
  {
    PackingDecides(w, ordered, i);
    PackedStep(w, ordered, i);
    var before, after := Packed(w, ordered[..i]).value, Packed(w, ordered[..i + 1]).value;
    ExcludedStays(w, ordered, i + 1, ordered[i]);
    assert ordered[i] in ordered[..i + 1] by { assert ordered[..i + 1][i] == ordered[i]; }
    PackedDivides(w, ordered[..i]);
    if after.excluded != before.excluded {
      assert after.excluded[|before.excluded|] in after.excluded;
    } else if e :| e in before.excluded && e.victim == ordered[i] {
      assert e.victim in ordered[..i];
    }
  }

  /** Later pipelines do not change who was left out. */
  lemma {:induction false} ExcludedStays(w: World, ordered: seq<Pipeline>, n: nat, q: Pipeline)
    requires UniqueIds(ordered) && Packed(w, ordered).Ok? && n <= |ordered| && q in ordered[..n]
    ensures Packed(w, ordered[..n]).Ok?
    ensures Excluded(Packed(w, ordered).value.excluded, q) <==> Excluded(Packed(w, ordered[..n]).value.excluded, q)
  {
    if n == |ordered| {
      assert ordered[..n] == ordered;
    } else {
      var front, p := ordered[..|ordered| - 1], ordered[|ordered| - 1];
      assert front[..n] == ordered[..n];
      assert q in front;
      assert ordered == front + [p];
      LastPipelineIsNew(front, p);
      ExcludedStays(w, front, n, q);
      OthersStay(w, Packed(w, front).value, p, q);
    }
  }

  lemma OthersStay(w: World, pk: Packing, p: Pipeline, q: Pipeline)
    requires p != q && PackOne(w, pk, p).Ok?
    ensures Excluded(PackOne(w, pk, p).value.excluded, q) <==> Excluded(pk.excluded, q)
  {
    if e :| e in pk.excluded && e.victim == q {
      assert e in PackOne(w, pk, p).value.excluded;
    }
  }

  lemma {:induction false} ExclusionMade(w: World, ordered: seq<Pipeline>, e: Exclusion) returns (n: nat)
    requires Packed(w, ordered).Ok? && e in Packed(w, ordered).value.excluded
    ensures n < |ordered| && ordered[n] == e.victim && Packed(w, ordered[..n]).Ok?
    ensures var pk := Packed(w, ordered[..n]).value;
            PackOne(w, pk, e.victim).Ok? && PackOne(w, pk, e.victim).value.excluded == pk.excluded + [e]
  {
    n := |ordered| - 1;
    if e in Packed(w, ordered[..n]).value.excluded {
      var front := ordered[..n];
      n := ExclusionMade(w, front, e);
      assert front[..n] == ordered[..n];
    }
  }

  lemma OlderAreHeld(w: World, ps: seq<Pipeline>, i: nat)
    requires UniqueIds(ps) && Overflows(w, ps).Ok? && i < |Gathered(ps).value|
    ensures Packed(w, Gathered(ps).value[..i]).Ok?
    ensures HeldByOlder(w, ps, Overflows(w, ps).value, Gathered(ps).value[i], Packed(w, Gathered(ps).value[..i]).value.data)
  {
    GatheredProperties(ps);
    var ordered, es := Gathered(ps).value, Overflows(w, ps).value;
    var front, p := ordered[..i], ordered[i];
    PackingDecides(w, ordered, i);
    PackedDivides(w, front);
    var pk := Packed(w, front).value;
    forall q | q in front ensures (q in pk.taken <==> !Excluded(es, q)) && CreatedBefore(q, p) && q in ps {
      ExcludedStays(w, ordered, i, q);
      SameExclusions(Packed(w, ordered).value.excluded, es, q);
    }
    forall q | q in ps && CreatedBefore(q, p) && !Excluded(es, q) ensures q.Flats() <= pk.data.Keys {
      if q.Refs() != [] {
        var j := PlaceOf(ordered, q);
        EarlierPlace(ordered, j, i);
        assert front[j] == q;
        TakenKeysPacked(w, front, q);
      }
    }
    forall k | k in pk.data ensures exists q :: HeldBy(w, ps, es, p, q, k, pk.data[k]) {
      PackedAreDrawn(w, front);
      assert Drawn(w, AllRefs(pk.taken), k, pk.data[k]);
      var r :| r in AllRefs(pk.taken) && r.flat == k && Usable(w, r.origin) && Stored(w, r.origin) == pk.data[k];
      var q :| q in pk.taken && r in q.Refs();
      assert HeldBy(w, ps, es, p, q, k, pk.data[k]);
    }
  }

  lemma SameExclusions(excluded: seq<Exclusion>, es: seq<Exclusion>, q: Pipeline)
    requires es == Sort(ExclusionLess, excluded)
    ensures Excluded(es, q) <==> Excluded(excluded, q)
  {
  }

  ghost predicate ExclusionsInOrder(es: seq<Exclusion>) {
    forall i, j :: 0 <= i < j < |es| ==> ComesFirst(es[i].victim.id, es[j].victim.id)
  }

  /** Each pipeline is left out at most once, and the report is in byte order of identifiers. */
  lemma OverflowsInOrder(w: World, ps: seq<Pipeline>)
    requires UniqueIds(ps) && Overflows(w, ps).Ok?
    ensures ExclusionsInOrder(Overflows(w, ps).value)
  {
    GatheredProperties(ps);
    OneExclusionEach(w, Gathered(ps).value);
    SortExclusions(Packed(w, Gathered(ps).value).value.excluded);
  }

  lemma {:induction false} OneExclusionEach(w: World, ordered: seq<Pipeline>)
    requires UniqueIds(ordered) && Packed(w, ordered).Ok?
    ensures KeysDiffer((e: Exclusion) => e.victim.id, Packed(w, ordered).value.excluded)
  {
    if ordered != [] {
      var n := |ordered| - 1;
      var front, p := ordered[..n], ordered[n];
      OneExclusionEach(w, front);
      PackedDivides(w, front);
      NextExclusion(w, Packed(w, front).value, front, p);
    }
  }

  lemma NextExclusion(w: World, pk: Packing, front: seq<Pipeline>, p: Pipeline)
    requires PackOne(w, pk, p).Ok? && Divides(pk, front) && forall q :: q in front ==> q.id != p.id
    requires KeysDiffer((e: Exclusion) => e.victim.id, pk.excluded)
    ensures KeysDiffer((e: Exclusion) => e.victim.id, PackOne(w, pk, p).value.excluded)
  {
    var es, after := pk.excluded, PackOne(w, pk, p).value.excluded;
    if after != es {
      forall i | 0 <= i < |es| ensures after[i].victim.id != after[|es|].victim.id {
        assert es[i] in es && es[i].victim in front;
      }
    }
  }

  lemma SortExclusions(es: seq<Exclusion>)
    requires KeysDiffer((e: Exclusion) => e.victim.id, es)
    ensures ExclusionsInOrder(Sort(ExclusionLess, es))
  {
    forall x, y, z | ExclusionLess(x, y) && ExclusionLess(y, z) ensures ExclusionLess(x, z) {
      LessTransitive(x.victim.id, y.victim.id, z.victim.id);
    }
    forall x, y | ExclusionLess(x, y) ensures !ExclusionLess(y, x) {
      LessTotal(x.victim.id, y.victim.id);
    }
    SortSorts(ExclusionLess, es);
    var sorted := Sort(ExclusionLess, es);
    RearrangingKeepsApart((e: Exclusion) => e.victim.id, es, sorted);
    forall i, j | 0 <= i < j < |sorted| ensures ComesFirst(sorted[i].victim.id, sorted[j].victim.id) {
      LessTotal(sorted[i].victim.id, sorted[j].victim.id);
      LessAtFirstDifference(sorted[i].victim.id, sorted[j].victim.id);
    }
  }

  // Waiting for room.

  /** `data` is what the Secret held, with the values of the admitted older pipelines over it. */
  ghost predicate LaidByOlder(w: World, existing: Data, ps: seq<Pipeline>, waiting: seq<Pipeline>, p: Pipeline, data: Data) {
    && existing.Keys <= data.Keys
    && (forall q :: q in ps && CreatedBefore(q, p) && q !in waiting ==> q.Flats() <= data.Keys)
    && (forall k :: k in data ==>
          if exists q :: Lays(ps, waiting, p, q, k) then exists q :: Lays(ps, waiting, p, q, k) && Drawn(w, q.Refs(), k, data[k])
          else k in existing && data[k] == existing[k])
  }

  ghost predicate Lays(ps: seq<Pipeline>, waiting: seq<Pipeline>, p: Pipeline, q: Pipeline, flat: string) {
    q in ps && CreatedBefore(q, p) && q !in waiting && flat in q.Flats()
  }

  /** A pipeline waits exactly when its values, laid over what the Secret holds and the values of the admitted
      older pipelines, are not within the limits. */
  lemma WaitsExactly(w: World, existing: Data, target: seq<Pipeline>, p: Pipeline) returns (data: Data, own: Data)
    requires UniqueIds(target) && Bridged(w, existing, target).Ok? && p in target && p.Refs() != []
    ensures LaidByOlder(w, existing, target, Bridged(w, existing, target).value.waiting, p, data)
    ensures own.Keys == p.Flats() && DrawnFromSecrets(w, p.Refs(), own)
    ensures p in Bridged(w, existing, target).value.waiting <==> !WithinLimits(w, data + own)
  {
    GatheredProperties(target);
    var ordered, waiting := Gathered(target).value, Bridged(w, existing, target).value.waiting;
    var i := PlaceOf(ordered, p);
    BridgeIsGreedy(w, existing, ordered);
    assert WaitsGreedily(w, existing, ordered, i);
    BridgeFailsExactly(w, existing, ordered);
    data, own := Overlaid(w, existing, Admitted(ordered[..i], waiting)), StagedData(w, p);
    OwnValues(w, p);
    LimitsInBytes(w, data + own);
    OverlayIsLaid(w, existing, target, waiting, i);
  }

  lemma OwnValues(w: World, p: Pipeline)
    requires Staged(w, p.Refs(), {}).Ok?
    ensures StagedData(w, p).Keys == p.Flats() && DrawnFromSecrets(w, p.Refs(), StagedData(w, p))
  {
    StagedAreDrawn(w, p.Refs(), {});
  }

  lemma OverlayIsLaid(w: World, existing: Data, target: seq<Pipeline>, waiting: seq<Pipeline>, i: nat)
    requires UniqueIds(target) && Gathered(target).Ok? && i < |Gathered(target).value| && Stageable(w, Gathered(target).value)
    ensures var ordered := Gathered(target).value;
            LaidByOlder(w, existing, target, waiting, ordered[i], Overlaid(w, existing, Admitted(ordered[..i], waiting)))
  {
    GatheredProperties(target);
    var ordered := Gathered(target).value;
    var front, p := ordered[..i], ordered[i];
    var admitted := Admitted(front, waiting);
    var data := Overlaid(w, existing, admitted);
    OverlaidHolds(w, existing, admitted);
    forall q | q in target && CreatedBefore(q, p) && q !in waiting && q.Refs() != [] ensures q in admitted {
      var j := PlaceOf(ordered, q);
      EarlierPlace(ordered, j, i);
      assert front[j] == q;
    }
    forall q | q in admitted ensures q in target && CreatedBefore(q, p) && q !in waiting {}
    forall k | k in data
      ensures if exists q :: Lays(target, waiting, p, q, k) then exists q :: Lays(target, waiting, p, q, k) && Drawn(w, q.Refs(), k, data[k])
              else k in existing && data[k] == existing[k]
    {
      OverlaidAt(w, existing, admitted, k);
      if ValueIn(w, admitted, k).Some? {
        var q := ValueInSome(w, admitted, k);
        StagedAreDrawn(w, q.Refs(), {});
        assert Lays(target, waiting, p, q, k) && Drawn(w, q.Refs(), k, data[k]);
      } else {
        forall q ensures !Lays(target, waiting, p, q, k) {
          if Lays(target, waiting, p, q, k) {
            StagedAreDrawn(w, q.Refs(), {});
            StagedIn(w, admitted, q, k);
          }
        }
      }
    }
  }

  lemma {:induction false} StagedIn(w: World, ps: seq<Pipeline>, q: Pipeline, flat: string)
    requires q in ps && flat in StagedData(w, q)
    ensures ValueIn(w, ps, flat).Some?
  {
    if flat !in StagedData(w, ps[|ps| - 1]) {
      StagedIn(w, ps[..|ps| - 1], q, flat);
    }
  }

  /** What a bridge publishes: the keys held before and those of the admitted pipelines, each key of theirs with
      a value one of them reads and each other one as it was; and who waits is listed by age. */
  lemma BridgeHoldsExactly(w: World, existing: Data, target: seq<Pipeline>)
    requires UniqueIds(target) && Bridged(w, existing, target).Ok?
    ensures var b := Bridged(w, existing, target).value;
            && ByAge(b.waiting) && (forall p :: p in b.waiting ==> p in target && p.Refs() != [])
            && (forall k :: k in b.data <==> k in existing || exists p :: AdmittedWith(target, b.waiting, p, k))
            && (forall k :: k in b.data ==>
                  if exists p :: AdmittedWith(target, b.waiting, p, k)
                  then exists p :: AdmittedWith(target, b.waiting, p, k) && Drawn(w, p.Refs(), k, b.data[k])
                  else b.data[k] == existing[k])
  {
    GatheredProperties(target);
    var ordered, b := Gathered(target).value, Bridged(w, existing, target).value;
    BridgeIsGreedy(w, existing, ordered);
    BridgeFailsExactly(w, existing, ordered);
    WaitersByAge(w, existing, ordered);
    forall k ensures k in b.data <==> k in existing || exists p :: AdmittedWith(target, b.waiting, p, k) {
      BridgedKey(w, existing, target, ordered, b.waiting, k);
    }
    forall k | k in b.data
      ensures if exists p :: AdmittedWith(target, b.waiting, p, k)
              then exists p :: AdmittedWith(target, b.waiting, p, k) && Drawn(w, p.Refs(), k, b.data[k])
              else b.data[k] == existing[k]
    {
      BridgedKey(w, existing, target, ordered, b.waiting, k);
    }
  }

  ghost predicate AdmittedWith(target: seq<Pipeline>, waiting: seq<Pipeline>, p: Pipeline, flat: string) {
    p in target && p !in waiting && flat in p.Flats()
  }

  lemma BridgedKey(w: World, existing: Data, target: seq<Pipeline>, ordered: seq<Pipeline>, waiting: seq<Pipeline>, k: string)
    requires forall p :: p in ordered <==> p in target && p.Refs() != []
    requires Stageable(w, ordered)
    ensures var data := Overlaid(w, existing, Admitted(ordered, waiting));
            && (k in data <==> k in existing || exists p :: AdmittedWith(target, waiting, p, k))
            && (k in data ==>
                  if exists p :: AdmittedWith(target, waiting, p, k)
                  then exists p :: AdmittedWith(target, waiting, p, k) && Drawn(w, p.Refs(), k, data[k])
                  else data[k] == existing[k])
  {
    var admitted := Admitted(ordered, waiting);
    OverlaidAt(w, existing, admitted, k);
    if ValueIn(w, admitted, k).Some? {
      var p := ValueInSome(w, admitted, k);
      OwnValues(w, p);
      assert AdmittedWith(target, waiting, p, k) && Drawn(w, p.Refs(), k, StagedData(w, p)[k]);
    } else {
      forall p ensures !AdmittedWith(target, waiting, p, k) {
        if AdmittedWith(target, waiting, p, k) {
          OwnValues(w, p);
          StagedIn(w, admitted, p, k);
        }
      }
    }
  }

  lemma {:induction false} WaitersByAge(w: World, existing: Data, ordered: seq<Pipeline>)
    requires ByAge(ordered) && BridgedInOrder(w, existing, ordered).Ok?
    ensures ByAge(BridgedInOrder(w, existing, ordered).value.waiting)
    ensures forall p :: p in BridgedInOrder(w, existing, ordered).value.waiting ==> p in ordered
  {
    if ordered != [] {
      var front, p := ordered[..|ordered| - 1], ordered[|ordered| - 1];
      assert ordered == front + [p];
      WaitersByAge(w, existing, front);
      var before := BridgedInOrder(w, existing, front).value.waiting;
      forall i | 0 <= i < |before| ensures CreatedBefore(before[i], p) {
        assert before[i] in front;
      }
    }
  }

  // The plan.

  ghost function WaitersOf(w: World, target: seq<Pipeline>, existing: Data): seq<Pipeline> {
    match Bridged(w, existing, target)
    case Ok(b) => b.waiting
    case Err(_) => []
  }

  /** Some variant has no room for the pipeline. */
  ghost predicate HeldBack(w: World, target: seq<Pipeline>, variants: seq<Data>, p: Pipeline) {
    exists i :: 0 <= i < |variants| && p in WaitersOf(w, target, variants[i])
  }

  /** The plan publishes the pipelines for which every variant has room and holds back exactly the others,
      all of them once; when some data cannot be read it holds back nobody and leaves the variants alone. */
  lemma PlanHoldsBackExactly(w: World, target: seq<Pipeline>, variants: seq<Data>)
    requires UniqueIds(target) && Planned(w, target, variants).Ok?
    ensures var plan := Planned(w, target, variants).value;
            && multiset(plan.publish) + multiset(plan.waiting) == multiset(target)
            && InOrderOf(target, plan.publish) && InOrderOf(target, plan.waiting)
            && (if variants != [] && AllBridged(w, target, variants) then
                  forall p :: p in plan.waiting <==> HeldBack(w, target, variants, p)
                else
                  plan.publish == target && plan.waiting == [] && plan.data == variants)
  {
    var plan := Planned(w, target, variants).value;
    BridgesDecide(w, target, variants);
    WholeInOrder(target);
    if variants != [] && WaitingIds(w, target, variants).Ok? {
      var ids := WaitingIds(w, target, variants).value;
      SplitInTwo(target, ids);
      SplitInOrder(target, ids);
      forall p ensures p in plan.waiting <==> HeldBack(w, target, variants, p) {
        WaitsInSome(w, target, variants, p.id);
        if HeldBack(w, target, variants, p) {
          var i :| 0 <= i < |variants| && p in WaitersOf(w, target, variants[i]);
          WaitersListed(w, variants[i], target, p);
          assert WaitsIn(w, target, variants[i], p.id);
        }
        if p in plan.waiting {
          var i :| 0 <= i < |variants| && WaitsIn(w, target, variants[i], p.id);
          var q :| q in WaitersOf(w, target, variants[i]) && q.id == p.id;
          WaitersListed(w, variants[i], target, q);
          SameId(target, p, q);
        }
      }
    }
  }

  ghost predicate AllBridged(w: World, target: seq<Pipeline>, variants: seq<Data>) {
    forall i :: 0 <= i < |variants| ==> Bridged(w, variants[i], target).Ok?
  }

  lemma {:induction false} BridgesDecide(w: World, target: seq<Pipeline>, variants: seq<Data>)
    ensures WaitingIds(w, target, variants).Ok? <==> AllBridged(w, target, variants)
  {
    if variants != [] {
      var n := |variants| - 1;
      var front, last := variants[..n], variants[n];
      BridgesDecide(w, target, front);
      BridgedLast(w, target, front, last);
      assert variants == front + [last];
    }
  }

  lemma BridgedLast(w: World, target: seq<Pipeline>, front: seq<Data>, last: Data)
    ensures AllBridged(w, target, front + [last]) <==> AllBridged(w, target, front) && Bridged(w, last, target).Ok?
  {
    var all := front + [last];
    forall i | 0 <= i < |front| ensures all[i] == front[i] {}
    assert all[|front|] == last;
    if AllBridged(w, target, all) {
      forall i | 0 <= i < |front| ensures Bridged(w, front[i], target).Ok? {
        assert Bridged(w, all[i], target).Ok?;
      }
    }
  }

  /** The identifier is among those that wait in this variant. */
  ghost predicate WaitsIn(w: World, target: seq<Pipeline>, existing: Data, id: string) {
    Bridged(w, existing, target).Ok? && id in IdsOf(Bridged(w, existing, target).value.waiting)
  }

  ghost predicate WaitsSomewhere(w: World, target: seq<Pipeline>, variants: seq<Data>, id: string) {
    exists i :: 0 <= i < |variants| && WaitsIn(w, target, variants[i], id)
  }

  lemma WaitsAppend(w: World, target: seq<Pipeline>, front: seq<Data>, last: Data, id: string)
    ensures WaitsSomewhere(w, target, front + [last], id) <==> WaitsSomewhere(w, target, front, id) || WaitsIn(w, target, last, id)
  {
    var all := front + [last];
    assert all[|front|] == last;
    if i :| 0 <= i < |front| && WaitsIn(w, target, front[i], id) {
      assert all[i] == front[i];
    }
  }

  lemma {:induction false} WaitsInSome(w: World, target: seq<Pipeline>, variants: seq<Data>, id: string)
    requires WaitingIds(w, target, variants).Ok?
    ensures id in WaitingIds(w, target, variants).value <==> WaitsSomewhere(w, target, variants, id)
  {
    if variants != [] {
      var front, last := variants[..|variants| - 1], variants[|variants| - 1];
      assert variants == front + [last];
      WaitsInSome(w, target, front, id);
      WaitsAppend(w, target, front, last, id);
    }
  }

  lemma WaitersListed(w: World, existing: Data, target: seq<Pipeline>, p: Pipeline)
    requires UniqueIds(target) && Bridged(w, existing, target).Ok? && p in Bridged(w, existing, target).value.waiting
    ensures p in target
  {
    GatheredProperties(target);
    BridgeIsGreedy(w, existing, Gathered(target).value);
  }

  lemma WholeInOrder(ps: seq<Pipeline>)
    ensures InOrderOf(ps, ps)
  {
    forall i, j | 0 <= i < j < |ps| ensures Precedes(ps, ps[i], ps[j]) {}
  }

  lemma {:induction false} SplitInOrder(ps: seq<Pipeline>, ids: set<string>)
    ensures InOrderOf(ps, Without(ps, ids)) && InOrderOf(ps, Within(ps, ids))
  {
    if ps != [] {
      var front, last := ps[..|ps| - 1], ps[|ps| - 1];
      assert ps == front + [last];
      SplitInOrder(front, ids);
      OrderGrows(front, Without(front, ids), last);
      OrderGrows(front, Within(front, ids), last);
    }
  }

  lemma {:induction false} SplitInTwo(ps: seq<Pipeline>, ids: set<string>)
    ensures multiset(Without(ps, ids)) + multiset(Within(ps, ids)) == multiset(ps)
  {
    if ps != [] {
      SplitInTwo(ps[..|ps| - 1], ids);
      assert ps == ps[..|ps| - 1] + [ps[|ps| - 1]];
    }
  }
}
