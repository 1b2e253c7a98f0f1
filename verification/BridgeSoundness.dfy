/** When the bridge plan can be published: every variant holds every published pipeline's keys. */
module BridgeSoundness {
  import opened Outcomes
  import opened Totals
  import opened SecretRefs
  import opened Staging
  import opened SizeBudget
  import opened Bridge
  import opened BridgePlan

  ghost predicate Stageable(w: World, ps: seq<Pipeline>) {
    forall p :: p in ps ==> Staged(w, p.Refs(), {}).Ok?
  }

  /** A walk fails exactly when some pipeline's own data cannot be read. */
  lemma {:induction false} BridgeFailsExactly(w: World, existing: Data, ordered: seq<Pipeline>)
    ensures BridgedInOrder(w, existing, ordered).Ok? <==> Stageable(w, ordered)
  {
    if ordered != [] {
      var front := ordered[..|ordered| - 1];
      BridgeFailsExactly(w, existing, front);
      assert ordered == front + [ordered[|ordered| - 1]];
    }
  }

  /** What the list stages under a flat key, the last pipeline counting. */
  ghost function ValueIn(w: World, ps: seq<Pipeline>, flat: string): Option<Value> {
    if ps == [] then None
    else if flat in StagedData(w, ps[|ps| - 1]) then Some(StagedData(w, ps[|ps| - 1])[flat])
    else ValueIn(w, ps[..|ps| - 1], flat)
  }

  lemma {:induction false} OverlaidAt(w: World, existing: Data, ps: seq<Pipeline>, flat: string)
    ensures At(Overlaid(w, existing, ps), flat) ==
            if ValueIn(w, ps, flat).Some? then ValueIn(w, ps, flat) else At(existing, flat)
  {
    if ps != [] {
      OverlaidAt(w, existing, ps[..|ps| - 1], flat);
    }
  }

  lemma StagedAgree(w: World, p: Pipeline, q: Pipeline, flat: string)
    requires !Conflict(p, q) && flat in StagedData(w, p) && flat in StagedData(w, q)
    ensures StagedData(w, p)[flat] == StagedData(w, q)[flat]
  {
    var a, b := StagedData(w, p), StagedData(w, q);
    StagedSound(w, p.Refs(), {});
    StagedSound(w, q.Refs(), {});
    assert ReadsFrom(w, p.Refs(), flat, a[flat]) && ReadsFrom(w, q.Refs(), flat, b[flat]);
    var r :| r in p.Refs() && r.flat == flat && ValueOf(w, r.origin) == Ok(a[flat]);
    var s :| s in q.Refs() && s.flat == flat && ValueOf(w, s.origin) == Ok(b[flat]);
    assert r == Ref(flat, r.origin) && s == Ref(flat, s.origin);
    assert !Disagree(p, q, flat);
    assert !DisagreeOn(p, q, flat, r.origin, s.origin);
  }

  /** In a collision-free list a key has the value of any pipeline that stages it. */
  lemma {:induction false} ValueInAny(w: World, ps: seq<Pipeline>, p: Pipeline, flat: string)
    requires CollisionFree(ps) && p in ps && flat in StagedData(w, p)
    ensures ValueIn(w, ps, flat) == Some(StagedData(w, p)[flat])
  {
    var front, last := ps[..|ps| - 1], ps[|ps| - 1];
    if flat in StagedData(w, last) {
      StagedAgree(w, last, p, flat);
    } else {
      assert p in front;
      assert forall q :: q in front ==> q in ps;
      ValueInAny(w, front, p, flat);
    }
  }

  lemma {:induction false} ValueInSome(w: World, ps: seq<Pipeline>, flat: string) returns (p: Pipeline)
    requires ValueIn(w, ps, flat).Some?
    ensures p in ps && flat in StagedData(w, p) && ValueIn(w, ps, flat) == Some(StagedData(w, p)[flat])
  {
    p := ps[|ps| - 1];
    if flat !in StagedData(w, p) {
      p := ValueInSome(w, ps[..|ps| - 1], flat);
    }
  }

  /** No pipeline of the list would replace an entry of `existing` by a lighter one. */
  ghost predicate NoShrink(w: World, existing: Data, ps: seq<Pipeline>) {
    forall p :: p in ps ==> NoShrinkBy(w, existing, StagedData(w, p))
  }

  ghost predicate NoShrinkBy(w: World, existing: Data, staged: Data) {
    forall k :: k in staged && k in existing ==>
      |existing[k]| <= |staged[k]| && w.entry(k, existing[k]) <= w.entry(k, staged[k])
  }

  /** Without shrinking, staging fewer pipelines never weighs more. */
  lemma FewerFits(w: World, existing: Data, fewer: seq<Pipeline>, more: seq<Pipeline>)
    requires CollisionFree(more) && NoShrink(w, existing, more)
    requires forall p :: p in fewer ==> p in more
    requires Fits(w, Overlaid(w, existing, more))
    ensures Fits(w, Overlaid(w, existing, fewer))
  {
    var small, large := Overlaid(w, existing, fewer), Overlaid(w, existing, more);
    forall k | k in small
      ensures k in large && |small[k]| <= |large[k]| && w.entry(k, small[k]) <= w.entry(k, large[k])
    {
      OutweighedAt(w, existing, fewer, more, k);
    }
    TotalMonotone(small, large, ByteLength);
    TotalMonotone(small, large, w.entry);
  }

  lemma OutweighedAt(w: World, existing: Data, fewer: seq<Pipeline>, more: seq<Pipeline>, k: string)
    requires CollisionFree(more) && NoShrink(w, existing, more)
    requires forall p :: p in fewer ==> p in more
    requires k in Overlaid(w, existing, fewer)
    ensures var small, large := Overlaid(w, existing, fewer), Overlaid(w, existing, more);
            k in large && |small[k]| <= |large[k]| && w.entry(k, small[k]) <= w.entry(k, large[k])
  {
    OverlaidAt(w, existing, fewer, k);
    OverlaidAt(w, existing, more, k);
    if ValueIn(w, fewer, k).Some? {
      var p := ValueInSome(w, fewer, k);
      ValueInAny(w, more, p, k);
    } else if ValueIn(w, more, k).Some? {
      var p := ValueInSome(w, more, k);
      assert NoShrinkBy(w, existing, StagedData(w, p));
    }
  }

  /** If anyone was admitted, the published data fits, whatever the Secret held before. */
  lemma {:induction false} AdmittedFits(w: World, existing: Data, ordered: seq<Pipeline>)
    requires UniqueIds(ordered) && BridgedInOrder(w, existing, ordered).Ok?
    requires exists p :: p in ordered && p !in BridgedInOrder(w, existing, ordered).value.waiting
    ensures Fits(w, BridgedInOrder(w, existing, ordered).value.data)
  {
    var front, p := ordered[..|ordered| - 1], ordered[|ordered| - 1];
    assert ordered == front + [p];
    LastPipelineIsNew(front, p);
    var extra := WaitingGrows(w, existing, front, p);
    if extra == [p] {
      var q :| q in ordered && q !in BridgedInOrder(w, existing, ordered).value.waiting;
      assert q in front;
      AdmittedFits(w, existing, front);
    }
  }

  lemma {:induction false} WithoutUnique(ps: seq<Pipeline>, ids: set<string>)
    requires UniqueIds(ps)
    ensures UniqueIds(Without(ps, ids))
  {
    if ps != [] {
      WithoutUnique(ps[..|ps| - 1], ids);
      var kept := Without(ps[..|ps| - 1], ids);
      forall i | 0 <= i < |kept| ensures kept[i].id != ps[|ps| - 1].id {
        assert kept[i] in ps[..|ps| - 1];
      }
    }
  }

  /** Without shrinking, any narrower list of a variant's admitted pipelines is staged whole. */
  lemma NarrowerListStaged(w: World, existing: Data, ordered: seq<Pipeline>, ids: set<string>)
    requires UniqueIds(ordered) && CollisionFree(ordered) && NoShrink(w, existing, ordered)
    requires BridgedInOrder(w, existing, ordered).Ok?
    requires IdsOf(BridgedInOrder(w, existing, ordered).value.waiting) <= ids
    ensures BridgedInOrder(w, existing, Without(ordered, ids)).Ok?
    ensures BridgedInOrder(w, existing, Without(ordered, ids)).value.waiting == []
  {
    var waiting := BridgedInOrder(w, existing, ordered).value.waiting;
    var publish, admitted := Without(ordered, ids), Admitted(ordered, waiting);
    BridgeFailsExactly(w, existing, ordered);
    BridgeFailsExactly(w, existing, publish);
    NobodyWaitsExactly(w, existing, publish);
    BridgeIsGreedy(w, existing, ordered);
    forall p | p in publish ensures p in admitted {
      assert p in waiting ==> p.id in IdsOf(waiting);
    }
    forall i | 0 < i <= |publish| ensures PrefixFits(w, existing, publish, i) {
      assert publish[0] in publish && publish[0] in ordered && publish[0] !in waiting;
      AdmittedFits(w, existing, ordered);
      assert forall p :: p in publish[..i] ==> p in publish;
      FewerFits(w, existing, publish[..i], admitted);
    }
  }

  /** Variant `i` of a plan holds every key of every published pipeline, and everything it held before. */
  ghost predicate VariantHolds(plan: Plan, variants: seq<Data>, i: nat)
    requires i < |variants| == |plan.data|
  {
    variants[i].Keys <= plan.data[i].Keys && forall p :: p in plan.publish ==> p.Flats() <= plan.data[i].Keys
  }

  /** Pass 2 discards no pipeline in this variant. */
  ghost predicate StagesAll(w: World, existing: Data, publish: seq<Pipeline>) {
    Bridged(w, existing, publish).Ok? && Bridged(w, existing, publish).value.waiting == []
  }

  lemma {:induction false} OverlaidHolds(w: World, existing: Data, ps: seq<Pipeline>)
    requires Stageable(w, ps)
    ensures existing.Keys <= Overlaid(w, existing, ps).Keys
    ensures forall p :: p in ps ==> p.Flats() <= Overlaid(w, existing, ps).Keys
  {
    if ps != [] {
      var front, last := ps[..|ps| - 1], ps[|ps| - 1];
      assert ps == front + [last];
      OverlaidHolds(w, existing, front);
      StagedSound(w, last.Refs(), {});
    }
  }

  /** Pass 1 having succeeded, pass 2 cannot fail. */
  lemma PassTwoSucceeds(w: World, target: seq<Pipeline>, variants: seq<Data>)
    requires UniqueIds(target) && variants != [] && WaitingIds(w, target, variants).Ok?
    ensures PublishTargets(w, Without(target, WaitingIds(w, target, variants).value), variants).Ok?
  {
    var ids := WaitingIds(w, target, variants).value;
    WaitingAt(w, target, variants, 0);
    var ordered := Gathered(target).value;
    WithoutCommutesWithGathering(target, ids);
    BridgeFailsExactly(w, variants[0], ordered);
    AllTargetsSucceed(w, Without(target, ids), variants);
  }

  lemma {:induction false} AllTargetsSucceed(w: World, publish: seq<Pipeline>, variants: seq<Data>)
    requires Gathered(publish).Ok? && Stageable(w, Gathered(publish).value)
    ensures PublishTargets(w, publish, variants).Ok?
  {
    if variants != [] {
      AllTargetsSucceed(w, publish, variants[..|variants| - 1]);
      BridgeFailsExactly(w, variants[|variants| - 1], Gathered(publish).value);
    }
  }

  /** A variant whose pass 2 stages everyone is ready to be published from. */
  lemma StagedVariantHolds(w: World, target: seq<Pipeline>, variants: seq<Data>, i: nat)
    requires UniqueIds(target) && i < |variants| && WaitingIds(w, target, variants).Ok?
    ensures Planned(w, target, variants).Ok?
    ensures var plan := Planned(w, target, variants).value;
            && |plan.data| == |variants|
            && variants[i].Keys <= plan.data[i].Keys
            && (Fits(w, variants[i]) ==> Fits(w, plan.data[i]))
            && (StagesAll(w, variants[i], plan.publish) ==> VariantHolds(plan, variants, i))
  {
    PassTwoSucceeds(w, target, variants);
    var plan := Planned(w, target, variants).value;
    TargetsAt(w, plan.publish, variants, i);
    var ordered := Gathered(plan.publish).value;
    BridgeKeepsEverything(w, variants[i], ordered);
    if StagesAll(w, variants[i], plan.publish) {
      WithoutUnique(target, WaitingIds(w, target, variants).value);
      GatheredProperties(plan.publish);
      NobodyWaitsExactly(w, variants[i], ordered);
      BridgeFailsExactly(w, variants[i], ordered);
      OverlaidHolds(w, variants[i], ordered);
      forall p | p in plan.publish ensures p.Flats() <= plan.data[i].Keys {
        if HasRefs(p) { assert p in ordered; }
      }
    }
  }

  /** Pass 2 stages everyone in a variant exactly when every prefix, oldest first, of the pipelines
      to publish fits next to what the variant holds. */
  lemma StagesAllExactly(w: World, existing: Data, publish: seq<Pipeline>)
    requires Bridged(w, existing, publish).Ok?
    ensures StagesAll(w, existing, publish) <==>
            var ordered := Gathered(publish).value;
            forall n :: 0 < n <= |ordered| ==> PrefixFits(w, existing, ordered, n)
  {
    NobodyWaitsExactly(w, existing, Gathered(publish).value);
  }

  /** Pass 2 stages everyone in every variant exactly when in every variant each prefix, oldest first, of
      the narrowed list fits next to what the variant holds; then the plan can be published. */
  lemma PassTwoStagesExactly(w: World, target: seq<Pipeline>, variants: seq<Data>)
    requires UniqueIds(target) && variants != [] && WaitingIds(w, target, variants).Ok?
    ensures Planned(w, target, variants).Ok? && |Planned(w, target, variants).value.data| == |variants|
    ensures var plan := Planned(w, target, variants).value;
            Gathered(plan.publish).Ok? &&
            var ordered := Gathered(plan.publish).value;
            (forall i :: 0 <= i < |variants| ==> StagesAll(w, variants[i], plan.publish)) <==>
            (forall i, n :: 0 <= i < |variants| && 0 < n <= |ordered| ==> PrefixFits(w, variants[i], ordered, n))
    ensures var plan := Planned(w, target, variants).value;
            (forall i :: 0 <= i < |variants| ==> StagesAll(w, variants[i], plan.publish)) ==>
            forall i :: 0 <= i < |variants| ==> VariantHolds(plan, variants, i)
  {
    PassTwoSucceeds(w, target, variants);
    var plan := Planned(w, target, variants).value;
    TargetsLength(w, plan.publish, variants);
    forall i | 0 <= i < |variants|
      ensures Bridged(w, variants[i], plan.publish).Ok?
      ensures StagesAll(w, variants[i], plan.publish) ==> VariantHolds(plan, variants, i)
    {
      TargetsAt(w, plan.publish, variants, i);
      StagedVariantHolds(w, target, variants, i);
      StagesAllExactly(w, variants[i], plan.publish);
    }
    forall i | 0 <= i < |variants|
      ensures StagesAll(w, variants[i], plan.publish) <==>
              forall n :: 0 < n <= |Gathered(plan.publish).value| ==> PrefixFits(w, variants[i], Gathered(plan.publish).value, n)
    {
      StagesAllExactly(w, variants[i], plan.publish);
    }
    assert Bridged(w, variants[0], plan.publish).Ok?;
  }

  /** With one variant nothing is ever discarded. */
  lemma SingleVariantHolds(w: World, target: seq<Pipeline>, existing: Data)
    requires UniqueIds(target) && WaitingIds(w, target, [existing]).Ok?
    ensures Planned(w, target, [existing]).Ok? && |Planned(w, target, [existing]).value.data| == 1
    ensures VariantHolds(Planned(w, target, [existing]).value, [existing], 0)
  {
    OneVariantSound(w, target, existing);
    StagedVariantHolds(w, target, [existing], 0);
  }

  /** With several variants nothing is discarded as long as no pipeline of the collision-free target
      shrinks an entry a variant already holds. */
  lemma NoShrinkHolds(w: World, target: seq<Pipeline>, variants: seq<Data>, i: nat)
    requires UniqueIds(target) && CollisionFree(target)
    requires i < |variants| && WaitingIds(w, target, variants).Ok?
    requires NoShrink(w, variants[i], target)
    ensures Planned(w, target, variants).Ok? && |Planned(w, target, variants).value.data| == |variants|
    ensures VariantHolds(Planned(w, target, variants).value, variants, i)
  {
    var ids := WaitingIds(w, target, variants).value;
    WaitingAt(w, target, variants, i);
    GatheredProperties(target);
    WithoutCommutesWithGathering(target, ids);
    var ordered := Gathered(target).value;
    assert CollisionFree(ordered) && NoShrink(w, variants[i], ordered);
    NarrowerListStaged(w, variants[i], ordered, ids);
    StagedVariantHolds(w, target, variants, i);
  }
}
