/** Which listed pipelines a workload is built from and which get their status back, said about the listing
    itself: validity, stored reason and edits, and the two detectors' victims. */
module SelectionRules {
  import opened Outcomes
  import opened Ordering
  import opened Totals
  import opened SecretRefs
  import opened Collisions
  import opened Staging
  import opened SizeBudget
  import opened Bridge
  import opened BridgePlan
  import opened BridgeSoundness
  import opened WorkloadPipelines

  /** The pipeline was valid, or lost a shared resource that may be free again. */
  predicate Considered(l: Listed) {
    l.valid || l.reason == Some(ByCollision) || l.reason == Some(BySize) || l.reason == Some(ByObjectSize) || l.reason == Some(Waiting)
  }

  lemma ConsideredExactly(all: seq<Listed>)
    ensures forall l :: l in PoolOf(all) <==> l in all && Considered(l)
  {
    forall l ensures InPool(l) <==> Considered(l) {
      if l.reason.Some? {
        match l.reason.value
        case ByCollision =>
        case BySize =>
        case ByObjectSize =>
        case Waiting =>
        case Otherwise =>
      }
    }
  }

  /** The pipelines both detectors look at. */
  ghost predicate Pool(all: seq<Listed>, pool: seq<Pipeline>) {
    UniqueIds(pool) && forall p :: p in pool <==> exists l :: l in all && l.p == p && Considered(l)
  }

  /** The victims: the collision detector's over the pool, the size detector's over the others. When some
      value cannot be read nobody is a victim of size. */
  ghost predicate Victims(w: World, pool: seq<Pipeline>, collided: set<string>, oversized: set<string>) {
    && Detected(pool).Ok?
    && (forall id :: id in collided <==> exists c :: c in Detected(pool).value && c.victim.id == id)
    && exists rest: seq<Pipeline> ::
         && (forall p :: p in rest <==> p in pool && p.id !in collided)
         && UniqueIds(rest)
         && match Overflows(w, rest)
            case Ok(es) => forall id :: id in oversized <==> exists e :: e in es && e.victim.id == id
            case Err(_) => oversized == {}
  }

  /** A considered pipeline whose references cannot even be found. */
  ghost predicate Unscannable(all: seq<Listed>) {
    exists l :: l in all && Considered(l) && l.p.scan.Malformed?
  }

  /** A listed pipeline is built from exactly when it is considered, neither detector names it, and it was
      valid or has not been edited since it failed; its status is restored exactly when it is built from and was
      not valid. Only when a considered pipeline cannot be scanned are these the valid ones and nobody. */
  lemma SelectionExactly(w: World, all: seq<Listed>) returns (pool: seq<Pipeline>, collided: set<string>, oversized: set<string>)
    requires forall i, j :: 0 <= i < j < |all| ==> all[i].p.id != all[j].p.id
    ensures Pool(all, pool)
    ensures Unscannable(all) ==>
              (forall l :: l in Resolve(w, all).build <==> l in all && l.valid) && Resolve(w, all).reinstate == []
    ensures !Unscannable(all) ==>
              && Victims(w, pool, collided, oversized)
              && (forall l :: l in Resolve(w, all).build <==>
                    && l in all && Considered(l) && l.p.id !in collided && l.p.id !in oversized
                    && (l.valid || !l.edited))
              && (forall l :: l in Resolve(w, all).reinstate <==> l in Resolve(w, all).build && !l.valid)
  {
    var listed := PoolOf(all);
    pool := PipelinesOf(listed);
    collided, oversized := {}, {};
    ConsideredExactly(all);
    KeptUnique(InPool, all);
    PoolHolds(all);
    ScanDecides(w, pool);
    if Unscannable(all) {
      var l :| l in all && Considered(l) && l.p.scan.Malformed?;
      assert l.p in pool && !Readable(l.p);
      ValidAreKept(all);
    } else {
      var outcome := Attribute(w, pool);
      collided, oversized := outcome.collided, outcome.oversized;
      AttributedVictims(w, pool);
      forall l ensures (l in Resolve(w, all).build <==> l in listed && l.p.id !in collided && l.p.id !in oversized && (l.valid || !l.edited))
          && (l in Resolve(w, all).reinstate <==> l in Resolve(w, all).build && !l.valid) {
        SelectedExactly(listed, collided + oversized, l);
      }
    }
  }

  /** Both lists keep the order of the listing, also in the fallback. */
  lemma SelectionKeepsOrder(w: World, all: seq<Listed>)
    ensures InOrderOf(all, Resolve(w, all).build) && InOrderOf(all, Resolve(w, all).reinstate)
  {
    var pool := PoolOf(all);
    KeepInOrder(InPool, all);
    match Attribute(w, PipelinesOf(pool))
    case Structural =>
      KeepInOrder(IsValid, pool);
      OrderChains(all, pool, ValidOnly(pool));
    case Decided(collided, oversized) =>
      var r := Selected(pool, collided + oversized);
      SelectedInOrder(pool, collided + oversized);
      OrderChains(all, pool, r.build);
      OrderChains(all, pool, r.reinstate);
  }

  lemma {:induction false} SelectedInOrder(pool: seq<Listed>, victims: set<string>)
    ensures InOrderOf(pool, Selected(pool, victims).build) && InOrderOf(pool, Selected(pool, victims).reinstate)
  {
    if pool != [] {
      var front, last := pool[..|pool| - 1], pool[|pool| - 1];
      assert pool == front + [last];
      var r := Selected(front, victims);
      SelectedInOrder(front, victims);
      forall l ensures (l in r.build ==> l in front) && (l in r.reinstate ==> l in front) {
        SelectedExactly(front, victims, l);
      }
      OrderGrows(front, r.build, last);
      OrderGrows(front, r.reinstate, last);
    }
  }

  lemma PoolHolds(all: seq<Listed>)
    requires UniqueIds(PipelinesOf(PoolOf(all)))
    ensures Pool(all, PipelinesOf(PoolOf(all)))
  {
    var listed := PoolOf(all);
    ConsideredExactly(all);
    forall p ensures p in PipelinesOf(listed) <==> exists l :: l in all && l.p == p && Considered(l) {
      if p in PipelinesOf(listed) {
        var l := InPipelinesOf(listed, p);
      }
      if l :| l in all && l.p == p && Considered(l) {
        assert l in listed;
        var i :| 0 <= i < |listed| && listed[i] == l;
        assert PipelinesOf(listed)[i] == p;
      }
    }
  }

  lemma ValidAreKept(all: seq<Listed>)
    ensures forall l :: l in ValidOnly(PoolOf(all)) <==> l in all && l.valid
  {
    ConsideredExactly(all);
  }

  ghost predicate AllScanned(pool: seq<Pipeline>) {
    forall p :: p in pool ==> Readable(p)
  }

  /** The detectors fail as a whole exactly when a pipeline cannot be scanned. */
  lemma ScanDecides(w: World, pool: seq<Pipeline>)
    requires UniqueIds(pool)
    ensures Attribute(w, pool).Structural? <==> !AllScanned(pool)
  {
    GatheredProperties(pool);
    if Detected(pool).Ok? {
      var rest := SurvivorsOf(pool);
      WithoutUnique(pool, CollisionIds(Detected(pool).value));
      SizesScanned(w, rest);
      if |pool| < 2 {
        FewSurvive(pool);
      }
    }
  }

  lemma SizesScanned(w: World, rest: seq<Pipeline>)
    requires UniqueIds(rest)
    ensures Overflows(w, rest).Err? && !Overflows(w, rest).error.Local() <==> !AllScanned(rest)
  {
    GatheredProperties(rest);
    if Gathered(rest).Ok? && Packed(w, Gathered(rest).value).Err? {
      PackingFailsLocally(w, Gathered(rest).value);
    }
  }

  lemma AttributedVictims(w: World, pool: seq<Pipeline>)
    requires UniqueIds(pool) && Attribute(w, pool).Decided?
    ensures Victims(w, pool, Attribute(w, pool).collided, Attribute(w, pool).oversized)
  {
    var rest := SurvivorsOf(pool);
    WithoutUnique(pool, CollisionIds(Detected(pool).value));
    assert forall p :: p in rest <==> p in pool && p.id !in Attribute(w, pool).collided;
  }

  lemma {:induction false} PackingFailsLocally(w: World, ordered: seq<Pipeline>)
    requires Packed(w, ordered).Err?
    ensures Packed(w, ordered).error.Local()
  {
    var n := |ordered| - 1;
    if Packed(w, ordered[..n]).Err? {
      PackingFailsLocally(w, ordered[..n]);
    } else {
      StagingFailsLocally(w, ordered[n].Refs(), Packed(w, ordered[..n]).value.data.Keys);
    }
  }

  lemma {:induction false} StagingFailsLocally(w: World, refs: seq<Ref>, skip: set<string>)
    requires Staged(w, refs, skip).Err?
    ensures Staged(w, refs, skip).error.Local()
  {
    var n := |refs| - 1;
    if Staged(w, refs[..n], skip).Err? {
      StagingFailsLocally(w, refs[..n], skip);
    }
  }

  // The plan.

  lemma {:induction false} BridgingFailsLocally(w: World, existing: Data, ordered: seq<Pipeline>)
    requires BridgedInOrder(w, existing, ordered).Err?
    ensures BridgedInOrder(w, existing, ordered).error.Local()
  {
    var n := |ordered| - 1;
    if BridgedInOrder(w, existing, ordered[..n]).Err? {
      BridgingFailsLocally(w, existing, ordered[..n]);
    } else {
      StagingFailsLocally(w, ordered[n].Refs(), {});
    }
  }

  lemma {:induction false} PassOneFailsLocally(w: World, target: seq<Pipeline>, variants: seq<Data>)
    requires WaitingIds(w, target, variants).Err?
    ensures WaitingIds(w, target, variants).error == MalformedSpec || WaitingIds(w, target, variants).error.Local()
    ensures Gathered(target).Ok? ==> WaitingIds(w, target, variants).error.Local()
  {
    var n := |variants| - 1;
    if WaitingIds(w, target, variants[..n]).Err? {
      PassOneFailsLocally(w, target, variants[..n]);
    } else if Gathered(target).Ok? {
      BridgingFailsLocally(w, variants[n], Gathered(target).value);
    }
  }

  /** Planning fails exactly when there is an assets Secret to plan for and a pipeline that cannot be scanned. */
  lemma PlanFailsExactly(w: World, target: seq<Pipeline>, variants: seq<Data>)
    requires UniqueIds(target)
    ensures Planned(w, target, variants).Err? <==> variants != [] && exists p :: p in target && p.scan.Malformed?
  {
    GatheredProperties(target);
    if variants != [] {
      if WaitingIds(w, target, variants).Err? {
        PassOneFailsLocally(w, target, variants);
        if Gathered(target).Err? {
          FirstBridgeFails(w, target, variants);
        }
      } else {
        PassTwoSucceeds(w, target, variants);
        WaitingAt(w, target, variants, 0);
      }
    }
  }

  lemma {:induction false} FirstBridgeFails(w: World, target: seq<Pipeline>, variants: seq<Data>)
    requires variants != [] && Gathered(target).Err?
    ensures WaitingIds(w, target, variants) == Err(MalformedSpec)
  {
    var n := |variants| - 1;
    if n > 0 {
      FirstBridgeFails(w, target, variants[..n]);
    } else {
      assert variants[..n] == [];
    }
  }
}
