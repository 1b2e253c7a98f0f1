/** Planning one round for every variant of the assets Secret: which pipelines may be published now,
    and what each variant must hold for that. */
module BridgePlan {
  import opened Outcomes
  import opened Ordering
  import opened Totals
  import opened SecretRefs
  import opened Staging
  import opened SizeBudget
  import opened Bridge

  /** What each variant should hold, the pipelines to publish, and those held back this round. */
  datatype Plan = Plan(data: seq<Data>, publish: seq<Pipeline>, waiting: seq<Pipeline>)

  function Without(ps: seq<Pipeline>, ids: set<string>): (r: seq<Pipeline>)
    ensures forall p :: p in r <==> p in ps && p.id !in ids
  {
    if ps == [] then []
    else
      assert ps == ps[..|ps| - 1] + [ps[|ps| - 1]];
      Without(ps[..|ps| - 1], ids) + if ps[|ps| - 1].id in ids then [] else [ps[|ps| - 1]]
  }

  function Within(ps: seq<Pipeline>, ids: set<string>): (r: seq<Pipeline>)
    ensures forall p :: p in r <==> p in ps && p.id in ids
  {
    if ps == [] then []
    else
      assert ps == ps[..|ps| - 1] + [ps[|ps| - 1]];
      Within(ps[..|ps| - 1], ids) + if ps[|ps| - 1].id in ids then [ps[|ps| - 1]] else []
  }

  function IdsOf(ps: seq<Pipeline>): set<string> {
    set p | p in ps :: p.id
  }

  /** Pass 1: the pipelines some variant has no room for. */
  ghost function WaitingIds(w: World, target: seq<Pipeline>, variants: seq<Data>): Result<set<string>, Failure> {
    if variants == [] then Ok({})
    else
      var ids :- WaitingIds(w, target, variants[..|variants| - 1]);
      var b :- Bridged(w, variants[|variants| - 1], target);
      Ok(ids + IdsOf(b.waiting))
  }

  /** Pass 2: each variant's data for the pipelines to publish. */
  ghost function PublishTargets(w: World, publish: seq<Pipeline>, variants: seq<Data>): Result<seq<Data>, Failure> {
    if variants == [] then Ok([])
    else
      var data :- PublishTargets(w, publish, variants[..|variants| - 1]);
      var b :- Bridged(w, variants[|variants| - 1], publish);
      Ok(data + [b.data])
  }

  /** The plan. A pipeline whose data cannot be read does not hold up the round: the build that
      follows reports it. */
  ghost function Planned(w: World, target: seq<Pipeline>, variants: seq<Data>): Result<Plan, Failure> {
    if variants == [] then Ok(Plan([], target, []))
    else
      match WaitingIds(w, target, variants)
      case Err(e) => if e.Local() then Ok(Plan(variants, target, [])) else Err(e)
      case Ok(ids) =>
        var publish := Without(target, ids);
        var data :- PublishTargets(w, publish, variants);
        Ok(Plan(data, publish, Within(target, ids)))
  }

  method PlanSecretAssetsBridge(w: World, target: seq<Pipeline>, variants: seq<Data>) returns (r: Result<Plan, Failure>)
    ensures r == Planned(w, target, variants)
  {
    if |variants| == 0 {
      return Ok(Plan([], target, []));
    }
    var ids := FindWaiting(w, target, variants);
    if ids.Err? {
      if ids.error.Local() {
        return Ok(Plan(variants, target, []));
      }
      return Err(ids.error);
    }
    var publish, waiting := Split(target, ids.value);
    var data := BridgeEach(w, publish, variants);
    if data.Err? {
      return Err(data.error);
    }
    return Ok(Plan(data.value, publish, waiting));
  }

  method FindWaiting(w: World, target: seq<Pipeline>, variants: seq<Data>) returns (r: Result<set<string>, Failure>)
    ensures r == WaitingIds(w, target, variants)
  {
    var ids := {};
    for i := 0 to |variants|
      invariant WaitingIds(w, target, variants[..i]) == Ok(ids)
    {
      assert variants[..i + 1][..i] == variants[..i];
      var b := BridgeAssets(w, variants[i], target);
      if b.Err? {
        WaitingFails(w, target, variants, i + 1);
        return Err(b.error);
      }
      ids := ids + IdsOf(b.value.waiting);
    }
    assert variants[..|variants|] == variants;
    return Ok(ids);
  }

  method Split(target: seq<Pipeline>, ids: set<string>) returns (publish: seq<Pipeline>, waiting: seq<Pipeline>)
    ensures publish == Without(target, ids) && waiting == Within(target, ids)
  {
    publish, waiting := [], [];
    for i := 0 to |target|
      invariant publish == Without(target[..i], ids) && waiting == Within(target[..i], ids)
    {
      assert target[..i + 1][..i] == target[..i];
      if target[i].id !in ids {
        publish := publish + [target[i]];
      } else {
        waiting := waiting + [target[i]];
      }
    }
    assert target[..|target|] == target;
  }

  method BridgeEach(w: World, publish: seq<Pipeline>, variants: seq<Data>) returns (r: Result<seq<Data>, Failure>)
    ensures r == PublishTargets(w, publish, variants)
  {
    var data: seq<Data> := [];
    for i := 0 to |variants|
      invariant PublishTargets(w, publish, variants[..i]) == Ok(data)
    {
      assert variants[..i + 1][..i] == variants[..i];
      var b := BridgeAssets(w, variants[i], publish);
      if b.Err? {
        TargetsFail(w, publish, variants, i + 1);
        return Err(b.error);
      }
      data := data + [b.value.data];
    }
    assert variants[..|variants|] == variants;
    return Ok(data);
  }

  lemma {:induction false} WaitingFails(w: World, target: seq<Pipeline>, variants: seq<Data>, n: nat)
    requires n <= |variants| && WaitingIds(w, target, variants[..n]).Err?
    ensures WaitingIds(w, target, variants) == WaitingIds(w, target, variants[..n])
  {
    if n < |variants| {
      var front := variants[..|variants| - 1];
      assert front[..n] == variants[..n];
      WaitingFails(w, target, front, n);
    } else {
      assert variants[..n] == variants;
    }
  }

  lemma {:induction false} TargetsFail(w: World, publish: seq<Pipeline>, variants: seq<Data>, n: nat)
    requires n <= |variants| && PublishTargets(w, publish, variants[..n]).Err?
    ensures PublishTargets(w, publish, variants) == PublishTargets(w, publish, variants[..n])
  {
    if n < |variants| {
      var front := variants[..|variants| - 1];
      assert front[..n] == variants[..n];
      TargetsFail(w, publish, front, n);
    } else {
      assert variants[..n] == variants;
    }
  }

  /** What pass 1 says about one variant. */
  lemma {:induction false} WaitingAt(w: World, target: seq<Pipeline>, variants: seq<Data>, i: nat)
    requires i < |variants| && WaitingIds(w, target, variants).Ok?
    ensures Bridged(w, variants[i], target).Ok?
    ensures IdsOf(Bridged(w, variants[i], target).value.waiting) <= WaitingIds(w, target, variants).value
  {
    if i < |variants| - 1 {
      WaitingAt(w, target, variants[..|variants| - 1], i);
    }
  }

  lemma {:induction false} TargetsLength(w: World, publish: seq<Pipeline>, variants: seq<Data>)
    requires PublishTargets(w, publish, variants).Ok?
    ensures |PublishTargets(w, publish, variants).value| == |variants|
  {
    if variants != [] {
      TargetsLength(w, publish, variants[..|variants| - 1]);
    }
  }

  /** One unfolding of the targets: those of all variants but the last, and the last one's. */
  lemma LastTarget(w: World, publish: seq<Pipeline>, variants: seq<Data>)
    requires variants != [] && PublishTargets(w, publish, variants).Ok?
    ensures var n, front := |variants| - 1, variants[..|variants| - 1];
            && PublishTargets(w, publish, front).Ok? && |PublishTargets(w, publish, front).value| == n
            && Bridged(w, variants[n], publish).Ok?
            && PublishTargets(w, publish, variants).value ==
               PublishTargets(w, publish, front).value + [Bridged(w, variants[n], publish).value.data]
  {
    TargetsLength(w, publish, variants[..|variants| - 1]);
  }

  lemma {:induction false} TargetsAt(w: World, publish: seq<Pipeline>, variants: seq<Data>, i: nat)
    requires i < |variants| && PublishTargets(w, publish, variants).Ok?
    ensures |PublishTargets(w, publish, variants).value| == |variants|
    ensures Bridged(w, variants[i], publish).Ok?
    ensures PublishTargets(w, publish, variants).value[i] == Bridged(w, variants[i], publish).value.data
  {
    LastTarget(w, publish, variants);
    var front := variants[..|variants| - 1];
    var all, earlier := PublishTargets(w, publish, variants).value, PublishTargets(w, publish, front).value;
    if i < |variants| - 1 {
      TargetsAt(w, publish, front, i);
      assert all[i] == earlier[i] && front[i] == variants[i];
    } else {
      assert all[i] == Bridged(w, variants[i], publish).value.data;
    }
  }

  /** Narrowing the list before or after gathering makes no difference. */
  lemma WithoutCommutesWithGathering(target: seq<Pipeline>, ids: set<string>)
    requires UniqueIds(target) && Gathered(target).Ok?
    ensures Gathered(Without(target, ids)) == Ok(Without(Gathered(target).value, ids))
    ensures UniqueIds(Without(target, ids))
  {
    var keep := (p: Pipeline) => p.id !in ids;
    WithoutIsKeep(target, ids, keep);
    KeepsCommute(HasRefs, keep, target);
    var found := Keep(HasRefs, target);
    KeepUnique(HasRefs, target);
    KeepUnique(keep, target);
    OlderOrders(found);
    KeepCommutesWithSort(Older, keep, found);
    WithoutIsKeep(Sort(Older, found), ids, keep);
  }

  lemma {:induction false} WithoutIsKeep(ps: seq<Pipeline>, ids: set<string>, keep: Pipeline -> bool)
    requires forall p :: keep(p) <==> p.id !in ids
    ensures Without(ps, ids) == Keep(keep, ps)
  {
    if ps != [] {
      WithoutIsKeep(ps[..|ps| - 1], ids, keep);
    }
  }

  lemma KeepAppend(keep: Pipeline -> bool, ps: seq<Pipeline>, p: Pipeline)
    ensures Keep(keep, ps + [p]) == if keep(p) then Keep(keep, ps) + [p] else Keep(keep, ps)
  {
    assert (ps + [p])[..|ps|] == ps;
  }

  lemma {:induction false} KeepsCommute(f: Pipeline -> bool, g: Pipeline -> bool, ps: seq<Pipeline>)
    ensures Keep(f, Keep(g, ps)) == Keep(g, Keep(f, ps))
  {
    if ps != [] {
      var front, p := ps[..|ps| - 1], ps[|ps| - 1];
      KeepsCommute(f, g, front);
      assert ps == front + [p];
      KeepAppend(f, front, p);
      KeepAppend(g, front, p);
      KeepAppend(f, Keep(g, front), p);
      KeepAppend(g, Keep(f, front), p);
    }
  }

  /** The first `i` pipelines laid over the existing data fit both budgets. */
  ghost predicate PrefixFits(w: World, existing: Data, ordered: seq<Pipeline>, i: nat)
    requires i <= |ordered|
  {
    Fits(w, Overlaid(w, existing, ordered[..i]))
  }

  /** Nobody waits exactly when every prefix of the list, laid over the existing data, fits both budgets. */
  lemma {:induction false} NobodyWaitsExactly(w: World, existing: Data, ordered: seq<Pipeline>)
    requires BridgedInOrder(w, existing, ordered).Ok?
    ensures BridgedInOrder(w, existing, ordered).value.waiting == [] <==>
            forall i :: 0 < i <= |ordered| ==> PrefixFits(w, existing, ordered, i)
    ensures BridgedInOrder(w, existing, ordered).value.waiting == [] ==>
            BridgedInOrder(w, existing, ordered).value.data == Overlaid(w, existing, ordered)
  {
    if ordered != [] {
      var n := |ordered| - 1;
      var front := ordered[..n];
      NobodyWaitsExactly(w, existing, front);
      PrefixesFit(w, existing, ordered);
      var b := BridgedInOrder(w, existing, front).value;
      if b.waiting == [] {
        assert Overlaid(w, existing, ordered) == b.data + StagedData(w, ordered[n]);
      }
    }
  }

  lemma PrefixesFit(w: World, existing: Data, ordered: seq<Pipeline>)
    requires ordered != []
    ensures var front := ordered[..|ordered| - 1];
            (forall i :: 0 < i <= |ordered| ==> PrefixFits(w, existing, ordered, i)) <==>
            (forall i :: 0 < i <= |front| ==> PrefixFits(w, existing, front, i)) && Fits(w, Overlaid(w, existing, ordered))
  {
    var n := |ordered| - 1;
    var front := ordered[..n];
    assert PrefixFits(w, existing, ordered, n + 1) <==> Fits(w, Overlaid(w, existing, ordered)) by {
      assert ordered[..n + 1] == ordered;
    }
    forall i | 0 < i <= n ensures PrefixFits(w, existing, front, i) <==> PrefixFits(w, existing, ordered, i) {
      assert front[..i] == ordered[..i];
    }
  }

  /** Bridging only the admitted pipelines again gives the same data and leaves nobody waiting. */
  lemma {:induction false} RerunAdmitsAll(w: World, existing: Data, ordered: seq<Pipeline>, waiting: seq<Pipeline>)
    requires UniqueIds(ordered) && BridgedInOrder(w, existing, ordered).Ok?
    requires forall p :: p in ordered ==> (p in waiting <==> p in BridgedInOrder(w, existing, ordered).value.waiting)
    ensures BridgedInOrder(w, existing, Admitted(ordered, waiting)) ==
            Ok(Bridging(BridgedInOrder(w, existing, ordered).value.data, []))
  {
    if ordered != [] {
      var front, p := ordered[..|ordered| - 1], ordered[|ordered| - 1];
      assert ordered == front + [p];
      LastPipelineIsNew(front, p);
      BridgeIsGreedy(w, existing, front);
      var before := BridgedInOrder(w, existing, front).value;
      var extra := WaitingGrows(w, existing, front, p);
      assert forall q :: q in front ==> q != p;
      RerunAdmitsAll(w, existing, front, waiting);
      AdmittedAppend(front, p, waiting);
      if extra == [] {
        RerunLast(w, existing, Admitted(front, waiting), p, before.data);
      }
    }
  }

  lemma RerunLast(w: World, existing: Data, kept: seq<Pipeline>, p: Pipeline, data: Data)
    requires BridgedInOrder(w, existing, kept) == Ok(Bridging(data, []))
    requires Staged(w, p.Refs(), {}).Ok? && Fits(w, data + StagedData(w, p))
    ensures BridgedInOrder(w, existing, kept + [p]) == Ok(Bridging(data + StagedData(w, p), []))
  {
    assert (kept + [p])[..|kept|] == kept;
  }

  /** Bridging again without those who waited gives the same data and leaves nobody waiting. */
  lemma RerunWithoutWaiting(w: World, target: seq<Pipeline>, existing: Data)
    requires UniqueIds(target) && Bridged(w, existing, target).Ok?
    ensures var b := Bridged(w, existing, target).value;
            Bridged(w, existing, Without(target, IdsOf(b.waiting))) == Ok(Bridging(b.data, []))
  {
    var ordered, waiting := Gathered(target).value, Bridged(w, existing, target).value.waiting;
    GatheredProperties(target);
    WithoutCommutesWithGathering(target, IdsOf(waiting));
    BridgeIsGreedy(w, existing, ordered);
    WaitingById(ordered, waiting);
    AdmittedIsWithout(ordered, waiting, IdsOf(waiting));
    RerunAdmitsAll(w, existing, ordered, waiting);
  }

  lemma WaitingById(ordered: seq<Pipeline>, waiting: seq<Pipeline>)
    requires UniqueIds(ordered) && forall p :: p in waiting ==> p in ordered
    ensures forall p :: p in ordered ==> (p in waiting <==> p.id in IdsOf(waiting))
  {
    forall p | p in ordered && p.id in IdsOf(waiting) ensures p in waiting {
      var q :| q in waiting && q.id == p.id;
      var i :| 0 <= i < |ordered| && ordered[i] == p;
      var j :| 0 <= j < |ordered| && ordered[j] == q;
    }
  }

  lemma OneVariantWaiting(w: World, target: seq<Pipeline>, existing: Data)
    ensures WaitingIds(w, target, [existing]).Ok? <==> Bridged(w, existing, target).Ok?
    ensures Bridged(w, existing, target).Ok? ==>
              WaitingIds(w, target, [existing]) == Ok(IdsOf(Bridged(w, existing, target).value.waiting))
  {
    assert [existing][..0] == [];
    if Bridged(w, existing, target).Ok? {
      var ids := IdsOf(Bridged(w, existing, target).value.waiting);
      assert {} + ids == ids;
    }
  }

  /** With a single variant, pass 2 stages every pipeline it is given: nothing is discarded. */
  lemma OneVariantSound(w: World, target: seq<Pipeline>, existing: Data)
    requires UniqueIds(target) && WaitingIds(w, target, [existing]).Ok?
    ensures Bridged(w, existing, target).Ok?
    ensures Bridged(w, existing, Without(target, WaitingIds(w, target, [existing]).value)) ==
            Ok(Bridging(Bridged(w, existing, target).value.data, []))
  {
    OneVariantWaiting(w, target, existing);
    RerunWithoutWaiting(w, target, existing);
  }

  lemma {:induction false} AdmittedIsWithout(ps: seq<Pipeline>, waiting: seq<Pipeline>, ids: set<string>)
    requires forall p :: p in ps ==> (p in waiting <==> p.id in ids)
    ensures Admitted(ps, waiting) == Without(ps, ids)
  {
    if ps != [] {
      AdmittedIsWithout(ps[..|ps| - 1], waiting, ids);
    }
  }
}
