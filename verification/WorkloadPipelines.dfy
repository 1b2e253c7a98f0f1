/** Which pipelines a workload is built from: attribution of both shared limits over the listed
    pipelines, and the reconsideration of those excluded earlier. */
module WorkloadPipelines {
  import opened Outcomes
  import opened Ordering
  import opened Totals
  import opened SecretRefs
  import opened Collisions
  import opened Staging
  import opened SizeBudget
  import opened Bridge
  import opened BridgePlan
  import opened BridgeSoundness

  /** Why a pipeline's status says it is invalid. */
  datatype Reason = ByCollision | BySize | ByObjectSize | Waiting | Otherwise

  /** A listed pipeline with its stored status; `edited` means its spec changed since it was marked. */
  datatype Listed = Listed(p: Pipeline, valid: bool, reason: Option<Reason>, edited: bool)

  /** The failures that heal once another pipeline or the assets Secret changes. */
  predicate Attribution(r: Reason) {
    r != Otherwise
  }

  predicate RetryCandidate(l: Listed) {
    !l.valid && l.reason.Some? && Attribution(l.reason.value)
  }

  predicate InPool(l: Listed) {
    l.valid || RetryCandidate(l)
  }

  /** The pipelines to build from, and those of them whose status has to be restored after publishing. */
  datatype Selection = Selection(build: seq<Listed>, reinstate: seq<Listed>) {

    /** The list the config is built from. */
    function Pipelines(): seq<Pipeline> {
      PipelinesOf(build)
    }
  }

  function PoolOf(all: seq<Listed>): seq<Listed> {
    Keep(InPool, all)
  }

  function PipelinesOf(ls: seq<Listed>): (ps: seq<Pipeline>)
    ensures |ps| == |ls| && forall i :: 0 <= i < |ls| ==> ps[i] == ls[i].p
  {
    seq(|ls|, i requires 0 <= i < |ls| => ls[i].p)
  }

  function CollisionIds(cs: seq<Collision>): set<string> {
    set c | c in cs :: c.victim.id
  }

  function ExclusionIds(es: seq<Exclusion>): set<string> {
    set e | e in es :: e.victim.id
  }

  /** The pool without the victims of either limit and without candidates edited since they failed. */
  function Selected(pool: seq<Listed>, victims: set<string>): Selection {
    if pool == [] then Selection([], [])
    else
      var r, l := Selected(pool[..|pool| - 1], victims), pool[|pool| - 1];
      if l.p.id in victims || (RetryCandidate(l) && l.edited) then r
      else Selection(r.build + [l], if RetryCandidate(l) then r.reinstate + [l] else r.reinstate)
  }

  predicate IsValid(l: Listed) {
    l.valid
  }

  /** Pipelines that were valid when listed. */
  function ValidOnly(pool: seq<Listed>): seq<Listed> {
    Keep(IsValid, pool)
  }

  /** The outcome of both detectors, or nothing when the scan itself failed. */
  datatype Outcome = Structural | Decided(collided: set<string>, oversized: set<string>)

  ghost function Attribute(w: World, pool: seq<Pipeline>): Outcome {
    match Detected(pool)
    case Err(_) => Structural
    case Ok(cs) =>
      match Overflows(w, Without(pool, CollisionIds(cs)))
      case Ok(es) => Decided(CollisionIds(cs), ExclusionIds(es))
      case Err(e) => if e.Local() then Decided(CollisionIds(cs), {}) else Structural
  }

  ghost function Resolve(w: World, all: seq<Listed>): Selection {
    var pool := PoolOf(all);
    match Attribute(w, PipelinesOf(pool))
    case Structural => Selection(ValidOnly(pool), [])
    case Decided(collided, oversized) => Selected(pool, collided + oversized)
  }

  method ResolveWorkloadPipelines(w: World, all: seq<Listed>) returns (r: Selection)
    ensures r == Resolve(w, all)
  {
    var pool := Keep(InPool, all);
    var ps := PipelinesOf(pool);
    var collisions := DetectSecretCollisions(ps);
    if collisions.Err? {
      return Selection(ValidOnly(pool), []);
    }
    var collided := CollisionIds(collisions.value);
    var exclusions := DetectSecretSizeOverflow(w, Without(ps, collided));
    var oversized: set<string> := {};
    if exclusions.Err? {
      if !exclusions.error.Local() {
        return Selection(ValidOnly(pool), []);
      }
    } else {
      oversized := ExclusionIds(exclusions.value);
    }
    r := Select(pool, collided, oversized);
  }

  method Select(pool: seq<Listed>, collided: set<string>, oversized: set<string>) returns (r: Selection)
    ensures r == Selected(pool, collided + oversized)
  {
    r := Selection([], []);
    for i := 0 to |pool|
      invariant r == Selected(pool[..i], collided + oversized)
    {
      assert pool[..i + 1][..i] == pool[..i];
      var l := pool[i];
      if l.p.id in collided || l.p.id in oversized {
        continue;
      }
      if RetryCandidate(l) {
        if l.edited {
          continue;
        }
        r := r.(reinstate := r.reinstate + [l]);
      }
      r := r.(build := r.build + [l]);
    }
    assert pool[..|pool|] == pool;
  }

  /** The listed pipelines that are also in `published`, by identifier. */
  function Intersected(ls: seq<Listed>, published: seq<Pipeline>): (r: seq<Listed>)
    ensures forall l :: l in r <==> l in ls && l.p.id in IdsOf(published)
  {
    if ls == [] then []
    else
      assert ls == ls[..|ls| - 1] + [ls[|ls| - 1]];
      Intersected(ls[..|ls| - 1], published) + if ls[|ls| - 1].p.id in IdsOf(published) then [ls[|ls| - 1]] else []
  }

  method IntersectPipelinesByKey(ls: seq<Listed>, published: seq<Pipeline>) returns (r: seq<Listed>)
    ensures r == Intersected(ls, published)
  {
    r := [];
    var keys: set<string> := {};
    for i := 0 to |published|
      invariant keys == IdsOf(published[..i])
    {
      assert published[..i + 1] == published[..i] + [published[i]];
      keys := keys + {published[i].id};
    }
    assert published[..|published|] == published;
    for i := 0 to |ls|
      invariant r == Intersected(ls[..i], published)
    {
      assert ls[..i + 1][..i] == ls[..i];
      if ls[i].p.id in keys {
        r := r + [ls[i]];
      }
    }
    assert ls[..|ls|] == ls;
  }

  predicate Keeps(l: Listed, victims: set<string>) {
    l.p.id !in victims && !(RetryCandidate(l) && l.edited)
  }

  /** A pipeline is selected exactly when it is neither a victim nor an edited retry candidate; it has
      its status restored exactly when it was a retry candidate. */
  lemma {:induction false} SelectedExactly(pool: seq<Listed>, victims: set<string>, l: Listed)
    ensures l in Selected(pool, victims).build <==> l in pool && Keeps(l, victims)
    ensures l in Selected(pool, victims).reinstate <==> l in Selected(pool, victims).build && RetryCandidate(l)
  {
    if pool != [] {
      var front, last := pool[..|pool| - 1], pool[|pool| - 1];
      assert pool == front + [last];
      SelectedExactly(front, victims, l);
    }
  }

  lemma {:induction false} SelectedUnique(pool: seq<Listed>, victims: set<string>)
    requires UniqueIds(PipelinesOf(pool))
    ensures UniqueIds(Selected(pool, victims).Pipelines())
  {
    if pool != [] {
      var front, last := pool[..|pool| - 1], pool[|pool| - 1];
      assert PipelinesOf(front) == PipelinesOf(pool)[..|front|];
      SelectedUnique(front, victims);
      var before := Selected(front, victims);
      forall i | 0 <= i < |before.build| ensures before.build[i].p.id != last.p.id {
        SelectedExactly(front, victims, before.build[i]);
        var j :| 0 <= j < |front| && front[j] == before.build[i];
        assert PipelinesOf(pool)[j].id != PipelinesOf(pool)[|front|].id;
      }
    }
  }

  lemma KeptUnique(keep: Listed -> bool, ls: seq<Listed>)
    requires UniqueIds(PipelinesOf(ls))
    ensures UniqueIds(PipelinesOf(Keep(keep, ls)))
  {
    var key := (l: Listed) => l.p.id;
    forall i, j | 0 <= i < j < |ls| ensures key(ls[i]) != key(ls[j]) {
      assert PipelinesOf(ls)[i].id != PipelinesOf(ls)[j].id;
    }
    KeepApart(key, keep, ls);
  }

  ghost predicate DetectorsAgree(w: World, ps: seq<Pipeline>) {
    Detected(ps).Ok? && Overflows(w, Without(ps, CollisionIds(Detected(ps).value))).Ok?
  }

  /** What a build of the list resolves to: the exact assets. */
  function TargetOf(w: World, ps: seq<Pipeline>): Data {
    match Resolved(w, AllRefs(ps))
    case Ok(res) => res.data
    case Err(_) => map[]
  }

  lemma InPipelinesOf(ls: seq<Listed>, p: Pipeline) returns (l: Listed)
    requires p in PipelinesOf(ls)
    ensures l in ls && l.p == p
  {
    var i :| 0 <= i < |PipelinesOf(ls)| && PipelinesOf(ls)[i] == p;
    l := ls[i];
  }

  /** Every selected pipeline was in the pool and is a victim of neither limit. */
  lemma SelectedSurvive(pool: seq<Listed>, collided: set<string>, oversized: set<string>, p: Pipeline)
    requires p in Selected(pool, collided + oversized).Pipelines()
    ensures p in PipelinesOf(pool) && p.id !in collided && p.id !in oversized
  {
    var l := InPipelinesOf(Selected(pool, collided + oversized).build, p);
    SelectedExactly(pool, collided + oversized, l);
    var j :| 0 <= j < |pool| && pool[j] == l;
    assert PipelinesOf(pool)[j] == p;
  }

  /** What is left of the list after collision attribution. */
  function SurvivorsOf(ps: seq<Pipeline>): seq<Pipeline>
    requires Detected(ps).Ok?
  {
    Without(ps, CollisionIds(Detected(ps).value))
  }

  lemma SurvivorsDoNotCollide(ps: seq<Pipeline>)
    requires UniqueIds(ps) && Detected(ps).Ok? && Gathered(SurvivorsOf(ps)).Ok?
    ensures CollisionFree(SurvivorsOf(ps)) <==> AllSelfConsistent(SurvivorsOf(ps))
  {
    if |ps| < 2 {
      FewSurvive(ps);
    }
    ReportedIds(ps);
    SurvivorsCollisionFreeExactly(ps, SurvivorsOf(ps));
  }

  lemma FewSurvive(ps: seq<Pipeline>)
    requires |ps| < 2
    ensures Detected(ps).Ok? && SurvivorsOf(ps) == ps
  {
    assert CollisionIds([]) == {};
    if |ps| == 1 {
      assert ps[..0] == [] && Without(ps[..0], {}) == [];
      assert ps == [ps[0]];
    }
  }

  /** A pipeline is reported exactly when its identifier is. */
  lemma ReportedIds(ps: seq<Pipeline>)
    requires UniqueIds(ps) && Detected(ps).Ok? && Gathered(ps).Ok?
    ensures Spared(ps, SurvivorsOf(ps))
  {
    var cs := Detected(ps).value;
    forall p | p in ps ensures p.id in CollisionIds(cs) <==> Reported(cs, p) {
      if p.id in CollisionIds(cs) {
        var c :| c in cs && c.victim.id == p.id;
        VictimsListed(ps, c);
        SameId(ps, p, c.victim);
      }
    }
  }

  lemma VictimsListed(ps: seq<Pipeline>, c: Collision)
    requires UniqueIds(ps) && Detected(ps).Ok? && Gathered(ps).Ok? && c in Detected(ps).value
    ensures c.victim in ps
  {
    GatheredProperties(ps);
    AcceptedFromOrdered(Gathered(ps).value);
    assert c in Attributed(Gathered(ps).value).victims;
  }

  /** The taken pipelines of a collision-free packing can all be read. */
  lemma TakenResolve(w: World, ordered: seq<Pipeline>)
    requires Packed(w, ordered).Ok? && CollisionFree(ordered)
    requires forall p :: p in Packed(w, ordered).value.taken ==> p in ordered
    ensures CollisionFree(Packed(w, ordered).value.taken)
    ensures Resolved(w, AllRefs(Packed(w, ordered).value.taken)).Ok?
  {
    var taken, data := Packed(w, ordered).value.taken, Packed(w, ordered).value.data;
    var refs := AllRefs(taken);
    CollisionFreeMeansAgree(taken);
    forall r | r in refs ensures ValueOf(w, r.origin).Ok? {
      var p :| p in taken && r in p.Refs();
      TakenKeysPacked(w, ordered, p);
      assert r.flat in p.Flats();
      PackedReads(w, ordered, r.flat);
      var s :| s in refs && s.flat == r.flat && ValueOf(w, s.origin) == Ok(data[r.flat]);
    }
    ResolvedExactly(w, refs);
  }

  /** Narrower lists resolve to part of what wider ones do. */
  lemma NarrowerTarget(w: World, fewer: seq<Pipeline>, more: seq<Pipeline>)
    requires forall p :: p in fewer && HasRefs(p) ==> p in more
    requires Resolved(w, AllRefs(more)).Ok?
    ensures Resolved(w, AllRefs(fewer)).Ok? && Submap(TargetOf(w, fewer), TargetOf(w, more))
  {
    var some, all := AllRefs(fewer), AllRefs(more);
    forall r | r in some ensures r in all {
      var p :| p in fewer && r in p.Refs();
      assert HasRefs(p);
    }
    ResolvedExactly(w, all);
    ResolvedExactly(w, some);
    ResolvedSound(w, all);
    ResolvedSound(w, some);
    forall k | k in TargetOf(w, fewer) ensures k in TargetOf(w, more) && TargetOf(w, more)[k] == TargetOf(w, fewer)[k] {
      var r :| r in some && r.flat == k;
    }
  }

  lemma SubmapFits(w: World, small: Data, large: Data)
    requires Submap(small, large) && Fits(w, large)
    ensures Fits(w, small)
  {
    TotalMonotone(small, large, ByteLength);
    TotalMonotone(small, large, w.entry);
  }

  /** Staging parts of a target that fits never makes anyone wait. */
  lemma {:induction false} PartsOfTargetFit(w: World, existing: Data, ordered: seq<Pipeline>, target: Data)
    requires Submap(existing, target) && Fits(w, target)
    requires forall p :: p in ordered ==> Staged(w, p.Refs(), {}).Ok? && Submap(StagedData(w, p), target)
    ensures BridgedInOrder(w, existing, ordered).Ok? && BridgedInOrder(w, existing, ordered).value.waiting == []
    ensures Submap(BridgedInOrder(w, existing, ordered).value.data, target)
  {
    if ordered != [] {
      var front, p := ordered[..|ordered| - 1], ordered[|ordered| - 1];
      assert ordered == front + [p];
      PartsOfTargetFit(w, existing, front, target);
      assert Submap(StagedData(w, p), target);
      SubmapFits(w, BridgedInOrder(w, existing, front).value.data + StagedData(w, p), target);
    }
  }

  /** The list takes only survivors of both detectors. */
  ghost predicate DrawnFromSurvivors(w: World, ps: seq<Pipeline>, build: seq<Pipeline>)
    requires DetectorsAgree(w, ps)
  {
    var survivors := Without(ps, CollisionIds(Detected(ps).value));
    forall p :: p in build ==> p in survivors && p.id !in ExclusionIds(Overflows(w, survivors).value)
  }

  /** The list never collides, its exact assets can be read, and they fit both budgets as far as any
      Secret can: only metadata that alone exceeds the object budget gets in the way. */
  ghost predicate FitsTogether(w: World, build: seq<Pipeline>) {
    && CollisionFree(build) && (forall p :: p in build ==> Readable(p)) && Resolved(w, AllRefs(build)).Ok?
    && FitsValues(TargetOf(w, build))
    && (FitsObject(w, TargetOf(w, build)) <==> w.base <= SECRET_ASSETS_OBJECT_BUDGET)
    && (w.base > SECRET_ASSETS_OBJECT_BUDGET ==> forall p :: p in build ==> !HasRefs(p))
  }

  lemma SurvivorsFit(w: World, ps: seq<Pipeline>, build: seq<Pipeline>)
    requires UniqueIds(ps) && DetectorsAgree(w, ps) && AllSelfConsistent(SurvivorsOf(ps)) && DrawnFromSurvivors(w, ps, build)
    ensures FitsTogether(w, build)
  {
    var survivors := SurvivorsOf(ps);
    WithoutUnique(ps, CollisionIds(Detected(ps).value));
    GatheredProperties(survivors);
    var ordered := Gathered(survivors).value;
    var pk := Packed(w, ordered).value;
    SurvivorsDoNotCollide(ps);
    PackedDivides(w, ordered);
    forall p | p in build ensures p in survivors && (HasRefs(p) ==> p in pk.taken) {
      if HasRefs(p) {
        assert p in ordered;
        SelectedNotExcluded(pk.excluded, p);
      }
    }
    PartOfPackingFits(w, ordered, build);
  }

  lemma PartOfPackingFits(w: World, ordered: seq<Pipeline>, build: seq<Pipeline>)
    requires Packed(w, ordered).Ok? && CollisionFree(ordered)
    requires forall p :: p in Packed(w, ordered).value.taken ==> p in ordered
    requires forall p :: p in build && HasRefs(p) ==> p in Packed(w, ordered).value.taken
    ensures Resolved(w, AllRefs(build)).Ok? && FitsValues(TargetOf(w, build))
    ensures FitsObject(w, TargetOf(w, build)) <==> w.base <= SECRET_ASSETS_OBJECT_BUDGET
    ensures w.base > SECRET_ASSETS_OBJECT_BUDGET ==> forall p :: p in build ==> !HasRefs(p)
  {
    var pk := Packed(w, ordered).value;
    TakenResolve(w, ordered);
    NarrowerTarget(w, build, pk.taken);
    PackedIsTarget(w, ordered);
    PackedFits(w, ordered);
    TotalMonotone(TargetOf(w, build), pk.data, ByteLength);
    TotalMonotone(TargetOf(w, build), pk.data, w.entry);
  }

  /** When neither detector fails, the selected list fits together. */
  lemma SelectionFits(w: World, all: seq<Listed>)
    requires UniqueIds(PipelinesOf(PoolOf(all))) && DetectorsAgree(w, PipelinesOf(PoolOf(all)))
    requires AllSelfConsistent(SurvivorsOf(PipelinesOf(PoolOf(all))))
    ensures FitsTogether(w, Resolve(w, all).Pipelines()) && UniqueIds(Resolve(w, all).Pipelines())
  {
    var pool := PoolOf(all);
    var ps := PipelinesOf(pool);
    var collided := CollisionIds(Detected(ps).value);
    var oversized := ExclusionIds(Overflows(w, Without(ps, collided)).value);
    var build := Selected(pool, collided + oversized).Pipelines();
    forall p | p in build ensures p in SurvivorsOf(ps) && p.id !in oversized {
      SelectedSurvive(pool, collided, oversized, p);
    }
    SelectedUnique(pool, collided + oversized);
    SurvivorsFit(w, ps, build);
  }

  lemma SelectedNotExcluded(es: seq<Exclusion>, p: Pipeline)
    requires p.id !in ExclusionIds(Sort(ExclusionLess, es))
    ensures !Excluded(es, p)
  {
    forall e | e in es ensures e.victim != p {
      assert e in Sort(ExclusionLess, es) && e.victim.id in ExclusionIds(Sort(ExclusionLess, es));
    }
  }

  /** Bridging a list that fits together from part of its own exact assets makes nobody wait. */
  lemma BridgeFromPart(w: World, existing: Data, build: seq<Pipeline>)
    requires FitsTogether(w, build) && UniqueIds(build) && Submap(existing, TargetOf(w, build))
    ensures Bridged(w, existing, build) == Ok(Bridging(TargetOf(w, build), []))
  {
    var target := TargetOf(w, build);
    GatheredProperties(build);
    var ordered := Gathered(build).value;
    if w.base > SECRET_ASSETS_OBJECT_BUDGET {
      NoRefsNoTarget(w, build);
      NoElements(ordered);
    } else {
      forall p | p in ordered ensures Staged(w, p.Refs(), {}).Ok? && Submap(StagedData(w, p), target) {
        StagedIsPartOfTarget(w, build, p);
      }
      PartsOfTargetFit(w, existing, ordered, target);
      NobodyWaitsExactly(w, existing, ordered);
      OverlaidHolds(w, existing, ordered);
      TargetKeys(w, build, ordered, BridgedInOrder(w, existing, ordered).value.data);
    }
  }

  lemma TargetKeyIsHeld(w: World, build: seq<Pipeline>, k: string) returns (p: Pipeline)
    requires Resolved(w, AllRefs(build)).Ok? && k in TargetOf(w, build)
    ensures p in build && HasRefs(p) && k in p.Flats()
  {
    ResolvedSound(w, AllRefs(build));
    var r :| r in AllRefs(build) && r.flat == k;
    p :| p in build && r in p.Refs();
  }

  /** Part of the target that holds all keys of its pipelines is the whole target. */
  lemma TargetKeys(w: World, build: seq<Pipeline>, ordered: seq<Pipeline>, data: Data)
    requires Resolved(w, AllRefs(build)).Ok? && Submap(data, TargetOf(w, build))
    requires forall p :: p in build && HasRefs(p) ==> p in ordered
    requires forall p :: p in ordered ==> p.Flats() <= data.Keys
    ensures data == TargetOf(w, build)
  {
    var target := TargetOf(w, build);
    forall k | k in target ensures k in data {
      var p := TargetKeyIsHeld(w, build, k);
      assert p in ordered;
    }
    assert data.Keys == target.Keys;
  }

  /** One prune suffices: bridging the selected pipelines from nothing, or from the exact assets of any
      of them, leaves nobody waiting and yields exactly their assets. */
  lemma OnePruneSuffices(w: World, all: seq<Listed>, held: seq<Pipeline>)
    requires UniqueIds(PipelinesOf(PoolOf(all))) && DetectorsAgree(w, PipelinesOf(PoolOf(all)))
    requires AllSelfConsistent(SurvivorsOf(PipelinesOf(PoolOf(all))))
    requires forall p :: p in held ==> p in Resolve(w, all).Pipelines()
    ensures var build := Resolve(w, all).Pipelines();
            Bridged(w, TargetOf(w, held), build) == Ok(Bridging(TargetOf(w, build), []))
  {
    var build := Resolve(w, all).Pipelines();
    SelectionFits(w, all);
    NarrowerTarget(w, held, build);
    BridgeFromPart(w, TargetOf(w, held), build);
  }

  lemma NoRefsNoTarget(w: World, build: seq<Pipeline>)
    requires forall p :: p in build ==> !HasRefs(p)
    ensures AllRefs(build) == []
  {
    NoElements(AllRefs(build));
  }

  /** A status is restored only for a pipeline that is really published: the retry candidates among the
      published pipelines, and all of them. */
  lemma ReinstatedArePublished(w: World, all: seq<Listed>, publish: seq<Pipeline>, l: Listed)
    requires UniqueIds(PipelinesOf(PoolOf(all))) && Attribute(w, PipelinesOf(PoolOf(all))).Decided?
    requires forall p :: p in publish ==> p in Resolve(w, all).Pipelines()
    ensures l in Intersected(Resolve(w, all).reinstate, publish) <==>
            l in Resolve(w, all).build && RetryCandidate(l) && l.p in publish
  {
    var pool, outcome := PoolOf(all), Attribute(w, PipelinesOf(PoolOf(all)));
    var victims := outcome.collided + outcome.oversized;
    SelectedExactly(pool, victims, l);
    if l in Resolve(w, all).build && l.p.id in IdsOf(publish) {
      var p :| p in publish && p.id == l.p.id;
      var k :| k in Resolve(w, all).build && k.p == p;
      SelectedExactly(pool, victims, k);
      SameIdSamePipeline(pool, k, l);
    }
  }

  lemma SameIdSamePipeline(pool: seq<Listed>, k: Listed, l: Listed)
    requires UniqueIds(PipelinesOf(pool)) && k in pool && l in pool && k.p.id == l.p.id
    ensures k == l
  {
    var i :| 0 <= i < |pool| && pool[i] == k;
    var j :| 0 <= j < |pool| && pool[j] == l;
    var ps := PipelinesOf(pool);
    assert ps[i].id == ps[j].id;
  }
}
