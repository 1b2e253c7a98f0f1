/** Whole runs from the listed pipelines to the cluster: every round selects, plans, builds and publishes,
    and is safe without any assumption on what it was offered. */
module PlannedRuns {
  import opened Outcomes
  import opened Totals
  import opened SecretRefs
  import opened Staging
  import opened Collisions
  import opened BridgePlan
  import opened BridgeSoundness
  import opened WorkloadPipelines
  import opened Publishing
  import opened RoundPlanning
  import AggregatorPublish
  import AggregatorSafety
  import AgentPublish
  import AgentSafety
  import AgentConvergence

  /** What a round works from: the source Secrets as it reads them, the listed pipelines, and the text of
      the config built from the pipelines it publishes. */
  datatype Wish = Wish(w: World, all: seq<Listed>, text: string)

  /** Time passes, or a round is attempted and cut off after some number of its writes. `persistence` is the
      aggregator's setting at that moment. */
  datatype Event = Tick(seconds: nat) | Reconcile(wish: Wish, persistence: bool, writes: nat)

  /** The pipelines a round publishes and the bridge it was planned with, or nothing if the round fails
      before its first write. */
  ghost function Prepared(c: Cluster, wish: Wish): Option<(seq<Pipeline>, Data)> {
    var target := Resolve(wish.w, wish.all).Pipelines();
    match Planned(wish.w, target, [Held(c, Active)])
    case Err(_) => None
    case Ok(plan) =>
      if Resolved(wish.w, AllRefs(plan.publish)).Err? || plan.data == [] then None else Some((plan.publish, plan.data[0]))
  }

  ghost function AggregatorWrites(c: Cluster, wish: Wish, persistence: bool): seq<Write> {
    match Prepared(c, wish)
    case None => []
    case Some((publish, bridge)) =>
      AggregatorPublish.Program(c, AggregatorRound(wish.w, wish.text, persistence, publish, bridge))
  }

  /** The agent without migration. */
  ghost function AgentWrites(c: Cluster, wish: Wish): seq<Write> {
    match Prepared(c, wish)
    case None => []
    case Some((publish, bridge)) =>
      AgentPublish.Program(c, false, AgentRound(wish.w, wish.text, None, publish, bridge, map[]))
  }

  function CutAt(ws: seq<Write>, n: nat): seq<Write> {
    if n <= |ws| then ws[..n] else ws
  }

  ghost function AggregatorStep(c: Cluster, e: Event): Cluster {
    match e
    case Tick(seconds) => c.(now := c.now + seconds)
    case Reconcile(wish, persistence, n) => Execute(c, CutAt(AggregatorWrites(c, wish, persistence), n))
  }

  ghost function AggregatorRun(c: Cluster, events: seq<Event>): Cluster {
    if events == [] then c else AggregatorStep(AggregatorRun(c, events[..|events| - 1]), events[|events| - 1])
  }

  ghost function AgentStep(c: Cluster, e: Event): Cluster {
    match e
    case Tick(seconds) => c.(now := c.now + seconds)
    case Reconcile(wish, _, n) => Execute(c, CutAt(AgentWrites(c, wish), n))
  }

  ghost function AgentRun(c: Cluster, events: seq<Event>): Cluster {
    if events == [] then c else AgentStep(AgentRun(c, events[..|events| - 1]), events[|events| - 1])
  }

  /** The pipelines of every listing have different identifiers. */
  ghost predicate Listable(events: seq<Event>) {
    forall i :: 0 <= i < |events| && events[i].Reconcile? ==> UniqueIds(PipelinesOf(PoolOf(events[i].wish.all)))
  }

  // The selection has unique identifiers whatever the detectors say.

  lemma SelectionUnique(w: World, all: seq<Listed>)
    requires UniqueIds(PipelinesOf(PoolOf(all)))
    ensures UniqueIds(Resolve(w, all).Pipelines())
  {
    var pool := PoolOf(all);
    match Attribute(w, PipelinesOf(pool))
    case Structural => KeptUnique(IsValid, pool);
    case Decided(collided, oversized) => SelectedUnique(pool, collided + oversized);
  }

  // One step.

  lemma AggregatorWritesAllowed(c: Cluster, wish: Wish, persistence: bool)
    requires Safe(c) && AggregatorSafety.Aggregator(c) && UniqueIds(PipelinesOf(PoolOf(wish.all)))
    ensures AllAllowed(c, AggregatorWrites(c, wish, persistence))
    ensures forall w :: w in AggregatorWrites(c, wish, persistence) && w.PutWorkload? ==> w.kind != DaemonSet
  {
    if Prepared(c, wish).Some? {
      var (publish, bridge) := Prepared(c, wish).value;
      var r := AggregatorRound(wish.w, wish.text, persistence, publish, bridge);
      SelectionUnique(wish.w, wish.all);
      AggregatorRoundOffered(wish.w, c, Resolve(wish.w, wish.all).Pipelines(), wish.text, persistence);
      AggregatorSafety.ProgramAllowed(c, r);
      AggregatorSafety.ProgramKinds(c, r);
    }
  }

  lemma AgentWritesAllowed(c: Cluster, wish: Wish)
    requires Safe(c) && AgentSafety.Agent(c, false) && UniqueIds(PipelinesOf(PoolOf(wish.all)))
    ensures AllAllowed(c, AgentWrites(c, wish))
    ensures forall w :: w in AgentWrites(c, wish) && w.PutWorkload? ==> w.kind == DaemonSet
    ensures forall w :: w in AgentWrites(c, wish) && w.PutConfig? ==> w.variant == Active
  {
    if Prepared(c, wish).Some? {
      var (publish, bridge) := Prepared(c, wish).value;
      var r := AgentRound(wish.w, wish.text, None, publish, bridge, map[]);
      SelectionUnique(wish.w, wish.all);
      OneVariantAgentOffered(wish.w, c, Resolve(wish.w, wish.all).Pipelines(), wish.text);
      AgentSafety.ProgramAllowed(c, false, r);
      var ws := AgentPublish.Program(c, false, r);
      AgentSafety.ProgramShape(c, false, r, |ws|);
      assert ws[..|ws|] == ws;
    }
  }

  lemma CutOffAnywhere(c: Cluster, ws: seq<Write>, n: nat)
    requires Safe(c) && AllAllowed(c, ws)
    ensures Safe(Execute(c, CutAt(ws, n))) && forall w :: w in CutAt(ws, n) ==> w in ws
  {
    var m := if n <= |ws| then n else |ws|;
    assert ws[..|ws|] == ws && CutAt(ws, n) == ws[..m];
    CutOffIsSafe(c, ws, m);
  }

  // Every run.

  /** Safety of every run of the aggregator, from the listed pipelines on: however the source Secrets and the
      pipelines change between rounds, however rounds are cut off and persistence is toggled. */
  lemma {:induction false} EveryAggregatorRunIsSafe(c: Cluster, events: seq<Event>)
    requires Safe(c) && AggregatorSafety.Aggregator(c) && Listable(events)
    ensures Safe(AggregatorRun(c, events)) && AggregatorSafety.Aggregator(AggregatorRun(c, events))
  {
    if events != [] {
      var front, e := events[..|events| - 1], events[|events| - 1];
      assert forall i :: 0 <= i < |front| ==> front[i] == events[i];
      EveryAggregatorRunIsSafe(c, front);
      var before := AggregatorRun(c, front);
      match e
      case Tick(seconds) => WaitingIsSafe(before, seconds);
      case Reconcile(wish, persistence, n) =>
        var ws := AggregatorWrites(before, wish, persistence);
        AggregatorWritesAllowed(before, wish, persistence);
        CutOffAnywhere(before, ws, n);
        AggregatorSafety.ExecuteKeepsKinds(before, CutAt(ws, n));
    }
  }

  /** The same for the agent without migration. */
  lemma {:induction false} EveryAgentRunIsSafe(c: Cluster, events: seq<Event>)
    requires Safe(c) && AgentSafety.Agent(c, false) && Listable(events)
    ensures Safe(AgentRun(c, events)) && AgentSafety.Agent(AgentRun(c, events), false)
  {
    if events != [] {
      var front, e := events[..|events| - 1], events[|events| - 1];
      assert forall i :: 0 <= i < |front| ==> front[i] == events[i];
      EveryAgentRunIsSafe(c, front);
      var before := AgentRun(c, front);
      match e
      case Tick(seconds) => WaitingIsSafe(before, seconds);
      case Reconcile(wish, _, n) =>
        var ws := AgentWrites(before, wish);
        AgentWritesAllowed(before, wish);
        CutOffAnywhere(before, ws, n);
        AgentSafety.ConfigKeepsAgent(before, CutAt(ws, n), false);
    }
  }

  // What planned rounds reach.

  /** The assets hold the exact data of some of the pipelines the workload is to be built from, and nothing
      else: all that a pruned cluster, or a fresh one, holds. */
  ghost predicate HoldsPart(c: Cluster, wish: Wish, held: seq<Pipeline>) {
    && Held(c, Active) == TargetOf(wish.w, held)
    && forall p :: p in held ==> p in Resolve(wish.w, wish.all).Pipelines()
  }

  /** Neither detector fails, and no pipeline it spares collides with itself. */
  ghost predicate Attributable(wish: Wish) {
    var ps := PipelinesOf(PoolOf(wish.all));
    UniqueIds(ps) && DetectorsAgree(wish.w, ps) && AllSelfConsistent(SurvivorsOf(ps))
  }

  lemma NobodyIsHeldBack(c: Cluster, wish: Wish, held: seq<Pipeline>)
    requires Attributable(wish) && HoldsPart(c, wish, held)
    ensures var build := Resolve(wish.w, wish.all).Pipelines();
            Prepared(c, wish) == Some((build, TargetOf(wish.w, build)))
  {
    var w, build, existing := wish.w, Resolve(wish.w, wish.all).Pipelines(), Held(c, Active);
    SelectionFits(w, wish.all);
    OnePruneSuffices(w, wish.all, held);
    OneVariantWaiting(w, build, existing);
    assert IdsOf([]) == {};
    NobodyLeftOut(build);
    SingleVariantHolds(w, build, existing);
    TargetsAt(w, build, [existing], 0);
  }

  lemma {:induction false} NobodyLeftOut(ps: seq<Pipeline>)
    ensures Without(ps, {}) == ps
  {
    if ps != [] {
      NobodyLeftOut(ps[..|ps| - 1]);
      assert ps == ps[..|ps| - 1] + [ps[|ps| - 1]];
    }
  }

  lemma PartKeepsNothingElse(c: Cluster, wish: Wish, held: seq<Pipeline>)
    requires Attributable(wish) && HoldsPart(c, wish, held)
    ensures Held(c, Active).Keys <= TargetOf(wish.w, Resolve(wish.w, wish.all).Pipelines()).Keys
  {
    SelectionFits(wish.w, wish.all);
    NarrowerTarget(wish.w, held, Resolve(wish.w, wish.all).Pipelines());
  }

  /** From a cluster that holds part of what is wanted, one complete planned round publishes all selected
      pipelines with exactly their data, mounted exactly when there is any. */
  lemma OneAggregatorRoundPublishesAll(c: Cluster, wish: Wish, persistence: bool, held: seq<Pipeline>)
    requires AggregatorSafety.Aggregator(c) && Attributable(wish) && HoldsPart(c, wish, held)
    ensures var after, build := Execute(c, AggregatorWrites(c, wish, persistence)), Resolve(wish.w, wish.all).Pipelines();
            && Active in after.configs && after.configs[Active] == Built(wish.text, build)
            && Held(after, Active) == TargetOf(wish.w, build)
            && after.mounts == map[if persistence then StatefulSet else Deployment := TargetOf(wish.w, build) != map[]]
  {
    var build := Resolve(wish.w, wish.all).Pipelines();
    NobodyIsHeldBack(c, wish, held);
    PartKeepsNothingElse(c, wish, held);
    var r := AggregatorRound(wish.w, wish.text, persistence, build, TargetOf(wish.w, build));
    AggregatorSafety.RoundLeavesExactly(c, r);
    AggregatorSafety.CompleteFields(c, r);
  }

  /** The same for the agent without migration. */
  lemma OneAgentRoundPublishesAll(c: Cluster, wish: Wish, held: seq<Pipeline>)
    requires AgentSafety.Agent(c, false) && Attributable(wish) && HoldsPart(c, wish, held)
    ensures var after, build := Execute(c, AgentWrites(c, wish)), Resolve(wish.w, wish.all).Pipelines();
            && Active in after.configs && after.configs[Active] == Built(wish.text, build)
            && Held(after, Active) == TargetOf(wish.w, build)
            && after.mounts == map[DaemonSet := TargetOf(wish.w, build) != map[]]
            && Standby !in after.assets
  {
    var build := Resolve(wish.w, wish.all).Pipelines();
    NobodyIsHeldBack(c, wish, held);
    PartKeepsNothingElse(c, wish, held);
    var r := AgentRound(wish.w, wish.text, None, build, TargetOf(wish.w, build), map[]);
    AgentConvergence.CompleteFields(c, false, r);
    assert !WouldDropAKey(Held(c, Active), r.target);
  }
}
