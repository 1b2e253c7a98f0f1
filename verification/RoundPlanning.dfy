/** Ties the allocator to the protocol: what one round plans from the listed pipelines is what the
    publish protocol needs to be offered. */
module RoundPlanning {
  import opened Outcomes
  import opened Totals
  import opened SecretRefs
  import opened Staging
  import opened Bridge
  import opened BridgePlan
  import opened BridgeSoundness
  import opened WorkloadPipelines
  import opened Publishing
  import AggregatorPublish
  import AggregatorSafety
  import AgentPublish
  import AgentSafety
  import opened ShrinkExample

  /** The config built from a list of pipelines references exactly their flat keys. */
  function Built(text: string, ps: seq<Pipeline>): (c: Config)
    ensures forall k :: k in c.refs <==> exists r :: r in AllRefs(ps) && r.flat == k
  {
    Config(text, set r | r in AllRefs(ps) :: r.flat)
  }

  lemma RefsOfBuilt(text: string, ps: seq<Pipeline>, data: Data)
    requires forall p :: p in ps ==> p.Flats() <= data.Keys
    ensures Built(text, ps).refs <= data.Keys
  {
    forall k | k in Built(text, ps).refs ensures k in data {
      var r :| r in AllRefs(ps) && r.flat == k;
      var p :| p in ps && r in p.Refs();
      assert k in p.Flats();
    }
  }

  /** The exact target of a resolved build holds exactly its references. */
  lemma TargetHoldsRefs(w: World, text: string, ps: seq<Pipeline>)
    requires Resolved(w, AllRefs(ps)).Ok?
    ensures TargetOf(w, ps).Keys == Built(text, ps).refs
  {
    ResolvedSound(w, AllRefs(ps));
  }

  /** When the plan skipped bridging because a pipeline's data cannot be read, the build fails too, so
      nothing is published from unbridged data. */
  lemma SkippedBridgeNeverPublishes(w: World, target: seq<Pipeline>, variants: seq<Data>)
    requires variants != [] && WaitingIds(w, target, variants).Err? && WaitingIds(w, target, variants).error.Local()
    ensures Resolved(w, AllRefs(target)).Err?
  {
    if Resolved(w, AllRefs(target)).Ok? {
      EveryPassSucceeds(w, target, variants);
    }
  }

  lemma {:induction false} EveryPassSucceeds(w: World, target: seq<Pipeline>, variants: seq<Data>)
    requires Resolved(w, AllRefs(target)).Ok?
    ensures WaitingIds(w, target, variants).Err? ==> WaitingIds(w, target, variants).error == MalformedSpec
  {
    if variants != [] {
      EveryPassSucceeds(w, target, variants[..|variants| - 1]);
      if Gathered(target).Ok? {
        var ordered := Gathered(target).value;
        forall p | p in ordered ensures Staged(w, p.Refs(), {}).Ok? {
          StagedIsPartOfTarget(w, target, p);
        }
        BridgeFailsExactly(w, variants[|variants| - 1], ordered);
      }
    }
  }

  // A round reads every source Secret at most once, so plan and build see one world. The lemmas with two
  // worlds, `w` for the plan and `v` for the build, say what that is good for.

  lemma PlanShape(w: World, target: seq<Pipeline>, variants: seq<Data>)
    requires UniqueIds(target) && variants != [] && Planned(w, target, variants).Ok?
    ensures |Planned(w, target, variants).value.data| == |variants|
    ensures WaitingIds(w, target, variants).Err? ==>
              Planned(w, target, variants).value.data == variants && Planned(w, target, variants).value.publish == target
  {
    if WaitingIds(w, target, variants).Ok? {
      PassTwoSucceeds(w, target, variants);
      TargetsLength(w, Planned(w, target, variants).value.publish, variants);
    }
  }

  /** The round an aggregator attempts after planning with `w` and building with `v`. */
  function AggregatorRound(v: World, text: string, persistence: bool, publish: seq<Pipeline>, bridge: Data): AggregatorPublish.Round {
    AggregatorPublish.Round(persistence, Built(text, publish), TargetOf(v, publish), bridge)
  }

  /** What a round is offered: with one variant, what its protocol needs, exactly when the plan could read
      every pipeline's data, or the config references nothing the assets do not already hold. */
  lemma AggregatorOfferedExactly(w: World, v: World, c: Cluster, target: seq<Pipeline>, text: string, persistence: bool)
    requires UniqueIds(target) && Planned(w, target, [Held(c, Active)]).Ok?
    requires Resolved(v, AllRefs(Planned(w, target, [Held(c, Active)]).value.publish)).Ok?
    ensures var plan := Planned(w, target, [Held(c, Active)]).value;
            && |plan.data| == 1
            && (AggregatorSafety.Offered(c, AggregatorRound(v, text, persistence, plan.publish, plan.data[0])) <==>
                WaitingIds(w, target, [Held(c, Active)]).Ok? || Built(text, plan.publish).refs <= Held(c, Active).Keys)
  {
    var existing := Held(c, Active);
    var plan := Planned(w, target, [existing]).value;
    PlanShape(w, target, [existing]);
    TargetHoldsRefs(v, text, plan.publish);
    if WaitingIds(w, target, [existing]).Ok? {
      SingleVariantHolds(w, target, existing);
      RefsOfBuilt(text, plan.publish, plan.data[0]);
    }
  }

  /** As plan and build see one world, every round the aggregator publishes was offered what its protocol needs. */
  lemma AggregatorRoundOffered(w: World, c: Cluster, target: seq<Pipeline>, text: string, persistence: bool)
    requires UniqueIds(target) && Planned(w, target, [Held(c, Active)]).Ok?
    requires Resolved(w, AllRefs(Planned(w, target, [Held(c, Active)]).value.publish)).Ok?
    ensures var plan := Planned(w, target, [Held(c, Active)]).value;
            && |plan.data| == 1
            && AggregatorSafety.Offered(c, AggregatorRound(w, text, persistence, plan.publish, plan.data[0]))
  {
    AggregatorOfferedExactly(w, w, c, target, text, persistence);
    if WaitingIds(w, target, [Held(c, Active)]).Err? {
      SkippedBridgeNeverPublishes(w, target, [Held(c, Active)]);
    }
  }

  function AgentRound(v: World, text: string, standby: Option<string>, publish: seq<Pipeline>, bridge: Data, standbyBridge: Data): AgentPublish.Round {
    AgentPublish.Round(Built(text, publish), if standby.Some? then Some(Built(standby.value, publish)) else None,
                       TargetOf(v, publish), bridge, standbyBridge)
  }

  /** The same for an agent without migration, which has one variant. */
  lemma AgentOfferedExactly(w: World, v: World, c: Cluster, target: seq<Pipeline>, text: string)
    requires UniqueIds(target) && Planned(w, target, [Held(c, Active)]).Ok?
    requires Resolved(v, AllRefs(Planned(w, target, [Held(c, Active)]).value.publish)).Ok?
    ensures var plan := Planned(w, target, [Held(c, Active)]).value;
            && |plan.data| == 1
            && (AgentSafety.Offered(c, false, AgentRound(v, text, None, plan.publish, plan.data[0], map[])) <==>
                WaitingIds(w, target, [Held(c, Active)]).Ok? || Built(text, plan.publish).refs <= Held(c, Active).Keys)
  {
    AggregatorOfferedExactly(w, v, c, target, text, false);
  }

  lemma OneVariantAgentOffered(w: World, c: Cluster, target: seq<Pipeline>, text: string)
    requires UniqueIds(target) && Planned(w, target, [Held(c, Active)]).Ok?
    requires Resolved(w, AllRefs(Planned(w, target, [Held(c, Active)]).value.publish)).Ok?
    ensures var plan := Planned(w, target, [Held(c, Active)]).value;
            && |plan.data| == 1
            && AgentSafety.Offered(c, false, AgentRound(w, text, None, plan.publish, plan.data[0], map[]))
  {
    AggregatorRoundOffered(w, c, target, text, false);
  }

  /** The agent with two variants is offered what it needs whenever the plan could read every pipeline's
      data and no pipeline of the collision-free target shrinks an entry that a variant already holds. */
  lemma AgentRoundOffered(w: World, v: World, c: Cluster, target: seq<Pipeline>, text: string, standby: Option<string>)
    requires UniqueIds(target) && CollisionFree(target)
    requires NoShrink(w, Held(c, Active), target) && NoShrink(w, Held(c, Standby), target)
    requires Planned(w, target, [Held(c, Active), Held(c, Standby)]).Ok?
    requires Resolved(v, AllRefs(Planned(w, target, [Held(c, Active), Held(c, Standby)]).value.publish)).Ok?
    requires v == w || WaitingIds(w, target, [Held(c, Active), Held(c, Standby)]).Ok?
    ensures var plan := Planned(w, target, [Held(c, Active), Held(c, Standby)]).value;
            && |plan.data| == 2
            && AgentSafety.Offered(c, true, AgentRound(v, text, standby, plan.publish, plan.data[0], plan.data[1]))
  {
    var variants := [Held(c, Active), Held(c, Standby)];
    var plan := Planned(w, target, variants).value;
    if WaitingIds(w, target, variants).Err? {
      PlanShape(w, target, variants);
      SkippedBridgeNeverPublishes(w, target, variants);
    } else {
      NoShrinkHolds(w, target, variants, 0);
      NoShrinkHolds(w, target, variants, 1);
      RefsOfBuilt(text, plan.publish, plan.data[0]);
      RefsOfBuilt(text, plan.publish, plan.data[1]);
      TargetHoldsRefs(v, text, plan.publish);
    }
  }

  // Why a round must not read a Secret twice.

  /** A plan that gave up, a build that succeeded, a new reference, and a held key the target drops: the
      round publishes a config whose reference its assets lack. */
  lemma AppearingSecretBreaks(w: World, v: World, c: Cluster, target: seq<Pipeline>, text: string, persistence: bool,
      missing: string, held: string)
    requires UniqueIds(target) && AggregatorSafety.Aggregator(c)
    requires WaitingIds(w, target, [Held(c, Active)]).Err? && WaitingIds(w, target, [Held(c, Active)]).error.Local()
    requires Resolved(v, AllRefs(target)).Ok?
    requires missing in Built(text, target).refs && missing !in Held(c, Active)
    requires held in Held(c, Active) && held !in Built(text, target).refs
    requires Active in c.configs ==> c.configs[Active] != Built(text, target)
    ensures var plan := Planned(w, target, [Held(c, Active)]);
            && plan.Ok? && plan.value.publish == target && |plan.value.data| == 1
            && !PodsResolve(Execute(c, AggregatorPublish.Program(c, AggregatorRound(v, text, persistence, target, plan.value.data[0]))))
  {
    var r := AggregatorRound(v, text, persistence, target, Held(c, Active));
    TargetHoldsRefs(v, text, target);
    assert AggregatorPublish.Chosen(c, r) == Held(c, Active) by {
      assert held in Held(c, Active).Keys && held !in r.target;
      assert WouldDropAKey(Held(c, Active), r.target);
    }
    AggregatorSafety.CompleteFields(c, r);
    var after := Execute(c, AggregatorPublish.Program(c, r));
    assert after.configs[Active] == r.config && Held(after, Active) == Held(c, Active);
    assert !Covered(after, Active, r.config);
  }

  /** The two-variant failure reaches the cluster: when the variants hold what the shrinking example
      says, the round planned from them, run to completion, publishes an active config whose
      reference its assets do not hold. */
  lemma RotationBreaksAgent(c: Cluster, text: string, standby: string)
    requires Held(c, Active) == First() && Held(c, Standby) == Second()
    requires Active in c.configs ==> c.configs[Active] != Built(text, [Newcomer()])
    ensures var plan := Planned(TheWorld(), [Rotated(), Newcomer()], [First(), Second()]);
            && plan.Ok? && plan.value.publish == [Newcomer()] && |plan.value.data| == 2
            && var r := AgentPublish.Round(
                 Built(text, [Newcomer()]), Some(Built(standby, [Newcomer()])),
                 TargetOf(TheWorld(), [Newcomer()]), plan.value.data[0], plan.value.data[1]);
            !PodsResolve(Execute(c, AgentPublish.Program(c, true, r)))
  {
    RotationBreaksTwoVariants();
    FirstKeepsOldData();
    NewcomerRefs();
    var plan := Planned(TheWorld(), [Rotated(), Newcomer()], [First(), Second()]).value;
    var r := AgentPublish.Round(
      Built(text, [Newcomer()]), Some(Built(standby, [Newcomer()])),
      TargetOf(TheWorld(), [Newcomer()]), plan.data[0], plan.data[1]);
    assert r.bridge == First();
    BreaksAgent(c, r);
  }

  lemma BreaksAgent(c: Cluster, r: AgentPublish.Round)
    requires Held(c, Active) == First() == r.bridge && r.target.Keys <= {"b"} && "b" in r.config.refs
    requires Active in c.configs ==> c.configs[Active] != r.config
    ensures !PodsResolve(Execute(c, AgentPublish.Program(c, true, r)))
  {
    AgentSafety.UncoveredBridgeBreaks(c, true, r, "b", "a");
  }

  /** A cluster before its first round under migration: nothing published, both assets Secrets left over. */
  function BeforeFirstRound(): Cluster {
    Cluster(map[], map[Active := First(), Standby := Second()], map[], None, 0, {})
  }

  /** The failure starts from a safe cluster: one complete round after it, a pod's config does not resolve. */
  lemma RotationBreaksSafeAgent(text: string, standby: string)
    ensures Safe(BeforeFirstRound()) && AgentSafety.Agent(BeforeFirstRound(), true)
    ensures var c := BeforeFirstRound();
            var plan := Planned(TheWorld(), [Rotated(), Newcomer()], [Held(c, Active), Held(c, Standby)]);
            && plan.Ok? && |plan.value.data| == 2
            && !PodsResolve(Execute(c, AgentPublish.Program(c, true, AgentRound(
                 TheWorld(), text, Some(standby), plan.value.publish, plan.value.data[0], plan.value.data[1]))))
  {
    var c := BeforeFirstRound();
    assert Held(c, Active) == First() && Held(c, Standby) == Second();
    RotationBreaksAgent(c, text, standby);
  }

  /** The same Secrets, unreadable. */
  function EmptyWorld(): World {
    TheWorld().(fetch := (ns: string, name: string) => None)
  }

  /** A cluster before the aggregator's first round: its assets Secret is left over. */
  function BeforeFirstAggregator(): Cluster {
    Cluster(map[], map[Active := First()], map[], None, 0, {})
  }

  lemma LeftOverIsSafe()
    ensures Safe(BeforeFirstAggregator()) && AggregatorSafety.Aggregator(BeforeFirstAggregator())
    ensures Held(BeforeFirstAggregator(), Active) == First() && Active !in BeforeFirstAggregator().configs
  {
  }

  /** Were Secrets read again for the build, this failure, too, would start from a safe cluster: the Secret
      of the only pipeline appears between the plan and the build. */
  lemma AppearingSecretBreaksSafeAggregator(text: string)
    ensures Safe(BeforeFirstAggregator()) && AggregatorSafety.Aggregator(BeforeFirstAggregator())
    ensures var c := BeforeFirstAggregator();
            var plan := Planned(EmptyWorld(), [Newcomer()], [Held(c, Active)]);
            && plan.Ok? && |plan.value.data| == 1
            && !PodsResolve(Execute(c, AggregatorPublish.Program(c, AggregatorRound(
                 TheWorld(), text, false, plan.value.publish, plan.value.data[0]))))
  {
    var c, w, v := BeforeFirstAggregator(), EmptyWorld(), TheWorld();
    LeftOverIsSafe();
    NewcomerRefs();
    NewcomerUnreadable(Held(c, Active));
    NewcomerReadable();
    assert "b" in Built(text, [Newcomer()]).refs && "a" !in Built(text, [Newcomer()]).refs;
    AppearingSecretBreaks(w, v, c, [Newcomer()], text, false, "b", "a");
  }

  lemma NewcomerUnreadable(existing: Data)
    ensures WaitingIds(EmptyWorld(), [Newcomer()], [existing]) == Err(MissingSecret(Origin("n", "s", "b")))
  {
    var w, p := EmptyWorld(), Newcomer();
    assert Gathered([p]) == Ok([p]) by {
      GatheredNewcomer();
    }
    assert [p][..0] == [] && p.Refs()[..0] == [] && [existing][..0] == [];
    assert ValueOf(w, Origin("n", "s", "b")) == Err(MissingSecret(Origin("n", "s", "b")));
    assert Staged(w, p.Refs(), {}) == Err(MissingSecret(Origin("n", "s", "b")));
    assert BridgedInOrder(w, existing, [p]) == Err(MissingSecret(Origin("n", "s", "b")));
  }

  lemma GatheredNewcomer()
    ensures Gathered([Newcomer()]) == Ok([Newcomer()])
  {
    assert [Newcomer()][..0] == [];
  }

  lemma NewcomerReadable()
    ensures Resolved(TheWorld(), AllRefs([Newcomer()])).Ok?
  {
    NewcomerRefs();
    assert AllRefs([Newcomer()])[..0] == [];
    Readings();
  }

  lemma NewcomerRefs()
    ensures AllRefs([Newcomer()]) == [Ref("b", Origin("n", "s", "b"))]
    ensures TargetOf(TheWorld(), [Newcomer()]).Keys <= {"b"}
    ensures forall text :: "b" in Built(text, [Newcomer()]).refs
  {
    assert [Newcomer()][..0] == [] && AllRefs([]) == [];
    var refs := AllRefs([Newcomer()]);
    assert refs == [Ref("b", Origin("n", "s", "b"))];
    assert refs[0] in refs;
    if Resolved(TheWorld(), refs).Ok? {
      ResolvedSound(TheWorld(), refs);
    }
  }
}
