# Vector operator: a verified model

This project models, in Dafny, the parts of the Vector operator where a mistake would lose logs or leak
or withhold credentials, and proves what they promise for all inputs and all runs.

**The publish protocol for pipeline secrets.** A config Secret references flat keys, an assets Secret holds
them, and workloads may or may not mount the assets. There is no transaction across these objects.
`Publishing` gives the objects, the single writes and the invariants; `AggregatorPublish` and `AgentPublish`
are the rounds that issue writes against a server that can refuse any of them; `AggregatorSafety` and
`AgentSafety` prove the invariants over every run; that rounds converge is in `AggregatorSafety` and
`AgentConvergence`. `past` in the cluster is the history the operator cannot see: a pod may run any config
replaced less than 90 seconds ago.

**The allocator behind it.** `SecretRefs`, `Staging`, `Collisions`, `SizeBudget`, `Bridge`, `BridgePlan`,
`BridgeSoundness` and `WorkloadPipelines` are the collision detector, the size detector under two budgets, the
bridge with its exact rollback, the two-pass plan over the variants and the selection of pipelines. `SecretValues`,
`Reports`, `BudgetReports` and `SelectionRules` say what they compute without their own terms: by creation times,
identifiers, stored bytes, limits in bytes and stored reasons.
`SecretReads` is the getter that reads every Secret once per round, `RoundPlanning` shows that what is planned
is what the protocol needs, and `PlannedRuns` puts both together: safety of whole runs from the listed pipelines on,
and what a planned round reaches.

**From a pipeline's options to the assets.** `Placeholders`, `SecretScan` and `PipelineSecrets` find and rewrite
the references; `JsonText` shows that values put into the published text decode to themselves.

**The agent source optimizer.** `Dataflow` gives configurations a meaning: a flow says how often every item leaves
every output, users' transforms take bags of events to bags of events, and a configuration can run with a flow when
every component behaves. `Selectors`, `Buckets`, `Routing`, `Collapsing`, `Optimizer`, `OptimizerGroups` and
`OptimizerInputs` describe what the optimizer changes; `CollapsingMeaning` and `OptimizerMeaning` prove that it
changes nothing that components receive; `OptimizerCopies` says exactly when it changes how often, and `OptimizerScope`
exactly which sources it replaces. `OptimizerRun` is the in-place algorithm; `ComponentNames` shows that generated names cannot clash as text.

**Smaller cores.** `Checkpoints` (consolidation as a least upper bound), `SecretIndexes` (the bidirectional
index), `MountGate` (the pod template builder against the gate that recognises it).

`dafny verify dfyconfig.toml` checks everything.

## Where the code does less than it says

- The comment at internal/controller/secrets.go:498-500 calls pass 2 guaranteed to fit in every variant. With one
  variant that is so (`BridgeSoundness.SingleVariantHolds`). With two it fails when a rotation makes an entry
  smaller: `ShrinkExample.RotationBreaksTwoVariants` is such an input, `RoundPlanning.RotationBreaksAgent` takes it
  to a published config whose key is missing, and `BridgeSoundness.PassTwoStagesExactly` says for every input when
  pass 2 stages everyone: when each prefix of the narrowed list fits, which is the guard that rejects a pipeline.
- The collision detector compares a pipeline with older ones only. One pipeline can map two references to one flat
  key (`PipelineSecrets.OnePipelineCollidesWithItself`); `Collisions.SurvivorsCollisionFreeExactly` says that the
  survivors are collision-free exactly when no survivor does that. The build then refuses it.
- Two inputs of a component that are one stream (sources of one group and one namespace) become one input, as the
  comment at internal/config/agent_optimize.go:261-264 says. `OptimizerCopies.CountsKeptExactly` makes this exact, and
  `OptimizerCopies.LossIsPassedOn` shows that components further on, which read no stream twice, are affected too.
- A round is safe because every Secret is read once in it (internal/controller/secrets.go:53-83): with a second read
  a Secret that appears in between would break it (`RoundPlanning.AppearingSecretBreaks`).

## Assumptions

- Pipeline identifiers are unique; nobody else edits the Secrets and workloads; workloads are deleted by the operator only.
- Library code is a parameter: the digest, the signature text of a source's settings (injective), its hexadecimal
  hash, UTF-8 validity, the serialized size of one Secret entry (any natural number per entry, added up, as the code
  assumes), what users' transforms do with the events they receive, and which I/O operations succeed.
- Users' component names never start like generated ones: they are built from Kubernetes names, which are lower-case,
  and generated ones have a capital letter. They contain no dots either, which is an assumption: names of custom
  resources may.
- Users' transforms are functions of how often each event arrives; the order of arrival is not modelled. With
  `counting` switched off they are functions of which events arrive.
- Go maps that are ranged over become loops that pick any remaining key, so the results hold for every order.

## Model

| member | source | states |
|---|---|---|
| `Publishing.CutOffIsSafe` | `internal/vector/aggregator/controller.go:111-192` | a list of writes that are each allowed when issued keeps the cluster safe when it is cut off after any single write, and the next write is allowed there |
| `Publishing.AllowedKeepsSafe` | `internal/vector/aggregator/controller.go:111-192` | one allowed write keeps all four invariants: every config a pod may still run finds its keys, a config with references stands next to workloads that all mount, nothing mounts a missing Secret, the mark covers the last change |
| `Publishing.WaitingIsSafe` | `internal/controller/secrets.go:376-403` | time passing breaks nothing: versions only stop mattering |
| `Publishing.DropsAreUnreferenced` | `internal/controller/secrets.go:405-427` | an allowed write takes away no key that the published config of the variant, or one replaced less than the grace period ago, references |
| `Publishing.AssetsWouldDropAKey` | `internal/controller/secrets.go:420-427` | the loop answers whether some key held now is missing from the target |
| `Publishing.PruneDeadlineIsFixed` | `internal/controller/secrets.go:392-403` | the wait is anchored to the mark: looking again, however often, neither shortens nor postpones the moment the gate opens, 90 seconds after it |
| `Publishing.WakesUpExactly` | `internal/controller/secrets.go:392-403` | the gate is open exactly for an unchanged config whose mark is at least 90 seconds old; a wake-up is asked for exactly when only the wait is missing, after what is left of it, or 90 seconds without a mark |
| `Publishing.OpenGateMeansNothingRecent` | `internal/controller/secrets.go:392-403` | an open gate means an unchanged config and no version replaced less than 90 seconds ago |
| `Publishing.ApiServer.Issue` | `internal/vector/aggregator/controller.go:111-192` | one write against a server that may refuse: either it is carried out or the round ends with the cluster as it was |
| `AggregatorPublish.EnsureWorkload` | `internal/vector/aggregator/statefulset.go:24-46` | the current kind is written first and only then the obsolete one deleted, in exactly these single writes |
| `AggregatorPublish.EnsureConfig` | `internal/vector/aggregator/controller.go:518-562` | a changed config is preceded by the publish mark; the writes issued are exactly these |
| `AggregatorPublish.GainMount` | `internal/vector/aggregator/controller.go:134-152` | assets, workload, config: exactly these writes in this order up to the first refusal |
| `AggregatorPublish.LoseMount` | `internal/vector/aggregator/controller.go:153-172` | config, workload, assets: exactly these writes in this order up to the first refusal |
| `AggregatorPublish.KeepMount` | `internal/vector/aggregator/controller.go:173-192` | assets, config, workload: exactly these writes in this order up to the first refusal |
| `AggregatorPublish.EnsureVectorAggregator` | `internal/vector/aggregator/controller.go:111-192` | from the mount state read at the start one of the three orders is issued, prefix by prefix |
| `AggregatorPublish.CreateOrUpdateVectorAggregator` | `internal/controller/vectoraggregator_controller.go:195-348` | a round issues a prefix of its program: choice of target or bridge, one of the three orders, success mark |
| `AggregatorSafety.ChosenSuffices` | `internal/controller/vectoraggregator_controller.go:316-332` | whatever the gate decides, the chosen assets hold what old and new config reference |
| `AggregatorSafety.MountsRead` | `internal/vector/aggregator/controller.go:245-279` | "any mounted" and "all mounted" are the questions over all live workload kinds, with neither, one or both kinds alive |
| `AggregatorSafety.GainAllowed` | `internal/vector/aggregator/controller.go:134-152` | in the gaining order every write is allowed at its moment, also while both kinds are alive |
| `AggregatorSafety.LoseAllowed` | `internal/vector/aggregator/controller.go:153-172` | in the losing order every write is allowed at its moment; the assets go only after every mount |
| `AggregatorSafety.KeepAllowed` | `internal/vector/aggregator/controller.go:173-192` | in the keeping order every write is allowed at its moment |
| `AggregatorSafety.ProgramAllowed` | `internal/controller/vectoraggregator_controller.go:195-348` | every write of a round from any safe cluster is allowed at its moment |
| `AggregatorSafety.EveryRunIsSafe` | `internal/vector/aggregator/controller.go:111-192` | over every run (rounds cut off after any write, persistence toggled at will, any waiting in between) every reachable cluster is safe |
| `AggregatorSafety.PruneIsSafe` | `internal/controller/secrets.go:376-427` | in every such run, the next write of a round never takes away a key that the published config or one replaced within the grace period references |
| `AggregatorSafety.StartIsSafe` | `internal/vector/aggregator/controller.go:518-562` | a fresh aggregator, or one from before secrets existed and without a mark, is a safe start |
| `AggregatorSafety.CompleteRound` | `internal/vector/aggregator/controller.go:111-192` | a round no write refuses ends in the same cluster whichever order was chosen |
| `AggregatorSafety.RoundLeavesExactly` | `internal/controller/vectoraggregator_controller.go:316-332` | what a complete round leaves in the assets: the bridge when some key held is not in the target and the config has not been published unchanged for 90 seconds, the exact target otherwise |
| `AggregatorSafety.TwoRoundsConverge` | `internal/controller/vectoraggregator_controller.go:316-348` | two complete rounds for one wish, a grace period apart, reach the exact target: leftover keys and the obsolete workload are gone, and there is a mount exactly when there are assets |
| `AggregatorSafety.ConvergedIsStable` | `internal/controller/vectoraggregator_controller.go:316-348` | from there a further round for the same wish changes nothing at all |
| `AgentPublish.EnsureVectorAgent` | `internal/vector/vectoragent/vectoragent_controller.go:79-155` | the writes issued are a prefix of the order the active mount asks for, with one or two variants |
| `AgentPublish.EnsureSecretAssets` | `internal/vector/vectoragent/vectoragent_controller.go:415-470` | the active and the standby assets are written or dropped in exactly this order; an unchanged standby is left alone |
| `AgentPublish.EnsureConfig` | `internal/vector/vectoragent/vectoragent_controller.go:222-252` | one mark before the first of two configs, and only when one of them changes |
| `AgentPublish.CreateOrUpdateVector` | `internal/controller/vector_controller.go:196-472` | a round issues a prefix of its program for one or two variants |
| `AgentSafety.ChosenSuffices` | `internal/controller/vector_controller.go:394-438` | each variant's chosen assets hold what its old and new config reference |
| `AgentSafety.ProgramAllowed` | `internal/controller/vector_controller.go:394-472` | every write of a round from any safe cluster is allowed at its moment |
| `AgentSafety.EveryRunIsSafe` | `internal/vector/vectoragent/vectoragent_controller.go:79-155` | over every run of the agent, cut off anywhere, with any waiting, both variants stay safe |
| `AgentSafety.PruneIsSafe` | `internal/controller/secrets.go:376-427` | prune safety in every run of the agent, for either variant |
| `AgentSafety.UncoveredRoundBreaks` | `internal/vector/vectoragent/vectoragent_controller.go:79-155` | the condition on what a round is offered cannot be dropped: a complete round whose chosen assets lack a reference of its config leaves an unsafe cluster |
| `AgentSafety.UncoveredBridgeBreaks` | `internal/controller/vector_controller.go:420-438` | the same for a changed config whose bridge lacks a reference |
| `AgentConvergence.RoundLeavesExactly` | `internal/controller/vector_controller.go:394-438` | what a complete round leaves: both pairs at the exact target, unless a pair has a key that is not in it and the configs, the standby one included, have not been settled for 90 seconds; then each at its bridge. The mount follows the active assets, an unbuilt standby is left alone, and without migration there are no standby assets |
| `AgentConvergence.CompleteRound` | `internal/vector/vectoragent/vectoragent_controller.go:79-155` | a round no write refuses ends in the same cluster whichever of the three orders was chosen |
| `AgentConvergence.TwoRoundsConverge` | `internal/controller/vector_controller.go:394-472` | two complete rounds for one wish, a grace period apart, reach it from any safe cluster, with one variant or two: both configs, exactly the target data in both pairs, the mount exactly when there is data, and without migration no standby assets |
| `AgentConvergence.ReachedIsStable` | `internal/controller/vector_controller.go:394-472` | a further round for a reached wish changes nothing at all |
| `AgentConvergence.NoPruningWithoutStandby` | `internal/controller/vector_controller.go:394-438` | the other half: while the standby config cannot be built and some pair has a key to drop, a complete round leaves the bridge in the active pair and the standby pair as it is |
| `SecretReads.SecretGetter.Get` | `internal/controller/secrets.go:58-83` | the answer, found or not, is that of the first read of this Secret in the round |
| `SecretReads.AnswersStay` | `internal/controller/secrets.go:58-83` | what was answered once is the answer for the rest of the round: everything a round reads fits one state of the Secrets |
| `SecretReads.CacheKeyInjective` | `internal/controller/secrets.go:66-69` | no two Secrets share a cache entry |
| `RoundPlanning.AggregatorRoundOffered` | `internal/controller/vectoraggregator_controller.go:212-332` | selection, plan and build read through one getter, so one world: what the planner hands to the aggregator's protocol is what the safety of its runs needs |
| `RoundPlanning.OneVariantAgentOffered` | `internal/controller/vector_controller.go:229-438` | the same for the agent without migration |
| `RoundPlanning.AgentRoundOffered` | `internal/controller/vector_controller.go:229-438` | the same for two variants, as long as no pipeline of the collision-free target shrinks an entry a variant holds |
| `RoundPlanning.SkippedBridgeNeverPublishes` | `internal/controller/secrets.go:472-490` | when the plan gives up because data cannot be read, the build, which reads the same, fails too, so nothing is published from unbridged data |
| `RoundPlanning.AggregatorOfferedExactly` | `internal/controller/secrets.go:53-58` | what reading once is good for: if plan and build read different worlds, a round is offered what it needs if and only if the plan could read everything or the config references only what is held |
| `RoundPlanning.AgentOfferedExactly` | `internal/controller/secrets.go:53-58` | the same for the agent without migration |
| `RoundPlanning.AppearingSecretBreaks` | `internal/controller/secrets.go:53-58` | otherwise the round publishes a config whose reference its assets lack |
| `RoundPlanning.AppearingSecretBreaksSafeAggregator` | `internal/controller/secrets.go:53-58` | a safe cluster and two worlds for which it would |
| `RoundPlanning.RotationBreaksAgent` | `internal/controller/secrets.go:472-513` | the two-variant failure reaches the cluster: a complete round publishes a config whose reference its assets lack |
| `RoundPlanning.RotationBreaksSafeAgent` | `internal/controller/secrets.go:472-513` | it does so from a safe cluster |
| `PlannedRuns.EveryAggregatorRunIsSafe` | `internal/controller/vectoraggregator_controller.go:195-348` | from the listed pipelines on: over every run of select, plan, build and publish, with Secrets and pipelines changing between rounds, rounds cut off anywhere and persistence toggled, every reachable cluster is safe, with nothing assumed about what rounds are offered |
| `PlannedRuns.EveryAgentRunIsSafe` | `internal/controller/vector_controller.go:196-472` | the same for the agent without migration |
| `PlannedRuns.OneAggregatorRoundPublishesAll` | `internal/controller/vectoraggregator_controller.go:195-348` | from a cluster that holds the exact data of some of the wanted pipelines, or nothing, one complete planned round publishes all selected pipelines with exactly their data and the right mount |
| `PlannedRuns.OneAgentRoundPublishesAll` | `internal/controller/vector_controller.go:196-472` | the same for the agent without migration |
| `PlannedRuns.SelectionUnique` | `internal/controller/secrets.go:623-756` | the selection names no pipeline twice, also in the fallback |
| `SecretRefs.CheckSafeForJsonText` | `internal/config/secrets.go:260-273` | the scan accepts exactly valid UTF-8 without quote, backslash and control bytes, and the empty value |
| `SecretRefs.GatheredProperties` | `internal/config/secrets.go:404-446` | succeeds if and only if every pipeline can be scanned; then it lists those with references, each once, by creation time and at equal times by identifier |
| `Ordering.LessAtFirstDifference` | `internal/config/secrets.go:437-445` | the order of identifiers and keys is the lexicographic one: decided at the first position where two strings differ |
| `SecretRefs.GatheredIgnoresListing` | `internal/config/secrets.go:404-446` | the traversal order is the same for every permutation of the input |
| `Collisions.DetectSecretCollisions` | `internal/config/secrets.go:469-541` | the in-place detector computes the specification function whose properties the following rows state |
| `Collisions.DetectionCorrect` | `internal/config/secrets.go:448-541` | for pipelines that do not collide with themselves: a pipeline is reported exactly when an independent definition of survival says so, and each victim names an older accepted pipeline it really disagrees with on the flat key named |
| `Collisions.SplitsBySurvival` | `internal/config/secrets.go:490-541` | acceptance and rejection are survival and non-survival at every position of the walk |
| `Collisions.ContestedMeansConflict` | `internal/config/secrets.go:500-530` | a reference is contested against the claims exactly when its pipeline conflicts with an accepted one: victims claim nothing |
| `Collisions.VictimOlder` | `internal/config/secrets.go:448-541` | the accepted pipeline named was created earlier, or at the same time with the smaller identifier |
| `Collisions.DetectionIgnoresListing` | `internal/config/secrets.go:469-541` | the report is the same for every permutation of the input |
| `Collisions.SurvivorsCollisionFreeExactly` | `internal/config/secrets.go:469-541` | the unreported pipelines agree on every flat key if and only if none of them collides with itself: the detector compares a pipeline with older ones only |
| `Reports.ReportedExactly` | `internal/config/secrets.go:448-541` | on the listed pipelines alone: one is reported exactly when it reads some flat key from another origin than a pipeline that is not reported and was created earlier, or at the same time with a smaller identifier |
| `Reports.NamedExactly` | `internal/config/secrets.go:490-535` | the key named is the least on which the victim disagrees with any unreported older pipeline, and the survivor named is the oldest of those that has it |
| `Reports.ReportInOrder` | `internal/config/secrets.go:532-541` | each victim once, in byte order of identifiers |
| `Staging.ResolvePendingSecrets` | `internal/config/secrets.go:337-382` | the loop computes the specification function, or its first error |
| `Staging.ResolvedSound` | `internal/config/secrets.go:337-382` | on success every reference has its own source's value under its flat key, and no other key is there |
| `Staging.ResolvedExactly` | `internal/config/secrets.go:337-382` | it succeeds if and only if flat keys are unambiguous and all values can be read; a collision error means they are ambiguous |
| `SecretValues.ResolvesExactly` | `internal/config/secrets.go:337-382` | on what the Secrets hold: resolution succeeds if and only if no two references share a flat key with different origins and every Secret and key exists with a value that is empty or valid UTF-8 without quote, backslash and control bytes; then each flat key has exactly the stored value and nothing else is there |
| `SecretValues.FirstFault` | `internal/config/secrets.go:347-371` | a failing resolution is about the first faulty reference: a collision if it clashes with an earlier one, else the missing Secret, the missing key or the unsafe value |
| `SecretValues.ReadExactly` | `internal/config/secrets.go:748-767` | the same three errors, in this order, for a single read of the detectors and the bridge |
| `SecretValues.StagedAreDrawn` | `internal/config/secrets.go:908-960` | a pipeline stages exactly its keys, each with a stored and usable value of one of its references |
| `SecretValues.StagesExactlyWhen` | `internal/config/secrets.go:926-950` | staging succeeds if and only if the first reference of every flat key reads a usable value |
| `SecretValues.PackedAreDrawn` | `internal/config/secrets.go:769-838` | every value counted against the budgets is stored and usable and read by a pipeline taken |
| `SecretValues.ResolvedFillsGuarded` | `internal/config/secrets.go:237-273` | any text of the operator's placeholders filled from resolved data meets the conditions under which filling and decoding commute |
| `SecretValues.PublishedTextMeansItsValues` | `internal/config/secrets.go:237-273` | so such a string decodes to what it meant before with every placeholder replaced by its value, and ends at the same byte |
| `Staging.SurvivorsResolve` | `internal/config/secrets.go:337-382` | on a collision-free list the collision error never occurs, whatever the Secrets hold |
| `Staging.StagedIsPartOfTarget` | `internal/config/secrets.go:926-960` | what one pipeline stages is part of what a build containing it resolves to |
| `Totals.TotalUpdate` | `internal/config/secrets.go:962-1001` | writing one entry moves a total by new weight minus old weight: the step the incremental totals rely on |
| `Totals.Measure` | `internal/config/secrets.go:1009-1015` | the loop adds up the weight of every entry |
| `SizeBudget.DetectSecretSizeOverflow` | `internal/config/secrets.go:734-847` | the in-place detector with its two running totals computes the specification function |
| `SizeBudget.PackOldestFirst` | `internal/config/secrets.go:769-838` | the running totals stay equal to a fresh measurement, so the excluded list is that of the specification |
| `SizeBudget.PackingDecides` | `internal/config/secrets.go:769-838` | at every position: taken exactly when it fits next to everything taken before, otherwise nothing changes for later ones and the exclusion names a budget that is really breached |
| `SizeBudget.PackedFits` | `internal/config/secrets.go:769-838` | the accepted data is within both budgets, one entry per distinct flat key; the object budget only if the empty Secret is |
| `SizeBudget.OverflowsIgnoreListing` | `internal/config/secrets.go:734-847` | the report is the same for every permutation of the input |
| `SizeBudget.PackedIsTarget` | `internal/config/secrets.go:769-838` | for pipelines that do not collide the accepted data is what a build of them resolves to |
| `BudgetReports.ExcludedExactly` | `internal/config/secrets.go:690-838` | on the listed pipelines alone: one is left out exactly when the values it adds do not fit next to those of the older pipelines that are not left out, within 1048576 value bytes and 1245184 object bytes; the report has the true sizes and names the values limit if both are exceeded |
| `BudgetReports.OverflowsInOrder` | `internal/config/secrets.go:840-847` | each victim once, in byte order of identifiers |
| `Bridge.BridgeBuffer.TryStage` | `internal/config/secrets.go:962-1001` | tentative apply: kept exactly when the union fits both budgets, else the data is as before; totals equal a fresh measurement either way |
| `Bridge.BridgeBuffer.Apply` | `internal/config/secrets.go:962-990` | entry by entry: the new data, what each touched key held before, and both totals' differences |
| `Bridge.BridgeBuffer.Undo` | `internal/config/secrets.go:985-1001` | exact rollback: every touched key has its former value or is absent again, no other key changes |
| `Bridge.BridgeAssets` | `internal/config/secrets.go:882-1004` | the in-place bridge computes the specification function |
| `Bridge.BridgeKeepsEverything` | `internal/config/secrets.go:882-1004` | no key already held is removed, and data within both budgets stays within both |
| `Bridge.BridgeIsGreedy` | `internal/config/secrets.go:926-1001` | the waiting list is the oldest-first greedy rejection: the result overlays the admitted pipelines, and each waits exactly when its own overlay would break a budget |
| `BudgetReports.WaitsExactly` | `internal/config/secrets.go:926-1001` | on the listed pipelines alone: one waits exactly when its values, laid over what the Secret held and the values of the older pipelines that do not wait, exceed a limit |
| `BudgetReports.BridgeHoldsExactly` | `internal/config/secrets.go:882-1004` | the bridge has the keys held before and those of the admitted pipelines, each of theirs with a stored and usable value one of them reads and each other one unchanged; who waits is listed by age |
| `BridgePlan.PlanSecretAssetsBridge` | `internal/controller/secrets.go:461-514` | the two passes over all variants compute the specification function, errors included |
| `BudgetReports.PlanHoldsBackExactly` | `internal/controller/secrets.go:461-514` | the plan holds back exactly the pipelines that wait in some variant and publishes all others, both in the order given; when some data cannot be read it holds back nobody and leaves the variants alone |
| `SelectionRules.PlanFailsExactly` | `internal/controller/secrets.go:461-490` | planning fails if and only if there is an assets Secret to plan for and a pipeline that cannot be scanned |
| `BridgePlan.NobodyWaitsExactly` | `internal/config/secrets.go:926-1001` | nobody waits if and only if every prefix, oldest first, laid over the held data fits |
| `BridgePlan.OneVariantSound` | `internal/controller/secrets.go:472-513` | with one variant pass 2 stages everyone pass 1 admitted and yields the same data |
| `BridgeSoundness.StagesAllExactly` | `internal/controller/secrets.go:492-513` | pass 2 stages everyone in a variant if and only if every prefix of the list to publish fits next to what it holds |
| `BridgeSoundness.PassTwoStagesExactly` | `internal/controller/secrets.go:472-513` | the same over all variants at once, and then every variant holds every published key and all it held before |
| `BridgeSoundness.SingleVariantHolds` | `internal/controller/secrets.go:472-513` | with one variant the plan can always be published |
| `BridgeSoundness.NoShrinkHolds` | `internal/controller/secrets.go:472-513` | with several variants it can as long as no pipeline of the collision-free target shrinks an entry already held |
| `BridgeSoundness.StagedVariantHolds` | `internal/controller/secrets.go:472-513` | a plan keeps every old key of a variant and stays in both budgets if the variant was; with everyone staged it also holds every published key |
| `BridgeSoundness.PassTwoSucceeds` | `internal/controller/secrets.go:492-513` | after a successful pass 1, pass 2 cannot fail |
| `ShrinkExample.RotationBreaksTwoVariants` | `internal/controller/secrets.go:492-513` | a concrete rotation for which the plan publishes a pipeline whose key one variant does not get, although pass 1 admitted it everywhere |
| `WorkloadPipelines.ResolveWorkloadPipelines` | `internal/controller/secrets.go:623-756` | both detectors, the pool and the retry candidates: the method computes the specification function |
| `WorkloadPipelines.SelectedExactly` | `internal/controller/secrets.go:700-755` | a pipeline is selected exactly when it is no victim and no edited retry candidate, and is to be reinstated exactly when it was a retry candidate |
| `SelectionRules.SelectionExactly` | `internal/controller/secrets.go:623-756` | on the listing alone: considered are the valid pipelines and those whose reason is a collision, either size limit or waiting; built from are the considered ones that neither detector names and that were valid or are unedited; restored are those of them that were not valid. An unreadable value makes nobody a victim of size; only an unscannable considered pipeline makes it the valid ones and nobody restored |
| `SelectionRules.SelectionKeepsOrder` | `internal/controller/secrets.go:673-756` | both lists keep the order of the listing, also in the fallback |
| `WorkloadPipelines.SelectionFits` | `internal/controller/secrets.go:673-755` | when neither detector fails, the selected list is collision-free, readable, and its merged assets fit both budgets |
| `WorkloadPipelines.OnePruneSuffices` | `internal/controller/secrets.go:673-755` | bridging the selection from nothing, or from the exact assets of any part of it, leaves nobody waiting and yields exactly its assets |
| `WorkloadPipelines.IntersectPipelinesByKey` | `internal/controller/secrets.go:567-582` | the loop keeps, in order, the listed pipelines that are published |
| `WorkloadPipelines.ReinstatedArePublished` | `internal/controller/secrets.go:561-582` | a status is restored exactly for the retry candidates that are really published |
| `Placeholders.RenderTokenize` | `internal/config/secrets.go:30` | cutting a text at its placeholders loses nothing |
| `Placeholders.PlaceholderMatches` | `internal/config/secrets.go:30` | a placeholder with a valid alias and key is matched whatever follows it |
| `Placeholders.MatchesExactly` | `internal/config/secrets.go:30` | a text starts with a placeholder if and only if it starts with SECRET[, an alias of letters, digits and underscores, a dot, a key that may also have dots, slashes and dashes, and a bracket |
| `Placeholders.NoOverlap` | `internal/config/secrets.go:30` | a match that starts before a placeholder ends before it |
| `Placeholders.ReplacementIsCanonical` | `internal/config/secrets.go:62-122` | replacing placeholders by other valid ones creates no match and destroys none: scanning again gives exactly the replaced tokens |
| `SecretScan.RewriteString` | `internal/config/secrets.go:76-97` | the scanning loop returns the rewritten text, the sound references in order and the last fault |
| `SecretScan.FlatKeyLegal` | `internal/config/secrets.go:124-128` | a flat key is a legal Secret key and a legal placeholder key, without dashes |
| `SecretScan.FlatKeyShape` | `internal/config/secrets.go:124-128` | namespace if any, name, alias and key in this order, dashes become underscores, an underscore between each two |
| `SecretScan.FlatKeyCharacters` | `internal/config/secrets.go:124-128` | character by character: names and reference joined by dashes, an underscore for every dash and everything else as it is |
| `SecretScan.RewriteCloses` | `internal/config/secrets.go:62-122` | for every options tree: rewriting succeeds if and only if every placeholder is declared, well-formed and short enough; then scanning the result finds exactly the generated ones, in order and in place, and all other text is unchanged |
| `SecretScan.RewritesExactly` | `internal/config/secrets.go:62-122` | in the characters' terms: a tree is rewritten if and only if every placeholder has a declared alias, a key of letters, digits, underscores, dots and dashes, and a generated key of at most 253 characters; the error is about one that has not, and says which of the three is wrong |
| `SecretScan.RewrittenIsRefusedAgain` | `internal/config/secrets.go:76-97` | a second rewrite of the result is refused unless the pipeline declares a backend of the operator's name |
| `SecretScan.Walk` | `internal/config/secrets.go:73-121` | the recursive walk computes the specification function |
| `PipelineSecrets.CheckBackends` | `internal/config/secrets.go:293-300` | no fault if and only if exactly the cluster-wide pipelines' backends name a namespace |
| `PipelineSecrets.ProcessPipelineSecrets` | `internal/config/secrets.go:289-331` | succeeds if and only if backends name a namespace exactly in a cluster-wide pipeline and all placeholders are acceptable; then one queued reference per placeholder, with the right origin, and rewritten components with exactly the generated placeholders |
| `PipelineSecrets.ReadsWhereDeclared` | `internal/config/secrets.go:311-329` | a namespaced pipeline reads Secrets of its own namespace only; a cluster-wide one reads where its backend says |
| `PipelineSecrets.EveryPlaceholderIsServed` | `internal/config/secrets.go:289-382` | after resolution every placeholder left in the components is at most 253 long, legal, and its key holds the value the user's reference reads |
| `PipelineSecrets.OnePipelineCollidesWithItself` | `internal/config/secrets.go:124-128` | alias a with key b_c and alias a_b with key c flatten alike: both references are accepted and their origins differ |
| `JsonText.SubstitutionCommutes` | `internal/config/secrets.go:237-273` | for a string literal with any number of placeholders: putting guarded values into the text and decoding equals decoding and then replacing, and the literal ends at the same byte |
| `JsonText.GuardIsExact` | `internal/config/secrets.go:260-273` | a value decodes to itself, with the literal ending behind it, if and only if it has no quote, backslash or control byte |
| `JsonText.UnitsBefore` | `internal/config/secrets.go:237-273` | text in front of a placeholder inside a literal is made of whole units: no escape reaches into a placeholder |
| `Selectors.SingleNamespaceOf` | `internal/config/agent_optimize.go:208-214` | a selector is scoped to one namespace exactly if it is the generated form for a non-empty plain name, and then to that one |
| `Selectors.InSelectorSelects` | `internal/config/agent_optimize.go:123` | the joined selector selects exactly the listed namespaces |
| `Selectors.SplitJoin` | `internal/config/agent_optimize.go:123` | splitting the joined list gives the list back |
| `Buckets.BucketCount` | `internal/config/agent_optimize.go:244-253` | terminates with the power of two up to 256 that minimises b + ceil(n/b), the smaller one on a tie |
| `Buckets.FewestConditions` | `internal/config/agent_optimize.go:231-256` | in plain arithmetic: b + ceil(n/b) is least among the powers of two up to 256, and b the smallest of these |
| `Buckets.ProgramAgrees` | `internal/config/agent_optimize.go:255-259` | what the generated program computes from the first two hex digits of the digest is the operator's bucket, for every namespace and count |
| `Routing.RewriteInputs` | `internal/config/agent_optimize.go:265-278` | the in-place filter computes the renamed inputs, each once, in order |
| `Routing.RoutesDeliver` | `internal/config/agent_optimize.go:125-177` | for any namespace list, below or above the threshold, the output of a namespace carries exactly what a source of its own would emit, as often |
| `Routing.TakesOneRoute` | `internal/config/agent_optimize.go:137-177` | with buckets, an event of a watched namespace takes exactly one first-level and one second-level route and ends at its namespace's output, as often as it was emitted |
| `Routing.FlatUpToSixteen` | `internal/config/agent_optimize.go:125-177` | up to sixteen namespaces there is one router, beyond that a bucket is computed first |
| `Routing.CopiesKeptExactly` | `internal/config/agent_optimize.go:261-278` | an event arrives at a component never more often than before, exactly as often if and only if no two inputs that carry it become one, and at least once if it did before |
| `Routing.RewrittenLength` | `internal/config/agent_optimize.go:265-278` | the input list gets shorter if and only if two inputs become one |
| `Routing.RewrittenInOrder` | `internal/config/agent_optimize.go:265-278` | the rewritten inputs stand in the order in which they are first read |
| `CollapsingMeaning.CollapseForward` | `internal/config/agent_optimize.go:120-193` | every run of the original configuration becomes a run of the collapsed one; every transform and sink then hears the same, unless copies matter and two of its inputs become one |
| `CollapsingMeaning.CollapseBack` | `internal/config/agent_optimize.go:120-193` | and the other way round |
| `Collapsing.CollapseWellFormed` | `internal/config/agent_optimize.go:120-193` | collapsing leaves a configuration that can be collapsed further: names anchored, no source and transform of one name |
| `Optimizer.FreeBase` | `internal/config/agent_optimize.go:86-94` | the search for a free group name ends, with a name nobody has, made of the hash and nothing but x |
| `Optimizer.PiecesPartition` | `internal/config/agent_optimize.go:94-108` | every namespace of a large group is in exactly one piece |
| `Optimizer.Piece` | `internal/config/agent_optimize.go:95-108` | a piece has between 1 and 1000 namespaces |
| `Optimizer.PiecesAreFull` | `internal/config/agent_optimize.go:94-112` | all pieces but the last have exactly 1000 namespaces |
| `Optimizer.PiecesHalfway` | `internal/config/agent_optimize.go:95-112` | after any number of pieces the rest of the group is untouched and the remaining names are free |
| `OptimizerMeaning.OptimizedLosesNothing` | `internal/config/agent_optimize.go:51-113` | however the original runs, the optimized configuration can run with every transform and sink receiving the same events; counting copies, if every component reads each stream over one input or nothing is collapsed, and for every configuration if copies do not matter |
| `OptimizerMeaning.OptimizedAddsNothing` | `internal/config/agent_optimize.go:51-113` | however the optimized configuration runs, the original can, with every transform and sink receiving the same, under the same condition |
| `OptimizerMeaning.GroupsBack` | `internal/config/agent_optimize.go:51-113` | where transforms do not look at what they receive: whatever the inputs, no component gets an event more often than before |
| `OptimizerInputs.InputsKeptExactly` | `internal/config/agent_optimize.go:261-278` | for every input list: a component keeps all its inputs if and only if nothing is collapsed, or it lists no output twice and no two sources of one group and one namespace |
| `OptimizerCopies.CountsKeptExactly` | `internal/config/agent_optimize.go:261-278` | the condition is exact: in any world where everything emits and transforms do not look, all components get all events as often as before if and only if it holds |
| `OptimizerCopies.LessOften` | `internal/config/agent_optimize.go:261-278` | a component that violates it gets some event less often, in every pair of runs |
| `OptimizerCopies.TellingExists` | `internal/config/agent_optimize.go:261-278` | such a world exists |
| `OptimizerCopies.DeafRuns` | `internal/config/agent_optimize.go:261-278` | and every configuration runs in it |
| `OptimizerCopies.HalfAsOften` | `internal/config/agent_optimize.go:261-278` | two sources of one stream read by one transform: it gets every event of the stream half as often |
| `OptimizerCopies.LossIsPassedOn` | `internal/config/agent_optimize.go:261-278` | and so does a sink behind it that reads only that transform: the condition is about the whole configuration |
| `OptimizerRun.BuildRouters` | `internal/config/agent_optimize.go:125-177` | the loops over namespaces and buckets build exactly the specified routers and outputs, in whatever order the bucket map is visited |
| `OptimizerRun.VectorConfig.CollapseSourceGroup` | `internal/config/agent_optimize.go:120-193` | the in-place method leaves exactly the collapsed configuration |
| `OptimizerRun.VectorConfig.CollapseInPieces` | `internal/config/agent_optimize.go:95-112` | the chunk loop leaves exactly the configuration with all pieces collapsed |
| `OptimizerRun.VectorConfig.FindBase` | `internal/config/agent_optimize.go:86-94` | the renaming loop ends at the first free base |
| `OptimizerRun.VectorConfig.OptimizeAgentSources` | `internal/config/agent_optimize.go:51-113` | the whole in-place optimizer leaves exactly the optimized configuration, whatever order the maps are visited in |
| `OptimizerScope.ReplacedExactly` | `internal/config/agent_optimize.go:51-113` | on the sources alone: one is replaced if and only if it did not opt out, has type kubernetes_logs, has the selector generated for one namespace, and another such source has equal settings; all others stay, and of the users' transforms and sinks only inputs that read a replaced source change |
| `OptimizerScope.OthersKeepInputs` | `internal/config/agent_optimize.go:261-278` | a component that reads no replaced source keeps its inputs |
| `OptimizerScope.WatchedAsBefore` | `internal/config/agent_optimize.go:94-123` | a generated source lists between 1 and 1000 namespaces, each watched before by a replaced source with equal settings; and every namespace a replaced source watched is listed by one with equal settings |
| `OptimizerRun.SortedNamespacesOf` | `internal/config/agent_optimize.go:216-228` | the namespaces of a group, each once, in byte order |
| `ComponentNames.TakenAsText` | `internal/config/agent_optimize.go:86-94` | looking names up by their text finds a base exactly when it is taken |
| `ComponentNames.NamesNeverClash` | `internal/config/agent_optimize.go:69-112` | over all groups, pieces and routers, also with equal hashes, and against users' sources, transforms and sinks: two components have the same text only if they have the same name |
| `ComponentNames.OutputTextInjective` | `internal/config/agent_optimize.go:134-171` | what an input refers to can be read off its text |
| `Checkpoints.MergeAll` | `internal/checkpoint/consolidate.go:96-127` | the merge has every fingerprint of a readable file, at the highest position, and nothing else |
| `Checkpoints.DataDir.UpdateTarget` | `internal/checkpoint/consolidate.go:129-158` | one target: improved and written sorted, or left as it was when there is nothing to do, it cannot be read, or a write fails |
| `Checkpoints.DataDir.Consolidate` | `internal/checkpoint/consolidate.go:96-160` | the whole run: every target as specified, every other directory untouched, no write at all when no target needs one, and the targets reported as written are exactly those that had something to do and could be written |
| `Checkpoints.TargetIsLeastUpperBound` | `internal/checkpoint/consolidate.go:129-158` | a target that could be written holds exactly the merged fingerprints, each at its highest position in any readable directory, even when a file repeats one |
| `Checkpoints.NothingMovesBack` | `internal/checkpoint/consolidate.go:96-160` | no fingerprint is lost and no position goes back in any directory, whatever fails |
| `Checkpoints.UnreadableKept` | `internal/checkpoint/consolidate.go:125-132` | a file of another version or format is never touched |
| `Checkpoints.SecondRunIsIdle` | `internal/checkpoint/consolidate.go:90-95` | after a run without failures a second one has nothing to do for any target |
| `Checkpoints.SortedValues` | `internal/checkpoint/consolidate.go:189-205` | a file is written with each fingerprint once, in byte order |
| `SecretIndexes.SecretIndex.Set` | `internal/pipeline/secretindex.go:51-82` | keeps the two maps mutual inverses without empty inner sets, and in step with the history of calls |
| `SecretIndexes.SecretIndex.PipelinesFor` | `internal/pipeline/secretindex.go:85-95` | exactly the pipelines whose latest call names the Secret, without duplicates |
| `SecretIndexes.LatestCall` | `internal/pipeline/secretindex.go:48-82` | what the history means: only the latest call of a pipeline counts |
| `MountGate.HasOperatorSecretAssetsMount` | `internal/utils/k8s/volumes.go:78-97` | true exactly when the reserved volume comes from the given Secret and some container mounts it at the given path |
| `MountGate.SetAuthoritativeVolume` | `internal/utils/k8s/volumes.go:41-49` | the other volumes in order, then the operator's |
| `MountGate.SetAuthoritativeVolumeMount` | `internal/utils/k8s/volumes.go:53-61` | the mounts that share neither name nor path, in order, then the operator's |
| `MountGate.GateExactly` | `internal/vector/aggregator/deployment.go:179-333` | the gate recognises a built template if and only if it was built with assets or the user declared the same volume and mount by hand |
| `MountGate.ReservedOnce` | `internal/vector/aggregator/deployment.go:179-333` | with assets: exactly one volume of the reserved name, exactly one mount of the reserved name or path, everything else the user declared kept |
| `MountGate.VolumesExactly` | `internal/vector/aggregator/deployment.go:179-278` | the template has exactly the user's volumes and the operator's (config, data unless persistent, procfs, sysfs, the compressed config) under names the user has not taken; with assets, theirs in place of any other of the reserved name |
| `MountGate.MountsExactly` | `internal/vector/aggregator/deployment.go:280-333` | the main container has exactly the user's mounts and the operator's under names the user has not taken; with assets, theirs in place of any other of the reserved name or path |
| `MountGate.MountsHaveVolumes` | `internal/vector/aggregator/deployment.go:154-333` | every mount of any container that the user has not declared names a volume of the template, except a persistent aggregator's data |
| `MountGate.AssetsAddLast` | `internal/vector/aggregator/deployment.go:179-278` | the user's volumes come first, and turning the assets on adds at the end only: all other volumes keep their place |

## Left out

- Kubernetes API calls, informers, watches, RBAC, services, autoscaling and config-check pods: object plumbing. A write is a step that succeeds or ends the round.
- The case without a Secret getter, in which a pipeline that declares backends is refused.
- The live reads of the operator's own objects that precede a round: one snapshot, as no other actor writes; cached reads are not told apart from uncached ones.
- The publish mark's precision of one second: the clock counts whole seconds.
- Checkpoint-migration mode changes during a run of the agent: the mount gate looks only for the active variant's name, so the mode is fixed within a run.
- Status texts, events, counters of collapsed sources and log lines.
- JSON and YAML marshalling, decompression, MD5, CRC32 and protobuf sizes: parameters, as said above.
- Users' wildcard inputs and backpressure. Users' route outputs are part of the model as ports.
- The metadata field with the bucket stays on an event when it leaves the last router; users' transforms are taken not to read it.
- Update in place of nested option maps: `SecretScan` returns a new tree, so aliasing between option values is not captured.
- The order in which a detector reads Secrets: within a round, reading is a function of namespace and name (`SecretReads`).
- AgentPublish.EnsureConfig: the deletion of a leftover standby config when migration is off is no write here; without migration no standby config is there to begin with.
- SecretScan.Walk: returns a new tree where the source updates the option maps in place.
- The structural-error fallback of the pipeline selection returns the individually valid list unchecked; the model has the branch and states nothing about its budgets.
- The agent's own pod template builder, which has the same shape as the aggregator's, and the backing array that Go's append may share with the spec.
- The second half of a write to a checkpoint file, the temporary file left by a failed rename, and directories whose name is not a plain component name.
- SecretIndexes.SecretIndex.Set: calls are sequential; the lock is not modelled.
- Listing the kubernetes_logs sources of a config for the checkpoint merge: a filter and a sort over decoded JSON.
- Reports.ReportedExactly: for pipelines that do not collide with themselves; for others `Collisions.SurvivorsCollisionFreeExactly` has the condition.
