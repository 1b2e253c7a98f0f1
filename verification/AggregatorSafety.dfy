/** Safety of every run of the aggregator's publish protocol, and convergence of complete rounds. */
module AggregatorSafety {
  import opened Outcomes
  import opened Totals
  import opened Publishing
  import opened AggregatorPublish

  /** What the planning of a round guarantees: the exact target holds every referenced key, the bridge
      holds those and everything the Secret holds now. */
  ghost predicate Offered(c: Cluster, r: Round) {
    && r.config.refs <= r.target.Keys
    && r.config.refs <= r.bridge.Keys
    && Held(c, Active).Keys <= r.bridge.Keys
  }

  /** The operator owns these objects: one pair of Secrets, two possible workload kinds. */
  ghost predicate Aggregator(c: Cluster) {
    DaemonSet !in c.mounts
  }

  /** Whatever the gate decides, the chosen assets suffice for the old configs and for the new one. */
  lemma ChosenSuffices(c: Cluster, r: Round)
    requires Safe(c) && Offered(c, r)
    ensures Suffices(c, Active, Chosen(c, r)) && r.config.refs <= Chosen(c, r).Keys
  {
    var data := Chosen(c, r);
    if Held(c, Active).Keys <= data.Keys {
      KeepingEverythingSuffices(c, Active, data);
    } else {
      assert WouldDropAKey(Held(c, Active), r.target) by {
        var k :| k in Held(c, Active).Keys && k !in data.Keys;
      }
      OpenGateMeansNothingRecent(c, ConfigUnchanged(c, r));
    }
  }

  function AfterAssets(c: Cluster, data: Data): Cluster {
    c.(assets := if data == map[] then c.assets - {Active} else c.assets[Active := data])
  }

  lemma AssetsPhase(c: Cluster, data: Data)
    ensures Suffices(c, Active, data) && (data == map[] ==> forall k :: k in c.mounts ==> !c.mounts[k]) ==>
              AllAllowed(c, AssetsWrites(data))
    ensures Execute(c, AssetsWrites(data)) == AfterAssets(c, data)
  {
  }

  function AfterWorkload(c: Cluster, persistence: bool, mounted: bool, obsolete: bool): Cluster {
    var mounts := c.mounts[Current(persistence) := mounted];
    c.(mounts := if obsolete then mounts - {Obsolete(persistence)} else mounts)
  }

  lemma WorkloadPhase(c: Cluster, persistence: bool, mounted: bool, obsolete: bool)
    ensures Allowed(c, PutWorkload(Current(persistence), mounted)) ==> AllAllowed(c, WorkloadWrites(persistence, mounted, obsolete))
    ensures Execute(c, WorkloadWrites(persistence, mounted, obsolete)) == AfterWorkload(c, persistence, mounted, obsolete)
  {
    var put, delete := PutWorkload(Current(persistence), mounted), DeleteWorkload(Obsolete(persistence));
    if obsolete {
      TwoWrites(c, put, delete);
      assert WorkloadWrites(persistence, mounted, obsolete) == [put, delete];
    } else {
      assert WorkloadWrites(persistence, mounted, obsolete) == [put];
    }
  }

  function AfterConfig(c: Cluster, publishing: bool, config: Config): Cluster {
    Apply(if publishing then Apply(c, Stamp) else c, PutConfig(Active, config))
  }

  /** The config's references are staged and mounted, and it is stamped unless it is already published. */
  ghost predicate Publishable(c: Cluster, publishing: bool, config: Config) {
    && Covered(c, Active, config)
    && (config.refs != {} ==> forall k :: k in c.mounts ==> c.mounts[k])
    && (!publishing ==> Active in c.configs && c.configs[Active] == config)
  }

  lemma ConfigPhase(c: Cluster, publishing: bool, config: Config)
    ensures Publishable(c, publishing, config) ==> AllAllowed(c, ConfigWrites(publishing, config))
    ensures Execute(c, ConfigWrites(publishing, config)) == AfterConfig(c, publishing, config)
  {
    if publishing {
      TwoWrites(c, Stamp, PutConfig(Active, config));
      assert ConfigWrites(publishing, config) == [Stamp, PutConfig(Active, config)];
    } else {
      assert ConfigWrites(publishing, config) == [PutConfig(Active, config)];
    }
  }

  /** Gaining order: after its workload phase every live workload mounts the assets. */
  lemma GainAllowed(c: Cluster, r: Round, data: Data)
    requires Safe(c) && Aggregator(c) && Suffices(c, Active, data) && r.config.refs <= data.Keys && data != map[]
    ensures var obsolete := ReadMountState(c).ObsoleteWorkloadExists(r.persistence);
            AllAllowed(c, GainWrites(r, data, obsolete, !ConfigUnchanged(c, r)))
  {
    var obsolete, publishing := ReadMountState(c).ObsoleteWorkloadExists(r.persistence), !ConfigUnchanged(c, r);
    AssetsPhase(c, data);
    var c1 := c.(assets := c.assets[Active := data]);
    WorkloadPhase(c1, r.persistence, true, obsolete);
    var c2 := AfterWorkload(c1, r.persistence, true, obsolete);
    OnlyCurrentLeft(c1, r.persistence, true);
    ConfigPhase(c2, publishing, r.config);
    Then(c1, WorkloadWrites(r.persistence, true, obsolete), c2, ConfigWrites(publishing, r.config),
         AfterConfig(c2, publishing, r.config));
    Then(c, AssetsWrites(data), c1, WorkloadWrites(r.persistence, true, obsolete) + ConfigWrites(publishing, r.config),
         AfterConfig(c2, publishing, r.config));
  }

  /** The workload phase leaves exactly the current kind, with the template of this round. */
  lemma OnlyCurrentLeft(c: Cluster, persistence: bool, mounted: bool)
    requires Aggregator(c)
    ensures AfterWorkload(c, persistence, mounted, ReadMountState(c).ObsoleteWorkloadExists(persistence)).mounts ==
            map[Current(persistence) := mounted]
  {
    var after := AfterWorkload(c, persistence, mounted, ReadMountState(c).ObsoleteWorkloadExists(persistence)).mounts;
    forall k ensures k in after <==> k == Current(persistence) {}
  }

  /** Losing order: the assets go only after every mount is gone. */
  lemma LoseAllowed(c: Cluster, r: Round)
    requires Safe(c) && Aggregator(c) && Suffices(c, Active, map[]) && r.config.refs == {}
    ensures var obsolete := ReadMountState(c).ObsoleteWorkloadExists(r.persistence);
            AllAllowed(c, LoseWrites(r, map[], obsolete, !ConfigUnchanged(c, r)))
  {
    var obsolete, publishing := ReadMountState(c).ObsoleteWorkloadExists(r.persistence), !ConfigUnchanged(c, r);
    var c1 := AfterConfig(c, publishing, r.config);
    var rest := WorkloadWrites(r.persistence, false, obsolete) + AssetsWrites(map[]);
    ConfigPhase(c, publishing, r.config);
    SufficesAfterConfig(c, publishing, r.config);
    ConfigFields(c, publishing, r.config);
    UnmountAndDrop(c1, r.persistence, obsolete);
    Then(c, ConfigWrites(publishing, r.config), c1, rest, Execute(c1, rest));
  }

  /** Behind a reference-free config the mounts go, and then the assets. */
  lemma UnmountAndDrop(c1: Cluster, persistence: bool, obsolete: bool)
    requires Aggregator(c1) && Suffices(c1, Active, map[]) && Active in c1.configs && c1.configs[Active].refs == {}
    requires obsolete == ReadMountState(c1).ObsoleteWorkloadExists(persistence)
    ensures AllAllowed(c1, WorkloadWrites(persistence, false, obsolete) + AssetsWrites(map[]))
  {
    var c2 := AfterWorkload(c1, persistence, false, obsolete);
    WorkloadPhase(c1, persistence, false, obsolete);
    OnlyCurrentLeft(c1, persistence, false);
    UnmountedThenGone(c1, WorkloadWrites(persistence, false, obsolete), c2);
  }

  lemma UnmountedThenGone(c1: Cluster, workload: seq<Write>, c2: Cluster)
    requires AllAllowed(c1, workload) && Execute(c1, workload) == c2
    requires Suffices(c2, Active, map[]) && forall k :: k in c2.mounts ==> !c2.mounts[k]
    ensures AllAllowed(c1, workload + AssetsWrites(map[]))
    ensures Execute(c1, workload + AssetsWrites(map[])) == Execute(c2, AssetsWrites(map[]))
  {
    AssetsPhase(c2, map[]);
    Then(c1, workload, c2, AssetsWrites(map[]), Execute(c2, AssetsWrites(map[])));
  }

  /** A reference-free config adds nothing the assets would have to hold. */
  lemma SufficesAfterConfig(c: Cluster, publishing: bool, config: Config)
    requires Suffices(c, Active, map[]) && config.refs == {}
    ensures Suffices(AfterConfig(c, publishing, config), Active, map[])
  {
    var after := AfterConfig(c, publishing, config);
    forall x | Recent(after, x) && x.variant == Active ensures x.config.refs == {} {
      if x in c.past {
        assert Recent(c, x);
      }
    }
  }

  /** Keeping order: the mounts stay what they were until the end. */
  lemma KeepAllowed(c: Cluster, r: Round, data: Data)
    requires Safe(c) && Aggregator(c) && Suffices(c, Active, data) && r.config.refs <= data.Keys
    requires if data == map[] then !ReadMountState(c).AnyMounted() else ReadMountState(c).AllMounted()
    ensures var obsolete := ReadMountState(c).ObsoleteWorkloadExists(r.persistence);
            AllAllowed(c, KeepWrites(r, data, obsolete, !ConfigUnchanged(c, r)))
  {
    var obsolete, publishing := ReadMountState(c).ObsoleteWorkloadExists(r.persistence), !ConfigUnchanged(c, r);
    var mounted := data != map[];
    var config, workload := ConfigWrites(publishing, r.config), WorkloadWrites(r.persistence, mounted, obsolete);
    MountsRead(c);
    AssetsPhase(c, data);
    var c1 := Execute(c, AssetsWrites(data));
    ConfigPhase(c1, publishing, r.config);
    var c2 := AfterConfig(c1, publishing, r.config);
    WorkloadPhase(c2, r.persistence, mounted, obsolete);
    var c3 := AfterWorkload(c2, r.persistence, mounted, obsolete);
    Then(c1, config, c2, workload, c3);
    Then(c, AssetsWrites(data), c1, config + workload, c3);
  }

  /** The two questions asked of the snapshot are questions about all live workloads. */
  lemma MountsRead(c: Cluster)
    requires Aggregator(c)
    ensures ReadMountState(c).AnyMounted() <==> exists k :: k in c.mounts && c.mounts[k]
    ensures ReadMountState(c).AllMounted() <==> c.mounts != map[] && forall k :: k in c.mounts ==> c.mounts[k]
  {
    forall k | k in c.mounts ensures k == Deployment || k == StatefulSet {}
    if c.mounts != map[] {
      var k :| k in c.mounts;
    }
    if ReadMountState(c).AnyMounted() {
      var k := if Deployment in c.mounts && c.mounts[Deployment] then Deployment else StatefulSet;
      assert k in c.mounts && c.mounts[k];
    }
  }

  /** Every write of a round is allowed at the moment it is issued. */
  lemma ProgramAllowed(c: Cluster, r: Round)
    requires Safe(c) && Aggregator(c) && Offered(c, r)
    ensures AllAllowed(c, Program(c, r))
  {
    var data := Chosen(c, r);
    ChosenSuffices(c, r);
    if data != map[] && !ReadMountState(c).AllMounted() {
      GainAllowed(c, r, data);
    } else if data == map[] && ReadMountState(c).AnyMounted() {
      LoseAllowed(c, r);
    } else {
      KeepAllowed(c, r, data);
    }
    var success := [MarkSuccess(!ConfigUnchanged(c, r))];
    var c1 := Execute(c, Ensured(c, r));
    Then(c, Ensured(c, r), c1, success, Execute(c1, success));
  }

  /** What can happen to an aggregator: time passes, or a round is attempted and cut off after some
      number of its writes. Persistence may differ from round to round. */
  datatype Event = Tick(seconds: nat) | Attempt(round: Round, writes: nat)

  function Step(c: Cluster, e: Event): Cluster {
    match e
    case Tick(seconds) => c.(now := c.now + seconds)
    case Attempt(r, n) => var ws := Program(c, r); Execute(c, if n <= |ws| then ws[..n] else ws)
  }

  function Run(c: Cluster, events: seq<Event>): Cluster {
    if events == [] then c else Step(Run(c, events[..|events| - 1]), events[|events| - 1])
  }

  /** Every attempted round was planned from the cluster it met. */
  ghost predicate Planned(c: Cluster, events: seq<Event>) {
    events != [] ==>
      && Planned(c, events[..|events| - 1])
      && (events[|events| - 1].Attempt? ==> Offered(Run(c, events[..|events| - 1]), events[|events| - 1].round))
  }

  lemma {:induction false} ExecuteKeepsKinds(c: Cluster, ws: seq<Write>)
    requires Aggregator(c) && forall w :: w in ws && w.PutWorkload? ==> w.kind != DaemonSet
    ensures Aggregator(Execute(c, ws))
    decreases |ws|
  {
    if ws != [] {
      assert ws[0] in ws && forall w :: w in ws[1..] ==> w in ws;
      ExecuteKeepsKinds(Apply(c, ws[0]), ws[1..]);
    }
  }

  lemma ProgramKinds(c: Cluster, r: Round)
    ensures forall w :: w in Program(c, r) && w.PutWorkload? ==> w.kind != DaemonSet
  {
    var data, publishing := Chosen(c, r), !ConfigUnchanged(c, r);
    var obsolete := ReadMountState(c).ObsoleteWorkloadExists(r.persistence);
    var workload := WorkloadWrites(r.persistence, data != map[], obsolete);
    assert forall w :: w in workload && w.PutWorkload? ==> w.kind != DaemonSet;
    forall w | w in Program(c, r) && w.PutWorkload? ensures w in workload {
      assert w !in AssetsWrites(data) && w !in ConfigWrites(publishing, r.config);
    }
  }

  /** Safety of every run: however rounds are cut off, however persistence is toggled and however long
      nothing happens, every reachable cluster is safe. */
  lemma {:induction false} EveryRunIsSafe(c: Cluster, events: seq<Event>)
    requires Safe(c) && Aggregator(c) && Planned(c, events)
    ensures Safe(Run(c, events)) && Aggregator(Run(c, events))
  {
    if events != [] {
      var front, e := events[..|events| - 1], events[|events| - 1];
      EveryRunIsSafe(c, front);
      var before := Run(c, front);
      match e
      case Tick(seconds) => WaitingIsSafe(before, seconds);
      case Attempt(r, n) =>
        var ws := Program(before, r);
        var m := if n <= |ws| then n else |ws|;
        assert ws[..|ws|] == ws;
        ProgramAllowed(before, r);
        CutOffIsSafe(before, ws, m);
        ProgramKinds(before, r);
        ExecuteKeepsKinds(before, ws[..m]);
    }
  }

  /** Prune safety in every run: the write a round issues next never takes away a key that the
      published config, or one replaced within the grace period, references. */
  lemma PruneIsSafe(c: Cluster, events: seq<Event>, r: Round, n: nat, v: Variant, key: string)
    requires Safe(c) && Aggregator(c) && Planned(c, events) && Offered(Run(c, events), r)
    requires n < |Program(Run(c, events), r)|
    requires Drops(Execute(Run(c, events), Program(Run(c, events), r)[..n]), Program(Run(c, events), r)[n], v, key)
    ensures var s := Execute(Run(c, events), Program(Run(c, events), r)[..n]);
            && (v in s.configs ==> key !in s.configs[v].refs)
            && (forall x :: x in s.past && s.now - x.replacedAt < 90 && x.variant == v ==> key !in x.config.refs)
  {
    var before := Run(c, events);
    EveryRunIsSafe(c, events);
    ProgramAllowed(before, r);
    CutOffIsSafe(before, Program(before, r), n);
    DropsAreUnreferenced(Execute(before, Program(before, r)[..n]), Program(before, r)[n], v, key);
  }

  /** A fresh aggregator, or one upgraded from a version without secrets and without a publish mark. */
  lemma StartIsSafe(c: Cluster)
    requires c.mark.None? && forall x :: x in c.past ==> x.replacedAt <= c.now && x.config.refs == {}
    requires forall v :: v in c.configs ==> c.configs[v].refs == {}
    requires forall k :: k in c.mounts ==> !c.mounts[k]
    ensures Safe(c)
  {
  }

  /** The three phases' effects, whichever comes first. */
  function Finished(c: Cluster, r: Round, data: Data, publishing: bool): Cluster {
    var configured := AfterConfig(c, publishing, r.config);
    AfterAssets(configured, data).(mounts := map[Current(r.persistence) := data != map[]])
  }

  /** Publishing a config neither looks at the assets and the workloads nor touches them. */
  lemma ConfigIndependent(c: Cluster, publishing: bool, config: Config, assets: map<Variant, Data>, mounts: map<Kind, bool>)
    ensures AfterConfig(c.(assets := assets, mounts := mounts), publishing, config) ==
            AfterConfig(c, publishing, config).(assets := assets, mounts := mounts)
    ensures AfterConfig(c, publishing, config).assets == c.assets && AfterConfig(c, publishing, config).mounts == c.mounts
  {
  }

  lemma ConfigFields(c: Cluster, publishing: bool, config: Config)
    ensures var after := AfterConfig(c, publishing, config);
            && after.configs == c.configs[Active := config] && after.now == c.now
            && after.mark == (if publishing then Some(c.now) else c.mark)
            && (Active in c.configs && c.configs[Active] == config ==> after.past == c.past)
  {
  }

  /** The fields a complete round leaves behind. */
  lemma CompleteFields(c: Cluster, r: Round)
    requires Aggregator(c)
    ensures var after, data, publishing := Execute(c, Program(c, r)), Chosen(c, r), !ConfigUnchanged(c, r);
            && after.configs == c.configs[Active := r.config] && after.now == c.now
            && after.mark == (if publishing || c.mark.None? then Some(c.now) else c.mark)
            && (!publishing ==> after.past == c.past)
            && after.assets == AfterAssets(c, data).assets
            && after.mounts == map[Current(r.persistence) := data != map[]]
  {
    CompleteRound(c, r);
    ConfigFields(c, !ConfigUnchanged(c, r), r.config);
    ConfigIndependent(c, !ConfigUnchanged(c, r), r.config, c.assets, c.mounts);
  }

  lemma Rearranged(c: Cluster, r: Round, data: Data, publishing: bool)
    requires Aggregator(c)
    ensures var mounted, obsolete := data != map[], ReadMountState(c).ObsoleteWorkloadExists(r.persistence);
            var done := Finished(c, r, data, publishing);
            && AfterConfig(AfterWorkload(AfterAssets(c, data), r.persistence, mounted, obsolete), publishing, r.config) == done
            && AfterAssets(AfterWorkload(AfterConfig(c, publishing, r.config), r.persistence, mounted, obsolete), data) == done
            && AfterWorkload(AfterConfig(AfterAssets(c, data), publishing, r.config), r.persistence, mounted, obsolete) == done
  {
    var assets, mounts := AfterAssets(c, data).assets, map[Current(r.persistence) := data != map[]];
    OnlyCurrentLeft(c, r.persistence, data != map[]);
    ConfigIndependent(c, publishing, r.config, assets, mounts);
    ConfigIndependent(c, publishing, r.config, assets, c.mounts);
  }

  lemma GainEffect(c: Cluster, r: Round, data: Data, publishing: bool, obsolete: bool)
    ensures Execute(c, GainWrites(r, data, obsolete, publishing)) ==
            AfterConfig(AfterWorkload(AfterAssets(c, data), r.persistence, data != map[], obsolete), publishing, r.config)
  {
    ExecuteThree(c, AssetsWrites(data), WorkloadWrites(r.persistence, data != map[], obsolete), ConfigWrites(publishing, r.config));
    AssetsPhase(c, data);
    WorkloadPhase(AfterAssets(c, data), r.persistence, data != map[], obsolete);
    ConfigPhase(AfterWorkload(AfterAssets(c, data), r.persistence, data != map[], obsolete), publishing, r.config);
  }

  lemma LoseEffect(c: Cluster, r: Round, data: Data, publishing: bool, obsolete: bool)
    ensures Execute(c, LoseWrites(r, data, obsolete, publishing)) ==
            AfterAssets(AfterWorkload(AfterConfig(c, publishing, r.config), r.persistence, data != map[], obsolete), data)
  {
    ExecuteThree(c, ConfigWrites(publishing, r.config), WorkloadWrites(r.persistence, data != map[], obsolete), AssetsWrites(data));
    ConfigPhase(c, publishing, r.config);
    WorkloadPhase(AfterConfig(c, publishing, r.config), r.persistence, data != map[], obsolete);
    AssetsPhase(AfterWorkload(AfterConfig(c, publishing, r.config), r.persistence, data != map[], obsolete), data);
  }

  lemma KeepEffect(c: Cluster, r: Round, data: Data, publishing: bool, obsolete: bool)
    ensures Execute(c, KeepWrites(r, data, obsolete, publishing)) ==
            AfterWorkload(AfterConfig(AfterAssets(c, data), publishing, r.config), r.persistence, data != map[], obsolete)
  {
    ExecuteThree(c, AssetsWrites(data), ConfigWrites(publishing, r.config), WorkloadWrites(r.persistence, data != map[], obsolete));
    AssetsPhase(c, data);
    ConfigPhase(AfterAssets(c, data), publishing, r.config);
    WorkloadPhase(AfterConfig(AfterAssets(c, data), publishing, r.config), r.persistence, data != map[], obsolete);
  }

  /** Where a round that no write refuses ends up: the three orders differ only on the way. */
  lemma CompleteRound(c: Cluster, r: Round)
    requires Aggregator(c)
    ensures Execute(c, Program(c, r)) ==
            Apply(Finished(c, r, Chosen(c, r), !ConfigUnchanged(c, r)), MarkSuccess(!ConfigUnchanged(c, r)))
  {
    var data, publishing := Chosen(c, r), !ConfigUnchanged(c, r);
    var done := Finished(c, r, data, publishing);
    var obsolete := ReadMountState(c).ObsoleteWorkloadExists(r.persistence);
    Rearranged(c, r, data, publishing);
    GainEffect(c, r, data, publishing, obsolete);
    LoseEffect(c, r, data, publishing, obsolete);
    KeepEffect(c, r, data, publishing, obsolete);
    assert Execute(c, Ensured(c, r)) == done;
    ExecuteAppend(c, Ensured(c, r), [MarkSuccess(publishing)]);
    assert Execute(done, [MarkSuccess(publishing)]) == Execute(Apply(done, MarkSuccess(publishing)), []);
  }

  /** What a complete round leaves in the assets: the bridge when a key is left over and the config has not
      been the published one for the grace period, the exact target otherwise. */
  lemma RoundLeavesExactly(c: Cluster, r: Round)
    requires Aggregator(c)
    ensures var after := Execute(c, Program(c, r));
            var leftOver := Active in c.assets && exists k :: k in c.assets[Active] && k !in r.target;
            var settled := Active in c.configs && c.configs[Active] == r.config && c.mark.Some? && c.now - c.mark.value >= 90;
            Held(after, Active) == if leftOver && !settled then r.bridge else r.target
  {
    CompleteFields(c, r);
    if Active in c.assets && exists k :: k in c.assets[Active] && k !in r.target {
      var k :| k in c.assets[Active] && k !in r.target;
      assert k in Held(c, Active);
    }
  }

  /** The round asks for the same thing, whatever bridge it was offered. */
  predicate SameWish(r: Round, s: Round) {
    r.persistence == s.persistence && r.config == s.config && r.target == s.target
  }

  /** Two complete rounds a grace period apart reach the exact target: leftover keys and the obsolete
      workload are gone, and the mount is there exactly when it is needed. */
  lemma TwoRoundsConverge(c: Cluster, r: Round, seconds: nat, s: Round)
    requires Safe(c) && Aggregator(c) && SameWish(r, s) && seconds >= 90
    ensures var waited := Execute(c, Program(c, r)).(now := c.now + seconds);
            var after := Execute(waited, Program(waited, s));
            && Active in after.configs && after.configs[Active] == r.config
            && Held(after, Active) == r.target
            && after.mounts == map[Current(r.persistence) := r.target != map[]]
            && after.mark.Some? && (Active in after.assets ==> r.target != map[])
  {
    FirstRoundPublishes(c, r);
    var waited := Execute(c, Program(c, r)).(now := c.now + seconds);
    assert ConfigUnchanged(waited, s);
    assert Chosen(waited, s) == s.target;
    LaterRoundReaches(waited, s);
  }

  lemma FirstRoundPublishes(c: Cluster, r: Round)
    requires Aggregator(c) && MarkCoversChanges(c)
    ensures var after := Execute(c, Program(c, r));
            Aggregator(after) && ConfigUnchanged(after, r) && after.mark.Some? && after.mark.value <= c.now
  {
    CompleteFields(c, r);
  }

  lemma LaterRoundReaches(c: Cluster, s: Round)
    requires Aggregator(c) && ConfigUnchanged(c, s) && c.mark.Some? && Chosen(c, s) == s.target
    ensures var after := Execute(c, Program(c, s));
            && after.configs == c.configs && after.mark == c.mark && after.now == c.now && after.past == c.past
            && Held(after, Active) == s.target && (Active in after.assets ==> s.target != map[])
            && (forall v :: v != Active ==> (v in after.assets <==> v in c.assets))
            && (forall v :: v != Active && v in c.assets ==> after.assets[v] == c.assets[v])
            && after.mounts == map[Current(s.persistence) := s.target != map[]]
  {
    CompleteFields(c, s);
    assert c.configs[Active := s.config] == c.configs;
  }

  /** Once converged, further rounds for the same wish change nothing at all. */
  lemma ConvergedIsStable(c: Cluster, s: Round)
    requires Aggregator(c) && ConfigUnchanged(c, s) && c.mark.Some?
    requires Held(c, Active) == s.target && (Active in c.assets ==> s.target != map[])
    requires c.mounts == map[Current(s.persistence) := s.target != map[]]
    ensures Execute(c, Program(c, s)) == c
  {
    LaterRoundReaches(c, s);
    var after := Execute(c, Program(c, s));
    forall v ensures v in after.assets <==> v in c.assets {
      assert v == Active || v == Standby;
    }
    assert after.assets == c.assets;
  }
}
