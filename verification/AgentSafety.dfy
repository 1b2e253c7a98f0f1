/** Safety of every run of the agent's publish protocol, with and without a standby variant. */
module AgentSafety {
  import opened Outcomes
  import opened Totals
  import opened Publishing
  import opened AgentPublish

  /** What the planning of a round guarantees for each variant. Both configs come from the same
      pipelines and so reference the same keys. */
  ghost predicate Offered(c: Cluster, migration: bool, r: Round) {
    && r.config.refs <= r.target.Keys
    && r.config.refs <= r.bridge.Keys && Held(c, Active).Keys <= r.bridge.Keys
    && (migration ==> r.config.refs <= r.standbyBridge.Keys && Held(c, Standby).Keys <= r.standbyBridge.Keys)
    && (r.standby.Some? ==> r.standby.value.refs == r.config.refs)
  }

  /** The operator owns one DaemonSet and, only under migration, a standby pair. */
  ghost predicate Agent(c: Cluster, migration: bool) {
    && (forall k :: k in c.mounts ==> k == DaemonSet)
    && (!migration ==> Standby !in c.configs && forall x :: x in c.past ==> x.variant == Active)
  }

  lemma NotDroppedKept(existing: Data, target: Data)
    requires !WouldDropAKey(existing, target)
    ensures existing.Keys <= target.Keys
  {
    forall k | k in existing ensures k in target {}
  }

  /** Whatever the gate decides, each variant's chosen assets suffice for its old and new config. */
  lemma ChosenSuffices(c: Cluster, migration: bool, r: Round)
    requires Safe(c) && Offered(c, migration, r)
    ensures Suffices(c, Active, Chosen(c, migration, r)) && r.config.refs <= Chosen(c, migration, r).Keys
    ensures migration && r.standby.Some? ==>
              Suffices(c, Standby, ChosenStandby(c, migration, r)) && r.config.refs <= ChosenStandby(c, migration, r).Keys
  {
    if !Prunes(c, migration, r) {
      KeepingEverythingSuffices(c, Active, r.bridge);
      if migration { KeepingEverythingSuffices(c, Standby, r.standbyBridge); }
    } else if !WouldDrop(c, migration, r) {
      NotDroppedKept(Held(c, Active), r.target);
      KeepingEverythingSuffices(c, Active, r.target);
      if migration {
        NotDroppedKept(Held(c, Standby), r.target);
        KeepingEverythingSuffices(c, Standby, r.target);
      }
    } else {
      OpenGateMeansNothingRecent(c, AllConfigsUnchanged(c, migration, r));
    }
  }

  function WithAssets(c: Cluster, v: Variant, data: Data): Cluster {
    c.(assets := if data == map[] then c.assets - {v} else c.assets[v := data])
  }

  lemma VariantPhase(c: Cluster, v: Variant, data: Data)
    ensures Execute(c, VariantAssets(v, data)) == WithAssets(c, v, data)
    ensures Suffices(c, v, data) && (v == Active && data == map[] ==> forall k :: k in c.mounts ==> !c.mounts[k]) ==>
              AllAllowed(c, VariantAssets(v, data))
  {
  }

  function AfterAssets(c: Cluster, migration: bool, r: Round, data: Data, standbyData: Data): Cluster {
    var active := WithAssets(c, Active, data);
    if !migration then WithAssets(active, Standby, map[])
    else if r.standby.None? then active
    else WithAssets(active, Standby, standbyData)
  }

  /** Staging one variant's assets leaves what the other variant needs alone. */
  lemma AssetsPhase(c: Cluster, migration: bool, r: Round, data: Data, standbyData: Data)
    requires Agent(c, migration) && Suffices(c, Active, data)
    requires data == map[] ==> forall k :: k in c.mounts ==> !c.mounts[k]
    requires migration && r.standby.Some? ==> Suffices(c, Standby, standbyData)
    ensures AllAllowed(c, AssetsWrites(migration, r, data, standbyData))
    ensures Execute(c, AssetsWrites(migration, r, data, standbyData)) == AfterAssets(c, migration, r, data, standbyData)
  {
    var c1, rest := WithAssets(c, Active, data), StandbyAssets(migration, r, standbyData);
    VariantPhase(c, Active, data);
    if !migration {
      VariantPhase(c1, Standby, map[]);
    } else {
      VariantPhase(c1, Standby, standbyData);
    }
    Then(c, VariantAssets(Active, data), c1, rest, AfterAssets(c, migration, r, data, standbyData));
  }

  /** Each config's references are staged, the active one's also mounted, and changes are stamped. */
  ghost predicate Publishable(c: Cluster, migration: bool, r: Round, publishing: bool) {
    && Covered(c, Active, r.config)
    && (r.config.refs != {} ==> forall k :: k in c.mounts ==> c.mounts[k])
    && (migration && r.standby.Some? ==> Covered(c, Standby, r.standby.value))
    && (!publishing ==> AllConfigsUnchanged(c, migration, r))
  }

  lemma ConfigPhase(c: Cluster, migration: bool, r: Round, publishing: bool)
    requires Publishable(c, migration, r, publishing)
    ensures AllAllowed(c, ConfigWrites(migration, r, publishing))
    ensures OnlyConfigsChanged(c, Execute(c, ConfigWrites(migration, r, publishing)), migration, r)
  {
    var c1 := if publishing then Apply(c, Stamp) else c;
    var configs, stamp := [PutConfig(Active, r.config)] + StandbyConfig(migration, r), if publishing then [Stamp] else [];
    if publishing {
      assert [Stamp][1..] == [] && Execute(c, [Stamp]) == Execute(Apply(c, Stamp), []);
    }
    ConfigsPhase(c1, migration, r);
    Then(c, stamp, c1, configs, Execute(c1, configs));
  }

  /** The config writes touch neither assets nor workloads. */
  ghost predicate OnlyConfigsChanged(c: Cluster, after: Cluster, migration: bool, r: Round) {
    && after.assets == c.assets && after.mounts == c.mounts && after.now == c.now
    && Active in after.configs && after.configs[Active] == r.config
    && (Standby in after.configs ==> Standby in c.configs || (migration && r.standby.Some?))
  }

  lemma ConfigsPhase(c: Cluster, migration: bool, r: Round)
    requires Publishable(c, migration, r, true) && (c.mark == Some(c.now) || AllConfigsUnchanged(c, migration, r))
    ensures AllAllowed(c, [PutConfig(Active, r.config)] + StandbyConfig(migration, r))
    ensures OnlyConfigsChanged(c, Execute(c, [PutConfig(Active, r.config)] + StandbyConfig(migration, r)), migration, r)
  {
    var first := PutConfig(Active, r.config);
    if migration && r.standby.Some? {
      BothConfigs(c, r.config, r.standby.value);
      TwoWrites(c, first, PutConfig(Standby, r.standby.value));
      assert [first] + StandbyConfig(migration, r) == [first, PutConfig(Standby, r.standby.value)];
    } else {
      assert [first] + StandbyConfig(migration, r) == [first];
      OneWrite(c, first);
    }
  }

  lemma BothConfigs(c: Cluster, active: Config, standby: Config)
    requires Allowed(c, PutConfig(Active, active)) && Covered(c, Standby, standby)
    requires c.mark == Some(c.now) || Published(c, Standby, standby)
    ensures Allowed(Apply(c, PutConfig(Active, active)), PutConfig(Standby, standby))
  {
  }

  lemma WorkloadPhase(c: Cluster, mounted: bool)
    requires if mounted then Active in c.assets else Active in c.configs ==> c.configs[Active].refs == {}
    ensures AllAllowed(c, WorkloadWrites(mounted))
    ensures Execute(c, WorkloadWrites(mounted)) == c.(mounts := c.mounts[DaemonSet := mounted])
  {
  }

  lemma GainAllowed(c: Cluster, migration: bool, r: Round, data: Data, standbyData: Data)
    requires Agent(c, migration) && Suffices(c, Active, data) && r.config.refs <= data.Keys && data != map[]
    requires migration && r.standby.Some? ==>
               Suffices(c, Standby, standbyData) && r.standby.value.refs <= standbyData.Keys
    ensures var publishing := !AllConfigsUnchanged(c, migration, r);
            AllAllowed(c, AssetsWrites(migration, r, data, standbyData) + (WorkloadWrites(true) + ConfigWrites(migration, r, publishing)))
  {
    var publishing := !AllConfigsUnchanged(c, migration, r);
    var assets, config := AssetsWrites(migration, r, data, standbyData), ConfigWrites(migration, r, publishing);
    AssetsPhase(c, migration, r, data, standbyData);
    var c1 := AfterAssets(c, migration, r, data, standbyData);
    WorkloadPhase(c1, true);
    var c2 := c1.(mounts := c1.mounts[DaemonSet := true]);
    ConfigPhase(c2, migration, r, publishing);
    Then(c1, WorkloadWrites(true), c2, config, Execute(c2, config));
    Then(c, assets, c1, WorkloadWrites(true) + config, Execute(c2, config));
  }

  lemma KeepAllowed(c: Cluster, migration: bool, r: Round, data: Data, standbyData: Data)
    requires Agent(c, migration) && Suffices(c, Active, data) && r.config.refs <= data.Keys
    requires HasMount(c) <==> data != map[]
    requires migration && r.standby.Some? ==>
               Suffices(c, Standby, standbyData) && r.standby.value.refs <= standbyData.Keys
    ensures var publishing := !AllConfigsUnchanged(c, migration, r);
            AllAllowed(c, AssetsWrites(migration, r, data, standbyData) + (ConfigWrites(migration, r, publishing) + WorkloadWrites(data != map[])))
  {
    var publishing := !AllConfigsUnchanged(c, migration, r);
    var assets, config := AssetsWrites(migration, r, data, standbyData), ConfigWrites(migration, r, publishing);
    AssetsPhase(c, migration, r, data, standbyData);
    var c1 := AfterAssets(c, migration, r, data, standbyData);
    ConfigPhase(c1, migration, r, publishing);
    var c2 := Execute(c1, config);
    WorkloadPhase(c2, data != map[]);
    Then(c1, config, c2, WorkloadWrites(data != map[]), Execute(c2, WorkloadWrites(data != map[])));
    Then(c, assets, c1, config + WorkloadWrites(data != map[]), Execute(c2, WorkloadWrites(data != map[])));
  }

  /** Publishing reference-free configs adds nothing a variant would have to hold. */
  lemma {:induction false} SufficesAfter(c: Cluster, ws: seq<Write>, v: Variant, data: Data)
    requires Suffices(c, v, data)
    requires forall w :: w in ws ==> w == Stamp || (w.PutConfig? && w.config.refs == {})
    ensures Suffices(Execute(c, ws), v, data)
    decreases |ws|
  {
    if ws != [] {
      assert ws[0] in ws && forall w :: w in ws[1..] ==> w in ws;
      SufficesStep(c, ws[0], v, data);
      SufficesAfter(Apply(c, ws[0]), ws[1..], v, data);
    }
  }

  lemma SufficesStep(c: Cluster, w: Write, v: Variant, data: Data)
    requires Suffices(c, v, data) && (w == Stamp || (w.PutConfig? && w.config.refs == {}))
    ensures Suffices(Apply(c, w), v, data)
  {
    forall x | Recent(Apply(c, w), x) && x.variant == v ensures x.config.refs <= data.Keys {
      assert x in c.past ==> Recent(c, x);
    }
  }

  lemma LoseAllowed(c: Cluster, migration: bool, r: Round, standbyData: Data)
    requires Agent(c, migration) && Suffices(c, Active, map[]) && r.config.refs == {}
    requires migration && r.standby.Some? ==> Suffices(c, Standby, standbyData) && r.standby.value.refs == {}
    ensures var publishing := !AllConfigsUnchanged(c, migration, r);
            AllAllowed(c, ConfigWrites(migration, r, publishing) + (WorkloadWrites(false) + AssetsWrites(migration, r, map[], standbyData)))
  {
    var publishing := !AllConfigsUnchanged(c, migration, r);
    var assets, config := AssetsWrites(migration, r, map[], standbyData), ConfigWrites(migration, r, publishing);
    ConfigPhase(c, migration, r, publishing);
    var c1 := Execute(c, config);
    WorkloadPhase(c1, false);
    var c2 := c1.(mounts := c1.mounts[DaemonSet := false]);
    ReferenceFree(migration, r, publishing);
    SufficesAfter(c, config, Active, map[]);
    if migration && r.standby.Some? { SufficesAfter(c, config, Standby, standbyData); }
    ConfigKeepsAgent(c, config, migration);
    AssetsPhase(c2, migration, r, map[], standbyData);
    Then(c1, WorkloadWrites(false), c2, assets, Execute(c2, assets));
    Then(c, config, c1, WorkloadWrites(false) + assets, Execute(c2, assets));
  }

  lemma ReferenceFree(migration: bool, r: Round, publishing: bool)
    requires r.config.refs == {} && (migration && r.standby.Some? ==> r.standby.value.refs == {})
    ensures forall w :: w in ConfigWrites(migration, r, publishing) ==> w == Stamp || (w.PutConfig? && w.config.refs == {})
    ensures !migration ==> forall w :: w in ConfigWrites(migration, r, publishing) && w.PutConfig? ==> w.variant == Active
  {
  }

  lemma {:induction false} ConfigKeepsAgent(c: Cluster, ws: seq<Write>, migration: bool)
    requires Agent(c, migration)
    requires forall w :: w in ws && w.PutWorkload? ==> w.kind == DaemonSet
    requires !migration ==> forall w :: w in ws && w.PutConfig? ==> w.variant == Active
    ensures Agent(Execute(c, ws), migration)
    decreases |ws|
  {
    if ws != [] {
      assert ws[0] in ws && forall w :: w in ws[1..] ==> w in ws;
      ConfigKeepsAgent(Apply(c, ws[0]), ws[1..], migration);
    }
  }

  /** Every write of a round is allowed at the moment it is issued. */
  lemma ProgramAllowed(c: Cluster, migration: bool, r: Round)
    requires Safe(c) && Agent(c, migration) && Offered(c, migration, r)
    ensures AllAllowed(c, Program(c, migration, r))
  {
    var data, standbyData := Chosen(c, migration, r), ChosenStandby(c, migration, r);
    var publishing := !AllConfigsUnchanged(c, migration, r);
    ChosenSuffices(c, migration, r);
    var ensured := Ordered(HasMount(c), data != map[], AssetsWrites(migration, r, data, standbyData),
                           ConfigWrites(migration, r, publishing), WorkloadWrites(data != map[]));
    if !HasMount(c) && data != map[] {
      GainAllowed(c, migration, r, data, standbyData);
    } else if HasMount(c) && data == map[] {
      LoseAllowed(c, migration, r, standbyData);
    } else {
      KeepAllowed(c, migration, r, data, standbyData);
    }
    var c1 := Execute(c, ensured);
    Then(c, ensured, c1, [MarkSuccess(publishing)], Execute(c1, [MarkSuccess(publishing)]));
  }

  datatype Event = Tick(seconds: nat) | Attempt(round: Round, writes: nat)

  function Step(c: Cluster, migration: bool, e: Event): Cluster {
    match e
    case Tick(seconds) => c.(now := c.now + seconds)
    case Attempt(r, n) => var ws := Program(c, migration, r); Execute(c, if n <= |ws| then ws[..n] else ws)
  }

  function Run(c: Cluster, migration: bool, events: seq<Event>): Cluster {
    if events == [] then c else Step(Run(c, migration, events[..|events| - 1]), migration, events[|events| - 1])
  }

  ghost predicate Planned(c: Cluster, migration: bool, events: seq<Event>) {
    events != [] ==>
      && Planned(c, migration, events[..|events| - 1])
      && (events[|events| - 1].Attempt? ==>
            Offered(Run(c, migration, events[..|events| - 1]), migration, events[|events| - 1].round))
  }

  lemma ProgramShape(c: Cluster, migration: bool, r: Round, n: nat)
    requires n <= |Program(c, migration, r)|
    ensures forall w :: w in Program(c, migration, r)[..n] && w.PutWorkload? ==> w.kind == DaemonSet
    ensures !migration ==> forall w :: w in Program(c, migration, r)[..n] && w.PutConfig? ==> w.variant == Active
  {
    assert forall w :: w in Program(c, migration, r)[..n] ==> w in Program(c, migration, r);
  }

  /** Safety of every run of the agent, for both variants at once: whatever is cut off and however long
      nothing happens, every config a pod may be running resolves against its own assets. */
  lemma {:induction false} EveryRunIsSafe(c: Cluster, migration: bool, events: seq<Event>)
    requires Safe(c) && Agent(c, migration) && Planned(c, migration, events)
    ensures Safe(Run(c, migration, events)) && Agent(Run(c, migration, events), migration)
  {
    if events != [] {
      var front, e := events[..|events| - 1], events[|events| - 1];
      EveryRunIsSafe(c, migration, front);
      var before := Run(c, migration, front);
      match e
      case Tick(seconds) => WaitingIsSafe(before, seconds);
      case Attempt(r, n) =>
        var ws := Program(before, migration, r);
        var m := if n <= |ws| then n else |ws|;
        assert ws[..|ws|] == ws;
        ProgramAllowed(before, migration, r);
        CutOffIsSafe(before, ws, m);
        ProgramShape(before, migration, r, m);
        ConfigKeepsAgent(before, ws[..m], migration);
    }
  }

  /** Prune safety in every run of the agent, for either variant. */
  lemma PruneIsSafe(c: Cluster, migration: bool, events: seq<Event>, r: Round, n: nat, v: Variant, key: string)
    requires Safe(c) && Agent(c, migration) && Planned(c, migration, events) && Offered(Run(c, migration, events), migration, r)
    requires n < |Program(Run(c, migration, events), migration, r)|
    requires var ws := Program(Run(c, migration, events), migration, r);
             Drops(Execute(Run(c, migration, events), ws[..n]), ws[n], v, key)
    ensures var s := Execute(Run(c, migration, events), Program(Run(c, migration, events), migration, r)[..n]);
            && (v in s.configs ==> key !in s.configs[v].refs)
            && (forall x :: x in s.past && s.now - x.replacedAt < 90 && x.variant == v ==> key !in x.config.refs)
  {
    var before := Run(c, migration, events);
    EveryRunIsSafe(c, migration, events);
    ProgramAllowed(before, migration, r);
    CutOffIsSafe(before, Program(before, migration, r), n);
    DropsAreUnreferenced(Execute(before, Program(before, migration, r)[..n]), Program(before, migration, r)[n], v, key);
  }

  lemma {:induction false} LastConfigStays(c: Cluster, ws: seq<Write>, config: Config)
    requires forall w :: w in ws && w.PutConfig? && w.variant == Active ==> w.config == config
    requires PutConfig(Active, config) in ws || Published(c, Active, config)
    ensures Published(Execute(c, ws), Active, config)
    decreases |ws|
  {
    if ws != [] {
      assert ws[0] in ws && ws == [ws[0]] + ws[1..];
      LastConfigStays(Apply(c, ws[0]), ws[1..], config);
    }
  }

  lemma {:induction false} LastAssetsStay(c: Cluster, ws: seq<Write>, data: Data)
    requires forall w :: w in ws && SetsActive(w) ==> w in VariantAssets(Active, data)
    requires VariantAssets(Active, data)[0] in ws || Held(c, Active) == data
    ensures Held(Execute(c, ws), Active) == data
    decreases |ws|
  {
    if ws != [] {
      assert ws[0] in ws && ws == [ws[0]] + ws[1..];
      LastAssetsStay(Apply(c, ws[0]), ws[1..], data);
    }
  }

  predicate SetsActive(w: Write) {
    (w.PutAssets? && w.variant == Active) || (w.DropAssets? && w.variant == Active)
  }

  /** A complete round whose chosen assets lack a reference of its config leaves an unsafe cluster: the
      condition on what a round is offered cannot be dropped. */
  lemma UncoveredRoundBreaks(c: Cluster, migration: bool, r: Round)
    requires !(r.config.refs <= Chosen(c, migration, r).Keys)
    ensures !PodsResolve(Execute(c, Program(c, migration, r)))
  {
    var data, standbyData, ws := Chosen(c, migration, r), ChosenStandby(c, migration, r), Program(c, migration, r);
    var publishing := !AllConfigsUnchanged(c, migration, r);
    var assets, config := AssetsWrites(migration, r, data, standbyData), ConfigWrites(migration, r, publishing);
    assert VariantAssets(Active, data)[0] in assets && PutConfig(Active, r.config) in config;
    forall w ensures w in ws <==> w in assets || w in config || w in WorkloadWrites(data != map[]) || w == MarkSuccess(publishing) {}
    LastConfigStays(c, ws, r.config);
    LastAssetsStay(c, ws, data);
    assert !Covered(Execute(c, ws), Active, r.config);
  }

  /** A changed config whose bridge lacks a reference, while the exact target would drop a held key. */
  lemma UncoveredBridgeBreaks(c: Cluster, migration: bool, r: Round, missing: string, held: string)
    requires !Published(c, Active, r.config) && missing in r.config.refs && missing !in r.bridge
    requires held in Held(c, Active) && held !in r.target
    ensures !PodsResolve(Execute(c, Program(c, migration, r)))
  {
    assert WouldDrop(c, migration, r) && !Prunes(c, migration, r);
    UncoveredRoundBreaks(c, migration, r);
  }
}
