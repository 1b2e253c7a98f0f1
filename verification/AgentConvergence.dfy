/** Where the agent's rounds lead: complete rounds for one wish reach the exact target and stay there. */
module AgentConvergence {
  import opened Outcomes
  import opened Totals
  import opened Publishing
  import opened AgentPublish
  import opened AgentSafety

  function AfterConfigs(c: Cluster, migration: bool, r: Round, publishing: bool): Cluster {
    var stamped := if publishing then Apply(c, Stamp) else c;
    var active := Apply(stamped, PutConfig(Active, r.config));
    if migration && r.standby.Some? then Apply(active, PutConfig(Standby, r.standby.value)) else active
  }

  lemma ConfigEffect(c: Cluster, migration: bool, r: Round, publishing: bool)
    ensures Execute(c, ConfigWrites(migration, r, publishing)) == AfterConfigs(c, migration, r, publishing)
  {
    var stamp, configs := if publishing then [Stamp] else [], [PutConfig(Active, r.config)] + StandbyConfig(migration, r);
    var stamped := if publishing then Apply(c, Stamp) else c;
    if publishing {
      OneWrite(c, Stamp);
    }
    ExecuteAppend(c, stamp, configs);
    if migration && r.standby.Some? {
      TwoWrites(stamped, PutConfig(Active, r.config), PutConfig(Standby, r.standby.value));
      assert configs == [PutConfig(Active, r.config), PutConfig(Standby, r.standby.value)];
    } else {
      OneWrite(stamped, PutConfig(Active, r.config));
      assert configs == [PutConfig(Active, r.config)];
    }
  }

  lemma AssetsEffect(c: Cluster, migration: bool, r: Round, data: Data, standbyData: Data)
    ensures Execute(c, AssetsWrites(migration, r, data, standbyData)) == AfterAssets(c, migration, r, data, standbyData)
  {
    var active := WithAssets(c, Active, data);
    ExecuteAppend(c, VariantAssets(Active, data), StandbyAssets(migration, r, standbyData));
    VariantPhase(c, Active, data);
    VariantPhase(active, Standby, standbyData);
    VariantPhase(active, Standby, map[]);
  }

  function AfterWorkload(c: Cluster, mounted: bool): Cluster {
    c.(mounts := c.mounts[DaemonSet := mounted])
  }

  lemma WorkloadEffect(c: Cluster, mounted: bool)
    ensures Execute(c, WorkloadWrites(mounted)) == AfterWorkload(c, mounted)
  {
    OneWrite(c, PutWorkload(DaemonSet, mounted));
  }

  /** The three phases' effects, whichever comes first. */
  function Finished(c: Cluster, migration: bool, r: Round, data: Data, standbyData: Data, publishing: bool): Cluster {
    AfterConfigs(c, migration, r, publishing).(
      assets := AfterAssets(c, migration, r, data, standbyData).assets,
      mounts := c.mounts[DaemonSet := data != map[]])
  }

  /** A config write neither looks at the assets and the workload nor touches them. */
  lemma WriteIndependent(c: Cluster, w: Write, assets: map<Variant, Data>, mounts: map<Kind, bool>)
    requires w == Stamp || w.PutConfig?
    ensures Apply(c.(assets := assets, mounts := mounts), w) == Apply(c, w).(assets := assets, mounts := mounts)
    ensures Apply(c, w).assets == c.assets && Apply(c, w).mounts == c.mounts
  {
  }

  lemma ConfigsIndependent(c: Cluster, migration: bool, r: Round, publishing: bool, assets: map<Variant, Data>, mounts: map<Kind, bool>)
    ensures AfterConfigs(c.(assets := assets, mounts := mounts), migration, r, publishing) ==
            AfterConfigs(c, migration, r, publishing).(assets := assets, mounts := mounts)
    ensures AfterConfigs(c, migration, r, publishing).assets == c.assets
    ensures AfterConfigs(c, migration, r, publishing).mounts == c.mounts
  {
    var stamped := if publishing then Apply(c, Stamp) else c;
    var active := Apply(stamped, PutConfig(Active, r.config));
    WriteIndependent(c, Stamp, assets, mounts);
    WriteIndependent(stamped, PutConfig(Active, r.config), assets, mounts);
    if migration && r.standby.Some? {
      WriteIndependent(active, PutConfig(Standby, r.standby.value), assets, mounts);
    }
  }

  lemma GainEffect(c: Cluster, migration: bool, r: Round, data: Data, standbyData: Data, publishing: bool)
    ensures Execute(c, AssetsWrites(migration, r, data, standbyData) + (WorkloadWrites(data != map[]) + ConfigWrites(migration, r, publishing)))
            == Finished(c, migration, r, data, standbyData, publishing)
  {
    var c1 := AfterAssets(c, migration, r, data, standbyData);
    var c2 := AfterWorkload(c1, data != map[]);
    ExecuteThree(c, AssetsWrites(migration, r, data, standbyData), WorkloadWrites(data != map[]), ConfigWrites(migration, r, publishing));
    AssetsEffect(c, migration, r, data, standbyData);
    WorkloadEffect(c1, data != map[]);
    ConfigEffect(c2, migration, r, publishing);
    ConfigsIndependent(c, migration, r, publishing, c2.assets, c2.mounts);
    assert c2 == c.(assets := c2.assets, mounts := c2.mounts);
  }

  lemma LoseEffect(c: Cluster, migration: bool, r: Round, data: Data, standbyData: Data, publishing: bool)
    ensures Execute(c, ConfigWrites(migration, r, publishing) + (WorkloadWrites(data != map[]) + AssetsWrites(migration, r, data, standbyData)))
            == Finished(c, migration, r, data, standbyData, publishing)
  {
    var c1 := AfterConfigs(c, migration, r, publishing);
    var c2 := AfterWorkload(c1, data != map[]);
    ExecuteThree(c, ConfigWrites(migration, r, publishing), WorkloadWrites(data != map[]), AssetsWrites(migration, r, data, standbyData));
    ConfigEffect(c, migration, r, publishing);
    WorkloadEffect(c1, data != map[]);
    AssetsEffect(c2, migration, r, data, standbyData);
    ConfigsIndependent(c, migration, r, publishing, c.assets, c.mounts);
  }

  lemma KeepEffect(c: Cluster, migration: bool, r: Round, data: Data, standbyData: Data, publishing: bool)
    ensures Execute(c, AssetsWrites(migration, r, data, standbyData) + (ConfigWrites(migration, r, publishing) + WorkloadWrites(data != map[])))
            == Finished(c, migration, r, data, standbyData, publishing)
  {
    var c1 := AfterAssets(c, migration, r, data, standbyData);
    var c2 := AfterConfigs(c1, migration, r, publishing);
    ExecuteThree(c, AssetsWrites(migration, r, data, standbyData), ConfigWrites(migration, r, publishing), WorkloadWrites(data != map[]));
    AssetsEffect(c, migration, r, data, standbyData);
    ConfigEffect(c1, migration, r, publishing);
    WorkloadEffect(c2, data != map[]);
    ConfigsIndependent(c, migration, r, publishing, c1.assets, c.mounts);
    assert c1 == c.(assets := c1.assets, mounts := c.mounts);
  }

  /** Where a round that no write refuses ends up: the three orders differ only on the way. */
  lemma CompleteRound(c: Cluster, migration: bool, r: Round)
    ensures var publishing := !AllConfigsUnchanged(c, migration, r);
            Execute(c, Program(c, migration, r)) ==
            Apply(Finished(c, migration, r, Chosen(c, migration, r), ChosenStandby(c, migration, r), publishing), MarkSuccess(publishing))
  {
    var data, standbyData := Chosen(c, migration, r), ChosenStandby(c, migration, r);
    var publishing := !AllConfigsUnchanged(c, migration, r);
    var assets, config := AssetsWrites(migration, r, data, standbyData), ConfigWrites(migration, r, publishing);
    var ensured := Ordered(HasMount(c), data != map[], assets, config, WorkloadWrites(data != map[]));
    var done := Finished(c, migration, r, data, standbyData, publishing);
    GainEffect(c, migration, r, data, standbyData, publishing);
    LoseEffect(c, migration, r, data, standbyData, publishing);
    KeepEffect(c, migration, r, data, standbyData, publishing);
    assert Execute(c, ensured) == done;
    ExecuteAppend(c, ensured, [MarkSuccess(publishing)]);
    OneWrite(done, MarkSuccess(publishing));
  }

  /** The assets a complete round leaves: `data` for the active pair, `standbyData` for the standby pair
      when that is built, none for it without migration. */
  ghost predicate Leaves(c: Cluster, after: Cluster, migration: bool, r: Round, data: Data, standbyData: Data) {
    && Held(after, Active) == data && (Active in after.assets <==> data != map[])
    && after.mounts == map[DaemonSet := data != map[]]
    && (!migration ==> Standby !in after.assets)
    && (migration && r.standby.Some? ==> Held(after, Standby) == standbyData && (Standby in after.assets <==> standbyData != map[]))
    && (migration && r.standby.None? ==>
          Held(after, Standby) == Held(c, Standby) && (Standby in after.assets <==> Standby in c.assets))
  }

  ghost predicate Publishes(c: Cluster, after: Cluster, migration: bool, r: Round) {
    && Published(after, Active, r.config)
    && (migration && r.standby.Some? ==> Published(after, Standby, r.standby.value))
    && (!(migration && r.standby.Some?) ==>
          (Standby in after.configs <==> Standby in c.configs) && (Standby in c.configs ==> after.configs[Standby] == c.configs[Standby]))
  }

  lemma CompleteFields(c: Cluster, migration: bool, r: Round)
    requires Agent(c, migration)
    ensures var after, publishing := Execute(c, Program(c, migration, r)), !AllConfigsUnchanged(c, migration, r);
            && Publishes(c, after, migration, r)
            && Leaves(c, after, migration, r, Chosen(c, migration, r), ChosenStandby(c, migration, r))
            && after.now == c.now
            && after.mark == (if publishing || c.mark.None? then Some(c.now) else c.mark)
            && (!publishing ==> after.past == c.past)
  {
    CompleteRound(c, migration, r);
    var data, standbyData, publishing := Chosen(c, migration, r), ChosenStandby(c, migration, r), !AllConfigsUnchanged(c, migration, r);
    FinishedConfigs(c, migration, r, data, standbyData, publishing);
    FinishedAssets(c, migration, r, data, standbyData, publishing);
    var done := Finished(c, migration, r, data, standbyData, publishing);
    assert Execute(c, Program(c, migration, r)) == Apply(done, MarkSuccess(publishing));
  }

  lemma FinishedConfigs(c: Cluster, migration: bool, r: Round, data: Data, standbyData: Data, publishing: bool)
    requires !publishing ==> AllConfigsUnchanged(c, migration, r)
    ensures var done := Finished(c, migration, r, data, standbyData, publishing);
            && Publishes(c, done, migration, r)
            && done.now == c.now && done.mark == (if publishing then Some(c.now) else c.mark)
            && (!publishing ==> done.past == c.past)
  {
    var stamped := if publishing then Apply(c, Stamp) else c;
    OneConfig(stamped, Active, r.config);
    if migration && r.standby.Some? {
      OneConfig(Apply(stamped, PutConfig(Active, r.config)), Standby, r.standby.value);
    }
  }

  lemma OneConfig(c: Cluster, v: Variant, config: Config)
    ensures var after := Apply(c, PutConfig(v, config));
            && after.configs == c.configs[v := config] && after.now == c.now && after.mark == c.mark
            && (Published(c, v, config) ==> after.past == c.past)
  {
  }

  lemma FinishedAssets(c: Cluster, migration: bool, r: Round, data: Data, standbyData: Data, publishing: bool)
    requires Agent(c, migration)
    ensures Leaves(c, Finished(c, migration, r, data, standbyData, publishing), migration, r, data, standbyData)
  {
    OneMount(c.mounts, data != map[]);
  }

  lemma OneMount(mounts: map<Kind, bool>, mounted: bool)
    requires forall k :: k in mounts ==> k == DaemonSet
    ensures mounts[DaemonSet := mounted] == map[DaemonSet := mounted]
  {
  }

  /** Some pair holds a key the target does not. */
  ghost predicate LeftOver(c: Cluster, migration: bool, target: Data) {
    exists v, k :: v in c.assets && (v == Active || migration) && k in c.assets[v] && k !in target
  }

  /** Every published config is what the round wants, and has been for the grace period. */
  ghost predicate Settled(c: Cluster, migration: bool, r: Round) {
    && Active in c.configs && c.configs[Active] == r.config
    && (migration ==> r.standby.Some? && Standby in c.configs && c.configs[Standby] == r.standby.value)
    && c.mark.Some? && c.now - c.mark.value >= 90
  }

  /** What a complete round leaves in the assets: the exact target unless a key is left over and the configs
      are not settled, and the bridge of each pair in that case. */
  lemma RoundLeavesExactly(c: Cluster, migration: bool, r: Round)
    requires Agent(c, migration)
    ensures var after := Execute(c, Program(c, migration, r));
            if LeftOver(c, migration, r.target) && !Settled(c, migration, r)
            then Leaves(c, after, migration, r, r.bridge, r.standbyBridge)
            else Leaves(c, after, migration, r, r.target, r.target)
  {
    CompleteFields(c, migration, r);
    assert LeftOver(c, migration, r.target) <==> WouldDrop(c, migration, r) by {
      if LeftOver(c, migration, r.target) {
        var v, k :| v in c.assets && (v == Active || migration) && k in c.assets[v] && k !in r.target;
        assert k in Held(c, v) && (v == Active || v == Standby);
      }
    }
  }

  /** The round asks for the same thing, whatever bridges it was offered. */
  predicate SameWish(r: Round, s: Round) {
    r.config == s.config && r.standby == s.standby && r.target == s.target
  }

  /** Every object is what the wish says it should be: each pair holds its config and the exact assets, no
      assets Secret is empty, the mount is there exactly when there are assets, and without migration
      nothing is left of a standby pair's assets. */
  ghost predicate Reached(c: Cluster, migration: bool, r: Round) {
    && Active in c.configs && c.configs[Active] == r.config
    && (if r.target == map[] then Active !in c.assets else Active in c.assets && c.assets[Active] == r.target)
    && c.mounts == map[DaemonSet := r.target != map[]]
    && (if migration then
          && r.standby.Some? && Standby in c.configs && c.configs[Standby] == r.standby.value
          && (if r.target == map[] then Standby !in c.assets else Standby in c.assets && c.assets[Standby] == r.target)
        else Standby !in c.assets)
    && c.mark.Some?
  }

  /** Two complete rounds for one wish, a grace period apart, reach it from any safe cluster: leftover keys are gone from both
      pairs. Under migration this needs the standby config to have been built. */
  lemma TwoRoundsConverge(c: Cluster, migration: bool, r: Round, seconds: nat, s: Round)
    requires Safe(c) && Agent(c, migration) && SameWish(r, s) && seconds >= 90
    requires migration ==> r.standby.Some?
    ensures var waited := Execute(c, Program(c, migration, r)).(now := c.now + seconds);
            Reached(Execute(waited, Program(waited, migration, s)), migration, r)
  {
    var first := Execute(c, Program(c, migration, r));
    CompleteFields(c, migration, r);
    assert first.mark.Some? && first.mark.value <= c.now;
    var waited := first.(now := c.now + seconds);
    StaysAgent(c, migration, r);
    assert AllConfigsUnchanged(waited, migration, s) && Prunes(waited, migration, s);
    CompleteFields(waited, migration, s);
  }

  lemma StaysAgent(c: Cluster, migration: bool, r: Round)
    requires Agent(c, migration)
    ensures Agent(Execute(c, Program(c, migration, r)), migration)
  {
    var ws := Program(c, migration, r);
    assert ws[..|ws|] == ws;
    ProgramShape(c, migration, r, |ws|);
    ConfigKeepsAgent(c, ws, migration);
  }

  /** A reached wish is a fixed point: a further complete round changes nothing at all. */
  lemma ReachedIsStable(c: Cluster, migration: bool, s: Round)
    requires Agent(c, migration) && Reached(c, migration, s)
    ensures Execute(c, Program(c, migration, s)) == c
  {
    assert Held(c, Active) == s.target && (migration ==> Held(c, Standby) == s.target);
    assert !WouldDrop(c, migration, s) && AllConfigsUnchanged(c, migration, s);
    CompleteFields(c, migration, s);
    var after := Execute(c, Program(c, migration, s));
    SameMaps(c.assets, after.assets);
    SameMaps(c.configs, after.configs);
  }

  lemma SameMaps<T>(a: map<Variant, T>, b: map<Variant, T>)
    requires Active in a <==> Active in b
    requires Standby in a <==> Standby in b
    requires Active in a ==> a[Active] == b[Active]
    requires Standby in a ==> a[Standby] == b[Standby]
    ensures a == b
  {
    forall v | v in a || v in b ensures v in a && v in b && a[v] == b[v] {
      assert v == Active || v == Standby;
    }
  }

  /** While the standby config cannot be built, a complete round takes nothing away: with a key to drop in
      either pair the active pair keeps the bridge, however long nothing changes. */
  lemma NoPruningWithoutStandby(c: Cluster, r: Round)
    requires Agent(c, true) && r.standby.None?
    requires exists v, k :: k in Held(c, v) && k !in r.target
    ensures Held(Execute(c, Program(c, true, r)), Active) == r.bridge
    ensures Held(Execute(c, Program(c, true, r)), Standby) == Held(c, Standby)
  {
    var v, k :| k in Held(c, v) && k !in r.target;
    assert v == Active || v == Standby;
    assert WouldDrop(c, true, r) && !Prunes(c, true, r);
    CompleteFields(c, true, r);
  }
}
