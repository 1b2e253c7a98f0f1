/** The agent's publish round: one DaemonSet, and under checkpoint migration a second pair of Secrets
    kept for pods that still run the opposite optimization mode. The mode is fixed within a run. */
module AgentPublish {
  import opened Outcomes
  import opened Totals
  import opened Publishing

  /** `standby` is missing when building the alternate config failed. */
  datatype Round = Round(config: Config, standby: Option<Config>, target: Data, bridge: Data, standbyBridge: Data)

  predicate Published(c: Cluster, v: Variant, config: Config) {
    v in c.configs && c.configs[v] == config
  }

  /** Whether every config a pod may mount is already the one this round wants. */
  predicate AllConfigsUnchanged(c: Cluster, migration: bool, r: Round) {
    && Published(c, Active, r.config)
    && (migration ==> r.standby.Some? && Published(c, Standby, r.standby.value))
  }

  predicate WouldDrop(c: Cluster, migration: bool, r: Round) {
    WouldDropAKey(Held(c, Active), r.target) || (migration && WouldDropAKey(Held(c, Standby), r.target))
  }

  predicate Prunes(c: Cluster, migration: bool, r: Round) {
    !WouldDrop(c, migration, r) || PruneDecision(AllConfigsUnchanged(c, migration, r), c.mark, c.now).0
  }

  /** The assets of the active pair, and of the standby pair. */
  function Chosen(c: Cluster, migration: bool, r: Round): Data {
    if Prunes(c, migration, r) then r.target else r.bridge
  }

  function ChosenStandby(c: Cluster, migration: bool, r: Round): Data {
    if Prunes(c, migration, r) then r.target else r.standbyBridge
  }

  function VariantAssets(v: Variant, data: Data): seq<Write> {
    if data == map[] then [DropAssets(v)] else [PutAssets(v, data)]
  }

  /** The standby assets follow the standby config: gone without migration, untouched when there is no
      new standby config. */
  function StandbyAssets(migration: bool, r: Round, data: Data): seq<Write> {
    if !migration then [DropAssets(Standby)]
    else if r.standby.None? then []
    else VariantAssets(Standby, data)
  }

  function AssetsWrites(migration: bool, r: Round, data: Data, standbyData: Data): seq<Write> {
    VariantAssets(Active, data) + StandbyAssets(migration, r, standbyData)
  }

  function ConfigWrites(migration: bool, r: Round, publishing: bool): seq<Write> {
    (if publishing then [Stamp] else []) + ([PutConfig(Active, r.config)] + StandbyConfig(migration, r))
  }

  function StandbyConfig(migration: bool, r: Round): seq<Write> {
    if migration && r.standby.Some? then [PutConfig(Standby, r.standby.value)] else []
  }

  function WorkloadWrites(mounted: bool): seq<Write> {
    [PutWorkload(DaemonSet, mounted)]
  }

  predicate HasMount(c: Cluster) {
    DaemonSet in c.mounts && c.mounts[DaemonSet]
  }

  /** The writes of a round in one of three orders, then the success mark. */
  function Program(c: Cluster, migration: bool, r: Round): seq<Write> {
    var data, publishing := Chosen(c, migration, r), !AllConfigsUnchanged(c, migration, r);
    var assets := AssetsWrites(migration, r, data, ChosenStandby(c, migration, r));
    var config, workload := ConfigWrites(migration, r, publishing), WorkloadWrites(data != map[]);
    Ordered(HasMount(c), data != map[], assets, config, workload) + [MarkSuccess(publishing)]
  }

  function Ordered(had: bool, will: bool, assets: seq<Write>, config: seq<Write>, workload: seq<Write>): seq<Write> {
    if !had && will then assets + (workload + config)
    else if had && !will then config + (workload + assets)
    else assets + (config + workload)
  }

  method EnsureVariantAssets(api: ApiServer, v: Variant, data: Data) returns (ok: bool)
    modifies api
    ensures Issued(old(api.cluster), old(api.left), VariantAssets(v, data), api.cluster, api.left, ok)
  {
    if data == map[] {
      ok := api.Issue(DropAssets(v));
    } else {
      ok := api.Issue(PutAssets(v, data));
    }
  }

  method EnsureSecretAssets(api: ApiServer, migration: bool, r: Round, data: Data, standbyData: Data) returns (ok: bool)
    modifies api
    ensures Issued(old(api.cluster), old(api.left), AssetsWrites(migration, r, data, standbyData), api.cluster, api.left, ok)
  {
    ghost var start, n := api.cluster, api.left;
    ghost var rest := StandbyAssets(migration, r, standbyData);
    ok := EnsureVariantAssets(api, Active, data);
    ghost var c1, n1 := api.cluster, api.left;
    if !ok {
      IssuedRefused(start, n, VariantAssets(Active, data), c1, n1, rest);
      return;
    }
    if !migration {
      ok := api.Issue(DropAssets(Standby));
    } else if r.standby.Some? {
      ok := EnsureVariantAssets(api, Standby, standbyData);
    }
    IssuedThen(start, n, VariantAssets(Active, data), c1, n1, rest, api.cluster, api.left, ok);
  }

  method EnsureConfigs(api: ApiServer, migration: bool, r: Round) returns (ok: bool)
    modifies api
    ensures Issued(old(api.cluster), old(api.left), [PutConfig(Active, r.config)] + StandbyConfig(migration, r),
                   api.cluster, api.left, ok)
  {
    ghost var start, n, rest := api.cluster, api.left, StandbyConfig(migration, r);
    ok := api.Issue(PutConfig(Active, r.config));
    ghost var c1, n1 := api.cluster, api.left;
    if !ok {
      IssuedRefused(start, n, [PutConfig(Active, r.config)], c1, n1, rest);
      return;
    }
    if migration && r.standby.Some? {
      ok := api.Issue(PutConfig(Standby, r.standby.value));
    }
    IssuedThen(start, n, [PutConfig(Active, r.config)], c1, n1, rest, api.cluster, api.left, ok);
  }

  /** Stamps once, before the first of the two configs. */
  method EnsureConfig(api: ApiServer, migration: bool, r: Round, publishing: bool) returns (ok: bool)
    modifies api
    ensures Issued(old(api.cluster), old(api.left), ConfigWrites(migration, r, publishing), api.cluster, api.left, ok)
  {
    ghost var start, n, rest := api.cluster, api.left, [PutConfig(Active, r.config)] + StandbyConfig(migration, r);
    if publishing {
      ok := api.Issue(Stamp);
      ghost var c1, n1 := api.cluster, api.left;
      if !ok {
        IssuedRefused(start, n, [Stamp], c1, n1, rest);
        return;
      }
      ok := EnsureConfigs(api, migration, r);
      IssuedThen(start, n, [Stamp], c1, n1, rest, api.cluster, api.left, ok);
    } else {
      assert ConfigWrites(migration, r, publishing) == rest;
      ok := EnsureConfigs(api, migration, r);
    }
  }

  method GainMount(api: ApiServer, migration: bool, r: Round, data: Data, standbyData: Data, publishing: bool) returns (ok: bool)
    modifies api
    ensures Issued(old(api.cluster), old(api.left),
                   AssetsWrites(migration, r, data, standbyData) + (WorkloadWrites(data != map[]) + ConfigWrites(migration, r, publishing)),
                   api.cluster, api.left, ok)
  {
    ghost var start, n, assets := api.cluster, api.left, AssetsWrites(migration, r, data, standbyData);
    ghost var config, workload := ConfigWrites(migration, r, publishing), WorkloadWrites(data != map[]);
    ok := EnsureSecretAssets(api, migration, r, data, standbyData);
    if !ok {
      IssuedRefused(start, n, assets, api.cluster, api.left, workload + config);
      return;
    }
    ghost var c1, n1 := api.cluster, api.left;
    ok := api.Issue(PutWorkload(DaemonSet, data != map[]));
    ghost var c2, n2 := api.cluster, api.left;
    if ok {
      ok := EnsureConfig(api, migration, r, publishing);
      IssuedThen(c1, n1, workload, c2, n2, config, api.cluster, api.left, ok);
    } else {
      IssuedRefused(c1, n1, workload, c2, n2, config);
    }
    IssuedThen(start, n, assets, c1, n1, workload + config, api.cluster, api.left, ok);
  }

  method LoseMount(api: ApiServer, migration: bool, r: Round, data: Data, standbyData: Data, publishing: bool) returns (ok: bool)
    modifies api
    ensures Issued(old(api.cluster), old(api.left),
                   ConfigWrites(migration, r, publishing) + (WorkloadWrites(data != map[]) + AssetsWrites(migration, r, data, standbyData)),
                   api.cluster, api.left, ok)
  {
    ghost var start, n, assets := api.cluster, api.left, AssetsWrites(migration, r, data, standbyData);
    ghost var config, workload := ConfigWrites(migration, r, publishing), WorkloadWrites(data != map[]);
    ok := EnsureConfig(api, migration, r, publishing);
    if !ok {
      IssuedRefused(start, n, config, api.cluster, api.left, workload + assets);
      return;
    }
    ghost var c1, n1 := api.cluster, api.left;
    ok := api.Issue(PutWorkload(DaemonSet, data != map[]));
    ghost var c2, n2 := api.cluster, api.left;
    if ok {
      ok := EnsureSecretAssets(api, migration, r, data, standbyData);
      IssuedThen(c1, n1, workload, c2, n2, assets, api.cluster, api.left, ok);
    } else {
      IssuedRefused(c1, n1, workload, c2, n2, assets);
    }
    IssuedThen(start, n, config, c1, n1, workload + assets, api.cluster, api.left, ok);
  }

  method KeepMount(api: ApiServer, migration: bool, r: Round, data: Data, standbyData: Data, publishing: bool) returns (ok: bool)
    modifies api
    ensures Issued(old(api.cluster), old(api.left),
                   AssetsWrites(migration, r, data, standbyData) + (ConfigWrites(migration, r, publishing) + WorkloadWrites(data != map[])),
                   api.cluster, api.left, ok)
  {
    ghost var start, n, assets := api.cluster, api.left, AssetsWrites(migration, r, data, standbyData);
    ghost var config, workload := ConfigWrites(migration, r, publishing), WorkloadWrites(data != map[]);
    ok := EnsureSecretAssets(api, migration, r, data, standbyData);
    if !ok {
      IssuedRefused(start, n, assets, api.cluster, api.left, config + workload);
      return;
    }
    ghost var c1, n1 := api.cluster, api.left;
    ok := EnsureConfig(api, migration, r, publishing);
    ghost var c2, n2 := api.cluster, api.left;
    if ok {
      ok := api.Issue(PutWorkload(DaemonSet, data != map[]));
      IssuedThen(c1, n1, config, c2, n2, workload, api.cluster, api.left, ok);
    } else {
      IssuedRefused(c1, n1, config, c2, n2, workload);
    }
    IssuedThen(start, n, assets, c1, n1, config + workload, api.cluster, api.left, ok);
  }

  /** Publishes what was chosen, in one of the three write orders. */
  method EnsureVectorAgent(api: ApiServer, migration: bool, r: Round, data: Data, standbyData: Data, publishing: bool)
    returns (ok: bool)
    modifies api
    ensures Issued(old(api.cluster), old(api.left),
                   Ordered(HasMount(old(api.cluster)), data != map[], AssetsWrites(migration, r, data, standbyData),
                           ConfigWrites(migration, r, publishing), WorkloadWrites(data != map[])),
                   api.cluster, api.left, ok)
  {
    var hadMount, willHaveMount := HasMount(api.cluster), data != map[];
    if !hadMount && willHaveMount {
      ok := GainMount(api, migration, r, data, standbyData, publishing);
    } else if hadMount && !willHaveMount {
      ok := LoseMount(api, migration, r, data, standbyData, publishing);
    } else {
      ok := KeepMount(api, migration, r, data, standbyData, publishing);
    }
  }

  /** The whole round: chooses each variant's assets, publishes in the order the mount asks for, and
      records success. */
  method CreateOrUpdateVector(api: ApiServer, migration: bool, r: Round) returns (ok: bool)
    modifies api
    ensures Issued(old(api.cluster), old(api.left), Program(old(api.cluster), migration, r), api.cluster, api.left, ok)
  {
    ghost var start, n := api.cluster, api.left;
    var publishing := !AllConfigsUnchanged(api.cluster, migration, r);
    var drops := AssetsWouldDropAKey(Held(api.cluster, Active), r.target);
    if !drops && migration {
      drops := AssetsWouldDropAKey(Held(api.cluster, Standby), r.target);
    }
    var prune := !drops || PruneDecision(!publishing, api.cluster.mark, api.cluster.now).0;
    assert prune == Prunes(start, migration, r);
    var data := if prune then r.target else r.bridge;
    var standbyData := if prune then r.target else r.standbyBridge;
    ok := EnsureVectorAgent(api, migration, r, data, standbyData, publishing);
    ghost var ensured := Ordered(HasMount(start), data != map[], AssetsWrites(migration, r, data, standbyData),
                                 ConfigWrites(migration, r, publishing), WorkloadWrites(data != map[]));
    ghost var c1, n1 := api.cluster, api.left;
    if ok {
      ok := api.Issue(MarkSuccess(publishing));
      IssuedThen(start, n, ensured, c1, n1, [MarkSuccess(publishing)], api.cluster, api.left, ok);
    } else {
      IssuedRefused(start, n, ensured, c1, n1, [MarkSuccess(publishing)]);
    }
  }
}
