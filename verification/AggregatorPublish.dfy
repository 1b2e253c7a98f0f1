/** The aggregator's publish round: one assets Secret, and a Deployment and a StatefulSet that may both
    be alive while persistence is being toggled. */
module AggregatorPublish {
  import opened Totals
  import opened Publishing

  /** What one uncached read says about both workload kinds. */
  datatype MountState = MountState(
    deploymentExists: bool,
    deploymentMounted: bool,
    statefulSetExists: bool,
    statefulSetMounted: bool
  ) {
    predicate AnyMounted() {
      deploymentMounted || statefulSetMounted
    }

    predicate AllMounted() {
      if !deploymentExists && !statefulSetExists then false
      else (!deploymentExists || deploymentMounted) && (!statefulSetExists || statefulSetMounted)
    }

    predicate ObsoleteWorkloadExists(persistence: bool) {
      if persistence then deploymentExists else statefulSetExists
    }
  }

  function ReadMountState(c: Cluster): MountState {
    MountState(
      Deployment in c.mounts, Deployment in c.mounts && c.mounts[Deployment],
      StatefulSet in c.mounts, StatefulSet in c.mounts && c.mounts[StatefulSet])
  }

  /** What a round wants: the built config, the exact assets it resolves to, and the bridge data that
      also keeps everything the Secret holds. */
  datatype Round = Round(persistence: bool, config: Config, target: Data, bridge: Data)

  predicate ConfigUnchanged(c: Cluster, r: Round) {
    Active in c.configs && c.configs[Active] == r.config
  }

  /** The assets to publish: the exact target when that drops nothing or dropping is due, else the bridge. */
  function Chosen(c: Cluster, r: Round): Data {
    if WouldDropAKey(Held(c, Active), r.target) && !PruneDecision(ConfigUnchanged(c, r), c.mark, c.now).0
    then r.bridge
    else r.target
  }

  function Current(persistence: bool): Kind {
    if persistence then StatefulSet else Deployment
  }

  function Obsolete(persistence: bool): Kind {
    if persistence then Deployment else StatefulSet
  }

  function AssetsWrites(data: Data): seq<Write> {
    if data == map[] then [DropAssets(Active)] else [PutAssets(Active, data)]
  }

  function WorkloadWrites(persistence: bool, mounted: bool, obsolete: bool): seq<Write> {
    [PutWorkload(Current(persistence), mounted)] + if obsolete then [DeleteWorkload(Obsolete(persistence))] else []
  }

  function ConfigWrites(publishing: bool, config: Config): seq<Write> {
    (if publishing then [Stamp] else []) + [PutConfig(Active, config)]
  }

  function GainWrites(r: Round, data: Data, obsolete: bool, publishing: bool): seq<Write> {
    AssetsWrites(data) + (WorkloadWrites(r.persistence, data != map[], obsolete) + ConfigWrites(publishing, r.config))
  }

  function LoseWrites(r: Round, data: Data, obsolete: bool, publishing: bool): seq<Write> {
    ConfigWrites(publishing, r.config) + (WorkloadWrites(r.persistence, data != map[], obsolete) + AssetsWrites(data))
  }

  function KeepWrites(r: Round, data: Data, obsolete: bool, publishing: bool): seq<Write> {
    AssetsWrites(data) + (ConfigWrites(publishing, r.config) + WorkloadWrites(r.persistence, data != map[], obsolete))
  }

  /** The publishing writes of a round, in the order its snapshot of the cluster asks for. */
  function Ensured(c: Cluster, r: Round): seq<Write> {
    var data, state, publishing := Chosen(c, r), ReadMountState(c), !ConfigUnchanged(c, r);
    var obsolete := state.ObsoleteWorkloadExists(r.persistence);
    if data != map[] && !state.AllMounted() then GainWrites(r, data, obsolete, publishing)
    else if data == map[] && state.AnyMounted() then LoseWrites(r, data, obsolete, publishing)
    else KeepWrites(r, data, obsolete, publishing)
  }

  function Program(c: Cluster, r: Round): seq<Write> {
    Ensured(c, r) + [MarkSuccess(!ConfigUnchanged(c, r))]
  }

  method EnsureAssets(api: ApiServer, data: Data) returns (ok: bool)
    modifies api
    ensures Issued(old(api.cluster), old(api.left), AssetsWrites(data), api.cluster, api.left, ok)
  {
    if data == map[] {
      ok := api.Issue(DropAssets(Active));
    } else {
      ok := api.Issue(PutAssets(Active, data));
    }
  }

  /** Writes the current kind first and only then deletes the obsolete one. */
  method EnsureWorkload(api: ApiServer, persistence: bool, mounted: bool, obsolete: bool) returns (ok: bool)
    modifies api
    ensures Issued(old(api.cluster), old(api.left), WorkloadWrites(persistence, mounted, obsolete), api.cluster, api.left, ok)
  {
    ghost var start, allowance := api.cluster, api.left;
    ok := api.Issue(PutWorkload(Current(persistence), mounted));
    if obsolete {
      ghost var between, m := api.cluster, api.left;
      if ok {
        ok := api.Issue(DeleteWorkload(Obsolete(persistence)));
        IssuedThen(start, allowance, [PutWorkload(Current(persistence), mounted)], between, m,
                   [DeleteWorkload(Obsolete(persistence))], api.cluster, api.left, ok);
      } else {
        IssuedRefused(start, allowance, [PutWorkload(Current(persistence), mounted)], between, m,
                      [DeleteWorkload(Obsolete(persistence))]);
      }
    } else {
      assert WorkloadWrites(persistence, mounted, obsolete) == [PutWorkload(Current(persistence), mounted)];
    }
  }

  /** Stamps the publish mark right before a config that changes. */
  method EnsureConfig(api: ApiServer, publishing: bool, config: Config) returns (ok: bool)
    modifies api
    ensures Issued(old(api.cluster), old(api.left), ConfigWrites(publishing, config), api.cluster, api.left, ok)
  {
    ghost var start, allowance := api.cluster, api.left;
    if publishing {
      ok := api.Issue(Stamp);
      ghost var between, m := api.cluster, api.left;
      if ok {
        ok := api.Issue(PutConfig(Active, config));
        IssuedThen(start, allowance, [Stamp], between, m, [PutConfig(Active, config)], api.cluster, api.left, ok);
      } else {
        IssuedRefused(start, allowance, [Stamp], between, m, [PutConfig(Active, config)]);
      }
    } else {
      assert ConfigWrites(publishing, config) == [PutConfig(Active, config)];
      ok := api.Issue(PutConfig(Active, config));
    }
  }

  /** Gaining the mount: assets, then the workloads that mount them, then the config that needs them. */
  method GainMount(api: ApiServer, r: Round, data: Data, obsolete: bool, publishing: bool) returns (ok: bool)
    modifies api
    ensures Issued(old(api.cluster), old(api.left), GainWrites(r, data, obsolete, publishing), api.cluster, api.left, ok)
  {
    ghost var start, n := api.cluster, api.left;
    ghost var assets, config := AssetsWrites(data), ConfigWrites(publishing, r.config);
    ghost var workload := WorkloadWrites(r.persistence, data != map[], obsolete);
    ok := EnsureAssets(api, data);
    if !ok {
      IssuedRefused(start, n, assets, api.cluster, api.left, workload + config);
      return;
    }
    ghost var c1, n1 := api.cluster, api.left;
    ok := EnsureWorkload(api, r.persistence, data != map[], obsolete);
    ghost var c2, n2 := api.cluster, api.left;
    if ok {
      ok := EnsureConfig(api, publishing, r.config);
      IssuedThen(c1, n1, workload, c2, n2, config, api.cluster, api.left, ok);
    } else {
      IssuedRefused(c1, n1, workload, c2, n2, config);
    }
    IssuedThen(start, n, assets, c1, n1, workload + config, api.cluster, api.left, ok);
  }

  /** Losing it: a config without references, then workloads without the mount, then the assets go. */
  method LoseMount(api: ApiServer, r: Round, data: Data, obsolete: bool, publishing: bool) returns (ok: bool)
    modifies api
    ensures Issued(old(api.cluster), old(api.left), LoseWrites(r, data, obsolete, publishing), api.cluster, api.left, ok)
  {
    ghost var start, n := api.cluster, api.left;
    ghost var assets, config := AssetsWrites(data), ConfigWrites(publishing, r.config);
    ghost var workload := WorkloadWrites(r.persistence, data != map[], obsolete);
    ok := EnsureConfig(api, publishing, r.config);
    if !ok {
      IssuedRefused(start, n, config, api.cluster, api.left, workload + assets);
      return;
    }
    ghost var c1, n1 := api.cluster, api.left;
    ok := EnsureWorkload(api, r.persistence, data != map[], obsolete);
    ghost var c2, n2 := api.cluster, api.left;
    if ok {
      ok := EnsureAssets(api, data);
      IssuedThen(c1, n1, workload, c2, n2, assets, api.cluster, api.left, ok);
    } else {
      IssuedRefused(c1, n1, workload, c2, n2, assets);
    }
    IssuedThen(start, n, config, c1, n1, workload + assets, api.cluster, api.left, ok);
  }

  /** No crossing: assets, config, workload. */
  method KeepMount(api: ApiServer, r: Round, data: Data, obsolete: bool, publishing: bool) returns (ok: bool)
    modifies api
    ensures Issued(old(api.cluster), old(api.left), KeepWrites(r, data, obsolete, publishing), api.cluster, api.left, ok)
  {
    ghost var start, n := api.cluster, api.left;
    ghost var assets, config := AssetsWrites(data), ConfigWrites(publishing, r.config);
    ghost var workload := WorkloadWrites(r.persistence, data != map[], obsolete);
    ok := EnsureAssets(api, data);
    if !ok {
      IssuedRefused(start, n, assets, api.cluster, api.left, config + workload);
      return;
    }
    ghost var c1, n1 := api.cluster, api.left;
    ok := EnsureConfig(api, publishing, r.config);
    ghost var c2, n2 := api.cluster, api.left;
    if ok {
      ok := EnsureWorkload(api, r.persistence, data != map[], obsolete);
      IssuedThen(c1, n1, config, c2, n2, workload, api.cluster, api.left, ok);
    } else {
      IssuedRefused(c1, n1, config, c2, n2, workload);
    }
    IssuedThen(start, n, assets, c1, n1, config + workload, api.cluster, api.left, ok);
  }

  /** Publishes what was chosen, in one of the three write orders. */
  method EnsureVectorAggregator(api: ApiServer, r: Round, data: Data, publishing: bool) returns (ok: bool)
    requires data == Chosen(api.cluster, r) && publishing == !ConfigUnchanged(api.cluster, r)
    modifies api
    ensures Issued(old(api.cluster), old(api.left), Ensured(old(api.cluster), r), api.cluster, api.left, ok)
  {
    var state := ReadMountState(api.cluster);
    var willHaveMount := data != map[];
    var obsolete := state.ObsoleteWorkloadExists(r.persistence);
    if willHaveMount && !state.AllMounted() {
      ok := GainMount(api, r, data, obsolete, publishing);
    } else if !willHaveMount && state.AnyMounted() {
      ok := LoseMount(api, r, data, obsolete, publishing);
    } else {
      ok := KeepMount(api, r, data, obsolete, publishing);
    }
  }

  /** The whole round: chooses the assets, publishes, and records success. */
  method CreateOrUpdateVectorAggregator(api: ApiServer, r: Round) returns (ok: bool)
    modifies api
    ensures Issued(old(api.cluster), old(api.left), Program(old(api.cluster), r), api.cluster, api.left, ok)
  {
    var existing := Held(api.cluster, Active);
    var configUnchanged := ConfigUnchanged(api.cluster, r);
    var prune := true;
    var drops := AssetsWouldDropAKey(existing, r.target);
    if drops {
      prune := PruneDecision(configUnchanged, api.cluster.mark, api.cluster.now).0;
    }
    var data := if prune then r.target else r.bridge;
    ghost var start, allowance, writes := api.cluster, api.left, Ensured(api.cluster, r);
    ok := EnsureVectorAggregator(api, r, data, !configUnchanged);
    ghost var c1, n1 := api.cluster, api.left;
    if ok {
      ok := api.Issue(MarkSuccess(!configUnchanged));
      IssuedThen(start, allowance, writes, c1, n1, [MarkSuccess(!configUnchanged)], api.cluster, api.left, ok);
    } else {
      IssuedRefused(start, allowance, writes, c1, n1, [MarkSuccess(!configUnchanged)]);
    }
  }
}
