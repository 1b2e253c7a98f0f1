/** The objects an operator publishes a workload through, the single writes that change them, and what
    every write has to leave intact. There is no transaction: a round is a list of writes cut off anywhere. */
module Publishing {
  import opened Outcomes
  import opened Totals

  /** The config and assets Secrets come in pairs; a pod mounts one pair. */
  datatype Variant = Active | Standby

  datatype Kind = Deployment | StatefulSet | DaemonSet

  /** A published config and the flat keys it references. */
  datatype Config = Config(text: string, refs: set<string>)

  /** A config that used to be published, and when another replaced it. */
  datatype Version = Version(variant: Variant, config: Config, replacedAt: int)

  /** `mounts` says of every live workload whether its pod template mounts the assets; `mark` is the
      persisted publish mark; `past` is the history the operator cannot see. */
  datatype Cluster = Cluster(
    configs: map<Variant, Config>,
    assets: map<Variant, Data>,
    mounts: map<Kind, bool>,
    mark: Option<int>,
    now: int,
    past: set<Version>
  )

  datatype Write =
    | PutAssets(variant: Variant, data: Data)
    | DropAssets(variant: Variant)
    | PutWorkload(kind: Kind, mounted: bool)
    | DeleteWorkload(kind: Kind)
    | Stamp
    | PutConfig(variant: Variant, config: Config)
    | MarkSuccess(published: bool)

  /** Seconds the operator waits after publishing before it drops keys. */
  const GRACE_PERIOD: int := 90

  function Held(c: Cluster, v: Variant): Data {
    if v in c.assets then c.assets[v] else map[]
  }

  function Apply(c: Cluster, w: Write): Cluster {
    match w
    case PutAssets(v, data) => c.(assets := c.assets[v := data])
    case DropAssets(v) => c.(assets := c.assets - {v})
    case PutWorkload(kind, mounted) => c.(mounts := c.mounts[kind := mounted])
    case DeleteWorkload(kind) => c.(mounts := c.mounts - {kind})
    case Stamp => c.(mark := Some(c.now))
    case PutConfig(v, config) =>
      if v in c.configs && c.configs[v] != config then
        c.(configs := c.configs[v := config], past := c.past + {Version(v, c.configs[v], c.now)})
      else c.(configs := c.configs[v := config])
    case MarkSuccess(published) => if published || c.mark.None? then c.(mark := Some(c.now)) else c
  }

  function Execute(c: Cluster, ws: seq<Write>): Cluster
    decreases |ws|
  {
    if ws == [] then c else Execute(Apply(c, ws[0]), ws[1..])
  }

  /** The version may still be run by a pod that has not picked up its replacement. */
  predicate Recent(c: Cluster, x: Version) {
    x in c.past && c.now - x.replacedAt < GRACE_PERIOD
  }

  /** A version's references are all held by the assets its pods mount. */
  predicate Covered(c: Cluster, v: Variant, config: Config) {
    config.refs <= Held(c, v).Keys
  }

  /** Every config a pod may be running resolves: the published ones and those replaced within the
      grace period. */
  ghost predicate PodsResolve(c: Cluster) {
    && (forall v :: v in c.configs ==> Covered(c, v, c.configs[v]))
    && (forall x :: Recent(c, x) ==> Covered(c, x.variant, x.config))
  }

  /** A config with references is only ever published next to workloads that all mount the assets. */
  ghost predicate MountsAhead(c: Cluster) {
    Active in c.configs && c.configs[Active].refs != {} ==> forall k :: k in c.mounts ==> c.mounts[k]
  }

  /** No pod template mounts a Secret that does not exist. */
  ghost predicate MountTargetExists(c: Cluster) {
    forall k :: k in c.mounts && c.mounts[k] ==> Active in c.assets
  }

  /** The publish mark, once there is one, is never older than the last config change. */
  ghost predicate MarkCoversChanges(c: Cluster) {
    && (forall x :: x in c.past ==> x.replacedAt <= c.now)
    && (c.mark.Some? ==> c.mark.value <= c.now && forall x :: x in c.past ==> x.replacedAt <= c.mark.value)
  }

  ghost predicate Safe(c: Cluster) {
    PodsResolve(c) && MountsAhead(c) && MountTargetExists(c) && MarkCoversChanges(c)
  }

  /** Data that no config a pod may be running from this variant would miss. */
  ghost predicate Suffices(c: Cluster, v: Variant, data: Data) {
    && (v in c.configs ==> c.configs[v].refs <= data.Keys)
    && (forall x :: Recent(c, x) && x.variant == v ==> x.config.refs <= data.Keys)
  }

  /** Whatever holds every key the variant holds now suffices. */
  lemma KeepingEverythingSuffices(c: Cluster, v: Variant, data: Data)
    requires PodsResolve(c) && Held(c, v).Keys <= data.Keys
    ensures Suffices(c, v, data)
  {
    forall x | Recent(c, x) && x.variant == v ensures x.config.refs <= data.Keys {
      assert Covered(c, x.variant, x.config);
    }
    if v in c.configs {
      assert Covered(c, v, c.configs[v]);
    }
  }

  /** What must hold of the cluster when a write is issued. */
  ghost predicate Allowed(c: Cluster, w: Write) {
    match w
    case PutAssets(v, data) => Suffices(c, v, data)
    case DropAssets(v) =>
      && Suffices(c, v, map[])
      && (v == Active ==> forall k :: k in c.mounts ==> !c.mounts[k])
    case PutWorkload(_, mounted) =>
      if mounted then Active in c.assets else Active in c.configs ==> c.configs[Active].refs == {}
    case DeleteWorkload(_) => true
    case Stamp => true
    case PutConfig(v, config) =>
      && (v in c.configs && c.configs[v] != config ==> c.mark == Some(c.now))
      && Covered(c, v, config)
      && (v == Active && config.refs != {} ==> forall k :: k in c.mounts ==> c.mounts[k])
    case MarkSuccess(_) => true
  }

  lemma AllowedKeepsPublished(c: Cluster, w: Write, v: Variant)
    requires PodsResolve(c) && Allowed(c, w) && v in Apply(c, w).configs
    ensures Covered(Apply(c, w), v, Apply(c, w).configs[v])
  {
    assert v in c.configs ==> Covered(c, v, c.configs[v]);
  }

  lemma AllowedKeepsRecent(c: Cluster, w: Write, x: Version)
    requires PodsResolve(c) && Allowed(c, w) && Recent(Apply(c, w), x)
    ensures Covered(Apply(c, w), x.variant, x.config)
  {
    if x in c.past {
      assert Recent(c, x) && Covered(c, x.variant, x.config);
    } else {
      assert Covered(c, x.variant, c.configs[x.variant]);
    }
  }

  lemma AllowedKeepsSafe(c: Cluster, w: Write)
    requires Safe(c) && Allowed(c, w)
    ensures Safe(Apply(c, w))
  {
    forall v | v in Apply(c, w).configs ensures Covered(Apply(c, w), v, Apply(c, w).configs[v]) {
      AllowedKeepsPublished(c, w, v);
    }
    forall x | Recent(Apply(c, w), x) ensures Covered(Apply(c, w), x.variant, x.config) {
      AllowedKeepsRecent(c, w, x);
    }
  }

  ghost predicate AllAllowed(c: Cluster, ws: seq<Write>)
    decreases |ws|
  {
    ws != [] ==> Allowed(c, ws[0]) && AllAllowed(Apply(c, ws[0]), ws[1..])
  }

  lemma {:induction false} ExecuteAppend(c: Cluster, a: seq<Write>, b: seq<Write>)
    ensures Execute(c, a + b) == Execute(Execute(c, a), b)
    decreases |a|
  {
    if a == [] {
      assert a + b == b;
    } else {
      assert (a + b)[1..] == a[1..] + b;
      ExecuteAppend(Apply(c, a[0]), a[1..], b);
    }
  }

  lemma {:induction false} AllowedAppend(c: Cluster, a: seq<Write>, b: seq<Write>)
    requires AllAllowed(c, a) && AllAllowed(Execute(c, a), b)
    ensures AllAllowed(c, a + b)
    decreases |a|
  {
    if a == [] {
      assert a + b == b;
    } else {
      assert (a + b)[1..] == a[1..] + b;
      AllowedAppend(Apply(c, a[0]), a[1..], b);
    }
  }

  /** Two allowed phases in a row. */
  lemma Then(c: Cluster, first: seq<Write>, between: Cluster, second: seq<Write>, after: Cluster)
    requires AllAllowed(c, first) && Execute(c, first) == between
    requires AllAllowed(between, second) && Execute(between, second) == after
    ensures AllAllowed(c, first + second) && Execute(c, first + second) == after
  {
    AllowedAppend(c, first, second);
    ExecuteAppend(c, first, second);
  }

  lemma OneWrite(c: Cluster, a: Write)
    ensures Execute(c, [a]) == Apply(c, a)
    ensures AllAllowed(c, [a]) <==> Allowed(c, a)
  {
    assert [a][1..] == [];
  }

  lemma TwoWrites(c: Cluster, a: Write, b: Write)
    ensures Execute(c, [a, b]) == Apply(Apply(c, a), b)
    ensures AllAllowed(c, [a, b]) <==> Allowed(c, a) && Allowed(Apply(c, a), b)
  {
    var d := Apply(c, a);
    assert [a, b][1..] == [b] && [b][1..] == [];
    assert Execute(d, [b]) == Execute(Apply(d, b), []);
    assert AllAllowed(d, [b]) <==> Allowed(d, b) && AllAllowed(Apply(d, b), []);
  }

  lemma ExecuteThree(c: Cluster, x: seq<Write>, y: seq<Write>, z: seq<Write>)
    ensures Execute(c, x + (y + z)) == Execute(Execute(Execute(c, x), y), z)
  {
    ExecuteAppend(c, x, y + z);
    ExecuteAppend(Execute(c, x), y, z);
  }

  /** Cutting an allowed program off anywhere leaves a safe cluster. */
  lemma {:induction false} CutOffIsSafe(c: Cluster, ws: seq<Write>, n: nat)
    requires Safe(c) && AllAllowed(c, ws) && n <= |ws|
    ensures Safe(Execute(c, ws[..n]))
    ensures n < |ws| ==> Allowed(Execute(c, ws[..n]), ws[n])
    decreases |ws|
  {
    if n > 0 {
      AllowedKeepsSafe(c, ws[0]);
      CutOffIsSafe(Apply(c, ws[0]), ws[1..], n - 1);
      assert ws[..n][1..] == ws[1..][..n - 1];
    } else {
      assert ws[..n] == [];
    }
  }

  /** Time passing can only make versions stop mattering. */
  lemma WaitingIsSafe(c: Cluster, seconds: nat)
    requires Safe(c)
    ensures Safe(c.(now := c.now + seconds))
  {
    var later := c.(now := c.now + seconds);
    forall x | Recent(later, x) ensures Covered(later, x.variant, x.config) {
      assert Recent(c, x) && Covered(c, x.variant, x.config);
    }
    forall v | v in later.configs ensures Covered(later, v, later.configs[v]) {
      assert Covered(c, v, c.configs[v]);
    }
  }

  /** The write takes a key away from a variant. */
  predicate Drops(c: Cluster, w: Write, v: Variant, key: string) {
    key in Held(c, v) && key !in Held(Apply(c, w), v)
  }

  /** An allowed write never takes away a key that a config some pod may be running references. */
  lemma DropsAreUnreferenced(c: Cluster, w: Write, v: Variant, key: string)
    requires Safe(c) && Allowed(c, w) && Drops(c, w, v, key)
    ensures v in c.configs ==> key !in c.configs[v].refs
    ensures forall x :: x in c.past && c.now - x.replacedAt < 90 && x.variant == v ==> key !in x.config.refs
  {
    forall x | x in c.past && c.now - x.replacedAt < 90 && x.variant == v ensures key !in x.config.refs {
      assert Recent(c, x);
    }
  }

  /** Whether replacing `existing` by `target` removes a key. */
  predicate WouldDropAKey(existing: Data, target: Data) {
    exists k :: k in existing && k !in target
  }

  method AssetsWouldDropAKey(existing: Data, target: Data) returns (drops: bool)
    ensures drops == WouldDropAKey(existing, target)
  {
    var rest := existing.Keys;
    while rest != {}
      invariant rest <= existing.Keys
      invariant forall k :: k in existing && k !in rest ==> k in target
      decreases |rest|
    {
      var k :| k in rest;
      if k !in target {
        return true;
      }
      rest := rest - {k};
    }
    return false;
  }

  /** Whether keys may be dropped now, and if not, how long until they may. */
  function PruneDecision(configUnchanged: bool, publishedAt: Option<int>, now: int): (r: (bool, int)) {
    if !configUnchanged then (false, 0)
    else match publishedAt
         case None => (false, GRACE_PERIOD)
         case Some(t) => if now - t < GRACE_PERIOD then (false, GRACE_PERIOD - (now - t)) else (true, 0)
  }

  /** The deadline is anchored to the mark: waiting exactly as long as asked opens the gate, however
      many rounds look in between, and no earlier look opens it. */
  lemma PruneDeadlineIsFixed(mark: int, now: int, later: int)
    requires now <= later && !PruneDecision(true, Some(mark), now).0
    ensures PruneDecision(true, Some(mark), later).0 <==> later >= now + PruneDecision(true, Some(mark), now).1
    ensures PruneDecision(true, Some(mark), later).0 <==> later >= mark + 90
    ensures !PruneDecision(true, Some(mark), later).0 ==>
              later + PruneDecision(true, Some(mark), later).1 == now + PruneDecision(true, Some(mark), now).1
  {
  }

  /** The round asks to be woken up exactly when it holds off for no other reason than the wait, and then after
      what is left of the ninety seconds, all of them if there is no mark yet. */
  lemma WakesUpExactly(configUnchanged: bool, mark: Option<int>, now: int)
    ensures var (prune, after) := PruneDecision(configUnchanged, mark, now);
            && (prune <==> configUnchanged && mark.Some? && now - mark.value >= 90)
            && after == if configUnchanged && !prune then if mark.Some? then 90 - (now - mark.value) else 90 else 0
  {
  }

  /** Once the gate is open no config replaced before the mark can still be running. */
  lemma OpenGateMeansNothingRecent(c: Cluster, configUnchanged: bool)
    requires MarkCoversChanges(c) && PruneDecision(configUnchanged, c.mark, c.now).0
    ensures configUnchanged && forall x :: x in c.past ==> c.now - x.replacedAt >= 90
  {
  }

  /** The API server as one round meets it: it takes `left` more writes, then refuses. */
  class ApiServer {
    var cluster: Cluster
    var left: nat

    constructor (cluster: Cluster, left: nat)
      ensures this.cluster == cluster && this.left == left
    {
      this.cluster, this.left := cluster, left;
    }

    method Issue(w: Write) returns (ok: bool)
      modifies this
      ensures Issued(old(cluster), old(left), [w], cluster, left, ok)
    {
      ok := left > 0;
      if ok {
        cluster, left := Apply(cluster, w), left - 1;
      }
    }
  }

  /** From `before`, with `allowance` writes to go, the writes `ws` were issued in order up to the first
      refusal, leading to `after`. */
  ghost predicate Issued(before: Cluster, allowance: nat, ws: seq<Write>, after: Cluster, left: nat, ok: bool) {
    && (ok <==> allowance >= |ws|)
    && left == (if ok then allowance - |ws| else 0)
    && after == Execute(before, if ok then ws else ws[..allowance])
  }

  lemma IssuedThen(a: Cluster, n: nat, first: seq<Write>, b: Cluster, m: nat, second: seq<Write>, c: Cluster, left: nat, ok: bool)
    requires Issued(a, n, first, b, m, true) && Issued(b, m, second, c, left, ok)
    ensures Issued(a, n, first + second, c, left, ok)
  {
    ExecuteAppend(a, first, second);
    if !ok {
      assert (first + second)[..n] == first + second[..m];
      ExecuteAppend(a, first, second[..m]);
    }
  }

  lemma IssuedRefused(a: Cluster, n: nat, first: seq<Write>, b: Cluster, m: nat, second: seq<Write>)
    requires Issued(a, n, first, b, m, false)
    ensures Issued(a, n, first + second, b, m, false)
  {
    assert (first + second)[..n] == first[..n];
  }
}
