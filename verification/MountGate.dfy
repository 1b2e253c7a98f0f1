/** Building the aggregator's pod template, and telling from a live one whether it mounts the assets. */
module MountGate {
  const ASSETS_VOLUME: string := "secret-assets"
  const ASSETS_PATH: string := "/etc/vector/secrets"

  datatype VolumeSource = FromSecret(secret: string) | EmptyDir | HostPath(path: string) | AnyOther(text: string)

  datatype Volume = Volume(name: string, source: VolumeSource)

  datatype Mount = Mount(name: string, path: string)

  /** The mounts of every container, the main one first. */
  datatype PodSpec = PodSpec(volumes: seq<Volume>, containers: seq<seq<Mount>>)

  /** What a user asks for, and the names of the operator's own Secrets. */
  datatype Controller = Controller(
    volumes: seq<Volume>,
    mounts: seq<Mount>,
    compress: bool,
    persistent: bool,
    dataDir: string,
    configSecret: string,
    assetsSecret: string,
    hasAssets: bool)

  // The gate.

  ghost predicate HasVolume(volumes: seq<Volume>, secret: string) {
    Volume(ASSETS_VOLUME, FromSecret(secret)) in volumes
  }

  ghost predicate HasMount(containers: seq<seq<Mount>>) {
    exists c :: c in containers && Mount(ASSETS_VOLUME, ASSETS_PATH) in c
  }

  ghost predicate Mounts(spec: PodSpec, secret: string) {
    HasVolume(spec.volumes, secret) && HasMount(spec.containers)
  }

  method HasOperatorSecretAssetsMount(spec: PodSpec, secret: string) returns (r: bool)
    ensures r == Mounts(spec, secret)
  {
    var hasVolume := false;
    for i := 0 to |spec.volumes|
      invariant !hasVolume && Volume(ASSETS_VOLUME, FromSecret(secret)) !in spec.volumes[..i]
    {
      var v := spec.volumes[i];
      if v.name == ASSETS_VOLUME && v.source.FromSecret? && v.source.secret == secret {
        hasVolume := true;
        assert v in spec.volumes;
        break;
      }
    }
    assert spec.volumes[..|spec.volumes|] == spec.volumes;
    if !hasVolume {
      return false;
    }
    for i := 0 to |spec.containers|
      invariant forall k :: 0 <= k < i ==> Mount(ASSETS_VOLUME, ASSETS_PATH) !in spec.containers[k]
    {
      var c := spec.containers[i];
      for j := 0 to |c|
        invariant Mount(ASSETS_VOLUME, ASSETS_PATH) !in c[..j]
      {
        if c[j].name == ASSETS_VOLUME && c[j].path == ASSETS_PATH {
          assert c in spec.containers && c[j] in c;
          return true;
        }
      }
      assert c[..|c|] == c;
    }
    return false;
  }

  // The authoritative volume and mount.

  function OtherVolumes(volumes: seq<Volume>, name: string): (r: seq<Volume>)
    ensures forall v :: v in r <==> v in volumes && v.name != name
  {
    if volumes == [] then []
    else
      assert volumes == volumes[..|volumes| - 1] + [volumes[|volumes| - 1]];
      OtherVolumes(volumes[..|volumes| - 1], name) + if volumes[|volumes| - 1].name != name then [volumes[|volumes| - 1]] else []
  }

  function OtherMounts(mounts: seq<Mount>, m: Mount): (r: seq<Mount>)
    ensures forall x :: x in r <==> x in mounts && x.name != m.name && x.path != m.path
  {
    if mounts == [] then []
    else
      var last := mounts[|mounts| - 1];
      assert mounts == mounts[..|mounts| - 1] + [last];
      OtherMounts(mounts[..|mounts| - 1], m) + if last.name != m.name && last.path != m.path then [last] else []
  }

  method SetAuthoritativeVolume(volumes: seq<Volume>, v: Volume) returns (out: seq<Volume>)
    ensures out == OtherVolumes(volumes, v.name) + [v]
  {
    out := [];
    for i := 0 to |volumes|
      invariant out == OtherVolumes(volumes[..i], v.name)
    {
      assert volumes[..i + 1][..i] == volumes[..i];
      if volumes[i].name != v.name {
        out := out + [volumes[i]];
      }
    }
    assert volumes[..|volumes|] == volumes;
    out := out + [v];
  }

  method SetAuthoritativeVolumeMount(mounts: seq<Mount>, m: Mount) returns (out: seq<Mount>)
    ensures out == OtherMounts(mounts, m) + [m]
  {
    out := [];
    for i := 0 to |mounts|
      invariant out == OtherMounts(mounts[..i], m)
    {
      assert mounts[..i + 1][..i] == mounts[..i];
      if mounts[i].name != m.name && mounts[i].path != m.path {
        out := out + [mounts[i]];
      }
    }
    assert mounts[..|mounts|] == mounts;
    out := out + [m];
  }

  // The builder.

  function VolumeNames(volumes: seq<Volume>): set<string> {
    set v | v in volumes :: v.name
  }

  function MountNames(mounts: seq<Mount>): set<string> {
    set m | m in mounts :: m.name
  }

  /** The volumes the aggregator needs, in their fixed order. */
  function RequiredVolumes(ctrl: Controller): seq<Volume> {
    [Volume("config", if ctrl.compress then EmptyDir else FromSecret(ctrl.configSecret))]
    + (if ctrl.persistent then [] else [Volume("data", HostPath(ctrl.dataDir))])
    + [Volume("procfs", HostPath("/proc")), Volume("sysfs", HostPath("/sys"))]
    + if ctrl.compress then [Volume("app-config-compress", FromSecret(ctrl.configSecret))] else []
  }

  function RequiredMounts(ctrl: Controller): seq<Mount> {
    [Mount("config", "/etc/vector"), Mount("data", "/vector-data-dir"), Mount("procfs", "/host/proc"), Mount("sysfs", "/host/sys")]
    + if ctrl.compress then [Mount("app-config-compress", "/tmp/archive")] else []
  }

  function MissingVolumes(required: seq<Volume>, taken: set<string>): (r: seq<Volume>)
    ensures forall v :: v in r <==> v in required && v.name !in taken
  {
    if required == [] then []
    else
      assert required == required[..|required| - 1] + [required[|required| - 1]];
      MissingVolumes(required[..|required| - 1], taken) +
      if required[|required| - 1].name in taken then [] else [required[|required| - 1]]
  }

  function MissingMounts(required: seq<Mount>, taken: set<string>): (r: seq<Mount>)
    ensures forall m :: m in r <==> m in required && m.name !in taken
  {
    if required == [] then []
    else
      assert required == required[..|required| - 1] + [required[|required| - 1]];
      MissingMounts(required[..|required| - 1], taken) +
      if required[|required| - 1].name in taken then [] else [required[|required| - 1]]
  }

  /** User volumes win over required ones of the same name; the assets volume wins over everything. */
  function BuiltVolumes(ctrl: Controller): seq<Volume> {
    var merged := ctrl.volumes + MissingVolumes(RequiredVolumes(ctrl), VolumeNames(ctrl.volumes));
    if ctrl.hasAssets then OtherVolumes(merged, ASSETS_VOLUME) + [Volume(ASSETS_VOLUME, FromSecret(ctrl.assetsSecret))] else merged
  }

  function BuiltMounts(ctrl: Controller): seq<Mount> {
    var merged := ctrl.mounts + MissingMounts(RequiredMounts(ctrl), MountNames(ctrl.mounts));
    var assets := Mount(ASSETS_VOLUME, ASSETS_PATH);
    if ctrl.hasAssets then OtherMounts(merged, assets) + [assets] else merged
  }

  /** The reloader that runs beside the main container when the config is compressed. */
  function Sidecar(): seq<Mount> {
    [Mount("config", "/etc/vector"), Mount("app-config-compress", "/tmp/archive")]
  }

  function BuiltPod(ctrl: Controller): PodSpec {
    PodSpec(BuiltVolumes(ctrl), [BuiltMounts(ctrl)] + if ctrl.compress then [Sidecar()] else [])
  }

  lemma MissingVolumesStep(required: seq<Volume>, i: nat, taken: set<string>)
    requires i < |required|
    ensures MissingVolumes(required[..i + 1], taken) ==
            MissingVolumes(required[..i], taken) + if required[i].name in taken then [] else [required[i]]
  {
    assert required[..i + 1][..i] == required[..i];
  }

  method AddMissingVolumes(user: seq<Volume>, required: seq<Volume>) returns (volumes: seq<Volume>)
    ensures volumes == user + MissingVolumes(required, VolumeNames(user))
  {
    var taken := VolumeNames(user);
    volumes := user;
    for i := 0 to |required|
      invariant volumes == user + MissingVolumes(required[..i], taken)
    {
      MissingVolumesStep(required, i, taken);
      if required[i].name !in taken {
        volumes := volumes + [required[i]];
      }
    }
    assert required[..|required|] == required;
  }

  lemma MissingMountsStep(required: seq<Mount>, i: nat, taken: set<string>)
    requires i < |required|
    ensures MissingMounts(required[..i + 1], taken) ==
            MissingMounts(required[..i], taken) + if required[i].name in taken then [] else [required[i]]
  {
    assert required[..i + 1][..i] == required[..i];
  }

  method AddMissingMounts(user: seq<Mount>, required: seq<Mount>) returns (mounts: seq<Mount>)
    ensures mounts == user + MissingMounts(required, MountNames(user))
  {
    var taken := MountNames(user);
    mounts := user;
    for i := 0 to |required|
      invariant mounts == user + MissingMounts(required[..i], taken)
    {
      MissingMountsStep(required, i, taken);
      if required[i].name !in taken {
        mounts := mounts + [required[i]];
      }
    }
    assert required[..|required|] == required;
  }

  method GenerateVolumes(ctrl: Controller) returns (volumes: seq<Volume>)
    ensures volumes == BuiltVolumes(ctrl)
  {
    volumes := AddMissingVolumes(ctrl.volumes, RequiredVolumes(ctrl));
    if ctrl.hasAssets {
      volumes := SetAuthoritativeVolume(volumes, Volume(ASSETS_VOLUME, FromSecret(ctrl.assetsSecret)));
    }
  }

  method GenerateMounts(ctrl: Controller) returns (mounts: seq<Mount>)
    ensures mounts == BuiltMounts(ctrl)
  {
    mounts := AddMissingMounts(ctrl.mounts, RequiredMounts(ctrl));
    if ctrl.hasAssets {
      mounts := SetAuthoritativeVolumeMount(mounts, Mount(ASSETS_VOLUME, ASSETS_PATH));
    }
  }

  // What the builder and the gate agree on.

  lemma RequiredAreOthers(ctrl: Controller)
    ensures forall v :: v in RequiredVolumes(ctrl) ==> v.name != ASSETS_VOLUME
    ensures forall m :: m in RequiredMounts(ctrl) ==> m.name != ASSETS_VOLUME && m.path != ASSETS_PATH
    ensures forall m :: m in Sidecar() ==> m.name != ASSETS_VOLUME && m.path != ASSETS_PATH
  {
    assert ASSETS_VOLUME[0] == 's' && ASSETS_VOLUME[1] == 'e' && |ASSETS_VOLUME| == 13 && |ASSETS_PATH| == 19;
    assert "sysfs"[1] == 'y' && "config"[0] == 'c' && "data"[0] == 'd' && "procfs"[0] == 'p' && "app-config-compress"[0] == 'a';
  }

  /** A user's own volume and mount that look like the operator's. */
  ghost predicate LookAlike(ctrl: Controller) {
    Volume(ASSETS_VOLUME, FromSecret(ctrl.assetsSecret)) in ctrl.volumes && Mount(ASSETS_VOLUME, ASSETS_PATH) in ctrl.mounts
  }

  /** The gate opens for a built template exactly when the template was built with assets, or the user
      has declared both the operator's volume and its mount by hand. */
  lemma GateExactly(ctrl: Controller)
    ensures Mounts(BuiltPod(ctrl), ctrl.assetsSecret) <==> ctrl.hasAssets || LookAlike(ctrl)
  {
    RequiredAreOthers(ctrl);
    var spec, volume, mount := BuiltPod(ctrl), Volume(ASSETS_VOLUME, FromSecret(ctrl.assetsSecret)), Mount(ASSETS_VOLUME, ASSETS_PATH);
    assert spec.containers[0] == BuiltMounts(ctrl) && spec.containers[0] in spec.containers;
    assert volume in BuiltVolumes(ctrl) <==> ctrl.hasAssets || volume in ctrl.volumes;
    assert mount in BuiltMounts(ctrl) <==> ctrl.hasAssets || mount in ctrl.mounts;
    assert forall c :: c in spec.containers ==> c == BuiltMounts(ctrl) || c == Sidecar();
  }

  /** With assets there is exactly one volume of the reserved name and exactly one mount that has the
      reserved name or the reserved path, whatever the user declared; everything else the user
      declared is still there. */
  lemma ReservedOnce(ctrl: Controller)
    requires ctrl.hasAssets
    ensures var volumes, mounts := BuiltVolumes(ctrl), BuiltMounts(ctrl);
            && |volumes| > 0 && volumes[|volumes| - 1] == Volume(ASSETS_VOLUME, FromSecret(ctrl.assetsSecret))
            && (forall i :: 0 <= i < |volumes| - 1 ==> volumes[i].name != ASSETS_VOLUME)
            && |mounts| > 0 && mounts[|mounts| - 1] == Mount(ASSETS_VOLUME, ASSETS_PATH)
            && (forall i :: 0 <= i < |mounts| - 1 ==> mounts[i].name != ASSETS_VOLUME && mounts[i].path != ASSETS_PATH)
            && (forall v :: v in ctrl.volumes && v.name != ASSETS_VOLUME ==> v in volumes)
            && (forall m :: m in ctrl.mounts && m.name != ASSETS_VOLUME && m.path != ASSETS_PATH ==> m in mounts)
  {
    var merged := ctrl.volumes + MissingVolumes(RequiredVolumes(ctrl), VolumeNames(ctrl.volumes));
    var others := OtherVolumes(merged, ASSETS_VOLUME);
    forall i | 0 <= i < |others| ensures others[i].name != ASSETS_VOLUME {
      assert others[i] in others;
    }
    var all := ctrl.mounts + MissingMounts(RequiredMounts(ctrl), MountNames(ctrl.mounts));
    var rest := OtherMounts(all, Mount(ASSETS_VOLUME, ASSETS_PATH));
    forall i | 0 <= i < |rest| ensures rest[i].name != ASSETS_VOLUME && rest[i].path != ASSETS_PATH {
      assert rest[i] in rest;
    }
  }

  // What a built template contains.

  /** A volume the operator adds on its own: the config Secret, or an empty directory for it when it is
      compressed, the data directory unless it is persistent, the node's procfs and sysfs, and the compressed config. */
  ghost predicate OperatorVolume(ctrl: Controller, v: Volume) {
    || (v.name == "config" && v.source == if ctrl.compress then EmptyDir else FromSecret(ctrl.configSecret))
    || (v.name == "data" && !ctrl.persistent && v.source == HostPath(ctrl.dataDir))
    || (v.name == "procfs" && v.source == HostPath("/proc"))
    || (v.name == "sysfs" && v.source == HostPath("/sys"))
    || (v.name == "app-config-compress" && ctrl.compress && v.source == FromSecret(ctrl.configSecret))
  }

  ghost predicate OperatorMount(ctrl: Controller, m: Mount) {
    || (m.name == "config" && m.path == "/etc/vector")
    || (m.name == "data" && m.path == "/vector-data-dir")
    || (m.name == "procfs" && m.path == "/host/proc")
    || (m.name == "sysfs" && m.path == "/host/sys")
    || (m.name == "app-config-compress" && ctrl.compress && m.path == "/tmp/archive")
  }

  /** The template has exactly the user's volumes and those of the operator whose name the user has not taken;
      with assets, theirs in place of any other of the reserved name. */
  lemma VolumesExactly(ctrl: Controller, v: Volume)
    ensures v in BuiltVolumes(ctrl) <==>
            if ctrl.hasAssets && v.name == "secret-assets" then v.source == FromSecret(ctrl.assetsSecret)
            else v in ctrl.volumes || (OperatorVolume(ctrl, v) && forall u :: u in ctrl.volumes ==> u.name != v.name)
  {
    RequiredAreOthers(ctrl);
    assert v in RequiredVolumes(ctrl) <==> OperatorVolume(ctrl, v) by {
      assert v == Volume(v.name, v.source);
    }
  }

  /** And the main container exactly the user's mounts and the operator's under names not taken; with assets,
      theirs in place of any other of the reserved name or at the reserved path. */
  lemma MountsExactly(ctrl: Controller, m: Mount)
    ensures m in BuiltMounts(ctrl) <==>
            if ctrl.hasAssets && (m.name == "secret-assets" || m.path == "/etc/vector/secrets")
            then m == Mount("secret-assets", "/etc/vector/secrets")
            else m in ctrl.mounts || (OperatorMount(ctrl, m) && forall u :: u in ctrl.mounts ==> u.name != m.name)
  {
    RequiredAreOthers(ctrl);
    assert m in RequiredMounts(ctrl) <==> OperatorMount(ctrl, m) by {
      assert m == Mount(m.name, m.path);
    }
  }

  /** Beside the main container there is a second one exactly when the config is compressed; it has the
      compressed config and the place the main one reads it from. */
  lemma ContainersExactly(ctrl: Controller)
    ensures |BuiltPod(ctrl).containers| == if ctrl.compress then 2 else 1
    ensures forall m :: m in BuiltPod(ctrl).containers[0] <==> m in BuiltMounts(ctrl)
    ensures ctrl.compress ==> forall m :: m in BuiltPod(ctrl).containers[1] <==>
              m == Mount("config", "/etc/vector") || m == Mount("app-config-compress", "/tmp/archive")
  {
  }

  /** Every mount of every container that the user has not declared names a volume of the template; only a
      persistent aggregator's data comes from elsewhere, its volume claim. */
  lemma MountsHaveVolumes(ctrl: Controller, c: seq<Mount>, m: Mount)
    requires c in BuiltPod(ctrl).containers && m in c && m !in ctrl.mounts && !(m.name == "data" && ctrl.persistent)
    ensures exists v :: v in BuiltPod(ctrl).volumes && v.name == m.name
  {
    RequiredAreOthers(ctrl);
    MountsExactly(ctrl, m);
    if m.name == "secret-assets" {
      var v := Volume("secret-assets", FromSecret(ctrl.assetsSecret));
      VolumesExactly(ctrl, v);
      assert v in BuiltVolumes(ctrl);
    } else {
      assert OperatorMount(ctrl, m);
      var own := OwnVolume(ctrl, m);
      if u :| u in ctrl.volumes && u.name == m.name {
        VolumesExactly(ctrl, u);
        assert u in BuiltVolumes(ctrl);
      } else {
        VolumesExactly(ctrl, own);
        assert own in BuiltVolumes(ctrl);
      }
    }
  }

  ghost function OwnVolume(ctrl: Controller, m: Mount): (v: Volume)
    requires OperatorMount(ctrl, m) && !(m.name == "data" && ctrl.persistent)
    ensures v.name == m.name && OperatorVolume(ctrl, v)
  {
    if m.name == "config" then Volume("config", if ctrl.compress then EmptyDir else FromSecret(ctrl.configSecret))
    else if m.name == "data" then Volume("data", HostPath(ctrl.dataDir))
    else if m.name == "procfs" then Volume("procfs", HostPath("/proc"))
    else if m.name == "sysfs" then Volume("sysfs", HostPath("/sys"))
    else Volume("app-config-compress", FromSecret(ctrl.configSecret))
  }

  /** The order of the template does not depend on the assets: the user's volumes first, then the operator's,
      the config before the data directory; turning the assets on adds at the end only. */
  lemma AssetsAddLast(ctrl: Controller)
    requires !ctrl.hasAssets && forall v :: v in ctrl.volumes ==> v.name != "secret-assets"
    ensures BuiltVolumes(ctrl.(hasAssets := true)) ==
            BuiltVolumes(ctrl) + [Volume("secret-assets", FromSecret(ctrl.assetsSecret))]
    ensures |ctrl.volumes| <= |BuiltVolumes(ctrl)| && BuiltVolumes(ctrl)[..|ctrl.volumes|] == ctrl.volumes
  {
    RequiredAreOthers(ctrl);
    AllOthers(BuiltVolumes(ctrl), ASSETS_VOLUME);
    assert RequiredVolumes(ctrl.(hasAssets := true)) == RequiredVolumes(ctrl);
  }

  lemma {:induction false} AllOthers(volumes: seq<Volume>, name: string)
    requires forall v :: v in volumes ==> v.name != name
    ensures OtherVolumes(volumes, name) == volumes
  {
    if volumes != [] {
      var front, last := volumes[..|volumes| - 1], volumes[|volumes| - 1];
      assert volumes == front + [last];
      AllOthers(front, name);
    }
  }
}
