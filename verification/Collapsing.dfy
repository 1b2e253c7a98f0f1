/** Collapsing a group of sources in a configuration: what is replaced and what stays. */
module Collapsing {
  import opened Outcomes
  import opened Selectors
  import opened Buckets
  import opened Dataflow
  import opened Routing

  /** Where the consumers of the collapsed sources read now; `members` gives each source's namespace. */
  ghost function Renames(digest: string -> Digest, gid: Gid, namespaces: seq<string>,
      members: map<Name, string>): map<Name, Output> {
    map n | n in members :: OutputFor(digest, gid, namespaces, BestBuckets(|namespaces|), members[n])
  }

  function RewireTransforms(ts: map<Name, Transform>, renames: map<Name, Output>): map<Name, Transform> {
    map n | n in ts :: Transform(Rewritten(ts[n].inputs, renames), ts[n].body)
  }

  function RewireSinks(ts: map<Name, Sink>, renames: map<Name, Output>): map<Name, Sink> {
    map n | n in ts :: Sink(Rewritten(ts[n].inputs, renames), ts[n].code)
  }

  ghost function Collapse(digest: string -> Digest, cfg: Config, gid: Gid, settings: Settings,
      namespaces: seq<string>, members: map<Name, string>): Config {
    var renames := Renames(digest, gid, namespaces, members);
    var routers := Routers(digest, gid, namespaces, BestBuckets(|namespaces|));
    Config((cfg.sources - members.Keys)[OptSource(gid) := Collapsed(namespaces, settings)],
           RewireTransforms(cfg.transforms + routers, renames),
           RewireSinks(cfg.sinks, renames))
  }

  /** A generated name belongs to a group whose collapsed source is there. */
  ghost predicate Anchored(cfg: Config, n: Name) {
    n.Plain? || OptSource(n.gid) in cfg.sources
  }

  ghost predicate AllAnchored(cfg: Config, inputs: seq<Output>) {
    forall o :: o in inputs ==> Anchored(cfg, o.name)
  }

  /** Users' transforms read anything; a generated one reads one generated output. */
  ghost predicate WellPlaced(cfg: Config, n: Name, t: Transform) {
    && Anchored(cfg, n) && !n.OptSource? && AllAnchored(cfg, t.inputs)
    && (n.Plain? <==> t.body.User?)
    && (!n.Plain? ==> |t.inputs| == 1 && !t.inputs[0].name.Plain?)
  }

  /** What holds of a configuration at every point of the optimization. */
  ghost predicate WellFormed(cfg: Config) {
    && (forall n :: n in cfg.sources ==> n.Plain? || n.OptSource?)
    && cfg.sources.Keys !! cfg.transforms.Keys
    && (forall n :: n in cfg.transforms ==> WellPlaced(cfg, n, cfg.transforms[n]))
    && (forall n :: n in cfg.sinks ==> n.Plain? && AllAnchored(cfg, cfg.sinks[n].inputs))
  }

  /** A source the group may contain: user-made, with these settings, scoped to this one namespace. */
  ghost predicate Member(cfg: Config, settings: Settings, n: Name, ns: string) {
    n.Plain? && n in cfg.sources && cfg.sources[n].settings == settings && SingleNamespaceOf(cfg.sources[n].selector) == Some(ns)
  }

  ghost predicate Collapsible(cfg: Config, gid: Gid, settings: Settings, namespaces: seq<string>, members: map<Name, string>) {
    && WellFormed(cfg) && OptSource(gid) !in cfg.sources && Watchable(namespaces, settings)
    && forall n :: n in members ==> Member(cfg, settings, n, members[n]) && members[n] in namespaces
  }

  /** The output is not one of the group's generated ones. */
  predicate Old(gid: Gid, o: Output) {
    o.name.Plain? || o.name.gid != gid
  }

  predicate FromMember(members: map<Name, string>, o: Output) {
    o.Main? && o.name in members
  }

  lemma AnchoredIsOld(cfg: Config, gid: Gid, o: Output)
    requires OptSource(gid) !in cfg.sources && Anchored(cfg, o.name)
    ensures Old(gid, o)
  {
  }

  /** A generated component's only input is left alone. */
  lemma GeneratedInputKept(o: Output, renames: map<Name, Output>)
    requires o.name !in renames
    ensures Rewritten([o], renames) == [o]
  {
    assert [o][..0] == [] && [] + [o] == [o];
  }

  lemma RouterKept(digest: string -> Digest, cfg: Config, gid: Gid, settings: Settings, namespaces: seq<string>,
      members: map<Name, string>, n: Name)
    requires Collapsible(cfg, gid, settings, namespaces, members)
    requires n in Routers(digest, gid, namespaces, BestBuckets(|namespaces|))
    ensures var after := Collapse(digest, cfg, gid, settings, namespaces, members);
            n in after.transforms && after.transforms[n] == Routers(digest, gid, namespaces, BestBuckets(|namespaces|))[n]
    ensures !n.Plain? && !n.OptSource? && n.gid == gid
  {
    var routers := Routers(digest, gid, namespaces, BestBuckets(|namespaces|));
    RouterReadsGenerated(digest, gid, namespaces, BestBuckets(|namespaces|), n);
    var o := routers[n].inputs[0];
    GeneratedInputKept(o, Renames(digest, gid, namespaces, members));
  }

  lemma RouterReadsGenerated(digest: string -> Digest, gid: Gid, namespaces: seq<string>, buckets: Count, n: Name)
    requires n in Routers(digest, gid, namespaces, buckets)
    ensures !n.Plain? && !n.OptSource? && n.gid == gid
    ensures var t := Routers(digest, gid, namespaces, buckets)[n];
            |t.inputs| == 1 && t.inputs == [t.inputs[0]] && !t.inputs[0].name.Plain? && t.inputs[0].name.gid == gid && !t.body.User?
  {
    GeneratedNames(digest, gid, namespaces, buckets);
  }

  lemma TransformStays(digest: string -> Digest, cfg: Config, gid: Gid, settings: Settings, namespaces: seq<string>,
      members: map<Name, string>, n: Name)
    requires Collapsible(cfg, gid, settings, namespaces, members) && n in cfg.transforms
    ensures var after, t := Collapse(digest, cfg, gid, settings, namespaces, members), cfg.transforms[n];
            n in after.transforms &&
            after.transforms[n] == Transform(Rewritten(t.inputs, Renames(digest, gid, namespaces, members)), t.body)
  {
    assert WellPlaced(cfg, n, cfg.transforms[n]);
    GeneratedNames(digest, gid, namespaces, BestBuckets(|namespaces|));
    assert n !in Routers(digest, gid, namespaces, BestBuckets(|namespaces|));
  }

  // What collapsing leaves behind.

  lemma OutputAnchored(digest: string -> Digest, after: Config, gid: Gid, namespaces: seq<string>,
      members: map<Name, string>, inputs: seq<Output>)
    requires OptSource(gid) in after.sources && AllAnchored(after, inputs)
    ensures AllAnchored(after, Rewritten(inputs, Renames(digest, gid, namespaces, members)))
  {
    var renames := Renames(digest, gid, namespaces, members);
    forall o | o in Rewritten(inputs, renames) ensures Anchored(after, o.name) {
      var i :| 0 <= i < |inputs| && Renamed(inputs[i], renames) == o;
      assert inputs[i] in inputs;
    }
  }

  lemma AnchoredStays(digest: string -> Digest, cfg: Config, gid: Gid, settings: Settings, namespaces: seq<string>,
      members: map<Name, string>, inputs: seq<Output>)
    requires Collapsible(cfg, gid, settings, namespaces, members) && AllAnchored(cfg, inputs)
    ensures AllAnchored(Collapse(digest, cfg, gid, settings, namespaces, members), inputs)
  {
    forall o | o in inputs ensures Anchored(Collapse(digest, cfg, gid, settings, namespaces, members), o.name) {
      assert Anchored(cfg, o.name);
    }
  }

  lemma WellPlacedStays(digest: string -> Digest, cfg: Config, gid: Gid, settings: Settings, namespaces: seq<string>,
      members: map<Name, string>, n: Name)
    requires Collapsible(cfg, gid, settings, namespaces, members) && n in cfg.transforms
    ensures var after := Collapse(digest, cfg, gid, settings, namespaces, members);
            n in after.transforms && WellPlaced(after, n, after.transforms[n])
  {
    var t, after := cfg.transforms[n], Collapse(digest, cfg, gid, settings, namespaces, members);
    assert WellPlaced(cfg, n, t);
    TransformStays(digest, cfg, gid, settings, namespaces, members, n);
    AnchoredStays(digest, cfg, gid, settings, namespaces, members, t.inputs);
    OutputAnchored(digest, after, gid, namespaces, members, t.inputs);
    if !n.Plain? {
      assert t.inputs == [t.inputs[0]];
      GeneratedInputKept(t.inputs[0], Renames(digest, gid, namespaces, members));
    }
  }

  lemma RouterPlaced(digest: string -> Digest, cfg: Config, gid: Gid, settings: Settings, namespaces: seq<string>,
      members: map<Name, string>, n: Name)
    requires Collapsible(cfg, gid, settings, namespaces, members)
    requires n in Routers(digest, gid, namespaces, BestBuckets(|namespaces|))
    ensures var after := Collapse(digest, cfg, gid, settings, namespaces, members);
            n in after.transforms && WellPlaced(after, n, after.transforms[n])
  {
    RouterKept(digest, cfg, gid, settings, namespaces, members, n);
    RouterReadsGenerated(digest, gid, namespaces, BestBuckets(|namespaces|), n);
  }

  lemma CollapseWellFormed(digest: string -> Digest, cfg: Config, gid: Gid, settings: Settings,
      namespaces: seq<string>, members: map<Name, string>)
    requires Collapsible(cfg, gid, settings, namespaces, members)
    ensures WellFormed(Collapse(digest, cfg, gid, settings, namespaces, members))
  {
    var after := Collapse(digest, cfg, gid, settings, namespaces, members);
    forall n | n in after.transforms ensures WellPlaced(after, n, after.transforms[n]) && n !in after.sources {
      TransformPlaced(digest, cfg, gid, settings, namespaces, members, n);
    }
    forall n | n in after.sinks ensures n.Plain? && AllAnchored(after, after.sinks[n].inputs) {
      SinkPlaced(digest, cfg, gid, settings, namespaces, members, n);
    }
  }

  lemma TransformPlaced(digest: string -> Digest, cfg: Config, gid: Gid, settings: Settings, namespaces: seq<string>,
      members: map<Name, string>, n: Name)
    requires Collapsible(cfg, gid, settings, namespaces, members)
    requires n in Collapse(digest, cfg, gid, settings, namespaces, members).transforms
    ensures var after := Collapse(digest, cfg, gid, settings, namespaces, members);
            WellPlaced(after, n, after.transforms[n]) && n !in after.sources
  {
    if n in cfg.transforms {
      WellPlacedStays(digest, cfg, gid, settings, namespaces, members, n);
      assert WellPlaced(cfg, n, cfg.transforms[n]);
    } else {
      RouterPlaced(digest, cfg, gid, settings, namespaces, members, n);
      NewNameUnused(cfg, gid, n);
    }
  }

  lemma SinkPlaced(digest: string -> Digest, cfg: Config, gid: Gid, settings: Settings, namespaces: seq<string>,
      members: map<Name, string>, n: Name)
    requires Collapsible(cfg, gid, settings, namespaces, members) && n in cfg.sinks
    ensures var after := Collapse(digest, cfg, gid, settings, namespaces, members);
            n.Plain? && AllAnchored(after, after.sinks[n].inputs)
  {
    AnchoredStays(digest, cfg, gid, settings, namespaces, members, cfg.sinks[n].inputs);
    OutputAnchored(digest, Collapse(digest, cfg, gid, settings, namespaces, members), gid, namespaces, members, cfg.sinks[n].inputs);
  }

  lemma NewNameUnused(cfg: Config, gid: Gid, n: Name)
    requires WellFormed(cfg) && !n.Plain? && !n.OptSource?
    ensures n !in cfg.sources
  {
  }
}
