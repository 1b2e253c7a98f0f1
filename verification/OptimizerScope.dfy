/** What the optimizer may touch, said about the sources alone: which of them are replaced, what replaces them,
    and that everything else of the users' configuration stays. */
module OptimizerScope {
  import opened Outcomes
  import opened Ordering
  import opened Selectors
  import opened Buckets
  import opened Dataflow
  import opened Routing
  import opened Collapsing
  import opened Optimizer
  import opened OptimizerGroups
  import opened OptimizerInputs

  /** Of the inputs that read users' components, those reading a source in `gone` went and the others stayed. */
  ghost predicate InputsFollow(a: seq<Output>, b: seq<Output>, gone: set<Name>) {
    forall o: Output :: o.name.Plain? ==> (o in b <==> o in a && !(o.Main? && o.name in gone))
  }

  ghost predicate SourcesFollow(a: map<Name, Source>, b: map<Name, Source>, gone: set<Name>) {
    forall n: Name :: n.Plain? ==> (n in b <==> n in a && n !in gone) && (n in b ==> b[n] == a[n])
  }

  ghost predicate TransformsFollow(a: map<Name, Transform>, b: map<Name, Transform>, gone: set<Name>) {
    forall n: Name :: n.Plain? ==>
      (n in b <==> n in a) && (n in b ==> b[n].body == a[n].body && InputsFollow(a[n].inputs, b[n].inputs, gone))
  }

  ghost predicate SinksFollow(a: map<Name, Sink>, b: map<Name, Sink>, gone: set<Name>) {
    forall n :: (n in b <==> n in a) && (n in b ==> b[n].code == a[n].code && InputsFollow(a[n].inputs, b[n].inputs, gone))
  }

  /** All that happened to the users' components is that the sources in `gone` went, with the inputs reading them. */
  ghost predicate Removes(a: Config, b: Config, gone: set<Name>) {
    SourcesFollow(a.sources, b.sources, gone) && TransformsFollow(a.transforms, b.transforms, gone) && SinksFollow(a.sinks, b.sinks, gone)
  }

  lemma InputsChain(a: seq<Output>, b: seq<Output>, c: seq<Output>, first: set<Name>, second: set<Name>)
    requires InputsFollow(a, b, first) && InputsFollow(b, c, second)
    ensures InputsFollow(a, c, first + second)
  {
  }

  lemma RemovesChain(a: Config, b: Config, c: Config, first: set<Name>, second: set<Name>)
    requires Removes(a, b, first) && Removes(b, c, second)
    ensures Removes(a, c, first + second)
  {
    forall n: Name | n.Plain? && n in c.transforms
      ensures n in a.transforms && InputsFollow(a.transforms[n].inputs, c.transforms[n].inputs, first + second)
    {
      InputsChain(a.transforms[n].inputs, b.transforms[n].inputs, c.transforms[n].inputs, first, second);
    }
    forall n | n in c.sinks ensures n in a.sinks && InputsFollow(a.sinks[n].inputs, c.sinks[n].inputs, first + second) {
      InputsChain(a.sinks[n].inputs, b.sinks[n].inputs, c.sinks[n].inputs, first, second);
    }
  }

  lemma NothingRemoved(a: Config)
    ensures Removes(a, a, {})
  {
  }

  lemma RenamedFollow(inputs: seq<Output>, renames: map<Name, Output>)
    requires forall n :: n in renames ==> !renames[n].name.Plain?
    ensures InputsFollow(inputs, Rewritten(inputs, renames), renames.Keys)
  {
    forall o: Output | o.name.Plain?
      ensures o in Rewritten(inputs, renames) <==> o in inputs && !(o.Main? && o.name in renames)
    {
      if o in inputs && !(o.Main? && o.name in renames) {
        var i :| 0 <= i < |inputs| && inputs[i] == o;
        assert Renamed(inputs[i], renames) == o;
      }
    }
  }

  lemma CollapseRemoves(digest: string -> Digest, cfg: Config, gid: Gid, settings: Settings, namespaces: seq<string>,
      members: map<Name, string>)
    requires Collapsible(cfg, gid, settings, namespaces, members)
    ensures Removes(cfg, Collapse(digest, cfg, gid, settings, namespaces, members), members.Keys)
  {
    var renames, after := Renames(digest, gid, namespaces, members), Collapse(digest, cfg, gid, settings, namespaces, members);
    assert renames.Keys == members.Keys;
    forall n: Name | n.Plain?
      ensures n in after.transforms <==> n in cfg.transforms
      ensures n in after.transforms ==>
                after.transforms[n].body == cfg.transforms[n].body
                && InputsFollow(cfg.transforms[n].inputs, after.transforms[n].inputs, members.Keys)
    {
      if n in cfg.transforms {
        TransformStays(digest, cfg, gid, settings, namespaces, members, n);
        RenamedFollow(cfg.transforms[n].inputs, renames);
      } else if n in after.transforms {
        RouterReadsGenerated(digest, gid, namespaces, BestBuckets(|namespaces|), n);
      }
    }
    forall n | n in cfg.sinks ensures InputsFollow(cfg.sinks[n].inputs, after.sinks[n].inputs, members.Keys) {
      RenamedFollow(cfg.sinks[n].inputs, renames);
    }
  }

  lemma {:induction false} PiecesRemove(digest: string -> Digest, cfg: Config, base: string, settings: Settings,
      namespaces: seq<string>, members: map<Name, string>, n: nat)
    requires Ready(cfg, settings, namespaces, members) && Unused(cfg, base) && n <= PieceCount(|namespaces|)
    ensures Removes(cfg, Pieces(digest, cfg, base, settings, namespaces, members, n), Done(namespaces, members, n).Keys)
  {
    if n == 0 {
      NothingRemoved(cfg);
      NoneDone(namespaces, members);
    } else {
      var k := n - 1;
      PiecesRemove(digest, cfg, base, settings, namespaces, members, k);
      PieceRemoves(digest, cfg, base, settings, namespaces, members, k);
    }
  }

  lemma NoneDone(namespaces: seq<string>, members: map<Name, string>)
    ensures Done(namespaces, members, 0).Keys == {}
  {
  }

  lemma PieceRemoves(digest: string -> Digest, cfg: Config, base: string, settings: Settings,
      namespaces: seq<string>, members: map<Name, string>, k: nat)
    requires Ready(cfg, settings, namespaces, members) && Unused(cfg, base) && k < PieceCount(|namespaces|)
    requires Removes(cfg, Pieces(digest, cfg, base, settings, namespaces, members, k), Done(namespaces, members, k).Keys)
    ensures Removes(cfg, Pieces(digest, cfg, base, settings, namespaces, members, k + 1), Done(namespaces, members, k + 1).Keys)
  {
    var before, after := Pieces(digest, cfg, base, settings, namespaces, members, k), Pieces(digest, cfg, base, settings, namespaces, members, k + 1);
    var piece := Within(members, Piece(namespaces, k));
    PiecesHalfway(digest, cfg, base, settings, namespaces, members, k);
    CollapseRemoves(digest, before, Gid(base, Some(k)), settings, Piece(namespaces, k), piece);
    DoneStep(namespaces, members, k);
    RemovesChain(cfg, before, after, Done(namespaces, members, k).Keys, piece.Keys);
  }

  lemma GroupRemoves(setup: Setup, cfg: Config, s: string, settings: Settings, members: map<Name, string>)
    requires Ready(cfg, settings, Arranged(members.Values), members) && FirstPieces(cfg)
    ensures Removes(cfg, CollapseGroup(setup, cfg, s, settings, members), members.Keys)
  {
    var namespaces, base := Arranged(members.Values), FreeBase(cfg.sources.Keys, setup.hash(s));
    FreeIsUnused(cfg, base);
    if |namespaces| <= MAX_NAMESPACES_PER_SOURCE {
      OnePieceReady(cfg, base, settings, namespaces, members);
      CollapseRemoves(setup.digest, cfg, Gid(base, None), settings, namespaces, members);
    } else {
      PiecesRemove(setup.digest, cfg, base, settings, namespaces, members, PieceCount(|namespaces|));
      AllDone(namespaces, members);
    }
  }

  lemma GroupsUnfold(setup: Setup, cfg: Config, front: seq<string>, s: string)
    ensures GroupsCollapsed(setup, cfg, front + [s]) ==
            if |GroupMembers(setup, cfg, s)| < 2 then GroupsCollapsed(setup, cfg, front)
            else CollapseGroup(setup, GroupsCollapsed(setup, cfg, front), s, GroupSettings(setup, cfg, s), GroupMembers(setup, cfg, s))
  {
    assert (front + [s])[..|front|] == front;
  }

  lemma GoneGrows(setup: Setup, cfg: Config, front: seq<string>, s: string)
    requires s !in front
    ensures Gone(setup, cfg, front + [s]) ==
            if |GroupMembers(setup, cfg, s)| < 2 then Gone(setup, cfg, front) else Gone(setup, cfg, front) + GroupMembers(setup, cfg, s).Keys
  {
    GoneStep(setup, cfg, front, s);
    assert Gone(setup, cfg, front) + {} == Gone(setup, cfg, front);
  }

  lemma {:induction false} GroupsRemove(setup: Setup, cfg: Config, signatures: seq<string>)
    requires UserMade(cfg) && Faithful(setup) && Distinct(signatures)
    ensures Removes(cfg, GroupsCollapsed(setup, cfg, signatures), Gone(setup, cfg, signatures))
  {
    if signatures == [] {
      NothingRemoved(cfg);
      assert Gone(setup, cfg, []) == {};
    } else {
      var front, s := signatures[..|signatures| - 1], signatures[|signatures| - 1];
      assert signatures == front + [s];
      GroupsRemove(setup, cfg, front);
      NextGroupRemoves(setup, cfg, front, s);
    }
  }

  lemma NextGroupRemoves(setup: Setup, cfg: Config, front: seq<string>, s: string)
    requires UserMade(cfg) && Faithful(setup) && Distinct(front + [s]) && s !in front
    requires Removes(cfg, GroupsCollapsed(setup, cfg, front), Gone(setup, cfg, front))
    ensures Removes(cfg, GroupsCollapsed(setup, cfg, front + [s]), Gone(setup, cfg, front + [s]))
  {
    var before, members, gone := GroupsCollapsed(setup, cfg, front), GroupMembers(setup, cfg, s), Gone(setup, cfg, front);
    GroupsUnfold(setup, cfg, front, s);
    GoneGrows(setup, cfg, front, s);
    if |members| >= 2 {
      OneMoreReady(setup, cfg, front, s);
      var settings := GroupSettings(setup, cfg, s);
      GroupAfterOthers(setup, cfg, before, s, settings, members, gone);
    }
  }

  lemma GroupAfterOthers(setup: Setup, cfg: Config, before: Config, s: string, settings: Settings, members: map<Name, string>, gone: set<Name>)
    requires Ready(before, settings, Arranged(members.Values), members) && FirstPieces(before) && Removes(cfg, before, gone)
    ensures Removes(cfg, CollapseGroup(setup, before, s, settings, members), gone + members.Keys)
  {
    GroupRemoves(setup, before, s, settings, members);
    RemovesChain(cfg, before, CollapseGroup(setup, before, s, settings, members), gone, members.Keys);
  }

  lemma OneMoreReady(setup: Setup, cfg: Config, front: seq<string>, s: string)
    requires UserMade(cfg) && Faithful(setup) && Distinct(front + [s]) && |GroupMembers(setup, cfg, s)| >= 2
    ensures GroupMembers(setup, cfg, s) != map[]
    ensures FirstPieces(GroupsCollapsed(setup, cfg, front))
    ensures Ready(GroupsCollapsed(setup, cfg, front), GroupSettings(setup, cfg, s), Arranged(GroupMembers(setup, cfg, s).Values),
                  GroupMembers(setup, cfg, s))
    ensures forall k :: k in GroupMembers(setup, cfg, s) ==> k.Plain?
  {
    assert (front + [s])[..|front|] == front;
    NextGroupReady(setup, cfg, front + [s]);
  }

  // Which sources are replaced.

  /** A source the optimizer may replace at all: it did not opt out, reads pod logs and watches exactly one
      namespace by name. */
  ghost predicate Replaceable(setup: Setup, cfg: Config, n: Name) {
    && n in cfg.sources && n !in setup.optOut && cfg.sources[n].settings.typ == "kubernetes_logs"
    && exists ns :: GeneratedFor(cfg.sources[n].selector, ns)
  }

  /** Another such source is set to the same. */
  ghost predicate HasPeer(setup: Setup, cfg: Config, n: Name)
    requires n in cfg.sources
  {
    exists m :: m != n && Replaceable(setup, cfg, m) && cfg.sources[m].settings == cfg.sources[n].settings
  }

  ghost function ReplacedSources(setup: Setup, cfg: Config): set<Name> {
    set n | n in cfg.sources && Replaceable(setup, cfg, n) && HasPeer(setup, cfg, n)
  }

  lemma TwoMembers(members: map<Name, string>, n: Name)
    requires n in members
    ensures |members| >= 2 <==> exists m :: m in members && m != n
  {
    assert |members| == |members.Keys|;
    if m :| m in members && m != n {
      assert {n, m} <= members.Keys;
      SizeOfPart({n, m}, members.Keys);
    } else {
      assert members.Keys == {n};
    }
  }

  lemma {:induction false} SizeOfPart(a: set<Name>, b: set<Name>)
    requires a <= b
    ensures |a| <= |b|
  {
    if a != {} {
      var x :| x in a;
      SizeOfPart(a - {x}, b - {x});
    }
  }

  lemma GoneExactly(setup: Setup, cfg: Config)
    requires Faithful(setup)
    ensures Gone(setup, cfg, Arranged(Signatures(setup, cfg))) == ReplacedSources(setup, cfg)
  {
    forall n | n in cfg.sources
      ensures n in Gone(setup, cfg, Arranged(Signatures(setup, cfg))) <==> Replaceable(setup, cfg, n) && HasPeer(setup, cfg, n)
    {
      GroupedExactly(setup, cfg, n);
      if Grouped(setup, cfg, n) {
        PeersExactly(setup, cfg, n);
      }
    }
  }

  lemma GroupedExactly(setup: Setup, cfg: Config, n: Name)
    ensures Grouped(setup, cfg, n) <==> Replaceable(setup, cfg, n)
  {
    if Grouped(setup, cfg, n) {
      assert GeneratedFor(cfg.sources[n].selector, SingleNamespaceOf(cfg.sources[n].selector).value);
    }
    if Replaceable(setup, cfg, n) {
      var ns :| GeneratedFor(cfg.sources[n].selector, ns);
      assert SingleNamespaceOf(cfg.sources[n].selector) == Some(ns);
    }
  }

  lemma PeersExactly(setup: Setup, cfg: Config, n: Name)
    requires Faithful(setup) && Grouped(setup, cfg, n)
    ensures |GroupMembers(setup, cfg, setup.sign(cfg.sources[n].settings))| >= 2 <==> HasPeer(setup, cfg, n)
  {
    var members := GroupMembers(setup, cfg, setup.sign(cfg.sources[n].settings));
    TwoMembers(members, n);
    forall m ensures m in members <==> Replaceable(setup, cfg, m) && cfg.sources[m].settings == cfg.sources[n].settings {
      GroupedExactly(setup, cfg, m);
    }
  }

  /** A source is replaced exactly when it did not opt out, reads pod logs of exactly one namespace and has a
      peer set to the same; every other one stays as it is. Nothing else of the users' components changes but
      the inputs that read a replaced source. */
  lemma ReplacedExactly(setup: Setup, cfg: Config)
    requires UserMade(cfg) && Faithful(setup)
    ensures forall n :: n in cfg.sources ==>
              (n !in Optimized(setup, cfg).sources <==>
                 && n !in setup.optOut && cfg.sources[n].settings.typ == "kubernetes_logs"
                 && (exists ns :: GeneratedFor(cfg.sources[n].selector, ns))
                 && HasPeer(setup, cfg, n))
    ensures Removes(cfg, Optimized(setup, cfg), ReplacedSources(setup, cfg))
  {
    var signatures := Arranged(Signatures(setup, cfg));
    ArrangedDistinct(Signatures(setup, cfg));
    GroupsRemove(setup, cfg, signatures);
    GoneExactly(setup, cfg);
  }

  /** A component none of whose inputs reads a replaced source keeps its inputs: none is added, none goes. */
  lemma OthersKeepInputs(setup: Setup, cfg: Config, c: Component)
    requires UserMade(cfg) && Faithful(setup) && Present(cfg, c)
    requires forall o :: o in InputsOf(cfg, c) && o.Main? ==> o.name !in ReplacedSources(setup, cfg)
    ensures Present(Optimized(setup, cfg), c)
    ensures forall o :: o in InputsOf(cfg, c) ==> o in InputsOf(Optimized(setup, cfg), c)
    ensures forall o :: o in InputsOf(Optimized(setup, cfg), c) && o.name.Plain? ==> o in InputsOf(cfg, c)
  {
    ReplacedExactly(setup, cfg);
    var after := Optimized(setup, cfg);
    assert InputsFollow(InputsOf(cfg, c), InputsOf(after, c), ReplacedSources(setup, cfg)) by {
      if c.TransformAt? {
        assert c.name.Plain?;
      }
    }
    forall o | o in InputsOf(cfg, c) ensures o.name.Plain? {}
  }

  // What replaces them.

  /** The selector lists these namespaces by name, between one and a thousand. */
  ghost predicate Names(selector: string, names: seq<string>) {
    0 < |names| <= 1000 && selector == "kubernetes.io/metadata.name in (" + Join(names) + ")"
  }

  /** The source is set as given and watches some of the namespaces and no others. */
  ghost predicate WatchesSome(s: Source, settings: Settings, namespaces: set<string>) {
    s.settings == settings && exists names :: Names(s.selector, names) && forall ns :: ns in names ==> ns in namespaces
  }

  /** Some source of the configuration is set as given and watches the namespace by name among others. */
  ghost predicate WatchedNow(cfg: Config, settings: Settings, ns: string) {
    exists n, names :: Watches(cfg, settings, n, names) && ns in names
  }

  ghost predicate Watches(cfg: Config, settings: Settings, n: Name, names: seq<string>) {
    n in cfg.sources && n.OptSource? && cfg.sources[n].settings == settings && Names(cfg.sources[n].selector, names)
  }

  /** The sources `after` has and `cfg` has not watch these namespaces: no others, and all of them. */
  ghost predicate Adds(cfg: Config, after: Config, settings: Settings, namespaces: set<string>) {
    && AddsOnly(cfg.sources, after.sources, settings, namespaces)
    && (forall ns :: ns in namespaces ==> WatchedNow(after, settings, ns))
  }

  lemma CollapsedWatches(names: seq<string>, settings: Settings, namespaces: set<string>)
    requires 0 < |names| <= 1000 && forall ns :: ns in names ==> ns in namespaces
    ensures Names(InSelector(names), names)
    ensures WatchesSome(Collapsed(names, settings), settings, namespaces)
  {
    assert Names(InSelector(names), names);
  }

  /** Every source is one of `before` or watches some of the namespaces. */
  ghost predicate AddsOnly(before: map<Name, Source>, after: map<Name, Source>, settings: Settings, namespaces: set<string>) {
    forall n :: n in after ==> (n in before && after[n] == before[n]) || WatchesSome(after[n], settings, namespaces)
  }

  lemma {:induction false} PiecesAdd(digest: string -> Digest, cfg: Config, base: string, settings: Settings,
      namespaces: seq<string>, members: map<Name, string>, n: nat)
    requires n <= PieceCount(|namespaces|) && forall k :: k in members ==> k.Plain?
    ensures var after := Pieces(digest, cfg, base, settings, namespaces, members, n);
            && AddsOnly(cfg.sources, after.sources, settings, set ns | ns in namespaces)
            && forall c :: 0 <= c < n ==> HasPiece(after.sources, base, settings, namespaces, c)
  {
    if n > 0 {
      var k := n - 1;
      var before := Pieces(digest, cfg, base, settings, namespaces, members, k);
      PiecesAdd(digest, cfg, base, settings, namespaces, members, k);
      PieceSources(digest, cfg, base, settings, namespaces, members, k);
      PieceAdded(cfg.sources, before.sources, base, settings, namespaces, Within(members, Piece(namespaces, k)).Keys, k);
    }
  }

  lemma PieceSources(digest: string -> Digest, cfg: Config, base: string, settings: Settings,
      namespaces: seq<string>, members: map<Name, string>, k: nat)
    requires k < PieceCount(|namespaces|)
    ensures Pieces(digest, cfg, base, settings, namespaces, members, k + 1).sources ==
            (Pieces(digest, cfg, base, settings, namespaces, members, k).sources - Within(members, Piece(namespaces, k)).Keys)
              [OptSource(Gid(base, Some(k))) := Collapsed(Piece(namespaces, k), settings)]
  {
  }

  lemma PieceAdded(start: map<Name, Source>, before: map<Name, Source>, base: string, settings: Settings, namespaces: seq<string>,
      gone: set<Name>, k: nat)
    requires k < PieceCount(|namespaces|) && forall n :: n in gone ==> n.Plain?
    requires AddsOnly(start, before, settings, set ns | ns in namespaces)
    requires forall c :: 0 <= c < k ==> HasPiece(before, base, settings, namespaces, c)
    ensures var after := (before - gone)[OptSource(Gid(base, Some(k))) := Collapsed(Piece(namespaces, k), settings)];
            && AddsOnly(start, after, settings, set ns | ns in namespaces)
            && forall c :: 0 <= c < k + 1 ==> HasPiece(after, base, settings, namespaces, c)
  {
    CollapsedWatches(Piece(namespaces, k), settings, set ns | ns in namespaces);
    var after := (before - gone)[OptSource(Gid(base, Some(k))) := Collapsed(Piece(namespaces, k), settings)];
    forall c | 0 <= c < k + 1 ensures HasPiece(after, base, settings, namespaces, c) {
      assert c < k ==> HasPiece(before, base, settings, namespaces, c);
    }
  }

  ghost predicate HasPiece(sources: map<Name, Source>, base: string, settings: Settings, namespaces: seq<string>, c: nat)
    requires c < PieceCount(|namespaces|)
  {
    OptSource(Gid(base, Some(c))) in sources
    && sources[OptSource(Gid(base, Some(c)))] == Collapsed(Piece(namespaces, c), settings)
  }

  lemma PieceWatches(cfg: Config, base: string, settings: Settings, namespaces: seq<string>, ns: string)
    requires Distinct(namespaces) && ns in namespaces
    requires forall c :: 0 <= c < PieceCount(|namespaces|) ==> HasPiece(cfg.sources, base, settings, namespaces, c)
    ensures WatchedNow(cfg, settings, ns)
  {
    PiecesPartition(namespaces, ns);
    var c :| InPiece(namespaces, ns, c);
    assert HasPiece(cfg.sources, base, settings, namespaces, c);
    CollapsedWatches(Piece(namespaces, c), settings, set x | x in Piece(namespaces, c));
    assert Watches(cfg, settings, OptSource(Gid(base, Some(c))), Piece(namespaces, c));
  }

  lemma GroupAdds(setup: Setup, cfg: Config, s: string, settings: Settings, members: map<Name, string>)
    requires members != map[] && forall k :: k in members ==> k.Plain?
    ensures Adds(cfg, CollapseGroup(setup, cfg, s, settings, members), settings, members.Values)
  {
    var namespaces, base := Arranged(members.Values), FreeBase(cfg.sources.Keys, setup.hash(s));
    ArrangedDistinct(members.Values);
    assert (set ns | ns in namespaces) == members.Values;
    if |namespaces| <= MAX_NAMESPACES_PER_SOURCE {
      var n :| n in members;
      assert members[n] in namespaces;
      OnePieceAdds(setup.digest, cfg, base, settings, namespaces, members);
    } else {
      AllPiecesAdd(setup.digest, cfg, base, settings, namespaces, members);
    }
  }

  lemma OnePieceAdds(digest: string -> Digest, cfg: Config, base: string, settings: Settings, namespaces: seq<string>, members: map<Name, string>)
    requires 0 < |namespaces| <= MAX_NAMESPACES_PER_SOURCE
    ensures Adds(cfg, Collapse(digest, cfg, Gid(base, None), settings, namespaces, members), settings, set ns | ns in namespaces)
  {
    var after := Collapse(digest, cfg, Gid(base, None), settings, namespaces, members);
    CollapsedWatches(namespaces, settings, set ns | ns in namespaces);
    assert Watches(after, settings, OptSource(Gid(base, None)), namespaces);
  }

  lemma AllPiecesAdd(digest: string -> Digest, cfg: Config, base: string, settings: Settings, namespaces: seq<string>, members: map<Name, string>)
    requires Distinct(namespaces) && forall k :: k in members ==> k.Plain?
    ensures Adds(cfg, Pieces(digest, cfg, base, settings, namespaces, members, PieceCount(|namespaces|)), settings, set ns | ns in namespaces)
  {
    var n := PieceCount(|namespaces|);
    var after := Pieces(digest, cfg, base, settings, namespaces, members, n);
    PiecesAdd(digest, cfg, base, settings, namespaces, members, n);
    forall ns | ns in namespaces ensures WatchedNow(after, settings, ns) {
      PieceWatches(after, base, settings, namespaces, ns);
    }
  }

  /** A replaced source with these settings watched the namespace. */
  ghost predicate WatchedBefore(setup: Setup, cfg: Config, gone: set<Name>, settings: Settings, ns: string) {
    exists k :: k in gone && k in cfg.sources && cfg.sources[k].settings == settings && GeneratedFor(cfg.sources[k].selector, ns)
  }

  ghost predicate OnlyWatchedBefore(setup: Setup, cfg: Config, gone: set<Name>, s: Source) {
    exists names :: Names(s.selector, names) && forall ns :: ns in names ==> WatchedBefore(setup, cfg, gone, s.settings, ns)
  }

  ghost predicate StillWatched(setup: Setup, cfg: Config, after: Config, k: Name) {
    k in cfg.sources && forall ns :: GeneratedFor(cfg.sources[k].selector, ns) ==> WatchedNow(after, cfg.sources[k].settings, ns)
  }

  /** The generated sources watch exactly what the sources in `gone` watched, each with the settings they had. */
  ghost predicate Replaces(setup: Setup, cfg: Config, after: Config, gone: set<Name>) {
    && (forall n :: n in after.sources && n !in cfg.sources ==> OnlyWatchedBefore(setup, cfg, gone, after.sources[n]))
    && (forall k :: k in gone ==> StillWatched(setup, cfg, after, k))
  }

  lemma MembersWatched(setup: Setup, cfg: Config, s: string, ns: string)
    requires Faithful(setup) && GroupMembers(setup, cfg, s) != map[]
    ensures ns in GroupMembers(setup, cfg, s).Values <==>
            WatchedBefore(setup, cfg, GroupMembers(setup, cfg, s).Keys, GroupSettings(setup, cfg, s), ns)
  {
    var members := GroupMembers(setup, cfg, s);
    GroupHolds(setup, cfg, s);
    if ns in members.Values {
      var k :| k in members && members[k] == ns;
      assert GeneratedFor(cfg.sources[k].selector, ns);
    }
  }

  lemma ReplacesStep(setup: Setup, cfg: Config, before: Config, after: Config, gone: set<Name>, s: string)
    requires Faithful(setup) && GroupMembers(setup, cfg, s) != map[]
    requires Replaces(setup, cfg, before, gone) && Retains(before, after, GroupMembers(setup, cfg, s))
    requires forall k :: k in GroupMembers(setup, cfg, s) ==> k.Plain?
    requires Adds(before, after, GroupSettings(setup, cfg, s), GroupMembers(setup, cfg, s).Values)
    ensures Replaces(setup, cfg, after, gone + GroupMembers(setup, cfg, s).Keys)
  {
    var members, settings := GroupMembers(setup, cfg, s), GroupSettings(setup, cfg, s);
    var all := gone + members.Keys;
    GroupHolds(setup, cfg, s);
    forall n | n in after.sources && n !in cfg.sources ensures OnlyWatchedBefore(setup, cfg, all, after.sources[n]) {
      if n in before.sources && after.sources[n] == before.sources[n] {
        WatchedByMore(setup, cfg, gone, all, after.sources[n]);
      } else {
        var names :| Names(after.sources[n].selector, names) && forall ns :: ns in names ==> ns in members.Values;
        forall ns | ns in names ensures WatchedBefore(setup, cfg, members.Keys, settings, ns) {
          MembersWatched(setup, cfg, s, ns);
        }
        WatchedByMore(setup, cfg, members.Keys, all, after.sources[n]);
      }
    }
    forall k | k in all ensures StillWatched(setup, cfg, after, k) {
      if k in members {
        forall ns | GeneratedFor(cfg.sources[k].selector, ns) ensures WatchedNow(after, settings, ns) {
          assert members[k] == ns;
        }
      } else {
        StaysWatched(setup, cfg, before, after, members, k);
      }
    }
  }

  lemma WatchedByMore(setup: Setup, cfg: Config, some: set<Name>, all: set<Name>, s: Source)
    requires some <= all && OnlyWatchedBefore(setup, cfg, some, s)
    ensures OnlyWatchedBefore(setup, cfg, all, s)
  {
    var names :| Names(s.selector, names) && forall ns :: ns in names ==> WatchedBefore(setup, cfg, some, s.settings, ns);
    forall ns | ns in names ensures WatchedBefore(setup, cfg, all, s.settings, ns) {
      assert WatchedBefore(setup, cfg, some, s.settings, ns);
    }
  }

  lemma StaysWatched(setup: Setup, cfg: Config, before: Config, after: Config, members: map<Name, string>, k: Name)
    requires StillWatched(setup, cfg, before, k) && Retains(before, after, members) && forall n :: n in members ==> n.Plain?
    ensures StillWatched(setup, cfg, after, k)
  {
    var settings := cfg.sources[k].settings;
    forall ns | GeneratedFor(cfg.sources[k].selector, ns) ensures WatchedNow(after, settings, ns) {
      assert WatchedNow(before, settings, ns);
      var n, names :| Watches(before, settings, n, names) && ns in names;
      assert Watches(after, settings, n, names);
    }
  }

  lemma {:induction false} GroupsReplace(setup: Setup, cfg: Config, signatures: seq<string>)
    requires UserMade(cfg) && Faithful(setup) && Distinct(signatures)
    ensures Replaces(setup, cfg, GroupsCollapsed(setup, cfg, signatures), Gone(setup, cfg, signatures))
  {
    if signatures == [] {
      assert Gone(setup, cfg, []) == {};
    } else {
      var front, s := signatures[..|signatures| - 1], signatures[|signatures| - 1];
      assert signatures == front + [s];
      GroupsReplace(setup, cfg, front);
      NextGroupReplaces(setup, cfg, front, s);
    }
  }

  lemma NextGroupReplaces(setup: Setup, cfg: Config, front: seq<string>, s: string)
    requires UserMade(cfg) && Faithful(setup) && Distinct(front + [s]) && s !in front
    requires Replaces(setup, cfg, GroupsCollapsed(setup, cfg, front), Gone(setup, cfg, front))
    ensures Replaces(setup, cfg, GroupsCollapsed(setup, cfg, front + [s]), Gone(setup, cfg, front + [s]))
  {
    var before, members := GroupsCollapsed(setup, cfg, front), GroupMembers(setup, cfg, s);
    GroupsUnfold(setup, cfg, front, s);
    GoneGrows(setup, cfg, front, s);
    if |members| >= 2 {
      OneMoreReady(setup, cfg, front, s);
      GroupKeeps(setup, before, s, GroupSettings(setup, cfg, s), members);
      GroupAdds(setup, before, s, GroupSettings(setup, cfg, s), members);
      ReplacesStep(setup, cfg, before, GroupsCollapsed(setup, cfg, front + [s]), Gone(setup, cfg, front), s);
    }
  }

  /** A generated source lists between one and a thousand namespaces, each of them watched before by a replaced
      source set to the same; and every namespace a replaced source watched is listed by one set to the same. */
  lemma WatchedAsBefore(setup: Setup, cfg: Config)
    requires UserMade(cfg) && Faithful(setup)
    ensures Replaces(setup, cfg, Optimized(setup, cfg), ReplacedSources(setup, cfg))
  {
    ArrangedDistinct(Signatures(setup, cfg));
    GroupsReplace(setup, cfg, Arranged(Signatures(setup, cfg)));
    GoneExactly(setup, cfg);
  }
}
