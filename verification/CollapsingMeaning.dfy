/** Collapsing a group of sources keeps what every component receives, as long as it makes no two inputs
    of a component into one, or nobody counts. */
module CollapsingMeaning {
  import opened Outcomes
  import opened Buckets
  import opened Dataflow
  import opened Routing
  import opened Collapsing

  /** Users' transforms that do not look at what they receive. */
  ghost predicate Deaf(m: Meaning) {
    forall code, key, a, b, e :: m.run(code, key, a, e) == m.run(code, key, b, e)
  }

  /** Rewriting these inputs makes no difference to what is received. */
  ghost predicate Unmerged(m: Meaning, inputs: seq<Output>, renames: map<Name, Output>) {
    m.counting ==> !Repeats(inputs, renames)
  }

  /** Rewriting makes no difference to any component. */
  ghost predicate AllUnmerged(m: Meaning, cfg: Config, renames: map<Name, Output>) {
    forall c :: Present(cfg, c) ==> Unmerged(m, InputsOf(cfg, c), renames)
  }

  /** `g` carries at the renamed outputs what `f` carries at the members, and is `f` elsewhere. */
  ghost predicate Matches(f: Flow, g: Flow, gid: Gid, members: map<Name, string>, renames: map<Name, Output>) {
    && members.Keys == renames.Keys
    && (forall n, e :: n in members ==> Copies(g, renames[n], e) == Copies(f, Main(n), e))
    && (forall o :: Old(gid, o) && !FromMember(members, o) ==> SameOutput(f, g, o))
  }

  lemma RewrittenFollows(f: Flow, g: Flow, cfg: Config, gid: Gid, members: map<Name, string>,
      renames: map<Name, Output>, inputs: seq<Output>, e: Event)
    requires Matches(f, g, gid, members, renames) && OptSource(gid) !in cfg.sources && AllAnchored(cfg, inputs)
    ensures Follows(f, g, inputs, renames, e)
  {
    forall o | o in inputs ensures Copies(g, Renamed(o, renames), e) == Copies(f, o, e) {
      AnchoredIsOld(cfg, gid, o);
      if !FromMember(members, o) {
        SameCopies(f, g, o, e);
      }
    }
  }

  /** Every component hears of the same events through its rewritten inputs. */
  lemma RewrittenDelivers(m: Meaning, f: Flow, g: Flow, cfg: Config, gid: Gid, members: map<Name, string>,
      renames: map<Name, Output>, inputs: seq<Output>)
    requires Matches(f, g, gid, members, renames) && OptSource(gid) !in cfg.sources && AllAnchored(cfg, inputs)
    requires Unmerged(m, inputs, renames)
    ensures Hears(m.counting, f, inputs, g, Rewritten(inputs, renames))
  {
    var a, b := Received(m.counting, f, inputs), Received(m.counting, g, Rewritten(inputs, renames));
    forall e ensures b[e] == a[e] {
      RewrittenFollows(f, g, cfg, gid, members, renames, inputs, e);
      CopiesKeptExactly(f, g, inputs, renames, e);
      NothingMerges(f, inputs, renames, e);
    }
    assert b == a;
  }

  lemma NothingMerges(f: Flow, inputs: seq<Output>, renames: map<Name, Output>, e: Event)
    ensures !Repeats(inputs, renames) ==> !Merges(f, inputs, renames, e)
  {
  }

  // What was there before behaves as before.

  lemma {:induction false} SameArriving(f: Flow, g: Flow, inputs: seq<Output>, item: Item)
    requires forall o :: o in inputs ==> SameOutput(f, g, o)
    ensures Arriving(g, inputs, item) == Arriving(f, inputs, item)
    ensures Sum(g, inputs, item.event) == Sum(f, inputs, item.event)
  {
    if inputs != [] {
      var n := |inputs| - 1;
      SameArriving(f, g, inputs[..n], item);
      SameCopies(f, g, inputs[n], item.event);
      assert SameOutput(f, g, inputs[n]);
    }
  }

  lemma RoutedAlike(m: Meaning, f: Flow, g: Flow, n: Name, inputs: seq<Output>, key: Key, c: Condition)
    requires forall o :: o in inputs ==> SameOutput(f, g, o)
    requires SameOutput(f, g, Port(n, key))
    ensures Routed(m, g, n, inputs, key, c) <==> Routed(m, f, n, inputs, key, c)
  {
    forall item ensures Arriving(g, inputs, item) == Arriving(f, inputs, item) {
      SameArriving(f, g, inputs, item);
    }
  }

  lemma MarkedAlike(m: Meaning, f: Flow, g: Flow, n: Name, inputs: seq<Output>, buckets: Count)
    requires forall o :: o in inputs ==> SameOutput(f, g, o)
    requires SameOutput(f, g, Main(n))
    ensures Marked(m, g, n, inputs, buckets) <==> Marked(m, f, n, inputs, buckets)
  {
    forall item: Item ensures Sum(g, inputs, item.event) == Sum(f, inputs, item.event) {
      SameArriving(f, g, inputs, item);
    }
  }

  ghost predicate SameOutputs(f: Flow, g: Flow, n: Name) {
    SameOutput(f, g, Main(n)) && forall key :: SameOutput(f, g, Port(n, key))
  }

  /** A generated transform behaves the same in both flows. */
  lemma GeneratedAlike(m: Meaning, f: Flow, g: Flow, n: Name, t: Transform)
    requires !t.body.User? && (forall o :: o in t.inputs ==> SameOutput(f, g, o)) && SameOutputs(f, g, n)
    ensures Behaves(m, g, n, t) <==> Behaves(m, f, n, t)
  {
    match t.body
    case Route(routes) =>
      forall key | key in routes ensures Routed(m, g, n, t.inputs, key, routes[key]) <==> Routed(m, f, n, t.inputs, key, routes[key]) {
        RoutedAlike(m, f, g, n, t.inputs, key, routes[key]);
      }
    case Bucketer(buckets) =>
      MarkedAlike(m, f, g, n, t.inputs, buckets);
  }

  lemma RanAlike(m: Meaning, f: Flow, g: Flow, o: Output, a: seq<Output>, b: seq<Output>, code: string, key: Option<Key>)
    requires SameOutput(f, g, o) && (Hears(m.counting, f, a, g, b) || Deaf(m))
    ensures Ran(m, g, o, b, code, key) <==> Ran(m, f, o, a, code, key)
  {
    var x, y := Received(m.counting, f, a), Received(m.counting, g, b);
    assert forall e :: m.run(code, key, x, e) == m.run(code, key, y, e);
  }

  /** A user's transform behaves the same in both flows if it receives the same, or does not look. */
  lemma UserAlike(m: Meaning, f: Flow, g: Flow, n: Name, t: Transform, inputs: seq<Output>)
    requires t.body.User? && SameOutputs(f, g, n) && (Hears(m.counting, f, t.inputs, g, inputs) || Deaf(m))
    ensures Behaves(m, g, n, Transform(inputs, t.body)) <==> Behaves(m, f, n, t)
  {
    RanAlike(m, f, g, Main(n), t.inputs, inputs, t.body.code, None);
    forall key ensures Ran(m, g, Port(n, key), inputs, t.body.code, Some(key)) <==> Ran(m, f, Port(n, key), t.inputs, t.body.code, Some(key)) {
      RanAlike(m, f, g, Port(n, key), t.inputs, inputs, t.body.code, Some(key));
    }
  }

  /** A transform that was there before behaves in one flow exactly when it does in the other. */
  lemma TransformKept(m: Meaning, f: Flow, g: Flow, cfg: Config, gid: Gid, members: map<Name, string>,
      renames: map<Name, Output>, n: Name)
    requires WellFormed(cfg) && OptSource(gid) !in cfg.sources && n in cfg.transforms
    requires forall k :: k in members ==> k in cfg.sources && k.Plain?
    requires Matches(f, g, gid, members, renames)
    requires Unmerged(m, cfg.transforms[n].inputs, renames) || Deaf(m)
    ensures var t := cfg.transforms[n];
            Behaves(m, g, n, Transform(Rewritten(t.inputs, renames), t.body)) <==> Behaves(m, f, n, t)
  {
    var t := cfg.transforms[n];
    assert WellPlaced(cfg, n, t);
    OwnOutputsKept(f, g, cfg, gid, members, renames, n);
    if t.body.User? {
      if Unmerged(m, t.inputs, renames) {
        RewrittenDelivers(m, f, g, cfg, gid, members, renames, t.inputs);
      }
      UserAlike(m, f, g, n, t, Rewritten(t.inputs, renames));
    } else {
      var o := t.inputs[0];
      assert t.inputs == [o] && o in t.inputs;
      AnchoredIsOld(cfg, gid, o);
      GeneratedInputKept(o, renames);
      assert Transform(Rewritten(t.inputs, renames), t.body) == t;
      GeneratedAlike(m, f, g, n, t);
    }
  }

  lemma OwnOutputsKept(f: Flow, g: Flow, cfg: Config, gid: Gid, members: map<Name, string>, renames: map<Name, Output>, n: Name)
    requires Matches(f, g, gid, members, renames) && OptSource(gid) !in cfg.sources
    requires Anchored(cfg, n) && n !in members
    ensures SameOutputs(f, g, n)
  {
    assert Old(gid, Main(n)) && !FromMember(members, Main(n));
    forall key ensures SameOutput(f, g, Port(n, key)) {
      assert Old(gid, Port(n, key)) && !FromMember(members, Port(n, key));
    }
  }

  lemma MemberDelivers(m: Meaning, f: Flow, cfg: Config, settings: Settings, n: Name, ns: string, e: Event)
    requires Member(cfg, settings, n, ns) && settings.typ == KUBERNETES_LOGS && Sourced(m, f, n, cfg.sources[n])
    ensures Copies(f, Main(n), e) == if e.ns == ns then Watched(m, settings, e) else 0
  {
    assert f(Main(n), Item(e, None)) == Emission(m, cfg.sources[n], e);
    CopiesAs(f, Main(n), e, None);
  }

  /** In a pair of flows where both the members and the generated routers work, renaming loses nothing. */
  lemma GroupMatches(m: Meaning, f: Flow, g: Flow, cfg: Config, gid: Gid, settings: Settings, namespaces: seq<string>,
      members: map<Name, string>)
    requires Collapsible(cfg, gid, settings, namespaces, members)
    requires Generates(m, g, gid, settings, namespaces, BestBuckets(|namespaces|))
    requires forall n :: n in members ==> Sourced(m, f, n, cfg.sources[n])
    requires forall o :: Old(gid, o) && !FromMember(members, o) ==> SameOutput(f, g, o)
    ensures Matches(f, g, gid, members, Renames(m.digest, gid, namespaces, members))
  {
    var renames := Renames(m.digest, gid, namespaces, members);
    forall n, e | n in members ensures Copies(g, renames[n], e) == Copies(f, Main(n), e) {
      MemberDelivers(m, f, cfg, settings, n, members[n], e);
      RoutesDeliver(m, g, gid, settings, namespaces, BestBuckets(|namespaces|), members[n], e);
    }
  }

  lemma MatchingViews(m: Meaning, f: Flow, g: Flow, cfg: Config, gid: Gid, settings: Settings,
      namespaces: seq<string>, members: map<Name, string>)
    requires Collapsible(cfg, gid, settings, namespaces, members)
    requires Matches(f, g, gid, members, Renames(m.digest, gid, namespaces, members))
    requires AllUnmerged(m, cfg, Renames(m.digest, gid, namespaces, members))
    ensures SameView(m, cfg, f, Collapse(m.digest, cfg, gid, settings, namespaces, members), g)
  {
    var after := Collapse(m.digest, cfg, gid, settings, namespaces, members);
    forall n ensures SameTransform(m, cfg, f, after, g, n) && SameSink(m, cfg, f, after, g, n) {
      if n in cfg.transforms {
        MatchingTransform(m, f, g, cfg, gid, settings, namespaces, members, n);
      }
      if n in cfg.sinks {
        MatchingSink(m, f, g, cfg, gid, settings, namespaces, members, n);
      }
    }
  }

  lemma MatchingTransform(m: Meaning, f: Flow, g: Flow, cfg: Config, gid: Gid, settings: Settings,
      namespaces: seq<string>, members: map<Name, string>, n: Name)
    requires Collapsible(cfg, gid, settings, namespaces, members) && n in cfg.transforms
    requires Matches(f, g, gid, members, Renames(m.digest, gid, namespaces, members))
    requires AllUnmerged(m, cfg, Renames(m.digest, gid, namespaces, members))
    ensures SameTransform(m, cfg, f, Collapse(m.digest, cfg, gid, settings, namespaces, members), g, n)
  {
    TransformStays(m.digest, cfg, gid, settings, namespaces, members, n);
    assert WellPlaced(cfg, n, cfg.transforms[n]);
    assert Present(cfg, TransformAt(n)) && InputsOf(cfg, TransformAt(n)) == cfg.transforms[n].inputs;
    RewrittenDelivers(m, f, g, cfg, gid, members, Renames(m.digest, gid, namespaces, members), cfg.transforms[n].inputs);
  }

  lemma MatchingSink(m: Meaning, f: Flow, g: Flow, cfg: Config, gid: Gid, settings: Settings,
      namespaces: seq<string>, members: map<Name, string>, n: Name)
    requires Collapsible(cfg, gid, settings, namespaces, members) && n in cfg.sinks
    requires Matches(f, g, gid, members, Renames(m.digest, gid, namespaces, members))
    requires AllUnmerged(m, cfg, Renames(m.digest, gid, namespaces, members))
    ensures SameSink(m, cfg, f, Collapse(m.digest, cfg, gid, settings, namespaces, members), g, n)
  {
    assert Present(cfg, SinkAt(n)) && InputsOf(cfg, SinkAt(n)) == cfg.sinks[n].inputs;
    RewrittenDelivers(m, f, g, cfg, gid, members, Renames(m.digest, gid, namespaces, members), cfg.sinks[n].inputs);
  }

  // From the collapsed configuration back.

  ghost function RestoredAt(m: Meaning, g: Flow, cfg: Config, members: map<Name, string>, o: Output, item: Item): nat {
    if FromMember(members, o) && o.name in cfg.sources then Unmarked(item, Emission(m, cfg.sources[o.name], item.event))
    else g(o, item)
  }

  /** `g` with the members emitting again. */
  ghost function Restored(m: Meaning, g: Flow, cfg: Config, members: map<Name, string>): Flow {
    (o: Output, item: Item) => RestoredAt(m, g, cfg, members, o, item)
  }

  lemma RoutersRun(m: Meaning, g: Flow, cfg: Config, gid: Gid, settings: Settings, namespaces: seq<string>,
      members: map<Name, string>)
    requires Collapsible(cfg, gid, settings, namespaces, members)
    requires Solves(m, Collapse(m.digest, cfg, gid, settings, namespaces, members), g)
    ensures Generates(m, g, gid, settings, namespaces, BestBuckets(|namespaces|))
  {
    var after := Collapse(m.digest, cfg, gid, settings, namespaces, members);
    assert after.sources[OptSource(gid)] == Collapsed(namespaces, settings);
    assert Sourced(m, g, OptSource(gid), after.sources[OptSource(gid)]);
    forall n | n in Routers(m.digest, gid, namespaces, BestBuckets(|namespaces|))
      ensures Behaves(m, g, n, Routers(m.digest, gid, namespaces, BestBuckets(|namespaces|))[n])
    {
      RouterKept(m.digest, cfg, gid, settings, namespaces, members, n);
    }
  }

  /** Every run of the collapsed configuration comes from a run of the original one, provided that users'
      transforms cannot tell. */
  lemma CollapseBack(m: Meaning, cfg: Config, gid: Gid, settings: Settings, namespaces: seq<string>,
      members: map<Name, string>, g: Flow)
      returns (f: Flow)
    requires Collapsible(cfg, gid, settings, namespaces, members)
    requires AllUnmerged(m, cfg, Renames(m.digest, gid, namespaces, members)) || Deaf(m)
    requires Solves(m, Collapse(m.digest, cfg, gid, settings, namespaces, members), g)
    ensures Solves(m, cfg, f) && Matches(f, g, gid, members, Renames(m.digest, gid, namespaces, members))
    ensures AllUnmerged(m, cfg, Renames(m.digest, gid, namespaces, members)) ==>
              SameView(m, cfg, f, Collapse(m.digest, cfg, gid, settings, namespaces, members), g)
  {
    var renames := Renames(m.digest, gid, namespaces, members);
    f := Restored(m, g, cfg, members);
    RestoredHolds(m, g, cfg, members);
    RoutersRun(m, g, cfg, gid, settings, namespaces, members);
    GroupMatches(m, f, g, cfg, gid, settings, namespaces, members);
    forall n | n in cfg.sources ensures Sourced(m, f, n, cfg.sources[n]) {
      SourceRestored(m, f, g, cfg, gid, settings, namespaces, members, n);
    }
    forall n | n in cfg.transforms ensures Behaves(m, f, n, cfg.transforms[n]) {
      TransformStays(m.digest, cfg, gid, settings, namespaces, members, n);
      UnmergedAt(m, cfg, renames, n);
      TransformKept(m, f, g, cfg, gid, members, renames, n);
    }
    if AllUnmerged(m, cfg, renames) {
      MatchingViews(m, f, g, cfg, gid, settings, namespaces, members);
    }
  }

  lemma UnmergedAt(m: Meaning, cfg: Config, renames: map<Name, Output>, n: Name)
    requires (AllUnmerged(m, cfg, renames) || Deaf(m)) && n in cfg.transforms
    ensures Unmerged(m, cfg.transforms[n].inputs, renames) || Deaf(m)
  {
    assert Present(cfg, TransformAt(n)) && InputsOf(cfg, TransformAt(n)) == cfg.transforms[n].inputs;
  }

  lemma RestoredHolds(m: Meaning, g: Flow, cfg: Config, members: map<Name, string>)
    requires forall n :: n in members ==> n in cfg.sources
    ensures forall n :: n in members ==> Sourced(m, Restored(m, g, cfg, members), n, cfg.sources[n])
    ensures forall o :: !FromMember(members, o) ==> SameOutput(Restored(m, g, cfg, members), g, o)
  {
    forall n | n in members ensures Sourced(m, Restored(m, g, cfg, members), n, cfg.sources[n]) {
      var o := Main(n);
      assert FromMember(members, o) && o.name == n;
    }
  }

  lemma SourceRestored(m: Meaning, f: Flow, g: Flow, cfg: Config, gid: Gid, settings: Settings,
      namespaces: seq<string>, members: map<Name, string>, n: Name)
    requires Collapsible(cfg, gid, settings, namespaces, members) && n in cfg.sources
    requires Solves(m, Collapse(m.digest, cfg, gid, settings, namespaces, members), g)
    requires n in members ==> Sourced(m, f, n, cfg.sources[n])
    requires n !in members ==> SameOutput(f, g, Main(n))
    ensures Sourced(m, f, n, cfg.sources[n])
  {
    if n !in members {
      var after := Collapse(m.digest, cfg, gid, settings, namespaces, members);
      assert n in after.sources && after.sources[n] == cfg.sources[n];
      assert Sourced(m, g, n, after.sources[n]);
    }
  }

  // From the original configuration forward.

  /** What the group's generated outputs carry. */
  ghost function Generated(m: Meaning, settings: Settings, namespaces: seq<string>, buckets: Count, o: Output, item: Item): nat {
    var emission := Emission(m, Collapsed(namespaces, settings), item.event);
    var emitted := Unmarked(item, emission);
    var marked := if item.bucket == ProgramBucket(m.digest, item.event.ns, buckets) then emission else 0;
    if o.Main? then if o.name.OptSource? then emitted else marked
    else if o.name.OptRouter? then if o.key.Label? && item.event.ns == o.key.text then emitted else 0
    else if o.name.OptFirst? then if o.key.Bucket? && item.bucket == Some(o.key.number) then marked else 0
    else if o.name.OptSecond? then
      if o.key.Label? && item.bucket == Some(o.name.bucket) && item.event.ns == o.key.text then marked else 0
    else 0
  }

  ghost function ExtendedAt(m: Meaning, f: Flow, gid: Gid, settings: Settings, namespaces: seq<string>, buckets: Count,
      o: Output, item: Item): nat
  {
    if Old(gid, o) then f(o, item) else Generated(m, settings, namespaces, buckets, o, item)
  }

  /** `f` with the generated components running. */
  ghost function Extended(m: Meaning, f: Flow, gid: Gid, settings: Settings, namespaces: seq<string>, buckets: Count): Flow {
    (o: Output, item: Item) => ExtendedAt(m, f, gid, settings, namespaces, buckets, o, item)
  }

  /** The group's generated outputs of `g` carry what they should. */
  ghost predicate Carries(m: Meaning, g: Flow, gid: Gid, settings: Settings, namespaces: seq<string>, buckets: Count) {
    forall o, item :: !Old(gid, o) ==> g(o, item) == Generated(m, settings, namespaces, buckets, o, item)
  }

  lemma ExtendedCarries(m: Meaning, f: Flow, gid: Gid, settings: Settings, namespaces: seq<string>, buckets: Count)
    ensures Carries(m, Extended(m, f, gid, settings, namespaces, buckets), gid, settings, namespaces, buckets)
    ensures forall o :: Old(gid, o) ==> SameOutput(f, Extended(m, f, gid, settings, namespaces, buckets), o)
  {
  }

  lemma CarriesRuns(m: Meaning, g: Flow, gid: Gid, settings: Settings, namespaces: seq<string>, buckets: Count)
    requires Carries(m, g, gid, settings, namespaces, buckets)
    ensures Generates(m, g, gid, settings, namespaces, buckets)
  {
    var routers := Routers(m.digest, gid, namespaces, buckets);
    GeneratedNames(m.digest, gid, namespaces, buckets);
    forall n | n in routers ensures Behaves(m, g, n, routers[n]) {
      if n == OptRouter(gid) {
        CarriesFlat(m, g, gid, settings, namespaces, buckets);
      } else if n == OptBucketer(gid) {
        CarriesMarker(m, g, gid, settings, namespaces, buckets);
      } else if n == OptFirst(gid) {
        CarriesFirst(m, g, gid, settings, namespaces, buckets);
      } else {
        CarriesSecond(m, g, gid, settings, namespaces, buckets, n.bucket);
      }
    }
  }

  lemma CarriesFlat(m: Meaning, g: Flow, gid: Gid, settings: Settings, namespaces: seq<string>, buckets: Count)
    requires Carries(m, g, gid, settings, namespaces, buckets)
    ensures Behaves(m, g, OptRouter(gid), FlatRouter(gid, namespaces))
  {
    var t := FlatRouter(gid, namespaces);
    forall key | key in t.body.routes ensures Routed(m, g, OptRouter(gid), t.inputs, key, t.body.routes[key]) {
      forall item ensures g(Port(OptRouter(gid), key), item) ==
                          if Holds(t.body.routes[key], item) then Norm(m.counting, Arriving(g, t.inputs, item)) else 0
      {
        FromOne(g, Main(OptSource(gid)), item);
      }
    }
  }

  lemma CarriesMarker(m: Meaning, g: Flow, gid: Gid, settings: Settings, namespaces: seq<string>, buckets: Count)
    requires Carries(m, g, gid, settings, namespaces, buckets)
    ensures Behaves(m, g, OptBucketer(gid), Marker(gid, buckets))
  {
    var o := Main(OptSource(gid));
    forall item ensures g(Main(OptBucketer(gid)), item) ==
                        if item.bucket == ProgramBucket(m.digest, item.event.ns, buckets)
                        then Norm(m.counting, Sum(g, [o], item.event)) else 0
    {
      FromOne(g, o, item);
      CopiesAs(g, o, item.event, None);
    }
  }

  lemma CarriesFirst(m: Meaning, g: Flow, gid: Gid, settings: Settings, namespaces: seq<string>, buckets: Count)
    requires Carries(m, g, gid, settings, namespaces, buckets)
    ensures Behaves(m, g, OptFirst(gid), FirstRouter(m.digest, gid, namespaces, buckets))
  {
    var t := FirstRouter(m.digest, gid, namespaces, buckets);
    forall key | key in t.body.routes ensures Routed(m, g, OptFirst(gid), t.inputs, key, t.body.routes[key]) {
      forall item ensures g(Port(OptFirst(gid), key), item) ==
                          if Holds(t.body.routes[key], item) then Norm(m.counting, Arriving(g, t.inputs, item)) else 0
      {
        FromOne(g, Main(OptBucketer(gid)), item);
      }
    }
  }

  lemma CarriesSecond(m: Meaning, g: Flow, gid: Gid, settings: Settings, namespaces: seq<string>, buckets: Count, b: nat)
    requires Carries(m, g, gid, settings, namespaces, buckets)
    ensures Behaves(m, g, OptSecond(gid, b), SecondRouter(m.digest, gid, namespaces, buckets, b))
  {
    var t := SecondRouter(m.digest, gid, namespaces, buckets, b);
    forall key | key in t.body.routes ensures Routed(m, g, OptSecond(gid, b), t.inputs, key, t.body.routes[key]) {
      forall item ensures g(Port(OptSecond(gid, b), key), item) ==
                          if Holds(t.body.routes[key], item) then Norm(m.counting, Arriving(g, t.inputs, item)) else 0
      {
        FromOne(g, Port(OptFirst(gid), Bucket(b)), item);
      }
    }
  }

  /** Every run of the original configuration becomes a run of the collapsed one, provided that users'
      transforms cannot tell. */
  lemma CollapseForward(m: Meaning, cfg: Config, gid: Gid, settings: Settings, namespaces: seq<string>,
      members: map<Name, string>, f: Flow)
      returns (g: Flow)
    requires Collapsible(cfg, gid, settings, namespaces, members) && Solves(m, cfg, f)
    requires AllUnmerged(m, cfg, Renames(m.digest, gid, namespaces, members)) || Deaf(m)
    ensures Solves(m, Collapse(m.digest, cfg, gid, settings, namespaces, members), g)
    ensures Matches(f, g, gid, members, Renames(m.digest, gid, namespaces, members))
    ensures AllUnmerged(m, cfg, Renames(m.digest, gid, namespaces, members)) ==>
              SameView(m, cfg, f, Collapse(m.digest, cfg, gid, settings, namespaces, members), g)
  {
    var renames, after := Renames(m.digest, gid, namespaces, members), Collapse(m.digest, cfg, gid, settings, namespaces, members);
    g := Extended(m, f, gid, settings, namespaces, BestBuckets(|namespaces|));
    ExtendedCarries(m, f, gid, settings, namespaces, BestBuckets(|namespaces|));
    CarriesRuns(m, g, gid, settings, namespaces, BestBuckets(|namespaces|));
    GroupMatches(m, f, g, cfg, gid, settings, namespaces, members);
    forall n | n in after.sources ensures Sourced(m, g, n, after.sources[n]) {
      if n != OptSource(gid) {
        assert n in cfg.sources && Old(gid, Main(n)) && Sourced(m, f, n, cfg.sources[n]);
      }
    }
    forall n | n in after.transforms ensures Behaves(m, g, n, after.transforms[n]) {
      if n in cfg.transforms {
        TransformStays(m.digest, cfg, gid, settings, namespaces, members, n);
        UnmergedAt(m, cfg, renames, n);
        TransformKept(m, f, g, cfg, gid, members, renames, n);
      } else {
        RouterKept(m.digest, cfg, gid, settings, namespaces, members, n);
      }
    }
    if AllUnmerged(m, cfg, renames) {
      MatchingViews(m, f, g, cfg, gid, settings, namespaces, members);
    }
  }
}
