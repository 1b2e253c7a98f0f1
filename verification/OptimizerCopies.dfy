/** How often events arrive: what goes wrong when a component reads one stream over two inputs, and that
    nothing else does. */
module OptimizerCopies {
  import opened Outcomes
  import opened Ordering
  import opened Selectors
  import opened Buckets
  import opened Dataflow
  import opened Routing
  import opened Collapsing
  import opened CollapsingMeaning
  import opened Optimizer
  import opened OptimizerGroups
  import opened OptimizerInputs
  import opened OptimizerMeaning

  // A world that tells: everything emits, and no transform hides what another component receives.

  /** It matters how often events arrive; every source emits whatever it watches; users' transforms emit
      every event, whatever they receive. */
  ghost predicate Telling(m: Meaning) {
    && m.counting && Deaf(m)
    && (forall settings, e :: m.admits(settings, e) > 0)
    && (forall s, e :: m.emits(s, e) > 0)
    && (forall selector, ns :: m.selects(selector, ns))
    && (forall code, key, bag, e :: m.run(code, key, bag, e) > 0)
  }

  /** Every input refers to a component of the configuration. */
  ghost predicate Grounded(cfg: Config, inputs: seq<Output>) {
    forall o :: o in inputs ==> GroundedAt(cfg, o)
  }

  predicate GroundedAt(cfg: Config, o: Output) {
    (o.Main? && o.name in cfg.sources) || o.name in cfg.transforms
  }

  ghost predicate AllGrounded(cfg: Config) {
    forall c :: Present(cfg, c) ==> Grounded(cfg, InputsOf(cfg, c))
  }

  lemma OutputDetermined(m: Meaning, cfg: Config, f: Flow, g: Flow, o: Output)
    requires Deaf(m) && UserMade(cfg) && Solves(m, cfg, f) && Solves(m, cfg, g) && GroundedAt(cfg, o)
    ensures SameOutput(f, g, o)
  {
    if o.name in cfg.transforms {
      var t := cfg.transforms[o.name];
      assert Behaves(m, f, o.name, t) && Behaves(m, g, o.name, t);
      var x, y := Received(m.counting, f, t.inputs), Received(m.counting, g, t.inputs);
      var key := if o.Main? then None else Some(o.key);
      assert Ran(m, f, o, t.inputs, t.body.code, key) && Ran(m, g, o, t.inputs, t.body.code, key);
      assert forall e :: m.run(t.body.code, key, x, e) == m.run(t.body.code, key, y, e);
    } else {
      assert Sourced(m, f, o.name, cfg.sources[o.name]) && Sourced(m, g, o.name, cfg.sources[o.name]);
    }
  }

  /** Where transforms do not look at what they receive, all runs bring the same. */
  lemma {:induction false} SumDetermined(m: Meaning, cfg: Config, f: Flow, g: Flow, inputs: seq<Output>, e: Event)
    requires Deaf(m) && UserMade(cfg) && Solves(m, cfg, f) && Solves(m, cfg, g) && Grounded(cfg, inputs)
    ensures Sum(f, inputs, e) == Sum(g, inputs, e)
  {
    if inputs != [] {
      var n := |inputs| - 1;
      SumDetermined(m, cfg, f, g, inputs[..n], e);
      assert inputs[n] in inputs;
      OutputDetermined(m, cfg, f, g, inputs[n]);
      SameCopies(f, g, inputs[n], e);
    }
  }

  lemma SelectsSomething(other: (string, string) -> bool, selector: string) returns (ns: string)
    requires forall x, y :: other(x, y)
    ensures Selects(other, selector, ns)
  {
    match SingleNamespaceOf(selector)
    case Some(n) => ns := n;
    case None => {
      match ListedIn(selector)
      case Some(list) => ns := Split(list)[0];
      case None => ns := "";
    }
  }

  lemma OutputAudible(m: Meaning, cfg: Config, f: Flow, o: Output) returns (e: Event)
    requires Telling(m) && UserMade(cfg) && Solves(m, cfg, f) && GroundedAt(cfg, o)
    ensures Copies(f, o, e) > 0
  {
    if o.name in cfg.transforms {
      e := Event(0, "");
      var t := cfg.transforms[o.name];
      assert Behaves(m, f, o.name, t);
      var key := if o.Main? then None else Some(o.key);
      assert Ran(m, f, o, t.inputs, t.body.code, key);
      assert f(o, Item(e, None)) > 0;
    } else {
      var s := cfg.sources[o.name];
      var ns := SelectsSomething(m.selects, s.selector);
      e := Event(0, ns);
      assert Sourced(m, f, o.name, s);
      assert Emission(m, s, e) > 0;
      assert f(o, Item(e, None)) > 0;
    }
  }

  lemma AllAudible(m: Meaning, cfg: Config, f: Flow, inputs: seq<Output>)
    requires Telling(m) && UserMade(cfg) && Solves(m, cfg, f) && Grounded(cfg, inputs)
    ensures Audible(f, inputs)
  {
    forall o | o in inputs ensures exists e :: Copies(f, o, e) > 0 {
      var e := OutputAudible(m, cfg, f, o);
    }
  }

  ghost function Silence(): Bag {
    Received(true, (o: Output, item: Item) => 0, [])
  }

  ghost function OnlyRunAt(m: Meaning, cfg: Config, o: Output, item: Item): nat {
    if o.name in cfg.transforms && cfg.transforms[o.name].body.User? then
      Unmarked(item, Norm(m.counting, m.run(cfg.transforms[o.name].body.code, if o.Main? then None else Some(o.key), Silence(), item.event)))
    else if o.Main? && o.name in cfg.sources then Unmarked(item, Emission(m, cfg.sources[o.name], item.event))
    else 0
  }

  /** Such a world has a run. */
  lemma DeafRuns(m: Meaning, cfg: Config) returns (f: Flow)
    requires Deaf(m) && UserMade(cfg)
    ensures Solves(m, cfg, f)
  {
    f := (o: Output, item: Item) => OnlyRunAt(m, cfg, o, item);
    forall n | n in cfg.transforms ensures Behaves(m, f, n, cfg.transforms[n]) {
      var t := cfg.transforms[n];
      var x := Received(m.counting, f, t.inputs);
      assert forall key, e :: m.run(t.body.code, key, x, e) == m.run(t.body.code, key, Silence(), e);
    }
  }

  /** There is such a world. */
  lemma TellingExists(digest: string -> Digest) returns (m: Meaning)
    ensures Telling(m) && m.digest == digest
  {
    m := Meaning(true, digest, (_, _) => 1, (_, _) => 1, (_, _) => true, (_, _, _, _) => 1);
  }

  ghost predicate AllHear(m: Meaning, a: Config, f: Flow, b: Config, g: Flow) {
    forall c :: Present(a, c) ==> HearsAt(m, a, f, b, g, c)
  }

  ghost predicate HearsAt(m: Meaning, a: Config, f: Flow, b: Config, g: Flow, c: Component) {
    Present(a, c) && Present(b, c) && Hears(m.counting, f, InputsOf(a, c), g, InputsOf(b, c))
  }

  /** A component that reads one stream, or one output, over two inputs gets some event less often. */
  lemma LessOften(m: Meaning, setup: Setup, cfg: Config, f: Flow, g: Flow, c: Component)
    requires UserMade(cfg) && Faithful(setup) && setup.digest == m.digest && Telling(m)
    requires Solves(m, cfg, f) && Solves(m, Optimized(setup, cfg), g)
    requires Present(cfg, c) && Grounded(cfg, InputsOf(cfg, c))
    requires AnyGroup(setup, cfg, Arranged(Signatures(setup, cfg))) && !OneInputPerStream(setup, cfg, InputsOf(cfg, c))
    ensures Present(Optimized(setup, cfg), c)
    ensures exists e :: Fewer(f, InputsOf(cfg, c), g, InputsOf(Optimized(setup, cfg), c), e)
    ensures !HearsAt(m, cfg, f, Optimized(setup, cfg), g, c)
  {
    InputsKeptExactly(setup, cfg, c);
    ArrangedDistinct(Signatures(setup, cfg));
    var h := GroupsBack(m, false, setup, cfg, Arranged(Signatures(setup, cfg)), g);
    assert NoMoreAt(cfg, h, Optimized(setup, cfg), g, c);
    AllAudible(m, cfg, h, InputsOf(cfg, c));
    SomethingLess(m, cfg, f, h, InputsOf(cfg, c), g, InputsOf(Optimized(setup, cfg), c));
  }

  lemma SomethingLess(m: Meaning, cfg: Config, f: Flow, h: Flow, a: seq<Output>, g: Flow, b: seq<Output>)
    requires Deaf(m) && m.counting && UserMade(cfg) && Solves(m, cfg, f) && Solves(m, cfg, h) && Grounded(cfg, a)
    requires NoMore(h, a, g, b) && Audible(h, a) && |b| < |a|
    ensures exists e :: Fewer(f, a, g, b, e)
    ensures !Hears(m.counting, f, a, g, b)
  {
    var e :| Fewer(h, a, g, b, e);
    SumDetermined(m, cfg, f, h, a, e);
    assert Fewer(f, a, g, b, e);
    assert Received(true, g, b)[e] < Received(true, f, a)[e];
  }

  /** In such a world every component gets every event exactly as often as before if and only if nothing is
      collapsed, or every component reads each stream over one input. */
  lemma CountsKeptExactly(m: Meaning, setup: Setup, cfg: Config, f: Flow, g: Flow)
    requires UserMade(cfg) && Faithful(setup) && setup.digest == m.digest && Telling(m) && AllGrounded(cfg)
    requires Solves(m, cfg, f) && Solves(m, Optimized(setup, cfg), g)
    ensures AllHear(m, cfg, f, Optimized(setup, cfg), g) <==> Harmless(m, setup, cfg)
  {
    if Harmless(m, setup, cfg) {
      var h := OptimizedAddsNothing(m, setup, cfg, g);
      AllHearSame(m, cfg, f, Optimized(setup, cfg), g, h);
    } else {
      var c :| Present(cfg, c) && !OneInputPerStream(setup, cfg, InputsOf(cfg, c));
      LessOften(m, setup, cfg, f, g, c);
    }
  }

  lemma AllHearSame(m: Meaning, cfg: Config, f: Flow, after: Config, g: Flow, h: Flow)
    requires UserMade(cfg) && Deaf(m) && AllGrounded(cfg) && Solves(m, cfg, f) && Solves(m, cfg, h)
    requires SameView(m, cfg, h, after, g)
    ensures AllHear(m, cfg, f, after, g)
  {
    forall c | Present(cfg, c) ensures HearsAt(m, cfg, f, after, g, c) {
      if c.TransformAt? {
        assert SameTransform(m, cfg, h, after, g, c.name);
      } else {
        assert SameSink(m, cfg, h, after, g, c.name);
      }
      SameReceived(m, cfg, f, h, InputsOf(cfg, c));
    }
  }

  lemma SameReceived(m: Meaning, cfg: Config, f: Flow, h: Flow, inputs: seq<Output>)
    requires UserMade(cfg) && Deaf(m) && Solves(m, cfg, f) && Solves(m, cfg, h) && Grounded(cfg, inputs)
    ensures Received(m.counting, f, inputs) == Received(m.counting, h, inputs)
  {
    var x, y := Received(m.counting, f, inputs), Received(m.counting, h, inputs);
    forall e ensures x[e] == y[e] {
      SumDetermined(m, cfg, f, h, inputs, e);
    }
    assert x == y;
  }

  // A configuration that loses copies, and passes the loss on.

  /** Two sources of one stream and nothing else to collapse. */
  ghost predicate TwoOfOne(setup: Setup, cfg: Config, a: Name, b: Name, ns: string) {
    && cfg.sources.Keys == {a, b} && a != b && SameStream(setup, cfg, Main(a), Main(b))
    && SingleNamespaceOf(cfg.sources[a].selector) == Some(ns)
  }

  lemma ArrangedOne(x: string)
    ensures Arranged({x}) == [x]
  {
    SortArranges([x], {x});
    assert [x][..0] == [];
  }

  lemma OnlyGroup(setup: Setup, cfg: Config, a: Name, b: Name, ns: string)
    requires TwoOfOne(setup, cfg, a, b, ns)
    ensures var s := setup.sign(cfg.sources[a].settings);
            Signatures(setup, cfg) == {s} && GroupMembers(setup, cfg, s) == map[a := ns, b := ns]
  {
  }

  lemma TwoMembers(a: Name, b: Name, ns: string)
    requires a != b
    ensures var members := map[a := ns, b := ns]; |members| == 2 && members.Values == {ns}
  {
    assert map[a := ns, b := ns].Keys == {a, b};
  }

  lemma OneGroupCollapsed(setup: Setup, cfg: Config, s: string)
    requires |GroupMembers(setup, cfg, s)| >= 2
    ensures GroupsCollapsed(setup, cfg, [s]) == CollapseGroup(setup, cfg, s, GroupSettings(setup, cfg, s), GroupMembers(setup, cfg, s))
  {
    assert [s][..0] == [];
  }

  lemma TwoOfOneOptimized(setup: Setup, cfg: Config, a: Name, b: Name, ns: string) returns (gid: Gid)
    requires UserMade(cfg) && Faithful(setup) && TwoOfOne(setup, cfg, a, b, ns)
    ensures Collapsible(cfg, gid, cfg.sources[a].settings, [ns], map[a := ns, b := ns])
    ensures Optimized(setup, cfg) == Collapse(setup.digest, cfg, gid, cfg.sources[a].settings, [ns], map[a := ns, b := ns])
  {
    var s := setup.sign(cfg.sources[a].settings);
    OnlyGroup(setup, cfg, a, b, ns);
    TwoMembers(a, b, ns);
    ArrangedOne(s);
    ArrangedOne(ns);
    OneGroupCollapsed(setup, cfg, s);
    GroupHolds(setup, cfg, s);
    assert a in GroupMembers(setup, cfg, s);
    gid := Gid(FreeBase(cfg.sources.Keys, setup.hash(s)), None);
    TwoOfOneReady(setup, cfg, a, b, ns, gid.base);
  }

  lemma TwoOfOneReady(setup: Setup, cfg: Config, a: Name, b: Name, ns: string, base: string)
    requires UserMade(cfg) && TwoOfOne(setup, cfg, a, b, ns)
    ensures Collapsible(cfg, Gid(base, None), cfg.sources[a].settings, [ns], map[a := ns, b := ns])
  {
    UserMadeWellFormed(cfg);
    assert ns in [ns];
  }

  /** A transform that reads both gets every event of the stream half as often as before. */
  lemma HalfAsOften(m: Meaning, setup: Setup, cfg: Config, f: Flow, g: Flow, a: Name, b: Name, t: Name, ns: string, e: Event)
    requires UserMade(cfg) && Faithful(setup) && setup.digest == m.digest && m.counting
    requires Solves(m, cfg, f) && Solves(m, Optimized(setup, cfg), g) && TwoOfOne(setup, cfg, a, b, ns) && e.ns == ns
    requires t in cfg.transforms && cfg.transforms[t].inputs == [Main(a), Main(b)]
    ensures var after, emitted := Optimized(setup, cfg), m.admits(cfg.sources[a].settings, e);
            && t in after.transforms && after.transforms[t].body == cfg.transforms[t].body
            && Sum(f, cfg.transforms[t].inputs, e) == 2 * emitted
            && Sum(g, after.transforms[t].inputs, e) == emitted
  {
    var gid := TwoOfOneOptimized(setup, cfg, a, b, ns);
    var settings, members := cfg.sources[a].settings, map[a := ns, b := ns];
    TransformStays(m.digest, cfg, gid, settings, [ns], members, t);
    BothEmit(m, cfg, f, setup, a, b, ns, e);
    OneArrives(m, cfg, g, gid, a, b, ns, e, settings);
  }

  lemma BothEmit(m: Meaning, cfg: Config, f: Flow, setup: Setup, a: Name, b: Name, ns: string, e: Event)
    requires UserMade(cfg) && m.counting && Solves(m, cfg, f) && TwoOfOne(setup, cfg, a, b, ns) && e.ns == ns
    ensures Sum(f, [Main(a), Main(b)], e) == 2 * m.admits(cfg.sources[a].settings, e)
  {
    MemberDelivers(m, f, cfg, cfg.sources[a].settings, a, ns, e);
    MemberDelivers(m, f, cfg, cfg.sources[a].settings, b, ns, e);
    SumOfTwo(f, Main(a), Main(b), e);
  }

  lemma OneArrives(m: Meaning, cfg: Config, g: Flow, gid: Gid, a: Name, b: Name, ns: string, e: Event, settings: Settings)
    requires m.counting && Collapsible(cfg, gid, settings, [ns], map[a := ns, b := ns]) && e.ns == ns
    requires Solves(m, Collapse(m.digest, cfg, gid, settings, [ns], map[a := ns, b := ns]), g)
    ensures Sum(g, Rewritten([Main(a), Main(b)], Renames(m.digest, gid, [ns], map[a := ns, b := ns])), e) == m.admits(settings, e)
  {
    var o := OutputFor(m.digest, gid, [ns], BestBuckets(|[ns]|), ns);
    RoutersRun(m, g, cfg, gid, settings, [ns], map[a := ns, b := ns]);
    RoutesDeliver(m, g, gid, settings, [ns], BestBuckets(|[ns]|), ns, e);
    BothRenamed(m.digest, gid, a, b, ns, o);
    FromOne(g, o, Item(e, None));
  }

  lemma BothRenamed(digest: string -> Digest, gid: Gid, a: Name, b: Name, ns: string, o: Output)
    requires o == OutputFor(digest, gid, [ns], BestBuckets(|[ns]|), ns)
    ensures Rewritten([Main(a), Main(b)], Renames(digest, gid, [ns], map[a := ns, b := ns])) == [o]
  {
    RewrittenTwins(Main(a), Main(b), o, Renames(digest, gid, [ns], map[a := ns, b := ns]));
  }

  /** A sink behind a transform that passes on what it receives shares the loss, although the sink itself
      reads one output only: whether counts are kept is a matter of the whole configuration. */
  lemma LossIsPassedOn(m: Meaning, setup: Setup, cfg: Config, f: Flow, g: Flow, a: Name, b: Name, t: Name, sink: Name,
      ns: string, e: Event)
    requires UserMade(cfg) && Faithful(setup) && setup.digest == m.digest && m.counting
    requires Solves(m, cfg, f) && Solves(m, Optimized(setup, cfg), g) && TwoOfOne(setup, cfg, a, b, ns) && e.ns == ns
    requires t in cfg.transforms && cfg.transforms[t].inputs == [Main(a), Main(b)]
    requires PassesOn(m, cfg.transforms[t].body.code)
    requires sink in cfg.sinks && cfg.sinks[sink].inputs == [Main(t)]
    ensures OneInputPerStream(setup, cfg, cfg.sinks[sink].inputs)
    ensures var after, emitted := Optimized(setup, cfg), m.admits(cfg.sources[a].settings, e);
            && sink in after.sinks
            && Sum(f, cfg.sinks[sink].inputs, e) == 2 * emitted
            && Sum(g, after.sinks[sink].inputs, e) == emitted
  {
    HalfAsOften(m, setup, cfg, f, g, a, b, t, ns, e);
    PassedOn(m, f, t, cfg.transforms[t], e);
    PassedOn(m, g, t, Optimized(setup, cfg).transforms[t], e);
    SinkReadsOn(m, setup, cfg, a, b, t, sink, ns);
  }

  lemma SinkReadsOn(m: Meaning, setup: Setup, cfg: Config, a: Name, b: Name, t: Name, sink: Name, ns: string)
    requires UserMade(cfg) && Faithful(setup) && TwoOfOne(setup, cfg, a, b, ns) && t in cfg.transforms
    requires sink in cfg.sinks && cfg.sinks[sink].inputs == [Main(t)]
    ensures sink in Optimized(setup, cfg).sinks && Optimized(setup, cfg).sinks[sink].inputs == [Main(t)]
  {
    var gid := TwoOfOneOptimized(setup, cfg, a, b, ns);
    GeneratedInputKept(Main(t), Renames(setup.digest, gid, [ns], map[a := ns, b := ns]));
  }

  ghost predicate PassesOn(m: Meaning, code: string) {
    forall bag: Bag, x :: x in bag ==> m.run(code, None, bag, x) == bag[x]
  }

  lemma SumOfTwo(flow: Flow, a: Output, b: Output, e: Event)
    ensures Sum(flow, [a, b], e) == Copies(flow, a, e) + Copies(flow, b, e)
  {
    assert [a, b][..1] == [a];
    FromOne(flow, a, Item(e, None));
  }

  lemma RewrittenTwins(a: Output, b: Output, o: Output, renames: map<Name, Output>)
    requires Renamed(a, renames) == o && Renamed(b, renames) == o
    ensures Rewritten([a, b], renames) == [o]
  {
    RewrittenSingle(a, renames);
    assert [a, b][..1] == [a];
  }

  lemma RewrittenSingle(a: Output, renames: map<Name, Output>)
    ensures Rewritten([a], renames) == [Renamed(a, renames)]
  {
    assert [a][..0] == [] && Rewritten([], renames) == [] && [] + [Renamed(a, renames)] == [Renamed(a, renames)];
  }

  lemma PassedOn(m: Meaning, flow: Flow, n: Name, t: Transform, e: Event)
    requires m.counting && t.body.User? && Behaves(m, flow, n, t) && PassesOn(m, t.body.code)
    ensures Sum(flow, [Main(n)], e) == Sum(flow, t.inputs, e)
  {
    var bag := Received(true, flow, t.inputs);
    assert Ran(m, flow, Main(n), t.inputs, t.body.code, None);
    assert e in bag && flow(Main(n), Item(e, None)) == bag[e];
    CopiesAs(flow, Main(n), e, None);
    FromOne(flow, Main(n), Item(e, None));
  }
}
