/** Collapsing one group of single-namespace sources into one source, and routing its events back to
    where the sources' events went. */
module Routing {
  import opened Outcomes
  import opened Ordering
  import opened Selectors
  import opened Buckets
  import opened Dataflow

  const FLAT_ROUTING_THRESHOLD: nat := 16

  // Rewriting inputs.

  /** Where a component that read `o` reads now. */
  function Renamed(o: Output, renames: map<Name, Output>): Output {
    if o.Main? && o.name in renames then renames[o.name] else o
  }

  /** The renamed inputs in order, each once. */
  function Rewritten(inputs: seq<Output>, renames: map<Name, Output>): (r: seq<Output>)
    ensures forall o :: o in r <==> exists i :: 0 <= i < |inputs| && Renamed(inputs[i], renames) == o
  {
    if inputs == [] then []
    else
      var n := |inputs| - 1;
      var front := inputs[..n];
      var r := Rewritten(front, renames);
      var o := Renamed(inputs[n], renames);
      assert forall i :: 0 <= i < n ==> Renamed(front[i], renames) == Renamed(inputs[i], renames);
      if o in r then r else r + [o]
  }

  method RewriteInputs(inputs: seq<Output>, renames: map<Name, Output>) returns (r: seq<Output>)
    ensures r == Rewritten(inputs, renames)
  {
    var seen: set<Output> := {};
    r := [];
    for i := 0 to |inputs|
      invariant r == Rewritten(inputs[..i], renames)
      invariant forall o :: o in seen <==> o in r
    {
      assert inputs[..i + 1][..i] == inputs[..i];
      var o := inputs[i];
      if o.Main? && o.name in renames {
        o := renames[o.name];
      }
      if o !in seen {
        seen := seen + {o};
        r := r + [o];
      }
    }
    assert inputs[..|inputs|] == inputs;
  }

  // The generated routers.

  function NamespaceRoutes(namespaces: set<string>): map<Key, Condition> {
    map key | key in (set ns | ns in namespaces :: Label(ns)) :: NamespaceIs(key.text)
  }

  function BucketRoutes(buckets: set<nat>): map<Key, Condition> {
    map key | key in (set b | b in buckets :: Bucket(b)) :: BucketIs(key.number)
  }

  function InBucket(digest: string -> Digest, namespaces: seq<string>, buckets: Count, b: nat): set<string> {
    set ns | ns in namespaces && NsBucket(digest, ns, buckets) == b
  }

  function UsedBuckets(digest: string -> Digest, namespaces: seq<string>, buckets: Count): set<nat> {
    set ns | ns in namespaces :: NsBucket(digest, ns, buckets)
  }

  function FlatRouter(gid: Gid, namespaces: seq<string>): Transform {
    Transform([Main(OptSource(gid))], Route(NamespaceRoutes(set ns | ns in namespaces)))
  }

  function Marker(gid: Gid, buckets: Count): Transform {
    Transform([Main(OptSource(gid))], Bucketer(buckets))
  }

  function FirstRouter(digest: string -> Digest, gid: Gid, namespaces: seq<string>, buckets: Count): Transform {
    Transform([Main(OptBucketer(gid))], Route(BucketRoutes(UsedBuckets(digest, namespaces, buckets))))
  }

  function SecondRouter(digest: string -> Digest, gid: Gid, namespaces: seq<string>, buckets: Count, b: nat): Transform {
    Transform([Port(OptFirst(gid), Bucket(b))], Route(NamespaceRoutes(InBucket(digest, namespaces, buckets, b))))
  }

  function SecondRouters(digest: string -> Digest, gid: Gid, namespaces: seq<string>, buckets: Count): map<Name, Transform> {
    map n | n in (set b | b in UsedBuckets(digest, namespaces, buckets) :: OptSecond(gid, b)) ::
      SecondRouter(digest, gid, namespaces, buckets, n.bucket)
  }

  /** One router for a small group, two levels of routers for a large one. */
  function Routers(digest: string -> Digest, gid: Gid, namespaces: seq<string>, buckets: Count): map<Name, Transform> {
    if |namespaces| <= FLAT_ROUTING_THRESHOLD then map[OptRouter(gid) := FlatRouter(gid, namespaces)]
    else
      SecondRouters(digest, gid, namespaces, buckets)
        [OptBucketer(gid) := Marker(gid, buckets)]
        [OptFirst(gid) := FirstRouter(digest, gid, namespaces, buckets)]
  }

  /** The output that carries a namespace's events. */
  function OutputFor(digest: string -> Digest, gid: Gid, namespaces: seq<string>, buckets: Count, ns: string): Output {
    if |namespaces| <= FLAT_ROUTING_THRESHOLD then Port(OptRouter(gid), Label(ns))
    else Port(OptSecond(gid, NsBucket(digest, ns, buckets)), Label(ns))
  }

  // What the generated routers do.

  function Collapsed(namespaces: seq<string>, settings: Settings): Source {
    Source(InSelector(namespaces), settings)
  }

  ghost predicate Watchable(namespaces: seq<string>, settings: Settings) {
    namespaces != [] && settings.typ == KUBERNETES_LOGS && forall ns :: ns in namespaces ==> PlainName(ns)
  }

  /** The generated part of a configuration runs as it should. */
  ghost predicate Generates(m: Meaning, flow: Flow, gid: Gid, settings: Settings, namespaces: seq<string>, buckets: Count) {
    && Sourced(m, flow, OptSource(gid), Collapsed(namespaces, settings))
    && forall n :: n in Routers(m.digest, gid, namespaces, buckets) ==>
         Behaves(m, flow, n, Routers(m.digest, gid, namespaces, buckets)[n])
  }

  /** How often a source with these settings emits an event of a namespace it watches. */
  function Watched(m: Meaning, settings: Settings, e: Event): nat {
    Norm(m.counting, m.admits(settings, e))
  }

  lemma SourceDelivers(m: Meaning, flow: Flow, gid: Gid, settings: Settings, namespaces: seq<string>, item: Item)
    requires Sourced(m, flow, OptSource(gid), Collapsed(namespaces, settings)) && Watchable(namespaces, settings)
    ensures flow(Main(OptSource(gid)), item) ==
            if item.bucket == None && item.event.ns in namespaces then Watched(m, settings, item.event) else 0
  {
    InSelectorSelects(m.selects, namespaces, item.event.ns);
  }

  lemma SourceCopies(m: Meaning, flow: Flow, gid: Gid, settings: Settings, namespaces: seq<string>, e: Event)
    requires Sourced(m, flow, OptSource(gid), Collapsed(namespaces, settings)) && Watchable(namespaces, settings)
    ensures Copies(flow, Main(OptSource(gid)), e) == if e.ns in namespaces then Watched(m, settings, e) else 0
  {
    SourceDelivers(m, flow, gid, settings, namespaces, Item(e, None));
    CopiesAs(flow, Main(OptSource(gid)), e, None);
  }

  lemma FlatDelivers(m: Meaning, flow: Flow, gid: Gid, settings: Settings, namespaces: seq<string>, ns: string, item: Item)
    requires Sourced(m, flow, OptSource(gid), Collapsed(namespaces, settings)) && Watchable(namespaces, settings)
    requires Behaves(m, flow, OptRouter(gid), FlatRouter(gid, namespaces)) && ns in namespaces
    ensures flow(Port(OptRouter(gid), Label(ns)), item) ==
            if item.bucket == None && item.event.ns == ns then Watched(m, settings, item.event) else 0
  {
    SourceDelivers(m, flow, gid, settings, namespaces, item);
    FromOne(flow, Main(OptSource(gid)), item);
    var routes := NamespaceRoutes(set ns | ns in namespaces);
    assert Label(ns) in routes && routes[Label(ns)] == NamespaceIs(ns);
    assert Routed(m, flow, OptRouter(gid), [Main(OptSource(gid))], Label(ns), NamespaceIs(ns));
  }

  lemma MarkerDelivers(m: Meaning, flow: Flow, gid: Gid, settings: Settings, namespaces: seq<string>, buckets: Count, item: Item)
    requires Sourced(m, flow, OptSource(gid), Collapsed(namespaces, settings)) && Watchable(namespaces, settings)
    requires Behaves(m, flow, OptBucketer(gid), Marker(gid, buckets))
    ensures flow(Main(OptBucketer(gid)), item) ==
            if item.bucket == Some(NsBucket(m.digest, item.event.ns, buckets)) && item.event.ns in namespaces
            then Watched(m, settings, item.event) else 0
  {
    var o := Main(OptSource(gid));
    FromOne(flow, o, item);
    SourceCopies(m, flow, gid, settings, namespaces, item.event);
    ProgramAgrees(m.digest, item.event.ns, buckets);
    assert Marked(m, flow, OptBucketer(gid), [o], buckets);
  }

  lemma FirstDelivers(m: Meaning, flow: Flow, gid: Gid, settings: Settings, namespaces: seq<string>, buckets: Count,
      b: nat, item: Item)
    requires Sourced(m, flow, OptSource(gid), Collapsed(namespaces, settings)) && Watchable(namespaces, settings)
    requires Behaves(m, flow, OptBucketer(gid), Marker(gid, buckets))
    requires Behaves(m, flow, OptFirst(gid), FirstRouter(m.digest, gid, namespaces, buckets))
    requires b in UsedBuckets(m.digest, namespaces, buckets)
    ensures flow(Port(OptFirst(gid), Bucket(b)), item) ==
            if item.bucket == Some(b) && NsBucket(m.digest, item.event.ns, buckets) == b && item.event.ns in namespaces
            then Watched(m, settings, item.event) else 0
  {
    MarkerDelivers(m, flow, gid, settings, namespaces, buckets, item);
    FromOne(flow, Main(OptBucketer(gid)), item);
    var routes := BucketRoutes(UsedBuckets(m.digest, namespaces, buckets));
    assert Bucket(b) in routes && routes[Bucket(b)] == BucketIs(b);
    assert Routed(m, flow, OptFirst(gid), [Main(OptBucketer(gid))], Bucket(b), BucketIs(b));
  }

  lemma SecondDelivers(m: Meaning, flow: Flow, gid: Gid, settings: Settings, namespaces: seq<string>, buckets: Count,
      b: nat, ns: string, item: Item)
    requires Sourced(m, flow, OptSource(gid), Collapsed(namespaces, settings)) && Watchable(namespaces, settings)
    requires Behaves(m, flow, OptBucketer(gid), Marker(gid, buckets))
    requires Behaves(m, flow, OptFirst(gid), FirstRouter(m.digest, gid, namespaces, buckets))
    requires Behaves(m, flow, OptSecond(gid, b), SecondRouter(m.digest, gid, namespaces, buckets, b))
    requires ns in InBucket(m.digest, namespaces, buckets, b)
    ensures flow(Port(OptSecond(gid, b), Label(ns)), item) ==
            if item.bucket == Some(b) && item.event.ns == ns then Watched(m, settings, item.event) else 0
  {
    var o := Port(OptFirst(gid), Bucket(b));
    FirstDelivers(m, flow, gid, settings, namespaces, buckets, b, item);
    FromOne(flow, o, item);
    var routes := NamespaceRoutes(InBucket(m.digest, namespaces, buckets, b));
    assert Label(ns) in routes && routes[Label(ns)] == NamespaceIs(ns);
    assert Routed(m, flow, OptSecond(gid, b), [o], Label(ns), NamespaceIs(ns));
  }

  lemma GeneratedNames(digest: string -> Digest, gid: Gid, namespaces: seq<string>, buckets: Count)
    ensures var all := Routers(digest, gid, namespaces, buckets);
            if |namespaces| <= FLAT_ROUTING_THRESHOLD then
              all.Keys == {OptRouter(gid)} && all[OptRouter(gid)] == FlatRouter(gid, namespaces)
            else
              && OptBucketer(gid) in all && all[OptBucketer(gid)] == Marker(gid, buckets)
              && OptFirst(gid) in all && all[OptFirst(gid)] == FirstRouter(digest, gid, namespaces, buckets)
              && (forall b :: b in UsedBuckets(digest, namespaces, buckets) ==>
                    OptSecond(gid, b) in all && all[OptSecond(gid, b)] == SecondRouter(digest, gid, namespaces, buckets, b))
              && (forall n :: n in all ==>
                    n == OptBucketer(gid) || n == OptFirst(gid) ||
                    (n.OptSecond? && n.gid == gid && n.bucket in UsedBuckets(digest, namespaces, buckets)))
  {
  }

  /** Up to sixteen namespaces one router tells them apart; beyond that a bucket is computed first. */
  lemma FlatUpToSixteen(digest: string -> Digest, gid: Gid, namespaces: seq<string>, buckets: Count)
    ensures Routers(digest, gid, namespaces, buckets).Keys == {OptRouter(gid)} <==> |namespaces| <= 16
    ensures OptBucketer(gid) in Routers(digest, gid, namespaces, buckets) <==> |namespaces| > 16
  {
    GeneratedNames(digest, gid, namespaces, buckets);
  }

  /** The output for a namespace carries exactly what a source of its own would have emitted, as often. */
  lemma RoutesDeliver(m: Meaning, flow: Flow, gid: Gid, settings: Settings, namespaces: seq<string>, buckets: Count,
      ns: string, e: Event)
    requires Generates(m, flow, gid, settings, namespaces, buckets) && Watchable(namespaces, settings)
    requires ns in namespaces
    ensures Copies(flow, OutputFor(m.digest, gid, namespaces, buckets, ns), e) == if e.ns == ns then Watched(m, settings, e) else 0
  {
    GeneratedNames(m.digest, gid, namespaces, buckets);
    if |namespaces| <= FLAT_ROUTING_THRESHOLD {
      FlatRoute(m, flow, gid, settings, namespaces, ns, e);
    } else {
      var b := NsBucket(m.digest, ns, buckets);
      assert b in UsedBuckets(m.digest, namespaces, buckets);
      BucketedRoute(m, flow, gid, settings, namespaces, buckets, b, ns, e);
    }
  }

  lemma FlatRoute(m: Meaning, flow: Flow, gid: Gid, settings: Settings, namespaces: seq<string>, ns: string, e: Event)
    requires Sourced(m, flow, OptSource(gid), Collapsed(namespaces, settings)) && Watchable(namespaces, settings)
    requires Behaves(m, flow, OptRouter(gid), FlatRouter(gid, namespaces)) && ns in namespaces
    ensures Copies(flow, Port(OptRouter(gid), Label(ns)), e) == if e.ns == ns then Watched(m, settings, e) else 0
  {
    var o := Port(OptRouter(gid), Label(ns));
    forall mark: Option<Mark> ensures flow(o, Item(e, mark)) == if mark == None && e.ns == ns then Watched(m, settings, e) else 0 {
      FlatDelivers(m, flow, gid, settings, namespaces, ns, Item(e, mark));
    }
    CopiesAs(flow, o, e, None);
  }

  lemma BucketedRoute(m: Meaning, flow: Flow, gid: Gid, settings: Settings, namespaces: seq<string>, buckets: Count,
      b: nat, ns: string, e: Event)
    requires Sourced(m, flow, OptSource(gid), Collapsed(namespaces, settings)) && Watchable(namespaces, settings)
    requires Behaves(m, flow, OptBucketer(gid), Marker(gid, buckets))
    requires Behaves(m, flow, OptFirst(gid), FirstRouter(m.digest, gid, namespaces, buckets))
    requires Behaves(m, flow, OptSecond(gid, b), SecondRouter(m.digest, gid, namespaces, buckets, b))
    requires ns in namespaces && b == NsBucket(m.digest, ns, buckets)
    ensures Copies(flow, Port(OptSecond(gid, b), Label(ns)), e) == if e.ns == ns then Watched(m, settings, e) else 0
  {
    var o := Port(OptSecond(gid, b), Label(ns));
    forall mark: Option<Mark> ensures flow(o, Item(e, mark)) == if mark == Some(b) && e.ns == ns then Watched(m, settings, e) else 0 {
      SecondDelivers(m, flow, gid, settings, namespaces, buckets, b, ns, Item(e, mark));
    }
    CopiesAs(flow, o, e, Some(b));
  }

  lemma FirstRoute(m: Meaning, flow: Flow, gid: Gid, settings: Settings, namespaces: seq<string>, buckets: Count, b: nat, e: Event)
    requires Sourced(m, flow, OptSource(gid), Collapsed(namespaces, settings)) && Watchable(namespaces, settings)
    requires Behaves(m, flow, OptBucketer(gid), Marker(gid, buckets))
    requires Behaves(m, flow, OptFirst(gid), FirstRouter(m.digest, gid, namespaces, buckets))
    requires b in UsedBuckets(m.digest, namespaces, buckets) && e.ns in namespaces
    ensures Copies(flow, Port(OptFirst(gid), Bucket(b)), e) ==
            if b == NsBucket(m.digest, e.ns, buckets) then Watched(m, settings, e) else 0
  {
    var o, own := Port(OptFirst(gid), Bucket(b)), NsBucket(m.digest, e.ns, buckets);
    forall mark: Option<Mark> ensures flow(o, Item(e, mark)) == if mark == Some(b) && own == b then Watched(m, settings, e) else 0 {
      FirstDelivers(m, flow, gid, settings, namespaces, buckets, b, Item(e, mark));
    }
    BucketSmall(m.digest, namespaces, buckets, b);
    CopiesAs(flow, o, e, Some(b));
  }

  lemma BucketSmall(digest: string -> Digest, namespaces: seq<string>, buckets: Count, b: nat)
    requires b in UsedBuckets(digest, namespaces, buckets)
    ensures b < MAX_ROUTE_BUCKETS
  {
  }

  /** An event of a watched namespace takes exactly one first-level and one second-level route, and ends
      at its own namespace's output, as often as it was emitted. */
  lemma TakesOneRoute(m: Meaning, flow: Flow, gid: Gid, settings: Settings, namespaces: seq<string>, buckets: Count, e: Event)
    requires Generates(m, flow, gid, settings, namespaces, buckets) && Watchable(namespaces, settings)
    requires |namespaces| > FLAT_ROUTING_THRESHOLD && e.ns in namespaces
    ensures NsBucket(m.digest, e.ns, buckets) in UsedBuckets(m.digest, namespaces, buckets)
    ensures forall b :: b in UsedBuckets(m.digest, namespaces, buckets) ==>
              Copies(flow, Port(OptFirst(gid), Bucket(b)), e) ==
              if b == NsBucket(m.digest, e.ns, buckets) then Watched(m, settings, e) else 0
    ensures forall b, ns :: b in UsedBuckets(m.digest, namespaces, buckets) && ns in InBucket(m.digest, namespaces, buckets, b) ==>
              Copies(flow, Port(OptSecond(gid, b), Label(ns)), e) == if ns == e.ns then Watched(m, settings, e) else 0
  {
    GeneratedNames(m.digest, gid, namespaces, buckets);
    forall b | b in UsedBuckets(m.digest, namespaces, buckets)
      ensures Copies(flow, Port(OptFirst(gid), Bucket(b)), e) ==
              if b == NsBucket(m.digest, e.ns, buckets) then Watched(m, settings, e) else 0
    {
      FirstRoute(m, flow, gid, settings, namespaces, buckets, b, e);
    }
    forall b, ns | b in UsedBuckets(m.digest, namespaces, buckets) && ns in InBucket(m.digest, namespaces, buckets, b)
      ensures Copies(flow, Port(OptSecond(gid, b), Label(ns)), e) == if ns == e.ns then Watched(m, settings, e) else 0
    {
      BucketedRoute(m, flow, gid, settings, namespaces, buckets, b, ns, e);
    }
  }

  // How often an event is delivered.

  /** Two inputs that carry the event are about to become one. */
  ghost predicate Merges(flow: Flow, inputs: seq<Output>, renames: map<Name, Output>, e: Event) {
    exists i, j :: 0 <= i < j < |inputs| && SameRename(flow, inputs, renames, e, i, j)
  }

  ghost predicate SameRename(flow: Flow, inputs: seq<Output>, renames: map<Name, Output>, e: Event, i: nat, j: nat)
    requires i < |inputs| && j < |inputs|
  {
    Copies(flow, inputs[i], e) > 0 && Copies(flow, inputs[j], e) > 0 &&
    Renamed(inputs[i], renames) == Renamed(inputs[j], renames)
  }

  /** `g` delivers at every renamed input what `f` delivers at the original. */
  ghost predicate Follows(f: Flow, g: Flow, inputs: seq<Output>, renames: map<Name, Output>, e: Event) {
    forall o :: o in inputs ==> Copies(g, Renamed(o, renames), e) == Copies(f, o, e)
  }

  lemma MergesLast(f: Flow, inputs: seq<Output>, renames: map<Name, Output>, e: Event)
    requires inputs != []
    ensures var n := |inputs| - 1;
            Merges(f, inputs, renames, e) <==>
            Merges(f, inputs[..n], renames, e) || exists i: nat :: i < n && SameRename(f, inputs, renames, e, i, n)
  {
    var n := |inputs| - 1;
    var front := inputs[..n];
    assert forall i, j :: 0 <= i < j < n ==> (SameRename(f, front, renames, e, i, j) <==> SameRename(f, inputs, renames, e, i, j));
  }

  lemma RepeatedLast(f: Flow, g: Flow, inputs: seq<Output>, renames: map<Name, Output>, e: Event)
    requires inputs != [] && Follows(f, g, inputs, renames, e)
    ensures var n := |inputs| - 1;
            (exists i: nat :: i < n && SameRename(f, inputs, renames, e, i, n)) <==>
            Copies(f, inputs[n], e) > 0 && Renamed(inputs[n], renames) in Rewritten(inputs[..n], renames)
  {
    var n := |inputs| - 1;
    var o := Renamed(inputs[n], renames);
    if Copies(f, inputs[n], e) > 0 && o in Rewritten(inputs[..n], renames) {
      var i :| 0 <= i < n && Renamed(inputs[..n][i], renames) == o;
      assert inputs[i] in inputs && inputs[n] in inputs;
      assert SameRename(f, inputs, renames, e, i, n);
    }
  }

  /** A component gets an event exactly as often as before, unless two of its inputs that carry the event
      become one; then it gets it less often, but still gets it. */
  lemma {:induction false} CopiesKeptExactly(f: Flow, g: Flow, inputs: seq<Output>, renames: map<Name, Output>, e: Event)
    requires Follows(f, g, inputs, renames, e)
    ensures Sum(g, Rewritten(inputs, renames), e) <= Sum(f, inputs, e)
    ensures Sum(g, Rewritten(inputs, renames), e) == Sum(f, inputs, e) <==> !Merges(f, inputs, renames, e)
    ensures Sum(g, Rewritten(inputs, renames), e) > 0 <==> Sum(f, inputs, e) > 0
  {
    if inputs != [] {
      var n := |inputs| - 1;
      var r, o := Rewritten(inputs[..n], renames), Renamed(inputs[n], renames);
      CopiesKeptExactly(f, g, inputs[..n], renames, e);
      MergesLast(f, inputs, renames, e);
      RepeatedLast(f, g, inputs, renames, e);
      assert inputs[n] in inputs;
      if o in r {
        SumHasAll(g, r, o, e);
      } else {
        assert (r + [o])[..|r|] == r;
      }
    }
  }

  lemma {:induction false} SumHasAll(flow: Flow, inputs: seq<Output>, o: Output, e: Event)
    requires o in inputs
    ensures Copies(flow, o, e) <= Sum(flow, inputs, e)
  {
    var n := |inputs| - 1;
    if o != inputs[n] {
      SumHasAll(flow, inputs[..n], o, e);
    }
  }

  /** Two different positions are renamed alike. */
  ghost predicate Repeats(inputs: seq<Output>, renames: map<Name, Output>) {
    exists i, j :: 0 <= i < j < |inputs| && Renamed(inputs[i], renames) == Renamed(inputs[j], renames)
  }

  /** Rewriting shortens the list exactly when two of its inputs become one. */
  lemma {:induction false} RewrittenLength(inputs: seq<Output>, renames: map<Name, Output>)
    ensures |Rewritten(inputs, renames)| <= |inputs|
    ensures |Rewritten(inputs, renames)| == |inputs| <==> !Repeats(inputs, renames)
    ensures !Repeats(inputs, renames) ==> forall i :: 0 <= i < |inputs| ==> Rewritten(inputs, renames)[i] == Renamed(inputs[i], renames)
  {
    if inputs != [] {
      var n := |inputs| - 1;
      var front := inputs[..n];
      RewrittenLength(front, renames);
      RepeatsLast(inputs, renames);
      assert forall i :: 0 <= i < n ==> front[i] == inputs[i];
    }
  }

  /** Where two outputs are both kept, the one that is read first stays first. */
  ghost predicate ReadFirst(inputs: seq<Output>, renames: map<Name, Output>, x: Output, y: Output) {
    exists i :: 0 <= i < |inputs| && Renamed(inputs[i], renames) == x && forall j :: 0 <= j <= i ==> Renamed(inputs[j], renames) != y
  }

  ghost predicate InReadingOrder(inputs: seq<Output>, renames: map<Name, Output>, r: seq<Output>) {
    forall k, l :: 0 <= k < l < |r| ==> ReadFirst(inputs, renames, r[k], r[l])
  }

  /** The rewritten inputs stand in the order in which they are first read. */
  lemma {:induction false} RewrittenInOrder(inputs: seq<Output>, renames: map<Name, Output>)
    ensures InReadingOrder(inputs, renames, Rewritten(inputs, renames))
  {
    if inputs != [] {
      var front, last := inputs[..|inputs| - 1], inputs[|inputs| - 1];
      assert inputs == front + [last];
      RewrittenInOrder(front, renames);
      var before, o := Rewritten(front, renames), Renamed(last, renames);
      forall k, l | 0 <= k < l < |before| ensures ReadFirst(inputs, renames, before[k], before[l]) {
        ReadFirstStays(front, last, renames, before[k], before[l]);
      }
      if o !in before {
        forall k | 0 <= k < |before| ensures ReadFirst(inputs, renames, before[k], o) {
          assert before[k] in before;
          var i :| 0 <= i < |front| && Renamed(front[i], renames) == before[k];
          assert forall j :: 0 <= j < |front| ==> Renamed(front[j], renames) in before;
          assert Renamed(inputs[i], renames) == before[k];
          assert forall j :: 0 <= j <= i ==> inputs[j] == front[j];
        }
      }
    }
  }

  lemma ReadFirstStays(front: seq<Output>, last: Output, renames: map<Name, Output>, x: Output, y: Output)
    requires ReadFirst(front, renames, x, y)
    ensures ReadFirst(front + [last], renames, x, y)
  {
    var i :| 0 <= i < |front| && Renamed(front[i], renames) == x && forall j :: 0 <= j <= i ==> Renamed(front[j], renames) != y;
    var inputs := front + [last];
    assert Renamed(inputs[i], renames) == x;
    assert forall j :: 0 <= j <= i ==> inputs[j] == front[j];
  }

  lemma {:induction false} RewrittenDistinct(inputs: seq<Output>, renames: map<Name, Output>)
    ensures Distinct(Rewritten(inputs, renames))
  {
    if inputs != [] {
      RewrittenDistinct(inputs[..|inputs| - 1], renames);
    }
  }

  lemma RepeatsLast(inputs: seq<Output>, renames: map<Name, Output>)
    requires inputs != []
    ensures var n := |inputs| - 1;
            Repeats(inputs, renames) <==>
            Repeats(inputs[..n], renames) || Renamed(inputs[n], renames) in Rewritten(inputs[..n], renames)
  {
    var n := |inputs| - 1;
    var front := inputs[..n];
    if Renamed(inputs[n], renames) in Rewritten(front, renames) {
      var i :| 0 <= i < |front| && Renamed(front[i], renames) == Renamed(inputs[n], renames);
      assert inputs[i] == front[i];
    }
    if Repeats(inputs, renames) {
      var i, j :| 0 <= i < j < |inputs| && Renamed(inputs[i], renames) == Renamed(inputs[j], renames);
      assert front[i] == inputs[i];
      if j < n {
        assert front[j] == inputs[j];
      }
    }
  }
}
