/** A Vector agent configuration as a dataflow graph, and what it means: which events arrive where. */
module Dataflow {
  import opened Outcomes
  import opened Selectors
  import opened Buckets

  const KUBERNETES_LOGS: string := "kubernetes_logs"

  /** Identifies one collapsed group of sources, or one piece of a large group. */
  datatype Gid = Gid(base: string, chunk: Option<nat>)

  /** Component names: the users' own, and those the optimizer generates. */
  datatype Name =
    | Plain(text: string)
    | OptSource(gid: Gid)
    | OptBucketer(gid: Gid)
    | OptRouter(gid: Gid)
    | OptFirst(gid: Gid)
    | OptSecond(gid: Gid, bucket: nat)

  datatype Key = Label(text: string) | Bucket(number: nat)

  /** What an input refers to: a component's output, or one of its routes. */
  datatype Output = Main(name: Name) | Port(name: Name, key: Key)

  /** Everything about a source but the namespaces it watches. */
  datatype Settings = Settings(typ: string, labelSelector: string, fieldSelector: string, apiCache: bool, options: string)

  datatype Source = Source(selector: string, settings: Settings)

  datatype Condition = NamespaceIs(ns: string) | BucketIs(number: nat)

  type Count = k: nat | 0 < k <= MAX_ROUTE_BUCKETS witness 1

  datatype Body = User(code: string) | Route(routes: map<Key, Condition>) | Bucketer(buckets: Count)

  datatype Transform = Transform(inputs: seq<Output>, body: Body)

  datatype Sink = Sink(inputs: seq<Output>, code: string)

  datatype Config = Config(sources: map<Name, Source>, transforms: map<Name, Transform>, sinks: map<Name, Sink>)

  /** A log event and the namespace of the pod it comes from. */
  datatype Event = Event(id: nat, ns: string)

  /** A bucket number as the generated program writes it into an event's metadata. */
  type Mark = b: nat | b < MAX_ROUTE_BUCKETS

  /** An event on its way, with its bucket, if a generated program has written one. */
  datatype Item = Item(event: Event, bucket: Option<Mark>)

  /** How often each event occurs. */
  type Bag = imap<Event, nat>

  /** The parts of the world the optimizer knows nothing about: the digest, how often a source with given
      settings emits an event if it watches the event's namespace, what any other source emits, what users'
      selectors select, and what users' transforms make of the events they receive. With `counting` it
      matters how often an event arrives; without, users' transforms only see whether it does. */
  datatype Meaning = Meaning(
    counting: bool,
    digest: string -> Digest,
    admits: (Settings, Event) -> nat,
    emits: (Source, Event) -> nat,
    selects: (string, string) -> bool,
    run: (string, Option<Key>, Bag, Event) -> nat)

  /** What flows out of every output: how often each item does. */
  type Flow = (Output, Item) -> nat

  /** A number of copies, as far as it matters. */
  function Norm(counting: bool, copies: nat): nat {
    if counting || copies == 0 then copies else 1
  }

  ghost function Emission(m: Meaning, s: Source, e: Event): nat {
    Norm(m.counting,
         if s.settings.typ == KUBERNETES_LOGS then if Selects(m.selects, s.selector, e.ns) then m.admits(s.settings, e) else 0
         else m.emits(s, e))
  }

  /** Copies without a mark. */
  function Unmarked(item: Item, copies: nat): nat {
    if item.bucket == None then copies else 0
  }

  /** How often an item arrives over a list of inputs. */
  function Arriving(flow: Flow, inputs: seq<Output>, item: Item): nat {
    if inputs == [] then 0
    else Arriving(flow, inputs[..|inputs| - 1], item) + flow(inputs[|inputs| - 1], item)
  }

  function MarkedCopies(flow: Flow, o: Output, e: Event, marks: nat): nat
    requires marks <= MAX_ROUTE_BUCKETS
  {
    if marks == 0 then 0 else MarkedCopies(flow, o, e, marks - 1) + flow(o, Item(e, Some(marks - 1)))
  }

  /** How often an event comes out of `o`, with whatever mark or none. */
  function Copies(flow: Flow, o: Output, e: Event): nat {
    flow(o, Item(e, None)) + MarkedCopies(flow, o, e, MAX_ROUTE_BUCKETS)
  }

  /** How often an event arrives over a list of inputs. */
  function Sum(flow: Flow, inputs: seq<Output>, e: Event): nat {
    if inputs == [] then 0 else Sum(flow, inputs[..|inputs| - 1], e) + Copies(flow, inputs[|inputs| - 1], e)
  }

  /** The events a component with these inputs receives. */
  ghost function Received(counting: bool, flow: Flow, inputs: seq<Output>): Bag {
    imap e: Event | true :: Norm(counting, Sum(flow, inputs, e))
  }

  predicate Holds(c: Condition, item: Item) {
    match c
    case NamespaceIs(ns) => item.event.ns == ns
    case BucketIs(b) => item.bucket == Some(b)
  }

  ghost predicate Sourced(m: Meaning, flow: Flow, n: Name, s: Source) {
    forall item :: flow(Main(n), item) == Unmarked(item, Emission(m, s, item.event))
  }

  ghost predicate Ran(m: Meaning, flow: Flow, o: Output, inputs: seq<Output>, code: string, key: Option<Key>) {
    forall item :: flow(o, item) == Unmarked(item, Norm(m.counting, m.run(code, key, Received(m.counting, flow, inputs), item.event)))
  }

  ghost predicate Routed(m: Meaning, flow: Flow, n: Name, inputs: seq<Output>, key: Key, c: Condition) {
    forall item :: flow(Port(n, key), item) == if Holds(c, item) then Norm(m.counting, Arriving(flow, inputs, item)) else 0
  }

  ghost predicate Marked(m: Meaning, flow: Flow, n: Name, inputs: seq<Output>, buckets: Count) {
    forall item :: flow(Main(n), item) ==
      if item.bucket == ProgramBucket(m.digest, item.event.ns, buckets) then Norm(m.counting, Sum(flow, inputs, item.event)) else 0
  }

  /** The flow out of transform `n` is what it makes of the flow into it. */
  ghost predicate Behaves(m: Meaning, flow: Flow, n: Name, t: Transform) {
    match t.body
    case User(code) =>
      && Ran(m, flow, Main(n), t.inputs, code, None)
      && forall key :: Ran(m, flow, Port(n, key), t.inputs, code, Some(key))
    case Route(routes) => forall key :: key in routes ==> Routed(m, flow, n, t.inputs, key, routes[key])
    case Bucketer(buckets) => Marked(m, flow, n, t.inputs, buckets)
  }

  /** `flow` is a way the configuration can run. */
  ghost predicate Solves(m: Meaning, cfg: Config, flow: Flow) {
    && (forall n :: n in cfg.sources ==> Sourced(m, flow, n, cfg.sources[n]))
    && (forall n :: n in cfg.transforms ==> Behaves(m, flow, n, cfg.transforms[n]))
  }

  /** Two lists of inputs bring the same events, equally often as far as it matters. */
  ghost predicate Hears(counting: bool, f: Flow, a: seq<Output>, g: Flow, b: seq<Output>) {
    Received(counting, g, b) == Received(counting, f, a)
  }

  ghost predicate SameTransform(m: Meaning, a: Config, f: Flow, b: Config, g: Flow, n: Name) {
    n in a.transforms ==>
      n in b.transforms && b.transforms[n].body == a.transforms[n].body &&
      Hears(m.counting, f, a.transforms[n].inputs, g, b.transforms[n].inputs)
  }

  ghost predicate SameSink(m: Meaning, a: Config, f: Flow, b: Config, g: Flow, n: Name) {
    n in a.sinks ==>
      n in b.sinks && b.sinks[n].code == a.sinks[n].code && Hears(m.counting, f, a.sinks[n].inputs, g, b.sinks[n].inputs)
  }

  /** Every transform and sink of `a` is in `b`, unchanged but for its inputs, which bring the same events;
      there are no other sinks. */
  ghost predicate SameView(m: Meaning, a: Config, f: Flow, b: Config, g: Flow) {
    && a.sinks.Keys == b.sinks.Keys
    && (forall n :: SameTransform(m, a, f, b, g, n))
    && (forall n :: SameSink(m, a, f, b, g, n))
  }

  lemma SameViewChains(m: Meaning, a: Config, f: Flow, b: Config, g: Flow, c: Config, h: Flow)
    requires SameView(m, a, f, b, g) && SameView(m, b, g, c, h)
    ensures SameView(m, a, f, c, h)
  {
    forall n ensures SameTransform(m, a, f, c, h, n) && SameSink(m, a, f, c, h, n) {
      assert SameTransform(m, a, f, b, g, n) && SameTransform(m, b, g, c, h, n);
      assert SameSink(m, a, f, b, g, n) && SameSink(m, b, g, c, h, n);
    }
  }

  // Transforms, sinks and what they read.

  datatype Component = TransformAt(name: Name) | SinkAt(name: Name)

  predicate Present(cfg: Config, c: Component) {
    match c
    case TransformAt(n) => n in cfg.transforms
    case SinkAt(n) => n in cfg.sinks
  }

  function InputsOf(cfg: Config, c: Component): seq<Output>
    requires Present(cfg, c)
  {
    match c
    case TransformAt(n) => cfg.transforms[n].inputs
    case SinkAt(n) => cfg.sinks[n].inputs
  }

  // Counting.

  lemma {:induction false} NoMarks(flow: Flow, o: Output, e: Event, marks: nat)
    requires marks <= MAX_ROUTE_BUCKETS && forall b: Mark :: b < marks ==> flow(o, Item(e, Some(b))) == 0
    ensures MarkedCopies(flow, o, e, marks) == 0
  {
    if marks > 0 {
      NoMarks(flow, o, e, marks - 1);
    }
  }

  lemma {:induction false} OneMark(flow: Flow, o: Output, e: Event, marks: nat, mark: Mark)
    requires mark < marks <= MAX_ROUTE_BUCKETS && forall b: Mark :: b < marks && b != mark ==> flow(o, Item(e, Some(b))) == 0
    ensures MarkedCopies(flow, o, e, marks) == flow(o, Item(e, Some(mark)))
  {
    if mark == marks - 1 {
      NoMarks(flow, o, e, marks - 1);
    } else {
      OneMark(flow, o, e, marks - 1, mark);
    }
  }

  /** Copies that all carry one mark, or none, are counted there. */
  lemma CopiesAs(flow: Flow, o: Output, e: Event, mark: Option<Mark>)
    requires forall b: Option<Mark> :: b != mark ==> flow(o, Item(e, b)) == 0
    ensures Copies(flow, o, e) == flow(o, Item(e, mark))
  {
    if mark.None? {
      NoMarks(flow, o, e, MAX_ROUTE_BUCKETS);
    } else {
      OneMark(flow, o, e, MAX_ROUTE_BUCKETS, mark.value);
    }
  }

  ghost predicate SameOutput(f: Flow, g: Flow, o: Output) {
    forall item :: g(o, item) == f(o, item)
  }

  lemma {:induction false} SameMarked(f: Flow, g: Flow, o: Output, e: Event, marks: nat)
    requires SameOutput(f, g, o) && marks <= MAX_ROUTE_BUCKETS
    ensures MarkedCopies(g, o, e, marks) == MarkedCopies(f, o, e, marks)
  {
    if marks > 0 {
      SameMarked(f, g, o, e, marks - 1);
    }
  }

  lemma SameCopies(f: Flow, g: Flow, o: Output, e: Event)
    requires SameOutput(f, g, o)
    ensures Copies(g, o, e) == Copies(f, o, e)
  {
    SameMarked(f, g, o, e, MAX_ROUTE_BUCKETS);
  }

  lemma FromOne(flow: Flow, o: Output, item: Item)
    ensures Arriving(flow, [o], item) == flow(o, item)
    ensures Sum(flow, [o], item.event) == Copies(flow, o, item.event)
  {
    assert [o][..0] == [];
  }
}
