/** The names of generated components as text, and why no two of them ever coincide. */
module ComponentNames {
  import opened Outcomes
  import opened Ordering
  import opened Selectors
  import opened Dataflow
  import opened Collapsing
  import opened Optimizer
  import opened OptimizerGroups
  import opened OptimizerInputs

  const SOURCE_PREFIX: string := "optimizedSource-"
  const BUCKETER_PREFIX: string := "optimizedBucketer-"
  const ROUTER_PREFIX: string := "optimizedRouter-"

  // Decimal numbers.

  function Digit(v: nat): (c: char)
    requires v < 10
    ensures '0' <= c <= '9' && c as nat - '0' as nat == v
  {
    '0' + v as char
  }

  function Decimal(n: nat): (s: string)
    ensures s != "" && forall i :: 0 <= i < |s| ==> '0' <= s[i] <= '9'
  {
    if n < 10 then [Digit(n)] else Decimal(n / 10) + [Digit(n % 10)]
  }

  lemma {:induction false} DecimalInjective(a: nat, b: nat)
    requires Decimal(a) == Decimal(b)
    ensures a == b
  {
    var s, t := Decimal(a), Decimal(b);
    assert s[|s| - 1] == Digit(a % 10) && t[|t| - 1] == Digit(b % 10);
    assert a < 10 <==> |s| == 1;
    assert b < 10 <==> |t| == 1;
    if a >= 10 {
      assert s[..|s| - 1] == Decimal(a / 10) && t[..|t| - 1] == Decimal(b / 10);
      DecimalInjective(a / 10, b / 10);
    }
  }

  // Text in segments.

  /** The segments, each behind `mark`. */
  function Tail(mark: char, segments: seq<string>): string {
    if segments == [] then "" else [mark] + segments[0] + Tail(mark, segments[1..])
  }

  predicate Free(mark: char, s: string) {
    mark !in s
  }

  predicate AllFree(mark: char, segments: seq<string>) {
    forall s :: s in segments ==> Free(mark, s)
  }

  /** Where `mark` first occurs, or the end. */
  function First(mark: char, s: string): (k: nat)
    ensures k <= |s|
  {
    if s == "" || s[0] == mark then 0 else 1 + First(mark, s[1..])
  }

  lemma {:induction false} FirstAfter(mark: char, a: string, x: string)
    requires Free(mark, a) && (x == "" || x[0] == mark)
    ensures First(mark, a + x) == |a|
  {
    if a == "" {
      assert a + x == x;
    } else {
      assert (a + x)[1..] == a[1..] + x;
      FirstAfter(mark, a[1..], x);
    }
  }

  /** Cutting at the first `mark` is unambiguous. */
  lemma CutAt(mark: char, a: string, x: string, b: string, y: string)
    requires a + x == b + y && Free(mark, a) && Free(mark, b)
    requires x == "" || x[0] == mark
    requires y == "" || y[0] == mark
    ensures a == b && x == y
  {
    FirstAfter(mark, a, x);
    FirstAfter(mark, b, y);
    assert a == (a + x)[..|a|] && b == (b + y)[..|b|] && x == (a + x)[|a|..] && y == (b + y)[|b|..];
  }

  lemma {:induction false} TailInjective(mark: char, a: seq<string>, b: seq<string>)
    requires AllFree(mark, a) && AllFree(mark, b) && Tail(mark, a) == Tail(mark, b)
    ensures a == b
  {
    if a == [] || b == [] {
      assert Tail(mark, a) == "" <==> a == [];
    } else {
      var x, y := Tail(mark, a[1..]), Tail(mark, b[1..]);
      assert Tail(mark, a)[1..] == a[0] + x && Tail(mark, b)[1..] == b[0] + y;
      CutAt(mark, a[0], x, b[0], y);
      TailInjective(mark, a[1..], b[1..]);
      assert a == [a[0]] + a[1..] && b == [b[0]] + b[1..];
    }
  }

  // Names.

  function ChunkSegments(gid: Gid): seq<string> {
    if gid.chunk.None? then [] else [Decimal(gid.chunk.value)]
  }

  /** What follows a generated name's base. */
  function Segments(n: Name): seq<string>
    requires !n.Plain?
  {
    match n
    case OptFirst(gid) => ChunkSegments(gid) + ["l1"]
    case OptSecond(gid, b) => ChunkSegments(gid) + [Decimal(b)]
    case OptSource(gid) => ChunkSegments(gid)
    case OptBucketer(gid) => ChunkSegments(gid)
    case OptRouter(gid) => ChunkSegments(gid)
  }

  function Prefix(n: Name): string
    requires !n.Plain?
  {
    match n
    case OptSource(_) => SOURCE_PREFIX
    case OptBucketer(_) => BUCKETER_PREFIX
    case _ => ROUTER_PREFIX
  }

  function Text(n: Name): string {
    if n.Plain? then n.text else Prefix(n) + (n.gid.base + Tail('-', Segments(n)))
  }

  function KeyText(key: Key): string {
    match key
    case Label(text) => text
    case Bucket(number) => Decimal(number)
  }

  function RouteText(o: Output): string {
    match o
    case Main(_) => ""
    case Port(_, key) => "." + KeyText(key)
  }

  function OutputText(o: Output): string {
    Text(o.name) + RouteText(o)
  }

  /** A user's name: never the start of a generated one. */
  predicate UserText(t: string) {
    !HasPrefix(t, SOURCE_PREFIX) && !HasPrefix(t, BUCKETER_PREFIX) && !HasPrefix(t, ROUTER_PREFIX)
  }

  predicate GoodName(n: Name) {
    if n.Plain? then UserText(n.text) else Free('-', n.gid.base)
  }

  /** A group is named as a whole or in pieces, never both. */
  predicate SameMode(a: Name, b: Name) {
    a.Plain? || b.Plain? || (a.gid.base == b.gid.base ==> (a.gid.chunk.None? <==> b.gid.chunk.None?))
  }

  lemma PrefixesDiffer(a: string, b: string, x: string, y: string)
    requires a in {SOURCE_PREFIX, BUCKETER_PREFIX, ROUTER_PREFIX} && b in {SOURCE_PREFIX, BUCKETER_PREFIX, ROUTER_PREFIX}
    requires a + x == b + y
    ensures a == b && x == y
  {
    assert (a + x)[9] == a[9] && (b + y)[9] == b[9];
    assert x == (a + x)[|a|..] && y == (b + y)[|b|..];
  }

  lemma SegmentsFree(n: Name)
    requires !n.Plain?
    ensures AllFree('-', Segments(n))
    ensures var t := Tail('-', Segments(n)); t == "" || t[0] == '-'
  {
    assert Free('-', "l1");
  }

  lemma SameSegments(a: Name, b: Name)
    requires !a.Plain? && !b.Plain? && (SameMode(a, b) || (a.OptSource? && b.OptSource?)) && Prefix(a) == Prefix(b)
    requires a.gid.base == b.gid.base && Segments(a) == Segments(b)
    ensures a == b
  {
    PrefixKinds(a);
    PrefixKinds(b);
    assert forall k: nat :: Decimal(k)[0] != "l1"[0];
    var ca, cb := ChunkSegments(a.gid), ChunkSegments(b.gid);
    assert Segments(a)[..|ca|] == ca && Segments(b)[..|cb|] == cb;
    if a.gid.chunk.Some? {
      DecimalInjective(a.gid.chunk.value, b.gid.chunk.value);
    }
    var da, db := Segments(a)[|ca|..], Segments(b)[|cb|..];
    if a.OptSecond? && b.OptSecond? {
      assert da[0] == Decimal(a.bucket) && db[0] == Decimal(b.bucket);
      DecimalInjective(a.bucket, b.bucket);
    }
  }

  lemma PrefixKinds(n: Name)
    requires !n.Plain?
    ensures Prefix(n) == SOURCE_PREFIX <==> n.OptSource?
    ensures Prefix(n) == BUCKETER_PREFIX <==> n.OptBucketer?
  {
    assert SOURCE_PREFIX[9] == 'S' && BUCKETER_PREFIX[9] == 'B' && ROUTER_PREFIX[9] == 'R';
  }

  /** Two good names of consistent modes never look alike, and two collapsed sources never do. */
  lemma TextInjective(a: Name, b: Name)
    requires GoodName(a) && GoodName(b) && Text(a) == Text(b)
    requires SameMode(a, b) || (a.OptSource? && b.OptSource?)
    ensures a == b
  {
    if !a.Plain? && !b.Plain? {
      var x, y := Tail('-', Segments(a)), Tail('-', Segments(b));
      PrefixesDiffer(Prefix(a), Prefix(b), a.gid.base + x, b.gid.base + y);
      SegmentsFree(a);
      SegmentsFree(b);
      CutAt('-', a.gid.base, x, b.gid.base, y);
      TailInjective('-', Segments(a), Segments(b));
      SameSegments(a, b);
    } else if !a.Plain? {
      StartsGenerated(a);
    } else if !b.Plain? {
      StartsGenerated(b);
    }
  }

  lemma StartsGenerated(n: Name)
    requires !n.Plain?
    ensures !UserText(Text(n))
  {
    assert Text(n)[..|Prefix(n)|] == Prefix(n);
  }

  // Outputs.

  lemma {:induction false} TailFree(mark: char, segments: seq<string>)
    requires mark != '-' && AllFree(mark, segments)
    ensures Free(mark, Tail('-', segments))
  {
    if segments != [] {
      assert forall s :: s in segments[1..] ==> s in segments;
      TailFree(mark, segments[1..]);
      assert Free(mark, segments[0]);
    }
  }

  /** Names without dots: users' names must not have any, and generated ones get none. */
  predicate Dotless(n: Name) {
    if n.Plain? then Free('.', n.text) else Free('.', n.gid.base)
  }

  lemma TextDotless(n: Name)
    requires Dotless(n)
    ensures Free('.', Text(n))
  {
    if !n.Plain? {
      assert Free('.', "l1");
      TailFree('.', Segments(n));
      assert Free('.', SOURCE_PREFIX) && Free('.', BUCKETER_PREFIX) && Free('.', ROUTER_PREFIX);
    }
  }

  /** Only the first level of a bucketed router has numbered routes. */
  predicate GoodOutput(o: Output) {
    GoodName(o.name) && Dotless(o.name) && (o.Port? ==> (o.key.Bucket? <==> o.name.OptFirst?))
  }

  /** What an input refers to can be read off its text. */
  lemma OutputTextInjective(a: Output, b: Output)
    requires GoodOutput(a) && GoodOutput(b) && SameMode(a.name, b.name) && OutputText(a) == OutputText(b)
    ensures a == b
  {
    TextDotless(a.name);
    TextDotless(b.name);
    CutAt('.', Text(a.name), RouteText(a), Text(b.name), RouteText(b));
    TextInjective(a.name, b.name);
    SameRoute(a, b);
  }

  lemma SameRoute(a: Output, b: Output)
    requires GoodOutput(a) && GoodOutput(b) && a.name == b.name && RouteText(a) == RouteText(b)
    ensures a == b
  {
    if a.Port? && b.Port? {
      assert RouteText(a)[1..] == KeyText(a.key) && RouteText(b)[1..] == KeyText(b.key);
      if a.key.Bucket? {
        DecimalInjective(a.key.number, b.key.number);
      }
    }
  }

  // The optimizer keeps its names apart.

  /** What the operator gets as names: hexadecimal hashes, and users' names it could not have generated. */
  ghost predicate CleanInputs(setup: Setup, cfg: Config) {
    && (forall s :: Free('-', setup.hash(s)) && Free('.', setup.hash(s)))
    && forall n :: n in cfg.sources || n in cfg.transforms || n in cfg.sinks ==> n.Plain? && UserText(n.text) && Free('.', n.text)
  }

  ghost predicate CleanSources(sources: set<Name>) {
    && (forall n :: n in sources ==> GoodName(n) && Dotless(n))
    && forall a, b :: a in sources && b in sources ==> SameMode(a, b)
  }

  /** Looking a base up by the text of its names, as the operator does, finds it exactly when it is taken. */
  lemma TakenAsText(sources: set<Name>, base: string)
    requires CleanSources(sources) && Free('-', base) && forall n :: n in sources ==> n.Plain? || n.OptSource?
    ensures Taken(sources, base) <==>
            exists n :: n in sources && (Text(n) == SOURCE_PREFIX + base || Text(n) == SOURCE_PREFIX + base + "-0")
  {
    var whole, first := OptSource(Gid(base, None)), OptSource(Gid(base, Some(0)));
    assert Text(whole) == SOURCE_PREFIX + base;
    assert Tail('-', ["0"]) == "-0" by {
      assert ["0"][1..] == [];
    }
    assert Decimal(0) == "0";
    assert Text(first) == SOURCE_PREFIX + (base + "-0") == SOURCE_PREFIX + base + "-0";
    forall n, g | n in sources && g in {whole, first} && Text(n) == Text(g) ensures n == g {
      TextInjective(n, g);
    }
  }

  lemma PaddedFree(text: string, base: string, mark: char)
    requires Padded(text, base) && Free(mark, base) && mark != 'x'
    ensures Free(mark, text)
  {
    assert forall i :: 0 <= i < |base| ==> text[i] == base[i];
  }

  /** A group only adds collapsed sources under a base nobody else uses, all in one mode. */
  lemma GroupNames(setup: Setup, cfg: Config, s: string, settings: Settings, members: map<Name, string>)
    requires Ready(cfg, settings, Arranged(members.Values), members) && FirstPieces(cfg)
    ensures var base, whole := FreeBase(cfg.sources.Keys, setup.hash(s)), |Arranged(members.Values)| <= MAX_NAMESPACES_PER_SOURCE;
            Unused(cfg, base) &&
            forall k :: k in CollapseGroup(setup, cfg, s, settings, members).sources ==>
              k in cfg.sources || (k.OptSource? && k.gid.base == base && (k.gid.chunk.None? <==> whole))
  {
    var namespaces, base := Arranged(members.Values), FreeBase(cfg.sources.Keys, setup.hash(s));
    FreeIsUnused(cfg, base);
    if |namespaces| > MAX_NAMESPACES_PER_SOURCE {
      PiecesHalfway(setup.digest, cfg, base, settings, namespaces, members, PieceCount(|namespaces|));
    }
  }

  lemma CleanStep(before: set<Name>, after: set<Name>, base: string, whole: bool)
    requires CleanSources(before) && Free('-', base) && Free('.', base)
    requires forall n :: n in before && n.OptSource? ==> n.gid.base != base
    requires forall n :: n in before ==> n.Plain? || n.OptSource?
    requires forall k :: k in after ==> k in before || (k.OptSource? && k.gid.base == base && (k.gid.chunk.None? <==> whole))
    ensures CleanSources(after)
  {
  }

  lemma {:induction false} GroupsClean(setup: Setup, cfg: Config, signatures: seq<string>)
    requires UserMade(cfg) && Faithful(setup) && CleanInputs(setup, cfg) && Distinct(signatures)
    ensures CleanSources(GroupsCollapsed(setup, cfg, signatures).sources.Keys)
  {
    if signatures != [] {
      var n := |signatures| - 1;
      var front, s := signatures[..n], signatures[n];
      var now, after := GroupsCollapsed(setup, cfg, front), GroupsCollapsed(setup, cfg, signatures);
      var members := GroupMembers(setup, cfg, s);
      GroupsClean(setup, cfg, front);
      if |members| >= 2 {
        NextGroupReady(setup, cfg, signatures);
        GroupNames(setup, now, s, GroupSettings(setup, cfg, s), members);
        var base := FreeBase(now.sources.Keys, setup.hash(s));
        PaddedFree(base, setup.hash(s), '-');
        PaddedFree(base, setup.hash(s), '.');
        CleanStep(now.sources.Keys, after.sources.Keys, base, |Arranged(members.Values)| <= MAX_NAMESPACES_PER_SOURCE);
      }
    }
  }

  /** The name of a source, a transform or a sink. */
  predicate Named(cfg: Config, n: Name) {
    n in cfg.sources || n in cfg.transforms || n in cfg.sinks
  }

  /** No two components of an optimized configuration have the same name as text, users' sinks included. */
  lemma NamesNeverClash(setup: Setup, cfg: Config, a: Name, b: Name)
    requires UserMade(cfg) && Faithful(setup) && CleanInputs(setup, cfg)
    requires Named(Optimized(setup, cfg), a) && Named(Optimized(setup, cfg), b)
    ensures Text(a) == Text(b) <==> a == b
  {
    NameClean(setup, cfg, a);
    NameClean(setup, cfg, b);
    var all := Optimized(setup, cfg).sources.Keys;
    ArrangedDistinct(Signatures(setup, cfg));
    GroupsClean(setup, cfg, Arranged(Signatures(setup, cfg)));
    if !a.Plain? && !b.Plain? {
      assert OptSource(a.gid) in all && OptSource(b.gid) in all;
      assert SameMode(OptSource(a.gid), OptSource(b.gid));
    }
    if Text(a) == Text(b) {
      TextInjective(a, b);
    }
  }

  lemma NameClean(setup: Setup, cfg: Config, n: Name)
    requires UserMade(cfg) && Faithful(setup) && CleanInputs(setup, cfg) && Named(Optimized(setup, cfg), n)
    ensures GoodName(n) && Dotless(n)
    ensures !n.Plain? ==> OptSource(n.gid) in Optimized(setup, cfg).sources
  {
    var after, signatures := Optimized(setup, cfg), Arranged(Signatures(setup, cfg));
    ArrangedDistinct(Signatures(setup, cfg));
    GroupsProgress(setup, cfg, signatures);
    GroupsClean(setup, cfg, signatures);
    if n in after.sources {
    } else if n in after.transforms {
      AnchoredName(after, n);
      GroupsNew(setup, cfg, signatures, TransformAt(n));
      if !n.Plain? {
        assert GoodName(OptSource(n.gid)) && Dotless(OptSource(n.gid));
      }
    } else {
      GroupsNew(setup, cfg, signatures, SinkAt(n));
    }
  }

  lemma AnchoredName(cfg: Config, n: Name)
    requires WellFormed(cfg) && n in cfg.transforms
    ensures Anchored(cfg, n)
  {
    assert WellPlaced(cfg, n, cfg.transforms[n]);
  }
}
