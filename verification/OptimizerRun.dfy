/** The optimizer as it runs: a configuration changed in place, group by group. */
module OptimizerRun {
  import opened Outcomes
  import opened Ordering
  import opened Selectors
  import opened Buckets
  import opened Dataflow
  import opened Routing
  import opened Collapsing
  import opened Optimizer

  /** A source together with its name. */
  datatype NamedSource = NamedSource(name: Name, source: Source)

  function NamespaceOf(s: NamedSource): string {
    match SingleNamespaceOf(s.source.selector)
    case Some(ns) => ns
    case None => ""
  }

  ghost predicate DistinctNames(members: seq<NamedSource>) {
    forall i, j :: 0 <= i < j < |members| ==> members[i].name != members[j].name
  }

  function MembersOf(members: seq<NamedSource>): map<Name, string> {
    if members == [] then map[]
    else MembersOf(members[..|members| - 1])[members[|members| - 1].name := NamespaceOf(members[|members| - 1])]
  }

  function NamesOf(members: seq<NamedSource>): set<Name> {
    set s | s in members :: s.name
  }

  /** The first `i` members read from their namespace's output. */
  ghost predicate RoutedSoFar(members: seq<NamedSource>, i: nat, nsOutput: map<string, Output>, routeOutput: map<Name, Output>)
    requires i <= |members|
  {
    && routeOutput.Keys == NamesOf(members[..i])
    && forall j :: 0 <= j < i ==>
         NamespaceOf(members[j]) in nsOutput && members[j].name in routeOutput &&
         routeOutput[members[j].name] == nsOutput[NamespaceOf(members[j])]
  }

  lemma RoutedStep(members: seq<NamedSource>, i: nat, nsOutput: map<string, Output>, routeOutput: map<Name, Output>)
    requires i < |members| && DistinctNames(members) && NamespaceOf(members[i]) in nsOutput
    requires RoutedSoFar(members, i, nsOutput, routeOutput)
    ensures RoutedSoFar(members, i + 1, nsOutput, routeOutput[members[i].name := nsOutput[NamespaceOf(members[i])]])
  {
    NamesStep(members, i);
    var name, output := members[i].name, nsOutput[NamespaceOf(members[i])];
    var after := routeOutput[name := output];
    assert after.Keys == routeOutput.Keys + {name};
    forall j | 0 <= j < i
      ensures NamespaceOf(members[j]) in nsOutput && members[j].name in after && after[members[j].name] == nsOutput[NamespaceOf(members[j])]
    {
      assert members[j].name != name;
    }
  }

  lemma NamesStep(members: seq<NamedSource>, i: nat)
    requires i < |members| && DistinctNames(members)
    ensures NamesOf(members[..i + 1]) == NamesOf(members[..i]) + {members[i].name}
    ensures forall j :: 0 <= j < i ==> members[j].name != members[i].name
  {
    assert members[..i + 1] == members[..i] + [members[i]];
  }

  lemma {:induction false} MembersOfHolds(members: seq<NamedSource>)
    requires DistinctNames(members)
    ensures MembersOf(members).Keys == NamesOf(members)
    ensures forall s :: s in members ==> MembersOf(members)[s.name] == NamespaceOf(s)
  {
    if members != [] {
      var n := |members| - 1;
      var front, last := members[..n], members[n];
      assert members == front + [last];
      MembersOfHolds(front);
      forall s | s in front ensures s.name != last.name {
        var i :| 0 <= i < n && front[i] == s;
        assert members[i].name != members[n].name;
      }
    }
  }

  /** `nsOutput` gives the output that carries each namespace. */
  ghost predicate OutputsFor(digest: string -> Digest, gid: Gid, namespaces: seq<string>, buckets: Count,
      nsOutput: map<string, Output>) {
    && (forall ns :: ns in nsOutput <==> ns in namespaces)
    && forall ns :: ns in namespaces ==> nsOutput[ns] == OutputFor(digest, gid, namespaces, buckets, ns)
  }

  method BuildNamespaceRoutes(namespaces: seq<string>) returns (routes: map<Key, Condition>)
    ensures routes == NamespaceRoutes(set ns | ns in namespaces)
  {
    routes := map[];
    for i := 0 to |namespaces|
      invariant routes.Keys == set ns | ns in namespaces[..i] :: Label(ns)
      invariant forall key :: key in routes ==> routes[key] == NamespaceIs(key.text)
    {
      assert namespaces[..i + 1] == namespaces[..i] + [namespaces[i]];
      routes := routes[Label(namespaces[i]) := NamespaceIs(namespaces[i])];
    }
    assert namespaces[..|namespaces|] == namespaces;
  }

  /** The namespaces of each bucket in use. */
  method SplitByBucket(digest: string -> Digest, namespaces: seq<string>, buckets: Count) returns (split: map<nat, seq<string>>)
    ensures split.Keys == UsedBuckets(digest, namespaces, buckets)
    ensures forall b :: b in split ==> (set ns | ns in split[b]) == InBucket(digest, namespaces, buckets, b)
  {
    split := map[];
    for i := 0 to |namespaces|
      invariant SplitSoFar(digest, namespaces[..i], buckets, split)
    {
      var ns := namespaces[i];
      var b := NsBucket(digest, ns, buckets);
      assert namespaces[..i + 1] == namespaces[..i] + [ns];
      SplitStep(digest, namespaces[..i], buckets, split, ns);
      split := split[b := (if b in split then split[b] else []) + [ns]];
    }
    assert namespaces[..|namespaces|] == namespaces;
  }

  ghost predicate SplitSoFar(digest: string -> Digest, namespaces: seq<string>, buckets: Count, split: map<nat, seq<string>>) {
    && split.Keys == UsedBuckets(digest, namespaces, buckets)
    && forall b :: b in split ==> (set ns | ns in split[b]) == InBucket(digest, namespaces, buckets, b)
  }

  lemma SplitStep(digest: string -> Digest, namespaces: seq<string>, buckets: Count, split: map<nat, seq<string>>, ns: string)
    requires SplitSoFar(digest, namespaces, buckets, split)
    ensures var b := NsBucket(digest, ns, buckets);
            SplitSoFar(digest, namespaces + [ns], buckets, split[b := (if b in split then split[b] else []) + [ns]])
  {
    var own := NsBucket(digest, ns, buckets);
    var before := if own in split then split[own] else [];
    BucketsStep(digest, namespaces, buckets, ns);
    assert (set x | x in before) == InBucket(digest, namespaces, buckets, own);
    assert (set x | x in before + [ns]) == (set x | x in before) + {ns};
  }

  lemma BucketsStep(digest: string -> Digest, namespaces: seq<string>, buckets: Count, ns: string)
    ensures UsedBuckets(digest, namespaces + [ns], buckets) ==
            UsedBuckets(digest, namespaces, buckets) + {NsBucket(digest, ns, buckets)}
    ensures forall b :: InBucket(digest, namespaces + [ns], buckets, b) ==
              InBucket(digest, namespaces, buckets, b) + if b == NsBucket(digest, ns, buckets) then {ns} else {}
  {
    assert ns in namespaces + [ns];
  }

  /** The routers of a group, and the output that carries each namespace. */
  method BuildRouters(digest: string -> Digest, gid: Gid, namespaces: seq<string>)
      returns (routers: map<Name, Transform>, nsOutput: map<string, Output>)
    ensures routers == Routers(digest, gid, namespaces, BestBuckets(|namespaces|))
    ensures OutputsFor(digest, gid, namespaces, BestBuckets(|namespaces|), nsOutput)
  {
    if |namespaces| <= FLAT_ROUTING_THRESHOLD {
      var routes := BuildNamespaceRoutes(namespaces);
      routers := map[OptRouter(gid) := Transform([Main(OptSource(gid))], Route(routes))];
      nsOutput := RouterOutputs(OptRouter(gid), namespaces);
    } else {
      var buckets := BucketCount(|namespaces|);
      var split := SplitByBucket(digest, namespaces, buckets);
      var firstRoutes: map<Key, Condition>;
      routers, firstRoutes, nsOutput := BuildBuckets(digest, gid, namespaces, buckets, split);
      routers := routers[OptBucketer(gid) := Transform([Main(OptSource(gid))], Bucketer(buckets))];
      routers := routers[OptFirst(gid) := Transform([Main(OptBucketer(gid))], Route(firstRoutes))];
    }
  }

  /** One second-level router per bucket, visited in any order. */
  method BuildBuckets(digest: string -> Digest, gid: Gid, namespaces: seq<string>, buckets: Count, split: map<nat, seq<string>>)
      returns (routers: map<Name, Transform>, firstRoutes: map<Key, Condition>, nsOutput: map<string, Output>)
    requires |namespaces| > FLAT_ROUTING_THRESHOLD
    requires split.Keys == UsedBuckets(digest, namespaces, buckets)
    requires forall b :: b in split ==> (set ns | ns in split[b]) == InBucket(digest, namespaces, buckets, b)
    ensures routers == SecondRouters(digest, gid, namespaces, buckets)
    ensures firstRoutes == BucketRoutes(UsedBuckets(digest, namespaces, buckets))
    ensures OutputsFor(digest, gid, namespaces, buckets, nsOutput)
  {
    routers, firstRoutes, nsOutput := map[], map[], map[];
    var rest := split.Keys;
    while rest != {}
      invariant rest <= split.Keys
      invariant SecondDone(digest, gid, namespaces, buckets, split.Keys - rest, routers)
      invariant FirstDone(split.Keys - rest, firstRoutes)
      invariant OutputsDone(digest, gid, namespaces, buckets, rest, nsOutput)
    {
      var b :| b in rest;
      var router := BuildSecond(digest, gid, namespaces, buckets, b, split[b]);
      SecondStep(digest, gid, namespaces, buckets, split.Keys - rest, routers, b);
      routers := routers[OptSecond(gid, b) := router];
      FirstStep(split.Keys - rest, firstRoutes, b);
      firstRoutes := firstRoutes[Bucket(b) := BucketIs(b)];
      var added := RouterOutputs(OptSecond(gid, b), split[b]);
      OutputsStep(digest, gid, namespaces, buckets, rest, nsOutput, b, split[b], added);
      nsOutput := nsOutput + added;
      assert split.Keys - (rest - {b}) == split.Keys - rest + {b};
      rest := rest - {b};
    }
    assert split.Keys - rest == UsedBuckets(digest, namespaces, buckets);
    AllBucketsDone(digest, gid, namespaces, buckets, routers, firstRoutes, nsOutput);
  }

  lemma SecondStep(digest: string -> Digest, gid: Gid, namespaces: seq<string>, buckets: Count, done: set<nat>,
      routers: map<Name, Transform>, b: nat)
    requires SecondDone(digest, gid, namespaces, buckets, done, routers)
    ensures SecondDone(digest, gid, namespaces, buckets, done + {b},
                       routers[OptSecond(gid, b) := SecondRouter(digest, gid, namespaces, buckets, b)])
  {
  }

  lemma FirstStep(done: set<nat>, routes: map<Key, Condition>, b: nat)
    requires FirstDone(done, routes)
    ensures FirstDone(done + {b}, routes[Bucket(b) := BucketIs(b)])
  {
  }

  lemma AllBucketsDone(digest: string -> Digest, gid: Gid, namespaces: seq<string>, buckets: Count,
                       routers: map<Name, Transform>, firstRoutes: map<Key, Condition>, nsOutput: map<string, Output>)
    requires SecondDone(digest, gid, namespaces, buckets, UsedBuckets(digest, namespaces, buckets), routers)
    requires FirstDone(UsedBuckets(digest, namespaces, buckets), firstRoutes)
    requires OutputsDone(digest, gid, namespaces, buckets, {}, nsOutput)
    ensures routers == SecondRouters(digest, gid, namespaces, buckets)
    ensures firstRoutes == BucketRoutes(UsedBuckets(digest, namespaces, buckets))
    ensures OutputsFor(digest, gid, namespaces, buckets, nsOutput)
  {
  }

  ghost predicate SecondDone(digest: string -> Digest, gid: Gid, namespaces: seq<string>, buckets: Count,
      done: set<nat>, routers: map<Name, Transform>) {
    && routers.Keys == (set b | b in done :: OptSecond(gid, b))
    && forall n :: n in routers ==> routers[n] == SecondRouter(digest, gid, namespaces, buckets, n.bucket)
  }

  ghost predicate FirstDone(done: set<nat>, routes: map<Key, Condition>) {
    && routes.Keys == (set b | b in done :: Bucket(b))
    && forall key :: key in routes ==> routes[key] == BucketIs(key.number)
  }

  ghost predicate OutputsDone(digest: string -> Digest, gid: Gid, namespaces: seq<string>, buckets: Count,
      rest: set<nat>, nsOutput: map<string, Output>) {
    && (forall ns :: ns in nsOutput <==> ns in namespaces && NsBucket(digest, ns, buckets) !in rest)
    && forall ns :: ns in nsOutput ==> nsOutput[ns] == OutputFor(digest, gid, namespaces, buckets, ns)
  }

  lemma OutputsStep(digest: string -> Digest, gid: Gid, namespaces: seq<string>, buckets: Count, rest: set<nat>,
      nsOutput: map<string, Output>,
                    b: nat, members: seq<string>, added: map<string, Output>)
    requires |namespaces| > FLAT_ROUTING_THRESHOLD && OutputsDone(digest, gid, namespaces, buckets, rest, nsOutput)
    requires (set ns | ns in members) == InBucket(digest, namespaces, buckets, b)
    requires forall ns :: ns in added <==> ns in members
    requires forall ns :: ns in added ==> added[ns] == Port(OptSecond(gid, b), Label(ns))
    ensures OutputsDone(digest, gid, namespaces, buckets, rest - {b}, nsOutput + added)
  {
    assert forall ns :: ns in members <==> ns in InBucket(digest, namespaces, buckets, b);
  }

  method BuildSecond(digest: string -> Digest, gid: Gid, namespaces: seq<string>, buckets: Count, b: nat,
      members: seq<string>) returns (t: Transform)
    requires (set ns | ns in members) == InBucket(digest, namespaces, buckets, b)
    ensures t == SecondRouter(digest, gid, namespaces, buckets, b)
  {
    var routes := BuildNamespaceRoutes(members);
    t := Transform([Port(OptFirst(gid), Bucket(b))], Route(routes));
  }

  method RouterOutputs(router: Name, namespaces: seq<string>) returns (nsOutput: map<string, Output>)
    ensures forall ns :: ns in nsOutput <==> ns in namespaces
    ensures forall ns :: ns in nsOutput ==> nsOutput[ns] == Port(router, Label(ns))
  {
    nsOutput := map[];
    for i := 0 to |namespaces|
      invariant forall ns :: ns in nsOutput <==> ns in namespaces[..i]
      invariant forall ns :: ns in nsOutput ==> nsOutput[ns] == Port(router, Label(ns))
    {
      assert namespaces[..i + 1] == namespaces[..i] + [namespaces[i]];
      nsOutput := nsOutput[namespaces[i] := Port(router, Label(namespaces[i]))];
    }
  }

  method SortedNamespacesOf(members: seq<NamedSource>) returns (namespaces: seq<string>)
    requires DistinctNames(members)
    ensures namespaces == Arranged(MembersOf(members).Values)
  {
    var seen: set<string> := {};
    namespaces := [];
    for i := 0 to |members|
      invariant seen == set j | 0 <= j < i :: NamespaceOf(members[j])
      invariant Distinct(namespaces) && forall ns :: ns in namespaces <==> ns in seen
    {
      var ns := NamespaceOf(members[i]);
      if ns !in seen {
        seen := seen + {ns};
        namespaces := namespaces + [ns];
      }
    }
    ValuesOf(members);
    SortArranges(namespaces, MembersOf(members).Values);
    namespaces := Sort(Less, namespaces);
  }

  lemma ValuesOf(members: seq<NamedSource>)
    requires DistinctNames(members)
    ensures MembersOf(members).Values == set j | 0 <= j < |members| :: NamespaceOf(members[j])
  {
    MembersOfHolds(members);
    var all := MembersOf(members);
    forall j | 0 <= j < |members| ensures NamespaceOf(members[j]) in all.Values {
      assert members[j] in members && all[members[j].name] == NamespaceOf(members[j]);
    }
    forall ns | ns in all.Values ensures ns in set j | 0 <= j < |members| :: NamespaceOf(members[j]) {
      var n :| n in all && all[n] == ns;
      var s :| s in members && s.name == n;
      var j :| 0 <= j < |members| && members[j] == s;
      assert NamespaceOf(members[j]) == ns;
    }
  }

  /** Which piece each namespace falls in. */
  method IndexPieces(namespaces: seq<string>) returns (nsChunk: map<string, nat>)
    requires Distinct(namespaces)
    ensures forall i :: 0 <= i < |namespaces| ==> namespaces[i] in nsChunk && nsChunk[namespaces[i]] == i / MAX_NAMESPACES_PER_SOURCE
  {
    nsChunk := map[];
    for i := 0 to |namespaces|
      invariant forall j :: 0 <= j < i ==> namespaces[j] in nsChunk && nsChunk[namespaces[j]] == j / MAX_NAMESPACES_PER_SOURCE
    {
      nsChunk := nsChunk[namespaces[i] := i / MAX_NAMESPACES_PER_SOURCE];
    }
  }

  method PickPiece(members: seq<NamedSource>, nsChunk: map<string, nat>, c: nat) returns (group: seq<NamedSource>)
    requires DistinctNames(members) && forall s :: s in members ==> NamespaceOf(s) in nsChunk
    ensures DistinctNames(group)
    ensures forall s :: s in group <==> s in members && nsChunk[NamespaceOf(s)] == c
  {
    group := [];
    for i := 0 to |members|
      invariant DistinctNames(group) && forall s :: s in group <==> s in members[..i] && nsChunk[NamespaceOf(s)] == c
    {
      NewName(members, i, group);
      assert members[..i + 1] == members[..i] + [members[i]];
      if nsChunk[NamespaceOf(members[i])] == c {
        group := group + [members[i]];
      }
    }
    assert members[..|members|] == members;
  }

  lemma NewName(members: seq<NamedSource>, i: nat, group: seq<NamedSource>)
    requires DistinctNames(members) && i < |members| && forall s :: s in group ==> s in members[..i]
    ensures forall s :: s in group ==> s.name != members[i].name
  {
    forall s | s in group ensures s.name != members[i].name {
      var j :| 0 <= j < i && members[j] == s;
    }
  }

  lemma PieceMembers(namespaces: seq<string>, members: seq<NamedSource>, nsChunk: map<string, nat>, c: nat,
      group: seq<NamedSource>)
    requires Distinct(namespaces) && c < PieceCount(|namespaces|) && DistinctNames(members) && DistinctNames(group)
    requires forall i :: 0 <= i < |namespaces| ==> namespaces[i] in nsChunk && nsChunk[namespaces[i]] == i / MAX_NAMESPACES_PER_SOURCE
    requires forall s :: s in members ==> NamespaceOf(s) in namespaces
    requires forall s :: s in group <==> s in members && nsChunk[NamespaceOf(s)] == c
    ensures forall s :: s in members ==> (s in group <==> NamespaceOf(s) in Piece(namespaces, c))
    ensures MembersOf(group) == Within(MembersOf(members), Piece(namespaces, c))
  {
    forall s | s in members ensures s in group <==> NamespaceOf(s) in Piece(namespaces, c) {
      var i :| 0 <= i < |namespaces| && namespaces[i] == NamespaceOf(s);
      PieceOf(namespaces, i);
    }
    MembersOfHolds(members);
    MembersOfHolds(group);
    PartOfMembers(members, group, Piece(namespaces, c));
  }

  lemma PartOfMembers(members: seq<NamedSource>, group: seq<NamedSource>, piece: seq<string>)
    requires DistinctNames(members) && DistinctNames(group)
    requires forall s :: s in group ==> s in members
    requires forall s :: s in members ==> (s in group <==> NamespaceOf(s) in piece)
    ensures MembersOf(group) == Within(MembersOf(members), piece)
  {
    var all, part := MembersOf(members), MembersOf(group);
    forall n ensures (n in part <==> n in all && all[n] in piece) && (n in part ==> part[n] == all[n]) {
      SameEntry(members, group, piece, n);
    }
  }

  lemma SameEntry(members: seq<NamedSource>, group: seq<NamedSource>, piece: seq<string>, n: Name)
    requires DistinctNames(members) && DistinctNames(group)
    requires forall s :: s in group ==> s in members
    requires forall s :: s in members ==> (s in group <==> NamespaceOf(s) in piece)
    ensures n in MembersOf(group) <==> n in MembersOf(members) && MembersOf(members)[n] in piece
    ensures n in MembersOf(group) ==> MembersOf(group)[n] == MembersOf(members)[n]
  {
    MembersOfHolds(members);
    MembersOfHolds(group);
    if n in MembersOf(group) {
      var t :| t in group && t.name == n;
      assert t in members && NamespaceOf(t) in piece;
    }
    if n in MembersOf(members) {
      var s :| s in members && s.name == n;
    }
  }

  /** Members of one group: every name once, all with the same settings. */
  ghost predicate OneGroup(members: seq<NamedSource>, settings: Settings) {
    DistinctNames(members) && forall s :: s in members ==> s.source.settings == settings
  }

  lemma PieceHasMembers(namespaces: seq<string>, members: seq<NamedSource>, c: nat, group: seq<NamedSource>)
    requires c < PieceCount(|namespaces|) && DistinctNames(members)
    requires forall ns :: ns in namespaces ==> ns in MembersOf(members).Values
    requires forall s :: s in members ==> (s in group <==> NamespaceOf(s) in Piece(namespaces, c))
    ensures group != []
  {
    var ns := Piece(namespaces, c)[0];
    assert ns in namespaces;
    ValuesOf(members);
    var j :| 0 <= j < |members| && NamespaceOf(members[j]) == ns;
    assert members[j] in group;
  }

  // Grouping.

  /** The group holds the sources among `seen` that have signature `s`. */
  ghost predicate GroupOf(setup: Setup, cfg: Config, seen: set<Name>, s: string, group: seq<NamedSource>) {
    && DistinctNames(group)
    && (forall x :: x in group ==> x.name in seen && x.name in GroupMembers(setup, cfg, s) && x.source == cfg.sources[x.name])
    && (forall n :: n in seen && n in GroupMembers(setup, cfg, s) ==> NamedSource(n, cfg.sources[n]) in group)
  }

  ghost predicate GroupsOf(setup: Setup, cfg: Config, seen: set<Name>, groups: map<string, seq<NamedSource>>) {
    && (forall s :: s in groups ==> groups[s] != [] && GroupOf(setup, cfg, seen, s, groups[s]))
    && (forall n :: n in seen && Grouped(setup, cfg, n) ==> setup.sign(cfg.sources[n].settings) in groups)
  }

  lemma GroupStep(setup: Setup, cfg: Config, seen: set<Name>, s: string, group: seq<NamedSource>, n: Name)
    requires GroupOf(setup, cfg, seen, s, group) && n !in seen && n in GroupMembers(setup, cfg, s)
    ensures GroupOf(setup, cfg, seen + {n}, s, group + [NamedSource(n, cfg.sources[n])])
  {
    var x := NamedSource(n, cfg.sources[n]);
    assert x in group + [x];
    forall i, j | 0 <= i < j < |group + [x]| ensures (group + [x])[i].name != (group + [x])[j].name {
      assert group[i] in group;
    }
  }

  lemma OtherGroup(setup: Setup, cfg: Config, seen: set<Name>, s: string, group: seq<NamedSource>, n: Name)
    requires GroupOf(setup, cfg, seen, s, group) && n !in GroupMembers(setup, cfg, s)
    ensures GroupOf(setup, cfg, seen + {n}, s, group)
  {
  }

  lemma GroupsStep(setup: Setup, cfg: Config, seen: set<Name>, groups: map<string, seq<NamedSource>>, n: Name)
    requires GroupsOf(setup, cfg, seen, groups) && n !in seen && Grouped(setup, cfg, n)
    ensures var s := setup.sign(cfg.sources[n].settings);
            var before := if s in groups then groups[s] else [];
            GroupsOf(setup, cfg, seen + {n}, groups[s := before + [NamedSource(n, cfg.sources[n])]])
  {
    var own := setup.sign(cfg.sources[n].settings);
    var before := if own in groups then groups[own] else [];
    assert GroupOf(setup, cfg, seen, own, before) by {
      if own !in groups {
        assert forall k :: k in seen && k in GroupMembers(setup, cfg, own) ==> Grouped(setup, cfg, k);
      }
    }
    GroupStep(setup, cfg, seen, own, before, n);
    forall s | s in groups && s != own ensures GroupOf(setup, cfg, seen + {n}, s, groups[s]) {
      OtherGroup(setup, cfg, seen, s, groups[s], n);
    }
  }

  lemma GroupsSkip(setup: Setup, cfg: Config, seen: set<Name>, groups: map<string, seq<NamedSource>>, n: Name)
    requires GroupsOf(setup, cfg, seen, groups) && !Grouped(setup, cfg, n)
    ensures GroupsOf(setup, cfg, seen + {n}, groups)
  {
    forall s | s in groups ensures GroupOf(setup, cfg, seen + {n}, s, groups[s]) {
      OtherGroup(setup, cfg, seen, s, groups[s], n);
    }
  }

  /** A complete group, in any order, is what the specification calls its members. */
  lemma GroupComplete(setup: Setup, cfg: Config, s: string, group: seq<NamedSource>)
    requires Faithful(setup) && GroupOf(setup, cfg, cfg.sources.Keys, s, group) && group != []
    ensures MembersOf(group) == GroupMembers(setup, cfg, s) && |GroupMembers(setup, cfg, s)| == |group|
    ensures GroupMembers(setup, cfg, s) != map[] && OneGroup(group, GroupSettings(setup, cfg, s))
    ensures group[0].source.settings == GroupSettings(setup, cfg, s)
  {
    GroupIsMembers(setup, cfg, s, group);
    assert group[0] in group && group[0].name in GroupMembers(setup, cfg, s);
    GroupHolds(setup, cfg, s);
    CountNames(group);
  }

  lemma GroupIsMembers(setup: Setup, cfg: Config, s: string, group: seq<NamedSource>)
    requires GroupOf(setup, cfg, cfg.sources.Keys, s, group)
    ensures MembersOf(group) == GroupMembers(setup, cfg, s)
  {
    var members := GroupMembers(setup, cfg, s);
    forall n ensures (n in MembersOf(group) <==> n in members) && (n in members ==> MembersOf(group)[n] == members[n]) {
      MemberListed(setup, cfg, s, group, n);
    }
  }

  lemma MemberListed(setup: Setup, cfg: Config, s: string, group: seq<NamedSource>, n: Name)
    requires GroupOf(setup, cfg, cfg.sources.Keys, s, group)
    ensures n in MembersOf(group) <==> n in GroupMembers(setup, cfg, s)
    ensures n in GroupMembers(setup, cfg, s) ==> MembersOf(group)[n] == GroupMembers(setup, cfg, s)[n]
  {
    MembersOfHolds(group);
    if n in GroupMembers(setup, cfg, s) {
      assert NamedSource(n, cfg.sources[n]) in group;
    }
  }

  lemma {:induction false} CountNames(group: seq<NamedSource>)
    requires DistinctNames(group)
    ensures |MembersOf(group)| == |group|
  {
    if group != [] {
      var n := |group| - 1;
      CountNames(group[..n]);
      MembersOfHolds(group[..n]);
      NewName(group, n, group[..n]);
    }
  }

  lemma SignaturesAre(setup: Setup, cfg: Config, groups: map<string, seq<NamedSource>>)
    requires GroupsOf(setup, cfg, cfg.sources.Keys, groups)
    ensures groups.Keys == Signatures(setup, cfg)
  {
    forall s | s in groups ensures s in Signatures(setup, cfg) {
      assert groups[s][0] in groups[s] && groups[s][0].name in GroupMembers(setup, cfg, s);
    }
  }

  lemma NextGroup(setup: Setup, cfg: Config, signatures: seq<string>, i: nat)
    requires i < |signatures| && GroupMembers(setup, cfg, signatures[i]) != map[]
    ensures var s, before := signatures[i], GroupsCollapsed(setup, cfg, signatures[..i]);
            GroupsCollapsed(setup, cfg, signatures[..i + 1]) ==
            if |GroupMembers(setup, cfg, s)| < 2 then before
            else CollapseGroup(setup, before, s, GroupSettings(setup, cfg, s), GroupMembers(setup, cfg, s))
  {
    assert signatures[..i + 1][..i] == signatures[..i];
  }

  /** Sources by name. */
  predicate ByName(a: NamedSource, b: NamedSource) {
    a.name.Plain? && b.name.Plain? && Less(a.name.text, b.name.text)
  }

  lemma SortedGroup(setup: Setup, cfg: Config, s: string, group: seq<NamedSource>)
    requires GroupOf(setup, cfg, cfg.sources.Keys, s, group)
    ensures GroupOf(setup, cfg, cfg.sources.Keys, s, Sort(ByName, group)) && |Sort(ByName, group)| == |group|
  {
    var sorted := Sort(ByName, group);
    DistinctElements(group);
    DistinctCounts(group);
    CountsDistinct(sorted);
    assert |multiset(sorted)| == |sorted|;
    forall i, j | 0 <= i < j < |sorted| ensures sorted[i].name != sorted[j].name {
      assert sorted[i] in group && sorted[j] in group && sorted[i] != sorted[j];
    }
  }

  lemma DistinctElements(group: seq<NamedSource>)
    requires DistinctNames(group)
    ensures Distinct(group)
  {
  }

  method CollectGroups(setup: Setup, cfg: Config) returns (groups: map<string, seq<NamedSource>>)
    ensures GroupsOf(setup, cfg, cfg.sources.Keys, groups)
  {
    groups := map[];
    var rest := cfg.sources.Keys;
    while rest != {}
      invariant rest <= cfg.sources.Keys
      invariant GroupsOf(setup, cfg, cfg.sources.Keys - rest, groups)
    {
      var n :| n in rest;
      var src := cfg.sources[n];
      if src.settings.typ == KUBERNETES_LOGS && n !in setup.optOut && SingleNamespaceOf(src.selector).Some? {
        var s := setup.sign(src.settings);
        GroupsStep(setup, cfg, cfg.sources.Keys - rest, groups, n);
        groups := groups[s := (if s in groups then groups[s] else []) + [NamedSource(n, src)]];
      } else {
        GroupsSkip(setup, cfg, cfg.sources.Keys - rest, groups, n);
      }
      assert cfg.sources.Keys - (rest - {n}) == cfg.sources.Keys - rest + {n};
      rest := rest - {n};
    }
    assert cfg.sources.Keys - rest == cfg.sources.Keys;
  }

  method SortedKeys(groups: map<string, seq<NamedSource>>) returns (signatures: seq<string>)
    ensures signatures == Arranged(groups.Keys)
  {
    signatures := [];
    var rest := groups.Keys;
    while rest != {}
      invariant rest <= groups.Keys
      invariant Distinct(signatures) && forall s :: s in signatures <==> s in groups.Keys - rest
    {
      var s :| s in rest;
      assert s !in signatures;
      signatures := signatures + [s];
      rest := rest - {s};
    }
    SortArranges(signatures, groups.Keys);
    signatures := Sort(Less, signatures);
  }

  class VectorConfig {
    const setup: Setup
    var sources: map<Name, Source>
    var transforms: map<Name, Transform>
    var sinks: map<Name, Sink>

    constructor (setup: Setup, cfg: Config)
      ensures this.setup == setup && Value() == cfg
    {
      this.setup := setup;
      sources, transforms, sinks := cfg.sources, cfg.transforms, cfg.sinks;
    }

    function Value(): Config
      reads this
    {
      Config(sources, transforms, sinks)
    }

    method RewriteAllTransforms(routeOutput: map<Name, Output>)
      modifies this`transforms
      ensures transforms == RewireTransforms(old(transforms), routeOutput)
    {
      var rest := transforms.Keys;
      while rest != {}
        invariant rest <= transforms.Keys == old(transforms).Keys
        invariant forall n :: n in transforms ==>
                    transforms[n] == if n in rest then old(transforms)[n] else RewireTransforms(old(transforms), routeOutput)[n]
      {
        var n :| n in rest;
        var inputs := RewriteInputs(transforms[n].inputs, routeOutput);
        transforms := transforms[n := Transform(inputs, transforms[n].body)];
        rest := rest - {n};
      }
    }

    method RewriteAllSinks(routeOutput: map<Name, Output>)
      modifies this`sinks
      ensures sinks == RewireSinks(old(sinks), routeOutput)
    {
      var rest := sinks.Keys;
      while rest != {}
        invariant rest <= sinks.Keys == old(sinks).Keys
        invariant forall n :: n in sinks ==>
                    sinks[n] == if n in rest then old(sinks)[n] else RewireSinks(old(sinks), routeOutput)[n]
      {
        var n :| n in rest;
        var inputs := RewriteInputs(sinks[n].inputs, routeOutput);
        sinks := sinks[n := Sink(inputs, sinks[n].code)];
        rest := rest - {n};
      }
    }

    /** Takes the members out of the sources and says where their consumers read now. */
    method RemoveMembers(members: seq<NamedSource>, nsOutput: map<string, Output>) returns (routeOutput: map<Name, Output>)
      requires DistinctNames(members) && forall s :: s in members ==> NamespaceOf(s) in nsOutput
      modifies this`sources
      ensures sources == old(sources) - MembersOf(members).Keys
      ensures routeOutput.Keys == MembersOf(members).Keys
      ensures forall s :: s in members ==> s.name in routeOutput && routeOutput[s.name] == nsOutput[NamespaceOf(s)]
    {
      routeOutput := map[];
      for i := 0 to |members|
        invariant sources == old(sources) - NamesOf(members[..i])
        invariant RoutedSoFar(members, i, nsOutput, routeOutput)
      {
        NamesStep(members, i);
        RoutedStep(members, i, nsOutput, routeOutput);
        routeOutput := routeOutput[members[i].name := nsOutput[NamespaceOf(members[i])]];
        sources := sources - {members[i].name};
      }
      assert members[..|members|] == members;
      MembersOfHolds(members);
    }

    method CollapseSourceGroup(gid: Gid, namespaces: seq<string>, members: seq<NamedSource>)
      requires members != [] && DistinctNames(members) && forall s :: s in members ==> NamespaceOf(s) in namespaces
      modifies this
      ensures Value() == Collapse(setup.digest, old(Value()), gid, members[0].source.settings, namespaces, MembersOf(members))
    {
      var collapsed := members[0].source.(selector := InSelector(namespaces));
      var routers, nsOutput := BuildRouters(setup.digest, gid, namespaces);
      transforms := transforms + routers;
      var routeOutput := RemoveMembers(members, nsOutput);
      RenamesAre(setup.digest, gid, namespaces, members, nsOutput, routeOutput);
      sources := sources[OptSource(gid) := collapsed];
      RewriteAllTransforms(routeOutput);
      RewriteAllSinks(routeOutput);
    }

    method CollapseInPieces(base: string, namespaces: seq<string>, members: seq<NamedSource>)
      requires members != [] && OneGroup(members, members[0].source.settings) && Distinct(namespaces)
      requires forall ns :: ns in namespaces <==> ns in MembersOf(members).Values
      modifies this
      ensures Value() == Pieces(setup.digest, old(Value()), base, members[0].source.settings, namespaces, MembersOf(members),
                                PieceCount(|namespaces|))
    {
      ghost var settings, all := members[0].source.settings, MembersOf(members);
      var nsChunk := IndexPieces(namespaces);
      NamespacesKnown(namespaces, members);
      for c := 0 to PieceCount(|namespaces|)
        invariant Value() == Pieces(setup.digest, old(Value()), base, settings, namespaces, all, c)
      {
        var group := PickPiece(members, nsChunk, c);
        PieceMembers(namespaces, members, nsChunk, c, group);
        PieceHasMembers(namespaces, members, c, group);
        assert group[0] in group;
        CollapseSourceGroup(Gid(base, Some(c)), Piece(namespaces, c), group);
      }
    }

    method CollapseGroupOf(signature: string, members: seq<NamedSource>)
      requires members != [] && OneGroup(members, members[0].source.settings)
      modifies this
      ensures Value() == CollapseGroup(setup, old(Value()), signature, members[0].source.settings, MembersOf(members))
    {
      var namespaces := SortedNamespacesOf(members);
      ArrangedDistinct(MembersOf(members).Values);
      NamespacesKnown(namespaces, members);
      var base := FindBase(setup.hash(signature));
      if |namespaces| <= MAX_NAMESPACES_PER_SOURCE {
        CollapseSourceGroup(Gid(base, None), namespaces, members);
      } else {
        CollapseInPieces(base, namespaces, members);
      }
    }

    /** The whole optimization. In whatever order the maps are visited, the result is the same. */
    method OptimizeAgentSources()
      requires Faithful(setup)
      modifies this
      ensures Value() == Optimized(setup, old(Value()))
    {
      ghost var cfg := Value();
      var groups := CollectGroups(setup, Value());
      var signatures := SortedKeys(groups);
      SignaturesAre(setup, cfg, groups);
      for i := 0 to |signatures|
        invariant Value() == GroupsCollapsed(setup, cfg, signatures[..i])
      {
        var s := signatures[i];
        assert s in signatures && s in groups;
        OptimizeGroup(cfg, s, groups[s]);
        NextGroup(setup, cfg, signatures, i);
      }
      assert signatures[..|signatures|] == signatures;
    }

    method OptimizeGroup(ghost cfg: Config, signature: string, group: seq<NamedSource>)
      requires Faithful(setup) && GroupOf(setup, cfg, cfg.sources.Keys, signature, group) && group != []
      modifies this
      ensures GroupMembers(setup, cfg, signature) != map[]
      ensures Value() == if |GroupMembers(setup, cfg, signature)| < 2 then old(Value())
                         else CollapseGroup(setup, old(Value()), signature, GroupSettings(setup, cfg, signature), GroupMembers(setup, cfg, signature))
    {
      GroupComplete(setup, cfg, signature, group);
      if |group| >= 2 {
        var members := Sort(ByName, group);
        SortedGroup(setup, cfg, signature, group);
        GroupComplete(setup, cfg, signature, members);
        CollapseGroupOf(signature, members);
      }
    }

    /** A base for the group's names that no other group has. */
    method FindBase(hash: string) returns (base: string)
      ensures base == FreeBase(sources.Keys, hash)
    {
      base := hash;
      while OptSource(Gid(base, None)) in sources || OptSource(Gid(base, Some(0))) in sources
        invariant FreeBase(sources.Keys, base) == FreeBase(sources.Keys, hash)
        decreases |LongBases(sources.Keys, |base|)|
      {
        LongerBases(sources.Keys, base);
        base := base + "x";
      }
    }
  }

  lemma NamespacesKnown(namespaces: seq<string>, members: seq<NamedSource>)
    requires DistinctNames(members) && forall ns :: ns in namespaces <==> ns in MembersOf(members).Values
    ensures forall s :: s in members ==> NamespaceOf(s) in namespaces
  {
    MembersOfHolds(members);
    forall s | s in members ensures NamespaceOf(s) in MembersOf(members).Values {
      assert s.name in MembersOf(members) && MembersOf(members)[s.name] == NamespaceOf(s);
    }
  }

  lemma RenamesAre(digest: string -> Digest, gid: Gid, namespaces: seq<string>, members: seq<NamedSource>,
                   nsOutput: map<string, Output>, routeOutput: map<Name, Output>)
    requires DistinctNames(members) && OutputsFor(digest, gid, namespaces, BestBuckets(|namespaces|), nsOutput)
    requires routeOutput.Keys == MembersOf(members).Keys
    requires forall s :: s in members ==> 
               NamespaceOf(s) in nsOutput && s.name in routeOutput && routeOutput[s.name] == nsOutput[NamespaceOf(s)]
    ensures routeOutput == Renames(digest, gid, namespaces, MembersOf(members))
  {
    MembersOfHolds(members);
    forall n | n in routeOutput ensures routeOutput[n] == Renames(digest, gid, namespaces, MembersOf(members))[n] {
      var s :| s in members && s.name == n;
    }
  }
}
