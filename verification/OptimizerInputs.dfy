/** When a component keeps all its inputs: exactly when no two of them are one stream. */
module OptimizerInputs {
  import opened Outcomes
  import opened Ordering
  import opened Selectors
  import opened Buckets
  import opened Dataflow
  import opened Routing
  import opened Collapsing
  import opened Optimizer
  import opened OptimizerGroups

  /** Two of the inputs are members with the same namespace. */
  ghost predicate TwinsIn(members: map<Name, string>, inputs: seq<Output>) {
    exists i, j :: 0 <= i < j < |inputs| && TwinsAt(members, inputs, i, j)
  }

  ghost predicate TwinsAt(members: map<Name, string>, inputs: seq<Output>, i: nat, j: nat)
    requires i < |inputs| && j < |inputs|
  {
    FromMember(members, inputs[i]) && FromMember(members, inputs[j]) && members[inputs[i].name] == members[inputs[j].name]
  }

  /** The group makes no two of these inputs into one. */
  ghost predicate Untwinned(members: map<Name, string>, inputs: seq<Output>) {
    Distinct(inputs) && !TwinsIn(members, inputs)
  }

  /** `b` is what rewriting made of `a`: no longer, of the same length exactly when `kept`, and then changed
      only where `a` reads one of `gone`, to a generated output. */
  ghost predicate Shrinks(a: seq<Output>, b: seq<Output>, gone: set<Name>, kept: bool) {
    && |b| <= |a| && Distinct(b)
    && (|b| == |a| <==> kept)
    && (|b| == |a| ==> Changed(a, b, gone))
  }

  ghost predicate Changed(a: seq<Output>, b: seq<Output>, gone: set<Name>)
    requires |a| == |b|
  {
    forall i :: 0 <= i < |a| ==> if a[i].Main? && a[i].name in gone then !b[i].name.Plain? else b[i] == a[i]
  }

  lemma TwinsUnchanged(a: seq<Output>, b: seq<Output>, gone: set<Name>, members: map<Name, string>)
    requires |a| == |b| && Changed(a, b, gone) && gone !! members.Keys && forall n :: n in members ==> n.Plain?
    ensures TwinsIn(members, a) <==> TwinsIn(members, b)
  {
    assert forall i :: 0 <= i < |a| ==> (FromMember(members, a[i]) <==> FromMember(members, b[i]));
    assert forall i, j :: 0 <= i < j < |a| ==> (TwinsAt(members, a, i, j) <==> TwinsAt(members, b, i, j));
  }

  lemma ShrinksChain(a: seq<Output>, b: seq<Output>, c: seq<Output>, gone: set<Name>, kept: bool, members: map<Name, string>)
    requires Shrinks(a, b, gone, kept) && Shrinks(b, c, members.Keys, Untwinned(members, b))
    requires gone !! members.Keys && forall n :: n in members ==> n.Plain?
    ensures Shrinks(a, c, gone + members.Keys, kept && !TwinsIn(members, a))
  {
    if |a| == |b| {
      TwinsUnchanged(a, b, gone, members);
    }
  }

  /** Renaming makes two inputs one exactly when they are the same or twins. */
  lemma RepeatsExactly(digest: string -> Digest, cfg: Config, gid: Gid, namespaces: seq<string>, members: map<Name, string>,
      inputs: seq<Output>)
    requires OptSource(gid) !in cfg.sources && AllAnchored(cfg, inputs)
    ensures Repeats(inputs, Renames(digest, gid, namespaces, members)) <==> !Untwinned(members, inputs)
  {
    var renames := Renames(digest, gid, namespaces, members);
    forall i, j | 0 <= i < j < |inputs|
      ensures Renamed(inputs[i], renames) == Renamed(inputs[j], renames) <==>
              inputs[i] == inputs[j] || TwinsAt(members, inputs, i, j)
    {
      assert inputs[i] in inputs && inputs[j] in inputs;
      AnchoredIsOld(cfg, gid, inputs[i]);
      AnchoredIsOld(cfg, gid, inputs[j]);
    }
  }

  lemma CollapsePresent(digest: string -> Digest, cfg: Config, gid: Gid, settings: Settings, namespaces: seq<string>,
      members: map<Name, string>, c: Component)
    requires Collapsible(cfg, gid, settings, namespaces, members) && Present(cfg, c)
    ensures var after := Collapse(digest, cfg, gid, settings, namespaces, members);
            Present(after, c) && InputsOf(after, c) == Rewritten(InputsOf(cfg, c), Renames(digest, gid, namespaces, members))
    ensures AllAnchored(cfg, InputsOf(cfg, c))
  {
    if c.TransformAt? {
      TransformStays(digest, cfg, gid, settings, namespaces, members, c.name);
      assert WellPlaced(cfg, c.name, cfg.transforms[c.name]);
    }
  }

  lemma CollapseShrinks(digest: string -> Digest, cfg: Config, gid: Gid, settings: Settings, namespaces: seq<string>,
      members: map<Name, string>, c: Component)
    requires Collapsible(cfg, gid, settings, namespaces, members) && Present(cfg, c)
    ensures var after := Collapse(digest, cfg, gid, settings, namespaces, members);
            Present(after, c) &&
            Shrinks(InputsOf(cfg, c), InputsOf(after, c), members.Keys, Untwinned(members, InputsOf(cfg, c)))
  {
    var inputs := InputsOf(cfg, c);
    CollapsePresent(digest, cfg, gid, settings, namespaces, members, c);
    RewrittenShrinks(digest, cfg, gid, namespaces, members, inputs);
  }

  lemma RewrittenShrinks(digest: string -> Digest, cfg: Config, gid: Gid, namespaces: seq<string>, members: map<Name, string>,
      inputs: seq<Output>)
    requires OptSource(gid) !in cfg.sources && AllAnchored(cfg, inputs)
    ensures Shrinks(inputs, Rewritten(inputs, Renames(digest, gid, namespaces, members)), members.Keys, Untwinned(members, inputs))
  {
    var renames := Renames(digest, gid, namespaces, members);
    RepeatsExactly(digest, cfg, gid, namespaces, members, inputs);
    RewrittenLength(inputs, renames);
    RewrittenDistinct(inputs, renames);
  }

  /** Collapsing adds generated transforms only. */
  lemma CollapseNew(digest: string -> Digest, cfg: Config, gid: Gid, settings: Settings, namespaces: seq<string>,
      members: map<Name, string>, c: Component)
    requires Present(Collapse(digest, cfg, gid, settings, namespaces, members), c)
    ensures Present(cfg, c) || (c.TransformAt? && !c.name.Plain?)
  {
    GeneratedNames(digest, gid, namespaces, BestBuckets(|namespaces|));
  }

  lemma {:induction false} PiecesNew(digest: string -> Digest, cfg: Config, base: string, settings: Settings,
      namespaces: seq<string>, members: map<Name, string>, n: nat, c: Component)
    requires n <= PieceCount(|namespaces|) && Present(Pieces(digest, cfg, base, settings, namespaces, members, n), c)
    ensures Present(cfg, c) || (c.TransformAt? && !c.name.Plain?)
  {
    if n > 0 {
      var before, piece := Pieces(digest, cfg, base, settings, namespaces, members, n - 1), Piece(namespaces, n - 1);
      CollapseNew(digest, before, Gid(base, Some(n - 1)), settings, piece, Within(members, piece), c);
      if Present(before, c) {
        PiecesNew(digest, cfg, base, settings, namespaces, members, n - 1, c);
      }
    }
  }

  lemma GroupNew(setup: Setup, cfg: Config, s: string, settings: Settings, members: map<Name, string>, c: Component)
    requires Present(CollapseGroup(setup, cfg, s, settings, members), c)
    ensures Present(cfg, c) || (c.TransformAt? && !c.name.Plain?)
  {
    var namespaces, base := Arranged(members.Values), FreeBase(cfg.sources.Keys, setup.hash(s));
    if |namespaces| <= MAX_NAMESPACES_PER_SOURCE {
      CollapseNew(setup.digest, cfg, Gid(base, None), settings, namespaces, members, c);
    } else {
      PiecesNew(setup.digest, cfg, base, settings, namespaces, members, PieceCount(|namespaces|), c);
    }
  }

  lemma {:induction false} GroupsNew(setup: Setup, cfg: Config, signatures: seq<string>, c: Component)
    requires Present(GroupsCollapsed(setup, cfg, signatures), c)
    ensures Present(cfg, c) || (c.TransformAt? && !c.name.Plain?)
  {
    if signatures != [] {
      var n := |signatures| - 1;
      var before, s := GroupsCollapsed(setup, cfg, signatures[..n]), signatures[n];
      if |GroupMembers(setup, cfg, s)| >= 2 {
        GroupNew(setup, before, s, GroupSettings(setup, cfg, s), GroupMembers(setup, cfg, s), c);
      }
      if Present(before, c) {
        GroupsNew(setup, cfg, signatures[..n], c);
      }
    }
  }

  /** A generated transform has one input. */
  lemma GeneratedReadsOne(cfg: Config, c: Component)
    requires WellFormed(cfg) && Present(cfg, c) && c.TransformAt? && !c.name.Plain?
    ensures |InputsOf(cfg, c)| == 1
  {
    assert WellPlaced(cfg, c.name, cfg.transforms[c.name]);
  }

  // Pieces of one group.

  /** The members whose namespace is in one of the first `n` pieces. */
  ghost function Done(namespaces: seq<string>, members: map<Name, string>, n: nat): map<Name, string>
    requires n <= PieceCount(|namespaces|)
  {
    map k | k in members && !PieceAfter(namespaces, members[k], n) :: members[k]
  }

  lemma DoneStep(namespaces: seq<string>, members: map<Name, string>, n: nat)
    requires n < PieceCount(|namespaces|) && Distinct(namespaces)
    ensures var before, piece := Done(namespaces, members, n), Within(members, Piece(namespaces, n));
            before.Keys !! piece.Keys && before.Keys + piece.Keys == Done(namespaces, members, n + 1).Keys
  {
    var before, piece, after := Done(namespaces, members, n), Within(members, Piece(namespaces, n)), Done(namespaces, members, n + 1);
    forall k | k in members ensures k in after <==> k in before || k in piece {
      assert InPiece(namespaces, members[k], n) <==> k in piece;
    }
    forall k | k in piece ensures k !in before {
      assert InPiece(namespaces, members[k], n) && members[k] in namespaces;
      PiecesPartition(namespaces, members[k]);
    }
  }

  lemma TwinsStep(namespaces: seq<string>, members: map<Name, string>, n: nat, inputs: seq<Output>)
    requires n < PieceCount(|namespaces|) && Distinct(namespaces)
    ensures TwinsIn(Done(namespaces, members, n + 1), inputs) <==>
            TwinsIn(Done(namespaces, members, n), inputs) || TwinsIn(Within(members, Piece(namespaces, n)), inputs)
  {
    var before, piece, after := Done(namespaces, members, n), Within(members, Piece(namespaces, n)), Done(namespaces, members, n + 1);
    DoneStep(namespaces, members, n);
    forall i, j | 0 <= i < j < |inputs|
      ensures TwinsAt(after, inputs, i, j) <==> TwinsAt(before, inputs, i, j) || TwinsAt(piece, inputs, i, j)
    {
    }
  }

  lemma AllDone(namespaces: seq<string>, members: map<Name, string>)
    requires Distinct(namespaces) && forall n :: n in members ==> members[n] in namespaces
    ensures Done(namespaces, members, PieceCount(|namespaces|)) == members
  {
    forall k | k in members ensures !PieceAfter(namespaces, members[k], PieceCount(|namespaces|)) {
      PiecesPartition(namespaces, members[k]);
    }
  }

  /** The inputs after `n` pieces: as they were before the first, then as rewriting leaves them. */
  ghost predicate ShrunkSoFar(a: seq<Output>, b: seq<Output>, done: map<Name, string>, n: nat) {
    if n == 0 then b == a else Shrinks(a, b, done.Keys, Untwinned(done, a))
  }

  lemma {:induction false} PiecesShrink(digest: string -> Digest, cfg: Config, base: string, settings: Settings,
      namespaces: seq<string>, members: map<Name, string>, n: nat, c: Component)
    requires Ready(cfg, settings, namespaces, members) && Unused(cfg, base) && n <= PieceCount(|namespaces|)
    requires Present(cfg, c)
    ensures var after := Pieces(digest, cfg, base, settings, namespaces, members, n);
            Present(after, c) && ShrunkSoFar(InputsOf(cfg, c), InputsOf(after, c), Done(namespaces, members, n), n)
  {
    if n > 0 {
      var k := n - 1;
      var before, after := Pieces(digest, cfg, base, settings, namespaces, members, k), Pieces(digest, cfg, base, settings, namespaces, members, k + 1);
      PiecesShrink(digest, cfg, base, settings, namespaces, members, k, c);
      PiecesHalfway(digest, cfg, base, settings, namespaces, members, k);
      CollapseShrinks(digest, before, Gid(base, Some(k)), settings, Piece(namespaces, k), Within(members, Piece(namespaces, k)), c);
      ShrunkStep(InputsOf(cfg, c), InputsOf(before, c), InputsOf(after, c), namespaces, members, k);
    }
  }

  lemma ShrunkStep(a: seq<Output>, b: seq<Output>, c: seq<Output>, namespaces: seq<string>, members: map<Name, string>, k: nat)
    requires k < PieceCount(|namespaces|) && Distinct(namespaces) && forall n :: n in members ==> n.Plain?
    requires ShrunkSoFar(a, b, Done(namespaces, members, k), k)
    requires var piece := Within(members, Piece(namespaces, k)); Shrinks(b, c, piece.Keys, Untwinned(piece, b))
    ensures ShrunkSoFar(a, c, Done(namespaces, members, k + 1), k + 1)
  {
    var piece := Within(members, Piece(namespaces, k));
    DoneStep(namespaces, members, k);
    TwinsStep(namespaces, members, k, a);
    if k == 0 {
      assert Done(namespaces, members, 0) == map[];
    } else {
      ShrinksChain(a, b, c, Done(namespaces, members, k).Keys, Untwinned(Done(namespaces, members, k), a), piece);
    }
  }

  lemma GroupShrinks(setup: Setup, cfg: Config, s: string, settings: Settings, members: map<Name, string>, c: Component)
    requires Ready(cfg, settings, Arranged(members.Values), members) && FirstPieces(cfg) && Present(cfg, c)
    ensures var after := CollapseGroup(setup, cfg, s, settings, members);
            Present(after, c) && Shrinks(InputsOf(cfg, c), InputsOf(after, c), members.Keys, Untwinned(members, InputsOf(cfg, c)))
  {
    var namespaces, base := Arranged(members.Values), FreeBase(cfg.sources.Keys, setup.hash(s));
    FreeIsUnused(cfg, base);
    if |namespaces| <= MAX_NAMESPACES_PER_SOURCE {
      OnePieceReady(cfg, base, settings, namespaces, members);
      CollapseShrinks(setup.digest, cfg, Gid(base, None), settings, namespaces, members, c);
    } else {
      PiecesShrink(setup.digest, cfg, base, settings, namespaces, members, PieceCount(|namespaces|), c);
      AllDone(namespaces, members);
    }
  }

  // All groups.

  /** The sources replaced by the groups with these signatures. */
  function Gone(setup: Setup, cfg: Config, signatures: seq<string>): set<Name> {
    set n | n in cfg.sources && Grouped(setup, cfg, n) && Replaced(setup, cfg, signatures, cfg.sources[n].settings)
  }

  predicate Replaced(setup: Setup, cfg: Config, signatures: seq<string>, settings: Settings) {
    setup.sign(settings) in signatures && |GroupMembers(setup, cfg, setup.sign(settings))| >= 2
  }

  /** Some group is large enough to be collapsed. */
  predicate AnyGroup(setup: Setup, cfg: Config, signatures: seq<string>) {
    exists s :: s in signatures && |GroupMembers(setup, cfg, s)| >= 2
  }

  ghost predicate AnyTwins(setup: Setup, cfg: Config, signatures: seq<string>, inputs: seq<Output>) {
    exists s :: s in signatures && TwinsIn(GroupMembers(setup, cfg, s), inputs)
  }

  lemma GoneStep(setup: Setup, cfg: Config, signatures: seq<string>, s: string)
    requires s !in signatures
    ensures var members := GroupMembers(setup, cfg, s);
            Gone(setup, cfg, signatures + [s]) == Gone(setup, cfg, signatures) + if |members| < 2 then {} else members.Keys
    ensures Gone(setup, cfg, signatures) !! GroupMembers(setup, cfg, s).Keys
    ensures !AnyGroup(setup, cfg, signatures) ==> Gone(setup, cfg, signatures) == {}
  {
  }

  lemma AnyStep(setup: Setup, cfg: Config, signatures: seq<string>, s: string, inputs: seq<Output>)
    ensures AnyTwins(setup, cfg, signatures + [s], inputs) <==>
            AnyTwins(setup, cfg, signatures, inputs) || TwinsIn(GroupMembers(setup, cfg, s), inputs)
    ensures AnyGroup(setup, cfg, signatures + [s]) <==>
            AnyGroup(setup, cfg, signatures) || |GroupMembers(setup, cfg, s)| >= 2
  {
    assert s in signatures + [s];
    assert forall t :: t in signatures ==> t in signatures + [s];
  }

  lemma TwinsNeedTwo(members: map<Name, string>, inputs: seq<Output>)
    requires |members| < 2 && Distinct(inputs)
    ensures !TwinsIn(members, inputs)
  {
    forall i, j | 0 <= i < j < |inputs| ensures !TwinsAt(members, inputs, i, j) {
      if FromMember(members, inputs[i]) {
        AtMostOne(members.Keys, inputs[i].name);
      }
    }
  }

  lemma AtMostOne(s: set<Name>, x: Name)
    requires x in s && |s| < 2
    ensures s == {x}
  {
    assert |s - {x}| == 0;
    assert s - {x} == {};
  }

  lemma SmallGroups(setup: Setup, cfg: Config, signatures: seq<string>, inputs: seq<Output>)
    requires !AnyGroup(setup, cfg, signatures) && Distinct(inputs)
    ensures !AnyTwins(setup, cfg, signatures, inputs)
  {
    forall s | s in signatures ensures !TwinsIn(GroupMembers(setup, cfg, s), inputs) {
      TwinsNeedTwo(GroupMembers(setup, cfg, s), inputs);
    }
  }

  /** The inputs after the groups with these signatures. */
  ghost predicate ShrunkBy(setup: Setup, cfg: Config, signatures: seq<string>, a: seq<Output>, b: seq<Output>) {
    if AnyGroup(setup, cfg, signatures) then
      Shrinks(a, b, Gone(setup, cfg, signatures), Distinct(a) && !AnyTwins(setup, cfg, signatures, a))
    else b == a
  }

  lemma {:induction false} GroupsShrink(setup: Setup, cfg: Config, signatures: seq<string>, c: Component)
    requires UserMade(cfg) && Faithful(setup) && Distinct(signatures) && Present(cfg, c)
    ensures var after := GroupsCollapsed(setup, cfg, signatures);
            Present(after, c) && ShrunkBy(setup, cfg, signatures, InputsOf(cfg, c), InputsOf(after, c))
  {
    if signatures != [] {
      var n := |signatures| - 1;
      var front, s := signatures[..n], signatures[n];
      assert signatures == front + [s];
      var before, after := GroupsCollapsed(setup, cfg, front), GroupsCollapsed(setup, cfg, signatures);
      var members := GroupMembers(setup, cfg, s);
      GroupsShrink(setup, cfg, front, c);
      if |members| >= 2 {
        NextGroupReady(setup, cfg, signatures);
        GroupShrinks(setup, before, s, GroupSettings(setup, cfg, s), members, c);
      }
      ShrunkByStep(setup, cfg, front, s, InputsOf(cfg, c), InputsOf(before, c), InputsOf(after, c));
    }
  }

  lemma ShrunkByStep(setup: Setup, cfg: Config, front: seq<string>, s: string, a: seq<Output>, b: seq<Output>, c: seq<Output>)
    requires UserMade(cfg) && s !in front && ShrunkBy(setup, cfg, front, a, b)
    requires var members := GroupMembers(setup, cfg, s);
             if |members| < 2 then c == b else Shrinks(b, c, members.Keys, Untwinned(members, b))
    ensures ShrunkBy(setup, cfg, front + [s], a, c)
  {
    var members := GroupMembers(setup, cfg, s);
    GoneStep(setup, cfg, front, s);
    AnyStep(setup, cfg, front, s, a);
    if Distinct(a) && |members| < 2 {
      TwinsNeedTwo(members, a);
    }
    if |members| >= 2 {
      if AnyGroup(setup, cfg, front) {
        ShrinksChain(a, b, c, Gone(setup, cfg, front), Distinct(a) && !AnyTwins(setup, cfg, front, a), members);
      } else if Distinct(a) {
        SmallGroups(setup, cfg, front, a);
      }
    }
  }

  // Streams.

  /** Two inputs that read the same stream: sources with the same settings and the same namespace. */
  predicate SameStream(setup: Setup, cfg: Config, a: Output, b: Output) {
    && a.Main? && b.Main? && Grouped(setup, cfg, a.name) && Grouped(setup, cfg, b.name)
    && cfg.sources[a.name].settings == cfg.sources[b.name].settings
    && SingleNamespaceOf(cfg.sources[a.name].selector) == SingleNamespaceOf(cfg.sources[b.name].selector)
  }

  /** No input is listed twice and no two of them read the same stream. */
  ghost predicate OneInputPerStream(setup: Setup, cfg: Config, inputs: seq<Output>) {
    Distinct(inputs) && forall i, j :: 0 <= i < j < |inputs| ==> !SameStream(setup, cfg, inputs[i], inputs[j])
  }

  lemma TwinsAreStreams(setup: Setup, cfg: Config, inputs: seq<Output>)
    requires Faithful(setup)
    ensures AnyTwins(setup, cfg, Arranged(Signatures(setup, cfg)), inputs) <==>
            exists i, j :: 0 <= i < j < |inputs| && SameStream(setup, cfg, inputs[i], inputs[j])
    ensures forall s :: TwinsIn(GroupMembers(setup, cfg, s), inputs) ==>
              exists i, j :: 0 <= i < j < |inputs| && SameStream(setup, cfg, inputs[i], inputs[j])
  {
    var signatures := Arranged(Signatures(setup, cfg));
    forall i, j | 0 <= i < j < |inputs| && SameStream(setup, cfg, inputs[i], inputs[j])
      ensures AnyTwins(setup, cfg, signatures, inputs)
    {
      var s := setup.sign(cfg.sources[inputs[i].name].settings);
      assert s in signatures && TwinsAt(GroupMembers(setup, cfg, s), inputs, i, j);
    }
    forall s, i, j | 0 <= i < j < |inputs| && TwinsAt(GroupMembers(setup, cfg, s), inputs, i, j)
      ensures SameStream(setup, cfg, inputs[i], inputs[j])
    {
    }
  }

  /** A component of a user-made configuration keeps all its inputs exactly when no group is collapsed at
      all, or no input is listed twice and no two of them read the same stream. */
  lemma InputsKeptExactly(setup: Setup, cfg: Config, c: Component)
    requires UserMade(cfg) && Faithful(setup) && Present(cfg, c)
    ensures Present(Optimized(setup, cfg), c)
    ensures |InputsOf(Optimized(setup, cfg), c)| <= |InputsOf(cfg, c)|
    ensures |InputsOf(Optimized(setup, cfg), c)| == |InputsOf(cfg, c)| <==>
            !AnyGroup(setup, cfg, Arranged(Signatures(setup, cfg))) || OneInputPerStream(setup, cfg, InputsOf(cfg, c))
  {
    ArrangedDistinct(Signatures(setup, cfg));
    GroupsShrink(setup, cfg, Arranged(Signatures(setup, cfg)), c);
    TwinsAreStreams(setup, cfg, InputsOf(cfg, c));
  }
}
