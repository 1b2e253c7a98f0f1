/** The optimized configuration means what the original one did: every way one can run is a way the other
    can run with every transform and sink receiving the same events. If it matters how often an event
    arrives, this needs that no component reads one stream over two inputs. */
module OptimizerMeaning {
  import opened Outcomes
  import opened Ordering
  import opened Dataflow
  import opened Routing
  import opened Collapsing
  import opened CollapsingMeaning
  import opened Optimizer
  import opened OptimizerGroups
  import opened OptimizerInputs

  // Counting along.

  /** Every input carries some event. */
  ghost predicate Audible(flow: Flow, inputs: seq<Output>) {
    forall o :: o in inputs ==> exists e :: Copies(flow, o, e) > 0
  }

  ghost predicate Fewer(f: Flow, a: seq<Output>, g: Flow, b: seq<Output>, e: Event) {
    Sum(g, b, e) < Sum(f, a, e)
  }

  /** `b` brings no event more often than `a`; and if it is shorter, and every input of `a` carries some
      event, it brings one less often. */
  ghost predicate NoMore(f: Flow, a: seq<Output>, g: Flow, b: seq<Output>) {
    && |b| <= |a|
    && (forall e :: Sum(g, b, e) <= Sum(f, a, e))
    && (Audible(f, a) ==> Audible(g, b))
    && (|b| < |a| && Audible(f, a) ==> exists e :: Fewer(f, a, g, b, e))
  }

  ghost predicate NoMoreAt(a: Config, f: Flow, b: Config, g: Flow, c: Component) {
    Present(a, c) ==> Present(b, c) && NoMore(f, InputsOf(a, c), g, InputsOf(b, c))
  }

  ghost predicate NoMoreAnywhere(a: Config, f: Flow, b: Config, g: Flow) {
    forall c :: NoMoreAt(a, f, b, g, c)
  }

  lemma NoMoreChains(a: Config, f: Flow, b: Config, g: Flow, c: Config, h: Flow)
    requires NoMoreAnywhere(a, f, b, g) && NoMoreAnywhere(b, g, c, h)
    ensures NoMoreAnywhere(a, f, c, h)
  {
    forall x ensures NoMoreAt(a, f, c, h, x) {
      assert NoMoreAt(a, f, b, g, x) && NoMoreAt(b, g, c, h, x);
      if Present(a, x) {
        NoMoreTwice(f, InputsOf(a, x), g, InputsOf(b, x), h, InputsOf(c, x));
      }
    }
  }

  lemma NoMoreTwice(f: Flow, a: seq<Output>, g: Flow, b: seq<Output>, h: Flow, c: seq<Output>)
    requires NoMore(f, a, g, b) && NoMore(g, b, h, c)
    ensures NoMore(f, a, h, c)
  {
    if |c| < |a| && Audible(f, a) {
      if |b| < |a| {
        var e :| Fewer(f, a, g, b, e);
        assert Fewer(f, a, h, c, e);
      } else {
        var e :| Fewer(g, b, h, c, e);
        assert Fewer(f, a, h, c, e);
      }
    }
  }

  lemma NoMoreSame(cfg: Config, f: Flow)
    ensures NoMoreAnywhere(cfg, f, cfg, f)
  {
  }

  lemma RewrittenNoMore(f: Flow, g: Flow, inputs: seq<Output>, renames: map<Name, Output>)
    requires forall e :: Follows(f, g, inputs, renames, e)
    ensures NoMore(f, inputs, g, Rewritten(inputs, renames))
  {
    RewrittenLength(inputs, renames);
    forall e ensures Sum(g, Rewritten(inputs, renames), e) <= Sum(f, inputs, e) {
      CopiesKeptExactly(f, g, inputs, renames, e);
    }
    if Audible(f, inputs) {
      RewrittenAudible(f, g, inputs, renames);
      if Repeats(inputs, renames) {
        var e := SomethingMerges(f, g, inputs, renames);
        CopiesKeptExactly(f, g, inputs, renames, e);
        assert Fewer(f, inputs, g, Rewritten(inputs, renames), e);
      }
    }
  }

  lemma RewrittenAudible(f: Flow, g: Flow, inputs: seq<Output>, renames: map<Name, Output>)
    requires Audible(f, inputs) && forall e :: Follows(f, g, inputs, renames, e)
    ensures Audible(g, Rewritten(inputs, renames))
  {
    forall o | o in Rewritten(inputs, renames) ensures exists e :: Copies(g, o, e) > 0 {
      var i :| 0 <= i < |inputs| && Renamed(inputs[i], renames) == o;
      assert inputs[i] in inputs;
      var e :| Copies(f, inputs[i], e) > 0;
      assert Follows(f, g, inputs, renames, e);
      assert Copies(g, o, e) > 0;
    }
  }

  lemma SomethingMerges(f: Flow, g: Flow, inputs: seq<Output>, renames: map<Name, Output>) returns (e: Event)
    requires Audible(f, inputs) && Repeats(inputs, renames) && forall e :: Follows(f, g, inputs, renames, e)
    ensures Merges(f, inputs, renames, e)
  {
    var i, j :| 0 <= i < j < |inputs| && Renamed(inputs[i], renames) == Renamed(inputs[j], renames);
    assert inputs[i] in inputs && inputs[j] in inputs;
    e :| Copies(f, inputs[i], e) > 0;
    assert Follows(f, g, inputs, renames, e);
    assert SameRename(f, inputs, renames, e, i, j);
  }

  // One collapse.

  /** If it matters how often events arrive, the group makes no two inputs of a component into one. */
  ghost predicate OneEach(m: Meaning, cfg: Config, members: map<Name, string>) {
    m.counting ==> forall c :: Present(cfg, c) ==> Untwinned(members, InputsOf(cfg, c))
  }

  lemma OneEachUnmerged(m: Meaning, cfg: Config, gid: Gid, settings: Settings, namespaces: seq<string>, members: map<Name, string>)
    requires Collapsible(cfg, gid, settings, namespaces, members) && OneEach(m, cfg, members)
    ensures AllUnmerged(m, cfg, Renames(m.digest, gid, namespaces, members))
  {
    forall c | Present(cfg, c) ensures Unmerged(m, InputsOf(cfg, c), Renames(m.digest, gid, namespaces, members)) {
      CollapsePresent(m.digest, cfg, gid, settings, namespaces, members, c);
      RepeatsExactly(m.digest, cfg, gid, namespaces, members, InputsOf(cfg, c));
    }
  }

  lemma MatchingNoMore(m: Meaning, f: Flow, g: Flow, cfg: Config, gid: Gid, settings: Settings, namespaces: seq<string>,
      members: map<Name, string>)
    requires Collapsible(cfg, gid, settings, namespaces, members)
    requires Matches(f, g, gid, members, Renames(m.digest, gid, namespaces, members))
    ensures NoMoreAnywhere(cfg, f, Collapse(m.digest, cfg, gid, settings, namespaces, members), g)
  {
    var renames, after := Renames(m.digest, gid, namespaces, members), Collapse(m.digest, cfg, gid, settings, namespaces, members);
    forall c ensures NoMoreAt(cfg, f, after, g, c) {
      if Present(cfg, c) {
        CollapsePresent(m.digest, cfg, gid, settings, namespaces, members, c);
        forall e ensures Follows(f, g, InputsOf(cfg, c), renames, e) {
          RewrittenFollows(f, g, cfg, gid, members, renames, InputsOf(cfg, c), e);
        }
        RewrittenNoMore(f, g, InputsOf(cfg, c), renames);
      }
    }
  }

  /** What a step of the optimizer does to a pair of runs. */
  ghost predicate Carried(m: Meaning, exact: bool, a: Config, f: Flow, b: Config, g: Flow) {
    && Solves(m, a, f) && Solves(m, b, g) && NoMoreAnywhere(a, f, b, g)
    && (exact ==> SameView(m, a, f, b, g))
  }

  lemma CarriedChains(m: Meaning, exact: bool, a: Config, f: Flow, b: Config, g: Flow, c: Config, h: Flow)
    requires Carried(m, exact, a, f, b, g) && Carried(m, exact, b, g, c, h)
    ensures Carried(m, exact, a, f, c, h)
  {
    NoMoreChains(a, f, b, g, c, h);
    if exact {
      SameViewChains(m, a, f, b, g, c, h);
    }
  }

  lemma CarriedSame(m: Meaning, cfg: Config, f: Flow)
    requires Solves(m, cfg, f)
    ensures Carried(m, true, cfg, f, cfg, f)
  {
    NoMoreSame(cfg, f);
  }

  lemma StepForward(m: Meaning, exact: bool, cfg: Config, gid: Gid, settings: Settings, namespaces: seq<string>,
      members: map<Name, string>, f: Flow) returns (g: Flow)
    requires Collapsible(cfg, gid, settings, namespaces, members) && Solves(m, cfg, f)
    requires if exact then OneEach(m, cfg, members) else Deaf(m)
    ensures Carried(m, exact, cfg, f, Collapse(m.digest, cfg, gid, settings, namespaces, members), g)
  {
    if exact {
      OneEachUnmerged(m, cfg, gid, settings, namespaces, members);
    }
    g := CollapseForward(m, cfg, gid, settings, namespaces, members, f);
    MatchingNoMore(m, f, g, cfg, gid, settings, namespaces, members);
  }

  lemma StepBack(m: Meaning, exact: bool, cfg: Config, gid: Gid, settings: Settings, namespaces: seq<string>,
      members: map<Name, string>, g: Flow) returns (f: Flow)
    requires Collapsible(cfg, gid, settings, namespaces, members)
    requires Solves(m, Collapse(m.digest, cfg, gid, settings, namespaces, members), g)
    requires if exact then OneEach(m, cfg, members) else Deaf(m)
    ensures Carried(m, exact, cfg, f, Collapse(m.digest, cfg, gid, settings, namespaces, members), g)
  {
    if exact {
      OneEachUnmerged(m, cfg, gid, settings, namespaces, members);
    }
    f := CollapseBack(m, cfg, gid, settings, namespaces, members, g);
    MatchingNoMore(m, f, g, cfg, gid, settings, namespaces, members);
  }

  // The pieces of one group.

  lemma PieceOneEach(m: Meaning, cfg: Config, base: string, settings: Settings, namespaces: seq<string>,
      members: map<Name, string>, n: nat)
    requires Ready(cfg, settings, namespaces, members) && Unused(cfg, base) && n < PieceCount(|namespaces|)
    requires OneEach(m, cfg, members)
    ensures OneEach(m, Pieces(m.digest, cfg, base, settings, namespaces, members, n), Within(members, Piece(namespaces, n)))
  {
    var now, piece := Pieces(m.digest, cfg, base, settings, namespaces, members, n), Within(members, Piece(namespaces, n));
    PiecesHalfway(m.digest, cfg, base, settings, namespaces, members, n);
    forall c | m.counting && Present(now, c) ensures Untwinned(piece, InputsOf(now, c)) {
      if Present(cfg, c) {
        PiecesShrink(m.digest, cfg, base, settings, namespaces, members, n, c);
        PieceUntwinned(namespaces, members, n, InputsOf(cfg, c), InputsOf(now, c));
      } else {
        PiecesNew(m.digest, cfg, base, settings, namespaces, members, n, c);
        GeneratedReadsOne(now, c);
      }
    }
  }

  lemma PieceUntwinned(namespaces: seq<string>, members: map<Name, string>, n: nat, a: seq<Output>, b: seq<Output>)
    requires n < PieceCount(|namespaces|) && Distinct(namespaces) && forall k :: k in members ==> k.Plain?
    requires Untwinned(members, a) && ShrunkSoFar(a, b, Done(namespaces, members, n), n)
    ensures Untwinned(Within(members, Piece(namespaces, n)), b)
  {
    var done, piece := Done(namespaces, members, n), Within(members, Piece(namespaces, n));
    FewerMembers(members, done, a);
    FewerMembers(members, piece, a);
    DoneStep(namespaces, members, n);
    if n > 0 {
      TwinsUnchanged(a, b, done.Keys, piece);
    }
  }

  lemma FewerMembers(members: map<Name, string>, fewer: map<Name, string>, inputs: seq<Output>)
    requires Untwinned(members, inputs) && forall k :: k in fewer ==> k in members && members[k] == fewer[k]
    ensures Untwinned(fewer, inputs)
  {
    forall i, j | 0 <= i < j < |inputs| ensures !TwinsAt(fewer, inputs, i, j) {
      assert !TwinsAt(members, inputs, i, j);
    }
  }

  lemma PieceForward(m: Meaning, exact: bool, cfg: Config, base: string, settings: Settings, namespaces: seq<string>,
      members: map<Name, string>, n: nat, f: Flow) returns (g: Flow)
    requires Ready(cfg, settings, namespaces, members) && Unused(cfg, base) && n < PieceCount(|namespaces|)
    requires if exact then OneEach(m, cfg, members) else Deaf(m)
    requires Solves(m, Pieces(m.digest, cfg, base, settings, namespaces, members, n), f)
    ensures Carried(m, exact, Pieces(m.digest, cfg, base, settings, namespaces, members, n), f,
                    Pieces(m.digest, cfg, base, settings, namespaces, members, n + 1), g)
  {
    var now, piece := Pieces(m.digest, cfg, base, settings, namespaces, members, n), Piece(namespaces, n);
    PiecesHalfway(m.digest, cfg, base, settings, namespaces, members, n);
    if exact {
      PieceOneEach(m, cfg, base, settings, namespaces, members, n);
    }
    g := StepForward(m, exact, now, Gid(base, Some(n)), settings, piece, Within(members, piece), f);
  }

  lemma PieceBack(m: Meaning, exact: bool, cfg: Config, base: string, settings: Settings, namespaces: seq<string>,
      members: map<Name, string>, n: nat, g: Flow) returns (f: Flow)
    requires Ready(cfg, settings, namespaces, members) && Unused(cfg, base) && n < PieceCount(|namespaces|)
    requires if exact then OneEach(m, cfg, members) else Deaf(m)
    requires Solves(m, Pieces(m.digest, cfg, base, settings, namespaces, members, n + 1), g)
    ensures Carried(m, exact, Pieces(m.digest, cfg, base, settings, namespaces, members, n), f,
                    Pieces(m.digest, cfg, base, settings, namespaces, members, n + 1), g)
  {
    var now, piece := Pieces(m.digest, cfg, base, settings, namespaces, members, n), Piece(namespaces, n);
    PiecesHalfway(m.digest, cfg, base, settings, namespaces, members, n);
    if exact {
      PieceOneEach(m, cfg, base, settings, namespaces, members, n);
    }
    f := StepBack(m, exact, now, Gid(base, Some(n)), settings, piece, Within(members, piece), g);
  }

  lemma {:induction false} PiecesForward(m: Meaning, exact: bool, cfg: Config, base: string, settings: Settings,
      namespaces: seq<string>, members: map<Name, string>, n: nat, f: Flow) returns (g: Flow)
    requires Ready(cfg, settings, namespaces, members) && Unused(cfg, base) && n <= PieceCount(|namespaces|)
    requires if exact then OneEach(m, cfg, members) else Deaf(m)
    requires Solves(m, cfg, f)
    ensures Carried(m, exact, cfg, f, Pieces(m.digest, cfg, base, settings, namespaces, members, n), g)
  {
    if n == 0 {
      g := f;
      CarriedSame(m, cfg, f);
    } else {
      var k := n - 1;
      var before, after := Pieces(m.digest, cfg, base, settings, namespaces, members, k), Pieces(m.digest, cfg, base, settings, namespaces, members, k + 1);
      var h := PiecesForward(m, exact, cfg, base, settings, namespaces, members, k, f);
      g := PieceForward(m, exact, cfg, base, settings, namespaces, members, k, h);
      CarriedChains(m, exact, cfg, f, before, h, after, g);
    }
  }

  lemma {:induction false} PiecesBack(m: Meaning, exact: bool, cfg: Config, base: string, settings: Settings,
      namespaces: seq<string>, members: map<Name, string>, n: nat, g: Flow) returns (f: Flow)
    requires Ready(cfg, settings, namespaces, members) && Unused(cfg, base) && n <= PieceCount(|namespaces|)
    requires if exact then OneEach(m, cfg, members) else Deaf(m)
    requires Solves(m, Pieces(m.digest, cfg, base, settings, namespaces, members, n), g)
    ensures Carried(m, exact, cfg, f, Pieces(m.digest, cfg, base, settings, namespaces, members, n), g)
  {
    if n == 0 {
      f := g;
      CarriedSame(m, cfg, f);
    } else {
      var k := n - 1;
      var before, after := Pieces(m.digest, cfg, base, settings, namespaces, members, k), Pieces(m.digest, cfg, base, settings, namespaces, members, k + 1);
      var h := PieceBack(m, exact, cfg, base, settings, namespaces, members, k, g);
      f := PiecesBack(m, exact, cfg, base, settings, namespaces, members, k, h);
      CarriedChains(m, exact, cfg, f, before, h, after, g);
    }
  }

  // One group.

  lemma GroupForward(m: Meaning, exact: bool, setup: Setup, cfg: Config, s: string, settings: Settings,
      members: map<Name, string>, f: Flow) returns (g: Flow)
    requires Ready(cfg, settings, Arranged(members.Values), members) && FirstPieces(cfg) && setup.digest == m.digest
    requires if exact then OneEach(m, cfg, members) else Deaf(m)
    requires Solves(m, cfg, f)
    ensures Carried(m, exact, cfg, f, CollapseGroup(setup, cfg, s, settings, members), g)
  {
    var namespaces, base := Arranged(members.Values), FreeBase(cfg.sources.Keys, setup.hash(s));
    FreeIsUnused(cfg, base);
    if |namespaces| <= MAX_NAMESPACES_PER_SOURCE {
      OnePieceReady(cfg, base, settings, namespaces, members);
      g := StepForward(m, exact, cfg, Gid(base, None), settings, namespaces, members, f);
    } else {
      g := PiecesForward(m, exact, cfg, base, settings, namespaces, members, PieceCount(|namespaces|), f);
    }
  }

  lemma GroupBack(m: Meaning, exact: bool, setup: Setup, cfg: Config, s: string, settings: Settings,
      members: map<Name, string>, g: Flow) returns (f: Flow)
    requires Ready(cfg, settings, Arranged(members.Values), members) && FirstPieces(cfg) && setup.digest == m.digest
    requires if exact then OneEach(m, cfg, members) else Deaf(m)
    requires Solves(m, CollapseGroup(setup, cfg, s, settings, members), g)
    ensures Carried(m, exact, cfg, f, CollapseGroup(setup, cfg, s, settings, members), g)
  {
    var namespaces, base := Arranged(members.Values), FreeBase(cfg.sources.Keys, setup.hash(s));
    FreeIsUnused(cfg, base);
    if |namespaces| <= MAX_NAMESPACES_PER_SOURCE {
      OnePieceReady(cfg, base, settings, namespaces, members);
      f := StepBack(m, exact, cfg, Gid(base, None), settings, namespaces, members, g);
    } else {
      f := PiecesBack(m, exact, cfg, base, settings, namespaces, members, PieceCount(|namespaces|), g);
    }
  }

  // All groups.

  /** If it matters how often events arrive, every component reads each stream over one input. */
  ghost predicate OneInputEach(m: Meaning, setup: Setup, cfg: Config) {
    m.counting ==> forall c :: Present(cfg, c) ==> OneInputPerStream(setup, cfg, InputsOf(cfg, c))
  }

  lemma GroupOneEach(m: Meaning, setup: Setup, cfg: Config, signatures: seq<string>)
    requires UserMade(cfg) && Faithful(setup) && Distinct(signatures) && signatures != [] && OneInputEach(m, setup, cfg)
    ensures OneEach(m, GroupsCollapsed(setup, cfg, signatures[..|signatures| - 1]),
                    GroupMembers(setup, cfg, signatures[|signatures| - 1]))
  {
    var front, s := signatures[..|signatures| - 1], signatures[|signatures| - 1];
    var now := GroupsCollapsed(setup, cfg, front);
    GroupsProgress(setup, cfg, front);
    forall c | m.counting && Present(now, c) ensures Untwinned(GroupMembers(setup, cfg, s), InputsOf(now, c)) {
      if Present(cfg, c) {
        GroupsShrink(setup, cfg, front, c);
        GroupUntwinned(setup, cfg, front, s, InputsOf(cfg, c), InputsOf(now, c));
      } else {
        GroupsNew(setup, cfg, front, c);
        GeneratedReadsOne(now, c);
      }
    }
  }

  lemma GroupUntwinned(setup: Setup, cfg: Config, front: seq<string>, s: string, a: seq<Output>, b: seq<Output>)
    requires UserMade(cfg) && Faithful(setup) && s !in front && ShrunkBy(setup, cfg, front, a, b)
    requires OneInputPerStream(setup, cfg, a)
    ensures Untwinned(GroupMembers(setup, cfg, s), b)
  {
    TwinsAreStreams(setup, cfg, a);
    GoneStep(setup, cfg, front, s);
    if AnyGroup(setup, cfg, front) {
      TwinsUnchanged(a, b, Gone(setup, cfg, front), GroupMembers(setup, cfg, s));
    }
  }

  /** One more group, if it has two members or more. */
  lemma LastGroupForward(m: Meaning, exact: bool, setup: Setup, cfg: Config, signatures: seq<string>, h: Flow) returns (g: Flow)
    requires UserMade(cfg) && Faithful(setup) && Distinct(signatures) && setup.digest == m.digest && signatures != []
    requires if exact then OneInputEach(m, setup, cfg) else Deaf(m)
    requires Solves(m, GroupsCollapsed(setup, cfg, signatures[..|signatures| - 1]), h)
    ensures Carried(m, exact, GroupsCollapsed(setup, cfg, signatures[..|signatures| - 1]), h,
                    GroupsCollapsed(setup, cfg, signatures), g)
  {
    var s := signatures[|signatures| - 1];
    var now, members := GroupsCollapsed(setup, cfg, signatures[..|signatures| - 1]), GroupMembers(setup, cfg, s);
    if |members| < 2 {
      g := h;
      CarriedSame(m, now, h);
    } else {
      NextGroupReady(setup, cfg, signatures);
      if exact {
        GroupOneEach(m, setup, cfg, signatures);
      }
      g := GroupForward(m, exact, setup, now, s, GroupSettings(setup, cfg, s), members, h);
    }
  }

  lemma LastGroupBack(m: Meaning, exact: bool, setup: Setup, cfg: Config, signatures: seq<string>, g: Flow) returns (h: Flow)
    requires UserMade(cfg) && Faithful(setup) && Distinct(signatures) && setup.digest == m.digest && signatures != []
    requires if exact then OneInputEach(m, setup, cfg) else Deaf(m)
    requires Solves(m, GroupsCollapsed(setup, cfg, signatures), g)
    ensures Carried(m, exact, GroupsCollapsed(setup, cfg, signatures[..|signatures| - 1]), h,
                    GroupsCollapsed(setup, cfg, signatures), g)
  {
    var s := signatures[|signatures| - 1];
    var now, members := GroupsCollapsed(setup, cfg, signatures[..|signatures| - 1]), GroupMembers(setup, cfg, s);
    if |members| < 2 {
      h := g;
      CarriedSame(m, now, h);
    } else {
      NextGroupReady(setup, cfg, signatures);
      if exact {
        GroupOneEach(m, setup, cfg, signatures);
      }
      h := GroupBack(m, exact, setup, now, s, GroupSettings(setup, cfg, s), members, g);
    }
  }

  lemma {:induction false} GroupsForward(m: Meaning, exact: bool, setup: Setup, cfg: Config, signatures: seq<string>, f: Flow)
      returns (g: Flow)
    requires UserMade(cfg) && Faithful(setup) && Distinct(signatures) && setup.digest == m.digest
    requires if exact then OneInputEach(m, setup, cfg) else Deaf(m)
    requires Solves(m, cfg, f)
    ensures Carried(m, exact, cfg, f, GroupsCollapsed(setup, cfg, signatures), g)
  {
    if signatures == [] {
      g := f;
      CarriedSame(m, cfg, f);
    } else {
      var front := signatures[..|signatures| - 1];
      var now, after := GroupsCollapsed(setup, cfg, front), GroupsCollapsed(setup, cfg, signatures);
      var h := GroupsForward(m, exact, setup, cfg, front, f);
      g := LastGroupForward(m, exact, setup, cfg, signatures, h);
      CarriedChains(m, exact, cfg, f, now, h, after, g);
    }
  }

  lemma {:induction false} GroupsBack(m: Meaning, exact: bool, setup: Setup, cfg: Config, signatures: seq<string>, g: Flow)
      returns (f: Flow)
    requires UserMade(cfg) && Faithful(setup) && Distinct(signatures) && setup.digest == m.digest
    requires if exact then OneInputEach(m, setup, cfg) else Deaf(m)
    requires Solves(m, GroupsCollapsed(setup, cfg, signatures), g)
    ensures Carried(m, exact, cfg, f, GroupsCollapsed(setup, cfg, signatures), g)
  {
    if signatures == [] {
      f := g;
      CarriedSame(m, cfg, f);
    } else {
      var front := signatures[..|signatures| - 1];
      var now, after := GroupsCollapsed(setup, cfg, front), GroupsCollapsed(setup, cfg, signatures);
      var h := LastGroupBack(m, exact, setup, cfg, signatures, g);
      f := GroupsBack(m, exact, setup, cfg, front, h);
      CarriedChains(m, exact, cfg, f, now, h, after, g);
    }
  }

  lemma {:induction false} NothingCollapsed(setup: Setup, cfg: Config, signatures: seq<string>)
    requires !AnyGroup(setup, cfg, signatures)
    ensures GroupsCollapsed(setup, cfg, signatures) == cfg
  {
    if signatures != [] {
      NothingCollapsed(setup, cfg, signatures[..|signatures| - 1]);
      assert signatures[|signatures| - 1] in signatures;
    }
  }

  /** Nobody counts, nothing is collapsed, or every component reads each stream over one input. */
  ghost predicate Harmless(m: Meaning, setup: Setup, cfg: Config) {
    !AnyGroup(setup, cfg, Arranged(Signatures(setup, cfg))) || OneInputEach(m, setup, cfg)
  }

  /** However the original configuration runs, the optimized one can run so that every transform and sink
      receives the same events, as often as before if that matters. */
  lemma OptimizedLosesNothing(m: Meaning, setup: Setup, cfg: Config, f: Flow) returns (g: Flow)
    requires UserMade(cfg) && Faithful(setup) && setup.digest == m.digest && Solves(m, cfg, f)
    requires Harmless(m, setup, cfg)
    ensures Solves(m, Optimized(setup, cfg), g) && SameView(m, cfg, f, Optimized(setup, cfg), g)
  {
    ArrangedDistinct(Signatures(setup, cfg));
    if OneInputEach(m, setup, cfg) {
      g := GroupsForward(m, true, setup, cfg, Arranged(Signatures(setup, cfg)), f);
    } else {
      g := f;
      NothingCollapsed(setup, cfg, Arranged(Signatures(setup, cfg)));
      CarriedSame(m, cfg, f);
    }
  }

  /** However the optimized configuration runs, the original one could have run so that every transform and
      sink received the same events, equally often if that matters. */
  lemma OptimizedAddsNothing(m: Meaning, setup: Setup, cfg: Config, g: Flow) returns (f: Flow)
    requires UserMade(cfg) && Faithful(setup) && setup.digest == m.digest && Solves(m, Optimized(setup, cfg), g)
    requires Harmless(m, setup, cfg)
    ensures Solves(m, cfg, f) && SameView(m, cfg, f, Optimized(setup, cfg), g)
  {
    ArrangedDistinct(Signatures(setup, cfg));
    if OneInputEach(m, setup, cfg) {
      f := GroupsBack(m, true, setup, cfg, Arranged(Signatures(setup, cfg)), g);
    } else {
      f := g;
      NothingCollapsed(setup, cfg, Arranged(Signatures(setup, cfg)));
      CarriedSame(m, cfg, f);
    }
  }
}
