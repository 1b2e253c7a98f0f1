/** Optimizing a whole agent configuration: grouping its single-namespace sources by what else they
    are set to, and collapsing every group of two or more, in pieces when it is large. */
module Optimizer {
  import opened Outcomes
  import opened Ordering
  import opened Selectors
  import opened Buckets
  import opened Dataflow
  import opened Routing
  import opened Collapsing

  const MAX_NAMESPACES_PER_SOURCE: nat := 1000

  /** The digest, the text that stands for a source's settings, the hexadecimal hash of that text, and
      the sources that opted out. */
  datatype Setup = Setup(digest: string -> Digest, sign: Settings -> string, hash: string -> string, optOut: set<Name>)

  ghost predicate Faithful(setup: Setup) {
    forall a, b :: setup.sign(a) == setup.sign(b) ==> a == b
  }

  // Groups.

  predicate Grouped(setup: Setup, cfg: Config, n: Name) {
    && n in cfg.sources && cfg.sources[n].settings.typ == KUBERNETES_LOGS && n !in setup.optOut
    && SingleNamespaceOf(cfg.sources[n].selector).Some?
  }

  /** The sources whose settings have this signature, each with its namespace. */
  function GroupMembers(setup: Setup, cfg: Config, s: string): map<Name, string> {
    map n | n in cfg.sources && Grouped(setup, cfg, n) && setup.sign(cfg.sources[n].settings) == s ::
      SingleNamespaceOf(cfg.sources[n].selector).value
  }

  function Signatures(setup: Setup, cfg: Config): set<string> {
    set n | n in cfg.sources && Grouped(setup, cfg, n) :: setup.sign(cfg.sources[n].settings)
  }

  ghost function GroupSettings(setup: Setup, cfg: Config, s: string): Settings
    requires GroupMembers(setup, cfg, s) != map[]
  {
    var n :| n in GroupMembers(setup, cfg, s);
    cfg.sources[n].settings
  }

  lemma GroupHolds(setup: Setup, cfg: Config, s: string)
    requires Faithful(setup) && GroupMembers(setup, cfg, s) != map[]
    ensures var settings := GroupSettings(setup, cfg, s);
            settings.typ == KUBERNETES_LOGS &&
            forall n :: n in GroupMembers(setup, cfg, s) ==>
              cfg.sources[n].settings == settings
              && SingleNamespaceOf(cfg.sources[n].selector) == Some(GroupMembers(setup, cfg, s)[n])
  {
  }

  // Names for a group.

  predicate Taken(sources: set<Name>, base: string) {
    OptSource(Gid(base, None)) in sources || OptSource(Gid(base, Some(0))) in sources
  }

  function LongBases(sources: set<Name>, n: nat): set<string> {
    set s | s in sources && s.OptSource? && |s.gid.base| >= n :: s.gid.base
  }

  /** `base` followed by nothing but `x`. */
  ghost predicate Padded(text: string, base: string) {
    base <= text && forall i :: |base| <= i < |text| ==> text[i] == 'x'
  }

  lemma LongerBases(sources: set<Name>, base: string)
    requires Taken(sources, base)
    ensures |LongBases(sources, |base| + 1)| < |LongBases(sources, |base|)|
  {
    var long, longer := LongBases(sources, |base|), LongBases(sources, |base| + 1);
    assert base in long && base !in longer && longer <= long;
    ShorterSet(longer, long, base);
  }

  lemma ShorterSet(a: set<string>, b: set<string>, x: string)
    requires a <= b && x in b && x !in a
    ensures |a| < |b|
  {
    assert a <= b - {x};
    SubsetSize(a, b - {x});
  }

  lemma SubsetSize(a: set<string>, b: set<string>)
    requires a <= b
    ensures |a| <= |b|
  {
    if a != {} {
      var x :| x in a;
      SubsetSize(a - {x}, b - {x});
    }
  }

  /** The first free base, lengthening it as long as it is taken. */
  function FreeBase(sources: set<Name>, base: string): (r: string)
    ensures !Taken(sources, r) && Padded(r, base)
    decreases |LongBases(sources, |base|)|
  {
    if Taken(sources, base) then
      LongerBases(sources, base);
      FreeBase(sources, base + "x")
    else base
  }

  // Large groups, in pieces.

  function PieceCount(n: nat): nat {
    (n + MAX_NAMESPACES_PER_SOURCE - 1) / MAX_NAMESPACES_PER_SOURCE
  }

  function Piece(namespaces: seq<string>, c: nat): (r: seq<string>)
    requires c < PieceCount(|namespaces|)
    ensures 0 < |r| <= MAX_NAMESPACES_PER_SOURCE
  {
    var end := (c + 1) * MAX_NAMESPACES_PER_SOURCE;
    namespaces[c * MAX_NAMESPACES_PER_SOURCE..if end < |namespaces| then end else |namespaces|]
  }

  function Within(members: map<Name, string>, piece: seq<string>): map<Name, string> {
    map n | n in members && members[n] in piece :: members[n]
  }

  /** The configuration with the first `n` pieces collapsed. */
  ghost function Pieces(digest: string -> Digest, cfg: Config, base: string, settings: Settings,
      namespaces: seq<string>, members: map<Name, string>, n: nat): Config
    requires n <= PieceCount(|namespaces|)
  {
    if n == 0 then cfg
    else
      Collapse(digest, Pieces(digest, cfg, base, settings, namespaces, members, n - 1), Gid(base, Some(n - 1)), settings,
               Piece(namespaces, n - 1), Within(members, Piece(namespaces, n - 1)))
  }

  ghost function CollapseGroup(setup: Setup, cfg: Config, s: string, settings: Settings, members: map<Name, string>): Config {
    var namespaces := Arranged(members.Values);
    var base := FreeBase(cfg.sources.Keys, setup.hash(s));
    if |namespaces| <= MAX_NAMESPACES_PER_SOURCE then Collapse(setup.digest, cfg, Gid(base, None), settings, namespaces, members)
    else Pieces(setup.digest, cfg, base, settings, namespaces, members, PieceCount(|namespaces|))
  }

  // The whole configuration.

  ghost function GroupsCollapsed(setup: Setup, cfg: Config, signatures: seq<string>): Config {
    if signatures == [] then cfg
    else
      var before := GroupsCollapsed(setup, cfg, signatures[..|signatures| - 1]);
      var s := signatures[|signatures| - 1];
      if |GroupMembers(setup, cfg, s)| < 2 then before
      else CollapseGroup(setup, before, s, GroupSettings(setup, cfg, s), GroupMembers(setup, cfg, s))
  }

  ghost function Optimized(setup: Setup, cfg: Config): Config {
    GroupsCollapsed(setup, cfg, Arranged(Signatures(setup, cfg)))
  }

  // Pieces cover the namespaces without overlap.

  /** All pieces but the last have a thousand namespaces, and there are no more pieces than that takes. */
  lemma PiecesAreFull(namespaces: seq<string>, c: nat)
    requires c < PieceCount(|namespaces|)
    ensures if c + 1 < PieceCount(|namespaces|) then |Piece(namespaces, c)| == 1000
            else |Piece(namespaces, c)| == |namespaces| - 1000 * c <= 1000
  {
  }

  lemma PieceOf(namespaces: seq<string>, i: nat)
    requires i < |namespaces| && Distinct(namespaces)
    ensures i / MAX_NAMESPACES_PER_SOURCE < PieceCount(|namespaces|)
    ensures forall c :: 0 <= c < PieceCount(|namespaces|) ==>
              (namespaces[i] in Piece(namespaces, c) <==> c == i / MAX_NAMESPACES_PER_SOURCE)
  {
    var own := i / MAX_NAMESPACES_PER_SOURCE;
    assert Piece(namespaces, own)[i - own * MAX_NAMESPACES_PER_SOURCE] == namespaces[i];
    forall c | 0 <= c < PieceCount(|namespaces|) && namespaces[i] in Piece(namespaces, c) ensures c == own {
      var j :| 0 <= j < |Piece(namespaces, c)| && Piece(namespaces, c)[j] == namespaces[i];
      assert namespaces[c * MAX_NAMESPACES_PER_SOURCE + j] == namespaces[i];
    }
  }

  predicate InPiece(namespaces: seq<string>, ns: string, c: nat) {
    c < PieceCount(|namespaces|) && ns in Piece(namespaces, c)
  }

  /** Every namespace is in exactly one piece, and no piece is empty or too large. */
  lemma PiecesPartition(namespaces: seq<string>, ns: string)
    requires Distinct(namespaces) && ns in namespaces
    ensures exists c :: InPiece(namespaces, ns, c)
    ensures forall c, d :: InPiece(namespaces, ns, c) && InPiece(namespaces, ns, d) ==> c == d
  {
    var i :| 0 <= i < |namespaces| && namespaces[i] == ns;
    PieceOf(namespaces, i);
    assert InPiece(namespaces, ns, i / MAX_NAMESPACES_PER_SOURCE);
  }

  // What holds while groups are collapsed.

  ghost predicate FirstPieces(cfg: Config) {
    forall n :: n in cfg.sources && n.OptSource? && n.gid.chunk.Some? ==> OptSource(Gid(n.gid.base, Some(0))) in cfg.sources
  }

  ghost predicate Unused(cfg: Config, base: string) {
    forall n :: n in cfg.sources && n.OptSource? ==> n.gid.base != base
  }

  lemma FreeIsUnused(cfg: Config, base: string)
    requires WellFormed(cfg) && FirstPieces(cfg) && !Taken(cfg.sources.Keys, base)
    ensures Unused(cfg, base)
  {
    forall n | n in cfg.sources && n.OptSource? ensures n.gid.base != base {
      assert n == OptSource(Gid(n.gid.base, n.gid.chunk));
    }
  }

  /** A group ready to be collapsed. */
  ghost predicate Ready(cfg: Config, settings: Settings, namespaces: seq<string>, members: map<Name, string>) {
    && WellFormed(cfg) && Watchable(namespaces, settings) && Distinct(namespaces)
    && forall n :: n in members ==> Member(cfg, settings, n, members[n]) && members[n] in namespaces
  }

  /** After `n` pieces: the rest of the group is untouched and the remaining names are free. */
  ghost predicate Halfway(sources: map<Name, Source>, part: map<Name, Source>, base: string, namespaces: seq<string>,
      members: map<Name, string>, n: nat)
    requires n <= PieceCount(|namespaces|)
  {
    && (forall k :: k in part ==> k in sources || (k.OptSource? && k.gid.base == base && k.gid.chunk.Some? && k.gid.chunk.value < n))
    && (forall k :: k in sources && (k !in members || PieceAfter(namespaces, members[k], n)) ==> k in part && part[k] == sources[k])
    && (n > 0 ==> OptSource(Gid(base, Some(0))) in part)
  }

  /** The namespace is in none of the first `n` pieces. */
  ghost predicate PieceAfter(namespaces: seq<string>, ns: string, n: nat)
    requires n <= PieceCount(|namespaces|)
  {
    forall c :: 0 <= c < n ==> !InPiece(namespaces, ns, c)
  }

  lemma {:induction false} PiecesHalfway(digest: string -> Digest, cfg: Config, base: string, settings: Settings,
      namespaces: seq<string>, members: map<Name, string>, n: nat)
    requires Ready(cfg, settings, namespaces, members) && Unused(cfg, base) && n <= PieceCount(|namespaces|)
    ensures var part := Pieces(digest, cfg, base, settings, namespaces, members, n);
            WellFormed(part) && Halfway(cfg.sources, part.sources, base, namespaces, members, n)
    ensures n < PieceCount(|namespaces|) ==>
              Collapsible(Pieces(digest, cfg, base, settings, namespaces, members, n), Gid(base, Some(n)), settings,
                          Piece(namespaces, n), Within(members, Piece(namespaces, n)))
  {
    if n > 0 {
      PiecesHalfway(digest, cfg, base, settings, namespaces, members, n - 1);
      HalfwayStep(digest, cfg, Pieces(digest, cfg, base, settings, namespaces, members, n - 1), base, settings, namespaces, members, n - 1);
    }
    if n < PieceCount(|namespaces|) {
      NextPieceReady(cfg, Pieces(digest, cfg, base, settings, namespaces, members, n), base, settings, namespaces, members, n);
    }
  }

  lemma HalfwayStep(digest: string -> Digest, cfg: Config, part: Config, base: string, settings: Settings,
      namespaces: seq<string>, members: map<Name, string>, n: nat)
    requires Ready(cfg, settings, namespaces, members) && Unused(cfg, base) && n < PieceCount(|namespaces|)
    requires Halfway(cfg.sources, part.sources, base, namespaces, members, n)
    requires Collapsible(part, Gid(base, Some(n)), settings, Piece(namespaces, n), Within(members, Piece(namespaces, n)))
    ensures var after := Collapse(digest, part, Gid(base, Some(n)), settings, Piece(namespaces, n), Within(members, Piece(namespaces, n)));
            WellFormed(after) && Halfway(cfg.sources, after.sources, base, namespaces, members, n + 1)
  {
    var piece := Piece(namespaces, n);
    CollapseWellFormed(digest, part, Gid(base, Some(n)), settings, piece, Within(members, piece));
    SourcesStep(cfg.sources, part.sources, base, Collapsed(piece, settings), namespaces, members, n);
  }

  lemma SourcesStep(sources: map<Name, Source>, part: map<Name, Source>, base: string, collapsed: Source,
      namespaces: seq<string>, members: map<Name, string>, n: nat)
    requires n < PieceCount(|namespaces|) && Halfway(sources, part, base, namespaces, members, n)
    requires OptSource(Gid(base, Some(n))) !in sources && forall k :: k in members ==> k.Plain?
    ensures Halfway(sources, (part - Within(members, Piece(namespaces, n)).Keys)[OptSource(Gid(base, Some(n))) := collapsed],
                    base, namespaces, members, n + 1)
  {
    var group := Within(members, Piece(namespaces, n));
    var after := (part - group.Keys)[OptSource(Gid(base, Some(n))) := collapsed];
    assert OptSource(Gid(base, Some(0))) !in group;
    forall k | k in sources && (k !in members || PieceAfter(namespaces, members[k], n + 1))
      ensures k in after && after[k] == sources[k]
    {
      if k in members {
        assert !InPiece(namespaces, members[k], n) && PieceAfter(namespaces, members[k], n);
      }
    }
  }

  lemma NextPieceReady(cfg: Config, part: Config, base: string, settings: Settings, namespaces: seq<string>,
      members: map<Name, string>, n: nat)
    requires Ready(cfg, settings, namespaces, members) && Unused(cfg, base) && n < PieceCount(|namespaces|)
    requires WellFormed(part) && Halfway(cfg.sources, part.sources, base, namespaces, members, n)
    ensures Collapsible(part, Gid(base, Some(n)), settings, Piece(namespaces, n), Within(members, Piece(namespaces, n)))
  {
    var piece := Piece(namespaces, n);
    forall k | k in Within(members, piece) ensures Member(part, settings, k, members[k]) {
      PiecesPartition(namespaces, members[k]);
      assert InPiece(namespaces, members[k], n) && PieceAfter(namespaces, members[k], n);
      assert Member(cfg, settings, k, members[k]);
    }
  }
}
