/** What collapsing the groups one after the other keeps, and that each group is ready when its turn comes. */
module OptimizerGroups {
  import opened Outcomes
  import opened Ordering
  import opened Buckets
  import opened Dataflow
  import opened Routing
  import opened Collapsing
  import opened Optimizer

  // One group.

  /** The sources outside the group are still there. */
  ghost predicate Retains(cfg: Config, after: Config, members: map<Name, string>) {
    forall k :: k in cfg.sources && k !in members ==> k in after.sources && after.sources[k] == cfg.sources[k]
  }

  lemma GroupKeeps(setup: Setup, cfg: Config, s: string, settings: Settings, members: map<Name, string>)
    requires Ready(cfg, settings, Arranged(members.Values), members) && FirstPieces(cfg)
    ensures var after := CollapseGroup(setup, cfg, s, settings, members);
            WellFormed(after) && FirstPieces(after) && Retains(cfg, after, members)
  {
    var namespaces, base := Arranged(members.Values), FreeBase(cfg.sources.Keys, setup.hash(s));
    FreeIsUnused(cfg, base);
    if |namespaces| <= MAX_NAMESPACES_PER_SOURCE {
      CollapseWellFormed(setup.digest, cfg, Gid(base, None), settings, namespaces, members);
      OnePieceKeeps(setup.digest, cfg, base, settings, namespaces, members);
    } else {
      var n := PieceCount(|namespaces|);
      PiecesHalfway(setup.digest, cfg, base, settings, namespaces, members, n);
      HalfwayKeeps(cfg, Pieces(setup.digest, cfg, base, settings, namespaces, members, n), base, namespaces, members, n);
    }
  }

  lemma OnePieceKeeps(digest: string -> Digest, cfg: Config, base: string, settings: Settings,
      namespaces: seq<string>, members: map<Name, string>)
    requires Ready(cfg, settings, namespaces, members) && FirstPieces(cfg) && Unused(cfg, base)
    ensures var after := Collapse(digest, cfg, Gid(base, None), settings, namespaces, members);
            FirstPieces(after) && Retains(cfg, after, members)
  {
    var gid := Gid(base, None);
    var after := Collapse(digest, cfg, gid, settings, namespaces, members);
    assert after.sources == (cfg.sources - members.Keys)[OptSource(gid) := Collapsed(namespaces, settings)];
    assert forall n: Name :: n.OptSource? ==> n !in members;
  }

  lemma HalfwayKeeps(cfg: Config, after: Config, base: string, namespaces: seq<string>, members: map<Name, string>, n: nat)
    requires n <= PieceCount(|namespaces|) && Halfway(cfg.sources, after.sources, base, namespaces, members, n)
    requires FirstPieces(cfg) && forall k :: k in members ==> k.Plain?
    ensures FirstPieces(after) && Retains(cfg, after, members)
  {
    forall k | k in after.sources && k.OptSource? && k.gid.chunk.Some?
      ensures OptSource(Gid(k.gid.base, Some(0))) in after.sources
    {
      if k in cfg.sources {
        var first := OptSource(Gid(k.gid.base, Some(0)));
        assert first in cfg.sources && first !in members;
      }
    }
  }

  lemma OnePieceReady(cfg: Config, base: string, settings: Settings, namespaces: seq<string>, members: map<Name, string>)
    requires Ready(cfg, settings, namespaces, members) && Unused(cfg, base)
    ensures Collapsible(cfg, Gid(base, None), settings, namespaces, members)
  {
  }

  // All groups.

  predicate AllPlain(inputs: seq<Output>) {
    forall o :: o in inputs ==> o.name.Plain?
  }

  /** A configuration as the operator builds it: users' components only, no name used twice. */
  predicate UserMade(cfg: Config) {
    && (forall n :: n in cfg.sources ==> n.Plain?)
    && cfg.sources.Keys !! cfg.transforms.Keys
    && (forall n :: n in cfg.transforms ==> n.Plain? && cfg.transforms[n].body.User? && AllPlain(cfg.transforms[n].inputs))
    && (forall n :: n in cfg.sinks ==> n.Plain? && AllPlain(cfg.sinks[n].inputs))
  }

  lemma UserMadeWellFormed(cfg: Config)
    requires UserMade(cfg)
    ensures WellFormed(cfg) && FirstPieces(cfg)
  {
  }

  ghost predicate Untouched(setup: Setup, cfg: Config, signatures: seq<string>, k: Name) {
    forall s :: s in signatures ==> k !in GroupMembers(setup, cfg, s)
  }

  ghost predicate Progress(setup: Setup, cfg: Config, signatures: seq<string>, now: Config) {
    && WellFormed(now) && FirstPieces(now)
    && forall k :: k in cfg.sources && Untouched(setup, cfg, signatures, k) ==> k in now.sources && now.sources[k] == cfg.sources[k]
  }

  lemma OwnGroupOnly(setup: Setup, cfg: Config, signatures: seq<string>, s: string, k: Name)
    requires k in GroupMembers(setup, cfg, s) && s !in signatures
    ensures Untouched(setup, cfg, signatures, k)
  {
  }

  lemma MembersWatchable(setup: Setup, cfg: Config, s: string)
    requires Faithful(setup) && GroupMembers(setup, cfg, s) != map[]
    ensures Watchable(Arranged(GroupMembers(setup, cfg, s).Values), GroupSettings(setup, cfg, s))
  {
    var members := GroupMembers(setup, cfg, s);
    GroupHolds(setup, cfg, s);
    var n :| n in members;
    assert members[n] in Arranged(members.Values);
  }

  lemma GroupReady(setup: Setup, cfg: Config, signatures: seq<string>, now: Config, s: string)
    requires UserMade(cfg) && Faithful(setup) && Progress(setup, cfg, signatures, now)
    requires s !in signatures && GroupMembers(setup, cfg, s) != map[]
    ensures var members := GroupMembers(setup, cfg, s);
            Ready(now, GroupSettings(setup, cfg, s), Arranged(members.Values), members)
  {
    var members, settings := GroupMembers(setup, cfg, s), GroupSettings(setup, cfg, s);
    GroupHolds(setup, cfg, s);
    ArrangedDistinct(members.Values);
    MembersWatchable(setup, cfg, s);
    forall k | k in members ensures Member(now, settings, k, members[k]) {
      OwnGroupOnly(setup, cfg, signatures, s, k);
    }
  }

  lemma ProgressStep(setup: Setup, cfg: Config, signatures: seq<string>, s: string, now: Config, after: Config)
    requires Progress(setup, cfg, signatures, now)
    requires WellFormed(after) && FirstPieces(after) && Retains(now, after, GroupMembers(setup, cfg, s))
    ensures Progress(setup, cfg, signatures + [s], after)
  {
    forall k | k in cfg.sources && Untouched(setup, cfg, signatures + [s], k)
      ensures k in after.sources && after.sources[k] == cfg.sources[k]
    {
      assert s in signatures + [s];
      assert Untouched(setup, cfg, signatures, k);
    }
  }

  lemma {:induction false} GroupsProgress(setup: Setup, cfg: Config, signatures: seq<string>)
    requires UserMade(cfg) && Faithful(setup) && Distinct(signatures)
    ensures Progress(setup, cfg, signatures, GroupsCollapsed(setup, cfg, signatures))
  {
    if signatures == [] {
      UserMadeWellFormed(cfg);
    } else {
      var n := |signatures| - 1;
      var front, s := signatures[..n], signatures[n];
      assert signatures == front + [s];
      var now := GroupsCollapsed(setup, cfg, front);
      GroupsProgress(setup, cfg, front);
      if |GroupMembers(setup, cfg, s)| >= 2 {
        assert GroupMembers(setup, cfg, s) != map[];
        GroupReady(setup, cfg, front, now, s);
        GroupKeeps(setup, now, s, GroupSettings(setup, cfg, s), GroupMembers(setup, cfg, s));
      }
      ProgressStep(setup, cfg, front, s, now, GroupsCollapsed(setup, cfg, signatures));
    }
  }

  lemma NextGroupReady(setup: Setup, cfg: Config, signatures: seq<string>)
    requires UserMade(cfg) && Faithful(setup) && Distinct(signatures) && signatures != []
    requires GroupMembers(setup, cfg, signatures[|signatures| - 1]) != map[]
    ensures var s := signatures[|signatures| - 1];
            var now, members := GroupsCollapsed(setup, cfg, signatures[..|signatures| - 1]), GroupMembers(setup, cfg, s);
            FirstPieces(now) && Ready(now, GroupSettings(setup, cfg, s), Arranged(members.Values), members)
  {
    var n := |signatures| - 1;
    GroupsProgress(setup, cfg, signatures[..n]);
    GroupReady(setup, cfg, signatures[..n], GroupsCollapsed(setup, cfg, signatures[..n]), signatures[n]);
  }
}
