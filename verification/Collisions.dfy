/** Attribution of flat-key collisions to the younger pipeline. */
module Collisions {
  import opened Outcomes
  import opened Ordering
  import opened SecretRefs

  /** The origin a flat key was accepted with, and the pipeline that brought it in. */
  datatype Claim = Claim(origin: Origin, owner: Pipeline)

  type Claims = map<string, Claim>

  /** `victim` lost `flat` to `survivor`. */
  datatype Collision = Collision(victim: Pipeline, flat: string, survivor: Pipeline)

  datatype Verdict = Verdict(claims: Claims, accepted: seq<Pipeline>, victims: seq<Collision>)

  predicate FlatLess(r: Ref, s: Ref) {
    Less(r.flat, s.flat)
  }

  predicate VictimLess(c: Collision, d: Collision) {
    Less(c.victim.id, d.victim.id)
  }

  predicate Contested(claims: Claims, r: Ref) {
    r.flat in claims && claims[r.flat].origin != r.origin
  }

  /** Adds every reference whose flat key is not claimed yet. */
  function Claimed(claims: Claims, p: Pipeline, refs: seq<Ref>): Claims {
    if refs == [] then claims
    else
      var rest, r := Claimed(claims, p, refs[..|refs| - 1]), refs[|refs| - 1];
      if r.flat in rest then rest else rest[r.flat := Claim(r.origin, p)]
  }

  /** The contested reference with the least flat key, if any. */
  function FirstContested(claims: Claims, refs: seq<Ref>): (o: Option<Ref>)
    ensures o.Some? ==> o.value in refs && Contested(claims, o.value)
    ensures o.None? ==> forall r :: r in refs ==> !Contested(claims, r)
  {
    if refs == [] then None
    else if Contested(claims, refs[0]) then Some(refs[0])
    else FirstContested(claims, refs[1..])
  }

  /** A pipeline is rejected whole or claims all its keys. */
  function Judged(v: Verdict, p: Pipeline): Verdict {
    var refs := Sort(FlatLess, p.Refs());
    match FirstContested(v.claims, refs)
    case Some(r) => v.(victims := v.victims + [Collision(p, r.flat, v.claims[r.flat].owner)])
    case None => v.(claims := Claimed(v.claims, p, refs), accepted := v.accepted + [p])
  }

  /** One pass, oldest first. */
  function Attributed(ordered: seq<Pipeline>): Verdict {
    if ordered == [] then Verdict(map[], [], [])
    else Judged(Attributed(ordered[..|ordered| - 1]), ordered[|ordered| - 1])
  }

  /** What the detector reports: nothing to compare below two pipelines, else the rejected ones by identifier. */
  function Detected(ps: seq<Pipeline>): Result<seq<Collision>, Failure> {
    if |ps| < 2 then Ok([])
    else
      var ordered :- Gathered(ps);
      Ok(Sort(VictimLess, Attributed(ordered).victims))
  }

  /** The first reference, by flat key, that an accepted pipeline already reads from elsewhere. */
  method FindContested(claims: Claims, refs: seq<Ref>) returns (o: Option<Ref>)
    ensures o == FirstContested(claims, refs)
  {
    for j := 0 to |refs|
      invariant FirstContested(claims, refs) == FirstContested(claims, refs[j..])
    {
      if Contested(claims, refs[j]) {
        return Some(refs[j]);
      }
    }
    return None;
  }

  method ClaimAll(claims: Claims, p: Pipeline, refs: seq<Ref>) returns (c: Claims)
    ensures c == Claimed(claims, p, refs)
  {
    c := claims;
    for k := 0 to |refs|
      invariant c == Claimed(claims, p, refs[..k])
    {
      assert refs[..k + 1][..k] == refs[..k];
      if refs[k].flat !in c {
        c := c[refs[k].flat := Claim(refs[k].origin, p)];
      }
    }
    assert refs[..|refs|] == refs;
  }

  method AttributeOldestFirst(ordered: seq<Pipeline>) returns (victims: seq<Collision>)
    ensures victims == Attributed(ordered).victims
  {
    var claims: Claims := map[];
    victims := [];
    for i := 0 to |ordered|
      invariant Attributed(ordered[..i]).claims == claims && Attributed(ordered[..i]).victims == victims
    {
      assert ordered[..i + 1][..i] == ordered[..i];
      var p := ordered[i];
      var refs := Sort(FlatLess, p.Refs());
      var contested := FindContested(claims, refs);
      if contested.Some? {
        var r := contested.value;
        victims := victims + [Collision(p, r.flat, claims[r.flat].owner)];
      } else {
        claims := ClaimAll(claims, p, refs);
      }
    }
    assert ordered[..|ordered|] == ordered;
  }

  method DetectSecretCollisions(ps: seq<Pipeline>) returns (r: Result<seq<Collision>, Failure>)
    ensures r == Detected(ps)
  {
    if |ps| < 2 {
      return Ok([]);
    }
    var gathered := Gather(ps);
    if gathered.Err? {
      return Err(gathered.error);
    }
    var ordered := gathered.value;
    if |ordered| == 0 {
      return Ok([]);
    }
    var victims := AttributeOldestFirst(ordered);
    return Ok(Sort(VictimLess, victims));
  }

  /** The reference definition of who keeps its references: `ordered[i]` survives unless an older
      survivor reads one of its flat keys from another origin. No claims map is involved. */
  ghost predicate Survives(ordered: seq<Pipeline>, i: nat)
    requires i < |ordered|
    decreases i
  {
    forall j :: 0 <= j < i && Survives(ordered, j) ==> !Conflict(ordered[i], ordered[j])
  }

  lemma {:induction false} SurvivesPrefix(ordered: seq<Pipeline>, n: nat, i: nat)
    requires i < n <= |ordered|
    ensures Survives(ordered[..n], i) == Survives(ordered, i)
    decreases i
  {
    forall j | 0 <= j < i ensures Survives(ordered[..n], j) == Survives(ordered, j) {
      SurvivesPrefix(ordered, n, j);
    }
  }

  /** `flat` after claiming: an earlier claim stays, otherwise some reference of `p` brought it in. */
  lemma {:induction false} ClaimedAt(claims: Claims, p: Pipeline, refs: seq<Ref>, flat: string)
    ensures var c := Claimed(claims, p, refs);
            && (flat in claims ==> flat in c && c[flat] == claims[flat])
            && (flat in c && flat !in claims ==> c[flat].owner == p && Ref(flat, c[flat].origin) in refs)
            && (flat in FlatsOf(refs) ==> flat in c)
  {
    if refs != [] {
      ClaimedAt(claims, p, refs[..|refs| - 1], flat);
      assert refs == refs[..|refs| - 1] + [refs[|refs| - 1]];
    }
  }

  /** A claim is a reference of an accepted pipeline. */
  ghost predicate ClaimHeld(v: Verdict, flat: string) {
    flat in v.claims ==> v.claims[flat].owner in v.accepted && Ref(flat, v.claims[flat].origin) in v.claims[flat].owner.Refs()
  }

  /** A reference of an accepted pipeline is claimed with its own origin. */
  ghost predicate RefClaimed(v: Verdict, p: Pipeline, r: Ref) {
    p in v.accepted && r in p.Refs() ==> r.flat in v.claims && v.claims[r.flat].origin == r.origin
  }

  /** The claims are exactly the references of the accepted pipelines. */
  ghost predicate ClaimsMatch(v: Verdict) {
    (forall flat :: ClaimHeld(v, flat)) && (forall p, r :: RefClaimed(v, p, r))
  }

  /** A rejected pipeline is named with an accepted pipeline and a flat key they disagree on. */
  ghost predicate Justified(accepted: seq<Pipeline>, c: Collision) {
    c.survivor in accepted && Disagree(c.victim, c.survivor, c.flat)
  }

  ghost predicate VictimsJustified(v: Verdict) {
    forall c :: c in v.victims ==> Justified(v.accepted, c)
  }

  ghost predicate AllSelfConsistent(ps: seq<Pipeline>) {
    forall p :: p in ps ==> SelfConsistent(p)
  }

  ghost predicate Rejected(v: Verdict, p: Pipeline) {
    exists c :: c in v.victims && c.victim == p
  }

  ghost predicate DrawnFrom(v: Verdict, ordered: seq<Pipeline>) {
    (forall p :: p in v.accepted ==> p in ordered) && (forall c :: c in v.victims ==> c.victim in ordered)
  }

  /** The pipelines that are accepted do not collide with themselves; the rejected ones may. */
  ghost predicate AcceptedConsistent(ordered: seq<Pipeline>) {
    AllSelfConsistent(Attributed(ordered).accepted)
  }

  lemma {:induction false} AcceptedFromOrdered(ordered: seq<Pipeline>)
    ensures DrawnFrom(Attributed(ordered), ordered)
  {
    if ordered != [] {
      AcceptedFromOrdered(ordered[..|ordered| - 1]);
      assert ordered == ordered[..|ordered| - 1] + [ordered[|ordered| - 1]];
    }
  }

  lemma AcceptedPrefix(ordered: seq<Pipeline>)
    requires ordered != [] && AcceptedConsistent(ordered)
    ensures AcceptedConsistent(ordered[..|ordered| - 1])
    ensures ordered[|ordered| - 1] in Attributed(ordered).accepted ==> SelfConsistent(ordered[|ordered| - 1])
  {
    var before, after := Attributed(ordered[..|ordered| - 1]).accepted, Attributed(ordered).accepted;
    forall q | q in before ensures q in after {}
  }

  lemma {:induction false} AttributionSound(ordered: seq<Pipeline>)
    requires AcceptedConsistent(ordered)
    ensures ClaimsMatch(Attributed(ordered)) && VictimsJustified(Attributed(ordered))
    ensures DrawnFrom(Attributed(ordered), ordered)
  {
    AcceptedFromOrdered(ordered);
    if ordered != [] {
      AcceptedPrefix(ordered);
      AttributionSound(ordered[..|ordered| - 1]);
      JudgedSound(Attributed(ordered[..|ordered| - 1]), ordered[|ordered| - 1]);
    }
  }

  lemma JudgedSound(v: Verdict, p: Pipeline)
    requires ClaimsMatch(v) && VictimsJustified(v)
    requires p in Judged(v, p).accepted ==> SelfConsistent(p)
    ensures ClaimsMatch(Judged(v, p)) && VictimsJustified(Judged(v, p))
  {
    var o := FirstContested(v.claims, Sort(FlatLess, p.Refs()));
    var after := Judged(v, p);
    if o.None? {
      AcceptStep(v, p);
      forall c | c in after.victims ensures Justified(after.accepted, c) {
        assert Justified(v.accepted, c);
      }
    } else {
      var r := o.value;
      assert ClaimHeld(v, r.flat);
      assert DisagreeOn(p, v.claims[r.flat].owner, r.flat, r.origin, v.claims[r.flat].origin);
      forall flat ensures ClaimHeld(after, flat) { assert ClaimHeld(v, flat); }
      forall q, s ensures RefClaimed(after, q, s) { assert RefClaimed(v, q, s); }
      forall c | c in after.victims ensures Justified(after.accepted, c) {
        assert c in v.victims ==> Justified(v.accepted, c);
      }
    }
  }

  /** The verdict takes the pipeline exactly when it survives, and rejects it otherwise. */
  ghost predicate Splits(v: Verdict, p: Pipeline, survives: bool) {
    (survives <==> p in v.accepted) && (survives <==> !Rejected(v, p))
  }

  ghost predicate SplitAt(ordered: seq<Pipeline>, i: nat)
    requires i < |ordered|
  {
    Splits(Attributed(ordered), ordered[i], Survives(ordered, i))
  }

  ghost predicate AllSplit(ordered: seq<Pipeline>) {
    forall i :: 0 <= i < |ordered| ==> SplitAt(ordered, i)
  }

  /** Acceptance and rejection are exactly survival and non-survival. */
  lemma {:induction false} SplitsBySurvival(ordered: seq<Pipeline>)
    requires UniqueIds(ordered) && AcceptedConsistent(ordered)
    ensures AllSplit(ordered)
  {
    if ordered != [] {
      var front := ordered[..|ordered| - 1];
      AcceptedPrefix(ordered);
      SplitsBySurvival(front);
      OneMoreSplits(front, ordered);
    }
  }

  lemma OneMoreSplits(front: seq<Pipeline>, ordered: seq<Pipeline>)
    requires ordered != [] && UniqueIds(ordered) && AcceptedConsistent(ordered)
    requires front == ordered[..|ordered| - 1] && AllSplit(front)
    ensures AllSplit(ordered)
  {
    assert ordered == front + [ordered[|front|]];
    SplitsAtLast(front, ordered[|front|], ordered);
    forall i | 0 <= i < |front| ensures SplitAt(ordered, i) {
      assert SplitAt(front, i);
      SplitsEarlier(ordered, i);
    }
  }


  lemma SplitsEarlier(ordered: seq<Pipeline>, i: nat)
    requires UniqueIds(ordered) && i < |ordered| - 1 && SplitAt(ordered[..|ordered| - 1], i)
    ensures SplitAt(ordered, i)
  {
    var n, survives := |ordered| - 1, Survives(ordered, i);
    SurvivesPrefix(ordered, n, i);
    var v := Attributed(ordered[..n]);
    assert Splits(v, ordered[i], survives);
    JudgingKeepsSplit(v, ordered[n], ordered[i], survives);
  }

  lemma JudgingKeepsSplit(v: Verdict, p: Pipeline, q: Pipeline, survives: bool)
    requires p.id != q.id && Splits(v, q, survives)
    ensures Splits(Judged(v, p), q, survives)
  {
    JudgingLeavesOthers(v, p, q);
  }

  lemma SplitsAtLast(front: seq<Pipeline>, p: Pipeline, ordered: seq<Pipeline>)
    requires ordered == front + [p] && UniqueIds(ordered) && AcceptedConsistent(ordered)
    requires forall j :: 0 <= j < |front| ==> SplitAt(front, j)
    ensures SplitAt(ordered, |front|)
  {
    var n, v := |front|, Attributed(front);
    assert ordered[..n] == front;
    AcceptedPrefix(ordered);
    AttributionSound(front);
    LastPipelineIsNew(front, p);
    ContestedMeansConflict(v, p);
    JudgingDecides(v, p);
    forall j | 0 <= j < n ensures Survives(ordered, j) <==> ordered[j] in v.accepted {
      SurvivesPrefix(ordered, n, j);
      assert SplitAt(front, j);
    }
    LastSurvives(ordered, v.accepted);
  }

  lemma LastSurvives(ordered: seq<Pipeline>, accepted: seq<Pipeline>)
    requires ordered != []
    requires forall j :: 0 <= j < |ordered| - 1 ==> (Survives(ordered, j) <==> ordered[j] in accepted)
    requires forall q :: q in accepted ==> q in ordered[..|ordered| - 1]
    ensures var n := |ordered| - 1;
            Survives(ordered, n) <==> forall q :: q in accepted ==> !Conflict(ordered[n], q)
  {
    var n := |ordered| - 1;
    if Survives(ordered, n) {
      forall q | q in accepted ensures !Conflict(ordered[n], q) {
        var j :| 0 <= j < n && ordered[..n][j] == q;
        assert Survives(ordered, j);
      }
    }
  }

  lemma JudgingLeavesOthers(v: Verdict, p: Pipeline, q: Pipeline)
    requires p != q
    ensures q in Judged(v, p).accepted <==> q in v.accepted
    ensures Rejected(Judged(v, p), q) <==> Rejected(v, q)
  {
    if Rejected(v, q) {
      var c :| c in v.victims && c.victim == q;
      assert c in Judged(v, p).victims;
    }
  }

  lemma JudgingDecides(v: Verdict, p: Pipeline)
    requires p !in v.accepted && forall c :: c in v.victims ==> c.victim != p
    ensures p in Judged(v, p).accepted <==> FirstContested(v.claims, Sort(FlatLess, p.Refs())).None?
    ensures Rejected(Judged(v, p), p) <==> FirstContested(v.claims, Sort(FlatLess, p.Refs())).Some?
  {
    var after := Judged(v, p).victims;
    if FirstContested(v.claims, Sort(FlatLess, p.Refs())).Some? {
      assert after[|after| - 1] in after;
    }
  }

  /** A reference is contested exactly when its pipeline conflicts with an accepted one. */
  lemma ContestedMeansConflict(v: Verdict, p: Pipeline)
    requires ClaimsMatch(v)
    ensures FirstContested(v.claims, Sort(FlatLess, p.Refs())).None? <==>
            forall q :: q in v.accepted ==> !Conflict(p, q)
  {
    var refs := Sort(FlatLess, p.Refs());
    if FirstContested(v.claims, refs).Some? {
      var r := FirstContested(v.claims, refs).value;
      assert ClaimHeld(v, r.flat);
      assert DisagreeOn(p, v.claims[r.flat].owner, r.flat, r.origin, v.claims[r.flat].origin);
      assert Disagree(p, v.claims[r.flat].owner, r.flat);
    } else {
      forall q, flat, a, b | q in v.accepted && Ref(flat, a) in p.Refs() && Ref(flat, b) in q.Refs() ensures a == b {
        assert !Contested(v.claims, Ref(flat, a));
        assert RefClaimed(v, q, Ref(flat, b));
      }
    }
  }

  lemma AcceptStep(v: Verdict, p: Pipeline)
    requires ClaimsMatch(v) && SelfConsistent(p)
    requires FirstContested(v.claims, Sort(FlatLess, p.Refs())).None?
    ensures ClaimsMatch(Judged(v, p))
  {
    var refs, after := Sort(FlatLess, p.Refs()), Judged(v, p);
    forall flat ensures ClaimHeld(after, flat) {
      ClaimedAt(v.claims, p, refs, flat);
      assert ClaimHeld(v, flat);
    }
    forall q, r | q in after.accepted && r in q.Refs() ensures RefClaimed(after, q, r) {
      ClaimedAt(v.claims, p, refs, r.flat);
      if q in v.accepted {
        assert RefClaimed(v, q, r);
      } else {
        assert r in refs && r.flat in FlatsOf(refs) && !Contested(v.claims, r);
        if r.flat !in v.claims {
          assert !DisagreeOn(p, p, r.flat, r.origin, after.claims[r.flat].origin) by { assert !Disagree(p, p, r.flat); }
        }
      }
    }
  }

  /** `c` names an older pipeline of the list that is not reported itself and disagrees on the named key. */
  ghost predicate NamesOlderSurvivor(ps: seq<Pipeline>, cs: seq<Collision>, c: Collision) {
    CreatedBefore(c.survivor, c.victim) && Justified(ps, c) && !Reported(cs, c.survivor)
  }

  ghost predicate Reported(cs: seq<Collision>, p: Pipeline) {
    exists c :: c in cs && c.victim == p
  }

  /** The whole attribution, for any list of pipelines that do not collide with themselves: who is
      reported is decided by the reference definition, and every report is justified. */
  lemma DetectionCorrect(ps: seq<Pipeline>)
    requires UniqueIds(ps) && AllSelfConsistent(ps) && Gathered(ps).Ok?
    ensures Detected(ps).Ok?
    ensures forall i :: 0 <= i < |Gathered(ps).value| ==>
              (Survives(Gathered(ps).value, i) <==> !Reported(Detected(ps).value, Gathered(ps).value[i]))
    ensures forall c :: c in Detected(ps).value ==> c.victim in ps && NamesOlderSurvivor(ps, Detected(ps).value, c)
  {
    GatheredProperties(ps);
    var ordered, cs := Gathered(ps).value, Detected(ps).value;
    var v := Attributed(ordered);
    AcceptedFromOrdered(ordered);
    if |ps| < 2 {
      FewPipelines(ps);
    } else {
      SortedVictims(v, cs);
      SplitsBySurvival(ordered);
      forall i | 0 <= i < |ordered| ensures Survives(ordered, i) <==> !Reported(cs, ordered[i]) {
        assert SplitAt(ordered, i);
      }
      AttributionSound(ordered);
      forall c | c in cs ensures c.victim in ps && NamesOlderSurvivor(ps, cs, c) {
        assert c in v.victims;
        VictimOlder(ordered, c);
        assert Justified(v.accepted, c) && c.survivor in ordered;
        var i :| 0 <= i < |ordered| && ordered[i] == c.survivor;
        assert SplitAt(ordered, i);
      }
    }
  }

  lemma SortedVictims(v: Verdict, cs: seq<Collision>)
    requires cs == Sort(VictimLess, v.victims)
    ensures forall p :: Reported(cs, p) <==> Rejected(v, p)
  {
  }

  lemma FewPipelines(ps: seq<Pipeline>)
    requires |ps| < 2 && Gathered(ps).Ok?
    ensures forall i :: 0 <= i < |Gathered(ps).value| ==> Survives(Gathered(ps).value, i)
  {
    var kept := Keep(HasRefs, ps);
    assert |Gathered(ps).value| == |multiset(Sort(Older, kept))| == |multiset(kept)| == |kept|;
  }

  /** The pipeline that justifies a rejection was visited before the rejected one. */
  lemma {:induction false} VictimOlder(ordered: seq<Pipeline>, c: Collision)
    requires UniqueIds(ordered) && AcceptedConsistent(ordered) && Sorted(Older, ordered)
    requires c in Attributed(ordered).victims
    ensures CreatedBefore(c.survivor, c.victim)
  {
    var n := |ordered| - 1;
    var front, p := ordered[..n], ordered[n];
    var v := Attributed(front);
    AcceptedPrefix(ordered);
    AttributionSound(front);
    PrefixInOrder(ordered);
    if c in v.victims {
      VictimOlder(front, c);
    } else {
      NewVictim(v, p, c);
      LastIsYoungest(ordered, c.survivor);
      OlderIsCreatedBefore(c.survivor, p);
    }
  }

  lemma PrefixInOrder(ordered: seq<Pipeline>)
    requires ordered != [] && UniqueIds(ordered) && Sorted(Older, ordered)
    ensures UniqueIds(ordered[..|ordered| - 1]) && Sorted(Older, ordered[..|ordered| - 1])
  {
  }

  lemma NewVictim(v: Verdict, p: Pipeline, c: Collision)
    requires ClaimsMatch(v) && c in Judged(v, p).victims && c !in v.victims
    ensures c.victim == p && c.survivor in v.accepted
  {
    var o := FirstContested(v.claims, Sort(FlatLess, p.Refs()));
    assert o.Some? && c == Collision(p, o.value.flat, v.claims[o.value.flat].owner);
    assert ClaimHeld(v, c.flat);
  }

  lemma LastIsYoungest(ordered: seq<Pipeline>, q: Pipeline)
    requires UniqueIds(ordered) && Sorted(Older, ordered) && ordered != [] && q in ordered[..|ordered| - 1]
    ensures Older(q, ordered[|ordered| - 1])
  {
    var n := |ordered| - 1;
    var i :| 0 <= i < n && ordered[i] == q;
    assert !Older(ordered[n], q) && q in ordered && ordered[n] in ordered;
    OlderOrders(ordered);
  }

  /** The report does not depend on how the pipelines were listed. */
  lemma DetectionIgnoresListing(ps: seq<Pipeline>, qs: seq<Pipeline>)
    requires UniqueIds(ps) && multiset(ps) == multiset(qs)
    ensures Detected(ps) == Detected(qs)
  {
    GatheredIgnoresListing(ps, qs);
    assert |ps| == |multiset(ps)| == |multiset(qs)| == |qs|;
  }

  /** The pipelines of the list that are not reported. */
  ghost predicate Spared(ps: seq<Pipeline>, survivors: seq<Pipeline>)
    requires Detected(ps).Ok?
  {
    forall p :: p in survivors <==> p in ps && !Reported(Detected(ps).value, p)
  }

  /** The pipelines that are not reported agree on every flat key exactly when none of them reads one of
      its own flat keys from two origins: the detector compares a pipeline only with older ones. */
  lemma SurvivorsCollisionFreeExactly(ps: seq<Pipeline>, survivors: seq<Pipeline>)
    requires UniqueIds(ps) && Gathered(ps).Ok? && Spared(ps, survivors)
    ensures CollisionFree(survivors) <==> AllSelfConsistent(survivors)
  {
    GatheredProperties(ps);
    var ordered := Gathered(ps).value;
    if AllSelfConsistent(survivors) {
      if |ps| >= 2 {
        AcceptedSpared(ordered);
        SortedVictims(Attributed(ordered), Detected(ps).value);
        SplitsBySurvival(ordered);
      } else {
        FewPipelines(ps);
      }
      forall p, q | p in survivors && q in survivors ensures !Conflict(p, q) {
        if HasRefs(p) && HasRefs(q) {
          var i :| 0 <= i < |ordered| && ordered[i] == p;
          var j :| 0 <= j < |ordered| && ordered[j] == q;
          assert |ps| >= 2 ==> SplitAt(ordered, i) && SplitAt(ordered, j);
          SurvivorsDiffer(ordered, i, j);
        }
      }
    }
  }

  lemma SurvivorsDiffer(ordered: seq<Pipeline>, i: nat, j: nat)
    requires i < |ordered| && j < |ordered| && Survives(ordered, i) && Survives(ordered, j)
    requires i == j ==> SelfConsistent(ordered[i])
    ensures !Conflict(ordered[i], ordered[j])
  {
    ConflictSymmetric(ordered[i], ordered[j]);
  }

  lemma {:induction false} AcceptedSpared(ordered: seq<Pipeline>)
    requires UniqueIds(ordered)
    ensures forall p :: p in Attributed(ordered).accepted ==> p in ordered && !Rejected(Attributed(ordered), p)
  {
    if ordered != [] {
      var front, p := ordered[..|ordered| - 1], ordered[|ordered| - 1];
      AcceptedSpared(front);
      AcceptedFromOrdered(front);
      AcceptedFromOrdered(ordered);
      assert p !in front;
      var v := Attributed(front);
      JudgingDecides(v, p);
      forall q | q in v.accepted ensures !Rejected(Attributed(ordered), q) {
        JudgingLeavesOthers(v, p, q);
      }
    }
  }

  lemma ConflictSymmetric(p: Pipeline, q: Pipeline)
    ensures Conflict(p, q) ==> Conflict(q, p)
  {
    if Conflict(p, q) {
      var flat :| Disagree(p, q, flat);
      var a, b :| DisagreeOn(p, q, flat, a, b);
      assert DisagreeOn(q, p, flat, b, a);
      assert Disagree(q, p, flat);
    }
  }
}
