/** Reading the values behind references: what one pipeline would stage, and what a whole config
    resolves to. */
module Staging {
  import opened Outcomes
  import opened Totals
  import opened SecretRefs

  /** The values of the references whose flat key is not skipped, the first occurrence of a key counting. */
  function Staged(w: World, refs: seq<Ref>, skip: set<string>): Result<Data, Failure> {
    if refs == [] then Ok(map[])
    else
      var staged :- Staged(w, refs[..|refs| - 1], skip);
      var r := refs[|refs| - 1];
      if r.flat in skip || r.flat in staged then Ok(staged)
      else
        var value :- ValueOf(w, r.origin);
        Ok(staged[r.flat := value])
  }

  method Stage(w: World, refs: seq<Ref>, skip: set<string>) returns (r: Result<Data, Failure>)
    ensures r == Staged(w, refs, skip)
  {
    var staged: Data := map[];
    for i := 0 to |refs|
      invariant Staged(w, refs[..i], skip) == Ok(staged)
    {
      assert refs[..i + 1][..i] == refs[..i];
      if refs[i].flat !in skip && refs[i].flat !in staged {
        var value := ValueOf(w, refs[i].origin);
        if value.Err? {
          StagedFails(w, refs, skip, i + 1);
          return Err(value.error);
        }
        staged := staged[refs[i].flat := value.value];
      }
    }
    assert refs[..|refs|] == refs;
    return Ok(staged);
  }

  lemma {:induction false} StagedFails(w: World, refs: seq<Ref>, skip: set<string>, n: nat)
    requires n <= |refs| && Staged(w, refs[..n], skip).Err?
    ensures Staged(w, refs, skip) == Staged(w, refs[..n], skip)
  {
    if n < |refs| {
      var front := refs[..|refs| - 1];
      assert front[..n] == refs[..n];
      StagedFails(w, front, skip, n);
    } else {
      assert refs[..n] == refs;
    }
  }

  ghost predicate StagesExactly(w: World, refs: seq<Ref>, skip: set<string>, m: Data) {
    && m.Keys == FlatsOf(refs) - skip
    && forall k :: k in m ==> ReadsFrom(w, refs, k, m[k])
  }

  /** A staged entry is the value of a reference; on success no key is missing. */
  lemma {:induction false} StagedSound(w: World, refs: seq<Ref>, skip: set<string>)
    requires Staged(w, refs, skip).Ok?
    ensures StagesExactly(w, refs, skip, Staged(w, refs, skip).value)
  {
    if refs != [] {
      var front, r := refs[..|refs| - 1], refs[|refs| - 1];
      assert refs == front + [r];
      StagedUnfolds(w, front, r, skip);
      StagedSound(w, front, skip);
      var before := Staged(w, front, skip).value;
      if r.flat in skip || r.flat in before {
        SkippedStep(w, front, r, skip, before);
      } else {
        AddedStep(w, front, r, skip, before, ValueOf(w, r.origin).value);
      }
    }
  }

  lemma StagedUnfolds(w: World, front: seq<Ref>, last: Ref, skip: set<string>)
    requires Staged(w, front + [last], skip).Ok?
    ensures Staged(w, front, skip).Ok?
    ensures var before := Staged(w, front, skip).value;
            if last.flat in skip || last.flat in before then Staged(w, front + [last], skip) == Ok(before)
            else (&& ValueOf(w, last.origin).Ok?
                  && Staged(w, front + [last], skip) == Ok(before[last.flat := ValueOf(w, last.origin).value]))
  {
    assert (front + [last])[..|front|] == front;
  }

  lemma SkippedStep(w: World, front: seq<Ref>, last: Ref, skip: set<string>, before: Data)
    requires StagesExactly(w, front, skip, before) && (last.flat in skip || last.flat in before)
    ensures StagesExactly(w, front + [last], skip, before)
  {
    FlatsAppend(front, last);
    forall k | k in before ensures ReadsFrom(w, front + [last], k, before[k]) {
      ReadsFromMore(w, front, last, k, before[k]);
    }
  }

  lemma AddedStep(w: World, front: seq<Ref>, last: Ref, skip: set<string>, before: Data, value: Value)
    requires StagesExactly(w, front, skip, before) && last.flat !in skip && ValueOf(w, last.origin) == Ok(value)
    ensures StagesExactly(w, front + [last], skip, before[last.flat := value])
  {
    FlatsAppend(front, last);
    assert last in front + [last];
    forall k | k in before ensures ReadsFrom(w, front + [last], k, before[k]) {
      ReadsFromMore(w, front, last, k, before[k]);
    }
  }

  lemma ReadsFromMore(w: World, front: seq<Ref>, last: Ref, flat: string, value: Value)
    requires ReadsFrom(w, front, flat, value)
    ensures ReadsFrom(w, front + [last], flat, value)
  {
    var s :| s in front && s.flat == flat && ValueOf(w, s.origin) == Ok(value);
    assert s in front + [last];
  }

  /** `value` is what some reference with this flat key reads. */
  ghost predicate ReadsFrom(w: World, refs: seq<Ref>, flat: string, value: Value) {
    exists r :: r in refs && r.flat == flat && ValueOf(w, r.origin) == Ok(value)
  }

  /** Each flat key means one origin. */
  ghost predicate Agree(refs: seq<Ref>) {
    forall r, s :: r in refs && s in refs && r.flat == s.flat ==> r.origin == s.origin
  }

  ghost predicate AllReadable(w: World, refs: seq<Ref>) {
    forall r :: r in refs ==> ValueOf(w, r.origin).Ok?
  }

  datatype Resolution = Resolution(data: Data, origins: map<string, Origin>)

  /** Adds one reference, refusing a flat key that already has another origin. */
  function ResolvedOne(w: World, res: Resolution, r: Ref): Result<Resolution, Failure> {
    if r.flat in res.origins && res.origins[r.flat] != r.origin then Err(Collides(r.flat))
    else
      var value :- ValueOf(w, r.origin);
      Ok(Resolution(res.data[r.flat := value], res.origins[r.flat := r.origin]))
  }

  /** Resolution of a config's references, in order. */
  function Resolved(w: World, refs: seq<Ref>): Result<Resolution, Failure> {
    if refs == [] then Ok(Resolution(map[], map[]))
    else
      var res :- Resolved(w, refs[..|refs| - 1]);
      ResolvedOne(w, res, refs[|refs| - 1])
  }

  method ResolvePendingSecrets(w: World, refs: seq<Ref>) returns (r: Result<Data, Failure>)
    ensures Resolved(w, refs).Ok? ==> r == Ok(Resolved(w, refs).value.data)
    ensures Resolved(w, refs).Err? ==> r == Err(Resolved(w, refs).error)
  {
    var data: Data := map[];
    var origins: map<string, Origin> := map[];
    for i := 0 to |refs|
      invariant Resolved(w, refs[..i]) == Ok(Resolution(data, origins))
    {
      assert refs[..i + 1][..i] == refs[..i];
      var ref := refs[i];
      if ref.flat in origins {
        if origins[ref.flat] != ref.origin {
          ResolvedFails(w, refs, i + 1);
          return Err(Collides(ref.flat));
        }
      } else {
        origins := origins[ref.flat := ref.origin];
      }
      var value := ValueOf(w, ref.origin);
      if value.Err? {
        ResolvedFails(w, refs, i + 1);
        return Err(value.error);
      }
      assert origins == Resolved(w, refs[..i]).value.origins[ref.flat := ref.origin];
      data := data[ref.flat := value.value];
    }
    assert refs[..|refs|] == refs;
    return Ok(data);
  }

  lemma {:induction false} ResolvedFails(w: World, refs: seq<Ref>, n: nat)
    requires n <= |refs| && Resolved(w, refs[..n]).Err?
    ensures Resolved(w, refs) == Resolved(w, refs[..n])
  {
    if n < |refs| {
      var front := refs[..|refs| - 1];
      assert front[..n] == refs[..n];
      ResolvedFails(w, front, n);
    } else {
      assert refs[..n] == refs;
    }
  }

  /** `res` holds exactly the references' own values and origins. */
  ghost predicate Holds(w: World, refs: seq<Ref>, res: Resolution) {
    && res.data.Keys == FlatsOf(refs) == res.origins.Keys
    && forall r :: r in refs ==> HoldsRef(w, res, r)
  }

  ghost predicate HoldsRef(w: World, res: Resolution, r: Ref) {
    && r.flat in res.data && r.flat in res.origins
    && res.origins[r.flat] == r.origin && ValueOf(w, r.origin) == Ok(res.data[r.flat])
  }

  /** On success every reference has its own source's value under its flat key, and nothing else is there. */
  lemma {:induction false} ResolvedSound(w: World, refs: seq<Ref>)
    requires Resolved(w, refs).Ok?
    ensures Holds(w, refs, Resolved(w, refs).value)
  {
    if refs != [] {
      var front, last := refs[..|refs| - 1], refs[|refs| - 1];
      ResolvedSound(w, front);
      assert refs == front + [last];
      HoldsStep(w, front, Resolved(w, front).value, last);
    }
  }

  lemma HoldsStep(w: World, front: seq<Ref>, res: Resolution, last: Ref)
    requires Holds(w, front, res) && ResolvedOne(w, res, last).Ok?
    ensures Holds(w, front + [last], ResolvedOne(w, res, last).value)
  {
    var after := ResolvedOne(w, res, last).value;
    forall r | r in front + [last] ensures HoldsRef(w, after, r) {
      assert r in front ==> HoldsRef(w, res, r);
    }
    FlatsAppend(front, last);
  }

  lemma FlatsAppend(front: seq<Ref>, last: Ref)
    ensures FlatsOf(front + [last]) == FlatsOf(front) + {last.flat}
  {
    assert last in front + [last];
  }

  /** Resolution succeeds exactly when flat keys are unambiguous and every value can be read; it
      reports a collision only when they are ambiguous. */
  lemma {:induction false} ResolvedExactly(w: World, refs: seq<Ref>)
    ensures Resolved(w, refs).Ok? <==> Agree(refs) && AllReadable(w, refs)
    ensures Resolved(w, refs).Err? ==> if Resolved(w, refs).error.Collides? then !Agree(refs) else Resolved(w, refs).error.Local()
  {
    if refs != [] {
      var front, last := refs[..|refs| - 1], refs[|refs| - 1];
      ResolvedExactly(w, front);
      assert refs == front + [last];
      AgreeAppend(front, last);
      ReadableAppend(w, front, last);
      if Resolved(w, front).Ok? {
        ResolvedSound(w, front);
        ContestedExactly(w, front, Resolved(w, front).value, last);
      }
    }
  }

  lemma AgreeAppend(front: seq<Ref>, last: Ref)
    ensures Agree(front + [last]) <==> Agree(front) && forall r :: r in front && r.flat == last.flat ==> r.origin == last.origin
  {
    assert last in front + [last];
    assert forall r :: r in front ==> r in front + [last];
  }

  lemma ReadableAppend(w: World, front: seq<Ref>, last: Ref)
    ensures AllReadable(w, front + [last]) <==> AllReadable(w, front) && ValueOf(w, last.origin).Ok?
  {
    assert last in front + [last];
    assert forall r :: r in front ==> r in front + [last];
  }

  lemma ContestedExactly(w: World, front: seq<Ref>, res: Resolution, last: Ref)
    requires Holds(w, front, res)
    ensures last.flat in res.origins && res.origins[last.flat] != last.origin <==>
            exists r :: r in front && r.flat == last.flat && r.origin != last.origin
  {
    if last.flat in res.origins {
      var r :| r in front && r.flat == last.flat;
      assert HoldsRef(w, res, r);
    }
    forall r | r in front && r.flat == last.flat ensures r.origin == res.origins[last.flat] {
      assert HoldsRef(w, res, r);
    }
  }

  /** The references of a list of pipelines, in list order. */
  function AllRefs(ps: seq<Pipeline>): (refs: seq<Ref>)
    ensures forall r :: r in refs <==> exists p :: p in ps && r in p.Refs()
  {
    if ps == [] then [] else
      assert ps == ps[..|ps| - 1] + [ps[|ps| - 1]];
      AllRefs(ps[..|ps| - 1]) + ps[|ps| - 1].Refs()
  }

  lemma AllRefsAppend(ps: seq<Pipeline>, p: Pipeline)
    ensures AllRefs(ps + [p]) == AllRefs(ps) + p.Refs()
  {
    assert (ps + [p])[..|ps|] == ps;
  }

  /** Collision-free pipelines are exactly those whose merged references agree. */
  lemma CollisionFreeMeansAgree(ps: seq<Pipeline>)
    ensures CollisionFree(ps) <==> Agree(AllRefs(ps))
  {
    var refs := AllRefs(ps);
    if CollisionFree(ps) {
      forall r, s | r in refs && s in refs && r.flat == s.flat ensures r.origin == s.origin {
        var p :| p in ps && r in p.Refs();
        var q :| q in ps && s in q.Refs();
        assert !Disagree(p, q, r.flat) by { assert !Conflict(p, q); }
        assert !DisagreeOn(p, q, r.flat, r.origin, s.origin);
      }
    }
    if Agree(refs) {
      forall p, q, flat, a, b | p in ps && q in ps && Ref(flat, a) in p.Refs() && Ref(flat, b) in q.Refs()
        ensures a == b
      {
        assert Ref(flat, a) in refs && Ref(flat, b) in refs;
      }
    }
  }

  /** The build of a collision-free list never reports a collision, whatever the Secrets hold; it fails
      only on data that cannot be read. */
  lemma SurvivorsResolve(w: World, ps: seq<Pipeline>)
    requires CollisionFree(ps)
    ensures Resolved(w, AllRefs(ps)).Ok? <==> AllReadable(w, AllRefs(ps))
    ensures Resolved(w, AllRefs(ps)).Err? ==> Resolved(w, AllRefs(ps)).error.Local()
  {
    CollisionFreeMeansAgree(ps);
    ResolvedExactly(w, AllRefs(ps));
  }

  ghost predicate Submap(a: Data, b: Data) {
    forall k :: k in a ==> k in b && b[k] == a[k]
  }

  /** What a pipeline stages is part of what any resolved list containing it resolves to. */
  lemma StagedIsPartOfTarget(w: World, ps: seq<Pipeline>, p: Pipeline)
    requires p in ps && Resolved(w, AllRefs(ps)).Ok?
    ensures Staged(w, p.Refs(), {}).Ok?
    ensures Submap(Staged(w, p.Refs(), {}).value, Resolved(w, AllRefs(ps)).value.data)
  {
    var refs, target := AllRefs(ps), Resolved(w, AllRefs(ps)).value.data;
    ResolvedSound(w, refs);
    assert forall r :: r in p.Refs() ==> r in refs;
    StagedSucceeds(w, p.Refs(), {});
    StagedSound(w, p.Refs(), {});
    var m := Staged(w, p.Refs(), {}).value;
    forall k | k in m ensures k in target && target[k] == m[k] {
      assert ReadsFrom(w, p.Refs(), k, m[k]);
      var r :| r in p.Refs() && r.flat == k && ValueOf(w, r.origin) == Ok(m[k]);
      assert r in refs;
    }
  }

  lemma {:induction false} StagedSucceeds(w: World, refs: seq<Ref>, skip: set<string>)
    requires AllReadable(w, refs)
    ensures Staged(w, refs, skip).Ok?
  {
    if refs != [] {
      var front := refs[..|refs| - 1];
      assert forall r :: r in front ==> r in refs;
      assert refs[|refs| - 1] in refs;
      StagedSucceeds(w, front, skip);
    }
  }
}
