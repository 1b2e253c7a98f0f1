/** Attribution of size-budget overflows: which pipelines fit together in one assets Secret. */
module SizeBudget {
  import opened Outcomes
  import opened Ordering
  import opened Totals
  import opened SecretRefs
  import opened Staging

  /** Both limits at once: the sum of the values, and the modelled size of the whole object. */
  ghost predicate Fits(w: World, data: Data) {
    FitsValues(data) && FitsObject(w, data)
  }

  ghost predicate FitsValues(data: Data) {
    Total(data, ByteLength) <= MAX_SECRET_SIZE
  }

  ghost predicate FitsObject(w: World, data: Data) {
    w.base + Total(data, w.entry) <= SECRET_ASSETS_OBJECT_BUDGET
  }

  /** Why a pipeline is left out: what older pipelines already committed and what it would have added,
      in value bytes and, when the values fit but the object does not, in modelled object bytes. */
  datatype Exclusion =
    | OverValues(victim: Pipeline, committed: nat, adds: nat)
    | OverObject(victim: Pipeline, committed: nat, adds: nat, committedObject: nat, addsObject: nat)

  /** The pipelines taken so far, the data they occupy (one entry per flat key), and those left out. */
  datatype Packing = Packing(data: Data, taken: seq<Pipeline>, excluded: seq<Exclusion>)

  predicate ExclusionLess(e: Exclusion, f: Exclusion) {
    Less(e.victim.id, f.victim.id)
  }

  /** Decides one pipeline: it is charged only for keys no taken pipeline already occupies. */
  ghost function PackOne(w: World, pk: Packing, p: Pipeline): Result<Packing, Failure> {
    var own :- Staged(w, p.Refs(), pk.data.Keys);
    var committed, adds := Total(pk.data, ByteLength), Total(own, ByteLength);
    var committedObject, addsObject := w.base + Total(pk.data, w.entry), Total(own, w.entry);
    if committed + adds > MAX_SECRET_SIZE then
      Ok(pk.(excluded := pk.excluded + [OverValues(p, committed, adds)]))
    else if committedObject + addsObject > SECRET_ASSETS_OBJECT_BUDGET then
      Ok(pk.(excluded := pk.excluded + [OverObject(p, committed, adds, committedObject, addsObject)]))
    else
      Ok(Packing(pk.data + own, pk.taken + [p], pk.excluded))
  }

  ghost function Packed(w: World, ordered: seq<Pipeline>): Result<Packing, Failure> {
    if ordered == [] then Ok(Packing(map[], [], []))
    else
      var pk :- Packed(w, ordered[..|ordered| - 1]);
      PackOne(w, pk, ordered[|ordered| - 1])
  }

  ghost function Overflows(w: World, ps: seq<Pipeline>): Result<seq<Exclusion>, Failure> {
    var ordered :- Gathered(ps);
    var pk :- Packed(w, ordered);
    Ok(Sort(ExclusionLess, pk.excluded))
  }

  lemma PackedStep(w: World, ordered: seq<Pipeline>, i: nat)
    requires i < |ordered| && Packed(w, ordered[..i]).Ok?
    ensures Packed(w, ordered[..i + 1]) == PackOne(w, Packed(w, ordered[..i]).value, ordered[i])
  {
    assert ordered[..i + 1][..i] == ordered[..i];
  }

  /** The detector with its running totals; it never measures the accepted data again. */
  method DetectSecretSizeOverflow(w: World, ps: seq<Pipeline>) returns (r: Result<seq<Exclusion>, Failure>)
    ensures r == Overflows(w, ps)
  {
    if |ps| == 0 {
      return Ok([]);
    }
    var gathered := Gather(ps);
    if gathered.Err? {
      return Err(gathered.error);
    }
    var exclusions := PackOldestFirst(w, gathered.value);
    if exclusions.Err? {
      return Err(exclusions.error);
    }
    return Ok(Sort(ExclusionLess, exclusions.value));
  }

  /** What taking a pipeline adds to the running totals, or why it is left out. */
  datatype Charge = Taken(keys: set<string>, adds: nat, addsObject: nat) | Left(exclusion: Exclusion)

  /** The running totals describe the packing. */
  ghost predicate Tracks(w: World, pk: Packing, accepted: set<string>, total: nat, objectTotal: nat) {
    accepted == pk.data.Keys && total == Total(pk.data, ByteLength) && objectTotal == w.base + Total(pk.data, w.entry)
  }

  ghost predicate ChargeMatches(w: World, pk: Packing, p: Pipeline, c: Charge) {
    var after := PackOne(w, pk, p);
    && after.Ok?
    && match c
       case Left(e) => after.value == pk.(excluded := pk.excluded + [e])
       case Taken(keys, adds, addsObject) =>
         && after.value.taken == pk.taken + [p] && after.value.excluded == pk.excluded
         && after.value.data.Keys == pk.data.Keys + keys
         && Total(after.value.data, ByteLength) == Total(pk.data, ByteLength) + adds
         && Total(after.value.data, w.entry) == Total(pk.data, w.entry) + addsObject
  }

  method Weigh(w: World, p: Pipeline, accepted: set<string>, total: nat, objectTotal: nat, ghost pk: Packing)
    returns (r: Result<Charge, Failure>)
    requires Tracks(w, pk, accepted, total, objectTotal)
    ensures r.Err? ==> PackOne(w, pk, p) == Err(r.error)
    ensures r.Ok? ==> ChargeMatches(w, pk, p, r.value)
  {
    var staged := Stage(w, p.Refs(), accepted);
    if staged.Err? {
      return Err(staged.error);
    }
    var own := staged.value;
    StagedNextTo(w, pk.data, p);
    var marginal := Measure(own, ByteLength);
    var objectMarginal := Measure(own, w.entry);
    if total + marginal > MAX_SECRET_SIZE {
      return Ok(Left(OverValues(p, total, marginal)));
    }
    if objectTotal + objectMarginal > SECRET_ASSETS_OBJECT_BUDGET {
      return Ok(Left(OverObject(p, total, marginal, objectTotal, objectMarginal)));
    }
    return Ok(Taken(own.Keys, marginal, objectMarginal));
  }

  method PackOldestFirst(w: World, ordered: seq<Pipeline>) returns (r: Result<seq<Exclusion>, Failure>)
    ensures r == match Packed(w, ordered) case Ok(pk) => Ok(pk.excluded) case Err(e) => Err(e)
  {
    var accepted: set<string> := {};
    var total: nat, objectTotal: nat := 0, w.base;
    var exclusions: seq<Exclusion> := [];
    ghost var pk := Packing(map[], [], []);
    for i := 0 to |ordered|
      invariant Packed(w, ordered[..i]) == Ok(pk)
      invariant Tracks(w, pk, accepted, total, objectTotal) && exclusions == pk.excluded
    {
      PackedStep(w, ordered, i);
      var charge := Weigh(w, ordered[i], accepted, total, objectTotal, pk);
      if charge.Err? {
        PackedFails(w, ordered, i + 1);
        return Err(charge.error);
      }
      pk := PackOne(w, pk, ordered[i]).value;
      match charge.value
      case Left(e) =>
        exclusions := exclusions + [e];
      case Taken(keys, adds, addsObject) =>
        total, objectTotal := total + adds, objectTotal + addsObject;
        accepted := accepted + keys;
    }
    assert ordered[..|ordered|] == ordered;
    return Ok(exclusions);
  }

  lemma {:induction false} PackedFails(w: World, ordered: seq<Pipeline>, n: nat)
    requires n <= |ordered| && Packed(w, ordered[..n]).Err?
    ensures Packed(w, ordered) == Err(Packed(w, ordered[..n]).error)
  {
    if n < |ordered| {
      var front := ordered[..|ordered| - 1];
      assert front[..n] == ordered[..n];
      PackedFails(w, front, n);
    } else {
      assert ordered[..n] == ordered;
    }
  }

  /** What `p` would add next to the data of the pipelines taken before it. */
  ghost function Added(w: World, data: Data, p: Pipeline): Data {
    match Staged(w, p.Refs(), data.Keys)
    case Ok(own) => own
    case Err(_) => map[]
  }

  /** The reported numbers are true measurements, and the named budget, and only it in the values
      case first, is breached next to `data`. */
  ghost predicate Breaches(w: World, data: Data, e: Exclusion) {
    var union := data + Added(w, data, e.victim);
    && e.committed == Total(data, ByteLength)
    && e.committed + e.adds == Total(union, ByteLength)
    && match e
       case OverValues(_, _, _) => !FitsValues(union)
       case OverObject(_, _, _, committedObject, addsObject) =>
         && FitsValues(union) && !FitsObject(w, union)
         && committedObject == w.base + Total(data, w.entry)
         && committedObject + addsObject == w.base + Total(union, w.entry)
  }

  lemma StagedNextTo(w: World, data: Data, p: Pipeline)
    requires Staged(w, p.Refs(), data.Keys).Ok?
    ensures var own := Staged(w, p.Refs(), data.Keys).value;
            && own == Added(w, data, p)
            && Total(data + own, ByteLength) == Total(data, ByteLength) + Total(own, ByteLength)
            && Total(data + own, w.entry) == Total(data, w.entry) + Total(own, w.entry)
  {
    StagedSound(w, p.Refs(), data.Keys);
    var own := Staged(w, p.Refs(), data.Keys).value;
    TotalDisjointUnion(data, own, ByteLength);
    TotalDisjointUnion(data, own, w.entry);
  }

  /** The oldest-first greedy choice at position `i`: taken exactly when it fits next to everything
      taken before it, excluded otherwise with a true account of the breach; either way the
      pipelines before it are decided as if it were not there. */
  lemma {:induction false} PackingDecides(w: World, ordered: seq<Pipeline>, i: nat)
    requires i < |ordered| && Packed(w, ordered).Ok?
    ensures Packed(w, ordered[..i]).Ok? && Packed(w, ordered[..i + 1]).Ok?
    ensures var before, after, p := Packed(w, ordered[..i]).value, Packed(w, ordered[..i + 1]).value, ordered[i];
            var union := before.data + Added(w, before.data, p);
            if Fits(w, union) then
              after == Packing(union, before.taken + [p], before.excluded)
            else
              && after.data == before.data && after.taken == before.taken
              && |after.excluded| == |before.excluded| + 1
              && after.excluded[..|before.excluded|] == before.excluded
              && after.excluded[|before.excluded|].victim == p
              && Breaches(w, before.data, after.excluded[|before.excluded|])
  {
    if Packed(w, ordered[..i + 1]).Err? {
      PackedFails(w, ordered, i + 1);
    }
    if Packed(w, ordered[..i]).Err? {
      PackedFails(w, ordered, i);
    }
    assert ordered[..i + 1][..i] == ordered[..i];
    StagedNextTo(w, Packed(w, ordered[..i]).value.data, ordered[i]);
  }

  /** The accepted data never leaves either budget, one entry per distinct flat key being charged;
      the only way to miss the object budget is for the empty Secret to miss it already. */
  lemma {:induction false} PackedFits(w: World, ordered: seq<Pipeline>)
    requires Packed(w, ordered).Ok?
    ensures FitsValues(Packed(w, ordered).value.data)
    ensures FitsObject(w, Packed(w, ordered).value.data) <==> w.base <= SECRET_ASSETS_OBJECT_BUDGET
    ensures w.base > SECRET_ASSETS_OBJECT_BUDGET ==> Packed(w, ordered).value.taken == []
  {
    if ordered != [] {
      var n := |ordered| - 1;
      PackingDecides(w, ordered, n);
      PackedFits(w, ordered[..n]);
      assert ordered[..n + 1] == ordered;
    }
  }

  ghost predicate Excluded(es: seq<Exclusion>, p: Pipeline) {
    exists e :: e in es && e.victim == p
  }

  ghost predicate Divides(pk: Packing, ordered: seq<Pipeline>) {
    && (forall p :: p in ordered ==> (p in pk.taken <==> !Excluded(pk.excluded, p)))
    && (forall p :: p in pk.taken ==> p in ordered)
    && (forall e :: e in pk.excluded ==> e.victim in ordered)
  }

  lemma {:induction false} PackedDivides(w: World, ordered: seq<Pipeline>)
    requires UniqueIds(ordered) && Packed(w, ordered).Ok?
    ensures Divides(Packed(w, ordered).value, ordered)
  {
    if ordered != [] {
      var n := |ordered| - 1;
      var front, p := ordered[..n], ordered[n];
      PackedDivides(w, front);
      assert p !in front;
      DivideStep(w, Packed(w, front).value, front, p);
      assert ordered == front + [p];
    }
  }

  lemma DivideStep(w: World, pk: Packing, front: seq<Pipeline>, p: Pipeline)
    requires Divides(pk, front) && p !in front && PackOne(w, pk, p).Ok?
    ensures Divides(PackOne(w, pk, p).value, front + [p])
  {
    var after := PackOne(w, pk, p).value;
    forall q | q in front + [p] ensures q in after.taken <==> !Excluded(after.excluded, q) {
      if q == p {
        if after.excluded != pk.excluded {
          assert after.excluded[|pk.excluded|] in after.excluded;
        }
      } else {
        if Excluded(pk.excluded, q) {
          var e :| e in pk.excluded && e.victim == q;
          assert e in after.excluded;
        }
      }
    }
  }

  /** Every key of a taken pipeline is in the packed data. */
  lemma {:induction false} TakenKeysPacked(w: World, ordered: seq<Pipeline>, p: Pipeline)
    requires Packed(w, ordered).Ok? && p in Packed(w, ordered).value.taken
    ensures p.Flats() <= Packed(w, ordered).value.data.Keys
  {
    var n := |ordered| - 1;
    var front := Packed(w, ordered[..n]).value;
    if p in front.taken {
      TakenKeysPacked(w, ordered[..n], p);
    } else {
      StagedSound(w, p.Refs(), front.data.Keys);
    }
  }

  /** The report does not depend on how the pipelines were listed. */
  lemma OverflowsIgnoreListing(w: World, ps: seq<Pipeline>, qs: seq<Pipeline>)
    requires UniqueIds(ps) && multiset(ps) == multiset(qs)
    ensures Overflows(w, ps) == Overflows(w, qs)
  {
    GatheredIgnoresListing(ps, qs);
  }

  /** Packed data holds, under each key of a taken pipeline, a value some taken pipeline reads. */
  lemma {:induction false} PackedReads(w: World, ordered: seq<Pipeline>, k: string)
    requires Packed(w, ordered).Ok? && k in Packed(w, ordered).value.data
    ensures ReadsFrom(w, AllRefs(Packed(w, ordered).value.taken), k, Packed(w, ordered).value.data[k])
  {
    if ordered != [] {
      var n := |ordered| - 1;
      var before := Packed(w, ordered[..n]).value;
      if k in before.data {
        PackedReads(w, ordered[..n], k);
      }
      PackOneReads(w, before, ordered[n], k);
    }
  }

  lemma PackOneReads(w: World, before: Packing, p: Pipeline, k: string)
    requires PackOne(w, before, p).Ok? && k in PackOne(w, before, p).value.data
    requires k in before.data ==> ReadsFrom(w, AllRefs(before.taken), k, before.data[k])
    ensures ReadsFrom(w, AllRefs(PackOne(w, before, p).value.taken), k, PackOne(w, before, p).value.data[k])
  {
    var after := PackOne(w, before, p).value;
    PackOneShape(w, before, p);
    if after.taken != before.taken {
      var own := Staged(w, p.Refs(), before.data.Keys).value;
      StagedSound(w, p.Refs(), before.data.Keys);
      AllRefsAppend(before.taken, p);
      UnionReads(w, before.data, own, AllRefs(before.taken), p.Refs(), k);
    }
  }

  lemma PackOneShape(w: World, before: Packing, p: Pipeline)
    requires PackOne(w, before, p).Ok?
    ensures Staged(w, p.Refs(), before.data.Keys).Ok?
    ensures var after := PackOne(w, before, p).value;
            || (after.taken == before.taken && after.data == before.data)
            || (after.taken == before.taken + [p] && after.data == before.data + Staged(w, p.Refs(), before.data.Keys).value)
  {
  }

  lemma UnionReads(w: World, data: Data, own: Data, a: seq<Ref>, b: seq<Ref>, k: string)
    requires k in data + own
    requires k in own ==> ReadsFrom(w, b, k, own[k])
    requires k in data && k !in own ==> ReadsFrom(w, a, k, data[k])
    ensures ReadsFrom(w, a + b, k, (data + own)[k])
  {
    var refs := if k in own then b else a;
    var r :| r in refs && r.flat == k && ValueOf(w, r.origin) == Ok((data + own)[k]);
    assert r in a + b;
  }

  /** For pipelines that do not collide, the packed data is exactly what a build of the taken
      pipelines would resolve to. */
  lemma PackedIsTarget(w: World, ordered: seq<Pipeline>)
    requires Packed(w, ordered).Ok? && CollisionFree(Packed(w, ordered).value.taken)
    requires Resolved(w, AllRefs(Packed(w, ordered).value.taken)).Ok?
    ensures Packed(w, ordered).value.data == Resolved(w, AllRefs(Packed(w, ordered).value.taken)).value.data
  {
    var data, target := Packed(w, ordered).value.data, Resolved(w, AllRefs(Packed(w, ordered).value.taken)).value.data;
    forall k ensures (k in data <==> k in target) && (k in data ==> target[k] == data[k]) {
      PackedKeyInTarget(w, ordered, k);
      TargetKeyPacked(w, ordered, k);
    }
  }

  lemma PackedKeyInTarget(w: World, ordered: seq<Pipeline>, k: string)
    requires Packed(w, ordered).Ok? && Resolved(w, AllRefs(Packed(w, ordered).value.taken)).Ok?
    ensures var data, target := Packed(w, ordered).value.data, Resolved(w, AllRefs(Packed(w, ordered).value.taken)).value.data;
            k in data ==> k in target && target[k] == data[k]
  {
    var data, refs := Packed(w, ordered).value.data, AllRefs(Packed(w, ordered).value.taken);
    if k in data {
      ResolvedSound(w, refs);
      PackedReads(w, ordered, k);
      var r :| r in refs && r.flat == k && ValueOf(w, r.origin) == Ok(data[k]);
      assert HoldsRef(w, Resolved(w, refs).value, r);
    }
  }

  lemma TargetKeyPacked(w: World, ordered: seq<Pipeline>, k: string)
    requires Packed(w, ordered).Ok? && Resolved(w, AllRefs(Packed(w, ordered).value.taken)).Ok?
    ensures k in Resolved(w, AllRefs(Packed(w, ordered).value.taken)).value.data ==> k in Packed(w, ordered).value.data
  {
    var taken := Packed(w, ordered).value.taken;
    var refs := AllRefs(taken);
    if k in Resolved(w, refs).value.data {
      ResolvedSound(w, refs);
      var r :| r in refs && r.flat == k;
      var p :| p in taken && r in p.Refs();
      TakenKeysPacked(w, ordered, p);
    }
  }
}
