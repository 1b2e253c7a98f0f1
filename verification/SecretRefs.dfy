/** Pipelines as the secret allocator sees them: an identity, an age and the references found in
    their options. */
module SecretRefs {
  import opened Outcomes
  import opened Ordering
  import opened Totals

  /** Where a value is read from. */
  datatype Origin = Origin(ns: string, secret: string, key: string)

  /** A generated flat key and the origin it stands for. */
  datatype Ref = Ref(flat: string, origin: Origin)

  /** Result of scanning a pipeline's options: its references, or a structural error. */
  datatype Scan = Scanned(refs: seq<Ref>) | Malformed

  datatype Pipeline = Pipeline(id: string, created: int, scan: Scan) {

    function Refs(): seq<Ref> {
      if scan.Scanned? then scan.refs else []
    }

    ghost function Flats(): set<string> {
      FlatsOf(Refs())
    }
  }

  datatype Failure =
    | MalformedSpec
    | MissingSecret(origin: Origin)
    | MissingKey(origin: Origin)
    | UnsafeValue(origin: Origin)
    | Collides(flat: string)
  {
    /** A failure to read one pipeline's own data: it says nothing about the other pipelines. */
    predicate Local() {
      MissingSecret? || MissingKey? || UnsafeValue?
    }
  }

  /** What a reconcile sees of the cluster, and the object size model: `entry` is what one data
      entry adds to the serialized Secret, `base` the size of the Secret without data. */
  datatype World = World(
    fetch: (string, string) -> Option<Data>,
    utf8: Value -> bool,
    entry: Weight,
    base: nat
  )

  const MAX_SECRET_SIZE: nat := 1048576
  const ETCD_MAX_REQUEST_BYTES: nat := 1572864
  const TOTAL_ANNOTATION_SIZE_LIMIT: nat := 262144
  const WRAPPER_RESERVE: nat := 65536
  const SECRET_ASSETS_OBJECT_BUDGET: nat := ETCD_MAX_REQUEST_BYTES - TOTAL_ANNOTATION_SIZE_LIMIT - WRAPPER_RESERVE

  /** A byte that stands for itself inside a JSON string (section 7 of RFC 8259). */
  predicate Plain(b: byte) {
    b != 0x22 && b != 0x5c && b >= 0x20
  }

  predicate SafeForJsonText(utf8: Value -> bool, value: Value) {
    value == [] || (utf8(value) && forall b :: b in value ==> Plain(b))
  }

  /** The guard as the operator runs it: a scan that stops at the first byte it must not copy. */
  method CheckSafeForJsonText(utf8: Value -> bool, value: Value) returns (safe: bool)
    ensures safe == SafeForJsonText(utf8, value)
  {
    if |value| == 0 {
      return true;
    }
    if !utf8(value) {
      return false;
    }
    for i := 0 to |value|
      invariant forall j :: 0 <= j < i ==> Plain(value[j])
    {
      if value[i] == 0x22 || value[i] == 0x5c || value[i] < 0x20 {
        assert value[i] in value && !Plain(value[i]);
        return false;
      }
    }
    return true;
  }

  function ValueOf(w: World, origin: Origin): Result<Value, Failure> {
    match w.fetch(origin.ns, origin.secret)
    case None => Err(MissingSecret(origin))
    case Some(data) =>
      if origin.key !in data then Err(MissingKey(origin))
      else if !SafeForJsonText(w.utf8, data[origin.key]) then Err(UnsafeValue(origin))
      else Ok(data[origin.key])
  }

  ghost function FlatsOf(refs: seq<Ref>): set<string> {
    set r | r in refs :: r.flat
  }

  ghost predicate DisagreeOn(p: Pipeline, q: Pipeline, flat: string, a: Origin, b: Origin) {
    Ref(flat, a) in p.Refs() && Ref(flat, b) in q.Refs() && a != b
  }

  /** The two pipelines read the flat key from different origins. */
  ghost predicate Disagree(p: Pipeline, q: Pipeline, flat: string) {
    exists a, b :: DisagreeOn(p, q, flat, a, b)
  }

  ghost predicate Conflict(p: Pipeline, q: Pipeline) {
    exists flat :: Disagree(p, q, flat)
  }

  ghost predicate SelfConsistent(p: Pipeline) {
    !Conflict(p, p)
  }

  /** Every flat key means one origin throughout the list, inside a pipeline and across pipelines. */
  ghost predicate CollisionFree(ps: seq<Pipeline>) {
    forall p, q :: p in ps && q in ps ==> !Conflict(p, q)
  }

  ghost predicate UniqueIds(ps: seq<Pipeline>) {
    forall i, j :: 0 <= i < j < |ps| ==> ps[i].id != ps[j].id
  }

  lemma SameId(ps: seq<Pipeline>, p: Pipeline, q: Pipeline)
    requires UniqueIds(ps) && p in ps && q in ps && p.id == q.id
    ensures p == q
  {
    var i :| 0 <= i < |ps| && ps[i] == p;
    var j :| 0 <= j < |ps| && ps[j] == q;
  }

  predicate HasRefs(p: Pipeline) {
    p.Refs() != []
  }

  /** The age order: creation time, then identifier. */
  predicate Older(p: Pipeline, q: Pipeline) {
    p.created < q.created || (p.created == q.created && Less(p.id, q.id))
  }

  /** Created earlier, or at the same time with the identifier that comes first. */
  ghost predicate CreatedBefore(p: Pipeline, q: Pipeline) {
    p.created < q.created || (p.created == q.created && ComesFirst(p.id, q.id))
  }

  lemma OlderIsCreatedBefore(p: Pipeline, q: Pipeline)
    ensures Older(p, q) <==> CreatedBefore(p, q)
  {
    LessAtFirstDifference(p.id, q.id);
  }

  lemma OlderOrders(ps: seq<Pipeline>)
    requires UniqueIds(ps)
    ensures Orders(Older, ps)
  {
    forall x, y, z | Older(x, y) && Older(y, z) ensures Older(x, z) {
      if x.created == y.created == z.created {
        LessTransitive(x.id, y.id, z.id);
      }
    }
    forall x, y | Older(x, y) ensures !Older(y, x) {
      LessTotal(x.id, y.id);
    }
    forall x, y | x in ps && y in ps && x != y ensures Older(x, y) || Older(y, x) {
      LessTotal(x.id, y.id);
    }
  }

  predicate Readable(p: Pipeline) {
    p.scan.Scanned?
  }

  /** The pipelines that reference secrets, oldest first; an unreadable one spoils the whole scan. */
  function Gathered(ps: seq<Pipeline>): Result<seq<Pipeline>, Failure> {
    if exists p :: p in ps && !Readable(p) then Err(MalformedSpec)
    else Ok(Sort(Older, Keep(HasRefs, ps)))
  }

  method Gather(ps: seq<Pipeline>) returns (r: Result<seq<Pipeline>, Failure>)
    ensures r == Gathered(ps)
  {
    var found: seq<Pipeline> := [];
    for i := 0 to |ps|
      invariant forall j :: 0 <= j < i ==> Readable(ps[j])
      invariant found == Keep(HasRefs, ps[..i])
    {
      if !Readable(ps[i]) {
        assert ps[i] in ps;
        return Err(MalformedSpec);
      }
      assert ps[..i + 1][..i] == ps[..i];
      if HasRefs(ps[i]) {
        found := found + [ps[i]];
      }
    }
    assert ps[..|ps|] == ps;
    return Ok(Sort(Older, found));
  }

  /** The scan succeeds exactly when every pipeline can be read; then it lists each pipeline with references
      once, every one created before those behind it. */
  lemma GatheredProperties(ps: seq<Pipeline>)
    requires UniqueIds(ps)
    ensures Gathered(ps).Ok? <==> forall p :: p in ps ==> p.scan.Scanned?
    ensures Gathered(ps).Ok? ==>
              var o := Gathered(ps).value;
              && Sorted(Older, o) && UniqueIds(o)
              && (forall i, j :: 0 <= i < j < |o| ==> CreatedBefore(o[i], o[j]))
              && (forall p :: p in o <==> p in ps && p.Refs() != [])
  {
    if Gathered(ps).Ok? {
      GatheredOldestFirst(ps);
    }
  }

  lemma GatheredOldestFirst(ps: seq<Pipeline>)
    requires UniqueIds(ps) && Gathered(ps).Ok?
    ensures var o := Gathered(ps).value;
            && Sorted(Older, o) && UniqueIds(o)
            && (forall i, j :: 0 <= i < j < |o| ==> CreatedBefore(o[i], o[j]))
            && (forall p :: p in o <==> p in ps && HasRefs(p))
  {
    OlderOrders(ps);
    var kept := Keep(HasRefs, ps);
    KeepUnique(HasRefs, ps);
    OlderOrders(kept);
    SortSorts(Older, kept);
    SortUnique(kept);
    var o := Gathered(ps).value;
    forall i, j | 0 <= i < j < |o| ensures CreatedBefore(o[i], o[j]) {
      assert o[i] in o && o[j] in o && o[i].id != o[j].id;
      LessTotal(o[i].id, o[j].id);
      OlderIsCreatedBefore(o[i], o[j]);
    }
  }

  lemma KeepUnique(keep: Pipeline -> bool, ps: seq<Pipeline>)
    requires UniqueIds(ps)
    ensures UniqueIds(Keep(keep, ps))
  {
    KeepApart((p: Pipeline) => p.id, keep, ps);
  }

  lemma SortUnique(ps: seq<Pipeline>)
    requires UniqueIds(ps)
    ensures UniqueIds(Sort(Older, ps))
  {
    RearrangingKeepsApart((p: Pipeline) => p.id, ps, Sort(Older, ps));
  }

  /** The traversal order does not depend on how the pipelines were listed. */
  lemma GatheredIgnoresListing(ps: seq<Pipeline>, qs: seq<Pipeline>)
    requires UniqueIds(ps) && multiset(ps) == multiset(qs)
    ensures Gathered(ps) == Gathered(qs)
  {
    forall p ensures p in ps <==> p in qs {
      assert p in multiset(ps) <==> p in multiset(qs);
    }
    KeepIgnoresListing(HasRefs, ps, qs);
    KeepUnique(HasRefs, ps);
    OlderOrders(Keep(HasRefs, ps));
    SortIgnoresListing(Older, Keep(HasRefs, ps), Keep(HasRefs, qs));
  }

  /** The last pipeline of a list with unique identifiers does not occur earlier. */
  lemma LastPipelineIsNew(front: seq<Pipeline>, p: Pipeline)
    requires UniqueIds(front + [p])
    ensures p !in front
  {
    forall q | q in front ensures q != p {
      var j :| 0 <= j < |front| && front[j] == q;
      assert (front + [p])[j] == q && (front + [p])[|front|] == p;
    }
  }
}
