/** Two variants and a rotation that shrinks a value: the bridge publishes a pipeline whose key one
    variant does not hold. */
module ShrinkExample {
  import opened Outcomes
  import opened Ordering
  import opened Totals
  import opened SecretRefs
  import opened Staging
  import opened SizeBudget
  import opened Bridge
  import opened BridgePlan
  import opened BridgeSoundness

  function Bytes(n: nat): (v: Value)
    ensures |v| == n
  {
    seq(n, _ => 65)
  }

  /** The source Secret: `a` was just rotated to a short value, `b` is long. */
  function Source(): Data {
    map["a" := Bytes(1), "b" := Bytes(500000)]
  }

  function TheWorld(): World {
    World((ns: string, name: string) => Some(Source()), (v: Value) => true, (k: string, v: Value) => |k| + |v|, 0)
  }

  function Rotated(): Pipeline {
    Pipeline("p", 0, Scanned([Ref("a", Origin("n", "s", "a"))]))
  }

  function Newcomer(): Pipeline {
    Pipeline("q", 1, Scanned([Ref("b", Origin("n", "s", "b"))]))
  }

  /** The first variant still holds the long old value of `a`. */
  function First(): Data {
    map["a" := Bytes(1000000)]
  }

  /** The second variant already holds `b` and is full to the last byte. */
  function Second(): Data {
    map["b" := Bytes(500000), "c" := Bytes(548576)]
  }

  lemma Readings()
    ensures Staged(TheWorld(), Rotated().Refs(), {}) == Ok(map["a" := Bytes(1)])
    ensures Staged(TheWorld(), Newcomer().Refs(), {}) == Ok(map["b" := Bytes(500000)])
  {
    StagedSingle(Rotated().Refs()[0]);
    StagedSingle(Newcomer().Refs()[0]);
  }

  lemma StagedSingle(r: Ref)
    requires ValueOf(TheWorld(), r.origin).Ok?
    ensures Staged(TheWorld(), [r], {}) == Ok(map[r.flat := ValueOf(TheWorld(), r.origin).value])
  {
    assert [r][..0] == [];
  }

  lemma TotalOfOne(k: string, v: Value, w: Weight)
    ensures Total(map[k := v], w) == w(k, v)
  {
    TotalWithout(map[k := v], w, k);
    assert map[k := v] - {k} == map[];
  }

  lemma TotalOfTwo(k: string, v: Value, l: string, u: Value, w: Weight)
    requires k != l
    ensures Total(map[k := v, l := u], w) == w(k, v) + w(l, u)
  {
    TotalWithout(map[k := v, l := u], w, l);
    assert map[k := v, l := u] - {l} == map[k := v];
    TotalOfOne(k, v, w);
  }

  lemma SortsInPlace(ps: seq<Pipeline>)
    requires UniqueIds(ps) && Sorted(Older, ps) && (forall p :: p in ps ==> Readable(p) && HasRefs(p))
    ensures Gathered(ps) == Ok(ps)
  {
    KeepAll(HasRefs, ps);
    OlderOrders(ps);
    SortSorts(Older, ps);
    SortedUnique(Older, ps, Sort(Older, ps));
  }

  lemma OrderOfTwo()
    ensures Gathered([Rotated(), Newcomer()]) == Ok([Rotated(), Newcomer()])
    ensures Gathered([Newcomer()]) == Ok([Newcomer()])
    ensures UniqueIds([Rotated(), Newcomer()])
  {
    SortsInPlace([Rotated(), Newcomer()]);
    SortsInPlace([Newcomer()]);
  }

  /** In the first variant everyone has room, because the rotation frees the old value. */
  lemma FirstAdmitsBoth()
    ensures var b := BridgedInOrder(TheWorld(), First(), [Rotated(), Newcomer()]);
            b.Ok? && b.value.waiting == []
  {
    var w, p, q := TheWorld(), Rotated(), Newcomer();
    Readings();
    assert [p, q][..1] == [p] && [p][..0] == [];
    var shrunk: Data := map["a" := Bytes(1)];
    var both: Data := map["a" := Bytes(1), "b" := Bytes(500000)];
    assert First() + shrunk == shrunk && shrunk + map["b" := Bytes(500000)] == both;
    TotalOfOne("a", Bytes(1), ByteLength);
    TotalOfOne("a", Bytes(1), w.entry);
    TotalOfTwo("a", Bytes(1), "b", Bytes(500000), ByteLength);
    TotalOfTwo("a", Bytes(1), "b", Bytes(500000), w.entry);
    assert BridgedInOrder(w, First(), [p]) == Ok(Bridging(shrunk, []));
  }

  /** A pipeline over a value budget waits. */
  lemma WaitsOverBudget(s: Bridging, p: Pipeline, staged: Data)
    requires Staged(TheWorld(), p.Refs(), {}) == Ok(staged) && !FitsValues(s.data + staged)
    ensures BridgedOne(TheWorld(), s, p) == Ok(Bridging(s.data, s.waiting + [p]))
  {
  }

  /** Rewriting an entry with the value it has costs nothing. */
  lemma KeepsWhenUnchanged(s: Bridging, p: Pipeline, staged: Data)
    requires Staged(TheWorld(), p.Refs(), {}) == Ok(staged) && s.data + staged == s.data && Fits(TheWorld(), s.data)
    ensures BridgedOne(TheWorld(), s, p) == Ok(s)
  {
  }

  lemma SecondIsFull(over: Data)
    requires over == Second() + map["a" := Bytes(1)]
    ensures Fits(TheWorld(), Second()) && !FitsValues(over)
  {
    assert over - {"a"} == Second();
    TotalWithout(over, ByteLength, "a");
    TotalOfTwo("b", Bytes(500000), "c", Bytes(548576), ByteLength);
    TotalOfTwo("b", Bytes(500000), "c", Bytes(548576), TheWorld().entry);
  }

  lemma WalkOfTwo(w: World, existing: Data, p: Pipeline, q: Pipeline, s: Bridging)
    requires BridgedOne(w, Bridging(existing, []), p) == Ok(s)
    ensures BridgedInOrder(w, existing, [p, q]) == BridgedOne(w, s, q)
  {
    assert [p, q][..1] == [p] && [p][..0] == [];
    assert BridgedInOrder(w, existing, [p]) == Ok(s);
  }

  /** In the second variant the rotated pipeline has to wait, the other costs nothing. */
  lemma SecondHoldsBackRotation()
    ensures BridgedInOrder(TheWorld(), Second(), [Rotated(), Newcomer()]) == Ok(Bridging(Second(), [Rotated()]))
  {
    var p, q, e := Rotated(), Newcomer(), Second();
    var a, b := map["a" := Bytes(1)], map["b" := Bytes(500000)];
    Readings();
    SecondIsFull(e + a);
    WaitsOverBudget(Bridging(e, []), p, a);
    assert [] + [p] == [p];
    assert e + b == e;
    KeepsWhenUnchanged(Bridging(e, [p]), q, b);
    WalkOfTwo(TheWorld(), e, p, q, Bridging(e, [p]));
  }

  /** Without the rotation the first variant has no room for the added pipeline. */
  lemma FirstRejectsNewcomer()
    ensures var b := BridgedInOrder(TheWorld(), First(), [Newcomer()]);
            b.Ok? && b.value == Bridging(First(), [Newcomer()])
  {
    var w, q := TheWorld(), Newcomer();
    Readings();
    assert [q][..0] == [];
    var union: Data := map["a" := Bytes(1000000), "b" := Bytes(500000)];
    assert First() + map["b" := Bytes(500000)] == union;
    TotalOfTwo("a", Bytes(1000000), "b", Bytes(500000), ByteLength);
  }

  /** A variant whose pass 2 leaves out a key of a published pipeline does not hold the plan. */
  lemma LeftOut(w: World, target: seq<Pipeline>, variants: seq<Data>, i: nat, publish: seq<Pipeline>, q: Pipeline, flat: string)
    requires UniqueIds(target) && i < |variants| && WaitingIds(w, target, variants).Ok?
    requires publish == Without(target, WaitingIds(w, target, variants).value) && q in publish && flat in q.Flats()
    requires Bridged(w, variants[i], publish).Ok? && flat !in Bridged(w, variants[i], publish).value.data
    ensures Planned(w, target, variants).Ok?
    ensures var plan := Planned(w, target, variants).value;
            plan.publish == publish && |plan.data| == |variants| && !VariantHolds(plan, variants, i)
  {
    PassTwoSucceeds(w, target, variants);
    TargetsAt(w, publish, variants, i);
  }

  lemma HeldBack(w: World, p: Pipeline, target: seq<Pipeline>, first: Data, second: Data)
    requires Bridged(w, first, target).Ok? && Bridged(w, first, target).value.waiting == []
    requires Bridged(w, second, target).Ok? && Bridged(w, second, target).value.waiting == [p]
    ensures WaitingIds(w, target, [first, second]) == Ok({p.id})
  {
    TwoVariants(w, target, first, second);
    OneId(p);
    assert IdsOf([]) + {p.id} == {p.id};
  }

  lemma KeepsSecond(p: Pipeline, q: Pipeline)
    requires p.id != q.id
    ensures Without([p, q], {p.id}) == [q]
  {
    assert [p, q][..1] == [p] && [p][..0] == [];
    assert Without([p], {p.id}) == [];
  }

  /** The plan publishes the added pipeline, yet the first variant does not hold its key: "a subset of
      what fits also fits" fails when a rotation shrinks an entry. */
  lemma RotationBreaksTwoVariants()
    ensures var target, variants := [Rotated(), Newcomer()], [First(), Second()];
            && UniqueIds(target) && CollisionFree(target) && WaitingIds(TheWorld(), target, variants).Ok?
            && Planned(TheWorld(), target, variants).Ok?
            && var plan := Planned(TheWorld(), target, variants).value;
            && plan.publish == [Newcomer()] && |plan.data| == 2
            && !VariantHolds(plan, variants, 0)
  {
    OrderOfTwo();
    NoCollisions();
    FirstAdmitsBoth();
    SecondHoldsBackRotation();
    FirstRejectsNewcomer();
    FirstLacksKey();
    HeldBack(TheWorld(), Rotated(), [Rotated(), Newcomer()], First(), Second());
    KeepsSecond(Rotated(), Newcomer());
    LeftOut(TheWorld(), [Rotated(), Newcomer()], [First(), Second()], 0, [Newcomer()], Newcomer(), "b");
  }

  lemma FirstLacksKey()
    ensures "b" in Newcomer().Flats() && "b" !in First()
  {
    assert Ref("b", Origin("n", "s", "b")) in Newcomer().Refs();
  }

  /** The first variant's publish target is what it held before. */
  lemma FirstKeepsOldData()
    ensures Planned(TheWorld(), [Rotated(), Newcomer()], [First(), Second()]).Ok?
    ensures Planned(TheWorld(), [Rotated(), Newcomer()], [First(), Second()]).value.data != []
    ensures Planned(TheWorld(), [Rotated(), Newcomer()], [First(), Second()]).value.data[0] == First()
  {
    OrderOfTwo();
    FirstAdmitsBoth();
    SecondHoldsBackRotation();
    FirstRejectsNewcomer();
    HeldBack(TheWorld(), Rotated(), [Rotated(), Newcomer()], First(), Second());
    KeepsSecond(Rotated(), Newcomer());
    PassTwoSucceeds(TheWorld(), [Rotated(), Newcomer()], [First(), Second()]);
    TargetsAt(TheWorld(), [Newcomer()], [First(), Second()], 0);
  }

  lemma OneId(p: Pipeline)
    ensures IdsOf([p]) == {p.id} && IdsOf([]) == {}
  {
    assert p in [p];
  }

  lemma TwoVariants(w: World, target: seq<Pipeline>, first: Data, second: Data)
    requires Bridged(w, first, target).Ok? && Bridged(w, second, target).Ok?
    ensures WaitingIds(w, target, [first, second]) ==
            Ok(IdsOf(Bridged(w, first, target).value.waiting) + IdsOf(Bridged(w, second, target).value.waiting))
  {
    OneVariantWaiting(w, target, first);
    assert [first, second][..1] == [first];
  }

  lemma NoCollisions()
    ensures CollisionFree([Rotated(), Newcomer()])
  {
    forall p, q, flat, a, b
      | p in [Rotated(), Newcomer()] && q in [Rotated(), Newcomer()] && Ref(flat, a) in p.Refs() && Ref(flat, b) in q.Refs()
      ensures a == b
    {
    }
  }
}
