/** Staging a target next to what the assets Secret already holds, without dropping any of it. */
module Bridge {
  import opened Outcomes
  import opened Totals
  import opened SecretRefs
  import opened Staging
  import opened SizeBudget

  /** The data to publish and the pipelines that have to wait for room. */
  datatype Bridging = Bridging(data: Data, waiting: seq<Pipeline>)

  /** Writes a pipeline's values over `s.data`, or makes it wait when the union breaks a budget. */
  ghost function BridgedOne(w: World, s: Bridging, p: Pipeline): Result<Bridging, Failure> {
    var staged :- Staged(w, p.Refs(), {});
    if Fits(w, s.data + staged) then Ok(s.(data := s.data + staged))
    else Ok(s.(waiting := s.waiting + [p]))
  }

  ghost function BridgedInOrder(w: World, existing: Data, ordered: seq<Pipeline>): Result<Bridging, Failure> {
    if ordered == [] then Ok(Bridging(existing, []))
    else
      var s :- BridgedInOrder(w, existing, ordered[..|ordered| - 1]);
      BridgedOne(w, s, ordered[|ordered| - 1])
  }

  ghost function Bridged(w: World, existing: Data, target: seq<Pipeline>): Result<Bridging, Failure> {
    var ordered :- Gathered(target);
    BridgedInOrder(w, existing, ordered)
  }

  /** The staged entries outside `rest` are written over `before`, and `prior` says what they replaced. */
  ghost predicate PartlyApplied(before: Data, now: Data, staged: Data, rest: Data, prior: map<string, Option<Value>>) {
    && (forall k :: k in rest ==> k in staged && rest[k] == staged[k])
    && (forall k :: At(now, k) == if k in staged && k !in rest then Some(staged[k]) else At(before, k))
    && (forall k :: k in prior <==> k in staged && k !in rest)
    && (forall k :: k in prior ==> prior[k] == At(before, k))
  }

  lemma OneMoreApplied(before: Data, now: Data, staged: Data, rest: Data, prior: map<string, Option<Value>>, k: string)
    requires PartlyApplied(before, now, staged, rest, prior) && k in rest
    ensures PartlyApplied(before, now[k := rest[k]], staged, rest - {k}, prior[k := At(now, k)])
  {
  }

  /** The assets Secret's data being bridged, with running totals that are never measured again. */
  class BridgeBuffer {
    const w: World
    var data: Data
    var valuesTotal: int
    var objectTotal: int

    ghost predicate Valid()
      reads this
    {
      valuesTotal == Total(data, ByteLength) && objectTotal == w.base + Total(data, w.entry)
    }

    constructor (w: World, existing: Data)
      ensures Valid() && this.w == w && data == existing
    {
      this.w := w;
      data := existing;
      var values := Measure(existing, ByteLength);
      var entries := Measure(existing, w.entry);
      valuesTotal := values;
      objectTotal := w.base + entries;
    }

    /** Applies the staged entries one by one in any order, remembering what each replaced; if the
        result breaks a budget, undoes exactly those writes. */
    method TryStage(staged: Data) returns (kept: bool)
      requires Valid()
      modifies this
      ensures Valid()
      ensures kept <==> Fits(w, old(data) + staged)
      ensures data == if kept then old(data) + staged else old(data)
    {
      var prior, valuesDelta, objectDelta := Apply(staged);
      SameData(data, old(data) + staged);
      if valuesTotal + valuesDelta > MAX_SECRET_SIZE || objectTotal + objectDelta > SECRET_ASSETS_OBJECT_BUDGET {
        Undo(prior);
        SameData(data, old(data));
        return false;
      }
      valuesTotal := valuesTotal + valuesDelta;
      objectTotal := objectTotal + objectDelta;
      return true;
    }

    /** `prior` holds, for every key touched, what was there before. */
    method Apply(staged: Data) returns (prior: map<string, Option<Value>>, valuesDelta: int, objectDelta: int)
      modifies this`data
      ensures forall k :: At(data, k) == if k in staged then Some(staged[k]) else At(old(data), k)
      ensures forall k :: k in prior <==> k in staged
      ensures forall k :: k in prior ==> prior[k] == At(old(data), k)
      ensures valuesDelta == Total(data, ByteLength) - Total(old(data), ByteLength)
      ensures objectDelta == Total(data, w.entry) - Total(old(data), w.entry)
    {
      prior, valuesDelta, objectDelta := map[], 0, 0;
      var rest := staged;
      while rest != map[]
        invariant PartlyApplied(old(data), data, staged, rest, prior)
        invariant valuesDelta == Total(data, ByteLength) - Total(old(data), ByteLength)
        invariant objectDelta == Total(data, w.entry) - Total(old(data), w.entry)
        decreases |rest|
      {
        var k :| k in rest;
        OneMoreApplied(old(data), data, staged, rest, prior, k);
        prior := prior[k := At(data, k)];
        var values, entries := Overwrite(k, rest[k]);
        valuesDelta := valuesDelta + values;
        objectDelta := objectDelta + entries;
        rest := rest - {k};
      }
    }

    /** Writes one entry; a key that replaces another is charged the difference. */
    method Overwrite(key: string, value: Value) returns (valuesDelta: int, objectDelta: int)
      modifies this`data
      ensures data == old(data)[key := value]
      ensures valuesDelta == Total(data, ByteLength) - Total(old(data), ByteLength)
      ensures objectDelta == Total(data, w.entry) - Total(old(data), w.entry)
    {
      valuesDelta, objectDelta := |value|, w.entry(key, value);
      if key in data {
        valuesDelta := valuesDelta - |data[key]|;
        objectDelta := objectDelta - w.entry(key, data[key]);
      }
      TotalUpdate(data, ByteLength, key, value);
      TotalUpdate(data, w.entry, key, value);
      data := data[key := value];
    }

    /** Restores or deletes each remembered key. */
    method Undo(prior: map<string, Option<Value>>)
      modifies this`data
      ensures forall k :: At(data, k) == if k in prior then prior[k] else At(old(data), k)
    {
      var rest := prior;
      while rest != map[]
        invariant forall k :: k in rest ==> k in prior && rest[k] == prior[k]
        invariant forall k :: At(data, k) == if k in prior && k !in rest then prior[k] else At(old(data), k)
        decreases |rest|
      {
        var k :| k in rest;
        match rest[k] {
          case Some(value) => data := data[k := value];
          case None => data := data - {k};
        }
        rest := rest - {k};
      }
    }
  }

  function At(data: Data, key: string): Option<Value> {
    if key in data then Some(data[key]) else None
  }

  lemma SameData(a: Data, b: Data)
    requires forall k :: At(a, k) == At(b, k)
    ensures a == b
  {
    forall k ensures k in a <==> k in b { assert At(a, k) == At(b, k); }
    forall k | k in a ensures a[k] == b[k] { assert At(a, k) == At(b, k); }
  }

  /** The whole bridge over a target list: walks it oldest first and never measures the data twice. */
  method BridgeAssets(w: World, existing: Data, target: seq<Pipeline>) returns (r: Result<Bridging, Failure>)
    ensures r == Bridged(w, existing, target)
  {
    if |target| == 0 {
      return Ok(Bridging(existing, []));
    }
    var gathered := Gather(target);
    if gathered.Err? {
      return Err(gathered.error);
    }
    var ordered := gathered.value;
    if |ordered| == 0 {
      return Ok(Bridging(existing, []));
    }
    var buffer := new BridgeBuffer(w, existing);
    var waiting: seq<Pipeline> := [];
    for i := 0 to |ordered|
      invariant fresh(buffer) && buffer.w == w && buffer.Valid()
      invariant BridgedInOrder(w, existing, ordered[..i]) == Ok(Bridging(buffer.data, waiting))
    {
      BridgedStep(w, existing, ordered, i);
      var staged := Stage(w, ordered[i].Refs(), {});
      if staged.Err? {
        BridgedFails(w, existing, ordered, i + 1);
        return Err(staged.error);
      }
      var kept := buffer.TryStage(staged.value);
      if !kept {
        waiting := waiting + [ordered[i]];
      }
    }
    assert ordered[..|ordered|] == ordered;
    return Ok(Bridging(buffer.data, waiting));
  }

  lemma BridgedStep(w: World, existing: Data, ordered: seq<Pipeline>, i: nat)
    requires i < |ordered| && BridgedInOrder(w, existing, ordered[..i]).Ok?
    ensures BridgedInOrder(w, existing, ordered[..i + 1]) ==
            BridgedOne(w, BridgedInOrder(w, existing, ordered[..i]).value, ordered[i])
  {
    assert ordered[..i + 1][..i] == ordered[..i];
  }

  lemma {:induction false} BridgedFails(w: World, existing: Data, ordered: seq<Pipeline>, n: nat)
    requires n <= |ordered| && BridgedInOrder(w, existing, ordered[..n]).Err?
    ensures BridgedInOrder(w, existing, ordered) == BridgedInOrder(w, existing, ordered[..n])
  {
    if n < |ordered| {
      var front := ordered[..|ordered| - 1];
      assert front[..n] == ordered[..n];
      BridgedFails(w, existing, front, n);
    } else {
      assert ordered[..n] == ordered;
    }
  }

  /** No key the Secret held is dropped, and a Secret within both budgets stays within both. */
  lemma {:induction false} BridgeKeepsEverything(w: World, existing: Data, ordered: seq<Pipeline>)
    requires BridgedInOrder(w, existing, ordered).Ok?
    ensures existing.Keys <= BridgedInOrder(w, existing, ordered).value.data.Keys
    ensures Fits(w, existing) ==> Fits(w, BridgedInOrder(w, existing, ordered).value.data)
  {
    if ordered != [] {
      BridgeKeepsEverything(w, existing, ordered[..|ordered| - 1]);
    }
  }

  ghost function StagedData(w: World, p: Pipeline): Data {
    match Staged(w, p.Refs(), {})
    case Ok(staged) => staged
    case Err(_) => map[]
  }

  /** `existing` with every staged value of the list written over it, later pipelines winning. */
  ghost function Overlaid(w: World, existing: Data, ps: seq<Pipeline>): Data {
    if ps == [] then existing
    else Overlaid(w, existing, ps[..|ps| - 1]) + StagedData(w, ps[|ps| - 1])
  }

  /** The pipelines of the list that do not wait. */
  function Admitted(ps: seq<Pipeline>, waiting: seq<Pipeline>): (r: seq<Pipeline>)
    ensures forall p :: p in r <==> p in ps && p !in waiting
  {
    if ps == [] then []
    else
      assert ps == ps[..|ps| - 1] + [ps[|ps| - 1]];
      Admitted(ps[..|ps| - 1], waiting) + if ps[|ps| - 1] in waiting then [] else [ps[|ps| - 1]]
  }

  /** Waiting is exactly greedy rejection: the published data is the overlay of the admitted
      pipelines, and the pipeline at `i` waits exactly when its own values do not fit over the
      overlay of the admitted pipelines before it. */
  lemma {:induction false} BridgeIsGreedy(w: World, existing: Data, ordered: seq<Pipeline>)
    requires UniqueIds(ordered) && BridgedInOrder(w, existing, ordered).Ok?
    ensures PublishesAdmitted(w, existing, ordered)
    ensures forall i :: 0 <= i < |ordered| ==> WaitsGreedily(w, existing, ordered, i)
  {
    if ordered != [] {
      var front, p := ordered[..|ordered| - 1], ordered[|ordered| - 1];
      BridgeIsGreedy(w, existing, front);
      assert ordered == front + [p];
      LastPipelineIsNew(front, p);
      PublishStep(w, existing, front, p);
      forall i | 0 <= i < |ordered| ensures WaitsGreedily(w, existing, ordered, i) {
        WaitStep(w, existing, front, p, i);
      }
    }
  }

  ghost predicate PublishesAdmitted(w: World, existing: Data, ordered: seq<Pipeline>)
    requires BridgedInOrder(w, existing, ordered).Ok?
  {
    var b := BridgedInOrder(w, existing, ordered).value;
    b.data == Overlaid(w, existing, Admitted(ordered, b.waiting)) && forall p :: p in b.waiting ==> p in ordered
  }

  ghost predicate WaitsGreedily(w: World, existing: Data, ordered: seq<Pipeline>, i: nat)
    requires i < |ordered| && BridgedInOrder(w, existing, ordered).Ok?
  {
    var waiting := BridgedInOrder(w, existing, ordered).value.waiting;
    ordered[i] in waiting <==>
    !Fits(w, Overlaid(w, existing, Admitted(ordered[..i], waiting)) + StagedData(w, ordered[i]))
  }

  lemma {:induction false} AdmittedIgnoresOthers(ps: seq<Pipeline>, waiting: seq<Pipeline>, extra: seq<Pipeline>)
    requires forall p :: p in extra ==> p !in ps
    ensures Admitted(ps, waiting + extra) == Admitted(ps, waiting)
  {
    if ps != [] {
      AdmittedIgnoresOthers(ps[..|ps| - 1], waiting, extra);
      assert ps[|ps| - 1] in ps;
    }
  }

  /** The waiting list of a longer walk extends that of a shorter one, by the last pipeline at most. */
  lemma WaitingGrows(w: World, existing: Data, front: seq<Pipeline>, p: Pipeline) returns (extra: seq<Pipeline>)
    requires BridgedInOrder(w, existing, front + [p]).Ok?
    ensures BridgedInOrder(w, existing, front).Ok?
    ensures extra == [] || extra == [p]
    ensures var before, after := BridgedInOrder(w, existing, front).value, BridgedInOrder(w, existing, front + [p]).value;
            && after.waiting == before.waiting + extra
            && after.data == (if extra == [] then before.data + StagedData(w, p) else before.data)
            && (extra == [p] <==> !Fits(w, before.data + StagedData(w, p)))
  {
    assert (front + [p])[..|front|] == front;
    var before := BridgedInOrder(w, existing, front).value;
    extra := if Fits(w, before.data + StagedData(w, p)) then [] else [p];
  }

  lemma PublishStep(w: World, existing: Data, front: seq<Pipeline>, p: Pipeline)
    requires p !in front && BridgedInOrder(w, existing, front + [p]).Ok?
    requires BridgedInOrder(w, existing, front).Ok? && PublishesAdmitted(w, existing, front)
    ensures PublishesAdmitted(w, existing, front + [p])
  {
    var before := BridgedInOrder(w, existing, front).value;
    var extra := WaitingGrows(w, existing, front, p);
    AdmittedIgnoresOthers(front, before.waiting, extra);
    OverlaidLast(w, existing, front, p, before.waiting + extra);
  }

  lemma OverlaidLast(w: World, existing: Data, front: seq<Pipeline>, p: Pipeline, waiting: seq<Pipeline>)
    ensures Overlaid(w, existing, Admitted(front + [p], waiting)) ==
            (if p in waiting then Overlaid(w, existing, Admitted(front, waiting))
             else Overlaid(w, existing, Admitted(front, waiting)) + StagedData(w, p))
  {
    AdmittedAppend(front, p, waiting);
    OverlaidAppend(w, existing, Admitted(front, waiting), p);
  }

  lemma AdmittedAppend(front: seq<Pipeline>, p: Pipeline, waiting: seq<Pipeline>)
    ensures Admitted(front + [p], waiting) ==
            if p in waiting then Admitted(front, waiting) else Admitted(front, waiting) + [p]
  {
    assert (front + [p])[..|front|] == front;
  }

  lemma OverlaidAppend(w: World, existing: Data, ps: seq<Pipeline>, p: Pipeline)
    ensures Overlaid(w, existing, ps + [p]) == Overlaid(w, existing, ps) + StagedData(w, p)
  {
    var longer := ps + [p];
    assert longer[..|longer| - 1] == ps && longer[|longer| - 1] == p;
  }

  lemma WaitStep(w: World, existing: Data, front: seq<Pipeline>, p: Pipeline, i: nat)
    requires i <= |front| && p !in front && BridgedInOrder(w, existing, front + [p]).Ok?
    requires BridgedInOrder(w, existing, front).Ok? && PublishesAdmitted(w, existing, front)
    requires i < |front| ==> WaitsGreedily(w, existing, front, i)
    ensures WaitsGreedily(w, existing, front + [p], i)
  {
    var before := BridgedInOrder(w, existing, front).value;
    var extra := WaitingGrows(w, existing, front, p);
    assert (front + [p])[..i] == front[..i];
    AdmittedIgnoresOthers(front[..i], before.waiting, extra);
    assert front[..|front|] == front;
  }
}
