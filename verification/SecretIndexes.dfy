/** Which pipelines declare which Secrets, kept in both directions. */
module SecretIndexes {

  datatype Key = Key(ns: string, name: string)

  type Links = map<Key, set<Key>>

  function Linked(links: Links, k: Key): set<Key> {
    if k in links then links[k] else {}
  }

  function SetOf(keys: seq<Key>): set<Key> {
    set k | k in keys
  }

  /** One call: a pipeline and the Secrets it declares from now on. */
  datatype Call = Call(pipeline: Key, secrets: seq<Key>)

  /** What the calls so far mean: a pipeline declares the Secrets of its latest call. */
  function Declares(calls: seq<Call>, pipeline: Key): set<Key> {
    if calls == [] then {}
    else
      var last := calls[|calls| - 1];
      if last.pipeline == pipeline then SetOf(last.secrets) else Declares(calls[..|calls| - 1], pipeline)
  }

  ghost predicate NoEmptySets(links: Links) {
    forall k :: k in links ==> links[k] != {}
  }

  /** The two directions say the same. */
  ghost predicate Inverse(forward: Links, backward: Links) {
    forall p, s :: SameLink(forward, backward, p, s)
  }

  ghost predicate SameLink(forward: Links, backward: Links, p: Key, s: Key) {
    s in Linked(forward, p) <==> p in Linked(backward, s)
  }

  class SecretIndex {
    var pipelineToSecrets: Links
    var secretToPipelines: Links
    ghost var calls: seq<Call>

    ghost predicate Valid()
      reads this
    {
      && NoEmptySets(pipelineToSecrets) && NoEmptySets(secretToPipelines)
      && Inverse(pipelineToSecrets, secretToPipelines)
      && forall p :: Linked(pipelineToSecrets, p) == Declares(calls, p)
    }

    constructor ()
      ensures Valid() && calls == []
    {
      pipelineToSecrets, secretToPipelines, calls := map[], map[], [];
    }

    /** Replaces everything the pipeline declares; an empty list removes it. */
    method Set(pipeline: Key, secrets: seq<Key>)
      requires Valid()
      modifies this
      ensures Valid() && calls == old(calls) + [Call(pipeline, secrets)]
    {
      var newSet := Collect(secrets);
      Unlink(pipeline, newSet);
      if newSet == {} {
        pipelineToSecrets := pipelineToSecrets - {pipeline};
      } else {
        pipelineToSecrets := pipelineToSecrets[pipeline := newSet];
        Link(pipeline, newSet);
      }
      calls := calls + [Call(pipeline, secrets)];
      LastCallCounts(old(calls), pipeline, secrets);
      forall p, s ensures SameLink(pipelineToSecrets, secretToPipelines, p, s) {
        assert SameLink(old(pipelineToSecrets), old(secretToPipelines), p, s);
      }
    }

    static method Collect(secrets: seq<Key>) returns (newSet: set<Key>)
      ensures newSet == SetOf(secrets)
    {
      newSet := {};
      for i := 0 to |secrets|
        invariant newSet == SetOf(secrets[..i])
      {
        assert secrets[..i + 1] == secrets[..i] + [secrets[i]];
        newSet := newSet + {secrets[i]};
      }
      assert secrets[..|secrets|] == secrets;
    }

    /** Takes the pipeline out of the Secrets it no longer declares. */
    method Unlink(pipeline: Key, newSet: set<Key>)
      requires NoEmptySets(secretToPipelines)
      modifies this`secretToPipelines
      ensures NoEmptySets(secretToPipelines)
      ensures forall s :: Linked(secretToPipelines, s) ==
                          Linked(old(secretToPipelines), s) -
                          if s in Linked(pipelineToSecrets, pipeline) && s !in newSet then {pipeline} else {}
    {
      var rest := if pipeline in pipelineToSecrets then pipelineToSecrets[pipeline] else {};
      ghost var all := rest;
      while rest != {}
        invariant rest <= all == Linked(pipelineToSecrets, pipeline)
        invariant NoEmptySets(secretToPipelines)
        invariant forall s :: Linked(secretToPipelines, s) ==
                              Linked(old(secretToPipelines), s) - if s in all && s !in rest && s !in newSet then {pipeline} else {}
      {
        var s :| s in rest;
        rest := rest - {s};
        if s !in newSet && s in secretToPipelines {
          var left := secretToPipelines[s] - {pipeline};
          if left == {} {
            secretToPipelines := secretToPipelines - {s};
          } else {
            secretToPipelines := secretToPipelines[s := left];
          }
        }
      }
    }

    /** Puts the pipeline into every Secret it declares. */
    method Link(pipeline: Key, newSet: set<Key>)
      requires NoEmptySets(secretToPipelines)
      modifies this`secretToPipelines
      ensures NoEmptySets(secretToPipelines)
      ensures forall s :: Linked(secretToPipelines, s) ==
                          Linked(old(secretToPipelines), s) + if s in newSet then {pipeline} else {}
    {
      var rest := newSet;
      while rest != {}
        invariant rest <= newSet && NoEmptySets(secretToPipelines)
        invariant forall s :: Linked(secretToPipelines, s) ==
                              Linked(old(secretToPipelines), s) + if s in newSet && s !in rest then {pipeline} else {}
      {
        var s :| s in rest;
        rest := rest - {s};
        var before := if s in secretToPipelines then secretToPipelines[s] else {};
        secretToPipelines := secretToPipelines[s := before + {pipeline}];
      }
    }

    /** Exactly the pipelines whose latest call names the Secret, each once, in any order. */
    method PipelinesFor(secret: Key) returns (list: seq<Key>)
      requires Valid()
      ensures forall p :: p in list <==> secret in Declares(calls, p)
      ensures forall i, j :: 0 <= i < j < |list| ==> list[i] != list[j]
    {
      list := [];
      var rest := if secret in secretToPipelines then secretToPipelines[secret] else {};
      ghost var all := rest;
      while rest != {}
        invariant rest <= all
        invariant forall p :: p in list <==> p in all && p !in rest
        invariant forall i, j :: 0 <= i < j < |list| ==> list[i] != list[j]
      {
        var p :| p in rest;
        assert p !in list;
        list := list + [p];
        rest := rest - {p};
      }
      forall p ensures p in all <==> secret in Declares(calls, p) {
        assert Linked(pipelineToSecrets, p) == Declares(calls, p) && SameLink(pipelineToSecrets, secretToPipelines, p, secret);
      }
    }
  }

  lemma LastCallCounts(calls: seq<Call>, pipeline: Key, secrets: seq<Key>)
    ensures forall p :: Declares(calls + [Call(pipeline, secrets)], p) ==
                        if p == pipeline then SetOf(secrets) else Declares(calls, p)
  {
    var c := Call(pipeline, secrets);
    assert (calls + [c])[..|calls|] == calls;
  }

  /** Only a pipeline's latest call counts: `Declares` read from the other end. */
  lemma {:induction false} LatestCall(calls: seq<Call>, p: Key, i: nat)
    requires i < |calls| && calls[i].pipeline == p && forall j :: i < j < |calls| ==> calls[j].pipeline != p
    ensures Declares(calls, p) == SetOf(calls[i].secrets)
  {
    if i < |calls| - 1 {
      LatestCall(calls[..|calls| - 1], p, i);
    }
  }

  lemma {:induction false} NeverCalled(calls: seq<Call>, p: Key)
    requires forall j :: 0 <= j < |calls| ==> calls[j].pipeline != p
    ensures Declares(calls, p) == {}
  {
    if calls != [] {
      NeverCalled(calls[..|calls| - 1], p);
    }
  }
}
