/** Reading source Secrets once per round: whatever the API server answers from one moment to the next,
    everything a round reads fits one state of the Secrets. */
module SecretReads {
  import opened Outcomes
  import opened Totals

  /** A read of a Secret and what the API server would answer at that moment; `None` when it answers with
      an error. */
  datatype Ask = Ask(ns: string, name: string, live: Option<Data>)

  function CacheKey(ns: string, name: string): string {
    ns + "/" + name
  }

  predicate NoSlash(s: string) {
    '/' !in s
  }

  /** Namespaces contain no slash, so no two Secrets share a cache entry. */
  lemma CacheKeyInjective(ns: string, name: string, ms: string, other: string)
    requires NoSlash(ns) && NoSlash(ms) && CacheKey(ns, name) == CacheKey(ms, other)
    ensures ns == ms && name == other
  {
    var k := CacheKey(ns, name);
    assert k[|ns|] == '/' && k[|ms|] == '/';
    assert forall i :: 0 <= i < |ns| ==> k[i] == ns[i];
    assert forall i :: 0 <= i < |ms| ==> k[i] == ms[i];
    assert |ns| == |ms|;
    assert ns == k[..|ns|] && ms == k[..|ms|] && name == k[|ns| + 1..] && other == k[|ms| + 1..];
  }

  /** The answer to the first read of the Secret. */
  function First(asked: seq<Ask>, ns: string, name: string): Option<Option<Data>> {
    if asked == [] then None
    else
      var before, last := First(asked[..|asked| - 1], ns, name), asked[|asked| - 1];
      if before.Some? then before else if last.ns == ns && last.name == name then Some(last.live) else None
  }

  ghost predicate AllNoSlash(asked: seq<Ask>) {
    forall a :: a in asked ==> NoSlash(a.ns)
  }

  class SecretGetter {
    var cache: map<string, Option<Data>>
    ghost var asked: seq<Ask>

    ghost predicate Valid()
      reads this
    {
      && AllNoSlash(asked)
      && (forall ns, name :: NoSlash(ns) ==> Cached(cache, ns, name) == First(asked, ns, name))
    }

    constructor ()
      ensures Valid() && asked == []
    {
      cache, asked := map[], [];
    }

    /** The first answer for a Secret, found or not, is the answer for the rest of the round. */
    method Get(ns: string, name: string, live: Option<Data>) returns (answer: Option<Data>)
      requires Valid() && NoSlash(ns)
      modifies this
      ensures Valid() && asked == old(asked) + [Ask(ns, name, live)]
      ensures Some(answer) == First(asked, ns, name)
    {
      var key := CacheKey(ns, name);
      assert Cached(cache, ns, name) == First(asked, ns, name);
      AskedAppend(asked, Ask(ns, name, live));
      if key in cache {
        answer := cache[key];
      } else {
        answer := live;
        cache := cache[key := live];
      }
      asked := asked + [Ask(ns, name, live)];
      forall ms, other | NoSlash(ms) ensures Cached(cache, ms, other) == First(asked, ms, other) {
        assert Cached(old(cache), ms, other) == First(old(asked), ms, other);
        if CacheKey(ms, other) == key {
          CacheKeyInjective(ns, name, ms, other);
        }
      }
    }
  }

  function Cached(cache: map<string, Option<Data>>, ns: string, name: string): Option<Option<Data>> {
    if CacheKey(ns, name) in cache then Some(cache[CacheKey(ns, name)]) else None
  }

  lemma AskedAppend(asked: seq<Ask>, a: Ask)
    ensures forall ns, name :: First(asked + [a], ns, name) ==
              if First(asked, ns, name).Some? then First(asked, ns, name)
              else if a.ns == ns && a.name == name then Some(a.live) else None
  {
    assert (asked + [a])[..|asked|] == asked;
  }

  /** What was answered once is still the answer at the end of the round: all reads fit one state, which
      has every Secret as its first read found it. */
  lemma {:induction false} AnswersStay(asked: seq<Ask>, i: nat, ns: string, name: string)
    requires i <= |asked| && First(asked[..i], ns, name).Some?
    ensures First(asked, ns, name) == First(asked[..i], ns, name)
  {
    if i < |asked| {
      var front := asked[..|asked| - 1];
      assert front[..i] == asked[..i];
      AnswersStay(front, i, ns, name);
    } else {
      assert asked[..i] == asked;
    }
  }
}
