/** From a pipeline's options to the values in the assets: checking its backends, rewriting every
    component and queueing what has to be resolved. */
module PipelineSecrets {
  import opened Outcomes
  import opened Totals
  import opened Placeholders
  import opened SecretScan
  import opened SecretRefs
  import opened Staging

  /** A namespaced pipeline must not name a backend's namespace, a cluster-wide one has to. */
  function BackendFault(env: Env, b: Backend): Option<ScanError> {
    if !env.clusterWide && b.ns != "" then Some(NamespaceForbidden)
    else if env.clusterWide && b.ns == "" then Some(NamespaceRequired)
    else None
  }

  ghost predicate BackendsOk(env: Env) {
    forall alias :: alias in env.declared ==> BackendFault(env, env.declared[alias]).None?
  }

  method CheckBackends(env: Env) returns (fault: Option<ScanError>)
    ensures fault.None? <==> BackendsOk(env)
    ensures fault.None? <==> forall alias :: alias in env.declared ==> (env.declared[alias].ns != "" <==> env.clusterWide)
    ensures fault.Some? ==> fault.value == if env.clusterWide then NamespaceRequired else NamespaceForbidden
  {
    var rest := env.declared.Keys;
    while rest != {}
      invariant rest <= env.declared.Keys
      invariant forall alias :: alias in env.declared && alias !in rest ==> BackendFault(env, env.declared[alias]).None?
    {
      var alias :| alias in rest;
      fault := BackendFault(env, env.declared[alias]);
      if fault.Some? {
        return;
      }
      rest := rest - {alias};
    }
    return None;
  }

  /** What a sound reference has to be resolved from. */
  function Pending(env: Env, r: UserRef): Ref
    requires Sound(env, r)
  {
    var backend := env.declared[r.alias];
    Ref(FlatKey(env, r.alias, r.key), Origin(if env.clusterWide then backend.ns else env.ns, backend.secret, r.key))
  }

  function PendingAll(env: Env, refs: seq<UserRef>): (p: seq<Ref>)
    requires forall r :: r in refs ==> Sound(env, r)
    ensures |p| == |refs| && forall i :: 0 <= i < |refs| ==> p[i] == Pending(env, refs[i])
  {
    seq(|refs|, i requires 0 <= i < |refs| => Pending(env, refs[i]))
  }

  /** All placeholders of the components, in order. */
  function AllPlaceholders(components: seq<Tree>): seq<UserRef> {
    if components == [] then []
    else AllPlaceholders(components[..|components| - 1]) + TreePlaceholders(components[|components| - 1])
  }

  lemma AllPlaceholdersAppend(front: seq<Tree>, last: Tree)
    ensures AllPlaceholders(front + [last]) == AllPlaceholders(front) + TreePlaceholders(last)
  {
    assert (front + [last])[..|front|] == front;
  }

  lemma {:induction false} MorePlaceholders(components: seq<Tree>, n: nat)
    requires n < |components|
    ensures forall r :: r in TreePlaceholders(components[n]) ==> r in AllPlaceholders(components)
  {
    if n < |components| - 1 {
      MorePlaceholders(components[..|components| - 1], n);
    }
  }

  /** Rewrites every component and reports what it queued. It succeeds exactly when the backends are
      well placed and every placeholder is sound; then the queue has one reference per placeholder, and
      the rewritten components have exactly the generated placeholders. */
  method ProcessPipelineSecrets(env: Env, components: seq<Tree>) returns (r: Result<(seq<Tree>, seq<Ref>), ScanError>)
    requires NamesOk(env)
    ensures r.Ok? <==> BackendsOk(env) && AllSound(env, AllPlaceholders(components))
    ensures r.Ok? <==>
              && (forall alias :: alias in env.declared ==> (env.declared[alias].ns != "" <==> env.clusterWide))
              && (forall u :: u in AllPlaceholders(components) ==> Acceptable(env, u))
    ensures r.Ok? ==>
              var (after, pending) := r.value;
              && |after| == |components|
              && pending == PendingAll(env, AllPlaceholders(components))
              && AllPlaceholders(after) == GeneratedAll(env, AllPlaceholders(components))
              && forall i :: 0 <= i < |after| ==> Outline(after[i]) == Outline(components[i])
  {
    var fault := CheckBackends(env);
    if fault.Some? {
      return Err(fault.value);
    }
    r := RewriteComponents(env, components);
    forall u ensures Sound(env, u) <==> Acceptable(env, u) {
      FaultExactly(env, u);
    }
  }

  /** The components processed so far, what was queued for them, and what they were before. */
  ghost predicate Processed(env: Env, components: seq<Tree>, after: seq<Tree>, pending: seq<Ref>) {
    && AllSound(env, AllPlaceholders(components))
    && |after| == |components|
    && pending == PendingAll(env, AllPlaceholders(components))
    && AllPlaceholders(after) == GeneratedAll(env, AllPlaceholders(components))
    && forall i :: 0 <= i < |after| ==> Outline(after[i]) == Outline(components[i])
  }

  method RewriteComponents(env: Env, components: seq<Tree>) returns (r: Result<(seq<Tree>, seq<Ref>), ScanError>)
    requires NamesOk(env)
    ensures r.Ok? <==> AllSound(env, AllPlaceholders(components))
    ensures r.Ok? ==> Processed(env, components, r.value.0, r.value.1)
  {
    var after: seq<Tree> := [];
    var pending: seq<Ref> := [];
    for i := 0 to |components|
      invariant Processed(env, components[..i], after, pending)
    {
      var done := Walk(env, components[i]);
      RewriteCloses(env, components[i]);
      if done.Err? {
        MorePlaceholders(components, i);
        return Err(done.error);
      }
      var (tree, refs) := done.value;
      var queued := Queue(env, refs);
      StepHolds(env, components, i, after, pending, tree, refs);
      after := after + [tree];
      pending := pending + queued;
    }
    assert components[..|components|] == components;
    return Ok((after, pending));
  }

  lemma StepHolds(env: Env, components: seq<Tree>, i: nat, after: seq<Tree>, pending: seq<Ref>, tree: Tree, refs: seq<UserRef>)
    requires i < |components| && Processed(env, components[..i], after, pending)
    requires refs == TreePlaceholders(components[i]) && AllSound(env, refs) && TreePlaceholders(tree) == GeneratedAll(env, refs)
    requires Outline(tree) == Outline(components[i])
    ensures Processed(env, components[..i + 1], after + [tree], pending + PendingAll(env, refs))
  {
    var done := components[..i];
    assert components[..i + 1] == done + [components[i]];
    StepPlaceholders(env, done, components[i], after, pending, tree, refs);
    StepOutlines(done, components[i], after, tree);
  }

  lemma StepPlaceholders(env: Env, done: seq<Tree>, component: Tree, after: seq<Tree>, pending: seq<Ref>, tree: Tree, refs: seq<UserRef>)
    requires AllSound(env, AllPlaceholders(done)) && pending == PendingAll(env, AllPlaceholders(done))
    requires AllPlaceholders(after) == GeneratedAll(env, AllPlaceholders(done))
    requires refs == TreePlaceholders(component) && AllSound(env, refs) && TreePlaceholders(tree) == GeneratedAll(env, refs)
    ensures AllSound(env, AllPlaceholders(done + [component]))
    ensures pending + PendingAll(env, refs) == PendingAll(env, AllPlaceholders(done + [component]))
    ensures AllPlaceholders(after + [tree]) == GeneratedAll(env, AllPlaceholders(done + [component]))
  {
    var users := AllPlaceholders(done);
    AllPlaceholdersAppend(done, component);
    AllPlaceholdersAppend(after, tree);
    AllSoundJoin(env, users, refs);
    GeneratedJoin(env, users, refs);
    PendingJoin(env, users, refs);
  }

  lemma StepOutlines(done: seq<Tree>, component: Tree, after: seq<Tree>, tree: Tree)
    requires |after| == |done| && forall j :: 0 <= j < |after| ==> Outline(after[j]) == Outline(done[j])
    requires Outline(tree) == Outline(component)
    ensures forall j :: 0 <= j < |after + [tree]| ==> Outline((after + [tree])[j]) == Outline((done + [component])[j])
  {
  }

  lemma PendingJoin(env: Env, a: seq<UserRef>, b: seq<UserRef>)
    requires AllSound(env, a) && AllSound(env, b) && AllSound(env, a + b)
    ensures PendingAll(env, a + b) == PendingAll(env, a) + PendingAll(env, b)
  {
  }

  method Queue(env: Env, refs: seq<UserRef>) returns (pending: seq<Ref>)
    requires AllSound(env, refs)
    ensures pending == PendingAll(env, refs)
  {
    pending := [];
    for i := 0 to |refs|
      invariant pending == PendingAll(env, refs[..i])
    {
      assert refs[i] in refs;
      pending := pending + [Pending(env, refs[i])];
    }
    assert refs[..|refs|] == refs;
  }

  /** Where references are resolved: a namespaced pipeline reads from its own namespace only, whatever it
      declares, and a cluster-wide one from the namespace its backend names. */
  lemma ReadsWhereDeclared(env: Env, refs: seq<UserRef>, i: nat)
    requires BackendsOk(env) && AllSound(env, refs) && i < |refs|
    ensures refs[i].alias in env.declared
    ensures var p, backend := PendingAll(env, refs)[i], env.declared[refs[i].alias];
            && p.origin.secret == backend.secret && p.origin.key == refs[i].key
            && (!env.clusterWide ==> p.origin.ns == env.ns && backend.ns == "")
            && (env.clusterWide ==> p.origin.ns == backend.ns != "")
  {
    assert refs[i] in refs && Sound(env, refs[i]);
    assert BackendFault(env, env.declared[refs[i].alias]).None?;
  }

  /** A placeholder of a published config: it names the operator's backend and a legal flat key under
      which the assets hold what the user's reference `r` reads. */
  ghost predicate Served(w: World, env: Env, r: UserRef, g: UserRef, data: Data) {
    && g == UserRef("k8s", FlatKey(env, r.alias, r.key))
    && Word(g.key, ".") && |g.key| <= 253
    && g.key in data && Sound(env, r) && ValueOf(w, Pending(env, r).origin) == Ok(data[g.key])
  }

  /** Once a config that contains this pipeline is resolved, every placeholder left in the pipeline's
      rewritten components is served, one for each of the user's references and in their order. */
  lemma EveryPlaceholderIsServed(w: World, env: Env, components: seq<Tree>, after: seq<Tree>, queue: seq<Ref>)
    requires NamesOk(env) && AllSound(env, AllPlaceholders(components))
    requires AllPlaceholders(after) == GeneratedAll(env, AllPlaceholders(components))
    requires forall r :: r in PendingAll(env, AllPlaceholders(components)) ==> r in queue
    requires Resolved(w, queue).Ok?
    ensures |AllPlaceholders(after)| == |AllPlaceholders(components)|
    ensures forall i :: 0 <= i < |AllPlaceholders(components)| ==>
              Served(w, env, AllPlaceholders(components)[i], AllPlaceholders(after)[i], Resolved(w, queue).value.data)
  {
    var users, data := AllPlaceholders(components), Resolved(w, queue).value.data;
    ResolvedSound(w, queue);
    forall i | 0 <= i < |users| ensures Served(w, env, users[i], AllPlaceholders(after)[i], data) {
      assert users[i] in users;
      var p := PendingAll(env, users)[i];
      assert p in queue && HoldsRef(w, Resolved(w, queue).value, p);
      AliasOfPlaceholder(components, users[i]);
      FlatKeyLegal(env, users[i].alias, users[i].key);
      FaultExactly(env, users[i]);
    }
  }

  lemma {:induction false} AliasOfPlaceholder(components: seq<Tree>, r: UserRef)
    requires r in AllPlaceholders(components)
    ensures ValidAlias(r.alias)
  {
    var n := |components| - 1;
    if r in TreePlaceholders(components[n]) {
      AliasInTree(components[n], r);
    } else {
      AliasOfPlaceholder(components[..n], r);
    }
  }

  lemma {:induction false} AliasInTree(t: Tree, r: UserRef)
    requires r in TreePlaceholders(t)
    ensures ValidAlias(r.alias)
  {
    match t
    case Str(text) => {
      TokenizeCanonical(text);
      CanonicalValid(Tokenize(text));
      AliasInTokens(Tokenize(text), r);
    }
    case Map(items) => AliasInItems(items, r);
    case List(items) => AliasInItems(items, r);
  }

  lemma {:induction false} AliasInItems(items: Items, r: UserRef)
    requires r in ItemsPlaceholders(items)
    ensures ValidAlias(r.alias)
  {
    if r in TreePlaceholders(items.value) {
      AliasInTree(items.value, r);
    } else {
      AliasInItems(items.rest, r);
    }
  }

  lemma {:induction false} AliasInTokens(tokens: seq<Token>, r: UserRef)
    requires r in PlaceholdersOf(tokens) && forall i :: 0 <= i < |tokens| ==> Valid(tokens[i])
    ensures ValidAlias(r.alias)
  {
    var n := |tokens| - 1;
    if r in PlaceholdersOf(tokens[..n]) {
      AliasInTokens(tokens[..n], r);
    } else {
      assert tokens[n].Placeholder? && r == UserRef(tokens[n].alias, tokens[n].key);
    }
  }

  // Flat keys are not injective.

  /** A pipeline whose two references are different and get the same flat key. The collision detector
      compares a pipeline with older ones only; the build refuses the pair. */
  lemma OnePipelineCollidesWithItself(w: World, env: Env, first: Backend, second: Backend)
    requires env.declared == map["a" := first, "a_b" := second] && first != second && env.ns != "" && !env.clusterWide
    requires NamesOk(env) && |env.ns| + |env.name| <= 200 && first.ns == second.ns == ""
    ensures BackendsOk(env)
    ensures var r, s := UserRef("a", "b_c"), UserRef("a_b", "c");
            Sound(env, r) && Sound(env, s) && Pending(env, r).flat == Pending(env, s).flat &&
            Pending(env, r).origin != Pending(env, s).origin && !Agree([Pending(env, r), Pending(env, s)])
  {
    var r, s := UserRef("a", "b_c"), UserRef("a_b", "c");
    FlattenAlike(env);
    var refs := [Pending(env, r), Pending(env, s)];
    assert refs[0] in refs && refs[1] in refs;
  }

  lemma FlattenAlike(env: Env)
    ensures FlatKey(env, "a", "b_c") == FlatKey(env, "a_b", "c")
    ensures |FlatKey(env, "a", "b_c")| == |GenerateName(env.ns, env.name)| + 6
  {
    var name := GenerateName(env.ns, env.name);
    var x, y := name + "-" + "a" + "-" + "b_c", name + "-" + "a_b" + "-" + "c";
    assert x == name + "-a-b_c" && y == name + "-a_b-c";
  }
}
