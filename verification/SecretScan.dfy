/** Rewriting the secret references in a pipeline's options to flat keys of the operator's own backend. */
module SecretScan {
  import opened Outcomes
  import opened Placeholders

  const BACKEND_NAME: string := "k8s"
  const MAX_KEY_LENGTH: nat := 253

  /** A backend a pipeline declares: the Secret, and the namespace a cluster-wide pipeline names. */
  datatype Backend = Backend(secret: string, ns: string)

  /** The pipeline being scanned; `ns` is empty for a cluster-wide one. */
  datatype Env = Env(ns: string, name: string, clusterWide: bool, declared: map<string, Backend>)

  /** A reference as the user wrote it. */
  datatype UserRef = UserRef(alias: string, key: string)

  datatype ScanError =
    | Undeclared(alias: string)
    | BadKey(key: string)
    | TooLong(flat: string)
    | NamespaceForbidden
    | NamespaceRequired

  /** An options tree. Maps are listed in the order in which they are visited, which is arbitrary. */
  datatype Tree = Str(text: string) | Map(items: Items) | List(items: Items) | Scalar(text: string)

  datatype Items = Nil | Cons(field: string, value: Tree, rest: Items)

  function GenerateName(ns: string, name: string): string {
    if ns != "" then ns + "-" + name else name
  }

  function Underscored(s: string): (r: string)
    ensures |r| == |s| && forall i :: 0 <= i < |s| ==> r[i] == if s[i] == '-' then '_' else s[i]
  {
    seq(|s|, i requires 0 <= i < |s| => if s[i] == '-' then '_' else s[i])
  }

  function FlatKey(env: Env, alias: string, key: string): string {
    Underscored(GenerateName(env.ns, env.name) + "-" + alias + "-" + key)
  }

  predicate SecretKeyChar(c: char) {
    AliasChar(c) || c == '.' || c == '-'
  }

  predicate ValidSecretKey(key: string) {
    key != "" && forall i :: 0 <= i < |key| ==> SecretKeyChar(key[i])
  }

  /** What is wrong with a reference, if anything. */
  function Fault(env: Env, alias: string, key: string): Option<ScanError> {
    if alias !in env.declared then Some(Undeclared(alias))
    else if !ValidSecretKey(key) then Some(BadKey(key))
    else if |FlatKey(env, alias, key)| > MAX_KEY_LENGTH then Some(TooLong(FlatKey(env, alias, key)))
    else None
  }

  // One string.

  function Replaced(env: Env, t: Token): Token {
    match t
    case Char(_) => t
    case Placeholder(alias, key) =>
      if Fault(env, alias, key).Some? then t else Placeholder(BACKEND_NAME, FlatKey(env, alias, key))
  }

  function ReplacedAll(env: Env, tokens: seq<Token>): (r: seq<Token>)
    ensures |r| == |tokens| && forall i :: 0 <= i < |tokens| ==> r[i] == Replaced(env, tokens[i])
  {
    seq(|tokens|, i requires 0 <= i < |tokens| => Replaced(env, tokens[i]))
  }

  /** The last fault in the text. */
  function LastFault(env: Env, tokens: seq<Token>): Option<ScanError> {
    if tokens == [] then None
    else
      var t := tokens[|tokens| - 1];
      if t.Placeholder? && Fault(env, t.alias, t.key).Some? then Fault(env, t.alias, t.key)
      else LastFault(env, tokens[..|tokens| - 1])
  }

  /** The sound references, in order. */
  function RefsOf(env: Env, tokens: seq<Token>): seq<UserRef> {
    if tokens == [] then []
    else
      var t := tokens[|tokens| - 1];
      RefsOf(env, tokens[..|tokens| - 1]) +
      if t.Placeholder? && Fault(env, t.alias, t.key).None? then [UserRef(t.alias, t.key)] else []
  }

  /** The placeholders of a text, in order. */
  function PlaceholdersOf(tokens: seq<Token>): seq<UserRef> {
    if tokens == [] then []
    else
      var t := tokens[|tokens| - 1];
      PlaceholdersOf(tokens[..|tokens| - 1]) + if t.Placeholder? then [UserRef(t.alias, t.key)] else []
  }

  lemma {:induction false} RenderAppend(a: seq<Token>, t: Token)
    ensures Render(a + [t]) == Render(a) + TokenText(t)
  {
    if a == [] {
      assert (a + [t])[1..] == [];
    } else {
      assert (a + [t])[1..] == a[1..] + [t];
      RenderAppend(a[1..], t);
    }
  }

  lemma ReplacedAppend(env: Env, a: seq<Token>, t: Token)
    ensures ReplacedAll(env, a + [t]) == ReplacedAll(env, a) + [Replaced(env, t)]
  {
  }

  method RewriteString(env: Env, text: string) returns (out: string, refs: seq<UserRef>, fault: Option<ScanError>)
    ensures fault == LastFault(env, Tokenize(text))
    ensures out == Render(ReplacedAll(env, Tokenize(text)))
    ensures refs == RefsOf(env, Tokenize(text))
  {
    out, refs, fault := "", [], None;
    var rest := text;
    ghost var done: seq<Token> := [];
    while rest != ""
      invariant done + Tokenize(rest) == Tokenize(text)
      invariant fault == LastFault(env, done) && refs == RefsOf(env, done)
      invariant out == Render(ReplacedAll(env, done))
      decreases |rest|
    {
      var m := MatchAt(rest);
      var t := if m.Some? then m.value else Char(rest[0]);
      if m.Some? {
        MatchIsPrefix(rest);
        var e := Fault(env, t.alias, t.key);
        if e.Some? {
          fault := e;
          out := out + TokenText(t);
        } else {
          refs := refs + [UserRef(t.alias, t.key)];
          out := out + TokenText(Placeholder(BACKEND_NAME, FlatKey(env, t.alias, t.key)));
        }
      } else {
        out := out + [rest[0]];
      }
      Taken(done, rest, t);
      StepScanned(env, done, t);
      done := done + [t];
      rest := rest[|TokenText(t)|..];
    }
    assert done + [] == done;
  }

  /** What one more token does to the text, the references and the fault. */
  lemma StepScanned(env: Env, done: seq<Token>, t: Token)
    ensures Render(ReplacedAll(env, done + [t])) == Render(ReplacedAll(env, done)) + TokenText(Replaced(env, t))
    ensures RefsOf(env, done + [t]) ==
            RefsOf(env, done) + if t.Placeholder? && Fault(env, t.alias, t.key).None? then [UserRef(t.alias, t.key)] else []
    ensures LastFault(env, done + [t]) ==
            if t.Placeholder? && Fault(env, t.alias, t.key).Some? then Fault(env, t.alias, t.key) else LastFault(env, done)
  {
    ReplacedAppend(env, done, t);
    RenderAppend(ReplacedAll(env, done), Replaced(env, t));
    assert (done + [t])[..|done|] == done;
  }

  lemma Taken(done: seq<Token>, rest: string, t: Token)
    requires rest != "" && t == (if MatchAt(rest).Some? then MatchAt(rest).value else Char(rest[0]))
    ensures |TokenText(t)| <= |rest|
    ensures (done + [t]) + Tokenize(rest[|TokenText(t)|..]) == done + Tokenize(rest)
  {
    TokenizeStep(rest);
    Regrouped(done, t, Tokenize(rest[|TokenText(t)|..]));
  }

  lemma Regrouped(done: seq<Token>, t: Token, more: seq<Token>)
    ensures (done + [t]) + more == done + ([t] + more)
  {
  }

  // What a rewritten string contains.

  /** Kubernetes names: what a flat key is built from besides the reference itself. */
  predicate NamesOk(env: Env) {
    env.name != "" && (forall c :: c in env.name ==> SecretKeyChar(c)) && forall c :: c in env.ns ==> SecretKeyChar(c)
  }

  predicate Sound(env: Env, r: UserRef) {
    Fault(env, r.alias, r.key).None?
  }

  function Generated(env: Env, r: UserRef): UserRef {
    UserRef(BACKEND_NAME, FlatKey(env, r.alias, r.key))
  }

  function GeneratedAll(env: Env, refs: seq<UserRef>): (g: seq<UserRef>)
    ensures |g| == |refs| && forall i :: 0 <= i < |refs| ==> g[i] == Generated(env, refs[i])
  {
    seq(|refs|, i requires 0 <= i < |refs| => Generated(env, refs[i]))
  }

  /** A flat key is a legal key of a Secret and of a placeholder. */
  lemma FlatKeyLegal(env: Env, alias: string, key: string)
    requires NamesOk(env) && ValidAlias(alias) && ValidSecretKey(key)
    ensures var flat := FlatKey(env, alias, key);
            ValidSecretKey(flat) && ValidKey(flat) && Word(flat, ".") && '-' !in flat
  {
    var name := GenerateName(env.ns, env.name);
    var joined := name + "-" + alias + "-" + key;
    assert forall i :: 0 <= i < |name| ==> SecretKeyChar(name[i]);
    forall i | 0 <= i < |joined| ensures SecretKeyChar(joined[i]) {
      if |name| < i <= |name| + |alias| {
        assert joined[i] == alias[i - |name| - 1];
      } else if |name| + |alias| + 1 < i {
        assert joined[i] == key[i - |name| - |alias| - 2];
      }
    }
  }

  lemma UnderscoredJoin(a: string, b: string)
    ensures Underscored(a + b) == Underscored(a) + Underscored(b)
  {
  }

  /** The names and the reference, joined by dashes; the flat key has an underscore for every dash and is
      otherwise the same. */
  lemma FlatKeyCharacters(env: Env, alias: string, key: string)
    ensures var joined := (if env.ns == "" then "" else env.ns + "-") + env.name + "-" + alias + "-" + key;
            var flat := FlatKey(env, alias, key);
            |flat| == |joined| && forall i :: 0 <= i < |flat| ==> flat[i] == if joined[i] == '-' then '_' else joined[i]
  {
    if env.ns != "" {
      assert env.ns + "-" + env.name == GenerateName(env.ns, env.name);
    } else {
      assert "" + env.name == env.name;
    }
  }

  /** What a flat key is made of: the namespace if there is one, the pipeline's name, the alias as it is
      and the source key, in this order, with one underscore between each two. */
  lemma FlatKeyShape(env: Env, alias: string, key: string)
    requires ValidAlias(alias)
    ensures FlatKey(env, alias, key) ==
            (if env.ns == "" then "" else Underscored(env.ns) + "_") + Underscored(env.name) + "_" + alias + "_" + Underscored(key)
  {
    assert Underscored("-") == "_" && Underscored(alias) == alias;
    UnderscoredJoin(env.ns, "-");
    UnderscoredJoin(env.ns + "-", env.name);
    var name := GenerateName(env.ns, env.name);
    UnderscoredJoin(name, "-");
    UnderscoredJoin(name + "-", alias);
    UnderscoredJoin(name + "-" + alias, "-");
    UnderscoredJoin(name + "-" + alias + "-", key);
  }

  lemma ReplacedValid(env: Env, t: Token)
    requires NamesOk(env) && Valid(t)
    ensures Valid(Replaced(env, t)) && (t.Placeholder? <==> Replaced(env, t).Placeholder?)
  {
    if t.Placeholder? && Fault(env, t.alias, t.key).None? {
      FlatKeyLegal(env, t.alias, t.key);
    }
  }

  lemma {:induction false} CanonicalValid(tokens: seq<Token>)
    requires Canonical(tokens)
    ensures forall i :: 0 <= i < |tokens| ==> Valid(tokens[i])
  {
    if tokens != [] {
      CanonicalValid(tokens[1..]);
      assert forall i :: 1 <= i < |tokens| ==> tokens[i] == tokens[1..][i - 1];
    }
  }

  /** Scanning the rewritten text again finds the replaced tokens and nothing else. */
  lemma RewrittenTokens(env: Env, text: string)
    requires NamesOk(env)
    ensures Tokenize(Render(ReplacedAll(env, Tokenize(text)))) == ReplacedAll(env, Tokenize(text))
  {
    var a := Tokenize(text);
    var b := ReplacedAll(env, a);
    TokenizeCanonical(text);
    CanonicalValid(a);
    forall i | 0 <= i < |a| ensures Valid(b[i]) && if a[i].Char? then b[i] == a[i] else b[i].Placeholder? {
      ReplacedValid(env, a[i]);
    }
    ReplacementIsCanonical(a, b);
  }

  lemma {:induction false} FaultsExactly(env: Env, tokens: seq<Token>)
    ensures LastFault(env, tokens).Some? <==> exists r :: r in PlaceholdersOf(tokens) && !Sound(env, r)
    ensures LastFault(env, tokens).None? ==> RefsOf(env, tokens) == PlaceholdersOf(tokens)
  {
    if tokens != [] {
      var n := |tokens| - 1;
      var t, front := tokens[n], PlaceholdersOf(tokens[..n]);
      FaultsExactly(env, tokens[..n]);
      if t.Placeholder? {
        var r := UserRef(t.alias, t.key);
        assert PlaceholdersOf(tokens) == front + [r] && r in PlaceholdersOf(tokens);
        assert forall x :: x in front + [r] <==> x in front || x == r;
      }
    }
  }

  lemma {:induction false} ReplacedPlaceholders(env: Env, tokens: seq<Token>)
    requires LastFault(env, tokens).None?
    ensures PlaceholdersOf(ReplacedAll(env, tokens)) == GeneratedAll(env, PlaceholdersOf(tokens))
  {
    if tokens != [] {
      var n := |tokens| - 1;
      var front, t := tokens[..n], tokens[n];
      assert tokens == front + [t];
      ReplacedAppend(env, front, t);
      ReplacedPlaceholders(env, front);
      assert ReplacedAll(env, tokens)[..n] == ReplacedAll(env, front);
    }
  }

  // A whole tree.

  type Outcome = Result<(Tree, seq<UserRef>), ScanError>

  function RewriteTree(env: Env, t: Tree): Outcome {
    match t
    case Str(text) =>
      var tokens := Tokenize(text);
      var fault := LastFault(env, tokens);
      if fault.Some? then Err(fault.value)
      else Ok((Str(Render(ReplacedAll(env, tokens))), RefsOf(env, tokens)))
    case Map(items) =>
      var r :- RewriteItems(env, items);
      Ok((Map(r.0), r.1))
    case List(items) =>
      var r :- RewriteItems(env, items);
      Ok((List(r.0), r.1))
    case Scalar(_) => Ok((t, []))
  }

  function RewriteItems(env: Env, items: Items): Result<(Items, seq<UserRef>), ScanError> {
    match items
    case Nil => Ok((Nil, []))
    case Cons(field, value, rest) =>
      var first :- RewriteTree(env, value);
      var others :- RewriteItems(env, rest);
      Ok((Cons(field, first.0, others.0), first.1 + others.1))
  }

  method Walk(env: Env, t: Tree) returns (r: Outcome)
    ensures r == RewriteTree(env, t)
    decreases t
  {
    match t
    case Str(text) =>
      var out, refs, fault := RewriteString(env, text);
      return if fault.Some? then Err(fault.value) else Ok((Str(out), refs));
    case Map(items) =>
      var inner :- WalkItems(env, items);
      return Ok((Map(inner.0), inner.1));
    case List(items) =>
      var inner :- WalkItems(env, items);
      return Ok((List(inner.0), inner.1));
    case Scalar(_) =>
      return Ok((t, []));
  }

  method WalkItems(env: Env, items: Items) returns (r: Result<(Items, seq<UserRef>), ScanError>)
    ensures r == RewriteItems(env, items)
    decreases items
  {
    match items
    case Nil =>
      return Ok((Nil, []));
    case Cons(field, value, rest) =>
      var first :- Walk(env, value);
      var others :- WalkItems(env, rest);
      return Ok((Cons(field, first.0, others.0), first.1 + others.1));
  }

  /** All placeholders of a tree, in order. */
  function TreePlaceholders(t: Tree): seq<UserRef> {
    match t
    case Str(text) => PlaceholdersOf(Tokenize(text))
    case Map(items) => ItemsPlaceholders(items)
    case List(items) => ItemsPlaceholders(items)
    case Scalar(_) => []
  }

  function ItemsPlaceholders(items: Items): seq<UserRef> {
    match items
    case Nil => []
    case Cons(_, value, rest) => TreePlaceholders(value) + ItemsPlaceholders(rest)
  }

  /** A tree read from left to right, with a hole for every placeholder. */
  datatype Mark = Letter(c: char) | Hole | End | MapStart | ListStart | Field(name: string) | Value(text: string)

  function Blanked(tokens: seq<Token>): (r: seq<Mark>)
    ensures |r| == |tokens|
    ensures forall i :: 0 <= i < |tokens| ==> r[i] == if tokens[i].Char? then Letter(tokens[i].c) else Hole
  {
    seq(|tokens|, i requires 0 <= i < |tokens| => if tokens[i].Char? then Letter(tokens[i].c) else Hole)
  }

  function Outline(t: Tree): seq<Mark> {
    match t
    case Str(text) => Blanked(Tokenize(text)) + [End]
    case Map(items) => [MapStart] + ItemsOutline(items) + [End]
    case List(items) => [ListStart] + ItemsOutline(items) + [End]
    case Scalar(text) => [Value(text)]
  }

  function ItemsOutline(items: Items): seq<Mark> {
    match items
    case Nil => []
    case Cons(field, value, rest) => [Field(field)] + Outline(value) + ItemsOutline(rest)
  }

  ghost predicate AllSound(env: Env, refs: seq<UserRef>) {
    forall r :: r in refs ==> Sound(env, r)
  }

  lemma AllSoundJoin(env: Env, a: seq<UserRef>, b: seq<UserRef>)
    ensures AllSound(env, a + b) <==> AllSound(env, a) && AllSound(env, b)
  {
    assert forall r :: r in a + b <==> r in a || r in b;
  }

  lemma GeneratedJoin(env: Env, a: seq<UserRef>, b: seq<UserRef>)
    ensures GeneratedAll(env, a + b) == GeneratedAll(env, a) + GeneratedAll(env, b)
  {
  }

  function Nth(items: Items, i: nat): Option<Tree> {
    match items
    case Nil => None
    case Cons(_, value, rest) => if i == 0 then Some(value) else Nth(rest, i - 1)
  }

  /** The part of the tree that is reached by going to a child of a map or list again and again. */
  function At(t: Tree, path: seq<nat>): Option<Tree>
    decreases |path|
  {
    if path == [] then Some(t)
    else if t.Map? || t.List? then
      match Nth(t.items, path[0])
      case None => None
      case Some(child) => At(child, path[1..])
    else None
  }

  lemma {:induction false} NthRewritten(env: Env, items: Items, i: nat)
    requires RewriteItems(env, items).Ok?
    ensures var after := RewriteItems(env, items).value.0;
            match Nth(items, i)
            case None => Nth(after, i).None?
            case Some(child) => RewriteTree(env, child).Ok? && Nth(after, i) == Some(RewriteTree(env, child).value.0)
  {
    if items.Cons? && i > 0 {
      NthRewritten(env, items.rest, i - 1);
    }
  }

  /** Wherever a text stands in the tree, however deep in maps and lists, the rewritten tree has its rewritten text
      there, and every other value as it was. */
  lemma {:induction false} RewritesEverywhere(env: Env, t: Tree, path: seq<nat>)
    requires RewriteTree(env, t).Ok? && At(t, path).Some?
    ensures var part, after := At(t, path).value, At(RewriteTree(env, t).value.0, path);
            && after.Some?
            && (part.Str? ==> after.value == Str(Render(ReplacedAll(env, Tokenize(part.text)))))
            && (part.Scalar? ==> after.value == part)
    decreases |path|
  {
    if path != [] {
      NthRewritten(env, t.items, path[0]);
      RewritesEverywhere(env, Nth(t.items, path[0]).value, path[1..]);
    }
  }

  /** How long the generated key gets: the names and the reference, with a separator between each two. */
  function FlatLength(env: Env, r: UserRef): nat {
    (if env.ns == "" then 0 else |env.ns| + 1) + |env.name| + 1 + |r.alias| + 1 + |r.key|
  }

  /** The alias is declared, the key has only letters, digits, underscores, dots and dashes, and the
      generated key is no longer than Kubernetes allows. */
  predicate Acceptable(env: Env, r: UserRef) {
    r.alias in env.declared && Word(r.key, ".-") && FlatLength(env, r) <= 253
  }

  /** What is reported about a reference that is not. */
  predicate Blames(env: Env, r: UserRef, e: ScanError) {
    if r.alias !in env.declared then e == Undeclared(r.alias)
    else if !Word(r.key, ".-") then e == BadKey(r.key)
    else FlatLength(env, r) > 253 && e == TooLong(FlatKey(env, r.alias, r.key))
  }

  lemma FaultExactly(env: Env, r: UserRef)
    ensures Sound(env, r) <==> Acceptable(env, r)
    ensures forall e :: Fault(env, r.alias, r.key) == Some(e) <==> Blames(env, r, e)
  {
    assert ValidSecretKey(r.key) <==> Word(r.key, ".-") by {
      assert forall c :: c in ".-" <==> c == '.' || c == '-';
    }
    assert |FlatKey(env, r.alias, r.key)| == FlatLength(env, r);
  }

  lemma {:induction false} LastFaultBlames(env: Env, tokens: seq<Token>)
    requires LastFault(env, tokens).Some?
    ensures exists r :: r in PlaceholdersOf(tokens) && Blames(env, r, LastFault(env, tokens).value)
  {
    var n := |tokens| - 1;
    var t := tokens[n];
    var more := PlaceholdersOf(tokens[..n]);
    if t.Placeholder? && Fault(env, t.alias, t.key).Some? {
      var r := UserRef(t.alias, t.key);
      FaultExactly(env, r);
      assert PlaceholdersOf(tokens) == more + [r] && r in more + [r];
    } else {
      LastFaultBlames(env, tokens[..n]);
      var r :| r in more && Blames(env, r, LastFault(env, tokens).value);
      assert r in PlaceholdersOf(tokens);
    }
  }

  /** A tree is rewritten exactly when every placeholder in it is acceptable; otherwise the error is about one
      that is not. */
  lemma {:induction false} RewritesExactly(env: Env, t: Tree)
    ensures RewriteTree(env, t).Ok? <==> forall r :: r in TreePlaceholders(t) ==> Acceptable(env, r)
    ensures RewriteTree(env, t).Err? ==> exists r :: r in TreePlaceholders(t) && Blames(env, r, RewriteTree(env, t).error)
  {
    match t
    case Str(text) => {
      var tokens := Tokenize(text);
      FaultsExactly(env, tokens);
      forall r ensures Sound(env, r) <==> Acceptable(env, r) { FaultExactly(env, r); }
      if LastFault(env, tokens).Some? {
        LastFaultBlames(env, tokens);
      }
    }
    case Map(items) => ItemsRewriteExactly(env, items);
    case List(items) => ItemsRewriteExactly(env, items);
    case Scalar(_) =>
  }

  lemma {:induction false} ItemsRewriteExactly(env: Env, items: Items)
    ensures RewriteItems(env, items).Ok? <==> forall r :: r in ItemsPlaceholders(items) ==> Acceptable(env, r)
    ensures RewriteItems(env, items).Err? ==> exists r :: r in ItemsPlaceholders(items) && Blames(env, r, RewriteItems(env, items).error)
  {
    match items
    case Nil =>
    case Cons(_, value, rest) => {
      RewritesExactly(env, value);
      ItemsRewriteExactly(env, rest);
      assert forall r :: r in ItemsPlaceholders(items) <==> r in TreePlaceholders(value) || r in ItemsPlaceholders(rest);
    }
  }

  /** Rewriting succeeds exactly when every placeholder in the tree is sound. Then it reports them all,
      and a second scan of the result finds exactly the generated placeholders, in the same order and the same places. */
  lemma {:induction false} RewriteCloses(env: Env, t: Tree)
    requires NamesOk(env)
    ensures RewriteTree(env, t).Ok? <==> AllSound(env, TreePlaceholders(t))
    ensures RewriteTree(env, t).Ok? ==>
              var (after, refs) := RewriteTree(env, t).value;
              refs == TreePlaceholders(t) && TreePlaceholders(after) == GeneratedAll(env, refs) && Outline(after) == Outline(t)
  {
    match t
    case Str(text) => {
      FaultsExactly(env, Tokenize(text));
      if LastFault(env, Tokenize(text)).None? {
        RewrittenTokens(env, text);
        ReplacedPlaceholders(env, Tokenize(text));
        assert Blanked(ReplacedAll(env, Tokenize(text))) == Blanked(Tokenize(text));
      }
    }
    case Map(items) => ItemsClose(env, items);
    case List(items) => ItemsClose(env, items);
    case Scalar(_) =>
  }

  lemma {:induction false} ItemsClose(env: Env, items: Items)
    requires NamesOk(env)
    ensures RewriteItems(env, items).Ok? <==> AllSound(env, ItemsPlaceholders(items))
    ensures RewriteItems(env, items).Ok? ==>
              var (after, refs) := RewriteItems(env, items).value;
              refs == ItemsPlaceholders(items) && ItemsPlaceholders(after) == GeneratedAll(env, refs) &&
              ItemsOutline(after) == ItemsOutline(items)
  {
    match items
    case Nil =>
    case Cons(_, value, rest) => {
      RewriteCloses(env, value);
      ItemsClose(env, rest);
      AllSoundJoin(env, TreePlaceholders(value), ItemsPlaceholders(rest));
      GeneratedJoin(env, TreePlaceholders(value), ItemsPlaceholders(rest));
    }
  }

  /** A second rewrite by the same rules refuses the generated placeholders unless the pipeline itself
      declares a backend of the operator's name: rewriting is not meant to be repeated. */
  lemma RewrittenIsRefusedAgain(env: Env, t: Tree)
    requires NamesOk(env) && RewriteTree(env, t).Ok? && TreePlaceholders(t) != [] && BACKEND_NAME !in env.declared
    ensures RewriteTree(env, RewriteTree(env, t).value.0).Err?
  {
    RewriteCloses(env, t);
    var (after, refs) := RewriteTree(env, t).value;
    RewriteCloses(env, after);
    assert TreePlaceholders(after)[0] in TreePlaceholders(after);
    assert !Sound(env, TreePlaceholders(after)[0]);
  }
}
