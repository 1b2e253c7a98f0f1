/** Namespace selectors as text: the single-namespace form generated for namespaced pipelines, and the
    joined form generated for a collapsed source. */
module Selectors {
  import opened Outcomes

  const NAME_LABEL: string := "kubernetes.io/metadata.name"

  predicate HasPrefix(text: string, prefix: string) {
    |prefix| <= |text| && text[..|prefix|] == prefix
  }

  /** None of the characters that make a selector more than one plain name. */
  predicate PlainName(text: string) {
    forall c :: c in text ==> c != ',' && c != '=' && c != '!' && c != '(' && c != ')' && c != ' '
  }

  /** The namespace a selector is scoped to by name: it names one exactly if it is the generated form for it. */
  function SingleNamespaceOf(selector: string): (r: Option<string>)
    ensures forall ns :: r == Some(ns) <==> GeneratedFor(selector, ns)
  {
    var prefix := NAME_LABEL + "=";
    if !HasPrefix(selector, prefix) then
      NotGenerated(selector);
      None
    else
      var ns := selector[|prefix|..];
      OnlyGenerated(selector);
      if ns == "" || !PlainName(ns) then None else Some(ns)
  }

  /** The selector generated for one namespace. */
  predicate GeneratedFor(selector: string, ns: string) {
    ns != "" && PlainName(ns) && selector == NAME_LABEL + "=" + ns
  }

  lemma NotGenerated(selector: string)
    requires !HasPrefix(selector, NAME_LABEL + "=")
    ensures forall ns :: !GeneratedFor(selector, ns)
  {
    forall ns ensures !GeneratedFor(selector, ns) {
      var prefix := NAME_LABEL + "=";
      assert (prefix + ns)[..|prefix|] == prefix;
    }
  }

  lemma OnlyGenerated(selector: string)
    requires HasPrefix(selector, NAME_LABEL + "=")
    ensures var ns := selector[|NAME_LABEL| + 1..];
            forall x :: GeneratedFor(selector, x) <==> x == ns && ns != "" && PlainName(ns)
  {
    var prefix := NAME_LABEL + "=";
    var ns := selector[|prefix|..];
    assert selector == prefix + ns;
    forall x ensures GeneratedFor(selector, x) <==> x == ns && ns != "" && PlainName(ns) {
      assert (prefix + x)[|prefix|..] == x;
    }
  }

  function Join(names: seq<string>): string {
    if |names| == 0 then ""
    else if |names| == 1 then names[0]
    else names[0] + "," + Join(names[1..])
  }

  function InSelector(names: seq<string>): string {
    NAME_LABEL + " in (" + Join(names) + ")"
  }

  /** The pieces between commas. */
  function Split(text: string): (r: seq<string>)
    ensures r != []
  {
    if text == "" then [""]
    else if text[0] == ',' then [""] + Split(text[1..])
    else
      var rest := Split(text[1..]);
      [[text[0]] + rest[0]] + rest[1..]
  }

  lemma {:induction false} SplitOne(name: string)
    requires ',' !in name
    ensures Split(name) == [name]
  {
    if name != "" {
      SplitOne(name[1..]);
      assert name == [name[0]] + name[1..];
    }
  }

  lemma {:induction false} SplitFirst(name: string, rest: string)
    requires ',' !in name
    ensures Split(name + "," + rest) == [name] + Split(rest)
  {
    var text := name + "," + rest;
    if name == "" {
      assert text[1..] == rest;
    } else {
      assert text[1..] == name[1..] + "," + rest;
      SplitFirst(name[1..], rest);
      assert name == [name[0]] + name[1..];
    }
  }

  /** Joining loses nothing. */
  lemma {:induction false} SplitJoin(names: seq<string>)
    requires names != [] && forall n :: n in names ==> ',' !in n
    ensures Split(Join(names)) == names
  {
    assert names[0] in names;
    if |names| == 1 {
      SplitOne(names[0]);
    } else {
      SplitJoin(names[1..]);
      SplitFirst(names[0], Join(names[1..]));
    }
  }

  /** The list inside an "in (...)" selector, when it is a plain list. */
  function ListedIn(selector: string): Option<string> {
    var prefix := NAME_LABEL + " in (";
    if HasPrefix(selector, prefix) && |selector| > |prefix| && selector[|selector| - 1] == ')' then
      var inside := selector[|prefix|..|selector| - 1];
      if forall c :: c in inside ==> c != '(' && c != ')' && c != '=' && c != '!' && c != ' ' then Some(inside) else None
    else None
  }

  /** What a selector selects: the two generated forms by their meaning, any other one by `other`. */
  predicate Selects(other: (string, string) -> bool, selector: string, ns: string) {
    match SingleNamespaceOf(selector)
    case Some(n) => ns == n
    case None =>
      match ListedIn(selector)
      case Some(list) => ns in Split(list)
      case None => other(selector, ns)
  }

  lemma {:induction false} JoinPlain(names: seq<string>)
    requires forall n :: n in names ==> PlainName(n)
    ensures forall c :: c in Join(names) ==> c != '(' && c != ')' && c != '=' && c != '!' && c != ' '
  {
    if |names| > 0 {
      assert names[0] in names;
      if |names| > 1 {
        JoinPlain(names[1..]);
      }
    }
  }

  lemma NotSingle(selector: string)
    requires |selector| > |NAME_LABEL| && selector[|NAME_LABEL|] != '='
    ensures SingleNamespaceOf(selector).None?
  {
    var prefix := NAME_LABEL + "=";
    assert prefix[|NAME_LABEL|] == '=';
    if |prefix| <= |selector| {
      assert selector[..|prefix|][|NAME_LABEL|] != prefix[|NAME_LABEL|];
    }
  }

  /** The joined selector denotes exactly the listed namespaces. */
  lemma InSelectorSelects(other: (string, string) -> bool, names: seq<string>, ns: string)
    requires names != [] && forall n :: n in names ==> PlainName(n)
    ensures Selects(other, InSelector(names), ns) <==> ns in names
  {
    var prefix, selector := NAME_LABEL + " in (", InSelector(names);
    assert selector == prefix + Join(names) + ")";
    assert selector[..|prefix|] == prefix && selector[|prefix|..|selector| - 1] == Join(names);
    NotSingle(selector);
    JoinPlain(names);
    SplitJoin(names);
  }
}
