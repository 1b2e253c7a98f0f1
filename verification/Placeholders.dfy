/** Finding SECRET[alias.key] placeholders in text, leftmost first and without overlap. */
module Placeholders {
  import opened Outcomes
  import opened Selectors

  const OPEN: string := "SECRET["

  /** A piece of text: a character no placeholder starts at, or a whole placeholder. */
  datatype Token = Char(c: char) | Placeholder(alias: string, key: string)

  predicate AliasChar(c: char) {
    'A' <= c <= 'Z' || 'a' <= c <= 'z' || '0' <= c <= '9' || c == '_'
  }

  predicate KeyChar(c: char) {
    AliasChar(c) || c == '.' || c == '/' || c == '-'
  }

  predicate ValidAlias(alias: string) {
    alias != "" && forall i :: 0 <= i < |alias| ==> AliasChar(alias[i])
  }

  predicate ValidKey(key: string) {
    key != "" && forall i :: 0 <= i < |key| ==> KeyChar(key[i])
  }

  predicate Valid(t: Token) {
    t.Placeholder? ==> ValidAlias(t.alias) && ValidKey(t.key)
  }

  function TokenText(t: Token): (s: string)
    ensures s != ""
  {
    match t
    case Char(c) => [c]
    case Placeholder(alias, key) => OPEN + alias + "." + key + "]"
  }

  function Render(tokens: seq<Token>): string {
    if tokens == [] then "" else TokenText(tokens[0]) + Render(tokens[1..])
  }

  /** How many characters from the start satisfy `ok`. */
  function Run(ok: char -> bool, s: string): (n: nat)
    ensures n <= |s| && forall i :: 0 <= i < n ==> ok(s[i])
    ensures n < |s| ==> !ok(s[n])
  {
    if s == "" || !ok(s[0]) then 0 else 1 + Run(ok, s[1..])
  }

  /** The text before the first `stop`, if it is not empty and all of it is `ok`, and the text after. */
  function Cut(ok: char -> bool, s: string, stop: char): Option<(string, string)> {
    var n := Run(ok, s);
    if n == 0 || n >= |s| || s[n] != stop then None else Some((s[..n], s[n + 1..]))
  }

  lemma CutHolds(ok: char -> bool, s: string, stop: char)
    requires Cut(ok, s, stop).Some?
    ensures var (head, tail) := Cut(ok, s, stop).value;
            head != "" && s == head + ([stop] + tail) && forall i :: 0 <= i < |head| ==> ok(head[i])
  {
  }

  lemma CutFinds(ok: char -> bool, head: string, stop: char, tail: string)
    requires head != "" && !ok(stop) && forall i :: 0 <= i < |head| ==> ok(head[i])
    ensures Cut(ok, head + ([stop] + tail), stop) == Some((head, tail))
  {
    var s := head + ([stop] + tail);
    assert s[|head|] == stop && forall i :: 0 <= i < |head| ==> s[i] == head[i];
    assert Run(ok, s) == |head|;
    assert s[..|head|] == head && s[|head| + 1..] == tail;
  }

  /** The placeholder the text starts with, as the regular expression matches it. */
  function MatchAt(s: string): (m: Option<Token>)
    ensures m.Some? ==> m.value.Placeholder? && Valid(m.value)
  {
    if !HasPrefix(s, OPEN) then None
    else
      match Cut(AliasChar, s[|OPEN|..], '.')
      case None => None
      case Some((alias, tail)) =>
        match Cut(KeyChar, tail, ']')
        case None => None
        case Some((key, _)) => Some(Placeholder(alias, key))
  }

  lemma Regroup(alias: string, key: string, after: string)
    ensures TokenText(Placeholder(alias, key)) + after == OPEN + (alias + (['.'] + (key + ([']'] + after))))
  {
  }

  lemma PrefixOf(p: string, after: string)
    ensures HasPrefix(p + after, p) && (p + after)[|p|..] == after
  {
  }

  lemma MatchIsPrefix(s: string)
    requires MatchAt(s).Some?
    ensures HasPrefix(s, TokenText(MatchAt(s).value))
  {
    var rest := s[|OPEN|..];
    assert s == OPEN + rest;
    CutHolds(AliasChar, rest, '.');
    var (alias, tail) := Cut(AliasChar, rest, '.').value;
    CutHolds(KeyChar, tail, ']');
    var (key, after) := Cut(KeyChar, tail, ']').value;
    Regroup(alias, key, after);
    PrefixOf(TokenText(Placeholder(alias, key)), after);
  }

  /** Whatever follows a placeholder, it is matched, and nothing else is. */
  lemma PlaceholderMatches(t: Token, after: string)
    requires t.Placeholder? && Valid(t)
    ensures MatchAt(TokenText(t) + after) == Some(t)
  {
    var tail := t.key + ([']'] + after);
    Regroup(t.alias, t.key, after);
    PrefixOf(OPEN, t.alias + (['.'] + tail));
    CutFinds(AliasChar, t.alias, '.', tail);
    CutFinds(KeyChar, t.key, ']', after);
  }

  lemma PrefixMatches(s: string, t: Token)
    requires t.Placeholder? && Valid(t) && HasPrefix(s, TokenText(t))
    ensures MatchAt(s) == Some(t)
  {
    var after := s[|TokenText(t)|..];
    assert s == TokenText(t) + after;
    PlaceholderMatches(t, after);
  }

  predicate Word(s: string, more: string) {
    s != "" && forall i :: 0 <= i < |s| ==>
      'A' <= s[i] <= 'Z' || 'a' <= s[i] <= 'z' || '0' <= s[i] <= '9' || s[i] == '_' || s[i] in more
  }

  /** A text starts with a placeholder exactly when it starts with SECRET[ and an alias of letters, digits and
      underscores, a dot, and a key that may also have dots, slashes and dashes, closed by a bracket. */
  lemma MatchesExactly(s: string, alias: string, key: string)
    ensures MatchAt(s) == Some(Placeholder(alias, key)) <==>
            Word(alias, "") && Word(key, "./-") && HasPrefix(s, "SECRET[" + alias + "." + key + "]")
  {
    var t := Placeholder(alias, key);
    assert Valid(t) <==> Word(alias, "") && Word(key, "./-") by {
      assert forall c :: c in "./-" <==> c == '.' || c == '/' || c == '-';
    }
    if MatchAt(s) == Some(t) {
      MatchIsPrefix(s);
    }
    if Valid(t) && HasPrefix(s, TokenText(t)) {
      PrefixMatches(s, t);
    }
  }

  /** The text cut at its placeholders. */
  function Tokenize(s: string): seq<Token>
    decreases |s|
  {
    if s == "" then []
    else
      match MatchAt(s)
      case None => [Char(s[0])] + Tokenize(s[1..])
      case Some(t) =>
        MatchIsPrefix(s);
        [t] + Tokenize(s[|TokenText(t)|..])
  }

  lemma TokenizeStep(s: string)
    requires s != ""
    ensures var t := if MatchAt(s).Some? then MatchAt(s).value else Char(s[0]);
            |TokenText(t)| <= |s| && Tokenize(s) == [t] + Tokenize(s[|TokenText(t)|..])
  {
    if MatchAt(s).Some? {
      MatchIsPrefix(s);
    }
  }

  /** Cutting loses nothing. */
  lemma {:induction false} RenderTokenize(s: string)
    ensures Render(Tokenize(s)) == s
    decreases |s|
  {
    if s != "" {
      var t := if MatchAt(s).Some? then MatchAt(s).value else Char(s[0]);
      TokenizeStep(s);
      var rest := s[|TokenText(t)|..];
      RenderTokenize(rest);
      RenderStep(t, Tokenize(rest));
      StartsWith(s, t);
    }
  }

  lemma RenderStep(t: Token, more: seq<Token>)
    ensures Render([t] + more) == TokenText(t) + Render(more)
  {
    assert ([t] + more)[1..] == more;
  }

  lemma StartsWith(s: string, t: Token)
    requires s != "" && t == (if MatchAt(s).Some? then MatchAt(s).value else Char(s[0]))
    ensures HasPrefix(s, TokenText(t)) && s == TokenText(t) + s[|TokenText(t)|..]
  {
    if MatchAt(s).Some? {
      MatchIsPrefix(s);
    }
  }

  /** No placeholder starts at a character token. */
  ghost predicate Canonical(tokens: seq<Token>) {
    tokens == [] ||
    (Valid(tokens[0]) && Canonical(tokens[1..]) && (tokens[0].Char? ==> MatchAt(Render(tokens)).None?))
  }

  lemma {:induction false} TokenizeCanonical(s: string)
    ensures Canonical(Tokenize(s))
    decreases |s|
  {
    if s != "" {
      RenderTokenize(s);
      match MatchAt(s)
      case None =>
        TokenizeCanonical(s[1..]);
      case Some(t) => {
        MatchIsPrefix(s);
        TokenizeCanonical(s[|TokenText(t)|..]);
      }
    }
  }

  lemma {:induction false} CanonicalTokenize(tokens: seq<Token>)
    requires Canonical(tokens)
    ensures Tokenize(Render(tokens)) == tokens
  {
    if tokens != [] {
      var t, after := tokens[0], Render(tokens[1..]);
      CanonicalTokenize(tokens[1..]);
      if t.Placeholder? {
        PlaceholderMatches(t, after);
      }
      assert Render(tokens)[|TokenText(t)|..] == after;
      assert tokens == [t] + tokens[1..];
    }
  }

  // Replacing placeholders by others.

  /** The same characters at the same places, and placeholders where there were placeholders. */
  predicate SameShape(a: seq<Token>, b: seq<Token>) {
    |a| == |b| && forall i :: 0 <= i < |a| ==> if a[i].Char? then b[i] == a[i] else b[i].Placeholder?
  }

  /** The characters before the first placeholder. */
  function Lead(tokens: seq<Token>): string {
    if tokens == [] || tokens[0].Placeholder? then "" else [tokens[0].c] + Lead(tokens[1..])
  }

  lemma {:induction false} LeadThenPlaceholder(tokens: seq<Token>)
    ensures HasPrefix(Render(tokens), Lead(tokens))
    ensures var after := Render(tokens)[|Lead(tokens)|..]; after == "" || HasPrefix(after, OPEN)
  {
    if tokens != [] {
      if tokens[0].Char? {
        LeadThenPlaceholder(tokens[1..]);
        assert Render(tokens) == [tokens[0].c] + Render(tokens[1..]);
        assert Render(tokens)[|Lead(tokens)|..] == Render(tokens[1..])[|Lead(tokens[1..])|..];
      } else {
        assert Render(tokens)[..|OPEN|] == OPEN;
      }
    }
  }

  lemma {:induction false} SameLead(a: seq<Token>, b: seq<Token>)
    requires SameShape(a, b)
    ensures Lead(a) == Lead(b)
  {
    if a != [] && a[0].Char? {
      SameLead(a[1..], b[1..]);
    }
  }

  /** A placeholder that starts before another one ends before it starts. */
  lemma NoOverlap(u: string, v: string, t: Token)
    requires u != "" && (v == "" || HasPrefix(v, OPEN))
    requires t.Placeholder? && Valid(t) && HasPrefix(u + v, TokenText(t))
    ensures |TokenText(t)| <= |u|
  {
    var p := TokenText(t);
    var n := |u|;
    assert p == (u + v)[..|p|];
    assert forall i :: n <= i < |p| ==> p[i] == v[i - n];
    var seventh := if n + 6 < |p| then p[n + 6] else '[';
    assert seventh == '[';
    BracketsOnlyAtEnds(t);
    assert v != "" ==> v[6] == '[' && forall i :: 0 <= i < 6 ==> v[i] == OPEN[i] && OPEN[i] != ']';
    assert |p| <= n || |p| - 1 - n >= 6;
  }

  lemma BracketsOnlyAtEnds(t: Token)
    requires t.Placeholder? && Valid(t)
    ensures var p := TokenText(t);
            p[|p| - 1] == ']' && forall i :: 0 <= i < |p| && p[i] == '[' ==> i == 6
  {
    var p, n := TokenText(t), |t.alias|;
    assert forall i :: 0 <= i < 7 ==> p[i] == OPEN[i];
    assert forall i :: 0 <= i < n ==> p[7 + i] == t.alias[i];
    assert forall i :: 0 <= i < |t.key| ==> p[8 + n + i] == t.key[i];
    forall i | 7 <= i < |p| ensures p[i] != '[' {
      if i < 7 + n {
        assert p[i] == t.alias[i - 7];
      } else if 7 + n < i < |p| - 1 {
        assert p[i] == t.key[i - 8 - n];
      }
    }
  }

  /** Whether text matches at a character token does not depend on the placeholders further on. */
  lemma MatchIsLocal(a: seq<Token>, b: seq<Token>)
    requires SameShape(a, b) && a != [] && a[0].Char? && MatchAt(Render(b)).Some?
    ensures MatchAt(Render(a)).Some?
  {
    var u, t := Lead(a), MatchAt(Render(b)).value;
    SameLead(a, b);
    LeadThenPlaceholder(a);
    LeadThenPlaceholder(b);
    MatchIsPrefix(Render(b));
    PrefixWithin(Render(a), Render(b), u, t);
    PrefixMatches(Render(a), t);
  }

  lemma PrefixWithin(x: string, y: string, u: string, t: Token)
    requires HasPrefix(x, u) && HasPrefix(y, u) && u != ""
    requires y[|u|..] == "" || HasPrefix(y[|u|..], OPEN)
    requires t.Placeholder? && Valid(t) && HasPrefix(y, TokenText(t))
    ensures HasPrefix(x, TokenText(t))
  {
    var p := TokenText(t);
    assert y == u + y[|u|..];
    NoOverlap(u, y[|u|..], t);
    assert x[..|p|] == u[..|p|] == y[..|p|];
  }

  /** Putting valid placeholders in place of others creates no new one and destroys none. */
  lemma {:induction false} ReplacementIsCanonical(a: seq<Token>, b: seq<Token>)
    requires Canonical(a) && SameShape(a, b) && forall i :: 0 <= i < |b| ==> Valid(b[i])
    ensures Canonical(b) && Tokenize(Render(b)) == b
  {
    if a != [] {
      ReplacementIsCanonical(a[1..], b[1..]);
      if a[0].Char? && MatchAt(Render(b)).Some? {
        MatchIsLocal(a, b);
      }
    }
    CanonicalTokenize(b);
  }
}
