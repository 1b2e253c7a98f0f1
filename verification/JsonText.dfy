/** Values are put into the published config as text, inside JSON string literals, before anything
    parses it. Decoding such a literal follows section 7 of RFC 8259. */
module JsonText {
  import opened Outcomes
  import opened Totals
  import opened SecretRefs

  const QUOTE: byte := 0x22
  const BACKSLASH: byte := 0x5c

  /** One decoded unit: a byte of the text, or a character above ASCII given by an escape. */
  datatype Unit = Byte(b: byte) | Code(code: nat)

  /** What a literal decodes to, and the text behind its closing quote. */
  datatype Literal = Literal(units: seq<Unit>, rest: Value)

  function HexValue(b: byte): Option<nat> {
    if 0x30 <= b <= 0x39 then Some(b as nat - 0x30)
    else if 0x41 <= b <= 0x46 then Some(b as nat - 0x41 + 10)
    else if 0x61 <= b <= 0x66 then Some(b as nat - 0x61 + 10)
    else None
  }

  function UnitOf(code: nat): Unit {
    if code < 0x80 then Byte(code as byte) else Code(code)
  }

  function HexEscape(s: Value): Option<(Unit, nat)> {
    if |s| < 5 then None
    else
      match (HexValue(s[1]), HexValue(s[2]), HexValue(s[3]), HexValue(s[4]))
      case (Some(a), Some(b), Some(c), Some(d)) => Some((UnitOf(((16 * a + b) * 16 + c) * 16 + d), 5))
      case _ => None
  }

  /** The escape that follows a backslash, and how many bytes it takes. */
  function Escape(s: Value): (r: Option<(Unit, nat)>)
    ensures r.Some? ==> 0 < r.value.1 <= |s|
  {
    if s == [] then None
    else if s[0] == 0x22 || s[0] == 0x5c || s[0] == 0x2f then Some((Byte(s[0]), 1))
    else if s[0] == 0x62 then Some((Byte(0x08), 1))
    else if s[0] == 0x66 then Some((Byte(0x0c), 1))
    else if s[0] == 0x6e then Some((Byte(0x0a), 1))
    else if s[0] == 0x72 then Some((Byte(0x0d), 1))
    else if s[0] == 0x74 then Some((Byte(0x09), 1))
    else if s[0] == 0x75 then HexEscape(s)
    else None
  }

  /** The first unit of the text and how many bytes it takes; none at a quote, at the end or at a byte
      that has to be escaped. */
  function Next(s: Value): (r: Option<(Unit, nat)>)
    ensures r.Some? ==> 0 < r.value.1 <= |s|
  {
    if s == [] || s[0] == QUOTE then None
    else if s[0] == BACKSLASH then
      match Escape(s[1..])
      case None => None
      case Some((u, n)) => Some((u, 1 + n))
    else if s[0] < 0x20 then None
    else Some((Byte(s[0]), 1))
  }

  /** Decodes from behind the opening quote up to and including the closing one. */
  function Decode(s: Value): Option<Literal>
    decreases |s|
  {
    if s != [] && s[0] == QUOTE then Some(Literal([], s[1..]))
    else
      match Next(s)
      case None => None
      case Some((u, n)) =>
        Behind([u], Decode(s[n..]))
  }

  /** A decoded literal with more units in front. */
  function Behind(units: seq<Unit>, o: Option<Literal>): Option<Literal> {
    match o
    case None => None
    case Some(l) => Some(Literal(units + l.units, l.rest))
  }

  lemma BehindTwice(a: seq<Unit>, b: seq<Unit>, o: Option<Literal>)
    ensures Behind(a, Behind(b, o)) == Behind(a + b, o)
    ensures Behind([], o) == o
  {
    if o.Some? {
      assert a + (b + o.value.units) == (a + b) + o.value.units;
      assert [] + o.value.units == o.value.units;
    }
  }

  /** The units of a piece that consists of whole units. */
  function Units(s: Value): Option<seq<Unit>>
    decreases |s|
  {
    if s == [] then Some([])
    else
      match Next(s)
      case None => None
      case Some((u, n)) =>
        match Units(s[n..])
        case None => None
        case Some(us) => Some([u] + us)
  }

  function Bytes(s: Value): (r: seq<Unit>)
    ensures |r| == |s| && forall i :: 0 <= i < |s| ==> r[i] == Byte(s[i])
  {
    seq(|s|, i requires 0 <= i < |s| => Byte(s[i]))
  }

  predicate AllPlain(s: Value) {
    forall b :: b in s ==> Plain(b)
  }

  lemma {:induction false} PlainUnits(s: Value)
    requires AllPlain(s)
    ensures Units(s) == Some(Bytes(s))
  {
    if s != [] {
      assert s[0] in s && forall b :: b in s[1..] ==> b in s;
      PlainUnits(s[1..]);
      assert Bytes(s) == [Byte(s[0])] + Bytes(s[1..]);
    }
  }

  /** Text further on does not change the first unit. */
  lemma NextAppend(a: Value, x: Value)
    requires Next(a).Some?
    ensures Next(a + x) == Next(a)
  {
    assert a[0] == (a + x)[0];
    assert (a + x)[1..] == a[1..] + x;
  }

  /** Whole units decode on their own, whatever follows. */
  lemma {:induction false} DecodeAppend(a: Value, x: Value)
    requires Units(a).Some?
    ensures Decode(a + x) == Behind(Units(a).value, Decode(x))
    decreases |a|
  {
    if a == [] {
      assert a + x == x;
      BehindTwice([], [], Decode(x));
    } else {
      NextAppend(a, x);
      var n := Next(a).value.1;
      assert (a + x)[n..] == a[n..] + x;
      assert a[0] == (a + x)[0];
      DecodeAppend(a[n..], x);
      BehindTwice([Next(a).value.0], Units(a[n..]).value, Decode(x));
    }
  }

  /** No escape contains the letter a placeholder starts with. */
  lemma EscapeStops(a: Value, p: Value)
    requires p != [] && p[0] == 0x53 && a != [] && Next(a + p).Some?
    ensures Next(a).Some?
  {
    var s := a + p;
    assert s[0] == a[0] && s[|a|] == 0x53;
    assert s[1..] == a[1..] + p;
    if a[0] == BACKSLASH {
      var t := s[1..];
      assert t[|a| - 1] == 0x53;
      assert forall i :: 0 <= i < |a| - 1 ==> t[i] == a[1..][i];
    }
  }

  /** Text in front of a placeholder inside a literal consists of whole units. */
  lemma {:induction false} UnitsBefore(a: Value, p: Value, after: Value)
    requires p != [] && p[0] == 0x53 && Decode(a + (p + after)).Some?
    requires |Decode(a + (p + after)).value.rest| < |p + after|
    ensures Units(a).Some?
    decreases |a|
  {
    if a != [] {
      var s := a + (p + after);
      assert s[0] == a[0];
      assert s[1..] == a[1..] + (p + after);
      EscapeStops(a, p + after);
      NextAppend(a, p + after);
      var n := Next(a).value.1;
      assert s[n..] == a[n..] + (p + after);
      UnitsBefore(a[n..], p, after);
    }
  }

  // A literal with placeholders.

  /** The text of a literal: fixed pieces with a placeholder, and the value to put there, between each two. */
  datatype Template = Last(text: Value) | Then(text: Value, placeholder: Value, value: Value, rest: Template)

  function Raw(t: Template): Value {
    match t
    case Last(text) => text
    case Then(text, placeholder, _, rest) => text + (placeholder + Raw(rest))
  }

  function Filled(t: Template): Value {
    match t
    case Last(text) => text
    case Then(text, _, value, rest) => text + (value + Filled(rest))
  }

  /** Placeholders as the operator writes them, and values that pass its guard. */
  predicate Guarded(utf8: Value -> bool, t: Template) {
    t.Then? ==>
      && t.placeholder != [] && t.placeholder[0] == 0x53 && AllPlain(t.placeholder)
      && SafeForJsonText(utf8, t.value) && Guarded(utf8, t.rest)
  }

  /** All fixed pieces are whole units. */
  predicate WholePieces(t: Template) {
    Units(t.text).Some? && (t.Then? ==> WholePieces(t.rest))
  }

  /** What the literal means before the values are put in. */
  function RawUnits(t: Template): seq<Unit>
    requires WholePieces(t)
  {
    Units(t.text).value + if t.Last? then [] else Bytes(t.placeholder) + RawUnits(t.rest)
  }

  /** The same with every placeholder replaced by its value. */
  function FilledUnits(t: Template): seq<Unit>
    requires WholePieces(t)
  {
    Units(t.text).value + if t.Last? then [] else Bytes(t.value) + FilledUnits(t.rest)
  }

  lemma {:induction false} PiecesAreWhole(utf8: Value -> bool, t: Template, tail: Value)
    requires tail != [] && tail[0] == QUOTE && Guarded(utf8, t)
    requires Decode(Raw(t) + tail).Some? && |Decode(Raw(t) + tail).value.rest| == |tail| - 1
    ensures WholePieces(t) && Decode(Raw(t) + tail).value.units == RawUnits(t)
  {
    if t.Last? {
      WholeUntilQuote(t.text, tail);
      DecodeAppend(t.text, tail);
      assert Units(t.text).value + [] == Units(t.text).value;
    } else {
      var after := Raw(t.rest) + tail;
      Shuffle(t.text, t.placeholder, Raw(t.rest), tail);
      assert |after| >= |tail|;
      HoleSplits(t.text, t.placeholder, after);
      assert Decode(after).Some? && |Decode(after).value.rest| == |tail| - 1;
      PiecesAreWhole(utf8, t.rest, tail);
    }
  }

  lemma Shuffle(a: Value, b: Value, c: Value, d: Value)
    ensures (a + (b + c)) + d == a + (b + (c + d))
  {
  }

  lemma {:induction false} WholeUntilQuote(a: Value, tail: Value)
    requires tail != [] && Decode(a + tail).Some? && |Decode(a + tail).value.rest| == |tail| - 1
    ensures Units(a).Some?
    decreases |a|
  {
    if a != [] {
      var s := a + tail;
      assert s[0] == a[0] && |s[1..]| >= |tail|;
      DecodeStep(s);
      var n := Next(s).value.1;
      RestLength(s[n..]);
      NextLocal(a, tail);
      assert s[n..] == a[n..] + tail;
      WholeUntilQuote(a[n..], tail);
    }
  }

  lemma DecodeStep(s: Value)
    requires Decode(s).Some? && s != [] && |Decode(s).value.rest| < |s| - 1
    ensures s[0] != QUOTE && Next(s).Some?
    ensures Decode(s[Next(s).value.1..]).Some? && Decode(s[Next(s).value.1..]).value.rest == Decode(s).value.rest
  {
  }

  lemma NextLocal(a: Value, x: Value)
    requires a != [] && Next(a + x).Some? && Next(a + x).value.1 <= |a|
    ensures Next(a) == Next(a + x)
  {
    var s := a + x;
    assert s[0] == a[0];
    assert forall i :: 0 <= i < |a| - 1 ==> s[1..][i] == a[1..][i];
  }

  /** Every unit takes at least a byte, and so does the closing quote. */
  lemma {:induction false} RestLength(s: Value)
    requires Decode(s).Some?
    ensures |Decode(s).value.units| + 1 + |Decode(s).value.rest| <= |s|
    decreases |s|
  {
    if s[0] != QUOTE {
      RestLength(s[Next(s).value.1..]);
    }
  }

  lemma {:induction false} FilledDecodes(utf8: Value -> bool, t: Template, rest: Value)
    requires Guarded(utf8, t) && WholePieces(t)
    ensures Decode(Filled(t) + ([QUOTE] + rest)) == Some(Literal(FilledUnits(t), rest))
  {
    var tail := [QUOTE] + rest;
    assert Decode(tail) == Some(Literal([], rest));
    match t
    case Last(text) => DecodeAppend(text, tail);
    case Then(text, _, value, inner) => {
      var after := Filled(inner) + tail;
      Shuffle(text, value, Filled(inner), tail);
      FilledDecodes(utf8, inner, rest);
      HoleDecodes(text, value, after);
    }
  }

  /** A literal that goes on behind a placeholder splits there. */
  lemma HoleSplits(text: Value, placeholder: Value, after: Value)
    requires placeholder != [] && placeholder[0] == 0x53 && AllPlain(placeholder)
    requires Decode(text + (placeholder + after)).Some? && |Decode(text + (placeholder + after)).value.rest| < |after|
    ensures Units(text).Some? && Decode(after).Some?
    ensures Decode(text + (placeholder + after)) ==
            Some(Literal(Units(text).value + (Bytes(placeholder) + Decode(after).value.units), Decode(after).value.rest))
  {
    UnitsBefore(text, placeholder, after);
    HoleDecodes(text, placeholder, after);
  }

  lemma HoleDecodes(text: Value, hole: Value, after: Value)
    requires Units(text).Some? && AllPlain(hole)
    ensures Decode(text + (hole + after)) == Behind(Units(text).value + Bytes(hole), Decode(after))
    ensures Decode(after).Some? ==>
              Decode(text + (hole + after)) ==
              Some(Literal(Units(text).value + (Bytes(hole) + Decode(after).value.units), Decode(after).value.rest))
  {
    PlainUnits(hole);
    DecodeAppend(hole, after);
    DecodeAppend(text, hole + after);
    BehindTwice(Units(text).value, Bytes(hole), Decode(after));
  }

  /** Putting guarded values into the text of a literal and then decoding it gives what decoding first
      and then replacing gives, and the literal ends at the same place. */
  lemma SubstitutionCommutes(utf8: Value -> bool, t: Template, rest: Value)
    requires Guarded(utf8, t) && Decode(Raw(t) + ([QUOTE] + rest)).Some?
    requires Decode(Raw(t) + ([QUOTE] + rest)).value.rest == rest
    ensures WholePieces(t)
    ensures Decode(Raw(t) + ([QUOTE] + rest)) == Some(Literal(RawUnits(t), rest))
    ensures Decode(Filled(t) + ([QUOTE] + rest)) == Some(Literal(FilledUnits(t), rest))
  {
    PiecesAreWhole(utf8, t, [QUOTE] + rest);
    FilledDecodes(utf8, t, rest);
  }

  ghost predicate DecodesToItself(value: Value, rest: Value) {
    Decode(value + ([QUOTE] + rest)) == Some(Literal(Bytes(value), rest))
  }

  /** The guard is exact: a value decodes to itself, and the literal ends behind it, exactly when every
      byte is plain. */
  lemma GuardIsExact(value: Value, rest: Value)
    ensures DecodesToItself(value, rest) <==> AllPlain(value)
  {
    if AllPlain(value) {
      PlainUnits(value);
      DecodeAppend(value, [QUOTE] + rest);
      assert Bytes(value) + [] == Bytes(value);
    }
    if DecodesToItself(value, rest) {
      OnlyPlainDecodes(value, rest);
    }
  }

  lemma {:induction false} OnlyPlainDecodes(value: Value, rest: Value)
    requires DecodesToItself(value, rest)
    ensures AllPlain(value)
  {
    if value != [] {
      FirstIsPlain(value, rest);
      RestDecodes(value, rest);
      OnlyPlainDecodes(value[1..], rest);
      assert value == [value[0]] + value[1..];
    }
  }

  lemma RestDecodes(value: Value, rest: Value)
    requires value != [] && Plain(value[0]) && DecodesToItself(value, rest)
    ensures DecodesToItself(value[1..], rest)
  {
    var s := value + ([QUOTE] + rest);
    assert s[0] == value[0] && s[1..] == value[1..] + ([QUOTE] + rest);
    BytesStep(value);
    PlainStep(s, Bytes(value[1..]), rest);
  }

  lemma BytesStep(value: Value)
    requires value != []
    ensures Bytes(value) == [Byte(value[0])] + Bytes(value[1..])
  {
  }

  lemma PlainStep(s: Value, units: seq<Unit>, rest: Value)
    requires s != [] && Plain(s[0]) && Decode(s) == Some(Literal([Byte(s[0])] + units, rest))
    ensures Decode(s[1..]) == Some(Literal(units, rest))
  {
    var l := Decode(s[1..]).value;
    assert ([Byte(s[0])] + l.units)[1..] == l.units;
    assert ([Byte(s[0])] + units)[1..] == units;
  }

  lemma FirstIsPlain(value: Value, rest: Value)
    requires value != [] && DecodesToItself(value, rest)
    ensures Plain(value[0])
  {
    var s := value + ([QUOTE] + rest);
    assert s[0] == value[0] && |s[1..]| > |rest|;
    if value[0] == BACKSLASH {
      EscapeTakesMore(s);
    }
  }

  lemma EscapeTakesMore(s: Value)
    requires Decode(s).Some? && s[0] == BACKSLASH
    ensures |Decode(s).value.units| + 1 + |Decode(s).value.rest| < |s|
  {
    RestLength(s[Next(s).value.1..]);
  }
}
