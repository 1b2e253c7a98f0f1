/** What is read from the Secrets, said about their data directly: which values get into the assets, which
    are refused and with what error, and that every value put into a published text may stand there. */
module SecretValues {
  import opened Outcomes
  import opened Totals
  import opened SecretRefs
  import opened Staging
  import opened SizeBudget
  import opened Bridge
  import opened Placeholders
  import opened JsonText

  ghost predicate SecretExists(w: World, o: Origin) {
    w.fetch(o.ns, o.secret).Some?
  }

  ghost predicate KeyExists(w: World, o: Origin) {
    SecretExists(w, o) && o.key in w.fetch(o.ns, o.secret).value
  }

  /** What the Secret holds under the key. */
  ghost function Stored(w: World, o: Origin): Value
    requires KeyExists(w, o)
  {
    w.fetch(o.ns, o.secret).value[o.key]
  }

  /** The value may stand inside a JSON string as it is: it is empty, or valid UTF-8 without quote,
      backslash and control bytes. */
  ghost predicate Substitutable(w: World, value: Value) {
    value == [] ||
    (w.utf8(value) && forall i :: 0 <= i < |value| ==> value[i] != 0x22 && value[i] != 0x5c && value[i] >= 0x20)
  }

  ghost predicate Usable(w: World, o: Origin) {
    KeyExists(w, o) && Substitutable(w, Stored(w, o))
  }

  /** Reading gives what the Secret holds, or names what is wrong with it. */
  lemma ReadExactly(w: World, o: Origin)
    ensures ValueOf(w, o) ==
            if !SecretExists(w, o) then Err(MissingSecret(o))
            else if !KeyExists(w, o) then Err(MissingKey(o))
            else if !Substitutable(w, Stored(w, o)) then Err(UnsafeValue(o))
            else Ok(Stored(w, o))
  {
    if KeyExists(w, o) {
      var value := Stored(w, o);
      assert (forall b :: b in value ==> Plain(b)) <==>
             forall i :: 0 <= i < |value| ==> value[i] != 0x22 && value[i] != 0x5c && value[i] >= 0x20 by {
        assert (forall b :: b in value ==> Plain(b)) <==> forall i :: 0 <= i < |value| ==> Plain(value[i]);
      }
    }
  }

  ghost predicate Clash(refs: seq<Ref>, i: nat, j: nat)
    requires i < |refs| && j < |refs|
  {
    refs[i].flat == refs[j].flat && refs[i].origin != refs[j].origin
  }

  /** The data of the assets: under each flat key what the Secret behind it holds, and nothing else. */
  ghost predicate HoldsStored(w: World, refs: seq<Ref>, data: Data) {
    && (forall r :: r in refs ==> r.flat in data && KeyExists(w, r.origin) && data[r.flat] == Stored(w, r.origin))
    && (forall k :: k in data ==> exists r :: r in refs && r.flat == k)
  }

  /** Resolution succeeds exactly when no two references clash and every one of them reads a usable value;
      then every reference has that value. */
  lemma ResolvesExactly(w: World, refs: seq<Ref>)
    ensures Resolved(w, refs).Ok? <==>
            (forall i, j :: 0 <= i < j < |refs| ==> !Clash(refs, i, j)) && (forall r :: r in refs ==> Usable(w, r.origin))
    ensures Resolved(w, refs).Ok? ==> HoldsStored(w, refs, Resolved(w, refs).value.data)
  {
    ResolvedExactly(w, refs);
    forall r | r in refs ensures ValueOf(w, r.origin).Ok? <==> Usable(w, r.origin) {
      ReadExactly(w, r.origin);
    }
    AgreeMeansNoClash(refs);
    if Resolved(w, refs).Ok? {
      ResolvedSound(w, refs);
      ResolvedHoldsStored(w, refs, Resolved(w, refs).value);
    }
  }

  lemma AgreeMeansNoClash(refs: seq<Ref>)
    ensures Agree(refs) <==> forall i, j :: 0 <= i < j < |refs| ==> !Clash(refs, i, j)
  {
    if forall i, j :: 0 <= i < j < |refs| ==> !Clash(refs, i, j) {
      forall r, s | r in refs && s in refs && r.flat == s.flat ensures r.origin == s.origin {
        var i :| 0 <= i < |refs| && refs[i] == r;
        var j :| 0 <= j < |refs| && refs[j] == s;
        assert i < j ==> !Clash(refs, i, j);
        assert j < i ==> !Clash(refs, j, i);
      }
    }
  }

  lemma ResolvedHoldsStored(w: World, refs: seq<Ref>, res: Resolution)
    requires Holds(w, refs, res)
    ensures HoldsStored(w, refs, res.data)
  {
    forall r | r in refs ensures r.flat in res.data && KeyExists(w, r.origin) && res.data[r.flat] == Stored(w, r.origin) {
      assert HoldsRef(w, res, r);
      ReadExactly(w, r.origin);
    }
  }

  /** What is wrong with the reference at `i`, given the ones before it. */
  ghost function Blame(w: World, refs: seq<Ref>, i: nat): Failure
    requires i < |refs|
  {
    var o := refs[i].origin;
    if exists j :: 0 <= j < i && Clash(refs, j, i) then Collides(refs[i].flat)
    else if !SecretExists(w, o) then MissingSecret(o)
    else if !KeyExists(w, o) then MissingKey(o)
    else UnsafeValue(o)
  }

  ghost predicate Faulty(w: World, refs: seq<Ref>, i: nat)
    requires i < |refs|
  {
    !Usable(w, refs[i].origin) || exists j :: 0 <= j < i && Clash(refs, j, i)
  }

  /** A failing resolution names the first reference that clashes with an earlier one or reads nothing usable. */
  lemma {:induction false} FirstFault(w: World, refs: seq<Ref>) returns (n: nat)
    requires Resolved(w, refs).Err?
    ensures n < |refs| && Faulty(w, refs, n) && forall i :: 0 <= i < n ==> !Faulty(w, refs, i)
    ensures Resolved(w, refs).error == Blame(w, refs, n)
  {
    var last := |refs| - 1;
    var front := refs[..last];
    if Resolved(w, front).Err? {
      n := FirstFault(w, front);
      forall i | 0 <= i <= n ensures Faulty(w, refs, i) == Faulty(w, front, i) && Blame(w, refs, i) == Blame(w, front, i) {
        PrefixFaults(w, refs, last, i);
      }
    } else {
      n := last;
      ResolvesExactly(w, front);
      ResolvedSound(w, front);
      ReadExactly(w, refs[last].origin);
      ContestedExactly(w, front, Resolved(w, front).value, refs[last]);
      EarlierClash(refs);
      forall i | 0 <= i < n ensures !Faulty(w, refs, i) {
        PrefixFaults(w, refs, last, i);
        assert front[i] in front;
        forall j | 0 <= j < i ensures !Clash(front, j, i) {}
      }
    }
  }

  lemma PrefixFaults(w: World, refs: seq<Ref>, n: nat, i: nat)
    requires i < n <= |refs|
    ensures Faulty(w, refs, i) == Faulty(w, refs[..n], i) && Blame(w, refs, i) == Blame(w, refs[..n], i)
  {
    forall j | 0 <= j < i ensures Clash(refs, j, i) == Clash(refs[..n], j, i) {}
  }

  lemma EarlierClash(refs: seq<Ref>)
    requires refs != []
    ensures var n := |refs| - 1;
            (exists r :: r in refs[..n] && r.flat == refs[n].flat && r.origin != refs[n].origin) <==>
            exists j :: 0 <= j < n && Clash(refs, j, n)
  {
    var n := |refs| - 1;
    if r :| r in refs[..n] && r.flat == refs[n].flat && r.origin != refs[n].origin {
      var j :| 0 <= j < n && refs[..n][j] == r;
      assert Clash(refs, j, n);
    }
    if j :| 0 <= j < n && Clash(refs, j, n) {
      assert refs[j] in refs[..n];
    }
  }

  /** Every value comes from one of the references, unchanged and usable. */
  ghost predicate DrawnFromSecrets(w: World, refs: seq<Ref>, data: Data) {
    forall k :: k in data ==> Drawn(w, refs, k, data[k])
  }

  ghost predicate Drawn(w: World, refs: seq<Ref>, flat: string, value: Value) {
    exists r :: r in refs && r.flat == flat && Usable(w, r.origin) && Stored(w, r.origin) == value
  }

  lemma ReadsAreDrawn(w: World, refs: seq<Ref>, flat: string, value: Value)
    ensures ReadsFrom(w, refs, flat, value) <==> Drawn(w, refs, flat, value)
  {
    forall r | r in refs ensures ValueOf(w, r.origin) == Ok(value) <==> Usable(w, r.origin) && Stored(w, r.origin) == value {
      ReadExactly(w, r.origin);
    }
  }

  /** What a pipeline stages, next to keys that are skipped: on success exactly its other keys, each with a
      usable value of its own. */
  lemma StagedAreDrawn(w: World, refs: seq<Ref>, skip: set<string>)
    requires Staged(w, refs, skip).Ok?
    ensures Staged(w, refs, skip).value.Keys == FlatsOf(refs) - skip
    ensures DrawnFromSecrets(w, refs, Staged(w, refs, skip).value)
  {
    StagedSound(w, refs, skip);
    var m := Staged(w, refs, skip).value;
    forall k | k in m ensures Drawn(w, refs, k, m[k]) {
      assert ReadsFrom(w, refs, k, m[k]);
      ReadsAreDrawn(w, refs, k, m[k]);
    }
  }

  /** No earlier reference has the flat key. */
  ghost predicate FirstOfKey(refs: seq<Ref>, i: nat)
    requires i < |refs|
  {
    forall j :: 0 <= j < i ==> refs[j].flat != refs[i].flat
  }

  ghost predicate FirstsUsable(w: World, refs: seq<Ref>) {
    forall i :: 0 <= i < |refs| && FirstOfKey(refs, i) ==> Usable(w, refs[i].origin)
  }

  lemma FirstsAppend(w: World, front: seq<Ref>, last: Ref)
    ensures FirstsUsable(w, front + [last]) <==>
            FirstsUsable(w, front) && (last.flat !in FlatsOf(front) ==> Usable(w, last.origin))
  {
    var refs, n := front + [last], |front|;
    forall i | 0 <= i < n ensures FirstOfKey(refs, i) == FirstOfKey(front, i) && refs[i] == front[i] {
      assert forall j :: 0 <= j <= i ==> refs[j] == front[j];
    }
    assert FirstOfKey(refs, n) <==> last.flat !in FlatsOf(front) by {
      if last.flat in FlatsOf(front) {
        var r :| r in front && r.flat == last.flat;
        var j :| 0 <= j < n && front[j] == r;
        assert refs[j].flat == refs[n].flat;
      } else {
        forall j | 0 <= j < n ensures refs[j].flat != refs[n].flat {
          assert front[j] in front;
        }
      }
    }
    if FirstsUsable(w, refs) {
      forall i | 0 <= i < n && FirstOfKey(front, i) ensures Usable(w, front[i].origin) {
        assert FirstOfKey(refs, i);
      }
      assert refs[n] == last;
    }
  }

  /** With nothing skipped, staging succeeds exactly when the first reference of each flat key reads a usable value. */
  lemma {:induction false} StagesExactlyWhen(w: World, refs: seq<Ref>)
    ensures Staged(w, refs, {}).Ok? <==> FirstsUsable(w, refs)
  {
    if refs != [] {
      var front, last := refs[..|refs| - 1], refs[|refs| - 1];
      assert refs == front + [last];
      StagesExactlyWhen(w, front);
      ReadExactly(w, last.origin);
      FirstsAppend(w, front, last);
      if Staged(w, front, {}).Ok? {
        StagedSound(w, front, {});
      }
    }
  }

  /** The data counted against the budgets is drawn from the references of the pipelines taken. */
  lemma PackedAreDrawn(w: World, ordered: seq<Pipeline>)
    requires Packed(w, ordered).Ok?
    ensures DrawnFromSecrets(w, AllRefs(Packed(w, ordered).value.taken), Packed(w, ordered).value.data)
  {
    var pk := Packed(w, ordered).value;
    forall k | k in pk.data ensures Drawn(w, AllRefs(pk.taken), k, pk.data[k]) {
      PackedReads(w, ordered, k);
      ReadsAreDrawn(w, AllRefs(pk.taken), k, pk.data[k]);
    }
  }

  /** Bridged data keeps each entry of the Secret or has a value drawn from an admitted pipeline's reference. */
  lemma {:induction false} BridgedAreDrawn(w: World, existing: Data, ps: seq<Pipeline>, k: string)
    requires k in Overlaid(w, existing, ps)
    ensures var value := Overlaid(w, existing, ps)[k];
            Drawn(w, AllRefs(ps), k, value) || (k in existing && value == existing[k])
  {
    if ps != [] {
      var front, p := ps[..|ps| - 1], ps[|ps| - 1];
      assert ps == front + [p];
      AllRefsAppend(front, p);
      if k in StagedData(w, p) {
        StagedAreDrawn(w, p.Refs(), {});
        DrawnMore(w, AllRefs(front), p.Refs(), k, StagedData(w, p)[k]);
      } else {
        BridgedAreDrawn(w, existing, front, k);
        DrawnMore(w, AllRefs(front), p.Refs(), k, Overlaid(w, existing, front)[k]);
      }
    }
  }

  lemma DrawnMore(w: World, a: seq<Ref>, b: seq<Ref>, flat: string, value: Value)
    ensures Drawn(w, a, flat, value) || Drawn(w, b, flat, value) ==> Drawn(w, a + b, flat, value)
  {
    if Drawn(w, a, flat, value) {
      var r :| r in a && r.flat == flat && Usable(w, r.origin) && Stored(w, r.origin) == value;
      assert r in a + b;
    }
    if Drawn(w, b, flat, value) {
      var r :| r in b && r.flat == flat && Usable(w, r.origin) && Stored(w, r.origin) == value;
      assert r in a + b;
    }
  }

  // Filling a published text.

  /** The text's placeholders are the operator's, each filled with what the data holds under its key. */
  ghost predicate FilledFrom(data: Data, t: Template) {
    t.Then? ==>
      && (exists flat :: flat in data && IsPlaceholder(t.placeholder, flat) && t.value == data[flat])
      && FilledFrom(data, t.rest)
  }

  ghost predicate IsPlaceholder(placeholder: Value, flat: string) {
    && ValidKey(flat)
    && |placeholder| == |"SECRET[k8s." + flat + "]"|
    && forall i :: 0 <= i < |placeholder| ==> placeholder[i] as int == ("SECRET[k8s." + flat + "]")[i] as int
  }

  lemma PlaceholderIsPlain(placeholder: Value, flat: string)
    requires IsPlaceholder(placeholder, flat)
    ensures placeholder != [] && placeholder[0] == 0x53 && AllPlain(placeholder)
  {
    var text := "SECRET[k8s." + flat + "]";
    assert text[0] == 'S';
    forall i | 0 <= i < |placeholder| ensures Plain(placeholder[i]) {
      if 11 <= i < 11 + |flat| {
        assert text[i] == flat[i - 11] && KeyChar(flat[i - 11]);
      }
    }
  }

  /** Whatever text of placeholders is filled from resolved data, it meets the conditions under which
      filling and decoding commute. */
  lemma {:induction false} ResolvedFillsGuarded(w: World, refs: seq<Ref>, t: Template)
    requires Resolved(w, refs).Ok? && FilledFrom(Resolved(w, refs).value.data, t)
    ensures Guarded(w.utf8, t)
  {
    if t.Then? {
      var data := Resolved(w, refs).value.data;
      var flat :| flat in data && IsPlaceholder(t.placeholder, flat) && t.value == data[flat];
      PlaceholderIsPlain(t.placeholder, flat);
      ResolvesExactly(w, refs);
      var r :| r in refs && r.flat == flat;
      assert Usable(w, r.origin) && t.value == Stored(w, r.origin);
      ReadExactly(w, r.origin);
      assert SafeForJsonText(w.utf8, t.value);
      ResolvedFillsGuarded(w, refs, t.rest);
    }
  }

  /** A string of a published config whose placeholders are filled from resolved data means what it meant
      before with every placeholder replaced by its value, and ends at the same place. */
  lemma PublishedTextMeansItsValues(w: World, refs: seq<Ref>, t: Template, rest: Value)
    requires Resolved(w, refs).Ok? && FilledFrom(Resolved(w, refs).value.data, t)
    requires Decode(Raw(t) + ([QUOTE] + rest)).Some? && Decode(Raw(t) + ([QUOTE] + rest)).value.rest == rest
    ensures WholePieces(t)
    ensures Decode(Raw(t) + ([QUOTE] + rest)) == Some(Literal(RawUnits(t), rest))
    ensures Decode(Filled(t) + ([QUOTE] + rest)) == Some(Literal(FilledUnits(t), rest))
  {
    ResolvedFillsGuarded(w, refs, t);
    SubstitutionCommutes(w.utf8, t, rest);
  }
}
