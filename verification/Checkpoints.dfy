/** Merging Vector's file positions across source directories, so that a renamed source resumes every
    file where its predecessors stopped. */
module Checkpoints {
  import opened Outcomes
  import opened Ordering

  /** One element of a checkpoint file; `raw` is its text, which is copied as it is. */
  datatype Entry = Entry(fingerprint: string, position: nat, raw: string)

  /** A directory's checkpoint file. One of another version or format is unreadable. */
  datatype File = Absent | Unreadable | Readable(entries: seq<Entry>)

  type Dirs = map<string, File>

  // What files say.

  /** Where a reader of the list resumes: the last entry of a fingerprint counts. */
  function Latest(entries: seq<Entry>): (r: map<string, Entry>)
    ensures forall fp :: fp in r ==> r[fp] in entries && r[fp].fingerprint == fp
    ensures forall e :: e in entries ==> e.fingerprint in r
  {
    if entries == [] then map[]
    else
      var e := entries[|entries| - 1];
      assert entries == entries[..|entries| - 1] + [e];
      Latest(entries[..|entries| - 1])[e.fingerprint := e]
  }

  function EntriesIn(dirs: Dirs, d: string): seq<Entry> {
    if d in dirs && dirs[d].Readable? then dirs[d].entries else []
  }

  function Position(dirs: Dirs, d: string, fp: string): Option<nat> {
    var latest := Latest(EntriesIn(dirs, d));
    if fp in latest then Some(latest[fp].position) else None
  }

  ghost predicate HeldIn(dirs: Dirs, d: string, e: Entry) {
    e in EntriesIn(dirs, d)
  }

  /** For every fingerprint in some readable file, the entry with the highest position. */
  ghost predicate Merged(dirs: Dirs, merged: map<string, Entry>) {
    && (forall fp :: fp in merged ==> merged[fp].fingerprint == fp && exists d :: HeldIn(dirs, d, merged[fp]))
    && (forall d, e :: HeldIn(dirs, d, e) ==> Covers(merged, e))
  }

  ghost predicate Covers(merged: map<string, Entry>, e: Entry) {
    e.fingerprint in merged && e.position <= merged[e.fingerprint].position
  }

  // What a target becomes.

  predicate Better(latest: map<string, Entry>, fp: string, m: Entry) {
    fp !in latest || m.position > latest[fp].position
  }

  /** The merge has something to add to a file or to advance in it. */
  ghost predicate Changes(latest: map<string, Entry>, merged: map<string, Entry>) {
    exists fp :: fp in merged && Better(latest, fp, merged[fp])
  }

  /** Every fingerprint at the higher of the two positions; a file keeps its own entry on a tie. */
  ghost predicate Improved(latest: map<string, Entry>, merged: map<string, Entry>, result: map<string, Entry>) {
    && result.Keys == latest.Keys + merged.Keys
    && forall fp :: fp in result ==>
         result[fp] == if fp in merged && Better(latest, fp, merged[fp]) then merged[fp] else latest[fp]
  }

  predicate ByFingerprint(a: Entry, b: Entry) {
    Less(a.fingerprint, b.fingerprint)
  }

  /** A file as it is written: each fingerprint once, in byte order. */
  ghost predicate Lists(entries: seq<Entry>, result: map<string, Entry>) {
    && Sorted(ByFingerprint, entries)
    && (forall i, j :: 0 <= i < j < |entries| ==> entries[i].fingerprint != entries[j].fingerprint)
    && (forall e :: e in entries <==> e.fingerprint in result && result[e.fingerprint] == e)
  }

  ghost predicate Same(before: Dirs, after: Dirs, d: string) {
    (d in before <==> d in after) && (d in before ==> after[d] == before[d])
  }

  /** A target with nothing to do: its file cannot be read, or the merge has nothing for it. */
  ghost predicate Idle(before: Dirs, merged: map<string, Entry>, d: string) {
    (d in before && before[d].Unreadable?) || !Changes(Latest(EntriesIn(before, d)), merged)
  }

  /** What a run leaves of one target directory. `ok` says whether it can be written. */
  ghost predicate TargetAfter(before: Dirs, after: Dirs, merged: map<string, Entry>, d: string, ok: bool) {
    if Idle(before, merged, d) then Same(before, after, d)
    else if !ok then Same(before, after, d) || (d !in before && d in after && after[d] == Absent)
    else
      && d in after && after[d].Readable?
      && exists result :: Improved(Latest(EntriesIn(before, d)), merged, result) && Lists(after[d].entries, result)
  }

  // The run.

  method MergeAll(dirs: Dirs, order: seq<string>) returns (merged: map<string, Entry>)
    requires forall d :: d in order <==> d in dirs
    ensures Merged(dirs, merged)
  {
    merged := map[];
    for i := 0 to |order|
      invariant forall fp :: fp in merged ==> merged[fp].fingerprint == fp && exists d :: HeldIn(dirs, d, merged[fp])
      invariant forall j, e :: 0 <= j < i && HeldIn(dirs, order[j], e) ==> Covers(merged, e)
    {
      if dirs[order[i]].Readable? {
        merged := MergeFile(dirs, order[i], merged);
      }
    }
    forall d, e | HeldIn(dirs, d, e) ensures Covers(merged, e) {
      assert d in order;
    }
  }

  method MergeFile(dirs: Dirs, d: string, before: map<string, Entry>) returns (merged: map<string, Entry>)
    requires d in dirs && dirs[d].Readable?
    requires forall fp :: fp in before ==> before[fp].fingerprint == fp && exists x :: HeldIn(dirs, x, before[fp])
    ensures forall fp :: fp in merged ==> merged[fp].fingerprint == fp && exists x :: HeldIn(dirs, x, merged[fp])
    ensures forall e :: HeldIn(dirs, d, e) || Covers(before, e) ==> Covers(merged, e)
  {
    merged := before;
    var entries := dirs[d].entries;
    for i := 0 to |entries|
      invariant forall fp :: fp in merged ==> merged[fp].fingerprint == fp && exists x :: HeldIn(dirs, x, merged[fp])
      invariant forall j :: 0 <= j < i ==> Covers(merged, entries[j])
      invariant forall e :: Covers(before, e) ==> Covers(merged, e)
    {
      var e := entries[i];
      assert HeldIn(dirs, d, e);
      if e.fingerprint !in merged || e.position > merged[e.fingerprint].position {
        merged := merged[e.fingerprint := e];
      }
    }
  }

  method ReadLatest(entries: seq<Entry>) returns (latest: map<string, Entry>)
    ensures latest == Latest(entries)
  {
    latest := map[];
    for i := 0 to |entries|
      invariant latest == Latest(entries[..i])
    {
      LatestStep(entries, i);
      latest := latest[entries[i].fingerprint := entries[i]];
    }
    assert entries[..|entries|] == entries;
  }

  lemma LatestStep(entries: seq<Entry>, i: nat)
    requires i < |entries|
    ensures Latest(entries[..i + 1]) == Latest(entries[..i])[entries[i].fingerprint := entries[i]]
  {
    assert entries[..i + 1][..i] == entries[..i];
  }

  /** The improved file, and how many of its entries the merge has added or advanced. */
  method Improve(latest: map<string, Entry>, merged: map<string, Entry>) returns (result: map<string, Entry>, changed: nat)
    ensures Improved(latest, merged, result)
    ensures changed == 0 <==> !Changes(latest, merged)
  {
    result, changed := latest, 0;
    var rest := merged.Keys;
    while rest != {}
      invariant rest <= merged.Keys
      invariant result.Keys == latest.Keys + (merged.Keys - rest)
      invariant forall fp :: fp in result ==>
                  result[fp] == if fp in merged && fp !in rest && Better(latest, fp, merged[fp]) then merged[fp] else latest[fp]
      invariant changed == 0 <==> forall fp :: fp in merged && fp !in rest ==> !Better(latest, fp, merged[fp])
    {
      var fp :| fp in rest;
      assert fp in result <==> fp in latest;
      if fp !in result || merged[fp].position > result[fp].position {
        result := result[fp := merged[fp]];
        changed := changed + 1;
      }
      rest := rest - {fp};
    }
  }

  method SortedValues(result: map<string, Entry>) returns (entries: seq<Entry>)
    requires forall fp :: fp in result ==> result[fp].fingerprint == fp
    ensures Lists(entries, result)
  {
    var values: seq<Entry> := [];
    var rest := result.Keys;
    while rest != {}
      invariant rest <= result.Keys
      invariant Distinct(values)
      invariant forall e :: e in values <==> e.fingerprint in result && e.fingerprint !in rest && result[e.fingerprint] == e
    {
      var fp :| fp in rest;
      assert result[fp] !in values;
      values := values + [result[fp]];
      rest := rest - {fp};
    }
    entries := Sort(ByFingerprint, values);
    ValuesSorted(values, result);
  }

  lemma ValuesSorted(values: seq<Entry>, result: map<string, Entry>)
    requires Distinct(values) && forall e :: e in values <==> e.fingerprint in result && result[e.fingerprint] == e
    ensures Lists(Sort(ByFingerprint, values), result)
  {
    var entries := Sort(ByFingerprint, values);
    FingerprintOrders(values);
    SortSorts(ByFingerprint, values);
    DistinctCounts(values);
    CountsDistinct(entries);
    forall i, j | 0 <= i < j < |entries| ensures entries[i].fingerprint != entries[j].fingerprint {
      assert entries[i] in values && entries[j] in values && entries[i] != entries[j];
    }
  }

  lemma FingerprintOrders(s: seq<Entry>)
    requires forall a, b :: a in s && b in s && a.fingerprint == b.fingerprint ==> a == b
    ensures Orders(ByFingerprint, s)
  {
    forall x, y, z | ByFingerprint(x, y) && ByFingerprint(y, z) ensures ByFingerprint(x, z) {
      LessTransitive(x.fingerprint, y.fingerprint, z.fingerprint);
    }
    forall x, y ensures ByFingerprint(x, y) ==> !ByFingerprint(y, x) {
      LessTotal(x.fingerprint, y.fingerprint);
    }
    forall x, y | x in s && y in s && x != y ensures ByFingerprint(x, y) || ByFingerprint(y, x) {
      LessTotal(x.fingerprint, y.fingerprint);
    }
  }

  /** Reading back what was written. */
  lemma {:induction false} ListedLatest(entries: seq<Entry>, result: map<string, Entry>)
    requires Lists(entries, result) && forall fp :: fp in result ==> result[fp].fingerprint == fp
    ensures Latest(entries) == result
  {
    var latest := Latest(entries);
    forall fp ensures fp in latest <==> fp in result {
      if fp in result {
        assert result[fp] in entries;
      }
    }
  }

  /** An improved file has nothing left to improve. */
  lemma ImprovedIsDone(latest: map<string, Entry>, merged: map<string, Entry>, result: map<string, Entry>)
    requires Improved(latest, merged, result)
    ensures !Changes(result, merged)
  {
  }

  /** The data directory. */
  class DataDir {
    var dirs: Dirs

    constructor (dirs: Dirs)
      ensures this.dirs == dirs
    {
      this.dirs := dirs;
    }

    /** Brings one target up to date and says whether it wrote. A failure to create the directory or to
        replace the file leaves the file as it was. */
    method UpdateTarget(src: string, merged: map<string, Entry>, canMake: bool, canWrite: bool) returns (wrote: bool)
      requires forall fp :: fp in merged ==> merged[fp].fingerprint == fp
      modifies this
      ensures TargetAfter(old(dirs), dirs, merged, src, canMake && canWrite)
      ensures forall d :: d != src ==> Same(old(dirs), dirs, d)
      ensures Idle(old(dirs), merged, src) ==> !wrote && dirs == old(dirs)
      ensures wrote <==> !Idle(old(dirs), merged, src) && canMake && canWrite
    {
      wrote := false;
      if src in dirs && dirs[src].Unreadable? {
        return;
      }
      var latest := ReadLatest(if src in dirs && dirs[src].Readable? then dirs[src].entries else []);
      var result, changed := Improve(latest, merged);
      if changed == 0 || !canMake {
        return;
      }
      if src !in dirs {
        dirs := dirs[src := Absent];
      }
      if !canWrite {
        return;
      }
      var entries := SortedValues(result);
      dirs := dirs[src := Readable(entries)];
      wrote := true;
    }

    /** Merges every readable directory into every source's directory. `order` lists the directories as
        they are read; `canMake` and `canWrite` say where creating a directory and replacing a file work. */
    method Consolidate(order: seq<string>, sources: seq<string>, canMake: string -> bool, canWrite: string -> bool)
        returns (ghost merged: map<string, Entry>, wrote: seq<string>)
      requires forall d :: d in order <==> d in dirs
      modifies this
      ensures Merged(old(dirs), merged)
      ensures RunSoFar(old(dirs), dirs, merged, sources, canMake, canWrite)
      ensures AllCurrent(old(dirs), merged, sources) ==> wrote == [] && dirs == old(dirs)
      ensures forall d :: d in wrote <==> d in sources && !Idle(old(dirs), merged, d) && canMake(d) && canWrite(d)
    {
      var all := MergeAll(dirs, order);
      merged := all;
      wrote := [];
      if all != map[] {
        wrote := UpdateAll(sources, all, canMake, canWrite);
      }
    }

    method UpdateAll(sources: seq<string>, merged: map<string, Entry>, canMake: string -> bool,
        canWrite: string -> bool) returns (wrote: seq<string>)
      requires forall fp :: fp in merged ==> merged[fp].fingerprint == fp
      modifies this
      ensures RunSoFar(old(dirs), dirs, merged, sources, canMake, canWrite)
      ensures AllCurrent(old(dirs), merged, sources) ==> wrote == [] && dirs == old(dirs)
      ensures forall d :: d in wrote <==> d in sources && !Idle(old(dirs), merged, d) && canMake(d) && canWrite(d)
    {
      wrote := [];
      for i := 0 to |sources|
        invariant RunSoFar(old(dirs), dirs, merged, sources[..i], canMake, canWrite)
        invariant AllCurrent(old(dirs), merged, sources) ==> wrote == [] && dirs == old(dirs)
        invariant forall d :: d in wrote <==> d in sources[..i] && !Idle(old(dirs), merged, d) && canMake(d) && canWrite(d)
      {
        ghost var before := dirs;
        var done := UpdateTarget(sources[i], merged, canMake(sources[i]), canWrite(sources[i]));
        RunStep(old(dirs), before, dirs, merged, sources[..i], sources[i], canMake, canWrite);
        assert sources[..i + 1] == sources[..i] + [sources[i]] && sources[i] in sources;
        WroteStep(old(dirs), before, merged, sources[..i], sources[i], canMake, canWrite);
        if done {
          wrote := wrote + [sources[i]];
        }
      }
      assert sources[..|sources|] == sources;
    }
  }

  /** The targets are done and all other directories are as before. */
  ghost predicate RunSoFar(before: Dirs, after: Dirs, merged: map<string, Entry>, targets: seq<string>,
      canMake: string -> bool, canWrite: string -> bool) {
    && (forall fp :: fp in merged ==> merged[fp].fingerprint == fp)
    && (forall d :: d in targets ==> TargetAfter(before, after, merged, d, canMake(d) && canWrite(d)))
    && (forall d :: d !in targets ==> Same(before, after, d))
  }

  /** There is nothing to do for any of the targets. */
  ghost predicate AllCurrent(before: Dirs, merged: map<string, Entry>, targets: seq<string>) {
    forall d :: d in targets ==> Idle(before, merged, d)
  }

  lemma RunStep(before: Dirs, between: Dirs, after: Dirs, merged: map<string, Entry>, targets: seq<string>, d: string,
                canMake: string -> bool, canWrite: string -> bool)
    requires RunSoFar(before, between, merged, targets, canMake, canWrite)
    requires TargetAfter(between, after, merged, d, canMake(d) && canWrite(d))
    requires forall x :: x != d ==> Same(between, after, x)
    ensures RunSoFar(before, after, merged, targets + [d], canMake, canWrite)
  {
    forall x | x in targets + [d] ensures TargetAfter(before, after, merged, x, canMake(x) && canWrite(x)) {
      var ok := canMake(x) && canWrite(x);
      if x != d {
        TargetFramed(before, between, after, merged, x, ok);
      } else if x in targets {
        TargetTwice(before, between, after, merged, x, ok);
      } else {
        TargetFresh(before, between, after, merged, x, ok);
      }
    }
    assert d in targets + [d];
    forall x | x !in targets + [d] ensures Same(before, after, x) {
      assert Same(before, between, x) && Same(between, after, x);
    }
  }

  /** A target handled before has nothing left to do, or cannot be written; any other is as it was. */
  lemma WroteStep(before: Dirs, between: Dirs, merged: map<string, Entry>, targets: seq<string>, d: string,
                  canMake: string -> bool, canWrite: string -> bool)
    requires RunSoFar(before, between, merged, targets, canMake, canWrite)
    ensures d !in targets ==> Idle(between, merged, d) == Idle(before, merged, d)
    ensures d in targets && canMake(d) && canWrite(d) ==> Idle(between, merged, d)
  {
    if d in targets && canMake(d) && canWrite(d) && !Idle(before, merged, d) {
      WrittenIsIdle(before, between, merged, d);
    }
  }

  lemma TargetFramed(before: Dirs, between: Dirs, after: Dirs, merged: map<string, Entry>, d: string, ok: bool)
    requires TargetAfter(before, between, merged, d, ok) && Same(between, after, d)
    ensures TargetAfter(before, after, merged, d, ok)
  {
  }

  lemma TargetFresh(before: Dirs, between: Dirs, after: Dirs, merged: map<string, Entry>, d: string, ok: bool)
    requires Same(before, between, d) && TargetAfter(between, after, merged, d, ok)
    ensures TargetAfter(before, after, merged, d, ok)
  {
  }

  /** Handling a target a second time in one run changes nothing more. */
  lemma TargetTwice(before: Dirs, between: Dirs, after: Dirs, merged: map<string, Entry>, d: string, ok: bool)
    requires TargetAfter(before, between, merged, d, ok) && TargetAfter(between, after, merged, d, ok)
    requires forall fp :: fp in merged ==> merged[fp].fingerprint == fp
    ensures TargetAfter(before, after, merged, d, ok)
  {
    if !Idle(before, merged, d) && ok {
      WrittenIsIdle(before, between, merged, d);
      assert Same(between, after, d);
    }
  }

  lemma WrittenIsIdle(before: Dirs, after: Dirs, merged: map<string, Entry>, d: string)
    requires TargetAfter(before, after, merged, d, true) && !Idle(before, merged, d)
    requires forall fp :: fp in merged ==> merged[fp].fingerprint == fp
    ensures Idle(after, merged, d)
  {
    var latest := Latest(EntriesIn(before, d));
    var result :| Improved(latest, merged, result) && Lists(after[d].entries, result);
    ListedLatest(after[d].entries, result);
    ImprovedIsDone(latest, merged, result);
  }

  // What a run is for.

  /** What a reader finds in a directory after a run: what it found before, or the improved list. */
  lemma LatestAfter(before: Dirs, after: Dirs, merged: map<string, Entry>, d: string, ok: bool)
    requires TargetAfter(before, after, merged, d, ok) && Merged(before, merged)
    ensures var was, now := Latest(EntriesIn(before, d)), Latest(EntriesIn(after, d));
            if Idle(before, merged, d) || !ok then now == was else Improved(was, merged, now)
  {
    if !Idle(before, merged, d) && ok {
      var was := Latest(EntriesIn(before, d));
      var result :| Improved(was, merged, result) && Lists(after[d].entries, result);
      ListedLatest(after[d].entries, result);
    }
  }

  lemma MergedCoversLatest(before: Dirs, merged: map<string, Entry>, d: string)
    requires Merged(before, merged)
    ensures forall fp :: fp in Latest(EntriesIn(before, d)) ==>
              fp in merged && Latest(EntriesIn(before, d))[fp].position <= merged[fp].position
  {
    var latest := Latest(EntriesIn(before, d));
    forall fp | fp in latest ensures fp in merged && latest[fp].position <= merged[fp].position {
      assert HeldIn(before, d, latest[fp]) && Covers(merged, latest[fp]);
    }
  }

  /** A target that could be written holds exactly the merged fingerprints, each at its highest position
      in any readable directory, however often a file repeated it. */
  lemma TargetIsLeastUpperBound(before: Dirs, after: Dirs, merged: map<string, Entry>, d: string, fp: string)
    requires Merged(before, merged) && TargetAfter(before, after, merged, d, true)
    requires !(d in before && before[d].Unreadable?)
    ensures Position(after, d, fp) == if fp in merged then Some(merged[fp].position) else None
  {
    LatestAfter(before, after, merged, d, true);
    MergedCoversLatest(before, merged, d);
    HighestPositions(Latest(EntriesIn(before, d)), Latest(EntriesIn(after, d)), merged, fp);
  }

  lemma HighestPositions(was: map<string, Entry>, now: map<string, Entry>, merged: map<string, Entry>, fp: string)
    requires forall k :: k in was ==> k in merged && was[k].position <= merged[k].position
    requires (now == was && !Changes(was, merged)) || Improved(was, merged, now)
    ensures fp in now <==> fp in merged
    ensures fp in merged ==> now[fp].position == merged[fp].position
  {
    if now == was && fp in merged && !Changes(was, merged) {
      assert !Better(was, fp, merged[fp]);
    }
  }

  /** Nothing is lost and nothing moves backwards, in any directory and whatever fails. */
  lemma NothingMovesBack(before: Dirs, after: Dirs, merged: map<string, Entry>, d: string, ok: bool, fp: string)
    requires Merged(before, merged) && (TargetAfter(before, after, merged, d, ok) || Same(before, after, d))
    requires Position(before, d, fp).Some?
    ensures Position(after, d, fp).Some? && Position(before, d, fp).value <= Position(after, d, fp).value
  {
    if TargetAfter(before, after, merged, d, ok) {
      LatestAfter(before, after, merged, d, ok);
    }
  }

  /** An unreadable file is never touched. */
  lemma UnreadableKept(before: Dirs, after: Dirs, merged: map<string, Entry>, d: string, ok: bool)
    requires TargetAfter(before, after, merged, d, ok) && d in before && before[d].Unreadable?
    ensures d in after && after[d] == Unreadable
  {
  }

  /** No entry a run leaves is ahead of the merge. */
  lemma NothingNew(before: Dirs, after: Dirs, merged: map<string, Entry>, targets: seq<string>,
      canMake: string -> bool, canWrite: string -> bool, d: string, e: Entry)
    requires Merged(before, merged) && RunSoFar(before, after, merged, targets, canMake, canWrite) && HeldIn(after, d, e)
    ensures Covers(merged, e)
  {
    if HeldIn(before, d, e) {
      assert Covers(merged, e);
    } else {
      assert d in targets by {
        assert !Same(before, after, d);
      }
      WrittenIsMerged(before, after, merged, d, canMake(d) && canWrite(d), e);
    }
  }

  lemma WrittenIsMerged(before: Dirs, after: Dirs, merged: map<string, Entry>, d: string, ok: bool, e: Entry)
    requires Merged(before, merged) && TargetAfter(before, after, merged, d, ok) && HeldIn(after, d, e) && !HeldIn(before, d, e)
    ensures Covers(merged, e)
  {
    var was := Latest(EntriesIn(before, d));
    assert !Same(before, after, d);
    var result :| Improved(was, merged, result) && Lists(after[d].entries, result);
    assert result[e.fingerprint] == e;
    MergedCoversLatest(before, merged, d);
  }

  /** After a run without failures the same run has nothing to do: the next merge finds nothing higher
      than what every target already holds. */
  lemma SecondRunIsIdle(before: Dirs, after: Dirs, first: map<string, Entry>, second: map<string, Entry>,
                        targets: seq<string>, canMake: string -> bool, canWrite: string -> bool)
    requires Merged(before, first) && RunSoFar(before, after, first, targets, canMake, canWrite) && Merged(after, second)
    requires forall d :: d in targets ==> canMake(d) && canWrite(d)
    ensures AllCurrent(after, second, targets)
  {
    forall d | d in targets ensures Idle(after, second, d) {
      if !(d in before && before[d].Unreadable?) {
        TargetIsIdle(before, after, first, second, targets, canMake, canWrite, d);
      }
    }
  }

  lemma TargetIsIdle(before: Dirs, after: Dirs, first: map<string, Entry>, second: map<string, Entry>,
                     targets: seq<string>, canMake: string -> bool, canWrite: string -> bool, d: string)
    requires Merged(before, first) && RunSoFar(before, after, first, targets, canMake, canWrite) && Merged(after, second)
    requires d in targets && canMake(d) && canWrite(d) && !(d in before && before[d].Unreadable?)
    ensures !Changes(Latest(EntriesIn(after, d)), second)
  {
    forall fp | fp in second ensures !Better(Latest(EntriesIn(after, d)), fp, second[fp]) {
      var x :| HeldIn(after, x, second[fp]);
      NothingNew(before, after, first, targets, canMake, canWrite, x, second[fp]);
      TargetIsLeastUpperBound(before, after, first, d, fp);
    }
  }
}
