/** backup_syncer.go: comparing stored objects with snapshot records, and repairing either side. */
module ObjectSyncer {
  import opened Text
  import opened Records
  import opened Reconciliation

  datatype SyncError = NoError | BucketUnavailable | UpdateRefused

  predicate DistinctNames(recs: seq<Record>) {
    forall i, j :: 0 <= i < j < |recs| ==> recs[i].name != recs[j].name
  }

  /** The listed records are as the server holds them. */
  ghost predicate Current(records: map<string, Record>, recs: seq<Record>) {
    forall r :: r in recs ==> r.name in records && records[r.name] == r
  }

  predicate Named(recs: seq<Record>, n: string) {
    exists i :: 0 <= i < |recs| && recs[i].name == n
  }

  /** The listed objects are those of the buckets, and the first of a name is the same either way. */
  ghost predicate Lists(list: seq<ObjectInfo>, configs: seq<string>, buckets: map<string, BucketContents>) {
    && (forall o :: o in list <==> Holds(configs, buckets, o))
    && (forall name :: FirstInfo(list, name) == FirstIn(configs, buckets, name))
  }

  predicate Holds(configs: seq<string>, buckets: map<string, BucketContents>, o: ObjectInfo) {
    && o.bucketConfigName in configs && o.bucketConfigName in buckets
    && o.name in buckets[o.bucketConfigName]
    && o == InfoOf(o.bucketConfigName, o.name, buckets[o.bucketConfigName][o.name])
  }

  lemma {:induction false} FirstInStep(configs: seq<string>, cfg: string, buckets: map<string, BucketContents>,
        name: string)
    requires cfg in buckets
    ensures FirstIn(configs + [cfg], buckets, name)
         == if FirstIn(configs, buckets, name).Some? then FirstIn(configs, buckets, name)
            else if name in buckets[cfg] then Some(InfoOf(cfg, name, buckets[cfg][name])) else None
  {
    if configs == [] {
      assert configs + [cfg] == [cfg] && [cfg][1..] == [];
    } else {
      assert (configs + [cfg])[1..] == configs[1..] + [cfg];
      FirstInStep(configs[1..], cfg, buckets, name);
    }
  }

  /** The first i records have been marked, and nothing else has changed. */
  ghost predicate Marked(before: map<string, Record>, after: map<string, Record>, snaps: seq<Record>, i: nat,
        phase: Phase, reason: string)
    requires i <= |snaps|
  {
    && after.Keys == before.Keys
    && (forall k :: 0 <= k < i ==>
         snaps[k].name in after && Settled(snaps[k], after[snaps[k].name], Mark(snaps[k], phase, reason)))
    && (forall n :: n in before && !Named(snaps[..i], n) ==> after[n] == before[n])
  }

  lemma MarkedStep(before: map<string, Record>, mid: map<string, Record>, after: map<string, Record>,
        snaps: seq<Record>, i: nat, phase: Phase, reason: string)
    requires i < |snaps| && DistinctNames(snaps) && Marked(before, mid, snaps, i, phase, reason)
    requires snaps[i].name in mid && after.Keys == mid.Keys
    requires forall n :: n in mid && n != snaps[i].name ==> after[n] == mid[n]
    requires Settled(snaps[i], after[snaps[i].name], Mark(snaps[i], phase, reason))
    ensures Marked(before, after, snaps, i + 1, phase, reason)
  {
    hide Settled, Mark;
    forall k | 0 <= k < i ensures after[snaps[k].name] == mid[snaps[k].name] {
      assert snaps[k].name != snaps[i].name;
    }
    forall n | n in before && !Named(snaps[..i + 1], n) ensures after[n] == before[n] {
      assert snaps[..i + 1][i].name == snaps[i].name;
      assert forall k :: 0 <= k < i ==> snaps[..i][k] == snaps[..i + 1][k];
    }
  }

  lemma NotYetNamed(snaps: seq<Record>, i: nat)
    requires i < |snaps| && DistinctNames(snaps)
    ensures !Named(snaps[..i], snaps[i].name)
  {}

  /* ---- sorting records into classes ---- */

  function ClassOf(list: seq<ObjectInfo>, r: Record): Class {
    Classify(r, FirstInfo(list, FileName(r.name)))
  }

  /** The records of one class, in order. */
  function Select(list: seq<ObjectInfo>, items: seq<Record>, c: Class): seq<Record> {
    if items == [] then []
    else
      var n := |items| - 1;
      Select(list, items[..n], c) + (if ClassOf(list, items[n]) == c then [items[n]] else [])
  }

  lemma {:induction false} SelectMember(list: seq<ObjectInfo>, items: seq<Record>, c: Class, r: Record)
    ensures r in Select(list, items, c) <==> r in items && ClassOf(list, r) == c
  {
    if items != [] {
      var n := |items| - 1;
      SelectMember(list, items[..n], c, r);
      assert items == items[..n] + [items[n]];
    }
  }

  lemma {:induction false} SelectDistinct(list: seq<ObjectInfo>, items: seq<Record>, c: Class)
    requires DistinctNames(items)
    ensures DistinctNames(Select(list, items, c))
  {
    if items != [] {
      var n := |items| - 1;
      SelectDistinct(list, items[..n], c);
      var s := Select(list, items[..n], c);
      forall i | 0 <= i < |s| ensures s[i].name != items[n].name {
        SelectMember(list, items[..n], c, s[i]);
        var k :| 0 <= k < n && items[..n][k] == s[i];
      }
    }
  }

  /** `valid` are the selected records, pointed at their buckets, as they are stored. */
  ghost predicate Pointed(list: seq<ObjectInfo>, selected: seq<Record>, valid: seq<Record>,
        stored: map<string, Record>) {
    && |valid| == |selected|
    && forall k :: 0 <= k < |valid| ==>
         && valid[k].name == selected[k].name && valid[k].name in stored && stored[valid[k].name] == valid[k]
         && Settled(selected[k], valid[k], Repointed(selected[k], FirstInfo(list, FileName(selected[k].name))))
  }

  /** Of the first i records the valid ones have been repointed; nothing else has changed. */
  ghost predicate Sifted(list: seq<ObjectInfo>, items: seq<Record>, i: nat, before: map<string, Record>,
        after: map<string, Record>, valid: seq<Record>)
    requires i <= |items|
  {
    && after.Keys == before.Keys
    && Pointed(list, Select(list, items[..i], Valid), valid, after)
    && forall n :: n in before && !Named(Select(list, items[..i], Valid), n) ==> after[n] == before[n]
  }

  lemma SiftedSkip(list: seq<ObjectInfo>, items: seq<Record>, i: nat, before: map<string, Record>,
        after: map<string, Record>, valid: seq<Record>)
    requires i < |items| && Sifted(list, items, i, before, after, valid) && !ClassOf(list, items[i]).Valid?
    ensures Sifted(list, items, i + 1, before, after, valid)
  {
    assert items[..i + 1][..i] == items[..i];
    assert Select(list, items[..i + 1], Valid) == Select(list, items[..i], Valid);
  }

  lemma SiftedAdd(list: seq<ObjectInfo>, items: seq<Record>, i: nat, before: map<string, Record>,
        mid: map<string, Record>, after: map<string, Record>, valid: seq<Record>, r: Record)
    requires i < |items| && DistinctNames(items) && Sifted(list, items, i, before, mid, valid)
    requires ClassOf(list, items[i]).Valid?
    requires r.name == items[i].name && r.name in mid && after == mid[r.name := r]
    requires Settled(items[i], r, Repointed(items[i], FirstInfo(list, FileName(items[i].name))))
    ensures Sifted(list, items, i + 1, before, after, valid + [r])
  {
    hide Settled, Repointed, ClassOf, FileName;
    assert items[..i + 1][..i] == items[..i];
    var s, s' := Select(list, items[..i], Valid), Select(list, items[..i + 1], Valid);
    assert s' == s + [items[i]];
    SelectDistinct(list, items[..i + 1], Valid);
    assert forall k :: 0 <= k < |s| ==> s'[k] == s[k];
    assert forall k :: 0 <= k < |s| ==> s[k].name != r.name by {
      assert s'[|s|].name == r.name;
    }
    assert s'[|s|].name == r.name;
  }

  lemma OtherClass(list: seq<ObjectInfo>, items: seq<Record>, c: Class, r: Record)
    requires DistinctNames(items) && r in items && ClassOf(list, r) != c
    ensures !Named(Select(list, items, c), r.name)
  {
    hide ClassOf;
    var s := Select(list, items, c);
    forall i | 0 <= i < |s| ensures s[i].name != r.name {
      SelectMember(list, items, c, s[i]);
      OneOfName(items, s[i], r);
    }
  }

  lemma OneOfName(items: seq<Record>, a: Record, b: Record)
    requires DistinctNames(items) && a in items && b in items
    ensures a.name == b.name ==> a == b
  {}

  lemma OwnClass(list: seq<ObjectInfo>, items: seq<Record>, r: Record) returns (k: nat)
    requires r in items
    ensures k < |Select(list, items, ClassOf(list, r))| && Select(list, items, ClassOf(list, r))[k] == r
  {
    hide ClassOf;
    SelectMember(list, items, ClassOf(list, r), r);
    k :| 0 <= k < |Select(list, items, ClassOf(list, r))| && Select(list, items, ClassOf(list, r))[k] == r;
  }

  lemma SettleChain(r: Record, mid: Record, after: Record, target: Record)
    requires target.name == r.name && target.status == r.status && Settled(r, mid, target)
    requires Settled(mid, after, Mark(mid, Completed, ""))
    ensures Settled(r, after, Mark(target, Completed, ""))
  {
    if target != r { assert mid == target.(resourceVersion := mid.resourceVersion); }
  }

  lemma SamePointedNames(list: seq<ObjectInfo>, selected: seq<Record>, valid: seq<Record>,
        stored: map<string, Record>, n: string)
    requires Pointed(list, selected, valid, stored)
    ensures Named(valid, n) <==> Named(selected, n)
  {
    hide Settled, Repointed, FileName, FirstInfo;
    if k :| 0 <= k < |valid| && valid[k].name == n { assert selected[k].name == n; }
    if k :| 0 <= k < |selected| && selected[k].name == n { assert valid[k].name == n; }
  }

  /** The stages of a sync: as listed, repointed, possibly rebuilt records added, then marked in
      three groups. */
  datatype Stages = Stages(listed: map<string, Record>, pointed: map<string, Record>, rebuilt: map<string, Record>,
                           judged: map<string, Record>, missed: map<string, Record>, done: map<string, Record>,
                           valid: seq<Record>)

  ghost predicate Judged(list: seq<ObjectInfo>, items: seq<Record>, validate: bool, before: map<string, Record>,
        after: map<string, Record>) {
    var s := Select(list, items, Invalid);
    if validate then Marked(before, after, s, |s|, Failed, NOT_MATCHED)
      else Marked(before, after, s, |s|, Completed, "")
  }

  ghost predicate Missed(list: seq<ObjectInfo>, items: seq<Record>, deleteOrphans: bool,
        before: map<string, Record>, after: map<string, Record>) {
    var s := Select(list, items, NoObject);
    if deleteOrphans then Marked(before, after, s, |s|, Failed, FILE_NOT_FOUND) else after == before
  }

  ghost predicate Staged(list: seq<ObjectInfo>, items: seq<Record>, deleteOrphans: bool, validate: bool, st: Stages) {
    && DistinctNames(items)
    && Current(st.listed, items)
    && Sifted(list, items, |items|, st.listed, st.pointed, st.valid)
    && (forall n :: n in st.pointed ==> n in st.rebuilt && st.rebuilt[n] == st.pointed[n])
    && Judged(list, items, validate, st.rebuilt, st.judged)
    && Missed(list, items, deleteOrphans, st.judged, st.missed)
    && Marked(st.missed, st.done, st.valid, |st.valid|, Completed, "")
  }

  lemma Untouched(list: seq<ObjectInfo>, items: seq<Record>, c: Class, before: map<string, Record>,
        after: map<string, Record>, phase: Phase, reason: string, r: Record)
    requires DistinctNames(items) && r in items && ClassOf(list, r) != c && r.name in before
    requires var s := Select(list, items, c); Marked(before, after, s, |s|, phase, reason)
    ensures r.name in after && after[r.name] == before[r.name]
  {
    hide ClassOf, Settled, Mark;
    OtherClass(list, items, c, r);
    var s := Select(list, items, c);
    assert s[..|s|] == s;
  }

  lemma ValidUntouched(list: seq<ObjectInfo>, items: seq<Record>, deleteOrphans: bool, validate: bool,
        st: Stages, r: Record)
    requires Staged(list, items, deleteOrphans, validate, st) && r in items && !ClassOf(list, r).Valid?
    ensures r.name in st.rebuilt && st.rebuilt[r.name] == r
    ensures r.name in st.missed ==> r.name in st.done && st.done[r.name] == st.missed[r.name]
  {
    hide ClassOf, Settled, Mark, Repointed, FirstInfo, FileName;
    OtherClass(list, items, Valid, r);
    assert items[..|items|] == items && st.valid[..|st.valid|] == st.valid;
    SamePointedNames(list, Select(list, items, Valid), st.valid, st.pointed, r.name);
  }

  /** What the groups of writes, in their order, make of a listed record. */
  lemma Assemble(list: seq<ObjectInfo>, items: seq<Record>, deleteOrphans: bool, validate: bool, st: Stages, r: Record)
    requires Staged(list, items, deleteOrphans, validate, st) && r in items
    ensures r.name in st.done
    ensures Settled(r, st.done[r.name], Reconciled(deleteOrphans, validate, FirstInfo(list, FileName(r.name)), r))
  {
    hide FirstInfo, FileName, Matches;
    var k := OwnClass(list, items, r);
    match ClassOf(list, r) {
      case Unfinished =>
        ValidUntouched(list, items, deleteOrphans, validate, st, r);
        OtherClass(list, items, Invalid, r);
        OtherClass(list, items, NoObject, r);
        UnmarkedStages(list, items, deleteOrphans, validate, st, r);
      case Invalid =>
        ValidUntouched(list, items, deleteOrphans, validate, st, r);
        if deleteOrphans { Untouched(list, items, NoObject, st.judged, st.missed, Failed, FILE_NOT_FOUND, r); }
      case NoObject =>
        ValidUntouched(list, items, deleteOrphans, validate, st, r);
        UnjudgedStage(list, items, deleteOrphans, validate, st, r);
      case Valid =>
        UnmarkedStages(list, items, deleteOrphans, validate, st, r);
        assert items[..|items|] == items;
        SettleChain(r, st.valid[k], st.done[r.name], Repointed(r, FirstInfo(list, FileName(r.name))));
    }
  }

  lemma UnjudgedStage(list: seq<ObjectInfo>, items: seq<Record>, deleteOrphans: bool, validate: bool,
        st: Stages, r: Record)
    requires Staged(list, items, deleteOrphans, validate, st) && r in items && !ClassOf(list, r).Invalid?
    requires r.name in st.rebuilt
    ensures r.name in st.judged && st.judged[r.name] == st.rebuilt[r.name]
  {
    hide ClassOf, Sifted, Settled, Mark, Select;
    if validate {
      Untouched(list, items, Invalid, st.rebuilt, st.judged, Failed, NOT_MATCHED, r);
    } else {
      Untouched(list, items, Invalid, st.rebuilt, st.judged, Completed, "", r);
    }
  }

  lemma UnmarkedStages(list: seq<ObjectInfo>, items: seq<Record>, deleteOrphans: bool, validate: bool,
        st: Stages, r: Record)
    requires Staged(list, items, deleteOrphans, validate, st) && r in items
    requires !ClassOf(list, r).Invalid? && !ClassOf(list, r).NoObject?
    ensures r.name in st.rebuilt && r.name in st.missed && st.missed[r.name] == st.rebuilt[r.name]
  {
    hide ClassOf, Settled, Mark, Select, Pointed;
    UnjudgedStage(list, items, deleteOrphans, validate, st, r);
    if deleteOrphans { Untouched(list, items, NoObject, st.judged, st.missed, Failed, FILE_NOT_FOUND, r); }
  }

  /* ---- the records handed to each group of writes are as the server holds them ---- */

  lemma SiftUntouched(list: seq<ObjectInfo>, items: seq<Record>, before: map<string, Record>,
        after: map<string, Record>, valid: seq<Record>, r: Record)
    requires DistinctNames(items) && Current(before, items) && Sifted(list, items, |items|, before, after, valid)
    requires r in items && !ClassOf(list, r).Valid?
    ensures r.name in after && after[r.name] == r
  {
    hide ClassOf, Pointed;
    OtherClass(list, items, Valid, r);
    assert items[..|items|] == items;
  }

  lemma InvalidCurrent(list: seq<ObjectInfo>, items: seq<Record>, listed: map<string, Record>,
        pointed: map<string, Record>, rebuilt: map<string, Record>, valid: seq<Record>)
    requires DistinctNames(items) && Current(listed, items) && Sifted(list, items, |items|, listed, pointed, valid)
    requires forall n :: n in pointed ==> n in rebuilt && rebuilt[n] == pointed[n]
    ensures Current(rebuilt, Select(list, items, Invalid))
  {
    hide ClassOf, Sifted;
    forall r | r in Select(list, items, Invalid) ensures r.name in rebuilt && rebuilt[r.name] == r {
      SelectMember(list, items, Invalid, r);
      SiftUntouched(list, items, listed, pointed, valid, r);
    }
  }

  lemma NoObjectCurrent(list: seq<ObjectInfo>, items: seq<Record>, validate: bool, listed: map<string, Record>,
        pointed: map<string, Record>, rebuilt: map<string, Record>, judged: map<string, Record>,
        valid: seq<Record>)
    requires DistinctNames(items) && Current(listed, items) && Sifted(list, items, |items|, listed, pointed, valid)
    requires forall n :: n in pointed ==> n in rebuilt && rebuilt[n] == pointed[n]
    requires Judged(list, items, validate, rebuilt, judged)
    ensures Current(judged, Select(list, items, NoObject))
  {
    hide ClassOf, Sifted, Marked;
    forall r | r in Select(list, items, NoObject) ensures r.name in judged && judged[r.name] == r {
      SelectMember(list, items, NoObject, r);
      SiftUntouched(list, items, listed, pointed, valid, r);
      JudgedOther(list, items, validate, rebuilt, judged, r);
    }
  }

  lemma JudgedOther(list: seq<ObjectInfo>, items: seq<Record>, validate: bool, before: map<string, Record>,
        after: map<string, Record>, r: Record)
    requires DistinctNames(items) && Judged(list, items, validate, before, after) && r in items
    requires !ClassOf(list, r).Invalid? && r.name in before
    ensures r.name in after && after[r.name] == before[r.name]
  {
    hide ClassOf, Select, Marked;
    if validate {
      Untouched(list, items, Invalid, before, after, Failed, NOT_MATCHED, r);
    } else {
      Untouched(list, items, Invalid, before, after, Completed, "", r);
    }
  }

  lemma ValidCurrent(list: seq<ObjectInfo>, items: seq<Record>, deleteOrphans: bool, validate: bool,
        listed: map<string, Record>, pointed: map<string, Record>, rebuilt: map<string, Record>,
        judged: map<string, Record>, missed: map<string, Record>, valid: seq<Record>)
    requires DistinctNames(items) && Current(listed, items) && Sifted(list, items, |items|, listed, pointed, valid)
    requires forall n :: n in pointed ==> n in rebuilt && rebuilt[n] == pointed[n]
    requires Judged(list, items, validate, rebuilt, judged) && Missed(list, items, deleteOrphans, judged, missed)
    ensures Current(missed, valid)
  {
    hide ClassOf, Settled, Marked, Repointed, FileName, FirstInfo;
    assert items[..|items|] == items;
    var s := Select(list, items, Valid);
    forall k | 0 <= k < |valid| ensures valid[k].name in missed && missed[valid[k].name] == valid[k] {
      SelectMember(list, items, Valid, s[k]);
      JudgedOther(list, items, validate, rebuilt, judged, s[k]);
      if deleteOrphans { Untouched(list, items, NoObject, judged, missed, Failed, FILE_NOT_FOUND, s[k]); }
    }
  }

  lemma ValidDistinct(list: seq<ObjectInfo>, items: seq<Record>, before: map<string, Record>,
        after: map<string, Record>, valid: seq<Record>)
    requires DistinctNames(items) && Sifted(list, items, |items|, before, after, valid)
    ensures DistinctNames(valid)
  {
    hide ClassOf, Settled, Repointed, FileName, FirstInfo;
    assert items[..|items|] == items;
    SelectDistinct(list, items, Valid);
  }

  /** No write of a sync goes to a record that was not listed. */
  lemma UnlistedUntouched(list: seq<ObjectInfo>, items: seq<Record>, deleteOrphans: bool, validate: bool,
        st: Stages, n: string)
    requires Staged(list, items, deleteOrphans, validate, st) && n !in st.listed && n in st.rebuilt
    ensures n in st.done && st.done[n] == st.rebuilt[n]
  {
    hide ClassOf, Settled, Mark, Repointed, FirstInfo, FileName;
    assert items[..|items|] == items && st.valid[..|st.valid|] == st.valid;
    NotSelected(list, items, Valid, n);
    NotSelected(list, items, Invalid, n);
    NotSelected(list, items, NoObject, n);
    SamePointedNames(list, Select(list, items, Valid), st.valid, st.pointed, n);
    var s, s' := Select(list, items, Invalid), Select(list, items, NoObject);
    assert s[..|s|] == s && s'[..|s'|] == s';
  }

  lemma NotSelected(list: seq<ObjectInfo>, items: seq<Record>, c: Class, n: string)
    requires forall r :: r in items ==> r.name != n
    ensures !Named(Select(list, items, c), n)
  {
    hide ClassOf;
    var s := Select(list, items, c);
    forall i | 0 <= i < |s| ensures s[i].name != n {
      SelectMember(list, items, c, s[i]);
    }
  }

  /** A bucket without the listed objects. */
  function Without(contents: BucketContents, orphans: seq<ObjectInfo>, cfg: string): BucketContents {
    map name | name in contents &&
      (forall o :: o in orphans ==> !(o.bucketConfigName == cfg && o.name == name)) :: contents[name]
  }

  /** The record that the archive of a stored object carries for the snapshot it is named after. */
  function ArchivedIn(buckets: map<string, BucketContents>, o: ObjectInfo): Option<Record> {
    if o.bucketConfigName !in buckets || o.name !in buckets[o.bucketConfigName] then None
    else
      match FindSnapshotJson(buckets[o.bucketConfigName][o.name].archive, TrimSuffix(o.name, ".tgz"))
      case Some(SnapshotFile(j)) => Some(j)
      case _ => None
  }

  /** Every record found in an archive is named after the file it was found in. */
  ghost predicate Sound(configs: seq<string>, buckets: map<string, BucketContents>) {
    forall o :: Holds(configs, buckets, o) ==> SoundOrphan(buckets, o)
  }

  predicate RebuiltFrom(buckets: map<string, BucketContents>, o: ObjectInfo, r: Record, now: Time) {
    && FileName(r.name) == o.name && ArchivedIn(buckets, o).Some?
    && SameContent(r, Rebuilt(ArchivedIn(buckets, o).value, o, now))
  }

  /** Each readable orphan has a record now; new records come from an orphan; old ones are as before. */
  ghost predicate Restored(buckets: map<string, BucketContents>, orphans: seq<ObjectInfo>,
        before: map<string, Record>, after: map<string, Record>, now: Time) {
    && (forall n :: n in before ==> n in after && after[n] == before[n])
    && (forall n :: n in after ==> after[n].name == n)
    && (forall n :: n in after && n !in before ==> exists o :: o in orphans && RebuiltFrom(buckets, o, after[n], now))
    && (forall o :: o in orphans && ArchivedIn(buckets, o).Some? ==> HasRecord(after, o.name))
  }

  /** The same for one orphan. */
  ghost predicate Recreated(buckets: map<string, BucketContents>, o: ObjectInfo, before: map<string, Record>,
        after: map<string, Record>, now: Time) {
    && (forall n :: n in before ==> n in after && after[n] == before[n])
    && (forall n :: n in after && n !in before ==> after[n].name == n && RebuiltFrom(buckets, o, after[n], now))
    && (ArchivedIn(buckets, o).Some? ==> HasRecord(after, o.name))
  }

  predicate SoundOrphan(buckets: map<string, BucketContents>, o: ObjectInfo) {
    ArchivedIn(buckets, o).Some? ==> FileName(ArchivedIn(buckets, o).value.name) == o.name
  }

  lemma RestoredStep(buckets: map<string, BucketContents>, orphans: seq<ObjectInfo>, o: ObjectInfo,
        before: map<string, Record>, mid: map<string, Record>, after: map<string, Record>, now: Time)
    requires Restored(buckets, orphans, before, mid, now) && Recreated(buckets, o, mid, after, now)
    ensures Restored(buckets, orphans + [o], before, after, now)
  {
    hide ArchivedIn, RebuiltFrom, FileName;
    forall x | x in orphans && ArchivedIn(buckets, x).Some? ensures HasRecord(after, x.name) {
      var n :| n in mid && FileName(n) == x.name;
      assert n in after;
    }
    forall n | n in after && n !in before
      ensures exists x :: x in orphans + [o] && RebuiltFrom(buckets, x, after[n], now)
    {
      if n in mid {
        var x :| x in orphans && RebuiltFrom(buckets, x, mid[n], now);
        assert x in orphans + [o];
      } else {
        assert o in orphans + [o];
      }
    }
  }

  /** What a sync leaves of the records that were there before. */
  ghost predicate SyncedRecords(configs: seq<string>, deleteOrphans: bool, validate: bool,
        buckets: map<string, BucketContents>, before: map<string, Record>, after: map<string, Record>) {
    forall n :: n in before ==>
      n in after &&
        Settled(before[n], after[n],
          Reconciled(deleteOrphans, validate, FirstIn(configs, buckets, FileName(n)), before[n]))
  }

  /** What a sync leaves of the buckets. */
  ghost predicate SyncedBuckets(configs: seq<string>, deleteOrphans: bool, records: map<string, Record>,
        before: map<string, BucketContents>, after: map<string, BucketContents>) {
    && after.Keys == before.Keys
    && forall c :: c in before ==>
         after[c] == if deleteOrphans && c in configs then Owned(records, before[c]) else before[c]
  }

  lemma OrphansWithout(configs: seq<string>, buckets: map<string, BucketContents>, list: seq<ObjectInfo>,
        items: seq<Record>, records: map<string, Record>, orphans: seq<ObjectInfo>, c: string)
    requires Lists(list, configs, buckets) && c in buckets
    requires forall n :: n in records ==> records[n].name == n
    requires forall r :: r in items <==> r.name in records && records[r.name] == r
    requires forall o :: o in orphans <==> o in list && forall r :: r in items ==> FileName(r.name) != o.name
    ensures Without(buckets[c], orphans, c) == if c in configs then Owned(records, buckets[c]) else buckets[c]
  {
    hide FileName, FirstInfo, FirstIn;
    assert forall n :: n in records ==> records[n] in items;
    forall name | name in buckets[c]
      ensures (exists o :: o in orphans && o.bucketConfigName == c && o.name == name) <==>
        c in configs && !HasRecord(records, name)
    {
      var o := InfoOf(c, name, buckets[c][name]);
      assert o in list <==> c in configs;
      if c in configs && !HasRecord(records, name) {
        forall r | r in items ensures FileName(r.name) != name { assert r.name in records; }
        assert o in orphans;
      }
      if x :| x in orphans && x.bucketConfigName == c && x.name == name {
        assert x in list;
      }
    }
  }

  /** Creating, reading back, amending and completing a record, put together. */
  lemma RebuildSteps(item: Record, info: ObjectInfo, now: Time, version: nat, version': nat)
    ensures var created := Persist(item.(resourceVersion := version, creationTimestamp := now));
            var stored :=
              created.(status := created.status.(storedFileSize := info.size, storedTimestamp := info.timestamp));
            var kept := if stored.status.availableUntil < now + THIRTY_DAYS
              then stored.(status := stored.status.(availableUntil := now + THIRTY_DAYS)) else stored;
            SameContent(
              Persist(WithPhase(kept, Completed, "")).(resourceVersion := version',
                                                       creationTimestamp := created.creationTimestamp),
              Rebuilt(item, info, now))
  {
    TruncateOnce(item.spec.availableUntil);
    TruncateOnce(item.status.snapshotTimestamp);
  }

  /** What a restoring sync adds. */
  ghost predicate RebuiltRecords(configs: seq<string>, buckets: map<string, BucketContents>,
        before: map<string, Record>, after: map<string, Record>, now: Time) {
    && (forall n :: n in after && n !in before ==>
         exists o :: Holds(configs, buckets, o) && RebuiltFrom(buckets, o, after[n], now))
    && (forall o :: Holds(configs, buckets, o) && ArchivedIn(buckets, o).Some? ==> HasRecord(after, o.name))
  }

  /** A whole sync with some flag set and every bucket reachable. */
  ghost predicate SyncRun(configs: seq<string>, deleteOrphans: bool, restoreOrphans: bool, validate: bool, now: Time,
                          records: map<string, Record>, buckets: map<string, BucketContents>,
                          records': map<string, Record>, buckets': map<string, BucketContents>)
  {
    && SyncedBuckets(configs, deleteOrphans, records, buckets, buckets')
    && SyncedRecords(configs, deleteOrphans, validate, buckets, records, records')
    && if restoreOrphans && !deleteOrphans then RebuiltRecords(configs, buckets, records, records', now)
         else records'.Keys == records.Keys
  }

  lemma ListedBuckets(list: seq<ObjectInfo>, configs: seq<string>, buckets: map<string, BucketContents>)
    requires Lists(list, configs, buckets)
    ensures forall o :: o in list ==> o.bucketConfigName in buckets
  {}

  /** The stages put together. */
  lemma AssembleAll(configs: seq<string>, buckets: map<string, BucketContents>, list: seq<ObjectInfo>,
        items: seq<Record>, deleteOrphans: bool, validate: bool, st: Stages)
    requires Lists(list, configs, buckets) && Staged(list, items, deleteOrphans, validate, st)
    requires forall n :: n in st.listed ==> st.listed[n].name == n && st.listed[n] in items
    ensures SyncedRecords(configs, deleteOrphans, validate, buckets, st.listed, st.done)
    ensures st.done.Keys == st.rebuilt.Keys
  {
    hide Settled, Reconciled, FirstIn, FirstInfo, Holds, Select, FileName;
    forall n | n in st.listed
      ensures n in st.done
      ensures Settled(st.listed[n], st.done[n],
        Reconciled(deleteOrphans, validate, FirstIn(configs, buckets, FileName(n)), st.listed[n]))
    {
      Assemble(list, items, deleteOrphans, validate, st, st.listed[n]);
    }
  }

  lemma AssembleRebuilt(configs: seq<string>, buckets: map<string, BucketContents>, list: seq<ObjectInfo>,
        items: seq<Record>, orphans: seq<ObjectInfo>, deleteOrphans: bool, validate: bool, st: Stages,
        now: Time)
    requires Lists(list, configs, buckets) && Staged(list, items, deleteOrphans, validate, st)
    requires st.done.Keys == st.rebuilt.Keys
    requires forall n :: n in st.listed ==> st.listed[n].name == n && st.listed[n] in items
    requires st.pointed.Keys == st.listed.Keys
    requires forall o :: o in orphans <==> o in list && forall r :: r in items ==> FileName(r.name) != o.name
    requires Restored(buckets, orphans, st.pointed, st.rebuilt, now)
    ensures RebuiltRecords(configs, buckets, st.listed, st.done, now)
  {
    hide FirstIn, FirstInfo, Holds, Select, FileName, ArchivedIn, RebuiltFrom, Sifted, Judged, Missed, Marked;
    forall n | n in st.done && n !in st.listed
      ensures exists o :: Holds(configs, buckets, o) && RebuiltFrom(buckets, o, st.done[n], now)
    {
      UnlistedUntouched(list, items, deleteOrphans, validate, st, n);
      var o :| o in orphans && RebuiltFrom(buckets, o, st.rebuilt[n], now);
      assert Holds(configs, buckets, o);
    }
    forall o | Holds(configs, buckets, o) && ArchivedIn(buckets, o).Some? ensures HasRecord(st.done, o.name) {
      if o in orphans {
        var n :| n in st.rebuilt && FileName(n) == o.name;
        assert n in st.done;
      } else {
        var r :| r in items && FileName(r.name) == o.name;
        assert r.name in st.done;
      }
    }
  }

  class Controller {
    const server: RecordServer
    const store: ObjectStore
    /** the names of the ObjectstoreConfig resources, in listing order */
    const configs: seq<string>

    constructor (server: RecordServer, store: ObjectStore, configs: seq<string>)
      ensures this.server == server && this.store == store && this.configs == configs
    {
      this.server, this.store, this.configs := server, store, configs;
    }

    method GetObjectList() returns (r: Option<seq<ObjectInfo>>)
      ensures r.None? <==> exists c :: c in configs && c !in store.buckets
      ensures r.Some? ==> Lists(r.value, configs, store.buckets)
    {
      var objectList: seq<ObjectInfo> := [];
      for i := 0 to |configs|
        invariant forall k :: 0 <= k < i ==> configs[k] in store.buckets
        invariant Lists(objectList, configs[..i], store.buckets)
      {
        var cfg := configs[i];
        if cfg !in store.buckets {
          return None;
        }
        var objList := store.ListObjectInfo(cfg);
        assert configs[..i + 1] == configs[..i] + [cfg];
        forall name ensures FirstInfo(objectList + objList, name) == FirstIn(configs[..i + 1], store.buckets, name) {
          FirstInfoAppend(objectList, objList, name);
          FirstInStep(configs[..i], cfg, store.buckets, name);
          if name in store.buckets[cfg] {
            assert InfoOf(cfg, name, store.buckets[cfg][name]) in objList;
          }
        }
        objectList := objectList + objList;
      }
      assert configs[..|configs|] == configs;
      return Some(objectList);
    }

    method UpdateSnapshotStatus(r: Record, phase: Phase, reason: string) returns (reply: Reply)
      requires server.Valid()
      modifies server
      ensures server.Valid()
      ensures reply.Reply? <==>
        r.name in old(server.records) && old(server.records)[r.name].resourceVersion == r.resourceVersion
      ensures reply.Refused? ==> server.records == old(server.records) && server.version == old(server.version)
      ensures reply.Reply? ==>
        && r.name in old(server.records)
        && server.version == old(server.version) + 1
        && server.records == old(server.records)[r.name := reply.record]
        && reply.record == Persist(WithPhase(r, phase, reason)).(
             resourceVersion := server.version, creationTimestamp := old(server.records)[r.name].creationTimestamp)
    {
      reply := server.Update(WithPhase(r, phase, reason));
    }

    method MarkOne(snap: Record, phase: Phase, reason: string) returns (err: SyncError)
      requires server.Valid()
      modifies server
      ensures server.Valid()
      ensures snap.name in old(server.records) && old(server.records)[snap.name] == snap ==>
        && err == NoError && server.records.Keys == old(server.records).Keys
        && (forall n :: n in server.records && n != snap.name ==> server.records[n] == old(server.records)[n])
        && Settled(snap, server.records[snap.name], Mark(snap, phase, reason))
    {
      if snap.status.phase != phase {
        if snap.name in server.records && server.records[snap.name] == snap { WithPhasePersisted(snap, phase, reason); }
        var reply := UpdateSnapshotStatus(snap, phase, reason);
        if reply.Refused? {
          return UpdateRefused;
        }
      }
      return NoError;
    }

    /** Writes the phase to every listed record that does not have it yet. */
    method MarkAll(snaps: seq<Record>, phase: Phase, reason: string) returns (err: SyncError)
      requires server.Valid() && DistinctNames(snaps)
      modifies server
      ensures server.Valid()
      ensures Current(old(server.records), snaps) ==>
        err == NoError && Marked(old(server.records), server.records, snaps, |snaps|, phase, reason)
    {
      hide Settled, Mark;
      ghost var current := Current(server.records, snaps);
      for i := 0 to |snaps|
        invariant server.Valid()
        invariant current ==> Marked(old(server.records), server.records, snaps, i, phase, reason)
      {
        ghost var mid := server.records;
        NotYetNamed(snaps, i);
        err := MarkOne(snaps[i], phase, reason);
        if err != NoError {
          return;
        }
        if current { MarkedStep(old(server.records), mid, server.records, snaps, i, phase, reason); }
      }
      return NoError;
    }

    method FindObject(objectList: seq<ObjectInfo>, name: string) returns (r: Option<ObjectInfo>)
      ensures r == FirstInfo(objectList, name)
    {
      var i := 0;
      while i < |objectList|
        invariant 0 <= i <= |objectList|
        invariant FirstInfo(objectList, name) == FirstInfo(objectList[i..], name)
      {
        assert objectList[i..][0] == objectList[i] && objectList[i..][1..] == objectList[i + 1..];
        if objectList[i].name == name {
          return Some(objectList[i]);
        }
        i := i + 1;
      }
      return None;
    }

    /** The listed objects that no listed record owns. */
    method FindOrphans(objectList: seq<ObjectInfo>, items: seq<Record>) returns (orphans: seq<ObjectInfo>)
      ensures forall o :: o in orphans <==> o in objectList && forall r :: r in items ==> FileName(r.name) != o.name
    {
      orphans := [];
      for i := 0 to |objectList|
        invariant forall o :: o in orphans <==>
          o in objectList[..i] && forall r :: r in items ==> FileName(r.name) != o.name
      {
        var info, found := objectList[i], false;
        for j := 0 to |items|
          invariant !found ==> forall r :: r in items[..j] ==> FileName(r.name) != info.name
          invariant found ==> exists r :: r in items && FileName(r.name) == info.name
        {
          if FileName(items[j].name) == info.name {
            found := true;
            break;
          }
        }
        if !found {
          orphans := orphans + [info];
        }
      }
    }

    /** The loop that sorts terminal records into classes and repoints the valid ones. */
    method SiftSnaps(objectList: seq<ObjectInfo>, items: seq<Record>)
      returns (err: SyncError, notFound: seq<Record>, invalid: seq<Record>, valid: seq<Record>)
      requires server.Valid() && DistinctNames(items)
      requires Current(server.records, items)
      modifies server
      ensures server.Valid() && err == NoError
      ensures notFound == Select(objectList, items, NoObject) && invalid == Select(objectList, items, Invalid)
      ensures Sifted(objectList, items, |items|, old(server.records), server.records, valid)
    {
      hide FileName, Matches, Settled;
      notFound, invalid, valid := [], [], [];
      for i := 0 to |items|
        invariant server.Valid()
        invariant notFound == Select(objectList, items[..i], NoObject)
        invariant invalid == Select(objectList, items[..i], Invalid)
        invariant Sifted(objectList, items, i, old(server.records), server.records, valid)
      {
        var snap := items[i];
        ghost var mid := server.records;
        assert items[..i + 1][..i] == items[..i];
        if !Terminal(snap) {
          SiftedSkip(objectList, items, i, old(server.records), mid, valid);
          continue;
        }
        var info := FindObject(objectList, FileName(snap.name));
        if info.None? {
          notFound := notFound + [snap];
          SiftedSkip(objectList, items, i, old(server.records), mid, valid);
        } else if !Matches(snap, info.value) {
          invalid := invalid + [snap];
          SiftedSkip(objectList, items, i, old(server.records), mid, valid);
        } else {
          assert server.records[snap.name] == snap by {
            NotYetSifted(objectList, items, i, old(server.records), mid, valid);
          }
          var updated;
          err, updated := Repoint(snap, info.value);
          if err != NoError {
            return;
          }
          SiftedAdd(objectList, items, i, old(server.records), mid, server.records, valid, updated);
          valid := valid + [updated];
        }
      }
      assert items[..|items|] == items;
      err := NoError;
    }

    lemma NotYetSifted(objectList: seq<ObjectInfo>, items: seq<Record>, i: nat, before: map<string, Record>,
          mid: map<string, Record>, valid: seq<Record>)
      requires i < |items| && DistinctNames(items) && Sifted(objectList, items, i, before, mid, valid)
      requires items[i].name in before
      ensures mid[items[i].name] == before[items[i].name]
    {
      hide ClassOf;
      var s := Select(objectList, items[..i], Valid);
      forall k | 0 <= k < |s| ensures s[k].name != items[i].name {
        SelectMember(objectList, items[..i], Valid, s[k]);
        assert s[k] in items[..i];
      }
    }

    /** If the object was found in another bucket, the record is pointed there. */
    method Repoint(snap: Record, info: ObjectInfo) returns (err: SyncError, updated: Record)
      requires server.Valid() && snap.name in server.records && server.records[snap.name] == snap
      requires Terminal(snap) && Matches(snap, info)
      modifies server
      ensures server.Valid() && err == NoError && updated.name == snap.name
      ensures server.records == old(server.records)[snap.name := updated]
      ensures Settled(snap, updated, Repointed(snap, Some(info)))
    {
      if snap.spec.objectstoreConfig != info.bucketConfigName {
        var pointed := snap.(spec := snap.spec.(objectstoreConfig := info.bucketConfigName));
        var reply := UpdateSnapshotStatus(pointed, snap.status.phase, snap.status.reason);
        if reply.Refused? {
          return UpdateRefused, snap;
        }
        return NoError, reply.record;
      }
      return NoError, snap;
    }

    method DeleteOrphans(orphans: seq<ObjectInfo>) returns (err: SyncError)
      requires forall o :: o in orphans ==> o.bucketConfigName in store.buckets
      modifies store
      ensures err == NoError && store.buckets.Keys == old(store.buckets).Keys
      ensures forall c :: c in store.buckets ==> store.buckets[c] == Without(old(store.buckets)[c], orphans, c)
    {
      for i := 0 to |orphans|
        invariant store.buckets.Keys == old(store.buckets).Keys
        invariant forall c :: c in store.buckets ==> store.buckets[c] == Without(old(store.buckets)[c], orphans[..i], c)
      {
        var info := orphans[i];
        var deleted := store.Delete(info.bucketConfigName, info.name);
        assert orphans[..i + 1] == orphans[..i] + [info];
      }
      assert orphans[..|orphans|] == orphans;
      return NoError;
    }

    /** restoreSnapshotFromObject and restoreSnapshotFromObjectFile: re-creates the record stored
        in the archive of an object, then completes the record the object is named after. */
    method RestoreSnapshotFromObject(info: ObjectInfo, now: Time) returns (ok: bool)
      requires server.Valid()
      modifies server
      ensures server.Valid()
      ensures SoundOrphan(store.buckets, info) ==>
        Recreated(store.buckets, info, old(server.records), server.records, now)
      ensures ArchivedIn(store.buckets, info).None? ==> !ok && server.records == old(server.records)
    {
      hide Rebuilt, ReplaceFirst, TrimSuffix, Persist, SameContent, FindSnapshotJson;
      if info.bucketConfigName !in store.buckets || info.name !in store.buckets[info.bucketConfigName] {
        return false;
      }
      var name := TrimSuffix(info.name, ".tgz");
      if j: Record :| ArchivedIn(store.buckets, info) == Some(j) { FileNameInjective(j.name, name); }
      var content := ReadSnapshotJson(store.buckets[info.bucketConfigName][info.name].archive, name);
      if content.None? || !content.value.SnapshotFile? {
        return false;
      }
      ok := RecreateSnapshot(content.value.record, name, info, now);
    }

    /** The search through the archive for the snapshot file. */
    method ReadSnapshotJson(archive: Archive, name: string) returns (r: Option<Content>)
      ensures r == FindSnapshotJson(archive, name)
    {
      var i := 0;
      while i < |archive|
        invariant 0 <= i <= |archive|
        invariant FindSnapshotJson(archive, name) == FindSnapshotJson(archive[i..], name)
      {
        assert archive[i..][0] == archive[i] && archive[i..][1..] == archive[i + 1..];
        if archive[i].regular {
          var path := ReplaceFirst(archive[i].name, name, "");
          if path == "/snapshot.json" {
            return Some(archive[i].content);
          }
        }
        i := i + 1;
      }
      return None;
    }

    /** Creates the archived record, then completes the record called `name`. */
    method RecreateSnapshot(item: Record, name: string, info: ObjectInfo, now: Time) returns (ok: bool)
      requires server.Valid()
      modifies server
      ensures server.Valid()
      ensures ok <==> item.name !in old(server.records) && (name == item.name || name in old(server.records))
      ensures item.name in old(server.records) ==> server.records == old(server.records)
      ensures item.name == name && name !in old(server.records) ==>
        && server.records.Keys == old(server.records).Keys + {name}
        && (forall n :: n in old(server.records) ==> server.records[n] == old(server.records)[n])
        && SameContent(server.records[name], Rebuilt(item, info, now))
    {
      hide ReplaceFirst, Persist, Rebuilt;
      var created := server.Create(item, now);
      if created.Refused? {
        return false;
      }
      var got := server.Get(name);
      if got.Refused? {
        return false;
      }
      var snapshot := got.record;
      snapshot := snapshot.(status := snapshot.status.(storedFileSize := info.size, storedTimestamp := info.timestamp));
      var tmpAvailableUntil := now + THIRTY_DAYS;
      if snapshot.status.availableUntil < tmpAvailableUntil {
        snapshot := snapshot.(status := snapshot.status.(availableUntil := tmpAvailableUntil));
      }
      if name == item.name { RebuildSteps(item, info, now, server.version, server.version + 1); }
      var reply := UpdateSnapshotStatus(snapshot, Completed, "");
      return reply.Reply?;
    }

    /** The loop over the orphans of a restoring sync; failures are only logged. */
    method RestoreOrphans(orphans: seq<ObjectInfo>, now: Time)
      requires server.Valid()
      modifies server
      ensures server.Valid()
      ensures (forall o :: o in orphans ==> SoundOrphan(store.buckets, o)) ==>
        Restored(store.buckets, orphans, old(server.records), server.records, now)
    {
      hide ArchivedIn, FileName, RebuiltFrom, SoundOrphan, Recreated;
      ghost var sound := forall o :: o in orphans ==> SoundOrphan(store.buckets, o);
      for i := 0 to |orphans|
        invariant server.Valid()
        invariant sound ==> Restored(store.buckets, orphans[..i], old(server.records), server.records, now)
      {
        ghost var mid := server.records;
        var restored := RestoreSnapshotFromObject(orphans[i], now);
        assert orphans[..i + 1] == orphans[..i] + [orphans[i]];
        if sound {
          RestoredStep(store.buckets, orphans[..i], orphans[i], old(server.records), mid, server.records, now);
        }
      }
      assert orphans[..|orphans|] == orphans;
    }

    /** Deletes the orphans, or rebuilds their records, or leaves them. */
    method HandleOrphans(ghost list: seq<ObjectInfo>, ghost items: seq<Record>, orphans: seq<ObjectInfo>,
                         deleteOrphans: bool, restoreOrphans: bool, now: Time, ghost listed: map<string, Record>)
      returns (err: SyncError)
      requires server.Valid() && Lists(list, configs, store.buckets)
      requires forall n :: n in listed ==> listed[n].name == n
      requires forall r :: r in items <==> r.name in listed && listed[r.name] == r
      requires forall o :: o in orphans <==> o in list && forall r :: r in items ==> FileName(r.name) != o.name
      modifies server, store
      ensures server.Valid() && err == NoError
      ensures SyncedBuckets(configs, deleteOrphans, listed, old(store.buckets), store.buckets)
      ensures deleteOrphans || !restoreOrphans ==> server.records == old(server.records)
      ensures restoreOrphans && !deleteOrphans ==> store.buckets == old(store.buckets)
      ensures restoreOrphans && !deleteOrphans && Sound(configs, old(store.buckets)) ==>
        Restored(store.buckets, orphans, old(server.records), server.records, now)
    {
      hide FirstIn, FirstInfo, Owned, Holds, ArchivedIn, FileName, Without, SoundOrphan, HasRecord, RebuiltFrom;
      ghost var buckets := store.buckets;
      ListedBuckets(list, configs, buckets);
      if deleteOrphans {
        err := DeleteOrphans(orphans);
        if err != NoError {
          return;
        }
        forall c | c in buckets
          ensures store.buckets[c] == if c in configs then Owned(listed, buckets[c]) else buckets[c]
        {
          OrphansWithout(configs, buckets, list, items, listed, orphans, c);
        }
      } else if restoreOrphans {
        RestoreOrphans(orphans, now);
      }
      return NoError;
    }

    /** The three groups of status writes. */
    method MarkSnaps(ghost list: seq<ObjectInfo>, ghost items: seq<Record>, notFound: seq<Record>,
          invalid: seq<Record>, valid: seq<Record>, deleteOrphans: bool, validate: bool,
          ghost listed: map<string, Record>, ghost pointed: map<string, Record>)
      returns (err: SyncError, ghost st: Stages)
      requires server.Valid() && DistinctNames(items) && Current(listed, items)
      requires Sifted(list, items, |items|, listed, pointed, valid)
      requires notFound == Select(list, items, NoObject) && invalid == Select(list, items, Invalid)
      modifies server
      ensures server.Valid()
      ensures (forall n :: n in pointed ==> n in old(server.records) && old(server.records)[n] == pointed[n]) ==>
        && err == NoError && Staged(list, items, deleteOrphans, validate, st)
        && st.listed == listed && st.pointed == pointed && st.rebuilt == old(server.records) &&
             st.done == server.records
    {
      hide ClassOf, Sifted, Marked, Select, Current, DistinctNames;
      ghost var rebuilt := server.records;
      ghost var usable := forall n :: n in pointed ==> n in rebuilt && rebuilt[n] == pointed[n];
      st := Stages(listed, pointed, rebuilt, rebuilt, rebuilt, rebuilt, valid);
      SelectDistinct(list, items, Invalid);
      SelectDistinct(list, items, NoObject);
      ValidDistinct(list, items, listed, pointed, valid);
      if usable { InvalidCurrent(list, items, listed, pointed, rebuilt, valid); }
      if validate {
        err := MarkAll(invalid, Failed, NOT_MATCHED);
      } else {
        err := MarkAll(invalid, Completed, "");
      }
      if err != NoError {
        return;
      }
      ghost var judged := server.records;
      if usable { NoObjectCurrent(list, items, validate, listed, pointed, rebuilt, judged, valid); }
      if deleteOrphans {
        err := MarkAll(notFound, Failed, FILE_NOT_FOUND);
        if err != NoError {
          return;
        }
      }
      ghost var missed := server.records;
      if usable { ValidCurrent(list, items, deleteOrphans, validate, listed, pointed, rebuilt, judged, missed, valid); }
      err := MarkAll(valid, Completed, "");
      st := Stages(listed, pointed, rebuilt, judged, missed, server.records, valid);
    }

    /** syncObjects. */
    method SyncObjects(deleteOrphans: bool, restoreOrphans: bool, validate: bool, now: Time) returns (err: SyncError)
      requires server.Valid()
      modifies server, store
      ensures server.Valid()
      ensures var active := deleteOrphans || restoreOrphans || validate;
              var reachable := forall c :: c in configs ==> c in old(store.buckets);
              && (!active || !reachable ==>
                    server.records == old(server.records) && store.buckets == old(store.buckets) &&
                      err == if active then BucketUnavailable else NoError)
              && (active && reachable ==>
                   SyncedBuckets(configs, deleteOrphans, old(server.records), old(store.buckets), store.buckets))
              && (active && reachable && (deleteOrphans || !restoreOrphans || Sound(configs, old(store.buckets))) ==>
                    err == NoError
                    && SyncRun(configs, deleteOrphans, restoreOrphans, validate, now, old(server.records),
                         old(store.buckets), server.records, store.buckets))
    {
      hide Settled, Reconciled, FirstIn, FirstInfo, Owned, Pointed, Marked, Judged, Missed, Holds, ArchivedIn,
        FileName, Select, Without, SoundOrphan, SyncedRecords, RebuiltRecords, HasRecord, RebuiltFrom;
      if !deleteOrphans && !restoreOrphans && !validate {
        return NoError;
      }
      var objectList := GetObjectList();
      if objectList.None? {
        return BucketUnavailable;
      }
      var snapshots := server.List();
      var orphans := FindOrphans(objectList.value, snapshots);
      var notFound, invalid, valid;
      ghost var listed := server.records;
      err, notFound, invalid, valid := SiftSnaps(objectList.value, snapshots);
      if err != NoError {
        return;
      }
      ghost var pointed := server.records;
      ghost var buckets := store.buckets;
      err := HandleOrphans(objectList.value, snapshots, orphans, deleteOrphans, restoreOrphans, now, listed);
      if err != NoError {
        return;
      }
      ghost var usable := restoreOrphans && !deleteOrphans ==> Sound(configs, buckets);
      ghost var st;
      err, st := MarkSnaps(objectList.value, snapshots, notFound, invalid, valid, deleteOrphans, validate, listed,
        pointed);
      if usable {
        AssembleAll(configs, buckets, objectList.value, snapshots, deleteOrphans, validate, st);
        if restoreOrphans && !deleteOrphans {
          AssembleRebuilt(configs, buckets, objectList.value, snapshots, orphans, deleteOrphans, validate, st, now);
        }
      }
    }
  }
}
