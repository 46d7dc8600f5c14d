/** What the object syncer decides (backup_syncer.go), record by record and object by object. */
module Reconciliation {
  import opened Text
  import opened Records

  /** The record describes this object: same size, same time to the second. */
  predicate Matches(r: Record, o: ObjectInfo) {
    r.status.storedTimestamp == Truncate(o.timestamp) && r.status.storedFileSize == o.size
  }

  /** The first listed object with that name. */
  function FirstInfo(list: seq<ObjectInfo>, name: string): (r: Option<ObjectInfo>)
    ensures r.Some? ==> r.value in list && r.value.name == name
    ensures r.None? ==> forall o :: o in list ==> o.name != name
  {
    if list == [] then None
    else if list[0].name == name then Some(list[0])
    else FirstInfo(list[1..], name)
  }

  lemma {:induction false} FirstInfoAppend(a: seq<ObjectInfo>, b: seq<ObjectInfo>, name: string)
    ensures FirstInfo(a + b, name) == if FirstInfo(a, name).Some? then FirstInfo(a, name) else FirstInfo(b, name)
  {
    if a == [] {
      assert a + b == b;
    } else {
      assert (a + b)[1..] == a[1..] + b;
      FirstInfoAppend(a[1..], b, name);
    }
  }

  /** The object of that name in the first bucket that has one. */
  function FirstIn(configs: seq<string>, buckets: map<string, BucketContents>, name: string): (r: Option<ObjectInfo>)
    ensures r.Some? ==> r.value.name == name && r.value.bucketConfigName in configs
    ensures r.Some? ==>
      var cfg := r.value.bucketConfigName;
      cfg in buckets && name in buckets[cfg] && r.value == InfoOf(cfg, name, buckets[cfg][name])
  {
    if configs == [] then None
    else if configs[0] in buckets && name in buckets[configs[0]]
      then Some(InfoOf(configs[0], name, buckets[configs[0]][name]))
    else FirstIn(configs[1..], buckets, name)
  }

  datatype Class = Unfinished | NoObject | Invalid | Valid

  function Classify(r: Record, first: Option<ObjectInfo>): Class {
    if !Terminal(r) then Unfinished
    else match first
      case None => NoObject
      case Some(o) => if Matches(r, o) then Valid else Invalid
  }

  /** A valid record is pointed at the bucket its object lies in. */
  function Repointed(r: Record, first: Option<ObjectInfo>): Record {
    if Classify(r, first).Valid? && r.spec.objectstoreConfig != first.value.bucketConfigName
    then r.(spec := r.spec.(objectstoreConfig := first.value.bucketConfigName))
    else r
  }

  const NOT_MATCHED: string := "Snapshot file size or timestamp not matched"
  const FILE_NOT_FOUND: string := "Snapshot file not found"

  function Mark(r: Record, phase: Phase, reason: string): Record {
    if r.status.phase == phase then r else WithPhase(r, phase, reason)
  }

  /** What one sync makes of a record. */
  function Reconciled(deleteOrphans: bool, validate: bool, first: Option<ObjectInfo>, r: Record): Record {
    match Classify(r, first)
    case Unfinished => r
    case NoObject => if deleteOrphans then Mark(r, Failed, FILE_NOT_FOUND) else r
    case Invalid => if validate then Mark(r, Failed, NOT_MATCHED) else Mark(r, Completed, "")
    case Valid => Mark(Repointed(r, first), Completed, "")
  }

  /** The record now holds the target, and was not written at all if it already did. */
  predicate Settled(before: Record, after: Record, target: Record) {
    if target == before then after == before else SameContent(after, target)
  }

  predicate HasRecord(records: map<string, Record>, objectName: string) {
    exists n :: n in records && FileName(n) == objectName
  }

  /** The objects of a bucket that some record owns. */
  function Owned(records: map<string, Record>, contents: BucketContents): BucketContents {
    map name | name in contents && HasRecord(records, name) :: contents[name]
  }

  /* ---- properties of the decision ---- */

  /** Reconciling twice is reconciling once. */
  lemma ReconcileIdempotent(deleteOrphans: bool, validate: bool, first: Option<ObjectInfo>, r: Record)
    ensures var s := Reconciled(deleteOrphans, validate, first, r); Reconciled(deleteOrphans, validate, first, s) == s
  {}

  lemma ReconcileContent(deleteOrphans: bool, validate: bool, first: Option<ObjectInfo>, a: Record, b: Record)
    requires SameContent(a, b)
    ensures SameContent(Reconciled(deleteOrphans, validate, first, a), Reconciled(deleteOrphans, validate, first, b))
    ensures Reconciled(deleteOrphans, validate, first, a) == a ==> Reconciled(deleteOrphans, validate, first, b) == b
  {
    assert a == b.(resourceVersion := a.resourceVersion);
  }

  /** With deletion and validation on, a terminal record ends up Completed exactly when the first
      object of its name matches it, and then it is pointed at that object's bucket; any other
      record is left alone. */
  lemma ReconciledOutcome(first: Option<ObjectInfo>, r: Record)
    ensures var s := Reconciled(true, true, first, r);
            && (Terminal(r) ==>
                  && Terminal(s)
                  && (s.status.phase.Completed? <==>
                       && first.Some? && r.status.storedFileSize == first.value.size
                       && r.status.storedTimestamp == Truncate(first.value.timestamp)))
            && (Terminal(r) && s.status.phase.Completed? ==> s.spec.objectstoreConfig == first.value.bucketConfigName)
            && (!Terminal(r) ==> s == r)
            && s.status.storedTimestamp == r.status.storedTimestamp &&
                 s.status.storedFileSize == r.status.storedFileSize
  {}

  /** With any flags, a terminal record keeps everything but phase, reason and bucket. If no object of
      its name is there it fails if orphans are deleted, and is left alone otherwise. If the first one
      has its size and time it is Completed and points at that object's bucket. If the first one
      differs it fails if objects are validated; otherwise it is Completed all the same. */
  lemma ReconciledCases(deleteOrphans: bool, validate: bool, first: Option<ObjectInfo>, r: Record)
    requires Terminal(r)
    ensures var s := Reconciled(deleteOrphans, validate, first, r);
            var same := first.Some? && r.status.storedFileSize == first.value.size &&
              r.status.storedTimestamp == Truncate(first.value.timestamp);
            && r.(spec := s.spec, status := r.status.(phase := s.status.phase, reason := s.status.reason)) == s
            && s.spec == r.spec.(objectstoreConfig :=
                 if same then first.value.bucketConfigName else r.spec.objectstoreConfig)
            && s.status.phase ==
               (if same || (first.Some? && !validate) then Completed
                else if first.Some? || deleteOrphans then Failed
                else r.status.phase)
            && s.status.reason ==
               if s.status.phase == r.status.phase then r.status.reason
               else if s.status.phase == Completed then ""
               else if first.Some? then "Snapshot file size or timestamp not matched"
               else "Snapshot file not found"
  {}

  /** Deleting the orphans does not change which object a record is compared with. */
  lemma {:induction false} FirstAmongOwned(configs: seq<string>, before: map<string, BucketContents>,
        after: map<string, BucketContents>, records: map<string, Record>, n: string)
    requires n in records
    requires forall c :: c in configs ==> c in before && c in after && after[c] == Owned(records, before[c])
    ensures FirstIn(configs, after, FileName(n)) == FirstIn(configs, before, FileName(n))
  {
    if configs != [] {
      FirstAmongOwned(configs[1..], before, after, records, n);
      assert HasRecord(records, FileName(n));
      assert configs[0] in configs;
    }
  }

  /* ---- rebuilding a record from its archive ---- */

  /** The first regular entry that is the snapshot file once the snapshot name is stripped. */
  function FindSnapshotJson(archive: Archive, name: string): Option<Content> {
    if archive == [] then None
    else if archive[0].regular && ReplaceFirst(archive[0].name, name, "") == "/snapshot.json"
      then Some(archive[0].content)
    else FindSnapshotJson(archive[1..], name)
  }

  /** It is the content of the first regular entry whose name becomes that of the snapshot file. */
  predicate IsSnapshotEntry(e: Entry, name: string) {
    e.regular && ReplaceFirst(e.name, name, "") == "/snapshot.json"
  }

  predicate FirstSnapshotEntry(archive: Archive, name: string, k: int) {
    && 0 <= k < |archive| && IsSnapshotEntry(archive[k], name)
    && forall i :: 0 <= i < k ==> !IsSnapshotEntry(archive[i], name)
  }

  lemma {:induction false} FoundEntryIsFirst(archive: Archive, name: string)
    ensures forall k :: FirstSnapshotEntry(archive, name, k) ==>
      FindSnapshotJson(archive, name) == Some(archive[k].content)
    ensures (forall e :: e in archive ==> !IsSnapshotEntry(e, name)) ==> FindSnapshotJson(archive, name) == None
  {
    hide ReplaceFirst;
    if archive != [] && !IsSnapshotEntry(archive[0], name) {
      FoundEntryIsFirst(archive[1..], name);
      forall k | FirstSnapshotEntry(archive, name, k)
        ensures FindSnapshotJson(archive, name) == Some(archive[k].content)
      {
        assert forall i :: 0 <= i < |archive| - 1 ==> archive[1..][i] == archive[i + 1];
        assert FirstSnapshotEntry(archive[1..], name, k - 1);
      }
      assert forall e :: e in archive[1..] ==> e in archive;
    }
  }

  const THIRTY_DAYS: int := 30 * DAY

  /** The record that a rebuild leaves for archived record j and stored object o. */
  function Rebuilt(j: Record, o: ObjectInfo, now: Time): Record {
    var until := Truncate(j.status.availableUntil);
    Persist(j.(creationTimestamp := now, status := j.status.(
      storedFileSize := o.size,
      storedTimestamp := o.timestamp,
      availableUntil := if until < now + THIRTY_DAYS then now + THIRTY_DAYS else until,
      phase := Completed,
      reason := "")))
  }

  /** A rebuilt record is Completed, has the size and time of its object, and is kept as long as the
      archived one was to be, but for at least thirty days (to the second); a validating sync keeps
      it so and points it at its bucket. */
  lemma RebuiltAgrees(j: Record, o: ObjectInfo, now: Time)
    ensures var r := Rebuilt(j, o, now);
            && r.status.phase.Completed? && r.status.reason == "" && r.creationTimestamp == Truncate(now)
            && r.name == j.name && r.spec == j.spec.(availableUntil := Truncate(j.spec.availableUntil))
            && r.status.contents == j.status.contents && r.status.storedFileSize == o.size
            && r.status.storedTimestamp == Truncate(o.timestamp)
            && r.status.availableUntil >= Truncate(now + 30 * DAY)
            && (r.status.availableUntil == Truncate(now + 30 * DAY)
                || r.status.availableUntil == Truncate(j.status.availableUntil) >= now + 30 * DAY)
            && (Truncate(j.status.availableUntil) >= now + 30 * DAY ==>
                  r.status.availableUntil == Truncate(j.status.availableUntil))
            && forall deleteOrphans ::
                 var s := Reconciled(deleteOrphans, true, Some(o), r);
                 && s.status == r.status
                 && s.spec.objectstoreConfig == o.bucketConfigName
  {
    var until := Truncate(j.status.availableUntil);
    if until >= now + 30 * DAY { TruncateMonotone(now + 30 * DAY, until); }
  }
}
