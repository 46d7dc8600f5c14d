/** What whole runs of the object syncer achieve (backup_syncer.go). */
module SyncTheorems {
  import opened Text
  import opened Records
  import opened Reconciliation
  import opened ObjectSyncer

  predicate SelfNamed(records: map<string, Record>) {
    forall n :: n in records ==> records[n].name == n
  }

  predicate Reachable(configs: seq<string>, buckets: map<string, BucketContents>) {
    forall c :: c in configs ==> c in buckets
  }

  /* ---- a second run finds nothing to do ---- */

  lemma SettledTwice(d: bool, v: bool, first: Option<ObjectInfo>, r0: Record, r1: Record, r2: Record)
    requires Settled(r0, r1, Reconciled(d, v, first, r0)) && Settled(r1, r2, Reconciled(d, v, first, r1))
    ensures r2 == r1
  {
    var target := Reconciled(d, v, first, r0);
    if target != r0 {
      ReconcileIdempotent(d, v, first, r0);
      ReconcileContent(d, v, first, target, r1);
    }
  }

  /** The buckets a sync leaves show every record the same first object as before. */
  lemma SameFirst(configs: seq<string>, d: bool, records: map<string, Record>,
        buckets: map<string, BucketContents>, buckets': map<string, BucketContents>, n: string)
    requires Reachable(configs, buckets) && SyncedBuckets(configs, d, records, buckets, buckets') && n in records
    ensures FirstIn(configs, buckets', FileName(n)) == FirstIn(configs, buckets, FileName(n))
  {
    if d {
      FirstAmongOwned(configs, buckets, buckets', records, n);
    } else {
      assert buckets' == buckets;
    }
  }

  lemma OwnedTwice(records: map<string, Record>, records': map<string, Record>, contents: BucketContents)
    requires records.Keys == records'.Keys
    ensures Owned(records', Owned(records, contents)) == Owned(records, contents)
  {
    forall name | name in contents && HasRecord(records, name) ensures HasRecord(records', name) {
      var n :| n in records && FileName(n) == name;
      assert n in records';
    }
  }

  /** Undisturbed syncs are idempotent: for every flag combination that does not restore, the
      second run writes no record and deletes no object. */
  lemma SyncFixpoint(configs: seq<string>, d: bool, r: bool, v: bool, now: Time, now': Time,
                     r0: map<string, Record>, b0: map<string, BucketContents>, r1: map<string, Record>,
                       b1: map<string, BucketContents>,
                     r2: map<string, Record>, b2: map<string, BucketContents>)
    requires d || !r
    requires Reachable(configs, b0)
    requires SyncRun(configs, d, r, v, now, r0, b0, r1, b1) && SyncRun(configs, d, r, v, now', r1, b1, r2, b2)
    ensures r2 == r1 && b2 == b1
  {
    hide Settled, Reconciled, FirstIn, Owned, FileName;
    forall n | n in r1 ensures r2[n] == r1[n] {
      SameFirst(configs, d, r0, b0, b1, n);
      SettledTwice(d, v, FirstIn(configs, b0, FileName(n)), r0[n], r1[n], r2[n]);
    }
    forall c | c in b1 ensures b2[c] == b1[c] {
      OwnedTwice(r0, r1, b0[c]);
    }
  }

  /** A restoring sync settles after its second run: the first re-creates every readable record,
      the second may still point the new ones at their buckets, the third does nothing. */
  lemma RestoringSyncSettles(configs: seq<string>, v: bool, t1: Time, t2: Time, t3: Time,
        buckets: map<string, BucketContents>, r0: map<string, Record>, r1: map<string, Record>,
        r2: map<string, Record>, r3: map<string, Record>)
    requires Reachable(configs, buckets) && SelfNamed(r2) && SelfNamed(r3)
    requires SyncRun(configs, false, true, v, t1, r0, buckets, r1, buckets)
    requires SyncRun(configs, false, true, v, t2, r1, buckets, r2, buckets)
    requires SyncRun(configs, false, true, v, t3, r2, buckets, r3, buckets)
    ensures r2.Keys == r1.Keys && r3 == r2
    ensures forall n :: n in r0 ==> n in r1 && r2[n] == r1[n]
  {
    hide Settled, Reconciled, FirstIn, Owned;
    NothingLeftToRebuild(configs, buckets, r0, r1, r2, t1, t2);
    NothingLeftToRebuild(configs, buckets, r1, r2, r3, t2, t3);
    forall n | n in r0 ensures r2[n] == r1[n] {
      SettledTwice(false, v, FirstIn(configs, buckets, FileName(n)), r0[n], r1[n], r2[n]);
    }
    forall n | n in r2 ensures r3[n] == r2[n] {
      SettledTwice(false, v, FirstIn(configs, buckets, FileName(n)), r1[n], r2[n], r3[n]);
    }
  }

  lemma NothingLeftToRebuild(configs: seq<string>, buckets: map<string, BucketContents>,
        r0: map<string, Record>, r1: map<string, Record>, r2: map<string, Record>, t1: Time, t2: Time)
    requires RebuiltRecords(configs, buckets, r0, r1, t1) && RebuiltRecords(configs, buckets, r1, r2, t2)
    requires forall n :: n in r1 ==> n in r2
    requires SelfNamed(r2)
    ensures r2.Keys == r1.Keys
  {
    hide FileName, ArchivedIn, Rebuilt;
    forall n | n in r2 ensures n in r1 {
      if n !in r1 {
        var o :| Holds(configs, buckets, o) && RebuiltFrom(buckets, o, r2[n], t2);
        var m :| m in r1 && FileName(m) == o.name;
        FileNameInjective(m, n);
      }
    }
  }

  /* ---- the outcome of a deleting and validating sync ---- */

  /** Every object that is left has a record; a finished record is Completed exactly when there is an
      object of its name and the first has the recorded size and, to the second, time, and then names
      that object's bucket; unfinished records are untouched. */
  lemma SyncOutcome(configs: seq<string>, now: Time, r0: map<string, Record>, b0: map<string, BucketContents>,
        r1: map<string, Record>, b1: map<string, BucketContents>)
    requires Reachable(configs, b0) && SyncRun(configs, true, false, true, now, r0, b0, r1, b1)
    ensures forall c, name :: c in configs && name in b1[c] ==>
      name in b0[c] && b1[c][name] == b0[c][name] && HasRecord(r1, name)
    ensures forall c, n :: c in configs && n in r1 && FileName(n) in b0[c] ==> FileName(n) in b1[c]
    ensures forall n :: n in r1 && Terminal(r1[n]) ==>
      var first := FirstIn(configs, b1, FileName(n));
      && (r1[n].status.phase.Completed? <==>
           && first.Some? && r1[n].status.storedFileSize == first.value.size
           && r1[n].status.storedTimestamp == Truncate(first.value.timestamp))
      && (r1[n].status.phase.Completed? ==> r1[n].spec.objectstoreConfig == first.value.bucketConfigName)
    ensures forall n :: n in r0 && !Terminal(r0[n]) ==> r1[n] == r0[n]
  {
    forall c, name | c in configs && name in b1[c]
      ensures name in b0[c] && b1[c][name] == b0[c][name] && HasRecord(r1, name)
    {
      var n :| n in r0 && FileName(n) == name;
      assert n in r1;
    }
    forall c, n | c in configs && n in r1 && FileName(n) in b0[c] ensures FileName(n) in b1[c] {
      assert HasRecord(r0, FileName(n));
    }
    hide FileName, FirstIn, Owned, HasRecord;
    forall n | n in r1 && Terminal(r1[n])
      ensures var first := FirstIn(configs, b1, FileName(n));
              && (r1[n].status.phase.Completed? <==>
                   && first.Some? && r1[n].status.storedFileSize == first.value.size
                   && r1[n].status.storedTimestamp == Truncate(first.value.timestamp))
              && (r1[n].status.phase.Completed? ==> r1[n].spec.objectstoreConfig == first.value.bucketConfigName)
    {
      SameFirst(configs, true, r0, b0, b1, n);
      ReconciledOutcome(FirstIn(configs, b0, FileName(n)), r0[n]);
    }
  }

  /** The same for all flags without restoring: what becomes of each record follows from the object of
      its name in the first bucket that has one. */
  lemma SyncCases(configs: seq<string>, deleteOrphans: bool, validate: bool, now: Time, r0: map<string, Record>,
        b0: map<string, BucketContents>, r1: map<string, Record>, b1: map<string, BucketContents>, n: string)
    requires Reachable(configs, b0) && SyncRun(configs, deleteOrphans, false, validate, now, r0, b0, r1, b1)
    requires n in r0 && Terminal(r0[n])
    ensures n in r1
    ensures var first := FirstIn(configs, b0, FileName(n));
            var same := first.Some? && r0[n].status.storedFileSize == first.value.size &&
              r0[n].status.storedTimestamp == Truncate(first.value.timestamp);
            && (same ==> r1[n].status.phase.Completed? && r1[n].spec.objectstoreConfig == first.value.bucketConfigName)
            && (!same ==> r1[n].spec == r0[n].spec)
            && (first.Some? && !same ==> if validate then r1[n].status.phase.Failed? else r1[n].status.phase.Completed?)
            && (first.None? ==> if deleteOrphans then r1[n].status.phase.Failed? else r1[n] == r0[n])
  {
    hide FileName, FirstIn, Owned, HasRecord;
    ReconciledCases(deleteOrphans, validate, FirstIn(configs, b0, FileName(n)), r0[n]);
  }

  /* ---- all records lost ---- */

  lemma {:induction false} HeldIsFirst(configs: seq<string>, buckets: map<string, BucketContents>, o: ObjectInfo)
    requires Holds(configs, buckets, o)
    ensures FirstIn(configs, buckets, o.name).Some?
  {
    if !(configs[0] in buckets && o.name in buckets[configs[0]]) {
      HeldIsFirst(configs[1..], buckets, o);
    }
  }

  /** No other held object has the name. */
  ghost predicate OnlyOfName(configs: seq<string>, buckets: map<string, BucketContents>, o: ObjectInfo) {
    Holds(configs, buckets, o) && forall o' :: Holds(configs, buckets, o') && o'.name == o.name ==> o' == o
  }

  lemma FirstIsHeld(configs: seq<string>, buckets: map<string, BucketContents>, o: ObjectInfo)
    requires OnlyOfName(configs, buckets, o)
    ensures FirstIn(configs, buckets, o.name) == Some(o)
  {
    HeldIsFirst(configs, buckets, o);
    assert Holds(configs, buckets, FirstIn(configs, buckets, o.name).value);
  }

  /** The record of a held object after the records were lost and a restoring sync ran. */
  predicate Recovered(r: Record, o: ObjectInfo, now: Time) {
    && r.status.phase.Completed? && r.status.storedFileSize == o.size
    && r.status.storedTimestamp == Truncate(o.timestamp)
    && r.status.availableUntil >= Truncate(now + 30 * DAY)
  }

  /** If all records are lost, a restoring sync re-creates a Completed record for each readable
      object that is the only one of its name, whatever else lies in the buckets; a validating sync
      after it keeps the record Completed, names its bucket and keeps the object. */
  lemma LostRecordIsRebuilt(configs: seq<string>, v: bool, t1: Time, d2: bool, restore2: bool, t2: Time,
        b0: map<string, BucketContents>, r1: map<string, Record>, r2: map<string, Record>,
        b2: map<string, BucketContents>, o: ObjectInfo)
    returns (n: string)
    requires Reachable(configs, b0) && OnlyOfName(configs, b0, o) && ArchivedIn(b0, o).Some?
    requires SyncRun(configs, false, true, v, t1, map[], b0, r1, b0) && SelfNamed(r1)
    requires SyncRun(configs, d2, restore2, true, t2, r1, b0, r2, b2) && SelfNamed(r2)
    ensures n in r1 && n in r2 && FileName(n) == o.name
    ensures Recovered(r1[n], o, t1) && SameContent(r1[n], Rebuilt(ArchivedIn(b0, o).value, o, t1))
    ensures Recovered(r2[n], o, t1) && r2[n].spec.objectstoreConfig == o.bucketConfigName
    ensures Holds(configs, b2, o)
  {
    hide ArchivedIn, FileName, Rebuilt, FirstIn, Truncate, Reconciled, Settled, Recovered, RebuiltFrom;
    n :| n in r1 && FileName(n) == o.name;
    OneRecordRebuilt(configs, b0, o, r1, t1, n);
    FirstIsHeld(configs, b0, o);
    KeptCompleted(ArchivedIn(b0, o).value, o, t1, d2, r1[n], r2[n]);
    assert HasRecord(r1, o.name);
  }

  /** Nothing else is re-created: every record comes from a readable object of its name, and the
      sync after it adds none. */
  lemma RebuiltRecordsHaveObjects(configs: seq<string>, v: bool, t1: Time, d2: bool, restore2: bool, t2: Time,
        b0: map<string, BucketContents>, r1: map<string, Record>, r2: map<string, Record>,
        b2: map<string, BucketContents>)
    requires SyncRun(configs, false, true, v, t1, map[], b0, r1, b0) && SelfNamed(r1)
    requires SyncRun(configs, d2, restore2, true, t2, r1, b0, r2, b2) && SelfNamed(r2)
    ensures r2.Keys == r1.Keys
    ensures forall n :: n in r1 ==> exists o :: Holds(configs, b0, o) && RebuiltFrom(b0, o, r1[n], t1)
  {
    hide ArchivedIn, FileName, Rebuilt, FirstIn, Reconciled, Settled, RebuiltFrom, Holds;
    if restore2 && !d2 { NothingLeftToRebuild(configs, b0, map[], r1, r2, t1, t2); }
  }

  ghost predicate OneObjectPerName(configs: seq<string>, buckets: map<string, BucketContents>) {
    forall o :: Holds(configs, buckets, o) ==> OnlyOfName(configs, buckets, o)
  }

  ghost predicate AllReadable(configs: seq<string>, buckets: map<string, BucketContents>) {
    forall o :: Holds(configs, buckets, o) ==> ArchivedIn(buckets, o).Some?
  }

  /** If every object is readable and the only one of its name, records and objects correspond one
      to one afterwards, and the second sync deletes nothing. */
  lemma LostRecordsAreRebuilt(configs: seq<string>, v: bool, t1: Time, d2: bool, restore2: bool, t2: Time,
        b0: map<string, BucketContents>, r1: map<string, Record>, r2: map<string, Record>,
        b2: map<string, BucketContents>)
    requires Reachable(configs, b0) && OneObjectPerName(configs, b0) && AllReadable(configs, b0)
    requires SyncRun(configs, false, true, v, t1, map[], b0, r1, b0) && SelfNamed(r1)
    requires SyncRun(configs, d2, restore2, true, t2, r1, b0, r2, b2) && SelfNamed(r2)
    ensures r2.Keys == r1.Keys && b2 == b0
    ensures forall n :: n in r1 <==> exists o :: Holds(configs, b0, o) && o.name == FileName(n)
    ensures forall o, n :: Holds(configs, b0, o) && n in r1 && o.name == FileName(n) ==>
      Recovered(r1[n], o, t1) && Recovered(r2[n], o, t1) && r2[n].spec.objectstoreConfig == o.bucketConfigName
  {
    hide ArchivedIn, FileName, Rebuilt, FirstIn, Truncate, Reconciled, Settled, Recovered, RebuiltFrom, Holds,
      SyncRun, OnlyOfName;
    RebuiltRecordsHaveObjects(configs, v, t1, d2, restore2, t2, b0, r1, r2, b2);
    NothingLeftToDelete(configs, b0, r1, d2, b2) by { RunParts(configs, v, t1, d2, restore2, t2, b0, r1, r2, b2); }
    forall n ensures n in r1 <==> exists o :: Holds(configs, b0, o) && o.name == FileName(n) {
      RunParts(configs, v, t1, d2, restore2, t2, b0, r1, r2, b2);
      LostAndFound(configs, b0, r1, t1, n);
    }
    forall o, n | Holds(configs, b0, o) && n in r1 && o.name == FileName(n)
      ensures Recovered(r1[n], o, t1) && Recovered(r2[n], o, t1) && r2[n].spec.objectstoreConfig == o.bucketConfigName
    {
      var m := LostRecordIsRebuilt(configs, v, t1, d2, restore2, t2, b0, r1, r2, b2, o);
      FileNameInjective(m, n);
    }
  }

  lemma RunParts(configs: seq<string>, v: bool, t1: Time, d2: bool, restore2: bool, t2: Time,
        b0: map<string, BucketContents>, r1: map<string, Record>, r2: map<string, Record>,
        b2: map<string, BucketContents>)
    requires SyncRun(configs, false, true, v, t1, map[], b0, r1, b0)
    requires SyncRun(configs, d2, restore2, true, t2, r1, b0, r2, b2)
    ensures RebuiltRecords(configs, b0, map[], r1, t1) && SyncedBuckets(configs, d2, r1, b0, b2)
  {}

  lemma NothingLeftToDelete(configs: seq<string>, buckets: map<string, BucketContents>,
        records: map<string, Record>, d: bool, buckets': map<string, BucketContents>)
    requires AllReadable(configs, buckets) && SyncedBuckets(configs, d, records, buckets, buckets')
    requires forall o :: Holds(configs, buckets, o) && ArchivedIn(buckets, o).Some? ==> HasRecord(records, o.name)
    ensures buckets' == buckets
  {
    hide ArchivedIn, HasRecord;
    forall c | c in buckets ensures buckets'[c] == buckets[c] {
      if d && c in configs {
        forall name | name in buckets[c] ensures HasRecord(records, name) {
          assert Holds(configs, buckets, InfoOf(c, name, buckets[c][name]));
        }
      }
    }
  }

  lemma OneRecordRebuilt(configs: seq<string>, buckets: map<string, BucketContents>, o: ObjectInfo,
        r1: map<string, Record>, now: Time, n: string)
    requires OnlyOfName(configs, buckets, o)
    requires RebuiltRecords(configs, buckets, map[], r1, now) && n in r1 && r1[n].name == n && o.name == FileName(n)
    ensures ArchivedIn(buckets, o).Some? && SameContent(r1[n], Rebuilt(ArchivedIn(buckets, o).value, o, now))
  {
    hide ArchivedIn, FileName, Rebuilt, SameContent;
    var o' :| Holds(configs, buckets, o') && RebuiltFrom(buckets, o', r1[n], now);
  }

  lemma LostAndFound(configs: seq<string>, buckets: map<string, BucketContents>, r1: map<string, Record>,
        now: Time, n: string)
    requires RebuiltRecords(configs, buckets, map[], r1, now) && AllReadable(configs, buckets) && SelfNamed(r1)
    ensures n in r1 <==> exists o :: Holds(configs, buckets, o) && o.name == FileName(n)
  {
    hide ArchivedIn, Rebuilt, FileName;
    if n in r1 {
      var o :| Holds(configs, buckets, o) && RebuiltFrom(buckets, o, r1[n], now);
    }
    if o :| Holds(configs, buckets, o) && o.name == FileName(n) {
      var m :| m in r1 && FileName(m) == o.name;
      FileNameInjective(m, n);
    }
  }

  lemma KeptCompleted(j: Record, o: ObjectInfo, now: Time, d: bool, r1: Record, r2: Record)
    requires SameContent(r1, Rebuilt(j, o, now)) && Settled(r1, r2, Reconciled(d, true, Some(o), r1))
    ensures Recovered(r1, o, now) && Recovered(r2, o, now) && r2.spec.objectstoreConfig == o.bucketConfigName
  {
    var r := Rebuilt(j, o, now);
    RebuiltAgrees(j, o, now);
    ReconcileContent(d, true, Some(o), r1, r);
    hide Rebuilt, Truncate;
    assert r1 == r.(resourceVersion := r1.resourceVersion);
    var s := Reconciled(d, true, Some(o), r);
    assert s.status == r.status && s.spec.objectstoreConfig == o.bucketConfigName;
  }
}
