/** What passes of the restore handler (restore_handler.go) achieve. */
module RestorePasses {
  import opened Text
  import opened Records
  import opened Lifecycle
  import opened RestorePipeline
  import opened RestoreHandler

  lemma PutIsLegal(from: Phase, p: RecordPass, r: RestoreRecord)
    requires Legal(from, LifePass(p)) && Edge(p.record.phase, r.phase)
    ensures Legal(from, LifePass(Put(p, r))) && Put(p, r).record.phase == r.phase
  {
    hide Truncate, Legal;
    WriteIsLegal(from, LifePass(p), LifePass(Put(p, r)));
  }

  lemma FailIsLegal(from: Phase, p: RecordPass, r: RestoreRecord, message: string)
    requires Legal(from, LifePass(p)) && p.record.phase.InProgress?
    ensures Legal(from, LifePass(Fail(p, r, message)))
  {
    hide Legal, Put;
    PutIsLegal(from, p, WithRestorePhase(r, Failed, message));
    SameLegal(from, LifePass(Put(p, WithRestorePhase(r, Failed, message))), LifePass(Fail(p, r, message)));
  }

  lemma WorkIsLegal(from: Phase, p: RecordPass, queueOnly: bool, s: Surroundings)
    requires Legal(from, LifePass(p))
    ensures Legal(from, LifePass(Work(p, queueOnly, s)))
  {
    hide Legal, Put, PersistRestore, Fail;
    if !queueOnly && p.record.phase.InQueue? {
      var q := Put(p, WithRestorePhase(p.record, InProgress, ""));
      PutIsLegal(from, p, WithRestorePhase(p.record, InProgress, ""));
      FailIsLegal(from, q, q.record, MISSING);
      FailIsLegal(from, q, q.record, NOT_COMPLETED);
      if SnapshotCompleted(q.record, s) {
        var r := Counted(q.record, s);
        FailIsLegal(from, q, r, MISSING);
        if Ready(q.record, s) {
          var (status, error) := s.restore(r, s.preferences[r.preferenceName]);
          if error.Some? { FailIsLegal(from, q, r.(status := status), error.value); }
          PutIsLegal(from, q, WithRestorePhase(r.(status := status), Completed, ""));
        }
      }
    }
  }

  /** Whatever a pass meets, the phases it writes follow the edges of the phase diagram; only a
      refused delete may end the pass with Failed from another phase. */
  lemma PassFollowsEdges(r: RestoreRecord, version: nat, queueOnly: bool, s: Surroundings)
    ensures var p := PassOver(r, version, queueOnly, s);
            && (s.refusal.None? ==> FollowsEdges(r.phase, p.writes) && p.record.phase == Reached(r.phase, p.writes))
            && (!FollowsEdges(r.phase, p.writes) ==>
                  p.writes != [] && FollowsEdges(r.phase, p.writes[..|p.writes| - 1])
                  && p.record.phase.Failed? && p.record.reason == s.refusal.value)
  {
    hide Put, Work, Close, FollowsEdges, Reached, Truncate;
    StartLegal(LifeOf(r));
    var p := Work(Begin(r, version), queueOnly, s);
    WorkIsLegal(r.phase, Begin(r, version), queueOnly, s);
    CloseFollowsEdges(r.phase, LifePass(p), s.finished, SEVEN_DAYS, s.refusal);
    LegalMeans(r.phase, Close(LifePass(p), s.finished, SEVEN_DAYS, s.refusal));
  }

  lemma StartLegal(l: Life)
    ensures Legal(l.phase, Start(l))
  {}

  lemma LegalMeans(from: Phase, q: Pass)
    ensures Legal(from, q) <==> FollowsEdges(from, q.writes) && q.life.phase == Reached(from, q.writes)
  {}

  /** The snapshot is there and Completed, and so are its bucket, the bucket's secret and the
      preference. */
  predicate CanRestore(r: RestoreRecord, s: Surroundings) {
    && r.spec.snapshotName in s.snapshots
    && var snapshot := s.snapshots[r.spec.snapshotName];
    && snapshot.status.phase == Completed && snapshot.spec.objectstoreConfig in s.configs
    && s.configs[snapshot.spec.objectstoreConfig] in s.secrets && r.preferenceName in s.preferences
  }

  /** What the restore makes of the resource as it is handed over: InProgress, at the version of that
      write, with the number of contents of its snapshot. */
  function Restored(r: RestoreRecord, version: nat, s: Surroundings): (RestoreStatus, Option<string>)
    requires CanRestore(r, s)
  {
    s.restore(r.(phase := InProgress, reason := "", resourceVersion := version + 1,
                 numSnapshotContents := s.snapshots[r.spec.snapshotName].status.numberOfContents),
      s.preferences[r.preferenceName])
  }

  /** Everything but the dates. */
  predicate SameCounters(a: RestoreStatus, b: RestoreStatus) {
    a.(availableUntil := 0, restoreTimestamp := 0, ttl := 0) == b.(availableUntil := 0, restoreTimestamp := 0, ttl := 0)
  }

  /** A queued restore completes exactly when everything it needs is there, its snapshot being
      Completed above all, and the restore itself goes through; otherwise it fails. Either way the
      resource holds what the restore counted; once completed also its time, and as deadline the one
      the user asked for, or else the restore's. */
  lemma RestoreIsGated(r: RestoreRecord, version: nat, s: Surroundings)
    requires PersistedRestore(r) && r.phase.InQueue? && s.refusal.None?
    ensures var p := PassOver(r, version, false, s);
            && (p.record.phase.Completed? || p.record.phase.Failed?)
            && (p.record.phase.Completed? <==> CanRestore(r, s) && Restored(r, version, s).1.None?)
            && (CanRestore(r, s) ==>
                  && SameCounters(p.record.status, Restored(r, version, s).0)
                  && p.record.status.restoreTimestamp == Truncate(Restored(r, version, s).0.restoreTimestamp)
                  && p.record.numSnapshotContents == s.snapshots[r.spec.snapshotName].status.numberOfContents
                  && p.record.reason ==
                     if Restored(r, version, s).1.Some? then Restored(r, version, s).1.value else "")
            && (p.record.phase.Completed? ==>
                  && p.record.status.ttl == Restored(r, version, s).0.ttl
                  && p.record.status.availableUntil ==
                     if r.spec.availableUntil != 0 then r.spec.availableUntil
                     else Truncate(Restored(r, version, s).0.availableUntil))
            && (!CanRestore(r, s) ==> SameCounters(p.record.status, r.status))
            && p.record.spec == r.spec && p.record.name == r.name && p.record.preferenceName == r.preferenceName
  {
    hide Truncate;
  }

  /** A new restore is queued, with seven days to live if it asks for nothing, unless its deadline has
      passed already; the rest of it stays. */
  lemma NewRestorePass(r: RestoreRecord, version: nat, queueOnly: bool, s: Surroundings)
    requires PersistedRestore(r) && r.phase.New? && r.status.availableUntil == 0 && s.refusal.None?
    ensures var p := PassOver(r, version, queueOnly, s);
            var late := r.spec.availableUntil != 0 && r.spec.availableUntil < s.finished;
            var ttl := if r.spec.availableUntil == 0 && r.spec.ttl == 0 then 7 * DAY else r.spec.ttl;
            && !p.progress.Gone? && |p.writes| == 1
            && p.record.(resourceVersion := r.resourceVersion) ==
               if late then r.(phase := Failed, reason := "AvailableUntil is set as past.")
               else r.(phase := InQueue, reason := "", spec := r.spec.(ttl := ttl))
  {
    NewPass(LifeOf(r), s.finished, SEVEN_DAYS);
    hide Close, Truncate;
  }

  /** A restore that waits, or is being carried out, is left alone until its deadline. */
  lemma WaitingRestorePass(r: RestoreRecord, version: nat, queueOnly: bool, s: Surroundings)
    requires PersistedRestore(r) && s.refusal.None? && (r.phase.InProgress? || (r.phase.InQueue? && queueOnly))
    ensures var p := PassOver(r, version, queueOnly, s);
            && p.record == r && p.writes == []
            && (p.progress.Gone? <==> r.status.availableUntil != 0 && r.status.availableUntil < s.finished)
  {
    WaitingPass(LifeOf(r), s.finished, SEVEN_DAYS);
    hide Close, Truncate;
  }

  lemma PassOverFinished(r: RestoreRecord, version: nat, queueOnly: bool, s: Surroundings)
    requires Lifecycle.Finished(LifeOf(r))
    ensures PassOver(r, version, queueOnly, s) ==
      Closed(Begin(r, version), Close(Start(LifeOf(r)), s.finished, SEVEN_DAYS, s.refusal))
  {}

  /** A pass over a finished restore deletes it exactly when its deadline has passed, never while
      the deadline the user asked for is ahead; otherwise it keeps all but the deadline in force,
      and the next pass writes nothing, exactly outside the degenerate case. */
  lemma FinishedRestorePass(r: RestoreRecord, version: nat, queueOnly: bool, s: Surroundings)
    requires s.refusal.None? && PersistedRestore(r) && Lifecycle.Finished(LifeOf(r))
    ensures var p := PassOver(r, version, queueOnly, s);
            var deadline := Deadline(LifeOf(r));
            && (p.progress.Gone? <==> !IsZero(deadline) && deadline < s.finished)
            && (!IsZero(r.spec.availableUntil) ==> deadline == r.spec.availableUntil)
            && p.record.status.availableUntil == deadline
            && p.record.(resourceVersion := r.resourceVersion, status :=
                 p.record.status.(availableUntil := r.status.availableUntil, ttl := r.status.ttl)) == r
            && (!p.progress.Gone? ==>
                 (PassOver(p.record, p.version, queueOnly, s) == Begin(p.record, p.version) <==>
                   !Degenerate(LifeOf(r))))
  {
    var q := Close(Start(LifeOf(r)), s.finished, SEVEN_DAYS, None);
    PassOverFinished(r, version, queueOnly, s);
    FinishedPass(LifeOf(r), s.finished, SEVEN_DAYS);
    FinishedFixpoint(LifeOf(r), s.finished, SEVEN_DAYS);
    var p := PassOver(r, version, queueOnly, s);
    ClosedLife(Begin(r, version), q);
    PassOverFinished(p.record, p.version, queueOnly, s);
    ClosedLife(Begin(p.record, p.version), Start(q.life));
    hide Close, Deadline, Truncate;
  }
}
