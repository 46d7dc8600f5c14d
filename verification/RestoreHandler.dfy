/** restore_handler.go: one pass of the restore handler over a Restore resource. */
module RestoreHandler {
  import opened Text
  import opened Records
  import opened Lifecycle
  import opened RestorePipeline
  import opened RestorePreference

  datatype RestoreRecord = RestoreRecord(
    name: string,
    resourceVersion: nat,
    creationTimestamp: Time,
    spec: RestoreSpec,
    preferenceName: string,
    phase: Phase,
    reason: string,
    numSnapshotContents: int,
    status: RestoreStatus)

  const SEVEN_DAYS: int := 7 * DAY

  function LifeOf(r: RestoreRecord): Life {
    Life(r.phase, r.reason, r.creationTimestamp, r.spec.availableUntil, r.spec.ttl, r.status.availableUntil,
      r.status.ttl)
  }

  function WithLife(r: RestoreRecord, l: Life): RestoreRecord {
    r.(spec := r.spec.(availableUntil := l.specUntil, ttl := l.specTtl), phase := l.phase, reason := l.reason,
       status := r.status.(availableUntil := l.until, ttl := l.ttl))
  }

  /** As the server returns it. */
  function PersistRestore(r: RestoreRecord): RestoreRecord {
    r.(creationTimestamp := Truncate(r.creationTimestamp),
       spec := r.spec.(availableUntil := Truncate(r.spec.availableUntil)),
       status := r.status.(availableUntil := Truncate(r.status.availableUntil),
                           restoreTimestamp := Truncate(r.status.restoreTimestamp)))
  }

  predicate PersistedRestore(r: RestoreRecord) { PersistRestore(r) == r }

  lemma PersistTwice(r: RestoreRecord)
    ensures PersistedRestore(PersistRestore(r))
  {
    TruncateOnce(r.creationTimestamp);
    TruncateOnce(r.spec.availableUntil);
    TruncateOnce(r.status.availableUntil);
    TruncateOnce(r.status.restoreTimestamp);
  }

  function WithRestorePhase(r: RestoreRecord, phase: Phase, reason: string): RestoreRecord {
    r.(phase := phase, reason := reason)
  }

  /** What a pass meets: the snapshots, object store configurations with their secrets, secrets and
      preferences that exist, what the restore itself does, two readings of the clock. */
  datatype Surroundings = Surroundings(
    snapshots: map<string, Record>,
    configs: map<string, string>,
    secrets: set<string>,
    preferences: map<string, PreferenceSpec>,
    restore: (RestoreRecord, PreferenceSpec) -> (RestoreStatus, Option<string>),
    finished: Time,
    refusal: Option<string>)

  const MISSING: string := "not found"
  const NOT_COMPLETED: string := "Snapshot data is not in status 'Completed'"

  predicate SnapshotCompleted(r: RestoreRecord, s: Surroundings) {
    r.spec.snapshotName in s.snapshots && s.snapshots[r.spec.snapshotName].status.phase.Completed?
  }

  /** Everything a restore needs is there. */
  predicate Ready(r: RestoreRecord, s: Surroundings) {
    && SnapshotCompleted(r, s)
    && s.snapshots[r.spec.snapshotName].spec.objectstoreConfig in s.configs
    && s.configs[s.snapshots[r.spec.snapshotName].spec.objectstoreConfig] in s.secrets
    && r.preferenceName in s.preferences
  }

  datatype RecordPass = RecordPass(record: RestoreRecord, version: nat, writes: seq<Life>, progress: Progress)

  function Begin(r: RestoreRecord, version: nat): RecordPass { RecordPass(r, version, [], Running) }

  function Put(p: RecordPass, r: RestoreRecord): RecordPass {
    var stored := PersistRestore(r).(resourceVersion := p.version + 1);
    p.(record := stored, version := p.version + 1, writes := p.writes + [LifeOf(stored)])
  }

  function Fail(p: RecordPass, r: RestoreRecord, message: string): RecordPass {
    Put(p, WithRestorePhase(r, Failed, message)).(progress := Ended)
  }

  function Counted(r: RestoreRecord, s: Surroundings): RestoreRecord
    requires SnapshotCompleted(r, s)
  {
    r.(numSnapshotContents := s.snapshots[r.spec.snapshotName].status.numberOfContents)
  }

  function Work(p: RecordPass, queueOnly: bool, s: Surroundings): RecordPass {
    if queueOnly || !p.record.phase.InQueue? then p
    else
      var q := Put(p, WithRestorePhase(p.record, InProgress, ""));
      if q.record.spec.snapshotName !in s.snapshots then Fail(q, q.record, MISSING)
      else if !SnapshotCompleted(q.record, s) then Fail(q, q.record, NOT_COMPLETED)
      else if !Ready(q.record, s) then Fail(q, Counted(q.record, s), MISSING)
      else
        var r := Counted(q.record, s);
        var (status, error) := s.restore(r, s.preferences[r.preferenceName]);
        if error.Some? then Fail(q, r.(status := status), error.value)
        else Put(q, WithRestorePhase(r.(status := status), Completed, ""))
  }

  function LifePass(p: RecordPass): Pass { Pass(LifeOf(p.record), p.writes, p.progress) }

  function Closed(p: RecordPass, q: Pass): RecordPass {
    var more := if |q.writes| <= |p.writes| then 0 else |q.writes| - |p.writes|;
    var version := if more == 0 then p.record.resourceVersion else p.version + more;
    RecordPass(WithLife(p.record, q.life).(resourceVersion := version), p.version + more, q.writes, q.progress)
  }

  function PassOver(r: RestoreRecord, version: nat, queueOnly: bool, s: Surroundings): RecordPass {
    var p := Work(Begin(r, version), queueOnly, s);
    Closed(p, Close(LifePass(p), s.finished, SEVEN_DAYS, s.refusal))
  }

  /** The Restore resource of a key, as the API server holds it. */
  class RestoreResource {
    var stored: Option<RestoreRecord>
    var version: nat

    ghost predicate Valid()
      reads this
    {
      stored.Some? ==> PersistedRestore(stored.value) && stored.value.resourceVersion <= version
    }

    /** updateRestoreStatus. */
    method UpdateRestoreStatus(restore: RestoreRecord, phase: Phase, reason: string) returns (r: Option<RestoreRecord>)
      requires Valid()
      modifies this
      ensures Valid()
      ensures r.Some? <==> old(stored).Some? && old(stored).value.resourceVersion == restore.resourceVersion
      ensures r.None? ==> stored == old(stored) && version == old(version)
      ensures r.Some? ==>
        stored == r && version == old(version) + 1 &&
          r.value == PersistRestore(WithRestorePhase(restore, phase, reason)).(resourceVersion := version)
    {
      if stored.None? || stored.value.resourceVersion != restore.resourceVersion {
        return None;
      }
      PersistTwice(WithRestorePhase(restore, phase, reason));
      version := version + 1;
      stored := Some(PersistRestore(restore.(phase := phase, reason := reason)).(resourceVersion := version));
      return stored;
    }

    method Delete()
      requires Valid()
      modifies this`stored
      ensures Valid() && stored.None?
    {
      stored := None;
    }
  }

  /** The resource holds the record of pass p. */
  ghost predicate Holds(p: RecordPass, stored: Option<RestoreRecord>, version: nat) {
    stored == Some(p.record) && version == p.version
  }

  method Write(resource: RestoreResource, ghost p: RecordPass, restore: RestoreRecord, phase: Phase,
        reason: string) returns (r: RestoreRecord, ghost q: RecordPass)
    requires resource.Valid() && Holds(p, resource.stored, resource.version)
    requires restore.resourceVersion == p.record.resourceVersion
    modifies resource
    ensures resource.Valid() && Holds(q, resource.stored, resource.version)
    ensures q == Put(p, WithRestorePhase(restore, phase, reason)) && r == q.record
  {
    var updated := resource.UpdateRestoreStatus(restore, phase, reason);
    r := updated.value;
    q := Put(p, WithRestorePhase(restore, phase, reason));
  }

  /** The part that restores; `ran` tells whether the target cluster was touched. */
  method DoRestore(resource: RestoreResource, ghost p: RecordPass, restore: RestoreRecord, queueOnly: bool,
        s: Surroundings)
    returns (r: RestoreRecord, ghost q: RecordPass, returned: bool, ran: bool)
    requires resource.Valid() && Holds(p, resource.stored, resource.version) && restore == p.record
    requires p.progress.Running?
    modifies resource
    ensures resource.Valid() && Holds(q, resource.stored, resource.version)
    ensures q == Work(p, queueOnly, s) && r == q.record && returned == q.progress.Ended?
    ensures !returned == q.progress.Running?
    ensures ran <==> !queueOnly && restore.phase.InQueue? && Ready(restore, s)
  {
    hide LifeOf, Truncate;
    r, q, returned, ran := restore, p, false, false;
    if !queueOnly && r.phase == InQueue {
      r, q := Write(resource, q, r, InProgress, "");
      if r.spec.snapshotName !in s.snapshots {
        r, q := Write(resource, q, r, Failed, MISSING);
        q := q.(progress := Ended);
        return r, q, true, false;
      }
      var snapshot := s.snapshots[r.spec.snapshotName];
      if snapshot.status.phase != Completed {
        r, q := Write(resource, q, r, Failed, NOT_COMPLETED);
        q := q.(progress := Ended);
        return r, q, true, false;
      }
      r := r.(numSnapshotContents := snapshot.status.numberOfContents);
      if snapshot.spec.objectstoreConfig !in s.configs || s.configs[snapshot.spec.objectstoreConfig] !in s.secrets ||
        r.preferenceName !in s.preferences {
        r, q := Write(resource, q, r, Failed, MISSING);
        q := q.(progress := Ended);
        return r, q, true, false;
      }
      ran := true;
      var (status, error) := s.restore(r, s.preferences[r.preferenceName]);
      r := r.(status := status);
      if error.Some? {
        r, q := Write(resource, q, r, Failed, error.value);
        q := q.(progress := Ended);
        return r, q, true, true;
      }
      r, q := Write(resource, q, r, Completed, "");
    }
  }

  /* ---- the closing part ---- */

  lemma ClosedLife(p: RecordPass, q: Pass)
    requires |p.writes| <= |q.writes| && q.life.creation == p.record.creationTimestamp
    ensures LifePass(Closed(p, q)) == q
    ensures LifePass(p) == q ==> Closed(p, q) == p
  {}

  lemma ClosedTwice(p: RecordPass, q: Pass, q': Pass)
    requires |p.writes| <= |q.writes| <= |q'.writes| && q.life.creation == p.record.creationTimestamp
    ensures Closed(Closed(p, q), q') == Closed(p, q')
  {}

  lemma PutIsWrite(p: RecordPass, l: Life)
    requires PersistedRestore(p.record) && l.creation == p.record.creationTimestamp
    ensures Put(p, WithLife(p.record, l)) == Closed(p, Lifecycle.Write(LifePass(p), l))
    ensures Put(p, WithLife(p.record, l)).progress == p.progress
  {
    hide Truncate;
  }

  lemma EndedWrite(p: RecordPass, q: Pass, progress: Progress)
    ensures Closed(p, q).(progress := progress) == Closed(p, q.(progress := progress))
  {}

  /** One closing step that may write: what it does is what the step of the life says. */
  method CloseStep(resource: RestoreResource, ghost p: RecordPass, ghost step: Pass, restore: RestoreRecord,
        write: bool, phase: Phase, reason: string)
    returns (r: RestoreRecord, ghost q: RecordPass)
    requires resource.Valid() && Holds(p, resource.stored, resource.version) && p.progress.Running?
    requires restore.resourceVersion == p.record.resourceVersion
    requires !write ==> restore == p.record && step == LifePass(p)
    requires write ==>
      WithRestorePhase(restore, phase, reason) == WithLife(p.record, LifeOf(WithRestorePhase(restore, phase, reason)))
    requires write ==> restore.creationTimestamp == p.record.creationTimestamp
    requires write ==>
      step == Lifecycle.Write(LifePass(p), LifeOf(WithRestorePhase(restore, phase, reason))).(progress := step.progress)
    modifies resource
    ensures resource.Valid() && q == Closed(p, step) && r == q.record
    ensures resource.stored == Some(q.record) && resource.version == q.version
  {
    hide PersistRestore, Put, Closed, PersistLife;
    r, q := restore, p;
    ghost var l := LifeOf(WithRestorePhase(restore, phase, reason));
    ClosedLife(p, LifePass(p));
    assert PersistedRestore(p.record) by { assert resource.stored == Some(p.record); }
    if write {
      PutIsWrite(p, l);
      r, q := Write(resource, q, restore, phase, reason);
      EndedWrite(p, Lifecycle.Write(LifePass(p), l), step.progress);
      q := q.(progress := step.progress);
    }
  }

  lemma StepsKeep(p: RecordPass, now: Time)
    requires Truncate(p.record.creationTimestamp) == p.record.creationTimestamp
    ensures var q1, q2, q3 :=
      Initialize(LifePass(p), now, SEVEN_DAYS), SetDeadline(LifePass(p)), FollowSpec(LifePass(p));
            && |p.writes| <= |q1.writes| && q1.life.creation == p.record.creationTimestamp
            && |p.writes| <= |q2.writes| && q2.life.creation == p.record.creationTimestamp && q2.progress == p.progress
            && |p.writes| <= |q3.writes| && q3.life.creation == p.record.creationTimestamp && q3.progress == p.progress
  {}

  /** The four closing steps, one after the other, are the closing part. */
  lemma CloseBySteps(p: RecordPass, now: Time, refusal: Option<string>)
    requires Truncate(p.record.creationTimestamp) == p.record.creationTimestamp
    ensures p.progress.Ended? ==> Closed(p, Close(LifePass(p), now, SEVEN_DAYS, refusal)) == p
    ensures var p1 := Closed(p, Initialize(LifePass(p), now, SEVEN_DAYS));
            var p2 := Closed(p1, SetDeadline(LifePass(p1)));
            var p3 := Closed(p2, FollowSpec(LifePass(p2)));
            var p4 := Closed(p3, Expire(LifePass(p3), now, refusal));
            && p1.progress == p2.progress == p3.progress
            && (p1.progress.Ended? ==> Closed(p, Close(LifePass(p), now, SEVEN_DAYS, refusal)) == p1)
            && (p1.progress.Running? ==> Closed(p, Close(LifePass(p), now, SEVEN_DAYS, refusal)) == p4)
  {
    hide Truncate, Initialize, SetDeadline, FollowSpec, PersistLife;
    var q1 := Initialize(LifePass(p), now, SEVEN_DAYS);
    var p1 := Closed(p, q1);
    if p.progress.Ended? { StoppedPass(LifePass(p), now, SEVEN_DAYS, refusal); }
    if q1.progress.Ended? { StoppedPass(q1, now, SEVEN_DAYS, refusal); }
    StepsKeep(p, now);
    ClosedLife(p, LifePass(p));
    ClosedLife(p, q1);
    var p2 := Closed(p1, SetDeadline(LifePass(p1)));
    StepsKeep(p1, now);
    ClosedLife(p1, SetDeadline(LifePass(p1)));
    ClosedTwice(p, q1, SetDeadline(LifePass(p1)));
    StepsKeep(p2, now);
    var p3 := Closed(p2, FollowSpec(LifePass(p2)));
    ClosedLife(p2, FollowSpec(LifePass(p2)));
    ClosedTwice(p, SetDeadline(LifePass(p1)), FollowSpec(LifePass(p2)));
    ClosedTwice(p, FollowSpec(LifePass(p2)), Expire(LifePass(p3), now, refusal));
  }

  /** restoreSyncHandler, undisturbed. */
  method RestoreSyncHandler(resource: RestoreResource, queueOnly: bool, s: Surroundings) returns (ran: bool)
    requires resource.Valid()
    modifies resource
    ensures resource.Valid()
    ensures old(resource.stored).None? ==> resource.stored.None? && resource.version == old(resource.version) && !ran
    ensures old(resource.stored).Some? ==>
      var r := old(resource.stored).value;
      var p := PassOver(r, old(resource.version), queueOnly, s);
      && resource.version == p.version
      && resource.stored == (if p.progress.Gone? then None else Some(p.record))
      && (ran <==> !queueOnly && r.phase.InQueue? && Ready(r, s))
  {
    hide PersistRestore, Put, Closed, PersistLife, Work, Truncate, Ready;
    ran := false;
    if resource.stored.None? {
      return;
    }
    var restore := resource.stored.value;
    ghost var p := Begin(restore, resource.version);
    var returned;
    restore, p, returned, ran := DoRestore(resource, p, restore, queueOnly, s);
    assert Truncate(p.record.creationTimestamp) == p.record.creationTimestamp by { StoredIsPersisted(p.record); }
    CloseBySteps(p, s.finished, s.refusal);
    if returned {
      return;
    }
    restore, p, returned := InitializeRestore(resource, p, restore, s.finished);
    if returned {
      return;
    }
    // expiration for failed restore
    ghost var step := SetDeadline(LifePass(p));
    var changed := restore;
    var write := restore.phase == Failed && IsZero(restore.status.availableUntil);
    if write {
      if !IsZero(restore.spec.availableUntil) {
        changed := changed.(status := changed.status.(availableUntil := restore.spec.availableUntil));
        changed := changed.(status :=
          changed.status.(ttl := changed.status.availableUntil - restore.creationTimestamp));
      } else {
        changed := changed.(status :=
          changed.status.(availableUntil := restore.creationTimestamp + restore.spec.ttl, ttl := restore.spec.ttl));
      }
    }
    restore, p := CloseStep(resource, p, step, changed, write, changed.phase, changed.reason);
    // expiration edited
    step := FollowSpec(LifePass(p));
    changed := restore;
    write := (restore.phase == Completed || restore.phase == Failed)
      && !IsZero(restore.spec.availableUntil) && restore.spec.availableUntil != restore.status.availableUntil;
    if write {
      changed := changed.(status := changed.status.(availableUntil := restore.spec.availableUntil));
    }
    restore, p := CloseStep(resource, p, step, changed, write, changed.phase, changed.reason);
    DeleteExpired(resource, p, restore, s);
  }

  lemma StoredIsPersisted(r: RestoreRecord)
    ensures PersistedRestore(r) ==> Truncate(r.creationTimestamp) == r.creationTimestamp
  {}

  method InitializeRestore(resource: RestoreResource, ghost p: RecordPass, restore: RestoreRecord, now: Time)
    returns (r: RestoreRecord, ghost q: RecordPass, returned: bool)
    requires resource.Valid() && Holds(p, resource.stored, resource.version) && restore == p.record
    requires p.progress.Running?
    modifies resource
    ensures resource.Valid() && Holds(q, resource.stored, resource.version) && r == q.record
    ensures q == Closed(p, Initialize(LifePass(p), now, SEVEN_DAYS))
    ensures returned == q.progress.Ended? && !returned == q.progress.Running?
  {
    hide PersistRestore, Put, PersistLife;
    ghost var step := Initialize(LifePass(p), now, SEVEN_DAYS);
    r, returned := restore, false;
    var write, phase, reason := restore.phase == New, InQueue, "";
    if write {
      if IsZero(r.spec.availableUntil) {
        if r.spec.ttl == 0 {
          r := r.(spec := r.spec.(ttl := SEVEN_DAYS));
        }
      } else if r.spec.availableUntil < now {
        phase, reason, returned := Failed, PAST, true;
      }
    }
    r, q := CloseStep(resource, p, step, r, write, phase, reason);
  }

  method DeleteExpired(resource: RestoreResource, ghost p: RecordPass, restore: RestoreRecord, s: Surroundings)
    requires resource.Valid() && Holds(p, resource.stored, resource.version) && restore == p.record
    requires p.progress.Running?
    modifies resource
    ensures resource.Valid()
    ensures var q := Closed(p, Expire(LifePass(p), s.finished, s.refusal));
            resource.stored == (if q.progress.Gone? then None else Some(q.record)) && resource.version == q.version
  {
    hide PersistRestore, Put, PersistLife;
    ghost var step := Expire(LifePass(p), s.finished, s.refusal);
    var expired := !IsZero(restore.status.availableUntil) && restore.status.availableUntil < s.finished;
    if expired && s.refusal.None? {
      resource.Delete();
    } else {
      var message := if expired then s.refusal.value else "";
      var r;
      ghost var q;
      r, q := CloseStep(resource, p, step, restore, expired, Failed, message);
    }
  }
}
