/** What passes of the snapshot handler (backup_handler.go) achieve, one by one and in a row. */
module SnapshotPasses {
  import opened Text
  import opened Records
  import opened Lifecycle
  import opened SnapshotHandler
  import opened Reconciliation

  lemma PutIsLegal(from: Phase, p: RecordPass, r: Record)
    requires Legal(from, LifePass(p)) && Edge(p.record.status.phase, r.status.phase)
    ensures Legal(from, LifePass(Put(p, r)))
    ensures Put(p, r).record.status.phase == r.status.phase
  {
    hide Truncate, Legal;
    WriteIsLegal(from, LifePass(p), LifePass(Put(p, r)));
  }

  lemma EndKeepsLegal(from: Phase, p: RecordPass)
    requires Legal(from, LifePass(p))
    ensures Legal(from, LifePass(p.(progress := Ended)))
  {
    SameLegal(from, LifePass(p), LifePass(p.(progress := Ended)));
  }

  lemma WorkIsLegal(from: Phase, p: RecordPass, queueOnly: bool, configs: set<string>, s: Surroundings)
    requires Sensible(s) && Legal(from, LifePass(p))
    ensures Legal(from, LifePass(Work(p, queueOnly, configs, s)))
  {
    hide Legal, Put, Retried, Persist;
    if !queueOnly && p.record.status.phase.InQueue? {
      var q := Put(p, WithPhase(p.record, InProgress, ""));
      PutIsLegal(from, p, WithPhase(p.record, InProgress, ""));
      if q.record.spec.objectstoreConfig !in configs {
        PutIsLegal(from, q, WithPhase(q.record, Failed, s.bucketError));
        EndKeepsLegal(from, Put(q, WithPhase(q.record, Failed, s.bucketError)));
      } else {
        match Retried(s.taking)
        case Failure(message, _, _) =>
          PutIsLegal(from, q, WithPhase(q.record, Failed, message));
          EndKeepsLegal(from, Put(q, WithPhase(q.record, Failed, message)));
        case Success(t) =>
          match Retried(s.sending)
          case Failure(message, _, _) =>
            PutIsLegal(from, q, WithPhase(TakenRecord(q.record, t), Failed, message));
            EndKeepsLegal(from, Put(q, WithPhase(TakenRecord(q.record, t), Failed, message)));
          case Success(o) =>
            PutIsLegal(from, q, WithPhase(SentRecord(TakenRecord(q.record, t), o), Completed, ""));
      }
    }
  }

  /** Whatever a pass meets, the phases it writes follow the edges of the phase diagram; only a
      refused delete may end the pass with Failed from another phase. */
  lemma PassFollowsEdges(r: Record, version: nat, queueOnly: bool, maxRetryElapsed: int, configs: set<string>,
        s: Surroundings)
    requires Sensible(s)
    ensures var p := PassOver(r, version, queueOnly, maxRetryElapsed, configs, s);
            && (s.refusal.None? ==>
                 FollowsEdges(r.status.phase, p.writes) && p.record.status.phase == Reached(r.status.phase, p.writes))
            && (!FollowsEdges(r.status.phase, p.writes) ==>
                  p.writes != [] && FollowsEdges(r.status.phase, p.writes[..|p.writes| - 1])
                  && p.record.status.phase.Failed? && p.record.status.reason == s.refusal.value)
  {
    hide Put, Work, Close, FollowsEdges, Reached, Truncate;
    var from := r.status.phase;
    var p0 := Begin(r, version);
    StartIsLegal(LifeOf(r));
    var p1 := GiveUp(p0, s.started, maxRetryElapsed);
    if p1 != p0 { PutIsLegal(from, p0, WithPhase(r, Failed, STOPPED)); }
    WorkIsLegal(from, p1, queueOnly, configs, s);
    var p2 := Work(p1, queueOnly, configs, s);
    CloseFollowsEdges(from, LifePass(p2), s.finished, SnapshotHandler.THIRTY_DAYS, s.refusal);
    var q := Close(LifePass(p2), s.finished, SnapshotHandler.THIRTY_DAYS, s.refusal);
    LegalParts(from, q);
  }

  lemma StartIsLegal(l: Life)
    ensures Legal(l.phase, Start(l))
  {}

  lemma LegalParts(from: Phase, q: Pass)
    ensures Legal(from, q) <==> FollowsEdges(from, q.writes) && q.life.phase == Reached(from, q.writes)
  {}

  /* ---- a completed snapshot is in the store ---- */

  /** The upload is reached, and fails although some try stored the object. */
  ghost predicate LeavesBehind(r: Record, configs: set<string>, s: Surroundings)
    requires Sensible(s)
  {
    && r.spec.objectstoreConfig in configs && Retried(s.taking).Success? && Retried(s.sending).Failure?
    && exists k :: Leaves(s.sending, k)
  }

  /** Nothing has changed but that the object of the last such try, o, is under the record's name. */
  ghost predicate LeftBehind(buckets: map<string, BucketContents>, after: map<string, BucketContents>, r: Record,
        s: Surroundings, o: Sent)
    requires Sensible(s) && LeavesBehind(r, buckets.Keys, s)
  {
    var cfg := r.spec.objectstoreConfig;
    && (exists k :: LeavesLast(s.sending, k, o))
    && after == buckets[cfg := buckets[cfg][FileName(r.name) := AsObject(o, Retried(s.taking).value.archive)]]
  }

  /** The record names the end marker, and the contents and their number; its time to live is the one
      asked for, or lasts from the marker to the requested deadline. */
  predicate TakenStands(after: Record, r: Record, t: Taken) {
    && after.name == r.name && after.spec == r.spec
    && after.status.snapshotResourceVersion == t.marker.resourceVersion
    && after.status.snapshotTimestamp == Truncate(t.marker.creation)
    && after.status.contents == t.contents && after.status.numberOfContents == |t.contents|
    && after.status.ttl == if r.spec.availableUntil == 0 then r.spec.ttl else r.spec.availableUntil - t.marker.creation
  }

  /** A queued record that a pass completes has been uploaded: the object stored under its name
      has the recorded size and time, and the deadline is the requested one or counts from the
      end marker. A pass that does not complete it fails it, and changes the buckets only if some
      try stored the object and could not read its info back: then the last such object is left
      under the record's name. */
  lemma CompletionStoresObject(r: Record, version: nat, maxRetryElapsed: int,
        buckets: map<string, BucketContents>, s: Surroundings)
    requires Sensible(s) && Persisted(r) && r.status.phase.InQueue?
    ensures var p := PassOver(r, version, false, maxRetryElapsed, buckets.Keys, s);
            var cfg := p.record.spec.objectstoreConfig;
            var after := AfterUpload(buckets, r, false, s);
            && (p.record.status.phase.Completed? ==>
                  && cfg in after && FileName(r.name) in after[cfg]
                  && p.record.status.storedFileSize == after[cfg][FileName(r.name)].size
                  && p.record.status.storedTimestamp == Truncate(after[cfg][FileName(r.name)].timestamp)
                  && Retried(s.taking).Success?
                  && after[cfg][FileName(r.name)].archive == Retried(s.taking).value.archive
                  && cfg in buckets
                  && after == buckets[cfg := buckets[cfg][FileName(r.name) := after[cfg][FileName(r.name)]]])
            && (!p.record.status.phase.Completed? && s.refusal.None? ==>
                 p.record.status.phase.Failed?
                 && (if LeavesBehind(r, buckets.Keys, s) then exists o :: LeftBehind(buckets, after, r, s, o)
                     else after == buckets))
            && (p.record.status.phase.Completed? ==>
                  && Retried(s.taking).Success?
                  && p.record.status.availableUntil ==
                     if IsZero(r.spec.availableUntil)
                       then Truncate(Retried(s.taking).value.marker.creation + r.spec.ttl) else r.spec.availableUntil)
            && (p.record.status.phase.Completed? ==> TakenStands(p.record, r, Retried(s.taking).value))
  {
    if Retried(s.sending).Success? {
      SuccessIsStored(s.sending);
    } else {
      var o := if LastStored(s.sending).Some? then LastStored(s.sending).value else Sent(0, 0);
      FailureLeaves(s.sending, o);
      if LeavesBehind(r, buckets.Keys, s) { LeftIsBehind(r, buckets, s); }
    }
    hide Retried, LastStored, Leaves, LeftBehind;
  }

  lemma LeftIsBehind(r: Record, buckets: map<string, BucketContents>, s: Surroundings)
    requires Sensible(s) && LeavesBehind(r, buckets.Keys, s) && r.status.phase.InQueue?
    ensures exists o :: LeftBehind(buckets, AfterUpload(buckets, r, false, s), r, s, o)
  {
    hide Retried, Leaves;
    FailureLeaves(s.sending, Sent(0, 0));
    var o := LastStored(s.sending).value;
    FailureLeaves(s.sending, o);
    assert LeftBehind(buckets, AfterUpload(buckets, r, false, s), r, s, o);
  }

  /** It is completed exactly when its bucket is configured, the snapshot can be taken and its archive
      uploaded; otherwise it fails with the error of the first of these that does not go through. What
      was taken is on the record even if the upload fails. */
  lemma QueuedOutcome(r: Record, version: nat, maxRetryElapsed: int, configs: set<string>, s: Surroundings)
    requires Sensible(s) && s.refusal.None? && Persisted(r) && r.status.phase.InQueue?
    ensures var p := PassOver(r, version, false, maxRetryElapsed, configs, s);
            var configured := r.spec.objectstoreConfig in configs;
            && (p.record.status.phase.Completed? <==>
                 configured && Retried(s.taking).Success? && Retried(s.sending).Success?)
            && p.record.status.reason ==
               (if !configured then s.bucketError
                else if Retried(s.taking).Failure? then Retried(s.taking).message
                else if Retried(s.sending).Failure? then Retried(s.sending).message
                else "")
            && (if configured && Retried(s.taking).Success? then TakenStands(p.record, r, Retried(s.taking).value)
                else p.record.status.contents == r.status.contents)
  {
    hide Retried, Truncate;
  }

  /* ---- new, waiting and stuck records ---- */

  /** A new record is queued, with thirty days to live if it asks for nothing, unless its deadline has
      passed already; the rest of it stays. */
  lemma NewRecordPass(r: Record, version: nat, queueOnly: bool, maxRetryElapsed: int, configs: set<string>,
        s: Surroundings)
    requires Sensible(s) && s.refusal.None? && Persisted(r) && r.status.phase.New? && r.status.availableUntil == 0
    ensures var p := PassOver(r, version, queueOnly, maxRetryElapsed, configs, s);
            var late := r.spec.availableUntil != 0 && r.spec.availableUntil < s.finished;
            var ttl := if r.spec.availableUntil == 0 && r.spec.ttl == 0 then 30 * DAY else r.spec.ttl;
            && !p.progress.Gone? && |p.writes| == 1
            && SameContent(p.record,
                 if late then r.(status := r.status.(phase := Failed, reason := "AvailableUntil is set as past."))
                 else r.(spec := r.spec.(ttl := ttl), status := r.status.(phase := InQueue, reason := "")))
  {
    NewPass(LifeOf(r), s.finished, SnapshotHandler.THIRTY_DAYS);
    hide Close, Truncate;
  }

  /** A record that waits because only queueing is allowed is left alone until its deadline. */
  lemma WaitingRecordPass(r: Record, version: nat, maxRetryElapsed: int, configs: set<string>, s: Surroundings)
    requires Sensible(s) && s.refusal.None? && Persisted(r) && r.status.phase.InQueue?
    ensures var p := PassOver(r, version, true, maxRetryElapsed, configs, s);
            && p.record == r && p.writes == []
            && (p.progress.Gone? <==> r.status.availableUntil != 0 && r.status.availableUntil < s.finished)
  {
    WaitingPass(LifeOf(r), s.finished, SnapshotHandler.THIRTY_DAYS);
    hide Close, Truncate;
  }

  /** A record that a pass finds InProgress fails exactly when it was created longer ago than all
      retries can take and a second; a younger one is not written. */
  lemma InProgressPass(r: Record, version: nat, queueOnly: bool, maxRetryElapsed: int, configs: set<string>,
        s: Surroundings)
    requires Sensible(s) && s.refusal.None? && Persisted(r) && r.status.phase.InProgress?
    ensures var p := PassOver(r, version, queueOnly, maxRetryElapsed, configs, s);
            if r.creationTimestamp + (maxRetryElapsed + 1) * 1_000_000_000 < s.started then
              && p.record.status.phase.Failed?
              && p.record.status.reason == "Controller stopped while taking the snapshot"
              && p.record.status.storedFileSize == r.status.storedFileSize
              && p.record.status.contents == r.status.contents
            else
              && p.record == r && p.writes == []
              && (p.progress.Gone? <==> r.status.availableUntil != 0 && r.status.availableUntil < s.finished)
  {
    var late := r.creationTimestamp + (maxRetryElapsed + 1) * SECOND < s.started;
    if !late {
      WaitingPass(LifeOf(r), s.finished, SnapshotHandler.THIRTY_DAYS);
      hide Close;
    }
    hide Truncate;
  }

  /* ---- finished records ---- */

  lemma PassOverFinished(r: Record, version: nat, queueOnly: bool, maxRetryElapsed: int, configs: set<string>,
        s: Surroundings)
    requires Sensible(s) && Finished(LifeOf(r))
    ensures PassOver(r, version, queueOnly, maxRetryElapsed, configs, s)
         == Closed(Begin(r, version), Close(Start(LifeOf(r)), s.finished, SnapshotHandler.THIRTY_DAYS, s.refusal))
  {}

  /** A pass over a finished record deletes it exactly when its deadline has passed; it never does
      so while the deadline the user asked for is ahead. Otherwise the record keeps everything
      but the deadline in force, which becomes the one the user asked for, if any. */
  lemma FinishedRecordPass(r: Record, version: nat, queueOnly: bool, maxRetryElapsed: int, configs: set<string>,
        s: Surroundings)
    requires Sensible(s) && s.refusal.None? && Persisted(r) && Finished(LifeOf(r))
    ensures var p := PassOver(r, version, queueOnly, maxRetryElapsed, configs, s);
            var deadline := Deadline(LifeOf(r));
            && (p.progress.Gone? <==> !IsZero(deadline) && deadline < s.finished)
            && (!IsZero(r.spec.availableUntil) ==> deadline == r.spec.availableUntil)
            && p.record.status.availableUntil == deadline
            && SameContent(p.record, r.(status := r.status.(availableUntil := deadline, ttl := p.record.status.ttl)))
            && Persisted(p.record)
  {
    PassOverFinished(r, version, queueOnly, maxRetryElapsed, configs, s);
    FinishedPass(LifeOf(r), s.finished, SnapshotHandler.THIRTY_DAYS);
    hide Close, Deadline, Truncate;
  }

  /** The deadline a failed record without a requested one will get is not the zero time. */
  predicate Datable(r: Record) {
    !IsZero(r.spec.availableUntil)
    || !IsZero(Truncate(r.creationTimestamp + if r.status.phase.New? && r.spec.ttl == 0
      then SnapshotHandler.THIRTY_DAYS else r.spec.ttl))
  }

  /** The next pass at the same time writes nothing: exactly when the record can be dated, or
      needs no date. */
  lemma FinishedRecordFixpoint(r: Record, version: nat, queueOnly: bool, maxRetryElapsed: int,
        configs: set<string>, s: Surroundings)
    requires Sensible(s) && s.refusal.None? && Persisted(r) && Finished(LifeOf(r))
    ensures var p := PassOver(r, version, queueOnly, maxRetryElapsed, configs, s);
            && Finished(LifeOf(p.record))
            && (!p.progress.Gone? ==>
                  (PassOver(p.record, p.version, queueOnly, maxRetryElapsed, configs, s) == Begin(p.record, p.version)
                   <==> Datable(r) || r.status.phase.Completed? || !IsZero(r.status.availableUntil)))
  {
    var now, d := s.finished, SnapshotHandler.THIRTY_DAYS;
    PassOverFinished(r, version, queueOnly, maxRetryElapsed, configs, s);
    var p := PassOver(r, version, queueOnly, maxRetryElapsed, configs, s);
    var q := Close(Start(LifeOf(r)), now, d, None);
    FinishedPass(LifeOf(r), now, d);
    FinishedFixpoint(LifeOf(r), now, d);
    ClosedLife(Begin(r, version), q);
    PassOverFinished(p.record, p.version, queueOnly, maxRetryElapsed, configs, s);
    ClosedLife(Begin(p.record, p.version), Start(q.life));
    hide Close, Truncate, PassOver;
  }

  /* ---- passes in a row ---- */

  /** The state after n passes in the same surroundings, or after the pass that deletes the record. */
  function Passes(n: nat, r: Record, version: nat, queueOnly: bool, maxRetryElapsed: int, configs: set<string>,
        s: Surroundings): RecordPass
    requires Sensible(s)
  {
    if n == 0 then Begin(r, version)
    else
      var p := PassOver(r, version, queueOnly, maxRetryElapsed, configs, s);
      if p.progress.Gone? then p else Passes(n - 1, p.record, p.version, queueOnly, maxRetryElapsed, configs, s)
  }

  predicate Settles(p: RecordPass, queueOnly: bool, maxRetryElapsed: int, configs: set<string>, s: Surroundings)
    requires Sensible(s)
  {
    p.progress.Gone? ||
      PassOver(p.record, p.version, queueOnly, maxRetryElapsed, configs, s) == Begin(p.record, p.version)
  }

  lemma QueuedPass(r: Record, version: nat, maxRetryElapsed: int, configs: set<string>, s: Surroundings)
    requires Sensible(s) && s.refusal.None? && Persisted(r) && Datable(r) && r.status.phase.InQueue?
    ensures var p := PassOver(r, version, false, maxRetryElapsed, configs, s);
            p.progress.Gone? || (Finished(LifeOf(p.record)) && Persisted(p.record) && Datable(p.record))
  {
    hide Retried;
  }

  lemma IdlePass(r: Record, version: nat, queueOnly: bool, maxRetryElapsed: int, configs: set<string>, s: Surroundings)
    requires Sensible(s) && s.refusal.None? && Persisted(r) && Datable(r) && !Finished(LifeOf(r))
    requires r.status.phase.InQueue? ==> queueOnly
    ensures var p := PassOver(r, version, queueOnly, maxRetryElapsed, configs, s);
            p.progress.Gone? || p == Begin(r, version)
            || (Persisted(p.record) && Datable(p.record)
                && (Finished(LifeOf(p.record)) || (r.status.phase.New? && p.record.status.phase.InQueue?)))
  {
    hide Retried, TakenRecord, SentRecord;
  }

  /** How many passes a record may need. */
  function Rank(r: Record): nat {
    match r.status.phase
    case New => 3
    case InQueue => 2
    case InProgress => 2
    case _ => 1
  }

  lemma {:induction false} SettledStays(n: nat, r: Record, version: nat, queueOnly: bool, maxRetryElapsed: int,
        configs: set<string>, s: Surroundings)
    requires Sensible(s) && PassOver(r, version, queueOnly, maxRetryElapsed, configs, s) == Begin(r, version)
    ensures Passes(n, r, version, queueOnly, maxRetryElapsed, configs, s) == Begin(r, version)
  {
    hide PassOver;
    if n > 0 { SettledStays(n - 1, r, version, queueOnly, maxRetryElapsed, configs, s); }
  }

  lemma {:induction false} SettlesIn(n: nat, r: Record, version: nat, queueOnly: bool, maxRetryElapsed: int,
        configs: set<string>, s: Surroundings)
    requires Sensible(s) && s.refusal.None? && Persisted(r) && Datable(r) && n >= Rank(r)
    ensures Settles(Passes(n, r, version, queueOnly, maxRetryElapsed, configs, s), queueOnly, maxRetryElapsed,
      configs, s)
    decreases n
  {
    hide PassOver, Datable, Persisted;
    var p := PassOver(r, version, queueOnly, maxRetryElapsed, configs, s);
    if p.progress.Gone? {
    } else if p == Begin(r, version) {
      SettledStays(n, r, version, queueOnly, maxRetryElapsed, configs, s);
    } else if Finished(LifeOf(r)) {
      FinishedRecordFixpoint(r, version, queueOnly, maxRetryElapsed, configs, s);
      SettledStays(n - 1, p.record, p.version, queueOnly, maxRetryElapsed, configs, s);
    } else {
      if r.status.phase.InQueue? && !queueOnly {
        QueuedPass(r, version, maxRetryElapsed, configs, s);
      } else {
        IdlePass(r, version, queueOnly, maxRetryElapsed, configs, s);
      }
      SettlesIn(n - 1, p.record, p.version, queueOnly, maxRetryElapsed, configs, s);
    }
  }

  /** From any record, three passes at a fixed time either delete it or reach a record that
      further passes leave alone. */
  lemma HandlerConverges(r: Record, version: nat, queueOnly: bool, maxRetryElapsed: int, configs: set<string>,
        s: Surroundings)
    requires Sensible(s) && s.refusal.None? && Persisted(r) && Datable(r)
    ensures Settles(Passes(3, r, version, queueOnly, maxRetryElapsed, configs, s), queueOnly, maxRetryElapsed,
      configs, s)
  {
    SettlesIn(3, r, version, queueOnly, maxRetryElapsed, configs, s);
  }
}
