/** A pass of the housekeeping machine that nobody disturbs does what snapshotSyncHandler does in
    one go: the two models of backup_handler.go:74-239 agree. */
module HousekeepingPass {
  import opened Text
  import opened Records
  import opened Lifecycle
  import opened SnapshotHandler
  import opened Housekeeping

  /** The object that the tries of the upload leave in the bucket. */
  function FileLeft(sur: Surroundings): Option<StoredObject>
    requires Sensible(sur)
  {
    if Retried(sur.taking).Failure? || LastStored(sur.sending).None? then None
    else Some(AsObject(LastStored(sur.sending).value, Retried(sur.taking).value.archive))
  }

  /** Stored objects carry the time of a running clock. */
  predicate Clocked(sur: Surroundings)
    requires Sensible(sur)
  {
    FileLeft(sur).Some? ==> Dated(FileLeft(sur).value)
  }

  /** That object is not in the bucket yet. */
  predicate Pending(b: map<string, BucketContents>, local: Record, sur: Surroundings)
    requires Sensible(sur)
  {
    var cfg, name := local.spec.objectstoreConfig, FileName(local.name);
    && cfg in b && FileLeft(sur).Some?
    && !(name in b[cfg] && b[cfg][name] == FileLeft(sur).value)
  }

  /** What the surroundings of a pass are for its step at this stage. */
  function EventAt(stage: Stage, b: map<string, BucketContents>, local: Record, sur: Surroundings): Event
    requires Sensible(sur)
  {
    var taking, sending := Retried(sur.taking), Retried(sur.sending);
    var known := local.spec.objectstoreConfig in b;
    Event(
      if stage.Stopped? then sur.started else sur.finished,
      if stage.Sending? then (if sending.Failure? then sending.message else "")
      else if !known then sur.bucketError
      else if taking.Failure? then taking.message else "",
      if taking.Success? then Some(taking.value) else None,
      if sending.Success?
        then SendSucceeds(AsObject(sending.value, if taking.Success? then taking.value.archive else []))
      else if Pending(b, local, sur) then Resend(FileLeft(sur).value) else SendFails,
      sur.refusal)
  }

  /** Steps of the pass over n and of nobody else. */
  ghost function Alone(s: State, n: string, sur: Surroundings, steps: nat): State
    requires Sensible(sur)
    decreases steps
  {
    if steps == 0 || n !in s.workers then s
    else
      var w := s.workers[n];
      Alone(Step(s, Advance(n, EventAt(w.stage, s.buckets, w.local, sur))), n, sur, steps - 1)
  }

  /** s0 after a pass over n got to p, with these buckets. */
  function Now(s0: State, n: string, p: RecordPass, b: map<string, BucketContents>): State {
    s0.(records := s0.records[n := p.record], version := p.version, buckets := b)
  }

  /** The same while the pass is still at a stage, working on `local`. */
  function NowAt(s0: State, n: string, p: RecordPass, b: map<string, BucketContents>, local: Record,
        stage: Stage, queueOnly: bool): State {
    Now(s0, n, p, b).(workers := s0.workers[n := Worker(p.record, local, stage, queueOnly)])
  }

  /** The record of pass p is called n, is current and has been stored. */
  predicate Sane(s0: State, n: string, p: RecordPass) {
    n !in s0.workers && p.record.name == n && Persisted(p.record) && p.progress.Running?
  }

  lemma AttemptIsPut(s0: State, n: string, p: RecordPass, b: map<string, BucketContents>, w: Worker, r: Record,
        next: Option<Stage>)
    requires Sane(s0, n, p) && w.base == p.record
    requires r.name == n && r.resourceVersion == p.record.resourceVersion
    requires r.creationTimestamp == p.record.creationTimestamp
    ensures var q := Put(p, r);
            Attempt(Now(s0, n, p, b).(workers := s0.workers[n := w]), w, r, next)
            == if next.Some? then NowAt(s0, n, q, b, q.record, next.value, w.queueOnly) else Now(s0, n, q, b)
    ensures Put(p, r).record.name == n && Persisted(Put(p, r).record)
  {
    var s := Now(s0, n, p, b).(workers := s0.workers[n := w]);
    PersistOnce(r);
    assert Truncate(r.creationTimestamp) == r.creationTimestamp;
    hide Truncate;
    assert Stored(s, r) == Put(p, r).record;
    assert s0.workers[n := w] - {n} == s0.workers;
    assert s0.records[n := p.record][n := Put(p, r).record] == s0.records[n := Put(p, r).record];
    if next.Some? {
      assert s0.workers[n := w][n := Worker(Put(p, r).record, Put(p, r).record, next.value, w.queueOnly)]
          == s0.workers[n := Worker(Put(p, r).record, Put(p, r).record, next.value, w.queueOnly)];
    }
  }

  lemma MoveOn(s0: State, n: string, p: RecordPass, b: map<string, BucketContents>, w: Worker, w': Worker,
        next: Option<Stage>)
    requires Sane(s0, n, p) && w'.base == p.record && w'.queueOnly == w.queueOnly
    ensures Move(Now(s0, n, p, b).(workers := s0.workers[n := w]), w', next)
      == if next.Some? then NowAt(s0, n, p, b, w'.local, next.value, w.queueOnly) else Now(s0, n, p, b)
  {
    assert s0.workers[n := w] - {n} == s0.workers;
    if next.Some? {
      assert s0.workers[n := w][n := w'.(stage := next.value)] == s0.workers[n := w'.(stage := next.value)];
    }
  }

  lemma AdvanceIs(s0: State, n: string, p: RecordPass, b: map<string, BucketContents>, local: Record,
        stage: Stage, queueOnly: bool, e: Event)
    ensures var s := NowAt(s0, n, p, b, local, stage, queueOnly);
            Step(s, Advance(n, e)) == WorkerStep(s, Worker(p.record, local, stage, queueOnly), e)
  {}

  /* ---- the closing steps ---- */

  function Continued(stage: Stage, p: Pass, e: Event): Pass
    requires Closing(stage)
  {
    match stage
    case Initializing => Initialize(p, e.now, SnapshotHandler.THIRTY_DAYS)
    case Dating => SetDeadline(p)
    case Following => FollowSpec(p)
    case Expiring => Expire(p, e.now, e.refusal)
  }

  /** A closing step does the same to the pass so far as to a fresh one. */
  lemma StepIsRelative(stage: Stage, p: RecordPass, e: Event)
    requires Closing(stage) && p.progress.Running? && Persisted(p.record)
    ensures var q, q' := LifeStep(stage, LifeOf(p.record), e), Continued(stage, LifePass(p), e);
            && q'.life == q.life && q'.progress == q.progress && q'.writes == p.writes + q.writes
            && (q.writes == [] ==> q.life == LifeOf(p.record))
            && (q.writes != [] ==>
                 q.writes == [q.life] && PersistedLife(q.life) && q.life.creation == p.record.creationTimestamp &&
                   !q.progress.Gone?)
  {
    var l := LifeOf(p.record);
    assert Truncate(l.creation) == l.creation;
    PersistLifeOnce(l.(until := l.creation + l.specTtl));
    hide Truncate;
    assert p.writes + [] == p.writes;
  }

  lemma CloseStepIs(s0: State, n: string, p: RecordPass, b: map<string, BucketContents>, stage: Stage,
        queueOnly: bool, e: Event)
    requires Sane(s0, n, p) && Closing(stage) && !LifeStep(stage, LifeOf(p.record), e).progress.Gone?
    ensures var p' := Closed(p, Continued(stage, LifePass(p), e));
            var s := NowAt(s0, n, p, b, p.record, stage, queueOnly);
            Step(s, Advance(n, e)) ==
              (if p'.progress.Running? && After(stage).Some?
                then NowAt(s0, n, p', b, p'.record, After(stage).value, queueOnly)
                                       else Now(s0, n, p', b))
            && p'.record.name == n && Persisted(p'.record)
  {
    var w := Worker(p.record, p.record, stage, queueOnly);
    var q, q' := LifeStep(stage, LifeOf(p.record), e), Continued(stage, LifePass(p), e);
    AdvanceIs(s0, n, p, b, p.record, stage, queueOnly, e);
    StepIsRelative(stage, p, e);
    hide LifeStep, Continued, Attempt, Persist, PersistLife, Step, Put, Closed, Move, WorkerStep;
    if q.writes == [] {
      ClosedLife(p, LifePass(p));
      EndedPass(p, q'.progress);
      MoveOn(s0, n, p, b, w, w, After(stage));
    } else {
      var r := WithLife(p.record, q.life);
      AttemptIsPut(s0, n, p, b, w, r, if q.progress.Ended? then None else After(stage));
      WrittenAgain(p, q.life);
      PutIsWrite(p, q.life);
      assert q' == Write(LifePass(p), q.life).(progress := q.progress) by { PersistsItself(q.life); }
    }
  }

  lemma PersistsItself(l: Life)
    requires PersistedLife(l)
    ensures PersistLife(l) == l
  {}

  lemma WrittenAgain(p: RecordPass, l: Life)
    ensures WithLife(p.record, l).name == p.record.name &&
      WithLife(p.record, l).resourceVersion == p.record.resourceVersion
      && WithLife(p.record, l).creationTimestamp == p.record.creationTimestamp
  {}

  lemma EndedPass(p: RecordPass, progress: Progress)
    ensures Closed(p, LifePass(p).(progress := progress)) == Closed(p, LifePass(p)).(progress := progress)
  {}

  /** s0 after the whole pass p. */
  function Final(s0: State, n: string, p: RecordPass, b: map<string, BucketContents>): State {
    if p.progress.Gone? then
      Now(s0, n, p, b).(records := s0.records - {n},
                        deletions := s0.deletions + {Deletion(n, p.record.spec.objectstoreConfig)})
    else Now(s0, n, p, b)
  }

  lemma ExpiringStepIs(s0: State, n: string, p: RecordPass, b: map<string, BucketContents>, queueOnly: bool, e: Event)
    requires Sane(s0, n, p)
    ensures var p' := Closed(p, Expire(LifePass(p), e.now, e.refusal));
            Step(NowAt(s0, n, p, b, p.record, Expiring, queueOnly), Advance(n, e)) == Final(s0, n, p', b)
  {
    var s := NowAt(s0, n, p, b, p.record, Expiring, queueOnly);
    if LifeStep(Expiring, LifeOf(p.record), e).progress.Gone? {
      AdvanceIs(s0, n, p, b, p.record, Expiring, queueOnly, e);
      assert Expire(LifePass(p), e.now, e.refusal) == LifePass(p).(progress := Gone);
      GoneClosed(p);
      assert s0.workers[n := Worker(p.record, p.record, Expiring, queueOnly)] - {n} == s0.workers;
      assert s0.records[n := p.record] - {n} == s0.records - {n};
    } else {
      CloseStepIs(s0, n, p, b, Expiring, queueOnly, e);
      ExpireGone(p, e);
    }
  }

  lemma ExpireGone(p: RecordPass, e: Event)
    requires p.progress.Running?
    ensures Closed(p, Expire(LifePass(p), e.now, e.refusal)).progress.Gone? <==>
      LifeStep(Expiring, LifeOf(p.record), e).progress.Gone?
  {
    hide Truncate;
  }

  lemma GoneLast(stage: Stage, l: Life, e: Event)
    requires Closing(stage) && !stage.Expiring?
    ensures !LifeStep(stage, l, e).progress.Gone?
  {
    hide Truncate;
  }

  lemma Done(s: State, n: string, sur: Surroundings, steps: nat)
    requires Sensible(sur) && n !in s.workers
    ensures Alone(s, n, sur, steps) == s
  {}

  lemma Unfold(s: State, n: string, sur: Surroundings, steps: nat)
    requires Sensible(sur) && n in s.workers && steps > 0
    ensures var w := s.workers[n];
            Alone(s, n, sur, steps) ==
              Alone(Step(s, Advance(n, EventAt(w.stage, s.buckets, w.local, sur))), n, sur, steps - 1)
  {}

  /** The record pass after a closing step. */
  function Closer(stage: Stage, p: RecordPass, sur: Surroundings): RecordPass
    requires Closing(stage)
  {
    match stage
    case Initializing => Closed(p, Initialize(LifePass(p), sur.finished, SnapshotHandler.THIRTY_DAYS))
    case Dating => Closed(p, SetDeadline(LifePass(p)))
    case Following => Closed(p, FollowSpec(LifePass(p)))
    case Expiring => Closed(p, Expire(LifePass(p), sur.finished, sur.refusal))
  }

  lemma CloserIsContinued(stage: Stage, p: RecordPass, b: map<string, BucketContents>, local: Record, sur: Surroundings)
    requires Sensible(sur) && Closing(stage)
    ensures Closer(stage, p, sur) == Closed(p, Continued(stage, LifePass(p), EventAt(stage, b, local, sur)))
  {
    hide Initialize, SetDeadline, FollowSpec, Expire, Closed;
  }

  lemma CloseOnce(s0: State, n: string, p: RecordPass, b: map<string, BucketContents>, stage: Stage,
        queueOnly: bool, sur: Surroundings, steps: nat)
    requires Sane(s0, n, p) && Sensible(sur) && Closing(stage) && !stage.Expiring? && steps > 0
    ensures var p' := Closer(stage, p, sur);
            && !p'.progress.Gone? && (p'.progress.Running? ==> Sane(s0, n, p'))
            && Alone(NowAt(s0, n, p, b, p.record, stage, queueOnly), n, sur, steps)
            == Alone(if p'.progress.Running? then NowAt(s0, n, p', b, p'.record, After(stage).value, queueOnly)
              else Now(s0, n, p', b), n, sur, steps - 1)
  {
    hide Step, EventAt, Closed, Continued, Persist, LifeStep, Alone, Closer;
    var e := EventAt(stage, b, p.record, sur);
    CloserIsContinued(stage, p, b, p.record, sur);
    GoneLast(stage, LifeOf(p.record), e);
    NotGone(stage, p, e);
    Unfold(NowAt(s0, n, p, b, p.record, stage, queueOnly), n, sur, steps);
    CloseStepIs(s0, n, p, b, stage, queueOnly, e);
  }

  lemma NotGone(stage: Stage, p: RecordPass, e: Event)
    requires Closing(stage) && !stage.Expiring? && p.progress.Running?
    ensures !Closed(p, Continued(stage, LifePass(p), e)).progress.Gone?
  {
    hide Truncate;
  }

  /** The closing part. */
  lemma CloseAlone(s0: State, n: string, p: RecordPass, b: map<string, BucketContents>, queueOnly: bool,
        sur: Surroundings, steps: nat)
    requires Sane(s0, n, p) && Sensible(sur) && steps >= 4
    ensures Alone(NowAt(s0, n, p, b, p.record, Initializing, queueOnly), n, sur, steps) ==
      Final(s0, n, CloseRecord(p, sur.finished, sur.refusal), b)
  {
    assert Truncate(p.record.creationTimestamp) == p.record.creationTimestamp by { PersistedCreation(p.record); }
    CloseBySteps(p, sur.finished, sur.refusal);
    var p1 := Closer(Initializing, p, sur);
    var p2 := Closer(Dating, p1, sur);
    var p3 := Closer(Following, p2, sur);
    var p4 := Closer(Expiring, p3, sur);
    assert p1.progress.Ended? ==> p1 == CloseRecord(p, sur.finished, sur.refusal);
    assert p1.progress.Running? ==>
      p2.progress.Running? && p3.progress.Running? && p4 == CloseRecord(p, sur.finished, sur.refusal);
    hide *;
    AfterStages();
    CloseOnce(s0, n, p, b, Initializing, queueOnly, sur, steps);
    if p1.progress.Running? {
      CloseOnce(s0, n, p1, b, Dating, queueOnly, sur, steps - 1);
      CloseOnce(s0, n, p2, b, Following, queueOnly, sur, steps - 2);
      ExpireAlone(s0, n, p3, b, queueOnly, sur, steps - 3);
    } else {
      NobodyWorks(s0, n, p);
      DoneNow(s0, n, p1, b, sur, steps - 1);
    }
  }

  lemma AfterStages()
    ensures After(Initializing) == Some(Dating) && After(Dating) == Some(Following)
    ensures After(Following) == Some(Expiring)
    ensures Closing(Initializing) && Closing(Dating) && Closing(Following) && Closing(Expiring)
  {}

  lemma NobodyWorks(s0: State, n: string, p: RecordPass)
    requires Sane(s0, n, p)
    ensures n !in s0.workers
  {}

  lemma DoneNow(s0: State, n: string, p: RecordPass, b: map<string, BucketContents>, sur: Surroundings, steps: nat)
    requires Sensible(sur) && n !in s0.workers && !p.progress.Gone?
    ensures Alone(Now(s0, n, p, b), n, sur, steps) == Final(s0, n, p, b)
  {
    Done(Now(s0, n, p, b), n, sur, steps);
  }

  lemma ExpireAlone(s0: State, n: string, p: RecordPass, b: map<string, BucketContents>, queueOnly: bool,
        sur: Surroundings, steps: nat)
    requires Sane(s0, n, p) && Sensible(sur) && steps > 0
    ensures Alone(NowAt(s0, n, p, b, p.record, Expiring, queueOnly), n, sur, steps) ==
      Final(s0, n, Closer(Expiring, p, sur), b)
  {
    hide Step, Closed, Persist, Alone, Expire, LifeStep;
    Unfold(NowAt(s0, n, p, b, p.record, Expiring, queueOnly), n, sur, steps);
    ExpiringStepIs(s0, n, p, b, queueOnly, EventAt(Expiring, b, p.record, sur));
    Done(Final(s0, n, Closer(Expiring, p, sur), b), n, sur, steps - 1);
  }

  lemma PersistedCreation(r: Record)
    ensures Persisted(r) ==> Truncate(r.creationTimestamp) == r.creationTimestamp
  {}

  /* ---- the steps before ---- */

  lemma StoppedAlone(s0: State, n: string, p: RecordPass, b: map<string, BucketContents>, queueOnly: bool,
        sur: Surroundings, steps: nat)
    requires Sane(s0, n, p) && Sensible(sur) && steps > 0
    ensures var p1 := GiveUp(p, sur.started, s0.maxRetryElapsed);
            && Sane(s0, n, p1)
            && Alone(NowAt(s0, n, p, b, p.record, Stopped, queueOnly), n, sur, steps) ==
                 Alone(NowAt(s0, n, p1, b, p1.record, Queued, queueOnly), n, sur, steps - 1)
  {
    hide Alone, Attempt, Move, Persist, Truncate, LifeOf;
    var w := Worker(p.record, p.record, Stopped, queueOnly);
    var e := EventAt(Stopped, b, p.record, sur);
    Unfold(NowAt(s0, n, p, b, p.record, Stopped, queueOnly), n, sur, steps);
    AdvanceIs(s0, n, p, b, p.record, Stopped, queueOnly, e);
    AttemptIsPut(s0, n, p, b, w, WithPhase(p.record, Failed, STOPPED), Some(Queued));
    MoveOn(s0, n, p, b, w, w, Some(Queued));
  }

  lemma QueuedAlone(s0: State, n: string, p: RecordPass, b: map<string, BucketContents>, queueOnly: bool,
        sur: Surroundings, steps: nat)
    requires Sane(s0, n, p) && Sensible(sur) && steps > 0
    ensures var q := Put(p, WithPhase(p.record, InProgress, ""));
            && Sane(s0, n, q) && q.record.spec.objectstoreConfig == p.record.spec.objectstoreConfig
            && Alone(NowAt(s0, n, p, b, p.record, Queued, queueOnly), n, sur, steps)
            == Alone(if !queueOnly && p.record.status.phase.InQueue?
              then NowAt(s0, n, q, b, q.record, Taking, queueOnly)
                     else NowAt(s0, n, p, b, p.record, Initializing, queueOnly), n, sur, steps - 1)
  {
    hide Alone, Attempt, Move, Truncate, LifeOf, EventAt;
    var w := Worker(p.record, p.record, Queued, queueOnly);
    var e := EventAt(Queued, b, p.record, sur);
    Unfold(NowAt(s0, n, p, b, p.record, Queued, queueOnly), n, sur, steps);
    AdvanceIs(s0, n, p, b, p.record, Queued, queueOnly, e);
    AttemptIsPut(s0, n, p, b, w, WithPhase(p.record, InProgress, ""), Some(Taking));
    MoveOn(s0, n, p, b, w, w, Some(Initializing));
  }

  /** A pass that fails from stage Taking or Sending. */
  lemma FailAlone(s0: State, n: string, q: RecordPass, b: map<string, BucketContents>, local: Record,
        stage: Stage, queueOnly: bool, sur: Surroundings, steps: nat, message: string)
    requires Sane(s0, n, q) && Sensible(sur) && steps > 0
    requires local.name == n && local.resourceVersion == q.record.resourceVersion
    requires local.creationTimestamp == q.record.creationTimestamp
    requires var e := EventAt(stage, b, local, sur);
             || (stage.Taking? && (local.spec.objectstoreConfig !in b || e.taken.None?) && e.error == message)
             || (stage.Sending? && e.sent.SendFails? && e.error == message)
    ensures Alone(NowAt(s0, n, q, b, local, stage, queueOnly), n, sur, steps) ==
      Final(s0, n, Fail(q, local, message), b)
  {
    hide Alone, Attempt, Move, Persist, Truncate, LifeOf, EventAt;
    var w := Worker(q.record, local, stage, queueOnly);
    var e := EventAt(stage, b, local, sur);
    Unfold(NowAt(s0, n, q, b, local, stage, queueOnly), n, sur, steps);
    AdvanceIs(s0, n, q, b, local, stage, queueOnly, e);
    AttemptIsPut(s0, n, q, b, w, WithPhase(local, Failed, message), None);
    Done(Now(s0, n, Put(q, WithPhase(local, Failed, message)), b), n, sur, steps - 1);
  }

  lemma TakenAlone(s0: State, n: string, q: RecordPass, b: map<string, BucketContents>, queueOnly: bool,
        sur: Surroundings, steps: nat)
    requires Sane(s0, n, q) && Sensible(sur) && steps > 0 && q.record.spec.objectstoreConfig in b
    requires Retried(sur.taking).Success?
    ensures Alone(NowAt(s0, n, q, b, q.record, Taking, queueOnly), n, sur, steps)
         == Alone(NowAt(s0, n, q, b, TakenRecord(q.record, Retried(sur.taking).value), Sending, queueOnly), n, sur,
           steps - 1)
  {
    hide Alone, Move, Retried, TakenRecord;
    var w := Worker(q.record, q.record, Taking, queueOnly);
    var e := EventAt(Taking, b, q.record, sur);
    Unfold(NowAt(s0, n, q, b, q.record, Taking, queueOnly), n, sur, steps);
    AdvanceIs(s0, n, q, b, q.record, Taking, queueOnly, e);
    MoveOn(s0, n, q, b, w, w.(local := TakenRecord(q.record, Retried(sur.taking).value)), Some(Sending));
  }

  /** The buckets once the object of the tries is there. */
  function PutFile(b: map<string, BucketContents>, local: Record, sur: Surroundings): map<string, BucketContents>
    requires Sensible(sur)
  {
    var cfg := local.spec.objectstoreConfig;
    if cfg !in b || FileLeft(sur).None? then b else b[cfg := b[cfg][FileName(local.name) := FileLeft(sur).value]]
  }

  /** An upload that fails first leaves its object, if it has one and that is not there yet. */
  lemma LeftAlone(s0: State, n: string, q: RecordPass, b: map<string, BucketContents>, local: Record,
        queueOnly: bool, sur: Surroundings, steps: nat)
    requires Sane(s0, n, q) && Sensible(sur) && steps > 0 && local.name == n
    requires Retried(sur.sending).Failure? && Clocked(sur)
    ensures !Pending(PutFile(b, local, sur), local, sur)
    ensures if Pending(b, local, sur) then
              Alone(NowAt(s0, n, q, b, local, Sending, queueOnly), n, sur, steps)
              == Alone(NowAt(s0, n, q, PutFile(b, local, sur), local, Sending, queueOnly), n, sur, steps - 1)
            else PutFile(b, local, sur) == b
  {
    hide Alone, Retried, Truncate, LastStored, FileLeft;
    if Pending(b, local, sur) {
      var e := EventAt(Sending, b, local, sur);
      Unfold(NowAt(s0, n, q, b, local, Sending, queueOnly), n, sur, steps);
      AdvanceIs(s0, n, q, b, local, Sending, queueOnly, e);
      assert e.sent == Resend(FileLeft(sur).value);
    } else if local.spec.objectstoreConfig in b && FileLeft(sur).Some? {
      var cfg, name := local.spec.objectstoreConfig, FileName(local.name);
      assert b[cfg][name := FileLeft(sur).value] == b[cfg];
      assert b[cfg := b[cfg]] == b;
    }
  }

  lemma SentAlone(s0: State, n: string, q: RecordPass, b: map<string, BucketContents>, local: Record,
        queueOnly: bool, sur: Surroundings, steps: nat)
    requires Sane(s0, n, q) && Sensible(sur) && steps > 0 && local.spec.objectstoreConfig in b && local.name == n
    requires Retried(sur.taking).Success? && Retried(sur.sending).Success? && Clocked(sur)
    ensures FileLeft(sur).Some?
    ensures Alone(NowAt(s0, n, q, b, local, Sending, queueOnly), n, sur, steps) ==
            Alone(NowAt(s0, n, q, PutFile(b, local, sur),
              SentRecord(local, Retried(sur.sending).value), Completing, queueOnly), n, sur, steps - 1)
  {
    SuccessIsStored(sur.sending);
    hide Alone, Retried, Truncate, LastStored;
    var o := Retried(sur.sending).value;
    var e := EventAt(Sending, b, local, sur);
    Unfold(NowAt(s0, n, q, b, local, Sending, queueOnly), n, sur, steps);
    AdvanceIs(s0, n, q, b, local, Sending, queueOnly, e);
    assert e.sent == SendSucceeds(FileLeft(sur).value) && Sent(o.size, o.timestamp) == o;
    var w := Worker(q.record, local, Sending, queueOnly);
    var w' := w.(local := SentRecord(local, o), stage := Completing);
    assert s0.workers[n := w][n := w'] == s0.workers[n := w'];
  }

  lemma CompletedAlone(s0: State, n: string, q: RecordPass, b: map<string, BucketContents>, local: Record,
        queueOnly: bool, sur: Surroundings, steps: nat)
    requires Sane(s0, n, q) && Sensible(sur) && steps > 0
    requires local.name == n && local.resourceVersion == q.record.resourceVersion
    requires local.creationTimestamp == q.record.creationTimestamp
    ensures var p := Put(q, WithPhase(local, Completed, ""));
            && Sane(s0, n, p)
            && Alone(NowAt(s0, n, q, b, local, Completing, queueOnly), n, sur, steps) ==
                 Alone(NowAt(s0, n, p, b, p.record, Initializing, queueOnly), n, sur, steps - 1)
  {
    hide Alone, Attempt, Move, Persist, Truncate, LifeOf, EventAt;
    var w := Worker(q.record, local, Completing, queueOnly);
    var e := EventAt(Completing, b, local, sur);
    Unfold(NowAt(s0, n, q, b, local, Completing, queueOnly), n, sur, steps);
    AdvanceIs(s0, n, q, b, local, Completing, queueOnly, e);
    AttemptIsPut(s0, n, q, b, w, WithPhase(local, Completed, ""), Some(Initializing));
  }

  /** A queued pass, up to where it ends or closes. */
  lemma WorkAlone(s0: State, n: string, p: RecordPass, b: map<string, BucketContents>, sur: Surroundings)
    requires Sane(s0, n, p) && Sensible(sur) && p.record.status.phase.InQueue?
    requires Clocked(sur)
    ensures var q := Put(p, WithPhase(p.record, InProgress, ""));
            Alone(NowAt(s0, n, q, b, q.record, Taking, false), n, sur, 7) ==
            Final(s0, n, CloseRecord(Work(p, false, b.Keys, sur), sur.finished, sur.refusal),
              AfterUpload(b, p.record, false, sur))
  {
    hide Alone, Persist, Truncate, LifeOf, Retried, NowAt, Now, Final, CloseRecord, Put, TakenRecord, SentRecord,
      FileName;
    var q := Put(p, WithPhase(p.record, InProgress, ""));
    QueuedAlone(s0, n, p, b, false, sur, 8);
    var cfg := q.record.spec.objectstoreConfig;
    var taking, sending := Retried(sur.taking), Retried(sur.sending);
    EndedCloses(Work(p, false, b.Keys, sur), sur);
    if cfg !in b {
      FailAlone(s0, n, q, b, q.record, Taking, false, sur, 7, sur.bucketError);
    } else if taking.Failure? {
      FailAlone(s0, n, q, b, q.record, Taking, false, sur, 7, taking.message);
    } else {
      var local := TakenRecord(q.record, taking.value);
      TakenAlone(s0, n, q, b, false, sur, 7);
      TakenKeeps(q.record, taking.value);
      if sending.Failure? {
        var b' := PutFile(b, local, sur);
        LeftAlone(s0, n, q, b, local, false, sur, 6);
        FailAlone(s0, n, q, b', local, Sending, false, sur, if Pending(b, local, sur) then 5 else 6, sending.message);
      } else {
        SentAlone(s0, n, q, b, local, false, sur, 6);
        SentKeeps(local, sending.value);
        var b' := PutFile(b, local, sur);
        CompletedAlone(s0, n, q, b', SentRecord(local, sending.value), false, sur, 5);
        var c := Put(q, WithPhase(SentRecord(local, sending.value), Completed, ""));
        CloseAlone(s0, n, c, b', false, sur, 4);
      }
    }
  }

  lemma TakenKeeps(r: Record, t: Taken)
    ensures var l := TakenRecord(r, t);
            l.name == r.name && l.resourceVersion == r.resourceVersion &&
              l.creationTimestamp == r.creationTimestamp && l.spec == r.spec
  {}

  lemma SentKeeps(r: Record, o: Sent)
    ensures var l := SentRecord(r, o);
            l.name == r.name && l.resourceVersion == r.resourceVersion &&
              l.creationTimestamp == r.creationTimestamp && l.spec == r.spec
  {}

  lemma EndedCloses(p: RecordPass, sur: Surroundings)
    ensures p.progress.Ended? ==> CloseRecord(p, sur.finished, sur.refusal) == p
  {
    if p.progress.Ended? {
      StoppedPass(LifePass(p), sur.finished, SnapshotHandler.THIRTY_DAYS, sur.refusal);
    }
  }

  lemma RestAlone(s0: State, n: string, p: RecordPass, b: map<string, BucketContents>, queueOnly: bool,
        sur: Surroundings)
    requires Sane(s0, n, p) && Sensible(sur)
    requires Clocked(sur)
    ensures Alone(NowAt(s0, n, p, b, p.record, Queued, queueOnly), n, sur, 8) ==
            Final(s0, n, CloseRecord(Work(p, queueOnly, b.Keys, sur), sur.finished, sur.refusal),
              AfterUpload(b, p.record, queueOnly, sur))
  {
    hide Alone, Truncate, LifeOf, Retried, NowAt, Now, Final, CloseRecord, Put, Step, Persist, Dated, AfterUpload,
      Clocked, WithPhase, Work;
    NotWorking(p, queueOnly, b, sur);
    QueuedAlone(s0, n, p, b, queueOnly, sur, 8);
    if !queueOnly && p.record.status.phase.InQueue? {
      WorkAlone(s0, n, p, b, sur);
    } else {
      CloseAlone(s0, n, p, b, queueOnly, sur, 7);
    }
  }

  lemma BeginIs(s0: State, n: string, queueOnly: bool)
    requires n in s0.records && n !in s0.workers
    ensures Step(s0, BeginPass(n, queueOnly)) ==
      NowAt(s0, n, Begin(s0.records[n], s0.version), s0.buckets, s0.records[n], Stopped, queueOnly)
  {
    assert s0.records[n := s0.records[n]] == s0.records;
  }

  lemma NotWorking(p: RecordPass, queueOnly: bool, b: map<string, BucketContents>, sur: Surroundings)
    requires Sensible(sur)
    ensures queueOnly || !p.record.status.phase.InQueue? ==>
      Work(p, queueOnly, b.Keys, sur) == p && AfterUpload(b, p.record, queueOnly, sur) == b
    ensures !queueOnly ==> AfterUpload(b, p.record, queueOnly, sur) == AfterUpload(b, p.record, false, sur)
  {
    hide Retried, Put;
  }

  /** The agreement of the two models: begun in any state and left alone, a pass of the machine
      ends after at most nine steps with the record, version and buckets that PassOver gives. */
  lemma UndisturbedPass(s0: State, n: string, queueOnly: bool, sur: Surroundings)
    requires n in s0.records && s0.records[n].name == n && Persisted(s0.records[n]) && n !in s0.workers && Sensible(sur)
    requires Clocked(sur)
    ensures var r := s0.records[n];
            Alone(Step(s0, BeginPass(n, queueOnly)), n, sur, 9) ==
            Final(s0, n, PassOver(r, s0.version, queueOnly, s0.maxRetryElapsed, s0.buckets.Keys, sur),
                  AfterUpload(s0.buckets, GiveUp(Begin(r, s0.version), sur.started, s0.maxRetryElapsed).record,
                    queueOnly, sur))
  {
    var r, b := s0.records[n], s0.buckets;
    var p0 := Begin(r, s0.version);
    var p1 := GiveUp(p0, sur.started, s0.maxRetryElapsed);
    PassOverIs(r, s0.version, queueOnly, s0.maxRetryElapsed, b.Keys, sur);
    assert Sane(s0, n, p0) && p0.record == r;
    hide *;
    BeginIs(s0, n, queueOnly);
    StoppedAlone(s0, n, p0, b, queueOnly, sur, 9);
    RestAlone(s0, n, p1, b, queueOnly, sur);
  }

  lemma PassOverIs(r: Record, version: nat, queueOnly: bool, maxRetryElapsed: int, configs: set<string>,
        sur: Surroundings)
    requires Sensible(sur)
    ensures PassOver(r, version, queueOnly, maxRetryElapsed, configs, sur)
         == CloseRecord(Work(GiveUp(Begin(r, version), sur.started, maxRetryElapsed), queueOnly, configs, sur),
           sur.finished, sur.refusal)
  {}
}
