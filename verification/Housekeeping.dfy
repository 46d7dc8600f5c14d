/** Users, handler passes, delete handlers, the periodic syncer and restarts of the controller,
    interleaved step by step over the same records and buckets (backup_handler.go,
    backup_syncer.go, controller.go:224-249). A step either writes one
    record, touches one object, or lists; every status write is refused unless it is based on the
    stored version. */
module Housekeeping {
  import opened Text
  import opened Records
  import opened Reconciliation
  import opened ObjectSyncer
  import opened Lifecycle
  import opened SnapshotHandler

  /* ---- states ---- */

  /** Where a handler pass is (the comments in snapshotSyncHandler). */
  datatype Stage = Stopped | Queued | Taking | Sending | Completing | Initializing | Dating | Following | Expiring

  /** A pass over one key: the record as last read or written, and the copy it works on. */
  datatype Worker = Worker(base: Record, local: Record, stage: Stage, queueOnly: bool)

  datatype Task =
    | RepointTo(name: string, config: string)
    | DeleteObject(info: ObjectInfo)
    | MarkAs(name: string, phase: Phase, reason: string)

  datatype Syncer =
    | Idle
    | Listing(found: seq<ObjectInfo>, deleting: bool, validating: bool)
    | Acting(copies: map<string, Record>, todo: seq<Task>)

  /** An event of the informer that deleteSnapshot has yet to handle. */
  datatype Deletion = Deletion(name: string, config: string)

  /** `used` are the names that records have ever had; there is at most one pass per key. */
  datatype State = State(
    records: map<string, Record>,
    version: nat,
    buckets: map<string, BucketContents>,
    used: set<string>,
    workers: map<string, Worker>,
    deletions: set<Deletion>,
    syncer: Syncer,
    maxRetryElapsed: int)

  /* ---- actions ---- */

  datatype Sending = SendFails | Resend(stored: StoredObject) | SendSucceeds(stored: StoredObject)

  /** What the next step of a pass meets. */
  datatype Event = Event(now: Time, error: string, taken: Option<Taken>, sent: Sending, refusal: Option<string>)

  datatype Action =
    | CreateRecord(name: string, spec: SnapshotSpec, now: Time)
    | EditSpec(name: string, spec: SnapshotSpec)
    | DeleteRecord(name: string)
    | HandleDeletion(deletion: Deletion)
    | BeginPass(name: string, queueOnly: bool)
    | Advance(name: string, event: Event)
    | BeginSync(deleting: bool, validating: bool)
    | ListBucket(config: string, infos: seq<ObjectInfo>)
    | ListRecords(items: seq<Record>)
    | NextTask
    | Crash
    | Restart(restored: map<string, Record>, now: Time)

  /* ---- steps ---- */

  function Stored(s: State, r: Record): Record
    requires r.name in s.records
  {
    Persist(r).(resourceVersion := s.version + 1, creationTimestamp := s.records[r.name].creationTimestamp)
  }

  predicate UpToDate(s: State, r: Record) {
    r.name in s.records && s.records[r.name].resourceVersion == r.resourceVersion
  }

  function WriteRecord(s: State, r: Record): State
    requires r.name in s.records
  {
    s.(records := s.records[r.name := Stored(s, r)], version := s.version + 1)
  }

  function RemoveRecord(s: State, name: string): State {
    if name !in s.records then s
    else s.(records := s.records - {name},
            deletions := s.deletions + {Deletion(name, s.records[name].spec.objectstoreConfig)})
  }

  function RemoveObject(s: State, config: string, name: string): State {
    if config !in s.buckets then s else s.(buckets := s.buckets[config := s.buckets[config] - {name}])
  }

  function StopWorker(s: State, name: string): State { s.(workers := s.workers - {name}) }

  /** updateSnapshotStatus in a pass; a conflict ends the pass. */
  function Attempt(s: State, w: Worker, r: Record, next: Option<Stage>): State {
    if !UpToDate(s, r) || next.None? then
      var t := if UpToDate(s, r) then WriteRecord(s, r) else s;
      StopWorker(t, r.name)
    else
      WriteRecord(s, r).(workers := s.workers[r.name := Worker(Stored(s, r), Stored(s, r), next.value, w.queueOnly)])
  }

  function Move(s: State, w: Worker, next: Option<Stage>): State {
    match next
    case None => StopWorker(s, w.base.name)
    case Some(stage) => s.(workers := s.workers[w.base.name := w.(stage := stage)])
  }

  predicate Closing(stage: Stage) { stage.Initializing? || stage.Dating? || stage.Following? || stage.Expiring? }

  function LifeStep(stage: Stage, l: Life, e: Event): Pass
    requires Closing(stage)
  {
    match stage
    case Initializing => Initialize(Start(l), e.now, SnapshotHandler.THIRTY_DAYS)
    case Dating => SetDeadline(Start(l))
    case Following => FollowSpec(Start(l))
    case Expiring => Expire(Start(l), e.now, e.refusal)
  }

  function After(stage: Stage): Option<Stage> {
    match stage
    case Initializing => Some(Dating)
    case Dating => Some(Following)
    case Following => Some(Expiring)
    case _ => None
  }

  function CloseStep(s: State, w: Worker, e: Event): State
    requires Closing(w.stage)
  {
    var q := LifeStep(w.stage, LifeOf(w.local), e);
    if q.progress.Gone? then StopWorker(RemoveRecord(s, w.local.name), w.local.name)
    else if q.writes == [] then Move(s, w, After(w.stage))
    else Attempt(s, w, WithLife(w.local, q.life), if q.progress.Ended? then None else After(w.stage))
  }

  /** Stored objects carry the time of a running clock. */
  predicate Dated(o: StoredObject) { Truncate(o.timestamp) != 0 }

  function PutObject(s: State, config: string, name: string, o: StoredObject): State
    requires config in s.buckets
  {
    s.(buckets := s.buckets[config := s.buckets[config][name := o]])
  }

  function SendStep(s: State, w: Worker, e: Event): State {
    var cfg := w.local.spec.objectstoreConfig;
    match e.sent
    case SendFails => Attempt(s, w, WithPhase(w.local, Failed, e.error), None)
    case Resend(o) =>
      if cfg in s.buckets && Dated(o) then PutObject(s, cfg, FileName(w.local.name), o) else s
    case SendSucceeds(o) =>
      if cfg in s.buckets && Dated(o) then
        PutObject(s, cfg, FileName(w.local.name), o).(
          workers := s.workers[w.local.name :=
            w.(local := SentRecord(w.local, Sent(o.size, o.timestamp)), stage := Completing)])
      else s
  }

  function WorkerStep(s: State, w: Worker, e: Event): State {
    match w.stage
    case Stopped =>
      if TimedOut(w.local, e.now, s.maxRetryElapsed)
        then Attempt(s, w, WithPhase(w.local, Failed, STOPPED), Some(Queued))
      else Move(s, w, Some(Queued))
    case Queued =>
      if !w.queueOnly && w.local.status.phase.InQueue?
        then Attempt(s, w, WithPhase(w.local, InProgress, ""), Some(Taking))
      else Move(s, w, Some(Initializing))
    case Taking =>
      if w.local.spec.objectstoreConfig !in s.buckets || e.taken.None?
        then Attempt(s, w, WithPhase(w.local, Failed, e.error), None)
      else Move(s, w.(local := TakenRecord(w.local, e.taken.value)), Some(Sending))
    case Sending => SendStep(s, w, e)
    case Completing => Attempt(s, w, WithPhase(w.local, Completed, ""), Some(Initializing))
    case _ => CloseStep(s, w, e)
  }

  /* ---- the syncer ---- */

  function Repoints(list: seq<ObjectInfo>, valid: seq<Record>): seq<Task> {
    if valid == [] then []
    else
      var r, n := valid[|valid| - 1], |valid| - 1;
      var o := FirstInfo(list, FileName(r.name));
      Repoints(list, valid[..n]) +
      if o.Some? && r.spec.objectstoreConfig != o.value.bucketConfigName
        then [RepointTo(r.name, o.value.bucketConfigName)] else []
  }

  function Marks(recs: seq<Record>, phase: Phase, reason: string): seq<Task> {
    if recs == [] then []
    else Marks(recs[..|recs| - 1], phase, reason) + [MarkAs(recs[|recs| - 1].name, phase, reason)]
  }

  function Deletes(list: seq<ObjectInfo>, items: seq<Record>): seq<Task> {
    if list == [] then []
    else
      var o, n := list[|list| - 1], |list| - 1;
      Deletes(list[..n], items) + if exists r :: r in items && FileName(r.name) == o.name then [] else [DeleteObject(o)]
  }

  /** Everything a sync with these flags is going to do, in its order. */
  function Plan(list: seq<ObjectInfo>, items: seq<Record>, deleting: bool, validating: bool): seq<Task> {
    Repoints(list, Select(list, items, Valid))
    + (if deleting then Deletes(list, items) else [])
    + (if validating then Marks(Select(list, items, Invalid), Failed, NOT_MATCHED)
       else Marks(Select(list, items, Invalid), Completed, ""))
    + (if deleting then Marks(Select(list, items, NoObject), Failed, FILE_NOT_FOUND) else [])
    + Marks(Select(list, items, Valid), Completed, "")
  }

  /** updateSnapshotStatus in a sync; a conflict ends the sync. */
  function SyncWrite(s: State, copies: map<string, Record>, rest: seq<Task>, r: Record): State {
    if UpToDate(s, r) then WriteRecord(s, r).(syncer := Acting(copies[r.name := Stored(s, r)], rest))
    else s.(syncer := Idle)
  }

  function TaskStep(s: State, copies: map<string, Record>, todo: seq<Task>): State
    requires todo != []
  {
    var rest := todo[1..];
    match todo[0]
    case DeleteObject(o) => RemoveObject(s, o.bucketConfigName, o.name).(syncer := Acting(copies, rest))
    case RepointTo(n, c) =>
      if n !in copies then s
      else SyncWrite(s, copies, rest, copies[n].(spec := copies[n].spec.(objectstoreConfig := c)))
    case MarkAs(n, phase, reason) =>
      if n !in copies then s
      else if copies[n].status.phase == phase then s.(syncer := Acting(copies, rest))
      else SyncWrite(s, copies, rest, WithPhase(copies[n], phase, reason))
  }

  ghost predicate ListsObjects(infos: seq<ObjectInfo>, config: string, contents: BucketContents) {
    forall o :: o in infos <==> o.name in contents && o == InfoOf(config, o.name, contents[o.name])
  }

  ghost predicate ListsAll(items: seq<Record>, records: map<string, Record>) {
    DistinctNames(items) && forall r :: r in items <==> r.name in records && records[r.name] == r
  }

  /** The controller is gone, and with it passes, a sync and events it has not handled. */
  function Stop(s: State): State { s.(workers := map[], deletions := {}, syncer := Idle) }

  /** Records that the restoring sync of a starting controller re-creates: none that exists, each
      rebuilt from a stored object, with versions not given out before. */
  ghost predicate Restorable(s: State, restored: map<string, Record>, now: Time) {
    forall n :: n in restored ==>
      && n !in s.records && restored[n].name == n && Persisted(restored[n])
      && s.version < restored[n].resourceVersion <= s.version + |restored|
      && exists c :: c in s.buckets && FileName(n) in s.buckets[c]
           && RebuiltFrom(s.buckets, InfoOf(c, FileName(n), s.buckets[c][FileName(n)]), restored[n], now)
  }

  function Restarted(s: State, restored: map<string, Record>): State {
    Stop(s).(records := s.records + restored, version := s.version + |restored|)
  }

  /** An action that is not possible in a state leaves it alone. */
  ghost function Step(s: State, a: Action): State {
    match a
    case CreateRecord(n, spec, now) =>
      if n in s.used then s
      else s.(records := s.records[n := Persist(Record(n, s.version + 1, now, spec, EMPTY_STATUS))],
              version := s.version + 1, used := s.used + {n})
    case EditSpec(n, spec) => if n in s.records then WriteRecord(s, s.records[n].(name := n, spec := spec)) else s
    case DeleteRecord(n) => RemoveRecord(s, n)
    case HandleDeletion(d) =>
      if d in s.deletions then RemoveObject(s, d.config, FileName(d.name)).(deletions := s.deletions - {d}) else s
    case BeginPass(n, queueOnly) =>
      if n in s.workers || n !in s.records then s
      else s.(workers := s.workers[n := Worker(s.records[n], s.records[n], Stopped, queueOnly)])
    case Advance(n, e) => if n in s.workers then WorkerStep(s, s.workers[n], e) else s
    case BeginSync(deleting, validating) =>
      if s.syncer.Idle? && (deleting || validating) then s.(syncer := Listing([], deleting, validating)) else s
    case ListBucket(c, infos) =>
      if s.syncer.Listing? && c in s.buckets && ListsObjects(infos, c, s.buckets[c])
      then s.(syncer := s.syncer.(found := s.syncer.found + infos)) else s
    case ListRecords(items) =>
      if s.syncer.Listing? && ListsAll(items, s.records)
      then s.(syncer := Acting(s.records, Plan(s.syncer.found, items, s.syncer.deleting, s.syncer.validating))) else s
    case NextTask =>
      if !s.syncer.Acting? then s
      else if s.syncer.todo == [] then s.(syncer := Idle)
      else TaskStep(s, s.syncer.copies, s.syncer.todo)
    case Crash => Stop(s)
    case Restart(restored, now) =>
      if Restorable(s, restored, now) then Restarted(s, restored) else s
  }

  ghost function Exec(s: State, actions: seq<Action>): State
    decreases |actions|
  {
    if actions == [] then s else Exec(Step(s, actions[0]), actions[1..])
  }
}
