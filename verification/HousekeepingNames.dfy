/** What every run of the housekeeping machine keeps about names, whatever the flags of its syncs:
    the syncer only deletes objects whose name no live record has. This rests on listing objects
    before records (backup_syncer.go:191 and :197). */
module HousekeepingNames {
  import opened Text
  import opened Records
  import opened Reconciliation
  import opened ObjectSyncer
  import opened Lifecycle
  import opened SnapshotHandler
  import opened Housekeeping

  predicate NameUsed(used: set<string>, objectName: string) {
    exists n :: n in used && FileName(n) == objectName
  }

  /** No live record owns the name, and none ever will. */
  predicate Dead(s: State, objectName: string) {
    NameUsed(s.used, objectName) && forall n :: n in s.records ==> FileName(n) != objectName
  }

  lemma NameStays(used: set<string>, used': set<string>, name: string)
    requires used <= used' && NameUsed(used, name)
    ensures NameUsed(used', name)
  {
    var n :| n in used && FileName(n) == name;
    assert n in used';
  }

  /* ---- the invariant ---- */

  /** Every object of the bucket belongs to a name that was used. */
  predicate BucketNamed(used: set<string>, contents: BucketContents) {
    forall name :: name in contents ==> NameUsed(used, name)
  }

  predicate DeletesDead(s: State, todo: seq<Task>) {
    forall k :: 0 <= k < |todo| && todo[k].DeleteObject? ==> Dead(s, todo[k].info.name)
  }

  predicate SyncerNamed(s: State) {
    match s.syncer
    case Idle => true
    case Listing(found, _, _) => forall o :: o in found ==> NameUsed(s.used, o.name)
    case Acting(copies, todo) => (forall n :: n in copies ==> copies[n].name == n) && DeletesDead(s, todo)
  }

  predicate NamesOk(s: State) {
    && (forall n :: n in s.records ==> s.records[n].name == n && n in s.used)
    && (forall n :: n in s.workers ==> s.workers[n].base.name == s.workers[n].local.name == n && n in s.used)
    && (forall c :: c in s.buckets ==> BucketNamed(s.used, s.buckets[c]))
    && (forall d :: d in s.deletions ==> d.name in s.used && d.name !in s.records)
    && SyncerNamed(s)
  }

  /* ---- steps that bring back no name ---- */

  predicate NamesKept(s: State, t: State) {
    t.used == s.used && t.records.Keys <= s.records.Keys
  }

  lemma DeadKept(s: State, t: State, todo: seq<Task>)
    requires NamesKept(s, t) && DeletesDead(s, todo)
    ensures DeletesDead(t, todo)
  {
    hide NameUsed, FileName;
    forall k | 0 <= k < |todo| && todo[k].DeleteObject? ensures Dead(t, todo[k].info.name) {
      assert Dead(s, todo[k].info.name);
    }
  }

  lemma SyncerKept(s: State, t: State)
    requires NamesKept(s, t) && SyncerNamed(s) && t.syncer == s.syncer
    ensures SyncerNamed(t)
  {
    hide NameUsed, DeletesDead;
    if s.syncer.Acting? { DeadKept(s, t, s.syncer.todo); }
  }

  lemma AttemptNames(s: State, w: Worker, r: Record, next: Option<Stage>)
    requires NamesOk(s) && r.name in s.used
    ensures NamesKept(s, Attempt(s, w, r, next)) && NamesOk(Attempt(s, w, r, next))
  {
    hide Stored, NameUsed, SyncerNamed, BucketNamed;
    StoredName(s, r);
    SyncerKept(s, Attempt(s, w, r, next));
  }

  lemma StoredName(s: State, r: Record)
    ensures r.name in s.records ==> Stored(s, r).name == r.name
  {}

  lemma RemoveNames(s: State, n: string)
    requires NamesOk(s)
    ensures NamesKept(s, RemoveRecord(s, n)) && NamesOk(RemoveRecord(s, n))
  {
    hide NameUsed, SyncerNamed, BucketNamed;
    SyncerKept(s, RemoveRecord(s, n));
  }

  lemma StopNames(s: State, n: string)
    requires NamesOk(s)
    ensures NamesOk(StopWorker(s, n)) && NamesKept(s, StopWorker(s, n))
  {
    hide NameUsed, SyncerNamed, BucketNamed;
    SyncerKept(s, StopWorker(s, n));
  }

  /** A pass moves on with the same name. */
  lemma MoveNames(s: State, n: string, w: Worker, stage: Stage)
    requires NamesOk(s) && n in s.used && w.base.name == w.local.name == n
    ensures var t := s.(workers := s.workers[n := w.(stage := stage)]); NamesOk(t) && NamesKept(s, t)
  {
    hide NameUsed, SyncerNamed, BucketNamed;
    SyncerKept(s, s.(workers := s.workers[n := w.(stage := stage)]));
  }

  lemma PutNames(s: State, config: string, n: string, o: StoredObject)
    requires NamesOk(s) && n in s.used && config in s.buckets
    ensures var t := PutObject(s, config, FileName(n), o); NamesOk(t) && NamesKept(s, t)
  {
    var t := PutObject(s, config, FileName(n), o);
    assert NameUsed(s.used, FileName(n));
    assert BucketNamed(s.used, s.buckets[config]);
    hide NameUsed, SyncerNamed, FileName;
    SyncerKept(s, t);
  }

  lemma RemoveObjectNames(s: State, config: string, objectName: string)
    requires NamesOk(s)
    ensures var t := RemoveObject(s, config, objectName); NamesOk(t) && NamesKept(s, t)
  {
    hide NameUsed, SyncerNamed;
    if config in s.buckets { assert BucketNamed(s.used, s.buckets[config]); }
    SyncerKept(s, RemoveObject(s, config, objectName));
  }

  lemma CloseStepNames(s: State, n: string, e: Event)
    requires NamesOk(s) && n in s.workers && Closing(s.workers[n].stage)
    ensures var t := CloseStep(s, s.workers[n], e); NamesOk(t) && NamesKept(s, t)
  {
    var w := s.workers[n];
    hide Attempt, LifeStep, WithLife, RemoveRecord, NamesOk, StopWorker;
    assert w.base.name == w.local.name == n && n in s.used by { WorkerNamed(s, n); }
    var q := LifeStep(w.stage, LifeOf(w.local), e);
    if q.progress.Gone? {
      RemoveNames(s, n);
      StopNames(RemoveRecord(s, n), n);
    } else if q.writes == [] {
      StopNames(s, n);
      if After(w.stage).Some? { MoveNames(s, n, w, After(w.stage).value); }
    } else {
      WithLifeName(w.local, q.life);
      AttemptNames(s, w, WithLife(w.local, q.life), if q.progress.Ended? then None else After(w.stage));
    }
  }

  lemma WorkerNamed(s: State, n: string)
    requires NamesOk(s) && n in s.workers
    ensures s.workers[n].base.name == s.workers[n].local.name == n && n in s.used
  {}

  lemma WithLifeName(r: Record, l: Life)
    ensures WithLife(r, l).name == r.name
  {}

  lemma SendStepNames(s: State, n: string, e: Event)
    requires NamesOk(s) && n in s.workers
    ensures var t := SendStep(s, s.workers[n], e); NamesOk(t) && NamesKept(s, t)
  {
    var w := s.workers[n];
    WorkerNamed(s, n);
    hide Attempt, NamesOk, FileName;
    AttemptNames(s, w, WithPhase(w.local, Failed, e.error), None);
    var cfg := w.local.spec.objectstoreConfig;
    if cfg in s.buckets && !e.sent.SendFails? {
      var o := e.sent.stored;
      PutNames(s, cfg, n, o);
      MoveNames(PutObject(s, cfg, FileName(n), o), n, w.(local := SentRecord(w.local, Sent(o.size, o.timestamp))),
        Completing);
    }
  }

  lemma WorkerStepNames(s: State, n: string, e: Event)
    requires NamesOk(s) && n in s.workers
    ensures var t := WorkerStep(s, s.workers[n], e); NamesOk(t) && NamesKept(s, t)
  {
    var w := s.workers[n];
    WorkerNamed(s, n);
    hide Attempt, NamesOk, NamesKept, CloseStep, SendStep, TimedOut, Truncate, Move;
    match w.stage
    case Stopped =>
      AttemptNames(s, w, WithPhase(w.local, Failed, STOPPED), Some(Queued));
      PassNames(s, n, w, Queued);
    case Queued =>
      AttemptNames(s, w, WithPhase(w.local, InProgress, ""), Some(Taking));
      PassNames(s, n, w, Initializing);
    case Taking =>
      AttemptNames(s, w, WithPhase(w.local, Failed, e.error), None);
      if e.taken.Some? { PassNames(s, n, w.(local := TakenRecord(w.local, e.taken.value)), Sending); }
    case Sending => SendStepNames(s, n, e);
    case Completing => AttemptNames(s, w, WithPhase(w.local, Completed, ""), Some(Initializing));
    case _ => CloseStepNames(s, n, e);
  }

  lemma PassNames(s: State, n: string, w: Worker, stage: Stage)
    requires NamesOk(s) && n in s.used && w.base.name == w.local.name == n
    ensures var t := Move(s, w, Some(stage)); NamesOk(t) && NamesKept(s, t)
  {
    hide NamesOk;
    MoveNames(s, n, w, stage);
  }

  /* ---- the syncer ---- */

  predicate NoDeletes(todo: seq<Task>) { forall k :: 0 <= k < |todo| ==> !todo[k].DeleteObject? }

  lemma {:induction false} RepointsDeleteNothing(list: seq<ObjectInfo>, valid: seq<Record>)
    ensures NoDeletes(Repoints(list, valid))
  {
    hide FileName, FirstInfo;
    if valid != [] { RepointsDeleteNothing(list, valid[..|valid| - 1]); }
  }

  lemma {:induction false} MarksDeleteNothing(recs: seq<Record>, phase: Phase, reason: string)
    ensures NoDeletes(Marks(recs, phase, reason))
  {
    if recs != [] { MarksDeleteNothing(recs[..|recs| - 1], phase, reason); }
  }

  lemma {:induction false} OrphansAreDead(s: State, list: seq<ObjectInfo>, items: seq<Record>)
    requires ListsAll(items, s.records) && forall n :: n in s.records ==> s.records[n].name == n
    requires forall o :: o in list ==> NameUsed(s.used, o.name)
    ensures DeletesDead(s, Deletes(list, items))
  {
    hide FileName, NameUsed;
    if list != [] {
      OrphansAreDead(s, list[..|list| - 1], items);
      var o := list[|list| - 1];
      if !exists r :: r in items && FileName(r.name) == o.name {
        forall n | n in s.records ensures FileName(n) != o.name {
          assert s.records[n] in items && s.records[n].name == n;
        }
        assert Dead(s, o.name);
      }
    }
  }

  /** Whatever its flags, a sync plans to delete only objects whose names are dead: what was listed
      before the records and has none has lost it for good. */
  lemma PlanDeletesDead(s: State, list: seq<ObjectInfo>, items: seq<Record>, deleting: bool, validating: bool)
    requires ListsAll(items, s.records) && forall n :: n in s.records ==> s.records[n].name == n
    requires forall o :: o in list ==> NameUsed(s.used, o.name)
    ensures DeletesDead(s, Plan(list, items, deleting, validating))
  {
    hide Select, Repoints, Marks, Deletes, Dead, NameUsed;
    RepointsDeleteNothing(list, Select(list, items, Valid));
    MarksDeleteNothing(Select(list, items, Invalid), Failed, NOT_MATCHED);
    MarksDeleteNothing(Select(list, items, Invalid), Completed, "");
    MarksDeleteNothing(Select(list, items, NoObject), Failed, FILE_NOT_FOUND);
    MarksDeleteNothing(Select(list, items, Valid), Completed, "");
    OrphansAreDead(s, list, items);
  }

  lemma SyncWriteNames(s: State, copies: map<string, Record>, todo: seq<Task>, r: Record)
    requires NamesOk(s) && s.syncer == Acting(copies, todo) && todo != []
    ensures var t := SyncWrite(s, copies, todo[1..], r); NamesOk(t) && NamesKept(s, t)
  {
    hide Stored, NameUsed, BucketNamed, Dead;
    StoredName(s, r);
    DeadKept(s, SyncWrite(s, copies, todo[1..], r), todo[1..]);
  }

  lemma TaskStepNames(s: State, copies: map<string, Record>, todo: seq<Task>)
    requires NamesOk(s) && s.syncer == Acting(copies, todo) && todo != []
    ensures var t := TaskStep(s, copies, todo); NamesOk(t) && NamesKept(s, t)
  {
    hide SyncWrite, NameUsed, BucketNamed, Dead, RemoveObject;
    match todo[0]
    case DeleteObject(o) =>
      RemoveObjectNames(s, o.bucketConfigName, o.name);
      NextTaskNamed(s, RemoveObject(s, o.bucketConfigName, o.name), copies, todo);
    case RepointTo(n, c) =>
      if n in copies { SyncWriteNames(s, copies, todo, copies[n].(spec := copies[n].spec.(objectstoreConfig := c))); }
    case MarkAs(n, phase, reason) =>
      if n in copies {
        SyncWriteNames(s, copies, todo, WithPhase(copies[n], phase, reason));
        NextTaskNamed(s, s, copies, todo);
      }
  }

  lemma NextTaskNamed(s: State, t: State, copies: map<string, Record>, todo: seq<Task>)
    requires NamesOk(s) && NamesOk(t) && NamesKept(s, t) && s.syncer == Acting(copies, todo) && todo != []
    ensures NamesOk(t.(syncer := Acting(copies, todo[1..])))
  {
    hide NameUsed, BucketNamed, Dead;
    DeadKept(s, t.(syncer := Acting(copies, todo[1..])), todo[1..]);
  }

  /* ---- every step, every run ---- */

  lemma CreateNames(s: State, n: string, spec: SnapshotSpec, now: Time)
    requires NamesOk(s)
    ensures NamesOk(Step(s, CreateRecord(n, spec, now)))
  {
    if n !in s.used {
      var t := Step(s, CreateRecord(n, spec, now));
      hide FileName;
      forall c | c in t.buckets ensures BucketNamed(t.used, t.buckets[c]) {
        assert BucketNamed(s.used, s.buckets[c]);
        forall name | name in t.buckets[c] ensures NameUsed(t.used, name) { NameStays(s.used, t.used, name); }
      }
      if s.syncer.Listing? {
        forall o | o in s.syncer.found ensures NameUsed(t.used, o.name) { NameStays(s.used, t.used, o.name); }
      }
      if s.syncer.Acting? {
        forall k | 0 <= k < |s.syncer.todo| && s.syncer.todo[k].DeleteObject?
          ensures Dead(t, s.syncer.todo[k].info.name)
        {
          DeadUnless(s, t, s.syncer.todo[k].info.name);
        }
      }
    }
  }

  /** A name that was used and is gone stays dead while no used name comes back. */
  lemma DeadUnless(s: State, t: State, objectName: string)
    requires Dead(s, objectName) && s.used <= t.used && forall n :: n in t.records && n in s.used ==> n in s.records
    ensures Dead(t, objectName)
  {
    hide FileName;
    NameStays(s.used, t.used, objectName);
    var m :| m in s.used && FileName(m) == objectName;
    forall n | n in t.records ensures FileName(n) != objectName { FileNameInjective(m, n); }
  }

  lemma OtherNames(s: State, t: State)
    requires NamesOk(s)
    requires t == s.(records := t.records, version := t.version, deletions := t.deletions, buckets := s.buckets)
    requires t.records.Keys == s.records.Keys && t.deletions <= s.deletions
    requires forall n :: n in t.records ==> t.records[n].name == n
    ensures NamesOk(t) && NamesKept(s, t)
  {
    hide NameUsed, BucketNamed, SyncerNamed;
    SyncerKept(s, t);
  }

  lemma HandleNames(s: State, d: Deletion)
    requires NamesOk(s)
    ensures NamesOk(Step(s, HandleDeletion(d))) && NamesKept(s, Step(s, HandleDeletion(d)))
  {
    if d in s.deletions {
      var t := RemoveObject(s, d.config, FileName(d.name));
      RemoveObjectNames(s, d.config, FileName(d.name));
      hide FileName, NameUsed, BucketNamed, SyncerNamed, RemoveObject;
      OtherNames(t, t.(deletions := s.deletions - {d}))
        by { RemovedObjectOnly(s, d.config, FileName(d.name)); NamesNamed(t); }
    }
  }

  lemma RemovedObjectOnly(s: State, config: string, objectName: string)
    ensures RemoveObject(s, config, objectName).(buckets := s.buckets) == s
  {}

  lemma NamesNamed(s: State)
    ensures NamesOk(s) ==> forall n :: n in s.records ==> s.records[n].name == n && n in s.used
  {}

  /** A record that is restored has an object, so its name was used. */
  lemma RestoredWasUsed(s: State, restored: map<string, Record>, now: Time, n: string)
    requires NamesOk(s) && Restorable(s, restored, now) && n in restored
    ensures n in s.used && restored[n].name == n
  {
    hide FileName, RebuiltFrom, SyncerNamed;
    var c :| c in s.buckets && FileName(n) in s.buckets[c]
      && RebuiltFrom(s.buckets, InfoOf(c, FileName(n), s.buckets[c][FileName(n)]), restored[n], now);
    assert BucketNamed(s.used, s.buckets[c]);
    var m :| m in s.used && FileName(m) == FileName(n);
    FileNameInjective(m, n);
  }

  lemma RestartNames(s: State, restored: map<string, Record>, now: Time)
    requires NamesOk(s)
    ensures NamesOk(Step(s, Restart(restored, now)))
  {
    hide Restorable, NamesOk, Restarted;
    if Restorable(s, restored, now) {
      forall n | n in restored ensures n in s.used && restored[n].name == n { RestoredWasUsed(s, restored, now, n); }
      RestoredNames(s, restored);
    }
  }

  lemma MergedNames(records: map<string, Record>, restored: map<string, Record>, used: set<string>)
    requires forall n :: n in records ==> records[n].name == n && n in used
    requires forall n :: n in restored ==> restored[n].name == n && n in used
    ensures forall n :: n in records + restored ==> (records + restored)[n].name == n && n in used
  {}

  lemma IdleNamed(t: State)
    requires t.syncer.Idle?
    ensures SyncerNamed(t)
  {}

  lemma RestoredNames(s: State, restored: map<string, Record>)
    requires NamesOk(s) && forall n :: n in restored ==> n in s.used && restored[n].name == n
    ensures NamesOk(Restarted(s, restored))
  {
    hide BucketNamed, NameUsed, SyncerNamed;
    var t := Restarted(s, restored);
    MergedNames(s.records, restored, s.used);
    assert t.records == s.records + restored && t.workers == map[] && t.deletions == {} && t.used == s.used;
    assert t.buckets == s.buckets && t.syncer.Idle?;
    hide Restarted;
    IdleNamed(t);
  }

  lemma ListBucketNames(s: State, c: string, infos: seq<ObjectInfo>)
    requires NamesOk(s)
    ensures NamesOk(Step(s, ListBucket(c, infos))) && NamesKept(s, Step(s, ListBucket(c, infos)))
  {
    hide NameUsed, DeletesDead;
    if s.syncer.Listing? && c in s.buckets && ListsObjects(infos, c, s.buckets[c]) {
      assert BucketNamed(s.used, s.buckets[c]);
      hide BucketNamed;
    }
  }

  lemma ListRecordsNames(s: State, items: seq<Record>)
    requires NamesOk(s)
    ensures NamesOk(Step(s, ListRecords(items))) && NamesKept(s, Step(s, ListRecords(items)))
  {
    hide NameUsed, Plan, Dead, BucketNamed;
    if s.syncer.Listing? && ListsAll(items, s.records) {
      var t := Step(s, ListRecords(items));
      PlanDeletesDead(s, s.syncer.found, items, s.syncer.deleting, s.syncer.validating);
      DeadKept(s, t, Plan(s.syncer.found, items, s.syncer.deleting, s.syncer.validating));
    }
  }

  lemma SyncNames(s: State, a: Action)
    requires NamesOk(s) && (a.BeginSync? || a.ListBucket? || a.ListRecords? || a.NextTask?)
    ensures NamesOk(Step(s, a)) && NamesKept(s, Step(s, a))
  {
    hide NameUsed, TaskStep, DeletesDead, BucketNamed;
    match a
    case ListBucket(c, infos) => ListBucketNames(s, c, infos);
    case ListRecords(items) => ListRecordsNames(s, items);
    case NextTask =>
      if s.syncer.Acting? && s.syncer.todo != [] { TaskStepNames(s, s.syncer.copies, s.syncer.todo); }
      else if s.syncer.Acting? { assert NoDeletes([]); }
    case _ =>
  }

  lemma StepNames(s: State, a: Action)
    requires NamesOk(s)
    ensures NamesOk(Step(s, a))
    ensures s.used <= Step(s, a).used
    ensures !a.Restart? ==> forall n :: n in Step(s, a).records && n in s.used ==> n in s.records
  {
    hide NamesOk, WorkerStep, TaskStep, RemoveRecord, RemoveObject, ListsAll, ListsObjects, Plan, Restorable, Persist;
    match a
    case CreateRecord(n, spec, now) => CreateNames(s, n, spec, now);
    case EditSpec(n, spec) =>
      NamesNamed(s);
      if n in s.records { OtherNames(s, Step(s, a)) by { StoredName(s, s.records[n].(name := n, spec := spec)); } }
    case DeleteRecord(n) => RemoveNames(s, n);
    case HandleDeletion(d) => HandleNames(s, d);
    case BeginPass(n, queueOnly) =>
      NamesNamed(s);
      if n !in s.workers && n in s.records {
        MoveNames(s, n, Worker(s.records[n], s.records[n], Stopped, queueOnly), Stopped);
      }
    case Advance(n, e) => if n in s.workers { WorkerStepNames(s, n, e); }
    case Crash => StoppedNames(s);
    case Restart(restored, now) => RestartNames(s, restored, now);
    case _ => SyncNames(s, a);
  }

  lemma StoppedNames(s: State)
    requires NamesOk(s)
    ensures NamesOk(Stop(s))
  {
    hide NameUsed, BucketNamed;
  }

  lemma {:induction false} RunNames(s: State, actions: seq<Action>)
    requires NamesOk(s)
    ensures NamesOk(Exec(s, actions))
    decreases |actions|
  {
    hide NamesOk, Step;
    if actions != [] {
      StepNames(s, actions[0]);
      RunNames(Step(s, actions[0]), actions[1..]);
    }
  }

  /** A restarted controller re-creates a record that owns the name. */
  predicate Rebuilds(a: Action, objectName: string) {
    a.Restart? && exists n :: n in a.restored && FileName(n) == objectName
  }

  predicate NoneRebuilds(actions: seq<Action>, objectName: string) {
    forall a :: a in actions ==> !Rebuilds(a, objectName)
  }

  lemma RestartKeepsDead(s: State, restored: map<string, Record>, now: Time, objectName: string)
    requires Dead(s, objectName) && !Rebuilds(Restart(restored, now), objectName)
    ensures Dead(Step(s, Restart(restored, now)), objectName)
  {
    hide Restorable, FileName;
  }

  lemma DeadStep(s: State, a: Action, objectName: string)
    requires NamesOk(s) && Dead(s, objectName) && !Rebuilds(a, objectName)
    ensures Dead(Step(s, a), objectName)
  {
    if a.Restart? {
      RestartKeepsDead(s, a.restored, a.now, objectName);
    } else {
      StepNames(s, a);
      hide NamesOk, Step, Dead;
      DeadUnless(s, Step(s, a), objectName);
    }
  }

  lemma {:induction false} DeadForever(s: State, actions: seq<Action>, objectName: string)
    requires NamesOk(s) && Dead(s, objectName) && NoneRebuilds(actions, objectName)
    ensures Dead(Exec(s, actions), objectName)
    decreases |actions|
  {
    hide NamesOk, Step, Dead, Rebuilds;
    if actions != [] {
      assert actions[0] in actions;
      StepNames(s, actions[0]);
      DeadStep(s, actions[0], objectName);
      DeadForever(Step(s, actions[0]), actions[1..], objectName);
    }
  }

  /** Safety: an object that the syncer deletes belongs to no record that is live then, nor to one
      that is live ever after unless a restarted controller rebuilds it; whatever the flags of the
      syncs, and whatever users, passes, delete handlers, crashes and restarts do before and after. */
  lemma DeletedObjectsStayUnowned(s0: State, before: seq<Action>, after: seq<Action>, o: ObjectInfo)
    requires NamesOk(s0) && NoneRebuilds(after, o.name)
    requires var s := Exec(s0, before); s.syncer.Acting? && s.syncer.todo != [] && s.syncer.todo[0] == DeleteObject(o)
    ensures forall n :: n in Exec(s0, before).records ==> FileName(n) != o.name
    ensures forall n :: n in Exec(Exec(s0, before), after).records ==> FileName(n) != o.name
  {
    RunNames(s0, before);
    var s := Exec(s0, before);
    hide Exec;
    assert Dead(s, s.syncer.todo[0].info.name);
    DeadForever(s, after, o.name);
  }
}
