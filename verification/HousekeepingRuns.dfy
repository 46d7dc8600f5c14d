/** Whole runs of the housekeeping machine: the main results, and why the syncer has to list
    objects before records (backup_syncer.go:191 and :197). */
module HousekeepingRuns {
  import opened Text
  import opened Records
  import opened Reconciliation
  import opened ObjectSyncer
  import opened SnapshotHandler
  import SnapshotTaking
  import opened Housekeeping
  import opened HousekeepingNames
  import opened HousekeepingSafety

  /* ---- the remaining actions ---- */

  lemma CreateKeeps(s: State, n: string, spec: SnapshotSpec, now: Time)
    requires Inv(s)
    ensures Inv(Step(s, CreateRecord(n, spec, now)))
  {
    if n !in s.used {
      var t := Step(s, CreateRecord(n, spec, now));
      PersistOnce(Record(n, s.version + 1, now, spec, EMPTY_STATUS));
      TruncateOnce(0);
      ObjectsKept(s, t);
      KeptObjects(s.buckets);
      hide NameUsed, Backed, FileName, SameFile;
      forall m | m in t.records && m in s.used ensures m in s.records && Follows(s, s.records[m], t.records[m], true) {
        SameFileReflexive(t.records[m]);
      }
      forall m | m in t.records ensures RecordOk(t, m) {
        if m != n { assert RecordOk(s, m); }
      }
      assert Evolves(s, t, None);
      assert RecordsOk(t) && DeletionsOk(t);
      hide Inv, Evolves, RecordsOk, ObjectsOk, DeletionsOk;
      SyncerStays(s, t, None) by { assert SyncerOk(s) by { InvParts(s); } }
      InvAfterSync(s, t);
    }
  }

  lemma InvParts(s: State)
    requires Inv(s)
    ensures SyncerOk(s) && WorkersOk(s) && RecordsOk(s) && DeletionsOk(s) && ObjectsOk(s)
  {}

  /** The step changes the shared state within bounds, and neither passes nor syncer. */
  lemma OutsiderKeeps(s: State, t: State)
    requires Inv(s) && WorldOk(s, t, None) && t.workers == s.workers && t.syncer == s.syncer
    ensures Inv(t)
  {
    hide Evolves, RecordsOk, ObjectsOk, DeletionsOk, WorkersOk;
    SyncerStays(s, t, None);
    InvAfterSync(s, t);
  }

  lemma EditKeeps(s: State, n: string, spec: SnapshotSpec)
    requires Inv(s)
    ensures Inv(Step(s, EditSpec(n, spec)))
  {
    if n in s.records {
      assert RecordOk(s, n);
      var r := s.records[n].(name := n, spec := spec);
      SameFileReflexive(r);
      hide Inv, Coherent, HasFile, SameFile, Backed;
      CoherentAs(r, s.records[n]);
      WriteKeeps(s, r, None);
      OutsiderKeeps(s, WriteRecord(s, r));
    }
  }

  lemma CoherentAs(a: Record, b: Record)
    requires a.status == b.status
    ensures (Coherent(a) <==> Coherent(b)) && (HasFile(a) <==> HasFile(b)) && SameFile(a, b)
  {}

  lemma DeletionKeeps(s: State, d: Deletion)
    requires Inv(s)
    ensures Inv(Step(s, HandleDeletion(d)))
  {
    if d in s.deletions {
      var t := RemoveObject(s, d.config, FileName(d.name));
      forall n | n in s.records ensures FileName(n) != FileName(d.name) { FileNameInjective(n, d.name); }
      RemoveObjectKeeps(s, d.config, FileName(d.name));
      hide Evolves, RecordsOk, ObjectsOk, RemoveObject, Inv;
      FewerDeletions(s, t, t.(deletions := s.deletions - {d})) by { RemoveObjectOnly(s, d.config, FileName(d.name)); }
      OutsiderKeeps(s, t.(deletions := s.deletions - {d})) by { RemoveObjectOnly(s, d.config, FileName(d.name)); }
    }
  }

  lemma RemoveObjectOnly(s: State, config: string, objectName: string)
    ensures RemoveObject(s, config, objectName).(buckets := s.buckets) == s
  {}

  lemma FewerDeletions(s: State, t: State, t': State)
    requires WorldOk(s, t, None) && t'.deletions <= t.deletions && t' == t.(deletions := t'.deletions)
    ensures WorldOk(s, t', None)
  {
    hide Evolves, RecordsOk, ObjectsOk;
    EvolvesSame(s, t, t');
  }

  lemma EvolvesSame(s: State, t: State, t': State)
    requires t' == t.(deletions := t'.deletions)
    ensures Evolves(s, t, None) <==> Evolves(s, t', None)
    ensures RecordsOk(t) ==> RecordsOk(t')
    ensures ObjectsOk(t) <==> ObjectsOk(t')
  {
    hide Follows, KeepsObjects, FileName, Coherent, Persisted, Backed, HasFile, BucketOk;
    if RecordsOk(t) {
      forall n | n in t'.records ensures RecordOk(t', n) { assert RecordOk(t, n); }
    }
  }

  lemma BeginKeeps(s: State, n: string, queueOnly: bool)
    requires Inv(s)
    ensures Inv(Step(s, BeginPass(n, queueOnly)))
  {
    if n !in s.workers && n in s.records {
      var t := Step(s, BeginPass(n, queueOnly));
      CopyFresh(s, n);
      assert s.records[n].name == n by { assert RecordOk(s, n); }
      SameFileReflexive(s.records[n]);
      CopySame(s, t, s.records[n]);
      SharedUnchanged(s, t, Some(n));
      hide Inv, Evolves, RecordsOk, ObjectsOk, DeletionsOk, CopyOk, SameFile;
      InvAfter(s, t, n);
    }
  }

  lemma ListBucketKeeps(s: State, c: string, infos: seq<ObjectInfo>)
    requires Inv(s) && s.syncer.Listing? && c in s.buckets && ListsObjects(infos, c, s.buckets[c])
    ensures Inv(Step(s, ListBucket(c, infos)))
  {
    var t := Step(s, ListBucket(c, infos));
    assert BucketOk(s.used, s.buckets[c]);
    forall o | o in s.syncer.found + infos ensures InfoOk(t, o) {
      assert o in s.syncer.found ==> InfoOk(s, o);
    }
    SharedUnchanged(s, t, None);
    hide Inv, Evolves, RecordsOk, ObjectsOk, DeletionsOk, InfoOk;
    InvAfterSync(s, t);
  }

  lemma CrashKeeps(s: State)
    requires Inv(s)
    ensures Inv(Step(s, Crash))
  {
    SharedUnchanged(s, Step(s, Crash), None);
  }

  /** A record that is rebuilt from a stored object describes that object. */
  lemma RebuiltIsBacked(buckets: map<string, BucketContents>, c: string, r: Record, now: Time)
    requires c in buckets && FileName(r.name) in buckets[c] && Dated(buckets[c][FileName(r.name)])
    requires RebuiltFrom(buckets, InfoOf(c, FileName(r.name), buckets[c][FileName(r.name)]), r, now)
    ensures Coherent(r) && HasFile(r) && Backed(buckets, r)
  {
    var o := InfoOf(c, FileName(r.name), buckets[c][FileName(r.name)]);
    RebuiltAgrees(ArchivedIn(buckets, o).value, o, now);
    TruncateOnce(o.timestamp);
    hide Rebuilt, ArchivedIn, FileName, Truncate;
    assert HoldsFile(buckets[c], r);
  }

  lemma RestoredIsOk(s: State, restored: map<string, Record>, now: Time, n: string)
    requires ObjectsOk(s) && Restorable(s, restored, now) && n in restored
    ensures var r := restored[n];
            && r.name == n && n in s.used && r.resourceVersion <= s.version + |restored| && Persisted(r)
            && Coherent(r) && HasFile(r) && Backed(s.buckets, r)
  {
    hide RebuiltFrom, FileName, Persisted, Coherent, HasFile, Backed;
    var c :| c in s.buckets && FileName(n) in s.buckets[c]
      && RebuiltFrom(s.buckets, InfoOf(c, FileName(n), s.buckets[c][FileName(n)]), restored[n], now);
    assert BucketOk(s.used, s.buckets[c]);
    var m :| m in s.used && FileName(m) == FileName(n);
    FileNameInjective(m, n);
    RebuiltIsBacked(s.buckets, c, restored[n], now);
  }

  lemma RestartKeeps(s: State, restored: map<string, Record>, now: Time)
    requires Inv(s)
    ensures Inv(Step(s, Restart(restored, now)))
  {
    hide Restorable, Inv, Restarted;
    if Restorable(s, restored, now) { RestoredKeeps(s, restored, now); }
  }

  lemma RestoredKeeps(s: State, restored: map<string, Record>, now: Time)
    requires Inv(s) && Restorable(s, restored, now)
    ensures Inv(Restarted(s, restored))
  {
    hide Restorable, Persisted, Coherent, HasFile, Backed;
    var t := Restarted(s, restored);
    ObjectsKept(s, t);
    forall n | n in t.records ensures RecordOk(t, n) {
      if n in restored {
        RestoredIsOk(s, restored, now, n);
      } else {
        assert RecordOk(s, n);
      }
    }
  }

  lemma SyncStateKeeps(s: State, syncer: Syncer)
    requires Inv(s) && (syncer.Idle? || (syncer.Listing? && syncer.found == [] && syncer.validating))
    ensures Inv(s.(syncer := syncer))
  {
    var t := s.(syncer := syncer);
    SharedUnchanged(s, t, None);
    hide Evolves, RecordsOk, ObjectsOk, DeletionsOk, WorkersOk;
    InvAfterSync(s, t);
  }

  lemma StepKeeps(s: State, a: Action)
    requires Inv(s) && (a.BeginSync? ==> a.validating)
    ensures Inv(Step(s, a))
  {
    hide Inv, WorkerStep, TaskStep, RemoveRecord, RemoveObject, ListsAll, ListsObjects, Plan;
    match a
    case CreateRecord(n, spec, now) => CreateKeeps(s, n, spec, now);
    case EditSpec(n, spec) => EditKeeps(s, n, spec);
    case DeleteRecord(n) =>
      RemoveKeeps(s, n, None);
      RemoveOnly(s, n);
      OutsiderKeeps(s, RemoveRecord(s, n));
    case HandleDeletion(d) => DeletionKeeps(s, d);
    case BeginPass(n, queueOnly) => BeginKeeps(s, n, queueOnly);
    case Advance(n, e) => if n in s.workers { WorkerStepKeeps(s, n, e); }
    case BeginSync(deleting, validating) =>
      if s.syncer.Idle? { SyncStateKeeps(s, Listing([], deleting, validating)); }
    case ListBucket(c, infos) =>
      if s.syncer.Listing? && c in s.buckets && ListsObjects(infos, c, s.buckets[c]) { ListBucketKeeps(s, c, infos); }
    case ListRecords(items) => if s.syncer.Listing? && ListsAll(items, s.records) { ListRecordsKeeps(s, items); }
    case NextTask =>
      if s.syncer.Acting? {
        if s.syncer.todo == [] { SyncStateKeeps(s, Idle); } else { TaskStepKeeps(s, s.syncer.copies, s.syncer.todo); }
      }
    case Crash => CrashKeeps(s);
    case Restart(restored, now) => RestartKeeps(s, restored, now);
  }

  /** Every sync of the run validates. */
  predicate Validating(actions: seq<Action>) {
    forall a :: a in actions && a.BeginSync? ==> a.validating
  }

  lemma {:induction false} RunKeeps(s: State, actions: seq<Action>)
    requires Inv(s) && Validating(actions)
    ensures Inv(Exec(s, actions))
    decreases |actions|
  {
    hide Inv, Step;
    if actions != [] {
      assert actions[0] in actions;
      StepKeeps(s, actions[0]);
      RunKeeps(Step(s, actions[0]), actions[1..]);
    }
  }

  /* ---- main results ---- */

  /** Between passes and syncs: nothing is going on, every record is coherent and what it knows of
      a file is true, and the stored objects are dated and belong to names that were used. */
  predicate Quiet(s: State) {
    RecordsOk(s) && ObjectsOk(s) && s.workers == map[] && s.deletions == {} && s.syncer.Idle?
  }

  /** No records, no objects. */
  function Empty(configs: set<string>, maxRetryElapsed: int): State {
    State(map[], 0, map c | c in configs :: map[], {}, map[], {}, Idle, maxRetryElapsed)
  }

  /** So every run from a quiet state meets the requirement of the safety theorem. */
  lemma QuietIsNamed(s: State)
    requires Quiet(s)
    ensures NamesOk(s)
  {
    forall n | n in s.records ensures s.records[n].name == n && n in s.used { assert RecordOk(s, n); }
    forall c | c in s.buckets ensures BucketNamed(s.used, s.buckets[c]) { assert BucketOk(s.used, s.buckets[c]); }
  }

  /** Safety from a quiet start. */
  lemma QuietDeletionsStayUnowned(s0: State, before: seq<Action>, after: seq<Action>, o: ObjectInfo)
    requires Quiet(s0) && NoneRebuilds(after, o.name)
    requires var s := Exec(s0, before); s.syncer.Acting? && s.syncer.todo != [] && s.syncer.todo[0] == DeleteObject(o)
    ensures forall n :: n in Exec(s0, before).records ==> FileName(n) != o.name
    ensures forall n :: n in Exec(Exec(s0, before), after).records ==> FileName(n) != o.name
  {
    QuietIsNamed(s0);
    DeletedObjectsStayUnowned(s0, before, after, o);
  }

  lemma EmptyIsQuiet(configs: set<string>, maxRetryElapsed: int)
    ensures Quiet(Empty(configs, maxRetryElapsed))
  {}

  /** Agreement: if validation is on, in every reachable state each Completed record has a stored
      object of its name with the recorded size and, to the second, the recorded time. */
  lemma CompletedRecordsAgree(s0: State, actions: seq<Action>)
    requires Quiet(s0) && Validating(actions)
    ensures var s := Exec(s0, actions);
            forall n :: n in s.records && s.records[n].status.phase.Completed? ==>
              exists c :: c in s.buckets && FileName(n) in s.buckets[c] &&
                s.records[n].status.storedFileSize == s.buckets[c][FileName(n)].size &&
                s.records[n].status.storedTimestamp == Truncate(s.buckets[c][FileName(n)].timestamp)
  {
    assert Inv(s0);
    RunKeeps(s0, actions);
    var s := Exec(s0, actions);
    hide Exec, FileName;
    forall n | n in s.records && s.records[n].status.phase.Completed?
      ensures exists c ::
        c in s.buckets && FileName(n) in s.buckets[c] &&
          s.records[n].status.storedFileSize == s.buckets[c][FileName(n)].size &&
          s.records[n].status.storedTimestamp == Truncate(s.buckets[c][FileName(n)].timestamp)
    {
      assert RecordOk(s, n);
      var r := s.records[n];
      var c :| c in s.buckets && HoldsFile(s.buckets[c], r);
      assert Truncate(r.status.storedTimestamp) == r.status.storedTimestamp;
    }
  }

  /* ---- the order of the two listings ---- */

  lemma {:induction false} ExecSnoc(s: State, actions: seq<Action>, a: Action)
    ensures Exec(s, actions + [a]) == Step(Exec(s, actions), a)
    decreases |actions|
  {
    hide Step;
    if actions == [] {
      assert actions + [a] == [a] && [a][1..] == [];
    } else {
      assert (actions + [a])[1..] == actions[1..] + [a];
      ExecSnoc(Step(s, actions[0]), actions[1..], a);
    }
  }

  ghost predicate Reaches(s: State, t: State) {
    exists actions :: Exec(s, actions) == t
  }

  lemma ReachStep(s: State, t: State, a: Action)
    requires Reaches(s, t)
    ensures Reaches(s, Step(t, a))
  {
    var actions :| Exec(s, actions) == t;
    ExecSnoc(s, actions, a);
  }

  const SUCCESS: Event :=
    Event(DAY, "", Some(Taken(SnapshotTaking.Marker("", DAY), [], [])), SendSucceeds(StoredObject(1, DAY, [])), None)

  /** The world consists of record r, called "a", and at most a pass over it. */
  predicate At(s: State, r: Record, stage: Option<Stage>) {
    && r.name == "a" && r.spec == SnapshotSpec("b", 0, r.spec.ttl) && r.status.availableUntil == 0
    && s.records == map["a" := r] && s.buckets == map["b" := map[]]
    && s.workers == if stage.Some? then map["a" := Worker(r, r, stage.value, false)] else map[]
  }

  const NEXT: Action := Advance("a", SUCCESS)

  /** A step of the pass that has nothing to write. */
  lemma IdleStep(s: State, r: Record, stage: Stage, next: Option<Stage>)
    requires At(s, r, Some(stage)) && (r.status.phase.New? || r.status.phase.InQueue?)
    requires (stage.Stopped? && next == Some(Queued)) ||
      (stage.Queued? && r.status.phase.New? && next == Some(Initializing))
          || (stage.Dating? && next == Some(Following)) || (stage.Following? && next == Some(Expiring)) ||
               (stage.Expiring? && next.None?)
    ensures At(Step(s, NEXT), r, next) && Step(s, NEXT).syncer == s.syncer
  {
    hide Truncate, Persist, Plan;
    var w := Worker(r, r, stage, false);
    assert s.workers["a"] == w;
    assert Step(s, NEXT) == WorkerStep(s, w, SUCCESS);
    assert map["a" := w]["a" := w.(stage := Queued)] == map["a" := w.(stage := Queued)];
    assert WorkerStep(s, w, SUCCESS) == Move(s, w, next);
  }

  lemma BeginStep(s: State, r: Record)
    requires At(s, r, None)
    ensures At(Step(s, BeginPass("a", false)), r, Some(Stopped)) && Step(s, BeginPass("a", false)).syncer == s.syncer
  {
    hide Truncate, Persist, Plan;
  }

  /** A step of the pass that writes the record. */
  lemma WritingStep(s: State, r: Record, stage: Stage) returns (r': Record)
    requires At(s, r, Some(stage))
    requires (stage.Initializing? && r.status.phase.New?) || (stage.Queued? && r.status.phase.InQueue?)
    ensures Step(s, NEXT).syncer == s.syncer
    ensures stage.Initializing? ==> r'.status.phase.InQueue? && At(Step(s, NEXT), r', Some(Dating))
    ensures stage.Queued? ==> r'.status.phase.InProgress? && At(Step(s, NEXT), r', Some(Taking))
  {
    hide Plan;
    TruncateOnce(0);
    r' := Step(s, NEXT).records["a"];
  }

  lemma CreateStep(s: State) returns (r: Record)
    requires s == Empty({"b"}, 0)
    ensures r.status.phase.New? && At(Step(s, CreateRecord("a", SnapshotSpec("b", 0, 0), DAY)), r, None)
    ensures Step(s, CreateRecord("a", SnapshotSpec("b", 0, 0), DAY)).syncer == Idle
  {
    TruncateOnce(0);
    r := Step(s, CreateRecord("a", SnapshotSpec("b", 0, 0), DAY)).records["a"];
  }

  lemma UploadSteps(s: State, r: Record)
    requires At(s, r, Some(Taking))
    ensures var t := Step(Step(s, NEXT), NEXT);
            "a" in t.records && "b" in t.buckets && t.buckets["b"] == map["a.tgz" := StoredObject(1, DAY, [])]
  {
    TruncateOnce(DAY);
    hide Persist, Plan, Attempt, CloseStep;
    var w := Worker(r, r, Taking, false);
    var s1 := Step(s, NEXT);
    assert s1.workers["a"].stage.Sending? && s1.workers["a"].local.spec.objectstoreConfig == "b" &&
      s1.workers["a"].local.name == "a";
    assert FileName("a") == "a.tgz";
  }

  /** The third of these steps completes the record. */
  lemma CompleteSteps(s: State, r: Record)
    requires At(s, r, Some(Taking))
    ensures var t := Step(Step(Step(s, NEXT), NEXT), NEXT);
            && t.syncer == s.syncer
            && "b" in t.buckets && t.buckets["b"] == map["a.tgz" := StoredObject(1, DAY, [])]
            && "a" in t.records && t.records == map["a" := t.records["a"]] && t.records["a"].name == "a"
            && t.records["a"].status.phase.Completed? && t.records["a"].status.storedFileSize == 1 &&
                 t.records["a"].status.storedTimestamp == DAY
  {
    TruncateOnce(DAY);
    UploadSteps(s, r);
    hide Plan, CloseStep;
    var s1 := Step(s, NEXT);
    assert s1.workers["a"].stage.Sending? && s1.workers["a"].local.spec.objectstoreConfig == "b" &&
      s1.workers["a"].local.name == "a";
    assert s1.records == map["a" := r] && s1.workers["a"].local.resourceVersion == r.resourceVersion;
    var s2 := Step(s1, NEXT);
    assert s2.workers["a"].stage.Completing? && s2.workers["a"].local.name == "a" &&
      s2.workers["a"].local.resourceVersion == r.resourceVersion;
    assert s2.workers["a"].local.status.storedFileSize == 1 && s2.workers["a"].local.status.storedTimestamp == DAY;
    assert map["a" := r]["a" := Step(s2, NEXT).records["a"]] == map["a" := Step(s2, NEXT).records["a"]];
  }

  /** Creating record "a" and two passes take it to where its snapshot is being taken. */
  lemma TakeOne() returns (s: State, r: Record)
    ensures Reaches(Empty({"b"}, 0), s) && At(s, r, Some(Taking)) && s.syncer == Idle
  {
    hide Step, At, Truncate, Persist, Reaches;
    var s0 := Empty({"b"}, 0);
    s := s0;
    Here(s0);
    var r0 := CreateStep(s);
    s := Onward(s0, s, CreateRecord("a", SnapshotSpec("b", 0, 0), DAY));
    BeginStep(s, r0);
    s := Onward(s0, s, BeginPass("a", false));
    IdleStep(s, r0, Stopped, Some(Queued));
    s := Onward(s0, s, NEXT);
    IdleStep(s, r0, Queued, Some(Initializing));
    s := Onward(s0, s, NEXT);
    var r1 := WritingStep(s, r0, Initializing);
    s := Onward(s0, s, NEXT);
    IdleStep(s, r1, Dating, Some(Following));
    s := Onward(s0, s, NEXT);
    IdleStep(s, r1, Following, Some(Expiring));
    s := Onward(s0, s, NEXT);
    IdleStep(s, r1, Expiring, None);
    s := Onward(s0, s, NEXT);
    BeginStep(s, r1);
    s := Onward(s0, s, BeginPass("a", false));
    IdleStep(s, r1, Stopped, Some(Queued));
    s := Onward(s0, s, NEXT);
    r := WritingStep(s, r1, Queued);
    s := Onward(s0, s, NEXT);
  }

  /** Two more steps upload its archive. */
  lemma UploadOne() returns (s: State)
    ensures Reaches(Empty({"b"}, 0), s)
    ensures "a" in s.records && "b" in s.buckets && s.buckets["b"] == map["a.tgz" := StoredObject(1, DAY, [])]
  {
    hide Step, At, Truncate, Persist, Reaches;
    var s0 := Empty({"b"}, 0);
    var r;
    s, r := TakeOne();
    UploadSteps(s, r);
    s := Onward(s0, s, NEXT);
    s := Onward(s0, s, NEXT);
  }

  lemma Here(s: State)
    ensures Reaches(s, s)
  {
    assert Exec(s, []) == s;
  }

  lemma Onward(s0: State, s: State, a: Action) returns (t: State)
    requires Reaches(s0, s)
    ensures t == Step(s, a) && Reaches(s0, t)
  {
    t := Step(s, a);
    ReachStep(s0, s, a);
  }

  /** Listing the records first would not be safe: a record that is created and uploaded between
      the two listings is live, and its object is planned for deletion. */
  lemma RecordsFirstIsUnsafe()
    ensures exists s0, s, infos, o, n ::
      && Quiet(s0) && Reaches(s0, s) && ListsAll([], s0.records)
      && "b" in s.buckets && ListsObjects(infos, "b", s.buckets["b"])
      && DeleteObject(o) in Plan(infos, [], true, true)
      && n in s.records && FileName(n) == o.name
  {
    var s0 := Empty({"b"}, 0);
    EmptyIsQuiet({"b"}, 0);
    var s := UploadOne();
    hide Reaches, Quiet;
    var o := InfoOf("b", "a.tgz", StoredObject(1, DAY, []));
    var infos := [o];
    assert FileName("a") == o.name;
    assert ListsObjects(infos, "b", s.buckets["b"]);
    assert infos[..0] == [];
    assert Deletes(infos, []) == [DeleteObject(o)];
    assert Select(infos, [], Valid) == [] && Select(infos, [], Invalid) == [] && Select(infos, [], NoObject) == [];
    assert Plan(infos, [], true, true) == [DeleteObject(o)];
    assert DeleteObject(o) in Plan(infos, [], true, true);
  }
}
