/** When a sync marks a Completed record Failed: exactly if the first object of its name among those
    it has listed is missing or does not match (backup_syncer.go:264-330). As objects are listed
    before records (backup_syncer.go:191 and :197), that can be a mistake, but only for records that
    were completed in between. */
module HousekeepingMistakes {
  import opened Text
  import opened Records
  import opened Reconciliation
  import opened ObjectSyncer
  import opened SnapshotHandler
  import opened Housekeeping
  import opened HousekeepingNames
  import opened HousekeepingSafety
  import opened HousekeepingRuns

  /* ---- what a plan marks Failed ---- */

  lemma {:induction false} MarkMember(recs: seq<Record>, phase: Phase, reason: string, n: string, phase': Phase,
        reason': string)
    ensures MarkAs(n, phase', reason') in Marks(recs, phase, reason) <==>
      phase' == phase && reason' == reason && exists r :: r in recs && r.name == n
  {
    if recs != [] {
      var k := |recs| - 1;
      MarkMember(recs[..k], phase, reason, n, phase', reason');
      assert recs == recs[..k] + [recs[k]];
    }
  }

  lemma {:induction false} RepointsMarkNothing(list: seq<ObjectInfo>, valid: seq<Record>, t: Task)
    ensures t.MarkAs? ==> t !in Repoints(list, valid)
  {
    hide FirstInfo, FileName;
    if valid != [] { RepointsMarkNothing(list, valid[..|valid| - 1], t); }
  }

  lemma {:induction false} DeletesMarkNothing(list: seq<ObjectInfo>, items: seq<Record>, t: Task)
    ensures t.MarkAs? ==> t !in Deletes(list, items)
  {
    hide FileName;
    if list != [] { DeletesMarkNothing(list[..|list| - 1], items, t); }
  }

  /** The sync has a reason to mark the record Failed. */
  predicate FailsFor(found: seq<ObjectInfo>, r: Record, deleting: bool, validating: bool, reason: string) {
    || (validating && ClassOf(found, r).Invalid? && reason == NOT_MATCHED)
    || (deleting && ClassOf(found, r).NoObject? && reason == FILE_NOT_FOUND)
  }

  lemma PlannedFailures(found: seq<ObjectInfo>, items: seq<Record>, deleting: bool, validating: bool, n: string,
        reason: string)
    ensures MarkAs(n, Failed, reason) in Plan(found, items, deleting, validating) <==>
      exists r :: r in items && r.name == n && FailsFor(found, r, deleting, validating, reason)
  {
    hide Repoints, Marks, Deletes, Select, ClassOf;
    var invalid, missing := Select(found, items, Invalid), Select(found, items, NoObject);
    var valid := Select(found, items, Valid);
    forall r, c ensures r in Select(found, items, c) <==> r in items && ClassOf(found, r) == c {
      SelectMember(found, items, c, r);
    }
    RepointsMarkNothing(found, valid, MarkAs(n, Failed, reason));
    DeletesMarkNothing(found, items, MarkAs(n, Failed, reason));
    MarkMember(invalid, Failed, NOT_MATCHED, n, Failed, reason);
    MarkMember(invalid, Completed, "", n, Failed, reason);
    MarkMember(missing, Failed, FILE_NOT_FOUND, n, Failed, reason);
    MarkMember(valid, Completed, "", n, Failed, reason);
  }

  /** The exact condition, for a finished record of a listing without double names. */
  lemma FailedIffUnmatched(found: seq<ObjectInfo>, items: seq<Record>, r: Record, deleting: bool, validating: bool)
    requires DistinctNames(items) && r in items && Terminal(r)
    ensures var first := FirstInfo(found, FileName(r.name));
            (exists reason :: MarkAs(r.name, Failed, reason) in Plan(found, items, deleting, validating)) <==>
              || (deleting && first.None?)
              || (validating && first.Some? &&
                    (r.status.storedFileSize != first.value.size ||
                     r.status.storedTimestamp != Truncate(first.value.timestamp)))
  {
    hide Plan, FirstInfo, FileName, Truncate;
    forall reason ensures MarkAs(r.name, Failed, reason) in Plan(found, items, deleting, validating) <==>
                            FailsFor(found, r, deleting, validating, reason) {
      PlannedFailures(found, items, deleting, validating, r.name, reason);
      SameRecord(items, r);
    }
    assert FailsFor(found, r, deleting, validating, NOT_MATCHED) <==> validating && ClassOf(found, r).Invalid? by {
      ReasonsDiffer();
    }
    assert FailsFor(found, r, deleting, validating, FILE_NOT_FOUND) <==> deleting && ClassOf(found, r).NoObject? by {
      ReasonsDiffer();
    }
  }

  lemma ReasonsDiffer()
    ensures NOT_MATCHED != FILE_NOT_FOUND
  {
    assert |NOT_MATCHED| == 43 && |FILE_NOT_FOUND| == 23;
  }

  lemma SameRecord(items: seq<Record>, r: Record)
    requires DistinctNames(items) && r in items
    ensures forall r' :: r' in items && r'.name == r.name ==> r' == r
  {
    var i :| 0 <= i < |items| && items[i] == r;
    forall r' | r' in items && r'.name == r.name ensures r' == r {
      var j :| 0 <= j < |items| && items[j] == r';
    }
  }

  /* ---- what a listing has seen it keeps seeing ---- */

  /** An action that does not end a listing. */
  predicate KeepsListing(a: Action) { !a.ListRecords? && !a.Crash? && !a.Restart? }

  predicate AllKeepListing(actions: seq<Action>) { forall a :: a in actions ==> KeepsListing(a) }

  predicate Sideline(a: Action) {
    a.CreateRecord? || a.EditSpec? || a.DeleteRecord? || a.HandleDeletion? || a.BeginPass? || a.Advance?
  }

  /** Users, passes and delete handlers do not look at the syncer. */
  lemma SyncerDoesNotMatter(s: State, syncer: Syncer, a: Action)
    requires Sideline(a)
    ensures Step(s.(syncer := syncer), a) == Step(s, a).(syncer := syncer)
  {
    if a.Advance? && a.name in s.workers {
      WorkerAlike(s, syncer, s.workers[a.name], a.event);
    }
    hide WorkerStep, Persist;
  }

  lemma AttemptAlike(s: State, syncer: Syncer, w: Worker, r: Record, next: Option<Stage>)
    ensures Attempt(s.(syncer := syncer), w, r, next) == Attempt(s, w, r, next).(syncer := syncer)
  {
    hide Persist;
    assert r.name in s.records ==> Stored(s.(syncer := syncer), r) == Stored(s, r);
  }

  lemma MoveAlike(s: State, syncer: Syncer, w: Worker, next: Option<Stage>)
    ensures Move(s.(syncer := syncer), w, next) == Move(s, w, next).(syncer := syncer)
  {}

  lemma GoneAlike(s: State, syncer: Syncer, n: string)
    ensures StopWorker(RemoveRecord(s.(syncer := syncer), n), n) == StopWorker(RemoveRecord(s, n), n).(syncer := syncer)
  {}

  lemma CloseAlike(s: State, syncer: Syncer, w: Worker, e: Event)
    requires Closing(w.stage)
    ensures CloseStep(s.(syncer := syncer), w, e) == CloseStep(s, w, e).(syncer := syncer)
  {
    hide LifeStep, Attempt, Move, WithLife, RemoveRecord, StopWorker;
    var q := LifeStep(w.stage, LifeOf(w.local), e);
    GoneAlike(s, syncer, w.local.name);
    MoveAlike(s, syncer, w, After(w.stage));
    AttemptAlike(s, syncer, w, WithLife(w.local, q.life), if q.progress.Ended? then None else After(w.stage));
  }

  lemma SendAlike(s: State, syncer: Syncer, w: Worker, e: Event)
    ensures SendStep(s.(syncer := syncer), w, e) == SendStep(s, w, e).(syncer := syncer)
  {
    hide Attempt, Dated, FileName;
    AttemptAlike(s, syncer, w, WithPhase(w.local, Failed, e.error), None);
  }

  lemma WorkerAlike(s: State, syncer: Syncer, w: Worker, e: Event)
    ensures WorkerStep(s.(syncer := syncer), w, e) == WorkerStep(s, w, e).(syncer := syncer)
  {
    hide Attempt, Move, CloseStep, SendStep, TimedOut;
    match w.stage
    case Stopped =>
      AttemptAlike(s, syncer, w, WithPhase(w.local, Failed, STOPPED), Some(Queued));
      MoveAlike(s, syncer, w, Some(Queued));
    case Queued =>
      AttemptAlike(s, syncer, w, WithPhase(w.local, InProgress, ""), Some(Taking));
      MoveAlike(s, syncer, w, Some(Initializing));
    case Taking =>
      AttemptAlike(s, syncer, w, WithPhase(w.local, Failed, e.error), None);
      if e.taken.Some? { MoveAlike(s, syncer, w.(local := TakenRecord(w.local, e.taken.value)), Some(Sending)); }
    case Sending => SendAlike(s, syncer, w, e);
    case Completing => AttemptAlike(s, syncer, w, WithPhase(w.local, Completed, ""), Some(Initializing));
    case _ => CloseAlike(s, syncer, w, e);
  }

  /** What a record knows of its file stays. */
  lemma FileStays(s: State, a: Action, n: string)
    requires Inv(s) && s.syncer.Listing? && KeepsListing(a)
    requires n in s.records && HasFile(s.records[n]) && n in Step(s, a).records
    ensures SameFile(Step(s, a).records[n], s.records[n])
  {
    if Sideline(a) {
      var s' := s.(syncer := Acting(s.records, []));
      CopiesKept(s);
      SyncerDoesNotMatter(s, s'.syncer, a);
      StepKeeps(s', a);
      var t := Step(s', a);
      assert t.records == Step(s, a).records;
      hide Step, Inv;
      InvParts(t);
      StillCopied(t, s.records, n);
    } else {
      NoRecordChanges(s, a);
    }
  }

  lemma CopiesKept(s: State)
    requires Inv(s)
    ensures Inv(s.(syncer := Acting(s.records, [])))
  {
    var t := s.(syncer := Acting(s.records, []));
    SharedUnchanged(s, t, None);
    forall n | n in s.records ensures s.records[n].name == n && CopyOk(t, s.records[n]) {
      assert RecordOk(s, n);
      CopyFresh(s, n);
      CopySame(s, t, s.records[n]);
    }
    hide Evolves, RecordsOk, ObjectsOk, DeletionsOk, WorkersOk, CopyOk;
    InvAfterSync(s, t);
  }

  lemma StillCopied(t: State, copies: map<string, Record>, n: string)
    requires SyncerOk(t) && t.syncer == Acting(copies, []) && n in copies && n in t.records && HasFile(copies[n])
    ensures SameFile(t.records[n], copies[n])
  {
    assert CopyOk(t, copies[n]) && copies[n].name == n;
  }

  lemma NoRecordChanges(s: State, a: Action)
    requires s.syncer.Listing? && KeepsListing(a) && !Sideline(a)
    ensures Step(s, a).records == s.records
  {}

  /** The record, if it is still there, has a file and matches the first object of its name that the
      sync has listed. */
  predicate Seen(s: State, n: string) {
    && n in s.used && s.syncer.Listing?
    && (n in s.records ==>
          HasFile(s.records[n]) && FirstInfo(s.syncer.found, FileName(n)).Some?
          && Matches(s.records[n], FirstInfo(s.syncer.found, FileName(n)).value))
  }

  lemma FoundGrows(s: State, a: Action) returns (infos: seq<ObjectInfo>)
    requires s.syncer.Listing? && KeepsListing(a)
    ensures Step(s, a).syncer == s.syncer.(found := s.syncer.found + infos)
  {
    infos := [];
    assert s.syncer.found + [] == s.syncer.found;
    if Sideline(a) {
      SyncerDoesNotMatter(s, s.syncer, a);
    } else if a.ListBucket? && a.config in s.buckets && ListsObjects(a.infos, a.config, s.buckets[a.config]) {
      infos := a.infos;
    }
    hide WorkerStep;
  }

  lemma StillMatches(a: Record, b: Record, o: ObjectInfo)
    requires SameFile(a, b) && Persisted(a) && Persisted(b) && Matches(b, o) && HasFile(b)
    ensures Matches(a, o) && HasFile(a)
  {
    TruncateOnce(o.timestamp);
  }

  lemma SeenStays(s: State, a: Action, n: string)
    requires Inv(s) && NamesOk(s) && Seen(s, n) && KeepsListing(a) && (a.BeginSync? ==> a.validating)
    ensures Seen(Step(s, a), n)
  {
    var t := Step(s, a);
    StepNames(s, a);
    StepKeeps(s, a);
    var infos := FoundGrows(s, a);
    FirstInfoAppend(s.syncer.found, infos, FileName(n));
    if n in t.records {
      FileStays(s, a, n);
      assert RecordOk(s, n) && RecordOk(t, n);
      hide Step, Inv, NamesOk, FileName, Backed;
      StillMatches(t.records[n], s.records[n], FirstInfo(s.syncer.found, FileName(n)).value);
    }
  }

  lemma {:induction false} SeenThroughout(s: State, actions: seq<Action>, n: string)
    requires Inv(s) && NamesOk(s) && Seen(s, n) && AllKeepListing(actions) && Validating(actions)
    ensures Seen(Exec(s, actions), n)
    decreases |actions|
  {
    hide Inv, NamesOk, Seen, Step, KeepsListing;
    if actions != [] {
      assert actions[0] in actions;
      SeenStays(s, actions[0], n);
      StepKeeps(s, actions[0]);
      StepNames(s, actions[0]);
      SeenThroughout(Step(s, actions[0]), actions[1..], n);
    }
  }

  /** Listing the bucket that holds the matching object sees it, if no other object of the name has
      been found before. */
  lemma SeenWhenListed(s: State, c: string, infos: seq<ObjectInfo>, n: string)
    requires Inv(s) && s.syncer.Listing? && c in s.buckets && ListsObjects(infos, c, s.buckets[c])
    requires n in s.records && s.records[n].status.phase.Completed? && FileName(n) in s.buckets[c]
    requires s.records[n].status.storedFileSize == s.buckets[c][FileName(n)].size
    requires s.records[n].status.storedTimestamp == Truncate(s.buckets[c][FileName(n)].timestamp)
    requires FirstInfo(s.syncer.found, FileName(n)).None?
    ensures Seen(Step(s, ListBucket(c, infos)), n)
  {
    var o := InfoOf(c, FileName(n), s.buckets[c][FileName(n)]);
    assert RecordOk(s, n);
    hide Inv, FileName, Backed;
    FirstInfoAppend(s.syncer.found, infos, FileName(n));
    assert o in infos;
    assert FirstInfo(infos, FileName(n)) == Some(o);
  }

  /** What a sync has seen it does not mark Failed. */
  lemma SeenIsNotFailed(s: State, items: seq<Record>, n: string, reason: string)
    requires NamesOk(s) && Seen(s, n) && ListsAll(items, s.records)
    ensures MarkAs(n, Failed, reason) !in Plan(s.syncer.found, items, s.syncer.deleting, s.syncer.validating)
  {
    hide Plan, FirstInfo, Matches, FileName;
    PlannedFailures(s.syncer.found, items, s.syncer.deleting, s.syncer.validating, n, reason);
  }

  /** In every run: a record that is already Completed when the sync lists the bucket that holds its
      object, no other object of its name having been found before, is not marked Failed by that
      sync, whatever happens until it lists the records. */
  lemma CompletedBeforeListingStays(s0: State, before: seq<Action>, c: string, infos: seq<ObjectInfo>,
        after: seq<Action>, items: seq<Record>, n: string, reason: string)
    requires Quiet(s0) && Validating(before) && Validating(after) && AllKeepListing(after)
    requires var s := Exec(s0, before);
             && s.syncer.Listing? && c in s.buckets && ListsObjects(infos, c, s.buckets[c])
             && n in s.records && s.records[n].status.phase.Completed? && FileName(n) in s.buckets[c]
             && s.records[n].status.storedFileSize == s.buckets[c][FileName(n)].size
             && s.records[n].status.storedTimestamp == Truncate(s.buckets[c][FileName(n)].timestamp)
             && FirstInfo(s.syncer.found, FileName(n)).None?
    ensures var t := Exec(Step(Exec(s0, before), ListBucket(c, infos)), after);
            && t.syncer.Listing?
            && (ListsAll(items, t.records) ==>
                  MarkAs(n, Failed, reason) !in Plan(t.syncer.found, items, t.syncer.deleting, t.syncer.validating))
  {
    assert Inv(s0);
    QuietIsNamed(s0);
    RunKeeps(s0, before);
    RunNames(s0, before);
    var s := Exec(s0, before);
    hide Exec, Inv, NamesOk, Plan, Matches, FirstInfo, FileName;
    SeenWhenListed(s, c, infos, n);
    StepKeeps(s, ListBucket(c, infos));
    StepNames(s, ListBucket(c, infos));
    var s1 := Step(s, ListBucket(c, infos));
    hide Step;
    SeenThroughout(s1, after, n);
    RunNames(s1, after);
    var t := Exec(s1, after);
    if ListsAll(items, t.records) { SeenIsNotFailed(t, items, n, reason); }
  }

  /* ---- the mistakes are real ---- */

  /** A Completed record whose object is stored and matches is about to be marked Failed. */
  predicate Mistaken(s: State, reason: string) {
    && "a" in s.records && s.records["a"].status.phase.Completed? && s.records["a"].name == "a"
    && "b" in s.buckets && "a.tgz" in s.buckets["b"]
    && s.records["a"].status.storedFileSize == s.buckets["b"]["a.tgz"].size
    && s.records["a"].status.storedTimestamp == Truncate(s.buckets["b"]["a.tgz"].timestamp)
    && s.syncer == Acting(s.records, [MarkAs("a", Failed, reason)])
  }

  /** The record is Completed, its object matches, and these objects have been listed. */
  predicate Outdated(t: State, found: seq<ObjectInfo>) {
    && t.syncer == Listing(found, true, true) && "a" in t.records && t.records == map["a" := t.records["a"]]
    && t.records["a"].name == "a" && t.records["a"].status.phase.Completed? && t.records["a"].status.storedFileSize == 1
    && "b" in t.buckets && "a.tgz" in t.buckets["b"]
    && t.records["a"].status.storedFileSize == t.buckets["b"]["a.tgz"].size
    && t.records["a"].status.storedTimestamp == Truncate(t.buckets["b"]["a.tgz"].timestamp)
  }

  lemma OneRecord(found: seq<ObjectInfo>, r: Record, phase: Phase, reason: string)
    ensures forall c :: Select(found, [r], c) == if ClassOf(found, r) == c then [r] else []
    ensures Marks([r], phase, reason) == [MarkAs(r.name, phase, reason)] && Marks([], phase, reason) == []
    ensures Repoints(found, []) == []
  {
    hide ClassOf;
    assert [r][..0] == [];
  }

  lemma PlanForOne(found: seq<ObjectInfo>, r: Record, reason: string)
    requires FailsFor(found, r, true, true, reason) && forall o :: o in found ==> o.name == FileName(r.name)
    ensures Plan(found, [r], true, true) == [MarkAs(r.name, Failed, reason)]
  {
    var failed := MarkAs(r.name, Failed, reason);
    hide ClassOf, Deletes, FileName, Select, Marks, Repoints, Plan;
    NothingToDelete(found, r);
    OneRecord(found, r, Failed, NOT_MATCHED);
    OneRecord(found, r, Failed, FILE_NOT_FOUND);
    OneRecord(found, r, Completed, "");
    PlanIs(found, r, if ClassOf(found, r).Invalid? then [failed] else [],
      if ClassOf(found, r).NoObject? then [failed] else []);
    assert [] + [] + [failed] + [] + [] == [failed] == [] + [] + [] + [failed] + [];
  }

  lemma PlanIs(found: seq<ObjectInfo>, r: Record, invalid: seq<Task>, missing: seq<Task>)
    requires invalid == Marks(Select(found, [r], Invalid), Failed, NOT_MATCHED)
    requires missing == Marks(Select(found, [r], NoObject), Failed, FILE_NOT_FOUND)
    requires Repoints(found, Select(found, [r], Valid)) == [] && Deletes(found, [r]) == []
    requires Marks(Select(found, [r], Valid), Completed, "") == []
    ensures Plan(found, [r], true, true) == [] + [] + invalid + missing + []
  {
    hide Repoints, Deletes, Marks, Select;
  }

  lemma {:induction false} NothingToDelete(found: seq<ObjectInfo>, r: Record)
    requires forall o :: o in found ==> o.name == FileName(r.name)
    ensures Deletes(found, [r]) == []
  {
    hide FileName;
    if found != [] {
      assert found[|found| - 1] in found && r in [r];
      NothingToDelete(found[..|found| - 1], r);
    }
  }

  lemma ListMistaken(t: State, found: seq<ObjectInfo>, reason: string)
    requires Outdated(t, found) && FailsFor(found, t.records["a"], true, true, reason)
    requires forall o :: o in found ==> o.name == "a.tgz"
    ensures Mistaken(Step(t, ListRecords([t.records["a"]])), reason)
  {
    assert FileName("a") == "a.tgz";
    PlanForOne(found, t.records["a"], reason);
    hide Plan, Matches, FailsFor;
    assert ListsAll([t.records["a"]], t.records);
  }

  lemma MarkedFailed(u: State, reason: string)
    requires Mistaken(u, reason)
    ensures "a" in Step(u, NextTask).records && Step(u, NextTask).records["a"].status.phase.Failed?
  {}

  /** A sync that lists the objects just before the upload and the records just after the
      completion. */
  lemma ListAroundCompletion(s: State, r: Record) returns (t: State)
    requires At(s, r, Some(Taking)) && s.syncer == Idle
    ensures t == Exec(s, [BeginSync(true, true), ListBucket("b", []), NEXT, NEXT, NEXT]) && Outdated(t, [])
  {
    hide Plan, CloseStep, WorkerStep, Persist;
    assert ListsObjects([], "b", s.buckets["b"]);
    var s1 := Step(Step(s, BeginSync(true, true)), ListBucket("b", []));
    assert s1 == s.(syncer := Listing([], true, true));
    assert At(s1, r, Some(Taking));
    CompleteSteps(s1, r);
    TruncateOnce(DAY);
    t := Step(Step(Step(s1, NEXT), NEXT), NEXT);
    hide Step;
    FiveSteps(s, BeginSync(true, true), ListBucket("b", []), NEXT, NEXT, NEXT);
  }

  lemma FiveSteps(s: State, a: Action, b: Action, c: Action, d: Action, e: Action)
    ensures Exec(s, [a, b, c, d, e]) == Step(Step(Step(Step(Step(s, a), b), c), d), e)
  {
    assert Exec(s, []) == s;
    hide Step, Exec;
    ExecSnoc(s, [], a);
    ExecSnoc(s, [a], b);
    ExecSnoc(s, [a, b], c);
    ExecSnoc(s, [a, b, c], d);
    ExecSnoc(s, [a, b, c, d], e);
    assert [] + [a] == [a] && [a] + [b] == [a, b] && [a, b] + [c] == [a, b, c];
    assert [a, b, c] + [d] == [a, b, c, d] && [a, b, c, d] + [e] == [a, b, c, d, e];
  }

  lemma {:induction false} ReachAll(s0: State, s: State, actions: seq<Action>)
    requires Reaches(s0, s)
    ensures Reaches(s0, Exec(s, actions))
    decreases |actions|
  {
    hide Step, Reaches;
    if actions != [] {
      ReachStep(s0, s, actions[0]);
      ReachAll(s0, Step(s, actions[0]), actions[1..]);
    }
  }

  lemma FirstMistake(s0: State, t: State, found: seq<ObjectInfo>, reason: string) returns (u: State)
    requires Reaches(s0, t) && Outdated(t, found) && FailsFor(found, t.records["a"], true, true, reason)
    requires forall o :: o in found ==> o.name == "a.tgz"
    ensures Reaches(s0, u) && Mistaken(u, reason)
    ensures "a" in Step(u, NextTask).records && Step(u, NextTask).records["a"].status.phase.Failed?
  {
    u := Step(t, ListRecords([t.records["a"]]));
    ListMistaken(t, found, reason);
    MarkedFailed(u, reason);
    hide *;
    ReachStep(s0, t, ListRecords([t.records["a"]]));
  }

  /** What a sync can get wrong: a record that is completed between the two listings is planned to be
      marked Failed although its object is stored and matches; the next step does so. */
  lemma CompletionBetweenListings()
    ensures exists s0, s ::
      && Quiet(s0) && Reaches(s0, s) && Mistaken(s, FILE_NOT_FOUND)
      && "a" in Step(s, NextTask).records && Step(s, NextTask).records["a"].status.phase.Failed?
  {
    var s0 := Empty({"b"}, 0);
    EmptyIsQuiet({"b"}, 0);
    var s, r := TakeOne();
    var t := ListAroundCompletion(s, r);
    assert FailsFor([], t.records["a"], true, true, FILE_NOT_FOUND);
    hide *;
    ReachAll(s0, s, [BeginSync(true, true), ListBucket("b", []), NEXT, NEXT, NEXT]);
    var u := FirstMistake(s0, t, [], FILE_NOT_FOUND);
  }

  /** A try of the upload that stores a larger object and cannot read its info back. */
  const LARGER: StoredObject := StoredObject(2, DAY, [])
  const RESEND: Action := Advance("a", SUCCESS.(sent := Resend(LARGER)))

  /** The pass over "a" is about to upload. */
  predicate Uploading(s: State, r: Record, contents: BucketContents) {
    && s.records == map["a" := r] && "a" in s.workers && s.workers["a"].stage.Sending?
    && s.workers["a"].local.name == "a" && s.workers["a"].local.spec.objectstoreConfig == "b"
    && s.workers["a"].local.resourceVersion == r.resourceVersion
    && s.buckets == map["b" := contents]
  }

  /** A try that fails with its object stored. */
  lemma ResendStep(s: State, r: Record)
    requires At(s, r, Some(Taking))
    ensures Uploading(Step(Step(s, NEXT), RESEND), r, map["a.tgz" := LARGER])
    ensures Step(Step(s, NEXT), RESEND).syncer == s.syncer
  {
    TruncateOnce(DAY);
    hide Persist, Plan, Attempt, CloseStep;
    var s1 := Step(s, NEXT);
    assert s1.workers["a"].stage.Sending? && s1.workers["a"].local.spec.objectstoreConfig == "b";
    assert s1.workers["a"].local.name == "a" && FileName("a") == "a.tgz";
    assert map["b" := map[]]["b" := map["a.tgz" := LARGER]] == map["b" := map["a.tgz" := LARGER]];
  }

  /** The next try succeeds, and the record is completed. */
  lemma FinishSteps(s: State, r: Record, contents: BucketContents, found: seq<ObjectInfo>)
    requires Uploading(s, r, contents) && s.syncer == Listing(found, true, true)
    ensures Outdated(Step(Step(s, NEXT), NEXT), found)
  {
    TruncateOnce(DAY);
    hide Plan, CloseStep;
    assert FileName("a") == "a.tgz";
    var s2 := Step(s, NEXT);
    assert s2.workers["a"].stage.Completing? && s2.workers["a"].local.name == "a";
    assert s2.workers["a"].local.resourceVersion == r.resourceVersion;
    assert s2.workers["a"].local.status.storedFileSize == 1 && s2.workers["a"].local.status.storedTimestamp == DAY;
    assert s2.buckets["b"]["a.tgz"] == StoredObject(1, DAY, []);
    var t := Step(s2, NEXT);
    assert map["a" := r]["a" := t.records["a"]] == map["a" := t.records["a"]];
  }

  /** A sync that lists the objects between two tries of the upload. */
  lemma ListBetweenTries(s0: State, s: State, r: Record) returns (t: State, found: seq<ObjectInfo>)
    requires Reaches(s0, s) && At(s, r, Some(Taking)) && s.syncer == Idle
    ensures found == [InfoOf("b", "a.tgz", LARGER)] && Outdated(t, found) && Reaches(s0, t)
  {
    found := [InfoOf("b", "a.tgz", LARGER)];
    ResendStep(s, r);
    var s2 := Step(Step(s, NEXT), RESEND);
    var s3 := Step(s2, BeginSync(true, true));
    assert s3 == s2.(syncer := Listing([], true, true));
    assert ListsObjects(found, "b", s3.buckets["b"]);
    var s4 := Step(s3, ListBucket("b", found));
    assert [] + found == found;
    assert s4 == s3.(syncer := Listing(found, true, true));
    FinishSteps(s4, r, s2.buckets["b"], found);
    t := Step(Step(s4, NEXT), NEXT);
    hide *;
    ReachStep(s0, s, NEXT);
    ReachStep(s0, Step(s, NEXT), RESEND);
    ReachStep(s0, s2, BeginSync(true, true));
    ReachStep(s0, s3, ListBucket("b", found));
    ReachStep(s0, s4, NEXT);
    ReachStep(s0, Step(s4, NEXT), NEXT);
  }

  /** The other form of the mistake: an object that a failed try stored is listed, the next try
      replaces it and the record is completed, and the sync finds that they do not match. */
  lemma UploadBetweenListings()
    ensures exists s0, s ::
      && Quiet(s0) && Reaches(s0, s) && Mistaken(s, NOT_MATCHED)
      && "a" in Step(s, NextTask).records && Step(s, NextTask).records["a"].status.phase.Failed?
  {
    var s0 := Empty({"b"}, 0);
    EmptyIsQuiet({"b"}, 0);
    var s, r := TakeOne();
    var t, found := ListBetweenTries(s0, s, r);
    LargerDoesNotMatch(t, found);
    hide *;
    var u := FirstMistake(s0, t, found, NOT_MATCHED);
  }

  lemma LargerDoesNotMatch(t: State, found: seq<ObjectInfo>)
    requires Outdated(t, found) && found == [InfoOf("b", "a.tgz", LARGER)]
    ensures FailsFor(found, t.records["a"], true, true, NOT_MATCHED) && forall o :: o in found ==> o.name == "a.tgz"
  {
    assert FileName("a") == "a.tgz";
  }
}
