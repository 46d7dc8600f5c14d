/** A sync of the housekeeping machine that nobody disturbs does what syncObjects does in one go: the
    two models of backup_syncer.go:171-365 agree. And a deleted record takes its object with it. */
module HousekeepingSync {
  import opened Text
  import opened Records
  import opened Reconciliation
  import opened ObjectSyncer
  import opened Housekeeping

  /* ---- what tasks do to one record ---- */

  predicate Writes(r: Record, t: Task) {
    match t
    case RepointTo(n, _) => n == r.name
    case MarkAs(n, phase, _) => n == r.name && r.status.phase != phase
    case DeleteObject(_) => false
  }

  function AfterTask(r: Record, t: Task): Record {
    match t
    case RepointTo(n, c) => if n == r.name then r.(spec := r.spec.(objectstoreConfig := c)) else r
    case MarkAs(n, phase, reason) => if n == r.name then Mark(r, phase, reason) else r
    case DeleteObject(_) => r
  }

  function AfterTasks(r: Record, todo: seq<Task>): Record
    decreases todo
  {
    if todo == [] then r else AfterTasks(AfterTask(r, todo[0]), todo[1..])
  }

  predicate Spares(r: Record, todo: seq<Task>) {
    forall t :: t in todo ==> !Writes(r, t)
  }

  lemma {:induction false} AfterAppend(r: Record, a: seq<Task>, b: seq<Task>)
    ensures AfterTasks(r, a + b) == AfterTasks(AfterTasks(r, a), b)
    decreases a
  {
    hide AfterTask;
    if a == [] {
      assert a + b == b;
    } else {
      assert (a + b)[1..] == a[1..] + b;
      AfterAppend(AfterTask(r, a[0]), a[1..], b);
    }
  }

  lemma {:induction false} SparedStays(r: Record, todo: seq<Task>)
    requires Spares(r, todo)
    ensures AfterTasks(r, todo) == r
  {
    if todo != [] {
      assert !Writes(r, todo[0]);
      SparedStays(r, todo[1..]);
    }
  }

  /* ---- the parts of a plan ---- */

  lemma {:induction false} RepointsSpare(list: seq<ObjectInfo>, valid: seq<Record>, r: Record)
    requires forall x :: x in valid && x.name == r.name ==>
      FirstInfo(list, FileName(x.name)).Some? &&
        x.spec.objectstoreConfig == FirstInfo(list, FileName(x.name)).value.bucketConfigName
    ensures Spares(r, Repoints(list, valid))
  {
    hide FileName, FirstInfo;
    if valid != [] {
      assert valid[|valid| - 1] in valid;
      RepointsSpare(list, valid[..|valid| - 1], r);
    }
  }

  lemma {:induction false} RepointsOne(list: seq<ObjectInfo>, valid: seq<Record>, r: Record)
    requires DistinctNames(valid) && r in valid && FirstInfo(list, FileName(r.name)).Some?
    ensures AfterTasks(r, Repoints(list, valid)) ==
      r.(spec := r.spec.(objectstoreConfig := FirstInfo(list, FileName(r.name)).value.bucketConfigName))
  {
    hide FileName, FirstInfo;
    var n := |valid| - 1;
    var last := valid[n];
    var more := Repoints(list, valid)[|Repoints(list, valid[..n])|..];
    assert Repoints(list, valid) == Repoints(list, valid[..n]) + more;
    if r == last {
      assert forall k :: 0 <= k < n ==> valid[..n][k] == valid[k] && valid[k].name != r.name;
      RepointsSpare(list, valid[..n], r);
      SparedStays(r, Repoints(list, valid[..n]));
      AfterAppend(r, Repoints(list, valid[..n]), more);
      assert AfterTasks(r, more) == if more == [] then r else AfterTasks(AfterTask(r, more[0]), []);
    } else {
      var k :| 0 <= k < n && valid[k] == r;
      assert valid[..n][k] == r;
      RepointsOne(list, valid[..n], r);
      var r' := AfterTasks(r, Repoints(list, valid[..n]));
      AfterAppend(r, Repoints(list, valid[..n]), more);
      assert Spares(r', more);
      SparedStays(r', more);
    }
  }

  lemma {:induction false} MarksSpare(recs: seq<Record>, phase: Phase, reason: string, r: Record)
    requires !Named(recs, r.name) || r.status.phase == phase
    ensures Spares(r, Marks(recs, phase, reason))
  {
    if recs != [] {
      assert recs[|recs| - 1].name == r.name ==> Named(recs, r.name);
      assert Named(recs[..|recs| - 1], r.name) ==> Named(recs, r.name);
      MarksSpare(recs[..|recs| - 1], phase, reason, r);
    }
  }

  lemma NamedLast(recs: seq<Record>, n: string)
    requires recs != []
    ensures Named(recs, n) <==> Named(recs[..|recs| - 1], n) || recs[|recs| - 1].name == n
  {
    var front := recs[..|recs| - 1];
    assert forall k :: 0 <= k < |front| ==> front[k] == recs[k];
  }

  lemma {:induction false} MarksOne(recs: seq<Record>, phase: Phase, reason: string, r: Record)
    requires Named(recs, r.name)
    ensures AfterTasks(r, Marks(recs, phase, reason)) == Mark(r, phase, reason)
  {
    var n := |recs| - 1;
    var front, t := Marks(recs[..n], phase, reason), MarkAs(recs[n].name, phase, reason);
    AfterAppend(r, front, [t]);
    NamedLast(recs, r.name);
    if Named(recs[..n], r.name) {
      MarksOne(recs[..n], phase, reason, r);
    } else {
      MarksSpare(recs[..n], phase, reason, r);
      SparedStays(r, front);
    }
    var r' := AfterTasks(r, front);
    assert AfterTasks(r', [t]) == AfterTasks(AfterTask(r', t), []);
  }

  lemma {:induction false} DeletesSpare(list: seq<ObjectInfo>, items: seq<Record>, r: Record)
    ensures Spares(r, Deletes(list, items))
  {
    hide FileName;
    if list != [] { DeletesSpare(list[..|list| - 1], items, r); }
  }

  /* ---- the plan as a whole ---- */

  function PlanMarks(list: seq<ObjectInfo>, items: seq<Record>, deleting: bool, validating: bool): seq<Task> {
    (if validating then Marks(Select(list, items, Invalid), Failed, NOT_MATCHED)
     else Marks(Select(list, items, Invalid), Completed, ""))
    + (if deleting then Marks(Select(list, items, NoObject), Failed, FILE_NOT_FOUND) else [])
    + Marks(Select(list, items, Valid), Completed, "")
  }

  lemma PlanParts(list: seq<ObjectInfo>, items: seq<Record>, deleting: bool, validating: bool)
    ensures Plan(list, items, deleting, validating) ==
      Repoints(list, Select(list, items, Valid)) + (if deleting then Deletes(list, items) else [])
      + PlanMarks(list, items, deleting, validating)
  {
    hide Repoints, Deletes, Marks, Select;
  }

  /** What the three groups of marks do to a record of class c that now reads r. */
  lemma MarksTarget(list: seq<ObjectInfo>, items: seq<Record>, deleting: bool, validating: bool, r0: Record, r: Record)
    requires DistinctNames(items) && r0 in items && r.name == r0.name
    ensures var target :=
      match ClassOf(list, r0)
      case Unfinished => r
      case Invalid => if validating then Mark(r, Failed, NOT_MATCHED) else Mark(r, Completed, "")
      case NoObject => if deleting then Mark(r, Failed, FILE_NOT_FOUND) else r
      case Valid => Mark(r, Completed, "");
            && AfterTasks(r, PlanMarks(list, items, deleting, validating)) == target
            && (target == r ==> Spares(r, PlanMarks(list, items, deleting, validating)))
  {
    hide ClassOf, FileName, FirstInfo, Marks, AfterTask, Writes;
    var invalid, missing := Select(list, items, Invalid), Select(list, items, NoObject);
    var valid := Select(list, items, Valid);
    var a := if validating then Marks(invalid, Failed, NOT_MATCHED) else Marks(invalid, Completed, "");
    var b := if deleting then Marks(missing, Failed, FILE_NOT_FOUND) else [];
    var c := Marks(valid, Completed, "");
    AfterAppend(r, a + b, c);
    AfterAppend(r, a, b);
    OwnName(list, items, r0);
    OneGroup(list, items, Invalid, r0, r, if validating then Failed else Completed,
      if validating then NOT_MATCHED else "");
    var r1 := AfterTasks(r, a);
    OneGroup(list, items, NoObject, r0, r1, Failed, FILE_NOT_FOUND);
    var r2 := AfterTasks(r1, b);
    OneGroup(list, items, Valid, r0, r2, Completed, "");
  }

  lemma OwnName(list: seq<ObjectInfo>, items: seq<Record>, r: Record)
    requires r in items
    ensures Named(Select(list, items, ClassOf(list, r)), r.name)
  {
    hide ClassOf;
    var k := OwnClass(list, items, r);
  }

  lemma OneGroup(list: seq<ObjectInfo>, items: seq<Record>, c: Class, r0: Record, r: Record, phase: Phase,
        reason: string)
    requires DistinctNames(items) && r0 in items && r.name == r0.name
    ensures var marks := Marks(Select(list, items, c), phase, reason);
            && AfterTasks(r, marks) == (if ClassOf(list, r0) == c then Mark(r, phase, reason) else r)
            && (ClassOf(list, r0) != c || r.status.phase == phase ==> Spares(r, marks))
            && AfterTasks(r, []) == r
  {
    hide ClassOf, Writes, AfterTask;
    var group := Select(list, items, c);
    if ClassOf(list, r0) == c {
      OwnName(list, items, r0);
      MarksOne(group, phase, reason, r);
      if r.status.phase == phase { MarksSpare(group, phase, reason, r); }
    } else {
      OtherClass(list, items, c, r0);
      MarksSpare(group, phase, reason, r);
      SparedStays(r, Marks(group, phase, reason));
    }
  }

  /** The plan makes of each listed record what the program decides for it. */
  lemma PlanTarget(list: seq<ObjectInfo>, items: seq<Record>, deleting: bool, validating: bool, r: Record)
    requires DistinctNames(items) && r in items
    ensures var target := Reconciled(deleting, validating, FirstInfo(list, FileName(r.name)), r);
            var plan := Plan(list, items, deleting, validating);
            AfterTasks(r, plan) == target && (target == r ==> Spares(r, plan))
  {
    hide FileName, FirstInfo, Matches, Marks, Repoints, Deletes, Select, PlanMarks, AfterTask, Writes, Plan;
    PlanParts(list, items, deleting, validating);
    var valid := Select(list, items, Valid);
    var a, b := Repoints(list, valid), if deleting then Deletes(list, items) else [];
    var c := PlanMarks(list, items, deleting, validating);
    AfterAppend(r, a + b, c);
    AfterAppend(r, a, b);
    RepointsTarget(list, items, r);
    var r1 := AfterTasks(r, a);
    DeletesSpare(list, items, r1);
    DeletesSpare(list, items, r);
    SparedStays(r1, b);
    MarksTarget(list, items, deleting, validating, r, r1);
  }

  lemma RepointsTarget(list: seq<ObjectInfo>, items: seq<Record>, r: Record)
    requires DistinctNames(items) && r in items
    ensures var first := FirstInfo(list, FileName(r.name));
            var tasks := Repoints(list, Select(list, items, Valid));
            AfterTasks(r, tasks) == Repointed(r, first) && (Repointed(r, first) == r ==> Spares(r, tasks))
  {
    hide FileName, FirstInfo, Matches, Repoints, AfterTask, Writes;
    var valid := Select(list, items, Valid);
    SelectDistinct(list, items, Valid);
    SelectMember(list, items, Valid, r);
    if ClassOf(list, r) == Valid {
      RepointsOne(list, valid, r);
      var first := FirstInfo(list, FileName(r.name));
      if Repointed(r, first) == r {
        assert r.(spec := r.spec.(objectstoreConfig := r.spec.objectstoreConfig)) == r;
        forall x | x in valid && x.name == r.name ensures x == r { OneOfName(valid, x, r); }
        RepointsSpare(list, valid, r);
      }
    } else {
      OtherClass(list, items, Valid, r);
      assert forall x :: x in valid ==> x.name != r.name;
      RepointsSpare(list, valid, r);
      SparedStays(r, Repoints(list, valid));
    }
  }

  /* ---- what tasks do to the buckets ---- */

  function Drop(buckets: map<string, BucketContents>, t: Task): map<string, BucketContents> {
    if t.DeleteObject? && t.info.bucketConfigName in buckets
      then buckets[t.info.bucketConfigName := buckets[t.info.bucketConfigName] - {t.info.name}] else buckets
  }

  function DropAll(buckets: map<string, BucketContents>, todo: seq<Task>): map<string, BucketContents>
    decreases todo
  {
    if todo == [] then buckets else DropAll(Drop(buckets, todo[0]), todo[1..])
  }

  /** Some task deletes the object of this name in this bucket. */
  predicate Dropped(todo: seq<Task>, config: string, name: string) {
    exists t :: t in todo && Hits(t, config, name)
  }

  predicate Hits(t: Task, config: string, name: string) {
    t.DeleteObject? && t.info.bucketConfigName == config && t.info.name == name
  }

  lemma {:induction false} DropAllIs(buckets: map<string, BucketContents>, todo: seq<Task>, c: string)
    requires c in buckets
    ensures DropAll(buckets, todo).Keys == buckets.Keys
    ensures DropAll(buckets, todo)[c] == map name | name in buckets[c] && !Dropped(todo, c, name) :: buckets[c][name]
    decreases todo
  {
    if todo != [] {
      var b := Drop(buckets, todo[0]);
      DropAllIs(b, todo[1..], c);
      assert todo == [todo[0]] + todo[1..];
      assert forall name :: Dropped(todo, c, name) <==> Hits(todo[0], c, name) || Dropped(todo[1..], c, name);
    }
  }

  lemma {:induction false} DeletesMember(list: seq<ObjectInfo>, items: seq<Record>, o: ObjectInfo)
    ensures DeleteObject(o) in Deletes(list, items) <==>
      o in list && forall r :: r in items ==> FileName(r.name) != o.name
  {
    hide FileName;
    if list != [] {
      var n := |list| - 1;
      DeletesMember(list[..n], items, o);
      assert list == list[..n] + [list[n]];
    }
  }

  lemma {:induction false} RepointsKeepObjects(list: seq<ObjectInfo>, valid: seq<Record>)
    ensures forall t :: t in Repoints(list, valid) ==> t.RepointTo? && Named(valid, t.name)
  {
    hide FirstInfo, FileName;
    if valid != [] {
      RepointsKeepObjects(list, valid[..|valid| - 1]);
      forall n ensures Named(valid, n) <==> Named(valid[..|valid| - 1], n) || valid[|valid| - 1].name == n {
        NamedLast(valid, n);
      }
      hide Named;
    }
  }

  lemma {:induction false} MarksKeepObjects(recs: seq<Record>, phase: Phase, reason: string)
    ensures forall t :: t in Marks(recs, phase, reason) ==> t.MarkAs? && Named(recs, t.name)
  {
    if recs != [] {
      MarksKeepObjects(recs[..|recs| - 1], phase, reason);
      forall n ensures Named(recs, n) <==> Named(recs[..|recs| - 1], n) || recs[|recs| - 1].name == n {
        NamedLast(recs, n);
      }
      hide Named;
    }
  }

  /** The plan deletes exactly the listed objects that no listed record owns, and only if asked to;
      all other tasks are about listed records. */
  lemma PlanTasks(list: seq<ObjectInfo>, items: seq<Record>, deleting: bool, validating: bool, t: Task)
    ensures t.DeleteObject? ==>
      (t in Plan(list, items, deleting, validating) <==>
        deleting && t.info in list && forall r :: r in items ==> FileName(r.name) != t.info.name)
    ensures t in Plan(list, items, deleting, validating) && !t.DeleteObject? ==> Named(items, t.name)
  {
    hide FileName, Repoints, Deletes, Marks, Select, Named;
    var valid, invalid := Select(list, items, Valid), Select(list, items, Invalid);
    var missing := Select(list, items, NoObject);
    RepointsKeepObjects(list, valid);
    MarksKeepObjects(valid, Completed, "");
    MarksKeepObjects(invalid, Failed, NOT_MATCHED);
    MarksKeepObjects(invalid, Completed, "");
    MarksKeepObjects(missing, Failed, FILE_NOT_FOUND);
    if t.DeleteObject? { DeletesMember(list, items, t.info); }
    forall x | x in Deletes(list, items) ensures x.DeleteObject? { DeletesOnly(list, items, x); }
    if !t.DeleteObject? {
      SelectNamed(list, items, Valid, t.name);
      SelectNamed(list, items, Invalid, t.name);
      SelectNamed(list, items, NoObject, t.name);
    }
  }

  lemma {:induction false} DeletesOnly(list: seq<ObjectInfo>, items: seq<Record>, t: Task)
    requires t in Deletes(list, items)
    ensures t.DeleteObject?
  {
    hide FileName;
    if t in Deletes(list[..|list| - 1], items) { DeletesOnly(list[..|list| - 1], items, t); }
  }

  lemma SelectNamed(list: seq<ObjectInfo>, items: seq<Record>, c: Class, n: string)
    ensures Named(Select(list, items, c), n) ==> Named(items, n)
  {
    hide ClassOf;
    if i :| 0 <= i < |Select(list, items, c)| && Select(list, items, c)[i].name == n {
      SelectMember(list, items, c, Select(list, items, c)[i]);
      var k :| 0 <= k < |items| && items[k] == Select(list, items, c)[i];
    }
  }

  /* ---- a sync left alone ---- */

  /** Steps of the sync and of nobody else. */
  ghost function Tasks(s: State, steps: nat): State
    decreases steps
  {
    if steps == 0 then s else Tasks(Step(s, NextTask), steps - 1)
  }

  /** The sync has these tasks left and knows all records as they are. */
  predicate Synced(s: State, todo: seq<Task>) {
    && s.syncer == Acting(s.records, todo)
    && (forall n :: n in s.records ==> s.records[n].name == n && Persisted(s.records[n]))
    && forall t :: t in todo && !t.DeleteObject? ==> t.name in s.records
  }

  /** What is left of a record after these tasks; one that they spare has not been written. */
  predicate Done(before: Record, after: Record, todo: seq<Task>) {
    SameContent(after, AfterTasks(before, todo)) && (Spares(before, todo) ==> after == before)
  }

  predicate AllDone(before: map<string, Record>, after: map<string, Record>, todo: seq<Task>) {
    after.Keys == before.Keys && forall n :: n in before ==> Done(before[n], after[n], todo)
  }

  lemma SameAfterTask(a: Record, b: Record, t: Task)
    requires SameContent(a, b)
    ensures SameContent(AfterTask(a, t), AfterTask(b, t))
  {
    assert a == b.(resourceVersion := a.resourceVersion);
  }

  lemma {:induction false} SameAfterTasks(a: Record, b: Record, todo: seq<Task>)
    requires SameContent(a, b)
    ensures SameContent(AfterTasks(a, todo), AfterTasks(b, todo))
    decreases todo
  {
    hide SameContent, AfterTask;
    if todo != [] {
      SameAfterTask(a, b, todo[0]);
      SameAfterTasks(AfterTask(a, todo[0]), AfterTask(b, todo[0]), todo[1..]);
    }
  }

  /** The records after a task on record r, at the next version. */
  function Written(records: map<string, Record>, version: nat, t: Task): map<string, Record>
    requires !t.DeleteObject? && t.name in records
  {
    var r := records[t.name];
    if Writes(r, t) then records[t.name := AfterTask(r, t).(resourceVersion := version + 1)] else records
  }

  lemma StepIs(s: State, todo: seq<Task>)
    requires Synced(s, todo) && todo != []
    ensures var t := Step(s, NextTask);
            if todo[0].DeleteObject? then
              t == s.(buckets := Drop(s.buckets, todo[0]), syncer := Acting(s.records, todo[1..]))
            else
              && todo[0].name in s.records
              && var records := Written(s.records, s.version, todo[0]);
              && t == s.(records := records, version := t.version, syncer := Acting(records, todo[1..]))
              && Drop(s.buckets, todo[0]) == s.buckets
  {
    hide Truncate;
    assert todo[0] in todo;
  }

  lemma WrittenDone(records: map<string, Record>, version: nat, t: Task)
    requires forall n :: n in records ==> records[n].name == n && Persisted(records[n])
    requires !t.DeleteObject? && t.name in records
    ensures var after := Written(records, version, t);
            && AllDone(records, after, [t])
            && forall n :: n in after ==> after[n].name == n && Persisted(after[n])
  {
    hide Truncate;
    var after := Written(records, version, t);
    forall n | n in records ensures Done(records[n], after[n], [t]) {
      OneAfter(records[n], t);
      if Writes(records[n], t) { assert t in [t]; }
    }
  }

  lemma OneAfter(r: Record, t: Task)
    ensures AfterTasks(r, [t]) == AfterTask(r, t)
  {
    assert [t][1..] == [];
    assert AfterTasks(AfterTask(r, t), []) == AfterTask(r, t);
  }

  lemma OneTask(s: State, todo: seq<Task>)
    requires Synced(s, todo) && todo != []
    ensures var t := Step(s, NextTask);
            && Synced(t, todo[1..]) && AllDone(s.records, t.records, [todo[0]])
            && t == s.(records := t.records, version := t.version, buckets := Drop(s.buckets, todo[0]),
                       syncer := Acting(t.records, todo[1..]))
  {
    StepIs(s, todo);
    hide Step, Done, Drop, Written, Persisted;
    if todo[0].DeleteObject? {
      forall n | n in s.records ensures Done(s.records[n], s.records[n], [todo[0]]) {
        DeleteDone(s.records[n], todo[0]);
      }
    } else {
      assert todo[0].name in s.records by { assert todo[0] in todo; }
      WrittenDone(s.records, s.version, todo[0]);
    }
  }

  lemma DeleteDone(r: Record, t: Task)
    requires t.DeleteObject?
    ensures Done(r, r, [t])
  {
    OneAfter(r, t);
  }

  lemma ThenDone(a: Record, b: Record, c: Record, todo: seq<Task>)
    requires todo != [] && Done(a, b, [todo[0]]) && Done(b, c, todo[1..])
    ensures Done(a, c, todo)
  {
    hide SameContent, AfterTask, Writes;
    assert todo == [todo[0]] + todo[1..];
    AfterAppend(a, [todo[0]], todo[1..]);
    SameAfterTasks(b, AfterTasks(a, [todo[0]]), todo[1..]);
    ContentTransitive(c, AfterTasks(b, todo[1..]), AfterTasks(a, todo));
  }

  lemma ContentTransitive(a: Record, b: Record, c: Record)
    requires SameContent(a, b) && SameContent(b, c)
    ensures SameContent(a, c)
  {}

  lemma {:induction false} AllTasks(s: State, todo: seq<Task>)
    requires Synced(s, todo)
    ensures var t := Tasks(s, |todo|);
            && AllDone(s.records, t.records, todo)
            && t == s.(records := t.records, version := t.version, buckets := DropAll(s.buckets, todo),
                       syncer := Acting(t.records, []))
    decreases |todo|
  {
    hide Step, Synced, Done, Drop;
    if todo == [] {
      assert Tasks(s, 0) == s;
      NothingDone(s);
    } else {
      OneTask(s, todo);
      var s' := Step(s, NextTask);
      AllTasks(s', todo[1..]);
      var t := Tasks(s', |todo| - 1);
      forall n | n in s.records ensures Done(s.records[n], t.records[n], todo) {
        ThenDone(s.records[n], s'.records[n], t.records[n], todo);
      }
    }
  }

  lemma NothingDone(s: State)
    requires Synced(s, [])
    ensures AllDone(s.records, s.records, []) && s.syncer == Acting(s.records, [])
  {}

  /* ---- listing the buckets ---- */

  /** The sync lists the buckets of these configurations in their order. */
  ghost function ListEach(s: State, configs: seq<string>, infos: seq<seq<ObjectInfo>>): State
    requires |infos| == |configs|
  {
    if configs == [] then s
    else
      var n := |configs| - 1;
      Step(ListEach(s, configs[..n], infos[..n]), ListBucket(configs[n], infos[n]))
  }

  /** Each list shows one bucket. */
  ghost predicate Shows(buckets: map<string, BucketContents>, configs: seq<string>, infos: seq<seq<ObjectInfo>>) {
    && |infos| == |configs|
    && forall k :: 0 <= k < |configs| ==>
         configs[k] in buckets && ListsObjects(infos[k], configs[k], buckets[configs[k]])
  }

  lemma {:induction false} FirstOfBucket(list: seq<ObjectInfo>, c: string, contents: BucketContents, name: string)
    requires forall o :: o in list ==> o.name in contents && o == InfoOf(c, o.name, contents[o.name])
    requires name in contents ==> InfoOf(c, name, contents[name]) in list
    ensures FirstInfo(list, name) == if name in contents then Some(InfoOf(c, name, contents[name])) else None
  {}

  lemma ListedMore(found: seq<ObjectInfo>, configs: seq<string>, buckets: map<string, BucketContents>, c: string,
        infos: seq<ObjectInfo>)
    requires Lists(found, configs, buckets) && c in buckets && ListsObjects(infos, c, buckets[c])
    ensures Lists(found + infos, configs + [c], buckets)
  {
    forall o ensures o in found + infos <==> Holds(configs + [c], buckets, o) {
      assert o in infos <==> o.bucketConfigName == c && Holds([c], buckets, o);
    }
    hide FirstInfo, FirstIn, Holds;
    forall name ensures FirstInfo(found + infos, name) == FirstIn(configs + [c], buckets, name) {
      FirstInfoAppend(found, infos, name);
      FirstInStep(configs, c, buckets, name);
      FirstOfBucket(infos, c, buckets[c], name);
    }
  }

  lemma {:induction false} EachListed(s: State, configs: seq<string>, infos: seq<seq<ObjectInfo>>)
    requires Shows(s.buckets, configs, infos) && s.syncer.Listing? && s.syncer.found == []
    ensures var t := ListEach(s, configs, infos);
            t.syncer.Listing? && t == s.(syncer := s.syncer.(found := t.syncer.found)) &&
              Lists(t.syncer.found, configs, s.buckets)
  {
    hide ListsObjects;
    if configs == [] {
      assert Lists([], [], s.buckets);
    } else {
      var n := |configs| - 1;
      EachListed(s, configs[..n], infos[..n]);
      var t := ListEach(s, configs[..n], infos[..n]);
      ListedMore(t.syncer.found, configs[..n], s.buckets, configs[n], infos[n]);
      assert configs == configs[..n] + [configs[n]];
      hide Lists;
    }
  }

  /* ---- the two models agree ---- */

  lemma PlanSettles(configs: seq<string>, found: seq<ObjectInfo>, items: seq<Record>, deleting: bool, validating: bool,
        buckets: map<string, BucketContents>, before: map<string, Record>, after: map<string, Record>)
    requires Lists(found, configs, buckets) && ListsAll(items, before)
    requires forall n :: n in before ==> before[n].name == n
    requires AllDone(before, after, Plan(found, items, deleting, validating))
    ensures SyncedRecords(configs, deleting, validating, buckets, before, after)
  {
    hide Plan, Reconciled, FileName, FirstInfo, FirstIn, Holds, AfterTasks, Spares, SameContent;
    forall n | n in before
      ensures n in after && Settled(before[n], after[n],
        Reconciled(deleting, validating, FirstIn(configs, buckets, FileName(n)), before[n]))
    {
      assert before[n] in items;
      PlanTarget(found, items, deleting, validating, before[n]);
    }
  }

  lemma PlanDrops(configs: seq<string>, found: seq<ObjectInfo>, items: seq<Record>, deleting: bool, validating: bool,
        buckets: map<string, BucketContents>, records: map<string, Record>)
    requires Lists(found, configs, buckets) && ListsAll(items, records)
    requires forall n :: n in records ==> records[n].name == n
    ensures SyncedBuckets(configs, deleting, records, buckets,
      DropAll(buckets, Plan(found, items, deleting, validating)))
  {
    hide Plan, FileName, FirstInfo, FirstIn;
    var plan := Plan(found, items, deleting, validating);
    forall c | c in buckets
      ensures DropAll(buckets, plan).Keys == buckets.Keys
      ensures DropAll(buckets, plan)[c] == if deleting && c in configs then Owned(records, buckets[c]) else buckets[c]
    {
      DropAllIs(buckets, plan, c);
      forall name | name in buckets[c]
        ensures Dropped(plan, c, name) <==> deleting && c in configs && !HasRecord(records, name)
      {
        PlanDropsOne(configs, found, items, deleting, validating, buckets, records, c, name);
      }
    }
    assert DropAll(buckets, plan).Keys == buckets.Keys by { DropKeys(buckets, plan); }
  }

  lemma {:induction false} DropKeys(buckets: map<string, BucketContents>, todo: seq<Task>)
    ensures DropAll(buckets, todo).Keys == buckets.Keys
    decreases todo
  {
    if todo != [] { DropKeys(Drop(buckets, todo[0]), todo[1..]); }
  }

  lemma PlanDropsOne(configs: seq<string>, found: seq<ObjectInfo>, items: seq<Record>, deleting: bool,
        validating: bool, buckets: map<string, BucketContents>, records: map<string, Record>, c: string, name: string)
    requires Lists(found, configs, buckets) && ListsAll(items, records)
    requires forall n :: n in records ==> records[n].name == n
    requires c in buckets && name in buckets[c]
    ensures Dropped(Plan(found, items, deleting, validating), c, name) <==>
      deleting && c in configs && !HasRecord(records, name)
  {
    hide Plan, FileName, FirstInfo, FirstIn;
    var plan, o := Plan(found, items, deleting, validating), InfoOf(c, name, buckets[c][name]);
    assert o in found <==> c in configs;
    assert forall n :: n in records ==> records[n] in items;
    assert HasRecord(records, name) <==> exists r :: r in items && FileName(r.name) == name by {
      if n :| n in records && FileName(n) == name { assert records[n] in items; }
    }
    PlanTasks(found, items, deleting, validating, DeleteObject(o));
    if t :| t in plan && Hits(t, c, name) {
      PlanTasks(found, items, deleting, validating, t);
      assert t.info in found;
    }
    if DeleteObject(o) in plan { assert Hits(DeleteObject(o), c, name); }
  }

  lemma PlanIsAimed(found: seq<ObjectInfo>, items: seq<Record>, deleting: bool, validating: bool,
        records: map<string, Record>)
    requires ListsAll(items, records)
    ensures forall t :: t in Plan(found, items, deleting, validating) && !t.DeleteObject? ==> t.name in records
  {
    hide Plan;
    forall t | t in Plan(found, items, deleting, validating) && !t.DeleteObject? ensures t.name in records {
      PlanTasks(found, items, deleting, validating, t);
      var i :| 0 <= i < |items| && items[i].name == t.name;
      assert items[i] in items;
    }
  }

  lemma {:induction false} LastStep(s: State, steps: nat)
    ensures Tasks(s, steps + 1) == Step(Tasks(s, steps), NextTask)
    decreases steps
  {
    hide Step;
    if steps > 0 { LastStep(Step(s, NextTask), steps - 1); }
  }

  lemma ListPhase(s: State, configs: seq<string>, infos: seq<seq<ObjectInfo>>, items: seq<Record>, deleting: bool,
        validating: bool)
    returns (found: seq<ObjectInfo>)
    requires s.syncer.Idle? && (deleting || validating) && Shows(s.buckets, configs, infos)
    requires ListsAll(items, s.records)
    ensures Lists(found, configs, s.buckets)
    ensures Step(ListEach(Step(s, BeginSync(deleting, validating)), configs, infos), ListRecords(items)) ==
      s.(syncer := Acting(s.records, Plan(found, items, deleting, validating)))
  {
    var s1 := Step(s, BeginSync(deleting, validating));
    assert s1 == s.(syncer := Listing([], deleting, validating));
    EachListed(s1, configs, infos);
    var s2 := ListEach(s1, configs, infos);
    found := s2.syncer.found;
    hide Plan, Lists, Shows, ListEach;
  }

  lemma WorkOff(s: State, plan: seq<Task>)
    requires Synced(s, plan)
    ensures var t := Tasks(s, |plan| + 1);
            && AllDone(s.records, t.records, plan)
            && t == s.(records := t.records, version := t.version, buckets := DropAll(s.buckets, plan), syncer := Idle)
  {
    AllTasks(s, plan);
    LastStep(s, |plan|);
    var t := Tasks(s, |plan|);
    hide AllDone, Tasks, DropAll, Synced;
    assert Step(t, NextTask) == t.(syncer := Idle);
  }

  /** The agreement of the two models: left alone, a sync of the machine that lists the buckets and
      the records and works off its plan ends with records and buckets that a whole sync without
      restoring prescribes, and changes nothing else. */
  lemma UndisturbedSync(s: State, configs: seq<string>, infos: seq<seq<ObjectInfo>>, items: seq<Record>,
        deleting: bool, validating: bool, now: Time)
    returns (steps: nat)
    requires s.syncer.Idle? && (deleting || validating) && Shows(s.buckets, configs, infos)
    requires ListsAll(items, s.records)
    requires forall n :: n in s.records ==> s.records[n].name == n && Persisted(s.records[n])
    ensures var listed := ListEach(Step(s, BeginSync(deleting, validating)), configs, infos);
            var t := Tasks(Step(listed, ListRecords(items)), steps);
            && SyncRun(configs, deleting, false, validating, now, s.records, s.buckets, t.records, t.buckets)
            && t == s.(records := t.records, version := t.version, buckets := t.buckets)
  {
    var found := ListPhase(s, configs, infos, items, deleting, validating);
    var plan := Plan(found, items, deleting, validating);
    var s3 := s.(syncer := Acting(s.records, plan));
    PlanIsAimed(found, items, deleting, validating, s.records);
    hide Plan, Done, Lists, Shows, Step, ListEach, Tasks, Persisted, ListsAll, DropAll, SyncedRecords, SyncedBuckets;
    WorkOff(s3, plan);
    var t := Tasks(s3, |plan| + 1);
    PlanSettles(configs, found, items, deleting, validating, s.buckets, s.records, t.records);
    PlanDrops(configs, found, items, deleting, validating, s.buckets, s.records);
    steps := |plan| + 1;
  }

  /* ---- deleting a record ---- */

  /** When a record has been deleted and the event of it handled, both the record and its object in
      its bucket are gone; every other record and object is as it was. */
  lemma DeletionRemovesObject(s: State, n: string)
    requires n in s.records
    ensures var config := s.records[n].spec.objectstoreConfig;
            var t := Step(Step(s, DeleteRecord(n)), HandleDeletion(Deletion(n, config)));
            && t == s.(records := t.records, buckets := t.buckets, deletions := s.deletions - {Deletion(n, config)})
            && t.records == s.records - {n} && t.buckets.Keys == s.buckets.Keys
            && forall c :: c in s.buckets ==>
                 t.buckets[c] == if c == config then s.buckets[c] - {n + ".tgz"} else s.buckets[c]
  {
    var d := Deletion(n, s.records[n].spec.objectstoreConfig);
    assert s.deletions + {d} - {d} == s.deletions - {d};
  }
}
