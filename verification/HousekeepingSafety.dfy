/** What every run of the housekeeping machine keeps: the object of a live record is never deleted,
    and every Completed record has an object that matches it. */
module HousekeepingSafety {
  import opened Text
  import opened Records
  import opened Reconciliation
  import opened ObjectSyncer
  import opened SnapshotHandler
  import opened Housekeeping
  import opened HousekeepingNames

  /* ---- what is known about a stored file, a record, a copy of a record ---- */

  /** The record knows of a stored file. */
  predicate HasFile(r: Record) { Truncate(r.status.storedTimestamp) != 0 }

  predicate SameFile(a: Record, b: Record) {
    a.status.storedFileSize == b.status.storedFileSize &&
      Truncate(a.status.storedTimestamp) == Truncate(b.status.storedTimestamp)
  }

  /** Some bucket holds the file that the record describes. */
  predicate Backed(buckets: map<string, BucketContents>, r: Record) {
    exists c :: c in buckets && HoldsFile(buckets[c], r)
  }

  predicate HoldsFile(contents: BucketContents, r: Record) {
    var name := FileName(r.name);
    name in contents && contents[name].size == r.status.storedFileSize &&
      Truncate(contents[name].timestamp) == Truncate(r.status.storedTimestamp)
  }

  /** A record, or a copy of one, that a finished phase and a file go together in. */
  predicate Coherent(r: Record) {
    (HasFile(r) ==> Terminal(r)) && (r.status.phase.Completed? ==> HasFile(r))
  }

  predicate RecordOk(s: State, n: string)
    requires n in s.records
  {
    var r := s.records[n];
    && r.name == n && n in s.used && r.resourceVersion <= s.version && Persisted(r) && Coherent(r)
    && (HasFile(r) ==> Backed(s.buckets, r))
  }

  /** A copy that was current when it was read: if the stored version is still its version it is
      current now, and what it knows of a file is still what the record says. */
  predicate CopyOk(s: State, c: Record) {
    && c.name in s.used && c.resourceVersion <= s.version && Coherent(c)
    && (c.name in s.records ==>
          && (s.records[c.name].resourceVersion == c.resourceVersion ==> s.records[c.name] == c)
          && (HasFile(c) ==> SameFile(s.records[c.name], c)))
  }

  predicate Working(stage: Stage) { stage.Taking? || stage.Sending? || stage.Completing? }

  predicate WorkerOk(s: State, n: string, w: Worker) {
    && w.base.name == w.local.name == n && CopyOk(s, w.base)
    && w.local.resourceVersion == w.base.resourceVersion && w.local.status.phase == w.base.status.phase
    && (!w.stage.Completing? ==> SameFile(w.local, w.base))
    && (Working(w.stage) ==>
         w.base.status.phase.InProgress? && (n in s.records ==> s.records[n].status.phase.InProgress?))
    && (w.stage.Completing? ==> HasFile(w.local) && (n in s.records ==> Backed(s.buckets, w.local)))
  }

  predicate InfoOk(s: State, o: ObjectInfo) {
    Truncate(o.timestamp) != 0 && NameUsed(s.used, o.name)
  }

  predicate TaskOk(s: State, copies: map<string, Record>, t: Task) {
    match t
    case DeleteObject(o) => Dead(s, o.name)
    case RepointTo(n, _) => n in copies && Terminal(copies[n])
    case MarkAs(n, phase, _) =>
      n in copies && Terminal(copies[n]) && (phase.Failed? || (phase.Completed? && HasFile(copies[n])))
  }

  predicate CopiesOk(s: State, copies: map<string, Record>) {
    forall n :: n in copies ==> copies[n].name == n && CopyOk(s, copies[n])
  }

  predicate SyncerOk(s: State) {
    match s.syncer
    case Idle => true
    case Listing(found, _, validating) => validating && forall o :: o in found ==> InfoOk(s, o)
    case Acting(copies, todo) =>
      && CopiesOk(s, copies)
      && (forall k :: 0 <= k < |todo| ==> TaskOk(s, copies, todo[k]))
  }

  predicate RecordsOk(s: State) { forall n :: n in s.records ==> RecordOk(s, n) }

  predicate WorkersOk(s: State) { forall n :: n in s.workers ==> WorkerOk(s, n, s.workers[n]) }

  predicate BucketOk(used: set<string>, contents: BucketContents) {
    forall name :: name in contents ==> Dated(contents[name]) && NameUsed(used, name)
  }

  predicate ObjectsOk(s: State) {
    forall c :: c in s.buckets ==> BucketOk(s.used, s.buckets[c])
  }

  predicate DeletionsOk(s: State) {
    forall d :: d in s.deletions ==> d.name in s.used && d.name !in s.records
  }

  predicate Inv(s: State) {
    RecordsOk(s) && WorkersOk(s) && ObjectsOk(s) && DeletionsOk(s) && SyncerOk(s)
  }

  /* ---- how a step may change what others rely on ---- */

  /** Names are never taken back, versions grow, a used name that is gone stays gone, a record
      under the same version is the same record and keeps its file, and the objects of live
      records stay. Only the pass over `actor` may move its record on or replace its object. */
  predicate Evolves(s: State, t: State, actor: Option<string>) {
    && s.used <= t.used && s.version <= t.version
    && (forall n :: n in t.records && n in s.used ==>
         n in s.records && Follows(s, s.records[n], t.records[n], actor != Some(n)))
    && (forall n :: n in t.records && n in s.used && actor != Some(n) ==>
         KeepsObjects(s.buckets, t.buckets, FileName(n)))
    && (forall c :: c in s.buckets ==> c in t.buckets)
  }

  /** r' is r or was written over it. */
  predicate Follows(s: State, r: Record, r': Record, bystander: bool) {
    && (r'.resourceVersion > s.version || r' == r)
    && (HasFile(r) ==> SameFile(r', r))
    && (bystander && r.status.phase.InProgress? ==> r'.status.phase.InProgress?)
  }

  predicate KeepsObjects(before: map<string, BucketContents>, after: map<string, BucketContents>, name: string) {
    forall c :: c in before && name in before[c] ==> c in after && name in after[c] && after[c][name] == before[c][name]
  }

  lemma BackedStays(before: map<string, BucketContents>, after: map<string, BucketContents>, r: Record)
    requires KeepsObjects(before, after, FileName(r.name)) && Backed(before, r)
    ensures Backed(after, r)
  {
    var c :| c in before && HoldsFile(before[c], r);
    assert HoldsFile(after[c], r);
  }

  lemma BackedAs(buckets: map<string, BucketContents>, a: Record, b: Record)
    requires Backed(buckets, a) && SameFile(a, b) && a.name == b.name
    ensures Backed(buckets, b)
  {
    var c :| c in buckets && HoldsFile(buckets[c], a);
    assert HoldsFile(buckets[c], b);
  }

  lemma CopyStays(s: State, t: State, actor: Option<string>, c: Record)
    requires Evolves(s, t, actor) && CopyOk(s, c)
    ensures CopyOk(t, c)
  {
    hide Coherent, HasFile, SameFile, KeepsObjects;
    if c.name in t.records {
      assert Follows(s, s.records[c.name], t.records[c.name], actor != Some(c.name));
      FileChain(s.records[c.name], t.records[c.name], c);
    }
  }

  lemma FileChain(r: Record, r': Record, c: Record)
    ensures HasFile(c) && SameFile(r, c) ==> HasFile(r)
    ensures SameFile(r', r) && SameFile(r, c) ==> SameFile(r', c)
  {
    hide Truncate;
  }

  lemma DeadStays(s: State, t: State, actor: Option<string>, name: string)
    requires Evolves(s, t, actor) && Dead(s, name)
    ensures Dead(t, name)
  {
    hide KeepsObjects, Follows;
    NameStays(s.used, t.used, name);
    var m :| m in s.used && FileName(m) == name;
    forall n | n in t.records ensures FileName(n) != name {
      FileNameInjective(m, n);
    }
  }

  /** A pass that does not act keeps what it relies on. */
  lemma WorkerStays(s: State, t: State, actor: Option<string>, n: string, w: Worker)
    requires Evolves(s, t, actor) && WorkerOk(s, n, w) && actor != Some(n)
    ensures WorkerOk(t, n, w)
  {
    CopyStays(s, t, actor, w.base);
    hide CopyOk, HasFile, SameFile, FileName, Backed, KeepsObjects;
    if n in t.records {
      assert n in s.used by { CopyName(s, w.base); }
      assert Follows(s, s.records[n], t.records[n], true);
      if w.stage.Completing? { BackedStays(s.buckets, t.buckets, w.local); }
    }
  }

  lemma CopyName(s: State, c: Record)
    requires CopyOk(s, c)
    ensures c.name in s.used && c.resourceVersion <= s.version
  {}

  lemma SyncerStays(s: State, t: State, actor: Option<string>)
    requires Evolves(s, t, actor) && SyncerOk(s) && t.syncer == s.syncer
    ensures SyncerOk(t)
  {
    hide Evolves, CopyOk, Dead, NameUsed, HasFile;
    match s.syncer
    case Idle =>
    case Listing(found, _, _) =>
      forall o | o in found
        ensures InfoOk(t, o)
      {
        assert InfoOk(s, o);
        NameStays(s.used, t.used, o.name) by { EvolvesUsed(s, t, actor); }
      }
    case Acting(copies, todo) =>
      forall n | n in copies ensures copies[n].name == n && CopyOk(t, copies[n]) { CopyStays(s, t, actor, copies[n]); }
      forall k | 0 <= k < |todo| ensures TaskOk(t, copies, todo[k]) {
        assert TaskOk(s, copies, todo[k]);
        if todo[k].DeleteObject? { DeadStays(s, t, actor, todo[k].info.name); }
      }
  }

  lemma EvolvesUsed(s: State, t: State, actor: Option<string>)
    requires Evolves(s, t, actor)
    ensures s.used <= t.used
  {}

  lemma OthersStay(s: State, t: State, actor: Option<string>)
    requires WorkersOk(s) && Evolves(s, t, actor)
    ensures forall n :: n in s.workers && actor != Some(n) ==> WorkerOk(t, n, s.workers[n])
  {
    hide Evolves, WorkerOk;
    forall n | n in s.workers && actor != Some(n) ensures WorkerOk(t, n, s.workers[n]) {
      WorkerStays(s, t, actor, n, s.workers[n]);
    }
  }

  /** The objects of t are objects of s, under names still used, or dated ones under used names. */
  lemma ObjectsKept(s: State, t: State)
    requires ObjectsOk(s) && s.used <= t.used
    requires forall c :: c in t.buckets ==> c in s.buckets && forall name :: name in t.buckets[c] ==>
      (name in s.buckets[c] && s.buckets[c][name] == t.buckets[c][name]) ||
        (Dated(t.buckets[c][name]) && NameUsed(t.used, name))
    ensures ObjectsOk(t)
  {
    forall c | c in t.buckets ensures BucketOk(t.used, t.buckets[c]) {
      assert BucketOk(s.used, s.buckets[c]);
      forall name | name in t.buckets[c] ensures Dated(t.buckets[c][name]) && NameUsed(t.used, name) {
        if name in s.buckets[c] && s.buckets[c][name] == t.buckets[c][name] {
          NameStays(s.used, t.used, name);
        }
      }
    }
  }

  /** Only the actor's pass, or the syncer's own state, has changed. */
  lemma SharedUnchanged(s: State, t: State, actor: Option<string>)
    requires Inv(s) && t.records == s.records && t.version == s.version && t.buckets == s.buckets && t.used == s.used
    requires t.deletions <= s.deletions
    ensures Evolves(s, t, actor) && RecordsOk(t) && ObjectsOk(t) && DeletionsOk(t)
  {
    ObjectsKept(s, t);
    hide FileName, NameUsed, Backed, Coherent, Persisted;
    forall n | n in t.records ensures RecordOk(t, n) && Follows(s, s.records[n], t.records[n], actor != Some(n)) {
      assert RecordOk(s, n);
    }
  }

  /* ---- writing a record ---- */

  lemma StoredAs(s: State, r: Record)
    requires r.name in s.records
    ensures var st := Stored(s, r);
            && st.name == r.name && st.status.phase == r.status.phase && st.resourceVersion == s.version + 1
            && SameFile(st, r) && (Coherent(st) <==> Coherent(r)) && (HasFile(st) <==> HasFile(r))
            && (Persisted(s.records[r.name]) ==> Persisted(st))
  {
    TruncateOnce(r.status.storedTimestamp);
    TruncateOnce(r.spec.availableUntil);
    TruncateOnce(r.status.snapshotTimestamp);
    TruncateOnce(r.status.availableUntil);
  }

  /** A write that keeps what is known of the file, or adds a file that is there. */
  predicate Writable(s: State, r: Record, actor: Option<string>) {
    && r.name in s.records && Coherent(r)
    && (HasFile(s.records[r.name]) ==> SameFile(r, s.records[r.name]))
    && (HasFile(r) ==> SameFile(r, s.records[r.name]) || Backed(s.buckets, r))
    && (actor != Some(r.name) && s.records[r.name].status.phase.InProgress? ==> r.status.phase.InProgress?)
  }

  lemma WriteKeeps(s: State, r: Record, actor: Option<string>)
    requires Inv(s) && Writable(s, r, actor)
    ensures var t := WriteRecord(s, r);
            && Evolves(s, t, actor) && RecordsOk(t) && ObjectsOk(t) && DeletionsOk(t) && CopyOk(t, Stored(s, r))
  {
    hide FileName, NameUsed, Backed, Persisted, SameFile, HasFile, Coherent, Stored, KeepsObjects;
    var t, old', st := WriteRecord(s, r), s.records[r.name], Stored(s, r);
    ObjectsKept(s, t);
    StoredAs(s, r);
    assert RecordOk(s, r.name);
    FileChain(r, st, old');
    SameFileSymmetric(st, r);
    SameFileSymmetric(r, old');
    if HasFile(r) {
      if SameFile(r, old') {
        FileChain(old', r, r);
        FileChain(r, old', r);
        SameFileReflexive(r);
        BackedAs(s.buckets, old', r);
      }
      BackedAs(s.buckets, r, st);
    }
    forall n | n in t.records ensures RecordOk(t, n) && Follows(s, s.records[n], t.records[n], actor != Some(n)) {
      assert RecordOk(s, n);
      SameFileReflexive(s.records[n]);
    }
    KeptObjects(s.buckets);
    SameFileReflexive(st);
  }

  lemma SameFileReflexive(a: Record)
    ensures SameFile(a, a)
  {}

  lemma SameFileSymmetric(a: Record, b: Record)
    ensures SameFile(a, b) <==> SameFile(b, a)
  {}

  lemma KeptObjects(buckets: map<string, BucketContents>)
    ensures forall name :: KeepsObjects(buckets, buckets, name)
  {}

  /* ---- records and objects that go ---- */

  lemma RemoveKeeps(s: State, name: string, actor: Option<string>)
    requires Inv(s)
    ensures var t := RemoveRecord(s, name);
            Evolves(s, t, actor) && RecordsOk(t) && ObjectsOk(t) && DeletionsOk(t)
  {
    hide FileName, NameUsed, Backed, Persisted, SameFile, HasFile, Coherent, KeepsObjects;
    var t := RemoveRecord(s, name);
    KeptObjects(s.buckets);
    forall n | n in t.records ensures RecordOk(t, n) && Follows(s, s.records[n], t.records[n], actor != Some(n)) {
      assert RecordOk(s, n);
      SameFileReflexive(s.records[n]);
    }
    if name in s.records { assert RecordOk(s, name); }
  }

  lemma RemoveObjectKeeps(s: State, config: string, objectName: string)
    requires Inv(s) && Dead(s, objectName)
    ensures var t := RemoveObject(s, config, objectName);
            Evolves(s, t, None) && RecordsOk(t) && ObjectsOk(t) && DeletionsOk(t)
  {
    hide FileName, NameUsed, Backed, Persisted, SameFile, HasFile, Coherent;
    var t := RemoveObject(s, config, objectName);
    ObjectsKept(s, t);
    forall n | n in t.records ensures KeepsObjects(s.buckets, t.buckets, FileName(n)) {
      assert FileName(n) != objectName;
    }
    forall n | n in t.records ensures RecordOk(t, n) && Follows(s, s.records[n], t.records[n], true) {
      assert RecordOk(s, n);
      SameFileReflexive(s.records[n]);
      if HasFile(s.records[n]) { BackedStays(s.buckets, t.buckets, s.records[n]); }
    }
  }

  /** The pass over n stores an object while its record, if it is still there, is in progress. */
  lemma PutObjectKeeps(s: State, config: string, n: string, o: StoredObject)
    requires Inv(s) && config in s.buckets && n in s.used && Dated(o)
    requires n in s.records ==> s.records[n].status.phase.InProgress?
    ensures var t := PutObject(s, config, FileName(n), o);
            Evolves(s, t, Some(n)) && RecordsOk(t) && ObjectsOk(t) && DeletionsOk(t)
  {
    hide FileName, Backed, Persisted, SameFile;
    var t := PutObject(s, config, FileName(n), o);
    assert NameUsed(t.used, FileName(n));
    hide NameUsed, HasFile;
    ObjectsKept(s, t);
    forall m | m in t.records && m != n ensures KeepsObjects(s.buckets, t.buckets, FileName(m)) {
      FileNameInjective(m, n);
    }
    forall m | m in t.records ensures RecordOk(t, m) && Follows(s, s.records[m], t.records[m], m != n) {
      assert RecordOk(s, m);
      SameFileReflexive(s.records[m]);
      if HasFile(s.records[m]) { BackedStays(s.buckets, t.buckets, s.records[m]); }
    }
  }

  /* ---- putting a step together ---- */

  /** t' is t up to passes and syncer. */
  predicate SameWorld(t: State, t': State) {
    t'.records == t.records && t'.version == t.version && t'.buckets == t.buckets && t'.used == t.used &&
      t'.deletions == t.deletions
  }

  predicate WorldOk(s: State, t: State, actor: Option<string>) {
    Evolves(s, t, actor) && RecordsOk(t) && ObjectsOk(t) && DeletionsOk(t)
  }

  lemma WorldStays(s: State, t: State, t': State, actor: Option<string>)
    requires WorldOk(s, t, actor) && SameWorld(t, t')
    ensures WorldOk(s, t', actor)
  {
    hide Follows, KeepsObjects, FileName, Coherent, Persisted, Backed, HasFile, BucketOk;
    forall n | n in t'.records ensures RecordOk(t', n) { assert RecordOk(t, n); }
  }

  lemma CopySame(t: State, t': State, c: Record)
    requires SameWorld(t, t') && CopyOk(t, c)
    ensures CopyOk(t', c)
  {}

  /** The workers that are not the actor's are as they were. */
  predicate OnlyActor(s: State, t: State, n: string) {
    forall m :: m in t.workers && m != n ==> m in s.workers && t.workers[m] == s.workers[m]
  }

  lemma InvAfter(s: State, t: State, n: string)
    requires Inv(s) && WorldOk(s, t, Some(n)) && t.syncer == s.syncer && OnlyActor(s, t, n)
    requires n in t.workers ==> WorkerOk(t, n, t.workers[n])
    ensures Inv(t)
  {
    hide Evolves, RecordsOk, ObjectsOk, DeletionsOk, WorkerOk, TaskOk, CopiesOk, InfoOk;
    OthersStay(s, t, Some(n));
    SyncerStays(s, t, Some(n));
  }

  lemma InvAfterSync(s: State, t: State)
    requires Inv(s) && WorldOk(s, t, None) && t.workers == s.workers && SyncerOk(t)
    ensures Inv(t)
  {
    hide Evolves, RecordsOk, ObjectsOk, DeletionsOk, WorkerOk, SyncerOk;
    OthersStay(s, t, None);
  }

  /* ---- steps of a pass ---- */

  /** What a pass may try to write. */
  predicate Attemptable(s: State, w: Worker, r: Record) {
    && r.name == w.base.name && r.resourceVersion == w.base.resourceVersion && Coherent(r)
    && (HasFile(w.base) ==> SameFile(r, w.base))
    && (HasFile(r) ==> SameFile(r, w.base) || (r.name in s.records ==> Backed(s.buckets, r)))
  }

  lemma AttemptKeeps(s: State, n: string, w: Worker, r: Record, next: Option<Stage>)
    requires Inv(s) && n in s.workers && WorkerOk(s, n, w) && Attemptable(s, w, r)
    requires next.Some? && Working(next.value) ==> next.value.Taking? && r.status.phase.InProgress?
    ensures Inv(Attempt(s, w, r, next))
  {
    hide Inv, FileName, HasFile, SameFile, Coherent, Backed, Stored, Evolves, RecordsOk, ObjectsOk, DeletionsOk;
    var t := Attempt(s, w, r, next);
    if UpToDate(s, r) {
      assert s.records[n] == w.base;
      assert Writable(s, r, Some(n));
      WriteKeeps(s, r, Some(n));
      WorldStays(s, WriteRecord(s, r), t, Some(n));
      if next.Some? {
        StoredAs(s, r);
        CopySame(WriteRecord(s, r), t, Stored(s, r));
        SameFileReflexive(Stored(s, r));
      }
    } else {
      SharedUnchanged(s, t, Some(n));
    }
    InvAfter(s, t, n);
  }

  lemma MoveKeeps(s: State, n: string, w: Worker, w': Worker, next: Option<Stage>)
    requires Inv(s) && n in s.workers && WorkerOk(s, n, w)
    requires w'.base == w.base && w'.local.name == n && w'.local.resourceVersion == w.local.resourceVersion
    requires w'.local.status.phase == w.local.status.phase && SameFile(w'.local, w.local)
    requires !w.stage.Completing?
    requires (next.Some? ==> !next.value.Completing? && (Working(next.value) ==> Working(w.stage)))
    ensures Inv(Move(s, w', next))
  {
    hide Inv, FileName, HasFile, Coherent, Backed, Evolves, RecordsOk, ObjectsOk, DeletionsOk;
    var t := Move(s, w', next);
    SharedUnchanged(s, t, Some(n));
    CopySame(s, t.(deletions := s.deletions), w.base);
    InvAfter(s, t, n);
  }

  lemma LifeStepKeeps(w: Worker, e: Event)
    requires Closing(w.stage)
    ensures var q := LifeStep(w.stage, LifeOf(w.local), e);
            && (q.writes != [] ==> SameFile(WithLife(w.local, q.life), w.local))
            && (q.writes != [] && Coherent(w.local) ==> Coherent(WithLife(w.local, q.life)))
            && WithLife(w.local, q.life).name == w.local.name &&
                 WithLife(w.local, q.life).resourceVersion == w.local.resourceVersion
  {
    hide Truncate;
  }

  lemma CloseStepKeeps(s: State, n: string, e: Event)
    requires Inv(s) && n in s.workers && Closing(s.workers[n].stage)
    ensures Inv(CloseStep(s, s.workers[n], e))
  {
    var w := s.workers[n];
    assert WorkerOk(s, n, w);
    hide Inv, FileName, Backed, Evolves, RecordsOk, ObjectsOk, DeletionsOk, LifeStep, WithLife, Truncate, Attempt,
      Move, RemoveRecord;
    var q := LifeStep(w.stage, LifeOf(w.local), e);
    LifeStepKeeps(w, e);
    if q.progress.Gone? {
      var t := CloseStep(s, w, e);
      RemoveKeeps(s, n, Some(n));
      WorldStays(s, RemoveRecord(s, n), t, Some(n));
      InvAfter(s, t, n) by { RemoveOnly(s, n); }
    } else if q.writes == [] {
      SameFileReflexive(w.local);
      MoveKeeps(s, n, w, w, After(w.stage));
    } else {
      var r := WithLife(w.local, q.life);
      assert Attemptable(s, w, r);
      AttemptKeeps(s, n, w, r, if q.progress.Ended? then None else After(w.stage));
    }
  }

  lemma RemoveOnly(s: State, n: string)
    ensures var t := RemoveRecord(s, n); t.workers == s.workers && t.syncer == s.syncer
  {}

  lemma LocalCoherent(s: State, n: string, w: Worker)
    requires WorkerOk(s, n, w) && !w.stage.Completing?
    ensures Coherent(w.local) && (HasFile(w.local) <==> HasFile(w.base)) && SameFile(w.local, w.base)
    ensures w.local.name == w.base.name == n && w.local.resourceVersion == w.base.resourceVersion
    ensures w.local.status.phase == w.base.status.phase
  {}

  /** An unfinished record may be given any phase but Completed. */
  lemma UnfinishedAttempt(s: State, n: string, w: Worker, phase: Phase, reason: string)
    requires WorkerOk(s, n, w) && !w.stage.Completing? && !Terminal(w.local) && !phase.Completed?
    ensures Attemptable(s, w, WithPhase(w.local, phase, reason))
  {
    LocalCoherent(s, n, w);
    hide Truncate, Backed;
  }

  lemma SendStepKeeps(s: State, n: string, e: Event)
    requires Inv(s) && n in s.workers && s.workers[n].stage.Sending?
    ensures Inv(SendStep(s, s.workers[n], e))
  {
    var w := s.workers[n];
    assert WorkerOk(s, n, w);
    CopyName(s, w.base);
    var cfg := w.local.spec.objectstoreConfig;
    match e.sent
    case SendFails =>
      UnfinishedAttempt(s, n, w, Failed, e.error);
      AttemptKeeps(s, n, w, WithPhase(w.local, Failed, e.error), None);
    case Resend(o) =>
      if cfg in s.buckets && Dated(o) {
        StoreKeeps(s, n, w, o, w);
        assert s.workers[n := w] == s.workers;
      }
    case SendSucceeds(o) =>
      if cfg in s.buckets && Dated(o) {
        StoreKeeps(s, n, w, o, w.(local := SentRecord(w.local, Sent(o.size, o.timestamp)), stage := Completing));
      }
  }

  lemma StoreKeeps(s: State, n: string, w: Worker, o: StoredObject, w': Worker)
    requires Inv(s) && n in s.workers && WorkerOk(s, n, w) && w.stage.Sending?
    requires w.local.spec.objectstoreConfig in s.buckets && Dated(o)
    requires w' == w || w' == w.(local := SentRecord(w.local, Sent(o.size, o.timestamp)), stage := Completing)
    ensures Inv(PutObject(s, w.local.spec.objectstoreConfig, FileName(n), o).(workers := s.workers[n := w']))
  {
    hide Inv, Evolves, RecordsOk, ObjectsOk, DeletionsOk, Truncate, FileName;
    var cfg := w.local.spec.objectstoreConfig;
    var t := PutObject(s, cfg, FileName(n), o);
    var t' := t.(workers := s.workers[n := w']);
    PutObjectKeeps(s, cfg, n, o);
    WorldStays(s, t, t', Some(n));
    CopyStays(s, t', Some(n), w.base);
    if w'.stage.Completing? {
      assert HoldsFile(t'.buckets[cfg], w'.local);
    }
    InvAfter(s, t', n);
  }

  lemma CompleteKeeps(s: State, n: string, e: Event)
    requires Inv(s) && n in s.workers && s.workers[n].stage.Completing?
    ensures Inv(WorkerStep(s, s.workers[n], e))
  {
    var w := s.workers[n];
    assert WorkerOk(s, n, w);
    var r := WithPhase(w.local, Completed, "");
    if n in s.records {
      BackedAs(s.buckets, w.local, r) by { SameFileReflexive(w.local); }
    }
    assert !HasFile(w.base) by { assert Coherent(w.base); }
    AttemptKeeps(s, n, w, r, Some(Initializing));
  }

  lemma WorkerStepKeeps(s: State, n: string, e: Event)
    requires Inv(s) && n in s.workers
    ensures Inv(WorkerStep(s, s.workers[n], e))
  {
    var w := s.workers[n];
    assert WorkerOk(s, n, w);
    hide Inv, Attempt, Move, Truncate, Backed, CloseStep, SendStep;
    match w.stage
    case Stopped =>
      SameFileReflexive(w.local);
      if TimedOut(w.local, e.now, s.maxRetryElapsed) {
        UnfinishedAttempt(s, n, w, Failed, STOPPED);
        AttemptKeeps(s, n, w, WithPhase(w.local, Failed, STOPPED), Some(Queued));
      } else {
        MoveKeeps(s, n, w, w, Some(Queued));
      }
    case Queued =>
      SameFileReflexive(w.local);
      if !w.queueOnly && w.local.status.phase.InQueue? {
        UnfinishedAttempt(s, n, w, InProgress, "");
        AttemptKeeps(s, n, w, WithPhase(w.local, InProgress, ""), Some(Taking));
      } else {
        MoveKeeps(s, n, w, w, Some(Initializing));
      }
    case Taking =>
      if w.local.spec.objectstoreConfig !in s.buckets || e.taken.None? {
        UnfinishedAttempt(s, n, w, Failed, e.error);
        AttemptKeeps(s, n, w, WithPhase(w.local, Failed, e.error), None);
      } else {
        MoveKeeps(s, n, w, w.(local := TakenRecord(w.local, e.taken.value)), Some(Sending));
      }
    case Sending => SendStepKeeps(s, n, e);
    case Completing => CompleteKeeps(s, n, e);
    case _ => CloseStepKeeps(s, n, e);
  }

  /* ---- steps of the syncer ---- */

  predicate TasksOk(s: State, copies: map<string, Record>, todo: seq<Task>) {
    forall k :: 0 <= k < |todo| ==> TaskOk(s, copies, todo[k])
  }

  lemma TasksAppend(s: State, copies: map<string, Record>, a: seq<Task>, b: seq<Task>)
    requires TasksOk(s, copies, a) && TasksOk(s, copies, b)
    ensures TasksOk(s, copies, a + b)
  {
    hide TaskOk;
  }

  lemma {:induction false} RepointsOk(s: State, list: seq<ObjectInfo>, valid: seq<Record>)
    requires forall r :: r in valid ==> r.name in s.records && s.records[r.name] == r && Terminal(r)
    ensures TasksOk(s, s.records, Repoints(list, valid))
  {
    if valid != [] {
      RepointsOk(s, list, valid[..|valid| - 1]);
    }
  }

  lemma {:induction false} MarksOk(s: State, recs: seq<Record>, phase: Phase, reason: string)
    requires phase.Failed? || phase.Completed?
    requires forall r :: r in recs ==>
      r.name in s.records && s.records[r.name] == r && Terminal(r) && (phase.Completed? ==> HasFile(r))
    ensures TasksOk(s, s.records, Marks(recs, phase, reason))
  {
    if recs != [] {
      MarksOk(s, recs[..|recs| - 1], phase, reason);
    }
  }

  lemma {:induction false} DeletesOk(s: State, list: seq<ObjectInfo>, items: seq<Record>)
    requires ListsAll(items, s.records) && forall n :: n in s.records ==> s.records[n].name == n
    requires forall o :: o in list ==> InfoOk(s, o)
    ensures TasksOk(s, s.records, Deletes(list, items))
  {
    hide FileName, NameUsed;
    if list != [] {
      DeletesOk(s, list[..|list| - 1], items);
      var o := list[|list| - 1];
      if !exists r :: r in items && FileName(r.name) == o.name {
        forall n | n in s.records ensures FileName(n) != o.name {
          assert s.records[n] in items && s.records[n].name == n;
        }
        assert InfoOk(s, o);
        assert TaskOk(s, s.records, DeleteObject(o));
      }
    }
  }

  lemma ValidHasFile(s: State, list: seq<ObjectInfo>, r: Record)
    requires (forall o :: o in list ==> InfoOk(s, o)) && ClassOf(list, r).Valid?
    ensures HasFile(r)
  {
    var o := FirstInfo(list, FileName(r.name)).value;
    assert InfoOk(s, o);
    TruncateOnce(o.timestamp);
  }

  lemma PlanOk(s: State, list: seq<ObjectInfo>, items: seq<Record>, deleting: bool)
    requires ListsAll(items, s.records) && forall n :: n in s.records ==> s.records[n].name == n
    requires forall o :: o in list ==> InfoOk(s, o)
    ensures TasksOk(s, s.records, Plan(list, items, deleting, true))
  {
    hide TasksOk, InfoOk, Repoints, Marks, Deletes, HasFile, Select, FirstInfo, FileName;
    var invalid, missing, valid :=
      Select(list, items, Invalid), Select(list, items, NoObject), Select(list, items, Valid);
    forall r | r in invalid || r in missing || r in valid
      ensures r.name in s.records && s.records[r.name] == r && Terminal(r)
    {
      SelectMember(list, items, Invalid, r);
      SelectMember(list, items, NoObject, r);
      SelectMember(list, items, Valid, r);
    }
    forall r | r in valid ensures HasFile(r) {
      SelectMember(list, items, Valid, r);
      ValidHasFile(s, list, r);
    }
    RepointsOk(s, list, valid);
    MarksOk(s, invalid, Failed, NOT_MATCHED);
    MarksOk(s, missing, Failed, FILE_NOT_FOUND);
    MarksOk(s, valid, Completed, "");
    DeletesOk(s, list, items);
    NoTasks(s, s.records);
    var a := Repoints(list, valid);
    var b := if deleting then Deletes(list, items) else [];
    var c := Marks(invalid, Failed, NOT_MATCHED);
    var d := if deleting then Marks(missing, Failed, FILE_NOT_FOUND) else [];
    TasksAppend(s, s.records, a, b);
    TasksAppend(s, s.records, a + b, c);
    TasksAppend(s, s.records, a + b + c, d);
    TasksAppend(s, s.records, a + b + c + d, Marks(valid, Completed, ""));
  }

  lemma NoTasks(s: State, copies: map<string, Record>)
    ensures TasksOk(s, copies, [])
  {}

  /** A copy that was just made. */
  lemma CopyFresh(s: State, n: string)
    requires Inv(s) && n in s.records
    ensures CopyOk(s, s.records[n])
  {
    assert RecordOk(s, n);
    SameFileReflexive(s.records[n]);
  }

  lemma ListRecordsKeeps(s: State, items: seq<Record>)
    requires Inv(s) && s.syncer.Listing? && ListsAll(items, s.records)
    ensures Inv(Step(s, ListRecords(items)))
  {
    var t := Step(s, ListRecords(items));
    assert forall n :: n in s.records ==> s.records[n].name == n by {
      assert forall n :: n in s.records ==> RecordOk(s, n);
    }
    PlanOk(s, s.syncer.found, items, s.syncer.deleting);
    forall n | n in s.records ensures CopyOk(s, s.records[n]) { CopyFresh(s, n); }
    SharedUnchanged(s, t, None);
    hide Plan, CopyOk, Evolves, RecordsOk, ObjectsOk, DeletionsOk, WorkersOk, Dead;
    forall n | n in s.records ensures CopyOk(t, s.records[n]) { CopySame(s, t, s.records[n]); }
    forall k | 0 <= k < |t.syncer.todo| ensures TaskOk(t, t.syncer.copies, t.syncer.todo[k]) {
      assert TaskOk(s, s.records, t.syncer.todo[k]);
      if t.syncer.todo[k].DeleteObject? { DeadStays(s, t, None, t.syncer.todo[k].info.name); }
    }
    InvAfterSync(s, t);
  }

  /** The rest of the tasks, after a task that left its copy `r` written over. */
  lemma TasksStay(s: State, t: State, copies: map<string, Record>, copies': map<string, Record>, todo: seq<Task>)
    requires TasksOk(s, copies, todo) && Evolves(s, t, None)
    requires forall n :: n in copies ==>
      n in copies' && (Terminal(copies[n]) ==> Terminal(copies'[n])) && (HasFile(copies[n]) ==> HasFile(copies'[n]))
    ensures TasksOk(t, copies', todo)
  {
    hide Evolves, Dead, HasFile, Terminal;
    forall k | 0 <= k < |todo| ensures TaskOk(t, copies', todo[k]) {
      assert TaskOk(s, copies, todo[k]);
      if todo[k].DeleteObject? { DeadStays(s, t, None, todo[k].info.name); }
    }
  }

  lemma SyncWritable(s: State, copies: map<string, Record>, r: Record)
    requires Inv(s) && CopiesOk(s, copies)
    requires r.name in copies && r.resourceVersion == copies[r.name].resourceVersion && SameFile(r, copies[r.name])
    requires Terminal(copies[r.name]) && Terminal(r) && Coherent(r) && UpToDate(s, r)
    ensures Writable(s, r, None)
    ensures Terminal(Stored(s, r)) && (HasFile(copies[r.name]) <==> HasFile(Stored(s, r)))
  {
    assert CopyOk(s, copies[r.name]);
    StoredAs(s, r);
    HasFileAs(r, copies[r.name]);
    hide Inv, Persist, FileName, Backed, Truncate;
  }

  lemma SyncWriteKeeps(s: State, copies: map<string, Record>, todo: seq<Task>, r: Record)
    requires Inv(s) && s.syncer == Acting(copies, todo) && todo != []
    requires r.name in copies && r.resourceVersion == copies[r.name].resourceVersion && SameFile(r, copies[r.name])
    requires Terminal(copies[r.name]) && Terminal(r) && Coherent(r)
    ensures Inv(SyncWrite(s, copies, todo[1..], r))
  {
    var t := SyncWrite(s, copies, todo[1..], r);
    assert CopiesOk(s, copies) && TasksOk(s, copies, todo[1..]);
    hide Inv, Evolves, RecordsOk, ObjectsOk, DeletionsOk, WorkersOk, CopyOk, Stored, HasFile, SameFile, Coherent,
      TaskOk, FileName, Terminal, Writable;
    if UpToDate(s, r) {
      SyncWritable(s, copies, r);
      WriteKeeps(s, r, None);
      StoredAs(s, r);
      WorldStays(s, WriteRecord(s, r), t, None);
      CopySame(WriteRecord(s, r), t, Stored(s, r));
      forall n | n in copies ensures CopyOk(t, copies[n]) { CopyStays(s, t, None, copies[n]); }
      TasksStay(s, t, copies, copies[r.name := Stored(s, r)], todo[1..]);
    } else {
      SharedUnchanged(s, t, None);
    }
    InvAfterSync(s, t);
  }

  lemma HasFileAs(a: Record, b: Record)
    ensures SameFile(a, b) ==> (HasFile(a) <==> HasFile(b))
  {}

  lemma TaskStepKeeps(s: State, copies: map<string, Record>, todo: seq<Task>)
    requires Inv(s) && s.syncer == Acting(copies, todo) && todo != []
    ensures Inv(TaskStep(s, copies, todo))
  {
    assert TaskOk(s, copies, todo[0]);
    assert TasksOk(s, copies, todo[1..]);
    var t := TaskStep(s, copies, todo);
    match todo[0]
    case DeleteObject(o) =>
      RemoveObjectKeeps(s, o.bucketConfigName, o.name);
      KeepActing(s, RemoveObject(s, o.bucketConfigName, o.name), t, copies, todo);
    case RepointTo(n, c) =>
      assert CopyOk(s, copies[n]);
      var r := copies[n].(spec := copies[n].spec.(objectstoreConfig := c));
      SameFileReflexive(r);
      SyncWriteKeeps(s, copies, todo, r);
    case MarkAs(n, phase, reason) =>
      assert CopyOk(s, copies[n]);
      var r := WithPhase(copies[n], phase, reason);
      SameFileReflexive(r);
      if copies[n].status.phase == phase {
        SharedUnchanged(s, s, None);
        KeepActing(s, s, t, copies, todo);
      } else {
        SyncWriteKeeps(s, copies, todo, r);
      }
  }

  /** A task that writes no record. */
  lemma KeepActing(s: State, t: State, t': State, copies: map<string, Record>, todo: seq<Task>)
    requires Inv(s) && WorldOk(s, t, None) && SameWorld(t, t') && t'.workers == s.workers
    requires s.syncer == Acting(copies, todo) && todo != [] && t'.syncer == Acting(copies, todo[1..])
    ensures Inv(t')
  {
    assert CopiesOk(s, copies) && TasksOk(s, copies, todo[1..]);
    hide Inv, Evolves, RecordsOk, ObjectsOk, DeletionsOk, WorkersOk, CopyOk, HasFile, TaskOk, FileName;
    WorldStays(s, t, t', None);
    forall n | n in copies ensures CopyOk(t', copies[n]) { CopyStays(s, t', None, copies[n]); }
    TasksStay(s, t', copies, copies, todo[1..]);
    InvAfterSync(s, t');
  }
}
