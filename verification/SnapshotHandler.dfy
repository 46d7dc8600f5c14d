/** backup_handler.go: one pass of the snapshot handler over a record. */
module SnapshotHandler {
  import opened Text
  import opened Records
  import opened Lifecycle
  import ObjectSyncer
  import SnapshotTaking

  /* ---- backoff.RetryNotify ---- */

  /** A failed try may leave something behind. */
  datatype Try<+T, +L> = Success(value: T) | Failure(message: string, permanent: bool, left: L)

  /** Tries until one succeeds or fails for good, or until there is no time for another. */
  function Retried<T, L>(tries: seq<Try<T, L>>): Try<T, L>
    requires |tries| > 0
  {
    if tries[0].Success? || tries[0].permanent || |tries| == 1 then tries[0] else Retried(tries[1..])
  }

  method RetryNotify<T, L>(tries: seq<Try<T, L>>) returns (r: Try<T, L>)
    requires |tries| > 0
    ensures r == Retried(tries)
  {
    var i := 0;
    while !tries[i].Success? && !tries[i].permanent && i + 1 < |tries|
      invariant i < |tries| && Retried(tries) == Retried(tries[i..])
    {
      assert tries[i..][0] == tries[i] && tries[i..][1..] == tries[i + 1..];
      i := i + 1;
    }
    assert tries[i..][0] == tries[i];
    return tries[i];
  }

  /** The first k tries fail, none of them for good. */
  predicate OnlyRetriable<T, L>(tries: seq<Try<T, L>>, k: nat)
    requires k <= |tries|
  {
    forall j :: 0 <= j < k ==> tries[j].Failure? && !tries[j].permanent
  }

  /** Retrying succeeds exactly when some try does and none before it fails for good. */
  lemma {:induction false} RetrySucceeds<T, L>(tries: seq<Try<T, L>>)
    requires |tries| > 0
    ensures Retried(tries).Success? <==>
      exists k :: 0 <= k < |tries| && tries[k].Success? && OnlyRetriable(tries, k)
  {
    if !tries[0].Success? && !tries[0].permanent && |tries| > 1 {
      RetrySucceeds(tries[1..]);
      if k :| 0 <= k < |tries[1..]| && tries[1..][k].Success? && OnlyRetriable(tries[1..], k) {
        assert tries[k + 1].Success?;
        assert forall j :: 1 <= j < k + 1 ==> tries[j] == tries[1..][j - 1];
      }
      if k :| 0 <= k < |tries| && tries[k].Success? && OnlyRetriable(tries, k) {
        assert tries[1..][k - 1].Success?;
      }
    }
  }

  /** What retrying ends with is the try that succeeds, fails for good or is the last, when none before
      it did. */
  lemma {:induction false} RetryEnds<T, L>(tries: seq<Try<T, L>>) returns (k: nat)
    requires |tries| > 0
    ensures k < |tries| && Retried(tries) == tries[k] && OnlyRetriable(tries, k)
    ensures tries[k].Success? || tries[k].permanent || k == |tries| - 1
  {
    if tries[0].Success? || tries[0].permanent || |tries| == 1 {
      k := 0;
    } else {
      k := RetryEnds(tries[1..]);
      assert forall j :: 0 < j < k + 1 ==> tries[j] == tries[1..][j - 1];
      k := k + 1;
    }
  }

  /* ---- a pass ---- */

  /** What taking the snapshot and uploading its archive bring back. */
  datatype Taken = Taken(marker: SnapshotTaking.Marker, contents: seq<string>, archive: Archive)
  datatype Sent = Sent(size: int, timestamp: Time)

  /** A try of the upload: the object is stored and its info read back, or the try fails, and leaves
      the object in the bucket if it was stored but its info could not be read. */
  type SendTry = Try<Sent, Option<Sent>>

  /** The object that the tries leave in the bucket: the one whose info was read back, or the last
      one that a failed try stored. */
  function LastStored(tries: seq<SendTry>): Option<Sent>
    requires |tries| > 0
  {
    if tries[0].Success? then Some(tries[0].value)
    else if tries[0].permanent || |tries| == 1 then tries[0].left
    else
      var later := LastStored(tries[1..]);
      if later.Some? then later else tries[0].left
  }

  lemma {:induction false} SuccessIsStored(tries: seq<SendTry>)
    requires |tries| > 0 && Retried(tries).Success?
    ensures LastStored(tries) == Some(Retried(tries).value)
  {
    if !tries[0].Success? { SuccessIsStored(tries[1..]); }
  }

  /** The k-th try is made, and fails with its object stored. */
  predicate Leaves(tries: seq<SendTry>, k: int) {
    0 <= k < |tries| && OnlyRetriable(tries, k) && tries[k].Failure? && tries[k].left.Some?
  }

  /** It is the last such try, and this is its object. */
  ghost predicate LeavesLast(tries: seq<SendTry>, k: int, o: Sent) {
    Leaves(tries, k) && tries[k].left == Some(o) && forall j :: k < j ==> !Leaves(tries, j)
  }

  lemma LaterTry(tries: seq<SendTry>, k: int)
    requires |tries| > 1 && tries[0].Failure? && !tries[0].permanent && k >= 0
    ensures Leaves(tries, k + 1) <==> Leaves(tries[1..], k)
  {
    var rest := tries[1..];
    assert forall j :: 0 <= j < |rest| ==> rest[j] == tries[j + 1];
    if k < |rest| {
      assert OnlyRetriable(tries, k + 1) <==> OnlyRetriable(rest, k) by {
        assert forall j :: 1 <= j < k + 1 ==> tries[j] == rest[j - 1];
      }
    }
  }

  lemma OnlyOneTry(tries: seq<SendTry>)
    requires |tries| == 1 || (tries != [] && tries[0].Failure? && tries[0].permanent)
    ensures forall k :: k > 0 ==> !Leaves(tries, k)
  {
    assert forall k :: 0 < k <= |tries| && OnlyRetriable(tries, k) ==> !tries[0].permanent;
  }

  /** An upload that fails in the end leaves an object behind exactly if some try that was made did,
      and then the last such try's. */
  lemma {:induction false} FailureLeaves(tries: seq<SendTry>, o: Sent)
    requires |tries| > 0 && Retried(tries).Failure?
    ensures LastStored(tries).Some? <==> exists k :: Leaves(tries, k)
    ensures LastStored(tries) == Some(o) <==> exists k :: LeavesLast(tries, k, o)
  {
    if tries[0].permanent || |tries| == 1 {
      assert Leaves(tries, 0) <==> tries[0].left.Some?;
      assert forall k :: k > 0 ==> !Leaves(tries, k) by { OnlyOneTry(tries); }
      assert LeavesLast(tries, 0, o) <==> tries[0].left == Some(o);
    } else {
      var rest := tries[1..];
      FailureLeaves(rest, o);
      assert Leaves(tries, 0) <==> tries[0].left.Some?;
      forall k | k >= 0 ensures Leaves(tries, k + 1) <==> Leaves(rest, k) { LaterTry(tries, k); }
      MoreTries(tries, rest, o);
    }
  }

  /** The same object is left last with and without the first try, unless only the first leaves one. */
  lemma MoreTries(tries: seq<SendTry>, rest: seq<SendTry>, o: Sent)
    requires |tries| > 1 && rest == tries[1..]
    requires forall k :: k >= 0 ==> (Leaves(tries, k + 1) <==> Leaves(rest, k))
    ensures (exists k :: Leaves(tries, k)) <==> Leaves(tries, 0) || exists k :: Leaves(rest, k)
    ensures (exists k :: Leaves(rest, k)) ==>
      ((exists k :: LeavesLast(tries, k, o)) <==> exists k :: LeavesLast(rest, k, o))
    ensures !(exists k :: Leaves(rest, k)) ==>
      ((exists k :: LeavesLast(tries, k, o)) <==> Leaves(tries, 0) && tries[0].left == Some(o))
  {
    hide OnlyRetriable;
    if k :| Leaves(tries, k) && k > 0 { assert Leaves(rest, k - 1); }
    if k :| Leaves(rest, k) { assert Leaves(tries, k + 1); }
    forall k | k >= 0 ensures LeavesLast(rest, k, o) <==> LeavesLast(tries, k + 1, o) {
      assert forall j :: k < j ==> (Leaves(rest, j) <==> Leaves(tries, j + 1));
      assert forall j :: k + 1 < j ==> (Leaves(tries, j) <==> Leaves(rest, j - 1));
    }
    if k :| LeavesLast(tries, k, o) && k > 0 { assert LeavesLast(rest, k - 1, o); }
    if k :| LeavesLast(rest, k, o) { assert LeavesLast(tries, k + 1, o); }
    if !(exists k :: Leaves(rest, k)) {
      assert forall j :: 0 < j ==> (Leaves(tries, j) <==> Leaves(rest, j - 1));
      assert LeavesLast(tries, 0, o) <==> Leaves(tries, 0) && tries[0].left == Some(o);
    }
  }

  /** Everything a pass meets on its way: two readings of the clock, the errors it is given, and
      the tries of the two retried operations. */
  datatype Surroundings = Surroundings(
    started: Time,
    finished: Time,
    bucketError: string,
    taking: seq<Try<Taken, ()>>,
    sending: seq<SendTry>,
    refusal: Option<string>)

  predicate Sensible(s: Surroundings) { |s.taking| > 0 && |s.sending| > 0 }

  datatype RecordPass = RecordPass(record: Record, version: nat, writes: seq<Life>, progress: Progress)

  const THIRTY_DAYS: int := 30 * DAY
  const STOPPED: string := "Controller stopped while taking the snapshot"

  function LifeOf(r: Record): Life {
    Life(r.status.phase, r.status.reason, r.creationTimestamp, r.spec.availableUntil, r.spec.ttl,
      r.status.availableUntil, r.status.ttl)
  }

  function WithLife(r: Record, l: Life): Record {
    r.(spec := r.spec.(availableUntil := l.specUntil, ttl := l.specTtl),
       status := r.status.(phase := l.phase, reason := l.reason, availableUntil := l.until, ttl := l.ttl))
  }

  function Begin(r: Record, version: nat): RecordPass { RecordPass(r, version, [], Running) }

  /** updateSnapshotStatus when nobody else writes. */
  function Put(p: RecordPass, r: Record): RecordPass {
    var stored := Persist(r).(resourceVersion := p.version + 1);
    p.(record := stored, version := p.version + 1, writes := p.writes + [LifeOf(stored)])
  }

  predicate TimedOut(r: Record, now: Time, maxRetryElapsed: int) {
    r.status.phase.InProgress? && r.creationTimestamp + (maxRetryElapsed + 1) * SECOND < now
  }

  function GiveUp(p: RecordPass, now: Time, maxRetryElapsed: int): RecordPass {
    if TimedOut(p.record, now, maxRetryElapsed) then Put(p, WithPhase(p.record, Failed, STOPPED)) else p
  }

  function Fail(p: RecordPass, r: Record, message: string): RecordPass {
    Put(p, WithPhase(r, Failed, message)).(progress := Ended)
  }

  function TakenRecord(r: Record, t: Taken): Record {
    r.(status := SnapshotTaking.TakenStatus(r.spec, r.status, t.marker, t.contents))
  }

  function SentRecord(r: Record, o: Sent): Record {
    r.(status := r.status.(storedTimestamp := o.timestamp, storedFileSize := o.size))
  }

  function Work(p: RecordPass, queueOnly: bool, configs: set<string>, s: Surroundings): RecordPass
    requires Sensible(s)
  {
    if queueOnly || !p.record.status.phase.InQueue? then p
    else
      var q := Put(p, WithPhase(p.record, InProgress, ""));
      if q.record.spec.objectstoreConfig !in configs then Fail(q, q.record, s.bucketError)
      else
        match Retried(s.taking)
        case Failure(message, _, _) => Fail(q, q.record, message)
        case Success(t) =>
          match Retried(s.sending)
          case Failure(message, _, _) => Fail(q, TakenRecord(q.record, t), message)
          case Success(o) => Put(q, WithPhase(SentRecord(TakenRecord(q.record, t), o), Completed, ""))
  }

  function LifePass(p: RecordPass): Pass { Pass(LifeOf(p.record), p.writes, p.progress) }

  function CloseRecord(p: RecordPass, now: Time, refusal: Option<string>): RecordPass {
    var q := Close(LifePass(p), now, THIRTY_DAYS, refusal);
    Closed(p, q)
  }

  /** The record pass that corresponds to q, which continues p. */
  function Closed(p: RecordPass, q: Pass): RecordPass {
    var more := if |q.writes| <= |p.writes| then 0 else |q.writes| - |p.writes|;
    var version := if more == 0 then p.record.resourceVersion else p.version + more;
    RecordPass(WithLife(p.record, q.life).(resourceVersion := version), p.version + more, q.writes, q.progress)
  }

  /** The pass has gone on from p to q, in the terms of its life. */
  predicate Continues(p: RecordPass, q: Pass) {
    |p.writes| <= |q.writes| && q.life.creation == p.record.creationTimestamp
  }

  lemma ClosedLife(p: RecordPass, q: Pass)
    requires Continues(p, q)
    ensures LifePass(Closed(p, q)) == q
    ensures LifePass(p) == q ==> Closed(p, q) == p
  {}

  lemma ClosedTwice(p: RecordPass, q: Pass, q': Pass)
    requires Continues(p, q) && |q.writes| <= |q'.writes|
    ensures Closed(Closed(p, q), q') == Closed(p, q')
  {}

  /** Writing the record is writing its life. */
  lemma PutIsWrite(p: RecordPass, l: Life)
    requires Persisted(p.record) && l.creation == p.record.creationTimestamp
    ensures Put(p, WithLife(p.record, l)) == Closed(p, Write(LifePass(p), l))
    ensures Put(p, WithLife(p.record, l)).progress == p.progress
  {
    hide Truncate;
  }

  lemma GoneClosed(p: RecordPass)
    ensures Closed(p, LifePass(p).(progress := Gone)) == p.(progress := Gone)
  {}

  lemma EndedWrite(p: RecordPass, q: Pass)
    ensures Closed(p, q).(progress := Ended) == Closed(p, q.(progress := Ended))
  {}

  lemma StageKeeps(p: RecordPass, now: Time)
    requires Truncate(p.record.creationTimestamp) == p.record.creationTimestamp
    ensures Continues(p, Initialize(LifePass(p), now, THIRTY_DAYS))
    ensures Continues(p, SetDeadline(LifePass(p))) && SetDeadline(LifePass(p)).progress == p.progress
    ensures Continues(p, FollowSpec(LifePass(p))) && FollowSpec(LifePass(p)).progress == p.progress
  {}

  /** The four closing steps, each on the record the one before it left, are the closing part. */
  lemma CloseBySteps(p: RecordPass, now: Time, refusal: Option<string>)
    requires Truncate(p.record.creationTimestamp) == p.record.creationTimestamp
    ensures p.progress.Ended? ==> CloseRecord(p, now, refusal) == p
    ensures var p1 := Closed(p, Initialize(LifePass(p), now, THIRTY_DAYS));
            var p2 := Closed(p1, SetDeadline(LifePass(p1)));
            var p3 := Closed(p2, FollowSpec(LifePass(p2)));
            var p4 := Closed(p3, Expire(LifePass(p3), now, refusal));
            && p1.record.name == p2.record.name == p3.record.name == p4.record.name == p.record.name
            && p1.progress == p2.progress == p3.progress
            && (p1.progress.Ended? ==> CloseRecord(p, now, refusal) == p1)
            && (p1.progress.Running? ==> CloseRecord(p, now, refusal) == p4)
  {
    hide Truncate, Initialize, SetDeadline, FollowSpec, PersistLife;
    var q1 := Initialize(LifePass(p), now, THIRTY_DAYS);
    var p1 := Closed(p, q1);
    if p.progress.Ended? { StoppedPass(LifePass(p), now, THIRTY_DAYS, refusal); }
    if q1.progress.Ended? { StoppedPass(q1, now, THIRTY_DAYS, refusal); }
    StageKeeps(p, now);
    ClosedLife(p, q1);
    var p2 := Closed(p1, SetDeadline(LifePass(p1)));
    StageKeeps(p1, now);
    ClosedLife(p1, SetDeadline(LifePass(p1)));
    ClosedTwice(p, q1, SetDeadline(LifePass(p1)));
    StageKeeps(p2, now);
    ClosedLife(p2, FollowSpec(LifePass(p2)));
    ClosedTwice(p, SetDeadline(LifePass(p1)), FollowSpec(LifePass(p2)));
    var p3 := Closed(p2, FollowSpec(LifePass(p2)));
    ClosedTwice(p, FollowSpec(LifePass(p2)), Expire(LifePass(p3), now, refusal));
  }

  /** A whole pass over record r, when the server has given out versions up to `version`. */
  function PassOver(r: Record, version: nat, queueOnly: bool, maxRetryElapsed: int, configs: set<string>,
        s: Surroundings): RecordPass
    requires Sensible(s)
  {
    CloseRecord(Work(GiveUp(Begin(r, version), s.started, maxRetryElapsed), queueOnly, configs, s), s.finished,
      s.refusal)
  }

  /** The pass gets as far as uploading the archive. */
  predicate Uploads(r: Record, queueOnly: bool, configs: set<string>, s: Surroundings)
    requires Sensible(s)
  {
    && !queueOnly && r.status.phase.InQueue? && r.spec.objectstoreConfig in configs
    && Retried(s.taking).Success?
  }

  function AsObject(o: Sent, archive: Archive): StoredObject { StoredObject(o.size, o.timestamp, archive) }

  function Deliver(buckets: map<string, BucketContents>, cfg: string, name: string, o: Option<Sent>, archive: Archive)
        : map<string, BucketContents>
    requires cfg in buckets
  {
    if o.None? then buckets else buckets[cfg := buckets[cfg][name := AsObject(o.value, archive)]]
  }

  function AfterUpload(buckets: map<string, BucketContents>, r: Record, queueOnly: bool, s: Surroundings)
        : map<string, BucketContents>
    requires Sensible(s)
  {
    if Uploads(r, queueOnly, buckets.Keys, s)
    then
      var archive := Retried(s.taking).value.archive;
      Deliver(buckets, r.spec.objectstoreConfig, FileName(r.name), LastStored(s.sending), archive)
    else buckets
  }

  lemma PersistKeepsConfig(r: Record)
    ensures Persist(r).spec.objectstoreConfig == r.spec.objectstoreConfig && Persist(r).name == r.name
  {}

  /** A later object replaces an earlier one. */
  lemma DeliverTwice(buckets: map<string, BucketContents>, cfg: string, name: string, a: Option<Sent>,
        b: Option<Sent>, archive: Archive)
    requires cfg in buckets
    ensures Deliver(Deliver(buckets, cfg, name, a, archive), cfg, name, b, archive)
         == Deliver(buckets, cfg, name, if b.Some? then b else a, archive)
  {
    if a.Some? && b.Some? {
      var x, y, contents := AsObject(a.value, archive), AsObject(b.value, archive), buckets[cfg];
      assert contents[name := x][name := y] == contents[name := y];
      assert buckets[cfg := contents[name := x]][cfg := contents[name := y]] == buckets[cfg := contents[name := y]];
    }
  }

  /** The server holds the record of pass p, and nothing else has changed. */
  ghost predicate Holds(before: map<string, Record>, p: RecordPass, records: map<string, Record>, version: nat) {
    records == before[p.record.name := p.record] && version == p.version
  }

  class Handler {
    const c: ObjectSyncer.Controller
    const maxRetryElapsed: int

    constructor (c: ObjectSyncer.Controller, maxRetryElapsed: int)
      ensures this.c == c && this.maxRetryElapsed == maxRetryElapsed
    {
      this.c, this.maxRetryElapsed := c, maxRetryElapsed;
    }

    /** A write by a pass that nobody disturbs. */
    method Update(ghost before: map<string, Record>, ghost p: RecordPass, snapshot: Record, phase: Phase,
          reason: string) returns (r: Record, ghost q: RecordPass)
      requires c.server.Valid() && p.record.name in before && Holds(before, p, c.server.records, c.server.version)
      requires snapshot.name == p.record.name && snapshot.resourceVersion == p.record.resourceVersion
      requires snapshot.creationTimestamp == p.record.creationTimestamp
      modifies c.server
      ensures c.server.Valid() && Holds(before, q, c.server.records, c.server.version)
      ensures q == Put(p, WithPhase(snapshot, phase, reason)) && r == q.record && r.name == snapshot.name
    {
      assert Truncate(snapshot.creationTimestamp) == snapshot.creationTimestamp by {
        assert Persisted(c.server.records[snapshot.name]);
      }
      var reply := c.UpdateSnapshotStatus(snapshot, phase, reason);
      q := Put(p, WithPhase(snapshot, phase, reason));
      r := reply.record;
      assert r == q.record;
    }

    /** "controller stopped while taking the snapshot". */
    method CheckStopped(ghost before: map<string, Record>, ghost p: RecordPass, snapshot: Record, now: Time)
      returns (r: Record, ghost q: RecordPass)
      requires c.server.Valid() && p.record.name in before
      requires Holds(before, p, c.server.records, c.server.version) && snapshot == p.record
      modifies c.server
      ensures c.server.Valid() && Holds(before, q, c.server.records, c.server.version)
      ensures q == GiveUp(p, now, maxRetryElapsed) && q.progress == p.progress && r == q.record
      ensures r.name == snapshot.name
    {
      r, q := snapshot, p;
      if snapshot.status.phase == InProgress {
        var retryend := snapshot.creationTimestamp + (maxRetryElapsed + 1) * SECOND;
        if retryend < now {
          r, q := Update(before, p, snapshot, Failed, STOPPED);
        }
      }
    }

    /** The retried upload: each try that stores the object changes the bucket, also if it fails. */
    method RetryUpload(cfg: string, name: string, archive: Archive, tries: seq<SendTry>) returns (r: SendTry)
      requires |tries| > 0 && cfg in c.store.buckets
      modifies c.store
      ensures r == Retried(tries)
      ensures c.store.buckets == Deliver(old(c.store.buckets), cfg, name, LastStored(tries), archive)
    {
      var i := 0;
      while true
        invariant i < |tries| && cfg in c.store.buckets && Retried(tries) == Retried(tries[i..])
        invariant Deliver(c.store.buckets, cfg, name, LastStored(tries[i..]), archive)
               == Deliver(old(c.store.buckets), cfg, name, LastStored(tries), archive)
        decreases |tries| - i
      {
        ghost var before := c.store.buckets;
        assert tries[i..][0] == tries[i] && tries[i..][1..] == tries[i + 1..];
        var stored := if tries[i].Success? then Some(tries[i].value) else tries[i].left;
        if stored.Some? {
          var uploaded := c.store.Upload(cfg, name, AsObject(stored.value, archive));
        }
        assert c.store.buckets == Deliver(before, cfg, name, stored, archive);
        if tries[i].Success? || tries[i].permanent || i + 1 == |tries| {
          return tries[i];
        }
        DeliverTwice(before, cfg, name, stored, LastStored(tries[i + 1..]), archive);
        i := i + 1;
      }
    }

    /** "do snapshot". */
    method TakeAndUpload(ghost before: map<string, Record>, ghost p: RecordPass, snapshot: Record,
          queueOnly: bool, s: Surroundings)
      returns (r: Record, ghost q: RecordPass, returned: bool)
      requires c.server.Valid() && p.record.name in before
      requires Holds(before, p, c.server.records, c.server.version) && snapshot == p.record
      requires Sensible(s) && p.progress.Running?
      modifies c.server, c.store
      ensures c.server.Valid() && Holds(before, q, c.server.records, c.server.version)
      ensures q == Work(p, queueOnly, old(c.store.buckets).Keys, s) && r == q.record && r.name == snapshot.name
      ensures returned == q.progress.Ended? && !returned == q.progress.Running?
      ensures c.store.buckets == AfterUpload(old(c.store.buckets), snapshot, queueOnly, s)
    {
      hide Persist, Retried, LifeOf;
      r, q, returned := snapshot, p, false;
      if !queueOnly && r.status.phase == InQueue {
        r, q := Update(before, q, r, InProgress, "");
        assert r.spec.objectstoreConfig == snapshot.spec.objectstoreConfig by {
          PersistKeepsConfig(WithPhase(snapshot, InProgress, ""));
        }
        if r.spec.objectstoreConfig !in c.store.buckets {
          r, q := Update(before, q, r, Failed, s.bucketError);
          q := q.(progress := Ended);
          return r, q, true;
        }
        var taken := RetryNotify(s.taking);
        if taken.Failure? {
          r, q := Update(before, q, r, Failed, taken.message);
          q := q.(progress := Ended);
          return r, q, true;
        }
        r := TakenRecord(r, taken.value);
        var sent := RetryUpload(r.spec.objectstoreConfig, FileName(r.name), taken.value.archive, s.sending);
        if sent.Failure? {
          r, q := Update(before, q, r, Failed, sent.message);
          q := q.(progress := Ended);
          return r, q, true;
        }
        r := SentRecord(r, sent.value);
        r, q := Update(before, q, r, Completed, "");
      }
    }

    /** "initialize". */
    method InitializeSnapshot(ghost before: map<string, Record>, ghost p: RecordPass, snapshot: Record, now: Time)
      returns (r: Record, ghost q: RecordPass, returned: bool)
      requires c.server.Valid() && p.record.name in before
      requires Holds(before, p, c.server.records, c.server.version) && snapshot == p.record
      requires p.progress.Running?
      modifies c.server
      ensures c.server.Valid() && Holds(before, q, c.server.records, c.server.version)
      ensures q == Closed(p, Initialize(LifePass(p), now, THIRTY_DAYS)) && r == q.record
      ensures returned == q.progress.Ended? && !returned == q.progress.Running?
    {
      hide Persist, Put, Closed, PersistLife;
      r, q, returned := snapshot, p, false;
      ghost var l := LifeOf(r);
      ClosedLife(p, LifePass(p));
      assert Persisted(p.record) by { assert c.server.records[p.record.name] == p.record; }
      if r.status.phase == New {
        if IsZero(r.spec.availableUntil) {
          if r.spec.ttl == 0 {
            r := r.(spec := r.spec.(ttl := THIRTY_DAYS));
          }
        } else if r.spec.availableUntil < now {
          PutIsWrite(p, l.(phase := Failed, reason := PAST));
          r, q := Update(before, q, r, Failed, PAST);
          q := q.(progress := Ended);
          EndedWrite(p, Write(LifePass(p), l.(phase := Failed, reason := PAST)));
          return r, q, true;
        }
        PutIsWrite(p, LifeOf(r).(phase := InQueue, reason := ""));
        r, q := Update(before, q, r, InQueue, "");
      }
    }

    /** "expiration for failed snapshot". */
    method SetFailedDeadline(ghost before: map<string, Record>, ghost p: RecordPass, snapshot: Record)
      returns (r: Record, ghost q: RecordPass)
      requires c.server.Valid() && p.record.name in before
      requires Holds(before, p, c.server.records, c.server.version) && snapshot == p.record
      requires p.progress.Running?
      modifies c.server
      ensures c.server.Valid() && Holds(before, q, c.server.records, c.server.version)
      ensures q == Closed(p, SetDeadline(LifePass(p))) && r == q.record
    {
      hide Persist, Put, Closed, PersistLife;
      r, q := snapshot, p;
      ClosedLife(p, LifePass(p));
      assert Persisted(p.record) by { assert c.server.records[p.record.name] == p.record; }
      if r.status.phase == Failed && IsZero(r.status.availableUntil) {
        if !IsZero(r.spec.availableUntil) {
          r := r.(status := r.status.(availableUntil := r.spec.availableUntil));
          r := r.(status := r.status.(ttl := r.status.availableUntil - r.creationTimestamp));
        } else {
          r := r.(status := r.status.(availableUntil := r.creationTimestamp + r.spec.ttl));
          r := r.(status := r.status.(ttl := r.spec.ttl));
        }
        PutIsWrite(p, LifeOf(r));
        r, q := Update(before, q, r, r.status.phase, r.status.reason);
      }
    }

    /** "expiration edited". */
    method FollowEditedDeadline(ghost before: map<string, Record>, ghost p: RecordPass, snapshot: Record)
      returns (r: Record, ghost q: RecordPass)
      requires c.server.Valid() && p.record.name in before
      requires Holds(before, p, c.server.records, c.server.version) && snapshot == p.record
      requires p.progress.Running?
      modifies c.server
      ensures c.server.Valid() && Holds(before, q, c.server.records, c.server.version)
      ensures q == Closed(p, FollowSpec(LifePass(p))) && r == q.record
    {
      hide Persist, Put, Closed, PersistLife;
      r, q := snapshot, p;
      ClosedLife(p, LifePass(p));
      assert Persisted(p.record) by { assert c.server.records[p.record.name] == p.record; }
      if r.status.phase == Completed || r.status.phase == Failed {
        if !IsZero(r.spec.availableUntil) && r.spec.availableUntil != r.status.availableUntil {
          r := r.(status := r.status.(availableUntil := r.spec.availableUntil));
          PutIsWrite(p, LifeOf(r));
          r, q := Update(before, q, r, r.status.phase, r.status.reason);
        }
      }
    }

    /** "delete expired". */
    method DeleteExpired(ghost before: map<string, Record>, ghost p: RecordPass, snapshot: Record, now: Time,
          refusal: Option<string>) returns (ghost q: RecordPass)
      requires c.server.Valid() && p.record.name in before
      requires Holds(before, p, c.server.records, c.server.version) && snapshot == p.record
      requires p.progress.Running?
      modifies c.server
      ensures c.server.Valid() && c.server.version == q.version
      ensures q == Closed(p, Expire(LifePass(p), now, refusal))
      ensures c.server.records == if q.progress.Gone? then before - {p.record.name}
        else before[p.record.name := q.record]
    {
      hide Persist, Put, Closed, PersistLife;
      q := p;
      ClosedLife(p, LifePass(p));
      assert Persisted(p.record) by { assert c.server.records[p.record.name] == p.record; }
      if !IsZero(snapshot.status.availableUntil) && snapshot.status.availableUntil < now {
        if refusal.Some? {
          PutIsWrite(p, LifeOf(snapshot).(phase := Failed, reason := refusal.value));
          var r;
          r, q := Update(before, q, snapshot, Failed, refusal.value);
          q := q.(progress := Ended);
          EndedWrite(p, Write(LifePass(p), LifeOf(snapshot).(phase := Failed, reason := refusal.value)));
        } else {
          var reply := c.server.Delete(snapshot.name);
          q := Closed(p, LifePass(p).(progress := Gone));
          GoneClosed(p);
        }
      }
    }

    /** snapshotSyncHandler, undisturbed. */
    method SnapshotSyncHandler(name: string, queueOnly: bool, s: Surroundings)
      requires c.server.Valid() && Sensible(s)
      modifies c.server, c.store
      ensures c.server.Valid()
      ensures name !in old(c.server.records) ==>
        c.server.records == old(c.server.records) && c.store.buckets == old(c.store.buckets)
      ensures name in old(c.server.records) ==>
        var p := PassOver(old(c.server.records)[name], old(c.server.version), queueOnly, maxRetryElapsed,
          old(c.store.buckets).Keys, s);
        && c.server.version == p.version
        && c.server.records ==
             (if p.progress.Gone? then old(c.server.records) - {name} else old(c.server.records)[name := p.record])
        && c.store.buckets ==
             AfterUpload(old(c.store.buckets),
               GiveUp(Begin(old(c.server.records)[name], old(c.server.version)), s.started, maxRetryElapsed).record,
                 queueOnly, s)
    {
      hide Put, Closed, PersistLife, Work, AfterUpload, Initialize, SetDeadline, FollowSpec, Expire, CloseRecord,
        Truncate;
      var got := c.server.Get(name);
      if got.Refused? {
        return;
      }
      var snapshot := got.record;
      ghost var before := c.server.records;
      ghost var p := Begin(snapshot, c.server.version);
      assert before == before[name := snapshot];
      snapshot, p := CheckStopped(before, p, snapshot, s.started);
      var returned;
      snapshot, p, returned := TakeAndUpload(before, p, snapshot, queueOnly, s);
      assert Truncate(p.record.creationTimestamp) == p.record.creationTimestamp by {
        assert c.server.records[p.record.name] == p.record;
      }
      CloseBySteps(p, s.finished, s.refusal);
      if returned {
        return;
      }
      snapshot, p, returned := InitializeSnapshot(before, p, snapshot, s.finished);
      if returned {
        return;
      }
      snapshot, p := SetFailedDeadline(before, p, snapshot);
      snapshot, p := FollowEditedDeadline(before, p, snapshot);
      p := DeleteExpired(before, p, snapshot, s.finished, s.refusal);
    }
  }
}
