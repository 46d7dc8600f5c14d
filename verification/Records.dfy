/** Snapshot records (pkg/apis/clustersnapshot/v1alpha1/types.go), the API server that stores
    them with version-checked updates, and the object store that holds the archives. */
module Records {
  import opened Text
  import opened Objects

  /** Nanoseconds since the start of year 1; 0 is the zero time. */
  type Time = int

  const SECOND: int := 1_000_000_000
  const DAY: int := 24 * 3600 * SECOND

  predicate IsZero(t: Time) { t == 0 }

  /** Rfc3339Copy: a time that went through its RFC 3339 text has no fraction of a second. */
  function Truncate(t: Time): (r: Time)
    ensures r <= t < r + SECOND && r % SECOND == 0
  {
    t - t % SECOND
  }

  lemma TruncateOnce(t: Time)
    ensures Truncate(Truncate(t)) == Truncate(t)
    ensures t % SECOND == 0 ==> Truncate(t) == t
  {}

  lemma TruncateMonotone(a: Time, b: Time)
    requires a <= b
    ensures Truncate(a) <= Truncate(b)
  {}

  datatype Phase = New | InQueue | InProgress | Completed | Failed

  datatype SnapshotSpec = SnapshotSpec(objectstoreConfig: string, availableUntil: Time, ttl: int)

  datatype SnapshotStatus = SnapshotStatus(
    phase: Phase,
    reason: string,
    snapshotResourceVersion: string,
    snapshotTimestamp: Time,
    availableUntil: Time,
    ttl: int,
    contents: seq<string>,
    numberOfContents: int,
    storedFileSize: int,
    storedTimestamp: Time)

  datatype Record = Record(
    name: string,
    resourceVersion: nat,
    creationTimestamp: Time,
    spec: SnapshotSpec,
    status: SnapshotStatus)

  const EMPTY_STATUS: SnapshotStatus := SnapshotStatus(New, "", "", 0, 0, 0, [], 0, 0, 0)

  predicate Terminal(r: Record) { r.status.phase.Completed? || r.status.phase.Failed? }

  /** The record as the server returns it: every time has gone through its RFC 3339 text. */
  function Persist(r: Record): Record {
    r.(creationTimestamp := Truncate(r.creationTimestamp),
       spec := r.spec.(availableUntil := Truncate(r.spec.availableUntil)),
       status := r.status.(
         snapshotTimestamp := Truncate(r.status.snapshotTimestamp),
         availableUntil := Truncate(r.status.availableUntil),
         storedTimestamp := Truncate(r.status.storedTimestamp)))
  }

  predicate Persisted(r: Record) { Persist(r) == r }

  lemma PersistOnce(r: Record)
    ensures Persisted(Persist(r))
  {
    TruncateOnce(r.creationTimestamp);
    TruncateOnce(r.spec.availableUntil);
    TruncateOnce(r.status.snapshotTimestamp);
    TruncateOnce(r.status.availableUntil);
    TruncateOnce(r.status.storedTimestamp);
  }

  /** updateSnapshotStatus, before the write. */
  function WithPhase(r: Record, phase: Phase, reason: string): Record {
    r.(status := r.status.(phase := phase, reason := reason))
  }

  lemma WithPhasePersisted(r: Record, phase: Phase, reason: string)
    requires Persisted(r)
    ensures Persist(WithPhase(r, phase, reason)) == WithPhase(r, phase, reason)
  {}

  /** Equal up to the version. */
  predicate SameContent(a: Record, b: Record) {
    a.(resourceVersion := 0) == b.(resourceVersion := 0)
  }

  /* ---- archives and the object store ---- */

  datatype Content = ItemFile(item: Item) | SnapshotFile(record: Record) | Garbage
  datatype Entry = Entry(name: string, regular: bool, content: Content)
  type Archive = seq<Entry>

  datatype StoredObject = StoredObject(size: int, timestamp: Time, archive: Archive)
  datatype ObjectInfo = ObjectInfo(name: string, size: int, timestamp: Time, bucketConfigName: string)

  type BucketContents = map<string, StoredObject>

  function InfoOf(cfg: string, name: string, o: StoredObject): ObjectInfo {
    ObjectInfo(name, o.size, o.timestamp, cfg)
  }

  /** snapshot.ObjectMeta.Name + ".tgz". */
  function FileName(snapshotName: string): string { snapshotName + ".tgz" }

  lemma FileNameInjective(a: string, b: string)
    ensures FileName(a) == FileName(b) <==> a == b
    ensures TrimSuffix(FileName(a), ".tgz") == a
  {
    assert FileName(a)[..|FileName(a)| - 4] == a;
    assert FileName(b)[..|FileName(b)| - 4] == b;
    assert FileName(a)[|FileName(a)| - 4..] == ".tgz";
  }

  class ObjectStore {
    /** the contents of the bucket behind each ObjectstoreConfig */
    var buckets: map<string, BucketContents>

    function Bucket(cfg: string): BucketContents
      reads this
    {
      if cfg in buckets then buckets[cfg] else map[]
    }

    method Upload(cfg: string, name: string, o: StoredObject) returns (ok: bool)
      modifies this
      ensures ok == (cfg in old(buckets))
      ensures buckets == if ok then old(buckets)[cfg := old(buckets)[cfg][name := o]] else old(buckets)
    {
      ok := cfg in buckets;
      if ok {
        buckets := buckets[cfg := buckets[cfg][name := o]];
      }
    }

    method Delete(cfg: string, name: string) returns (ok: bool)
      modifies this
      ensures ok == (cfg in old(buckets))
      ensures buckets == if ok then old(buckets)[cfg := old(buckets)[cfg] - {name}] else old(buckets)
    {
      ok := cfg in buckets;
      if ok {
        buckets := buckets[cfg := buckets[cfg] - {name}];
      }
    }

    method GetObjectInfo(cfg: string, name: string) returns (r: Option<ObjectInfo>)
      ensures r == if name in Bucket(cfg) then Some(InfoOf(cfg, name, Bucket(cfg)[name])) else None
    {
      var contents := Bucket(cfg);
      r := if name in contents then Some(InfoOf(cfg, name, contents[name])) else None;
    }

    /** Every object of the bucket once, in some order. */
    method ListObjectInfo(cfg: string) returns (list: seq<ObjectInfo>)
      ensures forall i, j :: 0 <= i < j < |list| ==> list[i].name != list[j].name
      ensures forall o :: o in list <==> o.name in Bucket(cfg) && o == InfoOf(cfg, o.name, Bucket(cfg)[o.name])
    {
      list := [];
      var contents := Bucket(cfg);
      var names := contents.Keys;
      while names != {}
        invariant names <= contents.Keys
        invariant forall i, j :: 0 <= i < j < |list| ==> list[i].name != list[j].name
        invariant forall o :: o in list <==>
          o.name in contents.Keys - names && o == InfoOf(cfg, o.name, contents[o.name])
        decreases names
      {
        var name :| name in names;
        list := list + [InfoOf(cfg, name, contents[name])];
        names := names - {name};
      }
    }
  }

  /* ---- the API server ---- */

  datatype ServerError = NotFound | Conflict | AlreadyExists
  datatype Reply = Reply(record: Record) | Refused(error: ServerError)

  class RecordServer {
    var records: map<string, Record>
    /** the version given to the latest write */
    var version: nat

    ghost predicate Valid()
      reads this
    {
      && (forall n :: n in records ==> records[n].name == n && Persisted(records[n]))
      && (forall n :: n in records ==> records[n].resourceVersion <= version)
      && (forall n, m :: n in records && m in records && n != m ==>
           records[n].resourceVersion != records[m].resourceVersion)
    }

    method Get(name: string) returns (r: Reply)
      ensures r == if name in records then Reply(records[name]) else Refused(NotFound)
    {
      r := if name in records then Reply(records[name]) else Refused(NotFound);
    }

    /** All records, in some order. */
    method List() returns (items: seq<Record>)
      requires Valid()
      ensures forall i, j :: 0 <= i < j < |items| ==> items[i].name != items[j].name
      ensures forall r :: r in items <==> r.name in records && records[r.name] == r
    {
      items := [];
      var names := records.Keys;
      while names != {}
        invariant names <= records.Keys
        invariant forall i, j :: 0 <= i < j < |items| ==> items[i].name != items[j].name
        invariant forall r :: r in items <==> r.name in records.Keys - names && records[r.name] == r
        decreases names
      {
        var name :| name in names;
        items := items + [records[name]];
        names := names - {name};
      }
    }

    /** Update is refused unless it is based on the version that is stored. */
    method Update(r: Record) returns (reply: Reply)
      requires Valid()
      modifies this
      ensures Valid()
      ensures reply.Reply? <==> r.name in old(records) && old(records)[r.name].resourceVersion == r.resourceVersion
      ensures reply.Reply? ==>
        && version == old(version) + 1
        && reply.record ==
             Persist(r).(resourceVersion := version, creationTimestamp := old(records)[r.name].creationTimestamp)
        && records == old(records)[r.name := reply.record]
      ensures reply.Refused? ==> records == old(records) && version == old(version)
    {
      if r.name !in records {
        return Refused(NotFound);
      }
      if records[r.name].resourceVersion != r.resourceVersion {
        return Refused(Conflict);
      }
      version := version + 1;
      PersistOnce(r);
      var stored := Persist(r).(resourceVersion := version, creationTimestamp := records[r.name].creationTimestamp);
      records := records[r.name := stored];
      return Reply(stored);
    }

    method Create(r: Record, now: Time) returns (reply: Reply)
      requires Valid()
      modifies this
      ensures Valid()
      ensures reply.Reply? <==> r.name !in old(records)
      ensures reply.Reply? ==>
        && version == old(version) + 1
        && reply.record == Persist(r.(resourceVersion := version, creationTimestamp := now))
        && records == old(records)[r.name := reply.record]
      ensures reply.Refused? ==> records == old(records) && version == old(version)
    {
      if r.name in records {
        return Refused(AlreadyExists);
      }
      version := version + 1;
      PersistOnce(r.(resourceVersion := version, creationTimestamp := now));
      var stored := Persist(r.(resourceVersion := version, creationTimestamp := now));
      records := records[r.name := stored];
      return Reply(stored);
    }

    method Delete(name: string) returns (reply: Reply)
      requires Valid()
      modifies this`records
      ensures Valid()
      ensures reply == if name in old(records) then Reply(old(records)[name]) else Refused(NotFound)
      ensures records == old(records) - {name}
    {
      if name !in records {
        return Refused(NotFound);
      }
      var r := records[name];
      records := records - {name};
      return Reply(r);
    }
  }
}
