/** pkg/cluster/snapshot.go as a whole: taking a snapshot, writing its archive, and uploading it. */
module SnapshotTaking {
  import opened Text
  import opened Objects
  import opened Resources
  import opened Paths
  import opened EventFold
  import opened Records

  /** What ConfigMapMarker returns of the marker object. */
  datatype Marker = Marker(resourceVersion: string, creation: Time)

  /** The replies of the target cluster, in the order the program asks for them. */
  datatype ClusterReplies = ClusterReplies(
    discovery: Result<Table>,
    startMarker: Result<Marker>,
    listing: GVR -> Result<seq<Item>>,
    watching: GVR -> Result<bool>,
    endMarker: Result<Marker>,
    events: seq<WatchEvent>)

  /** Permanent errors are not retried. */
  datatype Outcome = Done(archive: Archive) | Permanent(message: string) | Retry(message: string)

  predicate ApiPermError(message: string) { Contains(message, "Unauthorized") }

  const PERMANENT_WORDS: seq<string> := ["SignatureDoesNotMatch", "InvalidAccessKeyId", "NoSuchBucket"]

  predicate ObjectstorePermError(message: string) {
    || Contains(message, "SignatureDoesNotMatch")
    || Contains(message, "InvalidAccessKeyId")
    || Contains(message, "NoSuchBucket")
  }

  /* ---- which types are listed ---- */

  predicate Skipped(r: APIResource) { r.name == "nodes" || r.name == "events" }

  function GroupTypes(gv: GroupVersion, rs: seq<APIResource>): seq<GVR> {
    if rs == [] then []
    else GroupTypes(gv, rs[..|rs| - 1]) + (if Skipped(rs[|rs| - 1]) then [] else [GVR(gv, rs[|rs| - 1].name)])
  }

  function TypesOf(t: Table): seq<GVR>
    requires WellFormed(t)
  {
    if t == [] then []
    else
      var last := t[|t| - 1];
      TypesOf(t[..|t| - 1]) + GroupTypes(ParseGroupVersion(last.groupVersion).value, last.resources)
  }

  predicate AllReply(replies: ClusterReplies, types: seq<GVR>) {
    forall i :: 0 <= i < |types| ==> replies.listing(types[i]).Ok? && replies.watching(types[i]).Ok?
  }

  function JoinedLists(replies: ClusterReplies, types: seq<GVR>): seq<Item>
    requires AllReply(replies, types)
  {
    if types == [] then []
    else JoinedLists(replies, types[..|types| - 1]) + replies.listing(types[|types| - 1]).value
  }

  predicate Succeeds(replies: ClusterReplies) {
    && replies.discovery.Ok? && replies.startMarker.Ok? && replies.endMarker.Ok?
    && var t := FilteredBy(replies.discovery.value);
       WellFormed(t) && AllReply(replies, TypesOf(t))
  }

  /** The items of the snapshot: the joined lists with the collected events folded in. */
  function SnapshotItems(replies: ClusterReplies): seq<Item>
    requires Succeeds(replies)
  {
    var t := FilteredBy(replies.discovery.value);
    Fold(PathFn(t), replies.endMarker.value.resourceVersion, JoinedLists(replies, TypesOf(t)), replies.events)
  }

  /* ---- the archive ---- */

  function ItemEntry(name: string, path: PathFunction, item: Item): Entry {
    Entry(EntryName(name, ArchivePathWith(item, path(item))), true, ItemFile(item))
  }

  function ItemEntries(name: string, path: PathFunction, items: seq<Item>): seq<Entry> {
    Map((item: Item) => ItemEntry(name, path, item), items)
  }

  function SnapshotEntry(name: string, record: Record): Entry {
    Entry(name + "/snapshot.json", true, SnapshotFile(record))
  }

  /** The status after a successful snapshot with end marker m. */
  function TakenStatus(spec: SnapshotSpec, status: SnapshotStatus, m: Marker, contents: seq<string>): SnapshotStatus {
    var until := if IsZero(spec.availableUntil) then m.creation + spec.ttl else spec.availableUntil;
    status.(contents := contents,
            numberOfContents := |contents|,
            snapshotTimestamp := m.creation,
            availableUntil := until,
            ttl := if IsZero(spec.availableUntil) then spec.ttl else until - m.creation,
            snapshotResourceVersion := m.resourceVersion)
  }

  /** The copy of the record that goes into the archive. */
  function ArchivedRecord(r: Record): Record {
    r.(resourceVersion := 0, status := r.status.(phase := New))
  }

  class SnapshotObject {
    const name: string
    const creationTimestamp: Time
    var resourceVersion: nat
    var spec: SnapshotSpec
    var status: SnapshotStatus

    constructor (r: Record)
      ensures ToRecord() == r
    {
      name, creationTimestamp, resourceVersion, spec, status :=
        r.name, r.creationTimestamp, r.resourceVersion, r.spec, r.status;
    }

    function ToRecord(): Record
      reads this
    {
      Record(name, resourceVersion, creationTimestamp, spec, status)
    }
  }

  /** Lists and watches the types of one group version. */
  method ListGroup(gv: GroupVersion, rs: seq<APIResource>, replies: ClusterReplies, ghost before: seq<GVR>,
        joined: seq<Item>)
    returns (r: Result<seq<Item>>)
    requires AllReply(replies, before) && joined == JoinedLists(replies, before)
    ensures r.Ok? <==> AllReply(replies, before + GroupTypes(gv, rs))
    ensures r.Ok? ==> r.value == JoinedLists(replies, before + GroupTypes(gv, rs))
  {
    var snapshotList := joined;
    assert rs[..0] == [] && before + [] == before;
    for j := 0 to |rs|
      invariant AllReply(replies, before + GroupTypes(gv, rs[..j]))
      invariant snapshotList == JoinedLists(replies, before + GroupTypes(gv, rs[..j]))
    {
      ghost var types, types' := before + GroupTypes(gv, rs[..j]), before + GroupTypes(gv, rs[..j + 1]);
      assert rs[..j + 1][..j] == rs[..j];
      if Skipped(rs[j]) {
        assert types' == types;
        continue;
      }
      var gvr := GVR(gv, rs[j].name);
      assert types' == types + [gvr] && types'[..|types|] == types;
      var list := replies.listing(gvr);
      if list.Err? {
        GroupTypeIsListed(gv, rs, j);
        assert gvr in before + GroupTypes(gv, rs);
        return Err(list.message);
      }
      var watch := replies.watching(gvr);
      if watch.Err? {
        GroupTypeIsListed(gv, rs, j);
        assert gvr in before + GroupTypes(gv, rs);
        return Err(watch.message);
      }
      snapshotList := snapshotList + list.value;
    }
    assert rs[..|rs|] == rs;
    return Ok(snapshotList);
  }

  /** Lists and watches every type of the table; an error ends the snapshot. */
  method ListAndWatch(sr: ServerResources, replies: ClusterReplies) returns (r: Result<seq<Item>>)
    ensures r.Ok? <==> WellFormed(sr.table) && AllReply(replies, TypesOf(sr.table))
    ensures r.Ok? ==> r.value == JoinedLists(replies, TypesOf(sr.table))
  {
    hide ParseGroupVersion, JoinedLists;
    var t := sr.table;
    assert t[..0] == [];
    var snapshotList := NoTypes(replies);
    for i := 0 to |t|
      invariant WellFormed(t[..i]) && AllReply(replies, TypesOf(t[..i]))
      invariant snapshotList == JoinedLists(replies, TypesOf(t[..i]))
    {
      var gv := ParseGroupVersion(t[i].groupVersion);
      if gv.None? {
        return Err(NOT_PARSED);
      }
      assert t[..i + 1][..i] == t[..i];
      var group := ListGroup(gv.value, t[i].resources, replies, TypesOf(t[..i]), snapshotList);
      if group.Err? {
        if WellFormed(t) { TypesPrefix(t, i + 1); }
        return group;
      }
      snapshotList := group.value;
    }
    assert t[..|t|] == t;
    return Ok(snapshotList);
  }

  function NoTypes(replies: ClusterReplies): (list: seq<Item>)
    ensures list == JoinedLists(replies, [])
  {
    []
  }

  lemma {:induction false} TypesPrefix(t: Table, i: nat)
    requires WellFormed(t) && i <= |t|
    ensures TypesOf(t[..i]) <= TypesOf(t)
    decreases |t| - i
  {
    if i == |t| {
      assert t[..i] == t;
    } else {
      assert t[..i + 1][..i] == t[..i];
      TypesPrefix(t, i + 1);
    }
  }

  lemma {:induction false} GroupTypeIsListed(gv: GroupVersion, rs: seq<APIResource>, j: nat)
    requires j < |rs| && !Skipped(rs[j])
    ensures GVR(gv, rs[j].name) in GroupTypes(gv, rs)
  {
    if j < |rs| - 1 { GroupTypeIsListed(gv, rs[..|rs| - 1], j); }
  }

  /** Writes one archive entry per item and records its path. */
  method WriteItems(snapshot: SnapshotObject, sr: ServerResources, snapshotList: seq<Item>) returns (archive: Archive)
    requires sr.Valid() && WellFormed(sr.table)
    modifies snapshot`status, sr`resourceNames
    ensures sr.Valid()
    ensures archive == ItemEntries(snapshot.name, PathFn(sr.table), snapshotList)
    ensures snapshot.status == old(snapshot.status).(
      contents := Map(ArchivePathFn(PathFn(sr.table)), snapshotList),
      numberOfContents := |snapshotList|)
  {
    hide PathFn;
    var path := PathFn(sr.table);
    archive := [];
    snapshot.status := snapshot.status.(contents := [], numberOfContents := 0);
    for i := 0 to |snapshotList|
      invariant sr.Valid()
      invariant archive == ItemEntries(snapshot.name, path, snapshotList[..i])
      invariant snapshot.status == old(snapshot.status).(
        contents := Map(ArchivePathFn(path), snapshotList[..i]), numberOfContents := i)
    {
      var item := snapshotList[i];
      var itempath := PathOrBlank(sr, item);
      if item.kind == "Namespace" {
        itempath := "/namespaces/" + item.name;
      }
      if item.kind == "CustomResourceDefinition" {
        itempath := "/crds/" + item.name;
      }
      archive := archive + [Entry(EntryName(snapshot.name, itempath), true, ItemFile(item))];
      snapshot.status := snapshot.status.(
        contents := snapshot.status.contents + [itempath],
        numberOfContents := snapshot.status.numberOfContents + 1);
    }
    assert snapshotList[..|snapshotList|] == snapshotList;
  }

  /** SnapshotWithClient. */
  method SnapshotWithClient(snapshot: SnapshotObject, replies: ClusterReplies) returns (r: Outcome)
    modifies snapshot`status
    ensures r.Done? <==> Succeeds(replies)
    ensures !r.Done? ==> snapshot.status == old(snapshot.status)
    ensures r.Permanent? <==> replies.discovery.Err? && Contains(replies.discovery.message, "Unauthorized")
    ensures r.Done? ==>
      var path := PathFn(FilteredBy(replies.discovery.value));
      var items := SnapshotItems(replies);
      && snapshot.status ==
           TakenStatus(snapshot.spec, old(snapshot.status), replies.endMarker.value, Contents(path, items))
      && var record := snapshot.ToRecord();
      r.archive == ItemEntries(snapshot.name, path, items) + [SnapshotEntry(snapshot.name,
        record.(resourceVersion := 0, status := record.status.(phase := New)))]
  {
    hide PathFn, Fold, ParseGroupVersion, SortStrings, JoinedLists, TypesOf, FilteredBy;
    if replies.discovery.Err? {
      if ApiPermError(replies.discovery.message) {
        return Permanent(replies.discovery.message);
      }
      return Retry(replies.discovery.message);
    }
    var sr := new ServerResources(replies.discovery.value);
    if replies.startMarker.Err? {
      return Retry(replies.startMarker.message);
    }
    var lists := ListAndWatch(sr, replies);
    if lists.Err? {
      return Retry(lists.message);
    }
    if replies.endMarker.Err? {
      return Retry(replies.endMarker.message);
    }
    var marker := replies.endMarker.value;
    var snapshotList := SyncEvents(sr, marker.resourceVersion, lists.value, replies.events);
    var archive := WriteItems(snapshot, sr, snapshotList);
    SetTaken(snapshot, marker);
    return Done(archive + [SnapshotEntry(snapshot.name, ArchivedRecord(snapshot.ToRecord()))]);
  }

  /** Records the end marker, the deadline and the sorted contents. */
  method SetTaken(snapshot: SnapshotObject, marker: Marker)
    requires snapshot.status.numberOfContents == |snapshot.status.contents|
    modifies snapshot`status
    ensures snapshot.status ==
      TakenStatus(snapshot.spec, old(snapshot.status), marker, SortStrings(old(snapshot.status.contents)))
  {
    snapshot.status := snapshot.status.(snapshotTimestamp := marker.creation);
    if IsZero(snapshot.spec.availableUntil) {
      snapshot.status :=
        snapshot.status.(availableUntil := marker.creation + snapshot.spec.ttl, ttl := snapshot.spec.ttl);
    } else {
      snapshot.status := snapshot.status.(availableUntil := snapshot.spec.availableUntil);
      snapshot.status := snapshot.status.(ttl := snapshot.status.availableUntil - snapshot.status.snapshotTimestamp);
    }
    snapshot.status := snapshot.status.(snapshotResourceVersion := marker.resourceVersion);
    snapshot.status := snapshot.status.(contents := SortStrings(snapshot.status.contents));
  }

  /** UploadSnapshot: stores the archive, reads its info back and notes the stored size and time. If
      the info cannot be read the upload counts as failed, but the object stays. */
  method UploadSnapshot(snapshot: SnapshotObject, store: ObjectStore, cfg: string, file: StoredObject,
        uploadError: Option<string>, infoError: Option<string>)
    returns (r: Outcome)
    modifies snapshot`status, store
    ensures r.Done? <==> uploadError.None? && infoError.None? && cfg in old(store.buckets)
    ensures r.Permanent? ==> uploadError.Some?
    ensures uploadError.Some? ==> (r.Permanent? <==>
      exists m :: m in PERMANENT_WORDS && Contains(uploadError.value, m))
    ensures store.buckets ==
      if uploadError.None? && cfg in old(store.buckets)
      then old(store.buckets)[cfg := old(store.buckets)[cfg][FileName(snapshot.name) := file]] else old(store.buckets)
    ensures snapshot.status ==
      if r.Done? then old(snapshot.status).(storedTimestamp := file.timestamp, storedFileSize := file.size)
      else old(snapshot.status)
  {
    if uploadError.Some? {
      if ObjectstorePermError(uploadError.value) {
        return Permanent(uploadError.value);
      }
      return Retry(uploadError.value);
    }
    var uploaded := store.Upload(cfg, FileName(snapshot.name), file);
    if infoError.Some? {
      return Retry(infoError.value);
    }
    var info := store.GetObjectInfo(cfg, FileName(snapshot.name));
    if info.None? {
      return Retry("Getting objectstore file info failed");
    }
    snapshot.status := snapshot.status.(storedTimestamp := info.value.timestamp);
    snapshot.status := snapshot.status.(storedFileSize := info.value.size);
    return Done(file.archive);
  }
}
