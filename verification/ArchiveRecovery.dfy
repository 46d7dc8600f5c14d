/** The archives the program writes are ones it can rebuild the snapshot record from: what
    SnapshotWithClient puts in (pkg/cluster/snapshot.go) is what the syncer finds
    (backup_syncer.go). */
module ArchiveRecovery {
  import opened Text
  import opened Objects
  import opened Resources
  import opened Paths
  import opened EventFold
  import opened Records
  import opened Reconciliation
  import opened ObjectSyncer
  import opened SnapshotTaking

  lemma ArchivePathStart(t: Table, item: Item)
    ensures var p := ArchivePathWith(item, PathFn(t)(item)); p == "" || (|p| > 1 && p[1] in {'a', 'n', 'c'})
  {
    hide ParseGroupVersion, Uncached;
  }

  /** No item of the archive is taken for the snapshot file. */
  lemma ItemIsNotSnapshotFile(name: string, t: Table, item: Item)
    ensures ReplaceFirst(ItemEntry(name, PathFn(t), item).name, name, "") != "/snapshot.json"
  {
    ArchivePathStart(t, item);
    var p := ArchivePathWith(item, PathFn(t)(item));
    StripRecovers(name, p);
    assert p != "" ==> (p + ".json")[1] == p[1];
    assert p == "" ==> (p + ".json")[0] == '.';
  }

  lemma {:induction false} EntriesAreItems(name: string, path: PathFunction, items: seq<Item>)
    ensures |ItemEntries(name, path, items)| == |items|
    ensures forall k :: 0 <= k < |items| ==> ItemEntries(name, path, items)[k] == ItemEntry(name, path, items[k])
  {}

  lemma {:induction false} FindAfterItems(name: string, t: Table, items: seq<Item>, rest: Archive)
    ensures FindSnapshotJson(ItemEntries(name, PathFn(t), items) + rest, name) == FindSnapshotJson(rest, name)
  {
    hide ReplaceFirst, PathFn, ItemEntries, ItemEntry;
    var entries := ItemEntries(name, PathFn(t), items);
    EntriesAreItems(name, PathFn(t), items);
    if items == [] {
      assert entries + rest == rest;
    } else {
      ItemIsNotSnapshotFile(name, t, items[0]);
      EntriesAreItems(name, PathFn(t), items[1..]);
      assert entries[1..] == ItemEntries(name, PathFn(t), items[1..]);
      assert (entries + rest)[1..] == entries[1..] + rest;
      FindAfterItems(name, t, items[1..], rest);
    }
  }

  /** Whatever was in the cluster, the archive of a snapshot yields exactly the record that was
      written into it. */
  lemma ArchiveYieldsRecord(name: string, t: Table, items: seq<Item>, r: Record)
    ensures FindSnapshotJson(ItemEntries(name, PathFn(t), items) + [SnapshotEntry(name, r)], name) ==
      Some(SnapshotFile(r))
  {
    FindAfterItems(name, t, items, [SnapshotEntry(name, r)]);
    hide PathFn, ItemEntries;
    var e := SnapshotEntry(name, r);
    assert e.name[|name|..] == "/snapshot.json";
    assert "" + e.name[|name|..] == e.name[|name|..];
    assert [e][0] == e;
  }

  /** What is kept of a snapshot record through loss and rebuild: everything the user asked for and
      everything the snapshot measured, up to fractions of a second. */
  predicate SameSnapshot(a: Record, b: Record) {
    && a.name == b.name
    && a.spec.objectstoreConfig == b.spec.objectstoreConfig && a.spec.ttl == b.spec.ttl
    && a.spec.availableUntil == Truncate(b.spec.availableUntil)
    && a.status.snapshotResourceVersion == b.status.snapshotResourceVersion
    && a.status.snapshotTimestamp == Truncate(b.status.snapshotTimestamp)
    && a.status.contents == b.status.contents && a.status.numberOfContents == b.status.numberOfContents
    && a.status.ttl == b.status.ttl
  }

  /** A snapshot that was taken of replies and uploaded can be rebuilt: the stored object is
      readable and named after its record, and the rebuilt record is the one that was taken. */
  lemma TakenSnapshotIsRecoverable(before: Record, replies: ClusterReplies,
        buckets: map<string, BucketContents>, cfg: string, size: int, time: Time, now: Time)
    requires Succeeds(replies) && cfg in buckets
    ensures var path := PathFn(FilteredBy(replies.discovery.value));
            var items := SnapshotItems(replies);
            var taken := before.(status :=
              TakenStatus(before.spec, before.status, replies.endMarker.value, Contents(path, items)));
            var archive := ItemEntries(before.name, path, items) + [SnapshotEntry(before.name, ArchivedRecord(taken))];
            var stored := StoredObject(size, time, archive);
            var o := InfoOf(cfg, FileName(before.name), stored);
            var buckets' := buckets[cfg := buckets[cfg][FileName(before.name) := stored]];
            && SoundOrphan(buckets', o)
            && ArchivedIn(buckets', o) == Some(ArchivedRecord(taken))
            && var rebuilt := Rebuilt(ArchivedIn(buckets', o).value, o, now);
            && SameSnapshot(rebuilt, taken)
            && rebuilt.status.storedFileSize == size && rebuilt.status.storedTimestamp == Truncate(time)
  {
    var path := PathFn(FilteredBy(replies.discovery.value));
    var items := SnapshotItems(replies);
    var taken := before.(status :=
      TakenStatus(before.spec, before.status, replies.endMarker.value, Contents(path, items)));
    ArchiveYieldsRecord(before.name, FilteredBy(replies.discovery.value), items, ArchivedRecord(taken));
    FileNameInjective(before.name, before.name);
    hide PathFn, SnapshotItems, Contents, FilteredBy, FindSnapshotJson, ItemEntries, Truncate;
  }
}
