/** The whole way: a snapshot taken of a cluster while it was being written to, archived, and
    restored into an empty cluster (snapshot.go:99-352, restore.go:213-398). */
module SnapshotRestore {
  import opened Objects
  import opened Resources
  import opened Paths
  import opened EventFold
  import opened SnapshotConsistency
  import opened Tracker
  import opened TrackerProtocol
  import opened RestorePipeline
  import opened RestoredContent
  import opened RoundTrip
  import opened Classification
  import opened Admission
  import opened ListedTypes
  import Records
  import RestorePreference
  import EndToEnd
  import RestoreGuarantees
  import SnapshotTaking

  /** The replies the program got are those of the run: its types, its lists, its deliveries and its
      end marker. */
  ghost predicate Reflects(replies: SnapshotTaking.ClusterReplies, run: Run) {
    && SnapshotTaking.Succeeds(replies) && run.Shape()
    && run.types == SnapshotTaking.TypesOf(FilteredBy(replies.discovery.value))
    && (forall k :: 0 <= k < |run.types| ==> run.lists[k] == replies.listing(run.types[k]).value)
    && run.events == replies.events && run.EndRV() == replies.endMarker.value.resourceVersion
  }

  lemma {:induction false} JoinedIsConcat(replies: SnapshotTaking.ClusterReplies, types: seq<GVR>,
        lists: seq<seq<Item>>)
    requires SnapshotTaking.AllReply(replies, types) && |lists| == |types|
    requires forall k :: 0 <= k < |types| ==> lists[k] == replies.listing(types[k]).value
    ensures SnapshotTaking.JoinedLists(replies, types) == Concat(lists)
  {
    if types != [] {
      JoinedIsConcat(replies, types[..|types| - 1], lists[..|lists| - 1]);
    }
  }

  /** What the program archives is the result of the run. */
  lemma SnapshotItemsAreResult(replies: SnapshotTaking.ClusterReplies, run: Run)
    requires Reflects(replies, run)
    ensures SnapshotTaking.SnapshotItems(replies) == run.Result(PathFn(FilteredBy(replies.discovery.value)))
  {
    hide PathFn, FilteredBy, Fold, SnapshotTaking.TypesOf;
    JoinedIsConcat(replies, run.types, run.lists);
  }

  /** The cluster holds the object just before the end marker, under a type that the discovered
      table offers, other than nodes and events. */
  ghost predicate InCluster(discovered: Table, run: Run, x: Item)
    requires run.Shape()
  {
    exists g :: ToSnapshot(discovered, g) && StoredUnder(run, g, x)
  }

  /** The item is what restoring an object of the cluster creates. */
  ghost predicate WasThere(spec: RestorePreference.PreferenceSpec, discovered: Table, run: Run, item: Item)
    requires run.Shape()
  {
    exists x :: InCluster(discovered, run, x) && RecreatedAs(spec, FilteredBy(discovered), item, x)
  }

  /** A restore into an empty cluster created exactly the wanted objects of the cluster that the
      snapshot was taken of, each once and with its content. */
  ghost predicate Recovers(spec: RestorePreference.PreferenceSpec, discovered: Table, run: Run, log: seq<Item>)
    requires run.Shape()
  {
    var t := FilteredBy(discovered);
    && EndToEnd.DistinctKeys(t, log)
    && (forall k :: 0 <= k < |log| ==> WasThere(spec, discovered, run, log[k]))
    && (forall x :: InCluster(discovered, run, x) ==>
          CreatedIff(spec, t, log, x, Wanted(spec, t, run.Result(PathFn(t)), x)))
  }

  /** The run listed the types of the discovered table. */
  predicate ListsDiscovered(discovered: Table, run: Run) {
    WellFormed(FilteredBy(discovered)) && run.types == SnapshotTaking.TypesOf(FilteredBy(discovered))
  }

  /** The snapshot holds exactly the objects that the cluster holds just before the end marker, of
      every type it offers but nodes and events. */
  lemma SnapshotHoldsCluster(discovered: Table, run: Run, x: Item)
    requires TrackerRun(FilteredBy(discovered), run) && ListsDiscovered(discovered, run)
    ensures x in run.Result(PathFn(FilteredBy(discovered))) <==> InCluster(discovered, run, x)
  {
    hide PathFn, StoredUnder, ServedLog, Listing, ToSnapshot, FilteredBy, SnapshotTaking.TypesOf, Fold;
    TrackerSnapshotIsConsistent(FilteredBy(discovered), run, x);
    if k :| 0 <= k < |run.types| && StoredAt(run, k, x) {
      ListedTypesAre(discovered, run.types[k]);
      assert run.types[k] in run.types;
    }
    if g :| ToSnapshot(discovered, g) && StoredUnder(run, g, x) {
      ListedTypesAre(discovered, g);
      var k :| 0 <= k < |run.types| && run.types[k] == g;
      assert StoredAt(run, k, x);
    }
  }

  lemma ResultIsCluster(discovered: Table, run: Run)
    requires TrackerRun(FilteredBy(discovered), run) && ListsDiscovered(discovered, run)
    ensures forall x :: x in run.Result(PathFn(FilteredBy(discovered))) <==> InCluster(discovered, run, x)
  {
    hide PathFn, InCluster, ServedLog, Listing, StrictLog, Late, Deliveries, FilteredBy, Fold;
    forall x ensures x in run.Result(PathFn(FilteredBy(discovered))) <==> InCluster(discovered, run, x) {
      SnapshotHoldsCluster(discovered, run, x);
    }
  }

  /* ---- a tracker's objects can be archived ---- */

  predicate Namesakes(x: Item, y: Item) { TopLevel(x) && x.kind == y.kind && x.name == y.name }

  /** No path contains the character that stands for a slash, and no two Namespace objects and no
      two CRDs share a name. */
  ghost predicate PlainNames(discovered: Table, run: Run)
    requires run.Shape()
  {
    && (forall x :: InCluster(discovered, run, x) ==> BarFree(FilteredBy(discovered), x))
    && (forall x, y :: InCluster(discovered, run, x) && InCluster(discovered, run, y) && x != y ==> !Namesakes(x, y))
  }

  lemma ServedKey(t: Table, g: GVR, x: Item)
    requires ServedAs(t, g, x)
    ensures Addressable(t, x) && RestorePipeline.KeyOf(t, x) == Ok(ObjectKey(g, x.namespace, x.name))
  {
    hide Uncached, ParseGroupVersion, FormatGV;
  }

  lemma StoredIsServedAs(t: Table, discovered: Table, run: Run, x: Item) returns (g: GVR)
    requires TrackerRun(t, run) && InCluster(discovered, run, x)
    ensures ServedAs(t, g, x)
  {
    hide ServedAs, StateOf, Listing, Deliveries, ToSnapshot;
    g :| ToSnapshot(discovered, g) && StoredUnder(run, g, x);
    StoredIsServed(t, run.log, run.end, g, Key(x));
  }

  lemma ClusterObjectKey(t: Table, discovered: Table, run: Run, x: Item)
    requires TrackerRun(t, run) && InCluster(discovered, run, x)
    ensures Addressable(t, x) && RestorePipeline.KeyOf(t, x).Ok?
  {
    hide TrackerRun, InCluster, Addressable, RestorePipeline.KeyOf, ServedAs;
    var g := StoredIsServedAs(t, discovered, run, x);
    ServedKey(t, g, x);
  }

  lemma DifferentKeys(t: Table, discovered: Table, run: Run, x: Item, y: Item)
    requires TrackerRun(t, run) && InCluster(discovered, run, x) && InCluster(discovered, run, y)
    requires PathFn(t)(x) != PathFn(t)(y)
    ensures RestorePipeline.KeyOf(t, x) != RestorePipeline.KeyOf(t, y)
  {
    hide TrackerRun, InCluster, Addressable, RestorePipeline.KeyOf, ServedAs, PathFn;
    var g := StoredIsServedAs(t, discovered, run, x);
    var h := StoredIsServedAs(t, discovered, run, y);
    ServedKey(t, g, x);
    ServedKey(t, h, y);
    PathIsKey(t, g, x, h, y);
  }

  lemma ResultIsUnique(t: Table, run: Run)
    requires TrackerRun(t, run)
    ensures Unique(PathFn(t), run.Result(PathFn(t)))
  {
    hide PathFn, TrackerRun, Fold;
    TrackerRunIsValid(t, run);
    SnapshotIsConsistent(PathFn(t), run, "");
  }

  lemma DistinctIsArchivable(discovered: Table, run: Run, items: seq<Item>)
    requires run.Shape() && TrackerRun(FilteredBy(discovered), run) && PlainNames(discovered, run)
    requires Unique(PathFn(FilteredBy(discovered)), items)
    requires forall x :: x in items <==> InCluster(discovered, run, x)
    ensures ClusterObjects(FilteredBy(discovered), items)
  {
    hide TrackerRun, PathFn, InCluster, RestorePipeline.KeyOf, Addressable, FilteredBy, BarFree;
    var t := FilteredBy(discovered);
    forall i | 0 <= i < |items|
      ensures Addressable(t, items[i]) && BarFree(t, items[i]) && RestorePipeline.KeyOf(t, items[i]).Ok?
    {
      assert items[i] in items;
      ClusterObjectKey(t, discovered, run, items[i]);
    }
    forall i, j | 0 <= i < j < |items|
      ensures RestorePipeline.KeyOf(t, items[i]) != RestorePipeline.KeyOf(t, items[j])
      ensures !Namesakes(items[i], items[j])
    {
      assert items[i] in items && items[j] in items;
      assert PathFn(t)(items[i]) != PathFn(t)(items[j]);
      DifferentKeys(t, discovered, run, items[i], items[j]);
    }
  }

  /** Everything in the cluster is addressable, and different objects have different keys. */
  lemma ClusterIsArchivable(discovered: Table, run: Run)
    requires TrackerRun(FilteredBy(discovered), run) && ListsDiscovered(discovered, run)
    requires PlainNames(discovered, run)
    ensures ClusterObjects(FilteredBy(discovered), run.Result(PathFn(FilteredBy(discovered))))
  {
    ResultIsCluster(discovered, run);
    ResultIsUnique(FilteredBy(discovered), run);
    var items := run.Result(PathFn(FilteredBy(discovered)));
    assert run.Shape();
    hide *;
    DistinctIsArchivable(discovered, run, items);
  }

  /* ---- composition ---- */

  lemma ArchivedResult(replies: SnapshotTaking.ClusterReplies, run: Run, name: string, r: Records.Record)
    requires Reflects(replies, run)
    ensures var t := FilteredBy(replies.discovery.value);
            SnapshotTaking.ItemEntries(name, PathFn(t), SnapshotTaking.SnapshotItems(replies))
            + [SnapshotTaking.SnapshotEntry(name, r)] == RestoreGuarantees.ArchiveOf(name, t, run.Result(PathFn(t)), r)
  {
    SnapshotItemsAreResult(replies, run);
    hide PathFn, FilteredBy, SnapshotTaking.SnapshotItems, SnapshotTaking.ItemEntries;
  }

  lemma WantedRecover(spec: RestorePreference.PreferenceSpec, discovered: Table, run: Run, log: seq<Item>)
    requires TrackerRun(FilteredBy(discovered), run) && ListsDiscovered(discovered, run)
    requires EndToEnd.DistinctKeys(FilteredBy(discovered), log)
    requires CreatesWanted(spec, FilteredBy(discovered), run.Result(PathFn(FilteredBy(discovered))), log)
    ensures Recovers(spec, discovered, run, log)
  {
    var items := run.Result(PathFn(FilteredBy(discovered)));
    ResultIsCluster(discovered, run);
    hide *;
    ItemsRecover(spec, discovered, run, items, log);
  }

  lemma ItemsRecover(spec: RestorePreference.PreferenceSpec, discovered: Table, run: Run, items: seq<Item>,
        log: seq<Item>)
    requires run.Shape() && items == run.Result(PathFn(FilteredBy(discovered)))
    requires forall x :: x in items <==> InCluster(discovered, run, x)
    requires EndToEnd.DistinctKeys(FilteredBy(discovered), log)
    requires CreatesWanted(spec, FilteredBy(discovered), items, log)
    ensures Recovers(spec, discovered, run, log)
  {
    hide PathFn, Wanted, InCluster, RecreatedAs, CreatedIff, EndToEnd.DistinctKeys, Fold, FilteredBy;
    var t := FilteredBy(discovered);
    forall k | 0 <= k < |log| ensures WasThere(spec, discovered, run, log[k]) {
      assert Known(spec, t, items, log[k]);
      var x :| x in items && RecreatedAs(spec, t, log[k], x);
    }
    forall x | InCluster(discovered, run, x)
      ensures CreatedIff(spec, t, log, x, Wanted(spec, t, run.Result(PathFn(t)), x))
    {
      assert x in items;
    }
  }

  /** Main composition: for every history of writes and every interleaving of the watches, the
      archive that the program makes of a tracker's cluster, restored into an empty cluster that
      serves, admits and binds everything, custom types from the restored CRDs on, creates exactly
      the wanted objects of the state just before the end marker, of every type the server offers
      but nodes and events, each once and with its content. */
  lemma SnapshotThenRestore(replies: SnapshotTaking.ClusterReplies, run: Run, spec: RestorePreference.PreferenceSpec,
        rs: RestoreSpec, target: Replies, r: Records.Record, st: RestoreStatus)
    requires Reflects(replies, run) && TrackerRun(FilteredBy(replies.discovery.value), run)
    requires var t := FilteredBy(replies.discovery.value);
             var items := run.Result(PathFn(t));
             && PlainNames(replies.discovery.value, run) && OneClaimEach(spec, t, items)
             && Welcomes(target, spec, t, items,
                  EndToEnd.ItemsOf(EndToEnd.PlanOf(spec, TreeOf(spec, rs.snapshotName, t, items, r))))
    ensures var t := FilteredBy(replies.discovery.value);
            var archive := SnapshotTaking.ItemEntries(rs.snapshotName, PathFn(t), SnapshotTaking.SnapshotItems(replies))
                           + [SnapshotTaking.SnapshotEntry(rs.snapshotName, r)];
            var flow := RestoreResources(spec, rs, target, archive, World(Cluster(map[], []), st));
            flow.Go? && Recovers(spec, replies.discovery.value, run, flow.world.cluster.log)
  {
    var discovered := replies.discovery.value;
    var t := FilteredBy(discovered);
    var items := run.Result(PathFn(t));
    assert ListsDiscovered(discovered, run);
    var flow := RestoreResources(spec, rs, target, RestoreGuarantees.ArchiveOf(rs.snapshotName, t, items, r),
      World(Cluster(map[], []), st));
    ArchivedResult(replies, run, rs.snapshotName, r);
    hide *;
    ClusterIsArchivable(discovered, run);
    WantedAreRestored(spec, rs, target, t, items, r, st);
    WantedRecover(spec, discovered, run, flow.world.cluster.log);
  }
}
