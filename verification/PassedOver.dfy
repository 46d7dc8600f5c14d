/** The claims that restoreDir passes over without recording them (restore.go:134-137), and the
    account of a restore in terms of the archived objects. */
module PassedOver {
  import opened Text
  import opened Objects
  import opened Resources
  import opened Paths
  import opened Records
  import opened RestorePreference
  import opened Extraction
  import opened RestorePipeline
  import opened RestoreAccount
  import opened Classification
  import opened RestoreGuarantees
  import opened RoundTrip
  import SnapshotTaking
  import EventFold

  /** A claim without owners that has been extracted to directory d. */
  predicate SlipsInto(spec: PreferenceSpec, t: Table, d: Dir, a: Item) {
    a.kind == "PersistentVolumeClaim" && a.owners == [] && Prefered(spec, EntryPath(t, a)) == d
  }

  /** Some archived claim has. */
  predicate SomeSlipsInto(spec: PreferenceSpec, t: Table, items: seq<Item>, d: Dir) {
    exists a :: a in items && SlipsInto(spec, t, d, a)
  }

  lemma {:induction false} AnyUnseenCounts(lists: Lists, files: Folder)
    ensures CountUnseen(lists, files) == 0 <==> forall f :: f in files ==> !Unseen(lists, f)
  {
    hide Unseen;
    if files != [] {
      var n := |files| - 1;
      AnyUnseenCounts(lists, files[..n]);
      assert files == files[..n] + [files[n]];
    }
  }

  lemma UnseenIsClaim(lists: Lists, t: Table, a: Item)
    ensures Unseen(lists, FileOf(t, a)) <==> a.kind == "PersistentVolumeClaim" && a.owners == []
  {
    hide EntryPath, Escape;
    assert LoadItem(FileOf(t, a)) == Ok(a);
    assert |"PersistentVolumeClaim"| == 21 && |"Secret"| == 6 && |"ClusterRole"| == 11 && |"ClusterRoleBinding"| == 18;
  }

  /** A directory pass records every one of its files exactly if no claim has slipped into its
      directory. */
  lemma AllSeenIffNoClaim(spec: PreferenceSpec, name: string, t: Table, items: seq<Item>, r: Record,
        lists: Lists, d: Dir)
    requires ClusterObjects(t, items) && !d.Exclude?
    ensures var tree := TreeOf(spec, name, t, items, r);
            SeenSize(lists, tree, d) == Size(tree, d) <==> !SomeSlipsInto(spec, t, items, d)
  {
    hide EntryPath, Escape, Prefered, TreeOf, ClusterObjects, Unseen;
    var files := FilesOf(TreeOf(spec, name, t, items, r), d);
    AnyUnseenCounts(lists, files);
    if f :| f in files && Unseen(lists, f) {
      FilesAreItems(spec, name, t, items, r, d, f);
      var a :| a in items && FileFor(spec, t, a, d, f);
      UnseenIsClaim(lists, t, a);
      assert SlipsInto(spec, t, d, a);
    }
    if a :| a in items && SlipsInto(spec, t, d, a) {
      FilesAreItems(spec, name, t, items, r, d, FileOf(t, a));
      UnseenIsClaim(lists, t, a);
    }
  }

  /* ---- the account of the archived objects ---- */

  lemma {:induction false} AllButOneRelevant(archive: Archive, name: string)
    requires forall i :: 0 <= i < |archive| ==> Relevant(archive[i], name)
    ensures CountRelevant(archive, name) == |archive|
  {
    hide Relevant;
    if archive != [] { AllButOneRelevant(archive[..|archive| - 1], name); }
  }

  lemma ItemsAreRelevant(name: string, t: Table, items: seq<Item>, r: Record)
    ensures CountRelevant(ArchiveOf(name, t, items, r), name) == |items|
  {
    var entries := SnapshotTaking.ItemEntries(name, EventFold.PathFn(t), items);
    var archive := ArchiveOf(name, t, items, r);
    assert archive == entries + [SnapshotTaking.SnapshotEntry(name, r)] && archive[..|archive| - 1] == entries;
    hide EventFold.PathFn, StripName, SnapshotTaking.ItemEntry, Relevant, ArchiveOf;
    forall i | 0 <= i < |entries| ensures Relevant(entries[i], name) {
      ItemIsRelevant(name, t, items[i]);
    }
    AllButOneRelevant(entries, name);
    SnapshotEntryPath(name, r);
  }

  /** The files that the four directory passes should handle. */
  function PlainSize(tree: Tree): nat {
    Size(tree, NamespaceDir) + Size(tree, CrdDir) + Size(tree, RestoreDir) + Size(tree, AppDir)
  }

  predicate NoClaimSlips(spec: PreferenceSpec, t: Table, items: seq<Item>) {
    forall d :: d in {NamespaceDir, CrdDir, RestoreDir, AppDir} ==> !SomeSlipsInto(spec, t, items, d)
  }

  lemma SeenAtMost(lists: Lists, tree: Tree, d: Dir)
    ensures SeenSize(lists, tree, d) <= Size(tree, d)
  {
    UnseenBound(lists, FilesOf(tree, d));
  }

  lemma PlainSeen(spec: PreferenceSpec, name: string, t: Table, items: seq<Item>, r: Record, lists: Lists)
    requires ClusterObjects(t, items)
    ensures var tree := TreeOf(spec, name, t, items, r);
            SeenSize(lists, tree, NamespaceDir) + SeenSize(lists, tree, CrdDir)
              + SeenSize(lists, tree, RestoreDir) + SeenSize(lists, tree, AppDir) == PlainSize(tree)
            <==> NoClaimSlips(spec, t, items)
  {
    hide ClusterObjects, TreeOf, SomeSlipsInto, SeenSize, Size;
    var tree := TreeOf(spec, name, t, items, r);
    SeenAtMost(lists, tree, NamespaceDir);
    SeenAtMost(lists, tree, CrdDir);
    SeenAtMost(lists, tree, RestoreDir);
    SeenAtMost(lists, tree, AppDir);
    AllSeenIffNoClaim(spec, name, t, items, r, lists, NamespaceDir);
    AllSeenIffNoClaim(spec, name, t, items, r, lists, CrdDir);
    AllSeenIffNoClaim(spec, name, t, items, r, lists, RestoreDir);
    AllSeenIffNoClaim(spec, name, t, items, r, lists, AppDir);
  }

  /** What the volume pass of this restore should handle. */
  function VolumePart(spec: PreferenceSpec, replies: Replies, w: World, excluded: int, tree: Tree): nat
    requires replies.discovery.Ok? && replies.rediscovery.Ok?
  {
    var w0 := w.(status := InitialStatus(w.status).(numPreferenceExcluded := excluded));
    VolumePassSize(spec, FilteredBy(replies.rediscovery.value), replies,
      AfterCrds(spec, FilteredBy(replies.discovery.value), replies, w0, tree).world, tree)
  }

  /** The account of a successful restore of a cluster's objects. Every archived object is excluded
      by the preference or is one file of the six directories, and the four outcomes add up to the
      namespaces, CRDs, other resources, apps, and what the volume pass handles, exactly if no
      claim has slipped into the directories of the former. */
  lemma ObjectsAreAccounted(spec: PreferenceSpec, rs: RestoreSpec, replies: Replies, t: Table, items: seq<Item>,
        r: Record, w: World)
    requires ClusterObjects(t, items)
    requires RestoreResources(spec, rs, replies, ArchiveOf(rs.snapshotName, t, items, r), w).Go?
    ensures var st := RestoreResources(spec, rs, replies, ArchiveOf(rs.snapshotName, t, items, r), w).world.status;
            var tree := TreeOf(spec, rs.snapshotName, t, items, r);
            && replies.discovery.Ok? && replies.rediscovery.Ok?
            && Balanced(st)
            && |items| == st.numPreferenceExcluded + TotalSize(tree)
            && (st.numExcluded + st.numCreated + st.numAlreadyExisted + st.numFailed
                  == PlainSize(tree) + VolumePart(spec, replies, w, st.numPreferenceExcluded, tree)
                <==> NoClaimSlips(spec, t, items))
  {
    var archive, tree := ArchiveOf(rs.snapshotName, t, items, r), TreeOf(spec, rs.snapshotName, t, items, r);
    ArchiveIsDistinct(rs.snapshotName, t, items, r);
    ItemsAreRelevant(rs.snapshotName, t, items, r);
    PlainSeen(spec, rs.snapshotName, t, items, r, ListsOf(spec, tree));
    hide ClusterObjects, RestoreResources, ArchiveOf, Extract, DistinctPaths, VolumePassSize, AfterCrds, FilteredBy,
      SeenSize, NoClaimSlips, ListsOf, Balanced, TotalSize, PlainSize;
    RestoreConserves(spec, rs, replies, archive, w);
  }

  /* ---- which claims slip ---- */

  /** Claims are those of the core group, and none lives in a namespace called storageclasses. */
  predicate OrdinaryClaims(t: Table, items: seq<Item>) {
    forall a :: a in items && a.kind == "PersistentVolumeClaim" ==>
      a.apiVersion == "v1" && ResourceOf(t, a) == Ok(CLAIMS) && a.namespace != "storageclasses"
  }

  /** Then none of them slips into another directory than those of the volume pass. */
  lemma OrdinaryClaimsDoNotSlip(spec: PreferenceSpec, t: Table, items: seq<Item>)
    requires (forall a :: a in items ==> Addressable(t, a)) && OrdinaryClaims(t, items)
    ensures NoClaimSlips(spec, t, items)
  {
    hide EntryPath, Prefered, Addressable;
    forall a, d | a in items && SlipsInto(spec, t, d, a) ensures d !in {NamespaceDir, CrdDir, RestoreDir, AppDir} {
      ClaimPlace(spec, t, a);
    }
  }

  /** The path of a claim in a namespace called storageclasses. */
  lemma ClassInPath(item: Item, prefix: string)
    requires item.namespace == "storageclasses" && prefix <= CLAIMS
    ensures Contains(PathWith(item, CLAIMS) + ".json", "storageclasses/" + prefix)
  {
    hide GroupPath, Contains;
    var a, b := GroupPath(item) + "/namespaces/", "storageclasses/" + prefix;
    var c := CLAIMS[|prefix|..] + ("/" + item.name + ".json");
    assert CLAIMS == prefix + CLAIMS[|prefix|..];
    hide CLAIMS;
    assert NamespacePath(item) + "/" + CLAIMS == "/namespaces/" + ("storageclasses/" + CLAIMS);
    assert PathWith(item, CLAIMS) + ".json" == a + b + c;
    ContainsMiddle(a, b, c);
  }

  lemma ClaimGoesToResources(spec: PreferenceSpec, t: Table, a: Item, prefix: string)
    requires Addressable(t, a) && a.kind == "PersistentVolumeClaim" && a.apiVersion == "v1"
    requires ResourceOf(t, a) == Ok(CLAIMS) && a.namespace == "storageclasses" && prefix <= CLAIMS
    requires spec == PreferenceSpec([], [], [], [], [prefix])
    ensures Prefered(spec, EntryPath(t, a)) == RestoreDir
  {
    hide Contains, ResourceOf, EntryPath, Addressable, Prefered, CLAIMS;
    ClaimPlace(spec, t, a);
    DeepPath(t, a);
    ClassInPath(a, prefix);
    assert prefix in spec.restoreNfsStorageClasses;
  }

  lemma FreeJoined(a: string, b: string, c: char)
    ensures Free(a + b, c) <==> Free(a, c) && Free(b, c)
  {
    assert forall i :: 0 <= i < |a| ==> (a + b)[i] == a[i];
    assert forall i :: 0 <= i < |b| ==> (a + b)[|a| + i] == b[i];
  }

  /** A core-group object without bars in its parts has none in its path. */
  lemma CorePathIsBarFree(t: Table, a: Item)
    requires Addressable(t, a) && !TopLevel(a) && a.apiVersion == "v1" && a.namespace != ""
    requires Free(a.namespace, '|') && Free(ResourceOf(t, a).value, '|') && Free(a.name, '|')
    ensures BarFree(t, a)
  {
    hide ResourceOf, Addressable;
    DeepPath(t, a);
    var r := ResourceOf(t, a).value;
    hide EntryPath;
    assert Free("/api/v1", '|') && Free("/namespaces/", '|') && Free("/", '|') && Free(".json", '|');
    hide Free;
    FreeJoined("/namespaces/", a.namespace, '|');
    FreeJoined(GroupPath(a), NamespacePath(a), '|');
    FreeJoined(GroupPath(a) + NamespacePath(a), "/", '|');
    FreeJoined(GroupPath(a) + NamespacePath(a) + "/", r, '|');
    FreeJoined(GroupPath(a) + NamespacePath(a) + "/" + r, "/", '|');
    FreeJoined(GroupPath(a) + NamespacePath(a) + "/" + r + "/", a.name, '|');
    FreeJoined(PathWith(a, r), ".json", '|');
  }

  lemma OneObject(t: Table, a: Item)
    requires Addressable(t, a) && BarFree(t, a)
    ensures ClusterObjects(t, [a])
  {
    hide Uncached, ParseGroupVersion, EntryPath;
    assert RestorePipeline.KeyOf(t, a).Ok?;
  }

  /** The failure is real: a core-group claim in a namespace called storageclasses, under a
      preference that restores a storage class whose name begins the word persistentvolumeclaims,
      is extracted among the resources, and neither the directory pass nor the volume pass records
      it. */
  lemma ClaimSlips(prefix: string, snapshot: string, name: string, r: Record)
    requires prefix <= CLAIMS && Free(name, '/') && Free(name, '|')
    ensures exists spec: PreferenceSpec, t: Table, a: Item ::
      && spec.restoreNfsStorageClasses == [prefix] && FilteredBy(t) == t && ClusterObjects(t, [a])
      && a.apiVersion == "v1" && a.name == name && ResourceOf(t, a) == Ok(CLAIMS) && !NoClaimSlips(spec, t, [a])
      && var tree := TreeOf(spec, snapshot, t, [a], r); PlainSize(tree) == 1 && TotalSize(tree) == 1
  {
    var spec := PreferenceSpec([], [], [], [], [prefix]);
    var t, a := ClaimThere(name);
    OneObject(t, a);
    ClaimGoesToResources(spec, t, a, prefix);
    hide ClusterObjects, FilteredBy, ResourceOf, EntryPath, Prefered, TreeOf, Addressable, Free, CLAIMS;
    assert a in [a] && SlipsInto(spec, t, RestoreDir, a);
    assert SomeSlipsInto(spec, t, [a], RestoreDir);
    OneFile(spec, snapshot, t, a, r);
  }

  lemma ClaimThere(name: string) returns (t: Table, a: Item)
    requires Free(name, '/') && Free(name, '|')
    ensures a == Item("v1", "PersistentVolumeClaim", "storageclasses", name, "1", "u", [], map[], map[])
    ensures FilteredBy(t) == t && ResourceOf(t, a) == Ok(CLAIMS) && Addressable(t, a) && BarFree(t, a)
  {
    a := Item("v1", "PersistentVolumeClaim", "storageclasses", name, "1", "u", [], map[], map[]);
    GroupVersionParses("v1", "", "");
    t := OneKindGroup(CLAIMS, a);
    CorePathIsBarFree(t, a);
  }

  lemma OneFile(spec: PreferenceSpec, snapshot: string, t: Table, a: Item, r: Record)
    requires ClusterObjects(t, [a]) && Prefered(spec, EntryPath(t, a)) == RestoreDir
    ensures var tree := TreeOf(spec, snapshot, t, [a], r); PlainSize(tree) == 1 && TotalSize(tree) == 1
  {
    hide ClusterObjects, EntryPath, Escape, Prefered, TreeOf, Listed;
    var tree := TreeOf(spec, snapshot, t, [a], r);
    TreeIsListed(spec, snapshot, t, [a], r);
    forall d ensures Size(tree, d) == if d == RestoreDir then 1 else 0 {
      forall f ensures f in FilesOf(tree, d) <==> d == RestoreDir && f == FileOf(t, a) {
        FilesAreItems(spec, snapshot, t, [a], r, d, f);
        assert a in [a];
      }
      SingleFile(FilesOf(tree, d), FileOf(t, a));
    }
  }

  lemma SingleFile(files: Folder, f: File)
    requires Listed(files)
    requires forall g :: g in files ==> g == f
    ensures |files| == if f in files then 1 else 0
  {
    if files != [] {
      assert files[0] in files;
      if |files| > 1 {
        assert files[1] in files;
        SecondDiffers(files);
      }
    }
  }

  lemma SecondDiffers(files: Folder)
    requires Listed(files) && |files| > 1
    ensures files[0] != files[1]
  {
    hide LexLess;
    LexTrichotomy(files[0].name, files[1].name);
    assert LexLess(files[0].name, files[1].name);
  }
}
