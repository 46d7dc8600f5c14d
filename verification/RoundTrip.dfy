/** The round trip on the level of the cluster's objects: which of the snapshotted objects a restore
    into an empty cluster creates, and that it creates each of them once. */
module RoundTrip {
  import opened Text
  import opened Objects
  import opened Resources
  import opened Paths
  import opened Records
  import opened RestorePreference
  import opened Extraction
  import opened RestorePipeline
  import opened Classification
  import opened RestoredContent
  import opened RestoreGuarantees
  import opened EndToEnd
  import SnapshotTaking
  import EventFold
  import ArchiveRecovery

  /* ---- the objects of one cluster ---- */

  predicate BarFree(t: Table, item: Item) { Free(EntryPath(t, item), '|') }

  /** The objects are addressable, different ones have different keys, namespaces have different
      names and so have CRDs, and no path contains the character that stands for a slash. */
  ghost predicate ClusterObjects(t: Table, items: seq<Item>) {
    && (forall i :: 0 <= i < |items| ==> Addressable(t, items[i]) && BarFree(t, items[i]))
    && DistinctKeys(t, items)
    && forall i, j :: 0 <= i < j < |items| && TopLevel(items[i]) && items[i].kind == items[j].kind ==>
         items[i].name != items[j].name
  }

  lemma KeyParts(t: Table, a: Item, b: Item)
    requires Addressable(t, a) && Addressable(t, b)
    requires a.apiVersion == b.apiVersion && a.namespace == b.namespace && a.name == b.name
    requires ResourceOf(t, a) == ResourceOf(t, b)
    ensures KeyOf(t, a) == KeyOf(t, b)
  {}

  /** Different objects have different paths. */
  lemma PathsDiffer(t: Table, a: Item, b: Item)
    requires Addressable(t, a) && Addressable(t, b) && KeyOf(t, a) != KeyOf(t, b)
    requires !(TopLevel(a) && a.kind == b.kind && a.name == b.name)
    ensures EntryPath(t, a) != EntryPath(t, b)
  {
    hide KeyOf;
    if EntryPath(t, a) == EntryPath(t, b) {
      if TopLevel(a) || TopLevel(b) {
        if TopLevel(a) { TopLevelPath(t, a); } else { DeepPath(t, a); }
        if TopLevel(b) { TopLevelPath(t, b); } else { DeepPath(t, b); }
        SameTopLevel(a, b, EntryPath(t, a));
      } else {
        var ra, rb := ResourceOf(t, a).value, ResourceOf(t, b).value;
        DeepPath(t, a);
        DeepPath(t, b);
        SuffixInjective(PathWith(a, ra), PathWith(b, rb), ".json");
        PathIdentity(a, ra, b, rb);
        KeyParts(t, a, b);
      }
    }
  }

  lemma SameTopLevel(a: Item, b: Item, p: string)
    requires TopLevel(a) || TopLevel(b)
    requires forall x :: x in [a, b] ==>
      (x.kind == "Namespace" ==> p == "/namespaces/" + x.name + ".json") &&
        (x.kind == "CustomResourceDefinition" ==> p == "/crds/" + x.name + ".json")
    requires forall x :: x in [a, b] && !TopLevel(x) ==> !("/namespaces/" <= p) && !("/crds/" <= p)
    ensures a.kind == b.kind && a.name == b.name && TopLevel(a)
  {
    assert [a, b][0] == a && [a, b][1] == b;
    assert a in [a, b] && b in [a, b];
    if a.kind == "Namespace" || b.kind == "Namespace" {
      assert "/namespaces/" <= p && p[1] == 'n';
      assert "/crds/"[1] == 'c';
    } else {
      assert "/crds/" <= p;
    }
    assert TopLevel(a) && TopLevel(b) && a.kind == b.kind;
    var prefix := if a.kind == "Namespace" then "/namespaces/" else "/crds/";
    assert p == prefix + a.name + ".json" == prefix + b.name + ".json";
    SuffixInjective(prefix + a.name, prefix + b.name, ".json");
    assert (prefix + a.name)[|prefix|..] == a.name && (prefix + b.name)[|prefix|..] == b.name;
  }

  /** So the archive of a cluster's objects loses nothing when it is extracted. */
  lemma ArchiveIsDistinct(name: string, t: Table, items: seq<Item>, r: Record)
    requires ClusterObjects(t, items)
    ensures DistinctPaths(ArchiveOf(name, t, items, r), name)
  {
    var archive := ArchiveOf(name, t, items, r);
    assert |archive| == |items| + 1 && forall i :: 0 <= i < |items| ==>
      archive[i] == SnapshotTaking.ItemEntry(name, EventFold.PathFn(t), items[i]);
    assert archive[|items|] == SnapshotTaking.SnapshotEntry(name, r);
    hide KeyOf, EntryPath, StripName, ArchiveOf, Free, Addressable, EventFold.PathFn, SnapshotTaking.ItemEntry,
      TopLevel;
    SnapshotEntryPath(name, r);
    forall i | 0 <= i < |items|
      ensures StripName(archive[i].name, name) == EntryPath(t, items[i]) && BarFree(t, items[i])
    {
      ItemEntryPath(name, t, items[i]);
    }
    forall i, j | 0 <= i < j < |archive| && Relevant(archive[i], name) && Relevant(archive[j], name)
      ensures StripName(archive[i].name, name) != StripName(archive[j].name, name)
    {
      PathsDiffer(t, items[i], items[j]);
    }
  }

  /* ---- the tree of a cluster's archive ---- */

  function TreeOf(spec: PreferenceSpec, name: string, t: Table, items: seq<Item>, r: Record): Tree {
    Extract(spec, name, ArchiveOf(name, t, items, r)).tree
  }

  /** A directory holds exactly the files of the objects that are classified into it. */
  lemma FilesAreItems(spec: PreferenceSpec, name: string, t: Table, items: seq<Item>, r: Record, d: Dir, f: File)
    requires ClusterObjects(t, items)
    ensures f in FilesOf(TreeOf(spec, name, t, items, r), d) <==>
      exists item :: item in items && FileFor(spec, t, item, d, f)
  {
    ArchiveIsDistinct(name, t, items, r);
    hide Prefered, EntryPath, StripName, Escape, Extract, ClusterObjects;
    var archive := ArchiveOf(name, t, items, r);
    if f in FilesOf(TreeOf(spec, name, t, items, r), d) {
      FileFromItem(spec, name, t, items, r, d, f);
    }
    if item :| item in items && FileFor(spec, t, item, d, f) {
      var i :| 0 <= i < |items| && items[i] == item;
      var e := SnapshotTaking.ItemEntry(name, EventFold.PathFn(t), item);
      ArchiveMembers(name, t, items, r, e);
      ItemEntryPath(name, t, item);
      ItemIsRelevant(name, t, item);
      assert BecomesFile(spec, name, e, d, f);
      ExtractionLosesNothing(spec, name, archive, d, f);
    }
  }

  lemma ItemIsRelevant(name: string, t: Table, item: Item)
    ensures Relevant(SnapshotTaking.ItemEntry(name, EventFold.PathFn(t), item), name)
  {
    ArchiveRecovery.ItemIsNotSnapshotFile(name, t, item);
  }

  lemma ItemsLoad(spec: PreferenceSpec, name: string, t: Table, items: seq<Item>, r: Record)
    requires ClusterObjects(t, items)
    ensures TreeLoads(t, TreeOf(spec, name, t, items, r))
    ensures Readable(FilesOf(TreeOf(spec, name, t, items, r), RestoreDir))
    ensures Readable(FilesOf(TreeOf(spec, name, t, items, r), AppDir))
  {
    hide EntryPath, Escape, Extract, Prefered, TreeOf, IsBindingFile, IsServiceFile, KeyOf, SlashFree;
    var tree := TreeOf(spec, name, t, items, r);
    forall d ensures Loads(t, FilesOf(tree, d)) {
      forall f | f in FilesOf(tree, d) ensures LoadItem(f).Ok? && PathOf(t, LoadItem(f).value).Ok? {
        FilesAreItems(spec, name, t, items, r, d, f);
        var item :| item in items && FileFor(spec, t, item, d, f);
        assert Addressable(t, item);
      }
    }
    assert Loads(t, FilesOf(tree, RestoreDir)) && Loads(t, FilesOf(tree, AppDir));
  }

  /* ---- nothing is planned twice ---- */

  ghost predicate NoDup(plan: seq<Planned>) {
    forall i, j :: 0 <= i < j < |plan| ==> plan[i].d != plan[j].d || plan[i].f != plan[j].f
  }

  /** Everything planned comes from this directory. */
  predicate PlannedFrom(d: Dir, files: Folder, plan: seq<Planned>) {
    forall p :: p in plan ==> p.d == d && p.f in files && LoadItem(p.f).Ok? && Recreated(d, p.item, LoadItem(p.f).value)
  }

  lemma NoDupAppend(a: seq<Planned>, b: seq<Planned>)
    requires NoDup(a) && NoDup(b)
    requires forall p, q :: p in a && q in b ==> p.d != q.d || p.f != q.f
    ensures NoDup(a + b)
  {}

  lemma EarlierFile(files: Folder, f: File)
    requires Listed(files) && files != [] && f in files[..|files| - 1]
    ensures f != files[|files| - 1] && f in files
  {
    hide LexLess;
    var n := |files| - 1;
    var i :| 0 <= i < n && files[..n][i] == f;
    LexTrichotomy(files[i].name, files[n].name);
  }

  lemma {:induction false} KeptOnce(lists: Lists, d: Dir, files: Folder)
    requires Listed(files) && d != PvDir && d != PvcDir
    ensures NoDup(Kept(lists, d, files)) && PlannedFrom(d, files, Kept(lists, d, files))
  {
    hide Unobstructed, LexLess, Recreated, StripServerFields, LoadItem;
    if files != [] {
      var n := |files| - 1;
      KeptOnce(lists, d, files[..n]);
      var kept, f := Kept(lists, d, files[..n]), files[n];
      forall p | p in kept ensures p.f != f && p.f in files { EarlierFile(files, p.f); }
      UnobstructedLoads(lists, f);
      var more := if Unobstructed(lists, f) then [Planned(d, f, StripServerFields(LoadItem(f).value))] else [];
      if Unobstructed(lists, f) { PlainContent(d, LoadItem(f).value); }
      NoDupAppend(kept, more);
    }
  }

  lemma UnobstructedLoads(lists: Lists, f: File)
    ensures Unobstructed(lists, f) ==> LoadItem(f).Ok?
  {}

  /** No two claims are bound to the same volume. */
  ghost predicate OneClaimPerVolume(spec: PreferenceSpec, volumes: Folder, claims: Folder) {
    forall f, g :: f in claims && g in claims && f != g && Bindable(spec, volumes, f) && Bindable(spec, volumes, g) ==>
      ChosenVolume(spec, volumes, f) != ChosenVolume(spec, volumes, g)
  }

  /** Planned pairs come from the claims and the volumes these choose. */
  predicate PairsFrom(spec: PreferenceSpec, volumes: Folder, claims: Folder, plan: seq<Planned>) {
    forall p :: p in plan ==>
      && LoadItem(p.f).Ok? && Recreated(p.d, p.item, LoadItem(p.f).value)
      && ((p.d == PvcDir && p.f in claims && Bindable(spec, volumes, p.f))
          || (p.d == PvDir && p.f in volumes &&
               exists f :: f in claims && Bindable(spec, volumes, f) && ChosenVolume(spec, volumes, f) == p.f))
  }

  lemma PairOnce(spec: PreferenceSpec, volumes: Folder, f: File)
    ensures NoDup(PairOf(spec, volumes, f)) && PairsFrom(spec, volumes, [f], PairOf(spec, volumes, f))
    ensures forall p :: p in PairOf(spec, volumes, f) ==>
      Bindable(spec, volumes, f) && p.f == if p.d == PvcDir then f else ChosenVolume(spec, volumes, f)
  {
    if Bindable(spec, volumes, f) {
      ChosenIsListed(spec, volumes, LoadItem(f).value);
      hide FreedVolume, FreedClaim, VolumeOf, Recreated;
      VolumeContent(LoadItem(ChosenVolume(spec, volumes, f)).value);
      ClaimContent(LoadItem(f).value);
      assert f in [f];
    }
  }

  lemma {:induction false} PairsOnce(spec: PreferenceSpec, volumes: Folder, claims: Folder)
    requires Listed(claims) && OneClaimPerVolume(spec, volumes, claims)
    ensures NoDup(PairsOf(spec, volumes, claims)) && PairsFrom(spec, volumes, claims, PairsOf(spec, volumes, claims))
  {
    hide Bindable, ChosenVolume, PairOf, LexLess, Recreated;
    if claims != [] {
      var n := |claims| - 1;
      assert forall f :: f in claims[..n] ==> f in claims;
      PairsOnce(spec, volumes, claims[..n]);
      var pairs, f := PairsOf(spec, volumes, claims[..n]), claims[n];
      PairOnce(spec, volumes, f);
      assert f in claims;
      forall g | g in claims[..n] ensures g != f {
        var i :| 0 <= i < n && claims[i] == g;
        LexTrichotomy(claims[i].name, f.name);
      }
      forall p, q | p in pairs && q in PairOf(spec, volumes, f) ensures p.d != q.d || p.f != q.f {}
      NoDupAppend(pairs, PairOf(spec, volumes, f));
      PairsFromMore(spec, volumes, claims, pairs, PairOf(spec, volumes, f));
    }
  }

  lemma PairsFromMore(spec: PreferenceSpec, volumes: Folder, claims: Folder, a: seq<Planned>, b: seq<Planned>)
    requires claims != [] && PairsFrom(spec, volumes, claims[..|claims| - 1], a)
    requires PairsFrom(spec, volumes, [claims[|claims| - 1]], b)
    ensures PairsFrom(spec, volumes, claims, a + b)
  {
    hide Bindable, ChosenVolume, Recreated, LoadItem;
    var n := |claims| - 1;
    assert forall f :: f in claims[..n] || f in [claims[n]] ==> f in claims;
  }

  /** Each planned item comes from a file of its directory. */
  predicate FromTree(tree: Tree, plan: seq<Planned>) {
    forall p :: p in plan ==>
      p.f in FilesOf(tree, p.d) && LoadItem(p.f).Ok? && Recreated(p.d, p.item, LoadItem(p.f).value)
  }

  lemma PlanOnce(spec: PreferenceSpec, tree: Tree)
    requires forall d :: Listed(FilesOf(tree, d))
    requires OneClaimPerVolume(spec, FilesOf(tree, PvDir), FilesOf(tree, PvcDir))
    ensures NoDup(PlanOf(spec, tree)) && FromTree(tree, PlanOf(spec, tree))
  {
    hide Listed, OneClaimPerVolume, ListsOf, Kept, PairsOf, LoadItem, Recreated, NoDup, Bindable, ChosenVolume;
    var lists := ListsOf(spec, tree);
    var a, b := Kept(lists, NamespaceDir, FilesOf(tree, NamespaceDir)), Kept(lists, CrdDir, FilesOf(tree, CrdDir));
    var c := if PvDir in tree && PvcDir in tree then PairsOf(spec, tree[PvDir], tree[PvcDir]) else [];
    var d, e := Kept(lists, RestoreDir, FilesOf(tree, RestoreDir)), Kept(lists, AppDir, FilesOf(tree, AppDir));
    KeptOnce(lists, NamespaceDir, FilesOf(tree, NamespaceDir));
    KeptOnce(lists, CrdDir, FilesOf(tree, CrdDir));
    KeptOnce(lists, RestoreDir, FilesOf(tree, RestoreDir));
    KeptOnce(lists, AppDir, FilesOf(tree, AppDir));
    NoDupNothing();
    if PvDir in tree && PvcDir in tree { PairsOnce(spec, tree[PvDir], tree[PvcDir]); }
    NoDupAppend(a, b);
    NoDupAppend(a + b, c);
    NoDupAppend(a + b + c, d);
    NoDupAppend(a + b + c + d, e);
  }

  lemma NoDupNothing()
    ensures NoDup([])
  {}

  lemma KeyOfSame(t: Table, a: Item, b: Item)
    requires SameObject(a, b)
    ensures KeyOf(t, a) == KeyOf(t, b)
  {}

  /** The planned items have different keys. */
  lemma PlanHasDistinctKeys(spec: PreferenceSpec, name: string, t: Table, items: seq<Item>, r: Record,
        plan: seq<Planned>)
    requires ClusterObjects(t, items) && NoDup(plan) && FromTree(TreeOf(spec, name, t, items, r), plan)
    ensures DistinctKeys(t, ItemsOf(plan))
  {
    hide KeyOf, EntryPath, Escape, Prefered, TreeOf, Recreated, SameObject, Addressable;
    var tree, created := TreeOf(spec, name, t, items, r), ItemsOf(plan);
    forall i | 0 <= i < |plan|
      ensures exists k ::
        0 <= k < |items| && FileFor(spec, t, items[k], plan[i].d, plan[i].f) &&
          KeyOf(t, created[i]) == KeyOf(t, items[k])
    {
      assert plan[i] in plan;
      FilesAreItems(spec, name, t, items, r, plan[i].d, plan[i].f);
      var item :| item in items && FileFor(spec, t, item, plan[i].d, plan[i].f);
      var k :| 0 <= k < |items| && items[k] == item;
      RecreatedIsSame(plan[i].d, created[i], items[k]);
      KeyOfSame(t, created[i], items[k]);
    }
    forall i, j | 0 <= i < j < |plan| ensures KeyOf(t, created[i]) != KeyOf(t, created[j]) {
      var k :| 0 <= k < |items| && FileFor(spec, t, items[k], plan[i].d, plan[i].f) &&
        KeyOf(t, created[i]) == KeyOf(t, items[k]);
      var l :| 0 <= l < |items| && FileFor(spec, t, items[l], plan[j].d, plan[j].f) &&
        KeyOf(t, created[j]) == KeyOf(t, items[l]);
      if k < l { assert KeyOf(t, items[k]) != KeyOf(t, items[l]); } else { assert l < k; }
    }
  }

  /* ---- the round trip ---- */

  lemma TreeIsListed(spec: PreferenceSpec, name: string, t: Table, items: seq<Item>, r: Record)
    ensures forall d :: Listed(FilesOf(TreeOf(spec, name, t, items, r), d))
  {
    ExtractListed(spec, name, ArchiveOf(name, t, items, r));
    EmptyListed();
    hide Extract, Listed, ArchiveOf;
  }

  /** The target serves the archived objects: from the start those that are restored as namespaces
      and CRDs, and once the CRDs have been restored all others, each under the resource name that
      table t has for it. What it serves besides, or what it does not serve yet, does not matter. */
  predicate ServesObjects(replies: Replies, spec: PreferenceSpec, t: Table, items: seq<Item>) {
    && replies.discovery.Ok? && replies.rediscovery.Ok? && replies.marker.Ok?
    && forall a :: a in items ==>
         match Prefered(spec, EntryPath(t, a))
         case Exclude => true
         case NamespaceDir | CrdDir => NamesAlike(FilteredBy(replies.discovery.value), t, a)
         case _ => NamesAlike(FilteredBy(replies.rediscovery.value), t, a)
  }

  /** It also admits these items and binds every volume. */
  ghost predicate Welcomes(replies: Replies, spec: PreferenceSpec, t: Table, items: seq<Item>, planned: seq<Item>) {
    && ServesObjects(replies, spec, t, items) && AdmitsAll(replies.admits, planned)
    && forall name :: WaitError(replies.poll, name, 0).None?
  }

  lemma ObjectsServed(replies: Replies, spec: PreferenceSpec, name: string, t: Table, items: seq<Item>, r: Record,
        d: Dir)
    requires ClusterObjects(t, items) && ServesObjects(replies, spec, t, items) && !d.Exclude?
    ensures FilesAlike(FilteredBy(if d.NamespaceDir? || d.CrdDir? then replies.discovery.value
                                  else replies.rediscovery.value), t, FilesOf(TreeOf(spec, name, t, items, r), d))
  {
    hide EntryPath, Escape, Prefered, TreeOf, ClusterObjects, FilteredBy, NamesAlike;
    forall f | f in FilesOf(TreeOf(spec, name, t, items, r), d)
      ensures exists a :: a in items && Prefered(spec, EntryPath(t, a)) == d && LoadItem(f) == Ok(a)
    {
      FilesAreItems(spec, name, t, items, r, d, f);
      var a :| a in items && FileFor(spec, t, a, d, f);
    }
  }

  lemma ObjectsServe(replies: Replies, spec: PreferenceSpec, name: string, t: Table, items: seq<Item>, r: Record)
    requires ClusterObjects(t, items) && ServesObjects(replies, spec, t, items)
    ensures Serves(replies, t, TreeOf(spec, name, t, items, r))
  {
    hide ClusterObjects, TreeOf, FilteredBy, FilesAlike, EntryPath, Prefered, NamesAlike;
    ObjectsServed(replies, spec, name, t, items, r, NamespaceDir);
    ObjectsServed(replies, spec, name, t, items, r, CrdDir);
    ObjectsServed(replies, spec, name, t, items, r, PvDir);
    ObjectsServed(replies, spec, name, t, items, r, PvcDir);
    ObjectsServed(replies, spec, name, t, items, r, RestoreDir);
    ObjectsServed(replies, spec, name, t, items, r, AppDir);
  }

  /** Restoring the archive of a cluster's objects into an empty cluster that serves them, those of
      custom types only once their CRDs have been restored, admits the planned items and binds
      every volume goes through, and creates the plan: no object twice, in the order of the phases. */
  lemma RestoreIntoEmptyCluster(spec: PreferenceSpec, rs: RestoreSpec, replies: Replies, t: Table,
        items: seq<Item>, r: Record, st: RestoreStatus)
    requires ClusterObjects(t, items)
    requires Welcomes(replies, spec, t, items, ItemsOf(PlanOf(spec, TreeOf(spec, rs.snapshotName, t, items, r))))
    requires var tree := TreeOf(spec, rs.snapshotName, t, items, r);
             OneClaimPerVolume(spec, FilesOf(tree, PvDir), FilesOf(tree, PvcDir))
    ensures var flow :=
      RestoreResources(spec, rs, replies, ArchiveOf(rs.snapshotName, t, items, r), World(Cluster(map[], []), st));
            var plan := PlanOf(spec, TreeOf(spec, rs.snapshotName, t, items, r));
            && flow.Go? && flow.world.cluster.log == ItemsOf(plan) && DistinctKeys(t, ItemsOf(plan))
            && Exact(t, flow.world.cluster)
  {
    hide ClusterObjects, DistinctKeys, PlanOf, WaitError, Phases, FilteredBy, Extract, ArchiveOf, TreeLoads, ItemsOf,
      OneClaimPerVolume, Readable, FilesOf, AdmitsAll, FilesAlike, NamesAlike;
    var tree := TreeOf(spec, rs.snapshotName, t, items, r);
    var plan := PlanOf(spec, tree);
    TreeIsListed(spec, rs.snapshotName, t, items, r);
    PlanOnce(spec, tree);
    PlanHasDistinctKeys(spec, rs.snapshotName, t, items, r, plan);
    ItemsLoad(spec, rs.snapshotName, t, items, r);
    var x := Extract(spec, rs.snapshotName, ArchiveOf(rs.snapshotName, t, items, r));
    var w0 := World(Cluster(map[], []), InitialStatus(st).(numPreferenceExcluded := x.excluded));
    assert [] + ItemsOf(plan) == ItemsOf(plan);
    ObjectsServe(replies, spec, rs.snapshotName, t, items, r);
    PhasesCreate(spec, t, replies, w0, tree);
  }

  /* ---- which objects are created ---- */

  function FileOf(t: Table, item: Item): File { File(Escape(EntryPath(t, item)), ItemFile(item)) }

  /** The object is to be restored: it is not excluded, and if it is a plain object no rule holds
      it back; if it is a claim it is bound to an archived volume by an included storage class; if
      it is a volume some such claim chooses it. */
  ghost predicate Admitted(spec: PreferenceSpec, tree: Tree, t: Table, items: seq<Item>, a: Item) {
    match Prefered(spec, EntryPath(t, a))
    case Exclude => false
    case PvcDir => Bindable(spec, FilesOf(tree, PvDir), FileOf(t, a))
    case PvDir =>
      exists c :: c in items && Prefered(spec, EntryPath(t, c)) == PvcDir
        && Bindable(spec, FilesOf(tree, PvDir), FileOf(t, c)) &&
             ChosenVolume(spec, FilesOf(tree, PvDir), FileOf(t, c)) == FileOf(t, a)
    case _ => ObstacleOf(ListsOf(spec, tree), a).Clear?
  }

  lemma {:induction false} KeptMembers(lists: Lists, d: Dir, files: Folder, f: File)
    ensures (exists p :: p in Kept(lists, d, files) && p.f == f) <==> f in files && Unobstructed(lists, f)
    ensures forall p :: p in Kept(lists, d, files) ==> p.d == d
  {
    hide Unobstructed;
    if files != [] {
      var n := |files| - 1;
      KeptMembers(lists, d, files[..n], f);
      assert files == files[..n] + [files[n]];
      UnobstructedLoads(lists, files[n]);
      var more := if Unobstructed(lists, files[n])
        then [Planned(d, files[n], StripServerFields(LoadItem(files[n]).value))] else [];
      assert Kept(lists, d, files) == Kept(lists, d, files[..n]) + more;
      if Unobstructed(lists, files[n]) { assert more[0] in Kept(lists, d, files) && more[0].f == files[n]; }
      if f in files[..n] && Unobstructed(lists, f) {
        var p :| p in Kept(lists, d, files[..n]) && p.f == f;
        assert p in Kept(lists, d, files);
      }
    }
  }

  lemma {:induction false} PairsMembers(spec: PreferenceSpec, volumes: Folder, claims: Folder, p: Planned)
    ensures p in PairsOf(spec, volumes, claims) <==> exists f :: f in claims && p in PairOf(spec, volumes, f)
  {
    hide PairOf;
    if claims != [] {
      var n := |claims| - 1;
      PairsMembers(spec, volumes, claims[..n], p);
      assert claims == claims[..n] + [claims[n]];
    }
  }

  lemma PairFiles(spec: PreferenceSpec, volumes: Folder, f: File, d: Dir, g: File)
    ensures (exists p :: p in PairOf(spec, volumes, f) && p.d == d && p.f == g) <==>
      Bindable(spec, volumes, f) && ((d == PvcDir && g == f) || (d == PvDir && g == ChosenVolume(spec, volumes, f)))
  {
    hide FreedVolume, FreedClaim, VolumeOf;
    var pair := PairOf(spec, volumes, f);
    if Bindable(spec, volumes, f) {
      assert pair[0] in pair && pair[1] in pair;
    }
  }

  lemma NoVolumes(spec: PreferenceSpec, f: File)
    ensures !Bindable(spec, [], f)
  {}

  /** Which files are planned as part of a pair. */
  predicate InPair(spec: PreferenceSpec, volumes: Folder, claims: Folder, d: Dir, f: File) {
    || (d == PvcDir && f in claims && Bindable(spec, volumes, f))
    || (d == PvDir && exists c :: c in claims && Bindable(spec, volumes, c) && ChosenVolume(spec, volumes, c) == f)
  }

  lemma PairedFiles(spec: PreferenceSpec, volumes: Folder, claims: Folder, d: Dir, f: File)
    ensures (exists p :: p in PairsOf(spec, volumes, claims) && p.d == d && p.f == f) <==>
      InPair(spec, volumes, claims, d, f)
  {
    hide PairOf, PairsOf, Bindable, ChosenVolume;
    if p :| p in PairsOf(spec, volumes, claims) && p.d == d && p.f == f {
      PairsMembers(spec, volumes, claims, p);
      var c :| c in claims && p in PairOf(spec, volumes, c);
      PairFiles(spec, volumes, c, d, f);
    }
    if InPair(spec, volumes, claims, d, f) {
      var c := f;
      if d == PvDir { c :| c in claims && Bindable(spec, volumes, c) && ChosenVolume(spec, volumes, c) == f; }
      PairFiles(spec, volumes, c, d, f);
      var p :| p in PairOf(spec, volumes, c) && p.d == d && p.f == f;
      PairsMembers(spec, volumes, claims, p);
    }
  }

  lemma PlannedPairs(spec: PreferenceSpec, tree: Tree, d: Dir, f: File)
    ensures var pairs := if PvDir in tree && PvcDir in tree then PairsOf(spec, tree[PvDir], tree[PvcDir]) else [];
            (exists p :: p in pairs && p.d == d && p.f == f) <==>
              InPair(spec, FilesOf(tree, PvDir), FilesOf(tree, PvcDir), d, f)
  {
    hide PairsOf, Bindable, ChosenVolume;
    if PvDir in tree && PvcDir in tree {
      PairedFiles(spec, tree[PvDir], tree[PvcDir], d, f);
    } else if PvDir !in tree {
      forall c ensures !Bindable(spec, FilesOf(tree, PvDir), c) { NoVolumes(spec, c); }
    }
  }

  /** Which files are planned, by directory. */
  lemma PlannedFiles(spec: PreferenceSpec, tree: Tree, d: Dir, f: File)
    requires Exclude !in tree
    ensures (exists p :: p in PlanOf(spec, tree) && p.d == d && p.f == f) <==>
      match d
      case Exclude => false
      case PvcDir => f in FilesOf(tree, PvcDir) && Bindable(spec, FilesOf(tree, PvDir), f)
      case PvDir => exists c ::
        c in FilesOf(tree, PvcDir) && Bindable(spec, FilesOf(tree, PvDir), c) &&
          ChosenVolume(spec, FilesOf(tree, PvDir), c) == f
      case _ => f in FilesOf(tree, d) && Unobstructed(ListsOf(spec, tree), f)
  {
    hide Kept, PairsOf, PairOf, ListsOf, Unobstructed, Bindable, ChosenVolume;
    var lists := ListsOf(spec, tree);
    KeptMembers(lists, NamespaceDir, FilesOf(tree, NamespaceDir), f);
    KeptMembers(lists, CrdDir, FilesOf(tree, CrdDir), f);
    KeptMembers(lists, RestoreDir, FilesOf(tree, RestoreDir), f);
    KeptMembers(lists, AppDir, FilesOf(tree, AppDir), f);
    PlannedPairs(spec, tree, d, f);
  }

  /** A planned item is the object its file was written for. */
  lemma PlannedObject(spec: PreferenceSpec, name: string, t: Table, items: seq<Item>, r: Record, p: Planned)
    returns (a: Item)
    requires ClusterObjects(t, items) && p in PlanOf(spec, TreeOf(spec, name, t, items, r))
    requires FromTree(TreeOf(spec, name, t, items, r), PlanOf(spec, TreeOf(spec, name, t, items, r)))
    ensures a in items && RecreatedAs(spec, t, p.item, a) && SameObject(p.item, a)
    ensures p.f == FileOf(t, a) && Prefered(spec, EntryPath(t, a)) == p.d && !p.d.Exclude?
  {
    hide EntryPath, Escape, Prefered, TreeOf, SameObject, Recreated, ClusterObjects, PlanOf;
    FilesAreItems(spec, name, t, items, r, p.d, p.f);
    a :| a in items && FileFor(spec, t, a, p.d, p.f);
    RecreatedIsSame(p.d, p.item, a);
  }

  lemma SameObjectSameItem(t: Table, items: seq<Item>, a: Item, b: Item, item: Item)
    requires ClusterObjects(t, items) && a in items && b in items && SameObject(item, a) && SameObject(item, b)
    ensures a == b
  {
    hide KeyOf, Addressable, EntryPath;
    KeyOfSame(t, item, a);
    KeyOfSame(t, item, b);
    var i :| 0 <= i < |items| && items[i] == a;
    var j :| 0 <= j < |items| && items[j] == b;
  }

  /** The planned items are exactly the admitted objects, each as it is to be restored. */
  lemma PlannedIffAdmitted(spec: PreferenceSpec, name: string, t: Table, items: seq<Item>, r: Record, a: Item)
    requires ClusterObjects(t, items) && a in items
    requires FromTree(TreeOf(spec, name, t, items, r), PlanOf(spec, TreeOf(spec, name, t, items, r)))
    ensures var tree := TreeOf(spec, name, t, items, r);
            (exists p :: p in PlanOf(spec, tree) && SameObject(p.item, a)) <==> Admitted(spec, tree, t, items, a)
    ensures forall p :: p in PlanOf(spec, TreeOf(spec, name, t, items, r)) && SameObject(p.item, a) ==>
      RecreatedAs(spec, t, p.item, a)
  {
    hide EntryPath, Escape, Prefered, TreeOf, SameObject, RecreatedAs, ClusterObjects, PlanOf, Bindable, ChosenVolume,
      ListsOf, ObstacleOf, FromTree;
    var tree := TreeOf(spec, name, t, items, r);
    var plan, d, f := PlanOf(spec, tree), Prefered(spec, EntryPath(t, a)), FileOf(t, a);
    NoExcludedDir(spec, name, t, items, r);
    PlannedFiles(spec, tree, d, f);
    FilesAreItems(spec, name, t, items, r, d, f);
    AdmittedFiles(spec, name, t, items, r, a);
    forall p | p in plan && SameObject(p.item, a) ensures RecreatedAs(spec, t, p.item, a) && p.d == d && p.f == f {
      var b := PlannedObject(spec, name, t, items, r, p);
      SameObjectSameItem(t, items, a, b, p.item);
    }
    if p :| p in plan && p.d == d && p.f == f {
      var b := PlannedObject(spec, name, t, items, r, p);
      assert FileOf(t, b).content == FileOf(t, a).content;
    }
  }

  lemma NoExcludedDir(spec: PreferenceSpec, name: string, t: Table, items: seq<Item>, r: Record)
    ensures Exclude !in TreeOf(spec, name, t, items, r)
  {
    ExtractListed(spec, name, ArchiveOf(name, t, items, r));
  }

  /** Admission, in terms of the extracted files. */
  lemma AdmittedFiles(spec: PreferenceSpec, name: string, t: Table, items: seq<Item>, r: Record, a: Item)
    requires ClusterObjects(t, items) && a in items
    ensures var tree, d, f := TreeOf(spec, name, t, items, r), Prefered(spec, EntryPath(t, a)), FileOf(t, a);
            Admitted(spec, tree, t, items, a) <==>
              match d
              case Exclude => false
              case PvcDir => f in FilesOf(tree, PvcDir) && Bindable(spec, FilesOf(tree, PvDir), f)
              case PvDir => exists c ::
                c in FilesOf(tree, PvcDir) && Bindable(spec, FilesOf(tree, PvDir), c) &&
                  ChosenVolume(spec, FilesOf(tree, PvDir), c) == f
              case _ => f in FilesOf(tree, d) && Unobstructed(ListsOf(spec, tree), f)
  {
    hide EntryPath, Escape, Prefered, TreeOf, ClusterObjects, Bindable, ChosenVolume, ListsOf, ObstacleOf;
    var tree, d, f := TreeOf(spec, name, t, items, r), Prefered(spec, EntryPath(t, a)), FileOf(t, a);
    FilesAreItems(spec, name, t, items, r, d, f);
    if d == PvDir {
      if c :| c in items && Prefered(spec, EntryPath(t, c)) == PvcDir
              && Bindable(spec, FilesOf(tree, PvDir), FileOf(t, c))
              && ChosenVolume(spec, FilesOf(tree, PvDir), FileOf(t, c)) == f {
        FilesAreItems(spec, name, t, items, r, PvcDir, FileOf(t, c));
        assert FileOf(t, c) in FilesOf(tree, PvcDir);
      }
      if g :| g in FilesOf(tree, PvcDir) && Bindable(spec, FilesOf(tree, PvDir), g)
              && ChosenVolume(spec, FilesOf(tree, PvDir), g) == f {
        FilesAreItems(spec, name, t, items, r, PvcDir, g);
        var c :| c in items && FileFor(spec, t, c, PvcDir, g);
      }
    }
  }

  /** The log holds exactly the admitted objects, each with its content. */
  ghost predicate CreatesExactly(spec: PreferenceSpec, tree: Tree, t: Table, items: seq<Item>, log: seq<Item>) {
    && (forall k :: 0 <= k < |log| ==> Known(spec, t, items, log[k]))
    && (forall a :: a in items ==> CreatedIff(spec, t, log, a, Admitted(spec, tree, t, items, a)))
  }

  /** The item is what restoring one of the objects creates. */
  predicate Known(spec: PreferenceSpec, t: Table, items: seq<Item>, item: Item) {
    exists a :: a in items && RecreatedAs(spec, t, item, a)
  }

  /** What restoring the object creates is in the log. */
  predicate Holds(spec: PreferenceSpec, t: Table, log: seq<Item>, a: Item) {
    exists k :: 0 <= k < |log| && RecreatedAs(spec, t, log[k], a)
  }

  /** Some object of that type, namespace and name is in the log. */
  predicate Appears(log: seq<Item>, a: Item) {
    exists k :: 0 <= k < |log| && SameObject(log[k], a)
  }

  /** The object is in the log with its content if it is to be created, and else not at all. */
  predicate CreatedIff(spec: PreferenceSpec, t: Table, log: seq<Item>, a: Item, create: bool) {
    if create then Holds(spec, t, log, a) else !Appears(log, a)
  }

  lemma AppearsPlanned(spec: PreferenceSpec, t: Table, plan: seq<Planned>, a: Item)
    requires forall p :: p in plan && SameObject(p.item, a) ==> RecreatedAs(spec, t, p.item, a)
    ensures CreatedIff(spec, t, ItemsOf(plan), a, exists p :: p in plan && SameObject(p.item, a))
  {
    hide SameObject, RecreatedAs;
    if p :| p in plan && SameObject(p.item, a) {
      var k :| 0 <= k < |plan| && plan[k] == p;
      assert RecreatedAs(spec, t, ItemsOf(plan)[k], a);
    }
    if k :| 0 <= k < |plan| && SameObject(ItemsOf(plan)[k], a) {
      assert plan[k] in plan;
    }
  }

  lemma PlanCreatesExactly(spec: PreferenceSpec, name: string, t: Table, items: seq<Item>, r: Record)
    requires ClusterObjects(t, items)
    requires FromTree(TreeOf(spec, name, t, items, r), PlanOf(spec, TreeOf(spec, name, t, items, r)))
    ensures var tree := TreeOf(spec, name, t, items, r);
            CreatesExactly(spec, tree, t, items, ItemsOf(PlanOf(spec, tree)))
  {
    hide ClusterObjects, PlanOf, TreeOf, SameObject, RecreatedAs, Admitted, CreatedIff, FromTree;
    var plan := PlanOf(spec, TreeOf(spec, name, t, items, r));
    var log := ItemsOf(plan);
    forall k | 0 <= k < |log| ensures Known(spec, t, items, log[k]) {
      var a := PlannedObject(spec, name, t, items, r, plan[k]);
    }
    forall a | a in items
      ensures CreatedIff(spec, t, log, a, Admitted(spec, TreeOf(spec, name, t, items, r), t, items, a))
    {
      PlannedIffAdmitted(spec, name, t, items, r, a);
      AppearsPlanned(spec, t, plan, a);
    }
  }

  /** The round trip: restoring a snapshot into an empty cluster creates exactly the admitted
      objects, each once and with its content. */
  lemma RestoredExactly(spec: PreferenceSpec, rs: RestoreSpec, replies: Replies, t: Table, items: seq<Item>,
        r: Record, st: RestoreStatus)
    requires ClusterObjects(t, items)
    requires Welcomes(replies, spec, t, items, ItemsOf(PlanOf(spec, TreeOf(spec, rs.snapshotName, t, items, r))))
    requires var tree := TreeOf(spec, rs.snapshotName, t, items, r);
             OneClaimPerVolume(spec, FilesOf(tree, PvDir), FilesOf(tree, PvcDir))
    ensures var flow :=
      RestoreResources(spec, rs, replies, ArchiveOf(rs.snapshotName, t, items, r), World(Cluster(map[], []), st));
            && flow.Go? && DistinctKeys(t, flow.world.cluster.log)
            && CreatesExactly(spec, TreeOf(spec, rs.snapshotName, t, items, r), t, items, flow.world.cluster.log)
  {
    hide ClusterObjects, DistinctKeys, PlanOf, RestoreResources, ArchiveOf, TreeOf, OneClaimPerVolume,
      CreatesExactly, Welcomes, ItemsOf;
    RestoreIntoEmptyCluster(spec, rs, replies, t, items, r, st);
    TreeIsListed(spec, rs.snapshotName, t, items, r);
    PlanOnce(spec, TreeOf(spec, rs.snapshotName, t, items, r));
    PlanCreatesExactly(spec, rs.snapshotName, t, items, r);
  }
}
