/** Restoring once more: what is there already is found, nothing is created and nothing fails
    (restore.go:149-158, restore_pv.go:119-128). */
module RestoreAgain {
  import opened Text
  import opened Objects
  import opened Resources
  import opened Paths
  import opened Records
  import opened RestorePreference
  import opened Extraction
  import opened RestorePipeline
  import opened Classification
  import opened RestoredContent
  import opened RestoreOutcomes
  import opened RestoreGuarantees
  import opened EndToEnd
  import opened RoundTrip
  import opened Admission

  /** The cluster has objects under the keys of these items. */
  predicate There(t: Table, c: Cluster, items: seq<Item>) {
    forall item :: item in items ==> KeyOf(t, item).Ok? && KeyOf(t, item).value in c.objects
  }

  /** From w to w' nothing was created and nothing failed; these paths were found to exist. */
  predicate Finds(w: World, w': World, paths: seq<string>) {
    && w'.cluster == w.cluster
    && w'.status.created == w.status.created && w'.status.numCreated == w.status.numCreated
    && w'.status.failed == w.status.failed && w'.status.numFailed == w.status.numFailed
    && w'.status.alreadyExisted == w.status.alreadyExisted + paths
    && w'.status.numAlreadyExisted == w.status.numAlreadyExisted + |paths|
  }

  lemma FindsMore(w: World, w': World, w'': World, a: seq<string>, b: seq<string>)
    requires Finds(w, w', a) && Finds(w', w'', b)
    ensures Finds(w, w'', a + b)
  {
    assert w.status.alreadyExisted + a + b == w.status.alreadyExisted + (a + b);
  }

  lemma FindsNothing(w: World, w': World)
    requires w'.cluster == w.cluster
    requires w' == w || exists line :: Entered(w.status, w'.status, Outcome.Excluded, line)
    ensures Finds(w, w', [])
  {}

  /** The paths that are tried: those of everything planned but claims, whose volumes come first. */
  function Tried(t: Table, plan: seq<Planned>): seq<string> {
    if plan == [] then []
    else
      var last := plan[|plan| - 1];
      Tried(t, plan[..|plan| - 1]) + if last.d == PvcDir then [] else [PathOrEmpty(t, last.item)]
  }

  lemma {:induction false} TriedAppend(t: Table, a: seq<Planned>, b: seq<Planned>)
    ensures Tried(t, a + b) == Tried(t, a) + Tried(t, b)
  {
    hide PathOrEmpty;
    if b == [] {
      assert a + b == a;
    } else {
      var n := |b| - 1;
      assert (a + b)[..|a + b| - 1] == a + b[..n] && (a + b)[|a + b| - 1] == b[n];
      TriedAppend(t, a, b[..n]);
    }
  }

  lemma ExistsAgain(t: Table, c: Cluster, admits: Item -> Option<string>, item: Item, st: RestoreStatus, path: string)
    requires There(t, c, [item])
    ensures var (c', error) := CreateItem(c, admits, t, item);
            error.Some? && c' == c && Finds(World(c, st), World(c, Reported(st, path, error)), [path])
  {
    assert item in [item];
    hide KeyOf, Contains;
    CreateOutcome(c, admits, t, item, KeyOf(t, item).value);
  }

  lemma FileAgain(lists: Lists, t: Table, admits: Item -> Option<string>, w: World, d: Dir, f: File)
    requires d != PvcDir && LoadItem(f).Ok? && PathOf(t, LoadItem(f).value).Ok?
    requires var kept := if Unobstructed(lists, f) then [Planned(d, f, StripServerFields(LoadItem(f).value))] else [];
             There(t, w.cluster, ItemsOf(kept))
    ensures var kept := if Unobstructed(lists, f) then [Planned(d, f, StripServerFields(LoadItem(f).value))] else [];
            var flow := RestoreFile(lists, t, admits, w, f);
            flow.Go? && Finds(w, flow.world, Tried(t, kept))
  {
    hide CreateItem, Reported, ObstacleOf, KeyOf, Uncached;
    var item := LoadItem(f).value;
    var path := PathOf(t, item).value;
    if Unobstructed(lists, f) {
      var p := Planned(d, f, StripServerFields(item));
      assert ItemsOf([p]) == [p.item] && [p][..0] == [];
      assert Tried(t, [p]) == Tried(t, [p][..0]) + [PathOrEmpty(t, p.item)] == [path];
      ExistsAgain(t, w.cluster, admits, p.item, w.status, path);
    } else {
      var flow := RestoreFile(lists, t, admits, w, f);
      if ObstacleOf(lists, item).Recorded? {
        assert Entered(w.status, flow.world.status, Outcome.Excluded,
          path + ",(" + ObstacleOf(lists, item).msg + ")");
      }
      FindsNothing(w, flow.world);
    }
  }

  lemma ThereParts(t: Table, c: Cluster, a: seq<Planned>, b: seq<Planned>)
    requires There(t, c, ItemsOf(a + b))
    ensures There(t, c, ItemsOf(a)) && There(t, c, ItemsOf(b))
  {
    hide KeyOf;
    ItemsOfAppend(a, b);
  }

  lemma {:induction false} FolderAgain(lists: Lists, t: Table, admits: Item -> Option<string>, w: World, d: Dir,
        files: Folder)
    requires d != PvcDir && Loads(t, files) && There(t, w.cluster, ItemsOf(Kept(lists, d, files)))
    ensures var flow := RestoreFolder(lists, t, admits, w, files);
            flow.Go? && Finds(w, flow.world, Tried(t, Kept(lists, d, files)))
  {
    hide PathOf, RestoreFile, Finds, There, Unobstructed, Tried, Loads, LoadItem;
    if files == [] {
      NothingTried(t, w);
    } else {
      var n := |files| - 1;
      var f, kept := files[n], Kept(lists, d, files[..n]);
      UnobstructedLoads(lists, f);
      var more := if Unobstructed(lists, f) then [Planned(d, f, StripServerFields(LoadItem(f).value))] else [];
      ThereParts(t, w.cluster, kept, more);
      TriedAppend(t, kept, more);
      LoadsPrefix(t, files);
      FolderAgain(lists, t, admits, w, d, files[..n]);
      var before := RestoreFolder(lists, t, admits, w, files[..n]).world;
      FindsKeeps(w, before, Tried(t, kept));
      FileAgain(lists, t, admits, before, d, f);
      FindsMore(w, before, RestoreFile(lists, t, admits, before, f).world, Tried(t, kept), Tried(t, more));
    }
  }

  lemma NothingTried(t: Table, w: World)
    ensures Tried(t, []) == [] && Finds(w, w, [])
  {}

  lemma FindsKeeps(w: World, w': World, paths: seq<string>)
    requires Finds(w, w', paths)
    ensures w'.cluster == w.cluster
  {}

  /* ---- claims ---- */

  lemma PairAgain(spec: PreferenceSpec, t: Table, replies: Replies, volumes: Folder, w: World, f: File)
    requires LoadItem(f).Ok? && PathOf(t, LoadItem(f).value).Ok? && Loads(t, volumes)
    requires There(t, w.cluster, ItemsOf(PairOf(spec, volumes, f)))
    ensures var flow := RestoreClaimFile(spec, t, replies, volumes, w, f);
            flow.Go? && Finds(w, flow.world, Tried(t, PairOf(spec, volumes, f)))
  {
    hide CreateItem, Reported, KeyOf, FreedVolume, FreedClaim, WaitError, Finds, There, Uncached;
    var pvc := LoadItem(f).value;
    var path := PathOf(t, pvc).value;
    var choice := VolumeOf(spec, volumes, pvc);
    var flow := RestoreClaimFile(spec, t, replies, volumes, w, f);
    if Bindable(spec, volumes, f) {
      ChosenIsListed(spec, volumes, pvc);
      var pv := LoadItem(choice.1.value).value;
      var pvPath := PathOf(t, pv).value;
      var pair := PairOf(spec, volumes, f);
      var volume := FreedVolume(pv, GetMap(pv.fields, "spec").value);
      VolumeAgain(t, w.cluster, pair, pv, pvPath);
      ExistsAgain(t, w.cluster, replies.admits, volume, w.status, pvPath);
    } else {
      assert Tried(t, []) == [];
      if choice.0.Clear? {
        ChosenIsListed(spec, volumes, pvc);
        assert Entered(w.status, flow.world.status, Outcome.Excluded,
          PathOf(t, LoadItem(choice.1.value).value).value + ",(" + "no-pv-spec" + ")");
      } else {
        assert Entered(w.status, flow.world.status, Outcome.Excluded, path + ",(" + choice.0.msg + ")");
      }
      FindsNothing(w, flow.world);
    }
  }

  lemma VolumeAgain(t: Table, c: Cluster, pair: seq<Planned>, pv: Item, pvPath: string)
    requires |pair| == 2 && pair[0].d == PvDir && pair[1].d == PvcDir && GetMap(pv.fields, "spec").Some?
    requires pair[0].item == FreedVolume(pv, GetMap(pv.fields, "spec").value) && PathOf(t, pv) == Ok(pvPath)
    requires There(t, c, ItemsOf(pair))
    ensures There(t, c, [pair[0].item]) && Tried(t, pair) == [pvPath]
  {
    hide KeyOf, Uncached;
    assert pair[..1][..0] == [] && pair[..1] == [pair[0]] && pair == [pair[0]] + [pair[1]];
    assert ItemsOf(pair)[0] in ItemsOf(pair);
    assert Tried(t, pair[..1]) == Tried(t, pair[..1][..0]) + [PathOrEmpty(t, pair[0].item)];
    assert Tried(t, pair) == Tried(t, pair[..1]) + [];
  }

  lemma {:induction false} ClaimsAgain(spec: PreferenceSpec, t: Table, replies: Replies, volumes: Folder, w: World,
        claims: Folder)
    requires Loads(t, claims) && Loads(t, volumes) && There(t, w.cluster, ItemsOf(PairsOf(spec, volumes, claims)))
    ensures var flow := RestoreClaims(spec, t, replies, volumes, w, claims);
            flow.Go? && Finds(w, flow.world, Tried(t, PairsOf(spec, volumes, claims)))
  {
    hide PathOf, RestoreClaimFile, Finds, There, PairOf, Tried, Loads, LoadItem;
    if claims == [] {
      NothingTried(t, w);
    } else {
      var n := |claims| - 1;
      var pairs, more := PairsOf(spec, volumes, claims[..n]), PairOf(spec, volumes, claims[n]);
      ThereParts(t, w.cluster, pairs, more);
      TriedAppend(t, pairs, more);
      LoadsPrefix(t, claims);
      ClaimsAgain(spec, t, replies, volumes, w, claims[..n]);
      var before := RestoreClaims(spec, t, replies, volumes, w, claims[..n]).world;
      FindsKeeps(w, before, Tried(t, pairs));
      PairAgain(spec, t, replies, volumes, before, claims[n]);
      FindsMore(w, before, RestoreClaimFile(spec, t, replies, volumes, before, claims[n]).world, Tried(t, pairs),
        Tried(t, more));
    }
  }

  /* ---- the phases ---- */

  /** The flow goes on and has only found these. */
  ghost predicate HasFound(w: World, flow: Flow, paths: seq<string>) {
    flow.Go? && Finds(w, flow.world, paths)
  }

  lemma DirPhaseAgain(lists: Lists, t: Table, t': Table, replies: Replies, w: World, flow: Flow, tree: Tree, d: Dir,
        paths: seq<string>)
    requires d != PvcDir && FilesAlike(t', t, FilesOf(tree, d)) && TreeLoads(t, tree) && HasFound(w, flow, paths)
    requires There(t, w.cluster, ItemsOf(Kept(lists, d, FilesOf(tree, d))))
    ensures HasFound(w, DirPhase(lists, t', replies, flow, tree, d), paths + Tried(t, Kept(lists, d, FilesOf(tree, d))))
  {
    hide RestoreFolder, Loads, KeyOf, FilesAlike, There, Tried, Finds;
    SameDirPhase(lists, t', t, replies, flow, tree, d);
    FindsKeeps(w, flow.world, paths);
    assert Loads(t, FilesOf(tree, d));
    var tried := Tried(t, Kept(lists, d, FilesOf(tree, d)));
    if d in tree {
      FolderAgain(lists, t, replies.admits, flow.world, d, tree[d]);
      FindsMore(w, flow.world, DirPhase(lists, t, replies, flow, tree, d).world, paths, tried);
    } else {
      NothingTried(t, w);
      assert paths + [] == paths;
    }
  }

  lemma PvPhaseAgain(spec: PreferenceSpec, t: Table, t': Table, replies: Replies, w: World, flow: Flow, tree: Tree,
        pairs: seq<Planned>, paths: seq<string>)
    requires FilesAlike(t', t, FilesOf(tree, PvDir)) && FilesAlike(t', t, FilesOf(tree, PvcDir))
    requires TreeLoads(t, tree) && HasFound(w, flow, paths)
    requires pairs == if PvDir in tree && PvcDir in tree then PairsOf(spec, tree[PvDir], tree[PvcDir]) else []
    requires There(t, w.cluster, ItemsOf(pairs))
    ensures HasFound(w, PvPhase(spec, t', replies, flow, tree), paths + Tried(t, pairs))
  {
    hide RestoreClaims, Loads, KeyOf, FilesAlike, There, Tried, Finds, PairsOf;
    SamePvPhase(spec, t', t, replies, flow, tree);
    FindsKeeps(w, flow.world, paths);
    assert Loads(t, FilesOf(tree, PvDir)) && Loads(t, FilesOf(tree, PvcDir));
    if PvDir in tree && PvcDir in tree {
      ClaimsAgain(spec, t, replies, tree[PvDir], flow.world, tree[PvcDir]);
      FindsMore(w, flow.world, PvPhase(spec, t, replies, flow, tree).world, paths, Tried(t, pairs));
    } else {
      NothingTried(t, w);
      assert paths + [] == paths;
    }
  }

  lemma PhasesAgain(spec: PreferenceSpec, t: Table, replies: Replies, w: World, tree: Tree)
    requires TreeLoads(t, tree) && Serves(replies, t, tree) && There(t, w.cluster, ItemsOf(PlanOf(spec, tree)))
    ensures HasFound(w, Phases(spec, FilteredBy(replies.discovery.value), replies, w, tree),
              Tried(t, PlanOf(spec, tree)))
  {
    hide Kept, PairsOf, TreeLoads, KeyOf, DirPhase, PvPhase, ListsOf, FilteredBy, ItemsOf, FilesAlike, There, Tried,
      Finds;
    var lists := ListsOf(spec, tree);
    var t1, t2 := FilteredBy(replies.discovery.value), FilteredBy(replies.rediscovery.value);
    var a, b := Kept(lists, NamespaceDir, FilesOf(tree, NamespaceDir)), Kept(lists, CrdDir, FilesOf(tree, CrdDir));
    var c := if PvDir in tree && PvcDir in tree then PairsOf(spec, tree[PvDir], tree[PvcDir]) else [];
    var d, e := Kept(lists, RestoreDir, FilesOf(tree, RestoreDir)), Kept(lists, AppDir, FilesOf(tree, AppDir));
    ThereParts(t, w.cluster, a + b + c + d, e);
    ThereParts(t, w.cluster, a + b + c, d);
    ThereParts(t, w.cluster, a + b, c);
    ThereParts(t, w.cluster, a, b);
    TriedAppend(t, a + b + c + d, e);
    TriedAppend(t, a + b + c, d);
    TriedAppend(t, a + b, c);
    TriedAppend(t, a, b);
    NothingTried(t, w);
    assert [] + Tried(t, a) == Tried(t, a);
    DirPhaseAgain(lists, t, t1, replies, w, Go(w), tree, NamespaceDir, []);
    var f1 := DirPhase(lists, t1, replies, Go(w), tree, NamespaceDir);
    DirPhaseAgain(lists, t, t1, replies, w, f1, tree, CrdDir, Tried(t, a));
    var f2 := DirPhase(lists, t1, replies, f1, tree, CrdDir);
    PvPhaseAgain(spec, t, t2, replies, w, f2, tree, c, Tried(t, a + b));
    var f3 := PvPhase(spec, t2, replies, f2, tree);
    DirPhaseAgain(lists, t, t2, replies, w, f3, tree, RestoreDir, Tried(t, a + b + c));
    var f4 := DirPhase(lists, t2, replies, f3, tree, RestoreDir);
    DirPhaseAgain(lists, t, t2, replies, w, f4, tree, AppDir, Tried(t, a + b + c + d));
  }

  /* ---- the whole restore ---- */

  /** In a target that has objects under the keys of everything planned, a restore goes through,
      leaves the target as it is, creates nothing and fails nothing; it reports as existing what it
      tried, in order. */
  lemma NothingIsCreated(spec: PreferenceSpec, rs: RestoreSpec, replies: Replies, t: Table, items: seq<Item>,
        r: Record, w: World)
    requires ClusterObjects(t, items) && ServesObjects(replies, spec, t, items)
    requires There(t, w.cluster, ItemsOf(PlanOf(spec, TreeOf(spec, rs.snapshotName, t, items, r))))
    ensures var flow := RestoreResources(spec, rs, replies, ArchiveOf(rs.snapshotName, t, items, r), w);
            && flow.Go? && flow.world.cluster == w.cluster
            && flow.world.status.created == [] && flow.world.status.failed == []
            && flow.world.status.alreadyExisted ==
                 Tried(t, PlanOf(spec, TreeOf(spec, rs.snapshotName, t, items, r)))
  {
    hide ClusterObjects, PlanOf, Phases, FilteredBy, Extract, ArchiveOf, TreeLoads, ItemsOf, Readable, FilesOf,
      FilesAlike, NamesAlike, There, Tried;
    var tree := TreeOf(spec, rs.snapshotName, t, items, r);
    ItemsLoad(spec, rs.snapshotName, t, items, r);
    ObjectsServe(replies, spec, rs.snapshotName, t, items, r);
    var x := Extract(spec, rs.snapshotName, ArchiveOf(rs.snapshotName, t, items, r));
    var w0 := w.(status := InitialStatus(w.status).(numPreferenceExcluded := x.excluded));
    PhasesAgain(spec, t, replies, w0, tree);
  }

  /** The object is wanted, is not a claim, and has this path. */
  ghost predicate FoundAgain(spec: PreferenceSpec, t: Table, items: seq<Item>, a: Item, path: string) {
    Wanted(spec, t, items, a) && Prefered(spec, EntryPath(t, a)) != PvcDir && PathOf(t, a) == Ok(path)
  }

  lemma {:induction false} TriedMember(t: Table, plan: seq<Planned>, path: string)
    ensures path in Tried(t, plan) <==> exists p :: p in plan && p.d != PvcDir && PathOrEmpty(t, p.item) == path
  {
    hide PathOrEmpty;
    if plan != [] {
      var n := |plan| - 1;
      TriedMember(t, plan[..n], path);
      assert plan == plan[..n] + [plan[n]];
    }
  }

  lemma SamePath(t: Table, item: Item, a: Item)
    requires SameObject(item, a) && Addressable(t, a)
    ensures PathOf(t, a) == Ok(PathOrEmpty(t, item))
  {
    hide Uncached, ParseGroupVersion;
  }

  /** What is tried are the wanted objects but the claims. */
  lemma TriedAreWanted(spec: PreferenceSpec, name: string, t: Table, items: seq<Item>, r: Record, path: string)
    requires ClusterObjects(t, items)
    requires FromTree(TreeOf(spec, name, t, items, r), PlanOf(spec, TreeOf(spec, name, t, items, r)))
    ensures path in Tried(t, PlanOf(spec, TreeOf(spec, name, t, items, r)))
       <==> exists a :: a in items && FoundAgain(spec, t, items, a, path)
  {
    hide PlanOf, TreeOf, Tried, FromTree, SameObject, Addressable, PathOf, PathOrEmpty, Wanted, Admitted, Prefered,
      EntryPath, KeyOf, RecreatedAs;
    var tree := TreeOf(spec, name, t, items, r);
    var plan := PlanOf(spec, tree);
    TriedMember(t, plan, path);
    forall p | p in plan && p.d != PvcDir
      ensures exists a :: a in items && FoundAgain(spec, t, items, a, PathOrEmpty(t, p.item))
    {
      var a := PlannedObject(spec, name, t, items, r, p);
      PlannedIffAdmitted(spec, name, t, items, r, a);
      AdmittedIffWanted(spec, name, t, items, r, a);
      SamePath(t, p.item, a);
    }
    if a :| a in items && FoundAgain(spec, t, items, a, path) {
      PlannedIffAdmitted(spec, name, t, items, r, a);
      AdmittedIffWanted(spec, name, t, items, r, a);
      var p :| p in plan && SameObject(p.item, a);
      var b := PlannedObject(spec, name, t, items, r, p);
      SameObjectSameItem(t, items, a, b, p.item);
      SamePath(t, p.item, a);
    }
  }

  lemma PlanIsFromTree(spec: PreferenceSpec, name: string, t: Table, items: seq<Item>, r: Record)
    requires ClusterObjects(t, items) && OneClaimEach(spec, t, items)
    ensures FromTree(TreeOf(spec, name, t, items, r), PlanOf(spec, TreeOf(spec, name, t, items, r)))
  {
    hide ClusterObjects, OneClaimEach, PlanOf, TreeOf, FromTree, OneClaimPerVolume, FilesOf;
    OneClaimIsOneFile(spec, name, t, items, r);
    TreeIsListed(spec, name, t, items, r);
    PlanOnce(spec, TreeOf(spec, name, t, items, r));
  }

  lemma CreatedIsThere(t: Table, c: Cluster)
    requires Exact(t, c)
    ensures There(t, c, c.log)
  {
    hide KeyOf;
  }

  /** Restoring the same snapshot twice: the first restore fills an empty cluster, the second, however
      much later, leaves it as it is. It creates nothing and fails nothing, and reports as existing
      exactly the wanted objects other than claims, which it does not get to. */
  lemma RestoringTwice(spec: PreferenceSpec, rs: RestoreSpec, rs': RestoreSpec, replies: Replies, replies': Replies,
        t: Table, items: seq<Item>, r: Record, st: RestoreStatus, st': RestoreStatus)
    requires ClusterObjects(t, items) && OneClaimEach(spec, t, items)
    requires Welcomes(replies, spec, t, items, ItemsOf(PlanOf(spec, TreeOf(spec, rs.snapshotName, t, items, r))))
    requires ServesObjects(replies', spec, t, items) && rs'.snapshotName == rs.snapshotName
    ensures var archive := ArchiveOf(rs.snapshotName, t, items, r);
            var first := RestoreResources(spec, rs, replies, archive, World(Cluster(map[], []), st));
            var second := RestoreResources(spec, rs', replies', archive, World(first.world.cluster, st'));
            && first.Go? && second.Go? && second.world.cluster == first.world.cluster
            && second.world.status.created == [] && second.world.status.failed == []
            && forall path :: path in second.world.status.alreadyExisted <==>
                 exists a :: a in items && FoundAgain(spec, t, items, a, path)
  {
    hide ClusterObjects, OneClaimEach, Welcomes, ServesObjects, PlanOf, TreeOf, ArchiveOf, RestoreResources, Exact,
      There, Tried, FoundAgain, ItemsOf, FromTree, OneClaimPerVolume, DistinctKeys;
    OneClaimIsOneFile(spec, rs.snapshotName, t, items, r);
    RestoreIntoEmptyCluster(spec, rs, replies, t, items, r, st);
    var first := RestoreResources(spec, rs, replies, ArchiveOf(rs.snapshotName, t, items, r),
      World(Cluster(map[], []), st));
    CreatedIsThere(t, first.world.cluster);
    NothingIsCreated(spec, rs', replies', t, items, r, World(first.world.cluster, st'));
    PlanIsFromTree(spec, rs.snapshotName, t, items, r);
    forall path
      ensures path in Tried(t, PlanOf(spec, TreeOf(spec, rs.snapshotName, t, items, r))) <==>
        exists a :: a in items && FoundAgain(spec, t, items, a, path)
    {
      TriedAreWanted(spec, rs.snapshotName, t, items, r, path);
    }
  }
}
