/** The account of a restore adds up: every archived item is counted once (restore.go:56-161 and
    235-357, restore_pv.go:48-176). */
module RestoreAccount {
  import opened Text
  import opened Objects
  import opened Resources
  import opened Records
  import opened RestorePreference
  import opened Extraction
  import opened RestorePipeline

  /** Each counter is the length of its list. */
  predicate Balanced(st: RestoreStatus) {
    && st.numExcluded == |st.excluded| && st.numCreated == |st.created| && st.numUpdated == |st.updated|
    && st.numAlreadyExisted == |st.alreadyExisted| && st.numFailed == |st.failed|
  }

  function Handled(st: RestoreStatus): int {
    st.numExcluded + st.numCreated + st.numAlreadyExisted + st.numFailed
  }

  /** From w to w' the account stays balanced, counts the objects created, handles n items more
      and leaves the number of items the preference excluded. */
  predicate Accounts(w: World, w': World, n: nat) {
    && (Balanced(w.status) ==> Balanced(w'.status))
    && Handled(w'.status) == Handled(w.status) + n
    && w'.status.numCreated - w.status.numCreated == |w'.cluster.log| - |w.cluster.log|
    && w.cluster.log <= w'.cluster.log
    && w'.status.numPreferenceExcluded == w.status.numPreferenceExcluded
  }

  lemma AccountsTrans(w: World, w': World, w'': World, n: nat, m: nat)
    requires Accounts(w, w', n) && Accounts(w', w'', m)
    ensures Accounts(w, w'', n + m)
  {
    assert w''.cluster.log[..|w.cluster.log|] == w'.cluster.log[..|w.cluster.log|];
  }

  lemma CreateGrows(c: Cluster, admits: Item -> Option<string>, table: Table, item: Item)
    ensures var (c', error) := CreateItem(c, admits, table, item);
            c'.log == c.log + if error.None? then [item] else []
  {
    hide Uncached, ParseGroupVersion;
  }

  lemma ReportAccounts(w: World, admits: Item -> Option<string>, table: Table, item: Item, path: string)
    ensures var (cluster, error) := CreateItem(w.cluster, admits, table, item);
            Accounts(w, World(cluster, Reported(w.status, path, error)), 1)
  {
    CreateGrows(w.cluster, admits, table, item);
    hide CreateItem, Contains;
  }

  lemma ExcludedAccounts(w: World, path: string, msg: string)
    ensures Accounts(w, w.(status := WithExcluded(w.status, path, msg)), 1)
  {}

  /* ---- directories ---- */

  /** restoreDir passes over the file without recording it. */
  predicate Unseen(lists: Lists, f: File) {
    LoadItem(f).Ok? && ObstacleOf(lists, LoadItem(f).value).Unrecorded?
  }

  function CountUnseen(lists: Lists, files: Folder): nat {
    if files == [] then 0
    else CountUnseen(lists, files[..|files| - 1]) + if Unseen(lists, files[|files| - 1]) then 1 else 0
  }

  lemma {:induction false} UnseenBound(lists: Lists, files: Folder)
    ensures CountUnseen(lists, files) <= |files|
    ensures (forall f :: f in files ==> !Unseen(lists, f)) ==> CountUnseen(lists, files) == 0
  {
    hide Unseen;
    if files != [] {
      UnseenBound(lists, files[..|files| - 1]);
    }
  }

  lemma FileAccounts(lists: Lists, table: Table, admits: Item -> Option<string>, w: World, f: File)
    ensures var flow := RestoreFile(lists, table, admits, w, f);
            Accounts(w, flow.world, if flow.Stop? || Unseen(lists, f) then 0 else 1)
  {
    hide PathOf, Reported, CreateItem, WithExcluded;
    if LoadItem(f).Ok? && PathOf(table, LoadItem(f).value).Ok? {
      var item, path := LoadItem(f).value, PathOf(table, LoadItem(f).value).value;
      ReportAccounts(w, admits, table, StripServerFields(item), path);
      if ObstacleOf(lists, item).Recorded? { ExcludedAccounts(w, path, ObstacleOf(lists, item).msg); }
    }
  }

  /** A directory handles each of its files once, except claims that slipped into it. */
  lemma {:induction false} FolderAccounts(lists: Lists, table: Table,
        admits: Item -> Option<string>, w: World, files: Folder)
    ensures var flow := RestoreFolder(lists, table, admits, w, files);
            && CountUnseen(lists, files) <= |files|
            && (flow.Go? ==> Accounts(w, flow.world, |files| - CountUnseen(lists, files)))
            && exists n: nat :: Accounts(w, flow.world, n)
  {
    hide RestoreFile, Accounts, Unseen;
    if files == [] {
      assert Accounts(w, w, 0) by { AccountsNothing(w); }
    } else {
      var n := |files| - 1;
      FolderAccounts(lists, table, admits, w, files[..n]);
      var before := RestoreFolder(lists, table, admits, w, files[..n]);
      if before.Go? {
        FileAccounts(lists, table, admits, before.world, files[n]);
        var flow := RestoreFile(lists, table, admits, before.world, files[n]);
        AccountsTrans(w, before.world, flow.world, n - CountUnseen(lists, files[..n]),
          if flow.Stop? || Unseen(lists, files[n]) then 0 else 1);
      }
    }
  }

  lemma AccountsNothing(w: World)
    ensures Accounts(w, w, 0)
  {}

  /* ---- volumes and claims ---- */

  lemma ClaimAccounts(table: Table, replies: Replies, w: World, pvcPath: string, pvc: Item,
        pvcSpec: map<string, Json>, pvName: string)
    ensures Accounts(w, RestoreClaim(table, replies, w, pvcPath, pvc, pvcSpec, pvName).world, 1)
  {
    hide Reported, CreateItem, WaitError, Accounts;
    ReportAccounts(w, replies.admits, table, FreedClaim(pvc, pvcSpec), pvcPath);
  }

  lemma PairAccounts(table: Table, replies: Replies, w: World, pvcPath: string, pvc: Item,
        pvcSpec: map<string, Json>, pvFile: File)
    ensures var flow := RestorePair(table, replies, w, pvcPath, pvc, pvcSpec, pvFile);
            && (flow.Go? ==> Accounts(w, flow.world, if flow.world.cluster.log == w.cluster.log then 1 else 2))
            && exists n: nat :: Accounts(w, flow.world, n)
  {
    hide Reported, CreateItem, RestoreClaim, PathOf, WithExcluded;
    AccountsNothing(w);
    if LoadItem(pvFile).Ok? && PathOf(table, LoadItem(pvFile).value).Ok? {
      var pv, pvPath := LoadItem(pvFile).value, PathOf(table, LoadItem(pvFile).value).value;
      match GetMap(pv.fields, "spec")
      case None => ExcludedAccounts(w, pvPath, "no-pv-spec");
      case Some(pvSpec) =>
        CreateGrows(w.cluster, replies.admits, table, FreedVolume(pv, pvSpec));
        ReportAccounts(w, replies.admits, table, FreedVolume(pv, pvSpec), pvPath);
        var (cluster, error) := CreateItem(w.cluster, replies.admits, table, FreedVolume(pv, pvSpec));
        var w' := World(cluster, Reported(w.status, pvPath, error));
        if error.None? {
          ClaimAccounts(table, replies, w', pvcPath, pvc, pvcSpec, pv.name);
          AccountsTrans(w, w', RestoreClaim(table, replies, w', pvcPath, pvc, pvcSpec, pv.name).world, 1, 1);
        }
    }
  }

  lemma ClaimFileAccounts(spec: PreferenceSpec, table: Table, replies: Replies, volumes: Folder, w: World, f: File)
    ensures var flow := RestoreClaimFile(spec, table, replies, volumes, w, f);
            && (flow.Go? ==> Accounts(w, flow.world, if flow.world.cluster.log == w.cluster.log then 1 else 2))
            && exists n: nat :: Accounts(w, flow.world, n)
  {
    hide RestorePair, PathOf, VolumeOf, Accounts, WithExcluded;
    AccountsNothing(w);
    if LoadItem(f).Ok? && PathOf(table, LoadItem(f).value).Ok? {
      var pvc, pvcPath := LoadItem(f).value, PathOf(table, LoadItem(f).value).value;
      match VolumeOf(spec, volumes, pvc)
      case (Recorded(msg), _) => ExcludedAccounts(w, pvcPath, msg);
      case (Clear, Some(pvFile)) => PairAccounts(table, replies, w, pvcPath, pvc, GetMap(pvc.fields, "spec").value,
        pvFile);
    }
  }

  /** How many claims got as far as creating their volume. */
  function VolumesCreated(spec: PreferenceSpec, table: Table, replies: Replies, volumes: Folder, w: World,
        claims: Folder): nat {
    if claims == [] then 0
    else
      var n := |claims| - 1;
      var before := RestoreClaims(spec, table, replies, volumes, w, claims[..n]);
      VolumesCreated(spec, table, replies, volumes, w, claims[..n]) +
      if before.Stop? then 0
      else
        var after := RestoreClaimFile(spec, table, replies, volumes, before.world, claims[n]);
        if after.world.cluster.log != before.world.cluster.log then 1 else 0
  }

  /** The volume pass handles each claim once, and each volume it created once. */
  lemma {:induction false} ClaimsAccount(spec: PreferenceSpec, table: Table, replies: Replies, volumes: Folder,
        w: World, claims: Folder)
    ensures var flow := RestoreClaims(spec, table, replies, volumes, w, claims);
            && (flow.Go? ==>
                 Accounts(w, flow.world, |claims| + VolumesCreated(spec, table, replies, volumes, w, claims)))
            && exists n: nat :: Accounts(w, flow.world, n)
  {
    hide RestoreClaimFile, Accounts;
    if claims == [] {
      AccountsNothing(w);
    } else {
      var n := |claims| - 1;
      ClaimsAccount(spec, table, replies, volumes, w, claims[..n]);
      var before := RestoreClaims(spec, table, replies, volumes, w, claims[..n]);
      if before.Go? {
        ClaimFileAccounts(spec, table, replies, volumes, before.world, claims[n]);
        var flow := RestoreClaimFile(spec, table, replies, volumes, before.world, claims[n]);
        var m: nat :| Accounts(before.world, flow.world, m) &&
          (flow.Go? ==> m == if flow.world.cluster.log == before.world.cluster.log then 1 else 2);
        AccountsTrans(w, before.world, flow.world,
          n + VolumesCreated(spec, table, replies, volumes, w, claims[..n]), m);
      }
    }
  }

  /* ---- a whole restore ---- */

  lemma DirPhaseAccounts(lists: Lists, table: Table, replies: Replies, flow: Flow, tree: Tree, d: Dir)
    requires flow.Go?
    ensures var after := DirPhase(lists, table, replies, flow, tree, d);
            && CountUnseen(lists, FilesOf(tree, d)) <= Size(tree, d)
            && (after.Go? ==> Accounts(flow.world, after.world, Size(tree, d) - CountUnseen(lists, FilesOf(tree, d))))
            && exists n: nat :: Accounts(flow.world, after.world, n)
  {
    hide RestoreFolder, Accounts;
    UnseenBound(lists, FilesOf(tree, d));
    AccountsNothing(flow.world);
    if d in tree { FolderAccounts(lists, table, replies.admits, flow.world, tree[d]); }
  }

  function VolumePassSize(spec: PreferenceSpec, table: Table, replies: Replies, w: World, tree: Tree): nat {
    if PvDir in tree && PvcDir in tree
      then Size(tree, PvcDir) + VolumesCreated(spec, table, replies, tree[PvDir], w, tree[PvcDir]) else 0
  }

  lemma PvPhaseAccounts(spec: PreferenceSpec, table: Table, replies: Replies, flow: Flow, tree: Tree)
    requires flow.Go?
    ensures var after := PvPhase(spec, table, replies, flow, tree);
            && (after.Go? ==> Accounts(flow.world, after.world, VolumePassSize(spec, table, replies, flow.world, tree)))
            && exists n: nat :: Accounts(flow.world, after.world, n)
  {
    hide RestoreClaims, Accounts, VolumesCreated;
    AccountsNothing(flow.world);
    if PvDir in tree && PvcDir in tree { ClaimsAccount(spec, table, replies, tree[PvDir], flow.world, tree[PvcDir]); }
  }

  /** The restore when the volumes are about to be restored. */
  function AfterCrds(spec: PreferenceSpec, table: Table, replies: Replies, w: World, tree: Tree): Flow {
    DirPhase(ListsOf(spec, tree), table, replies,
      DirPhase(ListsOf(spec, tree), table, replies, Go(w), tree, NamespaceDir), tree, CrdDir)
  }

  /** The files of a directory that restoreDir records. */
  function SeenSize(lists: Lists, tree: Tree, d: Dir): int {
    Size(tree, d) - CountUnseen(lists, FilesOf(tree, d))
  }

  /** The flow has come from w; if it goes on, it has handled n items. */
  ghost predicate Handles(w: World, flow: Flow, n: int) {
    (flow.Go? ==> n >= 0 && Accounts(w, flow.world, n)) && exists m: nat :: Accounts(w, flow.world, m)
  }

  lemma Onward(w: World, flow: Flow, flow': Flow, n: int, m: int)
    requires Handles(w, flow, n)
    requires if flow.Stop? then flow' == flow else Handles(flow.world, flow', m)
    ensures Handles(w, flow', n + m)
  {
    hide Accounts;
    if flow.Go? {
      var k: nat :| Accounts(flow.world, flow'.world, k);
      AccountsTrans(w, flow.world, flow'.world, n, k);
      if flow'.Go? { AccountsTrans(w, flow.world, flow'.world, n, m); }
    }
  }

  lemma DirPhaseOnward(w: World, flow: Flow, n: int, lists: Lists, table: Table, replies: Replies, tree: Tree, d: Dir)
    requires Handles(w, flow, n)
    ensures Handles(w, DirPhase(lists, table, replies, flow, tree, d), n + SeenSize(lists, tree, d))
  {
    var flow' := DirPhase(lists, table, replies, flow, tree, d);
    if flow.Go? { DirPhaseAccounts(lists, table, replies, flow, tree, d); }
    hide Accounts, CountUnseen, FilesOf, RestoreFolder;
    Onward(w, flow, flow', n, SeenSize(lists, tree, d));
  }

  /** Every phase accounts for its directory, whether or not the restore goes through. */
  lemma PhasesAccount(spec: PreferenceSpec, table: Table, replies: Replies, w: World, tree: Tree)
    ensures var flow, lists := Phases(spec, table, replies, w, tree), ListsOf(spec, tree);
            && (exists m: nat :: Accounts(w, flow.world, m))
            && (flow.Go? ==>
                  && replies.rediscovery.Ok?
                  && Handles(w, flow, SeenSize(lists, tree, NamespaceDir) + SeenSize(lists, tree, CrdDir)
                       + VolumePassSize(spec, FilteredBy(replies.rediscovery.value), replies,
                         AfterCrds(spec, table, replies, w, tree).world, tree)
                       + SeenSize(lists, tree, RestoreDir) + SeenSize(lists, tree, AppDir)))
  {
    hide DirPhase, PvPhase, Accounts, ListsOf, FilteredBy, VolumePassSize, SeenSize;
    var lists := ListsOf(spec, tree);
    AccountsNothing(w);
    var f1 := DirPhase(lists, table, replies, Go(w), tree, NamespaceDir);
    DirPhaseOnward(w, Go(w), 0, lists, table, replies, tree, NamespaceDir);
    DirPhaseOnward(w, f1, SeenSize(lists, tree, NamespaceDir), lists, table, replies, tree, CrdDir);
    var f2 := DirPhase(lists, table, replies, f1, tree, CrdDir);
    var n2 := SeenSize(lists, tree, NamespaceDir) + SeenSize(lists, tree, CrdDir);
    var m2: nat :| Accounts(w, f2.world, m2);
    if f2.Stop? || replies.rediscovery.Err? {
      assert Phases(spec, table, replies, w, tree).world == f2.world;
    } else {
      var table' := FilteredBy(replies.rediscovery.value);
      var v := VolumePassSize(spec, table', replies, f2.world, tree);
      PvPhaseAccounts(spec, table', replies, f2, tree);
      var f3 := PvPhase(spec, table', replies, f2, tree);
      Onward(w, f2, f3, n2, v);
      DirPhaseOnward(w, f3, n2 + v, lists, table', replies, tree, RestoreDir);
      var f4 := DirPhase(lists, table', replies, f3, tree, RestoreDir);
      DirPhaseOnward(w, f4, n2 + v + SeenSize(lists, tree, RestoreDir), lists, table', replies, tree, AppDir);
      var f5 := DirPhase(lists, table', replies, f4, tree, AppDir);
      assert f5 == Phases(spec, table, replies, w, tree);
      assert Handles(w, f5, n2 + v + SeenSize(lists, tree, RestoreDir) + SeenSize(lists, tree, AppDir));
    }
  }

  /** Conservation: after a successful restore every counter is the length of its list, every
      archived item is excluded by the preference or lies in one of the six directories, and the
      four outcomes count every file of the four plain directories (but claims among them), every
      claim of the volume pass and every volume it created. What was created is what is logged. */
  lemma RestoreConserves(spec: PreferenceSpec, rs: RestoreSpec, replies: Replies, archive: Archive, w: World)
    requires DistinctPaths(archive, rs.snapshotName)
    requires RestoreResources(spec, rs, replies, archive, w).Go?
    ensures var st := RestoreResources(spec, rs, replies, archive, w).world.status;
            var tree := Extract(spec, rs.snapshotName, archive).tree;
            var lists := ListsOf(spec, tree);
            var w0 := w.(status := InitialStatus(w.status).(numPreferenceExcluded := st.numPreferenceExcluded));
            && replies.discovery.Ok? && replies.rediscovery.Ok?
            && Balanced(st)
            && CountRelevant(archive, rs.snapshotName) == st.numPreferenceExcluded + TotalSize(tree)
            && Handled(st) == SeenSize(lists, tree, NamespaceDir) + SeenSize(lists, tree, CrdDir)
                 + SeenSize(lists, tree, RestoreDir) + SeenSize(lists, tree, AppDir)
                 + VolumePassSize(spec, FilteredBy(replies.rediscovery.value), replies,
                     AfterCrds(spec, FilteredBy(replies.discovery.value), replies, w0, tree).world, tree)
            && st.numCreated == |RestoreResources(spec, rs, replies, archive, w).world.cluster.log| - |w.cluster.log|
  {
    hide Phases, ListsOf, FilteredBy, VolumePassSize, SeenSize, Extract, AfterCrds;
    var x := Extract(spec, rs.snapshotName, archive);
    ExtractionConserves(spec, rs.snapshotName, archive);
    var w0 := w.(status := InitialStatus(w.status).(numPreferenceExcluded := x.excluded));
    PhasesAccount(spec, FilteredBy(replies.discovery.value), replies, w0, x.tree);
  }

  /** Even a restore that fails half-way keeps its counters and lists together. */
  lemma FailedRestoreIsBalanced(spec: PreferenceSpec, rs: RestoreSpec, replies: Replies, archive: Archive, w: World)
    requires replies.discovery.Ok?
    ensures var w' := RestoreResources(spec, rs, replies, archive, w).world;
            Balanced(w'.status) && w'.status.numCreated == |w'.cluster.log| - |w.cluster.log|
  {
    hide Phases, ListsOf, FilteredBy, VolumePassSize, SeenSize, Extract, AfterCrds;
    var x := Extract(spec, rs.snapshotName, archive);
    var w0 := w.(status := InitialStatus(w.status).(numPreferenceExcluded := x.excluded));
    PhasesAccount(spec, FilteredBy(replies.discovery.value), replies, w0, x.tree);
  }
}
