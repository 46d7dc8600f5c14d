/** pkg/cluster/restore.go and restore_pv.go as they run: the restore object and the target cluster
    are changed step by step, as RestorePipeline describes. */
module RestoreRun {
  import opened Text
  import opened Objects
  import opened Resources
  import opened Paths
  import opened Records
  import opened RestorePreference
  import opened Extraction
  import opened RestorePipeline

  class RestoreObject {
    const spec: RestoreSpec
    var status: RestoreStatus

    constructor (spec: RestoreSpec, status: RestoreStatus)
      ensures this.spec == spec && this.status == status
    {
      this.spec, this.status := spec, status;
    }

    method ExcludeWithMsg(selflink: string, msg: string)
      modifies this
      ensures status == WithExcluded(old(status), selflink, msg)
    {
      status := status.(numExcluded := status.numExcluded + 1);
      status := status.(excluded := status.excluded + [selflink + ",(" + msg + ")"]);
    }

    method AlreadyExist(selflink: string)
      modifies this
      ensures status == WithExisting(old(status), selflink)
    {
      status := status.(numAlreadyExisted := status.numAlreadyExisted + 1);
      status := status.(alreadyExisted := status.alreadyExisted + [selflink]);
    }

    method Created(selflink: string)
      modifies this
      ensures status == WithCreated(old(status), selflink)
    {
      status := status.(numCreated := status.numCreated + 1);
      status := status.(created := status.created + [selflink]);
    }

    method FailedWithMsg(selflink: string, msg: string)
      modifies this
      ensures status == WithFailed(old(status), selflink, msg)
    {
      status := status.(numFailed := status.numFailed + 1);
      if |msg| > 300 {
        status := status.(failed := status.failed + [selflink + "," + msg[0..300] + "....."]);
        assert selflink + "," + msg[0..300] + "....." == selflink + "," + (msg[0..300] + ".....");
      } else {
        status := status.(failed := status.failed + [selflink + "," + msg]);
      }
    }

    /** The branches on the error of a create. */
    method Report(selflink: string, error: Option<string>)
      modifies this
      ensures status == Reported(old(status), selflink, error)
    {
      hide Contains;
      if error.Some? {
        if Contains(error.value, ALREADY_EXISTS) {
          AlreadyExist(selflink);
        } else {
          FailedWithMsg(selflink, error.value);
        }
      } else {
        Created(selflink);
      }
    }
  }

  class Target {
    var cluster: Cluster

    constructor (cluster: Cluster)
      ensures this.cluster == cluster
    {
      this.cluster := cluster;
    }

    /** createItem. */
    method Create(item: Item, admits: Item -> Option<string>, sr: ServerResources) returns (error: Option<string>)
      requires sr.Valid() && sr.Transparent()
      modifies this, sr`resourceNames
      ensures (cluster, error) == CreateItem(old(cluster), admits, sr.table, item)
      ensures sr.Valid() && (WellFormed(sr.table) ==> sr.Transparent())
    {
      var gv := ParseGroupVersion(item.apiVersion);
      if gv.None? {
        return Some(NOT_PARSED);
      }
      var resource := sr.ResourceName(GVK(gv.value, item.kind));
      if resource.Err? {
        return Some(resource.message);
      }
      var key := ObjectKey(GVR(gv.value, resource.value), item.namespace, item.name);
      if key in cluster.objects {
        return Some(item.name + " " + ALREADY_EXISTS);
      }
      error := admits(item);
      if error.None? {
        cluster := Cluster(cluster.objects[key := item], cluster.log + [item]);
      }
    }
  }

  class Restorer {
    const restore: RestoreObject
    const target: Target
    const p: Preference
    const replies: Replies

    constructor (restore: RestoreObject, target: Target, p: Preference, replies: Replies)
      ensures this.restore == restore && this.target == target && this.p == p && this.replies == replies
    {
      this.restore, this.target, this.p, this.replies := restore, target, p, replies;
    }

    function ToWorld(): World
      reads restore, target
    {
      World(target.cluster, restore.status)
    }

    /** err is the error that the flow stops with, if it stops. */
    predicate Ends(flow: Flow, err: Option<string>)
      reads restore, target
    {
      ToWorld() == flow.world && err == if flow.Stop? then Some(flow.message) else None
    }

    method RestoreItem(f: File, sr: ServerResources) returns (err: Option<string>)
      requires sr.Valid() && sr.Transparent()
      modifies restore, target, sr`resourceNames
      ensures Ends(RestoreFile(p.ToLists(), sr.table, replies.admits, old(ToWorld()), f), err)
      ensures sr.Valid() && (err.None? ==> sr.Transparent())
    {
      hide PathOf, CreateItem, Reported, Fill, Uncached;
      var item := LoadItem(f);
      if item.Err? {
        return Some(item.message);
      }
      var path := sr.ResourcePath(item.value);
      if path.Err? {
        return Some(path.message);
      }
      if |item.value.owners| > 0 {
        restore.ExcludeWithMsg(path.value, "owner-ref");
        return None;
      }
      match item.value.kind {
        case "Secret" =>
          if GetString(item.value.fields, "type") == "kubernetes.io/service-account-token" {
            restore.ExcludeWithMsg(path.value, "token-secret");
            return None;
          }
        case "ClusterRole" =>
          if item.value.name !in p.includedClusterRoles {
            restore.ExcludeWithMsg(path.value, "not-binded-to-ns");
            return None;
          }
        case "ClusterRoleBinding" =>
          if item.value.name !in p.includedClusterRoleBindings {
            restore.ExcludeWithMsg(path.value, "not-binded-to-ns");
            return None;
          }
        case "PersistentVolumeClaim" =>
          return None;
        case "Endpoints" =>
          if item.value.namespace + "/" + item.value.name in p.serviceList {
            restore.ExcludeWithMsg(path.value, "service-exists");
            return None;
          }
        case _ =>
      }
      var error := target.Create(StripServerFields(item.value), replies.admits, sr);
      restore.Report(path.value, error);
      return None;
    }

    /** restoreDir. */
    method RestoreDirectory(files: Folder, sr: ServerResources) returns (err: Option<string>)
      requires sr.Valid() && sr.Transparent()
      modifies restore, target, sr`resourceNames
      ensures Ends(RestoreFolder(p.ToLists(), sr.table, replies.admits, old(ToWorld()), files), err)
      ensures sr.Valid() && (err.None? ==> sr.Transparent())
    {
      hide RestoreFile;
      ghost var w, lists := ToWorld(), p.ToLists();
      for i := 0 to |files|
        invariant sr.Valid() && sr.Transparent()
        invariant RestoreFolder(lists, sr.table, replies.admits, w, files[..i]) == Go(ToWorld())
      {
        assert files[..i + 1][..i] == files[..i];
        err := RestoreItem(files[i], sr);
        if err.Some? {
          StoppedFolder(lists, sr.table, replies.admits, w, files, i + 1);
          return;
        }
      }
      assert files[..|files|] == files;
      return None;
    }

    method SearchVolume(files: Folder, volume: string) returns (r: Option<File>)
      ensures r == FindVolume(files, volume)
    {
      hide Contains;
      var i := 0;
      while i < |files|
        invariant 0 <= i <= |files| && FindVolume(files, volume) == FindVolume(files[i..], volume)
      {
        assert files[i..][0] == files[i] && files[i..][1..] == files[i + 1..];
        if Contains(files[i].name, "|persistentvolumes|" + volume + ".json") {
          return Some(files[i]);
        }
        i := i + 1;
      }
      return None;
    }

    method WaitForBound(name: string) returns (error: Option<string>)
      ensures error == WaitError(replies.poll, name, 0)
    {
      var count := 0;
      while count < POLLS
        invariant 0 <= count <= POLLS && WaitError(replies.poll, name, 0) == WaitError(replies.poll, name, count)
      {
        var seen := replies.poll(name, count);
        match seen
        case Unreadable(message) => return Some(message);
        case Bound => return None;
        case Unbound => count := count + 1;
      }
      return Some(NOT_BOUND + name);
    }

    /** The checks of restorePV before anything is created. */
    method ChooseVolume(volumes: Folder, pvc: Item) returns (obstacle: Obstacle, pvFile: Option<File>)
      ensures (obstacle, pvFile) == VolumeOf(p.spec, volumes, pvc)
    {
      hide IncludedStorageClass;
      var pvcSpec := GetMap(pvc.fields, "spec");
      if pvcSpec.None? {
        return Recorded("no-pvc-spec"), None;
      }
      var storageClassName := GetString(pvcSpec.value, "storageClassName");
      var included := p.IsIncludedStorageClass(storageClassName);
      if storageClassName == "" || !included {
        var annotation := Annotation(pvc, STORAGE_CLASS);
        included := p.IsIncludedStorageClass(annotation);
        if annotation == "" || !included {
          return Recorded("no-storageclass"), None;
        }
      }
      var volumeName := GetString(pvcSpec.value, "volumeName");
      if volumeName == "" {
        return Recorded("not-bounded"), None;
      }
      var found := SearchVolume(volumes, volumeName);
      return if found.None? then Recorded("pv-not-found") else Clear, found;
    }

    method CreateClaim(pvcPath: string, pvc: Item, pvcSpec: map<string, Json>, pvName: string,
          sr: ServerResources) returns (err: Option<string>)
      requires sr.Valid() && sr.Transparent() && WellFormed(sr.table)
      modifies restore, target, sr`resourceNames
      ensures Ends(RestoreClaim(sr.table, replies, old(ToWorld()), pvcPath, pvc, pvcSpec, pvName), err)
      ensures sr.Valid() && sr.Transparent()
    {
      hide CreateItem, Reported, Fill, Uncached;
      var freed := pvc.(fields := pvc.fields["spec" := Obj(pvcSpec["volumeName" := Null])]);
      freed := freed.(fields := freed.fields["status" := Null]);
      freed := freed.(resourceVersion := "");
      freed := freed.(uid := "");
      freed := freed.(annotations := freed.annotations - {BIND_COMPLETED});
      var error := target.Create(freed, replies.admits, sr);
      restore.Report(pvcPath, error);
      if error.Some? {
        return None;
      }
      err := WaitForBound(pvName);
    }

    method CreatePair(pvcPath: string, pvc: Item, pvcSpec: map<string, Json>, pvFile: File, sr: ServerResources)
      returns (err: Option<string>)
      requires sr.Valid() && sr.Transparent()
      modifies restore, target, sr`resourceNames
      ensures Ends(RestorePair(sr.table, replies, old(ToWorld()), pvcPath, pvc, pvcSpec, pvFile), err)
      ensures sr.Valid() && (err.None? ==> sr.Transparent())
    {
      hide CreateItem, Reported, Fill, Uncached, PathOf, RestoreClaim;
      var pv := LoadItem(pvFile);
      if pv.Err? {
        return Some(pv.message);
      }
      var pvPath := sr.ResourcePath(pv.value);
      if pvPath.Err? {
        return Some(pvPath.message);
      }
      var pvSpec := GetMap(pv.value.fields, "spec");
      if pvSpec.None? {
        restore.ExcludeWithMsg(pvPath.value, "no-pv-spec");
        return None;
      }
      var freed := pv.value.(fields := pv.value.fields["spec" := Obj(pvSpec.value["claimRef" := Null])]);
      freed := freed.(fields := freed.fields["status" := Null]);
      freed := freed.(resourceVersion := "");
      freed := freed.(uid := "");
      var error := target.Create(freed, replies.admits, sr);
      restore.Report(pvPath.value, error);
      if error.Some? {
        return None;
      }
      err := CreateClaim(pvcPath, pvc, pvcSpec, pv.value.name, sr);
    }

    method RestoreClaimItem(volumes: Folder, f: File, sr: ServerResources) returns (err: Option<string>)
      requires sr.Valid() && sr.Transparent()
      modifies restore, target, sr`resourceNames
      ensures Ends(RestoreClaimFile(p.spec, sr.table, replies, volumes, old(ToWorld()), f), err)
      ensures sr.Valid() && (err.None? ==> sr.Transparent())
    {
      hide RestorePair, VolumeOf, PathOf, Fill, Uncached;
      var pvc := LoadItem(f);
      if pvc.Err? {
        return Some(pvc.message);
      }
      var pvcPath := sr.ResourcePath(pvc.value);
      if pvcPath.Err? {
        return Some(pvcPath.message);
      }
      var obstacle, pvFile := ChooseVolume(volumes, pvc.value);
      if obstacle.Recorded? {
        restore.ExcludeWithMsg(pvcPath.value, obstacle.msg);
        return None;
      }
      err := CreatePair(pvcPath.value, pvc.value, GetMap(pvc.value.fields, "spec").value, pvFile.value, sr);
    }

    /** restorePV. */
    method RestorePV(volumes: Folder, claims: Folder, sr: ServerResources) returns (err: Option<string>)
      requires sr.Valid() && sr.Transparent()
      modifies restore, target, sr`resourceNames
      ensures Ends(RestoreClaims(p.spec, sr.table, replies, volumes, old(ToWorld()), claims), err)
      ensures sr.Valid() && (err.None? ==> sr.Transparent())
    {
      hide RestoreClaimFile;
      ghost var w := ToWorld();
      for i := 0 to |claims|
        invariant sr.Valid() && sr.Transparent()
        invariant RestoreClaims(p.spec, sr.table, replies, volumes, w, claims[..i]) == Go(ToWorld())
      {
        assert claims[..i + 1][..i] == claims[..i];
        err := RestoreClaimItem(volumes, claims[i], sr);
        if err.Some? {
          StoppedClaims(p.spec, sr.table, replies, volumes, w, claims, i + 1);
          return;
        }
      }
      assert claims[..|claims|] == claims;
      return None;
    }

    /** The loop over the archive entries. */
    method ExtractFiles(archive: Archive) returns (tree: Tree)
      modifies restore
      ensures var x := Extract(p.spec, restore.spec.snapshotName, archive);
              && tree == x.tree
              && restore.status ==
                   old(restore.status).(numPreferenceExcluded := old(restore.status).numPreferenceExcluded + x.excluded)
    {
      hide Prefered, StripName, Escape;
      var name := restore.spec.snapshotName;
      tree := map[];
      for i := 0 to |archive|
        invariant var x := Extract(p.spec, name, archive[..i]);
          && tree == x.tree
          && restore.status ==
               old(restore.status).(numPreferenceExcluded := old(restore.status).numPreferenceExcluded + x.excluded)
      {
        var e := archive[i];
        assert archive[..i + 1][..i] == archive[..i] && archive[..i + 1][i] == e;
        if e.regular {
          var path := StripName(e.name, name);
          if path == "/snapshot.json" {
            continue;
          }
          var restorePref := p.PreferedToRestore(path);
          if restorePref == Exclude {
            restore.status := restore.status.(numPreferenceExcluded := restore.status.numPreferenceExcluded + 1);
            continue;
          }
          tree := tree[restorePref := PutFile(FilesOf(tree, restorePref), File(Escape(path), e.content))];
        }
      }
      assert archive[..|archive|] == archive;
    }

    method RunPhase(tree: Tree, d: Dir, sr: ServerResources, ghost flow: Flow) returns (err: Option<string>)
      requires sr.Valid() && sr.Transparent() && flow == Go(ToWorld()) && p.dirs == tree.Keys
      modifies restore, target, sr`resourceNames
      ensures Ends(DirPhase(p.ToLists(), sr.table, replies, flow, tree, d), err)
      ensures sr.Valid() && (err.None? ==> sr.Transparent())
    {
      hide RestoreFolder;
      if p.IsIn(d) {
        err := RestoreDirectory(tree[d], sr);
      } else {
        err := None;
      }
    }

    method RunPvPhase(tree: Tree, sr: ServerResources, ghost flow: Flow) returns (err: Option<string>)
      requires sr.Valid() && sr.Transparent() && flow == Go(ToWorld()) && p.dirs == tree.Keys
      modifies restore, target, sr`resourceNames
      ensures Ends(PvPhase(p.spec, sr.table, replies, flow, tree), err)
      ensures sr.Valid() && (err.None? ==> sr.Transparent())
    {
      hide RestoreClaims;
      if p.IsIn(PvDir) && p.IsIn(PvcDir) {
        err := RestorePV(tree[PvDir], tree[PvcDir], sr);
      } else {
        err := None;
      }
    }

    method RunPhases(tree: Tree, sr: ServerResources) returns (err: Option<string>)
      requires sr.Valid() && sr.Transparent() && p.dirs == tree.Keys && p.ToLists() == ListsOf(p.spec, tree)
      modifies restore, target, sr`resourceNames
      ensures Ends(Phases(p.spec, sr.table, replies, old(ToWorld()), tree), err)
    {
      hide DirPhase, PvPhase, ListsOf, FilteredBy;
      ghost var lists := p.ToLists();
      ghost var flow := Go(ToWorld());
      err := RunPhase(tree, NamespaceDir, sr, flow);
      flow := DirPhase(lists, sr.table, replies, flow, tree, NamespaceDir);
      if err.Some? {
        StoppedPhase(lists, sr.table, replies, flow, tree, CrdDir);
        return;
      }
      err := RunPhase(tree, CrdDir, sr, flow);
      flow := DirPhase(lists, sr.table, replies, flow, tree, CrdDir);
      if err.Some? {
        return;
      }
      if replies.rediscovery.Err? {
        return Some(replies.rediscovery.message);
      }
      var sr' := new ServerResources(replies.rediscovery.value);
      err := RunPvPhase(tree, sr', flow);
      flow := PvPhase(p.spec, sr'.table, replies, flow, tree);
      if err.Some? {
        StoppedPhase(lists, sr'.table, replies, flow, tree, RestoreDir);
        StoppedPhase(lists, sr'.table, replies, flow, tree, AppDir);
        return;
      }
      err := RunPhase(tree, RestoreDir, sr', flow);
      flow := DirPhase(lists, sr'.table, replies, flow, tree, RestoreDir);
      if err.Some? {
        StoppedPhase(lists, sr'.table, replies, flow, tree, AppDir);
        return;
      }
      err := RunPhase(tree, AppDir, sr', flow);
    }

    /** restoreResources. */
    method RestoreSnapshot(archive: Archive) returns (err: Option<string>)
      modifies restore, target, p
      ensures Ends(RestoreResources(p.spec, restore.spec, replies, archive, old(ToWorld())), err)
    {
      hide Extract, Phases, ListsOf, FilteredBy, Readable;
      if replies.discovery.Err? {
        return Some(replies.discovery.message);
      }
      var sr := new ServerResources(replies.discovery.value);
      restore.status := InitialStatus(restore.status);
      var tree := ExtractFiles(archive);
      var ok := p.InitializeByDir(tree);
      if !ok {
        return Some(LISTS_UNREADABLE);
      }
      err := RunPhases(tree, sr);
      if err.Some? {
        return;
      }
      if replies.marker.Err? {
        return Some(replies.marker.message);
      }
      restore.status := Finished(restore.status, restore.spec, replies.marker.value, replies.markerVersion);
    }
  }

  lemma StoppedPhase(lists: Lists, table: Table, replies: Replies, flow: Flow, tree: Tree, d: Dir)
    requires flow.Stop?
    ensures DirPhase(lists, table, replies, flow, tree, d) == flow
  {}

  lemma {:induction false} StoppedFolder(lists: Lists, table: Table,
        admits: Item -> Option<string>, w: World, files: Folder, i: nat)
    requires i <= |files| && RestoreFolder(lists, table, admits, w, files[..i]).Stop?
    ensures RestoreFolder(lists, table, admits, w, files) == RestoreFolder(lists, table, admits, w, files[..i])
    decreases |files| - i
  {
    hide RestoreFile;
    if i == |files| {
      assert files[..i] == files;
    } else {
      assert files[..i + 1][..i] == files[..i];
      StoppedFolder(lists, table, admits, w, files, i + 1);
    }
  }

  lemma {:induction false} StoppedClaims(spec: PreferenceSpec, table: Table, replies: Replies, volumes: Folder,
        w: World, claims: Folder, i: nat)
    requires i <= |claims| && RestoreClaims(spec, table, replies, volumes, w, claims[..i]).Stop?
    ensures RestoreClaims(spec, table, replies, volumes, w, claims) ==
      RestoreClaims(spec, table, replies, volumes, w, claims[..i])
    decreases |claims| - i
  {
    hide RestoreClaimFile;
    if i == |claims| {
      assert claims[..i] == claims;
    } else {
      assert claims[..i + 1][..i] == claims[..i];
      StoppedClaims(spec, table, replies, volumes, w, claims, i + 1);
    }
  }
}
