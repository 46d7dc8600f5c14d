/** pkg/cluster/restore.go and restore_pv.go: restoring the extracted directories, phase by phase,
    and accounting for every item. */
module RestorePipeline {
  import opened Text
  import opened Objects
  import opened Resources
  import opened Records
  import opened RestorePreference
  import opened Extraction

  /* ---- the target cluster ---- */

  datatype ObjectKey = ObjectKey(gvr: GVR, namespace: string, name: string)

  /** The objects of the target, and everything created so far, in order. */
  datatype Cluster = Cluster(objects: map<ObjectKey, Item>, log: seq<Item>)

  datatype Poll = Bound | Unbound | Unreadable(message: string)

  /** The replies of the target: its resource table before and after the CRDs are restored, whom it
      admits, what polling a volume shows, and the final marker. */
  datatype Replies = Replies(
    discovery: Result<Table>,
    rediscovery: Result<Table>,
    admits: Item -> Option<string>,
    poll: (string, nat) -> Poll,
    marker: Result<Time>,
    markerVersion: string)

  const ALREADY_EXISTS: string := "already exists"

  function KeyOf(table: Table, item: Item): Result<ObjectKey> {
    match ParseGroupVersion(item.apiVersion)
    case None => Err(NOT_PARSED)
    case Some(gv) =>
      match Uncached(table, GVK(gv, item.kind))
      case Err(message) => Err(message)
      case Ok(resource) => Ok(ObjectKey(GVR(gv, resource), item.namespace, item.name))
  }

  /** createItem: the cluster afterwards, and the error if there is one. */
  function CreateItem(c: Cluster, admits: Item -> Option<string>, table: Table, item: Item): (Cluster, Option<string>) {
    match KeyOf(table, item)
    case Err(message) => (c, Some(message))
    case Ok(key) =>
      if key in c.objects then (c, Some(item.name + " " + ALREADY_EXISTS))
      else match admits(item)
        case Some(message) => (c, Some(message))
        case None => (Cluster(c.objects[key := item], c.log + [item]), None)
  }

  /* ---- the account ---- */

  datatype RestoreStatus = RestoreStatus(
    numPreferenceExcluded: int,
    numExcluded: int,
    numCreated: int,
    numUpdated: int,
    numAlreadyExisted: int,
    numFailed: int,
    excluded: seq<string>,
    created: seq<string>,
    updated: seq<string>,
    alreadyExisted: seq<string>,
    failed: seq<string>,
    restoreTimestamp: Time,
    availableUntil: Time,
    ttl: int,
    restoreResourceVersion: string)

  function WithExcluded(st: RestoreStatus, path: string, msg: string): RestoreStatus {
    st.(numExcluded := st.numExcluded + 1, excluded := st.excluded + [path + ",(" + msg + ")"])
  }

  function WithExisting(st: RestoreStatus, path: string): RestoreStatus {
    st.(numAlreadyExisted := st.numAlreadyExisted + 1, alreadyExisted := st.alreadyExisted + [path])
  }

  function WithCreated(st: RestoreStatus, path: string): RestoreStatus {
    st.(numCreated := st.numCreated + 1, created := st.created + [path])
  }

  function WithFailed(st: RestoreStatus, path: string, msg: string): RestoreStatus {
    var shown := if |msg| > 300 then msg[0..300] + "....." else msg;
    st.(numFailed := st.numFailed + 1, failed := st.failed + [path + "," + shown])
  }

  /** The account after a create that gave this error or none. */
  function Reported(st: RestoreStatus, path: string, error: Option<string>): RestoreStatus {
    match error
    case None => WithCreated(st, path)
    case Some(msg) => if Contains(msg, ALREADY_EXISTS) then WithExisting(st, path) else WithFailed(st, path, msg)
  }

  /* ---- flows: a state to go on with, or one that an error stopped at ---- */

  datatype World = World(cluster: Cluster, status: RestoreStatus)
  datatype Flow = Go(world: World) | Stop(world: World, message: string)

  /* ---- restoreDir ---- */

  function StripServerFields(item: Item): Item { item.(resourceVersion := "", uid := "") }

  /** Why an item without owners is not restored from a directory. */
  datatype Obstacle = Clear | Recorded(msg: string) | Unrecorded

  function ObstacleOf(lists: Lists, item: Item): Obstacle {
    if item.owners != [] then Recorded("owner-ref")
    else if item.kind == "Secret" && GetString(item.fields, "type") == "kubernetes.io/service-account-token"
      then Recorded("token-secret")
    else if item.kind == "ClusterRole" && item.name !in lists.clusterRoles then Recorded("not-binded-to-ns")
    else if item.kind == "ClusterRoleBinding" && item.name !in lists.clusterRoleBindings
      then Recorded("not-binded-to-ns")
    else if item.kind == "PersistentVolumeClaim" then Unrecorded
    else if item.kind == "Endpoints" && ServiceName(item) in lists.services then Recorded("service-exists")
    else Clear
  }

  function RestoreFile(lists: Lists, table: Table, admits: Item -> Option<string>, w: World, f: File): Flow {
    match LoadItem(f)
    case Err(message) => Stop(w, message)
    case Ok(item) =>
      match PathOf(table, item)
      case Err(message) => Stop(w, message)
      case Ok(path) =>
        match ObstacleOf(lists, item)
        case Recorded(msg) => Go(w.(status := WithExcluded(w.status, path, msg)))
        case Unrecorded => Go(w)
        case Clear =>
          var (cluster, error) := CreateItem(w.cluster, admits, table, StripServerFields(item));
          Go(World(cluster, Reported(w.status, path, error)))
  }

  /** A directory, file by file; the first error ends the restore. */
  function RestoreFolder(lists: Lists, table: Table, admits: Item -> Option<string>, w: World, files: Folder): Flow {
    if files == [] then Go(w)
    else
      match RestoreFolder(lists, table, admits, w, files[..|files| - 1])
      case Stop(w', message) => Stop(w', message)
      case Go(w') => RestoreFile(lists, table, admits, w', files[|files| - 1])
  }

  /* ---- restorePV ---- */

  const STORAGE_CLASS: string := "volume.beta.kubernetes.io/storage-class"
  const BIND_COMPLETED: string := "pv.kubernetes.io/bind-completed"
  const POLLS: nat := 10

  function Annotation(item: Item, key: string): string {
    if key in item.annotations then item.annotations[key] else ""
  }

  predicate StorageClassIncluded(spec: PreferenceSpec, pvcSpec: map<string, Json>, pvc: Item) {
    var inSpec := GetString(pvcSpec, "storageClassName");
    var annotated := Annotation(pvc, STORAGE_CLASS);
    || (inSpec != "" && IncludedStorageClass(spec, inSpec))
    || (annotated != "" && IncludedStorageClass(spec, annotated))
  }

  function VolumeFile(volume: string): string { "|persistentvolumes|" + volume + ".json" }

  /** The first listed file whose name contains the volume's. */
  function FindVolume(files: Folder, volume: string): (r: Option<File>)
    ensures r.Some? ==> r.value in files && Contains(r.value.name, VolumeFile(volume))
    ensures r.None? ==> forall f :: f in files ==> !Contains(f.name, VolumeFile(volume))
  {
    if files == [] then None
    else if Contains(files[0].name, VolumeFile(volume)) then Some(files[0])
    else FindVolume(files[1..], volume)
  }

  /** The volume as it is created: bound to no claim. */
  function FreedVolume(pv: Item, pvSpec: map<string, Json>): Item {
    StripServerFields(pv.(fields := pv.fields["spec" := Obj(pvSpec["claimRef" := Null])]["status" := Null]))
  }

  /** The claim as it is created: bound to no volume. */
  function FreedClaim(pvc: Item, pvcSpec: map<string, Json>): Item {
    StripServerFields(pvc.(fields := pvc.fields["spec" := Obj(pvcSpec["volumeName" := Null])]["status" := Null],
                           annotations := pvc.annotations - {BIND_COMPLETED}))
  }

  const NOT_BOUND: string := "Timeout : waiting for PV/PVC bound "

  /** Polling from the given count on: nothing once the volume is bound, or the error that ends it. */
  function WaitError(poll: (string, nat) -> Poll, name: string, count: nat): Option<string>
    decreases POLLS - count
  {
    if count >= POLLS then Some(NOT_BOUND + name)
    else
      match poll(name, count)
      case Bound => None
      case Unreadable(message) => Some(message)
      case Unbound => WaitError(poll, name, count + 1)
  }

  /** The k-th poll from the given count on is the first that does not show the volume unbound. */
  predicate FirstSeen(poll: (string, nat) -> Poll, name: string, count: nat, k: nat) {
    count <= k < 10 && !poll(name, k).Unbound? && forall j: nat :: count <= j < k ==> poll(name, j).Unbound?
  }

  /** The first poll that sees anything decides; if none of the ten does, time is up. */
  lemma {:induction false} WaitOutcome(poll: (string, nat) -> Poll, name: string, count: nat)
    ensures forall k: nat :: FirstSeen(poll, name, count, k) ==>
      WaitError(poll, name, count) == if poll(name, k).Bound? then None else Some(poll(name, k).message)
    ensures (forall k: nat :: count <= k < 10 ==> poll(name, k).Unbound?) ==>
      WaitError(poll, name, count) == Some("Timeout : waiting for PV/PVC bound " + name)
    decreases POLLS - count
  {
    if count < POLLS && poll(name, count).Unbound? {
      WaitOutcome(poll, name, count + 1);
      forall k: nat | FirstSeen(poll, name, count, k) ensures FirstSeen(poll, name, count + 1, k) {}
    }
  }

  /** The claim, once its volume has been created. */
  function RestoreClaim(table: Table, replies: Replies, w: World, pvcPath: string, pvc: Item,
        pvcSpec: map<string, Json>, pvName: string): Flow {
    var (cluster, error) := CreateItem(w.cluster, replies.admits, table, FreedClaim(pvc, pvcSpec));
    var w' := World(cluster, Reported(w.status, pvcPath, error));
    var failure := if error.Some? then None else WaitError(replies.poll, pvName, 0);
    if failure.None? then Go(w') else Stop(w', failure.value)
  }

  /** The volume a claim names, then the claim. */
  function RestorePair(table: Table, replies: Replies, w: World, pvcPath: string, pvc: Item,
        pvcSpec: map<string, Json>, pvFile: File): Flow {
    match LoadItem(pvFile)
    case Err(message) => Stop(w, message)
    case Ok(pv) =>
      match PathOf(table, pv)
      case Err(message) => Stop(w, message)
      case Ok(pvPath) =>
        match GetMap(pv.fields, "spec")
        case None => Go(w.(status := WithExcluded(w.status, pvPath, "no-pv-spec")))
        case Some(pvSpec) =>
          var (cluster, error) := CreateItem(w.cluster, replies.admits, table, FreedVolume(pv, pvSpec));
          var w' := World(cluster, Reported(w.status, pvPath, error));
          if error.Some? then Go(w') else RestoreClaim(table, replies, w', pvcPath, pvc, pvcSpec, pv.name)
  }

  /** The volume file of a claim that is to be restored, or why it is not. */
  function VolumeOf(spec: PreferenceSpec, volumes: Folder, pvc: Item): (r: (Obstacle, Option<File>))
    ensures r.0.Clear? <==> r.1.Some?
    ensures r.0.Clear? ==> GetMap(pvc.fields, "spec").Some?
    ensures !r.0.Unrecorded?
  {
    match GetMap(pvc.fields, "spec")
    case None => (Recorded("no-pvc-spec"), None)
    case Some(pvcSpec) =>
      if !StorageClassIncluded(spec, pvcSpec, pvc) then (Recorded("no-storageclass"), None)
      else if GetString(pvcSpec, "volumeName") == "" then (Recorded("not-bounded"), None)
      else match FindVolume(volumes, GetString(pvcSpec, "volumeName"))
        case None => (Recorded("pv-not-found"), None)
        case Some(f) => (Clear, Some(f))
  }

  function RestoreClaimFile(spec: PreferenceSpec, table: Table, replies: Replies, volumes: Folder, w: World,
        f: File): Flow {
    match LoadItem(f)
    case Err(message) => Stop(w, message)
    case Ok(pvc) =>
      match PathOf(table, pvc)
      case Err(message) => Stop(w, message)
      case Ok(pvcPath) =>
        match VolumeOf(spec, volumes, pvc)
        case (Recorded(msg), _) => Go(w.(status := WithExcluded(w.status, pvcPath, msg)))
        case (Clear, Some(pvFile)) => RestorePair(table, replies, w, pvcPath, pvc, GetMap(pvc.fields, "spec").value,
          pvFile)
  }

  function RestoreClaims(spec: PreferenceSpec, table: Table, replies: Replies, volumes: Folder, w: World,
        claims: Folder): Flow {
    if claims == [] then Go(w)
    else
      match RestoreClaims(spec, table, replies, volumes, w, claims[..|claims| - 1])
      case Stop(w', message) => Stop(w', message)
      case Go(w') => RestoreClaimFile(spec, table, replies, volumes, w', claims[|claims| - 1])
  }

  /* ---- restoreResources ---- */

  datatype RestoreSpec = RestoreSpec(snapshotName: string, availableUntil: Time, ttl: int)

  function InitialStatus(st: RestoreStatus): RestoreStatus {
    st.(numPreferenceExcluded := 0, numExcluded := 0, numCreated := 0, numUpdated := 0, numAlreadyExisted := 0,
        numFailed := 0,
        excluded := [], created := [], updated := [], alreadyExisted := [], failed := [])
  }

  /** One phase, if its directory exists. */
  function DirPhase(lists: Lists, table: Table, replies: Replies, flow: Flow, tree: Tree, d: Dir): Flow {
    if flow.Stop? || d !in tree then flow else RestoreFolder(lists, table, replies.admits, flow.world, tree[d])
  }

  function PvPhase(spec: PreferenceSpec, table: Table, replies: Replies, flow: Flow, tree: Tree): Flow {
    if flow.Stop? || PvDir !in tree || PvcDir !in tree then flow
    else RestoreClaims(spec, table, replies, tree[PvDir], flow.world, tree[PvcDir])
  }

  /** The phases in their order; the resource table is read again after the CRDs. */
  function Phases(spec: PreferenceSpec, table: Table, replies: Replies, w: World, tree: Tree): Flow {
    var lists := ListsOf(spec, tree);
    var first := DirPhase(lists, table, replies, DirPhase(lists, table, replies, Go(w), tree, NamespaceDir), tree,
      CrdDir);
    if first.Stop? then first
    else match replies.rediscovery
      case Err(message) => Stop(first.world, message)
      case Ok(discovered) =>
        var table' := FilteredBy(discovered);
        var volumes := PvPhase(spec, table', replies, first, tree);
        DirPhase(lists, table', replies, DirPhase(lists, table', replies, volumes, tree, RestoreDir), tree, AppDir)
  }

  function Finished(st: RestoreStatus, rs: RestoreSpec, creation: Time, version: string): RestoreStatus {
    var until := if IsZero(rs.availableUntil) then creation + rs.ttl else rs.availableUntil;
    st.(restoreTimestamp := creation, availableUntil := until,
        ttl := if IsZero(rs.availableUntil) then rs.ttl else until - creation, restoreResourceVersion := version)
  }

  const LISTS_UNREADABLE: string := "cannot unmarshal item"

  /** restoreResources. */
  function RestoreResources(spec: PreferenceSpec, rs: RestoreSpec, replies: Replies, archive: Archive, w: World): Flow {
    match replies.discovery
    case Err(message) => Stop(w, message)
    case Ok(discovered) =>
      var x := Extract(spec, rs.snapshotName, archive);
      var w0 := w.(status := InitialStatus(w.status).(numPreferenceExcluded := x.excluded));
      if !Readable(FilesOf(x.tree, RestoreDir)) || !Readable(FilesOf(x.tree, AppDir)) then Stop(w0, LISTS_UNREADABLE)
      else
        var flow := Phases(spec, FilteredBy(discovered), replies, w0, x.tree);
        if flow.Stop? then flow
        else match replies.marker
          case Err(message) => Stop(flow.world, message)
          case Ok(creation) => Go(flow.world.(status :=
            Finished(flow.world.status, rs, creation, replies.markerVersion)))
  }
}
