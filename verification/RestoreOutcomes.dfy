/** What a restore does with one extracted file, and under which outcome it enters it in the account
    (restore.go:37-82 and :92-161, restore_pv.go:48-176). */
module RestoreOutcomes {
  import opened Text
  import opened Objects
  import opened Resources
  import opened RestorePreference
  import opened RestorePipeline
  import opened RestoredContent
  import Extraction
  import Records

  datatype Outcome = Excluded | Created | Existed | Failed

  /** One list of the account has one line more, and its counter says so; nothing else has changed. */
  predicate Entered(before: RestoreStatus, after: RestoreStatus, outcome: Outcome, line: string) {
    match outcome
    case Excluded =>
      after == before.(numExcluded := before.numExcluded + 1, excluded := before.excluded + [line])
    case Created =>
      after == before.(numCreated := before.numCreated + 1, created := before.created + [line])
    case Existed =>
      after == before.(
        numAlreadyExisted := before.numAlreadyExisted + 1, alreadyExisted := before.alreadyExisted + [line])
    case Failed =>
      after == before.(numFailed := before.numFailed + 1, failed := before.failed + [line])
  }

  /** The line of a failed item: the path and the error, of which 300 characters are shown. */
  function FailureLine(path: string, message: string): string {
    path + "," + if |message| > 300 then message[..300] + "....." else message
  }

  /** How a create that gave this error or none is entered. */
  predicate EnteredFor(before: RestoreStatus, after: RestoreStatus, path: string, error: Option<string>) {
    match error
    case None => Entered(before, after, Created, path)
    case Some(m) =>
      if Contains(m, "already exists") then Entered(before, after, Existed, path)
      else Entered(before, after, Failed, FailureLine(path, m))
  }

  lemma ReportEnters(st: RestoreStatus, path: string, error: Option<string>)
    ensures EnteredFor(st, Reported(st, path, error), path, error)
  {
    hide Contains;
  }

  /** An item whose key is taken is reported as existing, one that the target refuses with the
      target's words; otherwise it is there, and nothing else has changed. */
  lemma CreateOutcome(c: Cluster, admits: Item -> Option<string>, table: Table, item: Item, key: ObjectKey)
    requires KeyOf(table, item) == Ok(key)
    ensures var (c', error) := CreateItem(c, admits, table, item);
            && (error.Some? ==> c' == c)
            && (key in c.objects ==> error.Some? && Contains(error.value, "already exists"))
            && (key !in c.objects ==> error == admits(item))
            && (error.None? ==> c'.objects == c.objects[key := item] && c'.log == c.log + [item])
  {
    hide KeyOf;
    ContainsMiddle(item.name + " ", ALREADY_EXISTS, "");
    assert item.name + " " + ALREADY_EXISTS + "" == item.name + " " + ALREADY_EXISTS;
  }

  /* ---- directories ---- */

  /** A rule of restoreDir holds the item back, and gives this reason. */
  predicate HeldBackAs(lists: Lists, item: Item, reason: string) {
    || (reason == "owner-ref" && item.owners != [])
    || (reason == "token-secret" && item.owners == [] && item.kind == "Secret" &&
          GetString(item.fields, "type") == "kubernetes.io/service-account-token")
    || (reason == "not-binded-to-ns" && item.owners == [] &&
          ((item.kind == "ClusterRole" && item.name !in lists.clusterRoles) ||
           (item.kind == "ClusterRoleBinding" && item.name !in lists.clusterRoleBindings)))
    || (reason == "service-exists" && item.owners == [] && item.kind == "Endpoints" &&
          item.namespace + "/" + item.name in lists.services)
  }

  lemma ObstacleMeans(lists: Lists, item: Item, reason: string)
    ensures ObstacleOf(lists, item) == Recorded(reason) <==> HeldBackAs(lists, item, reason)
    ensures ObstacleOf(lists, item) == Unrecorded <==> item.owners == [] && item.kind == "PersistentVolumeClaim"
  {
    assert |"ClusterRole"| == 11 && |"Secret"| == 6 && |"ClusterRoleBinding"| == 18 &&
      |"PersistentVolumeClaim"| == 21 && |"Endpoints"| == 9;
    assert |"owner-ref"| == 9 && |"token-secret"| == 12 && |"not-binded-to-ns"| == 16 && |"service-exists"| == 14;
  }

  lemma KeyIsThere(table: Table, item: Item)
    requires PathOf(table, item).Ok?
    ensures KeyOf(table, item).Ok?
  {
    hide Uncached, ParseGroupVersion;
  }

  lemma SameKey(d: Dir, table: Table, item: Item, a: Item)
    requires Recreated(d, item, a)
    ensures KeyOf(table, item) == KeyOf(table, a)
  {
    hide Uncached, ParseGroupVersion;
  }

  /** One file of a directory: an item that a rule holds back is entered with the reason, a claim is
      passed over, and every other item is created with its content, or entered as existing or
      failed. */
  lemma FileOutcome(lists: Lists, table: Table, admits: Item -> Option<string>, w: World, f: File, item: Item,
        path: string, restored: Item)
    requires LoadItem(f) == Ok(item) && PathOf(table, item) == Ok(path) && Recreated(RestoreDir, restored, item)
    ensures var flow := RestoreFile(lists, table, admits, w, f);
            && flow.Go?
            && (forall reason :: HeldBackAs(lists, item, reason) ==>
                  && flow.world.cluster == w.cluster
                  && Entered(w.status, flow.world.status, Excluded, path + ",(" + reason + ")"))
            && (item.owners == [] && item.kind == "PersistentVolumeClaim" ==> flow.world == w)
            && (item.kind != "PersistentVolumeClaim" && (forall reason :: !HeldBackAs(lists, item, reason)) ==>
                  && flow.world.cluster == CreateItem(w.cluster, admits, table, restored).0
                  && EnteredFor(w.status, flow.world.status, path, CreateItem(w.cluster, admits, table, restored).1))
  {
    PlainContent(RestoreDir, item);
    RecreatedOnce(RestoreDir, restored, StripServerFields(item), item);
    forall reason
      ensures ObstacleOf(lists, item) == Recorded(reason) <==> HeldBackAs(lists, item, reason)
      ensures ObstacleOf(lists, item) == Unrecorded <==> item.owners == [] && item.kind == "PersistentVolumeClaim"
    {
      ObstacleMeans(lists, item, reason);
    }
    assert ObstacleOf(lists, item).Recorded? ==> HeldBackAs(lists, item, ObstacleOf(lists, item).msg);
    if item.kind == "PersistentVolumeClaim" && item.owners != [] { assert HeldBackAs(lists, item, "owner-ref"); }
    hide HeldBackAs, ObstacleOf, Recreated, CreateItem, PathOf, EnteredFor, Reported, StripServerFields;
    ReportEnters(w.status, path, CreateItem(w.cluster, admits, table, restored).1);
  }

  /** The archived object and the directory determine what is created. */
  lemma RecreatedOnce(d: Dir, x: Item, y: Item, a: Item)
    requires Recreated(d, x, a) && Recreated(d, y, a)
    ensures x == y
  {
    if d == PvDir || d == PvcDir {
      var member := if d == PvDir then "claimRef" else "volumeName";
      var before := a.fields["spec"].fields;
      NulledOnce(x.fields["spec"].fields, y.fields["spec"].fields, before, member);
      assert x.fields.Keys == y.fields.Keys;
      assert forall k :: k in x.fields ==> x.fields[k] == y.fields[k];
      assert x.fields == y.fields;
      assert x.annotations == y.annotations;
    }
  }

  lemma NulledOnce(x: map<string, Json>, y: map<string, Json>, before: map<string, Json>, member: string)
    requires Nulled(x, before, member) && Nulled(y, before, member)
    ensures x == y
  {
    assert x.Keys == y.Keys;
    assert forall k :: k in x ==> x[k] == y[k];
  }

  /* ---- claims ---- */

  /** The name begins with one of the storage classes to restore. */
  predicate ClassToRestore(spec: PreferenceSpec, class': string) {
    class' != "" && exists s :: s in spec.restoreNfsStorageClasses && s <= class'
  }

  /** The claim gives such a class in its spec or in the beta annotation. */
  predicate HasClassToRestore(spec: PreferenceSpec, pvcSpec: map<string, Json>, c: Item) {
    || ("storageClassName" in pvcSpec && pvcSpec["storageClassName"].Str? &&
          ClassToRestore(spec, pvcSpec["storageClassName"].text))
    || ("volume.beta.kubernetes.io/storage-class" in c.annotations &&
          ClassToRestore(spec, c.annotations["volume.beta.kubernetes.io/storage-class"]))
  }

  lemma ClassIsIncluded(spec: PreferenceSpec, pvcSpec: map<string, Json>, c: Item)
    ensures StorageClassIncluded(spec, pvcSpec, c) <==> HasClassToRestore(spec, pvcSpec, c)
  {}

  /** No volume is chosen for the claim, for this reason. */
  predicate ClaimHeldBackAs(spec: PreferenceSpec, volumes: Folder, c: Item, reason: string) {
    match GetMap(c.fields, "spec")
    case None => reason == "no-pvc-spec"
    case Some(s) =>
      var volume := GetString(s, "volumeName");
      || (reason == "no-storageclass" && !HasClassToRestore(spec, s, c))
      || (reason == "not-bounded" && HasClassToRestore(spec, s, c) && volume == "")
      || (reason == "pv-not-found" && HasClassToRestore(spec, s, c) && volume != "" &&
            forall f :: f in volumes ==> !Contains(f.name, "|persistentvolumes|" + volume + ".json"))
  }

  lemma ChoiceMeans(spec: PreferenceSpec, volumes: Folder, c: Item, reason: string)
    ensures VolumeOf(spec, volumes, c).0 == Recorded(reason) <==> ClaimHeldBackAs(spec, volumes, c, reason)
  {
    hide Contains, HasClassToRestore, StorageClassIncluded;
    match GetMap(c.fields, "spec") {
      case None =>
      case Some(s) =>
        ClassIsIncluded(spec, s, c);
        var r := FindVolume(volumes, GetString(s, "volumeName"));
        assert |"no-storageclass"| == 15 && |"not-bounded"| == 11 && |"pv-not-found"| == 12;
    }
  }

  /** A claim for which no volume is chosen is entered with the reason. */
  lemma HeldBackClaimOutcome(spec: PreferenceSpec, table: Table, replies: Replies, volumes: Folder, w: World,
        f: File, c: Item, path: string, reason: string)
    requires LoadItem(f) == Ok(c) && PathOf(table, c) == Ok(path) && ClaimHeldBackAs(spec, volumes, c, reason)
    ensures var flow := RestoreClaimFile(spec, table, replies, volumes, w, f);
            && flow.Go? && flow.world.cluster == w.cluster
            && Entered(w.status, flow.world.status, Excluded, path + ",(" + reason + ")")
  {
    ChoiceMeans(spec, volumes, c, reason);
    hide PathOf, ClaimHeldBackAs, VolumeOf;
  }

  /** One of the first ten polls shows the volume bound, and all before it unbound. */
  predicate BoundInTime(poll: (string, nat) -> Poll, name: string) {
    exists k: nat :: k < 10 && BoundAt(poll, name, k)
  }

  predicate BoundAt(poll: (string, nat) -> Poll, name: string, k: nat) {
    poll(name, k) == Bound && forall j: nat :: j < k ==> poll(name, j) == Unbound
  }

  lemma {:induction false} WaitFrom(poll: (string, nat) -> Poll, name: string, count: nat)
    requires count <= 10 && forall j: nat :: j < count ==> poll(name, j) == Unbound
    ensures WaitError(poll, name, count).None? <==> BoundInTime(poll, name)
    decreases 10 - count
  {
    if count < 10 && poll(name, count) == Unbound {
      WaitFrom(poll, name, count + 1);
    } else if count < 10 {
      assert forall k: nat :: BoundAt(poll, name, k) ==> k == count;
      assert BoundAt(poll, name, count) <==> poll(name, count) == Bound;
    }
  }

  /** A claim whose volume is chosen: a volume without a spec is entered as excluded; otherwise the
      volume is created first, and only if it could be the claim; if both could, the restore goes on
      exactly if the volume is bound in time. Both are created with their content, and entered. */
  lemma PairOutcome(spec: PreferenceSpec, table: Table, replies: Replies, volumes: Folder, w: World, f: File,
        c: Item, path: string, pvFile: File, v: Item, pvPath: string)
    requires LoadItem(f) == Ok(c) && PathOf(table, c) == Ok(path)
    requires VolumeOf(spec, volumes, c).1 == Some(pvFile)
    requires LoadItem(pvFile) == Ok(v) && PathOf(table, v) == Ok(pvPath)
    ensures var flow := RestoreClaimFile(spec, table, replies, volumes, w, f);
            if GetMap(v.fields, "spec").None? then
              flow.Go? && flow.world.cluster == w.cluster &&
                Entered(w.status, flow.world.status, Excluded, pvPath + ",(no-pv-spec)")
            else forall volume, claim :: Recreated(PvDir, volume, v) && Recreated(PvcDir, claim, c) ==>
              PairHandled(table, replies, w, flow, path, claim, pvPath, volume, v.name)
  {
    hide PathOf, Recreated, CreateItem, Reported, EnteredFor, WaitError, BoundInTime;
    VolumeChosen(spec, volumes, c);
    assert pvPath + ",(" + "no-pv-spec" + ")" == pvPath + ",(no-pv-spec)";
    if GetMap(v.fields, "spec").Some? {
      var volume := FreedVolume(v, GetMap(v.fields, "spec").value);
      var claim := FreedClaim(c, GetMap(c.fields, "spec").value);
      VolumeContent(v);
      ClaimContent(c);
      hide FreedVolume, FreedClaim, VolumeOf;
      forall x, y | Recreated(PvDir, x, v) && Recreated(PvcDir, y, c) ensures x == volume && y == claim {
        RecreatedOnce(PvDir, x, volume, v);
        RecreatedOnce(PvcDir, y, claim, c);
      }
      var (c1, e1) := CreateItem(w.cluster, replies.admits, table, volume);
      ReportEnters(w.status, pvPath, e1);
      var (c2, e2) := CreateItem(c1, replies.admits, table, claim);
      ReportEnters(Reported(w.status, pvPath, e1), path, e2);
      WaitFrom(replies.poll, v.name, 0);
    }
  }

  lemma VolumeChosen(spec: PreferenceSpec, volumes: Folder, c: Item)
    requires VolumeOf(spec, volumes, c).1.Some?
    ensures VolumeOf(spec, volumes, c).0 == Clear && GetMap(c.fields, "spec").Some?
  {}

  /** The volume has been tried, then the claim, then the binding. */
  ghost predicate PairHandled(table: Table, replies: Replies, w: World, flow: Flow, path: string, claim: Item,
        pvPath: string, volume: Item, name: string) {
    var (c1, e1) := CreateItem(w.cluster, replies.admits, table, volume);
    if e1.Some? then flow.Go? && flow.world.cluster == c1 && EnteredFor(w.status, flow.world.status, pvPath, e1)
    else
      var (c2, e2) := CreateItem(c1, replies.admits, table, claim);
      && flow.world.cluster == c2
      && (exists st :: EnteredFor(w.status, st, pvPath, e1) && EnteredFor(st, flow.world.status, path, e2))
      && (flow.Go? <==> e2.Some? || BoundInTime(replies.poll, name))
  }

  /* ---- the end of a restore ---- */

  /** A restore that goes through notes time and version of its marker; its deadline is the one asked
      for, or counts from the marker. */
  lemma FinishedStatus(spec: PreferenceSpec, rs: RestoreSpec, replies: Replies, archive: Records.Archive, w: World)
    requires RestoreResources(spec, rs, replies, archive, w).Go?
    ensures var st := RestoreResources(spec, rs, replies, archive, w).world.status;
            && replies.marker.Ok?
            && st.restoreTimestamp == replies.marker.value && st.restoreResourceVersion == replies.markerVersion
            && st.availableUntil ==
               (if rs.availableUntil != 0 then rs.availableUntil else replies.marker.value + rs.ttl)
            && st.ttl == if rs.availableUntil != 0 then rs.availableUntil - replies.marker.value else rs.ttl
  {
    hide Phases, Extraction.Extract, FilteredBy, Readable;
  }
}
