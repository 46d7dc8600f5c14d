/** What every restore of an archived snapshot guarantees about what it creates: it all comes from
    the archive, excluded namespaces stay empty, and bindings, roles and endpoints are restored as
    the lists computed beforehand say. */
module RestoreGuarantees {
  import opened Text
  import opened Objects
  import opened Resources
  import opened Paths
  import opened EventFold
  import opened Records
  import opened RestorePreference
  import opened Extraction
  import opened RestorePipeline
  import opened RestoreOrder
  import opened Classification
  import opened RestoredContent
  import SnapshotTaking

  /** The archive that a snapshot of these items has. */
  function ArchiveOf(name: string, t: Table, items: seq<Item>, r: Record): Archive {
    SnapshotTaking.ItemEntries(name, PathFn(t), items) + [SnapshotTaking.SnapshotEntry(name, r)]
  }

  lemma ItemEntryPath(name: string, t: Table, item: Item)
    ensures var e := SnapshotTaking.ItemEntry(name, PathFn(t), item);
            e.regular && e.content == ItemFile(item) && StripName(e.name, name) == EntryPath(t, item)
  {
    hide PathOf;
    StripRecovers(name, ArchivePathWith(item, PathFn(t)(item)));
  }

  lemma SnapshotEntryPath(name: string, r: Record)
    ensures !Relevant(SnapshotTaking.SnapshotEntry(name, r), name)
  {
    var s := name + "/snapshot.json";
    assert s[|name|..] == "/snapshot.json";
    assert "" + s[|name|..] == s[|name|..];
  }

  /** The entries of the archive are those of the items, and the snapshot file. */
  lemma ArchiveMembers(name: string, t: Table, items: seq<Item>, r: Record, e: Entry)
    ensures e in ArchiveOf(name, t, items, r) <==>
      e == SnapshotTaking.SnapshotEntry(name, r) ||
        exists i :: 0 <= i < |items| && e == SnapshotTaking.ItemEntry(name, PathFn(t), items[i])
  {
    var es := SnapshotTaking.ItemEntries(name, PathFn(t), items);
    assert |es| == |items| &&
      forall i :: 0 <= i < |items| ==> es[i] == SnapshotTaking.ItemEntry(name, PathFn(t), items[i]);
    hide PathFn;
  }

  /** The file an archived item is extracted to. */
  predicate FileFor(spec: PreferenceSpec, t: Table, item: Item, d: Dir, f: File) {
    Prefered(spec, EntryPath(t, item)) == d && !d.Exclude? && f == File(Escape(EntryPath(t, item)), ItemFile(item))
  }

  /** Every extracted file is that of an archived item. */
  lemma FileFromItem(spec: PreferenceSpec, name: string, t: Table, items: seq<Item>, r: Record, d: Dir, f: File)
    requires f in FilesOf(Extract(spec, name, ArchiveOf(name, t, items, r)).tree, d)
    ensures exists item :: item in items && FileFor(spec, t, item, d, f)
  {
    hide PathFn, Prefered, EntryPath, StripName, Escape, Extract;
    var archive := ArchiveOf(name, t, items, r);
    FileFromEntry(spec, name, archive, d, f);
    var e :| e in archive && BecomesFile(spec, name, e, d, f);
    ArchiveMembers(name, t, items, r, e);
    SnapshotEntryPath(name, r);
    var i :| 0 <= i < |items| && e == SnapshotTaking.ItemEntry(name, PathFn(t), items[i]);
    ItemEntryPath(name, t, items[i]);
    assert items[i] in items;
  }

  /* ---- everything created comes from the archive ---- */

  /** The item is what restoring an archived one creates. */
  predicate Originates(spec: PreferenceSpec, t: Table, items: seq<Item>, item: Item) {
    exists a :: a in items && RecreatedAs(spec, t, item, a) && !Prefered(spec, EntryPath(t, a)).Exclude?
  }

  lemma FileOriginates(spec: PreferenceSpec, name: string, t: Table, items: seq<Item>, r: Record, d: Dir,
        f: File, item: Item)
    requires f in FilesOf(Extract(spec, name, ArchiveOf(name, t, items, r)).tree, d)
    requires LoadItem(f).Ok? && Recreated(d, item, LoadItem(f).value)
    ensures Originates(spec, t, items, item)
  {
    hide Prefered, EntryPath, Extract, ArchiveOf, Escape, Recreated;
    FileFromItem(spec, name, t, items, r, d, f);
  }

  lemma SegmentMember(lists: Lists, files: Folder, segment: seq<Item>, item: Item) returns (f: File)
    requires Restores(lists, files, segment) && item in segment
    ensures f in files && CreatedFrom(lists, f, item)
  {
    hide CreatedFrom;
    var ks :| Picks(lists, files, ks, segment);
    var i :| 0 <= i < |segment| && segment[i] == item;
    f := files[ks[i]];
  }

  lemma PairMember(spec: PreferenceSpec, volumes: Folder, claims: Folder, segment: seq<Item>, item: Item)
    returns (f: File)
    requires RestoresPairs(spec, volumes, claims, segment) && item in segment
    ensures f in claims && (VolumeFor(spec, volumes, f, item) || ClaimFor(f, item))
  {
    hide VolumeFor, ClaimFor;
    var ks :| Pairs(spec, volumes, claims, ks, segment);
    var i :| 0 <= i < |segment| && segment[i] == item;
    f := claims[ks[i]];
    assert PairAt(spec, volumes, claims, ks, segment, i);
  }

  lemma VolumeFileOf(spec: PreferenceSpec, volumes: Folder, f: File, item: Item) returns (pv: File)
    requires VolumeFor(spec, volumes, f, item)
    ensures pv in volumes && LoadItem(pv).Ok? && Recreated(PvDir, item, LoadItem(pv).value)
  {
    pv := VolumeOf(spec, volumes, LoadItem(f).value).1.value;
    VolumeContent(LoadItem(pv).value);
    hide Recreated, FreedVolume;
  }

  lemma ClaimFileOf(f: File, item: Item)
    requires ClaimFor(f, item)
    ensures LoadItem(f).Ok? && Recreated(PvcDir, item, LoadItem(f).value)
  {
    ClaimContent(LoadItem(f).value);
    hide Recreated, FreedClaim;
  }

  lemma PlainFileOf(lists: Lists, d: Dir, f: File, item: Item)
    requires CreatedFrom(lists, f, item) && d != PvDir && d != PvcDir
    ensures LoadItem(f).Ok? && Recreated(d, item, LoadItem(f).value)
  {
    PlainContent(d, LoadItem(f).value);
    hide Recreated, StripServerFields, ObstacleOf;
  }

  /** Everything a restore creates, whether or not it goes through, is what restoring some archived
      object that is not excluded creates: that object, with version and UID left to the server,
      and volumes and claims without partner and status. */
  lemma CreatedOriginates(spec: PreferenceSpec, name: string, t: Table, items: seq<Item>, r: Record,
        s: Segments, item: Item)
    requires InPhases(spec, Extract(spec, name, ArchiveOf(name, t, items, r)).tree, s) && item in InOrder(s)
    ensures Originates(spec, t, items, item)
  {
    hide Prefered, EntryPath, Extract, ArchiveOf, Restores, RestoresPairs, ListsOf, Originates, VolumeFor, FilesOf,
      ObstacleOf, Recreated, CreatedFrom, ClaimFor;
    var tree := Extract(spec, name, ArchiveOf(name, t, items, r)).tree;
    var lists := ListsOf(spec, tree);
    if item in s.namespaces {
      var f := SegmentMember(lists, FilesOf(tree, NamespaceDir), s.namespaces, item);
      PlainFileOf(lists, NamespaceDir, f, item);
      FileOriginates(spec, name, t, items, r, NamespaceDir, f, item);
    } else if item in s.crds {
      var f := SegmentMember(lists, FilesOf(tree, CrdDir), s.crds, item);
      PlainFileOf(lists, CrdDir, f, item);
      FileOriginates(spec, name, t, items, r, CrdDir, f, item);
    } else if item in s.resources {
      var f := SegmentMember(lists, FilesOf(tree, RestoreDir), s.resources, item);
      PlainFileOf(lists, RestoreDir, f, item);
      FileOriginates(spec, name, t, items, r, RestoreDir, f, item);
    } else if item in s.apps {
      var f := SegmentMember(lists, FilesOf(tree, AppDir), s.apps, item);
      PlainFileOf(lists, AppDir, f, item);
      FileOriginates(spec, name, t, items, r, AppDir, f, item);
    } else {
      var f := PairMember(spec, FilesOf(tree, PvDir), FilesOf(tree, PvcDir), s.pairs, item);
      if VolumeFor(spec, FilesOf(tree, PvDir), f, item) {
        var pv := VolumeFileOf(spec, FilesOf(tree, PvDir), f, item);
        FileOriginates(spec, name, t, items, r, PvDir, pv, item);
      } else {
        ClaimFileOf(f, item);
        FileOriginates(spec, name, t, items, r, PvcDir, f, item);
      }
    }
  }

  /** Namespace isolation: whatever the target already held and replied, and whether or not the
      restore went through, no object of an excluded namespace and no excluded Namespace has been
      created; the only exception are objects that some other API group serves, per namespace,
      under the kind Namespace or CustomResourceDefinition. */
  lemma ExcludedNamespacesStayEmpty(spec: PreferenceSpec, rs: RestoreSpec, replies: Replies, t: Table,
        items: seq<Item>, r: Record, w: World)
    requires forall item :: item in items ==> Addressable(t, item)
    ensures var log :=
      RestoreResources(spec, rs, replies, ArchiveOf(rs.snapshotName, t, items, r), w).world.cluster.log;
            forall k :: |w.cluster.log| <= k < |log| ==>
              && (log[k].namespace != "" && log[k].namespace in spec.excludeNamespaces ==> TopLevel(log[k]))
              && (log[k].kind == "Namespace" ==> log[k].name !in spec.excludeNamespaces)
  {
    hide Prefered, EntryPath, Extract, ArchiveOf, RestoreResources, InPhases, Addressable, Recreated;
    var s := RestoreOrdered(spec, rs, replies, ArchiveOf(rs.snapshotName, t, items, r), w);
    var log := RestoreResources(spec, rs, replies, ArchiveOf(rs.snapshotName, t, items, r), w).world.cluster.log;
    forall k | |w.cluster.log| <= k < |log|
      ensures log[k].namespace != "" && log[k].namespace in spec.excludeNamespaces ==> TopLevel(log[k])
      ensures log[k].kind == "Namespace" ==> log[k].name !in spec.excludeNamespaces
    {
      assert log[k] == InOrder(s)[k - |w.cluster.log|];
      CreatedOriginates(spec, rs.snapshotName, t, items, r, s, log[k]);
      var a :| a in items && RecreatedAs(spec, t, log[k], a) && !Prefered(spec, EntryPath(t, a)).Exclude?;
      RecreatedIsSame(Prefered(spec, EntryPath(t, a)), log[k], a);
      if a.namespace != "" && a.namespace in spec.excludeNamespaces { ExcludedNamespaceDropped(spec, t, a); }
      if a.kind == "Namespace" { NamespaceObject(spec, t, a); }
    }
  }

  /* ---- the lists computed beforehand ---- */

  /** A file of the two directories the lists are computed from. */
  predicate ListedFile(tree: Tree, f: File) { f in FilesOf(tree, RestoreDir) || f in FilesOf(tree, AppDir) }

  lemma BoundRolesAppend(a: seq<(string, string)>, b: seq<(string, string)>, x: string)
    ensures x in Firsts(a + b) <==> exists p :: p in a + b && p.0 == x
    ensures x in Seconds(a + b) <==> exists p :: p in a + b && p.1 == x
  {
    var all := a + b;
    if x in Firsts(all) { var i :| 0 <= i < |all| && Firsts(all)[i] == x; assert all[i] in all; }
    if x in Seconds(all) { var i :| 0 <= i < |all| && Seconds(all)[i] == x; assert all[i] in all; }
    if p :| p in all && p.0 == x { var i :| 0 <= i < |all| && all[i] == p; assert Firsts(all)[i] == x; }
    if p :| p in all && p.1 == x { var i :| 0 <= i < |all| && all[i] == p; assert Seconds(all)[i] == x; }
  }

  /** What the three lists hold: roles and bindings that give a service account of some namespace
      that is not excluded a role, and the services. */
  lemma ListsMean(spec: PreferenceSpec, tree: Tree, x: string)
    ensures var lists := ListsOf(spec, tree);
            && (x in lists.clusterRoles <==>
                 exists f :: ListedFile(tree, f) && IsBindingFile(f) && LoadItem(f).Ok? &&
                   BoundRole(spec, LoadItem(f).value) == Some(x))
            && (x in lists.clusterRoleBindings <==>
                  exists f :: ListedFile(tree, f) && IsBindingFile(f) && LoadItem(f).Ok? &&
                    LoadItem(f).value.name == x && BoundRole(spec, LoadItem(f).value).Some?)
            && (x in lists.services <==>
                 exists f :: ListedFile(tree, f) && IsServiceFile(f) && LoadItem(f).Ok? &&
                   ServiceName(LoadItem(f).value) == x)
  {
    hide BoundRole, IsBindingFile, IsServiceFile, BoundRoles, Services, LoadItem, Firsts, Seconds;
    var a, b := BoundRoles(spec, FilesOf(tree, RestoreDir)), BoundRoles(spec, FilesOf(tree, AppDir));
    BoundRolesAppend(a, b, x);
    forall p: (string, string) ensures p in a + b <==>
        exists f :: ListedFile(tree, f) && IsBindingFile(f) && LoadItem(f).Ok? && LoadItem(f).value.name == p.1 &&
          BoundRole(spec, LoadItem(f).value) == Some(p.0)
    {
      BoundRolesFrom(spec, FilesOf(tree, RestoreDir), p.0, p.1);
      BoundRolesFrom(spec, FilesOf(tree, AppDir), p.0, p.1);
      assert p == (p.0, p.1);
    }
    ServicesFrom(FilesOf(tree, RestoreDir), x);
    ServicesFrom(FilesOf(tree, AppDir), x);
    if f :| ListedFile(tree, f) && IsBindingFile(f) && LoadItem(f).Ok?
            && BoundRole(spec, LoadItem(f).value) == Some(x) {
      assert (x, LoadItem(f).value.name) in a + b;
    }
    if f :| ListedFile(tree, f) && IsBindingFile(f) && LoadItem(f).Ok? && LoadItem(f).value.name == x
            && BoundRole(spec, LoadItem(f).value).Some? {
      assert (BoundRole(spec, LoadItem(f).value).value, x) in a + b;
    }
  }

  /** The items that directory passes create. */
  function Plain(s: Segments): seq<Item> { s.namespaces + s.crds + s.resources + s.apps }

  lemma PlainMember(spec: PreferenceSpec, tree: Tree, s: Segments, item: Item) returns (f: File)
    requires InPhases(spec, tree, s) && item in Plain(s)
    ensures CreatedFrom(ListsOf(spec, tree), f, item)
  {
    hide ListsOf, Restores, RestoresPairs, CreatedFrom, FilesOf;
    var lists := ListsOf(spec, tree);
    if item in s.namespaces { f := SegmentMember(lists, FilesOf(tree, NamespaceDir), s.namespaces, item); }
    else if item in s.crds { f := SegmentMember(lists, FilesOf(tree, CrdDir), s.crds, item); }
    else if item in s.resources { f := SegmentMember(lists, FilesOf(tree, RestoreDir), s.resources, item); }
    else { f := SegmentMember(lists, FilesOf(tree, AppDir), s.apps, item); }
  }

  /** Every binding created is called like an archived one that gives a role to a service account
      of a namespace that is not excluded; every role created is the role of such a binding; and
      no endpoints are created for an archived service, though endpoints sort before services. */
  lemma CreatedItemsAreListed(spec: PreferenceSpec, tree: Tree, s: Segments, item: Item)
    requires InPhases(spec, tree, s) && item in Plain(s)
    ensures item.owners == []
    ensures item.kind == "ClusterRoleBinding" ==>
      exists f :: ListedFile(tree, f) && IsBindingFile(f) && LoadItem(f).Ok? && LoadItem(f).value.name == item.name &&
        BoundRole(spec, LoadItem(f).value).Some?
    ensures item.kind == "ClusterRole" ==>
      exists f :: ListedFile(tree, f) && IsBindingFile(f) && LoadItem(f).Ok? &&
        BoundRole(spec, LoadItem(f).value) == Some(item.name)
    ensures item.kind == "Endpoints" ==>
      forall f :: ListedFile(tree, f) && IsServiceFile(f) && LoadItem(f).Ok? ==>
        ServiceName(LoadItem(f).value) != ServiceName(item)
    ensures item.kind != "PersistentVolumeClaim"
    ensures item.kind == "Secret" ==> GetString(item.fields, "type") != "kubernetes.io/service-account-token"
  {
    hide BoundRole, IsBindingFile, IsServiceFile, BoundRoles, Services, Firsts, Seconds, InPhases, ListsOf,
      ServiceName, FilesOf, LoadItem;
    var f := PlainMember(spec, tree, s, item);
    ListsMean(spec, tree, item.name);
    ListsMean(spec, tree, ServiceName(item));
    assert ServiceName(LoadItem(f).value) == ServiceName(item) by { SameServiceName(LoadItem(f).value, item); }
  }

  lemma SameServiceName(a: Item, b: Item)
    requires b == StripServerFields(a)
    ensures ServiceName(a) == ServiceName(b)
  {}

  /** A role that some archived binding gives to such an account is not dropped as unbound. */
  lemma BoundRolesAreKept(spec: PreferenceSpec, tree: Tree, binding: File, role: Item)
    requires ListedFile(tree, binding) && IsBindingFile(binding) && LoadItem(binding).Ok?
    requires BoundRole(spec, LoadItem(binding).value) == Some(role.name)
    requires role.kind == "ClusterRole"
    ensures ObstacleOf(ListsOf(spec, tree), role) == if role.owners == [] then Clear else Recorded("owner-ref")
  {
    hide BoundRole, IsBindingFile, IsServiceFile, BoundRoles, Services, Firsts, Seconds, ListsOf;
    ListsMean(spec, tree, role.name);
    assert |"ClusterRole"| == 11 && |"Secret"| == 6 && |"ClusterRoleBinding"| == 18 &&
      |"PersistentVolumeClaim"| == 21 && |"Endpoints"| == 9;
  }
}
