/** The lists computed before a restore, in terms of the archived objects (restore_pref.go:118-220,
    restore.go:117-143). */
module ListClosure {
  import opened Text
  import opened Objects
  import opened Resources
  import opened Paths
  import opened Records
  import opened RestorePreference
  import opened Extraction
  import opened RestorePipeline
  import opened RestoreOrder
  import opened Classification
  import opened RestoreGuarantees
  import opened EndToEnd
  import opened RoundTrip
  import VolumeLookup

  /** The object is extracted to one of the two directories the lists are computed from. */
  predicate Restorable(spec: PreferenceSpec, t: Table, a: Item) {
    Prefered(spec, EntryPath(t, a)) in {RestoreDir, AppDir}
  }

  predicate Served(t: Table, a: Item, resource: string) {
    ResourceOf(t, a) == Ok(resource) && !TopLevel(a)
  }

  lemma RestorableIsListed(spec: PreferenceSpec, name: string, t: Table, items: seq<Item>, r: Record, a: Item)
    requires ClusterObjects(t, items) && a in items && Restorable(spec, t, a)
    ensures ListedFile(TreeOf(spec, name, t, items, r), FileOf(t, a))
    ensures Served(t, a, "services") ==> IsServiceFile(FileOf(t, a))
    ensures Served(t, a, "clusterrolebindings") ==> IsBindingFile(FileOf(t, a))
  {
    hide EntryPath, Escape, Prefered, TreeOf, KeyOf, IsServiceFile, IsBindingFile;
    FilesAreItems(spec, name, t, items, r, RestoreDir, FileOf(t, a));
    FilesAreItems(spec, name, t, items, r, AppDir, FileOf(t, a));
    assert Addressable(t, a);
    if !TopLevel(a) { VolumeLookup.ServiceIsRecognized(t, a, ItemFile(a)); }
  }

  lemma ListedIsRestorable(spec: PreferenceSpec, name: string, t: Table, items: seq<Item>, r: Record, f: File)
    returns (a: Item)
    requires ListedFile(TreeOf(spec, name, t, items, r), f)
    ensures a in items && Restorable(spec, t, a) && f == FileOf(t, a)
  {
    hide EntryPath, Escape, Prefered, Extract, ArchiveOf;
    var tree := TreeOf(spec, name, t, items, r);
    if f in FilesOf(tree, RestoreDir) {
      FileFromItem(spec, name, t, items, r, RestoreDir, f);
      a :| a in items && FileFor(spec, t, a, RestoreDir, f);
    } else {
      FileFromItem(spec, name, t, items, r, AppDir, f);
      a :| a in items && FileFor(spec, t, a, AppDir, f);
    }
  }

  /** Closure of the lists, for everything a restore creates outside its volume pass: a binding is
      called like an archived object that is recognized as a binding and binds a role to a service
      account of a namespace that is not excluded, a role is one that such an object binds, and no
      endpoints belong to an archived service that is restored. */
  lemma CreatedObjectsAreListed(spec: PreferenceSpec, name: string, t: Table, items: seq<Item>, r: Record,
        s: Segments, item: Item)
    requires ClusterObjects(t, items) && InPhases(spec, TreeOf(spec, name, t, items, r), s) && item in Plain(s)
    ensures item.kind == "ClusterRoleBinding" ==>
      exists a :: a in items && Restorable(spec, t, a) && IsBindingFile(FileOf(t, a))
        && a.name == item.name && exists role :: Binds(spec, a, role)
    ensures item.kind == "ClusterRole" ==>
      exists a :: a in items && Restorable(spec, t, a) && IsBindingFile(FileOf(t, a))
        && Binds(spec, a, item.name)
    ensures item.kind == "Endpoints" ==>
      forall a :: a in items && Restorable(spec, t, a) && Served(t, a, "services") ==>
        !(a.namespace == item.namespace && a.name == item.name)
  {
    hide EntryPath, Escape, Prefered, TreeOf, ClusterObjects, InPhases, BoundRole, Binds, Plain, ListedFile,
      IsServiceFile, IsBindingFile, Restorable;
    var tree := TreeOf(spec, name, t, items, r);
    CreatedItemsAreListed(spec, tree, s, item);
    if item.kind == "ClusterRoleBinding" {
      var f :| ListedFile(tree, f) && IsBindingFile(f) && LoadItem(f).Ok? && LoadItem(f).value.name == item.name &&
        BoundRole(spec, LoadItem(f).value).Some?;
      var a := ListedIsRestorable(spec, name, t, items, r, f);
      BoundRoleMeans(spec, a, BoundRole(spec, a).value);
    }
    if item.kind == "ClusterRole" {
      var f :| ListedFile(tree, f) && IsBindingFile(f) && LoadItem(f).Ok? &&
        BoundRole(spec, LoadItem(f).value) == Some(item.name);
      var a := ListedIsRestorable(spec, name, t, items, r, f);
      BoundRoleMeans(spec, a, item.name);
    }
    if item.kind == "Endpoints" {
      forall a | a in items && Restorable(spec, t, a) && Served(t, a, "services")
        ensures !(a.namespace == item.namespace && a.name == item.name)
      {
        RestorableIsListed(spec, name, t, items, r, a);
        assert LoadItem(FileOf(t, a)) == Ok(a);
        assert ServiceName(LoadItem(FileOf(t, a)).value) != ServiceName(item);
      }
    }
  }

  /** An archived role that an archived binding gives to such an account is not held back as
      unbound. */
  lemma BoundRoleIsAdmitted(spec: PreferenceSpec, name: string, t: Table, items: seq<Item>, r: Record,
        role: Item, binding: Item)
    requires ClusterObjects(t, items) && role in items && binding in items
    requires Restorable(spec, t, binding) && Served(t, binding, "clusterrolebindings")
    requires Binds(spec, binding, role.name)
    requires role.kind == "ClusterRole" && role.owners == [] && Restorable(spec, t, role)
    ensures Admitted(spec, TreeOf(spec, name, t, items, r), t, items, role)
  {
    hide EntryPath, Escape, Prefered, TreeOf, ClusterObjects, BoundRole, Binds, ListedFile, IsServiceFile,
      IsBindingFile, Served, Bindable;
    BoundRoleMeans(spec, binding, role.name);
    RestorableIsListed(spec, name, t, items, r, binding);
    assert LoadItem(FileOf(t, binding)) == Ok(binding);
    BoundRolesAreKept(spec, TreeOf(spec, name, t, items, r), FileOf(t, binding), role);
  }
}
