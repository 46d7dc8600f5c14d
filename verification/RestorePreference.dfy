/** pkg/cluster/restore_pref.go: which directory an archive path is extracted to, and the lists
    that are computed from the extracted files before anything is restored. */
module RestorePreference {
  import opened Text
  import opened Objects
  import Records

  /** The spec of a RestorePreference resource. */
  datatype PreferenceSpec = PreferenceSpec(
    excludeNamespaces: seq<string>,
    excludeCRDs: seq<string>,
    excludeApiPathes: seq<string>,
    restoreAppApiPathes: seq<string>,
    restoreNfsStorageClasses: seq<string>)

  /** The directories of the extracted snapshot; `Exclude` entries are not extracted. */
  datatype Dir = Exclude | NamespaceDir | CrdDir | PvDir | PvcDir | RestoreDir | AppDir

  datatype File = File(name: string, content: Records.Content)

  /** A directory as ioutil.ReadDir lists it: sorted by file name, each name once. */
  type Folder = seq<File>

  /** The directories that exist. */
  type Tree = map<Dir, Folder>

  function FilesOf(tree: Tree, d: Dir): Folder {
    if d in tree then tree[d] else []
  }

  const NOT_JSON: string := "cannot unmarshal item"

  /** loadItem. */
  function LoadItem(f: File): Result<Item> {
    match f.content
    case ItemFile(item) => Ok(item)
    case _ => Err(NOT_JSON)
  }

  /* ---- classification ---- */

  /** A prefix, or a prefix and a part separated by a comma. */
  predicate ApiPathMatched(path: string, apiPath: string) {
    var sp := Split(apiPath, ',');
    || (|sp| == 1 && sp[0] <= path)
    || (|sp| == 2 && sp[0] <= path && Contains(path, sp[1]))
  }

  predicate ContainsAny(path: string, prefix: string, parts: seq<string>) {
    exists p :: p in parts && Contains(path, prefix + p)
  }

  predicate MatchesAny(path: string, apiPathes: seq<string>) {
    exists p :: p in apiPathes && ApiPathMatched(path, p)
  }

  /** preferedToRestore. */
  function Prefered(spec: PreferenceSpec, path: string): Dir {
    if "/namespaces/" <= path then (if ContainsAny(path, "", spec.excludeNamespaces) then Exclude else NamespaceDir)
    else if "/crds/" <= path then (if ContainsAny(path, "", spec.excludeCRDs) then Exclude else CrdDir)
    else if MatchesAny(path, spec.excludeApiPathes) then Exclude
    else if ContainsAny(path, "namespaces/", spec.excludeNamespaces) then Exclude
    else if Contains(path, "/storageclasses/") then
      (if ContainsAny(path, "storageclasses/", spec.restoreNfsStorageClasses) then RestoreDir else Exclude)
    else if Contains(path, "/persistentvolumes/") then PvDir
    else if Contains(path, "/persistentvolumeclaims/") then PvcDir
    else if MatchesAny(path, spec.restoreAppApiPathes) then AppDir
    else RestoreDir
  }

  /* ---- lists computed beforehand ---- */

  predicate UserNamespace(spec: PreferenceSpec, ns: string) { ns !in spec.excludeNamespaces }

  /** The subject is a service account of a namespace that is not excluded. */
  predicate UserSubject(spec: PreferenceSpec, subject: Json) {
    subject.Obj? && GetString(subject.fields, "kind") == "ServiceAccount" &&
      UserNamespace(spec, GetString(subject.fields, "namespace"))
  }

  /** The role that a binding gives to some user subject. */
  function BoundRole(spec: PreferenceSpec, binding: Item): Option<string> {
    match GetSlice(binding.fields, "subjects")
    case None => None
    case Some(subjects) =>
      if !exists s :: s in subjects && UserSubject(spec, s) then None
      else match GetMap(binding.fields, "roleRef")
        case None => None
        case Some(ref) => if GetString(ref, "name") == "" then None else Some(GetString(ref, "name"))
  }

  /** A service account of a namespace that is not excluded is among the subjects, and the role
      reference names this role. */
  predicate Binds(spec: PreferenceSpec, binding: Item, role: string) {
    && role != "" && "roleRef" in binding.fields && binding.fields["roleRef"].Obj?
    && "name" in binding.fields["roleRef"].fields && binding.fields["roleRef"].fields["name"] == Str(role)
    && "subjects" in binding.fields && binding.fields["subjects"].Arr?
    && exists s :: s in binding.fields["subjects"].elems && IsUserAccount(spec, s)
  }

  /** An account without a namespace counts as one of the namespace with the empty name. */
  predicate IsUserAccount(spec: PreferenceSpec, s: Json) {
    && s.Obj? && "kind" in s.fields && s.fields["kind"] == Str("ServiceAccount")
    && (if "namespace" in s.fields && s.fields["namespace"].Str? then s.fields["namespace"].text else "")
       !in spec.excludeNamespaces
  }

  lemma BoundRoleMeans(spec: PreferenceSpec, binding: Item, role: string)
    ensures BoundRole(spec, binding) == Some(role) <==> Binds(spec, binding, role)
  {
    assert forall s :: UserSubject(spec, s) <==> IsUserAccount(spec, s);
  }

  predicate IsBindingFile(f: File) { Contains(f.name, "|clusterrolebindings|") }
  predicate IsServiceFile(f: File) { Contains(f.name, "|services|") }

  /** Every file of the folder that a list is computed from can be loaded. */
  predicate Readable(files: Folder) {
    forall f :: f in files && (IsBindingFile(f) || IsServiceFile(f)) ==> LoadItem(f).Ok?
  }

  /** The bound roles and their bindings, in file order. */
  function BoundRoles(spec: PreferenceSpec, files: Folder): seq<(string, string)> {
    if files == [] then []
    else
      var f := files[|files| - 1];
      BoundRoles(spec, files[..|files| - 1]) +
      if IsBindingFile(f) && LoadItem(f).Ok? && BoundRole(spec, LoadItem(f).value).Some?
      then [(BoundRole(spec, LoadItem(f).value).value, LoadItem(f).value.name)] else []
  }

  function ServiceName(item: Item): string { item.namespace + "/" + item.name }

  function Services(files: Folder): seq<string> {
    if files == [] then []
    else
      var f := files[|files| - 1];
      Services(files[..|files| - 1]) + if IsServiceFile(f) && LoadItem(f).Ok?
        then [ServiceName(LoadItem(f).value)] else []
  }

  function Firsts(pairs: seq<(string, string)>): seq<string> {
    seq(|pairs|, i requires 0 <= i < |pairs| => pairs[i].0)
  }

  function Seconds(pairs: seq<(string, string)>): seq<string> {
    seq(|pairs|, i requires 0 <= i < |pairs| => pairs[i].1)
  }

  /** The three lists of a preference. */
  datatype Lists = Lists(clusterRoles: seq<string>, clusterRoleBindings: seq<string>, services: seq<string>)

  /** The lists that initializeByDir leaves: those of the Restore directory, then the App directory. */
  function ListsOf(spec: PreferenceSpec, tree: Tree): Lists {
    var pairs := BoundRoles(spec, FilesOf(tree, RestoreDir)) + BoundRoles(spec, FilesOf(tree, AppDir));
    Lists(Firsts(pairs), Seconds(pairs), Services(FilesOf(tree, RestoreDir)) + Services(FilesOf(tree, AppDir)))
  }

  /** A role is listed exactly when some archived binding gives it to a user subject; a binding
      exactly when it gives some role to one. */
  lemma {:induction false} BoundRolesFrom(spec: PreferenceSpec, files: Folder, role: string, binding: string)
    ensures (role, binding) in BoundRoles(spec, files) <==>
      exists f :: f in files && IsBindingFile(f) && LoadItem(f).Ok? && LoadItem(f).value.name == binding &&
        BoundRole(spec, LoadItem(f).value) == Some(role)
  {
    if files != [] {
      BoundRolesFrom(spec, files[..|files| - 1], role, binding);
      assert files == files[..|files| - 1] + [files[|files| - 1]];
    }
  }

  lemma {:induction false} ServicesFrom(files: Folder, name: string)
    ensures name in Services(files) <==>
      exists f :: f in files && IsServiceFile(f) && LoadItem(f).Ok? && ServiceName(LoadItem(f).value) == name
  {
    if files != [] {
      ServicesFrom(files[..|files| - 1], name);
      assert files == files[..|files| - 1] + [files[|files| - 1]];
    }
  }

  class Preference {
    const spec: PreferenceSpec
    var includedClusterRoles: seq<string>
    var includedClusterRoleBindings: seq<string>
    var serviceList: seq<string>
    var dirs: set<Dir>

    constructor (spec: PreferenceSpec)
      ensures this.spec == spec && dirs == {}
    {
      this.spec := spec;
      includedClusterRoles, includedClusterRoleBindings, serviceList, dirs := [], [], [], {};
    }

    function ToLists(): Lists
      reads this
    {
      Lists(includedClusterRoles, includedClusterRoleBindings, serviceList)
    }

    method AnyContained(path: string, prefix: string, parts: seq<string>) returns (r: bool)
      ensures r == ContainsAny(path, prefix, parts)
    {
      for i := 0 to |parts|
        invariant forall p :: p in parts[..i] ==> !Contains(path, prefix + p)
      {
        if Contains(path, prefix + parts[i]) {
          return true;
        }
      }
      return false;
    }

    method AnyMatched(path: string, apiPathes: seq<string>) returns (r: bool)
      ensures r == MatchesAny(path, apiPathes)
    {
      hide ApiPathMatched;
      for i := 0 to |apiPathes|
        invariant forall p :: p in apiPathes[..i] ==> !ApiPathMatched(path, p)
      {
        if ApiPathMatched(path, apiPathes[i]) {
          return true;
        }
      }
      return false;
    }

    method PreferedToRestore(path: string) returns (d: Dir)
      ensures d == Prefered(spec, path)
    {
      hide ContainsAny, MatchesAny, Contains;
      if "/namespaces/" <= path {
        var excluded := AnyContained(path, "", spec.excludeNamespaces);
        return if excluded then Exclude else NamespaceDir;
      }
      if "/crds/" <= path {
        var excluded := AnyContained(path, "", spec.excludeCRDs);
        return if excluded then Exclude else CrdDir;
      }
      var excluded := AnyMatched(path, spec.excludeApiPathes);
      if excluded {
        return Exclude;
      }
      excluded := AnyContained(path, "namespaces/", spec.excludeNamespaces);
      if excluded {
        return Exclude;
      }
      if Contains(path, "/storageclasses/") {
        var included := AnyContained(path, "storageclasses/", spec.restoreNfsStorageClasses);
        return if included then RestoreDir else Exclude;
      }
      if Contains(path, "/persistentvolumes/") {
        return PvDir;
      }
      if Contains(path, "/persistentvolumeclaims/") {
        return PvcDir;
      }
      var app := AnyMatched(path, spec.restoreAppApiPathes);
      return if app then AppDir else RestoreDir;
    }

    method IsUserNamespace(ns: string) returns (r: bool)
      ensures r == UserNamespace(spec, ns)
    {
      for i := 0 to |spec.excludeNamespaces|
        invariant ns !in spec.excludeNamespaces[..i]
      {
        if ns == spec.excludeNamespaces[i] {
          return false;
        }
      }
      return true;
    }

    predicate IsIn(d: Dir)
      reads this
    {
      d in dirs
    }

    /** The storage class begins with one of the classes to restore. */
    method IsIncludedStorageClass(storageClassName: string) returns (r: bool)
      ensures r == IncludedStorageClass(spec, storageClassName)
    {
      for i := 0 to |spec.restoreNfsStorageClasses|
        invariant forall s :: s in spec.restoreNfsStorageClasses[..i] ==> !(s <= storageClassName)
      {
        var s := spec.restoreNfsStorageClasses[i];
        assert spec.restoreNfsStorageClasses[..i + 1] == spec.restoreNfsStorageClasses[..i] + [s];
        if s <= storageClassName {
          assert s in spec.restoreNfsStorageClasses;
          return true;
        }
      }
      assert spec.restoreNfsStorageClasses[..|spec.restoreNfsStorageClasses|] == spec.restoreNfsStorageClasses;
      return false;
    }

    method HasUserSubject(subjects: seq<Json>) returns (bound: bool)
      ensures bound == exists s :: s in subjects && UserSubject(spec, s)
    {
      bound := false;
      for i := 0 to |subjects|
        invariant bound ==> exists s :: s in subjects && UserSubject(spec, s)
        invariant !bound ==> forall s :: s in subjects[..i] ==> !UserSubject(spec, s)
      {
        var s := subjects[i];
        assert s in subjects && subjects[..i + 1] == subjects[..i] + [s];
        if !s.Obj? {
          continue;
        }
        if GetString(s.fields, "kind") == "ServiceAccount" {
          var user := IsUserNamespace(GetString(s.fields, "namespace"));
          if user {
            bound := true;
          }
        }
      }
      assert subjects[..|subjects|] == subjects;
    }

    /** Notes the role of a binding and the binding itself, if it binds a user subject. */
    method AddBinding(item: Item)
      modifies `includedClusterRoles, `includedClusterRoleBindings
      ensures var role := BoundRole(spec, item);
        if role.None? then unchanged(this) else
          && includedClusterRoles == old(includedClusterRoles) + [role.value]
          && includedClusterRoleBindings == old(includedClusterRoleBindings) + [item.name]
    {
      var subjects := GetSlice(item.fields, "subjects");
      if subjects.None? {
        return;
      }
      var bound := HasUserSubject(subjects.value);
      if bound {
        var roleref := GetMap(item.fields, "roleRef");
        if roleref.None? {
          return;
        }
        var rolename := GetString(roleref.value, "name");
        if rolename != "" {
          includedClusterRoles := includedClusterRoles + [rolename];
          includedClusterRoleBindings := includedClusterRoleBindings + [item.name];
        }
      }
    }

    method SetIncludedClusterRoles(files: Folder) returns (ok: bool)
      modifies `includedClusterRoles, `includedClusterRoleBindings
      ensures ok <==> forall f :: f in files && IsBindingFile(f) ==> LoadItem(f).Ok?
      ensures ok ==>
        && includedClusterRoles == old(includedClusterRoles) + Firsts(BoundRoles(spec, files))
        && includedClusterRoleBindings == old(includedClusterRoleBindings) + Seconds(BoundRoles(spec, files))
    {
      hide IsBindingFile, UserSubject, BoundRole, LoadItem, BoundRoles, Firsts, Seconds;
      NoFiles(spec);
      for i := 0 to |files|
        invariant forall f :: f in files[..i] && IsBindingFile(f) ==> LoadItem(f).Ok?
        invariant includedClusterRoles == old(includedClusterRoles) + Firsts(BoundRoles(spec, files[..i]))
        invariant includedClusterRoleBindings == old(includedClusterRoleBindings) +
          Seconds(BoundRoles(spec, files[..i]))
      {
        var f := files[i];
        assert files[..i + 1] == files[..i] + [f];
        NextBinding(spec, files[..i], f);
        if IsBindingFile(f) {
          var item := LoadItem(f);
          if item.Err? {
            return false;
          }
          AddBinding(item.value);
        }
      }
      assert files[..|files|] == files;
      return true;
    }

    method SetServiceList(files: Folder) returns (ok: bool)
      modifies `serviceList
      ensures ok <==> forall f :: f in files && IsServiceFile(f) ==> LoadItem(f).Ok?
      ensures ok ==> serviceList == old(serviceList) + Services(files)
    {
      hide IsServiceFile;
      for i := 0 to |files|
        invariant forall f :: f in files[..i] && IsServiceFile(f) ==> LoadItem(f).Ok?
        invariant serviceList == old(serviceList) + Services(files[..i])
      {
        var f := files[i];
        assert files[..i + 1][..i] == files[..i] && files[..i + 1] == files[..i] + [f];
        if IsServiceFile(f) {
          var item := LoadItem(f);
          if item.Err? {
            return false;
          }
          serviceList := serviceList + [item.value.namespace + "/" + item.value.name];
        }
      }
      assert files[..|files|] == files;
      return true;
    }

    /** Looks at the extracted directories and fills the lists. */
    method InitializeByDir(tree: Tree) returns (ok: bool)
      modifies this
      ensures ok <==> Readable(FilesOf(tree, RestoreDir)) && Readable(FilesOf(tree, AppDir))
      ensures dirs == tree.Keys
      ensures ok ==> ToLists() == ListsOf(spec, tree)
    {
      hide IsBindingFile, IsServiceFile, BoundRoles, Services;
      dirs := tree.Keys;
      includedClusterRoles, includedClusterRoleBindings, serviceList := [], [], [];
      NoFiles(spec);
      ok := true;
      if IsIn(RestoreDir) {
        ok := SetIncludedClusterRoles(tree[RestoreDir]);
        if !ok {
          return;
        }
        ok := SetServiceList(tree[RestoreDir]);
        if !ok {
          return;
        }
      }
      if IsIn(AppDir) {
        ok := SetIncludedClusterRoles(tree[AppDir]);
        if !ok {
          return;
        }
        ok := SetServiceList(tree[AppDir]);
        if !ok {
          return;
        }
      }
      Joined(BoundRoles(spec, FilesOf(tree, RestoreDir)), BoundRoles(spec, FilesOf(tree, AppDir)));
    }
  }

  predicate IncludedStorageClass(spec: PreferenceSpec, storageClassName: string) {
    exists s :: s in spec.restoreNfsStorageClasses && s <= storageClassName
  }

  lemma NoFiles(spec: PreferenceSpec)
    ensures BoundRoles(spec, []) == [] && Services([]) == [] && Firsts([]) == [] && Seconds([]) == []
  {}

  lemma NextBinding(spec: PreferenceSpec, files: Folder, f: File)
    ensures var before, after := BoundRoles(spec, files), BoundRoles(spec, files + [f]);
      if IsBindingFile(f) && LoadItem(f).Ok? && BoundRole(spec, LoadItem(f).value).Some? then
        && Firsts(after) == Firsts(before) + [BoundRole(spec, LoadItem(f).value).value]
        && Seconds(after) == Seconds(before) + [LoadItem(f).value.name]
      else after == before
  {
    hide IsBindingFile, BoundRole;
    assert (files + [f])[..|files|] == files;
  }

  lemma Joined(a: seq<(string, string)>, b: seq<(string, string)>)
    ensures Firsts(a + b) == Firsts(a) + Firsts(b) && Seconds(a + b) == Seconds(a) + Seconds(b)
  {}
}
