/** Which archived objects are to be restored, said in terms of the preference and the objects
    alone (restore_pref.go:42-98 and :118-220, restore.go:96-143, restore_pv.go:48-145), and that
    the lists, the extracted directories and the volume search of the program come to the same. */
module Admission {
  import opened Text
  import opened Objects
  import opened Resources
  import opened Paths
  import opened Records
  import opened RestorePreference
  import opened Extraction
  import opened RestorePipeline
  import opened RestoreOrder
  import opened Classification
  import opened RestoredContent
  import opened RestoreOutcomes
  import opened RestoreGuarantees
  import opened EndToEnd
  import opened RoundTrip
  import opened ListClosure
  import opened VolumeLookup

  /* ---- what a file name shows ---- */

  lemma EscapedOccurs(path: string, x: string, i: int)
    requires Free(path, '|') && Free(x, '/') && Free(x, '|')
    ensures OccursAt(Escape(path), "|" + x + "|", i) <==> OccursAt(path, "/" + x + "/", i)
  {
    var pat, pat' := "/" + x + "/", "|" + x + "|";
    assert forall j :: 0 <= j < |pat| ==> (pat[j] == '/' <==> pat'[j] == '|') && (pat[j] != '/' ==> pat[j] == pat'[j]);
    if 0 <= i <= |path| - |pat| {
      var s, s' := path[i..i + |pat|], Escape(path)[i..i + |pat|];
      assert forall j :: 0 <= j < |pat| ==> s[j] == path[i + j] && s'[j] == Escape(path)[i + j];
      assert s == pat <==> forall j :: 0 <= j < |pat| ==> s[j] == pat[j];
      assert s' == pat' <==> forall j :: 0 <= j < |pat| ==> s'[j] == pat'[j];
    }
  }

  lemma EscapedContains(path: string, x: string)
    requires Free(path, '|') && Free(x, '/') && Free(x, '|')
    ensures Contains(Escape(path), "|" + x + "|") <==> Contains(path, "/" + x + "/")
  {
    hide OccursAt, Free;
    forall i ensures OccursAt(Escape(path), "|" + x + "|", i) <==> OccursAt(path, "/" + x + "/", i) {
      EscapedOccurs(path, x, i);
    }
  }

  lemma FileNameShows(t: Table, a: Item, word: string)
    requires Addressable(t, a) && BarFree(t, a) && !TopLevel(a)
    requires Free(word, '/') && Free(word, '|') && word != "" && word != "namespaces"
    ensures Contains(FileOf(t, a).name, "|" + word + "|") <==> Shows(t, a, word)
  {
    hide Contains, Escape, Shows, Free, EntryPath, Addressable;
    EscapedContains(EntryPath(t, a), word);
    ShowsSegment(t, a, word);
  }

  lemma RestorableIsDeep(spec: PreferenceSpec, t: Table, a: Item)
    requires Restorable(spec, t, a)
    ensures !TopLevel(a)
  {
    hide ContainsAny, MatchesAny, Contains, EntryPath;
    if TopLevel(a) { TopLevelPath(t, a); }
  }

  lemma RecognizedBy(spec: PreferenceSpec, t: Table, a: Item)
    requires Addressable(t, a) && BarFree(t, a) && Restorable(spec, t, a)
    ensures IsServiceFile(FileOf(t, a)) <==> Shows(t, a, "services")
    ensures IsBindingFile(FileOf(t, a)) <==> Shows(t, a, "clusterrolebindings")
  {
    hide Contains, Shows, Prefered, EntryPath, Escape, Addressable;
    RestorableIsDeep(spec, t, a);
    ListWords();
    FileNameShows(t, a, "services");
    FileNameShows(t, a, "clusterrolebindings");
    BarredWords();
  }

  lemma ListWords()
    ensures forall w :: w in ["services", "clusterrolebindings"] ==>
      Free(w, '/') && Free(w, '|') && w != "" && w != "namespaces"
    ensures "services" in ["services", "clusterrolebindings"]
    ensures "clusterrolebindings" in ["services", "clusterrolebindings"]
  {
    assert |"services"| == 8 && |"clusterrolebindings"| == 19 && |"namespaces"| == 10;
    assert Free("services", '/') && Free("services", '|');
    assert Free("clusterrolebindings", '/') && Free("clusterrolebindings", '|');
  }

  /* ---- what holds an object back ---- */

  /** An archived object that is restored as a cluster role binding, giving this role. */
  predicate GivesRole(spec: PreferenceSpec, t: Table, items: seq<Item>, b: Item, role: string) {
    b in items && Restorable(spec, t, b) && Shows(t, b, "clusterrolebindings") && Binds(spec, b, role)
  }

  /** An archived object that is restored as a service with the key of a. */
  predicate ServesAs(spec: PreferenceSpec, t: Table, items: seq<Item>, s: Item, a: Item) {
    && s in items && Restorable(spec, t, s) && Shows(t, s, "services")
    && s.namespace == a.namespace && s.name == a.name
  }

  /** A rule of restoreDir keeps the object from being created. */
  ghost predicate HeldBack(spec: PreferenceSpec, t: Table, items: seq<Item>, a: Item) {
    || a.owners != []
    || (a.kind == "Secret" && GetString(a.fields, "type") == "kubernetes.io/service-account-token")
    || (a.kind == "ClusterRole" && !exists b :: GivesRole(spec, t, items, b, a.name))
    || (a.kind == "ClusterRoleBinding" && !exists b, role :: GivesRole(spec, t, items, b, role) && b.name == a.name)
    || a.kind == "PersistentVolumeClaim"
    || (a.kind == "Endpoints" && exists s :: ServesAs(spec, t, items, s, a))
  }

  /** The files that the lists are computed from are those of the archived objects. */
  lemma ListedFiles(spec: PreferenceSpec, name: string, t: Table, items: seq<Item>, r: Record, f: File)
    requires ClusterObjects(t, items)
    ensures ListedFile(TreeOf(spec, name, t, items, r), f)
       <==> exists a :: a in items && Restorable(spec, t, a) && f == FileOf(t, a)
  {
    hide EntryPath, Escape, Prefered, TreeOf, ClusterObjects;
    FilesAreItems(spec, name, t, items, r, RestoreDir, f);
    FilesAreItems(spec, name, t, items, r, AppDir, f);
  }

  lemma RolesAreBound(spec: PreferenceSpec, name: string, t: Table, items: seq<Item>, r: Record, x: string)
    requires ClusterObjects(t, items)
    ensures var lists := ListsOf(spec, TreeOf(spec, name, t, items, r));
            && (x in lists.clusterRoles <==> exists b :: GivesRole(spec, t, items, b, x))
            && (x in lists.clusterRoleBindings <==> exists b, role :: GivesRole(spec, t, items, b, role) && b.name == x)
  {
    hide EntryPath, Escape, Prefered, TreeOf, KeyOf, BoundRole, Binds, IsBindingFile, IsServiceFile, ListsOf,
      Addressable, Shows, Restorable, ListedFile;
    var tree := TreeOf(spec, name, t, items, r);
    ListsMean(spec, tree, x);
    forall b, role ensures BoundRole(spec, b) == Some(role) <==> Binds(spec, b, role) {
      BoundRoleMeans(spec, b, role);
    }
    forall f ensures ListedFile(tree, f) <==> exists a :: a in items && Restorable(spec, t, a) && f == FileOf(t, a) {
      ListedFiles(spec, name, t, items, r, f);
    }
    forall b | b in items && Restorable(spec, t, b)
      ensures LoadItem(FileOf(t, b)) == Ok(b) && (IsBindingFile(FileOf(t, b)) <==> Shows(t, b, "clusterrolebindings"))
    {
      RecognizedBy(spec, t, b);
    }
    var lists := ListsOf(spec, tree);
    if x in lists.clusterRoles {
      var f :| ListedFile(tree, f) && IsBindingFile(f) && LoadItem(f).Ok? &&
        BoundRole(spec, LoadItem(f).value) == Some(x);
      var b :| b in items && Restorable(spec, t, b) && f == FileOf(t, b);
      assert GivesRole(spec, t, items, b, x);
    }
    if x in lists.clusterRoleBindings {
      var f :| ListedFile(tree, f) && IsBindingFile(f) && LoadItem(f).Ok? && LoadItem(f).value.name == x
        && BoundRole(spec, LoadItem(f).value).Some?;
      var b :| b in items && Restorable(spec, t, b) && f == FileOf(t, b);
      assert GivesRole(spec, t, items, b, BoundRole(spec, b).value);
    }
    if b :| GivesRole(spec, t, items, b, x) { assert ListedFile(tree, FileOf(t, b)); }
    if b, role :| GivesRole(spec, t, items, b, role) && b.name == x { assert ListedFile(tree, FileOf(t, b)); }
  }

  lemma ServicesAreListed(spec: PreferenceSpec, name: string, t: Table, items: seq<Item>, r: Record, a: Item)
    requires ClusterObjects(t, items) && a in items
    ensures ServiceName(a) in ListsOf(spec, TreeOf(spec, name, t, items, r)).services
       <==> exists s :: ServesAs(spec, t, items, s, a)
  {
    hide EntryPath, Escape, Prefered, TreeOf, KeyOf, BoundRole, IsBindingFile, IsServiceFile, ListsOf, Shows,
      Restorable, ListedFile, ServiceName, ResourceOf;
    var tree := TreeOf(spec, name, t, items, r);
    ListsMean(spec, tree, ServiceName(a));
    forall f ensures ListedFile(tree, f) <==> exists s :: s in items && Restorable(spec, t, s) && f == FileOf(t, s) {
      ListedFiles(spec, name, t, items, r, f);
    }
    forall s | s in items && Restorable(spec, t, s)
      ensures LoadItem(FileOf(t, s)) == Ok(s) && (IsServiceFile(FileOf(t, s)) <==> Shows(t, s, "services"))
      ensures ServiceName(s) == ServiceName(a) <==> s.namespace == a.namespace && s.name == a.name
    {
      RecognizedBy(spec, t, s);
      SameServiceKey(s, a);
    }
    if ServiceName(a) in ListsOf(spec, tree).services {
      var f :| ListedFile(tree, f) && IsServiceFile(f) && LoadItem(f).Ok? &&
        ServiceName(LoadItem(f).value) == ServiceName(a);
      var s :| s in items && Restorable(spec, t, s) && f == FileOf(t, s);
      assert ServesAs(spec, t, items, s, a);
    }
    if s :| ServesAs(spec, t, items, s, a) {
      assert ListedFile(tree, FileOf(t, s));
    }
  }

  lemma SameServiceKey(a: Item, b: Item)
    requires Free(a.namespace, '/') && Free(b.namespace, '/')
    ensures ServiceName(a) == ServiceName(b) <==> a.namespace == b.namespace && a.name == b.name
  {
    var x, y := ServiceName(a), ServiceName(b);
    assert x[|a.namespace|] == '/' && y[|b.namespace|] == '/';
    assert forall i :: 0 <= i < |a.namespace| ==> x[i] == a.namespace[i] != '/';
    assert forall i :: 0 <= i < |b.namespace| ==> y[i] == b.namespace[i] != '/';
    if x == y {
      assert |a.namespace| == |b.namespace|;
      assert a.namespace == x[..|a.namespace|] && b.namespace == y[..|b.namespace|];
      assert a.name == x[|a.namespace| + 1..] && b.name == y[|b.namespace| + 1..];
    }
  }

  lemma ClearIffNotHeldBack(spec: PreferenceSpec, name: string, t: Table, items: seq<Item>, r: Record, a: Item)
    requires ClusterObjects(t, items) && a in items
    ensures ObstacleOf(ListsOf(spec, TreeOf(spec, name, t, items, r)), a).Clear? <==> !HeldBack(spec, t, items, a)
  {
    hide ClusterObjects, TreeOf, ListsOf, GivesRole, ServesAs, ServiceName;
    RolesAreBound(spec, name, t, items, r, a.name);
    ServicesAreListed(spec, name, t, items, r, a);
    assert |"ClusterRole"| == 11 && |"Secret"| == 6 && |"ClusterRoleBinding"| == 18 &&
      |"PersistentVolumeClaim"| == 21 && |"Endpoints"| == 9;
  }

  /* ---- claims and volumes ---- */

  predicate IsVolume(spec: PreferenceSpec, t: Table, items: seq<Item>, v: Item) {
    v in items && Prefered(spec, EntryPath(t, v)) == PvDir
  }

  predicate IsClaim(spec: PreferenceSpec, t: Table, items: seq<Item>, c: Item) {
    c in items && Prefered(spec, EntryPath(t, c)) == PvcDir
  }

  /** The volume that the claim is bound to, if its storage class is to be restored. */
  function VolumeWanted(spec: PreferenceSpec, c: Item): Option<string> {
    match GetMap(c.fields, "spec")
    case None => None
    case Some(s) =>
      if !HasClassToRestore(spec, s, c) || GetString(s, "volumeName") == "" then None
      else Some(GetString(s, "volumeName"))
  }

  /** The file name of the volume contains what the program looks for. */
  predicate Fits(t: Table, v: Item, volume: string) {
    Contains(FileOf(t, v).name, VolumeFile(volume))
  }

  /** Of the archived volumes that fit, v is the first by file name. */
  ghost predicate FirstToFit(spec: PreferenceSpec, t: Table, items: seq<Item>, volume: string, v: Item) {
    && IsVolume(spec, t, items, v) && Fits(t, v, volume)
    && forall w :: IsVolume(spec, t, items, w) && Fits(t, w, volume) ==>
         w == v || LexLess(FileOf(t, v).name, FileOf(t, w).name)
  }

  /** The claim is to be restored with this volume. */
  ghost predicate Paired(spec: PreferenceSpec, t: Table, items: seq<Item>, c: Item, v: Item) {
    && IsClaim(spec, t, items, c) && VolumeWanted(spec, c).Some?
    && FirstToFit(spec, t, items, VolumeWanted(spec, c).value, v)
    && GetMap(v.fields, "spec").Some?
  }

  /** In a sorted folder the search finds the least fitting file. */
  lemma {:induction false} SearchFindsLeast(files: Folder, volume: string, f: File)
    requires Listed(files)
    ensures FindVolume(files, volume) == Some(f) <==>
      && f in files && Contains(f.name, VolumeFile(volume))
      && forall g :: g in files && Contains(g.name, VolumeFile(volume)) ==> g == f || LexLess(f.name, g.name)
  {
    hide Contains, VolumeFile, LexLess;
    var r := FindVolume(files, volume);
    if r.Some? {
      var i := FoundAt(files, volume);
      forall g | g in files && Contains(g.name, VolumeFile(volume))
        ensures g == files[i] || LexLess(files[i].name, g.name)
      {
        var j :| 0 <= j < |files| && files[j] == g;
      }
      if f in files && f != files[i] && LexLess(f.name, files[i].name) { LexTrichotomy(f.name, files[i].name); }
      assert files[i] in files;
    }
  }

  lemma {:induction false} FoundAt(files: Folder, volume: string) returns (i: nat)
    requires FindVolume(files, volume).Some?
    ensures i < |files| && FindVolume(files, volume) == Some(files[i])
    ensures forall j :: 0 <= j < i ==> !Contains(files[j].name, VolumeFile(volume))
  {
    hide Contains, VolumeFile;
    if Contains(files[0].name, VolumeFile(volume)) {
      i := 0;
    } else {
      i := FoundAt(files[1..], volume);
      i := i + 1;
    }
  }

  lemma VolumeFiles(spec: PreferenceSpec, name: string, t: Table, items: seq<Item>, r: Record, f: File)
    requires ClusterObjects(t, items)
    ensures f in FilesOf(TreeOf(spec, name, t, items, r), PvDir)
       <==> exists v :: IsVolume(spec, t, items, v) && f == FileOf(t, v)
  {
    hide EntryPath, Escape, Prefered, TreeOf, ClusterObjects;
    FilesAreItems(spec, name, t, items, r, PvDir, f);
    if v :| v in items && FileFor(spec, t, v, PvDir, f) { assert IsVolume(spec, t, items, v); }
    if v :| IsVolume(spec, t, items, v) && f == FileOf(t, v) { assert FileFor(spec, t, v, PvDir, f); }
  }

  /** The program's search in the extracted directory. */
  lemma SearchIsFirstToFit(spec: PreferenceSpec, name: string, t: Table, items: seq<Item>, r: Record,
        volume: string, v: Item)
    requires ClusterObjects(t, items)
    ensures FindVolume(FilesOf(TreeOf(spec, name, t, items, r), PvDir), volume) == Some(FileOf(t, v))
       <==> FirstToFit(spec, t, items, volume, v)
  {
    hide EntryPath, Escape, Prefered, TreeOf, ClusterObjects, IsVolume, Contains, VolumeFile, LexLess, Listed;
    var files := FilesOf(TreeOf(spec, name, t, items, r), PvDir);
    TreeIsListed(spec, name, t, items, r);
    SearchFindsLeast(files, volume, FileOf(t, v));
    forall f ensures f in files <==> exists w :: IsVolume(spec, t, items, w) && f == FileOf(t, w) {
      VolumeFiles(spec, name, t, items, r, f);
    }
    assert forall w :: FileOf(t, w) == FileOf(t, v) ==> w == v by {
      assert forall w :: FileOf(t, w).content == ItemFile(w);
    }
    assert forall w :: IsVolume(spec, t, items, w) ==> FileOf(t, w) in files;
  }

  lemma BindableIffPaired(spec: PreferenceSpec, name: string, t: Table, items: seq<Item>, r: Record, c: Item, v: Item)
    requires ClusterObjects(t, items) && IsClaim(spec, t, items, c)
    ensures var volumes := FilesOf(TreeOf(spec, name, t, items, r), PvDir);
            (Bindable(spec, volumes, FileOf(t, c)) && ChosenVolume(spec, volumes, FileOf(t, c)) == FileOf(t, v))
            <==> Paired(spec, t, items, c, v)
  {
    hide EntryPath, Escape, Prefered, TreeOf, ClusterObjects, IsVolume, FirstToFit, StorageClassIncluded;
    var volumes := FilesOf(TreeOf(spec, name, t, items, r), PvDir);
    assert LoadItem(FileOf(t, c)) == Ok(c) && LoadItem(FileOf(t, v)) == Ok(v);
    if GetMap(c.fields, "spec").Some? { ClassIsIncluded(spec, GetMap(c.fields, "spec").value, c); }
    hide HasClassToRestore;
    if VolumeWanted(spec, c).Some? {
      SearchIsFirstToFit(spec, name, t, items, r, VolumeWanted(spec, c).value, v);
    }
    hide FileOf, FindVolume;
  }

  lemma ChosenIsItem(spec: PreferenceSpec, name: string, t: Table, items: seq<Item>, r: Record, f: File)
    returns (v: Item)
    requires ClusterObjects(t, items) && Bindable(spec, FilesOf(TreeOf(spec, name, t, items, r), PvDir), f)
    ensures ChosenVolume(spec, FilesOf(TreeOf(spec, name, t, items, r), PvDir), f) == FileOf(t, v)
  {
    hide EntryPath, Escape, Prefered, TreeOf, ClusterObjects, IsVolume, VolumeOf;
    var volumes := FilesOf(TreeOf(spec, name, t, items, r), PvDir);
    ChosenIsListed(spec, volumes, LoadItem(f).value);
    VolumeFiles(spec, name, t, items, r, ChosenVolume(spec, volumes, f));
    v :| IsVolume(spec, t, items, v) && ChosenVolume(spec, volumes, f) == FileOf(t, v);
  }

  /* ---- which objects a restore is to create ---- */

  /** Said of the objects alone: plain objects that no rule holds back, claims that are paired with
      an archived volume, and the volumes of such claims. */
  ghost predicate Wanted(spec: PreferenceSpec, t: Table, items: seq<Item>, a: Item) {
    match Prefered(spec, EntryPath(t, a))
    case Exclude => false
    case PvcDir => exists v :: Paired(spec, t, items, a, v)
    case PvDir => exists c :: Paired(spec, t, items, c, a)
    case _ => !HeldBack(spec, t, items, a)
  }

  lemma AdmittedVolume(spec: PreferenceSpec, name: string, t: Table, items: seq<Item>, r: Record, a: Item)
    requires ClusterObjects(t, items) && IsVolume(spec, t, items, a)
    ensures Admitted(spec, TreeOf(spec, name, t, items, r), t, items, a) <==> exists c :: Paired(spec, t, items, c, a)
  {
    hide EntryPath, Escape, Prefered, TreeOf, ClusterObjects, Bindable, ChosenVolume, FirstToFit, FileOf;
    forall c | IsClaim(spec, t, items, c)
      ensures var volumes := FilesOf(TreeOf(spec, name, t, items, r), PvDir);
              (Bindable(spec, volumes, FileOf(t, c)) && ChosenVolume(spec, volumes, FileOf(t, c)) == FileOf(t, a))
              <==> Paired(spec, t, items, c, a)
    {
      BindableIffPaired(spec, name, t, items, r, c, a);
    }
  }

  lemma AdmittedClaim(spec: PreferenceSpec, name: string, t: Table, items: seq<Item>, r: Record, a: Item)
    requires ClusterObjects(t, items) && IsClaim(spec, t, items, a)
    ensures Admitted(spec, TreeOf(spec, name, t, items, r), t, items, a) <==> exists v :: Paired(spec, t, items, a, v)
  {
    hide EntryPath, Escape, Prefered, TreeOf, ClusterObjects, Bindable, ChosenVolume, FirstToFit, FileOf;
    var volumes := FilesOf(TreeOf(spec, name, t, items, r), PvDir);
    if Bindable(spec, volumes, FileOf(t, a)) {
      var v := ChosenIsItem(spec, name, t, items, r, FileOf(t, a));
      BindableIffPaired(spec, name, t, items, r, a, v);
    }
    if v :| Paired(spec, t, items, a, v) { BindableIffPaired(spec, name, t, items, r, a, v); }
  }

  /** What the program's lists, directories and searches admit is what the objects say. */
  lemma AdmittedIffWanted(spec: PreferenceSpec, name: string, t: Table, items: seq<Item>, r: Record, a: Item)
    requires ClusterObjects(t, items) && a in items
    ensures Admitted(spec, TreeOf(spec, name, t, items, r), t, items, a) <==> Wanted(spec, t, items, a)
  {
    hide EntryPath, Escape, Prefered, TreeOf, ClusterObjects, Bindable, ChosenVolume, Paired, HeldBack, FileOf;
    match Prefered(spec, EntryPath(t, a))
    case Exclude =>
    case PvcDir => AdmittedClaim(spec, name, t, items, r, a);
    case PvDir => AdmittedVolume(spec, name, t, items, r, a);
    case _ => ClearIffNotHeldBack(spec, name, t, items, r, a);
  }

  /* ---- volumes by name ---- */

  /** What is extracted as a volume is one of the core group. */
  predicate OrdinaryVolumes(spec: PreferenceSpec, t: Table, items: seq<Item>) {
    forall v :: v in items && IsVolume(spec, t, items, v) ==>
      !TopLevel(v) && v.apiVersion == "v1" && v.namespace == "" && ResourceOf(t, v) == Ok(VOLUMES)
  }

  lemma JsonPrefix(a: string, b: string)
    ensures CoreVolumeFile(a) <= CoreVolumeFile(b) <==> a + ".json" <= b + ".json"
  {
    var x, y := a + ".json", b + ".json";
    hide CORE_VOLUMES;
    assert CoreVolumeFile(a) == CORE_VOLUMES + x && CoreVolumeFile(b) == CORE_VOLUMES + y;
    var n := |CORE_VOLUMES|;
    assert (CORE_VOLUMES + x)[n..] == x && (CORE_VOLUMES + y)[n..] == y;
    if CORE_VOLUMES + x <= CORE_VOLUMES + y {
      assert (CORE_VOLUMES + y)[..n + |x|][n..] == y[..|x|];
    }
    if x <= y {
      assert CORE_VOLUMES + y == CORE_VOLUMES + x + y[|x|..];
    }
  }

  lemma VolumeNameIsBarFree(t: Table, v: Item)
    requires Addressable(t, v) && BarFree(t, v) && !TopLevel(v) && v.apiVersion == "v1" && v.namespace == ""
    requires ResourceOf(t, v) == Ok(VOLUMES)
    ensures Free(v.name, '|') && FileOf(t, v).name == CoreVolumeFile(v.name)
  {
    hide ResourceOf;
    DeepPath(t, v);
    VolumePath(v);
    var pre := "/api/v1/persistentvolumes/";
    var path := pre + v.name + ".json";
    assert forall i :: 0 <= i < |v.name| ==> path[|pre| + i] == v.name[i];
    VolumeFileName(t, v);
    assert Escape(v.name) == v.name;
  }

  /** An ordinary volume fits a name exactly when its own name, with the file suffix, begins with
      it: when it is that name, or goes on after the suffix. */
  lemma FitsByName(spec: PreferenceSpec, t: Table, items: seq<Item>, v: Item, volume: string)
    requires ClusterObjects(t, items) && OrdinaryVolumes(spec, t, items) && IsVolume(spec, t, items, v)
    ensures Fits(t, v, volume) <==> volume + ".json" <= v.name + ".json"
    ensures FileOf(t, v).name == CoreVolumeFile(v.name)
  {
    hide Contains, CoreVolumeFile, VolumeFile, EntryPath, Escape, Prefered, KeyOf, ResourceOf;
    VolumeNameIsBarFree(t, v);
    PatternIsPrefix(v.name, volume);
    JsonPrefix(volume, v.name);
  }

  lemma SameVolume(spec: PreferenceSpec, t: Table, items: seq<Item>, v: Item, w: Item)
    requires ClusterObjects(t, items) && OrdinaryVolumes(spec, t, items)
    requires IsVolume(spec, t, items, v) && IsVolume(spec, t, items, w) && v.name == w.name
    ensures v == w
  {
    hide EntryPath, Prefered, Uncached, ParseGroupVersion;
    KeyParts(t, v, w);
    var i :| 0 <= i < |items| && items[i] == v;
    var j :| 0 <= j < |items| && items[j] == w;
  }

  lemma BeginsBefore(a: string, b: string)
    requires a + ".json" <= b + ".json" && a != b
    ensures LexLess(CoreVolumeFile(a), CoreVolumeFile(b)) && !LexLess(CoreVolumeFile(b), CoreVolumeFile(a))
  {
    hide LexLess;
    JsonPrefix(a, b);
    assert (a + ".json")[..|a|] == a && (b + ".json")[..|b|] == b;
    LexPrefix(CoreVolumeFile(a), CoreVolumeFile(b));
    LexTrichotomy(CoreVolumeFile(a), CoreVolumeFile(b));
  }

  /** If the volume of that name is archived, it and only it is the first to fit. */
  lemma NamedIsFirst(spec: PreferenceSpec, t: Table, items: seq<Item>, v: Item, w: Item)
    requires ClusterObjects(t, items) && OrdinaryVolumes(spec, t, items) && IsVolume(spec, t, items, v)
    ensures FirstToFit(spec, t, items, v.name, w) <==> w == v
  {
    hide ClusterObjects, OrdinaryVolumes, IsVolume, Fits, LexLess, CoreVolumeFile, FileOf;
    FitsByName(spec, t, items, v, v.name);
    forall u | IsVolume(spec, t, items, u) && Fits(t, u, v.name) && u != v
      ensures LexLess(FileOf(t, v).name, FileOf(t, u).name) && !LexLess(FileOf(t, u).name, FileOf(t, v).name)
    {
      FitsByName(spec, t, items, u, v.name);
      if u.name == v.name { SameVolume(spec, t, items, u, v); }
      BeginsBefore(v.name, u.name);
    }
  }

  /** The claim names the volume. */
  predicate NamesVolume(spec: PreferenceSpec, t: Table, items: seq<Item>, c: Item, v: Item) {
    IsClaim(spec, t, items, c) && IsVolume(spec, t, items, v) && VolumeWanted(spec, c) == Some(v.name)
  }

  /** The volume's name is the one the claim looks for, or goes on after it and the file suffix. */
  predicate Continues(spec: PreferenceSpec, c: Item, v: Item) {
    VolumeWanted(spec, c).Some? && VolumeWanted(spec, c).value + ".json" <= v.name + ".json"
  }

  /** No archived volume's name goes on where a claim's volume name and the suffix end, unless the
      volume of that name is archived too. */
  ghost predicate NoLookalikes(spec: PreferenceSpec, t: Table, items: seq<Item>) {
    forall c, v :: IsClaim(spec, t, items, c) && IsVolume(spec, t, items, v) && Continues(spec, c, v) ==>
      exists w :: NamesVolume(spec, t, items, c, w)
  }

  /** For ordinary volumes, a claim whose volume is archived is paired with the volume it names; a
      claim that names none is paired with a volume only if that one's name continues the one it
      looks for. */
  lemma PairedByName(spec: PreferenceSpec, t: Table, items: seq<Item>, c: Item, v: Item)
    requires ClusterObjects(t, items) && OrdinaryVolumes(spec, t, items)
    ensures (exists w :: NamesVolume(spec, t, items, c, w)) ==>
      (Paired(spec, t, items, c, v) <==> NamesVolume(spec, t, items, c, v) && GetMap(v.fields, "spec").Some?)
    ensures Paired(spec, t, items, c, v) ==> Continues(spec, c, v)
  {
    hide ClusterObjects, OrdinaryVolumes, IsVolume, IsClaim, Fits, LexLess, CoreVolumeFile, FileOf, VolumeWanted;
    if w :| NamesVolume(spec, t, items, c, w) {
      NamedIsFirst(spec, t, items, w, v);
      if NamesVolume(spec, t, items, c, v) { SameVolume(spec, t, items, v, w); }
    }
    if Paired(spec, t, items, c, v) { FitsByName(spec, t, items, v, VolumeWanted(spec, c).value); }
  }

  /** Without lookalikes: claims that name an archived volume with a spec, and those volumes. */
  ghost predicate WantedByName(spec: PreferenceSpec, t: Table, items: seq<Item>, a: Item) {
    match Prefered(spec, EntryPath(t, a))
    case Exclude => false
    case PvcDir => exists v :: NamesVolume(spec, t, items, a, v) && GetMap(v.fields, "spec").Some?
    case PvDir => GetMap(a.fields, "spec").Some? && exists c :: NamesVolume(spec, t, items, c, a)
    case _ => !HeldBack(spec, t, items, a)
  }

  lemma WantedIsByName(spec: PreferenceSpec, t: Table, items: seq<Item>, a: Item)
    requires ClusterObjects(t, items) && a in items
    requires OrdinaryVolumes(spec, t, items) && NoLookalikes(spec, t, items)
    ensures Wanted(spec, t, items, a) <==> WantedByName(spec, t, items, a)
  {
    hide ClusterObjects, OrdinaryVolumes, FirstToFit, VolumeWanted, EntryPath, Prefered, HeldBack;
    forall c, v ensures Paired(spec, t, items, c, v) <==>
        NamesVolume(spec, t, items, c, v) && GetMap(v.fields, "spec").Some? {
      PairedByName(spec, t, items, c, v);
      if Paired(spec, t, items, c, v) { assert IsVolume(spec, t, items, v) by { FirstIsVolume(spec, t, items, c, v); } }
    }
    hide Paired, NoLookalikes;
  }

  lemma FirstIsVolume(spec: PreferenceSpec, t: Table, items: seq<Item>, c: Item, v: Item)
    requires Paired(spec, t, items, c, v)
    ensures IsVolume(spec, t, items, v)
  {}

  /* ---- the round trip, said of the objects ---- */

  /** The log holds exactly the wanted objects, each with its content. */
  ghost predicate CreatesWanted(spec: PreferenceSpec, t: Table, items: seq<Item>, log: seq<Item>) {
    && (forall k :: 0 <= k < |log| ==> Known(spec, t, items, log[k]))
    && (forall a :: a in items ==> CreatedIff(spec, t, log, a, Wanted(spec, t, items, a)))
  }

  /** No two claims are paired with the same volume. */
  ghost predicate OneClaimEach(spec: PreferenceSpec, t: Table, items: seq<Item>) {
    forall c, d, v :: Paired(spec, t, items, c, v) && Paired(spec, t, items, d, v) ==> c == d
  }

  lemma ClaimFileIsItem(spec: PreferenceSpec, name: string, t: Table, items: seq<Item>, r: Record, f: File)
    returns (c: Item)
    requires ClusterObjects(t, items) && f in FilesOf(TreeOf(spec, name, t, items, r), PvcDir)
    ensures IsClaim(spec, t, items, c) && f == FileOf(t, c)
  {
    hide EntryPath, Escape, Prefered, TreeOf, ClusterObjects;
    FilesAreItems(spec, name, t, items, r, PvcDir, f);
    c :| c in items && FileFor(spec, t, c, PvcDir, f);
  }

  lemma OneClaimIsOneFile(spec: PreferenceSpec, name: string, t: Table, items: seq<Item>, r: Record)
    requires ClusterObjects(t, items) && OneClaimEach(spec, t, items)
    ensures var tree := TreeOf(spec, name, t, items, r);
            OneClaimPerVolume(spec, FilesOf(tree, PvDir), FilesOf(tree, PvcDir))
  {
    hide EntryPath, Escape, Prefered, TreeOf, ClusterObjects, Bindable, ChosenVolume, Paired, FileOf, IsClaim;
    var tree := TreeOf(spec, name, t, items, r);
    var volumes := FilesOf(tree, PvDir);
    forall f, g | f in FilesOf(tree, PvcDir) && g in FilesOf(tree, PvcDir) && f != g
                  && Bindable(spec, volumes, f) && Bindable(spec, volumes, g)
      ensures ChosenVolume(spec, volumes, f) != ChosenVolume(spec, volumes, g)
    {
      var c := ClaimFileIsItem(spec, name, t, items, r, f);
      var d := ClaimFileIsItem(spec, name, t, items, r, g);
      var v := ChosenIsItem(spec, name, t, items, r, f);
      BindableIffPaired(spec, name, t, items, r, c, v);
      BindableIffPaired(spec, name, t, items, r, d, v);
    }
  }

  lemma ExactlyIsWanted(spec: PreferenceSpec, name: string, t: Table, items: seq<Item>, r: Record, log: seq<Item>)
    requires ClusterObjects(t, items)
    ensures CreatesExactly(spec, TreeOf(spec, name, t, items, r), t, items, log) <==> CreatesWanted(spec, t, items, log)
  {
    hide ClusterObjects, TreeOf, Admitted, Wanted, CreatedIff, Known;
    forall a | a in items
      ensures Admitted(spec, TreeOf(spec, name, t, items, r), t, items, a) <==> Wanted(spec, t, items, a)
    {
      AdmittedIffWanted(spec, name, t, items, r, a);
    }
  }

  /** The round trip: restoring a snapshot into an empty cluster creates exactly the wanted
      objects, each once and with its content. */
  lemma WantedAreRestored(spec: PreferenceSpec, rs: RestoreSpec, replies: Replies, t: Table, items: seq<Item>,
        r: Record, st: RestoreStatus)
    requires ClusterObjects(t, items) && OneClaimEach(spec, t, items)
    requires Welcomes(replies, spec, t, items, ItemsOf(PlanOf(spec, TreeOf(spec, rs.snapshotName, t, items, r))))
    ensures var flow :=
      RestoreResources(spec, rs, replies, ArchiveOf(rs.snapshotName, t, items, r), World(Cluster(map[], []), st));
            && flow.Go? && DistinctKeys(t, flow.world.cluster.log)
            && CreatesWanted(spec, t, items, flow.world.cluster.log)
  {
    OneClaimIsOneFile(spec, rs.snapshotName, t, items, r);
    RestoredExactly(spec, rs, replies, t, items, r, st);
    var log := RestoreResources(spec, rs, replies, ArchiveOf(rs.snapshotName, t, items, r),
      World(Cluster(map[], []), st)).world.cluster.log;
    hide *;
    ExactlyIsWanted(spec, rs.snapshotName, t, items, r, log);
  }

  /** For ordinary volumes without lookalikes: bound by an archived binding, no archived service of
      the key, a claim whose volumeName names an archived volume. */
  lemma NamedAreRestored(spec: PreferenceSpec, rs: RestoreSpec, replies: Replies, t: Table, items: seq<Item>,
        r: Record, st: RestoreStatus)
    requires ClusterObjects(t, items) && OneClaimEach(spec, t, items)
    requires OrdinaryVolumes(spec, t, items) && NoLookalikes(spec, t, items)
    requires Welcomes(replies, spec, t, items, ItemsOf(PlanOf(spec, TreeOf(spec, rs.snapshotName, t, items, r))))
    ensures var flow :=
      RestoreResources(spec, rs, replies, ArchiveOf(rs.snapshotName, t, items, r), World(Cluster(map[], []), st));
            && flow.Go?
            && forall a :: a in items ==>
                 CreatedIff(spec, t, flow.world.cluster.log, a, WantedByName(spec, t, items, a))
  {
    WantedAreRestored(spec, rs, replies, t, items, r, st);
    hide RestoreResources, ClusterObjects, OneClaimEach, Wanted, WantedByName, OrdinaryVolumes, NoLookalikes,
      CreatedIff, Welcomes, ArchiveOf, TreeOf, PlanOf, ItemsOf;
    forall a | a in items ensures Wanted(spec, t, items, a) <==> WantedByName(spec, t, items, a) {
      WantedIsByName(spec, t, items, a);
    }
  }

  /* ---- claims follow their volumes ---- */

  /** The i-th item is what restoring volume v creates, or what restoring claim c creates, directly
      after that volume. */
  predicate CreatedAt(created: seq<Item>, i: nat, c: Item, v: Item)
    requires i < |created|
  {
    || Recreated(PvDir, created[i], v)
    || (i > 0 && Recreated(PvDir, created[i - 1], v) && Recreated(PvcDir, created[i], c))
  }

  /** In the volume pass of any restore, whatever the target replied, each item created is the
      volume of a pair, or the claim of a pair directly after its volume. */
  lemma ClaimsFollowVolumes(spec: PreferenceSpec, name: string, t: Table, items: seq<Item>, r: Record,
        s: Segments, i: nat)
    requires ClusterObjects(t, items) && InPhases(spec, TreeOf(spec, name, t, items, r), s) && i < |s.pairs|
    ensures exists c, v :: Paired(spec, t, items, c, v) && CreatedAt(s.pairs, i, c, v)
  {
    hide EntryPath, Escape, Prefered, TreeOf, ClusterObjects, Paired, FileOf, IsClaim, VolumeFor, ClaimFor, Recreated,
      ListsOf, Restores;
    var tree := TreeOf(spec, name, t, items, r);
    var volumes, claims := FilesOf(tree, PvDir), FilesOf(tree, PvcDir);
    var ks :| Pairs(spec, volumes, claims, ks, s.pairs);
    assert PairAt(spec, volumes, claims, ks, s.pairs, i);
    var f := claims[ks[i]];
    assert f in claims;
    var c := ClaimFileIsItem(spec, name, t, items, r, f);
    if i > 0 && ks[i - 1] == ks[i] {
      var v := PairOfFile(spec, name, t, items, r, c, s.pairs[i - 1]);
      ClaimIsSame(t, c, s.pairs[i]);
    } else {
      var v := PairOfFile(spec, name, t, items, r, c, s.pairs[i]);
    }
  }

  lemma PairOfFile(spec: PreferenceSpec, name: string, t: Table, items: seq<Item>, r: Record, c: Item, item: Item)
    returns (v: Item)
    requires ClusterObjects(t, items) && IsClaim(spec, t, items, c)
    requires VolumeFor(spec, FilesOf(TreeOf(spec, name, t, items, r), PvDir), FileOf(t, c), item)
    ensures Paired(spec, t, items, c, v) && Recreated(PvDir, item, v)
  {
    hide EntryPath, Escape, Prefered, TreeOf, ClusterObjects, Paired, IsClaim, VolumeOf, Recreated, FreedVolume;
    var volumes := FilesOf(TreeOf(spec, name, t, items, r), PvDir);
    v := ChosenIsItem(spec, name, t, items, r, FileOf(t, c));
    BindableIffPaired(spec, name, t, items, r, c, v);
    assert LoadItem(FileOf(t, v)) == Ok(v);
    VolumeContent(v);
  }

  lemma ClaimIsSame(t: Table, c: Item, item: Item)
    requires ClaimFor(FileOf(t, c), item)
    ensures Recreated(PvcDir, item, c)
  {
    hide EntryPath, Escape, Recreated, FreedClaim;
    assert LoadItem(FileOf(t, c)) == Ok(c);
    ClaimContent(c);
  }

  /** So a claim that names an archived volume comes directly after the volume of that name. */
  lemma ClaimFollowsNamedVolume(spec: PreferenceSpec, name: string, t: Table, items: seq<Item>, r: Record,
        s: Segments, i: nat)
    requires ClusterObjects(t, items) && InPhases(spec, TreeOf(spec, name, t, items, r), s) && i < |s.pairs|
    requires OrdinaryVolumes(spec, t, items) && NoLookalikes(spec, t, items)
    ensures exists c, v :: NamesVolume(spec, t, items, c, v) && CreatedAt(s.pairs, i, c, v)
  {
    hide ClusterObjects, InPhases, TreeOf, OrdinaryVolumes, FirstToFit, VolumeWanted, EntryPath, Prefered;
    ClaimsFollowVolumes(spec, name, t, items, r, s, i);
    var c, v :| Paired(spec, t, items, c, v) && CreatedAt(s.pairs, i, c, v);
    FirstIsVolume(spec, t, items, c, v);
    PairedByName(spec, t, items, c, v);
  }
}
