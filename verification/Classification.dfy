/** Where archived items end up: the classification of restore_pref.go:42-98 on the paths that
    server_resources.go:55-74 and snapshot.go:272-290 build. */
module Classification {
  import opened Text
  import opened Objects
  import opened Resources
  import opened Paths
  import opened RestorePreference
  import opened ApiPatterns

  /** The path of an archived item once the snapshot name is stripped. */
  function EntryPath(t: Table, item: Item): string {
    ArchivePathWith(item, PathOrEmpty(t, item)) + ".json"
  }

  predicate TopLevel(item: Item) { item.kind in {"Namespace", "CustomResourceDefinition"} }

  lemma PathWithJson(item: Item, resource: string)
    ensures PathWith(item, resource) + ".json" == PathWith(item.(name := item.name + ".json"), resource)
  {
    var base := GroupPath(item) + NamespacePath(item) + "/" + resource + "/";
    assert base + item.name + ".json" == base + (item.name + ".json");
  }

  lemma SlashFreeJson(item: Item, resource: string)
    ensures SlashFree(item, resource) ==> SlashFree(item.(name := item.name + ".json"), resource)
  {}

  /** A substring "/x/" of an item's path is one of its segments: of the API version, the word
      namespaces, the namespace or the resource. */
  lemma EntryHasSegment(item: Item, resource: string, x: string)
    requires SlashFree(item, resource) && Free(x, '/')
    ensures Contains(PathWith(item, resource) + ".json", "/" + x + "/") <==>
      x in GroupSegments(item) || (item.namespace != "" && (x == "namespaces" || x == item.namespace)) || x == resource
  {
    var item' := item.(name := item.name + ".json");
    SlashFreeJson(item, resource);
    hide Contains, JoinPath, Split, PathWith, Free;
    PathWithJson(item, resource);
    PathComponents(item', resource);
    var cs := Components(item', resource);
    ContainsSegment(cs, x);
    hide GroupSegments;
    SegmentsIn(GroupSegments(item), NamespaceSegments(item), resource, item'.name, x);
  }

  lemma SegmentsIn(g: seq<string>, n: seq<string>, a: string, b: string, x: string)
    ensures var cs := g + n + [a, b]; (exists i :: 0 <= i < |cs| - 1 && cs[i] == x) <==> x in g || x in n || x == a
  {
    var cs := g + n + [a, b];
    if x in g {
      var i :| 0 <= i < |g| && g[i] == x;
      assert cs[i] == x;
    }
    if x in n {
      var i :| 0 <= i < |n| && n[i] == x;
      assert cs[|g| + i] == x;
    }
    assert cs[|g| + |n|] == a;
  }

  /** The path of an item that is not stored on the top level. */
  lemma DeepPath(t: Table, item: Item)
    requires Addressable(t, item) && !TopLevel(item)
    ensures EntryPath(t, item) == PathWith(item, ResourceOf(t, item).value) + ".json"
    ensures !("/namespaces/" <= EntryPath(t, item)) && !("/crds/" <= EntryPath(t, item))
  {
    hide ResourceOf, Split;
    var p := PathWith(item, ResourceOf(t, item).value);
    assert GroupPath(item) <= p;
    assert GroupPath(item) <= p + ".json";
    GroupPathStart(item, p + ".json");
  }

  /* ---- namespaces ---- */

  lemma NamespaceInPath(item: Item, resource: string)
    requires item.namespace != ""
    ensures Contains(PathWith(item, resource) + ".json", "namespaces/" + item.namespace)
  {
    var a, b, c := GroupPath(item) + "/", "namespaces/" + item.namespace, "/" + resource + "/" + item.name + ".json";
    assert GroupPath(item) + ("/namespaces/" + item.namespace) == a + b;
    assert PathWith(item, resource) + ".json" == a + b + c;
    ContainsMiddle(a, b, c);
  }

  /** An object of an excluded namespace is dropped, exactly unless its kind is called Namespace
      or CustomResourceDefinition (in some group that serves such a kind per namespace) and its
      top-level path is not excluded. */
  lemma ExcludedNamespaceDropped(spec: PreferenceSpec, t: Table, item: Item)
    requires Addressable(t, item) && item.namespace != "" && item.namespace in spec.excludeNamespaces
    ensures Prefered(spec, EntryPath(t, item)) == Exclude <==>
      match item.kind
      case "Namespace" => Mentions("/namespaces/" + item.name + ".json", "", spec.excludeNamespaces)
      case "CustomResourceDefinition" => Mentions("/crds/" + item.name + ".json", "", spec.excludeCRDs)
      case _ => true
  {
    hide Contains, MatchesAny, ResourceOf;
    if TopLevel(item) {
      TopLevelPath(t, item);
      MentionMeans(EntryPath(t, item), "", spec.excludeNamespaces);
      MentionMeans(EntryPath(t, item), "", spec.excludeCRDs);
    } else {
      DeepPath(t, item);
      NamespaceInPath(item, ResourceOf(t, item).value);
    }
  }

  lemma TopLevelPath(t: Table, item: Item)
    requires TopLevel(item)
    ensures item.kind == "Namespace" ==>
      EntryPath(t, item) == "/namespaces/" + item.name + ".json" && "/namespaces/" <= EntryPath(t, item)
    ensures item.kind == "CustomResourceDefinition" ==>
      EntryPath(t, item) == "/crds/" + item.name + ".json" &&
        "/crds/" <= EntryPath(t, item) && !("/namespaces/" <= EntryPath(t, item))
  {
    hide PathOrEmpty;
    if item.kind == "CustomResourceDefinition" { assert EntryPath(t, item)[1] == 'c' && "/namespaces/"[1] == 'n'; }
  }

  /** A Namespace object goes to the namespaces, unless its file name contains an excluded name;
      then, and in particular if its own name is excluded, it is dropped. */
  lemma NamespaceObject(spec: PreferenceSpec, t: Table, item: Item)
    requires item.kind == "Namespace"
    ensures Prefered(spec, EntryPath(t, item)) ==
      if Mentions("/namespaces/" + item.name + ".json", "", spec.excludeNamespaces) then Exclude else NamespaceDir
    ensures item.name in spec.excludeNamespaces ==> Prefered(spec, EntryPath(t, item)) == Exclude
  {
    TopLevelPath(t, item);
    MentionMeans(EntryPath(t, item), "", spec.excludeNamespaces);
    if item.name in spec.excludeNamespaces {
      ContainsMiddle("/namespaces/", item.name, ".json");
      assert "" + item.name == item.name;
    }
  }

  /** A CRD goes to the CRDs, unless its file name contains a name that is excluded for CRDs. */
  lemma CrdObject(spec: PreferenceSpec, t: Table, item: Item)
    requires item.kind == "CustomResourceDefinition"
    ensures Prefered(spec, EntryPath(t, item)) ==
      if Mentions("/crds/" + item.name + ".json", "", spec.excludeCRDs) then Exclude else CrdDir
    ensures item.name in spec.excludeCRDs ==> Prefered(spec, EntryPath(t, item)) == Exclude
  {
    TopLevelPath(t, item);
    MentionMeans(EntryPath(t, item), "", spec.excludeCRDs);
    if item.name in spec.excludeCRDs {
      ContainsMiddle("/crds/", item.name, ".json");
      assert "" + item.name == item.name;
    }
  }

  /** What the discovery filter keeps of a group with one usable kind, and what it serves. */
  lemma OneKindGroup(resource: string, item: Item) returns (t: Table)
    requires ParseGroupVersion(item.apiVersion).Some? && SlashFree(item, resource)
    ensures t == [APIResourceList(item.apiVersion, [APIResource(resource, item.kind, USED_VERBS)])]
    ensures FilteredBy(t) == t && ResourceOf(t, item) == Ok(resource) && Addressable(t, item)
  {
    hide ParseGroupVersion, Free;
    var r := APIResource(resource, item.kind, USED_VERBS);
    t := [APIResourceList(item.apiVersion, [r])];
    KeptGroup(item.apiVersion, r, []);
    assert t + [] == t;
    FillOneGroup(map[], item.apiVersion, r, []);
  }

  /** The exception is real: an object of an excluded namespace, of a kind that another group
      serves and that the discovery filter keeps, is extracted and restored as if it were a CRD. */
  lemma ForeignKindEscapes(g: string, v: string, resource: string, namespace: string, name: string)
    requires g != "" && Free(g, '/') && Free(v, '/') && Free(resource, '/')
    requires namespace != "" && Free(namespace, '/') && Free(name, '/')
    ensures exists spec: PreferenceSpec, discovered: Table, item: Item ::
      var t := FilteredBy(discovered);
      && Addressable(t, item) && item.apiVersion == g + "/" + v && ResourceOf(t, item) == Ok(resource)
      && item.namespace == namespace && item.name == name && namespace in spec.excludeNamespaces
      && Prefered(spec, EntryPath(t, item)) == CrdDir
  {
    var spec := PreferenceSpec([namespace], [], [], [], []);
    var item := Item(g + "/" + v, "CustomResourceDefinition", namespace, name, "1", "u", [], map[], map[]);
    GroupVersionParses(g, v, "");
    var t := OneKindGroup(resource, item);
    TopLevelPath(t, item);
    hide Contains, Addressable, FilteredBy, EntryPath, ResourceOf;
    assert Prefered(spec, EntryPath(t, item)) == CrdDir;
  }

  /* ---- volumes and claims ---- */

  /** A pattern of excludeApiPathes fits the path, or it contains "namespaces/" and then the
      beginning of an excluded name. */
  predicate DroppedByPath(spec: PreferenceSpec, path: string) {
    FitsAny(path, spec.excludeApiPathes) || Mentions(path, "namespaces/", spec.excludeNamespaces)
  }

  const CLAIMS: string := "persistentvolumeclaims"
  const VOLUMES: string := "persistentvolumes"

  /** The word is a part of the item's API version, its namespace or its resource. */
  predicate Shows(t: Table, item: Item, word: string) {
    word in GroupSegments(item) || item.namespace == word || ResourceOf(t, item) == Ok(word)
  }

  lemma ShowsSegment(t: Table, item: Item, word: string)
    requires Addressable(t, item) && !TopLevel(item) && Free(word, '/') && word != "" && word != "namespaces"
    ensures Contains(EntryPath(t, item), "/" + word + "/") <==> Shows(t, item, word)
  {
    hide Contains, ResourceOf, GroupSegments, Free, PathWith;
    DeepPath(t, item);
    EntryHasSegment(item, ResourceOf(t, item).value, word);
  }

  /** Where an item below the top level is extracted to: it is dropped by its path, or its segments
      decide, or it belongs to the apps when a pattern of restoreAppApiPathes fits. */
  lemma ItemPlace(spec: PreferenceSpec, t: Table, item: Item)
    requires Addressable(t, item) && !TopLevel(item)
    ensures var p := EntryPath(t, item);
            Prefered(spec, p) ==
              if DroppedByPath(spec, p) then Exclude
              else if Shows(t, item, "storageclasses") then
                (if Mentions(p, "storageclasses/", spec.restoreNfsStorageClasses) then RestoreDir else Exclude)
              else if Shows(t, item, "persistentvolumes") then PvDir
              else if Shows(t, item, "persistentvolumeclaims") then PvcDir
              else if FitsAny(p, spec.restoreAppApiPathes) then AppDir
              else RestoreDir
  {
    DeepPath(t, item);
    SlashFreeWords();
    assert |"storageclasses"| == 14 && |VOLUMES| == 17 && |CLAIMS| == 22 && |"namespaces"| == 10;
    hide Contains, FitsAny, Mentions, ResourceOf, EntryPath, PathWith, SlashFree, Free, Prefered, Addressable,
      Shows;
    ShowsSegment(t, item, "storageclasses");
    ShowsSegment(t, item, VOLUMES);
    ShowsSegment(t, item, CLAIMS);
    DeepClass(spec, EntryPath(t, item));
  }

  lemma CoreShows(t: Table, item: Item, word: string)
    requires item.apiVersion == "v1" && |word| > 10
    ensures Shows(t, item, word) <==> item.namespace == word || ResourceOf(t, item) == Ok(word)
  {
    assert GroupSegments(item) == ["api", "v1"];
    assert |"api"| == 3 && |"v1"| == 2;
  }

  /** Where an item of the core group is extracted to, by resource and namespace. */
  lemma CoreItemPlace(spec: PreferenceSpec, t: Table, item: Item)
    requires Addressable(t, item) && !TopLevel(item) && item.apiVersion == "v1"
    ensures var p, r := EntryPath(t, item), ResourceOf(t, item).value;
            Prefered(spec, p) ==
              if DroppedByPath(spec, p) then Exclude
              else if r == "storageclasses" || item.namespace == "storageclasses" then
                (if Mentions(p, "storageclasses/", spec.restoreNfsStorageClasses) then RestoreDir else Exclude)
              else if r == VOLUMES || item.namespace == VOLUMES then PvDir
              else if r == CLAIMS || item.namespace == CLAIMS then PvcDir
              else if FitsAny(p, spec.restoreAppApiPathes) then AppDir
              else RestoreDir
  {
    ItemPlace(spec, t, item);
    assert |"storageclasses"| == 14 && |VOLUMES| == 17 && |CLAIMS| == 22;
    CoreShows(t, item, "storageclasses");
    CoreShows(t, item, VOLUMES);
    CoreShows(t, item, CLAIMS);
    hide Shows, FitsAny, Mentions, ResourceOf, EntryPath, Prefered;
  }

  lemma SlashFreeWords()
    ensures Free("storageclasses", '/') && Free(VOLUMES, '/') && Free(CLAIMS, '/')
    ensures "/" + "storageclasses" + "/" == "/storageclasses/" && "/" + VOLUMES + "/" == "/persistentvolumes/"
    ensures "/" + CLAIMS + "/" == "/persistentvolumeclaims/"
  {}

  /** The classification below the two top-level prefixes. */
  lemma DeepClass(spec: PreferenceSpec, p: string)
    requires !("/namespaces/" <= p) && !("/crds/" <= p)
    ensures Prefered(spec, p) ==
      if DroppedByPath(spec, p) then Exclude
      else if Contains(p, "/storageclasses/")
        then (if Mentions(p, "storageclasses/", spec.restoreNfsStorageClasses) then RestoreDir else Exclude)
      else if Contains(p, "/persistentvolumes/") then PvDir
      else if Contains(p, "/persistentvolumeclaims/") then PvcDir
      else if FitsAny(p, spec.restoreAppApiPathes) then AppDir
      else RestoreDir
  {
    hide Contains, MatchesAny, ContainsAny, FitsAny, Mentions;
    AnyMeans(p, spec.excludeApiPathes);
    AnyMeans(p, spec.restoreAppApiPathes);
    MentionMeans(p, "namespaces/", spec.excludeNamespaces);
    MentionMeans(p, "storageclasses/", spec.restoreNfsStorageClasses);
  }

  /** A claim never lands among the apps, namespaces or CRDs, and among the other resources only
      if its namespace is called storageclasses and the path names a class to restore. */
  lemma ClaimPlace(spec: PreferenceSpec, t: Table, item: Item)
    requires Addressable(t, item) && item.kind == "PersistentVolumeClaim" && item.apiVersion == "v1"
    requires ResourceOf(t, item).value == CLAIMS
    ensures var p, d := EntryPath(t, item), Prefered(spec, EntryPath(t, item));
            && d in {Exclude, PvDir, PvcDir, RestoreDir}
            && (d == RestoreDir <==>
                  !DroppedByPath(spec, p) && item.namespace == "storageclasses" &&
                    Mentions(p, "storageclasses/", spec.restoreNfsStorageClasses))
            && (d == PvcDir <==> !DroppedByPath(spec, p) && item.namespace !in {"storageclasses", VOLUMES})
  {
    CoreItemPlace(spec, t, item);
    hide Prefered, Contains, FitsAny, Mentions, ResourceOf, EntryPath;
    assert |"storageclasses"| == 14 && |VOLUMES| == 17 && |CLAIMS| == 22;
  }

  /** A volume is dropped or extracted as a volume. */
  lemma VolumePlace(spec: PreferenceSpec, t: Table, item: Item)
    requires Addressable(t, item) && item.kind == "PersistentVolume" && item.apiVersion == "v1"
    requires item.namespace == "" && ResourceOf(t, item).value == VOLUMES
    ensures Prefered(spec, EntryPath(t, item)) == if DroppedByPath(spec, EntryPath(t, item)) then Exclude else PvDir
  {
    CoreItemPlace(spec, t, item);
    hide Prefered, Contains, FitsAny, Mentions, ResourceOf, EntryPath;
    assert |"storageclasses"| == 14 && |VOLUMES| == 17 && |CLAIMS| == 22;
  }
}
