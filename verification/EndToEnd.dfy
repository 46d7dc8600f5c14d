/** From snapshot to restored cluster: what is created, exactly, when an archived snapshot is
    restored into an empty cluster that admits every object and binds every volume
    (snapshot.go:272-306, restore.go:266-357, restore_pref.go:42-98, restore_pv.go:48-176). */
module EndToEnd {
  import opened Text
  import opened Objects
  import opened Resources
  import opened RestorePreference
  import opened RestorePipeline

  /* ---- the plan ---- */

  /** An item to create, and the extracted file it comes from. */
  datatype Planned = Planned(d: Dir, f: File, item: Item)

  function ItemsOf(plan: seq<Planned>): seq<Item> {
    seq(|plan|, i requires 0 <= i < |plan| => plan[i].item)
  }

  predicate Unobstructed(lists: Lists, f: File) {
    LoadItem(f).Ok? && ObstacleOf(lists, LoadItem(f).value).Clear?
  }

  /** The files of a directory that no rule holds back. */
  function Kept(lists: Lists, d: Dir, files: Folder): seq<Planned> {
    if files == [] then []
    else
      var f := files[|files| - 1];
      Kept(lists, d, files[..|files| - 1]) +
      if Unobstructed(lists, f) then [Planned(d, f, StripServerFields(LoadItem(f).value))] else []
  }

  /** The claim can be restored, with the volume of that file. */
  predicate Bindable(spec: PreferenceSpec, volumes: Folder, f: File) {
    LoadItem(f).Ok? &&
    (var pvFile := VolumeOf(spec, volumes, LoadItem(f).value).1;
     pvFile.Some? && LoadItem(pvFile.value).Ok? && GetMap(LoadItem(pvFile.value).value.fields, "spec").Some?)
  }

  function ChosenVolume(spec: PreferenceSpec, volumes: Folder, f: File): File
    requires Bindable(spec, volumes, f)
  {
    VolumeOf(spec, volumes, LoadItem(f).value).1.value
  }

  function PairOf(spec: PreferenceSpec, volumes: Folder, f: File): seq<Planned> {
    if !Bindable(spec, volumes, f) then []
    else
      var pvFile, pvc := ChosenVolume(spec, volumes, f), LoadItem(f).value;
      var pv := LoadItem(pvFile).value;
      [Planned(PvDir, pvFile, FreedVolume(pv, GetMap(pv.fields, "spec").value)),
       Planned(PvcDir, f, FreedClaim(pvc, GetMap(pvc.fields, "spec").value))]
  }

  function PairsOf(spec: PreferenceSpec, volumes: Folder, claims: Folder): seq<Planned> {
    if claims == [] then []
    else PairsOf(spec, volumes, claims[..|claims| - 1]) + PairOf(spec, volumes, claims[|claims| - 1])
  }

  /** Everything that is to be created, in order. */
  function PlanOf(spec: PreferenceSpec, tree: Tree): seq<Planned> {
    var lists := ListsOf(spec, tree);
    Kept(lists, NamespaceDir, FilesOf(tree, NamespaceDir)) + Kept(lists, CrdDir, FilesOf(tree, CrdDir))
    + (if PvDir in tree && PvcDir in tree then PairsOf(spec, tree[PvDir], tree[PvcDir]) else [])
    + Kept(lists, RestoreDir, FilesOf(tree, RestoreDir)) + Kept(lists, AppDir, FilesOf(tree, AppDir))
  }

  /* ---- creating a plan whose keys are all different ---- */

  predicate DistinctKeys(t: Table, items: seq<Item>) {
    && (forall i :: 0 <= i < |items| ==> KeyOf(t, items[i]).Ok?)
    && (forall i, j :: 0 <= i < j < |items| ==> KeyOf(t, items[i]) != KeyOf(t, items[j]))
  }

  /** The cluster holds what has been created and nothing else. */
  ghost predicate Exact(t: Table, c: Cluster) {
    && (forall key :: key in c.objects ==> exists i :: 0 <= i < |c.log| && KeyOf(t, c.log[i]) == Ok(key))
    && forall i :: 0 <= i < |c.log| ==> KeyOf(t, c.log[i]).Ok? && KeyOf(t, c.log[i]).value in c.objects
  }

  predicate AdmitsAll(admits: Item -> Option<string>, items: seq<Item>) {
    forall item :: item in items ==> admits(item).None?
  }

  lemma DistinctPrefixKeys(t: Table, a: seq<Item>, b: seq<Item>)
    requires DistinctKeys(t, a + b)
    ensures DistinctKeys(t, a)
  {
    hide KeyOf;
    assert forall i :: 0 <= i < |a| ==> (a + b)[i] == a[i];
  }

  lemma CreateFresh(t: Table, c: Cluster, admits: Item -> Option<string>, item: Item)
    requires Exact(t, c) && DistinctKeys(t, c.log + [item]) && admits(item).None?
    ensures var (c', error) := CreateItem(c, admits, t, item);
            error.None? && c'.log == c.log + [item] && Exact(t, c')
  {
    hide KeyOf;
    var log' := c.log + [item];
    assert log'[|c.log|] == item;
    var key := KeyOf(t, item).value;
    assert forall i :: 0 <= i < |c.log| ==> log'[i] == c.log[i];
    assert key !in c.objects;
    var c' := Cluster(c.objects[key := item], log');
    forall k | k in c'.objects ensures exists i :: 0 <= i < |log'| && KeyOf(t, log'[i]) == Ok(k) {
      if k == key {
        assert KeyOf(t, log'[|c.log|]) == Ok(k);
      } else {
        var i :| 0 <= i < |c.log| && KeyOf(t, c.log[i]) == Ok(k);
        assert log'[i] == c.log[i];
      }
    }
  }

  /** Every file is an item the cluster can address. */
  predicate Loads(t: Table, files: Folder) {
    forall f :: f in files ==> LoadItem(f).Ok? && PathOf(t, LoadItem(f).value).Ok?
  }

  lemma LoadsPrefix(t: Table, files: Folder)
    requires Loads(t, files) && files != []
    ensures Loads(t, files[..|files| - 1]) && LoadItem(files[|files| - 1]).Ok?
    ensures PathOf(t, LoadItem(files[|files| - 1]).value).Ok?
  {
    hide PathOf;
  }

  lemma ItemsOfAppend(a: seq<Planned>, b: seq<Planned>)
    ensures ItemsOf(a + b) == ItemsOf(a) + ItemsOf(b)
  {}

  lemma {:induction false} FolderCreates(lists: Lists, t: Table,
        admits: Item -> Option<string>, w: World, d: Dir, files: Folder)
    requires Loads(t, files) && Exact(t, w.cluster)
    requires DistinctKeys(t, w.cluster.log + ItemsOf(Kept(lists, d, files)))
    requires AdmitsAll(admits, ItemsOf(Kept(lists, d, files)))
    ensures var flow := RestoreFolder(lists, t, admits, w, files);
            flow.Go? && flow.world.cluster.log == w.cluster.log + ItemsOf(Kept(lists, d, files)) &&
              Exact(t, flow.world.cluster)
  {
    hide PathOf, Exact, DistinctKeys, CreateItem, Reported, ObstacleOf, Loads;
    if files != [] {
      var n := |files| - 1;
      var f, kept := files[n], Kept(lists, d, files[..n]);
      var more := if Unobstructed(lists, f) then [Planned(d, f, StripServerFields(LoadItem(f).value))] else [];
      ItemsOfAppend(kept, more);
      assert w.cluster.log + ItemsOf(kept + more) == (w.cluster.log + ItemsOf(kept)) + ItemsOf(more);
      DistinctPrefixKeys(t, w.cluster.log + ItemsOf(kept), ItemsOf(more));
      LoadsPrefix(t, files);
      FolderCreates(lists, t, admits, w, d, files[..n]);
      if Unobstructed(lists, f) {
        assert ItemsOf(more) == [more[0].item];
        assert more[0].item in ItemsOf(kept + more);
        CreateFresh(t, RestoreFolder(lists, t, admits, w, files[..n]).world.cluster, admits, more[0].item);
      }
    }
  }

  lemma PairCreates(spec: PreferenceSpec, t: Table, replies: Replies, volumes: Folder, w: World, f: File)
    requires LoadItem(f).Ok? && PathOf(t, LoadItem(f).value).Ok? && Loads(t, volumes) && Exact(t, w.cluster)
    requires DistinctKeys(t, w.cluster.log + ItemsOf(PairOf(spec, volumes, f)))
    requires AdmitsAll(replies.admits, ItemsOf(PairOf(spec, volumes, f)))
    requires forall name :: WaitError(replies.poll, name, 0).None?
    ensures var flow := RestoreClaimFile(spec, t, replies, volumes, w, f);
            flow.Go? && flow.world.cluster.log == w.cluster.log + ItemsOf(PairOf(spec, volumes, f)) &&
              Exact(t, flow.world.cluster)
  {
    hide PathOf, Exact, DistinctKeys, CreateItem, Reported, WaitError, FreedVolume, FreedClaim;
    var pvc, pair := LoadItem(f).value, PairOf(spec, volumes, f);
    var pvFile := VolumeOf(spec, volumes, pvc).1;
    if pvFile.Some? {
      assert pvFile.value in volumes by { ChosenIsListed(spec, volumes, pvc); }
      if Bindable(spec, volumes, f) {
        var volume, claim := pair[0].item, pair[1].item;
        assert ItemsOf(pair) == [volume, claim];
        assert volume in ItemsOf(pair) && claim in ItemsOf(pair);
        assert w.cluster.log + [volume, claim] == (w.cluster.log + [volume]) + [claim];
        DistinctPrefixKeys(t, w.cluster.log + [volume], [claim]);
        CreateFresh(t, w.cluster, replies.admits, volume);
        CreateFresh(t, CreateItem(w.cluster, replies.admits, t, volume).0, replies.admits, claim);
      }
    }
  }

  lemma ChosenIsListed(spec: PreferenceSpec, volumes: Folder, pvc: Item)
    requires VolumeOf(spec, volumes, pvc).1.Some?
    ensures VolumeOf(spec, volumes, pvc).1.value in volumes
  {}

  lemma {:induction false} ClaimsCreate(spec: PreferenceSpec, t: Table, replies: Replies, volumes: Folder,
        w: World, claims: Folder)
    requires Loads(t, claims) && Loads(t, volumes) && Exact(t, w.cluster)
    requires DistinctKeys(t, w.cluster.log + ItemsOf(PairsOf(spec, volumes, claims)))
    requires AdmitsAll(replies.admits, ItemsOf(PairsOf(spec, volumes, claims)))
    requires forall name :: WaitError(replies.poll, name, 0).None?
    ensures var flow := RestoreClaims(spec, t, replies, volumes, w, claims);
            flow.Go? && flow.world.cluster.log == w.cluster.log + ItemsOf(PairsOf(spec, volumes, claims)) &&
              Exact(t, flow.world.cluster)
  {
    hide PathOf, Exact, DistinctKeys, RestoreClaimFile, PairOf, WaitError, Loads;
    if claims != [] {
      var n := |claims| - 1;
      var pairs, more := PairsOf(spec, volumes, claims[..n]), PairOf(spec, volumes, claims[n]);
      ItemsOfAppend(pairs, more);
      assert w.cluster.log + ItemsOf(pairs + more) == (w.cluster.log + ItemsOf(pairs)) + ItemsOf(more);
      DistinctPrefixKeys(t, w.cluster.log + ItemsOf(pairs), ItemsOf(more));
      LoadsPrefix(t, claims);
      ClaimsCreate(spec, t, replies, volumes, w, claims[..n]);
      PairCreates(spec, t, replies, volumes, RestoreClaims(spec, t, replies, volumes, w, claims[..n]).world, claims[n]);
    }
  }

  /* ---- the whole restore ---- */

  /** Both tables name the resource of the item's kind alike. */
  predicate NamesAlike(t: Table, t': Table, item: Item) { ResourceOf(t, item) == ResourceOf(t', item) }

  predicate FilesAlike(t: Table, t': Table, files: Folder) {
    forall f :: f in files && LoadItem(f).Ok? ==> NamesAlike(t, t', LoadItem(f).value)
  }

  /** The target replies; before the CRDs are restored it serves the archived namespaces and CRDs,
      and from then on everything else that is archived, under the resource names of table t. */
  predicate Serves(replies: Replies, t: Table, tree: Tree) {
    && replies.discovery.Ok? && replies.rediscovery.Ok? && replies.marker.Ok?
    && var (first, second) := (FilteredBy(replies.discovery.value), FilteredBy(replies.rediscovery.value));
    && FilesAlike(first, t, FilesOf(tree, NamespaceDir)) && FilesAlike(first, t, FilesOf(tree, CrdDir))
    && FilesAlike(second, t, FilesOf(tree, PvDir)) && FilesAlike(second, t, FilesOf(tree, PvcDir))
    && FilesAlike(second, t, FilesOf(tree, RestoreDir)) && FilesAlike(second, t, FilesOf(tree, AppDir))
  }

  /** It also admits these items and binds every volume. */
  ghost predicate Accepting(replies: Replies, t: Table, tree: Tree, items: seq<Item>) {
    && Serves(replies, t, tree) && AdmitsAll(replies.admits, items)
    && forall name :: WaitError(replies.poll, name, 0).None?
  }

  /* ---- tables that name resources alike ---- */

  lemma SameCreate(t: Table, t': Table, c: Cluster, admits: Item -> Option<string>, a: Item, item: Item)
    requires NamesAlike(t, t', a) && item.apiVersion == a.apiVersion && item.kind == a.kind
    ensures KeyOf(t, item) == KeyOf(t', item) && PathOf(t, item) == PathOf(t', item)
    ensures CreateItem(c, admits, t, item) == CreateItem(c, admits, t', item)
  {
    hide ParseGroupVersion, Uncached;
  }

  lemma SameFile(lists: Lists, t: Table, t': Table, admits: Item -> Option<string>, w: World, f: File)
    requires LoadItem(f).Ok? ==> NamesAlike(t, t', LoadItem(f).value)
    ensures RestoreFile(lists, t, admits, w, f) == RestoreFile(lists, t', admits, w, f)
  {
    hide CreateItem, PathOf, Reported, ResourceOf;
    if LoadItem(f).Ok? {
      var item := LoadItem(f).value;
      SameCreate(t, t', w.cluster, admits, item, item);
      SameCreate(t, t', w.cluster, admits, item, StripServerFields(item));
    }
  }

  lemma {:induction false} SameFolder(lists: Lists, t: Table, t': Table, admits: Item -> Option<string>,
        w: World, files: Folder)
    requires FilesAlike(t, t', files)
    ensures RestoreFolder(lists, t, admits, w, files) == RestoreFolder(lists, t', admits, w, files)
  {
    hide RestoreFile, NamesAlike;
    if files != [] {
      var n := |files| - 1;
      SameFolder(lists, t, t', admits, w, files[..n]);
      var before := RestoreFolder(lists, t, admits, w, files[..n]);
      assert files[n] in files;
      if before.Go? { SameFile(lists, t, t', admits, before.world, files[n]); }
    }
  }

  lemma SamePair(spec: PreferenceSpec, t: Table, t': Table, replies: Replies, volumes: Folder, w: World, f: File)
    requires FilesAlike(t, t', volumes) && (LoadItem(f).Ok? ==> NamesAlike(t, t', LoadItem(f).value))
    ensures RestoreClaimFile(spec, t, replies, volumes, w, f) == RestoreClaimFile(spec, t', replies, volumes, w, f)
  {
    hide CreateItem, PathOf, Reported, ResourceOf, WaitError;
    if LoadItem(f).Ok? {
      var pvc := LoadItem(f).value;
      SameCreate(t, t', w.cluster, replies.admits, pvc, pvc);
      var choice := VolumeOf(spec, volumes, pvc);
      if choice.1.Some? {
        ChosenIsListed(spec, volumes, pvc);
        if LoadItem(choice.1.value).Ok? {
          var pv, pvcSpec := LoadItem(choice.1.value).value, GetMap(pvc.fields, "spec").value;
          SameCreate(t, t', w.cluster, replies.admits, pv, pv);
          if GetMap(pv.fields, "spec").Some? {
            var volume := FreedVolume(pv, GetMap(pv.fields, "spec").value);
            SameCreate(t, t', w.cluster, replies.admits, pv, volume);
            var cluster := CreateItem(w.cluster, replies.admits, t, volume).0;
            SameCreate(t, t', cluster, replies.admits, pvc, FreedClaim(pvc, pvcSpec));
          }
        }
      }
    }
  }

  lemma {:induction false} SameClaims(spec: PreferenceSpec, t: Table, t': Table, replies: Replies, volumes: Folder,
        w: World, claims: Folder)
    requires FilesAlike(t, t', volumes) && FilesAlike(t, t', claims)
    ensures RestoreClaims(spec, t, replies, volumes, w, claims) == RestoreClaims(spec, t', replies, volumes, w, claims)
  {
    hide RestoreClaimFile, NamesAlike;
    if claims != [] {
      var n := |claims| - 1;
      SameClaims(spec, t, t', replies, volumes, w, claims[..n]);
      var before := RestoreClaims(spec, t, replies, volumes, w, claims[..n]);
      assert claims[n] in claims;
      if before.Go? { SamePair(spec, t, t', replies, volumes, before.world, claims[n]); }
    }
  }

  lemma SameDirPhase(lists: Lists, t: Table, t': Table, replies: Replies, flow: Flow, tree: Tree, d: Dir)
    requires FilesAlike(t, t', FilesOf(tree, d))
    ensures DirPhase(lists, t, replies, flow, tree, d) == DirPhase(lists, t', replies, flow, tree, d)
  {
    hide RestoreFolder, FilesAlike;
    if flow.Go? && d in tree { SameFolder(lists, t, t', replies.admits, flow.world, tree[d]); }
  }

  lemma SamePvPhase(spec: PreferenceSpec, t: Table, t': Table, replies: Replies, flow: Flow, tree: Tree)
    requires FilesAlike(t, t', FilesOf(tree, PvDir)) && FilesAlike(t, t', FilesOf(tree, PvcDir))
    ensures PvPhase(spec, t, replies, flow, tree) == PvPhase(spec, t', replies, flow, tree)
  {
    hide RestoreClaims, FilesAlike;
    if flow.Go? && PvDir in tree && PvcDir in tree {
      SameClaims(spec, t, t', replies, tree[PvDir], flow.world, tree[PvcDir]);
    }
  }

  /* ---- the phases ---- */

  ghost predicate TreeLoads(t: Table, tree: Tree) {
    forall d :: Loads(t, FilesOf(tree, d))
  }

  /** The flow goes on and has created this. */
  ghost predicate HasCreated(t: Table, flow: Flow, log: seq<Item>) {
    flow.Go? && flow.world.cluster.log == log && Exact(t, flow.world.cluster)
  }

  lemma DirPhaseCreates(lists: Lists, t: Table, replies: Replies, flow: Flow, tree: Tree, d: Dir,
        log: seq<Item>, rest: seq<Item>)
    requires TreeLoads(t, tree) && HasCreated(t, flow, log)
    requires DistinctKeys(t, log + ItemsOf(Kept(lists, d, FilesOf(tree, d))) + rest)
    requires AdmitsAll(replies.admits, ItemsOf(Kept(lists, d, FilesOf(tree, d))))
    ensures HasCreated(t, DirPhase(lists, t, replies, flow, tree, d), log + ItemsOf(Kept(lists, d, FilesOf(tree, d))))
  {
    hide DistinctKeys, Exact, RestoreFolder, Loads, KeyOf;
    DistinctPrefixKeys(t, log + ItemsOf(Kept(lists, d, FilesOf(tree, d))), rest);
    assert Loads(t, FilesOf(tree, d));
    if d in tree {
      FolderCreates(lists, t, replies.admits, flow.world, d, tree[d]);
    } else {
      assert log + ItemsOf(Kept(lists, d, [])) == log;
    }
  }

  lemma PvPhaseCreates(spec: PreferenceSpec, t: Table, replies: Replies, flow: Flow, tree: Tree, log: seq<Item>,
        pairs: seq<Planned>, rest: seq<Item>)
    requires TreeLoads(t, tree) && HasCreated(t, flow, log)
    requires pairs == if PvDir in tree && PvcDir in tree then PairsOf(spec, tree[PvDir], tree[PvcDir]) else []
    requires DistinctKeys(t, log + ItemsOf(pairs) + rest) && AdmitsAll(replies.admits, ItemsOf(pairs))
    requires forall name :: WaitError(replies.poll, name, 0).None?
    ensures HasCreated(t, PvPhase(spec, t, replies, flow, tree), log + ItemsOf(pairs))
  {
    hide DistinctKeys, Exact, RestoreClaims, Loads, KeyOf, WaitError, PairsOf;
    DistinctPrefixKeys(t, log + ItemsOf(pairs), rest);
    assert Loads(t, FilesOf(tree, PvDir)) && Loads(t, FilesOf(tree, PvcDir));
    if PvDir in tree && PvcDir in tree {
      ClaimsCreate(spec, t, replies, tree[PvDir], flow.world, tree[PvcDir]);
    } else {
      assert log + ItemsOf([]) == log;
    }
  }

  lemma AdmitsParts(admits: Item -> Option<string>, a: seq<Planned>, b: seq<Planned>)
    requires AdmitsAll(admits, ItemsOf(a + b))
    ensures AdmitsAll(admits, ItemsOf(a)) && AdmitsAll(admits, ItemsOf(b))
  {
    ItemsOfAppend(a, b);
  }

  /** From a cluster that holds what was created before, the phases create the plan. */
  lemma PhasesCreate(spec: PreferenceSpec, t: Table, replies: Replies, w: World, tree: Tree)
    requires TreeLoads(t, tree) && Exact(t, w.cluster) && Accepting(replies, t, tree, ItemsOf(PlanOf(spec, tree)))
    requires DistinctKeys(t, w.cluster.log + ItemsOf(PlanOf(spec, tree)))
    ensures HasCreated(t, Phases(spec, FilteredBy(replies.discovery.value), replies, w, tree),
              w.cluster.log + ItemsOf(PlanOf(spec, tree)))
  {
    hide DistinctKeys, Exact, Kept, PairsOf, TreeLoads, KeyOf, WaitError, DirPhase, PvPhase, ListsOf, FilteredBy,
      AdmitsAll, ItemsOf, FilesAlike, HasCreated;
    var lists, log := ListsOf(spec, tree), w.cluster.log;
    var t1, t2 := FilteredBy(replies.discovery.value), FilteredBy(replies.rediscovery.value);
    var a, b := Kept(lists, NamespaceDir, FilesOf(tree, NamespaceDir)), Kept(lists, CrdDir, FilesOf(tree, CrdDir));
    var c := if PvDir in tree && PvcDir in tree then PairsOf(spec, tree[PvDir], tree[PvcDir]) else [];
    var d, e := Kept(lists, RestoreDir, FilesOf(tree, RestoreDir)), Kept(lists, AppDir, FilesOf(tree, AppDir));
    AdmitsParts(replies.admits, a + b + c + d, e);
    AdmitsParts(replies.admits, a + b + c, d);
    AdmitsParts(replies.admits, a + b, c);
    AdmitsParts(replies.admits, a, b);
    ItemsOfAppend(a + b + c + d, e);
    ItemsOfAppend(a + b + c, d);
    ItemsOfAppend(a + b, c);
    ItemsOfAppend(a, b);
    var ia, ib, ic, id, ie := ItemsOf(a), ItemsOf(b), ItemsOf(c), ItemsOf(d), ItemsOf(e);
    var all := log + ItemsOf(PlanOf(spec, tree));
    assert all == log + ia + (ib + ic + id + ie) == log + ia + ib + (ic + id + ie) == log + ia + ib + ic + (id + ie)
        == log + ia + ib + ic + id + ie == log + ia + ib + ic + id + ie + [];
    assert HasCreated(t, Go(w), log) by { NothingCreated(t, w); }
    SameDirPhase(lists, t1, t, replies, Go(w), tree, NamespaceDir);
    DirPhaseCreates(lists, t, replies, Go(w), tree, NamespaceDir, log, ib + ic + id + ie);
    var f1 := DirPhase(lists, t, replies, Go(w), tree, NamespaceDir);
    SameDirPhase(lists, t1, t, replies, f1, tree, CrdDir);
    DirPhaseCreates(lists, t, replies, f1, tree, CrdDir, log + ia, ic + id + ie);
    var f2 := DirPhase(lists, t, replies, f1, tree, CrdDir);
    SamePvPhase(spec, t2, t, replies, f2, tree);
    PvPhaseCreates(spec, t, replies, f2, tree, log + ia + ib, c, id + ie);
    var f3 := PvPhase(spec, t, replies, f2, tree);
    SameDirPhase(lists, t2, t, replies, f3, tree, RestoreDir);
    DirPhaseCreates(lists, t, replies, f3, tree, RestoreDir, log + ia + ib + ic, ie);
    var f4 := DirPhase(lists, t, replies, f3, tree, RestoreDir);
    SameDirPhase(lists, t2, t, replies, f4, tree, AppDir);
    DirPhaseCreates(lists, t, replies, f4, tree, AppDir, log + ia + ib + ic + id, []);
    CreatedGoesOn(t, f2, log + ia + ib);
  }

  lemma NothingCreated(t: Table, w: World)
    requires Exact(t, w.cluster)
    ensures HasCreated(t, Go(w), w.cluster.log)
  {
    hide Exact;
  }

  lemma CreatedGoesOn(t: Table, flow: Flow, log: seq<Item>)
    requires HasCreated(t, flow, log)
    ensures flow.Go?
  {
    hide Exact;
  }
}
