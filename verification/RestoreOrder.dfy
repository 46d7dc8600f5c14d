/** What a restore creates, and in which order (restore.go:306-357, restore_pv.go:88-156). */
module RestoreOrder {
  import opened Text
  import opened Objects
  import opened Resources
  import opened Paths
  import opened Records
  import opened RestorePreference
  import opened Extraction
  import opened RestorePipeline
  import RestoreAccount

  predicate Increasing(ks: seq<nat>, bound: nat) {
    && (forall i, j :: 0 <= i < j < |ks| ==> ks[i] < ks[j])
    && (forall i :: 0 <= i < |ks| ==> ks[i] < bound)
  }

  /** The item that a directory pass creates from a file. */
  predicate CreatedFrom(lists: Lists, f: File, item: Item) {
    LoadItem(f).Ok? && ObstacleOf(lists, LoadItem(f).value).Clear? && item == StripServerFields(LoadItem(f).value)
  }

  predicate Picks(lists: Lists, files: Folder, ks: seq<nat>, segment: seq<Item>) {
    && |ks| == |segment| && Increasing(ks, |files|)
    && forall i :: 0 <= i < |ks| ==> CreatedFrom(lists, files[ks[i]], segment[i])
  }

  /** The segment was created from files of the directory, in their order, each at most once and
      none that has an obstacle. */
  ghost predicate Restores(lists: Lists, files: Folder, segment: seq<Item>) {
    exists ks :: Picks(lists, files, ks, segment)
  }

  lemma RestoresNothing(lists: Lists, files: Folder)
    ensures Restores(lists, files, [])
  {
    assert Picks(lists, files, [], []);
  }

  lemma PicksMore(lists: Lists, files: Folder, ks: seq<nat>, segment: seq<Item>)
    requires files != [] && Picks(lists, files[..|files| - 1], ks, segment)
    ensures Picks(lists, files, ks, segment)
    ensures forall item :: CreatedFrom(lists, files[|files| - 1], item) ==>
      Picks(lists, files, ks + [|files| - 1], segment + [item])
  {
    hide CreatedFrom;
  }

  lemma FileLog(lists: Lists, table: Table, admits: Item -> Option<string>, w: World, f: File)
    ensures var log' := RestoreFile(lists, table, admits, w, f).world.cluster.log;
            log' == w.cluster.log || (exists item :: CreatedFrom(lists, f, item) && log' == w.cluster.log + [item])
  {
    hide PathOf, CreateItem, Reported;
    if LoadItem(f).Ok? {
      RestoreAccount.CreateGrows(w.cluster, admits, table, StripServerFields(LoadItem(f).value));
    }
  }

  lemma {:induction false} FolderLog(lists: Lists, table: Table,
        admits: Item -> Option<string>, w: World, files: Folder) returns (segment: seq<Item>)
    ensures RestoreFolder(lists, table, admits, w, files).world.cluster.log == w.cluster.log + segment
    ensures Restores(lists, files, segment)
  {
    hide RestoreFile, CreatedFrom, Picks;
    if files == [] {
      segment := [];
      RestoresNothing(lists, files);
    } else {
      var n := |files| - 1;
      segment := FolderLog(lists, table, admits, w, files[..n]);
      var before := RestoreFolder(lists, table, admits, w, files[..n]);
      var ks :| Picks(lists, files[..n], ks, segment);
      PicksMore(lists, files, ks, segment);
      if before.Go? {
        FileLog(lists, table, admits, before.world, files[n]);
        var log' := RestoreFile(lists, table, admits, before.world, files[n]).world.cluster.log;
        if log' != before.world.cluster.log {
          var item :| CreatedFrom(lists, files[n], item) && log' == before.world.cluster.log + [item];
          assert w.cluster.log + segment + [item] == w.cluster.log + (segment + [item]);
          segment := segment + [item];
        }
      }
    }
  }

  /* ---- volumes and claims ---- */

  /** The item is the volume that claim file f names, freed of its claim. */
  predicate VolumeFor(spec: PreferenceSpec, volumes: Folder, f: File, item: Item) {
    LoadItem(f).Ok? &&
    (var pvFile := VolumeOf(spec, volumes, LoadItem(f).value).1;
     && pvFile.Some? && LoadItem(pvFile.value).Ok? && GetMap(LoadItem(pvFile.value).value.fields, "spec").Some?
     && item == FreedVolume(LoadItem(pvFile.value).value, GetMap(LoadItem(pvFile.value).value.fields, "spec").value))
  }

  /** The item is the claim of file f, freed of its volume. */
  predicate ClaimFor(f: File, item: Item) {
    LoadItem(f).Ok? &&
    (var pvc := LoadItem(f).value;
     GetMap(pvc.fields, "spec").Some? && item == FreedClaim(pvc, GetMap(pvc.fields, "spec").value))
  }

  /** Claim by claim: first the volume it names, then possibly the claim itself. */
  predicate Pairs(spec: PreferenceSpec, volumes: Folder, claims: Folder, ks: seq<nat>, segment: seq<Item>) {
    && |ks| == |segment|
    && (forall i :: 0 <= i < |ks| ==> ks[i] < |claims|)
    && (forall i :: 0 < i < |ks| ==> ks[i - 1] <= ks[i])
    && (forall i :: 1 < i < |ks| ==> ks[i - 2] < ks[i])
    && forall i :: 0 <= i < |ks| ==> PairAt(spec, volumes, claims, ks, segment, i)
  }

  /** The i-th item is a volume, or a claim directly after the volume it names. */
  predicate PairAt(spec: PreferenceSpec, volumes: Folder, claims: Folder, ks: seq<nat>, segment: seq<Item>, i: nat)
    requires |ks| == |segment| && i < |ks| && ks[i] < |claims|
  {
    if i > 0 && ks[i - 1] == ks[i] then
      VolumeFor(spec, volumes, claims[ks[i]], segment[i - 1]) && ClaimFor(claims[ks[i]], segment[i])
    else VolumeFor(spec, volumes, claims[ks[i]], segment[i])
  }

  ghost predicate RestoresPairs(spec: PreferenceSpec, volumes: Folder, claims: Folder, segment: seq<Item>) {
    exists ks :: Pairs(spec, volumes, claims, ks, segment)
  }

  /** One claim adds nothing, its volume, or its volume and itself. */
  predicate Adds(spec: PreferenceSpec, volumes: Folder, f: File, more: seq<Item>) {
    || more == []
    || (|more| == 1 && VolumeFor(spec, volumes, f, more[0]))
    || (|more| == 2 && VolumeFor(spec, volumes, f, more[0]) && ClaimFor(f, more[1]))
  }

  lemma PairsMore(spec: PreferenceSpec, volumes: Folder, claims: Folder, ks: seq<nat>, segment: seq<Item>,
        more: seq<Item>)
    requires claims != [] && Pairs(spec, volumes, claims[..|claims| - 1], ks, segment)
    requires Adds(spec, volumes, claims[|claims| - 1], more)
    ensures exists ks' :: Pairs(spec, volumes, claims, ks', segment + more)
  {
    hide VolumeFor, ClaimFor;
    var n := |claims| - 1;
    var ks' := ks + if |more| == 0 then [] else if |more| == 1 then [n] else [n, n];
    assert forall i :: 0 <= i < |ks| ==> PairAt(spec, volumes, claims[..n], ks, segment, i) ==>
      PairAt(spec, volumes, claims, ks', segment + more, i);
    assert Pairs(spec, volumes, claims, ks', segment + more);
  }

  lemma ClaimLog(spec: PreferenceSpec, table: Table, replies: Replies, volumes: Folder, w: World, f: File)
    returns (more: seq<Item>)
    ensures RestoreClaimFile(spec, table, replies, volumes, w, f).world.cluster.log == w.cluster.log + more
    ensures Adds(spec, volumes, f, more)
  {
    hide PathOf, CreateItem, Reported, WaitError, WithExcluded;
    more := [];
    if LoadItem(f).Ok? && PathOf(table, LoadItem(f).value).Ok? {
      var pvc := LoadItem(f).value;
      var choice := VolumeOf(spec, volumes, pvc);
      if choice.0.Clear? && LoadItem(choice.1.value).Ok? && PathOf(table, LoadItem(choice.1.value).value).Ok? {
        var pv := LoadItem(choice.1.value).value;
        var pvPath, pvcPath := PathOf(table, pv).value, PathOf(table, pvc).value;
        if GetMap(pv.fields, "spec").Some? {
          var volume := FreedVolume(pv, GetMap(pv.fields, "spec").value);
          var claim := FreedClaim(pvc, GetMap(pvc.fields, "spec").value);
          RestoreAccount.CreateGrows(w.cluster, replies.admits, table, volume);
          var (cluster, error) := CreateItem(w.cluster, replies.admits, table, volume);
          if error.None? {
            RestoreAccount.CreateGrows(cluster, replies.admits, table, claim);
            more := if CreateItem(cluster, replies.admits, table, claim).1.None? then [volume, claim] else [volume];
            assert w.cluster.log + [volume, claim] == w.cluster.log + [volume] + [claim];
          }
        }
      }
    }
  }

  lemma {:induction false} ClaimsLog(spec: PreferenceSpec, table: Table, replies: Replies, volumes: Folder,
        w: World, claims: Folder) returns (segment: seq<Item>)
    ensures RestoreClaims(spec, table, replies, volumes, w, claims).world.cluster.log == w.cluster.log + segment
    ensures RestoresPairs(spec, volumes, claims, segment)
  {
    hide RestoreClaimFile, Pairs, Adds;
    if claims == [] {
      segment := [];
      assert Pairs(spec, volumes, claims, [], []) by { NoPairs(spec, volumes, claims); }
    } else {
      var n := |claims| - 1;
      segment := ClaimsLog(spec, table, replies, volumes, w, claims[..n]);
      var before := RestoreClaims(spec, table, replies, volumes, w, claims[..n]);
      var ks :| Pairs(spec, volumes, claims[..n], ks, segment);
      NothingAdded(spec, volumes, claims[n]);
      if before.Go? {
        var more := ClaimLog(spec, table, replies, volumes, before.world, claims[n]);
        PairsMore(spec, volumes, claims, ks, segment, more);
        assert w.cluster.log + segment + more == w.cluster.log + (segment + more);
        segment := segment + more;
      } else {
        PairsMore(spec, volumes, claims, ks, segment, []);
        assert segment + [] == segment;
      }
    }
  }

  lemma NoPairs(spec: PreferenceSpec, volumes: Folder, claims: Folder)
    ensures Pairs(spec, volumes, claims, [], [])
  {}

  lemma NothingAdded(spec: PreferenceSpec, volumes: Folder, f: File)
    ensures Adds(spec, volumes, f, [])
  {}

  /** What creating a volume or claim changes: nothing that identifies it; it names no partner. */
  lemma FreedIsUnbound(spec: PreferenceSpec, volumes: Folder, f: File, item: Item)
    ensures VolumeFor(spec, volumes, f, item) ==>
      && GetMap(item.fields, "spec").Some? &&
           GetMap(item.fields, "spec").value["claimRef" := Null] == GetMap(item.fields, "spec").value
      && item.fields["status" := Null] == item.fields && item.resourceVersion == "" && item.uid == ""
    ensures ClaimFor(f, item) ==>
      && GetMap(item.fields, "spec").Some? && GetString(GetMap(item.fields, "spec").value, "volumeName") == ""
      && item.fields["status" := Null] == item.fields && BIND_COMPLETED !in item.annotations &&
           item.resourceVersion == "" && item.uid == ""
      && SameObject(item, LoadItem(f).value)
  {
    hide VolumeOf;
  }

  /* ---- the order of the phases ---- */

  datatype Segments = Segments(namespaces: seq<Item>, crds: seq<Item>, pairs: seq<Item>, resources: seq<Item>,
    apps: seq<Item>)

  function InOrder(s: Segments): seq<Item> { s.namespaces + s.crds + s.pairs + s.resources + s.apps }

  ghost predicate InPhases(spec: PreferenceSpec, tree: Tree, s: Segments) {
    var lists := ListsOf(spec, tree);
    && Restores(lists, FilesOf(tree, NamespaceDir), s.namespaces)
    && Restores(lists, FilesOf(tree, CrdDir), s.crds)
    && RestoresPairs(spec, FilesOf(tree, PvDir), FilesOf(tree, PvcDir), s.pairs)
    && Restores(lists, FilesOf(tree, RestoreDir), s.resources)
    && Restores(lists, FilesOf(tree, AppDir), s.apps)
  }

  lemma DirPhaseLog(lists: Lists, table: Table, replies: Replies, flow: Flow, tree: Tree, d: Dir)
    returns (segment: seq<Item>)
    ensures DirPhase(lists, table, replies, flow, tree, d).world.cluster.log == flow.world.cluster.log + segment
    ensures Restores(lists, FilesOf(tree, d), segment)
  {
    hide RestoreFolder, Restores;
    if flow.Go? && d in tree {
      segment := FolderLog(lists, table, replies.admits, flow.world, tree[d]);
    } else {
      segment := [];
      RestoresNothing(lists, FilesOf(tree, d));
    }
  }

  lemma PvPhaseLog(spec: PreferenceSpec, table: Table, replies: Replies, flow: Flow, tree: Tree)
    returns (segment: seq<Item>)
    ensures PvPhase(spec, table, replies, flow, tree).world.cluster.log == flow.world.cluster.log + segment
    ensures RestoresPairs(spec, FilesOf(tree, PvDir), FilesOf(tree, PvcDir), segment)
  {
    hide RestoreClaims;
    if flow.Go? && PvDir in tree && PvcDir in tree {
      segment := ClaimsLog(spec, table, replies, tree[PvDir], flow.world, tree[PvcDir]);
    } else {
      segment := [];
      NoPairs(spec, FilesOf(tree, PvDir), FilesOf(tree, PvcDir));
    }
  }

  /** Whether it succeeds or stops, a restore creates namespaces, then CRDs, then volumes each
      directly before the claim that names it, then the other resources, then the apps; within a
      directory in file order, and nothing but items of the archive that no rule excludes. */
  lemma RestoreOrdered(spec: PreferenceSpec, rs: RestoreSpec, replies: Replies, archive: Archive, w: World)
    returns (s: Segments)
    ensures RestoreResources(spec, rs, replies, archive, w).world.cluster.log == w.cluster.log + InOrder(s)
    ensures InPhases(spec, Extract(spec, rs.snapshotName, archive).tree, s)
  {
    hide ListsOf, FilteredBy, Extract, DirPhase, PvPhase, Restores, RestoresPairs, Readable;
    var tree := Extract(spec, rs.snapshotName, archive).tree;
    var lists := ListsOf(spec, tree);
    s := NoSegments(spec, tree);
    var x := Extract(spec, rs.snapshotName, archive);
    var w0 := w.(status := InitialStatus(w.status).(numPreferenceExcluded := x.excluded));
    if replies.discovery.Ok? && Readable(FilesOf(tree, RestoreDir)) && Readable(FilesOf(tree, AppDir)) {
      s := PhasesOrdered(spec, FilteredBy(replies.discovery.value), replies, w0, tree);
    } else {
      assert w.cluster.log + [] == w.cluster.log;
    }
  }

  lemma NoSegments(spec: PreferenceSpec, tree: Tree) returns (s: Segments)
    ensures InPhases(spec, tree, s) && InOrder(s) == []
  {
    s := Segments([], [], [], [], []);
    var lists := ListsOf(spec, tree);
    RestoresNothing(lists, FilesOf(tree, NamespaceDir));
    RestoresNothing(lists, FilesOf(tree, CrdDir));
    RestoresNothing(lists, FilesOf(tree, RestoreDir));
    RestoresNothing(lists, FilesOf(tree, AppDir));
    NoPairs(spec, FilesOf(tree, PvDir), FilesOf(tree, PvcDir));
  }

  lemma PhasesOrdered(spec: PreferenceSpec, table: Table, replies: Replies, w: World, tree: Tree) returns (s: Segments)
    ensures Phases(spec, table, replies, w, tree).world.cluster.log == w.cluster.log + InOrder(s)
    ensures InPhases(spec, tree, s)
  {
    hide ListsOf, FilteredBy, DirPhase, PvPhase, Restores, RestoresPairs;
    var lists := ListsOf(spec, tree);
    s := NoSegments(spec, tree);
    var f1 := DirPhase(lists, table, replies, Go(w), tree, NamespaceDir);
    var namespaces := DirPhaseLog(lists, table, replies, Go(w), tree, NamespaceDir);
    var f2 := DirPhase(lists, table, replies, f1, tree, CrdDir);
    var crds := DirPhaseLog(lists, table, replies, f1, tree, CrdDir);
    s := s.(namespaces := namespaces, crds := crds);
    if f2.Go? && replies.rediscovery.Ok? {
      var table' := FilteredBy(replies.rediscovery.value);
      var f3 := PvPhase(spec, table', replies, f2, tree);
      var pairs := PvPhaseLog(spec, table', replies, f2, tree);
      var f4 := DirPhase(lists, table', replies, f3, tree, RestoreDir);
      var resources := DirPhaseLog(lists, table', replies, f3, tree, RestoreDir);
      var apps := DirPhaseLog(lists, table', replies, f4, tree, AppDir);
      s := s.(pairs := pairs, resources := resources, apps := apps);
    }
    assert w.cluster.log + namespaces + crds + s.pairs + s.resources + s.apps == w.cluster.log + InOrder(s);
  }
}
