/** pkg/cluster/restore_pv.go:92-107: finding the file of the volume a claim names by a substring
    of its file name, and what the other substring tests on file names mean. */
module VolumeLookup {
  import opened Text
  import opened Objects
  import opened Resources
  import opened Paths
  import opened RestorePreference
  import Records
  import opened Extraction
  import opened RestorePipeline
  import opened Classification

  const CORE_VOLUMES: string := "|api|v1|persistentvolumes|"

  /** The file that a core-group volume is extracted to. */
  function CoreVolumeFile(volume: string): string { CORE_VOLUMES + volume + ".json" }

  /** The folder holds core-group volumes only. */
  ghost predicate CoreVolumes(files: Folder) {
    forall f :: f in files ==> exists x :: Free(x, '|') && f.name == CoreVolumeFile(x)
  }

  lemma CoreVolumesFrame()
    ensures |CORE_VOLUMES| == 26
    ensures forall i :: 0 <= i < 26 ==> (CORE_VOLUMES[i] == '|' <==> i in {0, 4, 7, 25})
    ensures CORE_VOLUMES[7..] == "|persistentvolumes|"
  {}

  /** In such a file name the pattern can only occur at the resource segment. */
  lemma PatternPosition(x: string, volume: string, k: nat)
    requires Free(x, '|') && OccursAt(CoreVolumeFile(x), VolumeFile(volume), k)
    ensures k == 7
  {
    var s, pat := CoreVolumeFile(x), VolumeFile(volume);
    CoreVolumesFrame();
    hide Free;
    assert pat[0] == '|' && pat[18] == '|' && |pat| >= 19 by { assert |"|persistentvolumes|"| == 19; }
    assert s[k] == s[k..k + |pat|][0] && s[k + 18] == s[k..k + |pat|][18];
    assert forall i :: 26 <= i < |s| ==> s[i] != '|' by { NoBars(x); }
    assert forall i :: 0 <= i < 26 ==> s[i] == CORE_VOLUMES[i];
  }

  lemma NoBars(x: string)
    requires Free(x, '|')
    ensures forall i :: 26 <= i < |CoreVolumeFile(x)| ==> CoreVolumeFile(x)[i] != '|'
  {
    CoreVolumesFrame();
    hide CORE_VOLUMES;
    assert Free(".json", '|');
  }

  /** A core-group file name contains the pattern of a volume exactly when it begins with that
      volume's own file name. */
  lemma PatternIsPrefix(x: string, volume: string)
    requires Free(x, '|')
    ensures Contains(CoreVolumeFile(x), VolumeFile(volume)) <==> CoreVolumeFile(volume) <= CoreVolumeFile(x)
  {
    var s, pat, own := CoreVolumeFile(x), VolumeFile(volume), CoreVolumeFile(volume);
    CoreVolumesFrame();
    assert own == CORE_VOLUMES[..7] + pat;
    assert s[..7] == CORE_VOLUMES[..7];
    if Contains(s, pat) {
      var k :| 0 <= k <= |s| - |pat| && OccursAt(s, pat, k);
      PatternPosition(x, volume, k);
      assert s[..7 + |pat|] == s[..7] + s[7..7 + |pat|];
    }
    if own <= s {
      assert s[7..7 + |pat|] == own[7..7 + |pat|] == pat;
      assert OccursAt(s, pat, 7);
    }
  }

  lemma {:induction false} FoundFirst(files: Folder, volume: string, i: nat)
    requires i < |files| && Contains(files[i].name, VolumeFile(volume))
    requires forall j :: 0 <= j < i ==> !Contains(files[j].name, VolumeFile(volume))
    ensures FindVolume(files, volume) == Some(files[i])
  {
    hide Contains;
    if i > 0 { FoundFirst(files[1..], volume, i - 1); }
  }

  lemma EarlierName(a: string, b: string)
    requires LexLess(a, b)
    ensures !(b <= a)
  {
    LexTrichotomy(a, b);
    if b < a { LexPrefix(b, a); }
  }

  /** The search finds the exact volume exactly when its file is there: of all listed names that
      begin with it, it is the least. */
  lemma ExactVolumeFound(files: Folder, volume: string)
    requires Listed(files) && CoreVolumes(files)
    ensures (exists f :: f in files && f.name == CoreVolumeFile(volume)) <==>
      FindVolume(files, volume).Some? && FindVolume(files, volume).value.name == CoreVolumeFile(volume)
  {
    hide Contains, CoreVolumeFile, VolumeFile;
    if f :| f in files && f.name == CoreVolumeFile(volume) {
      var i :| 0 <= i < |files| && files[i] == f;
      assert files[i] in files;
      var y :| Free(y, '|') && files[i].name == CoreVolumeFile(y);
      PatternIsPrefix(y, volume);
      forall j | 0 <= j < i ensures !Contains(files[j].name, VolumeFile(volume)) {
        assert files[j] in files;
        var x :| Free(x, '|') && files[j].name == CoreVolumeFile(x);
        PatternIsPrefix(x, volume);
        EarlierName(files[j].name, files[i].name);
      }
      FoundFirst(files, volume, i);
    }
  }

  /** Without it, the search may settle for another volume, one whose name goes on after it. */
  lemma OtherVolumeFound(files: Folder, volume: string)
    requires CoreVolumes(files)
    ensures FindVolume(files, volume).Some? ==> CoreVolumeFile(volume) <= FindVolume(files, volume).value.name
  {
    hide Contains, CoreVolumeFile, VolumeFile;
    var r := FindVolume(files, volume);
    if r.Some? {
      var x :| Free(x, '|') && r.value.name == CoreVolumeFile(x);
      PatternIsPrefix(x, volume);
    }
  }

  lemma WrongVolumeExists()
    ensures exists files: Folder ::
      && Listed(files) && CoreVolumes(files)
      && FindVolume(files, "v").Some? && FindVolume(files, "v").value.name == CoreVolumeFile("v.json")
  {
    var files := [File(CoreVolumeFile("v.json"), Records.Garbage)];
    assert Free("v.json", '|');
    PatternIsPrefix("v.json", "v");
    assert CoreVolumeFile("v.json") == CoreVolumeFile("v") + ".json";
    FoundFirst(files, "v", 0);
  }

  /* ---- other file names ---- */

  /** A segment of a path is found in the escaped file name. */
  lemma EscapedSegment(path: string, x: string)
    requires Free(x, '/') && Contains(path, "/" + x + "/")
    ensures Contains(Escape(path), "|" + x + "|")
  {
    var pat, pat' := "/" + x + "/", "|" + x + "|";
    var i :| 0 <= i <= |path| - |pat| && OccursAt(path, pat, i);
    EscapedSlice(path, i, i + |pat|);
    EscapeAppend("/" + x, "/");
    EscapeAppend("/", x);
    assert Escape(x) == x;
    assert Escape("/") == "|";
    assert OccursAt(Escape(path), pat', i);
  }

  lemma EscapedSlice(path: string, i: nat, j: nat)
    requires i <= j <= |path|
    ensures Escape(path)[i..j] == Escape(path[i..j])
  {}

  lemma ResourceInFileName(t: Table, item: Item)
    requires Addressable(t, item) && !TopLevel(item)
    ensures Contains(Escape(EntryPath(t, item)), "|" + ResourceOf(t, item).value + "|")
  {
    var r := ResourceOf(t, item).value;
    assert SlashFree(item, r);
    DeepPath(t, item);
    hide Contains, EntryPath, ResourceOf, Escape, PathWith, GroupSegments, Addressable;
    EntryHasSegment(item, r, r);
    EscapedSegment(EntryPath(t, item), r);
  }

  /** Archived services and cluster role bindings are recognized by their file names. */
  lemma ServiceIsRecognized(t: Table, item: Item, content: Records.Content)
    requires Addressable(t, item) && !TopLevel(item)
    ensures ResourceOf(t, item).value == "services" ==> IsServiceFile(File(Escape(EntryPath(t, item)), content))
    ensures ResourceOf(t, item).value == "clusterrolebindings" ==>
      IsBindingFile(File(Escape(EntryPath(t, item)), content))
  {
    hide Contains, EntryPath, ResourceOf, Escape, TopLevel;
    ResourceInFileName(t, item);
    hide Addressable;
    RecognizedName(File(Escape(EntryPath(t, item)), content), ResourceOf(t, item).value);
  }

  lemma RecognizedName(f: File, resource: string)
    requires Contains(f.name, "|" + resource + "|")
    ensures resource == "services" ==> IsServiceFile(f)
    ensures resource == "clusterrolebindings" ==> IsBindingFile(f)
  {
    BarredWords();
    hide Contains;
  }

  lemma BarredWords()
    ensures "|" + "services" + "|" == "|services|" && "|" + "clusterrolebindings" + "|" == "|clusterrolebindings|"
  {}

  /** A core-group volume is extracted to the file the search looks for. */
  lemma VolumeFileName(t: Table, item: Item)
    requires Addressable(t, item) && !TopLevel(item) && item.apiVersion == "v1" && item.namespace == ""
    requires ResourceOf(t, item).value == VOLUMES
    ensures Escape(EntryPath(t, item)) == CoreVolumeFile(Escape(item.name))
  {
    DeepPath(t, item);
    hide ResourceOf, EntryPath, Escape, Addressable;
    VolumePath(item);
    EscapeAppend("/api/v1/persistentvolumes/" + item.name, ".json");
    EscapeAppend("/api/v1/persistentvolumes/", item.name);
    EscapedFrame();
  }

  lemma VolumePath(item: Item)
    requires item.apiVersion == "v1" && item.namespace == ""
    ensures PathWith(item, VOLUMES) + ".json" == "/api/v1/persistentvolumes/" + item.name + ".json"
  {
    assert "/api/v1" + "" + "/" + VOLUMES + "/" == "/api/v1/persistentvolumes/";
  }

  lemma EscapedFrame()
    ensures Escape("/api/v1/persistentvolumes/") == CORE_VOLUMES && Escape(".json") == ".json"
  {
    CoreVolumesFrame();
  }

  lemma EscapeAppend(a: string, b: string)
    ensures Escape(a + b) == Escape(a) + Escape(b)
  {}
}
