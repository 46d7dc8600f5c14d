/** pkg/cluster/restore.go:266-304: reading the archive entries into directories. */
module Extraction {
  import opened Text
  import opened Records
  import opened Paths
  import opened RestorePreference

  /** A folder as it is listed: names strictly increasing. */
  predicate Listed(folder: Folder) {
    forall i, j :: 0 <= i < j < |folder| ==> LexLess(folder[i].name, folder[j].name)
  }

  predicate HasName(folder: Folder, name: string) {
    exists f :: f in folder && f.name == name
  }

  /** Writing a file replaces the one of the same name. */
  function PutFile(folder: Folder, f: File): Folder {
    if folder == [] then [f]
    else if folder[0].name == f.name then [f] + folder[1..]
    else if LexLess(f.name, folder[0].name) then [f] + folder
    else [folder[0]] + PutFile(folder[1..], f)
  }

  lemma {:induction false} PutFileMembers(folder: Folder, f: File, g: File)
    requires Listed(folder)
    ensures g in PutFile(folder, f) <==> g == f || (g in folder && g.name != f.name)
  {
    if folder != [] {
      LexTrichotomy(folder[0].name, f.name);
      assert folder == [folder[0]] + folder[1..];
      if folder[0].name == f.name {
        if g in folder[1..] { NamesDiffer(folder, g); }
      } else if LexLess(f.name, folder[0].name) {
        if g in folder { LaterNames(folder, f.name, g); }
      } else {
        PutFileMembers(folder[1..], f, g);
      }
    }
  }

  /** The first name occurs once. */
  lemma NamesDiffer(folder: Folder, g: File)
    requires Listed(folder) && folder != [] && g in folder[1..]
    ensures g.name != folder[0].name
  {
    var k :| 0 <= k < |folder[1..]| && folder[1..][k] == g;
    assert folder[k + 1] == g;
    LexTrichotomy(folder[0].name, g.name);
  }

  lemma LaterNames(folder: Folder, name: string, g: File)
    requires Listed(folder) && folder != [] && LexLess(name, folder[0].name) && g in folder
    ensures LexLess(name, g.name) && g.name != name
  {
    var k :| 0 <= k < |folder| && folder[k] == g;
    if k > 0 { LexTransitive(name, folder[0].name, g.name); }
    LexTrichotomy(name, g.name);
  }

  lemma {:induction false} PutFileListed(folder: Folder, f: File)
    requires Listed(folder)
    ensures Listed(PutFile(folder, f))
    ensures |PutFile(folder, f)| == |folder| + if HasName(folder, f.name) then 0 else 1
  {
    if folder == [] {
    } else {
      LexTrichotomy(folder[0].name, f.name);
      assert folder == [folder[0]] + folder[1..];
      if folder[0].name == f.name {
        assert folder[0] in folder;
      } else if LexLess(f.name, folder[0].name) {
        forall k | 0 <= k < |folder| ensures LexLess(f.name, folder[k].name) && folder[k].name != f.name {
          LaterNames(folder, f.name, folder[k]);
        }
      } else {
        PutFileListed(folder[1..], f);
        var rest := PutFile(folder[1..], f);
        forall k | 0 <= k < |rest| ensures LexLess(folder[0].name, rest[k].name) {
          PutFileMembers(folder[1..], f, rest[k]);
          if rest[k] in folder[1..] {
            var j :| 0 <= j < |folder[1..]| && folder[1..][j] == rest[k];
            assert folder[j + 1] == rest[k];
          }
        }
        assert HasName(folder, f.name) <==> HasName(folder[1..], f.name);
      }
    }
  }

  /* ---- extracting the entries ---- */

  datatype Extracted = Extracted(tree: Tree, excluded: nat)

  /** The entry is an archived item. */
  predicate Relevant(e: Entry, name: string) { e.regular && StripName(e.name, name) != "/snapshot.json" }

  function ExtractEntry(spec: PreferenceSpec, name: string, x: Extracted, e: Entry): Extracted {
    if !Relevant(e, name) then x
    else
      var path := StripName(e.name, name);
      var d := Prefered(spec, path);
      if d.Exclude? then x.(excluded := x.excluded + 1)
      else x.(tree := x.tree[d := PutFile(FilesOf(x.tree, d), File(Escape(path), e.content))])
  }

  function Extract(spec: PreferenceSpec, name: string, archive: Archive): Extracted {
    if archive == [] then Extracted(map[], 0)
    else ExtractEntry(spec, name, Extract(spec, name, archive[..|archive| - 1]), archive[|archive| - 1])
  }

  /** Every entry has its own path, and none contains the character that stands for a slash. */
  ghost predicate DistinctPaths(archive: Archive, name: string) {
    && (forall e :: e in archive && Relevant(e, name) ==> Free(StripName(e.name, name), '|'))
    && (forall i, j :: 0 <= i < j < |archive| && Relevant(archive[i], name) && Relevant(archive[j], name) ==>
          StripName(archive[i].name, name) != StripName(archive[j].name, name))
  }

  /** What an entry becomes. */
  predicate BecomesFile(spec: PreferenceSpec, name: string, e: Entry, d: Dir, f: File) {
    && e.regular && StripName(e.name, name) != "/snapshot.json"
    && !d.Exclude? && Prefered(spec, StripName(e.name, name)) == d
    && f == File(Escape(StripName(e.name, name)), e.content)
  }

  ghost predicate TreeOk(tree: Tree) {
    Exclude !in tree && forall d :: d in tree ==> Listed(tree[d]) && tree[d] != []
  }

  lemma {:induction false} ExtractListed(spec: PreferenceSpec, name: string, archive: Archive)
    ensures TreeOk(Extract(spec, name, archive).tree)
  {
    hide Prefered, StripName, Escape, Listed;
    if archive != [] {
      var n := |archive| - 1;
      ExtractListed(spec, name, archive[..n]);
      var x, e := Extract(spec, name, archive[..n]), archive[n];
      var d := Prefered(spec, StripName(e.name, name));
      if Relevant(e, name) && !d.Exclude? {
        EmptyListed();
        PutFileListed(FilesOf(x.tree, d), File(Escape(StripName(e.name, name)), e.content));
      }
    }
  }

  lemma EmptyListed()
    ensures Listed([])
  {}

  /** Every file comes from an entry. */
  lemma {:induction false} FileFromEntry(spec: PreferenceSpec, name: string, archive: Archive, d: Dir, f: File)
    requires f in FilesOf(Extract(spec, name, archive).tree, d)
    ensures exists e :: e in archive && BecomesFile(spec, name, e, d, f)
  {
    hide Prefered, StripName, Escape, Listed;
    if archive != [] {
      var n := |archive| - 1;
      var x, e := Extract(spec, name, archive[..n]), archive[n];
      var d' := Prefered(spec, StripName(e.name, name));
      var g := File(Escape(StripName(e.name, name)), e.content);
      ExtractListed(spec, name, archive[..n]);
      EmptyListed();
      if Relevant(e, name) && d == d' && !d'.Exclude? {
        PutFileMembers(FilesOf(x.tree, d), g, f);
        assert e in archive;
      }
      if f in FilesOf(x.tree, d) {
        FileFromEntry(spec, name, archive[..n], d, f);
        var e' :| e' in archive[..n] && BecomesFile(spec, name, e', d, f);
        assert e' in archive;
      }
    }
  }

  lemma NameFromEntry(spec: PreferenceSpec, name: string, archive: Archive, d: Dir, f: File)
    requires f in FilesOf(Extract(spec, name, archive).tree, d)
    ensures exists e :: e in archive && Relevant(e, name) && f.name == Escape(StripName(e.name, name))
  {
    hide Prefered, StripName, Escape, Extract;
    FileFromEntry(spec, name, archive, d, f);
    var e :| e in archive && BecomesFile(spec, name, e, d, f);
    assert Relevant(e, name);
  }

  lemma DistinctPrefix(archive: Archive, name: string)
    requires archive != [] && DistinctPaths(archive, name)
    ensures DistinctPaths(archive[..|archive| - 1], name)
    ensures forall e :: e in archive[..|archive| - 1] && Relevant(e, name) && Relevant(archive[|archive| - 1], name) ==>
      Escape(StripName(e.name, name)) != Escape(StripName(archive[|archive| - 1].name, name))
  {
    hide StripName, Escape;
    var n := |archive| - 1;
    forall e | e in archive[..n] && Relevant(e, name) && Relevant(archive[n], name)
      ensures Escape(StripName(e.name, name)) != Escape(StripName(archive[n].name, name))
    {
      var i :| 0 <= i < n && archive[i] == e;
      assert archive[i] in archive && archive[n] in archive;
      EscapeInjective(StripName(e.name, name), StripName(archive[n].name, name));
    }
  }

  /** Extraction overwrites nothing: every entry that is not excluded becomes a file of its
      directory, and every file is one. */
  lemma {:induction false} ExtractionLosesNothing(spec: PreferenceSpec, name: string, archive: Archive, d: Dir, f: File)
    requires DistinctPaths(archive, name)
    ensures f in FilesOf(Extract(spec, name, archive).tree, d) <==>
      exists e :: e in archive && BecomesFile(spec, name, e, d, f)
  {
    hide Prefered, StripName, Escape, Listed;
    if f in FilesOf(Extract(spec, name, archive).tree, d) {
      FileFromEntry(spec, name, archive, d, f);
    }
    if e0 :| e0 in archive && BecomesFile(spec, name, e0, d, f) {
      assert Relevant(e0, name) && f.name == Escape(StripName(e0.name, name));
      var n := |archive| - 1;
      var x, e := Extract(spec, name, archive[..n]), archive[n];
      var d' := Prefered(spec, StripName(e.name, name));
      var g := File(Escape(StripName(e.name, name)), e.content);
      DistinctPrefix(archive, name);
      ExtractListed(spec, name, archive[..n]);
      EmptyListed();
      if e0 in archive[..n] { ExtractionLosesNothing(spec, name, archive[..n], d, f); }
      if Relevant(e, name) && !d'.Exclude? {
        PutFileMembers(FilesOf(x.tree, d'), g, f);
      }
      assert archive == archive[..n] + [e];
    }
  }

  /* ---- counting ---- */

  function CountRelevant(archive: Archive, name: string): nat {
    if archive == [] then 0
    else CountRelevant(archive[..|archive| - 1], name) + if Relevant(archive[|archive| - 1], name) then 1 else 0
  }

  function Size(tree: Tree, d: Dir): nat { |FilesOf(tree, d)| }

  function TotalSize(tree: Tree): nat {
    Size(tree, NamespaceDir) + Size(tree, CrdDir) + Size(tree, PvDir) + Size(tree, PvcDir) + Size(tree, RestoreDir) +
      Size(tree, AppDir)
  }

  lemma OneMoreFile(tree: Tree, d: Dir, f: File)
    requires Listed(FilesOf(tree, d)) && !HasName(FilesOf(tree, d), f.name) && !d.Exclude?
    ensures TotalSize(tree[d := PutFile(FilesOf(tree, d), f)]) == TotalSize(tree) + 1
  {
    PutFileListed(FilesOf(tree, d), f);
    hide Listed, PutFile;
    var tree' := tree[d := PutFile(FilesOf(tree, d), f)];
    assert forall d' :: d' != d ==> Size(tree', d') == Size(tree, d');
  }

  /** Each archived item is either excluded by the preference or is one file of the six
      directories. */
  lemma {:induction false} ExtractionConserves(spec: PreferenceSpec, name: string, archive: Archive)
    requires DistinctPaths(archive, name)
    ensures var x := Extract(spec, name, archive);
            CountRelevant(archive, name) == x.excluded + TotalSize(x.tree)
  {
    hide Prefered, StripName, Escape, Listed;
    if archive != [] {
      var n := |archive| - 1;
      var x, e := Extract(spec, name, archive[..n]), archive[n];
      var d := Prefered(spec, StripName(e.name, name));
      DistinctPrefix(archive, name);
      ExtractListed(spec, name, archive[..n]);
      EmptyListed();
      ExtractionConserves(spec, name, archive[..n]);
      if Relevant(e, name) && !d.Exclude? {
        var f := File(Escape(StripName(e.name, name)), e.content);
        if HasName(FilesOf(x.tree, d), f.name) {
          var g :| g in FilesOf(x.tree, d) && g.name == f.name;
          NameFromEntry(spec, name, archive[..n], d, g);
        }
        OneMoreFile(x.tree, d, f);
      }
    }
  }
}
