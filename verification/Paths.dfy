/** API paths as lists of slash-free segments: what a path identifies, what a substring test on
    a path means, and how archive names are written and read back. */
module Paths {
  import opened Text
  import opened Objects
  import opened Resources

  function JoinPath(cs: seq<string>): string {
    if cs == [] then "" else "/" + cs[0] + JoinPath(cs[1..])
  }

  predicate Segments(cs: seq<string>) {
    forall i :: 0 <= i < |cs| ==> Free(cs[i], '/')
  }

  lemma SplitSegment(c: string, rest: string)
    requires Free(c, '/') && (rest == "" || rest[0] == '/')
    ensures Split("/" + c + rest, '/') == ["", c] + Split(rest, '/')[1..]
  {
    SplitHead(c, rest, '/');
    assert ("/" + c + rest)[1..] == c + rest;
    assert [""] + ([c] + Split(rest, '/')[1..]) == ["", c] + Split(rest, '/')[1..];
  }

  lemma {:induction false} SplitJoin(cs: seq<string>)
    requires Segments(cs)
    ensures Split(JoinPath(cs), '/') == [""] + cs
  {
    if cs != [] {
      var rest := JoinPath(cs[1..]);
      SplitJoin(cs[1..]);
      SplitSegment(cs[0], rest) by { assert cs[1..] != [] ==> rest[0] == '/'; }
      hide Split;
      assert ([""] + cs[1..])[1..] == cs[1..];
      assert ["", cs[0]] + cs[1..] == [""] + cs;
    }
  }

  lemma JoinInjective(a: seq<string>, b: seq<string>)
    requires Segments(a) && Segments(b) && JoinPath(a) == JoinPath(b)
    ensures a == b
  {
    SplitJoin(a);
    SplitJoin(b);
    assert a == ([""] + a)[1..] && b == ([""] + b)[1..];
  }

  lemma JoinCons(c: string, cs: seq<string>)
    ensures JoinPath([c] + cs) == "/" + c + JoinPath(cs)
  {
    assert ([c] + cs)[1..] == cs;
  }

  lemma Prepend(c: char, h: string, tail: string, s: string)
    requires "/" + h + tail == "/" + s
    ensures "/" + ([c] + h) + tail == "/" + ([c] + s)
  {
    assert ("/" + h + tail)[1..] == h + tail;
    assert ("/" + s)[1..] == s;
  }

  lemma ExtendHead(c: char, parts: seq<string>, s: string)
    requires |parts| >= 1 && JoinPath(parts) == "/" + s
    ensures JoinPath([[c] + parts[0]] + parts[1..]) == "/" + ([c] + s)
  {
    JoinCons([c] + parts[0], parts[1..]);
    JoinCons(parts[0], parts[1..]);
    hide JoinPath;
    assert [parts[0]] + parts[1..] == parts;
    Prepend(c, parts[0], JoinPath(parts[1..]), s);
  }

  lemma {:induction false} JoinSplit(s: string)
    ensures Segments(Split(s, '/')) && JoinPath(Split(s, '/')) == "/" + s
  {
    if s == "" {
      JoinCons("", []);
      assert [""] + [] == [""];
    } else {
      JoinSplit(s[1..]);
      hide JoinPath;
      var rest := Split(s[1..], '/');
      assert s == [s[0]] + s[1..];
      if s[0] == '/' {
        JoinCons("", rest);
      } else {
        ExtendHead(s[0], rest, s[1..]);
      }
    }
  }

  lemma {:induction false} JoinAppend(a: seq<string>, b: seq<string>)
    ensures JoinPath(a + b) == JoinPath(a) + JoinPath(b)
  {
    if a == [] {
      assert a + b == b;
    } else {
      JoinAppend(a[1..], b);
      assert (a + b)[1..] == a[1..] + b;
    }
  }

  lemma SegmentAtStart(c: string, rest: string, x: string)
    requires Free(c, '/') && Free(x, '/')
    requires rest == "" || rest[0] == '/'
    requires OccursAt("/" + c + rest, "/" + x + "/", 0)
    ensures c == x && rest != ""
  {
    var s, pat := "/" + c + rest, "/" + x + "/";
    assert forall i :: 0 <= i < |pat| ==> pat[i] == s[0..|pat|][i] == s[i];
    assert forall i :: 0 <= i < |c| ==> s[i + 1] == c[i] != '/';
    assert s[|x| + 1] == pat[|x| + 1] == '/';
    assert |c| <= |x|;
    assert forall i :: 0 <= i < |x| ==> s[i + 1] == pat[i + 1] == x[i] != '/';
    assert s[|c| + 1] == rest[0] == '/';
    assert forall i :: 0 <= i < |c| ==> c[i] == s[i + 1] == x[i];
  }

  lemma OccursShift(pre: string, s: string, sub: string, k: nat)
    requires k + |sub| <= |s|
    ensures OccursAt(pre + s, sub, |pre| + k) <==> OccursAt(s, sub, k)
  {
    assert (pre + s)[|pre| + k..|pre| + k + |sub|] == s[k..k + |sub|];
  }

  lemma SegmentLater(c: string, rest: string, x: string, k: nat)
    requires Free(c, '/') && k > 0
    requires OccursAt("/" + c + rest, "/" + x + "/", k)
    ensures k >= 1 + |c| && OccursAt(rest, "/" + x + "/", k - 1 - |c|)
  {
    var s, pat := "/" + c + rest, "/" + x + "/";
    assert s[k] == s[k..k + |pat|][0] == '/';
    assert forall j :: 1 <= j <= |c| ==> s[j] == c[j - 1] != '/';
    OccursShift("/" + c, rest, pat, k - 1 - |c|);
  }

  lemma {:induction false} ContainedSegment(cs: seq<string>, x: string, k: nat) returns (i: nat)
    requires Segments(cs) && Free(x, '/')
    requires OccursAt(JoinPath(cs), "/" + x + "/", k)
    ensures i + 1 < |cs| && cs[i] == x
  {
    var c, rest := cs[0], JoinPath(cs[1..]);
    if k == 0 {
      SegmentAtStart(c, rest, x);
      i := 0;
    } else {
      SegmentLater(c, rest, x, k);
      i := ContainedSegment(cs[1..], x, k - 1 - |c|);
      i := i + 1;
    }
  }

  /** A path contains "/x/" exactly when one of its segments other than the last is x. */
  lemma ContainsSegment(cs: seq<string>, x: string)
    requires Segments(cs) && Free(x, '/')
    ensures Contains(JoinPath(cs), "/" + x + "/") <==> exists i :: 0 <= i < |cs| - 1 && cs[i] == x
  {
    var s, pat := JoinPath(cs), "/" + x + "/";
    if k :| 0 <= k <= |s| - |pat| && OccursAt(s, pat, k) {
      var i := ContainedSegment(cs, x, k);
    }
    if i :| 0 <= i < |cs| - 1 && cs[i] == x {
      SegmentContained(cs, i);
    }
  }

  lemma {:induction false} SegmentContained(cs: seq<string>, i: nat)
    requires i + 1 < |cs|
    ensures Contains(JoinPath(cs), "/" + cs[i] + "/")
  {
    var pat, rest := "/" + cs[i] + "/", JoinPath(cs[1..]);
    if i == 0 {
      var tail := cs[1..][0] + JoinPath(cs[1..][1..]);
      assert rest == "/" + tail;
      ContainsMiddle("", pat, tail);
      assert JoinPath(cs) == "" + pat + tail;
    } else {
      SegmentContained(cs[1..], i - 1);
      assert cs[1..][i - 1] == cs[i];
      var k :| 0 <= k <= |rest| - |pat| && OccursAt(rest, pat, k);
      OccursShift("/" + cs[0], rest, pat, k);
    }
  }

  /* ---- what a resource path identifies ---- */

  predicate SlashFree(item: Item, resource: string) {
    Free(item.namespace, '/') && Free(item.name, '/') && Free(resource, '/')
  }

  lemma JoinOne(c: string)
    ensures JoinPath([c]) == "/" + c
  {
    assert [c][1..] == [];
  }

  lemma JoinTwo(a: string, b: string)
    ensures JoinPath([a, b]) == "/" + a + "/" + b
  {
    JoinOne(b);
    assert [a, b][1..] == [b];
  }

  lemma GroupComponents(item: Item)
    ensures JoinPath(["api", "v1"]) == "/api/v1"
    ensures JoinPath(["apis"] + Split(item.apiVersion, '/')) == "/apis/" + item.apiVersion
    ensures Segments(Split(item.apiVersion, '/'))
  {
    JoinTwo("api", "v1");
    JoinSplit(item.apiVersion);
    JoinAppend(["apis"], Split(item.apiVersion, '/'));
    JoinOne("apis");
    assert "/apis" + ("/" + item.apiVersion) == "/apis/" + item.apiVersion;
  }

  lemma JoinThree(a: seq<string>, b: seq<string>, c: seq<string>)
    ensures JoinPath(a + b + c) == JoinPath(a) + JoinPath(b) + JoinPath(c)
  {
    JoinAppend(a, b);
    JoinAppend(a + b, c);
  }

  function GroupSegments(item: Item): seq<string> {
    if item.apiVersion == "v1" then ["api", "v1"] else ["apis"] + Split(item.apiVersion, '/')
  }

  function NamespaceSegments(item: Item): seq<string> {
    if item.namespace == "" then [] else ["namespaces", item.namespace]
  }

  function Components(item: Item, resource: string): seq<string> {
    GroupSegments(item) + NamespaceSegments(item) + [resource, item.name]
  }

  lemma SegmentsJoin(item: Item)
    ensures JoinPath(GroupSegments(item)) == GroupPath(item)
    ensures JoinPath(NamespaceSegments(item)) == NamespacePath(item)
    ensures Segments(GroupSegments(item))
  {
    GroupJoins(item);
    hide GroupSegments, GroupPath, Segments;
    JoinTwo("namespaces", item.namespace);
  }

  lemma GroupJoins(item: Item)
    ensures JoinPath(GroupSegments(item)) == GroupPath(item)
    ensures Segments(GroupSegments(item))
  {
    hide JoinPath, Split;
    GroupComponents(item);
  }

  lemma PathComponents(item: Item, resource: string)
    ensures PathWith(item, resource) == JoinPath(Components(item, resource))
    ensures SlashFree(item, resource) ==> Segments(Components(item, resource))
  {
    var g, n, last := GroupSegments(item), NamespaceSegments(item), [resource, item.name];
    SegmentsJoin(item);
    JoinThree(g, n, last);
    JoinTwo(resource, item.name);
    var tail := "/" + resource + "/" + item.name;
    assert GroupPath(item) + NamespacePath(item) + tail == PathWith(item, resource);
    if SlashFree(item, resource) {
      assert Segments(g) && Segments(n) && Segments(last);
    }
  }

  /** A parsable API version has at most one slash. */
  lemma SplitCounts(apiVersion: string)
    requires ParseGroupVersion(apiVersion).Some?
    ensures 1 <= |Split(apiVersion, '/')| <= 2
  {
    if apiVersion == "/" {
      SplitCons("", "", '/');
      assert "" + ['/'] + "" == "/";
    }
  }

  lemma GroupSegmentsInjective(a: Item, b: Item)
    requires GroupSegments(a) == GroupSegments(b)
    ensures a.apiVersion == b.apiVersion
  {
    assert GroupSegments(a)[0] == GroupSegments(b)[0];
    assert "api"[..] != "apis"[..] by { assert |"api"| != |"apis"|; }
    if a.apiVersion != "v1" {
      assert b.apiVersion != "v1";
      JoinSplit(a.apiVersion);
      JoinSplit(b.apiVersion);
      assert GroupSegments(a)[1..] == Split(a.apiVersion, '/');
      assert GroupSegments(b)[1..] == Split(b.apiVersion, '/');
      assert a.apiVersion == ("/" + a.apiVersion)[1..];
      assert b.apiVersion == ("/" + b.apiVersion)[1..];
    }
  }

  lemma ConcatInjective(a: seq<string>, a': seq<string>, b: seq<string>, b': seq<string>)
    requires |a| == |b| && a + a' == b + b'
    ensures a == b && a' == b'
  {
    assert a == (a + a')[..|a|] && b == (b + b')[..|b|];
    assert a' == (a + a')[|a|..] && b' == (b + b')[|b|..];
  }

  /** A path determines the API version, namespace, resource and name it was built from. */
  lemma PathIdentity(a: Item, ra: string, b: Item, rb: string)
    requires SlashFree(a, ra) && SlashFree(b, rb)
    requires ParseGroupVersion(a.apiVersion).Some? && ParseGroupVersion(b.apiVersion).Some?
    requires PathWith(a, ra) == PathWith(b, rb)
    ensures a.apiVersion == b.apiVersion && a.namespace == b.namespace && ra == rb && a.name == b.name
  {
    PathComponents(a, ra);
    PathComponents(b, rb);
    JoinInjective(Components(a, ra), Components(b, rb));
    SplitCounts(a.apiVersion);
    SplitCounts(b.apiVersion);
    var ga, na, la := GroupSegments(a), NamespaceSegments(a), [ra, a.name];
    var gb, nb, lb := GroupSegments(b), NamespaceSegments(b), [rb, b.name];
    // group segments number two or three, namespace segments none or two
    assert |ga| + |na| == |gb| + |nb| && |ga| == |gb|;
    ConcatInjective(ga + na, la, gb + nb, lb);
    ConcatInjective(ga, na, gb, nb);
    GroupSegmentsInjective(a, b);
    assert ra == la[0] && rb == lb[0] && a.name == la[1] && b.name == lb[1];
    if a.namespace != "" {
      assert na[1] == nb[1];
    }
  }

  predicate SameObject(a: Item, b: Item) {
    a.apiVersion == b.apiVersion && a.kind == b.kind && a.namespace == b.namespace && a.name == b.name
  }

  /** Within one API version no two kinds share a resource name. */
  predicate KindsInjective(t: Table, a: Item, b: Item) {
    a.apiVersion == b.apiVersion && ResourceOf(t, a).Ok? && ResourceOf(t, a) == ResourceOf(t, b)
    ==> a.kind == b.kind
  }

  predicate Addressable(t: Table, item: Item) {
    ResourceOf(t, item).Ok? && SlashFree(item, ResourceOf(t, item).value)
  }

  /** Two addressable objects have the same path exactly when they are the same object. */
  lemma ResourcePathInjective(t: Table, a: Item, b: Item)
    requires Addressable(t, a) && Addressable(t, b) && KindsInjective(t, a, b)
    ensures PathOf(t, a) == PathOf(t, b) <==> SameObject(a, b)
  {
    if PathOf(t, a) == PathOf(t, b) {
      PathIdentity(a, ResourceOf(t, a).value, b, ResourceOf(t, b).value);
    }
  }

  /* ---- archive names ---- */

  /** Namespaces and CRDs are stored on the top level, by kind alone. */
  function ArchivePathWith(item: Item, path: string): string {
    if item.kind == "CustomResourceDefinition" then "/crds/" + item.name
    else if item.kind == "Namespace" then "/namespaces/" + item.name
    else path
  }

  /** filepath.Join of a snapshot name and an item path, both already clean. */
  function EntryName(snapshotName: string, archivePath: string): string {
    snapshotName + archivePath + ".json"
  }

  function StripName(entryName: string, snapshotName: string): string {
    ReplaceFirst(entryName, snapshotName, "")
  }

  /** The file name an entry is extracted to. */
  function Escape(path: string): string { ReplaceAll(path, '/', '|') }

  /** Stripping the snapshot name recovers the written path, whatever the path contains. */
  lemma StripRecovers(snapshotName: string, archivePath: string)
    ensures StripName(EntryName(snapshotName, archivePath), snapshotName) == archivePath + ".json"
  {
    var s := EntryName(snapshotName, archivePath);
    assert s[|snapshotName|..] == archivePath + ".json";
    assert "" + s[|snapshotName|..] == s[|snapshotName|..];
  }

  /** On paths without '|' the escape loses nothing. */
  lemma EscapeInverts(path: string)
    ensures Free(path, '|') <==> ReplaceAll(Escape(path), '|', '/') == path
  {
    if !Free(path, '|') {
      var i :| 0 <= i < |path| && path[i] == '|';
      assert ReplaceAll(Escape(path), '|', '/')[i] == '/';
    }
  }

  lemma EscapeInjective(a: string, b: string)
    requires Free(a, '|') && Free(b, '|')
    ensures Escape(a) == Escape(b) <==> a == b
  {
    EscapeInverts(a);
    EscapeInverts(b);
  }

  lemma SuffixInjective(a: string, b: string, suffix: string)
    ensures a + suffix == b + suffix <==> a == b
  {
    if a + suffix == b + suffix {
      assert a == (a + suffix)[..|a|] && b == (b + suffix)[..|b|];
    }
  }

  lemma GroupPathStart(item: Item, path: string)
    requires GroupPath(item) <= path
    ensures !("/namespaces/" <= path) && !("/crds/" <= path)
  {
    assert GroupPath(item)[1] == 'a' && path[1] == 'a';
    assert "/namespaces/"[1] == 'n' && "/crds/"[1] == 'c';
  }

  /** Different objects get different archive paths, unless two top-level objects of one kind
      share a name. */
  lemma ArchivePathInjective(t: Table, a: Item, b: Item)
    requires Addressable(t, a) && Addressable(t, b) && KindsInjective(t, a, b)
    requires a.kind == b.kind && a.kind in {"Namespace", "CustomResourceDefinition"} && a.name == b.name ==>
      SameObject(a, b)
    ensures ArchivePathWith(a, PathOf(t, a).value) == ArchivePathWith(b, PathOf(t, b).value) <==> SameObject(a, b)
  {
    var pa, pb := PathOf(t, a).value, PathOf(t, b).value;
    var xa, xb := ArchivePathWith(a, pa), ArchivePathWith(b, pb);
    ResourcePathInjective(t, a, b);
    assert GroupPath(a) <= pa && GroupPath(b) <= pb;
    GroupPathStart(a, pa);
    GroupPathStart(b, pb);
    if xa == xb && a.kind in {"Namespace", "CustomResourceDefinition"} {
      assert xa[1] == xb[1];
      if a.kind == "Namespace" {
        assert "/namespaces/" <= xb && xb[1] == 'n';
        assert a.name == xa[|"/namespaces/"|..] && b.name == xb[|"/namespaces/"|..];
      } else {
        assert "/crds/" <= xb && xb[1] == 'c';
        assert a.name == xa[|"/crds/"|..] && b.name == xb[|"/crds/"|..];
      }
    }
    if xa == xb && b.kind == "Namespace" { assert "/namespaces/" <= xa; }
    if xa == xb && b.kind == "CustomResourceDefinition" { assert "/crds/" <= xa; }
  }
}
