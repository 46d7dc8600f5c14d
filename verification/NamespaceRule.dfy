/** What excludeNamespaces really tests (pkg/cluster/restore_pref.go:45-51 and :68-73). The
    documentation of the repository speaks of exact matches (README.md:165); the code looks for
    substrings of paths, and this module says, segment by segment, what those find. */
module NamespaceRule {
  import opened Text
  import opened Objects
  import opened Resources
  import opened Paths
  import opened RestorePreference
  import opened ApiPatterns
  import opened Classification

  predicate EndsIn(c: string, s: string) {
    |s| <= |c| && c[|c| - |s|..] == s
  }

  /** The text n follows directly after segment i, which ends in s. */
  predicate FollowsAt(cs: seq<string>, s: string, n: string, i: int) {
    0 <= i < |cs| && EndsIn(cs[i], s) && "/" + n <= JoinPath(cs[i + 1..])
  }

  /** An occurrence that starts within the first segment ends that segment with s. */
  lemma StartsInside(c: string, rest: string, s: string, n: string, k: nat)
    requires Free(c, '/') && Free(s, '/') && s != "" && k <= |c|
    requires rest == "" || rest[0] == '/'
    requires OccursAt("/" + c + rest, s + "/" + n, k)
    ensures EndsIn(c, s) && "/" + n <= rest
  {
    var p, pat := "/" + c + rest, s + "/" + n;
    assert forall i :: 0 <= i < |pat| ==> pat[i] == p[k..k + |pat|][i] == p[k + i];
    assert forall j :: 1 <= j <= |c| ==> p[j] == c[j - 1] != '/';
    assert forall i :: 0 <= i < |s| ==> p[k + i] == pat[i] == s[i] != '/';
    assert p[k + |s|] == pat[|s|] == '/';
    assert p[0] == '/' && p[k + 0] != '/';
    assert k >= 1 && k + |s| > |c|;
    assert p[|c| + 1..] == rest;
    assert p[|c| + 1] == rest[0] == '/';
    assert forall j :: k <= j < k + |s| ==> p[j] == s[j - k] != '/';
    assert k + |s| == |c| + 1;
    assert forall i :: 0 <= i < |s| ==> c[|c| - |s| + i] == p[k + i] == s[i];
    assert forall i :: 0 <= i < |n| + 1 ==> rest[i] == p[k + |s| + i] == pat[|s| + i] == ("/" + n)[i];
  }

  lemma StartsLater(c: string, rest: string, pat: string, k: nat)
    requires k >= 1 + |c| && OccursAt("/" + c + rest, pat, k)
    ensures OccursAt(rest, pat, k - 1 - |c|)
  {
    OccursShift("/" + c, rest, pat, k - 1 - |c|);
  }

  lemma RestIsPath(cs: seq<string>)
    ensures JoinPath(cs) == "" || JoinPath(cs)[0] == '/'
  {}

  lemma {:induction false} OccurrenceFollows(cs: seq<string>, s: string, n: string, k: nat) returns (i: nat)
    requires Segments(cs) && Free(s, '/') && s != ""
    requires OccursAt(JoinPath(cs), s + "/" + n, k)
    ensures FollowsAt(cs, s, n, i)
  {
    var c, rest := cs[0], JoinPath(cs[1..]);
    if k <= |c| {
      RestIsPath(cs[1..]);
      StartsInside(c, rest, s, n, k);
      i := 0;
    } else {
      StartsLater(c, rest, s + "/" + n, k);
      i := OccurrenceFollows(cs[1..], s, n, k - 1 - |c|);
      assert cs[1..][i + 1..] == cs[i + 2..];
      i := i + 1;
    }
  }

  lemma {:induction false} FollowingOccurs(cs: seq<string>, s: string, n: string, i: nat)
    requires FollowsAt(cs, s, n, i)
    ensures Contains(JoinPath(cs), s + "/" + n)
  {
    var c, rest, pat := cs[0], JoinPath(cs[1..]), s + "/" + n;
    if i == 0 {
      var pre, post := "/" + c[..|c| - |s|], rest[|n| + 1..];
      assert c == c[..|c| - |s|] + s && rest == "/" + n + post;
      ContainsMiddle(pre, pat, post);
      assert JoinPath(cs) == pre + pat + post;
    } else {
      assert cs[1..][i - 1] == cs[i] && cs[1..][i..] == cs[i + 1..];
      FollowingOccurs(cs[1..], s, n, i - 1);
      var k :| 0 <= k <= |rest| - |pat| && OccursAt(rest, pat, k);
      OccursShift("/" + c, rest, pat, k);
    }
  }

  /** A path contains "s/n" exactly when n directly follows a segment that ends in s. */
  lemma ContainsAfter(cs: seq<string>, s: string, n: string)
    requires Segments(cs) && Free(s, '/') && s != ""
    ensures Contains(JoinPath(cs), s + "/" + n) <==> exists i :: FollowsAt(cs, s, n, i)
  {
    var p, pat := JoinPath(cs), s + "/" + n;
    if k :| 0 <= k <= |p| - |pat| && OccursAt(p, pat, k) {
      var i := OccurrenceFollows(cs, s, n, k);
    }
    if i :| FollowsAt(cs, s, n, i) {
      FollowingOccurs(cs, s, n, i);
    }
  }

  /** A text without slashes follows a segment exactly when it begins the next one. */
  lemma BeginsNext(cs: seq<string>, s: string, n: string, i: int)
    requires Segments(cs) && Free(n, '/')
    ensures FollowsAt(cs, s, n, i) <==> 0 <= i < |cs| - 1 && EndsIn(cs[i], s) && n <= cs[i + 1]
  {
    if 0 <= i < |cs| - 1 {
      var c, rest := cs[i + 1], JoinPath(cs[i + 2..]);
      assert cs[i + 1..][0] == c && cs[i + 1..][1..] == cs[i + 2..];
      RestIsPath(cs[i + 2..]);
      StartsSegment(c, rest, n);
    }
  }

  lemma StartsSegment(c: string, rest: string, n: string)
    requires Free(c, '/') && Free(n, '/') && (rest == "" || rest[0] == '/')
    ensures "/" + n <= "/" + c + rest <==> n <= c
  {
    var p := c + rest;
    assert ("/" + c + rest)[1..] == p && ("/" + n)[1..] == n;
    assert "/" + c + rest == "/" + p;
    assert "/" + n <= "/" + p <==> n <= p by {
      assert n <= p ==> "/" + p == "/" + n + p[|n|..];
    }
    assert forall k :: 0 <= k < |n| && n <= p ==> p[k] == n[k] != '/';
    assert rest != "" ==> p[|c|] == rest[0];
    assert p[..|c|] == c;
  }

  /* ---- the rule ---- */

  /** The segments of the file name that an object below the top level is archived under. */
  function EntrySegments(t: Table, item: Item): seq<string>
    requires Addressable(t, item)
  {
    Components(item.(name := item.name + ".json"), ResourceOf(t, item).value)
  }

  lemma EntryIsJoined(t: Table, item: Item)
    requires Addressable(t, item) && !TopLevel(item)
    ensures EntryPath(t, item) == JoinPath(EntrySegments(t, item)) && Segments(EntrySegments(t, item))
  {
    hide ResourceOf, Split, GroupSegments;
    var resource := ResourceOf(t, item).value;
    DeepPath(t, item);
    PathWithJson(item, resource);
    PathComponents(item.(name := item.name + ".json"), resource);
  }

  /** The rule drops an object exactly when some listed text directly follows a segment that ends
      in "namespaces". */
  lemma NamespaceRuleMeans(spec: PreferenceSpec, t: Table, item: Item)
    requires Addressable(t, item) && !TopLevel(item)
    ensures Mentions(EntryPath(t, item), "namespaces/", spec.excludeNamespaces)
       <==> exists n, i :: n in spec.excludeNamespaces && FollowsAt(EntrySegments(t, item), "namespaces", n, i)
  {
    hide Contains, FollowsAt, EntryPath, EntrySegments, Addressable;
    EntryIsJoined(t, item);
    forall n ensures Contains(EntryPath(t, item), "namespaces/" + n)
                <==> exists i :: FollowsAt(EntrySegments(t, item), "namespaces", n, i) {
      ContainsAfter(EntrySegments(t, item), "namespaces", n);
      assert "namespaces" + "/" + n == "namespaces/" + n;
    }
  }

  /** No part of the path other than the literal segment before the namespace ends in
      "namespaces". */
  predicate PlainSegments(t: Table, item: Item)
    requires Addressable(t, item)
  {
    && (forall c :: c in GroupSegments(item) ==> !EndsIn(c, "namespaces"))
    && !EndsIn(item.namespace, "namespaces") && !EndsIn(ResourceOf(t, item).value, "namespaces")
  }

  /** A listed name without slashes drops an ordinary object exactly when it begins the object's
      namespace. So the match is exact only if no listed name begins another namespace's name. */
  lemma NamespacePrefixRule(spec: PreferenceSpec, t: Table, item: Item)
    requires Addressable(t, item) && !TopLevel(item) && PlainSegments(t, item)
    requires forall n :: n in spec.excludeNamespaces ==> Free(n, '/')
    ensures Mentions(EntryPath(t, item), "namespaces/", spec.excludeNamespaces)
       <==> item.namespace != "" && exists n :: n in spec.excludeNamespaces && n <= item.namespace
  {
    hide FollowsAt, EntryPath, Addressable, Mentions, ResourceOf;
    NamespaceRuleMeans(spec, t, item);
    EntryIsJoined(t, item);
    forall n | Free(n, '/') ensures (exists i :: FollowsAt(EntrySegments(t, item), "namespaces", n, i))
                               <==> item.namespace != "" && n <= item.namespace {
      forall i ensures FollowsAt(EntrySegments(t, item), "namespaces", n, i)
                  <==> item.namespace != "" && i == |GroupSegments(item)| && n <= item.namespace {
        BeginsNext(EntrySegments(t, item), "namespaces", n, i);
        PlainPosition(t, item, i);
      }
      assert item.namespace != "" && n <= item.namespace ==>
        FollowsAt(EntrySegments(t, item), "namespaces", n, |GroupSegments(item)|);
    }
  }

  lemma PlainPosition(t: Table, item: Item, i: int)
    requires Addressable(t, item) && PlainSegments(t, item)
    ensures var cs, g := EntrySegments(t, item), |GroupSegments(item)|;
      && (0 <= i < |cs| - 1 && EndsIn(cs[i], "namespaces") <==> item.namespace != "" && i == g)
      && (item.namespace != "" ==> g + 1 < |cs| && cs[g + 1] == item.namespace)
  {
    hide ResourceOf, Split;
    var g, n := GroupSegments(item), NamespaceSegments(item);
    var resource, name := ResourceOf(t, item).value, item.name + ".json";
    var cs := g + n + [resource, name];
    assert GroupSegments(item.(name := name)) == g && NamespaceSegments(item.(name := name)) == n;
    assert cs == EntrySegments(t, item);
    if 0 <= i < |g| { assert cs[i] == g[i]; }
    if |g| <= i < |g| + |n| { assert cs[i] == n[i - |g|]; }
    if i == |g| + |n| { assert cs[i] == resource; }
    if item.namespace != "" { assert cs[|g| + 1] == n[1]; }
  }

  lemma BeginningInPath(item: Item, resource: string, n: string)
    requires item.namespace != "" && n <= item.namespace
    ensures Contains(PathWith(item, resource) + ".json", "namespaces/" + n)
  {
    hide Contains;
    var more := item.namespace[|n|..];
    var a, b := GroupPath(item) + "/", "namespaces/" + n;
    var c := more + ("/" + resource + "/" + item.name + ".json");
    assert item.namespace == n + more;
    assert NamespacePath(item) == "/" + b + more;
    assert PathWith(item, resource) + ".json" == a + b + c;
    ContainsMiddle(a, b, c);
  }

  /** A listed name that begins an object's namespace drops the object. */
  lemma PrefixDropped(spec: PreferenceSpec, t: Table, item: Item, n: string)
    requires Addressable(t, item) && !TopLevel(item) && item.namespace != ""
    requires n in spec.excludeNamespaces && n <= item.namespace
    ensures Prefered(spec, EntryPath(t, item)) == Exclude
  {
    hide Contains, MatchesAny, ResourceOf, EntryPath;
    DeepPath(t, item);
    BeginningInPath(item, ResourceOf(t, item).value, n);
  }

  /** So the match is not exact: with only "kube" listed, everything in the namespace
      "kube-public" is dropped, although that namespace counts as a user namespace. */
  lemma KubePublicIsDropped(t: Table, item: Item) returns (spec: PreferenceSpec)
    requires Addressable(t, item) && !TopLevel(item) && item.namespace == "kube-public"
    ensures spec.excludeNamespaces == ["kube"] && spec.excludeApiPathes == []
    ensures UserNamespace(spec, item.namespace) && Prefered(spec, EntryPath(t, item)) == Exclude
  {
    spec := PreferenceSpec(["kube"], [], [], [], []);
    assert "kube" == "kube-public"[..4];
    hide Addressable, Prefered, EntryPath;
    PrefixDropped(spec, t, item, "kube");
    assert |"kube"| != |"kube-public"|;
  }

  /* ---- Namespace objects ---- */

  lemma OccursLeft(a: string, b: string, n: string, k: nat)
    requires k + |n| <= |a|
    ensures OccursAt(a + b, n, k) <==> OccursAt(a, n, k)
  {
    assert (a + b)[k..k + |n|] == a[k..k + |n|];
  }

  /** A text without the character occurs on one side of it. */
  lemma ContainsPart(a: string, c: char, b: string, n: string)
    requires Free(n, c)
    ensures Contains(a + [c] + b, n) <==> Contains(a, n) || Contains(b, n)
  {
    var p := a + [c] + b;
    if k :| 0 <= k <= |p| - |n| && OccursAt(p, n, k) {
      assert a + ([c] + b) == p;
      assert forall i :: 0 <= i < |n| ==> n[i] == p[k..k + |n|][i] == p[k + i];
      assert p[|a|] == c;
      if k + |n| <= |a| {
        OccursLeft(a, [c] + b, n, k);
      } else {
        assert forall j :: k <= j < k + |n| ==> p[j] == n[j - k] != c;
        hide Free;
        OccursShift(a + [c], b, n, k - |a| - 1);
      }
    }
    hide Free, OccursAt;
    if k :| 0 <= k <= |a| - |n| && OccursAt(a, n, k) {
      assert a + ([c] + b) == p;
      OccursLeft(a, [c] + b, n, k);
      assert OccursAt(p, n, k);
    }
    if k :| 0 <= k <= |b| - |n| && OccursAt(b, n, k) {
      OccursShift(a + [c], b, n, k);
      assert OccursAt(p, n, |a + [c]| + k);
    }
  }

  /** A listed name without slashes drops a Namespace object exactly when it occurs in the
      object's file name, or in the word "namespaces". */
  lemma NamespaceObjectRule(spec: PreferenceSpec, t: Table, item: Item)
    requires item.kind == "Namespace"
    requires forall n :: n in spec.excludeNamespaces ==> Free(n, '/')
    ensures Prefered(spec, EntryPath(t, item)) == Exclude
       <==> exists n :: n in spec.excludeNamespaces && (Contains("namespaces", n) || Contains(item.name + ".json", n))
  {
    hide Contains, EntryPath;
    NamespaceObject(spec, t, item);
    forall n | n in spec.excludeNamespaces
      ensures Contains("/namespaces/" + item.name + ".json", "" + n)
         <==> Contains("namespaces", n) || Contains(item.name + ".json", n)
    {
      assert "" + n == n;
      ContainsPart("", '/', "namespaces/" + item.name + ".json", n);
      ContainsPart("namespaces", '/', item.name + ".json", n);
      assert "" + ['/'] + ("namespaces/" + item.name + ".json") == "/namespaces/" + item.name + ".json";
      assert "namespaces" + ['/'] + (item.name + ".json") == "namespaces/" + item.name + ".json";
      EmptyContains(n);
    }
  }

  lemma EmptyContains(n: string)
    ensures Contains("", n) ==> n == "" && Contains("namespaces", n)
  {
    if Contains("", n) { assert OccursAt("namespaces", "", 0); }
  }
}
