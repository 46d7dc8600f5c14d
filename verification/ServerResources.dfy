/** pkg/cluster/server_resources.go: the kind-to-resource table of an API server, its lazily
    filled cache, and the API path that identifies an object. */
module Resources {
  import opened Text
  import opened Objects

  datatype APIResource = APIResource(name: string, kind: string, verbs: set<string>)
  datatype APIResourceList = APIResourceList(groupVersion: string, resources: seq<APIResource>)

  type Table = seq<APIResourceList>

  /* ---- discovery filter ---- */

  predicate MatchVerbs(r: APIResource) {
    {"list", "create", "get", "delete"} <= r.verbs
  }

  function FilterResources(rs: seq<APIResource>): seq<APIResource> {
    if rs == [] then []
    else (if MatchVerbs(rs[0]) then [rs[0]] else []) + FilterResources(rs[1..])
  }

  /** discovery.FilteredBy: a group that keeps no resource is dropped. */
  function FilteredBy(t: Table): Table {
    if t == [] then []
    else
      var rs := FilterResources(t[0].resources);
      (if rs == [] then [] else [t[0].(resources := rs)]) + FilteredBy(t[1..])
  }

  /* ---- what a scan of the table finds ---- */

  predicate WellFormed(t: Table) {
    forall i :: 0 <= i < |t| ==> ParseGroupVersion(t[i].groupVersion).Some?
  }

  /** Some resource of the table has exactly this group, version and kind. */
  predicate Matches(t: Table, gvk: GVK, i: int, j: int) {
    && 0 <= i < |t| && 0 <= j < |t[i].resources|
    && ParseGroupVersion(t[i].groupVersion) == Some(gvk.gv)
    && t[i].resources[j].kind == gvk.kind
  }

  predicate After(i: int, j: int, i': int, j': int) { i < i' || (i == i' && j < j') }

  ghost predicate IsLastMatch(t: Table, gvk: GVK, i: int, j: int) {
    && Matches(t, gvk, i, j)
    && forall i', j' :: Matches(t, gvk, i', j') ==> !After(i, j, i', j')
  }

  function AddResources(names: map<GVK, string>, gv: GroupVersion, rs: seq<APIResource>): map<GVK, string>
    decreases rs
  {
    if rs == [] then names
    else AddResources(names[GVK(gv, rs[0].kind) := rs[0].name], gv, rs[1..])
  }

  /** The cache after a scan; the scan stops at the first malformed group version. */
  function Fill(names: map<GVK, string>, t: Table): map<GVK, string>
    decreases t
  {
    if t == [] then names
    else
      match ParseGroupVersion(t[0].groupVersion)
      case None => names
      case Some(gv) => Fill(AddResources(names, gv, t[0].resources), t[1..])
  }

  const NOT_PARSED: string := "unable to parse GroupVersion"
  const NOT_FOUND: string := "unable to find kind in server resources"

  /** A lookup that never uses the cache. */
  function Uncached(t: Table, gvk: GVK): Result<string> {
    if !WellFormed(t) then Err(NOT_PARSED)
    else
      var names := Fill(map[], t);
      if gvk in names then Ok(names[gvk]) else Err(NOT_FOUND)
  }

  lemma {:induction false} AddResourcesFinds(names: map<GVK, string>, gv: GroupVersion, rs: seq<APIResource>, gvk: GVK)
    ensures gvk.gv != gv ==> (gvk in AddResources(names, gv, rs) <==> gvk in names)
    ensures gvk.gv != gv && gvk in names ==> AddResources(names, gv, rs)[gvk] == names[gvk]
    ensures gvk.gv == gv ==>
      || (gvk in AddResources(names, gv, rs) && exists j ::
           0 <= j < |rs| && rs[j].kind == gvk.kind && AddResources(names, gv, rs)[gvk] == rs[j].name
           && forall k :: j < k < |rs| ==> rs[k].kind != gvk.kind)
      || ((forall j :: 0 <= j < |rs| ==> rs[j].kind != gvk.kind)
          && (gvk in AddResources(names, gv, rs) <==> gvk in names)
          && (gvk in names ==> AddResources(names, gv, rs)[gvk] == names[gvk]))
    decreases rs
  {
    if rs != [] {
      var names' := names[GVK(gv, rs[0].kind) := rs[0].name];
      var r := AddResources(names', gv, rs[1..]);
      AddResourcesFinds(names', gv, rs[1..], gvk);
      if gvk.gv == gv {
        if j :| 0 <= j < |rs[1..]| && rs[1..][j].kind == gvk.kind && gvk in r && r[gvk] == rs[1..][j].name
                && forall k :: j < k < |rs[1..]| ==> rs[1..][k].kind != gvk.kind {
          assert rs[j + 1].kind == gvk.kind && r[gvk] == rs[j + 1].name;
          forall k | j + 1 < k < |rs| ensures rs[k].kind != gvk.kind { assert rs[k] == rs[1..][k - 1]; }
        } else {
          forall k | 0 < k < |rs| ensures rs[k].kind != gvk.kind { assert rs[k] == rs[1..][k - 1]; }
          if rs[0].kind == gvk.kind { assert gvk == GVK(gv, rs[0].kind); }
        }
      }
    }
  }

  lemma MatchesShift(t: Table, gvk: GVK, i: int, j: int)
    requires t != [] && i >= 0
    ensures Matches(t, gvk, i + 1, j) <==> Matches(t[1..], gvk, i, j)
  {
    if 0 <= i < |t| - 1 { assert t[1..][i] == t[i + 1]; }
  }

  lemma {:induction false} FillFinds(names: map<GVK, string>, t: Table, gvk: GVK)
    requires WellFormed(t)
    ensures
      || (gvk in Fill(names, t)
          && exists i, j :: IsLastMatch(t, gvk, i, j) && Fill(names, t)[gvk] == t[i].resources[j].name)
      || ((forall i, j :: !Matches(t, gvk, i, j))
          && (gvk in Fill(names, t) <==> gvk in names)
          && (gvk in names ==> Fill(names, t)[gvk] == names[gvk]))
    decreases t
  {
    if t != [] {
      var gv := ParseGroupVersion(t[0].groupVersion).value;
      var rs := t[0].resources;
      var names' := AddResources(names, gv, rs);
      AddResourcesFinds(names, gv, rs, gvk);
      FillFinds(names', t[1..], gvk);
      forall i, j | Matches(t, gvk, i, j) && i > 0 ensures Matches(t[1..], gvk, i - 1, j) {
        MatchesShift(t, gvk, i - 1, j);
      }
      if i, j :| IsLastMatch(t[1..], gvk, i, j) && gvk in Fill(names, t)
                 && Fill(names, t)[gvk] == t[1..][i].resources[j].name {
        MatchesShift(t, gvk, i, j);
        assert t[i + 1] == t[1..][i];
        assert IsLastMatch(t, gvk, i + 1, j);
      } else if gvk.gv == gv {
        if j :| 0 <= j < |rs| && rs[j].kind == gvk.kind && gvk in names' && names'[gvk] == rs[j].name
                && forall k :: j < k < |rs| ==> rs[k].kind != gvk.kind {
          assert Matches(t, gvk, 0, j);
          assert IsLastMatch(t, gvk, 0, j);
        }
      }
    }
  }

  /** Without a cache a lookup returns the last resource of that group, version and kind, and
      fails exactly when there is none. */
  lemma UncachedIsLastMatch(t: Table, gvk: GVK)
    requires WellFormed(t)
    ensures Uncached(t, gvk).Ok? <==> exists i, j :: Matches(t, gvk, i, j)
    ensures Uncached(t, gvk).Ok? ==>
      exists i, j :: IsLastMatch(t, gvk, i, j) && Uncached(t, gvk).value == t[i].resources[j].name
  {
    FillFinds(map[], t, gvk);
  }

  /* ---- the cached lookup ---- */

  /** What ResourceName answers, and the cache it leaves behind. */
  function CachedLookup(t: Table, cache: map<GVK, string>, gvk: GVK): (Result<string>, map<GVK, string>) {
    if gvk in cache then (Ok(cache[gvk]), cache)
    else
      var cache' := Fill(cache, t);
      (if !WellFormed(t) then Err(NOT_PARSED)
       else if gvk in cache' then Ok(cache'[gvk]) else Err(NOT_FOUND), cache')
  }

  /** The caches that lookups can leave behind, starting from the empty one. */
  function CacheAfter(t: Table, queries: seq<GVK>): map<GVK, string> {
    if queries == [] then map[]
    else CachedLookup(t, CacheAfter(t, queries[..|queries| - 1]), queries[|queries| - 1]).1
  }

  lemma {:induction false} AddResourcesMerge(names: map<GVK, string>, more: map<GVK, string>, gv: GroupVersion,
        rs: seq<APIResource>)
    ensures AddResources(names + more, gv, rs) == names + AddResources(more, gv, rs)
    decreases rs
  {
    if rs != [] {
      var k, v := GVK(gv, rs[0].kind), rs[0].name;
      assert (names + more)[k := v] == names + more[k := v];
      AddResourcesMerge(names, more[k := v], gv, rs[1..]);
    }
  }

  lemma {:induction false} FillMerge(names: map<GVK, string>, more: map<GVK, string>, t: Table)
    ensures Fill(names + more, t) == names + Fill(more, t)
    decreases t
  {
    if t != [] && ParseGroupVersion(t[0].groupVersion).Some? {
      var gv := ParseGroupVersion(t[0].groupVersion).value;
      AddResourcesMerge(names, more, gv, t[0].resources);
      FillMerge(names, AddResources(more, gv, t[0].resources), t[1..]);
    }
  }

  lemma {:induction false} CacheStates(t: Table, queries: seq<GVK>)
    ensures CacheAfter(t, queries) == map[] || CacheAfter(t, queries) == Fill(map[], t)
  {
    if queries != [] {
      CacheStates(t, queries[..|queries| - 1]);
      var full := Fill(map[], t);
      FillMerge(full, map[], t);
      assert full + map[] == full && full + full == full;
    }
  }

  /** The cache never changes an answer exactly when the group versions are well formed or the
      scan does not reach the kind before the malformed one. */
  lemma CacheAgreement(t: Table, gvk: GVK)
    ensures (forall queries :: CachedLookup(t, CacheAfter(t, queries), gvk).0 == Uncached(t, gvk))
       <==> (WellFormed(t) || gvk !in Fill(map[], t))
  {
    var full := Fill(map[], t);
    forall queries | WellFormed(t) || gvk !in full
      ensures CachedLookup(t, CacheAfter(t, queries), gvk).0 == Uncached(t, gvk)
    {
      CacheStates(t, queries);
      FillMerge(full, map[], t);
      assert full + map[] == full && full + full == full;
    }
    if !WellFormed(t) && gvk in full {
      assert CacheAfter(t, []) == map[];
      assert CacheAfter(t, [gvk]) == full;
      assert CachedLookup(t, CacheAfter(t, [gvk]), gvk).0 == Ok(full[gvk]);
    }
  }

  const USED_VERBS: set<string> := {"list", "create", "get", "delete"}

  /** A group that serves one usable resource survives the discovery filter. */
  lemma KeptGroup(gv: string, r: APIResource, rest: Table)
    requires MatchVerbs(r)
    ensures FilteredBy([APIResourceList(gv, [r])] + rest) == [APIResourceList(gv, [r])] + FilteredBy(rest)
  {
    var group := APIResourceList(gv, [r]);
    var t := [group] + rest;
    assert t[0] == group && t[1..] == rest && [r][1..] == [];
    assert FilterResources([r]) == [r] + FilterResources([r][1..]) == [r];
    assert FilteredBy(t) == [group.(resources := [r])] + FilteredBy(t[1..]);
  }

  lemma FillOneGroup(names: map<GVK, string>, gv: string, r: APIResource, rest: Table)
    requires ParseGroupVersion(gv).Some?
    ensures Fill(names, [APIResourceList(gv, [r])] + rest)
         == Fill(names[GVK(ParseGroupVersion(gv).value, r.kind) := r.name], rest)
  {
    hide ParseGroupVersion;
    var v, t := ParseGroupVersion(gv).value, [APIResourceList(gv, [r])] + rest;
    assert t[0] == APIResourceList(gv, [r]) && t[1..] == rest && [r][1..] == [];
    var more := names[GVK(v, r.kind) := r.name];
    assert AddResources(names, v, [r]) == AddResources(more, v, [r][1..]) == more;
    assert Fill(names, t) == Fill(AddResources(names, v, t[0].resources), t[1..]);
  }

  /** A group and a version without slashes are parsed apart; two slashes are too many. */
  lemma GroupVersionParses(g: string, v: string, more: string)
    requires Free(g, '/') && Free(v, '/') && Free(more, '/') && g != ""
    ensures ParseGroupVersion(g) == Some(GroupVersion("", g))
    ensures ParseGroupVersion(g + "/" + v) == Some(GroupVersion(g, v))
    ensures ParseGroupVersion(g + "/" + (v + "/" + more)).None?
  {
    SplitCons(g, v, '/');
    SplitCons(v, more, '/');
    SplitCons(more, "", '/');
    SplitCons(g, v + "/" + more, '/');
    hide Split;
    assert forall rest :: |g + "/" + rest| > 1 && (g + "/" + rest)[0] == g[0] != '/' by {
      assert forall rest :: (g + "/" + rest)[0] == g[0];
    }
  }

  /** The malformed case is real, also for a table that has gone through the discovery filter:
      the first query fails, the second, identical one succeeds. */
  lemma CacheDisagreesOnMalformedTable()
    ensures exists discovered: Table, gvk: GVK ::
      var t := FilteredBy(discovered);
      && CachedLookup(t, CacheAfter(t, []), gvk).0 == Err(NOT_PARSED)
      && CachedLookup(t, CacheAfter(t, [gvk]), gvk).0 == Ok("pods")
  {
    var pods, odd := APIResource("pods", "Pod", USED_VERBS), APIResource("widgets", "Widget", USED_VERBS);
    var bad: Table := [APIResourceList("a/b/c", [odd])];
    var discovered: Table := [APIResourceList("v1", [pods])] + bad;
    var gvk := GVK(GroupVersion("", "v1"), "Pod");
    GroupVersionParses("a", "b", "c");
    GroupVersionParses("v1", "", "");
    assert "a" + "/" + ("b" + "/" + "c") == "a/b/c";
    hide ParseGroupVersion;
    KeptGroup("v1", pods, bad);
    KeptGroup("a/b/c", odd, []);
    assert bad + [] == bad;
    var t := FilteredBy(discovered);
    assert t == discovered && ParseGroupVersion(t[1].groupVersion).None?;
    FillOneGroup(map[], "v1", pods, bad);
    assert Fill(map[], t) == map[gvk := "pods"];
    assert CacheAfter(t, []) == map[];
    assert CacheAfter(t, [gvk]) == CachedLookup(t, CacheAfter(t, [gvk][..0]), [gvk][0]).1;
    hide FilteredBy, Fill, CacheAfter;
    assert CachedLookup(t, CacheAfter(t, []), gvk).0 == Err(NOT_PARSED);
  }

  /* ---- the API path of an object ---- */

  function GroupPath(item: Item): string {
    if item.apiVersion == "v1" then "/api/v1" else "/apis/" + item.apiVersion
  }

  function NamespacePath(item: Item): string {
    if item.namespace == "" then "" else "/namespaces/" + item.namespace
  }

  /** The path of an item whose kind is served as `resource`. */
  function PathWith(item: Item, resource: string): string {
    GroupPath(item) + NamespacePath(item) + "/" + resource + "/" + item.name
  }

  function ResourceOf(t: Table, item: Item): Result<string> {
    match ParseGroupVersion(item.apiVersion)
    case None => Err(NOT_PARSED)
    case Some(gv) => Uncached(t, GVK(gv, item.kind))
  }

  function PathOf(t: Table, item: Item): Result<string> {
    match ResourceOf(t, item)
    case Err(message) => Err(message)
    case Ok(resource) => Ok(PathWith(item, resource))
  }

  /** Callers that drop the error see the empty string. */
  function PathOrEmpty(t: Table, item: Item): string {
    match PathOf(t, item) case Ok(p) => p case Err(_) => ""
  }

  class ServerResources {
    const table: Table
    var resourceNames: map<GVK, string>

    /** newServerResources. */
    constructor (discovered: Table)
      ensures table == FilteredBy(discovered) && resourceNames == map[]
    {
      table := FilteredBy(discovered);
      resourceNames := map[];
    }

    /** The cache is one that lookups can leave behind. */
    ghost predicate Valid()
      reads this
    {
      resourceNames == map[] || resourceNames == Fill(map[], table)
    }

    /** No lookup has failed half-way yet, so the cache cannot change an answer. */
    ghost predicate Transparent()
      reads this
    {
      Valid() && (resourceNames == map[] || WellFormed(table))
    }

    method ResourceName(gvk: GVK) returns (r: Result<string>)
      requires Valid()
      modifies this`resourceNames
      ensures Valid()
      ensures (r, resourceNames) == CachedLookup(table, old(resourceNames), gvk)
      ensures old(Transparent()) ==> r == Uncached(table, gvk)
      ensures old(Transparent()) && r.Ok? ==> Transparent() && WellFormed(table)
    {
      if gvk in resourceNames {
        return Ok(resourceNames[gvk]);
      }
      ghost var before := resourceNames;
      ghost var full := Fill(map[], table);
      FillMerge(full, map[], table);
      assert full + map[] == full && full + full == full;
      var i := 0;
      while i < |table|
        invariant 0 <= i <= |table|
        invariant WellFormed(table[..i])
        invariant Fill(resourceNames, table[i..]) == Fill(before, table)
      {
        assert table[i..][0] == table[i] && table[i..][1..] == table[i + 1..];
        var gv := ParseGroupVersion(table[i].groupVersion);
        if gv.None? {
          return Err(NOT_PARSED);
        }
        var rs := table[i].resources;
        ghost var names := resourceNames;
        var j := 0;
        while j < |rs|
          invariant 0 <= j <= |rs|
          invariant AddResources(resourceNames, gv.value, rs[j..]) == AddResources(names, gv.value, rs)
        {
          assert rs[j..][0] == rs[j] && rs[j..][1..] == rs[j + 1..];
          resourceNames := resourceNames[GVK(gv.value, rs[j].kind) := rs[j].name];
          j := j + 1;
        }
        i := i + 1;
      }
      assert table[..i] == table;
      return if gvk in resourceNames then Ok(resourceNames[gvk]) else Err(NOT_FOUND);
    }

    method ResourcePath(item: Item) returns (r: Result<string>)
      requires Valid()
      modifies this`resourceNames
      ensures Valid()
      ensures old(Transparent()) ==> r == PathOf(table, item)
      ensures old(Transparent()) && r.Ok? ==> Transparent() && WellFormed(table)
    {
      var path := "/api/v1";
      if item.apiVersion != "v1" {
        path := "/apis/" + item.apiVersion;
      }
      if item.namespace != "" {
        path := path + "/namespaces/" + item.namespace;
      }
      assert path == GroupPath(item) + NamespacePath(item);
      var gv := ParseGroupVersion(item.apiVersion);
      if gv.None? {
        return Err(NOT_PARSED);
      }
      var name := ResourceName(GVK(gv.value, item.kind));
      match name
      case Err(message) => return Err(message);
      case Ok(resource) => return Ok(path + "/" + resource + "/" + item.name);
    }
  }
}
