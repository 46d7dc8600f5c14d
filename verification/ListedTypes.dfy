/** Which types a snapshot lists, said of the discovered table alone (snapshot.go:140-166,
    server_resources.go:18-27). */
module ListedTypes {
  import opened Text
  import opened Objects
  import opened Resources
  import opened SnapshotTaking

  /** The group lists a resource of this name under this group and version. */
  predicate Has(group: APIResourceList, g: GVR) {
    ParseGroupVersion(group.groupVersion) == Some(g.gv) && exists r :: r in group.resources && r.name == g.resource
  }

  /** The group lists it, and lets its objects be listed, created, read and deleted. */
  predicate Offers(group: APIResourceList, g: GVR) {
    && ParseGroupVersion(group.groupVersion) == Some(g.gv)
    && exists r :: r in group.resources && r.name == g.resource &&
         "list" in r.verbs && "create" in r.verbs && "get" in r.verbs && "delete" in r.verbs
  }

  /** A snapshot is to hold the objects of this type: the server offers it, and it is neither nodes
      nor events. */
  predicate ToSnapshot(discovered: Table, g: GVR) {
    g.resource != "nodes" && g.resource != "events" && exists group :: group in discovered && Offers(group, g)
  }

  lemma {:induction false} GroupTypesAre(gv: GroupVersion, rs: seq<APIResource>, g: GVR)
    ensures g in GroupTypes(gv, rs) <==>
      && g.gv == gv && g.resource != "nodes" && g.resource != "events"
      && exists r :: r in rs && r.name == g.resource
  {
    if rs != [] {
      var n := |rs| - 1;
      GroupTypesAre(gv, rs[..n], g);
      assert rs == rs[..n] + [rs[n]];
    }
  }

  lemma HasMeans(group: APIResourceList, g: GVR)
    requires ParseGroupVersion(group.groupVersion).Some?
    ensures Has(group, g) <==>
      ParseGroupVersion(group.groupVersion).value == g.gv && exists r :: r in group.resources && r.name == g.resource
  {
    hide ParseGroupVersion;
  }

  /** A type is listed exactly when the table has it and it is neither nodes nor events. */
  lemma {:induction false} TypesAre(t: Table, g: GVR)
    requires WellFormed(t)
    ensures g in TypesOf(t) <==>
      g.resource != "nodes" && g.resource != "events" && exists group :: group in t && Has(group, g)
  {
    hide ParseGroupVersion, GroupTypes, Has;
    if t != [] {
      var n := |t| - 1;
      var last := t[n];
      TypesAre(t[..n], g);
      GroupTypesAre(ParseGroupVersion(last.groupVersion).value, last.resources, g);
      HasMeans(last, g);
      assert t == t[..n] + [last];
      assert forall group :: group in t <==> group in t[..n] || group == last;
    }
  }

  lemma {:induction false} FilterKeeps(rs: seq<APIResource>, r: APIResource)
    ensures r in FilterResources(rs) <==>
      r in rs && "list" in r.verbs && "create" in r.verbs && "get" in r.verbs && "delete" in r.verbs
  {
    if rs != [] {
      FilterKeeps(rs[1..], r);
      assert rs == [rs[0]] + rs[1..];
    }
  }

  lemma KeptHas(group: APIResourceList, g: GVR)
    ensures Has(group.(resources := FilterResources(group.resources)), g) <==> Offers(group, g)
    ensures Offers(group, g) ==> FilterResources(group.resources) != []
  {
    hide ParseGroupVersion, FilterResources;
    forall r
      ensures r in FilterResources(group.resources) <==>
        r in group.resources && "list" in r.verbs && "create" in r.verbs && "get" in r.verbs && "delete" in r.verbs
    {
      FilterKeeps(group.resources, r);
    }
  }

  /** What the filtered table has is what the server offers. */
  lemma {:induction false} FilteredHas(t: Table, g: GVR)
    ensures (exists group :: group in FilteredBy(t) && Has(group, g)) <==>
      exists group :: group in t && Offers(group, g)
  {
    hide Has, Offers;
    if t != [] {
      FilteredHas(t[1..], g);
      KeptHas(t[0], g);
      assert t == [t[0]] + t[1..];
      hide FilterResources;
      if group :| group in FilteredBy(t[1..]) && Has(group, g) { assert group in FilteredBy(t); }
    }
  }

  /** The types a snapshot lists are those it is to hold. */
  lemma ListedTypesAre(discovered: Table, g: GVR)
    requires WellFormed(FilteredBy(discovered))
    ensures g in TypesOf(FilteredBy(discovered)) <==> ToSnapshot(discovered, g)
  {
    hide Has, Offers, FilteredBy, TypesOf;
    TypesAre(FilteredBy(discovered), g);
    FilteredHas(discovered, g);
  }

  /** The types of the groups that the discovery filter keeps can be parsed. */
  predicate Parsable(discovered: Table) {
    forall group :: group in discovered && KeepsSome(group) ==> ParseGroupVersion(group.groupVersion).Some?
  }

  predicate KeepsSome(group: APIResourceList) {
    exists r :: r in group.resources &&
      "list" in r.verbs && "create" in r.verbs && "get" in r.verbs && "delete" in r.verbs
  }

  lemma FilterEmpty(rs: seq<APIResource>, group: APIResourceList)
    requires rs == group.resources
    ensures FilterResources(rs) != [] <==> KeepsSome(group)
  {
    hide FilterResources;
    forall r
      ensures r in FilterResources(rs) <==>
        r in rs && "list" in r.verbs && "create" in r.verbs && "get" in r.verbs && "delete" in r.verbs
    {
      FilterKeeps(rs, r);
    }
    if FilterResources(rs) != [] { assert FilterResources(rs)[0] in FilterResources(rs); }
  }

  /** A group without a usable resource is dropped, so its group version does not matter. */
  lemma {:induction false} FilteredParses(t: Table)
    ensures WellFormed(FilteredBy(t)) <==> Parsable(t)
    ensures forall group :: group in FilteredBy(t) ==> group.resources != []
  {
    hide KeepsSome, ParseGroupVersion;
    if t != [] {
      FilteredParses(t[1..]);
      FilterEmpty(t[0].resources, t[0]);
      assert t == [t[0]] + t[1..];
      hide FilterResources;
      var rest := FilteredBy(t[1..]);
      assert WellFormed(FilteredBy(t)) <==>
        WellFormed(rest) && (KeepsSome(t[0]) ==> ParseGroupVersion(t[0].groupVersion).Some?) by {
        FirstGroup(t, rest);
      }
    }
  }

  lemma FirstGroup(t: Table, rest: Table)
    requires t != [] && rest == FilteredBy(t[1..])
    ensures WellFormed(FilteredBy(t)) <==>
      WellFormed(rest) && (FilterResources(t[0].resources) != [] ==> ParseGroupVersion(t[0].groupVersion).Some?)
  {
    hide ParseGroupVersion, FilterResources;
    var kept := FilteredBy(t);
    if FilterResources(t[0].resources) != [] {
      assert kept == [kept[0]] + rest && kept[0].groupVersion == t[0].groupVersion;
      assert forall i :: 0 <= i < |rest| ==> kept[i + 1] == rest[i];
      assert forall i :: 0 < i < |kept| ==> kept[i] == rest[i - 1];
    } else {
      assert kept == rest;
    }
  }

  /** A snapshot succeeds exactly when the server answers every request: its table, whose kept groups
      parse, both markers, and list and watch of every type it is to hold. */
  lemma SucceedsMeans(replies: ClusterReplies)
    ensures Succeeds(replies) <==>
      && replies.discovery.Ok? && replies.startMarker.Ok? && replies.endMarker.Ok?
      && Parsable(replies.discovery.value)
      && forall g :: ToSnapshot(replies.discovery.value, g) ==> replies.listing(g).Ok? && replies.watching(g).Ok?
  {
    hide Parsable, FilteredBy, WellFormed, TypesOf, ToSnapshot;
    if replies.discovery.Ok? {
      var d := replies.discovery.value;
      FilteredParses(d);
      if WellFormed(FilteredBy(d)) {
        var types := TypesOf(FilteredBy(d));
        forall g ensures g in types <==> ToSnapshot(d, g) { ListedTypesAre(d, g); }
        assert forall i :: 0 <= i < |types| ==> types[i] in types;
      }
    }
  }
}
