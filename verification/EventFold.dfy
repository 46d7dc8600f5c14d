/** pkg/cluster/snapshot.go, the synchronisation step: watch events collected while the resource
    lists were read are folded into the joined list, up to the version of the end marker. */
module EventFold {
  import opened Text
  import opened Objects
  import opened Resources
  import opened Paths

  datatype EventType = Added | Modified | Deleted | Bookmark | Error
  /** An event carries an unstructured object, or something else that the fold only logs. */
  datatype WatchEvent = ItemEvent(kind: EventType, item: Item) | OtherEvent

  predicate IsOlderValidResourceVersion(rv: string, refrv: string) {
    && ParseInt64(rv).Some? && ParseInt64(refrv).Some?
    && ParseInt64(rv).value < ParseInt64(refrv).value
  }

  predicate IsNewerValidResourceVersion(rv: string, refrv: string) {
    && ParseInt64(rv).Some? && ParseInt64(refrv).Some?
    && ParseInt64(rv).value > ParseInt64(refrv).value
  }

  /* ---- the fold as a function ---- */

  type PathFunction = Item -> string

  function PathFn(t: Table): PathFunction {
    (item: Item) => PathOrEmpty(t, item)
  }

  /** The first position whose path is p, or -1. */
  function Find(path: PathFunction, list: seq<Item>, p: string): (i: int)
    ensures -1 <= i < |list|
    ensures i >= 0 ==> path(list[i]) == p
    ensures forall j :: 0 <= j < (if i < 0 then |list| else i) ==> path(list[j]) != p
  {
    if list == [] then -1
    else if path(list[0]) == p then 0
    else
      var i := Find(path, list[1..], p);
      if i < 0 then -1 else i + 1
  }

  datatype Effect = Ignore | Store | Remove

  /** What an event does to the stored item of its path, if there is one. */
  function EffectOn(endRV: string, stored: Option<Item>, e: WatchEvent): (r: Effect)
    ensures r.Remove? ==> stored.Some?
    ensures !r.Ignore? ==> e.ItemEvent? && IsOlderValidResourceVersion(e.item.resourceVersion, endRV)
  {
    if e.OtherEvent? || !IsOlderValidResourceVersion(e.item.resourceVersion, endRV) then Ignore
    else if stored.Some? && !IsNewerValidResourceVersion(e.item.resourceVersion, stored.value.resourceVersion)
      then Ignore
    else
      match e.kind
      case Added | Modified => Store
      case Deleted => if stored.Some? then Remove else Ignore
      case _ => Ignore
  }

  function FoldStep(path: PathFunction, endRV: string, list: seq<Item>, e: WatchEvent): seq<Item> {
    if e.OtherEvent? then list
    else
      var i := Find(path, list, path(e.item));
      match EffectOn(endRV, if i < 0 then None else Some(list[i]), e)
      case Ignore => list
      case Store => if i < 0 then list + [e.item] else list[i := e.item]
      case Remove => if i < 0 then list else list[..i] + list[i + 1..]
  }

  function Fold(path: PathFunction, endRV: string, list: seq<Item>, events: seq<WatchEvent>): seq<Item> {
    if events == [] then list
    else
      var n := |events| - 1;
      FoldStep(path, endRV, Fold(path, endRV, list, events[..n]), events[n])
  }

  /** A path lookup whose error the caller drops. */
  method PathOrBlank(sr: ServerResources, item: Item) returns (p: string)
    requires sr.Valid() && WellFormed(sr.table)
    modifies sr`resourceNames
    ensures sr.Valid()
    ensures p == PathFn(sr.table)(item)
  {
    var r := sr.ResourcePath(item);
    p := if r.Ok? then r.value else "";
  }

  /** The inner loop: the first stored item with the path of the event. */
  method TargetIndex(sr: ServerResources, list: seq<Item>, resourcePath: string) returns (targetIndex: int)
    requires sr.Valid() && WellFormed(sr.table)
    modifies sr`resourceNames
    ensures sr.Valid()
    ensures targetIndex == Find(PathFn(sr.table), list, resourcePath)
  {
    hide PathOf, PathFn;
    targetIndex := -1;
    var i := 0;
    while i < |list|
      invariant 0 <= i <= |list|
      invariant sr.Valid()
      invariant forall j :: 0 <= j < i ==> PathFn(sr.table)(list[j]) != resourcePath
    {
      var targetItemPath := PathOrBlank(sr, list[i]);
      if targetItemPath == resourcePath {
        return i;
      }
      i := i + 1;
    }
  }

  /** The body of the event loop. */
  method ApplyEvent(sr: ServerResources, endRV: string, list: seq<Item>, e: WatchEvent)
    returns (snapshotList: seq<Item>)
    requires sr.Valid() && WellFormed(sr.table)
    modifies sr`resourceNames
    ensures sr.Valid()
    ensures snapshotList == FoldStep(PathFn(sr.table), endRV, list, e)
  {
    snapshotList := list;
    if e.OtherEvent? {
      return;
    }
    var item := e.item;
    hide PathOf, PathFn, ParseInt64, Find, IsOlderValidResourceVersion, IsNewerValidResourceVersion, Fill, Uncached;
    var resourcePath := PathOrBlank(sr, item);
    if !IsOlderValidResourceVersion(item.resourceVersion, endRV) {
      return;
    }
    var targetIndex := TargetIndex(sr, snapshotList, resourcePath);
    ghost var effect := EffectOn(endRV, if targetIndex < 0 then None else Some(list[targetIndex]), e);
    if targetIndex >= 0 {
      if IsNewerValidResourceVersion(item.resourceVersion, snapshotList[targetIndex].resourceVersion) {
        if e.kind.Added? || e.kind.Modified? {
          snapshotList := snapshotList[targetIndex := item];
          assert effect == Store;
        } else if e.kind.Deleted? {
          snapshotList := snapshotList[..targetIndex] + snapshotList[targetIndex + 1..];
          assert effect == Remove;
        }
      } else {
        assert effect == Ignore;
      }
    } else if e.kind.Added? || e.kind.Modified? {
      snapshotList := snapshotList + [item];
      assert effect == Store;
    } else {
      assert effect == Ignore;
    }
    hide EffectOn;
  }

  /** The loop of the program computes the fold. */
  method SyncEvents(sr: ServerResources, endRV: string, listed: seq<Item>, events: seq<WatchEvent>)
    returns (snapshotList: seq<Item>)
    requires sr.Valid() && WellFormed(sr.table)
    modifies sr`resourceNames
    ensures sr.Valid()
    ensures snapshotList == Fold(PathFn(sr.table), endRV, listed, events)
  {
    snapshotList := listed;
    for k := 0 to |events|
      invariant sr.Valid()
      invariant snapshotList == Fold(PathFn(sr.table), endRV, listed, events[..k])
    {
      snapshotList := ApplyEvent(sr, endRV, snapshotList, events[k]);
      assert events[..k + 1][..k] == events[..k];
    }
    assert events[..|events|] == events;
  }

  /* ---- the fold path by path ---- */

  predicate Unique(path: PathFunction, list: seq<Item>) {
    forall i, j :: 0 <= i < j < |list| ==> path(list[i]) != path(list[j])
  }

  function Lookup(path: PathFunction, list: seq<Item>, p: string): Option<Item> {
    var i := Find(path, list, p);
    if i < 0 then None else Some(list[i])
  }

  lemma LookupAt(path: PathFunction, list: seq<Item>, i: nat)
    requires Unique(path, list) && i < |list|
    ensures Find(path, list, path(list[i])) == i && Lookup(path, list, path(list[i])) == Some(list[i])
  {
    var j := Find(path, list, path(list[i]));
    assert path(list[i]) == path(list[j]);
  }

  lemma LookupMissing(path: PathFunction, list: seq<Item>, p: string)
    requires forall i :: 0 <= i < |list| ==> path(list[i]) != p
    ensures Lookup(path, list, p) == None
  {}

  /** What one event does to the entry of its own path. */
  function Step(endRV: string, entry: Option<Item>, e: WatchEvent): Option<Item> {
    match EffectOn(endRV, entry, e)
    case Ignore => entry
    case Store => Some(e.item)
    case Remove => None
  }

  function Replay(endRV: string, entry: Option<Item>, events: seq<WatchEvent>): Option<Item> {
    if events == [] then entry
    else
      var n := |events| - 1;
      Step(endRV, Replay(endRV, entry, events[..n]), events[n])
  }

  /** The event is about path p and from before the end marker. */
  predicate Concerns(path: PathFunction, endRV: string, p: string, e: WatchEvent) {
    e.ItemEvent? && path(e.item) == p && IsOlderValidResourceVersion(e.item.resourceVersion, endRV)
  }

  /** The subsequence of events that concern one path. */
  function PathEvents(path: PathFunction, endRV: string, p: string, events: seq<WatchEvent>): (r: seq<WatchEvent>)
    ensures forall e :: e in r ==> e in events && Concerns(path, endRV, p, e)
  {
    if events == [] then []
    else
      var n := |events| - 1;
      PathEvents(path, endRV, p, events[..n]) + (if Concerns(path, endRV, p, events[n]) then [events[n]] else [])
  }

  lemma StepLookup(path: PathFunction, endRV: string, list: seq<Item>, e: WatchEvent, p: string)
    requires Unique(path, list)
    ensures Unique(path, FoldStep(path, endRV, list, e))
    ensures Lookup(path, FoldStep(path, endRV, list, e), p)
         == if Concerns(path, endRV, p, e) then Step(endRV, Lookup(path, list, p), e) else Lookup(path, list, p)
  {
    hide EffectOn, IsOlderValidResourceVersion, Find;
    var r := FoldStep(path, endRV, list, e);
    if e.ItemEvent? {
      var i := Find(path, list, path(e.item));
      if r == list {
        if i >= 0 { LookupAt(path, list, i); }
      } else if i >= 0 {
        ReplacedLookup(path, list, i, e, r, p);
      } else {
        AppendedLookup(path, list, e.item, p);
      }
    }
  }

  lemma AppendedLookup(path: PathFunction, list: seq<Item>, item: Item, p: string)
    requires Unique(path, list) && Find(path, list, path(item)) < 0
    ensures Unique(path, list + [item])
    ensures Lookup(path, list + [item], p) == if path(item) == p then Some(item) else Lookup(path, list, p)
  {
    var r, j := list + [item], Find(path, list, p);
    if path(item) == p {
      LookupAt(path, r, |list|);
    } else if j >= 0 {
      LookupAt(path, r, j);
    } else {
      LookupMissing(path, r, p);
    }
  }

  lemma ReplacedLookup(path: PathFunction, list: seq<Item>, i: nat, e: WatchEvent, r: seq<Item>, p: string)
    requires Unique(path, list) && i < |list| && e.ItemEvent? && path(list[i]) == path(e.item)
    requires r == list[i := e.item] || r == list[..i] + list[i + 1..]
    ensures Unique(path, r)
    ensures path(e.item) != p ==> Lookup(path, r, p) == Lookup(path, list, p)
    ensures path(e.item) == p ==> Lookup(path, r, p) == if |r| == |list| then Some(e.item) else None
  {
    hide Find;
    var j := Find(path, list, p);
    if |r| == |list| {
      if path(e.item) == p { LookupAt(path, r, i); }
      else if j >= 0 { LookupAt(path, r, j); }
      else { LookupMissing(path, r, p); }
    } else {
      assert forall k :: 0 <= k < |r| ==> r[k] == list[if k < i then k else k + 1];
      if path(e.item) == p {
        LookupAt(path, list, i);
        LookupMissing(path, r, p);
      } else if j >= 0 {
        var j' := if j < i then j else j - 1;
        assert r[j'] == list[j];
        LookupAt(path, r, j');
      } else {
        LookupMissing(path, r, p);
      }
    }
  }

  /** Paths stay unique, and each path sees exactly its own events in their order. */
  lemma {:induction false} FoldLookup(path: PathFunction, endRV: string, list: seq<Item>,
        events: seq<WatchEvent>, p: string)
    requires Unique(path, list)
    ensures Unique(path, Fold(path, endRV, list, events))
    ensures Lookup(path, Fold(path, endRV, list, events), p)
         == Replay(endRV, Lookup(path, list, p), PathEvents(path, endRV, p, events))
  {
    if events != [] {
      var n := |events| - 1;
      FoldLookup(path, endRV, list, events[..n], p);
      StepLookup(path, endRV, Fold(path, endRV, list, events[..n]), events[n], p);
      var before := PathEvents(path, endRV, p, events[..n]);
      if Concerns(path, endRV, p, events[n]) {
        assert (before + [events[n]])[..|before|] == before;
      } else {
        assert before + [] == before;
      }
    }
  }

  lemma {:induction false} FoldAppend(path: PathFunction, endRV: string, list: seq<Item>, a: seq<WatchEvent>,
        b: seq<WatchEvent>)
    ensures Fold(path, endRV, list, a + b) == Fold(path, endRV, Fold(path, endRV, list, a), b)
  {
    if b == [] {
      assert a + b == a;
    } else {
      var n := |b| - 1;
      FoldAppend(path, endRV, list, a, b[..n]);
      assert (a + b)[..|a + b| - 1] == a + b[..n];
    }
  }

  lemma {:induction false} PathEventsAppend(path: PathFunction, endRV: string, p: string, a: seq<WatchEvent>,
        b: seq<WatchEvent>)
    ensures PathEvents(path, endRV, p, a + b) == PathEvents(path, endRV, p, a) + PathEvents(path, endRV, p, b)
  {
    if b == [] {
      assert a + b == a;
    } else {
      var n := |b| - 1;
      PathEventsAppend(path, endRV, p, a, b[..n]);
      assert (a + b)[..|a + b| - 1] == a + b[..n];
    }
  }

  lemma {:induction false} OccursInPathEvents(path: PathFunction, endRV: string, p: string,
        events: seq<WatchEvent>, n: nat)
    requires n < |events| && Concerns(path, endRV, p, events[n])
    ensures events[n] in PathEvents(path, endRV, p, events)
  {
    var last := |events| - 1;
    if n < last {
      OccursInPathEvents(path, endRV, p, events[..last], n);
      assert events[..last][n] == events[n];
    }
  }

  /* ---- what any event list can do ---- */

  predicate FromEvent(endRV: string, events: seq<WatchEvent>, x: Item, k: int) {
    && 0 <= k < |events| && events[k].ItemEvent? && events[k].item == x
    && (events[k].kind.Added? || events[k].kind.Modified?)
    && IsOlderValidResourceVersion(x.resourceVersion, endRV)
  }

  /** Nothing is invented: every item of the result was listed or delivered, and a delivered one
      is older than the end marker. */
  lemma {:induction false} FoldProvenance(path: PathFunction, endRV: string, list: seq<Item>,
        events: seq<WatchEvent>, x: Item)
    requires x in Fold(path, endRV, list, events)
    ensures x in list || exists k :: FromEvent(endRV, events, x, k)
  {
    if events != [] {
      var n := |events| - 1;
      var before := Fold(path, endRV, list, events[..n]);
      if x in before {
        FoldProvenance(path, endRV, list, events[..n], x);
        if k :| FromEvent(endRV, events[..n], x, k) {
          assert FromEvent(endRV, events, x, k);
        }
      } else {
        assert FromEvent(endRV, events, x, n);
      }
    }
  }

  /** An event at or after the end version, or with a version that does not parse, or without an
      object, changes nothing wherever it is delivered. */
  lemma LateEventsIgnored(path: PathFunction, endRV: string, list: seq<Item>, a: seq<WatchEvent>, e: WatchEvent,
        b: seq<WatchEvent>)
    requires e.OtherEvent? || ParseInt64(e.item.resourceVersion).None? || ParseInt64(endRV).None?
             || ParseInt64(e.item.resourceVersion).value >= ParseInt64(endRV).value
    ensures Fold(path, endRV, list, a + [e] + b) == Fold(path, endRV, list, a + b)
  {
    FoldAppend(path, endRV, list, a + [e], b);
    FoldAppend(path, endRV, list, a, [e]);
    FoldAppend(path, endRV, list, a, b);
    assert [e][..0] == [];
  }

  /* ---- confluence ---- */

  function Map<A, B>(f: A -> B, s: seq<A>): (r: seq<B>)
    ensures |r| == |s|
    ensures forall i :: 0 <= i < |s| ==> r[i] == f(s[i])
  {
    seq(|s|, i requires 0 <= i < |s| => f(s[i]))
  }

  lemma MapRemove<A, B>(f: A -> B, s: seq<A>, j: nat)
    requires j < |s|
    ensures multiset(Map(f, s)) == multiset{f(s[j])} + multiset(Map(f, s[..j] + s[j + 1..]))
  {
    var m := Map(f, s);
    assert m == m[..j] + [f(s[j])] + m[j + 1..];
    assert Map(f, s[..j] + s[j + 1..]) == m[..j] + m[j + 1..];
  }

  lemma NoEntriesNoItems(path: PathFunction, list: seq<Item>)
    requires Unique(path, list)
    requires forall p :: Lookup(path, list, p) == None
    ensures list == []
  {
    if list != [] { LookupAt(path, list, 0); }
  }

  /** Lists with unique paths and equal entries hold the same items, in some order. */
  lemma {:induction false} SameEntriesSameItems<B>(path: PathFunction, f: Item -> B, a: seq<Item>, b: seq<Item>)
    requires Unique(path, a) && Unique(path, b)
    requires forall p :: Lookup(path, a, p) == Lookup(path, b, p)
    ensures multiset(Map(f, a)) == multiset(Map(f, b))
    decreases a
  {
    if a == [] {
      forall p ensures Lookup(path, b, p) == None {
        assert Lookup(path, a, p) == None;
      }
      NoEntriesNoItems(path, b);
    } else {
      LookupAt(path, a, 0);
      var j := Find(path, b, path(a[0]));
      assert Lookup(path, b, path(a[0])) == Some(a[0]);
      var e := ItemEvent(Deleted, a[0]);
      var a', b' := a[..0] + a[1..], b[..j] + b[j + 1..];
      forall p ensures Unique(path, a') && Unique(path, b') && Lookup(path, a', p) == Lookup(path, b', p) {
        ReplacedLookup(path, a, 0, e, a', p);
        ReplacedLookup(path, b, j, e, b', p);
      }
      assert Unique(path, a') && Unique(path, b') by {
        ReplacedLookup(path, a, 0, e, a', "");
        ReplacedLookup(path, b, j, e, b', "");
      }
      SameEntriesSameItems(path, f, a', b');
      MapRemove(f, a, 0);
      MapRemove(f, b, j);
    }
  }

  function ArchivePathFn(path: PathFunction): PathFunction {
    (item: Item) => ArchivePathWith(item, path(item))
  }

  /** snapshot.Status.Contents: the sorted archive paths of the items. */
  function Contents(path: PathFunction, list: seq<Item>): seq<string> {
    SortStrings(Map(ArchivePathFn(path), list))
  }

  /** Two deliveries that agree path by path on the events before the end marker, however they
      interleave and whatever else they carry, give the same entry for every path, the same
      items and the identical recorded contents. */
  lemma Confluence(path: PathFunction, endRV: string, list: seq<Item>, events1: seq<WatchEvent>,
        events2: seq<WatchEvent>)
    requires Unique(path, list)
    requires forall p :: PathEvents(path, endRV, p, events1) == PathEvents(path, endRV, p, events2)
    ensures var r1, r2 := Fold(path, endRV, list, events1), Fold(path, endRV, list, events2);
            && (forall p :: Lookup(path, r1, p) == Lookup(path, r2, p))
            && multiset(r1) == multiset(r2)
            && Contents(path, r1) == Contents(path, r2)
  {
    var r1, r2 := Fold(path, endRV, list, events1), Fold(path, endRV, list, events2);
    forall p ensures Unique(path, r1) && Unique(path, r2) && Lookup(path, r1, p) == Lookup(path, r2, p) {
      FoldLookup(path, endRV, list, events1, p);
      FoldLookup(path, endRV, list, events2, p);
    }
    assert Unique(path, r1) && Unique(path, r2) by {
      FoldLookup(path, endRV, list, events1, "");
      FoldLookup(path, endRV, list, events2, "");
    }
    var same := (item: Item) => item;
    SameEntriesSameItems(path, same, r1, r2);
    assert Map(same, r1) == r1 && Map(same, r2) == r2;
    SameEntriesSameItems(path, ArchivePathFn(path), r1, r2);
    var c1, c2 := Map(ArchivePathFn(path), r1), Map(ArchivePathFn(path), r2);
    SortSorted(c1);
    SortSorted(c2);
    SortedUnique(SortStrings(c1), SortStrings(c2));
  }
}
