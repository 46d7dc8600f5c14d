/** The snapshot protocol run against the versioned tracker: its listings are listings in the
    sense of the protocol, so a run that also gets complete watches reads the tracker's state. */
module TrackerProtocol {
  import opened Text
  import opened Objects
  import opened Resources
  import opened Paths
  import opened EventFold
  import opened SnapshotConsistency
  import opened Tracker

  function FormatGV(gv: GroupVersion): string {
    if gv.group == "" then gv.version else gv.group + "/" + gv.version
  }

  /** The item is served under its own type by the resource table. */
  predicate ServedAs(t: Table, g: GVR, item: Item) {
    && item.apiVersion == FormatGV(g.gv) && ParseGroupVersion(item.apiVersion) == Some(g.gv)
    && ResourceOf(t, item) == Ok(g.resource)
    && SlashFree(item, g.resource)
  }

  predicate ServedLog(t: Table, log: seq<Write>) {
    forall i :: 0 <= i < |log| ==> ServedAs(t, log[i].gvr, log[i].item)
  }

  /** For served items the path stands for the type and the key. */
  lemma PathIsKey(t: Table, g: GVR, a: Item, h: GVR, b: Item)
    requires ServedAs(t, g, a) && ServedAs(t, h, b)
    ensures PathFn(t)(a) == PathFn(t)(b) <==> g == h && Key(a) == Key(b)
  {
    hide ResourceOf, FormatGV;
    assert PathFn(t)(a) == PathWith(a, g.resource) && PathFn(t)(b) == PathWith(b, h.resource);
    if PathFn(t)(a) == PathFn(t)(b) {
      PathIdentity(a, g.resource, b, h.resource);
    }
  }

  lemma ServedLogIsTyped(t: Table, log: seq<Write>)
    requires ServedLog(t, log)
    ensures Typed(PathFn(t), log)
  {
    hide ServedAs, PathFn;
    forall i, j | 0 <= i < |log| && 0 <= j < |log| && PathFn(t)(log[i].item) == PathFn(t)(log[j].item)
      ensures log[i].gvr == log[j].gvr
    {
      PathIsKey(t, log[i].gvr, log[i].item, log[j].gvr, log[j].item);
    }
  }

  /** The tracker's store and the protocol's view of the log are the same thing. */
  lemma {:induction false} StoreIsEntry(t: Table, log: seq<Write>, n: nat, g: GVR, x: Item)
    requires ServedLog(t, log) && StrictLog(log) && n <= |log| && ServedAs(t, g, x)
    ensures var m := StateOf(log, n, g, NAMESPACE_ALL);
            EntryAt(PathFn(t), log, n, PathFn(t)(x)) == if Key(x) in m then Some(m[Key(x)]) else None
  {
    hide ServedAs, PathFn, ParseInt64;
    if n > 0 {
      var w := log[n - 1];
      StoreIsEntry(t, log, n - 1, g, x);
      PathIsKey(t, w.gvr, w.item, g, x);
      assert ServedAs(t, w.gvr, w.item);
    }
  }

  /** What ObjectTracker.List promises about its result after n writes. */
  ghost predicate Listing(log: seq<Write>, n: nat, g: GVR, list: seq<Item>)
    requires n <= |log|
  {
    && SortedItems(list)
    && forall x :: x in list <==>
         Key(x) in StateOf(log, n, g, NAMESPACE_ALL) && StateOf(log, n, g, NAMESPACE_ALL)[Key(x)] == x
  }

  lemma ListingUnique(t: Table, log: seq<Write>, n: nat, g: GVR, list: seq<Item>)
    requires ServedLog(t, log) && n <= |log| && Listing(log, n, g, list)
    ensures Unique(PathFn(t), list)
    ensures forall x :: x in list ==> ServedAs(t, g, x)
  {
    hide ServedAs, PathFn;
    forall x | x in list ensures ServedAs(t, g, x) { StoredIsServed(t, log, n, g, Key(x)); }
    forall i, j | 0 <= i < j < |list| ensures PathFn(t)(list[i]) != PathFn(t)(list[j]) {
      PathIsKey(t, g, list[i], g, list[j]);
      assert Before(list[i], list[j]);
      LexTrichotomy(list[i].namespace, list[i].namespace);
      LexTrichotomy(list[i].name, list[i].name);
    }
  }

  lemma {:induction false} StoredIsServed(t: Table, log: seq<Write>, n: nat, g: GVR, k: NamespacedName)
    requires ServedLog(t, log) && n <= |log| && k in StateOf(log, n, g, NAMESPACE_ALL)
    ensures ServedAs(t, g, StateOf(log, n, g, NAMESPACE_ALL)[k]) && Key(StateOf(log, n, g, NAMESPACE_ALL)[k]) == k
  {
    hide ServedAs;
    var w := log[n - 1];
    assert ServedAs(t, w.gvr, w.item);
    if k in StateOf(log, n - 1, g, NAMESPACE_ALL) { StoredIsServed(t, log, n - 1, g, k); }
  }

  /** A tracker listing is a listing in the sense of the protocol. */
  lemma ListingLists(t: Table, log: seq<Write>, n: nat, g: GVR, list: seq<Item>)
    requires ServedLog(t, log) && StrictLog(log) && n <= |log| && Listing(log, n, g, list)
    ensures Lists(PathFn(t), log, n, g, list)
  {
    hide ServedAs, PathFn;
    var path := PathFn(t);
    ListingUnique(t, log, n, g, list);
    forall p ensures Lookup(path, list, p) == if HasType(path, log, p, g) then EntryAt(path, log, n, p) else None {
      if i :| 0 <= i < |log| && path(log[i].item) == p && log[i].gvr == g {
        var x := log[i].item;
        assert ServedAs(t, log[i].gvr, x);
        StoreIsEntry(t, log, n, g, x);
        ListingLookup(t, log, n, g, list, x);
      } else if Lookup(path, list, p).Some? {
        var x := Lookup(path, list, p).value;
        LookupMember(path, list, x);
        var i := StoredIsWritten(log, n, g, Key(x));
      }
    }
  }

  lemma {:induction false} StoredIsWritten(log: seq<Write>, n: nat, g: GVR, k: NamespacedName) returns (i: nat)
    requires StrictLog(log) && n <= |log| && k in StateOf(log, n, g, NAMESPACE_ALL)
    ensures i < n && log[i].gvr == g && log[i].item == StateOf(log, n, g, NAMESPACE_ALL)[k]
  {
    if log[n - 1].gvr == g && Key(log[n - 1].item) == k {
      i := n - 1;
    } else {
      i := StoredIsWritten(log, n - 1, g, k);
    }
  }

  lemma ListingLookup(t: Table, log: seq<Write>, n: nat, g: GVR, list: seq<Item>, x: Item)
    requires ServedLog(t, log) && n <= |log| && Listing(log, n, g, list) && ServedAs(t, g, x)
    ensures var m := StateOf(log, n, g, NAMESPACE_ALL);
            Lookup(PathFn(t), list, PathFn(t)(x)) == if Key(x) in m then Some(m[Key(x)]) else None
  {
    hide ServedAs, PathFn;
    var path, m := PathFn(t), StateOf(log, n, g, NAMESPACE_ALL);
    ListingUnique(t, log, n, g, list);
    if Key(x) in m {
      var y := m[Key(x)];
      StoredIsServed(t, log, n, g, Key(x));
      LookupMember(path, list, y);
      PathIsKey(t, g, x, g, y);
    } else if Lookup(path, list, path(x)).Some? {
      var y := Lookup(path, list, path(x)).value;
      LookupMember(path, list, y);
      PathIsKey(t, g, x, g, y);
    }
  }

  /** A run against the tracker: lists are tracker listings, and each watch is one registered
      right after the start marker, followed by anything late. */
  ghost predicate TrackerRun(t: Table, run: Run) {
    && run.Shape() && StrictLog(run.log) && ServedLog(t, run.log)
    && (forall k :: 0 <= k < |run.types| ==> Listing(run.log, run.moments[k], run.types[k], run.lists[k]))
    && (forall k :: 0 <= k < |run.types| ==> Late(run.EndRV(), run.late[k]))
    && (forall k :: 0 <= k < |run.types| ==>
          Select(run.events, run.source, k)
          == Deliveries(run.log, run.start + 1, run.end, run.types[k], NAMESPACE_ALL) + run.late[k])
  }

  lemma TrackerRunIsValid(t: Table, run: Run)
    requires TrackerRun(t, run)
    ensures run.Valid(PathFn(t))
  {
    hide ServedLog, Lists, Late, StrictLog, ValidLog, Closes, Typed, PathFn, Listing;
    StrictIsValid(PathFn(t), run.log);
    ServedLogIsTyped(t, run.log);
    forall k | 0 <= k < |run.types|
      ensures Lists(PathFn(t), run.log, run.moments[k], run.types[k], run.lists[k])
      ensures Select(run.events, run.source, k) == run.Stream(k)
    {
      ListingLists(t, run.log, run.moments[k], run.types[k], run.lists[k]);
      AllNamespacesSeeAll(run.log, run.start + 1, run.end, run.types[k]);
    }
  }

  /** Composition: the snapshot of a tracker holds exactly the objects the tracker stored under
      the listed types just before the end marker. */
  lemma TrackerSnapshotIsConsistent(t: Table, run: Run, x: Item)
    requires TrackerRun(t, run)
    ensures x in run.Result(PathFn(t)) <==> exists k :: 0 <= k < |run.types| && StoredAt(run, k, x)
  {
    hide ServedLog, ServedAs, StrictLog, Typed, PathFn, Listing, StateOf, EntryAt, Fold, Deliveries;
    var path := PathFn(t);
    TrackerRunIsValid(t, run);
    SnapshotIsConsistent(path, run, path(x));
    LookupMember(path, run.Result(path), x);
    if x in run.Result(path) {
      var k :| 0 <= k < |run.types| && HasType(path, run.log, path(x), run.types[k]);
      EntryIsStored(t, run, k, x);
    }
    if k :| 0 <= k < |run.types| && StoredAt(run, k, x) {
      StoredIsEntry(t, run, k, x);
    }
  }

  /** The tracker stores the object under type g just before the end marker. */
  predicate StoredUnder(run: Run, g: GVR, x: Item)
    requires run.Shape()
  {
    var m := StateOf(run.log, run.end, g, NAMESPACE_ALL);
    Key(x) in m && m[Key(x)] == x
  }

  predicate StoredAt(run: Run, k: nat, x: Item)
    requires run.Shape() && k < |run.types|
  {
    StoredUnder(run, run.types[k], x)
  }

  lemma EntryIsStored(t: Table, run: Run, k: nat, x: Item)
    requires TrackerRun(t, run) && k < |run.types|
    requires HasType(PathFn(t), run.log, PathFn(t)(x), run.types[k])
    requires EntryAt(PathFn(t), run.log, run.end, PathFn(t)(x)) == Some(x)
    ensures StoredAt(run, k, x)
  {
    hide ServedAs, StrictLog, PathFn, Deliveries, StateOf;
    var path := PathFn(t);
    var i :| 0 <= i < |run.log| && path(run.log[i].item) == path(x) && run.log[i].gvr == run.types[k];
    var j := EntrySource(path, run.log, run.end, path(x));
    assert ServedAs(t, run.log[i].gvr, run.log[i].item) && ServedAs(t, run.log[j].gvr, run.log[j].item);
    PathIsKey(t, run.log[i].gvr, run.log[i].item, run.log[j].gvr, x);
    StoreIsEntry(t, run.log, run.end, run.types[k], x);
  }

  lemma StoredIsEntry(t: Table, run: Run, k: nat, x: Item)
    requires TrackerRun(t, run) && k < |run.types| && StoredAt(run, k, x)
    ensures HasType(PathFn(t), run.log, PathFn(t)(x), run.types[k])
    ensures EntryAt(PathFn(t), run.log, run.end, PathFn(t)(x)) == Some(x)
  {
    hide ServedAs, StrictLog, PathFn, Deliveries;
    StoredIsServed(t, run.log, run.end, run.types[k], Key(x));
    StoreIsEntry(t, run.log, run.end, run.types[k], x);
    var i := StoredIsWritten(run.log, run.end, run.types[k], Key(x));
    assert run.log[i].item == x;
  }

  /** Some write from lo up to hi is about path p. */
  predicate WrittenIn(path: PathFunction, log: seq<Write>, lo: nat, hi: nat, p: string)
    requires lo <= hi <= |log|
  {
    exists i :: lo <= i < hi && path(log[i].item) == p
  }

  /** Applied to any earlier entry of its path, a write gives the entry after it. */
  lemma WriteSettles(path: PathFunction, log: seq<Write>, n: nat, k: nat, b: nat, p: string)
    requires ValidLog(path, log) && Closes(log, b) && n <= k < b < |log| && path(log[k].item) == p
    ensures Step(log[b].item.resourceVersion, EntryAt(path, log, n, p), ItemEvent(log[k].kind, log[k].item))
         == EntryAt(path, log, k + 1, p)
  {
    hide ParseInt64;
    if EntryAt(path, log, n, p).Some? { var i := EntrySource(path, log, n, p); }
  }

  lemma ReplaySnoc(endRV: string, entry: Option<Item>, before: seq<WatchEvent>, e: WatchEvent)
    ensures Replay(endRV, entry, []) == entry
    ensures Replay(endRV, entry, before + [e]) == Step(endRV, Replay(endRV, entry, before), e)
  {
    assert (before + [e])[..|before|] == before;
  }

  /** One write more. */
  lemma OneMoreWrite(path: PathFunction, log: seq<Write>, lo: nat, hi: nat, p: string)
    requires lo < hi <= |log|
    ensures var w, before := log[hi - 1], PathWrites(path, log, lo, hi - 1, p);
            if path(w.item) == p then PathWrites(path, log, lo, hi, p) == before + [ItemEvent(w.kind, w.item)]
            else PathWrites(path, log, lo, hi, p) == before
                 && EntryAt(path, log, hi, p) == EntryAt(path, log, hi - 1, p)
  {}

  /** What replaying the writes from lo up to hi onto the object listed at m gives: the first
      delivered write settles the path, whatever the listing said about it. */
  function Settled(path: PathFunction, log: seq<Write>, m: nat, lo: nat, hi: nat, p: string): Option<Item>
    requires m <= lo <= hi <= |log|
  {
    if WrittenIn(path, log, lo, hi, p) then EntryAt(path, log, hi, p) else EntryAt(path, log, m, p)
  }

  lemma SettledStep(path: PathFunction, log: seq<Write>, m: nat, lo: nat, hi: nat, b: nat, p: string)
    requires ValidLog(path, log) && Closes(log, b) && m <= lo <= hi < b < |log|
    ensures Settled(path, log, m, lo, lo, p) == EntryAt(path, log, m, p)
    ensures Settled(path, log, m, lo, hi + 1, p) ==
      if path(log[hi].item) != p then Settled(path, log, m, lo, hi, p)
      else Step(log[b].item.resourceVersion, Settled(path, log, m, lo, hi, p), ItemEvent(log[hi].kind, log[hi].item))
  {
    hide ValidLog, Closes, Step;
    if path(log[hi].item) == p {
      WriteSettles(path, log, if WrittenIn(path, log, lo, hi, p) then hi else m, hi, b, p);
    }
  }

  lemma {:induction false} LateReplay(path: PathFunction, log: seq<Write>, m: nat, lo: nat, hi: nat, b: nat, p: string)
    requires ValidLog(path, log) && Closes(log, b) && m <= lo <= hi <= b < |log|
    ensures Replay(log[b].item.resourceVersion, EntryAt(path, log, m, p), PathWrites(path, log, lo, hi, p))
         == Settled(path, log, m, lo, hi, p)
  {
    hide ValidLog, Closes, Step, EntryAt;
    if lo < hi {
      hide Settled;
      LateReplay(path, log, m, lo, hi - 1, b, p);
      SettledStep(path, log, m, lo, hi - 1, b, p);
      OneMoreWrite(path, log, lo, hi, p);
      var w := log[hi - 1];
      ReplaySnoc(log[b].item.resourceVersion, EntryAt(path, log, m, p), PathWrites(path, log, lo, hi - 1, p),
        ItemEvent(w.kind, w.item));
      hide Replay, PathWrites;
    }
  }

  /** The tracker's own Watch takes no start version. A watch registered only after `lo` writes,
      later than the listing at m, gives the right entry for a path exactly when a write to the
      path is still delivered or the writes missed in between left the entry as it was. */
  lemma WatchAfterListing(path: PathFunction, log: seq<Write>, m: nat, lo: nat, b: nat, p: string)
    requires ValidLog(path, log) && Closes(log, b) && m <= lo <= b < |log|
    ensures Replay(log[b].item.resourceVersion, EntryAt(path, log, m, p), PathWrites(path, log, lo, b, p))
            == EntryAt(path, log, b, p)
       <==> WrittenIn(path, log, lo, b, p) || EntryAt(path, log, lo, p) == EntryAt(path, log, m, p)
  {
    LateReplay(path, log, m, lo, b, b, p);
    hide ValidLog, Closes, Replay, PathWrites;
    if !WrittenIn(path, log, lo, b, p) { QuietWindow(path, log, lo, b, p); }
  }

  lemma {:induction false} QuietWindow(path: PathFunction, log: seq<Write>, lo: nat, b: nat, p: string)
    requires lo <= b <= |log| && !WrittenIn(path, log, lo, b, p)
    ensures EntryAt(path, log, b, p) == EntryAt(path, log, lo, p)
  {
    if lo < b {
      assert path(log[b - 1].item) != p;
      QuietWindow(path, log, lo, b - 1, p);
    }
  }

  lemma OneDigit(c: char)
    requires IsDigit(c)
    ensures ParseInt64([c]) == Some(DigitValue(c))
  {
    assert [c][..0] == "";
    assert DigitsValue([c]) == 10 * DigitsValue([c][..0]) + DigitValue(c);
  }

  /** A history in which it goes wrong: an object is listed at version 1, changed at version 2
      before the watch is there, and the marker is written at version 3. */
  lemma MissedWrite() returns (log: seq<Write>, p: string)
    ensures StrictLog(log) && |log| == 3
    ensures var path := (item: Item) => item.name;
            && Replay(log[2].item.resourceVersion, EntryAt(path, log, 1, p), PathWrites(path, log, 2, 2, p)) ==
                 Some(log[0].item)
            && EntryAt(path, log, 2, p) == Some(log[1].item) != Some(log[0].item)
  {
    var g := GVR(GroupVersion("", "v1"), "configmaps");
    var listed := Item("v1", "ConfigMap", "default", "a", "1", "u", [], map[], map[]);
    var marker := listed.(name := "m", resourceVersion := "3");
    log, p := [Write(g, Added, listed), Write(g, Modified, listed.(resourceVersion := "2")),
      Write(g, Added, marker)], "a";
    var path := (item: Item) => item.name;
    OneDigit('1');
    OneDigit('2');
    OneDigit('3');
    hide ParseInt64;
    WatchAfterListing(path, log, 1, 2, 2, p);
  }
}
