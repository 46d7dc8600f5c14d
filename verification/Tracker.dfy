/** pkg/cluster/versioned_object_tracker.go: a versioned object store with watch fan-out. A
    ghost log of its successful writes says what it stores and what it has delivered. */
module Tracker {
  import opened Text
  import opened Objects
  import opened EventFold
  import opened SnapshotConsistency

  datatype NamespacedName = NamespacedName(namespace: string, name: string)
  datatype TrackerError = NoError | BadRequest | AlreadyExists | NotFound
  datatype Registration = Registration(gvr: GVR, ns: string, at: nat)

  const NAMESPACE_ALL: string := ""

  function Key(item: Item): NamespacedName { NamespacedName(item.namespace, item.name) }

  type Store = map<NamespacedName, Item>

  /** What a client that mirrors the store does with an event. */
  function Mirror(m: Store, e: WatchEvent): Store {
    if e.OtherEvent? then m
    else match e.kind
      case Added | Modified => m[Key(e.item) := e.item]
      case Deleted => m - {Key(e.item)}
      case _ => m
  }

  function MirrorAll(m: Store, events: seq<WatchEvent>): Store {
    if events == [] then m
    else Mirror(MirrorAll(m, events[..|events| - 1]), events[|events| - 1])
  }

  function ToEvent(w: Write): WatchEvent { ItemEvent(w.kind, w.item) }

  /** A write is visible to watchers of its type in its namespace, and to all-namespace ones. */
  predicate Visible(w: Write, g: GVR, ns: string) {
    w.gvr == g && (ns == NAMESPACE_ALL || w.item.namespace == ns)
  }

  /** The objects of type g in namespace ns after the first n writes. */
  function StateOf(log: seq<Write>, n: nat, g: GVR, ns: string): Store
    requires n <= |log|
  {
    if n == 0 then map[]
    else
      var before := StateOf(log, n - 1, g, ns);
      if Visible(log[n - 1], g, ns) then Mirror(before, ToEvent(log[n - 1])) else before
  }

  /** What a watcher of (g, ns) registered after `at` writes has been sent after n writes. */
  function Deliveries(log: seq<Write>, at: nat, n: nat, g: GVR, ns: string): seq<WatchEvent>
    requires at <= n <= |log|
  {
    if at == n then []
    else Deliveries(log, at, n - 1, g, ns) + (if Visible(log[n - 1], g, ns) then [ToEvent(log[n - 1])] else [])
  }

  /* ---- facts about logs ---- */

  lemma {:induction false} StatePrefix(log: seq<Write>, w: Write, n: nat, g: GVR, ns: string)
    requires n <= |log|
    ensures StateOf(log + [w], n, g, ns) == StateOf(log, n, g, ns)
  {
    if n > 0 { StatePrefix(log, w, n - 1, g, ns); }
  }

  lemma {:induction false} DeliveriesPrefix(log: seq<Write>, w: Write, at: nat, n: nat, g: GVR, ns: string)
    requires at <= n <= |log|
    ensures Deliveries(log + [w], at, n, g, ns) == Deliveries(log, at, n, g, ns)
  {
    if at < n { DeliveriesPrefix(log, w, at, n - 1, g, ns); }
  }

  /** The namespace view of the store is the whole store cut down to that namespace. */
  lemma {:induction false} StateByNamespace(log: seq<Write>, n: nat, g: GVR, ns: string)
    requires n <= |log| && ns != NAMESPACE_ALL
    ensures StateOf(log, n, g, ns)
         == map k | k in StateOf(log, n, g, NAMESPACE_ALL) && k.namespace == ns :: StateOf(log, n, g, NAMESPACE_ALL)[k]
  {
    if n > 0 { StateByNamespace(log, n - 1, g, ns); }
  }

  /** Replaying what a watcher received onto the objects it could list when it registered gives
      the objects it could list now. */
  lemma {:induction false} WatchRefinesStore(log: seq<Write>, at: nat, n: nat, g: GVR, ns: string)
    requires at <= n <= |log|
    ensures MirrorAll(StateOf(log, at, g, ns), Deliveries(log, at, n, g, ns)) == StateOf(log, n, g, ns)
  {
    hide Mirror;
    if at < n {
      WatchRefinesStore(log, at, n - 1, g, ns);
      var d := Deliveries(log, at, n - 1, g, ns);
      MirrorOne(StateOf(log, at, g, ns), d, ToEvent(log[n - 1]));
      assert d + [] == d;
    }
  }

  lemma MirrorOne(m: Store, events: seq<WatchEvent>, e: WatchEvent)
    ensures MirrorAll(m, events + [e]) == Mirror(MirrorAll(m, events), e)
  {
    assert (events + [e])[..|events|] == events;
  }

  /** All-namespace watchers get every write of their type exactly once, in log order. */
  lemma {:induction false} AllNamespacesSeeAll(log: seq<Write>, at: nat, n: nat, g: GVR)
    requires at <= n <= |log|
    ensures Deliveries(log, at, n, g, NAMESPACE_ALL) == EventsOf(log, at, n, g)
  {
    if at < n { AllNamespacesSeeAll(log, at, n - 1, g); }
  }

  predicate StrictlyIncreasing(events: seq<WatchEvent>) {
    forall i, j :: 0 <= i < j < |events| ==>
      && events[i].ItemEvent? && events[j].ItemEvent?
      && IsNewerValidResourceVersion(events[j].item.resourceVersion, events[i].item.resourceVersion)
  }

  lemma {:induction false} DeliveredLater(log: seq<Write>, at: nat, n: nat, g: GVR, ns: string, e: WatchEvent)
    requires at <= n <= |log| && e in Deliveries(log, at, n, g, ns)
    ensures exists i :: at <= i < n && e == ToEvent(log[i])
  {
    if at < n && e in Deliveries(log, at, n - 1, g, ns) {
      DeliveredLater(log, at, n - 1, g, ns, e);
    }
  }

  /** What a watcher receives comes with strictly increasing versions. */
  lemma {:induction false} DeliveriesIncrease(log: seq<Write>, at: nat, n: nat, g: GVR, ns: string)
    requires at <= n <= |log| && StrictLog(log)
    ensures StrictlyIncreasing(Deliveries(log, at, n, g, ns))
  {
    hide ParseInt64;
    if at < n {
      DeliveriesIncrease(log, at, n - 1, g, ns);
      var d := Deliveries(log, at, n - 1, g, ns);
      var e := ToEvent(log[n - 1]);
      forall i | 0 <= i < |d|
        ensures d[i].ItemEvent? && IsNewerValidResourceVersion(e.item.resourceVersion, d[i].item.resourceVersion)
      {
        DeliveredLater(log, at, n - 1, g, ns, d[i]);
        var k :| at <= k < n - 1 && d[i] == ToEvent(log[k]);
        assert RV(log[k]).value < RV(log[n - 1]).value;
      }
      hide IsNewerValidResourceVersion;
      assert StrictlyIncreasing(d + [e]);
      assert d + [] == d;
    }
  }

  /* ---- listing order ---- */

  predicate Before(a: Item, b: Item) {
    LexLess(a.namespace, b.namespace) || (a.namespace == b.namespace && LexLess(a.name, b.name))
  }

  predicate SortedItems(s: seq<Item>) {
    forall i, j :: 0 <= i < j < |s| ==> Before(s[i], s[j])
  }

  function InsertItem(s: seq<Item>, x: Item): (r: seq<Item>)
    ensures forall y :: y in r <==> y == x || y in s
  {
    if s == [] then [x]
    else if Before(s[0], x) then [s[0]] + InsertItem(s[1..], x)
    else [x] + s
  }

  lemma BeforeOrder(a: Item, b: Item, c: Item)
    ensures Key(a) != Key(b) ==> Before(a, b) || Before(b, a)
    ensures Before(a, b) && Before(b, c) ==> Before(a, c)
  {
    LexTrichotomy(a.namespace, b.namespace);
    LexTrichotomy(a.name, b.name);
    if Before(a, b) && Before(b, c) {
      if LexLess(a.namespace, b.namespace) && LexLess(b.namespace, c.namespace) {
        LexTransitive(a.namespace, b.namespace, c.namespace);
      }
      if LexLess(a.name, b.name) && LexLess(b.name, c.name) { LexTransitive(a.name, b.name, c.name); }
    }
  }

  lemma {:induction false} InsertItemSorted(s: seq<Item>, x: Item)
    requires SortedItems(s) && forall y :: y in s ==> Key(y) != Key(x)
    ensures SortedItems(InsertItem(s, x))
  {
    hide Before;
    if s != [] {
      BeforeOrder(s[0], x, x);
      if Before(s[0], x) {
        var r := InsertItem(s[1..], x);
        InsertItemSorted(s[1..], x);
        forall j | 0 <= j < |r| ensures Before(s[0], r[j]) {
          assert r[j] == x || r[j] in s[1..];
        }
      } else {
        forall j | 0 <= j < |s| ensures Before(x, s[j]) { BeforeOrder(x, s[0], s[j]); }
      }
    }
  }

  lemma VisibleTo(w: Write, g: GVR, ns: string)
    ensures Visible(w, g, ns) <==> w.gvr == g && ns in {w.item.namespace, NAMESPACE_ALL}
  {}

  lemma NothingYet(log: seq<Write>, g: GVR, ns: string)
    ensures Deliveries(log, |log|, |log|, g, ns) == []
  {}

  lemma WrapStep(a: nat)
    ensures (a % TWO_TO_64 + 1) % TWO_TO_64 == (a + 1) % TWO_TO_64
  {}

  lemma VersionParses(v: nat)
    requires v < TWO_TO_63
    ensures ParseInt64(FormatUint(v % TWO_TO_64)) == Some(v)
  {
    ParseFormat(v);
    hide FormatUint, ParseInt64;
    assert v % TWO_TO_64 == v;
  }

  lemma StateAfter(log: seq<Write>, w: Write, g: GVR)
    ensures StateOf(log + [w], |log| + 1, g, NAMESPACE_ALL)
         == if g == w.gvr then Mirror(StateOf(log, |log|, g, NAMESPACE_ALL), ToEvent(w))
           else StateOf(log, |log|, g, NAMESPACE_ALL)
  {
    StatePrefix(log, w, |log|, g, NAMESPACE_ALL);
    assert (log + [w])[|log|] == w;
  }

  lemma MirrorKeys(m: Store, w: Write)
    requires forall k :: k in m ==> Key(m[k]) == k
    ensures forall k :: k in Mirror(m, ToEvent(w)) ==> Key(Mirror(m, ToEvent(w))[k]) == k
  {}

  lemma DeliveriesAfter(log: seq<Write>, w: Write, at: nat, g: GVR, ns: string)
    requires at <= |log|
    ensures Deliveries(log + [w], at, |log| + 1, g, ns)
         == Deliveries(log, at, |log|, g, ns) + if Visible(w, g, ns) then [ToEvent(w)] else []
  {
    DeliveriesPrefix(log, w, at, |log|, g, ns);
    assert (log + [w])[|log|] == w;
  }

  /* ---- the store ---- */

  class Watcher {
    var events: seq<WatchEvent>

    constructor ()
      ensures events == []
    {
      events := [];
    }

    method Send(e: WatchEvent)
      modifies this
      ensures events == old(events) + [e]
    {
      events := events + [e];
    }
  }

  predicate NoDup(ws: seq<Watcher>) {
    forall i, j :: 0 <= i < j < |ws| ==> ws[i] != ws[j]
  }

  method Broadcast(ws: seq<Watcher>, e: WatchEvent)
    requires NoDup(ws)
    modifies set w | w in ws
    ensures forall w :: w in ws ==> w.events == old(w.events) + [e]
  {
    for i := 0 to |ws|
      invariant forall k :: 0 <= k < i ==> ws[k].events == old(ws[k].events) + [e]
      invariant forall k :: i <= k < |ws| ==> ws[k].events == old(ws[k].events)
    {
      ws[i].Send(e);
    }
  }

  lemma LaterAgrees(table: WatchTable, registered: map<Watcher, Registration>, n: nat)
    requires TableAgrees(table, registered, n)
    ensures TableAgrees(table, registered, n + 1)
    ensures forall x :: x in registered ==> registered[x].at <= n
  {}

  type WatchTable = map<GVR, map<string, seq<Watcher>>>

  function WatchersIn(table: WatchTable, g: GVR, ns: string): seq<Watcher> {
    if g in table && ns in table[g] then table[g][ns] else []
  }

  /** The watch table and the registrations agree; n is the length of the log. */
  ghost predicate TableAgrees(table: WatchTable, registered: map<Watcher, Registration>, n: nat) {
    && (forall g, ns :: NoDup(WatchersIn(table, g, ns)))
    && (forall g, ns, w ::
         w in WatchersIn(table, g, ns) ==> w in registered && registered[w].gvr == g && registered[w].ns == ns)
    && (forall w :: w in registered ==> w in WatchersIn(table,
         registered[w].gvr, registered[w].ns) && registered[w].at <= n)
  }

  function AddWatcher(table: WatchTable, g: GVR, ns: string, w: Watcher): WatchTable {
    table[g := (if g in table then table[g] else map[])[ns := WatchersIn(table, g, ns) + [w]]]
  }

  lemma AddedWatcher(table: WatchTable, g: GVR, ns: string, w: Watcher, g': GVR, ns': string)
    ensures WatchersIn(AddWatcher(table, g, ns, w), g', ns')
         == WatchersIn(table, g', ns') + if g' == g && ns' == ns then [w] else []
  {}

  lemma RegisterAgrees(table: WatchTable, registered: map<Watcher, Registration>, n: nat, g: GVR, ns: string,
        w: Watcher)
    requires TableAgrees(table, registered, n) && w !in registered
    ensures TableAgrees(AddWatcher(table, g, ns, w), registered[w := Registration(g, ns, n)], n)
    ensures forall x :: x in registered ==> registered[x].at <= n
  {
    var table', registered' := AddWatcher(table, g, ns, w), registered[w := Registration(g, ns, n)];
    hide AddWatcher, WatchersIn;
    forall g', ns' ensures NoDup(WatchersIn(table', g', ns')) { AddedWatcher(table, g, ns, w, g', ns'); }
    forall g', ns', x | x in WatchersIn(table', g', ns')
      ensures x in registered' && registered'[x].gvr == g' && registered'[x].ns == ns'
    {
      AddedWatcher(table, g, ns, w, g', ns');
    }
    forall x | x in registered'
      ensures x in WatchersIn(table', registered'[x].gvr, registered'[x].ns) && registered'[x].at <= n
    {
      AddedWatcher(table, g, ns, w, registered'[x].gvr, registered'[x].ns);
    }
  }

  /** The watchers of a namespace and those of all namespaces, each once. */
  lemma AddressedWatchers(table: WatchTable, registered: map<Watcher, Registration>, n: nat, g: GVR, ns: string,
        ws: seq<Watcher>)
    requires TableAgrees(table, registered, n)
    requires ws == WatchersIn(table, g, ns) + if ns == NAMESPACE_ALL then [] else WatchersIn(table, g, NAMESPACE_ALL)
    ensures NoDup(ws)
    ensures forall w :: w in ws <==>
      w in registered && registered[w].gvr == g && registered[w].ns in {ns, NAMESPACE_ALL}
  {
    hide WatchersIn;
    var own := WatchersIn(table, g, ns);
    if ns == NAMESPACE_ALL {
      assert ws == own;
    } else {
      var all := WatchersIn(table, g, NAMESPACE_ALL);
      assert forall w :: w in own ==> registered[w].ns == ns;
      assert forall w :: w in all ==> registered[w].ns == NAMESPACE_ALL;
      NoDupJoin(own, all);
    }
  }

  lemma NoDupJoin(a: seq<Watcher>, b: seq<Watcher>)
    requires NoDup(a) && NoDup(b) && forall w :: w in a ==> w !in b
    ensures NoDup(a + b)
  {
    forall i, j | 0 <= i < j < |a + b| ensures (a + b)[i] != (a + b)[j] {
      if i < |a| <= j { assert (a + b)[i] in a && (a + b)[j] in b; }
    }
  }

  /** The version string of a uint64 counter after so many steps. */
  function VersionAt(first: nat, tick: nat): string { FormatUint((first + tick) % TWO_TO_64) }

  /** Each write of the log happened at its own tick and carries that tick's version. */
  ghost predicate Ticks(first: nat, ticks: nat, log: seq<Write>, tickOf: seq<nat>) {
    && |tickOf| == |log|
    && (forall i :: 0 <= i < |log| ==> 0 < tickOf[i] <= ticks)
    && (forall i, j :: 0 <= i < j < |log| ==> tickOf[i] < tickOf[j])
    && (forall i :: 0 <= i < |log| ==> log[i].item.resourceVersion == VersionAt(first, tickOf[i]))
    && (forall i :: 0 <= i < |log| ==> log[i].kind.Added? || log[i].kind.Modified? || log[i].kind.Deleted?)
  }

  lemma TickPasses(first: nat, ticks: nat, log: seq<Write>, tickOf: seq<nat>)
    requires Ticks(first, ticks, log, tickOf)
    ensures Ticks(first, ticks + 1, log, tickOf)
    ensures |log| > 0 ==> tickOf[|log| - 1] < ticks + 1
  {}

  lemma TickWrites(first: nat, ticks: nat, log: seq<Write>, tickOf: seq<nat>, w: Write)
    requires Ticks(first, ticks, log, tickOf) && ticks > 0
    requires |log| > 0 ==> tickOf[|log| - 1] < ticks
    requires w.item.resourceVersion == VersionAt(first, ticks)
    requires w.kind.Added? || w.kind.Modified? || w.kind.Deleted?
    ensures Ticks(first, ticks, log + [w], tickOf + [ticks])
  {
    hide VersionAt;
  }

  /** Until the counter passes int64, the log is one that the snapshot protocol can read. */
  lemma TickedLogIsValid(first: nat, ticks: nat, log: seq<Write>, tickOf: seq<nat>)
    requires Ticks(first, ticks, log, tickOf) && first + ticks < TWO_TO_63
    ensures StrictLog(log)
  {
    hide FormatUint, ParseInt64;
    forall i | 0 <= i < |log| ensures RV(log[i]) == Some(first + tickOf[i]) {
      VersionParses(first + tickOf[i]);
    }
  }

  class ObjectTracker {
    var objects: map<GVR, Store>
    var watchers: map<GVR, map<string, seq<Watcher>>>
    var intResourceVersion: nat

    ghost const first: nat
    /** how many times the version counter has advanced */
    ghost var ticks: nat
    ghost var log: seq<Write>
    /** the tick at which each write of the log happened */
    ghost var tickOf: seq<nat>
    ghost var registered: map<Watcher, Registration>

    function Objects(g: GVR): Store
      reads `objects
    {
      if g in objects then objects[g] else map[]
    }

    /** The uint64 counter. */
    ghost predicate Counted()
      reads `intResourceVersion, `ticks, `log, `tickOf
    {
      intResourceVersion == (first + ticks) % TWO_TO_64 && Ticks(first, ticks, log, tickOf)
    }

    ghost predicate Watched()
      reads `watchers, `registered, `log
    {
      TableAgrees(watchers, registered, |log|)
    }

    ghost predicate Delivered(w: Watcher)
      requires w in registered && registered[w].at <= |log|
      reads `registered, `log, w
    {
      w.events == Deliveries(log, registered[w].at, |log|, registered[w].gvr, registered[w].ns)
    }

    ghost predicate Stored()
      reads `objects, `log
    {
      && (forall g :: Objects(g) == StateOf(log, |log|, g, NAMESPACE_ALL))
      && (forall g, k :: k in Objects(g) ==> Key(Objects(g)[k]) == k)
    }

    ghost predicate Valid()
      reads this, registered.Keys
    {
      && Counted() && Watched() && Stored()
      && forall w :: w in registered ==> Delivered(w)
    }

    constructor (rv: nat)
      requires rv < TWO_TO_64
      ensures Valid() && log == [] && first == rv && ticks == 0 && registered == map[]
    {
      objects := map[];
      watchers := map[];
      intResourceVersion := rv;
      first := rv;
      ticks := 0;
      log := [];
      tickOf := [];
      registered := map[];
    }

    method List(g: GVR, ns: string) returns (res: seq<Item>)
      requires Valid()
      ensures SortedItems(res)
      ensures forall x :: x in res <==> Key(x) in StateOf(log, |log|, g, ns) && StateOf(log, |log|, g, ns)[Key(x)] == x
    {
      res := [];
      var objs := Objects(g);
      var keys := objs.Keys;
      ghost var done: set<NamespacedName> := {};
      while keys != {}
        invariant keys <= objs.Keys && done == objs.Keys - keys
        invariant SortedItems(res)
        invariant forall x :: x in res <==>
          Key(x) in done && objs[Key(x)] == x && (ns == NAMESPACE_ALL || x.namespace == ns)
        decreases keys
      {
        var k :| k in keys;
        var obj := objs[k];
        keys := keys - {k};
        if ns == NAMESPACE_ALL || obj.namespace == ns {
          InsertItemSorted(res, obj);
          res := InsertItem(res, obj);
        }
        done := done + {k};
      }
      if ns != NAMESPACE_ALL { StateByNamespace(log, |log|, g, ns); }
    }

    method Get(g: GVR, ns: string, name: string) returns (r: Option<Item>)
      requires Valid()
      ensures var k := NamespacedName(ns, name);
              r == if k in StateOf(log, |log|, g, NAMESPACE_ALL) then Some(StateOf(log, |log|, g, NAMESPACE_ALL)[k])
                else None
    {
      var k := NamespacedName(ns, name);
      if g !in objects || k !in objects[g] {
        assert k !in Objects(g);
        return None;
      }
      return Some(objects[g][k]);
    }

    method Watch(g: GVR, ns: string) returns (w: Watcher)
      requires Valid()
      modifies this
      ensures Valid() && fresh(w)
      ensures log == old(log) && ticks == old(ticks)
      ensures registered == old(registered)[w := Registration(g, ns, |log|)]
    {
      hide FormatUint, StateOf, Deliveries, TableAgrees, Ticks;
      w := new Watcher();
      RegisterAgrees(watchers, registered, |log|, g, ns, w);
      ghost var table := AddWatcher(watchers, g, ns, w);
      if g !in watchers {
        watchers := watchers[g := map[]];
      }
      var before := if ns in watchers[g] then watchers[g][ns] else [];
      watchers := watchers[g := watchers[g][ns := before + [w]]];
      registered := registered[w := Registration(g, ns, |log|)];
      assert watchers == table;
      NothingYet(log, g, ns);
      forall x | x in registered ensures Delivered(x) {
        if x != w { assert old(Delivered(x)); }
      }
    }

    method GetWatches(g: GVR, ns: string) returns (ws: seq<Watcher>)
      requires Valid()
      ensures NoDup(ws)
      ensures forall w :: w in ws <==>
        w in registered && registered[w].gvr == g && registered[w].ns in {ns, NAMESPACE_ALL}
    {
      hide StateOf, Deliveries, Ticks, TableAgrees;
      ws := [];
      if g in watchers {
        if ns in watchers[g] {
          ws := ws + watchers[g][ns];
        }
        if ns != NAMESPACE_ALL {
          if NAMESPACE_ALL in watchers[g] {
            ws := ws + watchers[g][NAMESPACE_ALL];
          }
        }
      }
      assert ws == WatchersIn(watchers, g, ns) + if ns == NAMESPACE_ALL then []
        else WatchersIn(watchers, g, NAMESPACE_ALL);
      AddressedWatchers(watchers, registered, |log|, g, ns, ws);
    }

    /** The version counter advances by one, wrapping at 64 bits. */
    method NextVersion() returns (version: string)
      requires Valid()
      modifies this`intResourceVersion, this`ticks
      ensures Valid() && ticks == old(ticks) + 1 && (|log| > 0 ==> |tickOf| == |log| && tickOf[|log| - 1] < ticks)
      ensures version == VersionAt(first, ticks)
    {
      hide FormatUint, Ticks;
      TickPasses(first, ticks, log, tickOf);
      WrapStep(first + ticks);
      intResourceVersion := (intResourceVersion + 1) % TWO_TO_64;
      ticks := ticks + 1;
      version := FormatUint(intResourceVersion);
    }

    /** Stores what the write says and sends it to everyone who can see it. */
    method Commit(w: Write)
      requires Valid() && ticks > 0 && (|log| > 0 ==> |tickOf| == |log| && tickOf[|log| - 1] < ticks)
      requires w.item.resourceVersion == VersionAt(first, ticks)
      requires w.kind.Added? || w.kind.Modified? || w.kind.Deleted?
      modifies this`objects, this`log, this`tickOf, registered.Keys
      ensures Valid() && log == old(log) + [w]
    {
      hide FormatUint, Mirror, StateOf, Deliveries, Visible, TableAgrees, Ticks;
      TickWrites(first, ticks, log, tickOf, w);
      LaterAgrees(watchers, registered, |log|);
      var ws := GetWatches(w.gvr, w.item.namespace);
      Broadcast(ws, ToEvent(w));
      objects := objects[w.gvr := Mirror(Objects(w.gvr), ToEvent(w))];
      log := log + [w];
      tickOf := tickOf + [ticks];
      assert Watched();
      forall x | x in registered ensures Delivered(x) {
        var r := registered[x];
        DeliveriesAfter(old(log), w, r.at, r.gvr, r.ns);
        assert old(Delivered(x));
        VisibleTo(w, r.gvr, r.ns);
        assert x in ws <==> Visible(w, r.gvr, r.ns);
        if x !in ws { assert x.events == old(x.events); }
      }
      StoredAfter(old(log), w, old(Objects(w.gvr)));
    }

    lemma StoredAfter(before: seq<Write>, w: Write, m: Store)
      requires log == before + [w] && m == StateOf(before, |before|, w.gvr, NAMESPACE_ALL)
      requires forall k :: k in m ==> Key(m[k]) == k
      requires forall g :: g != w.gvr ==> Objects(g) == StateOf(before, |before|, g, NAMESPACE_ALL)
      requires forall g, k :: g != w.gvr && k in Objects(g) ==> Key(Objects(g)[k]) == k
      requires Objects(w.gvr) == Mirror(m, ToEvent(w))
      ensures Stored()
    {
      MirrorKeys(m, w);
      hide Mirror, StateOf;
      forall g ensures Objects(g) == StateOf(log, |log|, g, NAMESPACE_ALL) {
        StateAfter(before, w, g);
      }
    }

    method Add(g: GVR, given: Item, ns: string, replaceExisting: bool) returns (err: TrackerError)
      requires Valid()
      modifies this`objects, this`log, this`tickOf, this`intResourceVersion, this`ticks, registered.Keys
      ensures Valid()
      ensures err.BadRequest? <==> given.namespace !in {"", ns}
      ensures err.BadRequest? ==> ticks == old(ticks)
      ensures !err.BadRequest? ==> ticks == old(ticks) + 1
      ensures var key := NamespacedName(ns, given.name);
              !err.BadRequest? ==>
              && (err.AlreadyExists? <==> !replaceExisting && key in old(StateOf(log, |log|, g, NAMESPACE_ALL)))
              && (err.NotFound? <==> replaceExisting && key !in old(StateOf(log, |log|, g, NAMESPACE_ALL)))
      ensures !err.NoError? ==> log == old(log)
      ensures err.NoError? ==>
        var item := given.(namespace := ns, resourceVersion := VersionAt(first, ticks));
        log == old(log) + [Write(g, if replaceExisting then Modified else Added, item)]
    {
      hide FormatUint, StateOf, Deliveries, TableAgrees, Ticks;
      var obj := given;
      if obj.namespace == "" {
        obj := obj.(namespace := ns);
      }
      if ns != obj.namespace {
        return BadRequest;
      }
      var version := NextVersion();
      obj := obj.(resourceVersion := version);
      if g !in objects {
        objects := objects[g := map[]];
        assert forall g' :: Objects(g') == old(Objects(g'));
        assert Stored();
      }
      if Key(obj) in objects[g] {
        if replaceExisting {
          Commit(Write(g, Modified, obj));
          return NoError;
        }
        return AlreadyExists;
      }
      if replaceExisting {
        return NotFound;
      }
      Commit(Write(g, Added, obj));
      return NoError;
    }

    method Delete(g: GVR, ns: string, name: string) returns (err: TrackerError)
      requires Valid()
      modifies this`objects, this`log, this`tickOf, this`intResourceVersion, this`ticks, registered.Keys
      ensures Valid()
      ensures var key := NamespacedName(ns, name);
              && err == (if key in old(StateOf(log, |log|, g, NAMESPACE_ALL)) then NoError else NotFound)
              && (err.NotFound? ==> log == old(log) && ticks == old(ticks))
              && (err.NoError? ==>
                    var item := old(StateOf(log, |log|, g, NAMESPACE_ALL))[key].(resourceVersion :=
                      VersionAt(first, ticks));
                    ticks == old(ticks) + 1 && log == old(log) + [Write(g, Deleted, item)])
    {
      var key := NamespacedName(ns, name);
      assert key in Objects(g) <==> g in objects && key in objects[g];
      if g !in objects {
        return NotFound;
      }
      if key !in objects[g] {
        return NotFound;
      }
      var obj := objects[g][key];
      var version := NextVersion();
      Commit(Write(g, Deleted, obj.(resourceVersion := version)));
      return NoError;
    }

    /** Whatever has happened since a watcher registered, replaying its events onto the objects
        it could list then gives exactly the objects it could list now. */
    lemma WatcherMirrorsStore(w: Watcher)
      requires Valid() && w in registered
      ensures var r := registered[w];
              && MirrorAll(StateOf(log, r.at, r.gvr, r.ns), w.events) == StateOf(log, |log|, r.gvr, r.ns)
              && (r.ns == NAMESPACE_ALL ==> w.events == EventsOf(log, r.at, |log|, r.gvr))
              && (first + ticks < TWO_TO_63 ==> StrictlyIncreasing(w.events))
    {
      var r := registered[w];
      assert Delivered(w);
      WatchRefinesStore(log, r.at, |log|, r.gvr, r.ns);
      AllNamespacesSeeAll(log, r.at, |log|, r.gvr);
      if first + ticks < TWO_TO_63 {
        TickedLogIsValid(first, ticks, log, tickOf);
        DeliveriesIncrease(log, r.at, |log|, r.gvr, r.ns);
      }
    }
  }
}
