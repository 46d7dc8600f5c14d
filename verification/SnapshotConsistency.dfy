/** The list+watch snapshot protocol (pkg/cluster/snapshot.go:133-256). The server is a log of
    writes whose versions increase path by path; resource types are listed at different moments
    between the two markers; the watch events from the start marker on are folded in. */
module SnapshotConsistency {
  import opened Text
  import opened Objects
  import opened EventFold

  /** One successful write of the server. A deletion carries the deleted object with the
      deletion's own version. */
  datatype Write = Write(gvr: GVR, kind: EventType, item: Item)

  function RV(w: Write): Option<int> { ParseInt64(w.item.resourceVersion) }

  /** Every write is a creation, an update or a deletion with a version that parses. */
  predicate Versioned(log: seq<Write>) {
    forall i :: 0 <= i < |log| ==>
      RV(log[i]).Some? && (log[i].kind.Added? || log[i].kind.Modified? || log[i].kind.Deleted?)
  }

  /** The versions of the writes to one path increase. Writes to different paths may share a version,
      as when an object that is served under two API versions is written once. */
  predicate ValidLog(path: PathFunction, log: seq<Write>) {
    && Versioned(log)
    && forall i, j :: 0 <= i < j < |log| && path(log[i].item) == path(log[j].item) ==>
         RV(log[i]).value < RV(log[j]).value
  }

  /** Every earlier write has a lower version than write b. */
  predicate Closes(log: seq<Write>, b: nat) {
    b < |log| && forall i :: 0 <= i < b ==>
      IsOlderValidResourceVersion(log[i].item.resourceVersion, log[b].item.resourceVersion)
  }

  /** No two writes share a version. */
  predicate StrictLog(log: seq<Write>) {
    Versioned(log) && forall i, j :: 0 <= i < j < |log| ==> RV(log[i]).value < RV(log[j]).value
  }

  lemma StrictIsValid(path: PathFunction, log: seq<Write>)
    requires StrictLog(log)
    ensures ValidLog(path, log) && forall b :: 0 <= b < |log| ==> Closes(log, b)
  {
    hide ParseInt64;
  }

  /** Objects of different types have different paths. */
  predicate Typed(path: PathFunction, log: seq<Write>) {
    forall i, j :: 0 <= i < |log| && 0 <= j < |log| && path(log[i].item) == path(log[j].item) ==>
      log[i].gvr == log[j].gvr
  }

  /** The object at path p after the first n writes. */
  function EntryAt(path: PathFunction, log: seq<Write>, n: nat, p: string): Option<Item>
    requires n <= |log|
  {
    if n == 0 then None
    else if path(log[n - 1].item) != p then EntryAt(path, log, n - 1, p)
    else if log[n - 1].kind.Deleted? then None
    else Some(log[n - 1].item)
  }

  /** Some write of type g is about path p. */
  predicate HasType(path: PathFunction, log: seq<Write>, p: string, g: GVR) {
    exists i :: 0 <= i < |log| && path(log[i].item) == p && log[i].gvr == g
  }

  /** `list` is what listing type g returns after the first n writes, in any order. */
  ghost predicate Lists(path: PathFunction, log: seq<Write>, n: nat, g: GVR, list: seq<Item>)
    requires n <= |log|
  {
    && Unique(path, list)
    && forall p :: Lookup(path, list, p) == if HasType(path, log, p, g) then EntryAt(path, log, n, p) else None
  }

  /** The watch events of type g for the writes from lo up to hi, in version order. */
  function EventsOf(log: seq<Write>, lo: nat, hi: nat, g: GVR): seq<WatchEvent>
    requires lo <= hi <= |log|
  {
    if lo == hi then []
    else EventsOf(log, lo, hi - 1, g)
         + (if log[hi - 1].gvr == g then [ItemEvent(log[hi - 1].kind, log[hi - 1].item)] else [])
  }

  /** Events that come too late to matter: not older than the end marker, or without an object. */
  predicate Late(endRV: string, events: seq<WatchEvent>) {
    forall i :: 0 <= i < |events| ==>
      events[i].OtherEvent? || !IsOlderValidResourceVersion(events[i].item.resourceVersion, endRV)
  }

  /* ---- one path ---- */

  /** The events for path p among the writes from lo up to hi. */
  function PathWrites(path: PathFunction, log: seq<Write>, lo: nat, hi: nat, p: string): seq<WatchEvent>
    requires lo <= hi <= |log|
  {
    if lo == hi then []
    else PathWrites(path, log, lo, hi - 1, p)
         + (if path(log[hi - 1].item) == p then [ItemEvent(log[hi - 1].kind, log[hi - 1].item)] else [])
  }

  /** The object that the writes from lo up to hi alone leave at p. */
  function EntryOf(path: PathFunction, log: seq<Write>, lo: nat, hi: nat, p: string): Option<Item>
    requires lo <= hi <= |log|
  {
    if lo == hi then None
    else if path(log[hi - 1].item) != p then EntryOf(path, log, lo, hi - 1, p)
    else if log[hi - 1].kind.Deleted? then None
    else Some(log[hi - 1].item)
  }

  /** An entry is the item of an earlier write that nothing has touched since. */
  lemma {:induction false} EntrySource(path: PathFunction, log: seq<Write>, n: nat, p: string) returns (i: nat)
    requires n <= |log| && EntryAt(path, log, n, p).Some?
    ensures i < n && !log[i].kind.Deleted? && EntryAt(path, log, n, p) == Some(log[i].item) && path(log[i].item) == p
    ensures forall j :: i < j < n ==> path(log[j].item) != p
  {
    if path(log[n - 1].item) != p {
      i := EntrySource(path, log, n - 1, p);
    } else {
      i := n - 1;
    }
  }

  lemma {:induction false} EntryOfSource(path: PathFunction, log: seq<Write>, lo: nat, hi: nat, p: string)
    returns (i: nat)
    requires lo <= hi <= |log| && EntryOf(path, log, lo, hi, p).Some?
    ensures lo <= i < hi && EntryOf(path, log, lo, hi, p) == Some(log[i].item) && path(log[i].item) == p
  {
    if path(log[hi - 1].item) != p {
      i := EntryOfSource(path, log, lo, hi - 1, p);
    } else {
      i := hi - 1;
    }
  }

  /** If nothing is there after hi writes, nothing is left by the last of them either. */
  lemma {:induction false} GoneIsGone(path: PathFunction, log: seq<Write>, lo: nat, hi: nat, p: string)
    requires lo <= hi <= |log| && EntryAt(path, log, hi, p).None?
    ensures EntryOf(path, log, lo, hi, p).None?
  {
    if lo < hi && path(log[hi - 1].item) != p {
      GoneIsGone(path, log, lo, hi - 1, p);
    }
  }

  /** What replaying the writes from lo up to hi onto the object listed at m gives. */
  function Expected(path: PathFunction, log: seq<Write>, lo: nat, m: nat, hi: nat, p: string): Option<Item>
    requires lo <= hi <= |log| && m <= |log|
  {
    if hi >= m then EntryAt(path, log, hi, p)
    else if EntryAt(path, log, m, p).Some? then EntryAt(path, log, m, p)
    else EntryOf(path, log, lo, hi, p)
  }

  predicate Newer(w: Write, x: Item) {
    IsNewerValidResourceVersion(w.item.resourceVersion, x.resourceVersion)
  }

  /** Between lo and m the object listed at m is not touched by older events; from m on every
      write is newer than what is there. */
  lemma ExpectedAge(path: PathFunction, log: seq<Write>, lo: nat, m: nat, hi: nat, p: string)
    requires ValidLog(path, log) && lo <= hi < |log| && m <= |log|
    requires path(log[hi].item) == p && Expected(path, log, lo, m, hi, p).Some?
    ensures Newer(log[hi], Expected(path, log, lo, m, hi, p).value)
       <==> hi >= m || EntryAt(path, log, m, p).None?
  {
    hide ParseInt64;
    if hi >= m {
      var i := EntrySource(path, log, hi, p);
    } else if EntryAt(path, log, m, p).Some? {
      var i := EntrySource(path, log, m, p);
      assert hi <= i;
      assert RV(log[hi]).value <= RV(log[i]).value;
    } else {
      var i := EntryOfSource(path, log, lo, hi, p);
    }
  }

  lemma {:induction false} ReplayWindow(path: PathFunction, log: seq<Write>, lo: nat, m: nat, hi: nat, b: nat,
        p: string)
    requires ValidLog(path, log) && Closes(log, b) && lo <= m && lo <= hi <= b && m <= |log|
    ensures Replay(log[b].item.resourceVersion, EntryAt(path, log, m, p), PathWrites(path, log, lo, hi, p))
         == Expected(path, log, lo, m, hi, p)
  {
    hide ParseInt64;
    var endRV := log[b].item.resourceVersion;
    if hi == lo {
      if lo < m && EntryAt(path, log, m, p).None? { assert EntryOf(path, log, lo, hi, p).None?; }
    } else {
      var w := log[hi - 1];
      ReplayWindow(path, log, lo, m, hi - 1, b, p);
      var before := PathWrites(path, log, lo, hi - 1, p);
      if hi == m && EntryAt(path, log, m, p).None? { GoneIsGone(path, log, lo, m, p); }
      if path(w.item) == p {
        var e := ItemEvent(w.kind, w.item);
        assert PathWrites(path, log, lo, hi, p) == before + [e];
        assert (before + [e])[..|before|] == before;
        if Expected(path, log, lo, m, hi - 1, p).Some? { ExpectedAge(path, log, lo, m, hi - 1, p); }
        WindowStep(path, log, lo, m, hi - 1, endRV, p);
      } else {
        assert before + [] == before;
        UntouchedStep(path, log, lo, m, hi - 1, p);
      }
    }
  }

  lemma UntouchedStep(path: PathFunction, log: seq<Write>, lo: nat, m: nat, k: nat, p: string)
    requires lo <= k < |log| && m <= |log| && lo <= m && path(log[k].item) != p
    ensures Expected(path, log, lo, m, k + 1, p) == Expected(path, log, lo, m, k, p)
  {
    if k + 1 == m && EntryAt(path, log, m, p).None? { GoneIsGone(path, log, lo, m, p); }
  }

  lemma WindowStep(path: PathFunction, log: seq<Write>, lo: nat, m: nat, k: nat, endRV: string, p: string)
    requires ValidLog(path, log) && lo <= m && lo <= k < |log| && m <= |log| && path(log[k].item) == p
    requires IsOlderValidResourceVersion(log[k].item.resourceVersion, endRV)
    ensures Step(endRV, Expected(path, log, lo, m, k, p), ItemEvent(log[k].kind, log[k].item))
         == Expected(path, log, lo, m, k + 1, p)
  {
    hide ParseInt64;
    if k + 1 == m && EntryAt(path, log, m, p).None? { GoneIsGone(path, log, lo, m, p); }
    if Expected(path, log, lo, m, k, p).Some? {
      ExpectedAge(path, log, lo, m, k, p);
    }
  }

  /* ---- from streams to paths ---- */

  /** The stream of a path's own type carries exactly the writes to the path. */
  lemma {:induction false} StreamOfType(path: PathFunction, endRV: string, log: seq<Write>, lo: nat, hi: nat,
        g: GVR, p: string)
    requires lo <= hi <= |log| && Typed(path, log) && HasType(path, log, p, g)
    requires forall i :: lo <= i < hi ==> IsOlderValidResourceVersion(log[i].item.resourceVersion, endRV)
    ensures PathEvents(path, endRV, p, EventsOf(log, lo, hi, g)) == PathWrites(path, log, lo, hi, p)
  {
    hide IsOlderValidResourceVersion;
    if lo < hi {
      var w := log[hi - 1];
      StreamOfType(path, endRV, log, lo, hi - 1, g, p);
      var before := EventsOf(log, lo, hi - 1, g);
      var i :| 0 <= i < |log| && path(log[i].item) == p && log[i].gvr == g;
      assert path(w.item) == p ==> w.gvr == g;
      hide Typed, HasType;
      if w.gvr == g {
        assert (before + [ItemEvent(w.kind, w.item)])[..|before|] == before;
      } else {
        assert before + [] == before;
      }
    }
  }

  /** A stream of another type carries nothing for the path. */
  lemma {:induction false} StreamOfOtherType(path: PathFunction, endRV: string, log: seq<Write>, lo: nat,
        hi: nat, g: GVR, p: string)
    requires lo <= hi <= |log| && !HasType(path, log, p, g)
    ensures PathEvents(path, endRV, p, EventsOf(log, lo, hi, g)) == []
  {
    hide IsOlderValidResourceVersion;
    if lo < hi {
      var w := log[hi - 1];
      StreamOfOtherType(path, endRV, log, lo, hi - 1, g, p);
      var before := EventsOf(log, lo, hi - 1, g);
      if w.gvr == g {
        assert path(w.item) != p;
        assert (before + [ItemEvent(w.kind, w.item)])[..|before|] == before;
      } else {
        assert before + [] == before;
      }
    }
  }

  lemma {:induction false} LateCarriesNothing(path: PathFunction, endRV: string, late: seq<WatchEvent>, p: string)
    requires Late(endRV, late)
    ensures PathEvents(path, endRV, p, late) == []
  {
    hide IsOlderValidResourceVersion;
    if late != [] {
      var n := |late| - 1;
      forall i | 0 <= i < n
        ensures late[..n][i].OtherEvent? || !IsOlderValidResourceVersion(late[..n][i].item.resourceVersion, endRV)
      {
        assert late[..n][i] == late[i];
      }
      LateCarriesNothing(path, endRV, late[..n], p);
    }
  }

  /** The events that an interleaving takes from stream t. */
  function Select(events: seq<WatchEvent>, source: seq<nat>, t: nat): seq<WatchEvent>
    requires |events| == |source|
  {
    if events == [] then []
    else
      var n := |events| - 1;
      Select(events[..n], source[..n], t) + (if source[n] == t then [events[n]] else [])
  }

  /** If only stream t can carry events for p, the interleaving shows p exactly stream t's. */
  lemma {:induction false} InterleavedPath(path: PathFunction, endRV: string, events: seq<WatchEvent>,
        source: seq<nat>, t: nat, p: string)
    requires |events| == |source|
    requires forall i :: 0 <= i < |events| && source[i] != t ==> !Concerns(path, endRV, p, events[i])
    ensures PathEvents(path, endRV, p, events) == PathEvents(path, endRV, p, Select(events, source, t))
  {
    hide Concerns;
    if events != [] {
      var n := |events| - 1;
      forall i | 0 <= i < n && source[..n][i] != t ensures !Concerns(path, endRV, p, events[..n][i]) {
        assert events[..n][i] == events[i] && source[..n][i] == source[i];
      }
      InterleavedPath(path, endRV, events[..n], source[..n], t, p);
      var before := Select(events[..n], source[..n], t);
      if source[n] == t {
        assert (before + [events[n]])[..|before|] == before;
      } else {
        assert before + [] == before;
      }
    }
  }

  lemma {:induction false} SelectedOccurs(events: seq<WatchEvent>, source: seq<nat>, i: nat)
    requires |events| == |source| && i < |events|
    ensures events[i] in Select(events, source, source[i])
  {
    var n := |events| - 1;
    if i < n {
      SelectedOccurs(events[..n], source[..n], i);
      assert events[..n][i] == events[i] && source[..n][i] == source[i];
    }
  }

  /* ---- a whole run ---- */

  /** A snapshot run: which types were listed, after how many writes, what the lists returned,
      what each watch delivered after its complete part, and how deliveries interleaved. */
  datatype Run = Run(
    log: seq<Write>,
    start: nat,
    end: nat,
    types: seq<GVR>,
    moments: seq<nat>,
    lists: seq<seq<Item>>,
    late: seq<seq<WatchEvent>>,
    events: seq<WatchEvent>,
    source: seq<nat>)
  {
    function EndRV(): string
      requires end < |log|
    {
      log[end].item.resourceVersion
    }

    function Stream(t: nat): seq<WatchEvent>
      requires start < end < |log| && t < |types| && |late| == |types|
    {
      EventsOf(log, start + 1, end, types[t]) + late[t]
    }

    predicate Shape() {
      && start < end < |log|
      && |types| == |moments| == |lists| == |late|
      && (forall t :: 0 <= t < |moments| ==> start < moments[t] <= end)
      && (forall t, u :: 0 <= t < u < |types| ==> types[t] != types[u])
      && |source| == |events|
      && (forall i :: 0 <= i < |source| ==> source[i] < |types|)
    }

    /** Every list is the state of its type at its moment, and the events are an interleaving of
        complete, in-order watch streams followed by anything late. */
    ghost predicate Valid(path: PathFunction) {
      && Shape()
      && ValidLog(path, log) && Closes(log, end) && Typed(path, log)
      && (forall t :: 0 <= t < |types| ==> Lists(path, log, moments[t], types[t], lists[t]))
      && (forall t :: 0 <= t < |types| ==> Late(EndRV(), late[t]))
      && (forall t :: 0 <= t < |types| ==> Select(events, source, t) == Stream(t))
    }

    /** The path belongs to one of the listed types. */
    predicate Listed(path: PathFunction, p: string) {
      exists t :: 0 <= t < |types| && HasType(path, log, p, types[t])
    }

    function Joined(): seq<Item> { Concat(lists) }

    function Result(path: PathFunction): seq<Item>
      requires end < |log|
    {
      Fold(path, EndRV(), Joined(), events)
    }
  }

  function Concat(lists: seq<seq<Item>>): seq<Item> {
    if lists == [] then [] else Concat(lists[..|lists| - 1]) + lists[|lists| - 1]
  }

  lemma {:induction false} ConcatMember(lists: seq<seq<Item>>, x: Item)
    ensures x in Concat(lists) <==> exists t :: 0 <= t < |lists| && x in lists[t]
  {
    if lists != [] {
      var n := |lists| - 1;
      ConcatMember(lists[..n], x);
      if t :| 0 <= t < |lists| && x in lists[t] {
        if t < n { assert lists[..n][t] == lists[t]; }
      }
    }
  }

  lemma {:induction false} ConcatUnique(path: PathFunction, lists: seq<seq<Item>>)
    requires forall t :: 0 <= t < |lists| ==> Unique(path, lists[t])
    requires forall t, u, x, y :: 0 <= t < u < |lists| && x in lists[t] && y in lists[u] ==> path(x) != path(y)
    ensures Unique(path, Concat(lists))
  {
    if lists != [] {
      var n := |lists| - 1;
      ConcatUnique(path, lists[..n]);
      forall x, y | x in Concat(lists[..n]) && y in lists[n] ensures path(x) != path(y) {
        ConcatMember(lists[..n], x);
      }
    }
  }

  lemma LookupMember(path: PathFunction, list: seq<Item>, x: Item)
    requires Unique(path, list)
    ensures x in list <==> Lookup(path, list, path(x)) == Some(x)
  {
    if x in list {
      var i :| 0 <= i < |list| && list[i] == x;
      LookupAt(path, list, i);
    }
  }

  lemma ListedTypeIsUnique(path: PathFunction, run: Run, p: string, t: nat, u: nat)
    requires run.Valid(path) && t < |run.types| && u < |run.types|
    requires HasType(path, run.log, p, run.types[t]) && HasType(path, run.log, p, run.types[u])
    ensures t == u
  {
    var i :| 0 <= i < |run.log| && path(run.log[i].item) == p && run.log[i].gvr == run.types[t];
    var j :| 0 <= j < |run.log| && path(run.log[j].item) == p && run.log[j].gvr == run.types[u];
  }

  /** A listed item belongs to its type. */
  lemma ListedItem(path: PathFunction, run: Run, t: nat, x: Item)
    requires run.Valid(path) && t < |run.types| && x in run.lists[t]
    ensures HasType(path, run.log, path(x), run.types[t])
  {
    assert Lists(path, run.log, run.moments[t], run.types[t], run.lists[t]);
    LookupMember(path, run.lists[t], x);
  }

  lemma JoinedUnique(path: PathFunction, run: Run)
    requires run.Valid(path)
    ensures Unique(path, run.Joined())
  {
    forall t | 0 <= t < |run.lists| ensures Unique(path, run.lists[t]) {
      assert Lists(path, run.log, run.moments[t], run.types[t], run.lists[t]);
    }
    forall t, u, x, y | 0 <= t < u < |run.lists| && x in run.lists[t] && y in run.lists[u] ensures path(x) != path(y) {
      ListedItem(path, run, t, x);
      ListedItem(path, run, u, y);
    }
    ConcatUnique(path, run.lists);
  }

  /** In the joined list a path of type t has the entry of its own list. */
  lemma JoinedEntry(path: PathFunction, run: Run, t: nat, p: string)
    requires run.Valid(path) && t < |run.types| && HasType(path, run.log, p, run.types[t])
    ensures Lookup(path, run.Joined(), p) == EntryAt(path, run.log, run.moments[t], p)
  {
    JoinedUnique(path, run);
    assert Lists(path, run.log, run.moments[t], run.types[t], run.lists[t]);
    var own, all := Lookup(path, run.lists[t], p), Lookup(path, run.Joined(), p);
    if own.Some? {
      LookupMember(path, run.lists[t], own.value);
      ConcatMember(run.lists, own.value);
      LookupMember(path, run.Joined(), own.value);
    } else if all.Some? {
      LookupMember(path, run.Joined(), all.value);
      ConcatMember(run.lists, all.value);
      var u :| 0 <= u < |run.lists| && all.value in run.lists[u];
      ListedItem(path, run, u, all.value);
      ListedTypeIsUnique(path, run, p, t, u);
      LookupMember(path, run.lists[u], all.value);
    }
  }

  lemma JoinedNoEntry(path: PathFunction, run: Run, p: string)
    requires run.Valid(path) && !run.Listed(path, p)
    ensures Lookup(path, run.Joined(), p) == None
  {
    JoinedUnique(path, run);
    var all := Lookup(path, run.Joined(), p);
    if all.Some? {
      ConcatMember(run.lists, all.value);
      var u :| 0 <= u < |run.lists| && all.value in run.lists[u];
      ListedItem(path, run, u, all.value);
    }
  }

  /** What a complete stream of type g, with its late part, can deliver about p. */
  lemma StreamEvents(path: PathFunction, log: seq<Write>, lo: nat, b: nat, g: GVR, late: seq<WatchEvent>, p: string)
    requires Closes(log, b) && Typed(path, log) && lo <= b
    requires Late(log[b].item.resourceVersion, late)
    ensures PathEvents(path, log[b].item.resourceVersion, p, EventsOf(log, lo, b, g) + late)
         == if HasType(path, log, p, g) then PathWrites(path, log, lo, b, p) else []
  {
    hide IsOlderValidResourceVersion;
    var endRV := log[b].item.resourceVersion;
    PathEventsAppend(path, endRV, p, EventsOf(log, lo, b, g), late);
    LateCarriesNothing(path, endRV, late, p);
    if HasType(path, log, p, g) {
      StreamOfType(path, endRV, log, lo, b, g, p);
    } else {
      StreamOfOtherType(path, endRV, log, lo, b, g, p);
    }
  }

  lemma RunStreamEvents(path: PathFunction, run: Run, t: nat, p: string)
    requires run.Valid(path) && t < |run.types|
    ensures PathEvents(path, run.EndRV(), p, run.Stream(t))
         == if HasType(path, run.log, p, run.types[t]) then PathWrites(path, run.log, run.start + 1, run.end, p) else []
  {
    hide HasType, Typed, Lists, ValidLog, Late, PathWrites, PathEvents, EventsOf, IsOlderValidResourceVersion;
    StreamEvents(path, run.log, run.start + 1, run.end, run.types[t], run.late[t], p);
  }

  /** An event from a stream that carries nothing for p does not concern p. */
  lemma OnlyOwnStream(path: PathFunction, run: Run, i: nat, p: string)
    requires run.Valid(path) && i < |run.events| && !HasType(path, run.log, p, run.types[run.source[i]])
    ensures !Concerns(path, run.EndRV(), p, run.events[i])
  {
    hide Concerns;
    var u := run.source[i];
    RunStreamEvents(path, run, u, p);
    SelectedOccurs(run.events, run.source, i);
    var stream := run.Stream(u);
    var k :| 0 <= k < |stream| && stream[k] == run.events[i];
    if Concerns(path, run.EndRV(), p, run.events[i]) {
      OccursInPathEvents(path, run.EndRV(), p, stream, k);
    }
  }

  /** The events that concern p, in the order they were delivered. */
  lemma DeliveredFor(path: PathFunction, run: Run, p: string)
    requires run.Valid(path)
    ensures PathEvents(path, run.EndRV(), p, run.events)
         == if run.Listed(path, p) then PathWrites(path, run.log, run.start + 1, run.end, p) else []
  {
    hide Concerns, HasType, Typed, Lists, ValidLog;
    var endRV := run.EndRV();
    if run.Listed(path, p) {
      var t :| 0 <= t < |run.types| && HasType(path, run.log, p, run.types[t]);
      forall i | 0 <= i < |run.events| && run.source[i] != t ensures !Concerns(path, endRV, p, run.events[i]) {
        if HasType(path, run.log, p, run.types[run.source[i]]) {
          ListedTypeIsUnique(path, run, p, t, run.source[i]);
        }
        OnlyOwnStream(path, run, i, p);
      }
      InterleavedPath(path, endRV, run.events, run.source, t, p);
      RunStreamEvents(path, run, t, p);
    } else {
      forall i | 0 <= i < |run.events| ensures !Concerns(path, endRV, p, run.events[i]) {
        OnlyOwnStream(path, run, i, p);
      }
      NoneConcern(path, endRV, run.events, p);
    }
  }

  /** Main result. Whatever the history, the list moments and the interleaving, the snapshot has
      at every path of a listed type exactly the object that was there just before the end
      marker, and nothing else. */
  lemma SnapshotIsConsistent(path: PathFunction, run: Run, p: string)
    requires run.Valid(path)
    ensures Unique(path, run.Result(path))
    ensures Lookup(path, run.Result(path), p)
         == if run.Listed(path, p) then EntryAt(path, run.log, run.end, p) else None
  {
    hide Concerns, HasType, Typed, Lists, Fold, PathWrites, PathEvents;
    JoinedUnique(path, run);
    FoldLookup(path, run.EndRV(), run.Joined(), run.events, p);
    DeliveredFor(path, run, p);
    if run.Listed(path, p) {
      var t :| 0 <= t < |run.types| && HasType(path, run.log, p, run.types[t]);
      JoinedEntry(path, run, t, p);
      ReplayWindow(path, run.log, run.start + 1, run.moments[t], run.end, run.end, p);
    } else {
      JoinedNoEntry(path, run, p);
    }
  }

  lemma {:induction false} NoneConcern(path: PathFunction, endRV: string, events: seq<WatchEvent>, p: string)
    requires forall i :: 0 <= i < |events| ==> !Concerns(path, endRV, p, events[i])
    ensures PathEvents(path, endRV, p, events) == []
  {
    hide Concerns;
    if events != [] {
      var n := |events| - 1;
      forall i | 0 <= i < n ensures !Concerns(path, endRV, p, events[..n][i]) {
        assert events[..n][i] == events[i];
      }
      NoneConcern(path, endRV, events[..n], p);
    }
  }

  /** The marker object is created by the start write, deleted by some later write d, whatever
      other clients write in between, and not written again before the end marker. */
  predicate MarkerPath(path: PathFunction, run: Run, d: nat, p: string)
    requires run.Shape()
  {
    && run.start < d < run.end
    && path(run.log[run.start].item) == p
    && path(run.log[d].item) == p && run.log[d].kind.Deleted?
    && forall i :: d < i < run.end ==> path(run.log[i].item) != p
  }

  lemma {:induction false} DeletedEntry(path: PathFunction, log: seq<Write>, d: nat, n: nat, p: string)
    requires d < n <= |log| && path(log[d].item) == p && log[d].kind.Deleted?
    requires forall i :: d < i < n ==> path(log[i].item) != p
    ensures EntryAt(path, log, n, p) == None
  {
    if d < n - 1 { DeletedEntry(path, log, d, n - 1, p); }
  }

  /** Neither marker is in the snapshot. */
  lemma NoMarkers(path: PathFunction, run: Run, d: nat, p: string)
    requires run.Valid(path) && MarkerPath(path, run, d, p)
    ensures Lookup(path, run.Result(path), p) == None
  {
    SnapshotIsConsistent(path, run, p);
    DeletedEntry(path, run.log, d, run.end, p);
  }
}
