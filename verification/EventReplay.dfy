/** Refolding events that were already folded (pkg/cluster/snapshot.go:212-256). */
module EventReplay {
  import opened Text
  import opened Objects
  import opened EventFold

  function Version(e: WatchEvent): int {
    if e.ItemEvent? && ParseInt64(e.item.resourceVersion).Some?
    then ParseInt64(e.item.resourceVersion).value else 0
  }

  /** The events for one path, all from before the end marker, in version order. */
  predicate InOrder(endRV: string, events: seq<WatchEvent>) {
    && (forall i :: 0 <= i < |events| ==>
          events[i].ItemEvent? && IsOlderValidResourceVersion(events[i].item.resourceVersion, endRV))
    && (forall i, j :: 0 <= i < j < |events| ==> Version(events[i]) <= Version(events[j]))
  }

  predicate Stale(entry: Option<Item>, e: WatchEvent) {
    entry.Some? && e.ItemEvent? && !IsNewerValidResourceVersion(e.item.resourceVersion, entry.value.resourceVersion)
  }

  /** After an in-order replay no replayed event is newer than the entry that is left. */
  lemma {:induction false} ReplayedAreStale(endRV: string, entry: Option<Item>, events: seq<WatchEvent>, i: nat)
    requires InOrder(endRV, events) && i < |events|
    requires Replay(endRV, entry, events).Some?
    requires events[i].kind.Added? || events[i].kind.Modified? || events[i].kind.Deleted?
    ensures Stale(Replay(endRV, entry, events), events[i])
  {
    var n := |events| - 1;
    var before, e := Replay(endRV, entry, events[..n]), events[n];
    if i < n {
      if before.Some? {
        ReplayedAreStale(endRV, entry, events[..n], i);
        assert events[..n][i] == events[i];
        assert Version(events[i]) <= Version(e);
      } else {
        assert Version(events[i]) <= Version(e);
      }
    }
  }

  predicate Effective(e: WatchEvent)
    requires e.ItemEvent?
  {
    e.kind.Added? || e.kind.Modified? || e.kind.Deleted?
  }

  /** Stale events leave the entry alone. */
  lemma {:induction false} StaleReplay(endRV: string, entry: Option<Item>, events: seq<WatchEvent>)
    requires entry.Some?
    requires forall i :: 0 <= i < |events| ==>
      events[i].ItemEvent? && (Effective(events[i]) ==> Stale(entry, events[i]))
    ensures Replay(endRV, entry, events) == entry
  {
    if events != [] {
      var n := |events| - 1;
      forall i | 0 <= i < n
        ensures events[..n][i].ItemEvent? && (Effective(events[..n][i]) ==> Stale(entry, events[..n][i]))
      {
        assert events[..n][i] == events[i];
      }
      StaleReplay(endRV, entry, events[..n]);
    }
  }

  /** The event that deletes an entry is newer than everything replayed before it. */
  lemma DeletesAgain(endRV: string, entry: Option<Item>, events: seq<WatchEvent>, e: WatchEvent, k: nat)
    requires InOrder(endRV, events + [e]) && k <= |events|
    requires Replay(endRV, entry, events).Some? && Step(endRV, Replay(endRV, entry, events), e) == None
    ensures Step(endRV, Replay(endRV, None, events[k..]), e) == None
  {
    hide ParseInt64, Replay;
    var again := Replay(endRV, None, events[k..]);
    assert (events + [e])[|events|] == e;
    assert forall j :: 0 <= j < |events| ==> (events + [e])[j] == events[j];
    if again.Some? {
      var i := StoredFromEvent(endRV, events[k..]);
      ReplayedAreStale(endRV, entry, events, k + i);
    }
  }

  /** An in-order run that deletes the entry also deletes whatever its own suffix builds up. */
  lemma {:induction false} SuffixReplayDeleted(endRV: string, entry: Option<Item>, events: seq<WatchEvent>, k: nat)
    requires InOrder(endRV, events) && k <= |events|
    requires Replay(endRV, entry, events) == None
    ensures Replay(endRV, None, events[k..]) == None
  {
    if k < |events| {
      var n := |events| - 1;
      var suffix := events[k..];
      assert suffix[..|suffix| - 1] == events[..n][k..] && suffix[|suffix| - 1] == events[n];
      if Replay(endRV, entry, events[..n]) == None {
        SuffixReplayDeleted(endRV, entry, events[..n], k);
      } else {
        assert events[..n] + [events[n]] == events;
        DeletesAgain(endRV, entry, events[..n], events[n], k);
      }
    }
  }

  /** Starting from nothing, an entry that is left was stored by one of the events. */
  lemma {:induction false} StoredFromEvent(endRV: string, events: seq<WatchEvent>) returns (i: nat)
    requires Replay(endRV, None, events).Some?
    ensures i < |events| && events[i].ItemEvent? && (events[i].kind.Added? || events[i].kind.Modified?)
    ensures Replay(endRV, None, events) == Some(events[i].item)
  {
    var n := |events| - 1;
    var before := Replay(endRV, None, events[..n]);
    if before.Some? && EffectOn(endRV, before, events[n]).Ignore? {
      i := StoredFromEvent(endRV, events[..n]);
    } else {
      i := n;
    }
  }

  /** Replaying any suffix of an in-order run of one path's events changes nothing. */
  lemma ReplayIdempotent(endRV: string, entry: Option<Item>, events: seq<WatchEvent>, k: nat)
    requires InOrder(endRV, events) && k <= |events|
    ensures Replay(endRV, Replay(endRV, entry, events), events[k..]) == Replay(endRV, entry, events)
  {
    var final := Replay(endRV, entry, events);
    if final.None? {
      SuffixReplayDeleted(endRV, entry, events, k);
    } else {
      forall i | 0 <= i < |events[k..]|
        ensures events[k..][i].ItemEvent? && (Effective(events[k..][i]) ==> Stale(final, events[k..][i]))
      {
        if Effective(events[k + i]) { ReplayedAreStale(endRV, entry, events, k + i); }
      }
      StaleReplay(endRV, final, events[k..]);
    }
  }

  /** `again` carries, path by path, a suffix of what `events` carried. */
  ghost predicate SuffixesOf(path: PathFunction, endRV: string, again: seq<WatchEvent>, events: seq<WatchEvent>) {
    forall p :: exists k :: IsSuffix(PathEvents(path, endRV, p, again), PathEvents(path, endRV, p, events), k)
  }

  predicate IsSuffix(a: seq<WatchEvent>, b: seq<WatchEvent>, k: int) {
    0 <= k <= |b| && a == b[k..]
  }

  ghost predicate AllInOrder(path: PathFunction, endRV: string, events: seq<WatchEvent>) {
    forall p :: InOrder(endRV, PathEvents(path, endRV, p, events))
  }

  /** Refolding suffixes of the streams, in any interleaving, gives back every entry. */
  lemma RefoldSameEntries(path: PathFunction, endRV: string, list: seq<Item>, events: seq<WatchEvent>,
        again: seq<WatchEvent>, p: string)
    requires Unique(path, list)
    requires AllInOrder(path, endRV, events) && SuffixesOf(path, endRV, again, events)
    ensures var r := Fold(path, endRV, list, events);
            Unique(path, r) && Lookup(path, Fold(path, endRV, r, again), p) == Lookup(path, r, p)
  {
    var r := Fold(path, endRV, list, events);
    FoldLookup(path, endRV, list, events, p);
    FoldLookup(path, endRV, r, again, p);
    var own := PathEvents(path, endRV, p, events);
    assert InOrder(endRV, own);
    var k :| IsSuffix(PathEvents(path, endRV, p, again), own, k);
    ReplayIdempotent(endRV, Lookup(path, list, p), own, k);
  }

  lemma PrefixStep(path: PathFunction, endRV: string, r: seq<Item>, mid: seq<Item>, e: WatchEvent)
    requires Unique(path, r) && Unique(path, mid) && r <= mid
    requires e.ItemEvent? && Lookup(path, r, path(e.item)).Some? ==>
      EffectOn(endRV, Lookup(path, r, path(e.item)), e).Ignore?
    ensures r <= FoldStep(path, endRV, mid, e)
  {
    hide EffectOn, Find;
    if e.ItemEvent? {
      var p := path(e.item);
      var i, j := Find(path, r, p), Find(path, mid, p);
      if i >= 0 {
        assert mid[i] == r[i];
        LookupAt(path, mid, i);
      } else {
        assert forall k :: 0 <= k < |r| ==> path(mid[k]) == path(r[k]) != p;
      }
    }
  }

  /** While refolding, the finished list stays in place as a prefix. */
  lemma {:induction false} RefoldKeepsPrefix(path: PathFunction, endRV: string, list: seq<Item>,
        events: seq<WatchEvent>, again: seq<WatchEvent>, n: nat)
    requires Unique(path, list) && n <= |again|
    requires AllInOrder(path, endRV, events) && SuffixesOf(path, endRV, again, events)
    ensures var r := Fold(path, endRV, list, events);
            Unique(path, r) && r <= Fold(path, endRV, r, again[..n])
  {
    var r := Fold(path, endRV, list, events);
    FoldLookup(path, endRV, list, events, "");
    if n > 0 {
      RefoldKeepsPrefix(path, endRV, list, events, again, n - 1);
      assert again[..n][..n - 1] == again[..n - 1];
      FoldLookup(path, endRV, r, again[..n - 1], "");
      if again[n - 1].ItemEvent? { EntryIsStale(path, endRV, list, events, again, n - 1); }
      PrefixStep(path, endRV, r, Fold(path, endRV, r, again[..n - 1]), again[n - 1]);
    }
  }

  lemma EntryIsStale(path: PathFunction, endRV: string, list: seq<Item>, events: seq<WatchEvent>,
        again: seq<WatchEvent>, n: nat)
    requires Unique(path, list) && n < |again| && again[n].ItemEvent?
    requires AllInOrder(path, endRV, events) && SuffixesOf(path, endRV, again, events)
    ensures var entry := Lookup(path, Fold(path, endRV, list, events), path(again[n].item));
            entry.Some? ==> EffectOn(endRV, entry, again[n]).Ignore?
  {
    var e := again[n];
    var p := path(e.item);
    var entry := Lookup(path, Fold(path, endRV, list, events), p);
    FoldLookup(path, endRV, list, events, p);
    if entry.Some? && Concerns(path, endRV, p, e) && Effective(e) {
      var own := PathEvents(path, endRV, p, events);
      assert InOrder(endRV, own);
      assert e in PathEvents(path, endRV, p, again) by { OccursInPathEvents(path, endRV, p, again, n); }
      var k :| IsSuffix(PathEvents(path, endRV, p, again), own, k);
      assert e in own;
      var i :| 0 <= i < |own| && own[i] == e;
      ReplayedAreStale(endRV, Lookup(path, list, p), own, i);
    }
  }

  lemma SameEntriesSameLength(path: PathFunction, r: seq<Item>, r': seq<Item>)
    requires Unique(path, r') && r <= r'
    requires forall p :: Lookup(path, r', p) == Lookup(path, r, p)
    ensures r == r'
  {
    if |r'| > |r| {
      LookupAt(path, r', |r|);
      LookupMissing(path, r, path(r'[|r|]));
    }
  }

  /** Refolding suffixes of in-order streams onto the finished result leaves it unchanged, item
      for item and in the same order. */
  lemma RefoldIdempotent(path: PathFunction, endRV: string, list: seq<Item>, events: seq<WatchEvent>,
        again: seq<WatchEvent>)
    requires Unique(path, list)
    requires AllInOrder(path, endRV, events) && SuffixesOf(path, endRV, again, events)
    ensures var r := Fold(path, endRV, list, events); Fold(path, endRV, r, again) == r
  {
    var r := Fold(path, endRV, list, events);
    RefoldKeepsPrefix(path, endRV, list, events, again, |again|);
    assert again[..|again|] == again;
    FoldLookup(path, endRV, r, again, "");
    forall p ensures Lookup(path, Fold(path, endRV, r, again), p) == Lookup(path, r, p) {
      RefoldSameEntries(path, endRV, list, events, again, p);
    }
    SameEntriesSameLength(path, r, Fold(path, endRV, r, again));
  }
}
