/** The part of a pass that the snapshot handler (backup_handler.go) and the restore handler
    (restore_handler.go) have in common: queueing a new resource, keeping its deadline up to date
    and deleting it once the deadline has passed. */
module Lifecycle {
  import opened Text
  import opened Records

  /** The fields a pass reads and writes: the deadline and time to live as the user asked for them
      (`spec...`) and as they are in force. */
  datatype Life = Life(phase: Phase, reason: string, creation: Time, specUntil: Time, specTtl: int, until: Time,
    ttl: int)

  datatype Progress = Running | Ended | Gone

  /** Where a pass is: the resource as it stands, what has been written so far, and whether the
      pass has returned or deleted the resource. */
  datatype Pass = Pass(life: Life, writes: seq<Life>, progress: Progress)

  const PAST: string := "AvailableUntil is set as past."

  predicate Finished(l: Life) { l.phase.Completed? || l.phase.Failed? }

  function PersistLife(l: Life): Life {
    l.(creation := Truncate(l.creation), specUntil := Truncate(l.specUntil), until := Truncate(l.until))
  }

  function Start(l: Life): Pass { Pass(l, [], Running) }

  function Write(p: Pass, l: Life): Pass {
    p.(life := PersistLife(l), writes := p.writes + [PersistLife(l)])
  }

  function Initialize(p: Pass, now: Time, defaultTtl: int): Pass {
    var l := p.life;
    if !p.progress.Running? || !l.phase.New? then p
    else if IsZero(l.specUntil) then
      Write(p, l.(specTtl := if l.specTtl == 0 then defaultTtl else l.specTtl, phase := InQueue, reason := ""))
    else if l.specUntil < now then
      Write(p, l.(phase := Failed, reason := PAST)).(progress := Ended)
    else Write(p, l.(phase := InQueue, reason := ""))
  }

  /** A failed resource without a deadline gets one. */
  function SetDeadline(p: Pass): Pass {
    var l := p.life;
    if !p.progress.Running? || !l.phase.Failed? || !IsZero(l.until) then p
    else if !IsZero(l.specUntil) then Write(p, l.(until := l.specUntil, ttl := l.specUntil - l.creation))
    else Write(p, l.(until := l.creation + l.specTtl, ttl := l.specTtl))
  }

  /** The user has edited the deadline. */
  function FollowSpec(p: Pass): Pass {
    var l := p.life;
    if p.progress.Running? && Finished(l) && !IsZero(l.specUntil) && l.specUntil != l.until
      then Write(p, l.(until := l.specUntil))
    else p
  }

  function Expire(p: Pass, now: Time, refusal: Option<string>): Pass {
    var l := p.life;
    if p.progress.Running? && !IsZero(l.until) && l.until < now then
      match refusal
      case None => p.(progress := Gone)
      case Some(message) => Write(p, l.(phase := Failed, reason := message)).(progress := Ended)
    else p
  }

  /** The end of every pass; `refusal` is the error of the delete request, if it is refused. */
  function Close(p: Pass, now: Time, defaultTtl: int, refusal: Option<string>): Pass {
    Expire(FollowSpec(SetDeadline(Initialize(p, now, defaultTtl))), now, refusal)
  }

  lemma StoppedPass(p: Pass, now: Time, defaultTtl: int, refusal: Option<string>)
    requires !p.progress.Running?
    ensures Initialize(p, now, defaultTtl) == SetDeadline(p) == FollowSpec(p) == Expire(p, now, refusal) == p
  {}

  predicate PersistedLife(l: Life) { PersistLife(l) == l }

  lemma PersistLifeOnce(l: Life)
    ensures PersistedLife(PersistLife(l))
  {
    TruncateOnce(l.creation);
    TruncateOnce(l.specUntil);
    TruncateOnce(l.until);
  }

  /* ---- allowed phase changes ---- */

  /** The edges of the phase diagram; Completed and Failed are only rewritten as themselves. */
  predicate Edge(a: Phase, b: Phase) {
    match a
    case New => b.InQueue? || b.Failed?
    case InQueue => b.InProgress?
    case InProgress => b.Completed? || b.Failed?
    case Completed => b.Completed?
    case Failed => b.Failed?
  }

  /** The phase after some writes. */
  function Reached(from: Phase, writes: seq<Life>): Phase {
    if writes == [] then from else writes[|writes| - 1].phase
  }

  /** Each write follows an edge from the one before it. */
  predicate FollowsEdges(from: Phase, writes: seq<Life>) {
    writes == [] ||
    (var n := |writes| - 1;
     FollowsEdges(from, writes[..n]) && Edge(Reached(from, writes[..n]), writes[n].phase))
  }

  /** A pass that began in phase `from` has only followed edges so far. */
  predicate Legal(from: Phase, p: Pass) {
    FollowsEdges(from, p.writes) && p.life.phase == Reached(from, p.writes)
  }

  lemma WriteIsLegal(from: Phase, p: Pass, q: Pass)
    requires Legal(from, p) && q.writes == p.writes + [q.life] && Edge(p.life.phase, q.life.phase)
    ensures Legal(from, q)
  {
    assert q.writes[..|p.writes|] == p.writes;
  }

  lemma InitializeIsLegal(from: Phase, p: Pass, now: Time, defaultTtl: int)
    requires Legal(from, p)
    ensures Legal(from, Initialize(p, now, defaultTtl))
  {
    hide Truncate, Legal;
    var q := Initialize(p, now, defaultTtl);
    if q != p { WriteIsLegal(from, p, q); }
  }

  lemma DeadlinesAreLegal(from: Phase, p: Pass)
    requires Legal(from, p)
    ensures Legal(from, SetDeadline(p)) && Legal(from, FollowSpec(p))
  {
    hide Truncate, Legal;
    var q, q' := SetDeadline(p), FollowSpec(p);
    if q != p { WriteIsLegal(from, p, q); }
    if q' != p { WriteIsLegal(from, p, q'); }
  }

  /** The closing part follows the edges, except that a refused delete fails the resource from
      whatever phase it is in. */
  lemma CloseFollowsEdges(from: Phase, p: Pass, now: Time, defaultTtl: int, refusal: Option<string>)
    requires Legal(from, p)
    ensures var q := Close(p, now, defaultTtl, refusal);
            && (refusal.None? ==> Legal(from, q))
            && (!Legal(from, q) ==>
                  refusal.Some? && q.writes != [] && FollowsEdges(from, q.writes[..|q.writes| - 1])
                  && q.life.phase.Failed? && q.life.reason == refusal.value)
  {
    hide Truncate, Legal, FollowsEdges, Initialize, SetDeadline, FollowSpec;
    InitializeIsLegal(from, p, now, defaultTtl);
    DeadlinesAreLegal(from, Initialize(p, now, defaultTtl));
    DeadlinesAreLegal(from, SetDeadline(Initialize(p, now, defaultTtl)));
    var p3 := FollowSpec(SetDeadline(Initialize(p, now, defaultTtl)));
    var p4 := Expire(p3, now, refusal);
    if p4.writes != p3.writes {
      assert p4.writes[..|p4.writes| - 1] == p3.writes;
      LegalFollows(from, p3);
    } else {
      SameLegal(from, p3, p4);
    }
  }

  lemma LegalFollows(from: Phase, p: Pass)
    requires Legal(from, p)
    ensures FollowsEdges(from, p.writes)
  {}

  lemma SameLegal(from: Phase, p: Pass, q: Pass)
    requires Legal(from, p) && q.writes == p.writes && q.life == p.life
    ensures Legal(from, q)
  {}

  /* ---- finished resources ---- */

  /** The deadline that a pass leaves in force. */
  function Deadline(l: Life): Time {
    if !IsZero(l.specUntil) then l.specUntil
    else if l.phase.Failed? && IsZero(l.until) then Truncate(l.creation + l.specTtl)
    else l.until
  }

  /** The one case that a pass does not settle: the deadline computed for a failed resource is
      itself the zero time, so the next pass computes and writes it again. */
  predicate Degenerate(l: Life) {
    l.phase.Failed? && IsZero(l.specUntil) && IsZero(l.until) && IsZero(Truncate(l.creation + l.specTtl))
  }

  /** A pass over a finished resource deletes it exactly when its deadline has passed; otherwise
      it keeps phase and reason, and the deadline in force is the one the user asked for, if any. */
  lemma FinishedPass(l: Life, now: Time, defaultTtl: int)
    requires PersistedLife(l) && Finished(l)
    ensures var p := Close(Start(l), now, defaultTtl, None);
            && (p.progress.Gone? <==> !IsZero(Deadline(l)) && Deadline(l) < now)
            && p.life.until == Deadline(l) == Deadline(p.life)
            && p.life.(until := l.until, ttl := l.ttl) == l
            && PersistedLife(p.life)
            && (!IsZero(l.specUntil) ==> p.life.until == l.specUntil)
            && (!IsZero(l.specUntil) && l.specUntil >= now ==> !p.progress.Gone?)
            && p.life.ttl ==
               if !l.phase.Failed? || !IsZero(l.until) then l.ttl
               else if IsZero(l.specUntil) then l.specTtl else l.specUntil - l.creation
  {
    TruncateOnce(l.creation + l.specTtl);
  }

  /** And the next pass at the same time writes nothing, exactly outside the degenerate case. */
  lemma FinishedFixpoint(l: Life, now: Time, defaultTtl: int)
    requires PersistedLife(l) && Finished(l)
    ensures var p := Close(Start(l), now, defaultTtl, None);
            !p.progress.Gone? ==> (Close(Start(p.life), now, defaultTtl, None) == Start(p.life) <==> !Degenerate(l))
  {
    var p := Close(Start(l), now, defaultTtl, None);
    FinishedPass(l, now, defaultTtl);
    hide Truncate;
    if !p.progress.Gone? && Degenerate(l) {
      assert SetDeadline(Start(p.life)).writes != [];
      assert |FollowSpec(SetDeadline(Start(p.life))).writes| >= 1;
    }
  }

  /** The start of 1970, counted like every time here from the start of year 1. */
  const UNIX_EPOCH: Time := 719_162 * DAY

  /** With a time to live that an int64 duration can hold it cannot arise for a resource that was
      created in 1970 or later, as every server does. */
  lemma DegenerateNeedsOldResource(l: Life)
    requires l.creation >= UNIX_EPOCH && -TWO_TO_63 <= l.specTtl < TWO_TO_63
    ensures !Degenerate(l)
  {
    assert UNIX_EPOCH > TWO_TO_63 + SECOND;
    assert l.creation + l.specTtl > SECOND;
  }

  /** Without those bounds it does. */
  lemma DegenerateExists()
    ensures exists l :: PersistedLife(l) && Finished(l) && Degenerate(l)
  {
    var l := Life(Failed, "", DAY, 0, 0 - DAY, 0, 0);
    assert PersistedLife(l) by { TruncateOnce(DAY); TruncateOnce(0); }
    assert Degenerate(l);
  }

  /** A new resource without a requested deadline is queued, with the default time to live if it
      asks for none; so is one whose deadline is ahead; any other fails at once. */
  lemma NewPass(l: Life, now: Time, defaultTtl: int)
    requires PersistedLife(l) && l.phase.New? && IsZero(l.until)
    ensures var p := Close(Start(l), now, defaultTtl, None);
            var late := l.specUntil != 0 && l.specUntil < now;
            && p.writes == [p.life] && p.progress == (if late then Ended else Running)
            && p.life ==
               if late then l.(phase := Failed, reason := "AvailableUntil is set as past.")
               else l.(phase := InQueue, reason := "",
                       specTtl := if l.specUntil == 0 && l.specTtl == 0 then defaultTtl else l.specTtl)
  {}

  /** A resource that waits, or is being worked on elsewhere, is not written; only its deadline can
      end it. */
  lemma WaitingPass(l: Life, now: Time, defaultTtl: int)
    requires l.phase.InQueue? || l.phase.InProgress?
    ensures var p := Close(Start(l), now, defaultTtl, None);
            p.life == l && p.writes == [] && (p.progress.Gone? <==> l.until != 0 && l.until < now)
  {}

  /** If the delete of a finished resource past its deadline is refused, the resource fails with that
      error and keeps its deadline. */
  lemma RefusedDelete(l: Life, now: Time, defaultTtl: int, message: string)
    requires PersistedLife(l) && Finished(l) && !IsZero(Deadline(l)) && Deadline(l) < now
    ensures var p := Close(Start(l), now, defaultTtl, Some(message));
            p.progress.Ended? && p.life.phase.Failed? && p.life.reason == message && p.life.until == Deadline(l)
  {
    TruncateOnce(l.creation + l.specTtl);
  }

  /** A new resource whose deadline is already past fails, and the next pass deletes it. */
  lemma PastDeadlineIsRemoved(l: Life, now: Time, defaultTtl: int)
    requires PersistedLife(l) && l.phase.New? && IsZero(l.until) && !IsZero(l.specUntil) && l.specUntil < now
    ensures var p := Close(Start(l), now, defaultTtl, None);
            && p.progress.Ended? && p.life == l.(phase := Failed, reason := PAST)
            && Close(Start(p.life), now, defaultTtl, None).progress.Gone?
  {
    FinishedPass(l.(phase := Failed, reason := PAST), now, defaultTtl);
  }
}
