/**
 What each call answers and what it changes, told from the line and the lease as they were before
 it.  Expiry comes first in every call, so what an alarm leaves behind is told first.
 */
module LeaseMeaning {
  import opened Wrappers
  import opened LeaseQueue

  // ----- the lease and the places in the line at some time -----

  /** The named lease is the held one and has not run out. */
  predicate Live(q: Fifo, id: Ident, now: int) {
    q.held.Some? && q.held.value.expiresAt > now
    && q.held.value.job.segment == id.segment && q.held.value.grant == id.grant
  }

  predicate RunOut(q: Fifo, now: int) {
    q.held.Some? && q.held.value.expiresAt <= now
  }

  /** The named lease was given up, or has just run out, and its segment has its place back. */
  predicate HasPlaceBack(q: Fifo, id: Ident, now: int) {
    || (exists j :: j in q.line && j.deadline > now && j.segment == id.segment && j.restoredFrom == Some(id.grant))
    || (RunOut(q, now) && q.held.value.job.segment == id.segment && q.held.value.grant == id.grant)
  }

  predicate HasPlace(q: Fifo, s: Id, now: int) {
    || (exists j :: j in q.line && j.deadline > now && j.segment == s)
    || (RunOut(q, now) && q.held.value.job.segment == s)
  }

  /** The segment is marked for good, or its deadline passed while it waited. */
  predicate Over(q: Fifo, s: Id, now: int) {
    s in q.terminal || exists j :: j in q.line && j.segment == s && j.deadline <= now
  }

  /** The job that waits behind nobody: the first one of the line that is not overdue. */
  predicate FirstDue(line: seq<Job>, now: int, j: Job) {
    exists i :: 0 <= i < |line| && line[i] == j && j.deadline > now && forall k :: 0 <= k < i ==> line[k].deadline <= now
  }

  predicate NobodyDue(line: seq<Job>, now: int) {
    forall i :: 0 <= i < |line| ==> line[i].deadline <= now
  }

  // ----- an alarm -----

  /** Overdue waiters go, with their mark, and a lease that ran out is first in the line again. */
  lemma AlarmMeans(q: Fifo, now: int)
    ensures var (e, answer) := Step(q, Alarm(now));
            && answer == Ok && e.fence == q.fence && e.receipts == q.receipts
            && e.held == (if RunOut(q, now) then None else q.held)
            && (forall j :: j in e.line <==>
                 (j in q.line && j.deadline > now)
                 || (RunOut(q, now) && j == q.held.value.job.(restoredFrom := Some(q.held.value.grant))))
            && (RunOut(q, now) ==> e.line != [] && e.line[0].segment == q.held.value.job.segment)
            && (forall s :: s in e.terminal <==> Over(q, s, now))
            && (forall s :: s in e.terminal ==>
                 e.terminal[s] == if s in q.terminal then q.terminal[s] else DeadlineExpired)
            && (forall s :: Waiting(e, s) <==> HasPlace(q, s, now))
            && (forall id :: Current(e, id) <==> Live(q, id, now))
            && (forall id: Ident :: RestoredFrom(e, id.segment, id.grant) <==> HasPlaceBack(q, id, now))
  {
    KeptMembers(q.line, DueAfter(now));
    hide Kept;
    var e := Step(q, Alarm(now)).0;
    var back := if q.held.Some? then [Requeued(q.held.value)] else [];
    if RunOut(q, now) {
      assert e.line[0] == Requeued(q.held.value);
    }
    assert forall j :: j in e.line <==>
        (j in q.line && j.deadline > now) || (RunOut(q, now) && j == Requeued(q.held.value));
  }

  /** The same, for one segment and lease. */
  lemma AlarmFor(q: Fifo, id: Ident, now: int)
    ensures var e := Expire(q, now);
            && e.held == (if RunOut(q, now) then None else q.held)
            && (Current(e, id) <==> Live(q, id, now))
            && (RestoredFrom(e, id.segment, id.grant) <==> HasPlaceBack(q, id, now))
            && (Waiting(e, id.segment) <==> HasPlace(q, id.segment, now))
            && (id.segment in e.terminal <==> Over(q, id.segment, now))
            && (Holds(e, id.segment) <==>
                 q.held.Some? && q.held.value.expiresAt > now && q.held.value.job.segment == id.segment)
  {
    AlarmMeans(q, now);
    hide Over, HasPlace, HasPlaceBack, Live, RestoredFrom, Waiting;
  }

  // ----- being served -----

  lemma {:induction false} KeptFirst(line: seq<Job>, now: int)
    ensures Kept(line, DueAfter(now)) == [] <==> NobodyDue(line, now)
    ensures Kept(line, DueAfter(now)) != [] ==> FirstDue(line, now, Kept(line, DueAfter(now))[0])
  {
    if line != [] {
      var front := line[..|line| - 1];
      KeptFirst(front, now);
      assert line == front + [line[|line| - 1]];
      if Kept(front, DueAfter(now)) != [] {
        var j := Kept(front, DueAfter(now))[0];
        var i :| 0 <= i < |front| && front[i] == j && forall k :: 0 <= k < i ==> front[k].deadline <= now;
        assert line[i] == j;
      } else if line[|line| - 1].deadline > now {
        assert Kept(line, DueAfter(now)) == [line[|line| - 1]];
      }
    }
  }

  lemma FirstDueIsOne(line: seq<Job>, now: int, j: Job, other: Job)
    requires FirstDue(line, now, j) && FirstDue(line, now, other)
    ensures j == other
  {
    var i :| 0 <= i < |line| && line[i] == j && j.deadline > now && forall k :: 0 <= k < i ==> line[k].deadline <= now;
    var m :| 0 <= m < |line| && line[m] == other && other.deadline > now && forall k :: 0 <= k < m ==> line[k].deadline <= now;
    assert i == m;
  }

  /** The job the GPU goes to next: one whose lease ran out within its deadline, else the first that is due. */
  predicate NextJob(q: Fifo, now: int, j: Job) {
    if RunOut(q, now) && q.held.value.job.deadline > now
    then j == q.held.value.job.(restoredFrom := Some(q.held.value.grant))
    else FirstDue(q.line, now, j)
  }

  predicate NobodyNext(q: Fifo, now: int) {
    NobodyDue(q.line, now) && !(RunOut(q, now) && q.held.value.job.deadline > now)
  }

  /** What is left of the line for serving, with the next job in front. */
  lemma ServableLine(q: Fifo, now: int)
    requires q.held.None? || RunOut(q, now)
    ensures var d := DropOverdueHead(Expire(q, now), now);
            && d.held.None? && d.fence == q.fence
            && (d.line == [] <==> NobodyNext(q, now))
            && (d.line != [] ==> NextJob(q, now, d.line[0]))
  {
    KeptFirst(q.line, now);
    var kept := Kept(q.line, DueAfter(now));
    if RunOut(q, now) {
      assert ([Requeued(q.held.value)] + kept)[1..] == kept;
    }
    if kept != [] {
      KeptMembers(q.line, DueAfter(now));
      assert kept[0].deadline > now;
    }
    hide Kept, NobodyDue, FirstDue;
  }

  lemma NextJobIsOne(q: Fifo, now: int, j: Job)
    requires NextJob(q, now, j)
    ensures !NobodyNext(q, now) && forall other :: NextJob(q, now, other) ==> other == j
  {
    if FirstDue(q.line, now, j) {
      var i :| 0 <= i < |q.line| && q.line[i] == j && j.deadline > now && forall k :: 0 <= k < i ==> q.line[k].deadline <= now;
      assert !NobodyDue(q.line, now);
      forall other | FirstDue(q.line, now, other) ensures other == j {
        FirstDueIsOne(q.line, now, j, other);
      }
    }
  }

  /**
   A live lease makes every other call busy.  Otherwise the next job is granted to a call that names
   it or nobody, under the next fence and up to 90 seconds or its deadline; a call that names another
   segment is busy and the job stays first; and when no job is next there is nothing to grant.
   */
  lemma AcquireServesTheNextJob(q: Fifo, want: Option<Id>, now: int, leaseId: Id, j: Job)
    ensures var (t, answer) := Step(q, Acquire(want, now, leaseId));
            if q.held.Some? && q.held.value.expiresAt > now then answer == Busy && t.held == q.held && t.fence == q.fence
            else
              && (NobodyNext(q, now) <==> answer == Empty)
              && (answer == Empty ==> t.line == [])
              && (!answer.Acquired? ==> t.held.None? && t.fence == q.fence)
              && (NextJob(q, now, j) ==>
                   if want == None || want == Some(j.segment) then
                     var expiresAt := if now + 90_000 <= j.deadline then now + 90_000 else j.deadline;
                     var grant := Grant(leaseId, q.fence + 1);
                     && answer == Acquired(Ident(j.segment, grant), expiresAt)
                     && t.held == Some(Held(j, grant, expiresAt, None)) && t.fence == q.fence + 1
                   else answer == Busy && t.line != [] && t.line[0] == j)
  {
    hide Kept, NobodyDue, FirstDue;
    if q.held.None? || RunOut(q, now) {
      ServableLine(q, now);
      var d := DropOverdueHead(Expire(q, now), now);
      hide Expire, DropOverdueHead, NobodyNext, NextJob;
      if NextJob(q, now, j) {
        NextJobIsOne(q, now, j);
      }
    }
  }

  /** Nobody but the served segment and the overdue loses its place when the GPU is asked for. */
  lemma AcquireKeepsTheOthers(q: Fifo, want: Option<Id>, now: int, leaseId: Id, j: Job)
    requires j in q.line && j.deadline > now
    ensures var (t, answer) := Step(q, Acquire(want, now, leaseId));
            j in t.line || (answer.Acquired? && answer.id.segment == j.segment)
  {
    KeptMembers(q.line, DueAfter(now));
    hide Kept, Overdue, Mark;
    var e := Expire(q, now);
    assert j in e.line;
    assert e.line == [e.line[0]] + e.line[1..];
    var d := DropOverdueHead(e, now);
    assert j in d.line && d.line == [d.line[0]] + d.line[1..];
  }

  /**
   Acquiring marks what is overdue as expired, and nothing else: the waiters whose deadline passed and
   the job of a lease that ran out at its deadline.  Marks that were there keep their reason.
   */
  lemma AcquireMarksTheOverdue(q: Fifo, want: Option<Id>, now: int, leaseId: Id, s: Id)
    ensures var t := Step(q, Acquire(want, now, leaseId)).0;
            var heldOverdue := RunOut(q, now) && q.held.value.job.segment == s && q.held.value.job.deadline <= now;
            && (s in t.terminal <==> Over(q, s, now) || heldOverdue)
            && (s in t.terminal ==> t.terminal[s] == if s in q.terminal then q.terminal[s] else DeadlineExpired)
            && t.receipts == q.receipts
  {
    AlarmMeans(q, now);
    KeptMembers(q.line, DueAfter(now));
    hide Kept, Overdue, Over, HasPlace, HasPlaceBack, RestoredFrom, Waiting, NobodyDue, FirstDue;
  }

  // ----- using the lease -----

  /** Renewing extends exactly the live lease that has no hold, to 90 seconds from now or its deadline. */
  lemma RenewMeans(q: Fifo, id: Ident, now: int)
    requires Inv(q)
    ensures var (t, answer) := Step(q, Renew(id, now));
            var e := Step(q, Alarm(now)).0;
            if Live(q, id, now) && q.held.value.hold.None? then
              var until := if now + 90_000 <= q.held.value.job.deadline then now + 90_000 else q.held.value.job.deadline;
              answer == OkUntil(until) && t == e.(held := Some(q.held.value.(expiresAt := until)))
            else answer == Stale && t == e
  {
    hide Kept, Overdue, Mark;
  }

  lemma WitnessMeans(q: Fifo, id: Ident, now: int)
    ensures var (t, answer) := Step(q, Witness(id, now));
            t == Step(q, Alarm(now)).0 && answer == if Live(q, id, now) then OkUntil(q.held.value.expiresAt) else Stale
  {
    hide Kept, Overdue, Mark;
  }

  /** A hold is begun on exactly the live lease that has none, for 30 seconds or until its deadline. */
  lemma BeginCommitHoldMeans(q: Fifo, id: Ident, now: int, holdId: Id)
    requires Inv(q)
    ensures var (t, answer) := Step(q, BeginCommitHold(id, now, holdId));
            var e := Step(q, Alarm(now)).0;
            if Live(q, id, now) && q.held.value.hold.None? then
              var until := if now + 30_000 <= q.held.value.job.deadline then now + 30_000 else q.held.value.job.deadline;
              answer == OkHold(until, holdId)
              && t == e.(held := Some(q.held.value.(expiresAt := until, hold := Some(holdId))))
            else answer == Stale && t == e
  {
    hide Kept, Overdue, Mark;
  }

  /** A hold is ended by its own identifier, and the lease keeps the time it has. */
  lemma ReleaseCommitHoldMeans(q: Fifo, id: Ident, holdId: Id, now: int)
    ensures var (t, answer) := Step(q, ReleaseCommitHold(id, holdId, now));
            var e := Step(q, Alarm(now)).0;
            if Live(q, id, now) && q.held.value.hold == Some(holdId)
            then answer == Ok && t == e.(held := Some(q.held.value.(hold := None)))
            else answer == Stale && t == e
  {
    hide Kept, Overdue, Mark;
  }

  // ----- leaving -----

  /** Jobs, marks and receipts of other segments are as an alarm leaves them. */
  ghost predicate OthersStay(e: Fifo, t: Fifo, s: Id) {
    && t.fence == e.fence
    && (forall j: Job :: j.segment != s ==> (j in t.line <==> j in e.line))
    && (forall x :: x != s ==> (x in t.terminal <==> x in e.terminal) && (x in e.terminal ==> t.terminal[x] == e.terminal[x]))
    && (forall x :: x != s ==> (x in t.receipts <==> x in e.receipts) && (x in e.receipts ==> t.receipts[x] == e.receipts[x]))
  }

  /** The segment has left without a mark: neither held nor waiting. */
  predicate Gone(t: Fifo, s: Id) {
    !Waiting(t, s) && !Holds(t, s)
  }

  /**
   An unfinished release takes effect exactly when the named lease is live or its segment has its
   place back; then the segment is gone without a mark and may be queued again.  Otherwise it is stale.
   */
  lemma UnfinishedReleaseMeans(q: Fifo, id: Ident, now: int)
    requires Inv(q)
    ensures var (t, answer) := Step(q, Release(id, false, now));
            var e := Step(q, Alarm(now)).0;
            if Live(q, id, now) || HasPlaceBack(q, id, now) then
              && answer == Ok && Gone(t, id.segment) && OthersStay(e, t, id.segment)
              && t.terminal == e.terminal && t.receipts == e.receipts
              && t.held == (if Live(q, id, now) then None else e.held)
            else answer == Stale && t == e
  {
    hide Step, Expire, Inv, HasPlaceBack, RestoredFrom, Over, HasPlace, Waiting, Holds, Live, Current, Gone, OthersStay, ReleaseStep;
    AlarmFor(q, id, now);
    ExpireInv(q, now);
    ReleaseAfterExpiry(q, id, now);
    ReleaseIs(q, id, now);
  }

  lemma ReleaseIs(q: Fifo, id: Ident, now: int)
    ensures Step(q, Release(id, false, now)) == ReleaseStep(q, id, false, now) && Step(q, Alarm(now)).0 == Expire(q, now)
  {
  }

  lemma ReleaseAfterExpiry(q: Fifo, id: Ident, now: int)
    requires Inv(Expire(q, now))
    ensures var (t, answer) := ReleaseStep(q, id, false, now);
            var e := Expire(q, now);
            if Current(e, id) || RestoredFrom(e, id.segment, id.grant) then
              && answer == Ok && Gone(t, id.segment) && OthersStay(e, t, id.segment)
              && t.terminal == e.terminal && t.receipts == e.receipts
              && t.held == (if Current(e, id) then None else e.held)
            else answer == Stale && t == e
  {
    hide Expire, Kept, ReceiptsOk, LineOk;
    var e := Expire(q, now);
    WithoutIsGone(e, id.segment);
    HeldIsNotWaiting(e);
    RestoredWaits(e, id.segment, Some(id.grant));
    hide RestoredFrom, Waiting, Inv;
  }

  lemma HeldIsNotWaiting(q: Fifo)
    requires Inv(q)
    ensures q.held.Some? ==> !Waiting(q, q.held.value.job.segment)
  {
  }

  lemma WithoutIsGone(q: Fifo, s: Id)
    ensures forall j :: j in Kept(q.line, Except(s)) <==> j in q.line && j.segment != s
    ensures !Waiting(q.(line := Kept(q.line, Except(s))), s)
  {
    KeptMembers(q.line, Except(s));
  }

  /** A completed release ends the live lease for good and leaves its receipt; a repeat of it is told ok, and any other is stale. */
  lemma CompletedReleaseMeans(q: Fifo, id: Ident, now: int)
    requires Inv(q)
    ensures var (t, answer) := Step(q, Release(id, true, now));
            var e := Step(q, Alarm(now)).0;
            if id.segment in q.receipts && q.receipts[id.segment] == id.grant then answer == Ok && t == q
            else if Live(q, id, now) then
              && answer == Ok && t.held.None? && t.line == e.line && OthersStay(e, t, id.segment)
              && id.segment in t.terminal && t.terminal[id.segment] == Completed
              && id.segment in t.receipts && t.receipts[id.segment] == id.grant
            else answer == Stale && t == e
  {
    ExpireInv(q, now);
    hide Kept, Overdue, LineOk, Waiting;
    var e := Expire(q, now);
    assert Current(e, id) ==> id.segment !in e.terminal && id.segment !in e.receipts;
  }

  /**
   A cancellation takes effect exactly on a segment that is not over: on a live one whose lease it
   names, and on a waiting one if it names no lease or the one that was given up.
   */
  lemma CancelMeans(q: Fifo, s: Id, grant: Option<Grant>, now: int)
    requires Inv(q)
    ensures var (t, answer) := Step(q, Cancel(s, grant, now));
            var e := Step(q, Alarm(now)).0;
            var held := q.held.Some? && q.held.value.expiresAt > now && q.held.value.job.segment == s;
            var effect :=
              && !Over(q, s, now)
              && if held then grant.Some? && Live(q, Ident(s, grant.value), now)
                 else HasPlace(q, s, now) && (grant.Some? ==> HasPlaceBack(q, Ident(s, grant.value), now));
            if effect then
              && answer == NowCancelled && Gone(t, s) && OthersStay(e, t, s)
              && t.receipts == e.receipts && t.held == (if held then None else e.held)
              && s in t.terminal && t.terminal[s] == Cancelled
            else
              && t == e
              && answer == if Over(q, s, now) then AlreadyCancelled
                           else if held || grant.Some? then Stale
                           else NotFound
  {
    hide Step, Expire, Inv, HasPlaceBack, RestoredFrom, Over, HasPlace, Waiting, Holds, Live, Current, Gone, OthersStay, CancelStep;
    AlarmFor(q, Ident(s, if grant.Some? then grant.value else Grant(s, 0)), now);
    ExpireInv(q, now);
    CancelAfterExpiry(q, s, grant, now);
    CancelIs(q, s, grant, now);
  }

  lemma CancelIs(q: Fifo, s: Id, grant: Option<Grant>, now: int)
    ensures Step(q, Cancel(s, grant, now)) == CancelStep(q, s, grant, now) && Step(q, Alarm(now)).0 == Expire(q, now)
  {
  }

  lemma CancelAfterExpiry(q: Fifo, s: Id, grant: Option<Grant>, now: int)
    requires Inv(Expire(q, now))
    ensures var (t, answer) := CancelStep(q, s, grant, now);
            var e := Expire(q, now);
            var effect :=
              && s !in e.terminal
              && if Holds(e, s) then grant.Some? && Current(e, Ident(s, grant.value))
                 else Waiting(e, s) && (grant.Some? ==> RestoredFrom(e, s, grant.value));
            if effect then
              && answer == NowCancelled && Gone(t, s) && OthersStay(e, t, s)
              && t.receipts == e.receipts && t.held == (if Holds(e, s) then None else e.held)
              && s in t.terminal && t.terminal[s] == Cancelled
            else
              && t == e
              && answer == if s in e.terminal then AlreadyCancelled
                           else if Holds(e, s) || grant.Some? then Stale
                           else NotFound
  {
    hide Expire, Kept, ReceiptsOk, LineOk;
    var e := Expire(q, now);
    WithoutIsGone(e, s);
    HeldIsNotWaiting(e);
    RestoredWaits(e, s, grant);
    hide RestoredFrom, Waiting, Inv;
  }

  lemma RestoredWaits(q: Fifo, s: Id, grant: Option<Grant>)
    ensures grant.Some? && RestoredFrom(q, s, grant.value) ==> Waiting(q, s)
  {
  }

  /** Giving the live lease up puts its job first in the line again, if there is room; a repeat changes nothing. */
  lemma RestoreMeans(q: Fifo, id: Ident, now: int)
    requires Inv(q)
    ensures var (t, answer) := Step(q, RestoreCapacityBusy(id, now));
            var e := Step(q, Alarm(now)).0;
            if Live(q, id, now) then
              if |e.line| >= 10_000 then answer == QueueFull && t == q
              else
                answer == Ok
                && t == e.(held := None, line := [q.held.value.job.(restoredFrom := Some(id.grant))] + e.line)
            else t == e && answer == if HasPlaceBack(q, id, now) then Ok else Stale
  {
    AlarmMeans(q, now);
    hide Kept, HasPlaceBack, Over, HasPlace, RestoredFrom, Waiting, Overdue, Mark;
  }

  // ----- joining -----

  /** A segment is queued last exactly when it is not over, has no place and no lease, and there is room. */
  lemma EnqueueMeans(q: Fifo, s: Id, deadline: int, kind: Kind, now: int)
    ensures var (t, answer) := Step(q, Enqueue(s, deadline, kind, now));
            var e := Step(q, Alarm(now)).0;
            var held := q.held.Some? && q.held.value.expiresAt > now && q.held.value.job.segment == s;
            if Over(q, s, now) then answer == TerminalAlready && t == e
            else if HasPlace(q, s, now) then answer == AlreadyQueued && t == e
            else if held then answer == ActiveAlready && t == e
            else if |e.line| >= 10_000 then answer == QueueFull && t == q
            else answer == Enqueued && t == e.(line := e.line + [Job(s, deadline, kind, None)])
  {
    AlarmMeans(q, now);
    hide Kept, HasPlaceBack, Over, HasPlace, RestoredFrom, Waiting, Overdue, Mark;
  }
}
