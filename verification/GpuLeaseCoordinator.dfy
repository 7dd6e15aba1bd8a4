/**
 The coordinator with its persisted fields: an unsorted waiter array with
 ordinals, a fence counter, a separate hold clock, and re-checks before every
 push.  Each method is proved to be one step of the line of LeaseQueue: the
 same new line, the same marks, the same answer.
 */
module GpuLease {
  import opened Wrappers
  import opened LeaseQueue
  import opened WaiterOrder

  datatype Lease = Lease(
    waiter: Waiter,
    grant: Grant,
    expiresAt: int,
    holdExpiresAt: Option<int>,
    holdId: Option<Id>)

  ghost function HeldOf(lease: Option<Lease>): Option<Held> {
    if lease.None? then None
    else Some(Held(lease.value.waiter.job, lease.value.grant, lease.value.expiresAt, lease.value.holdId))
  }

  /** Ordinals are distinct and at most the counter, and the active one is below every waiter's. */
  ghost predicate OrdinalsOk(next: nat, ws: seq<Waiter>, lease: Option<Lease>) {
    && DistinctOrdinals(ws)
    && (forall w :: w in ws ==> w.ordinal <= next)
    && (lease.Some? ==>
         && lease.value.waiter.ordinal <= next
         && forall w :: w in ws ==> lease.value.waiter.ordinal < w.ordinal)
  }

  /** A hold and its clock come and go together, and the hold clock is the lease clock. */
  ghost predicate HoldOk(lease: Option<Lease>) {
    lease.Some? ==>
      && (lease.value.holdId.Some? <==> lease.value.holdExpiresAt.Some?)
      && (lease.value.holdExpiresAt.Some? ==> lease.value.holdExpiresAt.value == lease.value.expiresAt)
  }

  /** The first waiter of a segment, as `find` reports it. */
  function Find(ws: seq<Waiter>, s: Id): (r: Option<Waiter>)
    ensures r.Some? ==> r.value in ws && r.value.job.segment == s
    ensures r.None? ==> forall w :: w in ws ==> w.job.segment != s
  {
    if ws == [] then None
    else if ws[0].job.segment == s then Some(ws[0])
    else Find(ws[1..], s)
  }

  predicate FoundRestored(ws: seq<Waiter>, s: Id, g: Grant) {
    var w := Find(ws, s);
    w.Some? && w.value.job.restoredFrom == Some(g)
  }

  lemma WaitingLine(ws: seq<Waiter>, q: Fifo, s: Id)
    requires q.line == Line(ws)
    ensures Waiting(q, s) <==> exists w :: w in ws && w.job.segment == s
  {
    LineMembers(ws);
  }

  lemma FoundLine(ws: seq<Waiter>, q: Fifo, s: Id, g: Grant)
    requires q.line == Line(ws) && Inv(q)
    ensures FoundRestored(ws, s, g) <==> RestoredFrom(q, s, g)
  {
    LineMembers(ws);
    if RestoredFrom(q, s, g) {
      var j :| j in q.line && j.segment == s && j.restoredFrom == Some(g);
      var w := Find(ws, s);
      assert w.Some?;
      assert w.value.job in q.line;
      assert w.value.job == j;
    }
  }

  lemma SecondNotOverdue(q: Fifo, now: int)
    ensures |Expire(q, now).line| > 1 ==> Expire(q, now).line[1].deadline > now
  {
    KeptMembers(q.line, DueAfter(now));
    var e := Expire(q, now);
    assert |e.line| > 1 ==> e.line[1] in Kept(q.line, DueAfter(now));
  }

  lemma MarkGrows(t: map<Id, Reason>, a: set<Id>, b: set<Id>, reason: Reason)
    ensures Mark(Mark(t, a, reason), b, reason) == Mark(t, a + b, reason)
  {
  }

  lemma NothingScanned(t: map<Id, Reason>, ws: seq<Waiter>, now: int)
    ensures KeptWaiters(ws[..0], DueAfter(now)) == []
    ensures Mark(t, OverdueWaiters(ws[..0], now), DeadlineExpired) == t
  {
    assert ws[..0] == [];
    assert OverdueWaiters([], now) == {};
  }

  ghost function OverdueWaiters(ws: seq<Waiter>, now: int): set<Id> {
    set w | w in ws && w.job.deadline <= now :: w.job.segment
  }

  lemma OverdueAppend(ws: seq<Waiter>, w: Waiter, now: int)
    ensures OverdueWaiters(ws + [w], now)
         == OverdueWaiters(ws, now) + if w.job.deadline <= now then {w.job.segment} else {}
  {
    forall x | x in ws + [w] ensures x in ws || x == w {
    }
    assert forall x :: x in ws ==> x in ws + [w];
    assert w in ws + [w];
  }

  lemma OverdueLine(ws: seq<Waiter>, now: int)
    ensures Overdue(Line(ws), now) == OverdueWaiters(ws, now)
  {
    LineMembers(ws);
    forall s | s in OverdueWaiters(ws, now) ensures s in Overdue(Line(ws), now) {
      var w :| w in ws && w.job.deadline <= now && w.job.segment == s;
      assert w.job in Line(ws);
    }
  }

  lemma OverdueWaits(q: Fifo, s: Id, now: int)
    ensures s in Overdue(q.line, now) ==> Waiting(q, s)
  {
  }

  // ----- what the ordinals promise after each change of the array -----

  lemma OrdinalsKept(next: nat, ws: seq<Waiter>, lease: Option<Lease>, k: Keep)
    requires OrdinalsOk(next, ws, lease)
    ensures OrdinalsOk(next, KeptWaiters(ws, k), lease)
  {
    KeptWaitersMembers(ws, k);
    KeptWaitersDistinct(ws, k);
  }

  lemma OrdinalsRequeued(next: nat, ws: seq<Waiter>, lease: Lease, job: Job)
    requires OrdinalsOk(next, ws, Some(lease))
    ensures OrdinalsOk(next, ws + [Waiter(job, lease.waiter.ordinal)], None)
    ensures Line(ws + [Waiter(job, lease.waiter.ordinal)]) == [job] + Line(ws)
  {
    PushFront(ws, Waiter(job, lease.waiter.ordinal));
  }

  lemma OrdinalsEnqueued(next: nat, ws: seq<Waiter>, lease: Option<Lease>, job: Job)
    requires OrdinalsOk(next, ws, lease)
    ensures OrdinalsOk(next + 1, ws + [Waiter(job, next + 1)], lease)
    ensures Line(ws + [Waiter(job, next + 1)]) == Line(ws) + [job]
  {
    PushBack(ws, Waiter(job, next + 1));
  }

  lemma {:induction false} InsertDistinct(s: seq<Waiter>, w: Waiter)
    requires DistinctOrdinals(s) && forall x :: x in s ==> x.ordinal != w.ordinal
    ensures DistinctOrdinals(Insert(s, w))
  {
    if s != [] && s[|s| - 1].ordinal > w.ordinal {
      var front, last := s[..|s| - 1], s[|s| - 1];
      InsertDistinct(front, w);
      InsertFacts(front, w);
      forall x | x in Insert(front, w) ensures x.ordinal != last.ordinal {
        assert x in multiset(front) + multiset{w};
      }
    }
  }

  lemma {:induction false} SortedDistinct(ws: seq<Waiter>)
    requires DistinctOrdinals(ws)
    ensures DistinctOrdinals(Sorted(ws))
  {
    if ws != [] {
      var front := ws[..|ws| - 1];
      SortedDistinct(front);
      SortedFacts(front);
      InsertDistinct(Sorted(front), ws[|ws| - 1]);
    }
  }

  lemma LineAscending(s: seq<Waiter>)
    requires Ascending(s)
    ensures Line(s) == Jobs(s)
  {
    SortedFixed(s);
  }

  /** Sorting in place changes neither the ordinals nor the line. */
  lemma OrdinalsSorted(next: nat, ws: seq<Waiter>, lease: Option<Lease>)
    requires OrdinalsOk(next, ws, lease)
    ensures OrdinalsOk(next, Sorted(ws), lease)
    ensures Ascending(Sorted(ws)) && |Sorted(ws)| == |ws|
    ensures Line(Sorted(ws)) == Line(ws) == Jobs(Sorted(ws))
  {
    SortedFacts(ws);
    SortedDistinct(ws);
    LineAscending(Sorted(ws));
  }

  lemma TailAbove(s: seq<Waiter>, w: Waiter)
    requires Ascending(s) && DistinctOrdinals(s) && s != [] && w in s[1..]
    ensures w in s && s[0].ordinal < w.ordinal
  {
    var i :| 0 <= i < |s[1..]| && s[1..][i] == w;
    assert s[i + 1] == w;
  }

  /** Shifting a sorted array takes the front of the line, whose ordinal is below the rest. */
  lemma OrdinalsShifted(next: nat, s: seq<Waiter>)
    requires OrdinalsOk(next, s, None) && Ascending(s) && s != []
    ensures OrdinalsOk(next, s[1..], None)
    ensures s[0].ordinal <= next && forall w :: w in s[1..] ==> s[0].ordinal < w.ordinal
    ensures Line(s) == [s[0].job] + Line(s[1..])
  {
    LineAscending(s);
    LineAscending(s[1..]);
    JobsFirst(s);
    hide Line, Jobs;
    forall w | w in s[1..] ensures w in s && s[0].ordinal < w.ordinal {
      TailAbove(s, w);
    }
  }

  lemma JobsFirst(s: seq<Waiter>)
    requires s != []
    ensures Jobs(s) == [s[0].job] + Jobs(s[1..])
  {
  }

  lemma OrdinalsGranted(next: nat, ws: seq<Waiter>, lease: Lease)
    requires OrdinalsOk(next, ws, None) && lease.waiter.ordinal <= next
    requires forall w :: w in ws ==> lease.waiter.ordinal < w.ordinal
    ensures OrdinalsOk(next, ws, Some(lease))
  {
  }

  lemma OrdinalsFreed(next: nat, ws: seq<Waiter>, lease: Option<Lease>)
    requires OrdinalsOk(next, ws, lease)
    ensures OrdinalsOk(next, ws, None)
  {
  }

  lemma OrdinalsLease(next: nat, ws: seq<Waiter>, lease: Lease, other: Lease)
    requires OrdinalsOk(next, ws, Some(lease)) && other.waiter == lease.waiter
    ensures OrdinalsOk(next, ws, Some(other))
  {
  }

  /** Comparing lengths, as `cancel` does, tells whether the segment was waiting. */
  lemma {:induction false} KeptLength(ws: seq<Waiter>, k: Keep)
    ensures |KeptWaiters(ws, k)| <= |ws|
    ensures |KeptWaiters(ws, k)| == |ws| <==> forall w :: w in ws ==> Keeps(k, w.job)
    ensures |KeptWaiters(ws, k)| == |ws| ==> KeptWaiters(ws, k) == ws
  {
    if ws != [] {
      KeptLength(ws[..|ws| - 1], k);
      assert ws == ws[..|ws| - 1] + [ws[|ws| - 1]];
    }
  }

  lemma KeptShrinks(ws: seq<Waiter>, q: Fifo, s: Id)
    requires q.line == Line(ws)
    ensures |KeptWaiters(ws, Except(s))| == |ws| <==> !Waiting(q, s)
    ensures !Waiting(q, s) ==> KeptWaiters(ws, Except(s)) == ws
  {
    KeptLength(ws, Except(s));
    WaitingLine(ws, q, s);
  }

  /** The re-checks before a lease is pushed back always succeed. */
  lemma NeverWaiting(ws: seq<Waiter>, q: Fifo, s: Id, now: int)
    requires Inv(q) && q.line == Line(ws) && Holds(q, s)
    ensures s !in Mark(q.terminal, Overdue(q.line, now), DeadlineExpired)
    ensures forall w :: w in KeptWaiters(ws, DueAfter(now)) ==> w.job.segment != s
  {
    WaitingLine(ws, q, s);
    OverdueWaits(q, s, now);
    KeptWaitersMembers(ws, DueAfter(now));
  }

  class GpuLeaseCoordinator {
    var nextOrdinal: nat
    var fence: nat
    var waiters: seq<Waiter>
    var activeLease: Option<Lease>
    var terminal: map<Id, Reason>
    var completedReleases: map<Id, Grant>

    ghost function View(): Fifo
      reads this
    {
      Fifo(fence, Line(waiters), HeldOf(activeLease), terminal, completedReleases)
    }

    ghost predicate Valid()
      reads this
    {
      && OrdinalsOk(nextOrdinal, waiters, activeLease)
      && HoldOk(activeLease)
      && Inv(View())
    }

    constructor ()
      ensures Valid() && View() == INITIAL
    {
      nextOrdinal, fence, waiters, activeLease := 0, 0, [], None;
      terminal, completedReleases := map[], map[];
    }

    method MarkTerminal(s: Id, reason: Reason)
      modifies this`terminal
      ensures terminal == Mark(old(terminal), {s}, reason)
    {
      if s !in terminal {
        terminal := terminal[s := reason];
      }
    }

    function CurrentLease(id: Ident): Option<Lease>
      reads this
    {
      if activeLease.Some? && activeLease.value.waiter.job.segment == id.segment
         && activeLease.value.grant == id.grant
      then activeLease else None
    }

    method DropOverdue(now: int)
      requires Valid()
      modifies this`waiters, this`terminal
      ensures waiters == KeptWaiters(old(waiters), DueAfter(now))
      ensures terminal == Mark(old(terminal), Overdue(Line(old(waiters)), now), DeadlineExpired)
    {
      hide OverdueWaiters, KeptWaiters, Mark, Overdue, Line, Inv, OrdinalsOk, HoldOk;
      var before := waiters;
      var kept := [];
      NothingScanned(terminal, before, now);
      for i := 0 to |before|
        invariant waiters == before
        invariant kept == KeptWaiters(before[..i], DueAfter(now))
        invariant terminal == Mark(old(terminal), OverdueWaiters(before[..i], now), DeadlineExpired)
      {
        assert before[..i + 1] == before[..i] + [before[i]];
        KeptAppend(before[..i], before[i], DueAfter(now));
        OverdueAppend(before[..i], before[i], now);
        if before[i].job.deadline > now {
          kept := kept + [before[i]];
          assert OverdueWaiters(before[..i], now) + {} == OverdueWaiters(before[..i], now);
        } else {
          MarkTerminal(before[i].job.segment, DeadlineExpired);
          MarkGrows(old(terminal), OverdueWaiters(before[..i], now), {before[i].job.segment}, DeadlineExpired);
        }
      }
      waiters := kept;
      assert before[..|before|] == before;
      OverdueLine(before, now);
    }

    method Expire(now: int)
      requires Valid()
      modifies this`waiters, this`terminal, this`activeLease
      ensures Valid() && View() == LeaseQueue.Expire(old(View()), now)
      ensures |waiters| <= |old(waiters)| + 1
      ensures old(activeLease).None? ==> |waiters| <= |old(waiters)|
    {
      ghost var q := View();
      ExpireInv(q, now);
      OrdinalsKept(nextOrdinal, waiters, activeLease, DueAfter(now));
      LineKept(waiters, DueAfter(now));
      KeptWaitersMembers(waiters, DueAfter(now));
      DropOverdue(now);
      if activeLease.None? {
        return;
      }
      var lease := activeLease.value;
      if lease.holdExpiresAt.Some? && lease.holdExpiresAt.value <= now {
        lease := lease.(holdExpiresAt := None, holdId := None);
      }
      if lease.expiresAt > now {
        activeLease := Some(lease);
        return;
      }
      activeLease := None;
      var s := lease.waiter.job.segment;
      NeverWaiting(old(waiters), q, s, now);
      if s !in terminal && !(exists w :: w in waiters && w.job.segment == s) {
        var job := lease.waiter.job.(restoredFrom := Some(lease.grant));
        OrdinalsRequeued(nextOrdinal, waiters, lease, job);
        waiters := waiters + [Waiter(job, lease.waiter.ordinal)];
      }
    }

    method Enqueue(s: Id, deadline: int, kind: Kind, now: int) returns (answer: Answer)
      requires Valid()
      modifies this
      ensures Valid() && (View(), answer) == EnqueueStep(old(View()), s, deadline, kind, now)
    {
      hide OrdinalsOk, Line, Inv;
      EnqueueInv(View(), s, deadline, kind, now);
      var rollback := (waiters, terminal, activeLease);
      Expire(now);
      WaitingLine(waiters, View(), s);
      LineMembers(waiters);
      if s in terminal {
        return TerminalAlready;
      }
      if exists w :: w in waiters && w.job.segment == s {
        return AlreadyQueued;
      }
      if activeLease.Some? && activeLease.value.waiter.job.segment == s {
        return ActiveAlready;
      }
      if |waiters| >= MAX_QUEUE_SIZE {
        waiters, terminal, activeLease := rollback.0, rollback.1, rollback.2;
        return QueueFull;
      }
      OrdinalsEnqueued(nextOrdinal, waiters, activeLease, Job(s, deadline, kind, None));
      nextOrdinal := nextOrdinal + 1;
      waiters := waiters + [Waiter(Job(s, deadline, kind, None), nextOrdinal)];
      return Enqueued;
    }

    /** The end of the loop of `acquire`: the first of the sorted waiters gets the lease. */
    method GrantFirst(now: int, leaseId: Id) returns (answer: Answer)
      requires OrdinalsOk(nextOrdinal, waiters, None) && activeLease.None?
      requires Ascending(waiters) && waiters != []
      modifies this`waiters, this`fence, this`activeLease
      ensures OrdinalsOk(nextOrdinal, waiters, activeLease) && HoldOk(activeLease)
      ensures old(View()).line != [] && (View(), answer) == GrantHead(old(View()), now, leaseId)
    {
      OrdinalsShifted(nextOrdinal, waiters);
      hide OrdinalsOk, Line, Ascending;
      var waiter := waiters[0];
      waiters := waiters[1..];
      fence := fence + 1;
      var expiresAt := Min(now + LEASE_DURATION_MS, waiter.job.deadline);
      var lease := Lease(waiter, Grant(leaseId, fence), expiresAt, None, None);
      OrdinalsGranted(nextOrdinal, waiters, lease);
      activeLease := Some(lease);
      return Acquired(Ident(waiter.job.segment, lease.grant), expiresAt);
    }

    /** The loop of `acquire`, once expiry has run and the GPU is free. */
    method Serve(want: Option<Id>, now: int, leaseId: Id) returns (answer: Answer)
      requires OrdinalsOk(nextOrdinal, waiters, None) && activeLease.None?
      requires |View().line| > 1 ==> View().line[1].deadline > now
      modifies this`waiters, this`terminal, this`fence, this`activeLease
      ensures OrdinalsOk(nextOrdinal, waiters, activeLease) && HoldOk(activeLease)
      ensures (View(), answer) == ServeStep(old(View()), want, now, leaseId)
    {
      hide OrdinalsOk, Line, Ascending, Sorted;
      ghost var q := View();
      ghost var dropped := false;
      LineMembers(waiters);
      while |waiters| > 0
        invariant OrdinalsOk(nextOrdinal, waiters, None) && activeLease.None?
        invariant View() == q && |waiters| == |q.line|
        invariant q == if dropped then DropOverdueHead(old(View()), now) else old(View())
        invariant dropped ==> old(View()).line != [] && old(View()).line[0].deadline <= now
        decreases |waiters|
      {
        OrdinalsSorted(nextOrdinal, waiters, None);
        waiters := Sorted(waiters);
        var waiter := waiters[0];
        OrdinalsShifted(nextOrdinal, waiters);
        assert waiter.job == q.line[0];
        if waiter.job.deadline <= now {
          waiters := waiters[1..];
          MarkTerminal(waiter.job.segment, DeadlineExpired);
          q, dropped := DropOverdueHead(q, now), true;
          continue;
        }
        assert q == DropOverdueHead(old(View()), now);
        if want.Some? && waiter.job.segment != want.value {
          return Busy;
        }
        answer := GrantFirst(now, leaseId);
        return;
      }
      return Empty;
    }

    method Acquire(want: Option<Id>, now: int, leaseId: Id) returns (answer: Answer)
      requires Valid()
      modifies this
      ensures Valid() && (View(), answer) == AcquireStep(old(View()), want, now, leaseId)
    {
      AcquireInv(View(), want, now, leaseId);
      SecondNotOverdue(View(), now);
      Expire(now);
      if activeLease.Some? {
        return Busy;
      }
      answer := Serve(want, now, leaseId);
    }

    method Renew(id: Ident, now: int) returns (answer: Answer)
      requires Valid()
      modifies this
      ensures Valid() && (View(), answer) == RenewStep(old(View()), id, now)
    {
      hide OrdinalsOk, Line, Inv;
      StepInv(View(), LeaseQueue.Renew(id, now));
      Expire(now);
      var lease := CurrentLease(id);
      if lease.None? || lease.value.holdId.Some? || lease.value.holdExpiresAt.Some? {
        return Stale;
      }
      var expiresAt := Min(now + LEASE_DURATION_MS, lease.value.waiter.job.deadline);
      if expiresAt <= now {
        return Stale;
      }
      OrdinalsLease(nextOrdinal, waiters, lease.value, lease.value.(expiresAt := expiresAt));
      activeLease := Some(lease.value.(expiresAt := expiresAt));
      return OkUntil(expiresAt);
    }

    method Witness(id: Ident, now: int) returns (answer: Answer)
      requires Valid()
      modifies this
      ensures Valid() && (View(), answer) == WitnessStep(old(View()), id, now)
    {
      Expire(now);
      var lease := CurrentLease(id);
      return if lease.Some? then OkUntil(lease.value.expiresAt) else Stale;
    }

    method Release(id: Ident, completed: bool, now: int) returns (answer: Answer)
      requires Valid()
      modifies this
      ensures Valid() && (View(), answer) == ReleaseStep(old(View()), id, completed, now)
    {
      hide OrdinalsOk, Line, Inv, FoundRestored, RestoredFrom;
      ReleaseInv(View(), id, completed, now);
      if completed && id.segment in completedReleases && completedReleases[id.segment] == id.grant {
        return Ok;
      }
      Expire(now);
      var lease := CurrentLease(id);
      if lease.None? {
        FoundLine(waiters, View(), id.segment, id.grant);
        if !completed && FoundRestored(waiters, id.segment, id.grant) {
          OrdinalsKept(nextOrdinal, waiters, activeLease, Except(id.segment));
          LineKept(waiters, Except(id.segment));
          waiters := KeptWaiters(waiters, Except(id.segment));
          return Ok;
        }
        return Stale;
      }
      OrdinalsFreed(nextOrdinal, waiters, activeLease);
      activeLease := None;
      if completed {
        MarkTerminal(id.segment, Completed);
        completedReleases := completedReleases[id.segment := id.grant];
      }
      return Ok;
    }

    method Cancel(s: Id, grant: Option<Grant>, now: int) returns (answer: Answer)
      requires Valid()
      modifies this
      ensures Valid() && (View(), answer) == CancelStep(old(View()), s, grant, now)
    {
      hide OrdinalsOk, Line, Inv, FoundRestored, RestoredFrom;
      CancelInv(View(), s, grant, now);
      Expire(now);
      ghost var q := View();
      FoundLine(waiters, q, s, if grant.Some? then grant.value else Grant("", 0));
      if s in terminal {
        return AlreadyCancelled;
      }
      if activeLease.Some? && activeLease.value.waiter.job.segment == s {
        if grant.None? {
          return Stale;
        }
        var lease := CurrentLease(Ident(s, grant.value));
        if lease.None? {
          return Stale;
        }
        OrdinalsFreed(nextOrdinal, waiters, activeLease);
        activeLease := None;
      } else {
        if grant.Some? && !FoundRestored(waiters, s, grant.value) {
          return Stale;
        }
        var before := |waiters|;
        OrdinalsKept(nextOrdinal, waiters, activeLease, Except(s));
        LineKept(waiters, Except(s));
        KeptShrinks(waiters, q, s);
        waiters := KeptWaiters(waiters, Except(s));
        if |waiters| == before {
          return NotFound;
        }
      }
      MarkTerminal(s, Reason.Cancelled);
      return NowCancelled;
    }

    method RestoreCapacityBusy(id: Ident, now: int) returns (answer: Answer)
      requires Valid()
      modifies this
      ensures Valid() && (View(), answer) == RestoreStep(old(View()), id, now)
    {
      hide OrdinalsOk, Line, FoundRestored, RestoredFrom;
      RestoreInv(View(), id, now);
      var rollback := (waiters, terminal, activeLease);
      Expire(now);
      var lease := CurrentLease(id);
      if lease.None? {
        FoundLine(waiters, View(), id.segment, id.grant);
        return if FoundRestored(waiters, id.segment, id.grant) then Ok else Stale;
      }
      WaitingLine(waiters, View(), id.segment);
      LineMembers(waiters);
      var alreadyQueued := exists w :: w in waiters && w.job.segment == id.segment;
      if !alreadyQueued && id.segment !in terminal && |waiters| >= MAX_QUEUE_SIZE {
        waiters, terminal, activeLease := rollback.0, rollback.1, rollback.2;
        return QueueFull;
      }
      activeLease := None;
      if !alreadyQueued && id.segment !in terminal {
        var job := lease.value.waiter.job.(restoredFrom := Some(lease.value.grant));
        OrdinalsRequeued(nextOrdinal, waiters, lease.value, job);
        waiters := waiters + [Waiter(job, lease.value.waiter.ordinal)];
      }
      return Ok;
    }

    method BeginCommitHold(id: Ident, now: int, holdId: Id) returns (answer: Answer)
      requires Valid()
      modifies this
      ensures Valid() && (View(), answer) == BeginHoldStep(old(View()), id, now, holdId)
    {
      hide OrdinalsOk, Line, Inv;
      StepInv(View(), LeaseQueue.BeginCommitHold(id, now, holdId));
      Expire(now);
      var lease := CurrentLease(id);
      if lease.None? || lease.value.holdId.Some? {
        return Stale;
      }
      var until := Min(now + COMMIT_HOLD_DURATION_MS, lease.value.waiter.job.deadline);
      if until <= now {
        return Stale;
      }
      var held := lease.value.(expiresAt := until, holdExpiresAt := Some(until), holdId := Some(holdId));
      OrdinalsLease(nextOrdinal, waiters, lease.value, held);
      activeLease := Some(held);
      return OkHold(until, holdId);
    }

    method ReleaseCommitHold(id: Ident, holdId: Id, now: int) returns (answer: Answer)
      requires Valid()
      modifies this
      ensures Valid() && (View(), answer) == ReleaseHoldStep(old(View()), id, holdId, now)
    {
      hide OrdinalsOk, Line, Inv;
      StepInv(View(), LeaseQueue.ReleaseCommitHold(id, holdId, now));
      Expire(now);
      var lease := CurrentLease(id);
      if lease.None? || lease.value.holdId != Some(holdId) {
        return Stale;
      }
      var freed := lease.value.(holdId := None, holdExpiresAt := None);
      OrdinalsLease(nextOrdinal, waiters, lease.value, freed);
      activeLease := Some(freed);
      return Ok;
    }

    method Alarm(now: int)
      requires Valid()
      modifies this
      ensures Valid() && View() == Step(old(View()), LeaseQueue.Alarm(now)).0
    {
      Expire(now);
    }
  }
}
