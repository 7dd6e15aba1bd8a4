/**
 What the coordinator promises over whole runs: any sequence of calls, with any
 clock readings, in any order.
 */
module LeaseRuns {
  import opened Wrappers
  import opened LeaseQueue

  function Run(q: Fifo, calls: seq<Call>): Fifo
    decreases calls
  {
    if calls == [] then q else Run(Step(q, calls[0]).0, calls[1..])
  }

  /** The leases granted along a run, in order. */
  function Grants(q: Fifo, calls: seq<Call>): seq<Ident>
    decreases calls
  {
    if calls == [] then []
    else
      var (q', answer) := Step(q, calls[0]);
      (if answer.Acquired? then [answer.id] else []) + Grants(q', calls[1..])
  }

  lemma {:induction false} RunInv(q: Fifo, calls: seq<Call>)
    requires Inv(q)
    ensures Inv(Run(q, calls))
    decreases calls
  {
    if calls != [] {
      StepInv(q, calls[0]);
      RunInv(Step(q, calls[0]).0, calls[1..]);
    }
  }

  // ----- fencing -----

  lemma StepFence(q: Fifo, c: Call)
    ensures Step(q, c).0.fence == q.fence + if Step(q, c).1.Acquired? then 1 else 0
    ensures Step(q, c).1.Acquired? ==>
              Current(Step(q, c).0, Step(q, c).1.id) && Step(q, c).1.id.grant.fence == q.fence + 1
  {
  }

  /** Fences are granted once each, consecutively: the i-th grant of a run carries the i-th next fence. */
  lemma {:induction false} FencesAreConsecutive(q: Fifo, calls: seq<Call>)
    ensures Run(q, calls).fence == q.fence + |Grants(q, calls)|
    ensures forall i :: 0 <= i < |Grants(q, calls)| ==> Grants(q, calls)[i].grant.fence == q.fence + 1 + i
    decreases calls
  {
    if calls != [] {
      var (q', answer) := Step(q, calls[0]);
      StepFence(q, calls[0]);
      FencesAreConsecutive(q', calls[1..]);
      forall i | 0 <= i < |Grants(q, calls)|
        ensures Grants(q, calls)[i].grant.fence == q.fence + 1 + i
      {
        if answer.Acquired? {
          assert Grants(q, calls) == [answer.id] + Grants(q', calls[1..]);
          if i > 0 {
            assert Grants(q, calls)[i] == Grants(q', calls[1..])[i - 1];
          }
        } else {
          assert Grants(q, calls) == Grants(q', calls[1..]);
        }
      }
    }
  }

  /** A lease that was handed out and is no longer the current one. */
  ghost predicate Spent(q: Fifo, id: Ident) {
    id.grant.fence <= q.fence && !Current(q, id)
  }

  lemma StepKeepsSpent(q: Fifo, c: Call, id: Ident)
    requires Spent(q, id)
    ensures Spent(Step(q, c).0, id)
  {
  }

  lemma {:induction false} SpentForever(q: Fifo, calls: seq<Call>, id: Ident)
    requires Spent(q, id)
    ensures Spent(Run(q, calls), id)
    decreases calls
  {
    if calls != [] {
      StepKeepsSpent(q, calls[0], id);
      SpentForever(Step(q, calls[0]).0, calls[1..], id);
    }
  }

  predicate LeaseCall(c: Call, id: Ident) {
    (c.Renew? || c.Witness? || c.BeginCommitHold? || c.ReleaseCommitHold?) && c.id == id
  }

  /** Once a lease stops being current, every later use of it is refused as stale, forever. */
  lemma StaleForever(q: Fifo, id: Ident, before: seq<Call>, after: seq<Call>, use: Call)
    requires Inv(q) && Current(q, id) && !Current(Run(q, before), id)
    requires LeaseCall(use, id)
    ensures Step(Run(Run(q, before), after), use).1 == Stale
  {
    FencesAreConsecutive(q, before);
    SpentForever(Run(q, before), after, id);
    var late := Run(Run(q, before), after);
    assert !Current(Expire(late, use.now), id);
  }

  lemma HeadAfterDropIsDue(q: Fifo, now: int)
    ensures var d := DropOverdueHead(Expire(q, now), now);
            d.line != [] ==> d.line[0].deadline > now
  {
    KeptMembers(q.line, DueAfter(now));
    var e := Expire(q, now);
    assert |e.line| > 1 ==> e.line[1] in Kept(q.line, DueAfter(now));
  }

  /** An answer that names an expiry names a live one: after the clock reading, within the deadline. */
  lemma AnsweredLeaseIsLive(q: Fifo, c: Call)
    requires Inv(q)
    ensures var (q', answer) := Step(q, c);
            answer.Acquired? || answer.OkUntil? || answer.OkHold? ==>
              && q'.held.Some?
              && answer.expiresAt == q'.held.value.expiresAt
              && c.now < answer.expiresAt <= q'.held.value.job.deadline
  {
    HeadAfterDropIsDue(q, c.now);
    StepInv(q, c);
  }

  // ----- permanent marks -----

  lemma StepKeepsTerminal(q: Fifo, c: Call, s: Id)
    requires s in q.terminal
    ensures s in Step(q, c).0.terminal && Step(q, c).0.terminal[s] == q.terminal[s]
  {
    hide Kept, RestoredFrom, Waiting, Overdue;
  }

  lemma StepKeepsReceipts(q: Fifo, c: Call, s: Id)
    requires Inv(q) && s in q.receipts
    ensures s in Step(q, c).0.receipts && Step(q, c).0.receipts[s] == q.receipts[s]
  {
    hide LineOk, Kept;
    if c.Release? && Current(Expire(q, c.now), c.id) {
      ReceiptsNameTheDead(q, c.id, c.now);
    }
  }

  lemma TerminalIsNotGranted(q: Fifo, c: Call, s: Id)
    requires Inv(q) && s in q.terminal && Step(q, c).1.Acquired?
    ensures Step(q, c).1.id.segment != s
  {
    StepKeepsTerminal(q, c, s);
    StepInv(q, c);
    StepFence(q, c);
  }

  /** A terminal segment keeps its first reason and is never granted the GPU again. */
  lemma {:induction false} TerminalForever(q: Fifo, calls: seq<Call>, s: Id)
    requires Inv(q) && s in q.terminal
    ensures s in Run(q, calls).terminal && Run(q, calls).terminal[s] == q.terminal[s]
    ensures forall id :: id in Grants(q, calls) ==> id.segment != s
    decreases calls
  {
    if calls != [] {
      StepInv(q, calls[0]);
      StepKeepsTerminal(q, calls[0], s);
      if Step(q, calls[0]).1.Acquired? {
        TerminalIsNotGranted(q, calls[0], s);
      }
      TerminalForever(Step(q, calls[0]).0, calls[1..], s);
    }
  }

  lemma {:induction false} ReceiptForever(q: Fifo, calls: seq<Call>, s: Id)
    requires Inv(q) && s in q.receipts
    ensures s in Run(q, calls).receipts && Run(q, calls).receipts[s] == q.receipts[s]
    decreases calls
  {
    if calls != [] {
      StepInv(q, calls[0]);
      StepKeepsReceipts(q, calls[0], s);
      ReceiptForever(Step(q, calls[0]).0, calls[1..], s);
    }
  }

  /** A completed release can be repeated at any later time: it answers ok and changes nothing. */
  lemma CompletedReleaseReplays(q: Fifo, id: Ident, now: int, calls: seq<Call>, later: int)
    requires Inv(q) && Current(Expire(q, now), id)
    ensures var released := Step(q, Release(id, true, now));
            var end := Run(released.0, calls);
            released.1 == Ok && Step(end, Release(id, true, later)) == (end, Ok)
  {
    var q' := Step(q, Release(id, true, now)).0;
    ExpireInv(q, now);
    ReceiptsNameTheDead(q, id, now);
    StepInv(q, Release(id, true, now));
    ReceiptForever(q', calls, id.segment);
  }

  lemma ReceiptsNameTheDead(q: Fifo, id: Ident, now: int)
    requires Inv(q) && Current(Expire(q, now), id)
    ensures id.segment !in q.receipts
  {
    ExpireInv(q, now);
  }

  // ----- no job is lost -----

  predicate Present(q: Fifo, s: Id) {
    Waiting(q, s) || Holds(q, s)
  }

  lemma DropLosesNoJob(q: Fifo, now: int, s: Id)
    requires Waiting(q, s)
    ensures Waiting(DropOverdueHead(q, now), s) || s in DropOverdueHead(q, now).terminal
  {
    var j :| j in q.line && j.segment == s;
    assert q.line == [q.line[0]] + q.line[1..];
    assert s !in DropOverdueHead(q, now).terminal ==> j in DropOverdueHead(q, now).line;
  }

  lemma AcquireLosesNoJob(q: Fifo, want: Option<Id>, now: int, leaseId: Id, s: Id)
    requires Waiting(q, s) && q.held.None?
    ensures Present(ServeStep(q, want, now, leaseId).0, s) || s in ServeStep(q, want, now, leaseId).0.terminal
  {
    DropLosesNoJob(q, now, s);
    var d := DropOverdueHead(q, now);
    hide DropOverdueHead;
    if s !in d.terminal {
      var j :| j in d.line && j.segment == s;
      assert d.line == [d.line[0]] + d.line[1..];
    }
  }

  /** A job leaves the line or the GPU only into a terminal mark, or by its own unfinished release. */
  lemma JobsAreNotLost(q: Fifo, c: Call, s: Id)
    requires Inv(q) && Present(q, s)
    ensures var (q', answer) := Step(q, c);
            || Present(q', s) || s in q'.terminal
            || (c.Release? && c.id.segment == s && !c.completed && answer == Ok)
  {
    ExpirePresent(q, s, c.now);
    ExpireInv(q, c.now);
    var e := Expire(q, c.now);
    hide Expire, Kept, LineOk, ReceiptsOk;
    if s in e.terminal {
      MarksOnlyGrow(q, c, s);
    } else {
      match c
      case Enqueue(_, _, _, _) =>
      case Acquire(want, now, leaseId) =>
        if e.held.None? {
          AcquireLosesNoJob(e, want, now, leaseId, s);
        }
      case Release(_, _, _) => ReleaseLosesNoJob(q, c, s);
      case Cancel(_, _, _) => CancelLosesNoJob(q, c, s);
      case RestoreCapacityBusy(id, _) =>
        if e.held.Some? {
          RequeuePresent(e, s);
        }
      case _ =>
    }
  }

  lemma ReleaseLosesNoJob(q: Fifo, c: Call, s: Id)
    requires c.Release? && Present(q, s) && Present(Expire(q, c.now), s)
    ensures var (q', answer) := Step(q, c);
            Present(q', s) || s in q'.terminal || (c.id.segment == s && !c.completed && answer == Ok)
  {
    var e := Expire(q, c.now);
    KeptPresent(e.line, c.id.segment, s);
    hide Expire, Kept, RestoredFrom;
  }

  lemma CancelLosesNoJob(q: Fifo, c: Call, s: Id)
    requires c.Cancel? && Present(q, s) && Present(Expire(q, c.now), s)
    ensures Present(Step(q, c).0, s) || s in Step(q, c).0.terminal
  {
    var e := Expire(q, c.now);
    KeptPresent(e.line, c.segment, s);
    hide Expire, Kept, RestoredFrom;
  }

  lemma MarksOnlyGrow(q: Fifo, c: Call, s: Id)
    requires Present(q, s) && s in Expire(q, c.now).terminal
    ensures s in Step(q, c).0.terminal || Present(Step(q, c).0, s)
  {
    hide Expire, Kept, RestoredFrom, Waiting;
  }

  lemma RequeuePresent(e: Fifo, s: Id)
    requires Present(e, s) && e.held.Some?
    ensures Present(e.(held := None, line := [Requeued(e.held.value)] + e.line), s)
  {
    var e' := e.(held := None, line := [Requeued(e.held.value)] + e.line);
    if Waiting(e, s) {
      var j :| j in e.line && j.segment == s;
      assert j in e'.line;
    } else {
      assert e'.line[0].segment == s;
      assert e'.line[0] in e'.line;
    }
  }

  lemma ExpirePresent(q: Fifo, s: Id, now: int)
    requires Present(q, s)
    ensures Present(Expire(q, now), s) || s in Expire(q, now).terminal
  {
    KeptMembers(q.line, DueAfter(now));
    var e := Expire(q, now);
    if Waiting(q, s) {
      var j :| j in q.line && j.segment == s;
      if j.deadline <= now {
        assert s in Overdue(q.line, now);
      } else {
        assert j in Kept(q.line, DueAfter(now));
        assert j in e.line;
      }
    }
    if Holds(q, s) && q.held.value.expiresAt <= now {
      assert e.line[0].segment == s;
      assert e.line[0] in e.line;
    }
  }

  lemma KeptPresent(line: seq<Job>, x: Id, s: Id)
    ensures x != s && (exists j :: j in line && j.segment == s) ==>
              exists j :: j in Kept(line, Except(x)) && j.segment == s
  {
    KeptMembers(line, Except(x));
  }

  // ----- expiry settles -----

  lemma {:induction false} KeptAll(line: seq<Job>, k: Keep)
    requires forall j :: j in line ==> Keeps(k, j)
    ensures Kept(line, k) == line
  {
    if line != [] {
      KeptAll(line[..|line| - 1], k);
      assert line == line[..|line| - 1] + [line[|line| - 1]];
    }
  }

  lemma OverdueAfterExpire(q: Fifo, now: int)
    requires Inv(q)
    ensures forall i :: 1 <= i < |Expire(q, now).line| ==> Expire(q, now).line[i].deadline > now
    ensures (exists j :: j in Expire(q, now).line && j.deadline <= now)
            <==> q.held.Some? && q.held.value.job.deadline <= now
  {
    var kept := Kept(q.line, DueAfter(now));
    var e := Expire(q, now);
    KeptMembers(q.line, DueAfter(now));
    forall i | 1 <= i < |e.line| ensures e.line[i].deadline > now {
      assert e.line[i] in kept;
    }
    if q.held.Some? && q.held.value.job.deadline <= now {
      assert e.line[0] in e.line;
    }
  }

  /**
   One expiry can leave at most the requeued lease overdue, at the head; a
   second at the same time leaves nothing overdue; a third changes nothing.
   */
  lemma ExpirySettles(q: Fifo, now: int)
    requires Inv(q)
    ensures forall i :: 1 <= i < |Expire(q, now).line| ==> Expire(q, now).line[i].deadline > now
    ensures (exists j :: j in Expire(q, now).line && j.deadline <= now)
            <==> q.held.Some? && q.held.value.job.deadline <= now
    ensures forall j :: j in Expire(Expire(q, now), now).line ==> j.deadline > now
    ensures Expire(Expire(Expire(q, now), now), now) == Expire(Expire(q, now), now)
  {
    OverdueAfterExpire(q, now);
    ExpiredLeaseIsGone(q, now);
    hide Expire, Inv;
    SecondExpiryClears(Expire(q, now), now);
    ExpiryOfNothing(Expire(Expire(q, now), now), now);
  }

  lemma ExpiredLeaseIsGone(q: Fifo, now: int)
    ensures Expire(q, now).held.Some? ==> Expire(q, now).held.value.expiresAt > now
  {
  }

  lemma SecondExpiryClears(q: Fifo, now: int)
    requires q.held.Some? ==> q.held.value.expiresAt > now
    ensures forall j :: j in Expire(q, now).line ==> j.deadline > now
    ensures Expire(q, now).held == q.held
  {
    KeptMembers(q.line, DueAfter(now));
  }

  lemma ExpiryOfNothing(q: Fifo, now: int)
    requires q.held.Some? ==> q.held.value.expiresAt > now
    requires forall j :: j in q.line ==> j.deadline > now
    ensures Expire(q, now) == q
  {
    KeptAll(q.line, DueAfter(now));
    assert Overdue(q.line, now) == {};
    assert Mark(q.terminal, {}, DeadlineExpired) == q.terminal;
  }

  // ----- nobody overtakes -----

  function Ids(line: seq<Job>): seq<Id> {
    seq(|line|, i requires 0 <= i < |line| => line[i].segment)
  }

  /** The GPU's holder, then the line: the order in which segments are served. */
  function Queue(q: Fifo): seq<Id> {
    (if q.held.Some? then [q.held.value.job.segment] else []) + Ids(q.line)
  }

  ghost predicate Before(queue: seq<Id>, a: Id, b: Id) {
    exists i, j :: 0 <= i < j < |queue| && queue[i] == a && queue[j] == b
  }

  ghost predicate NoRepeats(queue: seq<Id>) {
    forall i, j :: 0 <= i < j < |queue| ==> queue[i] != queue[j]
  }

  lemma QueueFacts(q: Fifo)
    requires Inv(q)
    ensures NoRepeats(Queue(q))
    ensures forall s :: s in Queue(q) <==> Present(q, s)
    ensures forall s :: s in Queue(q) ==> s !in q.terminal
  {
    IdsWaiting(q);
    assert forall i :: 0 <= i < |q.line| ==> Ids(q.line)[i] in Ids(q.line);
  }

  lemma IdsWaiting(q: Fifo)
    ensures forall s :: s in Ids(q.line) <==> Waiting(q, s)
  {
    forall s | Waiting(q, s) ensures s in Ids(q.line) {
      var j :| j in q.line && j.segment == s;
      var i :| 0 <= i < |q.line| && q.line[i] == j;
      assert Ids(q.line)[i] == s;
    }
  }

  lemma BeforeCons(h: Id, queue: seq<Id>, a: Id, b: Id)
    ensures Before([h] + queue, a, b) <==> (a == h && b in queue) || Before(queue, a, b)
  {
    var all := [h] + queue;
    if Before(all, a, b) {
      var i, j :| 0 <= i < j < |all| && all[i] == a && all[j] == b;
      assert queue[j - 1] == b;
      assert i > 0 ==> queue[i - 1] == a;
    }
    if a == h && b in queue {
      var j :| 0 <= j < |queue| && queue[j] == b;
      assert all[0] == a && all[j + 1] == b;
    }
    if Before(queue, a, b) {
      var i, j :| 0 <= i < j < |queue| && queue[i] == a && queue[j] == b;
      assert all[i + 1] == a && all[j + 1] == b;
    }
  }

  lemma BeforeSnoc(queue: seq<Id>, last: Id, a: Id, b: Id)
    ensures Before(queue + [last], a, b) <==> (b == last && a in queue) || Before(queue, a, b)
  {
    var all := queue + [last];
    if Before(all, a, b) {
      var i, j :| 0 <= i < j < |all| && all[i] == a && all[j] == b;
      assert queue[i] == a;
      assert j < |queue| ==> queue[j] == b;
    }
    if b == last && a in queue {
      var i :| 0 <= i < |queue| && queue[i] == a;
      assert all[i] == a && all[|queue|] == b;
    }
    if Before(queue, a, b) {
      var i, j :| 0 <= i < j < |queue| && queue[i] == a && queue[j] == b;
      assert all[i] == a && all[j] == b;
    }
  }

  lemma BeforeTail(queue: seq<Id>, a: Id, b: Id)
    requires queue != [] && NoRepeats(queue) && Before(queue, a, b) && a in queue[1..]
    ensures Before(queue[1..], a, b)
  {
    assert queue == [queue[0]] + queue[1..];
    BeforeCons(queue[0], queue[1..], a, b);
  }

  lemma IdsSnoc(front: seq<Job>, last: Job)
    ensures Ids(front + [last]) == Ids(front) + [last.segment]
  {
  }

  lemma IdsCons(first: Job, rest: seq<Job>)
    ensures Ids([first] + rest) == [first.segment] + Ids(rest)
  {
  }

  lemma KeptIds(line: seq<Job>, k: Keep)
    ensures forall s :: s in Ids(Kept(line, k)) ==> s in Ids(line)
  {
    KeptMembers(line, k);
    forall s | s in Ids(Kept(line, k)) ensures s in Ids(line) {
      var i :| 0 <= i < |Kept(line, k)| && Kept(line, k)[i].segment == s;
      assert Kept(line, k)[i] in line;
      var m :| 0 <= m < |line| && line[m] == Kept(line, k)[i];
      assert Ids(line)[m] == s;
    }
  }

  lemma {:induction false} BeforeKept(line: seq<Job>, k: Keep, a: Id, b: Id)
    requires NoRepeats(Ids(line)) && Before(Ids(line), a, b)
    requires a in Ids(Kept(line, k)) && b in Ids(Kept(line, k))
    ensures Before(Ids(Kept(line, k)), a, b)
  {
    var front, last := line[..|line| - 1], line[|line| - 1];
    assert line == front + [last];
    IdsSnoc(front, last);
    KeptIds(front, k);
    NoRepeatsSnoc(Ids(front), last.segment);
    var kf := Kept(front, k);
    IdsSnoc(kf, last);
    BeforeSnoc(Ids(front), last.segment, a, b);
    BeforeSnoc(Ids(kf), last.segment, a, b);
    if Before(Ids(front), a, b) {
      assert a in Ids(front) && b in Ids(front);
      BeforeKept(front, k, a, b);
    }
  }

  lemma NoRepeatsSnoc(queue: seq<Id>, last: Id)
    requires NoRepeats(queue + [last])
    ensures NoRepeats(queue) && last !in queue
  {
    var all := queue + [last];
    assert forall i :: 0 <= i < |queue| ==> all[i] == queue[i];
    assert all[|queue|] == last;
  }

  lemma KeptBehind(h: Id, line: seq<Job>, k: Keep, a: Id, b: Id)
    requires NoRepeats([h] + Ids(line)) && Before([h] + Ids(line), a, b)
    requires a in [h] + Ids(Kept(line, k)) && b in [h] + Ids(Kept(line, k))
    ensures Before([h] + Ids(Kept(line, k)), a, b)
  {
    hide Before, NoRepeats, Ids, Kept;
    var ids, ids' := Ids(line), Ids(Kept(line, k));
    KeptIds(line, k);
    BeforeCons(h, ids, a, b);
    BeforeCons(h, ids', a, b);
    NoRepeatsCons(h, ids);
    if Before(ids, a, b) {
      BeforeMembers(ids, a, b);
      BeforeKept(line, k, a, b);
    } else {
      BeforeDistinct(h, ids, a, b);
    }
  }

  lemma BeforeMembers(queue: seq<Id>, a: Id, b: Id)
    requires Before(queue, a, b)
    ensures a in queue && b in queue
  {
  }

  lemma BeforeDistinct(h: Id, queue: seq<Id>, a: Id, b: Id)
    requires NoRepeats([h] + queue) && Before([h] + queue, a, b)
    ensures a != b && b in queue
  {
    BeforeCons(h, queue, a, b);
    NoRepeatsCons(h, queue);
  }

  lemma KeptAhead(q: Fifo, k: Keep, a: Id, b: Id)
    requires NoRepeats(Queue(q)) && Before(Queue(q), a, b)
    requires var q' := q.(line := Kept(q.line, k)); a in Queue(q') && b in Queue(q')
    ensures Before(Queue(q.(line := Kept(q.line, k))), a, b)
  {
    hide Before, NoRepeats, Ids, Kept;
    if q.held.Some? {
      KeptBehind(q.held.value.job.segment, q.line, k, a, b);
    } else {
      assert Queue(q) == Ids(q.line);
      assert Queue(q.(line := Kept(q.line, k))) == Ids(Kept(q.line, k));
      BeforeKept(q.line, k, a, b);
    }
  }

  lemma NoRepeatsCons(first: Id, queue: seq<Id>)
    requires NoRepeats([first] + queue)
    ensures NoRepeats(queue) && first !in queue
  {
    var all := [first] + queue;
    assert forall i :: 0 <= i < |queue| ==> all[i + 1] == queue[i];
    assert all[0] == first;
  }

  /** Expiry keeps the order: an expired lease goes back in front of everyone it was ahead of. */
  lemma ExpireQueue(q: Fifo, now: int)
    ensures Queue(Expire(q, now)) == Queue(q.(line := Kept(q.line, DueAfter(now))))
  {
    if q.held.Some? && q.held.value.expiresAt <= now {
      IdsCons(Requeued(q.held.value), Kept(q.line, DueAfter(now)));
    }
  }

  lemma ServeQueue(q: Fifo, want: Option<Id>, now: int, leaseId: Id)
    requires q.held.None?
    ensures Queue(ServeStep(q, want, now, leaseId).0) == Queue(DropOverdueHead(q, now))
    ensures DropOverdueHead(q, now) == q || Queue(DropOverdueHead(q, now)) == Queue(q)[1..]
  {
    var d := DropOverdueHead(q, now);
    if q.line != [] {
      assert q.line == [q.line[0]] + q.line[1..];
    }
    if d.line != [] {
      assert d.line == [d.line[0]] + d.line[1..];
      IdsCons(d.line[0], d.line[1..]);
    }
  }

  /** After its expiry, a call keeps the queue, drops its head, filters it, or adds one segment at the back. */
  ghost predicate QueueMove(from: Fifo, to: Fifo) {
    || Queue(to) == Queue(from)
    || (Queue(from) != [] && Queue(to) == Queue(from)[1..])
    || (exists s :: Queue(to) == Queue(from.(line := Kept(from.line, Except(s)))))
    || (exists s :: Queue(to) == Queue(from) + [s])
  }

  lemma StepMovesQueue(q: Fifo, c: Call)
    ensures Step(q, c).0 == q || QueueMove(Expire(q, c.now), Step(q, c).0)
  {
    var e := Expire(q, c.now);
    var to := Step(q, c).0;
    hide Expire, Kept, DropOverdueHead;
    match c
    case Enqueue(s, deadline, kind, _) =>
      IdsSnoc(e.line, Job(s, deadline, kind, None));
      assert to == e || to == q || Queue(to) == Queue(e) + [s];
    case Acquire(want, now, leaseId) =>
      if e.held.None? {
        ServeQueue(e, want, now, leaseId);
        DropMoves(e, now);
      }
    case Release(id, _, _) =>
      assert to == q || to == e || to == e.(line := Kept(e.line, Except(id.segment)))
             || (e.held.Some? && Queue(to) == Queue(e)[1..]);
    case Cancel(s, _, _) =>
      assert to == e || Queue(to) == Queue(e.(line := Kept(e.line, Except(s))))
             || (e.held.Some? && Queue(to) == Queue(e)[1..]);
    case RestoreCapacityBusy(id, _) =>
      if e.held.Some? {
        IdsCons(Requeued(e.held.value), e.line);
      }
    case _ =>
  }

  lemma DropMoves(q: Fifo, now: int)
    requires q.held.None?
    ensures DropOverdueHead(q, now) == q || Queue(q) != []
  {
  }

  lemma MoveKeepsOrder(from: Fifo, to: Fifo, a: Id, b: Id)
    requires NoRepeats(Queue(from)) && Before(Queue(from), a, b) && QueueMove(from, to)
    requires a in Queue(to) && b in Queue(to)
    ensures Before(Queue(to), a, b)
  {
    hide Before, NoRepeats, Queue, Kept;
    if Queue(to) == Queue(from) {
    } else if Queue(from) != [] && Queue(to) == Queue(from)[1..] {
      BeforeTail(Queue(from), a, b);
    } else if s :| Queue(to) == Queue(from) + [s] {
      BeforeSnoc(Queue(from), s, a, b);
    } else {
      var s :| Queue(to) == Queue(from.(line := Kept(from.line, Except(s))));
      KeptAhead(from, Except(s), a, b);
    }
  }

  /** While both stay in the system, a segment never overtakes one that was ahead of it. */
  lemma StepKeepsOrder(q: Fifo, c: Call, a: Id, b: Id)
    requires Inv(q) && Before(Queue(q), a, b)
    requires Present(Step(q, c).0, a) && Present(Step(q, c).0, b)
    ensures Before(Queue(Step(q, c).0), a, b)
  {
    var e, to := Expire(q, c.now), Step(q, c).0;
    hide Before, NoRepeats, Queue, Kept, Expire, Step, Inv;
    StepMovesQueue(q, c);
    StepInv(q, c);
    QueueFacts(to);
    if to != q {
      StillQueued(q, c, a, b);
      QueueFacts(q);
      ExpireInv(q, c.now);
      QueueFacts(e);
      ExpireQueue(q, c.now);
      KeptAhead(q, DueAfter(c.now), a, b);
      MoveKeepsOrder(e, to, a, b);
    }
  }

  lemma StillQueued(q: Fifo, c: Call, a: Id, b: Id)
    requires Inv(q) && Before(Queue(q), a, b)
    requires Present(Step(q, c).0, a) && Present(Step(q, c).0, b)
    ensures Step(q, c).0 != q ==> a in Queue(Expire(q, c.now)) && b in Queue(Expire(q, c.now))
  {
    var e, to := Expire(q, c.now), Step(q, c).0;
    BeforeMembers(Queue(q), a, b);
    QueueFacts(q);
    ExpireInv(q, c.now);
    QueueFacts(e);
    StepInv(q, c);
    QueueFacts(to);
    ExpirePresent(q, a, c.now);
    ExpirePresent(q, b, c.now);
    ExpiredMarksStay(q, c, a);
    ExpiredMarksStay(q, c, b);
  }

  lemma ExpiredMarksStay(q: Fifo, c: Call, s: Id)
    ensures s in Expire(q, c.now).terminal ==> s in Step(q, c).0.terminal || Step(q, c).0 == q
  {
    hide Expire, Kept, RestoredFrom, Waiting;
  }

  ghost predicate PresentThroughout(q: Fifo, calls: seq<Call>, s: Id)
    decreases calls
  {
    Present(q, s) && (calls != [] ==> PresentThroughout(Step(q, calls[0]).0, calls[1..], s))
  }

  /**
   First come, first served, over any run: if `a` is ahead of `b` and neither
   leaves the system, then `b` is never granted the GPU.
   */
  lemma {:induction false} NoOvertaking(q: Fifo, calls: seq<Call>, a: Id, b: Id)
    requires Inv(q) && Before(Queue(q), a, b)
    requires PresentThroughout(q, calls, a) && PresentThroughout(q, calls, b)
    ensures Before(Queue(Run(q, calls)), a, b)
    ensures forall id :: id in Grants(q, calls) ==> id.segment != b
    decreases calls
  {
    if calls != [] {
      var (q', answer) := Step(q, calls[0]);
      StepKeepsOrder(q, calls[0], a, b);
      StepInv(q, calls[0]);
      if answer.Acquired? {
        GrantedIsFirst(q, calls[0], a, b);
      }
      NoOvertaking(q', calls[1..], a, b);
    }
  }

  lemma GrantedIsFirst(q: Fifo, c: Call, a: Id, b: Id)
    requires Inv(Step(q, c).0) && Before(Queue(Step(q, c).0), a, b) && Step(q, c).1.Acquired?
    ensures Step(q, c).1.id.segment != b
  {
    StepFence(q, c);
    QueueFacts(Step(q, c).0);
  }
}
