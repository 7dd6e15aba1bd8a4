/**
 The GPU authority as its callers should see it: one line of jobs, at most one
 held lease, and two tables of permanent marks.  There are no ordinals, no
 sorting, no separate hold clock and no defensive re-checks here; that the
 coordinator's persisted state behaves like this machine is proved in
 GpuLeaseCoordinator.dfy.  `now` is a free input of every call.
 */
module LeaseQueue {
  import opened Wrappers

  type Id = string

  const LEASE_DURATION_MS := 90_000
  const COMMIT_HOLD_DURATION_MS := 30_000
  const MAX_QUEUE_SIZE := 10_000

  datatype Kind = Initial | Reidentification
  datatype Reason = Cancelled | Completed | DeadlineExpired
  datatype Grant = Grant(leaseId: Id, fence: nat)
  datatype Job = Job(segment: Id, deadline: int, kind: Kind, restoredFrom: Option<Grant>)
  datatype Held = Held(job: Job, grant: Grant, expiresAt: int, hold: Option<Id>)
  datatype Ident = Ident(segment: Id, grant: Grant)

  datatype Fifo = Fifo(
    fence: nat,
    line: seq<Job>,
    held: Option<Held>,
    terminal: map<Id, Reason>,
    receipts: map<Id, Grant>)

  /** The tests by which the coordinator drops waiters: a passed deadline, or one segment. */
  datatype Keep = DueAfter(now: int) | Except(segment: Id)

  predicate Keeps(k: Keep, j: Job) {
    match k
    case DueAfter(now) => j.deadline > now
    case Except(s) => j.segment != s
  }

  function Kept(line: seq<Job>, k: Keep): seq<Job> {
    if line == [] then []
    else if Keeps(k, line[|line| - 1]) then Kept(line[..|line| - 1], k) + [line[|line| - 1]]
    else Kept(line[..|line| - 1], k)
  }

  function Overdue(line: seq<Job>, now: int): set<Id> {
    set j | j in line && j.deadline <= now :: j.segment
  }

  /** A terminal mark is never overwritten. */
  function Mark(terminal: map<Id, Reason>, segments: set<Id>, reason: Reason): map<Id, Reason> {
    map s | s in terminal.Keys + segments :: if s in terminal then terminal[s] else reason
  }

  function Requeued(h: Held): Job {
    h.job.(restoredFrom := Some(h.grant))
  }

  function Min(a: int, b: int): int {
    if a <= b then a else b
  }

  function Expire(q: Fifo, now: int): Fifo {
    var kept := Kept(q.line, DueAfter(now));
    var q' := q.(line := kept, terminal := Mark(q.terminal, Overdue(q.line, now), DeadlineExpired));
    if q.held.Some? && q.held.value.expiresAt <= now then
      q'.(held := None, line := [Requeued(q.held.value)] + kept)
    else q'
  }

  predicate Current(q: Fifo, id: Ident) {
    q.held.Some? && q.held.value.job.segment == id.segment && q.held.value.grant == id.grant
  }

  predicate Waiting(q: Fifo, s: Id) {
    exists j :: j in q.line && j.segment == s
  }

  predicate Holds(q: Fifo, s: Id) {
    q.held.Some? && q.held.value.job.segment == s
  }

  /** The segment waits in the place it got back when this very lease was given up. */
  predicate RestoredFrom(q: Fifo, s: Id, g: Grant) {
    exists j :: j in q.line && j.segment == s && j.restoredFrom == Some(g)
  }

  datatype Call =
    | Enqueue(segment: Id, deadline: int, kind: Kind, now: int)
    | Acquire(want: Option<Id>, now: int, leaseId: Id)
    | Renew(id: Ident, now: int)
    | Witness(id: Ident, now: int)
    | Release(id: Ident, completed: bool, now: int)
    | Cancel(segment: Id, grant: Option<Grant>, now: int)
    | RestoreCapacityBusy(id: Ident, now: int)
    | BeginCommitHold(id: Ident, now: int, holdId: Id)
    | ReleaseCommitHold(id: Ident, holdId: Id, now: int)
    | Alarm(now: int)

  datatype Answer =
    | Enqueued | AlreadyQueued | ActiveAlready | TerminalAlready
    | QueueFull  // thrown: the storage transaction is abandoned
    | Busy | Empty | Acquired(id: Ident, expiresAt: int)
    | Ok | OkUntil(expiresAt: int) | OkHold(expiresAt: int, holdId: Id)
    | Stale | NowCancelled | AlreadyCancelled | NotFound

  function EnqueueStep(q0: Fifo, s: Id, deadline: int, kind: Kind, now: int): (Fifo, Answer) {
    var q := Expire(q0, now);
    if s in q.terminal then (q, TerminalAlready)
    else if Waiting(q, s) then (q, AlreadyQueued)
    else if Holds(q, s) then (q, ActiveAlready)
    else if |q.line| >= MAX_QUEUE_SIZE then (q0, QueueFull)
    else (q.(line := q.line + [Job(s, deadline, kind, None)]), Enqueued)
  }

  /** Dropping one overdue head is enough: `Expire` leaves none behind it. */
  function DropOverdueHead(q: Fifo, now: int): Fifo {
    if q.line != [] && q.line[0].deadline <= now then
      q.(line := q.line[1..], terminal := Mark(q.terminal, {q.line[0].segment}, DeadlineExpired))
    else q
  }

  function GrantHead(q: Fifo, now: int, leaseId: Id): (Fifo, Answer)
    requires q.line != []
  {
    var j := q.line[0];
    var h := Held(j, Grant(leaseId, q.fence + 1), Min(now + LEASE_DURATION_MS, j.deadline), None);
    (q.(fence := q.fence + 1, line := q.line[1..], held := Some(h)),
     Acquired(Ident(j.segment, h.grant), h.expiresAt))
  }

  function ServeStep(q1: Fifo, want: Option<Id>, now: int, leaseId: Id): (Fifo, Answer) {
    var q := DropOverdueHead(q1, now);
    if q.line == [] then (q, Empty)
    else if want.Some? && q.line[0].segment != want.value then (q, Busy)
    else GrantHead(q, now, leaseId)
  }

  function AcquireStep(q0: Fifo, want: Option<Id>, now: int, leaseId: Id): (Fifo, Answer) {
    var q := Expire(q0, now);
    if q.held.Some? then (q, Busy) else ServeStep(q, want, now, leaseId)
  }

  function RenewStep(q0: Fifo, id: Ident, now: int): (Fifo, Answer) {
    var q := Expire(q0, now);
    if !Current(q, id) || q.held.value.hold.Some? then (q, Stale)
    else
      var until := Min(now + LEASE_DURATION_MS, q.held.value.job.deadline);
      if until <= now then (q, Stale)
      else (q.(held := Some(q.held.value.(expiresAt := until))), OkUntil(until))
  }

  function WitnessStep(q0: Fifo, id: Ident, now: int): (Fifo, Answer) {
    var q := Expire(q0, now);
    (q, if Current(q, id) then OkUntil(q.held.value.expiresAt) else Stale)
  }

  function ReleaseStep(q0: Fifo, id: Ident, completed: bool, now: int): (Fifo, Answer) {
    if completed && id.segment in q0.receipts && q0.receipts[id.segment] == id.grant then (q0, Ok)
    else
      var q := Expire(q0, now);
      if !Current(q, id) then
        if !completed && RestoredFrom(q, id.segment, id.grant) then
          (q.(line := Kept(q.line, Except(id.segment))), Ok)
        else (q, Stale)
      else if completed then
        (q.(held := None,
            terminal := Mark(q.terminal, {id.segment}, Completed),
            receipts := q.receipts[id.segment := id.grant]), Ok)
      else (q.(held := None), Ok)
  }

  function RemoveCancelled(q: Fifo, s: Id): Fifo {
    q.(line := Kept(q.line, Except(s)), terminal := Mark(q.terminal, {s}, Cancelled))
  }

  function CancelStep(q0: Fifo, s: Id, grant: Option<Grant>, now: int): (Fifo, Answer) {
    var q := Expire(q0, now);
    var marked := Mark(q.terminal, {s}, Cancelled);
    if s in q.terminal then (q, AlreadyCancelled)
    else if Holds(q, s) then
      if grant.Some? && Current(q, Ident(s, grant.value)) then (q.(held := None, terminal := marked), NowCancelled)
      else (q, Stale)
    else if grant.Some? && !RestoredFrom(q, s, grant.value) then (q, Stale)
    else if !Waiting(q, s) then (q, NotFound)
    else (RemoveCancelled(q, s), NowCancelled)
  }

  function RestoreStep(q0: Fifo, id: Ident, now: int): (Fifo, Answer) {
    var q := Expire(q0, now);
    if !Current(q, id) then
      (q, if RestoredFrom(q, id.segment, id.grant) then Ok else Stale)
    else if |q.line| >= MAX_QUEUE_SIZE then (q0, QueueFull)
    else (q.(held := None, line := [Requeued(q.held.value)] + q.line), Ok)
  }

  function BeginHoldStep(q0: Fifo, id: Ident, now: int, holdId: Id): (Fifo, Answer) {
    var q := Expire(q0, now);
    if !Current(q, id) || q.held.value.hold.Some? then (q, Stale)
    else
      var until := Min(now + COMMIT_HOLD_DURATION_MS, q.held.value.job.deadline);
      if until <= now then (q, Stale)
      else (q.(held := Some(q.held.value.(expiresAt := until, hold := Some(holdId)))), OkHold(until, holdId))
  }

  function ReleaseHoldStep(q0: Fifo, id: Ident, holdId: Id, now: int): (Fifo, Answer) {
    var q := Expire(q0, now);
    if !Current(q, id) || q.held.value.hold != Some(holdId) then (q, Stale)
    else (q.(held := Some(q.held.value.(hold := None))), Ok)
  }

  function Step(q: Fifo, c: Call): (Fifo, Answer) {
    match c
    case Enqueue(s, deadline, kind, now) => EnqueueStep(q, s, deadline, kind, now)
    case Acquire(want, now, leaseId) => AcquireStep(q, want, now, leaseId)
    case Renew(id, now) => RenewStep(q, id, now)
    case Witness(id, now) => WitnessStep(q, id, now)
    case Release(id, completed, now) => ReleaseStep(q, id, completed, now)
    case Cancel(s, grant, now) => CancelStep(q, s, grant, now)
    case RestoreCapacityBusy(id, now) => RestoreStep(q, id, now)
    case BeginCommitHold(id, now, holdId) => BeginHoldStep(q, id, now, holdId)
    case ReleaseCommitHold(id, holdId, now) => ReleaseHoldStep(q, id, holdId, now)
    case Alarm(now) => (Expire(q, now), Ok)
  }

  // ----- the invariant -----

  ghost predicate Distinct(line: seq<Job>) {
    forall i, j :: 0 <= i < j < |line| ==> line[i].segment != line[j].segment
  }

  ghost predicate HeldOk(q: Fifo) {
    q.held.Some? ==>
      && q.held.value.grant.fence == q.fence
      && q.held.value.expiresAt <= q.held.value.job.deadline
      && !Waiting(q, q.held.value.job.segment)
      && q.held.value.job.segment !in q.terminal
  }

  ghost predicate LineOk(q: Fifo) {
    && Distinct(q.line)
    && |q.line| + (if q.held.Some? then 1 else 0) <= MAX_QUEUE_SIZE + 1
    && forall j :: j in q.line ==>
         && j.segment !in q.terminal
         && (j.restoredFrom.Some? ==> j.restoredFrom.value.fence <= q.fence)
  }

  ghost predicate ReceiptsOk(q: Fifo) {
    forall s :: s in q.receipts ==>
      s in q.terminal && q.terminal[s] == Completed && q.receipts[s].fence <= q.fence
  }

  /** Waiting, held and terminal segments are disjoint; the held fence is the counter. */
  ghost predicate Inv(q: Fifo) {
    HeldOk(q) && LineOk(q) && ReceiptsOk(q)
  }

  const INITIAL := Fifo(0, [], None, map[], map[])

  // ----- filtering a line -----

  lemma {:induction false} KeptMembers(line: seq<Job>, k: Keep)
    ensures |Kept(line, k)| <= |line|
    ensures forall j :: j in Kept(line, k) <==> j in line && Keeps(k, j)
  {
    if line != [] {
      KeptMembers(line[..|line| - 1], k);
      assert line == line[..|line| - 1] + [line[|line| - 1]];
    }
  }

  lemma {:induction false} KeptDistinct(line: seq<Job>, k: Keep)
    requires Distinct(line)
    ensures Distinct(Kept(line, k))
  {
    if line != [] {
      var front := line[..|line| - 1];
      KeptDistinct(front, k);
      KeptMembers(front, k);
      forall i | 0 <= i < |Kept(front, k)|
        ensures Kept(front, k)[i].segment != line[|line| - 1].segment
      {
        assert Kept(front, k)[i] in front;
      }
    }
  }

  lemma ExpireInv(q: Fifo, now: int)
    requires Inv(q)
    ensures Inv(Expire(q, now))
  {
    KeptMembers(q.line, DueAfter(now));
    KeptDistinct(q.line, DueAfter(now));
    var q' := Expire(q, now);
    forall j | j in Kept(q.line, DueAfter(now))
      ensures j.segment !in Overdue(q.line, now)
    {
      assert j in q.line;
    }
  }

  lemma DropInv(q: Fifo, now: int)
    requires Inv(q) && q.held.None?
    ensures Inv(DropOverdueHead(q, now))
    ensures DropOverdueHead(q, now).held.None?
  {
    if q.line != [] {
      forall j | j in q.line[1..] ensures j in q.line && j.segment != q.line[0].segment {
        var i :| 0 <= i < |q.line[1..]| && q.line[1..][i] == j;
        assert q.line[i + 1] == j;
      }
    }
  }

  lemma AcquireInv(q0: Fifo, want: Option<Id>, now: int, leaseId: Id)
    requires Inv(q0)
    ensures Inv(AcquireStep(q0, want, now, leaseId).0)
  {
    ExpireInv(q0, now);
    var q1 := Expire(q0, now);
    if q1.held.None? {
      DropInv(q1, now);
      var q := DropOverdueHead(q1, now);
      if q.line != [] {
        forall j | j in q.line[1..] ensures j in q.line && j.segment != q.line[0].segment {
          var i :| 0 <= i < |q.line[1..]| && q.line[1..][i] == j;
          assert q.line[i + 1] == j;
        }
      }
    }
  }

  lemma WithoutInv(q: Fifo, s: Id)
    requires Inv(q)
    ensures Inv(q.(line := Kept(q.line, Except(s))))
    ensures !Holds(q, s) ==> Inv(RemoveCancelled(q, s))
  {
    KeptMembers(q.line, Except(s));
    KeptDistinct(q.line, Except(s));
  }

  lemma EnqueueInv(q: Fifo, s: Id, deadline: int, kind: Kind, now: int)
    requires Inv(q)
    ensures Inv(EnqueueStep(q, s, deadline, kind, now).0)
  {
    ExpireInv(q, now);
  }

  lemma ReleaseInv(q: Fifo, id: Ident, completed: bool, now: int)
    requires Inv(q)
    ensures Inv(ReleaseStep(q, id, completed, now).0)
  {
    ExpireInv(q, now);
    WithoutInv(Expire(q, now), id.segment);
  }

  lemma CancelInv(q: Fifo, s: Id, grant: Option<Grant>, now: int)
    requires Inv(q)
    ensures Inv(CancelStep(q, s, grant, now).0)
  {
    ExpireInv(q, now);
    WithoutInv(Expire(q, now), s);
  }

  lemma RestoreInv(q: Fifo, id: Ident, now: int)
    requires Inv(q)
    ensures Inv(RestoreStep(q, id, now).0)
  {
    ExpireInv(q, now);
  }

  lemma HeldUpdateInv(q: Fifo, until: int, hold: Option<Id>)
    requires Inv(q) && q.held.Some? && until <= q.held.value.job.deadline
    ensures Inv(q.(held := Some(q.held.value.(expiresAt := until, hold := hold))))
  {
  }

  /** Every call keeps the invariant, whatever the clock says. */
  lemma StepInv(q: Fifo, c: Call)
    requires Inv(q)
    ensures Inv(Step(q, c).0)
  {
    var e := Expire(q, c.now);
    ExpireInv(q, c.now);
    match c
    case Enqueue(s, deadline, kind, now) => EnqueueInv(q, s, deadline, kind, now);
    case Acquire(want, now, leaseId) => AcquireInv(q, want, now, leaseId);
    case Release(id, completed, now) => ReleaseInv(q, id, completed, now);
    case Cancel(s, grant, now) => CancelInv(q, s, grant, now);
    case RestoreCapacityBusy(id, now) => RestoreInv(q, id, now);
    case Renew(id, now) =>
      if e.held.Some? {
        HeldUpdateInv(e, Min(now + LEASE_DURATION_MS, e.held.value.job.deadline), e.held.value.hold);
      }
    case BeginCommitHold(id, now, holdId) =>
      if e.held.Some? {
        HeldUpdateInv(e, Min(now + COMMIT_HOLD_DURATION_MS, e.held.value.job.deadline), Some(holdId));
      }
    case ReleaseCommitHold(id, holdId, now) =>
      if e.held.Some? {
        HeldUpdateInv(e, e.held.value.expiresAt, None);
      }
    case _ =>
  }
}
