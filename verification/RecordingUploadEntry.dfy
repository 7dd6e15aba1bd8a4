/**
 What the rows of the parts are when validation begins.  A completion reads the parts once and
 persists later; in between other callers may still claim parts, because claiming one does not
 look at the recording.
 */
module RecordingUploadEntry {
  import opened Wrappers
  import opened RecordingUpload
  import opened RecordingUploadSafety
  import opened RecordingUploadRuns

  // ----- what became of a part since its row was read -----

  /** The last claim on a part since then, and how it ended. */
  datatype Fate =
    | Untouched
    | Outstanding(claim: nat)
    | GivenBack(previous: Part)    // to the upload that was there when the claimer read the row
    | Finished(etag: nat)
    | Lost                         // the row was removed or left to be recovered

  function EndedBy(fate: Fate, s: System, u: Uploader, n: nat): Fate {
    if u.part != n || ClaimOf(u).None? || !HasClaim(s, n, ClaimOf(u).value) then fate
    else match u
      case Stored(_, _, _, etag) => Finished(etag)
      case Releasing(_, previous, _) =>
        if previous.Some? && previous.value.status.PartUploaded? then GivenBack(previous.value) else Lost
      case Recovering(_, _) => Lost
      case _ => fate
  }

  function FateAfter(fate: Fate, s: System, step: Step, n: nat): Fate {
    match step
    case ClaimPartStep(pid, _) =>
      if pid in s.uploaders && s.uploaders[pid].Choosing? && s.uploaders[pid].part == n && ClaimAllowed(s, s.uploaders[pid])
      then Outstanding(s.nextClaim) else fate
    case UploadStep(pid) => if pid in s.uploaders then EndedBy(fate, s, s.uploaders[pid], n) else fate
    case RecoverClaim(part, claim) => if part == n && HasClaim(s, n, claim) then Lost else fate
    case RemoveRowsStep => if s.status == Deleting then Lost else fate
    case _ => fate
  }

  function FateOver(fate: Fate, s: System, steps: seq<Step>, n: nat): Fate
    decreases steps
  {
    if steps == [] then fate else FateOver(FateAfter(fate, s, steps[0], n), Take(s, steps[0]), steps[1..], n)
  }

  /** What became of a part over a run. */
  function FateIn(s: System, steps: seq<Step>, n: nat): Fate {
    FateOver(Untouched, s, steps, n)
  }

  predicate IsOpen(fate: Fate) {
    fate.Outstanding? || fate.Lost?
  }

  function Cleared(p: Part): Part {
    p.(claim := None, claimRequest := None, claimedAt := None)
  }

  /** Whether a fate leaves exactly a given row behind. */
  predicate Leaves(fate: Fate, row: Part) {
    fate.Untouched? || (fate.GivenBack? && Cleared(fate.previous) == row)
  }

  // ----- a fate says what the row is -----

  /** Since a state, claims and stored parts are numbered onwards, and a later claim stores a later part. */
  ghost predicate NumbersGoOn(g: System, s: System) {
    && g.nextClaim <= s.nextClaim && g.nextEtag <= s.nextEtag
    && forall pid :: pid in s.uploaders && s.uploaders[pid].Stored? && s.uploaders[pid].claim >= g.nextClaim ==>
         s.uploaders[pid].etag >= g.nextEtag
  }

  ghost predicate Shows(g: System, s: System, n: nat, fate: Fate) {
    match fate
    case Untouched => Row(s, n) == Row(g, n)
    case Outstanding(claim) =>
      n in s.parts && s.parts[n].status.PartUploading? && s.parts[n].claim == Some(claim) && claim >= g.nextClaim
    case GivenBack(previous) => previous.status.PartUploaded? && Row(s, n) == Some(Cleared(previous))
    case Finished(etag) =>
      n in s.parts && s.parts[n].status.PartUploaded? && s.parts[n].etag == Some(etag) && etag >= g.nextEtag
    case Lost => n !in s.parts || s.parts[n].status.PartRecoverable?
  }

  ghost predicate WasUploaded(g: System, n: nat) {
    n in g.parts && g.parts[n].status.PartUploaded? && RowOk(g, n, g.parts[n])
  }

  lemma ClaimIsLater(g: System, s: System, n: nat, fate: Fate, claim: nat)
    requires WasUploaded(g, n) && Shows(g, s, n, fate) && RowsOk(s) && HasClaim(s, n, claim)
    ensures claim >= g.nextClaim && s.parts[n].status.PartUploading?
  {
    assert RowOk(s, n, s.parts[n]);
    hide PartSized;
  }

  lemma UploaderShows(g: System, s: System, pid: nat, n: nat, fate: Fate)
    requires WasUploaded(g, n) && RowsOk(s) && NumbersGoOn(g, s) && Shows(g, s, n, fate) && pid in s.uploaders
    ensures Shows(g, UploaderStep(s, pid, s.uploaders[pid]), n, EndedBy(fate, s, s.uploaders[pid], n))
  {
    var u := s.uploaders[pid];
    if u.part == n && ClaimOf(u).Some? && HasClaim(s, n, ClaimOf(u).value) {
      ClaimIsLater(g, s, n, fate, ClaimOf(u).value);
    }
    hide RowsOk, WasUploaded;
  }

  lemma ClaimShows(g: System, s: System, pid: nat, now: int, n: nat, fate: Fate)
    requires NumbersGoOn(g, s) && Shows(g, s, n, fate) && pid in s.uploaders && s.uploaders[pid].Choosing?
    ensures Shows(g, ClaimPart(s, pid, s.uploaders[pid], now), n, FateAfter(fate, s, ClaimPartStep(pid, now), n))
  {
    hide ClaimAllowed;
  }

  lemma ShownByTheRow(g: System, s: System, t: System, n: nat, fate: Fate)
    requires Shows(g, s, n, fate) && t.parts == s.parts
    ensures Shows(g, t, n, fate)
  {
  }

  /** No wait on storage or on the clock changes a row, but for a claim. */
  lemma ClockedStepsLeaveRows(s: System)
    ensures forall pid, u: Uploader, now :: u.Reading? ==> ReadPart(s, pid, u, now).parts == s.parts
    ensures forall pid, u: Uploader, ok :: u.Storing? ==> StorePart(s, pid, u, ok).parts == s.parts
    ensures forall pid, f: Finisher, effect, answered :: f.Assembling? ==>
              Assemble(s, pid, f, effect, answered).parts == s.parts
    ensures forall pid, f: Finisher, answers :: f.Verifying? ==> Verify(s, pid, f, answers).parts == s.parts
  {
    hide Assembles, AssembledSize;
  }

  lemma StepShows(g: System, s: System, step: Step, n: nat, fate: Fate)
    requires WasUploaded(g, n) && RowsOk(s) && NumbersGoOn(g, s) && Shows(g, s, n, fate)
    ensures Shows(g, Take(s, step), n, FateAfter(fate, s, step, n))
  {
    hide WasUploaded, RowsOk, NumbersGoOn, UploaderStep, FinisherStep, ReadPart, ClaimPart, StorePart, Assemble, Verify,
      SomePartUploading, Recovered, EndedBy;
    ClockedStepsLeaveRows(s);
    match step
    case UploadStep(pid) => if pid in s.uploaders { UploaderShows(g, s, pid, n, fate); }
    case ClaimPartStep(pid, now) =>
      if pid in s.uploaders && s.uploaders[pid].Choosing? { ClaimShows(g, s, pid, now, n, fate); }
    case FinishStep(pid) =>
      if pid in s.finishers {
        FinishersLeaveParts(s, pid, s.finishers[pid]);
        ShownByTheRow(g, s, Take(s, step), n, fate);
      }
    case RecoverClaim(part, claim) => RecoveryShows(g, s, part, claim, n, fate);
    case RemoveRowsStep =>
    case _ => ShownByTheRow(g, s, Take(s, step), n, fate);
  }

  lemma RecoveryShows(g: System, s: System, part: nat, claim: nat, n: nat, fate: Fate)
    requires Shows(g, s, n, fate)
    ensures Shows(g, Recovered(s, part, claim), n, FateAfter(fate, s, RecoverClaim(part, claim), n))
  {
  }

  lemma UploaderNumbersGoOn(g: System, s: System, pid: nat)
    requires NumbersGoOn(g, s) && pid in s.uploaders
    ensures NumbersGoOn(g, UploaderStep(s, pid, s.uploaders[pid]))
  {
    hide HasClaim;
  }

  lemma ClockedNumbersGoOn(g: System, s: System, pid: nat, now: int, ok: bool)
    requires NumbersGoOn(g, s) && pid in s.uploaders
    ensures var u := s.uploaders[pid];
            && (u.Reading? ==> NumbersGoOn(g, ReadPart(s, pid, u, now)))
            && (u.Choosing? ==> NumbersGoOn(g, ClaimPart(s, pid, u, now)))
            && (u.Storing? ==> NumbersGoOn(g, StorePart(s, pid, u, ok)))
  {
    hide ClaimAllowed;
  }

  lemma FinisherNumbersGoOn(s: System, pid: nat, f: Finisher)
    ensures var t := FinisherStep(s, pid, f); t.uploaders == s.uploaders && t.nextClaim == s.nextClaim && t.nextEtag == s.nextEtag
  {
  }

  lemma StepNumbersGoOn(g: System, s: System, step: Step)
    requires NumbersGoOn(g, s)
    ensures NumbersGoOn(g, Take(s, step))
  {
    hide UploaderStep, FinisherStep, ReadPart, ClaimPart, StorePart, SomePartUploading, Assembles, AssembledSize;
    match step
    case UploadStep(pid) => if pid in s.uploaders { UploaderNumbersGoOn(g, s, pid); }
    case ReadPartStep(pid, now) => if pid in s.uploaders { ClockedNumbersGoOn(g, s, pid, now, true); }
    case ClaimPartStep(pid, now) => if pid in s.uploaders { ClockedNumbersGoOn(g, s, pid, now, true); }
    case StorePartStep(pid, ok) => if pid in s.uploaders { ClockedNumbersGoOn(g, s, pid, 0, ok); }
    case FinishStep(pid) => if pid in s.finishers { FinisherNumbersGoOn(s, pid, s.finishers[pid]); }
    case _ =>
  }

  lemma {:induction false} RunShows(g: System, s: System, steps: seq<Step>, n: nat, fate: Fate)
    requires WasUploaded(g, n) && Inv(s) && NumbersGoOn(g, s) && Shows(g, s, n, fate)
    ensures Shows(g, Run(s, steps), n, FateOver(fate, s, steps, n))
    decreases steps
  {
    hide WasUploaded, Inv, RowsOk, NumbersGoOn, Shows, Take, FateAfter;
    if steps != [] {
      InvHasRows(s);
      StepShows(g, s, steps[0], n, fate);
      StepNumbersGoOn(g, s, steps[0]);
      TakeKeeps(s, steps[0]);
      RunShows(g, Take(s, steps[0]), steps[1..], n, FateAfter(fate, s, steps[0], n));
    }
  }

  lemma InvHasRows(s: System)
    requires Inv(s)
    ensures RowsOk(s)
  {
  }

  lemma NumbersStart(g: System)
    requires Inv(g)
    ensures NumbersGoOn(g, g)
  {
    assert forall pid :: pid in g.uploaders && g.uploaders[pid].Stored? ==> UploaderOk(g, g.uploaders[pid]);
  }

  /**
   A part that was uploaded at some moment is uploaded after any further run exactly when the last
   claim on it since then neither is outstanding nor was lost, and its row is still the same row
   exactly when nobody claimed it or the last claim gave that row back.
   */
  lemma RowAfterRun(g: System, steps: seq<Step>, n: nat)
    requires Inv(g) && n in g.parts && g.parts[n].status.PartUploaded?
    ensures var t := Run(g, steps);
            var fate := FateIn(g, steps, n);
            && (n in t.parts && t.parts[n].status.PartUploaded? <==> !IsOpen(fate))
            && (Row(t, n) == Some(g.parts[n]) <==> Leaves(fate, g.parts[n]))
            && (fate.Outstanding? ==> HasClaim(t, n, fate.claim))
            && (fate.Finished? ==> n in t.parts && t.parts[n].etag == Some(fate.etag))
  {
    NumbersStart(g);
    RunShows(g, g, steps, n, Untouched);
    assert RowOk(g, n, g.parts[n]);
    assert g.parts[n].etag.Some? && g.parts[n].etag.value < g.nextEtag;
    hide Inv, RowsOk, FateOver, Run;
  }

  // ----- the snapshot a completion persists was read from the rows -----

  /** The parts a completion goes on with. */
  function SnapshotOf(f: Finisher): Option<map<nat, Part>> {
    match f
    case Assembling(_, parts) => Some(parts)
    case Verifying(_, parts, _) => Some(parts)
    case Persisting(parts, _) => Some(parts)
    case _ => None
  }

  ghost predicate SnapshotKept(s: System, t: System, pid: nat) {
    pid in t.finishers && SnapshotOf(t.finishers[pid]).Some? ==>
      pid in s.finishers && SnapshotOf(s.finishers[pid]) == SnapshotOf(t.finishers[pid])
  }

  lemma FinisherCarriesOver(s: System, p: nat, pid: nat)
    requires p in s.finishers
    ensures var t := FinisherStep(s, p, s.finishers[p]);
            || SnapshotKept(s, t, pid)
            || (p == pid && pid in t.finishers && SnapshotOf(t.finishers[pid]) == Some(UploadedParts(s)))
  {
    hide UploadedParts, EveryPart;
  }

  lemma CompletingCarriesOver(s: System, p: nat, f: Finisher, pid: nat, effect: bool, answered: bool)
    requires p in s.finishers && s.finishers[p] == f
    ensures f.Assembling? ==> SnapshotKept(s, Assemble(s, p, f, effect, answered), pid)
    ensures f.Verifying? ==> SnapshotKept(s, Verify(s, p, f, answered), pid)
  {
    hide Assembles, AssembledSize;
  }

  /** A finisher's snapshot after a step is the one it had, or it just gathered the rows. */
  lemma SnapshotCarriesOver(s: System, step: Step, pid: nat)
    requires pid in Take(s, step).finishers && SnapshotOf(Take(s, step).finishers[pid]).Some?
    ensures var parts := SnapshotOf(Take(s, step).finishers[pid]);
            || (pid in s.finishers && SnapshotOf(s.finishers[pid]) == parts)
            || (step == FinishStep(pid) && parts == Some(UploadedParts(s)))
  {
    hide UploaderStep, FinisherStep, Assemble, Verify, SomePartUploading, UploadedParts, ReadPart, ClaimPart, StorePart;
    match step
    case UploadStep(p) => if p in s.uploaders { UploaderLeavesFinishers(s, p, s.uploaders[p]); }
    case ReadPartStep(p, now) => if p in s.uploaders { ClockedLeavesFinishers(s, p, s.uploaders[p], now, true); }
    case ClaimPartStep(p, now) => if p in s.uploaders { ClockedLeavesFinishers(s, p, s.uploaders[p], now, true); }
    case StorePartStep(p, ok) => if p in s.uploaders { ClockedLeavesFinishers(s, p, s.uploaders[p], 0, ok); }
    case FinishStep(p) => if p in s.finishers { FinisherCarriesOver(s, p, pid); }
    case AssembleStep(p, effect, answered) =>
      if p in s.finishers { CompletingCarriesOver(s, p, s.finishers[p], pid, effect, answered); }
    case VerifyStep(p, answers) =>
      if p in s.finishers { CompletingCarriesOver(s, p, s.finishers[p], pid, true, answers); }
    case _ =>
  }

  lemma UploaderLeavesFinishers(s: System, pid: nat, u: Uploader)
    ensures UploaderStep(s, pid, u).finishers == s.finishers
  {
  }

  lemma ClockedLeavesFinishers(s: System, pid: nat, u: Uploader, now: int, ok: bool)
    ensures u.Reading? ==> ReadPart(s, pid, u, now).finishers == s.finishers
    ensures u.Choosing? ==> ClaimPart(s, pid, u, now).finishers == s.finishers
    ensures u.Storing? ==> StorePart(s, pid, u, ok).finishers == s.finishers
  {
  }

  lemma {:induction false} RunAppends(s: System, first: seq<Step>, second: seq<Step>)
    ensures Run(s, first + second) == Run(Run(s, first), second)
    decreases first
  {
    hide Take;
    if first == [] {
      assert first + second == second;
    } else {
      RunAppends(Take(s, first[0]), first[1..], second);
      assert (first + second)[1..] == first[1..] + second;
    }
  }

  lemma RunLast(s: System, steps: seq<Step>)
    requires steps != []
    ensures Run(s, steps) == Take(Run(s, steps[..|steps| - 1]), steps[|steps| - 1])
  {
    var front, last := steps[..|steps| - 1], steps[|steps| - 1];
    RunAppends(s, front, [last]);
    assert front + [last] == steps;
    assert Run(Run(s, front), [last]) == Run(Take(Run(s, front), last), []);
    hide Take;
  }

  /** The snapshot of a completion is what the uploaded rows were at one earlier moment of the run. */
  lemma {:induction false} SnapshotWasGathered(declaredSize: nat, steps: seq<Step>, pid: nat)
    requires var s := Run(Created(declaredSize), steps); pid in s.finishers && SnapshotOf(s.finishers[pid]).Some?
    ensures var s := Run(Created(declaredSize), steps);
            exists k :: 0 <= k < |steps| && steps[k] == FinishStep(pid)
                        && SnapshotOf(s.finishers[pid]) == Some(UploadedParts(Run(Created(declaredSize), steps[..k])))
    decreases |steps|
  {
    var start := Created(declaredSize);
    if steps != [] {
      var front, last := steps[..|steps| - 1], steps[|steps| - 1];
      RunLast(start, steps);
      hide Run, Take, UploadedParts, SnapshotOf;
      var s := Run(start, front);
      var parts := SnapshotOf(Run(start, steps).finishers[pid]);
      SnapshotCarriesOver(s, last, pid);
      if pid in s.finishers && SnapshotOf(s.finishers[pid]) == parts {
        SnapshotWasGathered(declaredSize, front, pid);
        var k :| 0 <= k < |front| && front[k] == FinishStep(pid) && parts == Some(UploadedParts(Run(start, front[..k])));
        assert steps[..k] == front[..k] && steps[k] == FinishStep(pid);
      } else {
        assert steps[|steps| - 1] == FinishStep(pid) && parts == Some(UploadedParts(Run(start, steps[..|steps| - 1])));
      }
    }
  }

  // ----- the rows when validation begins -----

  lemma UploadedRowsAreParts(s: System, n: nat)
    requires Inv(s) && n in UploadedParts(s)
    ensures 1 <= n <= PartCount(s.declaredSize) && ExpectedPartSize(s.declaredSize, n) == Some(s.parts[n].byteCount)
  {
    assert RowOk(s, n, s.parts[n]);
    hide UploadersOk, FinishersOk, GlobalOk;
  }

  lemma AllPartsUploaded(s: System)
    requires Inv(s)
    ensures EveryPart(s.declaredSize, UploadedParts(s)) <==>
              forall n :: 1 <= n <= PartCount(s.declaredSize) ==> n in s.parts && s.parts[n].status.PartUploaded?
  {
    hide Inv, ExpectedPartSize, PartCount;
    forall n | n in UploadedParts(s)
      ensures ExpectedPartSize(s.declaredSize, n) == Some(UploadedParts(s)[n].byteCount)
    {
      UploadedRowsAreParts(s, n);
    }
    assert forall n :: n in UploadedParts(s) <==> n in s.parts && s.parts[n].status.PartUploaded?;
  }

  /** A completion at the moment it enters validating, with the state it read the parts in. */
  predicate EntersWith(g: System, s: System, step: Step) {
    && s.status != Validating && Take(s, step).status == Validating
    && step.FinishStep? && step.pid in s.finishers
    && SnapshotOf(s.finishers[step.pid]) == Some(UploadedParts(g))
  }

  lemma EntryKeepsRows(g: System, s: System, step: Step)
    requires Inv(s) && EntersWith(g, s, step)
    ensures Take(s, step).parts == s.parts && Take(s, step).declaredSize == s.declaredSize
    ensures forall n :: 1 <= n <= PartCount(s.declaredSize) ==> n in UploadedParts(g)
  {
    hide Take, UploadedParts;
    EntersByPersisting(s, step);
    PersistingLeavesRows(s, step.pid);
    assert FinisherOk(s, s.finishers[step.pid]);
    hide PartCount, ExpectedPartSize, PartSized;
  }

  lemma PersistingLeavesRows(s: System, pid: nat)
    requires pid in s.finishers && s.finishers[pid].Persisting?
    ensures Take(s, FinishStep(pid)).parts == s.parts && Take(s, FinishStep(pid)).declaredSize == s.declaredSize
  {
  }

  /**
   At the step that enters validating, with the moment its completion read the parts: the rows are
   uploaded parts 1..n exactly when no part has a claim since then that is outstanding or was lost,
   and a row is the one that was read exactly when nobody claimed it or the last claim gave it back.
   */
  lemma RowsAtEntry(declaredSize: nat, before: seq<Step>, after: seq<Step>, step: Step)
    requires declaredSize > 0
    ensures var g := Run(Created(declaredSize), before);
            var s := Run(g, after);
            var t := Take(s, step);
            EntersWith(g, s, step) ==>
              && (EveryPart(t.declaredSize, UploadedParts(t)) <==>
                    forall n :: 1 <= n <= PartCount(t.declaredSize) ==> !IsOpen(FateIn(g, after, n)))
              && forall n :: 1 <= n <= PartCount(t.declaredSize) ==>
                   n in g.parts && (Row(t, n) == Some(g.parts[n]) <==> Leaves(FateIn(g, after, n), g.parts[n]))
  {
    var g := Run(Created(declaredSize), before);
    var s := Run(g, after);
    var t := Take(s, step);
    CreatedInv(declaredSize);
    RunKeeps(Created(declaredSize), before);
    RunKeeps(g, after);
    TakeKeeps(s, step);
    hide Inv, Take, Run, EntersWith, FateIn, IsOpen, Leaves, EveryPart, ClaimsApart, PartCount;
    if EntersWith(g, s, step) {
      EntryKeepsRows(g, s, step);
      AllPartsUploaded(t);
      forall n | 1 <= n <= PartCount(t.declaredSize)
        ensures n in g.parts && (Row(t, n) == Some(g.parts[n]) <==> Leaves(FateIn(g, after, n), g.parts[n]))
        ensures n in t.parts && t.parts[n].status.PartUploaded? <==> !IsOpen(FateIn(g, after, n))
      {
        assert n in UploadedParts(g);
        RowAfterRun(g, after, n);
      }
    }
  }

  // ----- the corner: validating beside a claim -----

  lemma RunFour(s: System, a: Step, b: Step, c: Step, d: Step)
    ensures Run(s, [a, b, c, d]) == Take(Take(Take(Take(s, a), b), c), d)
  {
    hide Take;
    RunLast(s, [a, b, c, d]);
    RunLast(s, [a, b, c]);
    RunLast(s, [a, b]);
    RunLast(s, [a]);
    hide Run;
    assert [a, b, c, d][..3] == [a, b, c] && [a, b, c][..2] == [a, b] && [a, b][..1] == [a] && [a][..0] == [];
    assert Run(s, []) == s by { RunNothing(s); }
  }

  lemma RunNothing(s: System)
    ensures Run(s, []) == s
  {
  }

  const STORED := Part(PartUploaded, None, None, None, Some(0), 1)
  const RECLAIMED := Part(PartUploading, Some(1), Some(1), Some(0), Some(0), 1)

  /** Caller 0 claims the only part of a recording of one byte. */
  function Claims(): seq<Step> {
    [BeginUploadStep(0, 1, 1, 0), ReadPartStep(0, 0), ClaimPartStep(0, 0), UploadStep(0)]
  }

  function AfterClaim(): System {
    Created(1).(parts := map[1 := Part(PartUploading, Some(0), Some(0), Some(0), None, 1)], nextClaim := 1,
                uploaders := map[0 := Storing(1, 1, None, 0)])
  }

  /** It stores the part and is done, and caller 1 begins to replace the part. */
  function Stores(): seq<Step> {
    [StorePartStep(0, true), UploadStep(0), UploadStep(0), BeginUploadStep(1, 1, 1, 1)]
  }

  function AfterStore(): System {
    System(1, Uploading, None, map[1 := STORED], map[1 := Reading(1, 1, 1)], map[],
           Storage(true, map[1 := 0], None), 1, 1, map[0 := 1], 0)
  }

  /** Caller 1 reads the row, the recording is claimed for completion and gathered, and caller 1's claim takes effect. */
  function GathersBeside(): seq<Step> {
    [ReadPartStep(1, 0), ClaimCompletionStep(0), FinishStep(0), ClaimPartStep(1, 0)]
  }

  function AfterGather(): System {
    AfterStore().(status := Completing, parts := map[1 := RECLAIMED], nextClaim := 2,
                  uploaders := map[1 := Claimed(1, 1, Some(STORED), 1)],
                  finishers := map[0 := Assembling(true, map[1 := STORED])])
  }

  /** The completion goes on to its end, and caller 1 stops. */
  function Completes(): seq<Step> {
    [AssembleStep(0, true, true), VerifyStep(0, true), FinishStep(0), AbandonUpload(1)]
  }

  lemma ClaimsFirst()
    ensures Run(Created(1), Claims()) == AfterClaim()
  {
    var s0, steps := Created(1), Claims();
    RunFour(s0, steps[0], steps[1], steps[2], steps[3]);
    assert steps == [steps[0], steps[1], steps[2], steps[3]];
    hide Run;
    var s1 := Take(s0, steps[0]);
    assert s1 == s0.(uploaders := map[0 := Reading(1, 0, 1)]);
    var s2 := Take(s1, steps[1]);
    assert s2 == s0.(uploaders := map[0 := Choosing(1, 0, 1, None, -STALE_MS)]);
    var s3 := Take(s2, steps[2]);
    assert s3 == AfterClaim().(uploaders := map[0 := Claimed(1, 1, None, 0)]);
    assert Take(s3, steps[3]) == AfterClaim();
  }

  lemma ThenStores()
    ensures Run(AfterClaim(), Stores()) == AfterStore()
  {
    var s0, steps := AfterClaim(), Stores();
    RunFour(s0, steps[0], steps[1], steps[2], steps[3]);
    assert steps == [steps[0], steps[1], steps[2], steps[3]];
    hide Run;
    var s1 := Take(s0, steps[0]);
    assert s1 == s0.(uploaders := map[0 := Stored(1, 1, 0, 0)], storage := Storage(true, map[1 := 0], None),
                     nextEtag := 1, sizeOf := map[0 := 1]);
    var s2 := Take(s1, steps[1]);
    assert s2 == AfterStore().(uploaders := map[0 := Touching(1, 0)]);
    var s3 := Take(s2, steps[2]);
    assert s3 == AfterStore().(uploaders := map[]);
    assert Take(s3, steps[3]) == AfterStore();
  }

  function BeforeGather(): System {
    AfterStore().(uploaders := map[1 := Choosing(1, 1, 1, Some(STORED), -STALE_MS)],
                  status := Completing, finishers := map[0 := Gathering(true)])
  }

  lemma ReadsThenClaims()
    ensures Take(Take(AfterStore(), ReadPartStep(1, 0)), ClaimCompletionStep(0)) == BeforeGather()
  {
    hide PartCount;
    var s1 := Take(AfterStore(), ReadPartStep(1, 0));
    assert s1 == AfterStore().(uploaders := map[1 := Choosing(1, 1, 1, Some(STORED), -STALE_MS)]);
  }

  lemma GathersThenClaims()
    ensures Take(Take(BeforeGather(), FinishStep(0)), ClaimPartStep(1, 0)) == AfterGather()
  {
    var s := BeforeGather();
    assert PartCount(1) == 1;
    hide PartCount;
    assert UploadedParts(s) == map[1 := STORED];
    assert Take(s, FinishStep(0)) == s.(finishers := map[0 := Assembling(true, map[1 := STORED])]);
  }

  lemma ThenGathers()
    ensures Run(AfterStore(), GathersBeside()) == AfterGather()
  {
    var s0, steps := AfterStore(), GathersBeside();
    RunFour(s0, steps[0], steps[1], steps[2], steps[3]);
    assert steps == [steps[0], steps[1], steps[2], steps[3]];
    hide Run;
    hide Take;
    ReadsThenClaims();
    GathersThenClaims();
  }

  lemma AssemblesWhole()
    ensures Take(AfterGather(), AssembleStep(0, true, true)) ==
              AfterGather().(finishers := map[0 := Verifying(true, map[1 := STORED], Some(1))],
                             storage := Storage(false, map[1 := 0], Some(1)))
  {
    var s0, parts := AfterGather(), map[1 := STORED];
    assert AssembledSize(s0.sizeOf, parts, 1) == AssembledSize(s0.sizeOf, parts, 0) + 1;
    assert PartCount(1) == 1;
    hide AssembledSize, PartCount;
  }

  lemma VerifiesThenPersists(s: System)
    requires s.finishers == map[0 := Verifying(true, map[1 := STORED], Some(1))]
    requires s.declaredSize == 1 && s.status == Completing
    ensures var t := Take(Take(s, VerifyStep(0, true)), FinishStep(0));
            t.status == Validating && t.uploaders == s.uploaders && t.parts == s.parts
  {
    assert Take(s, VerifyStep(0, true)) == s.(finishers := map[0 := Persisting(map[1 := STORED], 1)]);
  }

  lemma AbandonLeaves(s: System)
    requires s.uploaders == map[1 := Claimed(1, 1, Some(STORED), 1)]
    ensures Take(s, AbandonUpload(1)) == s.(uploaders := map[])
  {
  }

  lemma ThenCompletes()
    ensures var t := Run(AfterGather(), Completes());
            t.status == Validating && t.uploaders == map[] && t.parts == map[1 := RECLAIMED]
  {
    var s0, steps := AfterGather(), Completes();
    RunFour(s0, steps[0], steps[1], steps[2], steps[3]);
    assert steps == [steps[0], steps[1], steps[2], steps[3]];
    hide Run, Take;
    AssemblesWhole();
    var s1 := Take(s0, steps[0]);
    VerifiesThenPersists(s1);
    AbandonLeaves(Take(Take(s1, steps[1]), steps[2]));
  }

  /**
   With no reset: a claim made between the gathering and the end leaves a recording validating with
   its only part still marked as uploading and nobody uploading it.
   */
  lemma ValidatesBesideAClaim()
    ensures var t := Run(Created(1), Claims() + Stores() + GathersBeside() + Completes());
            && t.status == Validating && t.uploaders == map[]
            && 1 in t.parts && t.parts[1].status.PartUploading?
  {
    ClaimsFirst();
    ThenStores();
    ThenGathers();
    ThenCompletes();
    RunAppends(Created(1), Claims() + Stores() + GathersBeside(), Completes());
    RunAppends(Created(1), Claims() + Stores(), GathersBeside());
    RunAppends(Created(1), Claims(), Stores());
    hide Run;
  }
}
