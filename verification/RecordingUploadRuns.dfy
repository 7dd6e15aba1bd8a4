/** What holds in every state that any interleaving of callers can reach. */
module RecordingUploadRuns {
  import opened Wrappers
  import opened RecordingUpload
  import opened RecordingUploadSafety

  lemma CreatedInv(declaredSize: nat)
    requires declaredSize > 0
    ensures Inv(Created(declaredSize)) && ClaimsApart(Created(declaredSize))
  {
  }

  lemma {:induction false} RunKeeps(s: System, steps: seq<Step>)
    requires Inv(s) && ClaimsApart(s)
    ensures Inv(Run(s, steps)) && ClaimsApart(Run(s, steps))
    decreases steps
  {
    hide Inv, Take, ClaimsApart;
    if steps != [] {
      TakeKeeps(s, steps[0]);
      TakeKeepsClaimsApart(s, steps[0]);
      RunKeeps(Take(s, steps[0]), steps[1..]);
    }
  }

  // ----- claims belong to one caller -----

  /** No two callers hold the same claim. */
  ghost predicate ClaimsApart(s: System) {
    forall p, q :: p in s.uploaders && q in s.uploaders && p != q && ClaimOf(s.uploaders[p]).Some? ==>
      ClaimOf(s.uploaders[p]) != ClaimOf(s.uploaders[q])
  }

  /** A caller's claim after a step is the one it had, or a fresh one only it has. */
  ghost predicate ClaimsCarryOver(s: System, t: System, mover: nat) {
    forall p :: p in t.uploaders && ClaimOf(t.uploaders[p]).Some? ==>
      || (p in s.uploaders && ClaimOf(s.uploaders[p]) == ClaimOf(t.uploaders[p]))
      || (p == mover && ClaimOf(t.uploaders[p]) == Some(s.nextClaim))
  }

  lemma CarriedClaimsStayApart(s: System, t: System, mover: nat)
    requires ClaimsApart(s) && UploadersOk(s) && ClaimsCarryOver(s, t, mover)
    ensures ClaimsApart(t)
  {
    forall p, q | p in t.uploaders && q in t.uploaders && p != q && ClaimOf(t.uploaders[p]).Some?
      ensures ClaimOf(t.uploaders[p]) != ClaimOf(t.uploaders[q])
    {
      assert p in s.uploaders ==> UploaderOk(s, s.uploaders[p]);
      assert q in s.uploaders ==> UploaderOk(s, s.uploaders[q]);
    }
  }

  lemma UploaderStepCarriesClaims(s: System, pid: nat)
    requires pid in s.uploaders
    ensures ClaimsCarryOver(s, UploaderStep(s, pid, s.uploaders[pid]), pid)
  {
    UploaderStepKeepsOthers(s, pid);
    hide UploaderStep;
  }

  lemma UploaderStepKeepsOthers(s: System, pid: nat)
    requires pid in s.uploaders
    ensures var t := UploaderStep(s, pid, s.uploaders[pid]);
            && (forall p :: p in t.uploaders && p != pid ==> p in s.uploaders && t.uploaders[p] == s.uploaders[p])
            && (pid in t.uploaders ==> ClaimOf(t.uploaders[pid]) == ClaimOf(s.uploaders[pid]))
  {
    hide HasClaim;
  }

  lemma ClockedStepCarriesClaims(s: System, pid: nat, now: int, ok: bool)
    requires pid in s.uploaders
    ensures var u := s.uploaders[pid];
            && (u.Reading? ==> ClaimsCarryOver(s, ReadPart(s, pid, u, now), pid))
            && (u.Choosing? ==> ClaimsCarryOver(s, ClaimPart(s, pid, u, now), pid))
            && (u.Storing? ==> ClaimsCarryOver(s, StorePart(s, pid, u, ok), pid))
  {
    hide ClaimAllowed;
  }

  lemma FinishersLeaveUploaders(s: System, pid: nat, f: Finisher)
    ensures FinisherStep(s, pid, f).uploaders == s.uploaders
  {
  }

  lemma AssemblingLeavesUploaders(s: System)
    ensures forall pid, f: Finisher, effect, answered :: f.Assembling? ==>
              Assemble(s, pid, f, effect, answered).uploaders == s.uploaders
    ensures forall pid, f: Finisher, answers :: f.Verifying? ==> Verify(s, pid, f, answers).uploaders == s.uploaders
  {
  }

  lemma TakeKeepsClaimsApart(s: System, step: Step)
    requires Inv(s) && ClaimsApart(s)
    ensures ClaimsApart(Take(s, step))
  {
    hide ClaimsApart, UploadersOk, RowsOk, FinishersOk, GlobalOk, SomePartUploading, Assembles, EveryPart,
      UploadedParts, UploaderStep, FinisherStep, AssembledSize, ReadPart, ClaimPart, StorePart, Assemble, Verify;
    var t := Take(s, step);
    AssemblingLeavesUploaders(s);
    match step
    case UploadStep(pid) =>
      if pid in s.uploaders { UploaderStepCarriesClaims(s, pid); }
      CarriedClaimsStayApart(s, t, pid);
    case ReadPartStep(pid, now) =>
      if pid in s.uploaders { ClockedStepCarriesClaims(s, pid, now, true); }
      CarriedClaimsStayApart(s, t, pid);
    case ClaimPartStep(pid, now) =>
      if pid in s.uploaders { ClockedStepCarriesClaims(s, pid, now, true); }
      CarriedClaimsStayApart(s, t, pid);
    case StorePartStep(pid, ok) =>
      if pid in s.uploaders { ClockedStepCarriesClaims(s, pid, 0, ok); }
      CarriedClaimsStayApart(s, t, pid);
    case FinishStep(pid) =>
      if pid in s.finishers { FinishersLeaveUploaders(s, pid, s.finishers[pid]); }
      CarriedClaimsStayApart(s, t, pid);
    case _ => CarriedClaimsStayApart(s, t, 0);
  }

  /** At most one caller that passed the parent recheck owns a part. */
  lemma OneOwnerPerPart(declaredSize: nat, steps: seq<Step>, p: nat, q: nat)
    requires declaredSize > 0
    ensures var s := Run(Created(declaredSize), steps);
            p in s.uploaders && q in s.uploaders && Owns(s, s.uploaders[p]) && Owns(s, s.uploaders[q])
              && s.uploaders[p].part == s.uploaders[q].part
            ==> p == q
  {
    CreatedInv(declaredSize);
    RunKeeps(Created(declaredSize), steps);
  }

  // ----- no upload beside a completion -----

  /** While a recording completes or validates, no caller past the parent recheck owns its part. */
  lemma NoUploaderBesideCompletion(declaredSize: nat, steps: seq<Step>, pid: nat)
    requires declaredSize > 0
    ensures var s := Run(Created(declaredSize), steps);
            pid in s.uploaders && Owns(s, s.uploaders[pid]) ==> s.status != Completing && s.status != Validating
  {
    CreatedInv(declaredSize);
    RunKeeps(Created(declaredSize), steps);
    var s := Run(Created(declaredSize), steps);
    if pid in s.uploaders {
      assert UploaderOk(s, s.uploaders[pid]);
    }
  }

  // ----- validating is entered once, with the whole object -----

  predicate Settled(status: Status) {
    status == Validating || status == Deleting || status == Removed
  }

  /** Statuses only move forward once validation began, and a removal is final. */
  predicate MovesOn(from: Status, to: Status) {
    && (Settled(from) ==> Settled(to))
    && (from == Deleting ==> to == Deleting || to == Removed)
    && (from == Removed ==> to == Removed)
    && (to == Validating ==> from == Completing || from == Validating)
  }

  lemma UploadersLeaveTheStatus(s: System, pid: nat, u: Uploader)
    ensures UploaderStep(s, pid, u).status == s.status
  {
  }

  lemma FinishersMoveOn(s: System, pid: nat, f: Finisher)
    ensures MovesOn(s.status, FinisherStep(s, pid, f).status)
  {
  }

  lemma TakeMovesOn(s: System, step: Step)
    ensures MovesOn(s.status, Take(s, step).status)
  {
    hide UploaderStep, FinisherStep, SomePartUploading, ClaimAllowed, Assembles, AssembledSize;
    match step
    case UploadStep(pid) => if pid in s.uploaders { UploadersLeaveTheStatus(s, pid, s.uploaders[pid]); }
    case FinishStep(pid) => if pid in s.finishers { FinishersMoveOn(s, pid, s.finishers[pid]); }
    case _ =>
  }

  /** A recording that left the upload behind never returns to it, whatever runs afterwards. */
  lemma {:induction false} SettledForever(s: System, steps: seq<Step>)
    ensures Settled(s.status) ==> Settled(Run(s, steps).status)
    ensures Dead(s.status) ==> Dead(Run(s, steps).status)
    decreases steps
  {
    hide Take;
    if steps != [] {
      TakeMovesOn(s, steps[0]);
      SettledForever(Take(s, steps[0]), steps[1..]);
    }
  }

  /** Validation begins at most once, and only for a stored object of the declared size. */
  lemma ValidatingOnce(declaredSize: nat, steps: seq<Step>)
    requires declaredSize > 0
    ensures var s := Run(Created(declaredSize), steps);
            && s.timesValidating <= 1
            && (s.status == Validating ==>
                 s.timesValidating == 1
                 && s.actualSize == Some(s.declaredSize) && s.storage.media == Some(s.declaredSize))
  {
    CreatedInv(declaredSize);
    RunKeeps(Created(declaredSize), steps);
  }

  /**
   The step that enters validating is a finisher persisting a snapshot of uploaded parts
   numbered exactly 1..n, each of its expected size.
   */
  lemma EnteringValidating(declaredSize: nat, steps: seq<Step>, step: Step)
    requires declaredSize > 0
    ensures var s := Run(Created(declaredSize), steps);
            var t := Take(s, step);
            s.status != Validating && t.status == Validating ==>
              && step.FinishStep? && step.pid in s.finishers && s.finishers[step.pid].Persisting?
              && (var parts := s.finishers[step.pid].parts;
                  && (forall n :: n in parts <==> 1 <= n <= PartCount(s.declaredSize))
                  && (forall n :: n in parts ==>
                       parts[n].status.PartUploaded?
                       && ExpectedPartSize(s.declaredSize, n) == Some(parts[n].byteCount)))
              && s.timesValidating == 0 && t.timesValidating == 1
              && t.actualSize == Some(s.declaredSize) && t.storage.media == Some(s.declaredSize)
  {
    CreatedInv(declaredSize);
    RunKeeps(Created(declaredSize), steps);
    var s := Run(Created(declaredSize), steps);
    var t := Take(s, step);
    if s.status != Validating && t.status == Validating {
      EntersByPersisting(s, step);
      assert FinisherOk(s, s.finishers[step.pid]);
    }
  }

  lemma EntersByPersisting(s: System, step: Step)
    requires s.status != Validating && Take(s, step).status == Validating
    ensures step.FinishStep? && step.pid in s.finishers && s.finishers[step.pid].Persisting?
    ensures s.status == Completing && Take(s, step).timesValidating == s.timesValidating + 1
    ensures Take(s, step).actualSize == Some(s.finishers[step.pid].size) && Take(s, step).storage == s.storage
  {
    hide UploaderStep, SomePartUploading, ClaimAllowed, Assembles, AssembledSize, EveryPart, UploadedParts;
    match step
    case UploadStep(pid) => if pid in s.uploaders { UploadersLeaveTheStatus(s, pid, s.uploaders[pid]); }
    case _ =>
  }

  /** A part's row becomes uploaded only in the hands of the caller whose claim is on it. */
  lemma UploadedByItsOwner(s: System, step: Step, n: nat)
    requires n in Take(s, step).parts && Take(s, step).parts[n].status.PartUploaded?
    requires n !in s.parts || s.parts[n] != Take(s, step).parts[n]
    ensures step.UploadStep? && step.pid in s.uploaders
    ensures var u := s.uploaders[step.pid];
            && (u.Stored? || u.Releasing?) && u.part == n && HasClaim(s, n, u.claim)
            && (u.Stored? ==> Take(s, step).parts[n] == Part(PartUploaded, None, None, None, Some(u.etag), u.bytes))
            && (u.Releasing? ==> u.previous.Some? && Take(s, step).parts[n].etag == u.previous.value.etag)
  {
    hide UploaderStep, FinisherStep, SomePartUploading, ClaimAllowed, Assembles, AssembledSize;
    match step
    case UploadStep(pid) => if pid in s.uploaders { UploaderWritesItsPart(s, pid, s.uploaders[pid], n); }
    case FinishStep(pid) => if pid in s.finishers { FinishersLeaveParts(s, pid, s.finishers[pid]); }
    case _ =>
  }

  lemma UploaderWritesItsPart(s: System, pid: nat, u: Uploader, n: nat)
    ensures var t := UploaderStep(s, pid, u);
            n in t.parts && t.parts[n].status.PartUploaded? && (n !in s.parts || s.parts[n] != t.parts[n]) ==>
              && (u.Stored? || u.Releasing?) && u.part == n && HasClaim(s, n, u.claim)
              && (u.Stored? ==> t.parts[n] == Part(PartUploaded, None, None, None, Some(u.etag), u.bytes))
              && (u.Releasing? ==> u.previous.Some? && t.parts[n].etag == u.previous.value.etag)
  {
  }

  lemma FinishersLeaveParts(s: System, pid: nat, f: Finisher)
    ensures FinisherStep(s, pid, f).parts == s.parts && FinisherStep(s, pid, f).nextClaim == s.nextClaim
  {
  }

  // ----- taking over a claim -----

  /** A claim on a row is replaced only by one that saw it stale, made for the same transfer request. */
  lemma TakeoverOnlyWhenStale(s: System, step: Step, n: nat)
    requires n in s.parts && s.parts[n].claim.Some? && RowsOk(s)
    requires n in Take(s, step).parts && Take(s, step).parts[n].claim.Some?
    requires Take(s, step).parts[n].claim != s.parts[n].claim
    ensures step.ClaimPartStep? && step.pid in s.uploaders && s.uploaders[step.pid].Choosing?
    ensures var u := s.uploaders[step.pid];
            && u.part == n && IsStale(s.parts[n], u.cutoff)
            && u.previous.Some? && u.previous.value.claim == s.parts[n].claim
  {
    assert RowOk(s, n, s.parts[n]);
    hide RowsOk, PartSized, UploaderStep, FinisherStep, SomePartUploading, Assembles, AssembledSize;
    match step
    case UploadStep(pid) => if pid in s.uploaders { UploaderLeavesClaims(s, pid, s.uploaders[pid], n); }
    case FinishStep(pid) => if pid in s.finishers { FinishersLeaveParts(s, pid, s.finishers[pid]); }
    case _ =>
  }

  lemma UploaderLeavesClaims(s: System, pid: nat, u: Uploader, n: nat)
    requires n in UploaderStep(s, pid, u).parts && UploaderStep(s, pid, u).parts[n].claim.Some?
    ensures n in s.parts && UploaderStep(s, pid, u).parts[n].claim == s.parts[n].claim
  {
  }

  /**
   A caller that chose to take over a claim read it stale and from its own transfer request, and as
   long as that claim is on the row the row is still what it read.
   */
  predicate ResumesOwn(s: System, u: Uploader) {
    u.Choosing? && u.previous.Some? && u.previous.value.claim.Some? ==>
      && u.previous.value.claim.value < s.nextClaim
      && u.previous.value.claimRequest == Some(u.request)
      && (HasClaim(s, u.part, u.previous.value.claim.value) ==> s.parts[u.part] == u.previous.value)
  }

  ghost predicate ResumptionsOk(s: System) {
    forall pid :: pid in s.uploaders ==> ResumesOwn(s, s.uploaders[pid])
  }

  /** A row that keeps its claim keeps everything else; a new claim is a fresh one. */
  ghost predicate ClaimsNameRows(s: System, t: System) {
    && s.nextClaim <= t.nextClaim
    && forall n :: n in t.parts && t.parts[n].claim.Some? ==>
         t.parts[n].claim.value >= s.nextClaim || (n in s.parts && s.parts[n] == t.parts[n])
  }

  lemma ResumptionStable(s: System, t: System, u: Uploader)
    requires ResumesOwn(s, u) && ClaimsNameRows(s, t)
    ensures ResumesOwn(t, u)
  {
  }

  lemma UploaderStepNamesRows(s: System, pid: nat, u: Uploader)
    ensures ClaimsNameRows(s, UploaderStep(s, pid, u))
  {
  }

  lemma StepNamesRows(s: System, step: Step)
    ensures ClaimsNameRows(s, Take(s, step))
  {
    hide UploaderStep, FinisherStep, SomePartUploading, Assembles, AssembledSize, ClaimAllowed;
    match step
    case UploadStep(pid) => if pid in s.uploaders { UploaderStepNamesRows(s, pid, s.uploaders[pid]); }
    case FinishStep(pid) => if pid in s.finishers { FinishersLeaveParts(s, pid, s.finishers[pid]); }
    case _ =>
  }

  /** Only reading a part makes a caller choose to claim it. */
  lemma ChoosingComesFromReading(s: System, step: Step, pid: nat)
    requires pid in Take(s, step).uploaders && Take(s, step).uploaders[pid].Choosing?
    requires pid !in s.uploaders || s.uploaders[pid] != Take(s, step).uploaders[pid]
    ensures step.ReadPartStep? && step.pid == pid && pid in s.uploaders && s.uploaders[pid].Reading?
  {
    hide UploaderStep, FinisherStep, SomePartUploading, Assembles, AssembledSize, ClaimAllowed;
    match step
    case UploadStep(p) => if p in s.uploaders { UploaderStepChoosesNothing(s, p, s.uploaders[p], pid); }
    case FinishStep(p) => if p in s.finishers { FinishersLeaveUploaders(s, p, s.finishers[p]); }
    case _ =>
  }

  lemma UploaderStepChoosesNothing(s: System, pid: nat, u: Uploader, p: nat)
    requires pid in s.uploaders && s.uploaders[pid] == u
    requires p in UploaderStep(s, pid, u).uploaders && UploaderStep(s, pid, u).uploaders[p].Choosing?
    ensures p in s.uploaders && UploaderStep(s, pid, u).uploaders[p] == s.uploaders[p]
  {
  }

  lemma ReadingResumesOwn(s: System, pid: nat, now: int)
    requires RowsOk(s) && pid in s.uploaders && s.uploaders[pid].Reading?
    ensures var t := ReadPart(s, pid, s.uploaders[pid], now);
            pid in t.uploaders ==> ResumesOwn(t, t.uploaders[pid])
  {
    var u := s.uploaders[pid];
    assert u.part in s.parts ==> RowOk(s, u.part, s.parts[u.part]);
    hide PartSized;
  }

  lemma StepKeepsResumptions(s: System, step: Step)
    requires Inv(s) && ResumptionsOk(s)
    ensures ResumptionsOk(Take(s, step))
  {
    hide ResumesOwn, RowsOk, UploadersOk, FinishersOk, GlobalOk, ClaimsNameRows, Take;
    var t := Take(s, step);
    StepNamesRows(s, step);
    forall pid | pid in t.uploaders ensures ResumesOwn(t, t.uploaders[pid]) {
      if pid in s.uploaders && s.uploaders[pid] == t.uploaders[pid] {
        ResumptionStable(s, t, s.uploaders[pid]);
      } else if t.uploaders[pid].Choosing? {
        ChoosingComesFromReading(s, step, pid);
        ReadStepIsRead(s, step);
        ReadingResumesOwn(s, pid, step.now);
      } else {
        OthersResumeNothing(t, t.uploaders[pid]);
      }
    }
  }

  lemma ReadStepIsRead(s: System, step: Step)
    requires step.ReadPartStep? && step.pid in s.uploaders && s.uploaders[step.pid].Reading?
    ensures Take(s, step) == ReadPart(s, step.pid, s.uploaders[step.pid], step.now)
  {
  }

  lemma OthersResumeNothing(s: System, u: Uploader)
    requires !u.Choosing?
    ensures ResumesOwn(s, u)
  {
  }

  lemma {:induction false} RunKeepsResumptions(s: System, steps: seq<Step>)
    requires Inv(s) && ResumptionsOk(s)
    ensures ResumptionsOk(Run(s, steps))
    decreases steps
  {
    hide Inv, Take, ResumptionsOk;
    if steps != [] {
      TakeKeeps(s, steps[0]);
      StepKeepsResumptions(s, steps[0]);
      RunKeepsResumptions(Take(s, steps[0]), steps[1..]);
    }
  }

  /**
   In every run a claim is taken over only when it is stale, and only by the same transfer request:
   another client's upload of the part is never interrupted.
   */
  lemma TakeoversAreResumptions(declaredSize: nat, steps: seq<Step>, step: Step, n: nat)
    requires declaredSize > 0
    ensures var s := Run(Created(declaredSize), steps);
            var t := Take(s, step);
            n in s.parts && s.parts[n].claim.Some? && n in t.parts && t.parts[n].claim.Some?
              && t.parts[n].claim != s.parts[n].claim
            ==>
              && step.ClaimPartStep? && step.pid in s.uploaders && s.uploaders[step.pid].Choosing?
              && s.parts[n].claimRequest == Some(s.uploaders[step.pid].request) == t.parts[n].claimRequest
              && IsStale(s.parts[n], s.uploaders[step.pid].cutoff)
  {
    CreatedInv(declaredSize);
    RunKeeps(Created(declaredSize), steps);
    RunKeepsResumptions(Created(declaredSize), steps);
    var s := Run(Created(declaredSize), steps);
    var t := Take(s, step);
    hide Inv, ResumptionsOk, Take, Run, IsStale;
    if n in s.parts && s.parts[n].claim.Some? && n in t.parts && t.parts[n].claim.Some?
       && t.parts[n].claim != s.parts[n].claim {
      TakeoverIsResumption(s, step, n);
    }
  }

  lemma TakeoverIsResumption(s: System, step: Step, n: nat)
    requires Inv(s) && ResumptionsOk(s)
    requires n in s.parts && s.parts[n].claim.Some?
    requires n in Take(s, step).parts && Take(s, step).parts[n].claim.Some?
    requires Take(s, step).parts[n].claim != s.parts[n].claim
    ensures step.ClaimPartStep? && step.pid in s.uploaders && s.uploaders[step.pid].Choosing?
    ensures s.parts[n].claimRequest == Some(s.uploaders[step.pid].request) == Take(s, step).parts[n].claimRequest
    ensures IsStale(s.parts[n], s.uploaders[step.pid].cutoff)
  {
    TakeoverOnlyWhenStale(s, step, n);
    assert ResumesOwn(s, s.uploaders[step.pid]);
    hide Inv, ResumptionsOk;
  }
}
