/** What every interleaving of uploads, completions, recovery and deletion keeps. */
module RecordingUploadSafety {
  import opened Wrappers
  import opened RecordingUpload

  // ----- claims -----

  function ClaimOf(u: Uploader): Option<nat> {
    match u
    case Reading(_, _, _) => None
    case Choosing(_, _, _, _, _) => None
    case Claimed(_, _, _, claim) => Some(claim)
    case Storing(_, _, _, claim) => Some(claim)
    case Stored(_, _, claim, _) => Some(claim)
    case Touching(_, claim) => Some(claim)
    case Releasing(_, _, claim) => Some(claim)
    case Recovering(_, claim) => Some(claim)
  }

  predicate PastRecheck(u: Uploader) {
    u.Storing? || u.Stored?
  }

  /** The uploader passed the parent recheck and its claim is still on the part's row. */
  predicate Owns(s: System, u: Uploader) {
    PastRecheck(u) && HasClaim(s, u.part, u.claim)
  }

  predicate Closing(status: Status) {
    status == Completing || status == Validating
  }

  predicate Dead(status: Status) {
    status == Deleting || status == Removed
  }

  // ----- the invariant, element by element -----

  /** An uploaded part's etag names bytes of the part's expected size. */
  ghost predicate PartSized(s: System, n: nat, p: Part) {
    p.status.PartUploaded? ==>
      && ExpectedPartSize(s.declaredSize, n) == Some(p.byteCount)
      && p.etag.Some? && p.etag.value in s.sizeOf && s.sizeOf[p.etag.value] == p.byteCount
  }

  ghost predicate RowOk(s: System, n: nat, p: Part) {
    && (p.claim.Some? <==> p.status.PartUploading?)
    && (p.claim.Some? ==> p.claim.value < s.nextClaim)
    && PartSized(s, n, p)
  }

  ghost predicate PreviousOk(s: System, u: Uploader) {
    match u
    case Choosing(part, _, _, previous, _) => previous.Some? ==> PartSized(s, part, previous.value)
    case Claimed(part, _, previous, _) => previous.Some? ==> PartSized(s, part, previous.value)
    case Storing(part, _, previous, _) => previous.Some? ==> PartSized(s, part, previous.value)
    case Releasing(part, previous, _) => previous.Some? ==> PartSized(s, part, previous.value)
    case _ => true
  }

  ghost predicate BytesOk(s: System, u: Uploader) {
    match u
    case Reading(part, _, bytes) => ExpectedPartSize(s.declaredSize, part) == Some(bytes)
    case Choosing(part, _, bytes, _, _) => ExpectedPartSize(s.declaredSize, part) == Some(bytes)
    case Claimed(part, bytes, _, _) => ExpectedPartSize(s.declaredSize, part) == Some(bytes)
    case Storing(part, bytes, _, _) => ExpectedPartSize(s.declaredSize, part) == Some(bytes)
    case Stored(part, bytes, _, etag) =>
      ExpectedPartSize(s.declaredSize, part) == Some(bytes) && etag in s.sizeOf && s.sizeOf[etag] == bytes
    case _ => true
  }

  ghost predicate UploaderOk(s: System, u: Uploader) {
    && (ClaimOf(u).Some? ==> ClaimOf(u).value < s.nextClaim)
    && PreviousOk(s, u)
    && BytesOk(s, u)
    && (Owns(s, u) ==> !Closing(s.status))
  }

  /** A snapshot of parts that was found complete. */
  ghost predicate SnapshotOk(s: System, parts: map<nat, Part>) {
    && EveryPart(s.declaredSize, parts)
    && forall n :: n in parts ==> parts[n].status.PartUploaded? && PartSized(s, n, parts[n])
  }

  ghost predicate FinisherOk(s: System, f: Finisher) {
    match f
    case Gathering(_) => true
    case Assembling(_, parts) => SnapshotOk(s, parts)
    case Verifying(_, parts, completed) =>
      SnapshotOk(s, parts)
      && (completed.Some? ==>
           completed == Some(s.declaredSize) && (Dead(s.status) || s.storage.media == completed))
    case Persisting(parts, size) =>
      SnapshotOk(s, parts)
      && size == s.declaredSize && (Dead(s.status) || s.storage.media == Some(size))
    case Resetting => true
  }

  ghost predicate GlobalOk(s: System) {
    && s.declaredSize > 0
    && (forall e :: e in s.sizeOf ==> e < s.nextEtag)
    && (s.storage.media.Some? ==> s.storage.media == Some(s.declaredSize))
    && (s.status == Validating ==> s.actualSize == Some(s.declaredSize) && s.storage.media == Some(s.declaredSize))
    && (s.status == Uploading || s.status == Completing ==> s.timesValidating == 0)
    && (s.status == Validating ==> s.timesValidating == 1)
    && s.timesValidating <= 1
  }

  ghost predicate RowsOk(s: System) {
    forall n :: n in s.parts ==> RowOk(s, n, s.parts[n])
  }

  ghost predicate UploadersOk(s: System) {
    forall pid :: pid in s.uploaders ==> UploaderOk(s, s.uploaders[pid])
  }

  ghost predicate FinishersOk(s: System) {
    forall pid :: pid in s.finishers ==> FinisherOk(s, s.finishers[pid])
  }

  ghost predicate Inv(s: System) {
    RowsOk(s) && UploadersOk(s) && FinishersOk(s) && GlobalOk(s)
  }

  // ----- what a step may do without disturbing anyone else -----

  ghost predicate Grows(s: System, t: System) {
    && t.declaredSize == s.declaredSize
    && s.nextClaim <= t.nextClaim
    && forall e :: e in s.sizeOf ==> e in t.sizeOf && t.sizeOf[e] == s.sizeOf[e]
  }

  /** Claims on rows are old ones where they were, or fresh. */
  ghost predicate NoClaimMoves(s: System, t: System) {
    forall n :: n in t.parts && t.parts[n].claim.Some? ==>
      t.parts[n].claim.value >= s.nextClaim || (n in s.parts && s.parts[n].claim == t.parts[n].claim)
  }

  ghost predicate MediaStays(s: System, t: System) {
    Dead(t.status) || (!Dead(s.status) && (s.storage.media.Some? ==> t.storage.media == s.storage.media))
  }

  lemma RowStable(s: System, t: System, n: nat, p: Part)
    requires Grows(s, t) && RowOk(s, n, p)
    ensures RowOk(t, n, p)
  {
  }

  lemma SnapshotStable(s: System, t: System, parts: map<nat, Part>)
    requires Grows(s, t) && SnapshotOk(s, parts)
    ensures SnapshotOk(t, parts)
  {
  }

  lemma UploaderStable(s: System, t: System, u: Uploader)
    requires Grows(s, t) && NoClaimMoves(s, t) && UploaderOk(s, u)
    requires Closing(t.status) ==> Closing(s.status) || !SomePartUploading(t)
    requires RowsOk(t)
    ensures UploaderOk(t, u)
  {
  }

  lemma FinisherStable(s: System, t: System, f: Finisher)
    requires Grows(s, t) && MediaStays(s, t) && FinisherOk(s, f)
    ensures FinisherOk(t, f)
  {
    if f.Assembling? || f.Verifying? || f.Persisting? {
      SnapshotStable(s, t, f.parts);
    }
  }

  /** The invariant survives a step that keeps to the rules, given what it changed is fine. */
  lemma Preserved(s: System, t: System)
    requires Inv(s) && Grows(s, t) && NoClaimMoves(s, t) && MediaStays(s, t) && GlobalOk(t)
    requires Closing(t.status) ==> Closing(s.status) || !SomePartUploading(t)
    requires forall n :: n in t.parts ==> RowOk(t, n, t.parts[n]) || (n in s.parts && s.parts[n] == t.parts[n])
    requires forall pid :: pid in t.uploaders ==>
               UploaderOk(t, t.uploaders[pid]) || (pid in s.uploaders && s.uploaders[pid] == t.uploaders[pid])
    requires forall pid :: pid in t.finishers ==>
               FinisherOk(t, t.finishers[pid]) || (pid in s.finishers && s.finishers[pid] == t.finishers[pid])
    ensures Inv(t)
  {
    hide RowOk, UploaderOk, FinisherOk, Grows, NoClaimMoves, MediaStays, GlobalOk, SomePartUploading;
    forall n | n in t.parts ensures RowOk(t, n, t.parts[n]) {
      if !RowOk(t, n, t.parts[n]) {
        RowStable(s, t, n, t.parts[n]);
      }
    }
    forall pid | pid in t.uploaders ensures UploaderOk(t, t.uploaders[pid]) {
      if !UploaderOk(t, t.uploaders[pid]) {
        UploaderStable(s, t, t.uploaders[pid]);
      }
    }
    forall pid | pid in t.finishers ensures FinisherOk(t, t.finishers[pid]) {
      if !FinisherOk(t, t.finishers[pid]) {
        FinisherStable(s, t, t.finishers[pid]);
      }
    }
  }

  // ----- every step keeps the invariant -----

  lemma BeginUploadKeeps(s: System, pid: nat, part: nat, bytes: int, request: nat)
    requires Inv(s)
    ensures Inv(BeginUpload(s, pid, part, bytes, request))
  {
    Preserved(s, BeginUpload(s, pid, part, bytes, request));
  }

  lemma ReadPartKeeps(s: System, pid: nat, now: int)
    requires Inv(s) && pid in s.uploaders && s.uploaders[pid].Reading?
    ensures Inv(ReadPart(s, pid, s.uploaders[pid], now))
  {
    assert UploaderOk(s, s.uploaders[pid]);
    Preserved(s, ReadPart(s, pid, s.uploaders[pid], now));
  }

  lemma ClaimPartKeeps(s: System, pid: nat, now: int)
    requires Inv(s) && pid in s.uploaders && s.uploaders[pid].Choosing?
    ensures Inv(ClaimPart(s, pid, s.uploaders[pid], now))
  {
    var u := s.uploaders[pid];
    var t := ClaimPart(s, pid, u, now);
    assert UploaderOk(s, u);
    if ClaimAllowed(s, u) {
      assert RowOk(t, u.part, t.parts[u.part]);
      assert t.parts[u.part].claim == Some(s.nextClaim);
    }
    Preserved(s, t);
  }

  lemma StorePartKeeps(s: System, pid: nat, ok: bool)
    requires Inv(s) && pid in s.uploaders && s.uploaders[pid].Storing?
    ensures Inv(StorePart(s, pid, s.uploaders[pid], ok))
  {
    var u := s.uploaders[pid];
    var t := StorePart(s, pid, u, ok);
    assert UploaderOk(s, u);
    if ok && s.storage.open {
      assert s.nextEtag !in s.sizeOf;
      assert UploaderOk(t, t.uploaders[pid]);
    }
    Preserved(s, t);
  }

  lemma FinalizePartKeeps(s: System, pid: nat)
    requires Inv(s) && pid in s.uploaders && s.uploaders[pid].Stored?
    ensures Inv(FinalizePart(s, pid, s.uploaders[pid]))
  {
    var u := s.uploaders[pid];
    assert UploaderOk(s, u);
    Preserved(s, FinalizePart(s, pid, u));
  }

  lemma ReleaseKeeps(s: System, pid: nat)
    requires Inv(s) && pid in s.uploaders && s.uploaders[pid].Releasing?
    ensures Inv(UploaderStep(s, pid, s.uploaders[pid]))
  {
    var u := s.uploaders[pid];
    var t := UploaderStep(s, pid, u);
    assert UploaderOk(s, u);
    if HasClaim(s, u.part, u.claim) && u.previous.Some? && u.previous.value.status.PartUploaded? {
      assert RowOk(t, u.part, t.parts[u.part]);
    }
    Preserved(s, t);
  }

  lemma RecoverKeeps(s: System, part: nat, claim: nat, stop: set<nat>)
    requires Inv(s)
    ensures Inv(Recovered(s, part, claim).(uploaders := s.uploaders - stop))
  {
    var t := Recovered(s, part, claim).(uploaders := s.uploaders - stop);
    hide RowsOk, UploadersOk, FinishersOk, UploaderOk, FinisherOk;
    assert HasClaim(s, part, claim) ==> RowOk(t, part, t.parts[part]);
    Preserved(s, t);
  }

  lemma RecheckKeeps(s: System, pid: nat)
    requires Inv(s) && pid in s.uploaders && s.uploaders[pid].Claimed?
    ensures Inv(Recheck(s, pid, s.uploaders[pid]))
  {
    assert UploaderOk(s, s.uploaders[pid]);
    Preserved(s, Recheck(s, pid, s.uploaders[pid]));
  }

  lemma TouchKeeps(s: System, pid: nat)
    requires Inv(s) && pid in s.uploaders && s.uploaders[pid].Touching?
    ensures Inv(TouchRecording(s, pid, s.uploaders[pid]))
  {
    assert UploaderOk(s, s.uploaders[pid]);
    Preserved(s, TouchRecording(s, pid, s.uploaders[pid]));
  }

  lemma UploaderMovesKeep(s: System, pid: nat)
    requires Inv(s) && pid in s.uploaders
    ensures Inv(UploaderStep(s, pid, s.uploaders[pid]))
  {
    hide Inv;
    match s.uploaders[pid]
    case Stored(_, _, _, _) => FinalizePartKeeps(s, pid);
    case Releasing(_, _, _) => ReleaseKeeps(s, pid);
    case Recovering(part, claim) => RecoverKeeps(s, part, claim, {pid});
    case Claimed(_, _, _, _) => RecheckKeeps(s, pid);
    case Touching(_, _) => TouchKeeps(s, pid);
    case _ =>
  }

  lemma ClaimCompletionKeeps(s: System, pid: nat)
    requires Inv(s)
    ensures Inv(ClaimCompletion(s, pid))
  {
    hide RowsOk, UploadersOk, FinishersOk, RowOk, UploaderOk;
    Preserved(s, ClaimCompletion(s, pid));
  }

  lemma JoinCompletionKeeps(s: System, pid: nat, mayReset: bool)
    requires Inv(s)
    ensures Inv(JoinCompletion(s, pid, mayReset))
  {
    hide RowsOk, UploadersOk, FinishersOk, RowOk, UploaderOk;
    Preserved(s, JoinCompletion(s, pid, mayReset));
  }

  lemma GatherKeeps(s: System, pid: nat)
    requires Inv(s) && pid in s.finishers && s.finishers[pid].Gathering?
    ensures Inv(Gather(s, pid, s.finishers[pid]))
  {
    var t := Gather(s, pid, s.finishers[pid]);
    var parts := UploadedParts(s);
    if EveryPart(s.declaredSize, parts) {
      forall n | n in parts ensures PartSized(t, n, parts[n]) {
        assert RowOk(s, n, s.parts[n]);
      }
      assert SnapshotOk(t, parts);
    }
    Preserved(s, t);
  }

  /** Whatever storage assembles from a complete snapshot has exactly the declared size. */
  lemma {:induction false} AssembledIsPrefixSum(s: System, parts: map<nat, Part>, n: nat)
    requires SnapshotOk(s, parts) && n <= PartCount(s.declaredSize)
    ensures AssembledSize(s.sizeOf, parts, n) == SumOfSizes(s.declaredSize, n)
  {
    if n > 0 {
      AssembledIsPrefixSum(s, parts, n - 1);
      assert n in parts && PartSized(s, n, parts[n]);
    }
  }

  lemma AssembleKeeps(s: System, pid: nat, takesEffect: bool, answered: bool)
    requires Inv(s) && pid in s.finishers && s.finishers[pid].Assembling?
    ensures Inv(Assemble(s, pid, s.finishers[pid], takesEffect, answered))
  {
    var f := s.finishers[pid];
    assert FinisherOk(s, f);
    AssembledIsPrefixSum(s, f.parts, PartCount(s.declaredSize));
    PartSizesTile(s.declaredSize);
    var t := Assemble(s, pid, f, takesEffect, answered);
    SnapshotStable(s, t, f.parts);
    Preserved(s, t);
  }

  lemma VerifyKeeps(s: System, pid: nat, headAnswers: bool)
    requires Inv(s) && pid in s.finishers && s.finishers[pid].Verifying?
    ensures Inv(Verify(s, pid, s.finishers[pid], headAnswers))
  {
    var f := s.finishers[pid];
    assert FinisherOk(s, f);
    var t := Verify(s, pid, f, headAnswers);
    SnapshotStable(s, t, f.parts);
    Preserved(s, t);
  }

  lemma PersistKeeps(s: System, pid: nat)
    requires Inv(s) && pid in s.finishers && s.finishers[pid].Persisting?
    ensures Inv(Persist(s, pid, s.finishers[pid]))
  {
    assert FinisherOk(s, s.finishers[pid]);
    Preserved(s, Persist(s, pid, s.finishers[pid]));
  }

  lemma FinisherMovesKeep(s: System, pid: nat)
    requires Inv(s) && pid in s.finishers
    ensures Inv(FinisherStep(s, pid, s.finishers[pid]))
  {
    match s.finishers[pid]
    case Gathering(_) => GatherKeeps(s, pid);
    case Persisting(_, _) => PersistKeeps(s, pid);
    case Resetting => Preserved(s, Reset(s, pid));
    case _ =>
  }

  lemma StartDeleteKeeps(s: System, from: Status)
    requires Inv(s)
    ensures Inv(StartDelete(s, from))
  {
    Preserved(s, StartDelete(s, from));
  }

  lemma EraseStorageKeeps(s: System)
    requires Inv(s)
    ensures Inv(EraseStorage(s))
  {
    Preserved(s, EraseStorage(s));
  }

  lemma RemoveRowsKeeps(s: System)
    requires Inv(s)
    ensures Inv(RemoveRows(s))
  {
    Preserved(s, RemoveRows(s));
  }

  lemma AbandonKeeps(s: System, pid: nat)
    requires Inv(s)
    ensures Inv(Stopped(s, pid)) && Inv(Ended(s, pid))
  {
    Preserved(s, Stopped(s, pid));
    Preserved(s, Ended(s, pid));
  }

  lemma TakeKeeps(s: System, step: Step)
    requires Inv(s)
    ensures Inv(Take(s, step))
  {
    hide Inv;
    match step
    case BeginUploadStep(pid, part, bytes, request) => BeginUploadKeeps(s, pid, part, bytes, request);
    case UploadStep(pid) => if pid in s.uploaders { UploaderMovesKeep(s, pid); }
    case ReadPartStep(pid, now) => if pid in s.uploaders && s.uploaders[pid].Reading? { ReadPartKeeps(s, pid, now); }
    case ClaimPartStep(pid, now) => if pid in s.uploaders && s.uploaders[pid].Choosing? { ClaimPartKeeps(s, pid, now); }
    case StorePartStep(pid, ok) => if pid in s.uploaders && s.uploaders[pid].Storing? { StorePartKeeps(s, pid, ok); }
    case AbandonUpload(pid) => AbandonKeeps(s, pid);
    case RecoverClaim(part, claim) =>
      RecoverKeeps(s, part, claim, {});
      assert Recovered(s, part, claim).(uploaders := s.uploaders - {}) == Recovered(s, part, claim);
    case ClaimCompletionStep(pid) => ClaimCompletionKeeps(s, pid);
    case JoinCompletionStep(pid, mayReset) => JoinCompletionKeeps(s, pid, mayReset);
    case FinishStep(pid) => if pid in s.finishers { FinisherMovesKeep(s, pid); }
    case AssembleStep(pid, takesEffect, answered) =>
      if pid in s.finishers && s.finishers[pid].Assembling? { AssembleKeeps(s, pid, takesEffect, answered); }
    case VerifyStep(pid, headAnswers) =>
      if pid in s.finishers && s.finishers[pid].Verifying? { VerifyKeeps(s, pid, headAnswers); }
    case AbandonFinish(pid) => AbandonKeeps(s, pid);
    case StartDeleteStep(from) => StartDeleteKeeps(s, from);
    case EraseStorageStep => EraseStorageKeeps(s);
    case RemoveRowsStep => RemoveRowsKeeps(s);
  }
}
