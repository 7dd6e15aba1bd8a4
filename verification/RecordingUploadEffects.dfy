/** What each upload, completion and deletion does when nothing else runs, and how a refused completion reopens the upload. */
module RecordingUploadEffects {
  import opened Wrappers
  import opened RecordingUpload
  import opened RecordingUploadSafety

  /** The system with one more upload, or with it at another point. */
  function Uploads(s: System, pid: nat, u: Uploader): System {
    s.(uploaders := s.uploaders[pid := u])
  }

  function Finishes(s: System, pid: nat, f: Finisher): System {
    s.(finishers := s.finishers[pid := f])
  }

  lemma UploadsAgain(s: System, pid: nat, u: Uploader, v: Uploader)
    requires pid !in s.uploaders
    ensures Uploads(Uploads(s, pid, u), pid, v) == Uploads(s, pid, v)
    ensures Uploads(s, pid, u).(uploaders := Uploads(s, pid, u).uploaders - {pid}) == s
  {
    assert s.uploaders[pid := u][pid := v] == s.uploaders[pid := v];
    assert s.uploaders[pid := u] - {pid} == s.uploaders;
  }

  lemma FinishesAgain(s: System, pid: nat, f: Finisher, g: Finisher)
    requires pid !in s.finishers
    ensures Finishes(Finishes(s, pid, f), pid, g) == Finishes(s, pid, g)
    ensures Finishes(s, pid, f).(finishers := Finishes(s, pid, f).finishers - {pid}) == s
  {
    assert s.finishers[pid := f][pid := g] == s.finishers[pid := g];
    assert s.finishers[pid := f] - {pid} == s.finishers;
  }

  // ----- uploading one part -----

  /** An upload begins exactly while the recording takes parts, with a part of the expected size. */
  lemma UploadBegins(s: System, pid: nat, part: nat, bytes: int, request: nat)
    requires pid !in s.uploaders
    ensures Take(s, BeginUploadStep(pid, part, bytes, request)) ==
              if s.status == Uploading && ExpectedPartSize(s.declaredSize, part) == Some(bytes)
              then Uploads(s, pid, Reading(part, request, bytes)) else s
  {
  }

  /** The part is being stored already: by another request, or by this one less than fifteen minutes ago. */
  predicate Busy(s: System, part: nat, request: nat, now: int) {
    part in s.parts && s.parts[part].status.PartUploading?
    && (s.parts[part].claimRequest != Some(request) || s.parts[part].claimedAt.None?
        || s.parts[part].claimedAt.value > now - 15 * 60 * 1000)
  }

  /** The row an upload claims. */
  function ClaimedRow(s: System, part: nat, bytes: int, request: nat, now: int): Part {
    if part in s.parts
    then s.parts[part].(status := PartUploading, claim := Some(s.nextClaim), claimRequest := Some(request), claimedAt := Some(now))
    else Part(PartUploading, Some(s.nextClaim), Some(request), Some(now), None, bytes)
  }

  function Claims(s: System, part: nat, bytes: int, request: nat, now: int): System {
    s.(parts := s.parts[part := ClaimedRow(s, part, bytes, request, now)], nextClaim := s.nextClaim + 1)
  }

  /** Reading and claiming turn a busy upload away, and otherwise put a fresh claim on the row. */
  lemma ClaimsUnlessBusy(s: System, pid: nat, part: nat, bytes: int, request: nat, now: int, later: int)
    requires pid !in s.uploaders
    ensures var t := Take(Take(Uploads(s, pid, Reading(part, request, bytes)), ReadPartStep(pid, now)), ClaimPartStep(pid, later));
            t == if Busy(s, part, request, now) then s
                 else Uploads(Claims(s, part, bytes, request, later), pid, Claimed(part, bytes, Row(s, part), s.nextClaim))
  {
    var reading := Reading(part, request, bytes);
    var choosing := Choosing(part, request, bytes, Row(s, part), now - STALE_MS);
    UploadsAgain(s, pid, reading, choosing);
    var read := Take(Uploads(s, pid, reading), ReadPartStep(pid, now));
    assert read == if Busy(s, part, request, now) then s else Uploads(s, pid, choosing);
    if !Busy(s, part, request, now) {
      UploadsAgain(s, pid, choosing, Claimed(part, bytes, Row(s, part), s.nextClaim));
    }
  }

  /** With its claim, an upload that storage takes leaves the part uploaded under a fresh etag, and no claim. */
  lemma StoredAndFinalized(s: System, pid: nat, part: nat, bytes: int, previous: Option<Part>, claim: nat)
    requires pid !in s.uploaders && s.status == Uploading && s.storage.open
    requires HasClaim(s, part, claim) && s.parts[part].status.PartUploading?
    ensures var started := Take(Uploads(s, pid, Claimed(part, bytes, previous, claim)), UploadStep(pid));
            var t := Take(Take(Take(started, StorePartStep(pid, true)), UploadStep(pid)), UploadStep(pid));
            t == s.(parts := s.parts[part := Part(PartUploaded, None, None, None, Some(s.nextEtag), bytes)],
                    storage := s.storage.(held := s.storage.held[part := s.nextEtag]),
                    nextEtag := s.nextEtag + 1, sizeOf := s.sizeOf[s.nextEtag := bytes])
  {
    var stored := s.(storage := s.storage.(held := s.storage.held[part := s.nextEtag]),
                     nextEtag := s.nextEtag + 1, sizeOf := s.sizeOf[s.nextEtag := bytes]);
    var done := stored.(parts := s.parts[part := Part(PartUploaded, None, None, None, Some(s.nextEtag), bytes)]);
    UploadsAgain(s, pid, Claimed(part, bytes, previous, claim), Storing(part, bytes, previous, claim));
    UploadsAgain(stored, pid, Storing(part, bytes, previous, claim), Stored(part, bytes, claim, s.nextEtag));
    UploadsAgain(done, pid, Stored(part, bytes, claim, s.nextEtag), Touching(part, claim));
    var started := Take(Uploads(s, pid, Claimed(part, bytes, previous, claim)), UploadStep(pid));
    assert started == Uploads(s, pid, Storing(part, bytes, previous, claim));
    var third := Take(started, StorePartStep(pid, true));
    assert third == Uploads(stored, pid, Stored(part, bytes, claim, s.nextEtag));
    assert Take(third, UploadStep(pid)) == Uploads(done, pid, Touching(part, claim));
  }

  /** An upload that storage refuses gives the row back to the upload before it, or removes it when there was none. */
  lemma RefusedAndReleased(s: System, pid: nat, part: nat, bytes: int, previous: Option<Part>, claim: nat)
    requires pid !in s.uploaders && s.status == Uploading && HasClaim(s, part, claim)
    ensures var started := Take(Uploads(s, pid, Claimed(part, bytes, previous, claim)), UploadStep(pid));
            var t := Take(Take(started, StorePartStep(pid, false)), UploadStep(pid));
            t == s.(parts := if previous.Some? && previous.value.status.PartUploaded?
                             then s.parts[part := previous.value.(claim := None, claimRequest := None, claimedAt := None)]
                             else s.parts - {part})
  {
    var storing := Storing(part, bytes, previous, claim);
    UploadsAgain(s, pid, Claimed(part, bytes, previous, claim), storing);
    UploadsAgain(s, pid, storing, Releasing(part, previous, claim));
    var started := Take(Uploads(s, pid, Claimed(part, bytes, previous, claim)), UploadStep(pid));
    assert started == Uploads(s, pid, storing);
    ReleasedIs(s, pid, part, previous, claim);
    assert Take(started, StorePartStep(pid, false)) == Uploads(s, pid, Releasing(part, previous, claim));
  }

  lemma ReleasedIs(s: System, pid: nat, part: nat, previous: Option<Part>, claim: nat)
    requires pid !in s.uploaders && HasClaim(s, part, claim)
    ensures Take(Uploads(s, pid, Releasing(part, previous, claim)), UploadStep(pid)) ==
              s.(parts := if previous.Some? && previous.value.status.PartUploaded?
                          then s.parts[part := previous.value.(claim := None, claimRequest := None, claimedAt := None)]
                          else s.parts - {part})
  {
    UploadsAgain(s, pid, Releasing(part, previous, claim), Releasing(part, previous, claim));
  }

  /** A claim made while the recording no longer takes parts is released without storing anything. */
  lemma LateClaimIsReleased(s: System, pid: nat, part: nat, bytes: int, previous: Option<Part>, claim: nat)
    requires pid !in s.uploaders && s.status != Uploading
    ensures Take(Uploads(s, pid, Claimed(part, bytes, previous, claim)), UploadStep(pid)) ==
              Uploads(s, pid, Releasing(part, previous, claim))
  {
    UploadsAgain(s, pid, Claimed(part, bytes, previous, claim), Releasing(part, previous, claim));
  }

  /** Uninterrupted, with storage at hand, a part that is not being stored is uploaded, whatever was there before. */
  lemma UploadAlone(s: System, pid: nat, part: nat, bytes: int, request: nat, now: int)
    requires pid !in s.uploaders && s.status == Uploading && s.storage.open
    requires ExpectedPartSize(s.declaredSize, part) == Some(bytes) && !Busy(s, part, request, now)
    ensures var claimed := Take(Take(Take(s, BeginUploadStep(pid, part, bytes, request)), ReadPartStep(pid, now)), ClaimPartStep(pid, now));
            var stored := Take(Take(claimed, UploadStep(pid)), StorePartStep(pid, true));
            var t := Take(Take(stored, UploadStep(pid)), UploadStep(pid));
            t == s.(parts := s.parts[part := Part(PartUploaded, None, None, None, Some(s.nextEtag), bytes)],
                    storage := s.storage.(held := s.storage.held[part := s.nextEtag]),
                    nextClaim := s.nextClaim + 1,
                    nextEtag := s.nextEtag + 1, sizeOf := s.sizeOf[s.nextEtag := bytes])
  {
    UploadBegins(s, pid, part, bytes, request);
    ClaimsUnlessBusy(s, pid, part, bytes, request, now, now);
    var claimed := Claims(s, part, bytes, request, now);
    var row := Part(PartUploaded, None, None, None, Some(s.nextEtag), bytes);
    assert claimed.parts[part := row] == s.parts[part := row];
    StoredAndFinalized(claimed, pid, part, bytes, Row(s, part), s.nextClaim);
    hide Take;
  }

  /** A recovered claim leaves its row to be uploaded again; without its claim a row stays. */
  lemma RecoveryMeans(s: System, part: nat, claim: nat)
    ensures var t := Take(s, RecoverClaim(part, claim));
            if part in s.parts && s.parts[part].claim == Some(claim)
            then t == s.(parts := s.parts[part := Part(PartRecoverable, None, None, None, None, s.parts[part].byteCount)])
            else t == s
  {
  }

  // ----- completing -----

  /** A completion is claimed exactly while the recording takes parts and none is being stored. */
  lemma CompletionIsClaimed(s: System, pid: nat)
    requires pid !in s.finishers
    ensures Take(s, ClaimCompletionStep(pid)) ==
              if s.status == Uploading && (forall n :: n in s.parts ==> !s.parts[n].status.PartUploading?)
              then Finishes(s.(status := Completing), pid, Gathering(true)) else s
  {
  }

  /** The uploaded rows are parts 1..n, each of its expected size. */
  predicate AllThere(s: System) {
    && (forall n :: 1 <= n <= PartCount(s.declaredSize) ==> n in s.parts && s.parts[n].status.PartUploaded?)
    && (forall n :: n in s.parts && s.parts[n].status.PartUploaded? ==>
          ExpectedPartSize(s.declaredSize, n) == Some(s.parts[n].byteCount))
  }

  lemma GatheringMeans(s: System, pid: nat, mayReset: bool)
    requires pid !in s.finishers
    ensures Take(Finishes(s, pid, Gathering(mayReset)), FinishStep(pid)) ==
              if AllThere(s) then Finishes(s, pid, Assembling(mayReset, UploadedParts(s)))
              else if mayReset then Finishes(s, pid, Resetting)
              else s
  {
    hide ExpectedPartSize, PartCount;
    FinishesAgain(s, pid, Gathering(mayReset), Resetting);
    FinishesAgain(s, pid, Gathering(mayReset), Assembling(mayReset, UploadedParts(s)));
    var parts := UploadedParts(s);
    assert forall n :: n in parts <==> n in s.parts && s.parts[n].status.PartUploaded?;
    assert forall n :: n in parts ==> parts[n] == s.parts[n];
    assert UploadedParts(Finishes(s, pid, Gathering(mayReset))) == parts;
  }

  lemma ResettingReopens(s: System, pid: nat)
    requires pid !in s.finishers
    ensures Take(Finishes(s, pid, Resetting), FinishStep(pid)) == if s.status == Completing then s.(status := Uploading) else s
  {
    FinishesAgain(s, pid, Resetting, Resetting);
  }

  /**
   A completion that misses a part reopens the upload, with all parts as they were, if it may; then a
   part that is missing may be uploaded.  One that may not leaves everything to the one that may.
   */
  lemma IncompleteReopens(s: System, pid: nat, mayReset: bool, other: nat, part: nat, bytes: int, request: nat)
    requires pid !in s.finishers && s.status == Completing && !AllThere(s)
    requires other !in s.uploaders && ExpectedPartSize(s.declaredSize, part) == Some(bytes)
    ensures var t := Take(Take(Finishes(s, pid, Gathering(mayReset)), FinishStep(pid)), FinishStep(pid));
            && t == (if mayReset then s.(status := Uploading) else s)
            && (mayReset ==>
                 Take(t, BeginUploadStep(other, part, bytes, request)) == Uploads(t, other, Reading(part, request, bytes)))
  {
    GatheringMeans(s, pid, mayReset);
    ResettingReopens(s, pid);
    UploadBegins(s.(status := Uploading), other, part, bytes, request);
    NobodyFinishes(s, pid);
    hide Take, AllThere, ExpectedPartSize;
  }

  lemma NobodyFinishes(s: System, pid: nat)
    requires pid !in s.finishers
    ensures Take(s, FinishStep(pid)) == s
  {
  }

  /** A completion that finds no object of the declared size reopens the upload too, if it may. */
  lemma UnverifiedReopens(s: System, pid: nat, mayReset: bool, parts: map<nat, Part>, completed: Option<int>, headAnswers: bool)
    requires pid !in s.finishers && s.status == Completing
    requires completed != Some(s.declaredSize) && (headAnswers ==> s.storage.media != Some(s.declaredSize))
    ensures Take(Take(Finishes(s, pid, Verifying(mayReset, parts, completed)), VerifyStep(pid, headAnswers)), FinishStep(pid)) ==
              if mayReset then s.(status := Uploading) else s
  {
    FinishesAgain(s, pid, Verifying(mayReset, parts, completed), Resetting);
    ResettingReopens(s, pid);
    NobodyFinishes(s, pid);
    var f := Verifying(mayReset, parts, completed);
    assert Take(Finishes(s, pid, f), VerifyStep(pid, headAnswers)) == if mayReset then Finishes(s, pid, Resetting) else s;
  }

  /** A completion that sees an object of the declared size, in its answer or by asking, lets the recording validate. */
  lemma VerifiedValidates(s: System, pid: nat, mayReset: bool, parts: map<nat, Part>, completed: Option<int>, headAnswers: bool)
    requires pid !in s.finishers && s.status == Completing
    requires completed == Some(s.declaredSize) || (headAnswers && s.storage.media == Some(s.declaredSize))
    ensures Take(Take(Finishes(s, pid, Verifying(mayReset, parts, completed)), VerifyStep(pid, headAnswers)), FinishStep(pid)) ==
              s.(status := Validating, actualSize := Some(s.declaredSize), timesValidating := s.timesValidating + 1)
  {
    FinishesAgain(s, pid, Verifying(mayReset, parts, completed), Persisting(parts, s.declaredSize));
    var f := Verifying(mayReset, parts, completed);
    assert Take(Finishes(s, pid, f), VerifyStep(pid, headAnswers)) == Finishes(s, pid, Persisting(parts, s.declaredSize));
  }

  /** Storage assembles what it is given exactly when it is open and holds each part under its etag; it may refuse, and lose its answer. */
  lemma AssemblingMeans(s: System, pid: nat, mayReset: bool, parts: map<nat, Part>, takesEffect: bool, answered: bool)
    requires pid !in s.finishers
    ensures var t := Take(Finishes(s, pid, Assembling(mayReset, parts)), AssembleStep(pid, takesEffect, answered));
            var assembles := takesEffect && s.storage.open
                             && forall n :: n in parts ==> n in s.storage.held && parts[n].etag == Some(s.storage.held[n]);
            var size := AssembledSize(s.sizeOf, parts, PartCount(s.declaredSize));
            t == if assembles
                 then Finishes(s.(storage := s.storage.(open := false, media := Some(size))), pid,
                               Verifying(mayReset, parts, if answered then Some(size) else None))
                 else Finishes(s, pid, Verifying(mayReset, parts, None))
  {
    var size := AssembledSize(s.sizeOf, parts, PartCount(s.declaredSize));
    hide AssembledSize, PartCount;
    var after := s.(storage := s.storage.(open := false, media := Some(size)));
    FinishesAgain(s, pid, Assembling(mayReset, parts), Verifying(mayReset, parts, None));
    FinishesAgain(after, pid, Assembling(mayReset, parts), Verifying(mayReset, parts, if answered then Some(size) else None));
  }

  /** A completion may also be joined while it is under way. */
  lemma CompletionIsJoined(s: System, pid: nat, mayReset: bool)
    requires pid !in s.finishers
    ensures Take(s, JoinCompletionStep(pid, mayReset)) ==
              if s.status == Completing then Finishes(s, pid, Gathering(mayReset)) else s
  {
  }

  /** Uninterrupted, with every part uploaded and held by storage, a completion leads to validating the whole object. */
  lemma CompletionAlone(s: System, pid: nat, answered: bool)
    requires Inv(s) && pid !in s.finishers && s.status == Uploading && AllThere(s)
    requires forall n :: n in s.parts ==> s.parts[n].status.PartUploaded?
    requires s.storage.open && Assembles(s, UploadedParts(s))
    ensures var assembled := Take(Take(Take(s, ClaimCompletionStep(pid)), FinishStep(pid)), AssembleStep(pid, true, answered));
            var t := Take(Take(assembled, VerifyStep(pid, true)), FinishStep(pid));
            t == s.(status := Validating, actualSize := Some(s.declaredSize), storage := s.storage.(open := false, media := Some(s.declaredSize)),
                    timesValidating := s.timesValidating + 1)
  {
    var parts := UploadedParts(s);
    var claimed := s.(status := Completing);
    WholeSize(s);
    CompletionIsClaimed(s, pid);
    GatheringMeans(claimed, pid, true);
    AssemblingMeans(claimed, pid, true, parts, true, answered);
    VerifiedValidates(claimed.(storage := s.storage.(open := false, media := Some(s.declaredSize))), pid, true, parts,
                      if answered then Some(s.declaredSize) else None, true);
    hide Take, Inv, AllThere, AssembledSize;
    assert UploadedParts(claimed) == parts;
    assert AllThere(claimed) by { SameRowsAllThere(s, claimed); }
  }

  lemma SameRowsAllThere(s: System, t: System)
    requires t.parts == s.parts && t.declaredSize == s.declaredSize && AllThere(s)
    ensures AllThere(t)
  {
  }

  lemma WholeSize(s: System)
    requires Inv(s) && AllThere(s)
    ensures AssembledSize(s.sizeOf, UploadedParts(s), PartCount(s.declaredSize)) == s.declaredSize
  {
    var parts := UploadedParts(s);
    forall n | n in parts ensures PartSized(s, n, parts[n]) {
      assert RowOk(s, n, s.parts[n]);
    }
    assert SnapshotOk(s, parts);
    AssembledIsPrefixSum(s, parts, PartCount(s.declaredSize));
    PartSizesTile(s.declaredSize);
  }

  // ----- deleting -----

  /** A deletion begins from the status it names, if that is taking parts or validating; then the object goes, and then the rows. */
  lemma DeletionMeans(s: System, from: Status)
    ensures Take(s, StartDeleteStep(from)) ==
              if s.status == from && (from == Uploading || from == Validating) then s.(status := Deleting) else s
    ensures Take(s, EraseStorageStep) ==
              if s.status == Deleting then s.(storage := Storage(false, s.storage.held, None)) else s
    ensures Take(s, RemoveRowsStep) == if s.status == Deleting then s.(status := Removed, parts := map[]) else s
  {
  }
}
