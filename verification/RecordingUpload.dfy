/**
 The multipart upload of one race recording as rows shared by any number of
 concurrent callers.  Every database statement, batch or storage call is one
 atomic step, and between steps any other caller may run or any caller may stop.
 */
module RecordingUpload {
  import opened Wrappers

  const PART_SIZE := 10 * 1024 * 1024

  // ----- part sizes -----

  function PartCount(declaredSize: nat): nat {
    (declaredSize + PART_SIZE - 1) / PART_SIZE
  }

  function ExpectedPartSize(declaredSize: nat, part: int): Option<int> {
    var count := PartCount(declaredSize);
    if part < 1 || part > count then None
    else if part < count then Some(PART_SIZE)
    else Some(declaredSize - PART_SIZE * (count - 1))
  }

  function SumOfSizes(declaredSize: nat, n: nat): int
    requires n <= PartCount(declaredSize)
  {
    if n == 0 then 0 else SumOfSizes(declaredSize, n - 1) + ExpectedPartSize(declaredSize, n).value
  }

  lemma {:induction false} FullParts(declaredSize: nat, n: nat)
    requires n < PartCount(declaredSize)
    ensures SumOfSizes(declaredSize, n) == PART_SIZE * n
  {
    if n > 0 {
      FullParts(declaredSize, n - 1);
    }
  }

  /** The parts of a recording are positive, at most the part size, and sum to the declared size. */
  lemma PartSizesTile(declaredSize: nat)
    requires declaredSize > 0
    ensures PartCount(declaredSize) >= 1
    ensures SumOfSizes(declaredSize, PartCount(declaredSize)) == declaredSize
    ensures forall n :: 1 <= n <= PartCount(declaredSize) ==>
              && ExpectedPartSize(declaredSize, n).Some?
              && 0 < ExpectedPartSize(declaredSize, n).value <= 10_485_760
              && (n < PartCount(declaredSize) ==> ExpectedPartSize(declaredSize, n).value == 10_485_760)
    ensures forall n :: n < 1 || n > PartCount(declaredSize) ==> ExpectedPartSize(declaredSize, n).None?
  {
    FullParts(declaredSize, PartCount(declaredSize) - 1);
  }

  // ----- rows, callers and storage -----

  datatype Status = Uploading | Completing | Validating | Deleting | Removed
  datatype PartStatus = PartUploading | PartUploaded | PartRecoverable

  datatype Part = Part(
    status: PartStatus,
    claim: Option<nat>,
    claimRequest: Option<nat>,
    claimedAt: Option<int>,
    etag: Option<nat>,
    byteCount: int)

  /** An `uploadPart` call, by the step it takes next. */
  datatype Uploader =
    | Reading(part: nat, request: nat, bytes: int)
    | Choosing(part: nat, request: nat, bytes: int, previous: Option<Part>, cutoff: int)
    | Claimed(part: nat, bytes: int, previous: Option<Part>, claim: nat)
    | Storing(part: nat, bytes: int, previous: Option<Part>, claim: nat)
    | Stored(part: nat, bytes: int, claim: nat, etag: nat)
    | Touching(part: nat, claim: nat)
    | Releasing(part: nat, previous: Option<Part>, claim: nat)
    | Recovering(part: nat, claim: nat)

  /** A `finishCompletion` call, by the step it takes next. */
  datatype Finisher =
    | Gathering(mayReset: bool)
    | Assembling(mayReset: bool, parts: map<nat, Part>)
    | Verifying(mayReset: bool, parts: map<nat, Part>, completed: Option<int>)
    | Persisting(parts: map<nat, Part>, size: int)
    | Resetting

  /** Private media storage: the parts held for the upload, and the assembled object. */
  datatype Storage = Storage(open: bool, held: map<nat, nat>, media: Option<int>)

  datatype System = System(
    declaredSize: nat,
    status: Status,
    actualSize: Option<int>,
    parts: map<nat, Part>,
    uploaders: map<nat, Uploader>,
    finishers: map<nat, Finisher>,
    storage: Storage,
    nextClaim: nat,
    nextEtag: nat,
    sizeOf: map<nat, int>,      // by etag: how many bytes storage holds under it
    timesValidating: nat)

  const STALE_MS := 15 * 60 * 1000

  function Row(s: System, n: nat): Option<Part> {
    if n in s.parts then Some(s.parts[n]) else None
  }

  predicate HasClaim(s: System, n: nat, claim: nat) {
    n in s.parts && s.parts[n].claim == Some(claim)
  }

  function Stopped(s: System, pid: nat): System {
    s.(uploaders := s.uploaders - {pid})
  }

  function Goes(s: System, pid: nat, u: Uploader): System {
    s.(uploaders := s.uploaders[pid := u])
  }

  function Ended(s: System, pid: nat): System {
    s.(finishers := s.finishers - {pid})
  }

  function Turns(s: System, pid: nat, f: Finisher): System {
    s.(finishers := s.finishers[pid := f])
  }

  // ----- the steps of uploadPart -----

  function BeginUpload(s: System, pid: nat, part: nat, bytes: int, request: nat): System {
    if pid in s.uploaders || s.status != Uploading || ExpectedPartSize(s.declaredSize, part) != Some(bytes) then s
    else Goes(s, pid, Reading(part, request, bytes))
  }

  predicate IsStale(p: Part, cutoff: int) {
    p.status.PartUploading? && p.claimedAt.Some? && p.claimedAt.value <= cutoff
  }

  function ReadPart(s: System, pid: nat, u: Uploader, now: int): System
    requires u.Reading?
  {
    var previous := Row(s, u.part);
    var cutoff := now - STALE_MS;
    if previous.Some? && previous.value.status.PartUploading?
       && (!IsStale(previous.value, cutoff) || previous.value.claimRequest != Some(u.request))
    then Stopped(s, pid)
    else Goes(s, pid, Choosing(u.part, u.request, u.bytes, previous, cutoff))
  }

  /** The conditional insert or update that claims a part. */
  predicate ClaimAllowed(s: System, u: Uploader)
    requires u.Choosing?
  {
    if u.previous.None? then u.part !in s.parts
    else
      && u.part in s.parts
      && s.parts[u.part].status == u.previous.value.status
      && (u.previous.value.status.PartUploading? ==>
           s.parts[u.part].claim == u.previous.value.claim && IsStale(s.parts[u.part], u.cutoff))
  }

  function ClaimPart(s: System, pid: nat, u: Uploader, now: int): System
    requires u.Choosing?
  {
    if !ClaimAllowed(s, u) then Stopped(s, pid)
    else
      var claim := s.nextClaim;
      var row :=
        if u.previous.None? then Part(PartUploading, Some(claim), Some(u.request), Some(now), None, u.bytes)
        else s.parts[u.part].(status := PartUploading, claim := Some(claim), claimRequest := Some(u.request), claimedAt := Some(now));
      Goes(s.(parts := s.parts[u.part := row], nextClaim := claim + 1), pid, Claimed(u.part, u.bytes, u.previous, claim))
  }

  function Recheck(s: System, pid: nat, u: Uploader): System
    requires u.Claimed?
  {
    if s.status == Uploading then Goes(s, pid, Storing(u.part, u.bytes, u.previous, u.claim))
    else Goes(s, pid, Releasing(u.part, u.previous, u.claim))
  }

  function StorePart(s: System, pid: nat, u: Uploader, ok: bool): System
    requires u.Storing?
  {
    if ok && s.storage.open then
      var etag := s.nextEtag;
      Goes(s.(storage := s.storage.(held := s.storage.held[u.part := etag]),
              nextEtag := etag + 1,
              sizeOf := s.sizeOf[etag := u.bytes]),
           pid, Stored(u.part, u.bytes, u.claim, etag))
    else Goes(s, pid, Releasing(u.part, u.previous, u.claim))
  }

  function FinalizePart(s: System, pid: nat, u: Uploader): System
    requires u.Stored?
  {
    if HasClaim(s, u.part, u.claim) && s.parts[u.part].status.PartUploading? then
      var row := Part(PartUploaded, None, None, None, Some(u.etag), u.bytes);
      Goes(s.(parts := s.parts[u.part := row]), pid, Touching(u.part, u.claim))
    else Goes(s, pid, Recovering(u.part, u.claim))
  }

  function TouchRecording(s: System, pid: nat, u: Uploader): System
    requires u.Touching?
  {
    if s.status == Uploading then Stopped(s, pid) else Goes(s, pid, Recovering(u.part, u.claim))
  }

  function Released(s: System, part: nat, previous: Option<Part>, claim: nat): System {
    if !HasClaim(s, part, claim) then s
    else if previous.Some? && previous.value.status.PartUploaded? then
      s.(parts := s.parts[part := previous.value.(claim := None, claimRequest := None, claimedAt := None)])
    else s.(parts := s.parts - {part})
  }

  function Recovered(s: System, part: nat, claim: nat): System {
    if !HasClaim(s, part, claim) then s
    else s.(parts := s.parts[part := Part(PartRecoverable, None, None, None, None, s.parts[part].byteCount)])
  }

  // ----- the steps of complete and finishCompletion -----

  predicate SomePartUploading(s: System) {
    exists n :: n in s.parts && s.parts[n].status.PartUploading?
  }

  function ClaimCompletion(s: System, pid: nat): System {
    if pid in s.finishers || s.status != Uploading || SomePartUploading(s) then s
    else Turns(s.(status := Completing), pid, Gathering(true))
  }

  function JoinCompletion(s: System, pid: nat, mayReset: bool): System {
    if pid in s.finishers || s.status != Completing then s else Turns(s, pid, Gathering(mayReset))
  }

  function GiveUp(s: System, pid: nat, mayReset: bool): System {
    if mayReset then Turns(s, pid, Resetting) else Ended(s, pid)
  }

  function UploadedParts(s: System): map<nat, Part> {
    map n | n in s.parts && s.parts[n].status.PartUploaded? :: s.parts[n]
  }

  /** The uploaded parts are exactly 1..n, each of its expected size. */
  predicate EveryPart(declaredSize: nat, parts: map<nat, Part>) {
    && (forall n :: n in parts ==> ExpectedPartSize(declaredSize, n) == Some(parts[n].byteCount))
    && (forall n :: 1 <= n <= PartCount(declaredSize) ==> n in parts)
  }

  function Gather(s: System, pid: nat, f: Finisher): System
    requires f.Gathering?
  {
    if EveryPart(s.declaredSize, UploadedParts(s)) then Turns(s, pid, Assembling(f.mayReset, UploadedParts(s)))
    else GiveUp(s, pid, f.mayReset)
  }

  predicate Assembles(s: System, parts: map<nat, Part>) {
    && s.storage.open
    && forall n :: n in parts ==> n in s.storage.held && parts[n].etag == Some(s.storage.held[n])
  }

  function AssembledSize(sizeOf: map<nat, int>, parts: map<nat, Part>, n: nat): int {
    if n == 0 then 0
    else if n in parts && parts[n].etag.Some? && parts[n].etag.value in sizeOf
    then AssembledSize(sizeOf, parts, n - 1) + sizeOf[parts[n].etag.value]
    else AssembledSize(sizeOf, parts, n - 1)
  }

  /** Storage may refuse, or assemble and lose its answer. */
  function Assemble(s: System, pid: nat, f: Finisher, takesEffect: bool, answered: bool): System
    requires f.Assembling?
  {
    if takesEffect && Assembles(s, f.parts) then
      var size := AssembledSize(s.sizeOf, f.parts, PartCount(s.declaredSize));
      Turns(s.(storage := s.storage.(open := false, media := Some(size))), pid,
            Verifying(f.mayReset, f.parts, if answered then Some(size) else None))
    else Turns(s, pid, Verifying(f.mayReset, f.parts, None))
  }

  function Verify(s: System, pid: nat, f: Finisher, headAnswers: bool): System
    requires f.Verifying?
  {
    var seen :=
      if f.completed == Some(s.declaredSize) then f.completed
      else if headAnswers then s.storage.media
      else None;
    if seen == Some(s.declaredSize) then Turns(s, pid, Persisting(f.parts, seen.value))
    else GiveUp(s, pid, f.mayReset)
  }

  function Persist(s: System, pid: nat, f: Finisher): System
    requires f.Persisting?
  {
    var s' := Ended(s, pid);
    if s.status != Completing then s'
    else s'.(status := Validating, actualSize := Some(f.size), timesValidating := s.timesValidating + 1)
  }

  function Reset(s: System, pid: nat): System {
    var s' := Ended(s, pid);
    if s.status == Completing then s'.(status := Uploading) else s'
  }

  // ----- discard -----

  function StartDelete(s: System, from: Status): System {
    if (from == Uploading || from == Validating) && s.status == from then s.(status := Deleting) else s
  }

  function EraseStorage(s: System): System {
    if s.status != Deleting then s else s.(storage := s.storage.(open := false, media := None))
  }

  function RemoveRows(s: System): System {
    if s.status != Deleting then s else s.(status := Removed, parts := map[])
  }

  datatype Step =
    | BeginUploadStep(pid: nat, part: nat, bytes: int, request: nat)
    | UploadStep(pid: nat)
    | ReadPartStep(pid: nat, now: int)
    | ClaimPartStep(pid: nat, now: int)
    | StorePartStep(pid: nat, ok: bool)
    | AbandonUpload(pid: nat)
    | RecoverClaim(part: nat, claim: nat)
    | ClaimCompletionStep(pid: nat)
    | JoinCompletionStep(pid: nat, mayReset: bool)
    | FinishStep(pid: nat)
    | AssembleStep(pid: nat, takesEffect: bool, answered: bool)
    | VerifyStep(pid: nat, headAnswers: bool)
    | AbandonFinish(pid: nat)
    | StartDeleteStep(from: Status)
    | EraseStorageStep
    | RemoveRowsStep

  function UploaderStep(s: System, pid: nat, u: Uploader): System {
    match u
    case Claimed(_, _, _, _) => Recheck(s, pid, u)
    case Stored(_, _, _, _) => FinalizePart(s, pid, u)
    case Touching(_, _) => TouchRecording(s, pid, u)
    case Releasing(part, previous, claim) => Stopped(Released(s, part, previous, claim), pid)
    case Recovering(part, claim) => Stopped(Recovered(s, part, claim), pid)
    case _ => s
  }

  function FinisherStep(s: System, pid: nat, f: Finisher): System {
    match f
    case Gathering(_) => Gather(s, pid, f)
    case Persisting(_, _) => Persist(s, pid, f)
    case Resetting => Reset(s, pid)
    case _ => s
  }

  /** One step of the system; a step that is not possible leaves it unchanged. */
  function Take(s: System, step: Step): System {
    match step
    case BeginUploadStep(pid, part, bytes, request) => BeginUpload(s, pid, part, bytes, request)
    case UploadStep(pid) => if pid in s.uploaders then UploaderStep(s, pid, s.uploaders[pid]) else s
    case ReadPartStep(pid, now) =>
      if pid in s.uploaders && s.uploaders[pid].Reading? then ReadPart(s, pid, s.uploaders[pid], now) else s
    case ClaimPartStep(pid, now) =>
      if pid in s.uploaders && s.uploaders[pid].Choosing? then ClaimPart(s, pid, s.uploaders[pid], now) else s
    case StorePartStep(pid, ok) =>
      if pid in s.uploaders && s.uploaders[pid].Storing? then StorePart(s, pid, s.uploaders[pid], ok) else s
    case AbandonUpload(pid) => Stopped(s, pid)
    case RecoverClaim(part, claim) => Recovered(s, part, claim)
    case ClaimCompletionStep(pid) => ClaimCompletion(s, pid)
    case JoinCompletionStep(pid, mayReset) => JoinCompletion(s, pid, mayReset)
    case FinishStep(pid) => if pid in s.finishers then FinisherStep(s, pid, s.finishers[pid]) else s
    case AssembleStep(pid, takesEffect, answered) =>
      if pid in s.finishers && s.finishers[pid].Assembling?
      then Assemble(s, pid, s.finishers[pid], takesEffect, answered) else s
    case VerifyStep(pid, headAnswers) =>
      if pid in s.finishers && s.finishers[pid].Verifying?
      then Verify(s, pid, s.finishers[pid], headAnswers) else s
    case AbandonFinish(pid) => Ended(s, pid)
    case StartDeleteStep(from) => StartDelete(s, from)
    case EraseStorageStep => EraseStorage(s)
    case RemoveRowsStep => RemoveRows(s)
  }

  function Run(s: System, steps: seq<Step>): System
    decreases steps
  {
    if steps == [] then s else Run(Take(s, steps[0]), steps[1..])
  }

  function Created(declaredSize: nat): System {
    System(declaredSize, Uploading, None, map[], map[], map[], Storage(true, map[], None), 0, 0, map[], 0)
  }
}
