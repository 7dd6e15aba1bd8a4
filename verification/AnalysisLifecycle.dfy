/**
 One driving analysis as a row that concurrent callers read and then write
 conditionally.  A caller that awaits between its read and its write keeps the row
 it read; every statement or batch is one atomic step, and any other caller may run,
 or any caller may stop, between two steps.  The table refuses some of the changes that
 are asked for; nothing is then left of the statement or batch.
 */
module AnalysisLifecycle {
  import opened AnalysisTable
  import opened Wrappers

  import Completion = AnalysisCompletion

  datatype FailureCode = ProviderUnavailable | ProviderFailed | ArtifactInvalid

  /** A tracking run; a unique index gives each workflow at most one. */
  datatype TrackingRun = TrackingRun(status: RunStatus, code: Option<FailureCode>)

  datatype Receipt = Receipt(expected: int, workflowId: nat)

  // ----- tracking progress -----

  datatype Lifecycle =
    | TrackingQueued | TrackingRunning | TrackingAwaiting
    | TrackingCompleted | TrackingFailed | TrackingCancelled

  datatype TrackingState = TrackingState(lifecycle: Lifecycle, progress: nat, code: Option<FailureCode>)

  datatype Target = Target(status: Status, progress: int)

  function Min(a: int, b: int): int {
    if a < b then a else b
  }

  function Max(a: int, b: int): int {
    if a < b then b else a
  }

  function TrackingShare(progress: nat): int {
    21 + Min(progress, 99) * 78 / 99
  }

  function TrackingTarget(state: TrackingState): Target {
    var progress := TrackingShare(state.progress);
    match state.lifecycle
    case TrackingAwaiting => Target(AwaitingReidentification, progress)
    case TrackingFailed => Target(Failed, progress)
    case TrackingCancelled => Target(Cancelled, progress)
    case _ =>
      if state.lifecycle.TrackingCompleted? || state.progress >= 99 then Target(Running, 99)
      else Target(Running, progress)
  }

  // ----- callers -----

  datatype Caller =
    | CancelArmed(current: Analysis, expected: int)
    | RetryReceipt(current: Analysis, expected: int, command: nat)
    | RetryRun(current: Analysis, expected: int, command: nat)
    | RetrySource(current: Analysis, expected: int, command: nat)
    | RetryArmed(current: Analysis, expected: int, command: nat)
    | TrackingReading(workflow: nat, state: TrackingState)
    | TrackingArmed(current: Analysis, workflow: nat, state: TrackingState)
    | FailureReading(workflow: nat, sequence: nat)
    | FailureArmed(current: Analysis, workflow: nat, sequence: nat)
    | RemoveArmed(current: Analysis, expected: int)

  datatype System = System(
    row: Analysis,
    runs: map<nat, TrackingRun>,       // by workflow
    receipts: map<nat, Receipt>,       // by retry command
    callers: map<nat, Caller>,
    nextWorkflow: nat,
    sourceReady: bool)

  function Goes(s: System, pid: nat, c: Caller): System {
    s.(callers := s.callers[pid := c])
  }

  function Stops(s: System, pid: nat): System {
    s.(callers := s.callers - {pid})
  }

  /** The run of a workflow, or every run, leaves the active status. */
  function EndRuns(runs: map<nat, TrackingRun>, only: Option<nat>, to: RunStatus): map<nat, TrackingRun> {
    map w | w in runs ::
      if runs[w].status.Active? && (only.None? || only.value == w) then runs[w].(status := to) else runs[w]
  }

  // ----- first reads -----

  function BeginCancel(s: System, pid: nat, expected: int): System {
    if s.row.status == Cancelled || s.row.stateVersion != expected || !Mutable(s.row.status) then s
    else Goes(s, pid, CancelArmed(s.row, expected))
  }

  function BeginRetry(s: System, pid: nat, expected: int, command: nat): System {
    if expected < 1 then s else Goes(s, pid, RetryReceipt(s.row, expected, command))
  }

  function BeginTracking(s: System, pid: nat, workflow: nat, state: TrackingState): System {
    if workflow !in s.runs then s
    else if s.runs[workflow].status.Active? || (s.runs[workflow].status.RunFailed? && state.lifecycle.TrackingFailed?)
    then Goes(s, pid, TrackingReading(workflow, state))
    else s
  }

  function BeginRemove(s: System, pid: nat, expected: int): System {
    if s.row.status == Deleted || s.row.status == Deleting || s.row.stateVersion != expected then s
    else Goes(s, pid, RemoveArmed(s.row, expected))
  }

  // ----- later reads, and what guarded writes ask for -----

  /** A statement or batch takes effect unless the table refuses its change of the row; then it leaves nothing. */
  function Commit(s: System, t: System): System {
    if t.row == s.row || Accepts(s.row, t.row) then t else s
  }

  function WriteCancel(s: System, c: Caller): System
    requires c.CancelArmed?
  {
    if s.row.workflowId == c.current.workflowId && s.row.stateVersion == c.expected && s.row.status == c.current.status
    then s.(row := s.row.(status := Cancelled, stateVersion := c.expected + 1),
            runs := EndRuns(s.runs, Some(c.current.workflowId), RunCancelled))
    else s
  }

  function ReadRetryReceipt(s: System, pid: nat, c: Caller): System
    requires c.RetryReceipt?
  {
    if c.command in s.receipts then Stops(s, pid)
    else if c.current.stateVersion != c.expected then Stops(s, pid)
    else if c.current.status == Failed || c.current.status == Completed
    then Goes(s, pid, RetryRun(c.current, c.expected, c.command))
    else Stops(s, pid)
  }

  function ReadRetryRun(s: System, pid: nat, c: Caller): System
    requires c.RetryRun?
  {
    var w := c.current.workflowId;
    if w in s.runs && s.runs[w].code == Some(ArtifactInvalid) then Stops(s, pid)
    else Goes(s, pid, RetrySource(c.current, c.expected, c.command))
  }

  function ReadRetrySource(s: System, pid: nat, c: Caller): System
    requires c.RetrySource?
  {
    if s.sourceReady then Goes(s, pid, RetryArmed(c.current, c.expected, c.command)) else Stops(s, pid)
  }

  predicate RetryWitness(s: System, c: Caller)
    requires c.RetryArmed?
  {
    s.row.workflowId == c.current.workflowId && s.row.stateVersion == c.current.stateVersion && s.sourceReady
  }

  /** The receipt's primary key fails the whole batch when the command already has one. */
  function WriteRetry(s: System, c: Caller): System
    requires c.RetryArmed?
  {
    if !RetryWitness(s, c) || c.command in s.receipts then s
    else
      s.(row := Analysis(s.nextWorkflow, c.current.sequence + 1, Queued, Preparation, 0, c.current.stateVersion + 1),
         runs := EndRuns(s.runs, None, Replaced),
         receipts := s.receipts[c.command := Receipt(c.expected, s.nextWorkflow)],
         nextWorkflow := s.nextWorkflow + 1)
  }

  function ReadTrackingRow(s: System, pid: nat, c: Caller): System
    requires c.TrackingReading?
  {
    var target := TrackingTarget(c.state);
    if s.row.stage != Tracking || s.row.workflowId != c.workflow then Stops(s, pid)
    else if s.row.status == target.status && s.row.progress == Max(s.row.progress, target.progress) then Stops(s, pid)
    else if s.row.status != Running && s.row.status != AwaitingReidentification then Stops(s, pid)
    else Goes(s, pid, TrackingArmed(s.row, c.workflow, c.state))
  }

  predicate TrackingWitness(s: System, c: Caller)
    requires c.TrackingArmed?
  {
    s.row.workflowId == c.workflow && s.row.stateVersion == c.current.stateVersion && s.row.stage == Tracking
  }

  function WriteTracking(s: System, c: Caller): System
    requires c.TrackingArmed?
  {
    var target := TrackingTarget(c.state);
    if !TrackingWitness(s, c) then s
    else
      var runs :=
        if target.status == Failed && c.workflow in s.runs && s.runs[c.workflow].status.Active?
        then s.runs[c.workflow := TrackingRun(RunFailed, c.state.code)]
        else s.runs;
      s.(row := s.row.(status := target.status,
                       progress := Max(c.current.progress, target.progress),
                       stateVersion := c.current.stateVersion + 1),
         runs := runs)
  }

  function ReadFailureRow(s: System, pid: nat, c: Caller): System
    requires c.FailureReading?
  {
    if s.row.workflowId == c.workflow && (s.row.status == Queued || s.row.status == Running)
    then Goes(s, pid, FailureArmed(s.row, c.workflow, c.sequence))
    else Stops(s, pid)
  }

  /** The run's half of this batch does not depend on the analysis. */
  function WriteFailure(s: System, c: Caller): System
    requires c.FailureArmed?
  {
    var s' := s.(runs := EndRuns(s.runs, Some(c.workflow), RunFailed));
    if s.row.workflowId == c.workflow && s.row.sequence == c.sequence
       && s.row.stateVersion == c.current.stateVersion && (s.row.status == Queued || s.row.status == Running)
    then s'.(row := s.row.(status := Failed, stateVersion := c.current.stateVersion + 1))
    else s'
  }

  function WriteRemove(s: System, c: Caller): System
    requires c.RemoveArmed?
  {
    if s.row.stateVersion == c.expected
    then s.(row := s.row.(status := Deleting, stateVersion := c.expected + 1),
            runs := EndRuns(s.runs, None, RunCancelled))
    else s
  }

  // ----- single conditional statements -----

  function BeginPreparation(s: System, workflow: nat, expected: int): System {
    if s.row.workflowId == workflow && s.row.stateVersion == expected && s.row.status == Queued
    then s.(row := s.row.(status := Running, stage := Preparation, progress := 0, stateVersion := expected + 1))
    else s
  }

  function PublishPreparationProgress(s: System, workflow: nat, expected: int, progress: int): System {
    if 1 <= progress <= 99 && s.row.workflowId == workflow && s.row.stateVersion == expected
       && s.row.status == Running && s.row.stage == Preparation
    then s.(row := s.row.(progress := progress, stateVersion := expected + 1))
    else s
  }

  function PublishTrackingStart(s: System, workflow: nat, expected: int): System {
    if s.row.workflowId == workflow && s.row.stateVersion == expected
       && s.row.status == Running && s.row.stage == Preparation
    then s.(row := s.row.(stage := Tracking, progress := 21, stateVersion := expected + 1))
    else s
  }

  /** The completion batch, on the segments, evidence and clips there are at that moment. */
  function Complete(s: System, identity: Completion.Identity, evidence: Completion.Evidence): System {
    var workflow := identity.workflowId;
    var open := s.row.workflowId == workflow && Mutable(s.row.status);
    var runs :=
      if open && Completion.Ready(evidence, identity) && workflow in s.runs && s.runs[workflow].status.Active?
      then s.runs[workflow := s.runs[workflow].(status := RunCompleted)]
      else s.runs;
    if open && workflow in runs && runs[workflow].status.RunCompleted?
    then s.(runs := runs,
            row := s.row.(status := Completed, stage := Finalization, progress := 100, stateVersion := s.row.stateVersion + 1))
    else s.(runs := runs)
  }

  function Cleanup(s: System): System {
    if s.row.status == Deleting then s.(row := s.row.(status := Deleted, stateVersion := s.row.stateVersion + 1)) else s
  }

  /** Tracking fences an active run, or fails it as unavailable, without touching the analysis. */
  function EndOutside(s: System, workflow: nat, to: RunStatus, unavailable: bool): System {
    if workflow !in s.runs || !s.runs[workflow].status.Active? || to.Active? || to.RunCompleted? then s
    else
      var run := s.runs[workflow];
      s.(runs := s.runs[workflow :=
        if unavailable then TrackingRun(RunFailed, Some(ProviderUnavailable)) else run.(status := to)])
  }

  // ----- steps -----

  datatype Step =
    | BeginCancelStep(pid: nat, expected: int)
    | BeginRetryStep(pid: nat, expected: int, command: nat)
    | BeginTrackingStep(pid: nat, workflow: nat, state: TrackingState)
    | BeginFailureStep(pid: nat, workflow: nat, sequence: nat)
    | BeginRemoveStep(pid: nat, expected: int)
    | Proceed(pid: nat)
    | Stop(pid: nat)
    | BeginPreparationStep(workflow: nat, expected: int)
    | PreparationProgressStep(workflow: nat, expected: int, progress: int)
    | TrackingStartStep(workflow: nat, payloadExpected: int, expected: int)
    | CompleteStep(identity: Completion.Identity, evidence: Completion.Evidence)
    | CleanupStep
    | RunAppears(workflow: nat)
    | RunEndsOutside(workflow: nat, to: RunStatus, unavailable: bool)
    | SourceChanges(ready: bool)

  /** What a caller that is ready to write asks the database for. */
  function AskedBy(s: System, c: Caller): System {
    match c
    case CancelArmed(_, _) => WriteCancel(s, c)
    case RetryArmed(_, _, _) => WriteRetry(s, c)
    case TrackingArmed(_, _, _) => WriteTracking(s, c)
    case FailureArmed(_, _, _) => WriteFailure(s, c)
    case RemoveArmed(_, _) => WriteRemove(s, c)
    case _ => s
  }

  /** What a step asks the database for, whatever the table says to it. */
  function Asked(s: System, step: Step): System {
    match step
    case Proceed(pid) => if pid in s.callers then AskedBy(s, s.callers[pid]) else s
    case BeginPreparationStep(workflow, expected) => BeginPreparation(s, workflow, expected)
    case PreparationProgressStep(workflow, expected, progress) =>
      PublishPreparationProgress(s, workflow, expected, progress)
    case TrackingStartStep(workflow, _, expected) => PublishTrackingStart(s, workflow, expected)
    case CompleteStep(identity, evidence) => Complete(s, identity, evidence)
    case CleanupStep => Cleanup(s)
    case _ => s
  }

  predicate Refused(s: System, step: Step) {
    Asked(s, step).row != s.row && !Accepts(s.row, Asked(s, step).row)
  }

  function Next(s: System, pid: nat, c: Caller): System {
    match c
    case RetryReceipt(_, _, _) => ReadRetryReceipt(s, pid, c)
    case RetryRun(_, _, _) => ReadRetryRun(s, pid, c)
    case RetrySource(_, _, _) => ReadRetrySource(s, pid, c)
    case TrackingReading(_, _) => ReadTrackingRow(s, pid, c)
    case FailureReading(_, _) => ReadFailureRow(s, pid, c)
    case _ => Stops(Commit(s, AskedBy(s, c)), pid)
  }

  /** One step of the system; a caller that already runs under `pid` is replaced. */
  function Take(s: System, step: Step): System {
    match step
    case BeginCancelStep(pid, expected) => BeginCancel(s, pid, expected)
    case BeginRetryStep(pid, expected, command) => BeginRetry(s, pid, expected, command)
    case BeginTrackingStep(pid, workflow, state) => BeginTracking(s, pid, workflow, state)
    case BeginFailureStep(pid, workflow, sequence) => Goes(s, pid, FailureReading(workflow, sequence))
    case BeginRemoveStep(pid, expected) => BeginRemove(s, pid, expected)
    case Proceed(pid) => if pid in s.callers then Next(s, pid, s.callers[pid]) else s
    case Stop(pid) => Stops(s, pid)
    case RunAppears(workflow) =>
      if workflow in s.runs then s else s.(runs := s.runs[workflow := TrackingRun(Active, None)])
    case RunEndsOutside(workflow, to, unavailable) => EndOutside(s, workflow, to, unavailable)
    case SourceChanges(ready) => s.(sourceReady := ready)
    case _ => Commit(s, Asked(s, step))
  }

  function Run(s: System, steps: seq<Step>): System
    decreases steps
  {
    if steps == [] then s else Run(Take(s, steps[0]), steps[1..])
  }

  function Created(): System {
    System(Analysis(0, 1, Queued, Preparation, 0, 1), map[], map[], map[], 1, true)
  }

  // ----- what a repeated workflow step is told -----

  datatype Answer = Published | ReplayedAnswer | Stale

  /** Told after a conditional write missed: the row has already moved past it, or it never will. */
  function ReplayedTransition(row: Analysis, workflow: nat, expected: int, minimum: int): Answer {
    if row.workflowId == workflow && row.stateVersion > expected && row.progress >= minimum
    then ReplayedAnswer else Stale
  }
}
