/** What every interleaving of callers keeps about a driving analysis. */
module AnalysisRuns {
  import opened AnalysisLifecycle
  import opened AnalysisTable
  import opened Wrappers

  import Completion = AnalysisCompletion

  // ----- the invariant -----

  /** A row read earlier is the row still, or the row has a later version. */
  predicate Behind(current: Analysis, row: Analysis) {
    current.stateVersion < row.stateVersion || current == row
  }

  predicate CallerOk(row: Analysis, c: Caller) {
    match c
    case CancelArmed(current, expected) =>
      Behind(current, row) && current.stateVersion == expected && Mutable(current.status)
    case RetryReceipt(current, _, _) => Behind(current, row)
    case RetryRun(current, expected, _) => Behind(current, row) && RetryChecked(current, expected)
    case RetrySource(current, expected, _) => Behind(current, row) && RetryChecked(current, expected)
    case RetryArmed(current, expected, _) => Behind(current, row) && RetryChecked(current, expected)
    case TrackingReading(_, _) => true
    case TrackingArmed(current, workflow, _) =>
      && Behind(current, row)
      && current.stage == Tracking && current.workflowId == workflow
      && (current.status == Running || current.status == AwaitingReidentification)
    case FailureReading(_, _) => true
    case FailureArmed(current, workflow, _) =>
      Behind(current, row) && current.workflowId == workflow && (current.status == Queued || current.status == Running)
    case RemoveArmed(current, expected) =>
      Behind(current, row) && current.stateVersion == expected && current.status != Deleting && current.status != Deleted
  }

  predicate RetryChecked(current: Analysis, expected: int) {
    current.stateVersion == expected && (current.status == Failed || current.status == Completed)
  }

  ghost predicate CallersOk(s: System) {
    forall pid :: pid in s.callers ==> CallerOk(s.row, s.callers[pid])
  }

  ghost predicate Inv(s: System) {
    && Checked(s.row)
    && s.row.workflowId < s.nextWorkflow
    && s.row.sequence == 1 + |s.receipts|
    && CallersOk(s)
  }

  // ----- one step -----

  /** The transitions between statuses that the code asks for and the table accepts. */
  predicate Edge(from: Status, to: Status) {
    match from
    case Queued => to == Running || to == Failed || to == Cancelled || to == Deleting
    case Running => to != Queued && to != Deleted
    case AwaitingReidentification => to == Running || to == Cancelled || to == Deleting
    case Completed => to == Queued || to == Deleting
    case Failed => to == Queued || to == Deleting
    case Cancelled => to == Deleting
    case Deleting => to == Deleted
    case Deleted => false
  }

  /** The row a retry leaves: a fresh workflow from the start. */
  predicate Restarted(s: System, row: Analysis) {
    row == Analysis(s.nextWorkflow, s.row.sequence + 1, Queued, Preparation, 0, s.row.stateVersion + 1)
  }

  predicate Moved(s: System, row: Analysis) {
    && row.stateVersion == s.row.stateVersion + 1
    && Edge(s.row.status, row.status)
    && (row.status == Queued ==> Restarted(s, row))
    && (row.status != Queued ==>
         && row.workflowId == s.row.workflowId && row.sequence == s.row.sequence
         && s.row.progress <= row.progress && Place(s.row.stage) <= Place(row.stage))
    && Checked(row)
  }

  /** The workflow a write is made for; removal and cleanup act on whatever workflow there is. */
  function ActsFor(s: System, step: Step): Option<nat> {
    match step
    case Proceed(pid) =>
      if pid !in s.callers then None else
      (match s.callers[pid]
       case CancelArmed(current, _) => Some(current.workflowId)
       case RetryArmed(current, _, _) => Some(current.workflowId)
       case TrackingArmed(_, workflow, _) => Some(workflow)
       case FailureArmed(_, workflow, _) => Some(workflow)
       case _ => None)
    case BeginPreparationStep(workflow, _) => Some(workflow)
    case PreparationProgressStep(workflow, _, _) => Some(workflow)
    case TrackingStartStep(workflow, _, _) => Some(workflow)
    case CompleteStep(identity, _) => Some(identity.workflowId)
    case _ => None
  }

  lemma ShareIsBounded(progress: nat)
    ensures 21 <= TrackingShare(progress) <= 99
    ensures TrackingShare(progress) == 99 <==> progress >= 99
  {
  }

  lemma CancelMoves(s: System, c: Caller)
    requires Checked(s.row) && c.CancelArmed? && CallerOk(s.row, c)
    ensures var t := Commit(s, WriteCancel(s, c)); t.row == s.row || Moved(s, t.row)
  {
    hide EndRuns;
  }

  lemma RetryMoves(s: System, c: Caller)
    requires Checked(s.row) && c.RetryArmed? && CallerOk(s.row, c)
    ensures var t := Commit(s, WriteRetry(s, c)); t.row == s.row || Moved(s, t.row)
  {
    hide EndRuns;
  }

  lemma TrackingMoves(s: System, c: Caller)
    requires Checked(s.row) && c.TrackingArmed? && CallerOk(s.row, c)
    ensures var t := Commit(s, WriteTracking(s, c)); t.row == s.row || Moved(s, t.row)
  {
    ShareIsBounded(c.state.progress);
    hide TrackingShare;
  }

  lemma FailureMoves(s: System, c: Caller)
    requires Checked(s.row) && c.FailureArmed? && CallerOk(s.row, c)
    ensures var t := Commit(s, WriteFailure(s, c)); t.row == s.row || Moved(s, t.row)
  {
    hide EndRuns;
  }

  /** The removal's write names only a version: that alone keeps it off a deleted analysis. */
  lemma RemoveMoves(s: System, c: Caller)
    requires Checked(s.row) && c.RemoveArmed? && CallerOk(s.row, c)
    ensures var t := Commit(s, WriteRemove(s, c)); t.row == s.row || Moved(s, t.row)
  {
    hide EndRuns;
  }

  lemma CallerMoves(s: System, pid: nat)
    requires Inv(s) && pid in s.callers
    ensures var t := Next(s, pid, s.callers[pid]);
            t.row == s.row || Moved(s, t.row)
  {
    hide WriteCancel, WriteRetry, WriteTracking, WriteFailure, WriteRemove, Moved, Checked, CallerOk;
    var c := s.callers[pid];
    CallerIsOk(s, pid);
    match c
    case CancelArmed(_, _) => CancelMoves(s, c);
    case RetryArmed(_, _, _) => RetryMoves(s, c);
    case TrackingArmed(_, _, _) => TrackingMoves(s, c);
    case FailureArmed(_, _, _) => FailureMoves(s, c);
    case RemoveArmed(_, _) => RemoveMoves(s, c);
    case _ =>
  }

  lemma CallerIsOk(s: System, pid: nat)
    requires CallersOk(s) && pid in s.callers
    ensures CallerOk(s.row, s.callers[pid])
  {
  }

  /** Every effective write raises the version by exactly one, along an edge, for the current workflow. */
  lemma StepMoves(s: System, step: Step)
    requires Inv(s)
    ensures var t := Take(s, step);
            t.row == s.row
            || (Moved(s, t.row) && (ActsFor(s, step).Some? ==> ActsFor(s, step).value == s.row.workflowId))
  {
    hide CallersOk, Next, Moved, Checked, EndRuns;
    match step
    case Proceed(pid) =>
      if pid in s.callers {
        CallerMoves(s, pid);
        CallerActsForCurrent(s, pid);
      }
    case BeginPreparationStep(_, _) => StatementMoves(s, step);
    case PreparationProgressStep(_, _, _) => StatementMoves(s, step);
    case TrackingStartStep(_, _, _) => StatementMoves(s, step);
    case CompleteStep(_, _) => StatementMoves(s, step);
    case CleanupStep => StatementMoves(s, step);
    case _ =>
  }

  lemma StatementMoves(s: System, step: Step)
    requires Checked(s.row) && !step.Proceed?
    ensures var t := Take(s, step);
            t.row == s.row
            || (Moved(s, t.row) && (ActsFor(s, step).Some? ==> ActsFor(s, step).value == s.row.workflowId))
  {
  }

  lemma CallerActsForCurrent(s: System, pid: nat)
    requires Inv(s) && pid in s.callers
    ensures Take(s, Proceed(pid)).row != s.row && ActsFor(s, Proceed(pid)).Some? ==>
              ActsFor(s, Proceed(pid)).value == s.row.workflowId
  {
    CallerIsOk(s, pid);
  }

  // ----- the invariant holds over whole runs -----

  lemma CallerStable(row: Analysis, later: Analysis, c: Caller)
    requires CallerOk(row, c) && (later == row || later.stateVersion == row.stateVersion + 1)
    ensures CallerOk(later, c)
  {
  }

  /** Callers that stay, or whose new reading is of this very row, remain in order. */
  lemma CallersStable(s: System, t: System)
    requires CallersOk(s) && (t.row == s.row || t.row.stateVersion == s.row.stateVersion + 1)
    requires forall pid :: pid in t.callers ==>
               (pid in s.callers && t.callers[pid] == s.callers[pid]) || CallerOk(t.row, t.callers[pid])
    ensures CallersOk(t)
  {
    hide CallerOk;
    forall pid | pid in t.callers ensures CallerOk(t.row, t.callers[pid]) {
      if pid in s.callers && t.callers[pid] == s.callers[pid] {
        CallerIsOk(s, pid);
        CallerStable(s.row, t.row, s.callers[pid]);
      }
    }
  }

  lemma WritingLeavesCallers(s: System, c: Caller)
    ensures Commit(s, AskedBy(s, c)).callers == s.callers
  {
    hide EndRuns, Accepts, TrackingTarget;
  }

  lemma CallerKeepsOrder(s: System, pid: nat)
    requires Inv(s) && pid in s.callers
    ensures CallersOk(Next(s, pid, s.callers[pid]))
  {
    hide CallersOk, Moved, Checked, TrackingTarget, Commit, AskedBy;
    CallerIsOk(s, pid);
    CallerMoves(s, pid);
    WritingLeavesCallers(s, s.callers[pid]);
    var t := Next(s, pid, s.callers[pid]);
    if t.row != s.row {
      MovedUp(s, t.row);
    }
    CallersStable(s, t);
  }

  lemma MovedUp(s: System, row: Analysis)
    requires Moved(s, row)
    ensures row.stateVersion == s.row.stateVersion + 1 && Checked(row)
    ensures row.workflowId == s.row.workflowId || row.workflowId == s.nextWorkflow
  {
  }

  lemma StatementsLeaveCallers(s: System, step: Step)
    requires !step.Proceed?
    ensures Commit(s, Asked(s, step)).callers == s.callers
  {
    hide Accepts, Completion.Ready;
  }

  lemma StepKeepsOrder(s: System, step: Step)
    requires Inv(s)
    ensures CallersOk(Take(s, step))
  {
    hide CallersOk, Next, Moved, Checked, Commit, Asked;
    StepMoves(s, step);
    var t := Take(s, step);
    if t.row != s.row {
      MovedUp(s, t.row);
    }
    match step
    case Proceed(pid) => if pid in s.callers { CallerKeepsOrder(s, pid); }
    case _ =>
      StatementsLeaveCallers(s, step);
      CallersStable(s, t);
  }

  predicate IsRetry(s: System, step: Step) {
    step.Proceed? && step.pid in s.callers && s.callers[step.pid].RetryArmed?
  }

  /** What identifies a workflow and its receipts, all at once. */
  predicate SameWorkflow(s: System, t: System) {
    && t.receipts == s.receipts && t.nextWorkflow == s.nextWorkflow
    && t.row.workflowId == s.row.workflowId && t.row.sequence == s.row.sequence
  }

  lemma CallersKeepTheWorkflow(s: System, pid: nat, c: Caller)
    requires !c.RetryArmed?
    ensures SameWorkflow(s, Next(s, pid, c))
  {
    hide EndRuns, TrackingTarget;
  }

  lemma OnlyRetryStartsAWorkflow(s: System, step: Step)
    requires !IsRetry(s, step)
    ensures SameWorkflow(s, Take(s, step))
  {
    hide Next;
    if step.Proceed? && step.pid in s.callers {
      CallersKeepTheWorkflow(s, step.pid, s.callers[step.pid]);
    }
  }

  /** A retry that takes effect restarts the row under a fresh workflow and leaves one new receipt. */
  lemma RetryTakesEffect(s: System, pid: nat)
    requires Inv(s) && pid in s.callers && s.callers[pid].RetryArmed?
    ensures var c := s.callers[pid];
            var t := Take(s, Proceed(pid));
            if RetryWitness(s, c) && c.command !in s.receipts then
              && Restarted(s, t.row)
              && t.receipts == s.receipts[c.command := Receipt(s.row.stateVersion, s.nextWorkflow)]
              && t.nextWorkflow == s.nextWorkflow + 1
              && (s.row.status == Failed || s.row.status == Completed)
            else SameWorkflow(s, t) && t.row == s.row
  {
    hide EndRuns;
    CallerIsOk(s, pid);
  }

  lemma StepKeeps(s: System, step: Step)
    requires Inv(s)
    ensures Inv(Take(s, step))
  {
    hide CallersOk, Take, Moved, Checked;
    StepMoves(s, step);
    StepKeepsOrder(s, step);
    var t := Take(s, step);
    if t.row != s.row {
      MovedUp(s, t.row);
    }
    if IsRetry(s, step) {
      RetryTakesEffect(s, step.pid);
    } else {
      OnlyRetryStartsAWorkflow(s, step);
    }
  }

  lemma CreatedInv()
    ensures Inv(Created())
  {
  }

  lemma {:induction false} RunKeeps(s: System, steps: seq<Step>)
    requires Inv(s)
    ensures Inv(Run(s, steps))
    decreases steps
  {
    hide Inv, Take;
    if steps != [] {
      StepKeeps(s, steps[0]);
      RunKeeps(Take(s, steps[0]), steps[1..]);
    }
  }

  // ----- what the table refuses -----

  /** A refused statement or batch leaves the row, the runs and the receipts as they were. */
  lemma RefusedLeavesNothing(s: System, step: Step)
    requires Refused(s, step)
    ensures var t := Take(s, step);
            SameWorkflow(s, t) && t.row == s.row && t.runs == s.runs
    ensures step.Proceed? ==> step.pid in s.callers && Take(s, step).callers == s.callers - {step.pid}
    ensures !step.Proceed? ==> Take(s, step) == s
  {
    hide Accepts, EndRuns, TrackingTarget, Completion.Ready;
  }

  /** A report that names the row as it is, while it is prepared. */
  predicate Reporting(row: Analysis, step: Step) {
    step.PreparationProgressStep? && 1 <= step.progress <= 99
    && row.workflowId == step.workflow && row.stateVersion == step.expected
    && row.status == Running && row.stage == Preparation
  }

  /** A start of tracking that names the row as it is, while it is prepared. */
  predicate StartingTracking(row: Analysis, step: Step) {
    step.TrackingStartStep?
    && row.workflowId == step.workflow && row.stateVersion == step.expected
    && row.status == Running && row.stage == Preparation
  }

  /** A tracking state other than going on or cancelled, published on a row that waits for an identification. */
  predicate StopsWaiting(s: System, step: Step) {
    step.Proceed? && step.pid in s.callers
    && var c := s.callers[step.pid];
       && c.TrackingArmed? && TrackingWitness(s, c) && s.row.status == AwaitingReidentification
       && (c.state.lifecycle.TrackingFailed? || c.state.lifecycle.TrackingAwaiting?)
  }

  /** A completion, with all it needs, of an analysis that does not run. */
  ghost predicate CompletesUnstarted(s: System, step: Step) {
    step.CompleteStep? && step.identity.workflowId == s.row.workflowId
    && (s.row.status == Queued || s.row.status == AwaitingReidentification)
    && s.row.workflowId in s.runs
    && match s.runs[s.row.workflowId].status
       case RunCompleted => true
       case Active => Completion.EvidenceComplete(step.evidence, step.identity)
       case _ => false
  }

  /**
   In every state that callers can reach, the table refuses exactly four things: a report below the
   progress there is, a start of tracking above 21, a failure or a further wait of an analysis that
   waits, and a completion of one that does not run.
   */
  lemma RefusedExactly(s: System, step: Step)
    requires Inv(s)
    ensures Refused(s, step) <==>
              || (Reporting(s.row, step) && step.progress < s.row.progress)
              || (StartingTracking(s.row, step) && s.row.progress > 21)
              || StopsWaiting(s, step)
              || CompletesUnstarted(s, step)
  {
    match step
    case Proceed(pid) =>
      if pid in s.callers {
        CallerIsOk(s, pid);
        hide CallersOk;
        CallerRefused(s, s.callers[pid]);
        hide Accepts, AskedBy, CallerOk;
      }
    case CompleteStep(identity, evidence) => CompletionRefused(s, step);
    case _ => hide CallersOk;
  }

  lemma CompletionRefused(s: System, step: Step)
    requires Checked(s.row) && step.CompleteStep?
    ensures Refused(s, step) <==> CompletesUnstarted(s, step)
  {
    Completion.ReadyMeans(step.evidence, step.identity);
    hide Completion.Ready, Completion.EvidenceComplete;
  }

  lemma CallerRefused(s: System, c: Caller)
    requires Checked(s.row) && CallerOk(s.row, c) && s.row.workflowId < s.nextWorkflow
    ensures AskedBy(s, c).row != s.row && !Accepts(s.row, AskedBy(s, c).row) <==>
              c.TrackingArmed? && TrackingWitness(s, c) && s.row.status == AwaitingReidentification
              && (c.state.lifecycle.TrackingFailed? || c.state.lifecycle.TrackingAwaiting?)
  {
    hide EndRuns;
    if c.TrackingArmed? {
      ShareIsBounded(c.state.progress);
      hide TrackingShare;
    }
  }
}
