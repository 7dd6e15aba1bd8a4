/** The promises a driving analysis keeps, over every run from any state callers can reach. */
module AnalysisTheorems {
  import opened AnalysisLifecycle
  import opened AnalysisRuns
  import opened AnalysisTable
  import opened Wrappers

  import Completion = AnalysisCompletion

  // ----- versions count writes -----

  function Writes(s: System, steps: seq<Step>): nat
    decreases steps
  {
    if steps == [] then 0
    else (if Take(s, steps[0]).row == s.row then 0 else 1) + Writes(Take(s, steps[0]), steps[1..])
  }

  /** The state version counts the writes that changed the row: none is lost, none is counted twice. */
  lemma {:induction false} VersionCountsWrites(s: System, steps: seq<Step>)
    requires Inv(s)
    ensures Run(s, steps).row.stateVersion == s.row.stateVersion + Writes(s, steps)
    ensures Writes(s, steps) == 0 ==> Run(s, steps).row == s.row
    decreases steps
  {
    hide Inv, Take, Checked;
    if steps != [] {
      StepMoves(s, steps[0]);
      StepKeeps(s, steps[0]);
      VersionCountsWrites(Take(s, steps[0]), steps[1..]);
    }
  }

  /** Two states of one run with the same version hold the same row. */
  lemma SameVersionSameRow(s: System, steps: seq<Step>)
    requires Inv(s) && Run(s, steps).row.stateVersion == s.row.stateVersion
    ensures Run(s, steps).row == s.row
  {
    VersionCountsWrites(s, steps);
  }

  // ----- earlier workflows -----

  /** A workflow that is not current any more never is again. */
  lemma {:induction false} RetiredForever(s: System, steps: seq<Step>, w: nat)
    requires Inv(s) && w < s.nextWorkflow && w != s.row.workflowId
    ensures w < Run(s, steps).nextWorkflow && w != Run(s, steps).row.workflowId
    decreases steps
  {
    hide Inv, Take, Moved, Checked, EndRuns, RetryWitness;
    if steps != [] {
      var step := steps[0];
      StepKeeps(s, step);
      if IsRetry(s, step) {
        RetryTakesEffect(s, step.pid);
      } else {
        OnlyRetryStartsAWorkflow(s, step);
      }
      RetiredForever(Take(s, step), steps[1..], w);
    }
  }

  /** After a retry, no write made for an earlier workflow changes the row, ever. */
  lemma EarlierWorkflowsWriteNothing(s: System, steps: seq<Step>, step: Step, w: nat)
    requires Inv(s) && w < s.nextWorkflow && w != s.row.workflowId
    requires ActsFor(Run(s, steps), step) == Some(w)
    ensures Take(Run(s, steps), step).row == Run(s, steps).row
  {
    hide Take, Run, Moved, Checked;
    RunKeeps(s, steps);
    RetiredForever(s, steps, w);
    StepMoves(Run(s, steps), step);
  }

  // ----- where statuses lead -----

  predicate Onward(from: Status, to: Status) {
    && (from == Cancelled ==> to == Cancelled || to == Deleting || to == Deleted)
    && (from == Deleting ==> to == Deleting || to == Deleted)
    && (from == Deleted ==> to == Deleted)
  }

  /** A cancelled analysis can only be deleted, and a deleted one stays as it is; neither changes workflow. */
  lemma {:induction false} EndingsAreFinal(s: System, steps: seq<Step>)
    requires Inv(s)
    ensures Onward(s.row.status, Run(s, steps).row.status)
    ensures s.row.status == Cancelled || s.row.status == Deleting ==>
              Run(s, steps).row.workflowId == s.row.workflowId && Run(s, steps).row.progress == s.row.progress
    ensures s.row.status == Deleted ==> Run(s, steps).row == s.row
    decreases steps
  {
    hide Inv, Take, Checked;
    if steps != [] {
      StepMoves(s, steps[0]);
      StepKeeps(s, steps[0]);
      EndingKeepsProgress(s, steps[0]);
      EndingsAreFinal(Take(s, steps[0]), steps[1..]);
    }
  }

  lemma EndingKeepsProgress(s: System, step: Step)
    requires Inv(s)
    ensures s.row.status == Cancelled || s.row.status == Deleting || s.row.status == Deleted ==>
              Take(s, step).row.progress == s.row.progress
  {
    hide TrackingTarget, EndRuns, CallersOk, Next;
    if step.Proceed? && step.pid in s.callers
       && (s.row.status == Cancelled || s.row.status == Deleting || s.row.status == Deleted) {
      CallerIsOk(s, step.pid);
      EndedCallersKeepProgress(s, step.pid, s.callers[step.pid]);
    }
  }

  lemma EndedCallersKeepProgress(s: System, pid: nat, c: Caller)
    requires CallerOk(s.row, c) && (s.row.status == Cancelled || s.row.status == Deleting || s.row.status == Deleted)
    ensures Next(s, pid, c).row.progress == s.row.progress
  {
    hide TrackingTarget, EndRuns;
  }

  // ----- progress -----

  /** Tracking progress maps monotonically into 21..99, and to 99 only from 99 on or on completion. */
  lemma TrackingMapIsMonotone(a: TrackingState, b: TrackingState)
    ensures 21 <= TrackingTarget(a).progress <= 99
    ensures TrackingTarget(a).progress == 99 <==>
              a.progress >= 99 || (a.lifecycle.TrackingCompleted?)
    ensures a.lifecycle == b.lifecycle && a.progress <= b.progress ==>
              TrackingTarget(a).progress <= TrackingTarget(b).progress
    ensures TrackingTarget(a).status == Failed <==> a.lifecycle.TrackingFailed?
    ensures TrackingTarget(a).status == Cancelled <==> a.lifecycle.TrackingCancelled?
    ensures TrackingTarget(a).status == AwaitingReidentification <==> a.lifecycle.TrackingAwaiting?
    ensures TrackingTarget(a).status in {Running, AwaitingReidentification, Failed, Cancelled}
  {
    ShareIsBounded(a.progress);
    ShareIsBounded(b.progress);
  }

  /** Nothing but a retry changes the workflow, and then the earlier one is behind it for good. */
  lemma Retires(s: System, step: Step)
    requires Inv(s)
    ensures s.row.workflowId < Take(s, step).nextWorkflow
  {
    StepKeeps(s, step);
    hide Inv, Take, EndRuns, RetryWitness;
    if IsRetry(s, step) {
      RetryTakesEffect(s, step.pid);
    } else {
      OnlyRetryStartsAWorkflow(s, step);
    }
    assert s.row.workflowId < s.nextWorkflow by { InvBoundsWorkflow(s); }
  }

  lemma InvBoundsWorkflow(s: System)
    requires Inv(s)
    ensures s.row.workflowId < s.nextWorkflow
  {
  }

  /** A run that ends in the workflow it began in never left it. */
  lemma StayedInWorkflow(s: System, step: Step, rest: seq<Step>)
    requires Inv(s) && Run(Take(s, step), rest).row.workflowId == s.row.workflowId
    ensures Take(s, step).row.workflowId == s.row.workflowId
  {
    hide Inv, Take, Run;
    StepKeeps(s, step);
    if Take(s, step).row.workflowId != s.row.workflowId {
      Retires(s, step);
      RetiredForever(Take(s, step), rest, s.row.workflowId);
    }
  }

  /** Whatever is reported and whatever runs, neither progress nor stage falls while the workflow stays. */
  lemma {:induction false} ProgressNeverFalls(s: System, steps: seq<Step>)
    requires Inv(s) && Run(s, steps).row.workflowId == s.row.workflowId
    ensures s.row.progress <= Run(s, steps).row.progress
    ensures Place(s.row.stage) <= Place(Run(s, steps).row.stage)
    decreases steps
  {
    hide Inv, Take, Checked;
    if steps != [] {
      StepKeeps(s, steps[0]);
      StepMoves(s, steps[0]);
      InvBoundsWorkflow(s);
      StayedInWorkflow(s, steps[0], steps[1..]);
      ProgressNeverFalls(Take(s, steps[0]), steps[1..]);
    }
  }

  /** So it is between any two moments of any run from creation on. */
  lemma ProgressNeverFallsFromCreation(before: seq<Step>, after: seq<Step>)
    ensures var s := Run(Created(), before);
            var t := Run(s, after);
            t.row.workflowId == s.row.workflowId ==>
              s.row.progress <= t.row.progress && Place(s.row.stage) <= Place(t.row.stage)
  {
    CreatedInv();
    RunKeeps(Created(), before);
    var s := Run(Created(), before);
    if Run(s, after).row.workflowId == s.row.workflowId {
      ProgressNeverFalls(s, after);
    }
  }

  /** Every preparation report in these steps is `r`. */
  predicate Reports(steps: seq<Step>, r: int) {
    forall i :: 0 <= i < |steps| && steps[i].PreparationProgressStep? ==> steps[i].progress == r
  }

  predicate PreparedAt(row: Analysis, r: int) {
    row.stage == Preparation ==> row.progress == 0 || row.progress == r
  }

  lemma StepKeepsPreparedAt(s: System, step: Step, r: int)
    requires Inv(s) && PreparedAt(s.row, r)
    requires step.PreparationProgressStep? ==> step.progress == r
    ensures PreparedAt(Take(s, step).row, r)
  {
    hide Next, CallersOk, Completion.Ready, Accepts;
    if step.Proceed? && step.pid in s.callers {
      CallerIsOk(s, step.pid);
      CallersKeepPreparedAt(s, step.pid, s.callers[step.pid], r);
    }
  }

  lemma CallersKeepPreparedAt(s: System, pid: nat, c: Caller, r: int)
    requires CallerOk(s.row, c) && PreparedAt(s.row, r)
    ensures PreparedAt(Next(s, pid, c).row, r)
  {
    hide TrackingTarget, EndRuns, Accepts;
  }

  lemma {:induction false} RunKeepsPreparedAt(s: System, steps: seq<Step>, r: int)
    requires Inv(s) && PreparedAt(s.row, r) && Reports(steps, r)
    ensures PreparedAt(Run(s, steps).row, r)
    decreases steps
  {
    hide Inv, Take;
    if steps != [] {
      StepKeeps(s, steps[0]);
      StepKeepsPreparedAt(s, steps[0], r);
      RunKeepsPreparedAt(Take(s, steps[0]), steps[1..], r);
    }
  }

  /** While preparation reports one value of at most 21, as it does with 20, the table refuses no publication. */
  lemma SteadyReportsAreNotRefused(steps: seq<Step>, step: Step, r: int)
    requires 1 <= r <= 21 && Reports(steps + [step], r) && IsPublish(step)
    ensures !Refused(Run(Created(), steps), step)
  {
    var s := Run(Created(), steps);
    CreatedInv();
    RunKeeps(Created(), steps);
    assert (steps + [step])[|steps|] == step;
    assert Reports(steps, r) by {
      assert forall i :: 0 <= i < |steps| ==> (steps + [step])[i] == steps[i];
    }
    RunKeepsPreparedAt(Created(), steps, r);
    RefusedExactly(s, step);
    hide Refused, Inv;
  }

  predicate Overprepared(row: Analysis) {
    row.progress > 21 && row.stage != Tracking
  }

  /** Once more than 21 was reported, tracking never starts in that workflow, whatever runs. */
  lemma {:induction false} LargerReportsBlockTracking(s: System, steps: seq<Step>)
    requires Inv(s) && Overprepared(s.row) && Run(s, steps).row.workflowId == s.row.workflowId
    ensures Overprepared(Run(s, steps).row)
    decreases steps
  {
    hide Inv, Take, Checked;
    if steps != [] {
      StepKeeps(s, steps[0]);
      StayedInWorkflow(s, steps[0], steps[1..]);
      StaysOverprepared(s, steps[0]);
      LargerReportsBlockTracking(Take(s, steps[0]), steps[1..]);
    }
  }

  lemma StaysOverprepared(s: System, step: Step)
    requires Inv(s) && Overprepared(s.row) && Take(s, step).row.workflowId == s.row.workflowId
    ensures Overprepared(Take(s, step).row)
  {
    StepMoves(s, step);
    InvBoundsWorkflow(s);
    hide Inv, Take, Checked;
    if Take(s, step).row.stage == Tracking {
      OnlyTrackingStartEntersTracking(s, step);
    }
  }

  lemma OnlyTrackingStartEntersTracking(s: System, step: Step)
    requires Inv(s) && s.row.stage != Tracking && Take(s, step).row.stage == Tracking
    ensures StartingTracking(s.row, step) && s.row.progress <= 21
  {
    hide Next, Completion.Ready, Checked, CallersOk;
    if step.Proceed? && step.pid in s.callers {
      CallersStayOutOfTracking(s, step.pid, s.callers[step.pid]);
    }
  }

  lemma CallersStayOutOfTracking(s: System, pid: nat, c: Caller)
    requires s.row.stage != Tracking
    ensures Next(s, pid, c).row.stage != Tracking
  {
    hide EndRuns, TrackingTarget, Accepts;
  }

  /** An input: a report above 21 is accepted, and the start of tracking after it is refused. */
  lemma LargerReportIsAccepted(r: int)
    requires 21 < r <= 99
    ensures var steps := [BeginPreparationStep(0, 1), PreparationProgressStep(0, 2, r)];
            var s := Run(Created(), steps);
            s.row.progress == r && Overprepared(s.row) && Refused(s, TrackingStartStep(0, 3, 3))
  {
    var steps := [BeginPreparationStep(0, 1), PreparationProgressStep(0, 2, r)];
    RunTwo(Created(), steps[0], steps[1], []);
    assert steps == [steps[0], steps[1]] + [];
  }

  lemma RunTwo(s: System, a: Step, b: Step, rest: seq<Step>)
    ensures Run(s, [a, b] + rest) == Run(Take(Take(s, a), b), rest)
  {
    hide Take;
    var steps := [a, b] + rest;
    assert steps[1..] == [b] + rest && steps[1..][1..] == rest;
    assert Run(s, steps) == Run(Take(s, a), steps[1..]);
  }

  // ----- an analysis that waits -----

  const WAITS := TrackingState(TrackingAwaiting, 0, None)
  const FAILS := TrackingState(TrackingFailed, 0, Some(ProviderFailed))

  /** Tracking starts, its run comes to wait for an identification, and then a failure of it is brought. */
  function WaitsThenFails(): seq<Step> {
    [BeginPreparationStep(0, 1), TrackingStartStep(0, 2, 2)]
    + ([RunAppears(0), BeginTrackingStep(0, 0, WAITS)]
    + ([Proceed(0), Proceed(0)]
    + ([BeginTrackingStep(0, 0, FAILS), Proceed(0)] + [])))
  }

  function Tracks(): System {
    Created().(row := Analysis(0, 1, Running, Tracking, 21, 3), runs := map[0 := TrackingRun(Active, None)])
  }

  function Waits(): System {
    Tracks().(row := Analysis(0, 1, AwaitingReidentification, Tracking, 21, 4))
  }

  lemma ReadyToPublish(s: System, state: TrackingState)
    requires 0 in s.runs && s.runs[0].status.Active? && s.row.workflowId == 0 && s.row.stage == Tracking
    requires s.row.status == Running || s.row.status == AwaitingReidentification
    requires s.row.status != TrackingTarget(state).status && s.callers == map[]
    ensures Take(Take(s, BeginTrackingStep(0, 0, state)), Proceed(0)) == s.(callers := map[0 := TrackingArmed(s.row, 0, state)])
  {
    hide TrackingTarget, Accepts;
    assert Take(s, BeginTrackingStep(0, 0, state)) == s.(callers := map[0 := TrackingReading(0, state)]);
  }

  lemma ComesToTrack()
    ensures Take(Take(Take(Created(), BeginPreparationStep(0, 1)), TrackingStartStep(0, 2, 2)), RunAppears(0)) == Tracks()
  {
  }

  lemma ComesToWait()
    ensures Take(Tracks().(callers := map[0 := TrackingArmed(Tracks().row, 0, WAITS)]), Proceed(0)) == Waits()
  {
  }

  /** An input: the failure of a run whose analysis waits is refused, so the run stays active and the analysis waits on. */
  lemma WaitingIsNotFailed()
    ensures var s := Run(Created(), WaitsThenFails());
            && s.row == Waits().row && s.runs == Waits().runs
            && Refused(s, Proceed(0)) && Take(s, Proceed(0)) == Waits()
  {
    var s0 := Created();
    var last := [BeginTrackingStep(0, 0, FAILS), Proceed(0)];
    var middle := [Proceed(0), Proceed(0)] + (last + []);
    RunTwo(s0, BeginPreparationStep(0, 1), TrackingStartStep(0, 2, 2), [RunAppears(0), BeginTrackingStep(0, 0, WAITS)] + middle);
    var s2 := Take(Take(s0, BeginPreparationStep(0, 1)), TrackingStartStep(0, 2, 2));
    RunTwo(s2, RunAppears(0), BeginTrackingStep(0, 0, WAITS), middle);
    RunTwo(Take(Tracks(), BeginTrackingStep(0, 0, WAITS)), Proceed(0), Proceed(0), last + []);
    RunTwo(Waits(), BeginTrackingStep(0, 0, FAILS), Proceed(0), []);
    ComesToTrack();
    ReadyToPublish(Tracks(), WAITS);
    ComesToWait();
    ReadyToPublish(Waits(), FAILS);
    var armed := Waits().(callers := map[0 := TrackingArmed(Waits().row, 0, FAILS)]);
    FailureIsRefused(armed);
    hide Take, Refused;
  }

  lemma FailureIsRefused(s: System)
    requires s == Waits().(callers := map[0 := TrackingArmed(Waits().row, 0, FAILS)])
    ensures Refused(s, Proceed(0)) && Take(s, Proceed(0)) == Waits()
  {
  }

  // ----- repeated workflow steps -----

  /** A workflow's own publishing statements. */
  predicate IsPublish(step: Step) {
    step.BeginPreparationStep? || step.PreparationProgressStep? || step.TrackingStartStep?
  }

  /** The progress such a statement leaves, and asks for when it is repeated. */
  function Least(step: Step): int
    requires IsPublish(step)
  {
    if step.BeginPreparationStep? then 0 else if step.TrackingStartStep? then 21 else step.progress
  }

  /** The version a repeated statement is compared with; tracking start has one in its payload and one for its write. */
  function Claimed(step: Step): int
    requires IsPublish(step)
  {
    if step.TrackingStartStep? then step.payloadExpected else step.expected
  }

  lemma PublishLeaves(s: System, step: Step)
    requires IsPublish(step) && Take(s, step).row != s.row
    ensures s.row.stateVersion == step.expected && s.row.workflowId == step.workflow
    ensures Take(s, step).row.workflowId == step.workflow && Take(s, step).row.stateVersion == step.expected + 1
    ensures Take(s, step).row.progress == Least(step)
  {
  }

  lemma PublishNeedsItsVersion(s: System, step: Step)
    requires IsPublish(step) && s.row.stateVersion != step.expected
    ensures Take(s, step) == s
  {
  }

  /**
   A workflow step that took effect and is repeated later, after anything else ran, changes nothing.
   While its workflow is the current one it is told so exactly when the row is past the version it
   names, as it always is when that is no later than the version the step wrote at.
   */
  lemma RepeatedPublishIsReplayed(s: System, step: Step, steps: seq<Step>)
    requires Inv(s) && IsPublish(step) && Take(s, step).row != s.row
    ensures var t := Run(Take(s, step), steps);
            var answer := ReplayedTransition(t.row, step.workflow, Claimed(step), Least(step));
            && Take(t, step) == t
            && (answer == ReplayedAnswer <==> t.row.workflowId == step.workflow && Claimed(step) < t.row.stateVersion)
            && (Claimed(step) <= step.expected ==> Claimed(step) < t.row.stateVersion)
            && (answer != ReplayedAnswer ==> answer == Stale)
  {
    hide Inv, Take, Checked;
    var u := Take(s, step);
    var t := Run(u, steps);
    StepKeeps(s, step);
    PublishLeaves(s, step);
    VersionCountsWrites(u, steps);
    PublishNeedsItsVersion(t, step);
    if t.row.workflowId == step.workflow {
      ProgressNeverFalls(u, steps);
    }
  }

  // ----- retries -----

  /** A receipt is never changed or lost, so a retry command restarts the analysis at most once. */
  lemma {:induction false} ReceiptsAreForever(s: System, steps: seq<Step>, command: nat)
    requires Inv(s) && command in s.receipts
    ensures command in Run(s, steps).receipts && Run(s, steps).receipts[command] == s.receipts[command]
    decreases steps
  {
    hide Inv, Take, Moved, Checked, EndRuns, RetryWitness;
    if steps != [] {
      var step := steps[0];
      StepKeeps(s, step);
      if IsRetry(s, step) {
        RetryTakesEffect(s, step.pid);
      } else {
        OnlyRetryStartsAWorkflow(s, step);
      }
      ReceiptsAreForever(Take(s, step), steps[1..], command);
    }
  }

  /** From creation on, the workflow sequence is one more than the number of retries that have a receipt. */
  lemma SequenceCountsReceipts(steps: seq<Step>)
    ensures var s := Run(Created(), steps); s.row.sequence == 1 + |s.receipts|
  {
    CreatedInv();
    RunKeeps(Created(), steps);
  }

  // ----- the analysis and its runs change together -----

  /** No run that the write is responsible for stays active. */
  predicate NoActive(runs: map<nat, TrackingRun>, only: Option<nat>) {
    forall w :: w in runs && (only.None? || only.value == w) ==> !runs[w].status.Active?
  }

  lemma EndRunsEnds(runs: map<nat, TrackingRun>, only: Option<nat>, to: RunStatus)
    requires !to.Active?
    ensures NoActive(EndRuns(runs, only, to), only)
  {
  }

  /** Cancelling, retrying, removing and failing tracking change the run exactly when they change the analysis. */
  lemma RunsEndWithTheAnalysis(s: System, pid: nat)
    requires pid in s.callers
    ensures var c := s.callers[pid];
            var t := Take(s, Proceed(pid));
            && (t.row == s.row && !c.FailureArmed? ==> t.runs == s.runs)
            && (t.row != s.row ==>
                 && (c.CancelArmed? ==> NoActive(t.runs, Some(s.row.workflowId)))
                 && (c.RetryArmed? || c.RemoveArmed? ==> NoActive(t.runs, None))
                 && (t.row.status == Failed ==> NoActive(t.runs, Some(s.row.workflowId))))
  {
    hide EndRuns, NoActive;
    var c := s.callers[pid];
    match c
    case CancelArmed(current, _) => EndRunsEnds(s.runs, Some(current.workflowId), RunCancelled);
    case RetryArmed(_, _, _) => EndRunsEnds(s.runs, None, Replaced);
    case RemoveArmed(_, _) => EndRunsEnds(s.runs, None, RunCancelled);
    case FailureArmed(_, workflow, _) => EndRunsEnds(s.runs, Some(workflow), RunFailed);
    case TrackingArmed(_, _, _) => TrackingEndsItsRun(s, c);
    case _ =>
  }

  lemma TrackingEndsItsRun(s: System, c: Caller)
    requires c.TrackingArmed?
    ensures var t := WriteTracking(s, c);
            && (t.row == s.row ==> t.runs == s.runs)
            && (t.row != s.row && t.row.status == Failed ==> NoActive(t.runs, Some(s.row.workflowId)))
  {
    hide TrackingTarget;
  }

  /** A run that left the active status never changes again. */
  lemma {:induction false} EndedRunsStayEnded(s: System, steps: seq<Step>, w: nat)
    requires w in s.runs && !s.runs[w].status.Active?
    ensures w in Run(s, steps).runs && Run(s, steps).runs[w] == s.runs[w]
    decreases steps
  {
    hide Take;
    if steps != [] {
      EndedRunStays(s, steps[0], w);
      EndedRunsStayEnded(Take(s, steps[0]), steps[1..], w);
    }
  }

  lemma EndedRunStays(s: System, step: Step, w: nat)
    requires w in s.runs && !s.runs[w].status.Active?
    ensures w in Take(s, step).runs && Take(s, step).runs[w] == s.runs[w]
  {
    hide Next;
    if step.Proceed? && step.pid in s.callers {
      CallersLeaveEndedRuns(s, step.pid, s.callers[step.pid], w);
    }
  }

  lemma CallersLeaveEndedRuns(s: System, pid: nat, c: Caller, w: nat)
    requires w in s.runs && !s.runs[w].status.Active?
    ensures w in Next(s, pid, c).runs && Next(s, pid, c).runs[w] == s.runs[w]
  {
    hide TrackingTarget;
  }

  // ----- completion needs its evidence -----

  /** A completed run belongs to a workflow whose analysis is no longer open. */
  ghost predicate CompletedRunsOk(s: System) {
    forall w :: w in s.runs && s.runs[w].status.RunCompleted? ==>
      w < s.nextWorkflow && (w == s.row.workflowId ==> !Mutable(s.row.status))
  }

  lemma CallerCompletesNoRun(s: System, pid: nat, c: Caller, w: nat)
    requires w in Next(s, pid, c).runs && Next(s, pid, c).runs[w].status.RunCompleted?
    ensures w in s.runs && s.runs[w].status.RunCompleted?
  {
  }

  lemma OnlyCompletionCompletesARun(s: System, step: Step, w: nat)
    requires w in Take(s, step).runs && Take(s, step).runs[w].status.RunCompleted?
    ensures (w in s.runs && s.runs[w].status.RunCompleted?)
            || (step.CompleteStep? && w == step.identity.workflowId == s.row.workflowId
                && Take(s, step).row.status == Completed)
  {
    hide Next;
    if step.Proceed? && step.pid in s.callers {
      CallerCompletesNoRun(s, step.pid, s.callers[step.pid], w);
    }
  }

  lemma StepKeepsCompletedRuns(s: System, step: Step)
    requires Inv(s) && CompletedRunsOk(s)
    ensures CompletedRunsOk(Take(s, step))
  {
    hide Inv, Take, Checked, RetryWitness;
    var t := Take(s, step);
    StepMoves(s, step);
    InvBoundsWorkflow(s);
    if IsRetry(s, step) {
      RetryTakesEffect(s, step.pid);
    } else {
      OnlyRetryStartsAWorkflow(s, step);
    }
    forall w | w in t.runs && t.runs[w].status.RunCompleted?
      ensures w < t.nextWorkflow && (w == t.row.workflowId ==> !Mutable(t.row.status))
    {
      OnlyCompletionCompletesARun(s, step, w);
    }
  }

  lemma {:induction false} RunKeepsCompletedRuns(s: System, steps: seq<Step>)
    requires Inv(s) && CompletedRunsOk(s)
    ensures CompletedRunsOk(Run(s, steps))
    decreases steps
  {
    hide Inv, Take, CompletedRunsOk;
    if steps != [] {
      StepKeeps(s, steps[0]);
      StepKeepsCompletedRuns(s, steps[0]);
      RunKeepsCompletedRuns(Take(s, steps[0]), steps[1..]);
    }
  }

  /**
   From creation on, an analysis completes only in a completion batch of its own workflow, together
   with its still active run, and only when at that moment the highest-order segment was completed,
   every segment of the run was measured and every eligible pass had its published clip.
   */
  lemma CompletionNeedsEvidence(steps: seq<Step>, step: Step)
    ensures var s := Run(Created(), steps);
            var t := Take(s, step);
            s.row.status != Completed && t.row.status == Completed ==>
              && s.row.status == Running
              && step.CompleteStep? && step.identity.workflowId == s.row.workflowId
              && step.identity.workflowId in s.runs && s.runs[step.identity.workflowId].status.Active?
              && t.runs[step.identity.workflowId].status.RunCompleted?
              && Completion.LastSegmentCompleted(step.evidence, step.identity)
              && Completion.EverySegmentMeasured(step.evidence, step.identity)
              && Completion.EveryPassClipped(step.evidence, step.identity)
  {
    hide Completion.Terminal, Completion.LastSegmentCompleted, Completion.MissingEvidence, Completion.MissingClips,
      Completion.EverySegmentMeasured, Completion.EveryPassClipped;
    CreatedInv();
    RunKeeps(Created(), steps);
    RunKeepsCompletedRuns(Created(), steps);
    CompletesByCompletion(Run(Created(), steps), step);
    if step.CompleteStep? {
      Completion.TerminalMeans(step.evidence, step.identity);
      Completion.MissingEvidenceMeans(step.evidence, step.identity);
      Completion.MissingClipsMeans(step.evidence, step.identity);
    }
  }

  lemma CompletesByCompletion(s: System, step: Step)
    requires Inv(s) && CompletedRunsOk(s)
    ensures s.row.status != Completed && Take(s, step).row.status == Completed ==>
              && s.row.status == Running
              && step.CompleteStep? && Completion.Ready(step.evidence, step.identity)
              && step.identity.workflowId == s.row.workflowId
              && step.identity.workflowId in s.runs && s.runs[step.identity.workflowId].status.Active?
              && step.identity.workflowId in Take(s, step).runs
              && Take(s, step).runs[step.identity.workflowId].status.RunCompleted?
  {
    hide Next, Inv, Completion.Ready;
    if step.Proceed? && step.pid in s.callers {
      CallerNeverCompletes(s, step.pid, s.callers[step.pid]);
    }
  }

  /** The lifecycle's row and runs are the database's, as the completion batch selects them. */
  predicate Matches(s: System, rows: Completion.Rows, identity: Completion.Identity) {
    && identity.analysisId in rows.analyses
    && rows.analyses[identity.analysisId] == Completion.AnalysisRow(identity.ownerId, s.row)
    && (Completion.RunFound(rows, identity) <==> identity.workflowId in s.runs)
    && (Completion.RunFound(rows, identity) ==> rows.runs[identity.runId].status == s.runs[identity.workflowId].status)
  }

  /** The lifecycle's completion step and the batch on the database rows stay in step. */
  lemma CompletionStaysInStep(s: System, rows: Completion.Rows, identity: Completion.Identity, evidence: Completion.Evidence)
    requires Matches(s, rows, identity)
    ensures Matches(Take(s, CompleteStep(identity, evidence)), Completion.Batched(rows, evidence, identity), identity)
    ensures Refused(s, CompleteStep(identity, evidence)) <==> Completion.Aborts(rows, evidence, identity)
  {
    hide Completion.Ready, Accepts;
  }

  lemma CallerNeverCompletes(s: System, pid: nat, c: Caller)
    ensures Next(s, pid, c).row.status == Completed ==> Next(s, pid, c).row == s.row
  {
    hide EndRuns;
  }

  // ----- rejected inputs -----

  predicate Rejected(s: System, w: nat) {
    w in s.runs && s.runs[w].code == Some(ArtifactInvalid)
  }

  /** A retry past its check of the run, whose row is still the row, is not for rejected inputs. */
  predicate RetryClean(s: System, c: Caller) {
    (c.RetrySource? || c.RetryArmed?) && c.current == s.row ==> !Rejected(s, s.row.workflowId)
  }

  ghost predicate RetriesClean(s: System) {
    forall pid :: pid in s.callers ==> RetryClean(s, s.callers[pid])
  }

  /** A run is rejected for its inputs only in a step that changes the analysis. */
  lemma CodesComeWithTheRow(s: System, step: Step, w: nat)
    requires Take(s, step).row == s.row && Rejected(Take(s, step), w)
    ensures Rejected(s, w)
  {
    hide Next;
    if step.Proceed? && step.pid in s.callers {
      CallerCodesComeWithTheRow(s, step.pid, s.callers[step.pid], w);
    }
  }

  lemma CallerCodesComeWithTheRow(s: System, pid: nat, c: Caller, w: nat)
    requires Next(s, pid, c).row == s.row && Rejected(Next(s, pid, c), w)
    ensures Rejected(s, w)
  {
    hide TrackingTarget;
  }

  /** A caller comes to a later check of a retry only from the check before it, with the row it read. */
  lemma RetriesAdvance(s: System, step: Step, pid: nat)
    requires pid in Take(s, step).callers
    ensures var c := Take(s, step).callers[pid];
            c.RetrySource? || c.RetryArmed? ==>
              && pid in s.callers
              && (s.callers[pid] == c
                  || (s.callers[pid].RetryRun? && c.RetrySource? && c.current == s.callers[pid].current
                      && !Rejected(s, c.current.workflowId))
                  || (s.callers[pid].RetrySource? && c.RetryArmed? && c.current == s.callers[pid].current))
  {
    hide Next;
    if step.Proceed? && step.pid in s.callers {
      NextRetriesAdvance(s, step.pid, s.callers[step.pid], pid);
    }
  }

  lemma NextRetriesAdvance(s: System, pid: nat, c: Caller, q: nat)
    requires pid in s.callers && s.callers[pid] == c && q in Next(s, pid, c).callers
    ensures var d := Next(s, pid, c).callers[q];
            if q == pid then
              && (d.RetrySource? ==> c.RetryRun? && d.current == c.current && !Rejected(s, d.current.workflowId))
              && (d.RetryArmed? ==> c.RetrySource? && d.current == c.current)
            else q in s.callers && s.callers[q] == d
  {
    hide EndRuns, TrackingTarget;
  }

  /** A caller that reads the run's code for the row as it is goes on only without a rejection. */
  lemma NewRetriesAreClean(s: System, step: Step, pid: nat)
    requires pid in Take(s, step).callers && RetriesClean(s)
    ensures RetryClean(s, Take(s, step).callers[pid])
  {
    RetriesAdvance(s, step, pid);
    hide Take, Rejected;
    if pid in s.callers {
      assert RetryClean(s, s.callers[pid]);
    }
  }

  lemma StepKeepsRetriesClean(s: System, step: Step)
    requires Inv(s) && RetriesClean(s)
    ensures RetriesClean(Take(s, step))
  {
    var t := Take(s, step);
    StepKeeps(s, step);
    StepMoves(s, step);
    hide Take, Inv, Rejected, Moved;
    forall pid | pid in t.callers ensures RetryClean(t, t.callers[pid]) {
      if t.row == s.row {
        NewRetriesAreClean(s, step, pid);
        if Rejected(t, s.row.workflowId) {
          CodesComeWithTheRow(s, step, s.row.workflowId);
        }
      } else {
        NoRetryKnowsANewRow(s, step, pid);
      }
    }
  }

  lemma NoRetryKnowsANewRow(s: System, step: Step, pid: nat)
    requires Inv(s) && Take(s, step).row != s.row && pid in Take(s, step).callers
    ensures var c := Take(s, step).callers[pid];
            c.RetrySource? || c.RetryArmed? ==> c.current != Take(s, step).row
  {
    StepMoves(s, step);
    RetriesAdvance(s, step, pid);
    assert Take(s, step).row.stateVersion == s.row.stateVersion + 1;
    hide Take, Moved, Checked, Rejected;
    if pid in s.callers {
      CallerIsOk(s, pid);
    }
  }

  lemma {:induction false} RunKeepsRetriesClean(s: System, steps: seq<Step>)
    requires Inv(s) && RetriesClean(s)
    ensures RetriesClean(Run(s, steps))
    decreases steps
  {
    hide Inv, Take, RetriesClean;
    if steps != [] {
      StepKeeps(s, steps[0]);
      StepKeepsRetriesClean(s, steps[0]);
      RunKeepsRetriesClean(Take(s, steps[0]), steps[1..]);
    }
  }

  /**
   From creation on, no interleaving restarts an analysis whose current run was rejected for its inputs,
   although the check of the run and the restart are separate steps.
   */
  lemma RejectedInputsAreNotRetried(steps: seq<Step>, pid: nat)
    ensures var s := Run(Created(), steps);
            Rejected(s, s.row.workflowId) && IsRetry(s, Proceed(pid)) ==> Take(s, Proceed(pid)).row == s.row
  {
    CreatedInv();
    RunKeeps(Created(), steps);
    RunKeepsRetriesClean(Created(), steps);
    var s := Run(Created(), steps);
    if IsRetry(s, Proceed(pid)) {
      assert RetryClean(s, s.callers[pid]);
      CallerIsOk(s, pid);
      RetryTakesEffect(s, pid);
    }
  }
}
