/** What each call leaves when it takes effect, and exactly when a call that nothing interrupts does. */
module AnalysisEffects {
  import opened AnalysisLifecycle
  import opened AnalysisRuns
  import opened AnalysisTable
  import opened Wrappers

  import Completion = AnalysisCompletion

  /** The active run of the named workflow, or every active run, gets this status, and no run changes otherwise. */
  ghost predicate RunsEnd(before: map<nat, TrackingRun>, after: map<nat, TrackingRun>, only: Option<nat>, to: RunStatus) {
    && after.Keys == before.Keys
    && forall w :: w in before ==>
         after[w] == if before[w].status.Active? && (only == None || only == Some(w)) then before[w].(status := to) else before[w]
  }

  lemma EndRunsMeans(runs: map<nat, TrackingRun>, only: Option<nat>, to: RunStatus)
    ensures RunsEnd(runs, EndRuns(runs, only, to), only, to)
  {
  }

  /** The row and the runs may change, and the caller is gone; nothing else changes. */
  predicate Wrote(s: System, t: System, pid: nat) {
    t == s.(row := t.row, runs := t.runs, callers := s.callers - {pid})
  }

  predicate Armed(c: Caller) {
    c.CancelArmed? || c.RetryArmed? || c.TrackingArmed? || c.FailureArmed? || c.RemoveArmed?
  }

  /** The table has no transition for these tracking states from an analysis that waits. */
  predicate Withheld(row: Analysis, state: TrackingState) {
    row.status == AwaitingReidentification && (state.lifecycle.TrackingFailed? || state.lifecycle.TrackingAwaiting?)
  }

  /** A caller that is ready gets what it asks for, unless it brings a withheld state. */
  lemma ReadyCallerWrites(s: System, pid: nat)
    requires Inv(s) && pid in s.callers && Armed(s.callers[pid])
    ensures var c := s.callers[pid];
            Take(s, Proceed(pid)) ==
              Stops(if c.TrackingArmed? && TrackingWitness(s, c) && Withheld(s.row, c.state) then s else AskedBy(s, c), pid)
  {
    CallerIsOk(s, pid);
    CallerRefused(s, s.callers[pid]);
    hide AskedBy, Accepts, CallersOk, CallerOk;
  }

  // ----- cancellation -----

  /** A cancellation takes effect exactly while the row still is what the caller reviewed. */
  lemma CancelTakesEffect(s: System, pid: nat)
    requires Inv(s) && pid in s.callers && s.callers[pid].CancelArmed?
    ensures var c := s.callers[pid];
            var t := Take(s, Proceed(pid));
            && Wrote(s, t, pid)
            && if s.row.workflowId == c.current.workflowId && s.row.stateVersion == c.expected && s.row.status == c.current.status
               then
                 && t.row == s.row.(status := Cancelled, stateVersion := s.row.stateVersion + 1)
                 && RunsEnd(s.runs, t.runs, Some(s.row.workflowId), RunCancelled)
               else t.row == s.row && t.runs == s.runs
  {
    CallerIsOk(s, pid);
    EndRunsMeans(s.runs, Some(s.row.workflowId), RunCancelled);
    ReadyCallerWrites(s, pid);
    hide EndRuns, RunsEnd, CallersOk, Take, Checked;
  }

  /** Uninterrupted, a cancellation cancels exactly an open analysis at the version it names. */
  lemma CancelAlone(s: System, pid: nat, expected: int)
    requires Inv(s) && pid !in s.callers
    ensures var t := Take(Take(s, BeginCancelStep(pid, expected)), Proceed(pid));
            && t.callers == s.callers
            && if s.row.stateVersion == expected
                  && (s.row.status == Queued || s.row.status == Running || s.row.status == AwaitingReidentification)
               then t.row == s.row.(status := Cancelled, stateVersion := expected + 1)
                    && RunsEnd(s.runs, t.runs, Some(s.row.workflowId), RunCancelled)
               else t == s
  {
    var armed := Take(s, BeginCancelStep(pid, expected));
    assert armed == s || armed == s.(callers := s.callers[pid := CancelArmed(s.row, expected)]);
    StepKeeps(s, BeginCancelStep(pid, expected));
    if pid in armed.callers {
      CancelTakesEffect(armed, pid);
      ComesAndGoes(s.callers, pid, armed.callers[pid]);
      hide Take, Inv, RunsEnd;
    }
  }

  lemma ComesAndGoes(callers: map<nat, Caller>, pid: nat, c: Caller)
    requires pid !in callers
    ensures callers[pid := c] - {pid} == callers
  {
  }

  // ----- removal -----

  /** A removal takes effect exactly while the row has the version the caller reviewed, and ends every run. */
  lemma RemoveTakesEffect(s: System, pid: nat)
    requires Inv(s) && pid in s.callers && s.callers[pid].RemoveArmed?
    ensures var c := s.callers[pid];
            var t := Take(s, Proceed(pid));
            && Wrote(s, t, pid)
            && if s.row.stateVersion == c.expected then
                 && t.row == s.row.(status := Deleting, stateVersion := s.row.stateVersion + 1)
                 && RunsEnd(s.runs, t.runs, None, RunCancelled)
               else t.row == s.row && t.runs == s.runs
  {
    CallerIsOk(s, pid);
    EndRunsMeans(s.runs, None, RunCancelled);
    ReadyCallerWrites(s, pid);
    hide EndRuns, RunsEnd, CallersOk, Take, Checked;
  }

  /** Uninterrupted, a removal deletes exactly at the version it names, from any status but the two last. */
  lemma RemoveAlone(s: System, pid: nat, expected: int)
    requires Inv(s) && pid !in s.callers
    ensures var t := Take(Take(s, BeginRemoveStep(pid, expected)), Proceed(pid));
            && t.callers == s.callers
            && if s.row.stateVersion == expected && s.row.status != Deleting && s.row.status != Deleted
               then t.row == s.row.(status := Deleting, stateVersion := expected + 1)
                    && RunsEnd(s.runs, t.runs, None, RunCancelled)
               else t == s
  {
    var armed := Take(s, BeginRemoveStep(pid, expected));
    assert armed == s || armed == s.(callers := s.callers[pid := RemoveArmed(s.row, expected)]);
    StepKeeps(s, BeginRemoveStep(pid, expected));
    if pid in armed.callers {
      RemoveTakesEffect(armed, pid);
      ComesAndGoes(s.callers, pid, armed.callers[pid]);
      hide Take, Inv, RunsEnd;
    }
  }

  // ----- failure of the workflow -----

  /** A failure ends the workflow's run in any case, and fails the row while it is the one that was read, of that sequence. */
  lemma FailureTakesEffect(s: System, pid: nat)
    requires Inv(s) && pid in s.callers && s.callers[pid].FailureArmed?
    ensures var c := s.callers[pid];
            var t := Take(s, Proceed(pid));
            && Wrote(s, t, pid) && RunsEnd(s.runs, t.runs, Some(c.workflow), RunFailed)
            && t.row == if s.row == c.current && s.row.sequence == c.sequence
                        then s.row.(status := Failed, stateVersion := s.row.stateVersion + 1)
                        else s.row
  {
    CallerIsOk(s, pid);
    EndRunsMeans(s.runs, Some(s.callers[pid].workflow), RunFailed);
    ReadyCallerWrites(s, pid);
    hide EndRuns, RunsEnd, CallersOk, Take, Checked;
  }

  /** Uninterrupted, a failure fails exactly the queued or running analysis of its workflow and sequence. */
  lemma FailureAlone(s: System, pid: nat, workflow: nat, sequence: nat)
    requires Inv(s) && pid !in s.callers
    ensures var t := Take(Take(Take(s, BeginFailureStep(pid, workflow, sequence)), Proceed(pid)), Proceed(pid));
            && t.callers == s.callers
            && if s.row.workflowId == workflow && (s.row.status == Queued || s.row.status == Running) then
                 && RunsEnd(s.runs, t.runs, Some(workflow), RunFailed)
                 && t.row == (if s.row.sequence == sequence
                              then s.row.(status := Failed, stateVersion := s.row.stateVersion + 1) else s.row)
               else t == s
  {
    var reading := s.(callers := s.callers[pid := FailureReading(workflow, sequence)]);
    StepKeeps(s, BeginFailureStep(pid, workflow, sequence));
    StepKeeps(reading, Proceed(pid));
    FailureIsRead(s, pid, workflow, sequence);
    var armed := Take(reading, Proceed(pid));
    hide Take, Inv, RunsEnd;
    if pid in armed.callers {
      FailureTakesEffect(armed, pid);
      ComesAndGoes(s.callers, pid, armed.callers[pid]);
    } else {
      NobodyProceeds(s, pid);
    }
  }

  lemma NobodyProceeds(s: System, pid: nat)
    requires pid !in s.callers
    ensures Take(s, Proceed(pid)) == s
  {
  }

  lemma FailureIsRead(s: System, pid: nat, workflow: nat, sequence: nat)
    requires pid !in s.callers
    ensures var reading := s.(callers := s.callers[pid := FailureReading(workflow, sequence)]);
            && Take(s, BeginFailureStep(pid, workflow, sequence)) == reading
            && Take(reading, Proceed(pid)) ==
                 if s.row.workflowId == workflow && (s.row.status == Queued || s.row.status == Running)
                 then s.(callers := s.callers[pid := FailureArmed(s.row, workflow, sequence)]) else s
  {
    var c := FailureReading(workflow, sequence);
    ComesAndGoes(s.callers, pid, c);
    assert s.callers[pid := c][pid := FailureArmed(s.row, workflow, sequence)] == s.callers[pid := FailureArmed(s.row, workflow, sequence)];
  }

  // ----- tracking states -----

  /** The share of the progress bar that tracking progress earns: 21, and 78 more in 99 even parts, rounded down. */
  predicate Earns(progress: nat, share: int) {
    var capped := if progress < 99 then progress else 99;
    (share - 21) * 99 <= capped * 78 < (share - 20) * 99
  }

  /** The status and progress that a tracking state stands for. */
  predicate StandsFor(state: TrackingState, status: Status, progress: int) {
    && status == (match state.lifecycle
                  case TrackingAwaiting => AwaitingReidentification
                  case TrackingFailed => Failed
                  case TrackingCancelled => Cancelled
                  case _ => Running)
    && if state.lifecycle.TrackingCompleted? then progress == 99 else Earns(state.progress, progress)
  }

  lemma TargetMeans(state: TrackingState)
    ensures StandsFor(state, TrackingTarget(state).status, TrackingTarget(state).progress)
    ensures forall status, progress :: StandsFor(state, status, progress) ==>
              status == TrackingTarget(state).status && progress == TrackingTarget(state).progress
  {
  }

  /** What a published tracking state leaves: its status, the greater progress, and a failed run with its code. */
  predicate Published(s: System, t: System, workflow: nat, state: TrackingState) {
    exists progress: int :: 0 <= progress < 100 && StandsFor(state, t.row.status, progress)
      && t.row == s.row.(status := t.row.status,
                         progress := if s.row.progress < progress then progress else s.row.progress,
                         stateVersion := s.row.stateVersion + 1)
      && t.runs == (if t.row.status == Failed && workflow in s.runs && s.runs[workflow].status.Active?
                    then s.runs[workflow := TrackingRun(RunFailed, state.code)] else s.runs)
  }

  /** A tracking state is published exactly while the row is the one that was read and may take it. */
  lemma TrackingTakesEffect(s: System, pid: nat)
    requires Inv(s) && pid in s.callers && s.callers[pid].TrackingArmed?
    ensures var c := s.callers[pid];
            var t := Take(s, Proceed(pid));
            && Wrote(s, t, pid)
            && if s.row == c.current && !Withheld(s.row, c.state) then Published(s, t, c.workflow, c.state)
               else t.row == s.row && t.runs == s.runs
  {
    var c := s.callers[pid];
    CallerIsOk(s, pid);
    TargetMeans(c.state);
    ShareIsBounded(c.state.progress);
    ReadyCallerWrites(s, pid);
    var target := TrackingTarget(c.state);
    assert 0 <= target.progress < 100;
    hide CallersOk, StandsFor, TrackingTarget, Take, Checked;
    if s.row == c.current && !Withheld(s.row, c.state) {
      var t := Take(s, Proceed(pid));
      assert t.row.status == target.status && StandsFor(c.state, t.row.status, target.progress);
    }
  }

  lemma TrackingIsRead(s: System, pid: nat, workflow: nat, state: TrackingState)
    requires pid !in s.callers
    ensures var begun := Take(s, BeginTrackingStep(pid, workflow, state));
            if workflow in s.runs && (s.runs[workflow].status.Active?
                                      || (s.runs[workflow].status.RunFailed? && state.lifecycle.TrackingFailed?))
            then
              && begun == s.(callers := s.callers[pid := TrackingReading(workflow, state)])
              && Take(begun, Proceed(pid)) ==
                   if s.row.stage == Tracking && s.row.workflowId == workflow
                      && (s.row.status == Running || s.row.status == AwaitingReidentification)
                      && !(s.row.status == TrackingTarget(state).status && TrackingTarget(state).progress <= s.row.progress)
                   then s.(callers := s.callers[pid := TrackingArmed(s.row, workflow, state)]) else s
            else begun == s
  {
    hide TrackingTarget;
    ComesAndGoes(s.callers, pid, TrackingReading(workflow, state));
    assert s.callers[pid := TrackingReading(workflow, state)][pid := TrackingArmed(s.row, workflow, state)]
           == s.callers[pid := TrackingArmed(s.row, workflow, state)];
  }

  /** The row already shows this state: its status, and at least its progress. */
  predicate Shows(row: Analysis, state: TrackingState) {
    exists progress: int :: 0 <= progress < 100 && StandsFor(state, row.status, progress) && progress <= row.progress
  }

  /**
   Uninterrupted, a tracking state is published exactly for an active run, or a failed one that says
   so, whose analysis is in tracking, open, and does not show it yet, unless the table withholds it.
   */
  lemma TrackingAlone(s: System, pid: nat, workflow: nat, state: TrackingState)
    requires Inv(s) && pid !in s.callers
    ensures var t := Take(Take(Take(s, BeginTrackingStep(pid, workflow, state)), Proceed(pid)), Proceed(pid));
            && t.callers == s.callers
            && if workflow in s.runs
                  && (s.runs[workflow].status.Active? || (s.runs[workflow].status.RunFailed? && state.lifecycle.TrackingFailed?))
                  && s.row.workflowId == workflow && s.row.stage == Tracking
                  && (s.row.status == Running || s.row.status == AwaitingReidentification)
                  && !Shows(s.row, state) && !Withheld(s.row, state)
               then Published(s, t, workflow, state)
               else t == s
  {
    TrackingIsRead(s, pid, workflow, state);
    var begun := Take(s, BeginTrackingStep(pid, workflow, state));
    var armed := Take(begun, Proceed(pid));
    StepKeeps(s, BeginTrackingStep(pid, workflow, state));
    StepKeeps(begun, Proceed(pid));
    ShowsMeans(s.row, state);
    hide Take, Inv, TrackingTarget, Shows, Published, StandsFor;
    if pid in armed.callers {
      TrackingTakesEffect(armed, pid);
      ComesAndGoes(s.callers, pid, armed.callers[pid]);
      SamePublication(armed, s, Take(armed, Proceed(pid)), workflow, state);
    } else {
      NobodyProceeds(s, pid);
    }
  }

  lemma ShowsMeans(row: Analysis, state: TrackingState)
    ensures Shows(row, state) <==> row.status == TrackingTarget(state).status && TrackingTarget(state).progress <= row.progress
  {
    TargetMeans(state);
    ShareIsBounded(state.progress);
    hide StandsFor;
  }

  lemma SamePublication(armed: System, s: System, t: System, workflow: nat, state: TrackingState)
    requires armed.row == s.row && armed.runs == s.runs
    ensures Published(armed, t, workflow, state) <==> Published(s, t, workflow, state)
  {
  }

  // ----- retry -----

  /** A retry has nothing in its way: its command is new, its version the row's, the row ended, its inputs were not rejected, its source is ready. */
  predicate MayRetry(s: System, expected: int, command: nat) {
    && expected >= 1 && s.row.stateVersion == expected && command !in s.receipts
    && (s.row.status == Failed || s.row.status == Completed)
    && (s.row.workflowId in s.runs ==> s.runs[s.row.workflowId].code != Some(ArtifactInvalid))
    && s.sourceReady
  }

  /** The system with one more caller. */
  function With(s: System, pid: nat, c: Caller): System {
    s.(callers := s.callers[pid := c])
  }

  lemma Replacing(s: System, pid: nat, c: Caller, d: Caller)
    requires pid !in s.callers
    ensures With(With(s, pid, c), pid, d) == With(s, pid, d) && Stops(With(s, pid, c), pid) == s
  {
    ComesAndGoes(s.callers, pid, c);
    assert s.callers[pid := c][pid := d] == s.callers[pid := d];
  }

  lemma RetryReadsReceipt(s: System, pid: nat, expected: int, command: nat)
    requires pid !in s.callers
    ensures Take(With(s, pid, RetryReceipt(s.row, expected, command)), Proceed(pid)) ==
              if command !in s.receipts && s.row.stateVersion == expected && (s.row.status == Failed || s.row.status == Completed)
              then With(s, pid, RetryRun(s.row, expected, command)) else s
  {
    Replacing(s, pid, RetryReceipt(s.row, expected, command), RetryRun(s.row, expected, command));
  }

  lemma RetryReadsRun(s: System, pid: nat, expected: int, command: nat)
    requires pid !in s.callers
    ensures Take(With(s, pid, RetryRun(s.row, expected, command)), Proceed(pid)) ==
              if s.row.workflowId in s.runs ==> s.runs[s.row.workflowId].code != Some(ArtifactInvalid)
              then With(s, pid, RetrySource(s.row, expected, command)) else s
  {
    Replacing(s, pid, RetryRun(s.row, expected, command), RetrySource(s.row, expected, command));
  }

  lemma RetryReadsSource(s: System, pid: nat, expected: int, command: nat)
    requires pid !in s.callers
    ensures Take(With(s, pid, RetrySource(s.row, expected, command)), Proceed(pid)) ==
              if s.sourceReady then With(s, pid, RetryArmed(s.row, expected, command)) else s
  {
    Replacing(s, pid, RetrySource(s.row, expected, command), RetryArmed(s.row, expected, command));
  }

  lemma RetryWrites(s: System, pid: nat, expected: int, command: nat)
    requires Inv(s) && pid !in s.callers && MayRetry(s, expected, command)
    ensures var t := Take(With(s, pid, RetryArmed(s.row, expected, command)), Proceed(pid));
            && t == s.(row := t.row, runs := t.runs, receipts := t.receipts, nextWorkflow := s.nextWorkflow + 1)
            && t.row == Analysis(s.nextWorkflow, s.row.sequence + 1, Queued, Preparation, 0, expected + 1)
            && RunsEnd(s.runs, t.runs, None, Replaced)
            && t.receipts == s.receipts[command := Receipt(expected, s.nextWorkflow)]
  {
    var c := RetryArmed(s.row, expected, command);
    var armed := With(s, pid, c);
    assert CallersOk(armed);
    ReadyCallerWrites(armed, pid);
    EndRunsMeans(s.runs, None, Replaced);
    ComesAndGoes(s.callers, pid, c);
    hide Take, RunsEnd, EndRuns, CallersOk, Checked;
  }

  function Proceeds(s: System, pid: nat, n: nat): System {
    if n == 0 then s else Take(Proceeds(s, pid, n - 1), Proceed(pid))
  }

  lemma RetryBegins(s: System, pid: nat, expected: int, command: nat)
    ensures Take(s, BeginRetryStep(pid, expected, command)) ==
              if expected >= 1 then With(s, pid, RetryReceipt(s.row, expected, command)) else s
  {
  }

  /** Uninterrupted, a retry restarts the analysis exactly when nothing is in its way. */
  lemma RetryAlone(s: System, pid: nat, expected: int, command: nat)
    requires Inv(s) && pid !in s.callers
    ensures var t := Proceeds(Take(s, BeginRetryStep(pid, expected, command)), pid, 4);
            if MayRetry(s, expected, command) then
              && t == s.(row := t.row, runs := t.runs, receipts := t.receipts, nextWorkflow := s.nextWorkflow + 1)
              && t.row == Analysis(s.nextWorkflow, s.row.sequence + 1, Queued, Preparation, 0, expected + 1)
              && RunsEnd(s.runs, t.runs, None, Replaced)
              && t.receipts == s.receipts[command := Receipt(expected, s.nextWorkflow)]
            else t == s
  {
    RetryBegins(s, pid, expected, command);
    NobodyProceeds(s, pid);
    RetryReadsReceipt(s, pid, expected, command);
    RetryReadsRun(s, pid, expected, command);
    RetryReadsSource(s, pid, expected, command);
    hide Take, Inv, RunsEnd, With;
    var s0 := Take(s, BeginRetryStep(pid, expected, command));
    assert Proceeds(s0, pid, 1) == Take(s0, Proceed(pid));
    assert Proceeds(s0, pid, 2) == Take(Proceeds(s0, pid, 1), Proceed(pid));
    assert Proceeds(s0, pid, 4) == Take(Take(Proceeds(s0, pid, 2), Proceed(pid)), Proceed(pid));
    if MayRetry(s, expected, command) {
      RetryWrites(s, pid, expected, command);
    }
  }

  // ----- single statements -----

  /** Preparation begins exactly on the queued row of its workflow, at the version it names. */
  lemma BeginPreparationTakesEffect(s: System, workflow: nat, expected: int)
    requires Inv(s)
    ensures var t := Take(s, BeginPreparationStep(workflow, expected));
            if s.row.workflowId == workflow && s.row.stateVersion == expected && s.row.status == Queued
            then t == s.(row := s.row.(status := Running, stateVersion := expected + 1))
            else t == s
  {
  }

  /** A report is stored exactly on the row that is being prepared, at the version it names, when it is no step back. */
  lemma PreparationProgressTakesEffect(s: System, workflow: nat, expected: int, progress: int)
    requires Inv(s)
    ensures var t := Take(s, PreparationProgressStep(workflow, expected, progress));
            if s.row.workflowId == workflow && s.row.stateVersion == expected && s.row.status == Running
               && s.row.stage == Preparation && 1 <= progress <= 99 && s.row.progress <= progress
            then t == s.(row := s.row.(progress := progress, stateVersion := expected + 1))
            else t == s
  {
  }

  /** Tracking starts, at 21, exactly on the row that is being prepared, at the version it names and up to 21. */
  lemma TrackingStartTakesEffect(s: System, workflow: nat, claimed: int, expected: int)
    requires Inv(s)
    ensures var t := Take(s, TrackingStartStep(workflow, claimed, expected));
            if s.row.workflowId == workflow && s.row.stateVersion == expected && s.row.status == Running
               && s.row.stage == Preparation && s.row.progress <= 21
            then t == s.(row := s.row.(stage := Tracking, progress := 21, stateVersion := expected + 1))
            else t == s
  {
  }

  /** A cleanup ends exactly a deletion. */
  lemma CleanupTakesEffect(s: System)
    requires Inv(s)
    ensures var t := Take(s, CleanupStep);
            t == if s.row.status == Deleting
                 then s.(row := s.row.(status := Deleted, stateVersion := s.row.stateVersion + 1)) else s
  {
  }

  /** Completion takes effect exactly on a running analysis of its workflow, with its run active and ready or completed. */
  lemma CompletionTakesEffect(s: System, identity: Completion.Identity, evidence: Completion.Evidence)
    requires Inv(s)
    ensures var t := Take(s, CompleteStep(identity, evidence));
            var w := identity.workflowId;
            if w == s.row.workflowId && s.row.status == Running && w in s.runs
               && (s.runs[w].status.RunCompleted?
                   || (s.runs[w].status.Active? && Completion.EvidenceComplete(evidence, identity)))
            then t == s.(
              row := s.row.(status := Completed, stage := Finalization, progress := 100, stateVersion := s.row.stateVersion + 1),
              runs := s.runs[w := s.runs[w].(status := RunCompleted)])
            else t == s
  {
    Completion.ReadyMeans(evidence, identity);
    hide Completion.Ready, Completion.EvidenceComplete, CallersOk;
    var w := identity.workflowId;
    if w in s.runs && s.runs[w].status.RunCompleted? {
      assert s.runs[w := s.runs[w].(status := RunCompleted)] == s.runs;
    }
  }
}
