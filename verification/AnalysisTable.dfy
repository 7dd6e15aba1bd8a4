/**
 The stored row of a driving analysis and the database's own rules for it: the checks on its
 values and the triggers on its updates.  An update that breaks one is aborted, and with it the
 whole batch it is part of.
 */
module AnalysisTable {
  datatype Status =
    | Queued | Running | AwaitingReidentification
    | Completed | Failed | Cancelled | Deleting | Deleted

  datatype Stage = Preparation | Tracking | Measurement | ClipRendering | Finalization

  datatype RunStatus = Active | RunCompleted | RunCancelled | Replaced | RunFailed

  datatype Analysis = Analysis(
    workflowId: nat,
    sequence: int,
    status: Status,
    stage: Stage,
    progress: int,
    stateVersion: int)

  predicate Mutable(status: Status) {
    status == Queued || status == Running || status == AwaitingReidentification
  }

  function Place(stage: Stage): nat {
    match stage
    case Preparation => 0
    case Tracking => 1
    case Measurement => 2
    case ClipRendering => 3
    case Finalization => 4
  }

  /** The checks on one row. */
  predicate Checked(row: Analysis) {
    && row.stateVersion > 0 && row.sequence > 0 && 0 <= row.progress <= 100
    && match row.status
       case Queued => row.stage == Preparation && row.progress == 0
       case Running => row.progress < 100
       case AwaitingReidentification => row.stage == Tracking && row.progress < 100
       case Completed => row.stage == Finalization && row.progress == 100
       case _ => true
  }

  /** The statuses that may follow one another within a workflow. */
  predicate Follows(from: Status, to: Status) {
    match from
    case Queued => to == Running || to == Failed || to == Cancelled || to == Deleting
    case Running => to != Queued && to != Deleted
    case AwaitingReidentification => to == Running || to == Cancelled || to == Deleting
    case Completed => to == Deleting
    case Failed => to == Deleting
    case Cancelled => to == Deleting
    case Deleting => to == Deleting || to == Deleted
    case Deleted => false
  }

  /** The trigger on every update. */
  predicate Transition(from: Analysis, to: Analysis) {
    && to.stateVersion == from.stateVersion + 1
    && from.status != Deleted
    && (to.workflowId == from.workflowId ==>
         && from.progress <= to.progress && Place(from.stage) <= Place(to.stage) && Follows(from.status, to.status))
  }

  /** The trigger on updates that name the workflow. */
  predicate Restart(from: Analysis, to: Analysis) {
    && to.workflowId != from.workflowId && to.sequence == from.sequence + 1
    && (from.status == Failed || from.status == Completed)
    && to.status == Queued && to.stage == Preparation && to.progress == 0 && to.stateVersion == from.stateVersion + 1
  }

  predicate Accepts(from: Analysis, to: Analysis) {
    && Checked(to) && Transition(from, to)
    && (to.workflowId != from.workflowId || to.sequence != from.sequence ==> Restart(from, to))
  }

  // ----- all of them together -----

  /** The places of a status in a row: where it stands at the beginning, on the way and at the end. */
  predicate Placed(row: Analysis) {
    && (row.status == Queued ==> row.stage == Preparation && row.progress == 0)
    && (row.status == Running || row.status == AwaitingReidentification ==> row.progress <= 99)
    && (row.status == AwaitingReidentification ==> row.stage == Tracking)
    && (row.status == Completed ==> row.stage == Finalization && row.progress == 100)
  }

  lemma CheckedMeans(row: Analysis)
    ensures Checked(row) <==> row.stateVersion >= 1 && row.sequence >= 1 && 0 <= row.progress <= 100 && Placed(row)
  {
  }

  /** The stages that come after a stage. */
  function StagesAfter(stage: Stage): set<Stage> {
    match stage
    case Preparation => {Tracking, Measurement, ClipRendering, Finalization}
    case Tracking => {Measurement, ClipRendering, Finalization}
    case Measurement => {ClipRendering, Finalization}
    case ClipRendering => {Finalization}
    case Finalization => {}
  }

  const MOVES := {
    (Queued, Running), (Queued, Failed), (Queued, Cancelled), (Queued, Deleting),
    (Running, Running), (Running, AwaitingReidentification), (Running, Completed),
    (Running, Failed), (Running, Cancelled), (Running, Deleting),
    (AwaitingReidentification, Running), (AwaitingReidentification, Cancelled), (AwaitingReidentification, Deleting),
    (Completed, Deleting), (Failed, Deleting), (Cancelled, Deleting),
    (Deleting, Deleting), (Deleting, Deleted)}

  /**
   From a row that has passed the checks the table accepts two kinds of updates: within a workflow,
   a move of the status with neither stage nor progress falling; and a restart of an ended analysis
   as a fresh row of the next sequence under another workflow.  Either takes the next version.
   */
  lemma AcceptsExactly(from: Analysis, to: Analysis)
    requires Checked(from)
    ensures Accepts(from, to) <==>
              && to.stateVersion == from.stateVersion + 1
              && if to.workflowId == from.workflowId then
                   && (from.status, to.status) in MOVES && Placed(to)
                   && (to.stage == from.stage || to.stage in StagesAfter(from.stage))
                   && from.progress <= to.progress <= 100
                   && to.sequence == from.sequence
                 else
                   && (from.status == Failed || from.status == Completed)
                   && to == Analysis(to.workflowId, from.sequence + 1, Queued, Preparation, 0, from.stateVersion + 1)
  {
  }
}
