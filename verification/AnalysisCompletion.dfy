/** The batch that completes a tracking run and its driving analysis, and what it is told afterwards. */
module AnalysisCompletion {
  import opened AnalysisTable
  import opened Wrappers

  // ----- the rows -----

  datatype Identity = Identity(runId: nat, ownerId: nat, analysisId: nat, workflowId: nat, segmentId: nat)

  datatype RunRow = RunRow(ownerId: nat, analysisId: nat, workflowId: nat, status: RunStatus, version: int)

  datatype AnalysisRow = AnalysisRow(ownerId: nat, analysis: Analysis)

  datatype Segment = Segment(id: nat, runId: nat, order: int, completed: bool, artifact: Option<nat>)

  datatype Batch = Batch(
    artifact: nat, segmentId: nat, runId: nat, ownerId: nat, analysisId: nat, workflowId: nat, digest: nat)

  datatype Pass = Pass(artifact: nat, digest: nat, corner: nat, ordinal: nat, eligible: bool)

  datatype Clip = Clip(
    id: nat, artifact: nat, corner: nat, ordinal: nat, runId: nat, ownerId: nat, analysisId: nat, workflowId: nat)

  datatype Publication = Publication(clipId: nat)

  datatype Evidence = Evidence(
    segments: set<Segment>, batches: set<Batch>, passes: set<Pass>, clips: set<Clip>, publications: set<Publication>)

  // ----- joins -----

  /** A left join: every left row with each right row it matches, or alone when it matches none. */
  function LeftJoin<A(==, !new), B(==, !new)>(left: set<A>, right: set<B>, on: (A, B) -> bool): set<(A, Option<B>)> {
    (set a, b | a in left && b in right && on(a, b) :: (a, Some(b)))
    + (set a | a in left && (forall b :: b in right ==> !on(a, b)) :: (a, None))
  }

  lemma LeftJoinRows<A(!new), B(!new)>(left: set<A>, right: set<B>, on: (A, B) -> bool, a: A)
    ensures (exists b :: (a, Some(b)) in LeftJoin(left, right, on)) <==>
              a in left && exists b :: b in right && on(a, b)
    ensures (a, None) in LeftJoin(left, right, on) <==> a in left && forall b :: b in right ==> !on(a, b)
    ensures forall b :: (a, Some(b)) in LeftJoin(left, right, on) <==> a in left && b in right && on(a, b)
  {
  }

  // ----- the conditions, as the statements select them -----

  predicate BatchFor(identity: Identity, s: Segment, b: Batch) {
    && s.artifact == Some(b.artifact) && b.segmentId == s.id
    && b.runId == identity.runId && b.ownerId == identity.ownerId
    && b.analysisId == identity.analysisId && b.workflowId == identity.workflowId
  }

  function MissingEvidence(e: Evidence, identity: Identity): set<(Segment, Option<Batch>)> {
    set row | row in LeftJoin(e.segments, e.batches, (s, b) => BatchFor(identity, s, b))
              && row.0.runId == identity.runId && (row.0.artifact.None? || row.1.None?)
  }

  predicate OfBatch(p: Pass, b: Batch) {
    b.artifact == p.artifact && b.digest == p.digest
  }

  predicate ClipFor(identity: Identity, p: Pass, c: Clip) {
    && c.artifact == p.artifact && c.corner == p.corner && c.ordinal == p.ordinal
    && c.runId == identity.runId && c.ownerId == identity.ownerId
    && c.analysisId == identity.analysisId && c.workflowId == identity.workflowId
  }

  function MeasuredPasses(e: Evidence): set<(Pass, Batch)> {
    set p, b | p in e.passes && b in e.batches && OfBatch(p, b) :: (p, b)
  }

  function ClippedPasses(e: Evidence, identity: Identity): set<((Pass, Batch), Option<Clip>)> {
    LeftJoin(MeasuredPasses(e), e.clips, (pb: (Pass, Batch), c) => ClipFor(identity, pb.0, c))
  }

  predicate PublishedAs(row: ((Pass, Batch), Option<Clip>), u: Publication) {
    row.1.Some? && u.clipId == row.1.value.id
  }

  function PublishedPasses(e: Evidence, identity: Identity): set<(((Pass, Batch), Option<Clip>), Option<Publication>)> {
    LeftJoin(ClippedPasses(e, identity), e.publications, PublishedAs)
  }

  function MissingClips(e: Evidence, identity: Identity): set<(((Pass, Batch), Option<Clip>), Option<Publication>)> {
    set row | row in PublishedPasses(e, identity)
              && row.0.0.1.runId == identity.runId && row.0.0.0.eligible && row.1.None?
  }

  function SegmentsOf(e: Evidence, runId: nat): set<Segment> {
    set s | s in e.segments && s.runId == runId
  }

  lemma {:induction false} SomeSegmentIsLast(segments: set<Segment>)
    requires segments != {}
    ensures exists s :: s in segments && forall t :: t in segments ==> t.order <= s.order
  {
    var s :| s in segments;
    var others := segments - {s};
    if others != {} {
      SomeSegmentIsLast(others);
      var r :| r in others && forall t :: t in others ==> t.order <= r.order;
      var last := if r.order < s.order then s else r;
      assert last in segments && forall t :: t in segments ==> t == s || t in others;
    } else {
      assert forall t :: t in segments ==> t == s || t in others;
    }
  }

  /** The highest order of some segments, or none when there are none. */
  function MaxOrder(segments: set<Segment>): (highest: Option<int>)
    ensures highest.None? <==> segments == {}
    ensures highest.Some? ==> (exists s :: s in segments && s.order == highest.value)
                              && forall t :: t in segments ==> t.order <= highest.value
  {
    if segments == {} then None
    else
      var orders := set s | s in segments :: s.order;
      SomeSegmentIsLast(segments);
      var m :| m in orders && forall t :: t in segments ==> t.order <= m;
      Some(m)
  }

  predicate Terminal(e: Evidence, identity: Identity) {
    exists s :: s in e.segments && s.id == identity.segmentId && s.runId == identity.runId && s.completed
                && MaxOrder(SegmentsOf(e, identity.runId)) == Some(s.order)
  }

  predicate Ready(e: Evidence, identity: Identity) {
    Terminal(e, identity) && MissingEvidence(e, identity) == {} && MissingClips(e, identity) == {}
  }

  // ----- what the conditions mean -----

  /** The named segment is of the run, is completed, and no segment of the run comes after it. */
  predicate LastSegmentCompleted(e: Evidence, identity: Identity) {
    exists s :: s in e.segments && s.id == identity.segmentId && s.runId == identity.runId && s.completed
                && forall t :: t in e.segments && t.runId == identity.runId ==> t.order <= s.order
  }

  lemma TerminalMeans(e: Evidence, identity: Identity)
    ensures Terminal(e, identity) <==> LastSegmentCompleted(e, identity)
  {
    var segments := SegmentsOf(e, identity.runId);
    forall s | s in segments
      ensures MaxOrder(segments) == Some(s.order) <==> forall t :: t in segments ==> t.order <= s.order
    {
    }
    assert forall t :: t in segments <==> t in e.segments && t.runId == identity.runId;
  }

  /** The segment's accepted artifact was measured in a batch of this very run, analysis and workflow. */
  ghost predicate Measured(e: Evidence, identity: Identity, s: Segment) {
    s.artifact.Some?
    && exists digest :: Batch(s.artifact.value, s.id, identity.runId, identity.ownerId, identity.analysisId,
                              identity.workflowId, digest) in e.batches
  }

  ghost predicate EverySegmentMeasured(e: Evidence, identity: Identity) {
    forall s :: s in e.segments && s.runId == identity.runId ==> Measured(e, identity, s)
  }

  lemma MeasuredMeans(e: Evidence, identity: Identity, s: Segment)
    ensures Measured(e, identity, s) <==> s.artifact.Some? && exists b :: b in e.batches && BatchFor(identity, s, b)
  {
    if b :| b in e.batches && BatchFor(identity, s, b) {
      assert b == Batch(s.artifact.value, s.id, identity.runId, identity.ownerId, identity.analysisId,
                        identity.workflowId, b.digest);
    }
    if Measured(e, identity, s) {
      var digest :| Batch(s.artifact.value, s.id, identity.runId, identity.ownerId, identity.analysisId,
                          identity.workflowId, digest) in e.batches;
      var b := Batch(s.artifact.value, s.id, identity.runId, identity.ownerId, identity.analysisId,
                     identity.workflowId, digest);
      assert b in e.batches && BatchFor(identity, s, b);
    }
  }

  lemma MissingEvidenceMeans(e: Evidence, identity: Identity)
    ensures MissingEvidence(e, identity) == {} <==> EverySegmentMeasured(e, identity)
  {
    var on := (s, b) => BatchFor(identity, s, b);
    if MissingEvidence(e, identity) == {} {
      forall s | s in e.segments && s.runId == identity.runId ensures Measured(e, identity, s) {
        LeftJoinRows(e.segments, e.batches, on, s);
        assert (s, None) !in MissingEvidence(e, identity);
        MeasuredMeans(e, identity, s);
      }
    } else {
      var row :| row in MissingEvidence(e, identity);
      LeftJoinRows(e.segments, e.batches, on, row.0);
      MeasuredMeans(e, identity, row.0);
    }
  }

  predicate Published(e: Evidence, c: Clip) {
    Publication(c.id) in e.publications
  }

  /** The pass is evidence of a batch of the run. */
  predicate MeasuredInRun(e: Evidence, identity: Identity, p: Pass) {
    exists b :: b in e.batches && b.artifact == p.artifact && b.digest == p.digest && b.runId == identity.runId
  }

  /** The pass has a clip of this identifier, made for this very run, analysis and workflow. */
  ghost predicate ClippedAs(e: Evidence, identity: Identity, p: Pass, id: nat) {
    Clip(id, p.artifact, p.corner, p.ordinal, identity.runId, identity.ownerId, identity.analysisId,
         identity.workflowId) in e.clips
  }

  /** The pass has a clip, and all its clips are published. */
  ghost predicate Clipped(e: Evidence, identity: Identity, p: Pass) {
    && (exists id :: ClippedAs(e, identity, p, id))
    && (forall id :: ClippedAs(e, identity, p, id) ==> Publication(id) in e.publications)
  }

  ghost predicate EveryPassClipped(e: Evidence, identity: Identity) {
    forall p :: p in e.passes && p.eligible && MeasuredInRun(e, identity, p) ==> Clipped(e, identity, p)
  }

  lemma ClippedMeans(e: Evidence, identity: Identity, p: Pass)
    ensures Clipped(e, identity, p) <==>
              && (exists c :: c in e.clips && ClipFor(identity, p, c))
              && (forall c :: c in e.clips && ClipFor(identity, p, c) ==> Published(e, c))
  {
    forall c | c in e.clips && ClipFor(identity, p, c) ensures ClippedAs(e, identity, p, c.id) {
      assert c == Clip(c.id, p.artifact, p.corner, p.ordinal, identity.runId, identity.ownerId, identity.analysisId,
                       identity.workflowId);
    }
    forall id | ClippedAs(e, identity, p, id) ensures exists c :: c in e.clips && ClipFor(identity, p, c) && c.id == id {
      var c := Clip(id, p.artifact, p.corner, p.ordinal, identity.runId, identity.ownerId, identity.analysisId,
                    identity.workflowId);
      assert c in e.clips && ClipFor(identity, p, c);
    }
  }

  lemma PassRow(e: Evidence, identity: Identity, p: Pass, b: Batch, clip: Option<Clip>)
    ensures (((p, b), clip), None) in MissingClips(e, identity) <==>
              && p in e.passes && b in e.batches && OfBatch(p, b) && b.runId == identity.runId && p.eligible
              && (clip.None? ==> forall c :: c in e.clips ==> !ClipFor(identity, p, c))
              && (clip.Some? ==>
                   clip.value in e.clips && ClipFor(identity, p, clip.value) && !Published(e, clip.value))
  {
    var row := ((p, b), clip);
    LeftJoinRows(MeasuredPasses(e), e.clips, (pb: (Pass, Batch), c) => ClipFor(identity, pb.0, c), (p, b));
    LeftJoinRows(ClippedPasses(e, identity), e.publications, PublishedAs, row);
    if clip.Some? && (forall u :: u in e.publications ==> u.clipId != clip.value.id) {
      assert !Published(e, clip.value);
    }
  }

  lemma MissingClipsMeans(e: Evidence, identity: Identity)
    ensures MissingClips(e, identity) == {} <==> EveryPassClipped(e, identity)
  {
    if MissingClips(e, identity) == {} {
      forall p | p in e.passes && p.eligible && MeasuredInRun(e, identity, p) ensures Clipped(e, identity, p) {
        var b :| b in e.batches && b.artifact == p.artifact && b.digest == p.digest && b.runId == identity.runId;
        PassRow(e, identity, p, b, None);
        forall c | c in e.clips && ClipFor(identity, p, c) ensures Published(e, c) {
          PassRow(e, identity, p, b, Some(c));
        }
        ClippedMeans(e, identity, p);
      }
    } else {
      var row :| row in MissingClips(e, identity);
      PassRow(e, identity, row.0.0.0, row.0.0.1, row.0.1);
      ClippedMeans(e, identity, row.0.0.0);
    }
  }

  /** The unique index on a clip's artifact, corner and ordinal. */
  predicate ClipsUnique(e: Evidence) {
    forall c, d :: c in e.clips && d in e.clips && c.artifact == d.artifact && c.corner == d.corner && c.ordinal == d.ordinal
                   ==> c == d
  }

  /** With the unique index, the condition is one published clip for every eligible pass. */
  lemma OnePublishedClipEach(e: Evidence, identity: Identity)
    requires ClipsUnique(e)
    ensures EveryPassClipped(e, identity) <==>
              forall p :: p in e.passes && p.eligible && MeasuredInRun(e, identity, p) ==>
                exists id :: ClippedAs(e, identity, p, id) && Publication(id) in e.publications
  {
    forall p, id, other | ClippedAs(e, identity, p, id) && ClippedAs(e, identity, p, other) ensures id == other {
    }
  }

  // ----- the batch -----

  datatype Rows = Rows(runs: map<nat, RunRow>, analyses: map<nat, AnalysisRow>)

  predicate RunFound(rows: Rows, identity: Identity) {
    identity.runId in rows.runs
    && var run := rows.runs[identity.runId];
       run.ownerId == identity.ownerId && run.analysisId == identity.analysisId && run.workflowId == identity.workflowId
  }

  predicate AnalysisFound(rows: Rows, identity: Identity) {
    identity.analysisId in rows.analyses
    && var row := rows.analyses[identity.analysisId];
       row.ownerId == identity.ownerId && row.analysis.workflowId == identity.workflowId
  }

  predicate AnalysisOpen(rows: Rows, identity: Identity) {
    AnalysisFound(rows, identity) && Mutable(rows.analyses[identity.analysisId].analysis.status)
  }

  predicate AnalysisIs(rows: Rows, identity: Identity, status: Status) {
    AnalysisFound(rows, identity) && rows.analyses[identity.analysisId].analysis.status == status
  }

  predicate RunIs(rows: Rows, identity: Identity, status: RunStatus) {
    RunFound(rows, identity) && rows.runs[identity.runId].status == status
  }

  function RunPublished(rows: Rows, e: Evidence, identity: Identity): Rows {
    if RunIs(rows, identity, Active) && AnalysisOpen(rows, identity) && Ready(e, identity) then
      var run := rows.runs[identity.runId];
      rows.(runs := rows.runs[identity.runId := run.(status := RunCompleted, version := run.version + 1)])
    else rows
  }

  function CompletedFrom(analysis: Analysis): Analysis {
    analysis.(status := Completed, stage := Finalization, progress := 100, stateVersion := analysis.stateVersion + 1)
  }

  function AnalysisPublished(rows: Rows, identity: Identity): Rows {
    if AnalysisOpen(rows, identity) && RunIs(rows, identity, RunCompleted) then
      var row := rows.analyses[identity.analysisId];
      rows.(analyses := rows.analyses[identity.analysisId := row.(analysis := CompletedFrom(row.analysis))])
    else rows
  }

  /** The table refuses what the second statement asks for, and the batch is aborted. */
  predicate Aborts(rows: Rows, e: Evidence, identity: Identity) {
    && AnalysisOpen(rows, identity) && RunIs(RunPublished(rows, e, identity), identity, RunCompleted)
    && var analysis := rows.analyses[identity.analysisId].analysis;
       !Accepts(analysis, CompletedFrom(analysis))
  }

  /** Both statements of the batch, or neither. */
  function Batched(rows: Rows, e: Evidence, identity: Identity): Rows {
    if Aborts(rows, e, identity) then rows else AnalysisPublished(RunPublished(rows, e, identity), identity)
  }

  /** How the batch ended: the analysis row came back, no row did, or the database threw. */
  datatype Outcome = Returned | NoRow | Aborted

  function OutcomeOf(rows: Rows, e: Evidence, identity: Identity): Outcome {
    if Aborts(rows, e, identity) then Aborted
    else if Batched(rows, e, identity).analyses != rows.analyses then Returned
    else NoRow
  }

  datatype Told = ToldCompleted | NotReady | ToldStale | ToldNothing

  function Tell(rows: Rows, identity: Identity, outcome: Outcome): Told {
    if outcome.Aborted? then ToldNothing
    else if outcome.Returned? then ToldCompleted
    else if RunFound(rows, identity) && AnalysisFound(rows, identity) then
      var run := rows.runs[identity.runId].status;
      var analysis := rows.analyses[identity.analysisId].analysis.status;
      if run.RunCompleted? && analysis.Completed? then ToldCompleted
      else if run.Active? && Mutable(analysis) then NotReady
      else ToldStale
    else ToldStale
  }

  class CompletionStore {
    var runs: map<nat, RunRow>
    var analyses: map<nat, AnalysisRow>
    var evidence: Evidence

    ghost function View(): Rows
      reads this
    {
      Rows(runs, analyses)
    }

    /** The two statements in order; when the second is refused the first is rolled back. */
    method Publish(identity: Identity) returns (outcome: Outcome)
      modifies this`runs, this`analyses
      ensures View() == Batched(old(View()), evidence, identity)
      ensures outcome == OutcomeOf(old(View()), evidence, identity)
      ensures outcome.Returned? <==> analyses != old(analyses)
      ensures !outcome.Returned? ==> View() == old(View())
    {
      hide Ready, Accepts;
      if identity.runId in runs && identity.analysisId in analyses {
        var before := runs;
        var run := runs[identity.runId];
        var row := analyses[identity.analysisId];
        var runFound := run.ownerId == identity.ownerId && run.analysisId == identity.analysisId
                        && run.workflowId == identity.workflowId;
        var analysisOpen := row.ownerId == identity.ownerId && row.analysis.workflowId == identity.workflowId
                            && Mutable(row.analysis.status);
        if runFound && run.status.Active? && analysisOpen && Ready(evidence, identity) {
          run := run.(status := RunCompleted, version := run.version + 1);
          runs := runs[identity.runId := run];
        }
        if runFound && analysisOpen && run.status.RunCompleted? {
          var completed := CompletedFrom(row.analysis);
          if !Accepts(row.analysis, completed) {
            runs := before;
            return Aborted;
          }
          analyses := analyses[identity.analysisId := row.(analysis := completed)];
          assert analyses[identity.analysisId].analysis.status != old(analyses)[identity.analysisId].analysis.status;
          return Returned;
        }
      }
      return NoRow;
    }
  }

  // ----- what the batch promises -----

  /** Every stored row has passed the table's checks. */
  ghost predicate AllChecked(rows: Rows) {
    forall a :: a in rows.analyses ==> Checked(rows.analyses[a].analysis)
  }

  predicate BothCompleted(rows: Rows, identity: Identity) {
    RunIs(rows, identity, RunCompleted) && AnalysisIs(rows, identity, Completed)
  }

  /** Everything that a completion asks of segments, measurements and clips. */
  ghost predicate EvidenceComplete(e: Evidence, identity: Identity) {
    LastSegmentCompleted(e, identity) && EverySegmentMeasured(e, identity) && EveryPassClipped(e, identity)
  }

  lemma ReadyMeans(e: Evidence, identity: Identity)
    ensures Ready(e, identity) <==> EvidenceComplete(e, identity)
  {
    hide Terminal, LastSegmentCompleted, MissingEvidence, MissingClips, EverySegmentMeasured, EveryPassClipped;
    TerminalMeans(e, identity);
    MissingEvidenceMeans(e, identity);
    MissingClipsMeans(e, identity);
  }

  /** The table lets only a running analysis complete. */
  lemma OnlyRunningCompletes(analysis: Analysis)
    requires Checked(analysis) && Mutable(analysis.status)
    ensures Accepts(analysis, CompletedFrom(analysis)) <==> analysis.status == Running
  {
  }

  /**
   The batch is aborted, and nothing of it is left, exactly when it would complete an analysis that
   is still queued or waits for a new identification.
   */
  lemma AbortsExactly(rows: Rows, e: Evidence, identity: Identity)
    requires AllChecked(rows)
    ensures Aborts(rows, e, identity) <==>
              && (AnalysisIs(rows, identity, Queued) || AnalysisIs(rows, identity, AwaitingReidentification))
              && (RunIs(rows, identity, RunCompleted)
                  || (RunIs(rows, identity, Active) && EvidenceComplete(e, identity)))
    ensures Aborts(rows, e, identity) ==> Batched(rows, e, identity) == rows
  {
    hide Ready, EvidenceComplete, Accepts;
    ReadyMeans(e, identity);
    if AnalysisOpen(rows, identity) {
      OnlyRunningCompletes(rows.analyses[identity.analysisId].analysis);
    }
  }

  /** A run completes exactly when it is active, its analysis is running, and all the evidence and clips are there. */
  lemma RunCompletesExactly(rows: Rows, e: Evidence, identity: Identity)
    requires AllChecked(rows)
    ensures Batched(rows, e, identity).runs != rows.runs <==>
              RunIs(rows, identity, Active) && AnalysisIs(rows, identity, Running) && EvidenceComplete(e, identity)
  {
    hide Ready, EvidenceComplete, Accepts;
    ReadyMeans(e, identity);
    AbortsExactly(rows, e, identity);
    if RunIs(rows, identity, Active) && AnalysisIs(rows, identity, Running) && Ready(e, identity) {
      assert Batched(rows, e, identity).runs[identity.runId].status != rows.runs[identity.runId].status;
    }
  }

  /** The run and the analysis complete in the same batch: the run never does so alone. */
  lemma CompleteTogether(rows: Rows, e: Evidence, identity: Identity)
    requires Batched(rows, e, identity).runs != rows.runs
    ensures identity.runId in rows.runs && identity.analysisId in rows.analyses
    ensures var after := Batched(rows, e, identity);
            var run := rows.runs[identity.runId];
            var row := rows.analyses[identity.analysisId];
            && BothCompleted(after, identity)
            && after.runs == rows.runs[identity.runId := run.(status := RunCompleted, version := run.version + 1)]
            && after.analyses == rows.analyses[identity.analysisId := row.(analysis := row.analysis.(
                 status := Completed, stage := Finalization, progress := 100, stateVersion := row.analysis.stateVersion + 1))]
  {
    hide Ready, Accepts;
  }

  /** An analysis completes only while it runs, beside a run of its workflow that is completed by then. */
  lemma AnalysisCompletesBesideItsRun(rows: Rows, e: Evidence, identity: Identity)
    requires Batched(rows, e, identity).analyses != rows.analyses
    ensures BothCompleted(Batched(rows, e, identity), identity) && AnalysisIs(rows, identity, Running)
    ensures RunIs(rows, identity, RunCompleted) || Batched(rows, e, identity).runs != rows.runs
  {
    hide Ready;
    if !RunIs(rows, identity, RunCompleted) {
      assert Batched(rows, e, identity).runs[identity.runId].status == RunCompleted;
    }
  }

  /** Once both rows are completed, repeating the batch on any evidence changes nothing and answers completed. */
  lemma RepeatingChangesNothing(rows: Rows, e: Evidence, identity: Identity)
    requires BothCompleted(rows, identity)
    ensures Batched(rows, e, identity) == rows
    ensures Tell(rows, identity, OutcomeOf(rows, e, identity)) == ToldCompleted
  {
    hide Ready, Accepts;
  }

  /** The run and the analysis that an identity names, each with its owner and workflow. */
  lemma IdentityNamesRows(rows: Rows, identity: Identity, run: RunStatus, status: Status)
    ensures RunIs(rows, identity, run) <==>
              identity.runId in rows.runs
              && exists version :: rows.runs[identity.runId]
                                   == RunRow(identity.ownerId, identity.analysisId, identity.workflowId, run, version)
    ensures AnalysisIs(rows, identity, status) <==>
              identity.analysisId in rows.analyses
              && exists analysis :: rows.analyses[identity.analysisId] == AnalysisRow(identity.ownerId, analysis)
                                    && analysis.workflowId == identity.workflowId && analysis.status == status
    ensures AnalysisOpen(rows, identity) <==>
              AnalysisIs(rows, identity, Queued) || AnalysisIs(rows, identity, Running)
              || AnalysisIs(rows, identity, AwaitingReidentification)
  {
    if RunIs(rows, identity, run) {
      assert rows.runs[identity.runId] == RunRow(identity.ownerId, identity.analysisId, identity.workflowId, run,
                                                 rows.runs[identity.runId].version);
    }
    if AnalysisIs(rows, identity, status) {
      var row := rows.analyses[identity.analysisId];
      assert row == AnalysisRow(identity.ownerId, row.analysis);
    }
  }

  /**
   When nothing else ran, completed is told exactly when both rows are completed by then, not-ready
   exactly for an active run of an open analysis whose evidence is incomplete, nothing exactly when
   the database throws, and otherwise stale.
   */
  lemma ToldExactly(rows: Rows, e: Evidence, identity: Identity)
    requires AllChecked(rows)
    ensures var told := Tell(Batched(rows, e, identity), identity, OutcomeOf(rows, e, identity));
            && (told == ToldCompleted <==> BothCompleted(Batched(rows, e, identity), identity))
            && (told == NotReady <==>
                 RunIs(rows, identity, Active) && AnalysisOpen(rows, identity) && !EvidenceComplete(e, identity))
            && (told == ToldNothing <==> OutcomeOf(rows, e, identity) == Aborted)
  {
    hide Ready, EvidenceComplete, Accepts;
    ReadyMeans(e, identity);
    AbortsExactly(rows, e, identity);
    if Batched(rows, e, identity).runs != rows.runs {
      CompleteTogether(rows, e, identity);
    }
    if Batched(rows, e, identity).analyses != rows.analyses {
      AnalysisCompletesBesideItsRun(rows, e, identity);
    }
  }

  /**
   When nothing else ran, an active run of an open analysis is told not-ready exactly when its
   evidence is incomplete, completed exactly when the evidence is complete and the analysis runs, and
   nothing at all, because the database throws, in the one case that is left.
   */
  lemma NotReadyMeansIncomplete(rows: Rows, e: Evidence, identity: Identity)
    requires AllChecked(rows) && RunIs(rows, identity, Active) && AnalysisOpen(rows, identity)
    ensures var told := Tell(Batched(rows, e, identity), identity, OutcomeOf(rows, e, identity));
            && (told == NotReady <==> !EvidenceComplete(e, identity))
            && (told == ToldCompleted <==> EvidenceComplete(e, identity) && AnalysisIs(rows, identity, Running))
            && (told == ToldNothing <==> EvidenceComplete(e, identity) && !AnalysisIs(rows, identity, Running))
  {
    hide Ready, EvidenceComplete, Accepts;
    ReadyMeans(e, identity);
    AbortsExactly(rows, e, identity);
    RunCompletesExactly(rows, e, identity);
    if Batched(rows, e, identity).runs != rows.runs {
      CompleteTogether(rows, e, identity);
      assert Batched(rows, e, identity).analyses[identity.analysisId] != rows.analyses[identity.analysisId];
    }
  }
}
