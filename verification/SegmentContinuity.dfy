/**
 An accepted segment tiles the prepared-frame manifest from its seed on: every
 frame is one observation, or lies in one closed gap, or belongs to the open
 tail.  The in-order walk of the evidence engine accepts exactly those.
 */
module SegmentContinuity {
  import opened Wrappers
  import opened GateGeometry

  const MAX_CORNER_EVIDENCE_FRAMES := 100_000

  datatype Frame = Frame(frameIndex: int, timestampMs: int)

  /** A closed gap is half-open in time: recovery may be observed at its end, never inside. */
  datatype ClosedGap = ClosedGap(startMs: int, endMs: int)

  datatype Segment = Segment(
    caseId: string,
    observations: seq<Observation>,
    gaps: seq<ClosedGap>,
    openGapMs: Option<int>,
    identityConfidenceThreshold: real)

  datatype Input = Input(caseId: string, frames: seq<Frame>, seed: Frame, segment: Segment)

  ghost predicate Increasing(frames: seq<Frame>) {
    forall i, j :: 0 <= i < j < |frames| ==>
      frames[i].frameIndex < frames[j].frameIndex && frames[i].timestampMs < frames[j].timestampMs
  }

  predicate Shows(f: Frame, o: Observation) {
    f.frameIndex == o.frameIndex && f.timestampMs == o.timestampMs
  }

  predicate Trusted(o: Observation, threshold: real) {
    o.visible && o.identityConfidence >= threshold
  }

  // ----- the meaning: a tiling of the frames from a position on -----

  ghost predicate Observed(f: Frame, obs: seq<Observation>) {
    exists i :: 0 <= i < |obs| && Shows(f, obs[i])
  }

  predicate Inside(f: Frame, g: ClosedGap) {
    g.startMs <= f.timestampMs < g.endMs
  }

  ghost predicate Missing(f: Frame, gaps: seq<ClosedGap>) {
    exists j :: 0 <= j < |gaps| && Inside(f, gaps[j])
  }

  predicate InTail(f: Frame, open: Option<int>) {
    open.Some? && f.timestampMs >= open.value
  }

  /** Exactly one of: observed, missing, in the tail. */
  ghost predicate TiledOnce(f: Frame, obs: seq<Observation>, gaps: seq<ClosedGap>, open: Option<int>) {
    && (Observed(f, obs) || Missing(f, gaps) || InTail(f, open))
    && !(Observed(f, obs) && Missing(f, gaps))
    && !(Observed(f, obs) && InTail(f, open))
    && !(Missing(f, gaps) && InTail(f, open))
  }

  ghost predicate FrameAt(frames: seq<Frame>, from: nat, t: int) {
    exists k :: from <= k < |frames| && frames[k].timestampMs == t
  }

  ghost predicate ObservedFrom(frames: seq<Frame>, from: nat, o: Observation) {
    exists k :: from <= k < |frames| && Shows(frames[k], o)
  }

  /** A gap starts at a frame of its own, after the first, and ends at an observation. */
  ghost predicate GapPlaced(frames: seq<Frame>, from: nat, obs: seq<Observation>, g: ClosedGap) {
    && g.startMs < g.endMs
    && FrameAt(frames, from, g.startMs)
    && exists i :: 0 <= i < |obs| && obs[i].timestampMs == g.endMs
  }

  ghost predicate ObservationsOk(frames: seq<Frame>, from: nat, obs: seq<Observation>) {
    && (forall i, j :: 0 <= i < j < |obs| ==> obs[i].timestampMs < obs[j].timestampMs)
    && (forall i :: 0 <= i < |obs| ==> ObservedFrom(frames, from, obs[i]))
  }

  /** `first` is where the earliest gap may start; a gap cannot open a segment or touch another gap. */
  ghost predicate GapsOk(frames: seq<Frame>, first: nat, obs: seq<Observation>, gaps: seq<ClosedGap>) {
    && (forall i, j :: 0 <= i < j < |gaps| ==> gaps[i].endMs < gaps[j].startMs)
    && (forall j :: 0 <= j < |gaps| ==> GapPlaced(frames, first, obs, gaps[j]))
  }

  ghost predicate FramesOk(frames: seq<Frame>, from: nat, obs: seq<Observation>, gaps: seq<ClosedGap>, open: Option<int>) {
    forall k :: from <= k < |frames| ==> TiledOnce(frames[k], obs, gaps, open)
  }

  ghost predicate Tiled(frames: seq<Frame>, from: nat, first: nat, obs: seq<Observation>, gaps: seq<ClosedGap>, open: Option<int>) {
    && ObservationsOk(frames, from, obs)
    && GapsOk(frames, first, obs, gaps)
    && FramesOk(frames, from, obs, gaps, open)
    && (open.Some? ==> FrameAt(frames, from, open.value))
  }

  // ----- one step of the walk -----

  lemma CursorNotInTail(frames: seq<Frame>, from: nat, obs: seq<Observation>, gaps: seq<ClosedGap>, open: Option<int>)
    requires Increasing(frames) && from < |frames| && obs != []
    requires ObservationsOk(frames, from, obs) && FramesOk(frames, from, obs, gaps, open)
    ensures !InTail(frames[from], open)
  {
    assert ObservedFrom(frames, from, obs[0]);
    var k: nat :| from <= k < |frames| && Shows(frames[k], obs[0]);
    ShownAt(frames, k, obs, 0);
    assert TiledOnce(frames[k], obs, gaps, open);
  }

  lemma CursorInGap(frames: seq<Frame>, from: nat, first: nat, obs: seq<Observation>, gaps: seq<ClosedGap>)
    requires Increasing(frames) && from < |frames| && from <= first
    requires GapsOk(frames, first, obs, gaps) && Missing(frames[from], gaps)
    ensures gaps != [] && frames[from].timestampMs == gaps[0].startMs && first == from
  {
    var j: nat :| j < |gaps| && Inside(frames[from], gaps[j]);
    assert GapPlaced(frames, first, obs, gaps[j]);
    var m: nat :| first <= m < |frames| && frames[m].timestampMs == gaps[j].startMs;
    assert m == from;
    assert GapPlaced(frames, first, obs, gaps[0]);
    var n: nat :| first <= n < |frames| && frames[n].timestampMs == gaps[0].startMs;
    assert frames[from].timestampMs <= frames[n].timestampMs;
    assert forall b :: 0 < b < |gaps| ==> gaps[0].endMs < gaps[b].startMs;
  }

  lemma CursorObserved(frames: seq<Frame>, from: nat, obs: seq<Observation>)
    requires Increasing(frames) && from < |frames|
    requires ObservationsOk(frames, from, obs) && Observed(frames[from], obs)
    ensures Shows(frames[from], obs[0])
  {
    var i: nat :| i < |obs| && Shows(frames[from], obs[i]);
    assert ObservedFrom(frames, from, obs[0]);
    var k: nat :| from <= k < |frames| && Shows(frames[k], obs[0]);
    assert frames[from].timestampMs <= frames[k].timestampMs;
    assert forall b :: 0 < b < |obs| ==> obs[0].timestampMs < obs[b].timestampMs;
  }

  /** In a tiling with an observation left, the cursor's frame is that observation or the first gap's start. */
  lemma CursorFrame(frames: seq<Frame>, from: nat, first: nat, obs: seq<Observation>, gaps: seq<ClosedGap>, open: Option<int>)
    requires Increasing(frames) && from < |frames| && from <= first && obs != []
    requires Tiled(frames, from, first, obs, gaps, open)
    ensures !InTail(frames[from], open)
    ensures Missing(frames[from], gaps) ==> gaps != [] && frames[from].timestampMs == gaps[0].startMs && first == from
    ensures !Missing(frames[from], gaps) ==> Shows(frames[from], obs[0])
  {
    CursorNotInTail(frames, from, obs, gaps, open);
    assert TiledOnce(frames[from], obs, gaps, open);
    hide ObservationsOk, GapsOk, FramesOk, Increasing;
    if Missing(frames[from], gaps) {
      CursorInGap(frames, from, first, obs, gaps);
    } else {
      CursorObserved(frames, from, obs);
    }
  }

  /** A frame later than the first observation is observed by the others or not at all. */
  lemma ObservedTail(f: Frame, obs: seq<Observation>)
    requires obs != [] && obs[0].timestampMs != f.timestampMs
    ensures Observed(f, obs) <==> Observed(f, obs[1..])
  {
    if Observed(f, obs) {
      var i :| 0 <= i < |obs| && Shows(f, obs[i]);
      assert obs[1..][i - 1] == obs[i];
    }
    if Observed(f, obs[1..]) {
      var i :| 0 <= i < |obs[1..]| && Shows(f, obs[1..][i]);
      assert obs[i + 1] == obs[1..][i];
    }
  }

  lemma MissingTail(f: Frame, gaps: seq<ClosedGap>)
    requires gaps != [] && !Inside(f, gaps[0])
    ensures Missing(f, gaps) <==> Missing(f, gaps[1..])
  {
    if Missing(f, gaps) {
      var j :| 0 <= j < |gaps| && Inside(f, gaps[j]);
      assert gaps[1..][j - 1] == gaps[j];
    }
    if Missing(f, gaps[1..]) {
      var j :| 0 <= j < |gaps[1..]| && Inside(f, gaps[1..][j]);
      assert gaps[j + 1] == gaps[1..][j];
    }
  }

  lemma ShownAt(frames: seq<Frame>, k: nat, obs: seq<Observation>, i: nat)
    requires k < |frames| && i < |obs| && Shows(frames[k], obs[i])
    ensures Observed(frames[k], obs)
  {
  }

  lemma ObserveForwardGap(frames: seq<Frame>, from: nat, first: nat, obs: seq<Observation>, g: ClosedGap)
    requires Increasing(frames) && from < |frames| && from <= first && obs != [] && Shows(frames[from], obs[0])
    requires GapPlaced(frames, first, obs, g) && !Inside(frames[from], g)
    ensures GapPlaced(frames, from + 1, obs[1..], g)
  {
    var m :| first <= m < |frames| && frames[m].timestampMs == g.startMs;
    assert m != from;
    var i :| 0 <= i < |obs| && obs[i].timestampMs == g.endMs;
    assert i > 0;
    assert obs[1..][i - 1].timestampMs == g.endMs;
  }

  lemma ObserveForward(frames: seq<Frame>, from: nat, first: nat, obs: seq<Observation>, gaps: seq<ClosedGap>, open: Option<int>)
    requires Increasing(frames) && from < |frames| && from <= first <= from + 1 && obs != []
    requires gaps != [] ==> frames[from].timestampMs != gaps[0].startMs
    requires Tiled(frames, from, first, obs, gaps, open)
    ensures Shows(frames[from], obs[0]) && Tiled(frames, from + 1, from + 1, obs[1..], gaps, open)
  {
    CursorFrame(frames, from, first, obs, gaps, open);
    forall i | 0 <= i < |obs[1..]| ensures ObservedFrom(frames, from + 1, obs[1..][i]) {
      assert ObservedFrom(frames, from, obs[i + 1]);
      var k :| from <= k < |frames| && Shows(frames[k], obs[i + 1]);
      assert obs[0].timestampMs < obs[i + 1].timestampMs;
    }
    forall j | 0 <= j < |gaps| ensures GapPlaced(frames, from + 1, obs[1..], gaps[j]) {
      ObserveForwardGap(frames, from, first, obs, gaps[j]);
    }
    forall k | from + 1 <= k < |frames| ensures TiledOnce(frames[k], obs[1..], gaps, open) {
      assert TiledOnce(frames[k], obs, gaps, open);
      ObservedTail(frames[k], obs);
    }
  }

  lemma ObserveBack(frames: seq<Frame>, from: nat, first: nat, obs: seq<Observation>, gaps: seq<ClosedGap>, open: Option<int>)
    requires Increasing(frames) && from < |frames| && from <= first <= from + 1 && obs != []
    requires Shows(frames[from], obs[0]) && Tiled(frames, from + 1, from + 1, obs[1..], gaps, open)
    ensures Tiled(frames, from, first, obs, gaps, open)
  {
    forall i | 0 < i < |obs| ensures ObservedFrom(frames, from, obs[i]) && obs[0].timestampMs < obs[i].timestampMs {
      assert obs[1..][i - 1] == obs[i];
      var k :| from + 1 <= k < |frames| && Shows(frames[k], obs[i]);
    }
    forall i, j | 0 <= i < j < |obs| ensures obs[i].timestampMs < obs[j].timestampMs {
      assert i > 0 ==> obs[1..][i - 1] == obs[i] && obs[1..][j - 1] == obs[j];
    }
    assert ObservedFrom(frames, from, obs[0]);
    forall j | 0 <= j < |gaps| ensures GapPlaced(frames, first, obs, gaps[j]) && !Inside(frames[from], gaps[j]) {
      assert GapPlaced(frames, from + 1, obs[1..], gaps[j]);
      var m :| from + 1 <= m < |frames| && frames[m].timestampMs == gaps[j].startMs;
      var i :| 0 <= i < |obs[1..]| && obs[1..][i].timestampMs == gaps[j].endMs;
      assert obs[i + 1].timestampMs == gaps[j].endMs;
    }
    forall k | from <= k < |frames| ensures TiledOnce(frames[k], obs, gaps, open) {
      if k == from {
        ShownAt(frames, from, obs, 0);
      } else {
        assert TiledOnce(frames[k], obs[1..], gaps, open);
        ObservedTail(frames[k], obs);
      }
    }
  }

  /** Observing the cursor's frame is exact: what is left must be tiled from the next frame. */
  lemma ObserveStep(frames: seq<Frame>, from: nat, first: nat, obs: seq<Observation>, gaps: seq<ClosedGap>, open: Option<int>)
    requires Increasing(frames) && from < |frames| && from <= first <= from + 1 && obs != []
    requires gaps != [] && first == from ==> frames[from].timestampMs != gaps[0].startMs
    ensures Tiled(frames, from, first, obs, gaps, open)
       <==> Shows(frames[from], obs[0]) && Tiled(frames, from + 1, from + 1, obs[1..], gaps, open)
  {
    if Tiled(frames, from, first, obs, gaps, open) {
      if gaps != [] {
        assert GapPlaced(frames, first, obs, gaps[0]);
      }
      ObserveForward(frames, from, first, obs, gaps, open);
    }
    if Shows(frames[from], obs[0]) && Tiled(frames, from + 1, from + 1, obs[1..], gaps, open) {
      ObserveBack(frames, from, first, obs, gaps, open);
    }
  }

  // ----- skipping a gap -----

  lemma SkippedFrame(frames: seq<Frame>, from: nat, to: nat, k: nat, obs: seq<Observation>, gaps: seq<ClosedGap>, open: Option<int>)
    requires Increasing(frames) && from <= k < to < |frames| && gaps != []
    requires frames[from].timestampMs == gaps[0].startMs && frames[to].timestampMs == gaps[0].endMs
    requires FramesOk(frames, from, obs, gaps, open)
    ensures Inside(frames[k], gaps[0]) && !Observed(frames[k], obs) && !InTail(frames[k], open)
  {
    assert TiledOnce(frames[k], obs, gaps, open);
    assert frames[from].timestampMs <= frames[k].timestampMs < frames[to].timestampMs;
  }

  lemma SkipObservations(frames: seq<Frame>, from: nat, to: nat, obs: seq<Observation>)
    requires from < to < |frames| && ObservationsOk(frames, from, obs)
    requires forall k :: from <= k < to ==> !Observed(frames[k], obs)
    ensures ObservationsOk(frames, to, obs)
  {
    forall i | 0 <= i < |obs| ensures ObservedFrom(frames, to, obs[i]) {
      assert ObservedFrom(frames, from, obs[i]);
      var k: nat :| from <= k < |frames| && Shows(frames[k], obs[i]);
      ShownAt(frames, k, obs, i);
    }
  }

  lemma SkipGaps(frames: seq<Frame>, from: nat, to: nat, obs: seq<Observation>, gaps: seq<ClosedGap>)
    requires Increasing(frames) && from < to < |frames| && gaps != []
    requires frames[to].timestampMs == gaps[0].endMs && GapsOk(frames, from, obs, gaps)
    ensures GapsOk(frames, to + 1, obs, gaps[1..])
  {
    forall j | 0 <= j < |gaps[1..]| ensures GapPlaced(frames, to + 1, obs, gaps[1..][j]) {
      var g := gaps[j + 1];
      assert GapPlaced(frames, from, obs, g);
      var m: nat :| from <= m < |frames| && frames[m].timestampMs == g.startMs;
      assert gaps[0].endMs < g.startMs;
    }
  }

  lemma SkipForward(frames: seq<Frame>, from: nat, to: nat, obs: seq<Observation>, gaps: seq<ClosedGap>, open: Option<int>)
    requires Increasing(frames) && from < to < |frames| && gaps != []
    requires frames[from].timestampMs == gaps[0].startMs && frames[to].timestampMs == gaps[0].endMs
    requires Tiled(frames, from, from, obs, gaps, open)
    ensures Tiled(frames, to, to + 1, obs, gaps[1..], open)
  {
    hide ObservationsOk, GapsOk, Observed, Missing;
    forall k | from <= k < to ensures !Observed(frames[k], obs) && !InTail(frames[k], open) {
      SkippedFrame(frames, from, to, k, obs, gaps, open);
    }
    SkipObservations(frames, from, to, obs);
    SkipGaps(frames, from, to, obs, gaps);
    forall k | to <= k < |frames| ensures TiledOnce(frames[k], obs, gaps[1..], open) {
      assert TiledOnce(frames[k], obs, gaps, open);
      assert frames[to].timestampMs <= frames[k].timestampMs;
      MissingTail(frames[k], gaps);
    }
  }

  lemma SkipBackGaps(frames: seq<Frame>, from: nat, to: nat, obs: seq<Observation>, gaps: seq<ClosedGap>)
    requires from < to < |frames| && gaps != [] && GapPlaced(frames, from, obs, gaps[0])
    requires Increasing(frames) && frames[to].timestampMs == gaps[0].endMs
    requires GapsOk(frames, to + 1, obs, gaps[1..])
    ensures GapsOk(frames, from, obs, gaps)
  {
    forall j | 0 < j < |gaps| ensures GapPlaced(frames, from, obs, gaps[j]) && gaps[0].endMs < gaps[j].startMs {
      assert gaps[1..][j - 1] == gaps[j];
      assert GapPlaced(frames, to + 1, obs, gaps[j]);
      var m: nat :| to + 1 <= m < |frames| && frames[m].timestampMs == gaps[j].startMs;
    }
    forall i, j | 0 <= i < j < |gaps| ensures gaps[i].endMs < gaps[j].startMs {
      assert i > 0 ==> gaps[1..][i - 1] == gaps[i] && gaps[1..][j - 1] == gaps[j];
    }
  }

  lemma SkipBackFrames(frames: seq<Frame>, from: nat, to: nat, obs: seq<Observation>, gaps: seq<ClosedGap>, open: Option<int>)
    requires Increasing(frames) && from < to < |frames| && gaps != []
    requires frames[from].timestampMs == gaps[0].startMs && frames[to].timestampMs == gaps[0].endMs
    requires open.Some? ==> frames[to].timestampMs < open.value
    requires ObservationsOk(frames, to, obs) && FramesOk(frames, to, obs, gaps[1..], open)
    ensures FramesOk(frames, from, obs, gaps, open)
  {
    forall k | from <= k < |frames| ensures TiledOnce(frames[k], obs, gaps, open) {
      if k < to {
        assert Inside(frames[k], gaps[0]);
        NotObservedBefore(frames, k, to, obs);
      } else {
        assert TiledOnce(frames[k], obs, gaps[1..], open);
        assert frames[to].timestampMs <= frames[k].timestampMs;
        MissingTail(frames[k], gaps);
      }
    }
  }

  lemma SkipBack(frames: seq<Frame>, from: nat, to: nat, obs: seq<Observation>, gaps: seq<ClosedGap>, open: Option<int>)
    requires Increasing(frames) && from < to < |frames| && gaps != [] && obs != []
    requires frames[from].timestampMs == gaps[0].startMs && frames[to].timestampMs == gaps[0].endMs
    requires Tiled(frames, to, to + 1, obs, gaps[1..], open)
    ensures Tiled(frames, from, from, obs, gaps, open)
  {
    CursorFrame(frames, to, to + 1, obs, gaps[1..], open);
    assert GapPlaced(frames, from, obs, gaps[0]);
    CursorNotInTail(frames, to, obs, gaps[1..], open);
    SkipBackGaps(frames, from, to, obs, gaps);
    SkipBackFrames(frames, from, to, obs, gaps, open);
    hide GapsOk, FramesOk;
    forall i | 0 <= i < |obs| ensures ObservedFrom(frames, from, obs[i]) {
      assert ObservedFrom(frames, to, obs[i]);
    }
  }

  lemma NotObservedBefore(frames: seq<Frame>, k: nat, to: nat, obs: seq<Observation>)
    requires Increasing(frames) && k < to < |frames| && ObservationsOk(frames, to, obs)
    ensures !Observed(frames[k], obs)
  {
    forall i | 0 <= i < |obs| ensures !Shows(frames[k], obs[i]) {
      assert ObservedFrom(frames, to, obs[i]);
      var m: nat :| to <= m < |frames| && Shows(frames[m], obs[i]);
      assert frames[k].timestampMs < frames[m].timestampMs;
    }
  }

  /** Skipping a gap is exact: what is left must be tiled from the gap's end. */
  lemma SkipStep(frames: seq<Frame>, from: nat, to: nat, obs: seq<Observation>, gaps: seq<ClosedGap>, open: Option<int>)
    requires Increasing(frames) && from < to < |frames| && gaps != [] && obs != []
    requires frames[from].timestampMs == gaps[0].startMs && frames[to].timestampMs == gaps[0].endMs
    ensures Tiled(frames, from, from, obs, gaps, open) <==> Tiled(frames, to, to + 1, obs, gaps[1..], open)
  {
    if Tiled(frames, from, from, obs, gaps, open) {
      SkipForward(frames, from, to, obs, gaps, open);
    }
    if Tiled(frames, to, to + 1, obs, gaps[1..], open) {
      SkipBack(frames, from, to, obs, gaps, open);
    }
  }

  lemma GapNeedsItsFrames(frames: seq<Frame>, from: nat, first: nat, obs: seq<Observation>, gaps: seq<ClosedGap>, open: Option<int>)
    requires Tiled(frames, from, first, obs, gaps, open) && gaps != []
    ensures gaps[0].startMs < gaps[0].endMs
    ensures FrameAt(frames, first, gaps[0].startMs)
    ensures FrameAt(frames, from, gaps[0].endMs)
    ensures obs != []
  {
    assert GapPlaced(frames, first, obs, gaps[0]);
    var i: nat :| i < |obs| && obs[i].timestampMs == gaps[0].endMs;
    assert ObservedFrom(frames, from, obs[i]);
  }

  /** With no observation left, only the open tail may remain, and it starts at the cursor. */
  lemma EndStep(frames: seq<Frame>, from: nat, first: nat, gaps: seq<ClosedGap>, open: Option<int>)
    requires Increasing(frames) && from <= |frames|
    ensures Tiled(frames, from, first, [], gaps, open)
       <==> gaps == [] && if open.None? then from == |frames|
                          else from < |frames| && frames[from].timestampMs == open.value
  {
    if Tiled(frames, from, first, [], gaps, open) {
      if gaps != [] {
        GapNeedsItsFrames(frames, from, first, [], gaps, open);
      }
      if from < |frames| {
        assert TiledOnce(frames[from], [], gaps, open);
      }
    }
    if gaps == [] && open.Some? && from < |frames| && frames[from].timestampMs == open.value {
      assert FrameAt(frames, from, open.value);
      forall k | from <= k < |frames| ensures TiledOnce(frames[k], [], gaps, open) {
        assert frames[from].timestampMs <= frames[k].timestampMs;
      }
    }
  }

  // ----- acceptance -----

  ghost predicate SeedAt(input: Input, s: nat) {
    s < |input.frames| && input.frames[s] == input.seed
  }

  ghost predicate WithinLimit(frames: seq<Frame>, s: nat, g: ClosedGap) {
    forall k :: s <= k < |frames| && frames[k].timestampMs == g.endMs ==> k - s <= 100_000
  }

  /** No gap ends further than the frame limit from the seed. */
  ghost predicate GapsWithinLimit(frames: seq<Frame>, s: nat, gaps: seq<ClosedGap>) {
    forall j :: 0 <= j < |gaps| ==> WithinLimit(frames, s, gaps[j])
  }

  ghost predicate AllTrusted(segment: Segment, n: nat) {
    n <= |segment.observations| &&
    forall i :: 0 <= i < n ==> Trusted(segment.observations[i], segment.identityConfidenceThreshold)
  }

  ghost predicate AcceptedFrom(frames: seq<Frame>, s: nat, segment: Segment) {
    && Tiled(frames, s, s + 1, segment.observations, segment.gaps, segment.openGapMs)
    && AllTrusted(segment, |segment.observations|)
    && GapsWithinLimit(frames, s, segment.gaps)
  }

  /** A trusted tiling of the manifest from the seed frame on, within the frame limit. */
  ghost predicate Accepted(input: Input) {
    && input.segment.caseId == input.caseId
    && exists s :: SeedAt(input, s) && AcceptedFrom(input.frames, s, input.segment)
  }

  method FindSeed(frames: seq<Frame>, seed: Frame) returns (s: int)
    ensures -1 <= s < |frames|
    ensures s >= 0 ==> frames[s] == seed
    ensures s == -1 ==> seed !in frames
  {
    s := 0;
    while s < |frames|
      invariant 0 <= s <= |frames|
      invariant seed !in frames[..s]
    {
      if frames[s].frameIndex == seed.frameIndex && frames[s].timestampMs == seed.timestampMs {
        return;
      }
      s := s + 1;
    }
    s := -1;
  }

  lemma SeedIsUnique(input: Input, s: nat)
    requires Increasing(input.frames) && SeedAt(input, s) && input.segment.caseId == input.caseId
    ensures Accepted(input) <==> AcceptedFrom(input.frames, s, input.segment)
  {
    forall t | SeedAt(input, t) ensures t == s {
    }
  }

  lemma NoFrameLeft(frames: seq<Frame>, first: nat, obs: seq<Observation>, gaps: seq<ClosedGap>, open: Option<int>)
    requires obs != []
    ensures !Tiled(frames, |frames|, first, obs, gaps, open)
  {
    assert !ObservedFrom(frames, |frames|, obs[0]);
  }

  lemma BadGapStart(frames: seq<Frame>, from: nat, first: nat, obs: seq<Observation>, gaps: seq<ClosedGap>, open: Option<int>)
    requires Increasing(frames) && from < |frames| && gaps != [] && frames[from].timestampMs == gaps[0].startMs
    requires first > from || gaps[0].endMs <= gaps[0].startMs
    ensures !Tiled(frames, from, first, obs, gaps, open)
  {
    forall k | first <= k < |frames| && first > from ensures frames[k].timestampMs != gaps[0].startMs {
    }
    assert first > from ==> !GapPlaced(frames, first, obs, gaps[0]);
    assert gaps[0].endMs <= gaps[0].startMs ==> !GapPlaced(frames, first, obs, gaps[0]);
  }

  lemma NoGapNoLimit(frames: seq<Frame>, s: nat)
    ensures GapsWithinLimit(frames, s, [])
  {
  }

  ghost predicate AllBefore(frames: seq<Frame>, from: nat, to: nat, t: int) {
    to <= |frames| && forall k :: from <= k < to ==> frames[k].timestampMs < t
  }

  /** The frame search stops at the gap's end frame if there is one. */
  lemma GapEndsHere(frames: seq<Frame>, from: nat, first: nat, at: nat, obs: seq<Observation>, gaps: seq<ClosedGap>, open: Option<int>)
    requires Increasing(frames) && gaps != [] && from <= at && AllBefore(frames, from, at, gaps[0].endMs)
    requires Tiled(frames, from, first, obs, gaps, open)
    ensures at < |frames| && frames[at].timestampMs <= gaps[0].endMs
  {
    hide Tiled;
    GapNeedsItsFrames(frames, from, first, obs, gaps, open);
    var k: nat :| from <= k < |frames| && frames[k].timestampMs == gaps[0].endMs;
    assert at <= k;
    assert at < k ==> frames[at].timestampMs < frames[k].timestampMs;
  }

  lemma GapEndsTooFar(frames: seq<Frame>, s: nat, from: nat, first: nat, at: nat, obs: seq<Observation>, all: seq<ClosedGap>, j: nat, open: Option<int>)
    requires j < |all| && s <= from <= at && AllBefore(frames, from, at, all[j].endMs)
    requires Tiled(frames, from, first, obs, all[j..], open)
    ensures at - s > MAX_CORNER_EVIDENCE_FRAMES ==> !GapsWithinLimit(frames, s, all)
  {
    hide Tiled;
    GapNeedsItsFrames(frames, from, first, obs, all[j..], open);
    var k: nat :| from <= k < |frames| && frames[k].timestampMs == all[j].endMs;
    assert at - s > MAX_CORNER_EVIDENCE_FRAMES ==> !WithinLimit(frames, s, all[j]);
  }

  lemma GapWithinLimit(frames: seq<Frame>, s: nat, at: nat, gaps: seq<ClosedGap>, j: nat)
    requires Increasing(frames) && j < |gaps| && s <= at < |frames| && frames[at].timestampMs == gaps[j].endMs
    requires at - s <= MAX_CORNER_EVIDENCE_FRAMES && GapsWithinLimit(frames, s, gaps[..j])
    ensures GapsWithinLimit(frames, s, gaps[..j + 1])
  {
    assert WithinLimit(frames, s, gaps[j]);
    assert gaps[..j + 1] == gaps[..j] + [gaps[j]];
  }

  /** The frame search inside one gap: its end frame, or why there is none. */
  method SkipGap(frames: seq<Frame>, seedIndex: nat, from: nat, endMs: int) returns (position: nat, found: bool)
    requires seedIndex <= from < |frames| && frames[from].timestampMs < endMs
    ensures from < position <= |frames| && AllBefore(frames, from, position, endMs)
    ensures found ==>
              && position < |frames| && frames[position].timestampMs == endMs
              && position - seedIndex <= MAX_CORNER_EVIDENCE_FRAMES
    ensures !found ==>
              || position - seedIndex > MAX_CORNER_EVIDENCE_FRAMES
              || position == |frames| || frames[position].timestampMs > endMs
  {
    position := from;
    while position < |frames| && frames[position].timestampMs < endMs
      invariant from <= position <= |frames| && AllBefore(frames, from, position, endMs)
      invariant position == from || position - seedIndex <= MAX_CORNER_EVIDENCE_FRAMES
    {
      position := position + 1;
      if position - seedIndex > MAX_CORNER_EVIDENCE_FRAMES {
        return position, false;
      }
    }
    return position, position < |frames| && frames[position].timestampMs == endMs;
  }

  /** The walk over the observations, from the seed frame on. */
  method Walk(frames: seq<Frame>, seedIndex: nat, segment: Segment) returns (ok: bool)
    requires Increasing(frames) && seedIndex < |frames|
    ensures ok <==> AcceptedFrom(frames, seedIndex, segment)
  {
    hide Tiled, GapsWithinLimit, Increasing, AllBefore;
    var obs, gaps, open := segment.observations, segment.gaps, segment.openGapMs;
    var gapIndex, framePosition := 0, seedIndex;
    ghost var first := seedIndex + 1;
    ghost var tiled := Tiled(frames, seedIndex, first, obs, gaps, open);
    assert obs[0..] == obs && gaps[0..] == gaps && gaps[..0] == [];
    NoGapNoLimit(frames, seedIndex);
    for index := 0 to |obs|
      invariant seedIndex <= framePosition <= |frames| && gapIndex <= |gaps|
      invariant first == if index == 0 then framePosition + 1 else framePosition
      invariant tiled <==> Tiled(frames, framePosition, first, obs[index..], gaps[gapIndex..], open)
      invariant AllTrusted(segment, index)
      invariant GapsWithinLimit(frames, seedIndex, gaps[..gapIndex])
    {
      if gapIndex < |gaps| && framePosition < |frames| && frames[framePosition].timestampMs == gaps[gapIndex].startMs {
        var gap := gaps[gapIndex];
        if index == 0 || gap.endMs <= gap.startMs {
          BadGapStart(frames, framePosition, first, obs[index..], gaps[gapIndex..], open);
          return false;
        }
        ghost var from := framePosition;
        var found;
        framePosition, found := SkipGap(frames, seedIndex, framePosition, gap.endMs);
        if !found {
          if tiled {
            GapEndsHere(frames, from, first, framePosition, obs[index..], gaps[gapIndex..], open);
            GapEndsTooFar(frames, seedIndex, from, first, framePosition, obs[index..], gaps, gapIndex, open);
          }
          return false;
        }
        assert gaps[gapIndex..][1..] == gaps[gapIndex + 1..];
        SkipStep(frames, from, framePosition, obs[index..], gaps[gapIndex..], open);
        GapWithinLimit(frames, seedIndex, framePosition, gaps, gapIndex);
        gapIndex, first := gapIndex + 1, framePosition + 1;
      }
      if framePosition == |frames| {
        NoFrameLeft(frames, first, obs[index..], gaps[gapIndex..], open);
        return false;
      }
      assert obs[index..][1..] == obs[index + 1..];
      ObserveStep(frames, framePosition, first, obs[index..], gaps[gapIndex..], open);
      if !Shows(frames[framePosition], obs[index]) || !Trusted(obs[index], segment.identityConfidenceThreshold) {
        return false;
      }
      framePosition, first := framePosition + 1, framePosition + 1;
    }
    assert obs[|obs|..] == [];
    EndStep(frames, framePosition, first, gaps[gapIndex..], open);
    assert gapIndex == |gaps| ==> gaps[..gapIndex] == gaps;
    return gapIndex == |gaps|
        && (open.None? ==> framePosition == |frames|)
        && (open.Some? ==> framePosition < |frames| && frames[framePosition].timestampMs == open.value);
  }

  /** A segment is accepted exactly when it is a trusted tiling of the manifest from its seed on. */
  method AssertObservationContinuity(input: Input) returns (ok: bool)
    requires Increasing(input.frames)
    ensures ok <==> Accepted(input)
  {
    var seedIndex := FindSeed(input.frames, input.seed);
    if seedIndex < 0 || input.segment.caseId != input.caseId {
      return false;
    }
    SeedIsUnique(input, seedIndex);
    ok := Walk(input.frames, seedIndex, input.segment);
  }
}
