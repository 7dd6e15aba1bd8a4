/** The clip rendered for an eligible pass: whole milliseconds around it, and the subject on its entry gate. */
module ClipSpecification {
  import opened Wrappers
  import opened GateGeometry
  import opened CornerRanking
  import opened SegmentContinuity
  import opened SegmentContract
  import opened CornerMeasurement
  import opened PassPairing

  datatype Clip = Clip(entryTimestampMs: int, exitTimestampMs: int, subjectCenter: Point)

  function FindFrame(obs: seq<Observation>, frameIndex: int): Option<Observation> {
    if obs == [] then None
    else if obs[0].frameIndex == frameIndex then Some(obs[0])
    else FindFrame(obs[1..], frameIndex)
  }

  function Floor(x: real): int {
    x.Floor
  }

  function Ceiling(x: real): int {
    -(-x).Floor
  }

  function Max(a: int, b: int): int {
    if a >= b then a else b
  }

  /** `None` is the source's refusal of invalid evidence. */
  function BuildClip(obs: seq<Observation>, f: Fields): Option<Clip> {
    if !f.eligible || f.entry.None? || f.exit.None? then None
    else
      var before := FindFrame(obs, f.entry.value.beforeFrameIndex);
      var after := FindFrame(obs, f.entry.value.afterFrameIndex);
      if before.None? || after.None? || before.value.timestampMs == after.value.timestampMs then None
      else
        var entryMs := f.entry.value.timestampMs;
        Some(Clip(
          Floor(entryMs),
          Max(Floor(entryMs) + 1, Ceiling(f.exit.value.timestampMs)),
          OverlayCentre(before.value, after.value, entryMs)))
  }

  lemma {:induction false} FindFrameAt(obs: seq<Observation>, i: nat)
    requires InOrder(obs) && i < |obs|
    ensures FindFrame(obs, obs[i].frameIndex) == Some(obs[i])
  {
    if i > 0 {
      assert obs[0].frameIndex < obs[i].frameIndex;
      assert obs[1..][i - 1] == obs[i];
      FindFrameAt(obs[1..], i - 1);
    }
  }

  lemma {:induction false} EntryOrigin(corner: EvidenceCorner, obs: seq<Observation>, gaps: seq<ClosedGap>, n: nat, c: GateCrossing)
    returns (i: nat)
    requires n <= |obs| && EntryEvent(c) in Events(corner, obs, gaps, n)
    ensures 0 < i < |obs| && Crossing(obs[i - 1], obs[i], corner.entryGate) == Some(c)
  {
    hide Crossing, PairEvents;
    if EntryEvent(c) in PairEvents(corner, obs, gaps, n - 1) {
      PairEntry(corner, obs, gaps, n - 1, c);
      i := n - 1;
    } else {
      i := EntryOrigin(corner, obs, gaps, n - 1, c);
    }
  }

  lemma PairEntry(corner: EvidenceCorner, obs: seq<Observation>, gaps: seq<ClosedGap>, i: nat, c: GateCrossing)
    requires 0 < i < |obs| && EntryEvent(c) in PairEvents(corner, obs, gaps, i)
    ensures Crossing(obs[i - 1], obs[i], corner.entryGate) == Some(c)
  {
    hide Crossing, GapAt;
  }

  lemma CrossingFrames(before: Observation, after: Observation, gate: Gate)
    requires Crossing(before, after, gate).Some?
    ensures Crossing(before, after, gate).value.beforeFrameIndex == before.frameIndex
    ensures Crossing(before, after, gate).value.afterFrameIndex == after.frameIndex
  {
  }

  /** The whole milliseconds from `a` to `b` cover the times from `entry` to `exit`. */
  predicate Covers(a: int, b: int, entry: real, exit: real) {
    a as real <= entry && exit <= b as real
  }

  lemma ClipIsLeast(entry: real, exit: real)
    ensures var from, to := Floor(entry), Max(Floor(entry) + 1, Ceiling(exit));
            && from < to && Covers(from, to, entry, exit)
            && forall a, b :: Covers(a, b, entry, exit) ==> a <= from && (from < b ==> to <= b)
  {
  }

  /**
   Every eligible pass has a clip: the least one of whole milliseconds, and of more than none, that
   covers the pass.  Its subject centre is the crossing point of the entry gate.
   */
  lemma EligiblePassHasClip(corner: EvidenceCorner, segment: Segment, f: Fields) returns (i: nat, t: real, u: real)
    requires Placed(segment.observations, segment.gaps, segment.openGapMs)
    requires f in CornerFields(corner, segment) && f.eligible
    ensures f.entry.Some? && f.exit.Some?
    ensures BuildClip(segment.observations, f).Some?
    ensures var clip := BuildClip(segment.observations, f).value;
            && Covers(clip.entryTimestampMs, clip.exitTimestampMs, f.entry.value.timestampMs, f.exit.value.timestampMs)
            && clip.entryTimestampMs < clip.exitTimestampMs
            && (forall a, b :: Covers(a, b, f.entry.value.timestampMs, f.exit.value.timestampMs) ==>
                 a <= clip.entryTimestampMs && (clip.entryTimestampMs < b ==> clip.exitTimestampMs <= b))
            && 0 < i < |segment.observations|
            && MeetsAt(segment.observations[i - 1].center, segment.observations[i].center, corner.entryGate, t, u)
            && clip.subjectCenter == Along(corner.entryGate.start, corner.entryGate.end, u)
  {
    hide Crossing, ByTime, Events, MeetsAt, Along, OverlayCentre, Floor, Ceiling, Covers;
    var obs := segment.observations;
    var raw := Events(corner, obs, segment.gaps, |obs|);
    var es := ByTime(raw);
    ByTimeFacts(raw);
    var k := EligibleIsAdjacent(es, |es|, segment.openGapMs.Some?, f);
    SameMember(es, raw, es[k]);
    assert es[k] == EntryEvent(es[k].crossing);
    i := EntryOrigin(corner, obs, segment.gaps, |obs|, es[k].crossing);
    CrossingFrames(obs[i - 1], obs[i], corner.entryGate);
    FindFrameAt(obs, i - 1);
    FindFrameAt(obs, i);
    t, u := OverlayCentreIsOnGate(obs[i - 1], obs[i], corner.entryGate);
    ClipIsLeast(f.entry.value.timestampMs, f.exit.value.timestampMs);
  }
}
