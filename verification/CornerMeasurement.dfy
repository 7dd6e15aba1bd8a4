/**
 Measuring one corner: gate crossings and gaps become time-ordered events, and
 a small event machine pairs entries with exits into passes.
 */
module CornerMeasurement {
  import opened Wrappers
  import opened GateGeometry
  import opened CornerRanking
  import opened SegmentContinuity
  import opened SegmentContract

  datatype EvidenceCorner = EvidenceCorner(id: string, key: string, order: int, entryGate: Gate, exitGate: Gate)

  datatype Event = EntryEvent(crossing: GateCrossing) | ExitEvent(crossing: GateCrossing) | GapEvent(startMs: int)

  function Time(e: Event): real {
    if e.GapEvent? then e.startMs as real else e.crossing.timestampMs
  }

  // ----- events -----

  function CrossingEvents(corner: EvidenceCorner, before: Observation, after: Observation): seq<Event> {
    var entry := Crossing(before, after, corner.entryGate);
    var exit := Crossing(before, after, corner.exitGate);
    (if entry.Some? then [EntryEvent(entry.value)] else [])
    + (if exit.Some? then [ExitEvent(exit.value)] else [])
  }

  /** The gap between two consecutive observations, if there is one. */
  function GapAt(obs: seq<Observation>, gaps: seq<ClosedGap>, i: nat): (g: Option<ClosedGap>)
    ensures g.Some? ==> g.value in gaps && Between(obs, i, g.value)
    ensures g.None? ==> forall h :: h in gaps ==> !Between(obs, i, h)
  {
    if gaps == [] then None
    else if Between(obs, i, gaps[0]) then Some(gaps[0])
    else GapAt(obs, gaps[1..], i)
  }

  /** A pair of consecutive observations yields its gap, or its crossings, never both. */
  function PairEvents(corner: EvidenceCorner, obs: seq<Observation>, gaps: seq<ClosedGap>, i: nat): seq<Event>
    requires 0 < i < |obs|
  {
    var gap := GapAt(obs, gaps, i);
    if gap.Some? then [GapEvent(gap.value.startMs)] else CrossingEvents(corner, obs[i - 1], obs[i])
  }

  function Events(corner: EvidenceCorner, obs: seq<Observation>, gaps: seq<ClosedGap>, n: nat): seq<Event>
    requires n <= |obs|
  {
    if n <= 1 then [] else Events(corner, obs, gaps, n - 1) + PairEvents(corner, obs, gaps, n - 1)
  }

  ghost predicate Placed(obs: seq<Observation>, gaps: seq<ClosedGap>, open: Option<int>) {
    InOrder(obs) && StartsRise(gaps) && GapsContract(obs, gaps, open)
  }

  /** Gaps before the cursor end by the previous observation; the rest start after it. */
  ghost predicate GapCursor(obs: seq<Observation>, gaps: seq<ClosedGap>, index: nat, gapIndex: nat)
    requires 0 < index <= |obs|
  {
    && gapIndex <= |gaps|
    && (forall j :: gapIndex <= j < |gaps| ==> gaps[j].startMs > obs[index - 1].timestampMs)
    && (forall j :: 0 <= j < gapIndex ==> gaps[j].endMs <= obs[index - 1].timestampMs)
  }

  lemma CursorStep(obs: seq<Observation>, gaps: seq<ClosedGap>, open: Option<int>, index: nat, gapIndex: nat)
    requires Placed(obs, gaps, open) && 0 < index < |obs| && GapCursor(obs, gaps, index, gapIndex)
    ensures if gapIndex < |gaps| && gaps[gapIndex].endMs <= obs[index].timestampMs
            then GapAt(obs, gaps, index) == Some(gaps[gapIndex]) && GapCursor(obs, gaps, index + 1, gapIndex + 1)
            else GapAt(obs, gaps, index).None? && GapCursor(obs, gaps, index + 1, gapIndex)
  {
    if gapIndex < |gaps| && gaps[gapIndex].endMs <= obs[index].timestampMs {
      var p: nat :| Between(obs, p, gaps[gapIndex]);
      assert p == index;
      GapAtUnique(obs, gaps, open, index, gapIndex);
    } else {
      forall j | gapIndex <= j < |gaps| ensures gaps[j].startMs > obs[index].timestampMs {
        var p: nat :| Between(obs, p, gaps[j]);
        assert j > gapIndex ==> gaps[gapIndex].endMs < gaps[j].startMs;
        assert p > index;
      }
      forall h | h in gaps ensures !Between(obs, index, h) {
        var j: nat :| j < |gaps| && gaps[j] == h;
      }
    }
  }

  lemma GapAtUnique(obs: seq<Observation>, gaps: seq<ClosedGap>, open: Option<int>, index: nat, gapIndex: nat)
    requires Placed(obs, gaps, open) && gapIndex < |gaps| && Between(obs, index, gaps[gapIndex])
    ensures GapAt(obs, gaps, index) == Some(gaps[gapIndex])
  {
    var g := GapAt(obs, gaps, index);
    assert gaps[gapIndex] in gaps;
    var j: nat :| j < |gaps| && gaps[j] == g.value;
  }

  lemma CursorStart(obs: seq<Observation>, gaps: seq<ClosedGap>, open: Option<int>)
    requires Placed(obs, gaps, open) && obs != []
    ensures GapCursor(obs, gaps, 1, 0)
  {
    forall j | 0 <= j < |gaps| ensures gaps[j].startMs > obs[0].timestampMs {
      var p: nat :| Between(obs, p, gaps[j]);
      assert obs[0].timestampMs <= obs[p - 1].timestampMs;
    }
  }

  method CollectEvents(corner: EvidenceCorner, obs: seq<Observation>, gaps: seq<ClosedGap>, ghost open: Option<int>)
    returns (events: seq<Event>)
    requires Placed(obs, gaps, open)
    ensures events == Events(corner, obs, gaps, |obs|)
  {
    hide Placed, GapCursor, GapAt, Between;
    events := [];
    var gapIndex := 0;
    if |obs| == 0 {
      return;
    }
    CursorStart(obs, gaps, open);
    for index := 1 to |obs|
      invariant GapCursor(obs, gaps, index, gapIndex)
      invariant events == Events(corner, obs, gaps, index)
    {
      var before, after := obs[index - 1], obs[index];
      CursorStep(obs, gaps, open, index, gapIndex);
      CursorAhead(obs, gaps, index, gapIndex);
      if gapIndex < |gaps| && gaps[gapIndex].startMs > before.timestampMs && gaps[gapIndex].endMs <= after.timestampMs {
        events := events + [GapEvent(gaps[gapIndex].startMs)];
        gapIndex := gapIndex + 1;
        continue;
      }
      var entry := Crossing(before, after, corner.entryGate);
      var exit := Crossing(before, after, corner.exitGate);
      if entry.Some? {
        events := events + [EntryEvent(entry.value)];
      }
      if exit.Some? {
        events := events + [ExitEvent(exit.value)];
      }
    }
  }

  lemma CursorAhead(obs: seq<Observation>, gaps: seq<ClosedGap>, index: nat, gapIndex: nat)
    requires 0 < index <= |obs| && GapCursor(obs, gaps, index, gapIndex)
    ensures gapIndex <= |gaps|
    ensures gapIndex < |gaps| ==> gaps[gapIndex].startMs > obs[index - 1].timestampMs
  {
  }

  // ----- one gap event per gap, and no crossing across a gap -----

  function GapStarts(gaps: seq<ClosedGap>): seq<Event> {
    seq(|gaps|, j requires 0 <= j < |gaps| => GapEvent(gaps[j].startMs))
  }

  function GapEvents(es: seq<Event>): seq<Event> {
    if es == [] then []
    else if es[|es| - 1].GapEvent? then GapEvents(es[..|es| - 1]) + [es[|es| - 1]]
    else GapEvents(es[..|es| - 1])
  }

  lemma GapEventsNone()
    ensures GapEvents([]) == []
  {
  }

  lemma GapEventsSnoc(es: seq<Event>, e: Event)
    ensures GapEvents(es + [e]) == if e.GapEvent? then GapEvents(es) + [e] else GapEvents(es)
  {
    assert (es + [e])[..|es|] == es;
  }

  lemma GapEventsAppend(es: seq<Event>, a: seq<Event>)
    requires |a| <= 2 && forall k :: 0 <= k < |a| ==> !a[k].GapEvent?
    ensures GapEvents(es + a) == GapEvents(es)
  {
    if a == [] {
      assert es + a == es;
    } else {
      GapEventsSnoc(es, a[0]);
      if |a| == 1 {
        assert es + a == es + [a[0]];
      } else {
        GapEventsSnoc(es + [a[0]], a[1]);
        assert es + a == es + [a[0]] + [a[1]];
      }
    }
  }

  lemma {:induction false} GapEventsUpTo(corner: EvidenceCorner, obs: seq<Observation>, gaps: seq<ClosedGap>, open: Option<int>, n: nat)
    returns (g: nat)
    requires Placed(obs, gaps, open) && 0 < n <= |obs|
    ensures GapCursor(obs, gaps, n, g) && GapEvents(Events(corner, obs, gaps, n)) == GapStarts(gaps[..g])
  {
    hide Placed, GapCursor, GapAt, Between, GapEvents;
    if n == 1 {
      CursorStart(obs, gaps, open);
      GapEventsNone();
      g := 0;
    } else {
      g := GapEventsUpTo(corner, obs, gaps, open, n - 1);
      CursorStep(obs, gaps, open, n - 1, g);
      CursorAhead(obs, gaps, n - 1, g);
      var before := Events(corner, obs, gaps, n - 1);
      var gap := GapAt(obs, gaps, n - 1);
      if gap.Some? {
        GapEventsSnoc(before, GapEvent(gap.value.startMs));
        assert GapStarts(gaps[..g + 1]) == GapStarts(gaps[..g]) + [GapEvent(gaps[g].startMs)];
        g := g + 1;
      } else {
        GapEventsAppend(before, CrossingEvents(corner, obs[n - 2], obs[n - 1]));
      }
    }
  }

  lemma GapStartsInTime(obs: seq<Observation>, gaps: seq<ClosedGap>, open: Option<int>, j: nat)
    requires Placed(obs, gaps, open) && obs != [] && j < |gaps|
    ensures gaps[j].startMs <= obs[|obs| - 1].timestampMs
  {
    var p: nat :| Between(obs, p, gaps[j]);
    assert obs[p].timestampMs <= obs[|obs| - 1].timestampMs;
  }

  lemma CursorEnd(obs: seq<Observation>, gaps: seq<ClosedGap>, open: Option<int>, g: nat)
    requires Placed(obs, gaps, open) && obs != [] && GapCursor(obs, gaps, |obs|, g)
    ensures gaps[..g] == gaps
  {
    if g < |gaps| {
      GapStartsInTime(obs, gaps, open, g);
      assert false;
    }
  }

  lemma NoGapWithoutObservations(gaps: seq<ClosedGap>, open: Option<int>)
    requires Placed([], gaps, open)
    ensures gaps == []
  {
    assert gaps != [] ==> GapBetween([], gaps[0]);
  }

  /** The gap events of a corner are exactly the segment's gaps, in order. */
  lemma OneEventPerGap(corner: EvidenceCorner, obs: seq<Observation>, gaps: seq<ClosedGap>, open: Option<int>)
    requires Placed(obs, gaps, open)
    ensures GapEvents(Events(corner, obs, gaps, |obs|)) == GapStarts(gaps)
  {
    hide Placed, GapCursor;
    if obs == [] {
      NoGapWithoutObservations(gaps, open);
    } else {
      var g := GapEventsUpTo(corner, obs, gaps, open, |obs|);
      CursorAhead(obs, gaps, |obs|, g);
      CursorEnd(obs, gaps, open, g);
    }
  }

  /** When an event may happen: a gap at its start; a crossing strictly outside every closed gap. */
  ghost predicate ClearOfGaps(gaps: seq<ClosedGap>, e: Event) {
    !e.GapEvent? ==> forall j :: 0 <= j < |gaps| ==>
      Time(e) < gaps[j].startMs as real || Time(e) > gaps[j].endMs as real
  }

  lemma PairIsClear(obs: seq<Observation>, gaps: seq<ClosedGap>, open: Option<int>, i: nat, t: real, j: nat)
    requires Placed(obs, gaps, open) && 0 < i < |obs| && GapAt(obs, gaps, i).None? && j < |gaps|
    requires obs[i - 1].timestampMs as real < t <= obs[i].timestampMs as real
    ensures t < gaps[j].startMs as real || t > gaps[j].endMs as real
  {
    var p: nat :| Between(obs, p, gaps[j]);
    assert gaps[j] in gaps;
    assert p != i;
    if p < i {
      assert obs[p].timestampMs <= obs[i - 1].timestampMs;
    } else {
      assert obs[i].timestampMs <= obs[p - 1].timestampMs;
    }
  }

  lemma {:induction false} CrossingsAreClear(corner: EvidenceCorner, obs: seq<Observation>, gaps: seq<ClosedGap>, open: Option<int>, n: nat)
    requires Placed(obs, gaps, open) && n <= |obs|
    ensures forall e :: e in Events(corner, obs, gaps, n) ==> ClearOfGaps(gaps, e)
  {
    if n > 1 {
      CrossingsAreClear(corner, obs, gaps, open, n - 1);
      var i := n - 1;
      forall e | e in PairEvents(corner, obs, gaps, i) && !e.GapEvent? ensures ClearOfGaps(gaps, e) {
        PairEventTime(corner, obs, gaps, i, e);
        forall j | 0 <= j < |gaps|
          ensures Time(e) < gaps[j].startMs as real || Time(e) > gaps[j].endMs as real
        {
          PairIsClear(obs, gaps, open, i, Time(e), j);
        }
      }
    }
  }

  lemma PairEventTime(corner: EvidenceCorner, obs: seq<Observation>, gaps: seq<ClosedGap>, i: nat, e: Event)
    requires InOrder(obs) && 0 < i < |obs| && e in PairEvents(corner, obs, gaps, i) && !e.GapEvent?
    ensures GapAt(obs, gaps, i).None?
    ensures obs[i - 1].timestampMs as real < Time(e) <= obs[i].timestampMs as real
  {
    hide Crossing;
    if e.EntryEvent? {
      CrossingInTime(obs[i - 1], obs[i], corner.entryGate);
    } else {
      CrossingInTime(obs[i - 1], obs[i], corner.exitGate);
    }
  }
}
