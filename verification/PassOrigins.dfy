/** Where the entries and exits of measured passes come from, and what makes a pass eligible or not. */
module PassOrigins {
  import opened Wrappers
  import opened GateGeometry
  import opened CornerRanking
  import opened SegmentContinuity
  import opened SegmentContract
  import opened CornerMeasurement
  import opened PassPairing

  // ----- the crossings there are, and the ones passes use -----

  /** The crossings of a gate between consecutive observations with no closed gap between them, in order. */
  function ClearCrossings(gate: Gate, obs: seq<Observation>, gaps: seq<ClosedGap>, n: nat): seq<GateCrossing>
    requires n <= |obs|
  {
    if n <= 1 then []
    else
      var crossing := Crossing(obs[n - 2], obs[n - 1], gate);
      ClearCrossings(gate, obs, gaps, n - 1)
      + if crossing.Some? && (forall g | g in gaps :: !Between(obs, n - 1, g)) then [crossing.value] else []
  }

  function Entries(passes: seq<CornerPass>): seq<GateCrossing> {
    if passes == [] then []
    else
      var last := passes[|passes| - 1];
      Entries(passes[..|passes| - 1]) + if last.entry.Some? then [last.entry.value] else []
  }

  function Exits(passes: seq<CornerPass>): seq<GateCrossing> {
    if passes == [] then []
    else
      var last := passes[|passes| - 1];
      Exits(passes[..|passes| - 1]) + if last.exit.Some? then [last.exit.value] else []
  }

  // ----- events of one kind -----

  predicate IsKind(e: Event, entries: bool) {
    if entries then e.EntryEvent? else e.ExitEvent?
  }

  function OfKind(es: seq<Event>, entries: bool): seq<GateCrossing> {
    if es == [] then []
    else
      var last := es[|es| - 1];
      OfKind(es[..|es| - 1], entries) + if IsKind(last, entries) then [last.crossing] else []
  }

  lemma OfKindSnoc(es: seq<Event>, e: Event, entries: bool)
    ensures OfKind(es + [e], entries) == OfKind(es, entries) + if IsKind(e, entries) then [e.crossing] else []
  {
    assert (es + [e])[..|es|] == es;
  }

  lemma {:induction false} OfKindConcat(a: seq<Event>, b: seq<Event>, entries: bool)
    ensures OfKind(a + b, entries) == OfKind(a, entries) + OfKind(b, entries)
  {
    if b == [] {
      assert a + b == a;
    } else {
      var front := b[..|b| - 1];
      OfKindConcat(a, front, entries);
      assert a + b == (a + front) + [b[|b| - 1]];
      OfKindSnoc(a + front, b[|b| - 1], entries);
    }
  }

  lemma OfKindOne(e: Event, entries: bool)
    ensures OfKind([e], entries) == if IsKind(e, entries) then [e.crossing] else []
  {
    OfKindSnoc([], e, entries);
    assert [] + [e] == [e];
  }

  lemma OfKindCrossings(entry: Option<GateCrossing>, exit: Option<GateCrossing>, entries: bool)
    ensures var first := if entry.Some? then [EntryEvent(entry.value)] else [];
            var second := if exit.Some? then [ExitEvent(exit.value)] else [];
            var wanted := if entries then entry else exit;
            OfKind(first + second, entries) == if wanted.Some? then [wanted.value] else []
  {
    var first := if entry.Some? then [EntryEvent(entry.value)] else [];
    var second := if exit.Some? then [ExitEvent(exit.value)] else [];
    OfKindConcat(first, second, entries);
    if entry.Some? {
      OfKindOne(first[0], entries);
    }
    if exit.Some? {
      OfKindOne(second[0], entries);
    }
  }

  lemma OfKindPair(corner: EvidenceCorner, obs: seq<Observation>, gaps: seq<ClosedGap>, i: nat)
    requires 0 < i < |obs|
    ensures var clear := forall g | g in gaps :: !Between(obs, i, g);
            var entry := Crossing(obs[i - 1], obs[i], corner.entryGate);
            var exit := Crossing(obs[i - 1], obs[i], corner.exitGate);
            && OfKind(PairEvents(corner, obs, gaps, i), true) == (if entry.Some? && clear then [entry.value] else [])
            && OfKind(PairEvents(corner, obs, gaps, i), false) == (if exit.Some? && clear then [exit.value] else [])
  {
    hide Crossing, Between, OfKind;
    var gap := GapAt(obs, gaps, i);
    if gap.Some? {
      OfKindOne(GapEvent(gap.value.startMs), true);
      OfKindOne(GapEvent(gap.value.startMs), false);
    } else {
      OfKindCrossings(Crossing(obs[i - 1], obs[i], corner.entryGate), Crossing(obs[i - 1], obs[i], corner.exitGate), true);
      OfKindCrossings(Crossing(obs[i - 1], obs[i], corner.entryGate), Crossing(obs[i - 1], obs[i], corner.exitGate), false);
    }
  }

  lemma {:induction false} OfKindEvents(corner: EvidenceCorner, obs: seq<Observation>, gaps: seq<ClosedGap>, n: nat)
    requires n <= |obs|
    ensures OfKind(Events(corner, obs, gaps, n), true) == ClearCrossings(corner.entryGate, obs, gaps, n)
    ensures OfKind(Events(corner, obs, gaps, n), false) == ClearCrossings(corner.exitGate, obs, gaps, n)
  {
    hide Crossing, PairEvents, Between;
    if n > 1 {
      OfKindEvents(corner, obs, gaps, n - 1);
      OfKindPair(corner, obs, gaps, n - 1);
      OfKindConcat(Events(corner, obs, gaps, n - 1), PairEvents(corner, obs, gaps, n - 1), true);
      OfKindConcat(Events(corner, obs, gaps, n - 1), PairEvents(corner, obs, gaps, n - 1), false);
    }
  }

  // ----- the sort leaves events of one kind in their order -----

  ghost predicate KindRises(es: seq<Event>, entries: bool) {
    forall i, j :: 0 <= i < j < |es| && IsKind(es[i], entries) && IsKind(es[j], entries) ==> Time(es[i]) <= Time(es[j])
  }

  /** Two events that are not both of the kind may change places. */
  lemma SwapKeepsKind(inserted: seq<Event>, front: seq<Event>, last: Event, e: Event, entries: bool)
    requires OfKind(inserted, entries) == OfKind(front + [e], entries)
    requires !(IsKind(last, entries) && IsKind(e, entries))
    ensures OfKind(inserted + [last], entries) == OfKind(front + [last] + [e], entries)
  {
    hide OfKind;
    OfKindSnoc(inserted, last, entries);
    OfKindSnoc(front, e, entries);
    OfKindSnoc(front, last, entries);
    OfKindSnoc(front + [last], e, entries);
  }

  lemma {:induction false} InsertKeepsKind(es: seq<Event>, e: Event, entries: bool)
    requires IsKind(e, entries) ==> forall i :: 0 <= i < |es| && IsKind(es[i], entries) ==> Time(es[i]) <= Time(e)
    ensures OfKind(InsertByTime(es, e), entries) == OfKind(es + [e], entries)
  {
    hide OfKind;
    if es != [] && Time(es[|es| - 1]) > Time(e) {
      var front, last := es[..|es| - 1], es[|es| - 1];
      InsertKeepsKind(front, e, entries);
      SwapKeepsKind(InsertByTime(front, e), front, last, e, entries);
      assert es == front + [last];
    }
  }

  lemma {:induction false} ByTimeKeepsKind(es: seq<Event>, entries: bool)
    requires KindRises(es, entries)
    ensures OfKind(ByTime(es), entries) == OfKind(es, entries)
  {
    if es != [] {
      var front, last := es[..|es| - 1], es[|es| - 1];
      ByTimeKeepsKind(front, entries);
      ByTimeFacts(front);
      forall i | 0 <= i < |ByTime(front)| && IsKind(ByTime(front)[i], entries) && IsKind(last, entries)
        ensures Time(ByTime(front)[i]) <= Time(last)
      {
        SameMember(ByTime(front), front, ByTime(front)[i]);
        var k: nat :| k < |front| && front[k] == ByTime(front)[i];
        assert es[k] == front[k];
      }
      InsertKeepsKind(ByTime(front), last, entries);
      OfKindSnoc(ByTime(front), last, entries);
    }
  }

  ghost predicate AllBy(es: seq<Event>, t: int) {
    forall i :: 0 <= i < |es| && !es[i].GapEvent? ==> Time(es[i]) <= t as real
  }

  lemma PairRises(corner: EvidenceCorner, obs: seq<Observation>, gaps: seq<ClosedGap>, i: nat, entries: bool)
    requires 0 < i < |obs|
    ensures KindRises(PairEvents(corner, obs, gaps, i), entries)
  {
    hide Crossing, GapAt;
  }

  lemma {:induction false} EventsRise(corner: EvidenceCorner, obs: seq<Observation>, gaps: seq<ClosedGap>, n: nat, entries: bool)
    requires InOrder(obs) && n <= |obs|
    ensures KindRises(Events(corner, obs, gaps, n), entries)
    ensures n > 0 ==> AllBy(Events(corner, obs, gaps, n), obs[n - 1].timestampMs)
  {
    if n > 1 {
      EventsRise(corner, obs, gaps, n - 1, entries);
      var before := Events(corner, obs, gaps, n - 1);
      var pair := PairEvents(corner, obs, gaps, n - 1);
      PairRises(corner, obs, gaps, n - 1, entries);
      assert obs[n - 2].timestampMs < obs[n - 1].timestampMs;
      forall k | 0 <= k < |pair| && !pair[k].GapEvent?
        ensures obs[n - 2].timestampMs as real < Time(pair[k]) <= obs[n - 1].timestampMs as real
      {
        PairEventTime(corner, obs, gaps, n - 1, pair[k]);
      }
      hide PairEvents, InOrder;
    }
  }

  // ----- passes use the events of each kind in order -----

  function FieldsEntries(fields: seq<Fields>): seq<GateCrossing> {
    if fields == [] then []
    else
      var last := fields[|fields| - 1];
      FieldsEntries(fields[..|fields| - 1]) + if last.entry.Some? then [last.entry.value] else []
  }

  function FieldsExits(fields: seq<Fields>): seq<GateCrossing> {
    if fields == [] then []
    else
      var last := fields[|fields| - 1];
      FieldsExits(fields[..|fields| - 1]) + if last.exit.Some? then [last.exit.value] else []
  }

  lemma FieldsSnoc(fields: seq<Fields>, f: Fields)
    ensures FieldsEntries(fields + [f]) == FieldsEntries(fields) + if f.entry.Some? then [f.entry.value] else []
    ensures FieldsExits(fields + [f]) == FieldsExits(fields) + if f.exit.Some? then [f.exit.value] else []
  {
    assert (fields + [f])[..|fields|] == fields;
  }

  function EntryOf(pass: Option<Fields>): seq<GateCrossing> {
    if pass.Some? && pass.value.entry.Some? then [pass.value.entry.value] else []
  }

  function ExitOf(pass: Option<Fields>): seq<GateCrossing> {
    if pass.Some? && pass.value.exit.Some? then [pass.value.exit.value] else []
  }

  function Ahead(es: seq<Event>, n: nat): seq<GateCrossing>
    requires n <= |es|
  {
    if LooksAhead(es, n) then [es[n].crossing] else []
  }

  /** A pass uses the entry it begins at, and either its own exit or the one that follows. */
  lemma PassUses(es: seq<Event>, i: nat, openEnded: bool)
    requires i < |es|
    ensures EntryOf(PassAt(es, i, openEnded)) == if es[i].EntryEvent? then [es[i].crossing] else []
    ensures Ahead(es, i) + ExitOf(PassAt(es, i, openEnded))
         == (if es[i].ExitEvent? then [es[i].crossing] else []) + Ahead(es, i + 1)
  {
  }

  lemma {:induction false} PassesUseKinds(es: seq<Event>, n: nat, openEnded: bool)
    requires n <= |es|
    ensures FieldsEntries(PassesUpTo(es, n, openEnded)) == OfKind(es[..n], true)
    ensures FieldsExits(PassesUpTo(es, n, openEnded)) == OfKind(es[..n], false) + Ahead(es, n)
  {
    hide OfKind, FieldsEntries, FieldsExits, PassAt, Ahead;
    if n == 0 {
      NothingUsed(es);
    } else {
      var before := PassesUpTo(es, n - 1, openEnded);
      var pass := PassAt(es, n - 1, openEnded);
      PassesUseKinds(es, n - 1, openEnded);
      assert es[..n] == es[..n - 1] + [es[n - 1]];
      OfKindSnoc(es[..n - 1], es[n - 1], true);
      OfKindSnoc(es[..n - 1], es[n - 1], false);
      PassUses(es, n - 1, openEnded);
      if pass.Some? {
        FieldsSnoc(before, pass.value);
      }
      var own := if es[n - 1].ExitEvent? then [es[n - 1].crossing] else [];
      var front := OfKind(es[..n - 1], false);
      assert FieldsExits(PassesUpTo(es, n, openEnded)) == FieldsExits(before) + ExitOf(pass);
      assert (front + Ahead(es, n - 1)) + ExitOf(pass) == front + (Ahead(es, n - 1) + ExitOf(pass));
      assert (front + own) + Ahead(es, n) == front + (own + Ahead(es, n));
    }
  }

  lemma NothingUsed(es: seq<Event>)
    ensures FieldsEntries([]) == [] && FieldsExits([]) == [] && OfKind(es[..0], true) == [] && OfKind(es[..0], false) == []
    ensures Ahead(es, 0) == []
  {
  }

  lemma {:induction false} SameCrossings(fields: seq<Fields>, passes: seq<CornerPass>)
    requires |passes| == |fields|
    requires forall i :: 0 <= i < |passes| ==> passes[i].entry == fields[i].entry && passes[i].exit == fields[i].exit
    ensures Entries(passes) == FieldsEntries(fields) && Exits(passes) == FieldsExits(fields)
  {
    if passes != [] {
      SameCrossings(fields[..|fields| - 1], passes[..|passes| - 1]);
    }
  }

  // ----- the passes of a corner -----

  /** The passes are about this corner and numbered from one. */
  predicate About(corner: EvidenceCorner, passes: seq<CornerPass>) {
    forall i :: 0 <= i < |passes| ==>
      && passes[i].cornerId == corner.id && passes[i].cornerKey == corner.key && passes[i].cornerOrder == corner.order
      && passes[i].ordinal == i + 1
  }

  lemma RankedFields(corner: EvidenceCorner, segment: Segment, tolerance: real)
    ensures var fields := CornerFields(corner, segment);
            var passes := CornerPasses(corner, segment, tolerance);
            && |passes| == |fields| && About(corner, passes)
            && forall i :: 0 <= i < |passes| ==>
                 && passes[i].entry == fields[i].entry && passes[i].exit == fields[i].exit
                 && passes[i].durationMs == fields[i].durationMs && passes[i].eligible == fields[i].eligible
                 && passes[i].exclusion == fields[i].exclusion
  {
    NumberedMeasured(corner, segment);
    hide CornerFields;
  }

  lemma PassIsField(corner: EvidenceCorner, segment: Segment, tolerance: real, p: CornerPass) returns (f: Fields)
    requires p in CornerPasses(corner, segment, tolerance)
    ensures f in CornerFields(corner, segment)
    ensures f == Fields(p.entry, p.exit, p.durationMs, p.eligible, p.exclusion)
  {
    var passes := CornerPasses(corner, segment, tolerance);
    RankedFields(corner, segment, tolerance);
    hide CornerFields, CornerPasses;
    var k :| 0 <= k < |passes| && passes[k] == p;
    f := CornerFields(corner, segment)[k];
  }

  /**
   The entries of a corner's passes, in order, are exactly the crossings of its entry gate between
   observations with no closed gap between them, each used once, and the exits are those of its exit gate.
   */
  lemma EveryCrossingOfItsGate(corner: EvidenceCorner, segment: Segment, tolerance: real)
    requires Placed(segment.observations, segment.gaps, segment.openGapMs)
    ensures var passes := CornerPasses(corner, segment, tolerance);
            var obs := segment.observations;
            && Entries(passes) == ClearCrossings(corner.entryGate, obs, segment.gaps, |obs|)
            && Exits(passes) == ClearCrossings(corner.exitGate, obs, segment.gaps, |obs|)
            && About(corner, passes)
  {
    var obs := segment.observations;
    var raw := Events(corner, obs, segment.gaps, |obs|);
    var es := ByTime(raw);
    var fields := Passes(es, segment.openGapMs.Some?);
    assert InOrder(obs);
    hide Placed, InOrder, Events, ByTime, KindRises;
    OfKindEvents(corner, obs, segment.gaps, |obs|);
    EventsRise(corner, obs, segment.gaps, |obs|, true);
    EventsRise(corner, obs, segment.gaps, |obs|, false);
    ByTimeKeepsKind(raw, true);
    ByTimeKeepsKind(raw, false);
    PassesUseKinds(es, |es|, segment.openGapMs.Some?);
    assert Ahead(es, |es|) == [];
    assert es[..|es|] == es;
    RankedFields(corner, segment, tolerance);
    SameCrossings(fields, CornerPasses(corner, segment, tolerance));
  }

  function AllClear(gates: seq<Gate>, segment: Segment): seq<GateCrossing> {
    if gates == [] then []
    else AllClear(gates[..|gates| - 1], segment)
         + ClearCrossings(gates[|gates| - 1], segment.observations, segment.gaps, |segment.observations|)
  }

  function EntryGates(corners: seq<EvidenceCorner>): seq<Gate> {
    seq(|corners|, k requires 0 <= k < |corners| => corners[k].entryGate)
  }

  function ExitGates(corners: seq<EvidenceCorner>): seq<Gate> {
    seq(|corners|, k requires 0 <= k < |corners| => corners[k].exitGate)
  }

  lemma {:induction false} ConcatCrossings(a: seq<CornerPass>, b: seq<CornerPass>)
    ensures Entries(a + b) == Entries(a) + Entries(b) && Exits(a + b) == Exits(a) + Exits(b)
  {
    if b == [] {
      assert a + b == a;
    } else {
      ConcatCrossings(a, b[..|b| - 1]);
      assert (a + b)[..|a + b| - 1] == a + b[..|b| - 1];
    }
  }

  /** So it is for a whole accepted segment, corner after corner. */
  lemma {:induction false} SegmentCrossingsOfTheirGates(input: Input, corners: seq<EvidenceCorner>, tolerance: real)
    requires Increasing(input.frames) && Accepted(input)
    ensures var passes := AllCornerPasses(corners, input.segment, tolerance);
            && Entries(passes) == AllClear(EntryGates(corners), input.segment)
            && Exits(passes) == AllClear(ExitGates(corners), input.segment)
  {
    hide Accepted, Placed, CornerPasses, ClearCrossings;
    if corners != [] {
      var front, last := corners[..|corners| - 1], corners[|corners| - 1];
      AcceptedIsPlaced(input);
      SegmentCrossingsOfTheirGates(input, front, tolerance);
      EveryCrossingOfItsGate(last, input.segment, tolerance);
      ConcatCrossings(AllCornerPasses(front, input.segment, tolerance), CornerPasses(last, input.segment, tolerance));
      assert EntryGates(corners)[..|corners| - 1] == EntryGates(front);
      assert ExitGates(corners)[..|corners| - 1] == ExitGates(front);
    }
  }

  // ----- eligible passes -----

  lemma {:induction false} KindOrigin(gate: Gate, obs: seq<Observation>, gaps: seq<ClosedGap>, n: nat, c: GateCrossing) returns (i: nat)
    requires n <= |obs| && c in ClearCrossings(gate, obs, gaps, n)
    ensures 0 < i < n && Crossing(obs[i - 1], obs[i], gate) == Some(c)
  {
    hide Crossing, Between;
    if c in ClearCrossings(gate, obs, gaps, n - 1) {
      i := KindOrigin(gate, obs, gaps, n - 1, c);
    } else {
      i := n - 1;
    }
  }

  lemma {:induction false} UsedIsThere(passes: seq<CornerPass>, p: CornerPass)
    requires p in passes
    ensures p.entry.Some? ==> p.entry.value in Entries(passes)
    ensures p.exit.Some? ==> p.exit.value in Exits(passes)
  {
    if p != passes[|passes| - 1] {
      UsedIsThere(passes[..|passes| - 1], p);
    }
  }

  /** The time a fraction of the way between two observations. */
  function Moment(before: Observation, after: Observation, t: real): real {
    before.timestampMs as real + (after.timestampMs - before.timestampMs) as real * t
  }

  /** The movement meets the gate, coming from the gate's own side, at the time and between the frames the crossing names. */
  ghost predicate CrossedBetween(gate: Gate, before: Observation, after: Observation, c: GateCrossing) {
    && Approaches(gate, before.center)
    && c.beforeFrameIndex == before.frameIndex && c.afterFrameIndex == after.frameIndex
    && exists t, u :: MeetsAt(before.center, after.center, gate, t, u) && c.timestampMs == Moment(before, after, t)
  }

  ghost predicate CrossedAt(gate: Gate, obs: seq<Observation>, c: GateCrossing) {
    exists before, after :: before in obs && after in obs && CrossedBetween(gate, before, after, c)
  }

  lemma CrossingIsAt(gate: Gate, obs: seq<Observation>, i: nat, c: GateCrossing)
    requires 0 < i < |obs| && Crossing(obs[i - 1], obs[i], gate) == Some(c)
    ensures CrossedAt(gate, obs, c)
  {
    hide Crossing, MeetsAt, Approaches;
    CrossingIsMeeting(obs[i - 1], obs[i], gate);
    var t, u :| MeetsAt(obs[i - 1].center, obs[i].center, gate, t, u);
    assert CrossedBetween(gate, obs[i - 1], obs[i], c);
  }

  lemma ClearIsCrossed(gate: Gate, obs: seq<Observation>, gaps: seq<ClosedGap>, c: GateCrossing)
    requires c in ClearCrossings(gate, obs, gaps, |obs|)
    ensures CrossedAt(gate, obs, c)
  {
    var i := KindOrigin(gate, obs, gaps, |obs|, c);
    CrossingIsAt(gate, obs, i, c);
  }

  /** An entry and the exit directly after it make the pass. */
  predicate MadeBy(es: seq<Event>, i: nat, f: Fields) {
    && i + 1 < |es| && es[i].EntryEvent? && es[i + 1].ExitEvent? && Time(es[i]) <= Time(es[i + 1])
    && f.entry == Some(es[i].crossing) && f.exit == Some(es[i + 1].crossing) && f.exclusion.None?
    && f.durationMs == Some(Time(es[i + 1]) - Time(es[i]))
  }

  lemma EligibleAmongEvents(corner: EvidenceCorner, segment: Segment, f: Fields) returns (i: nat)
    requires f in CornerFields(corner, segment) && f.eligible
    ensures MadeBy(ByTime(Events(corner, segment.observations, segment.gaps, |segment.observations|)), i, f)
  {
    var raw := Events(corner, segment.observations, segment.gaps, |segment.observations|);
    hide Events, ByTime, Passes, Chronological, MadeBy;
    ByTimeFacts(raw);
    i := AdjacentInPasses(ByTime(raw), segment.openGapMs.Some?, f);
  }

  /** An eligible pass is made by an entry and the exit directly after it. */
  lemma EligiblePassIsMade(corner: EvidenceCorner, segment: Segment, tolerance: real, p: CornerPass) returns (i: nat)
    requires p in CornerPasses(corner, segment, tolerance) && p.eligible
    ensures var raw := Events(corner, segment.observations, segment.gaps, |segment.observations|);
            OrderingOf(ByTime(raw), raw)
            && MadeBy(ByTime(raw), i, Fields(p.entry, p.exit, p.durationMs, p.eligible, p.exclusion))
  {
    hide Events, ByTime, CornerPasses, CornerFields, Chronological, MadeBy;
    ByTimeFacts(Events(corner, segment.observations, segment.gaps, |segment.observations|));
    var f := PassIsField(corner, segment, tolerance, p);
    i := EligibleAmongEvents(corner, segment, f);
  }

  /** Whatever a pass uses was crossed at its own gate. */
  lemma PassCrossesItsGates(corner: EvidenceCorner, segment: Segment, tolerance: real, p: CornerPass)
    requires Placed(segment.observations, segment.gaps, segment.openGapMs)
    requires p in CornerPasses(corner, segment, tolerance)
    ensures p.entry.Some? ==> CrossedAt(corner.entryGate, segment.observations, p.entry.value)
    ensures p.exit.Some? ==> CrossedAt(corner.exitGate, segment.observations, p.exit.value)
  {
    var obs, gaps := segment.observations, segment.gaps;
    hide Placed, ClearCrossings, CrossedAt, CornerPasses, Entries, Exits, About;
    EveryCrossingOfItsGate(corner, segment, tolerance);
    UsedIsThere(CornerPasses(corner, segment, tolerance), p);
    if p.entry.Some? {
      ClearIsCrossed(corner.entryGate, obs, gaps, p.entry.value);
    }
    if p.exit.Some? {
      ClearIsCrossed(corner.exitGate, obs, gaps, p.exit.value);
    }
  }

  lemma ClearIsOutside(corner: EvidenceCorner, segment: Segment, es: seq<Event>, i: nat, c: GateCrossing)
    requires OrderingOf(es, Events(corner, segment.observations, segment.gaps, |segment.observations|)) && i + 1 < |es|
    requires var obs := segment.observations;
             c in ClearCrossings(corner.entryGate, obs, segment.gaps, |obs|)
             || c in ClearCrossings(corner.exitGate, obs, segment.gaps, |obs|)
    ensures c.timestampMs <= Time(es[i]) || Time(es[i + 1]) <= c.timestampMs
  {
    var obs := segment.observations;
    var raw := Events(corner, obs, segment.gaps, |obs|);
    NothingBetween(es, i);
    hide Events, ClearCrossings, Chronological;
    OfKindEvents(corner, obs, segment.gaps, |obs|);
    var entries := c in ClearCrossings(corner.entryGate, obs, segment.gaps, |obs|);
    var e := if entries then EntryEvent(c) else ExitEvent(c);
    KindIsThere(raw, entries, c);
    SameMember(es, raw, e);
    var j: nat :| j < |es| && es[j] == e;
  }

  lemma EligiblePassTimes(corner: EvidenceCorner, segment: Segment, tolerance: real, p: CornerPass)
    requires p in CornerPasses(corner, segment, tolerance) && p.eligible
    ensures p.entry.Some? && p.exit.Some? && p.exclusion.None?
    ensures p.entry.value.timestampMs <= p.exit.value.timestampMs
    ensures p.durationMs == Some(p.exit.value.timestampMs - p.entry.value.timestampMs)
  {
    hide Events, ByTime, CornerPasses, OrderingOf;
    var i := EligiblePassIsMade(corner, segment, tolerance, p);
  }

  lemma NothingWithin(corner: EvidenceCorner, segment: Segment, tolerance: real, p: CornerPass, c: GateCrossing)
    requires p in CornerPasses(corner, segment, tolerance) && p.eligible && p.entry.Some? && p.exit.Some?
    requires var obs := segment.observations;
             c in ClearCrossings(corner.entryGate, obs, segment.gaps, |obs|)
             || c in ClearCrossings(corner.exitGate, obs, segment.gaps, |obs|)
    ensures c.timestampMs <= p.entry.value.timestampMs || p.exit.value.timestampMs <= c.timestampMs
  {
    hide Events, ByTime, CornerPasses, OrderingOf, ClearCrossings;
    var i := EligiblePassIsMade(corner, segment, tolerance, p);
    ClearIsOutside(corner, segment, ByTime(Events(corner, segment.observations, segment.gaps, |segment.observations|)), i, c);
  }

  /**
   An eligible pass enters through the entry gate and then leaves through the exit gate, lasts as long
   as that takes, and no other entry or exit of the corner lies strictly between.
   */
  lemma EligiblePassGoesThrough(corner: EvidenceCorner, segment: Segment, tolerance: real, p: CornerPass)
    requires Placed(segment.observations, segment.gaps, segment.openGapMs)
    requires p in CornerPasses(corner, segment, tolerance) && p.eligible
    ensures p.entry.Some? && p.exit.Some? && p.exclusion.None?
    ensures CrossedAt(corner.entryGate, segment.observations, p.entry.value)
    ensures CrossedAt(corner.exitGate, segment.observations, p.exit.value)
    ensures p.entry.value.timestampMs <= p.exit.value.timestampMs
    ensures p.durationMs == Some(p.exit.value.timestampMs - p.entry.value.timestampMs)
    ensures var obs := segment.observations;
            forall c :: c in ClearCrossings(corner.entryGate, obs, segment.gaps, |obs|)
                        || c in ClearCrossings(corner.exitGate, obs, segment.gaps, |obs|) ==>
              c.timestampMs <= p.entry.value.timestampMs || p.exit.value.timestampMs <= c.timestampMs
  {
    var obs := segment.observations;
    hide Placed, ClearCrossings, CrossedAt, CornerPasses;
    EligiblePassTimes(corner, segment, tolerance, p);
    PassCrossesItsGates(corner, segment, tolerance, p);
    forall c | c in ClearCrossings(corner.entryGate, obs, segment.gaps, |obs|)
               || c in ClearCrossings(corner.exitGate, obs, segment.gaps, |obs|)
      ensures c.timestampMs <= p.entry.value.timestampMs || p.exit.value.timestampMs <= c.timestampMs
    {
      NothingWithin(corner, segment, tolerance, p, c);
    }
  }

  lemma AdjacentInPasses(es: seq<Event>, openEnded: bool, f: Fields) returns (i: nat)
    requires f in Passes(es, openEnded) && f.eligible && Chronological(es)
    ensures MadeBy(es, i, f)
  {
    i := EligibleIsAdjacent(es, |es|, openEnded, f);
    EligibleHasNoReason(es, |es|, openEnded);
  }

  lemma {:induction false} EligibleHasNoReason(es: seq<Event>, n: nat, openEnded: bool)
    requires n <= |es|
    ensures forall f :: f in PassesUpTo(es, n, openEnded) ==> (f.eligible <==> f.exclusion.None?)
  {
    if n > 0 {
      EligibleHasNoReason(es, n - 1, openEnded);
    }
  }

  lemma NothingBetween(es: seq<Event>, i: nat)
    requires Chronological(es) && i + 1 < |es|
    ensures forall j :: 0 <= j < |es| ==> Time(es[j]) <= Time(es[i]) || Time(es[i + 1]) <= Time(es[j])
  {
    forall j | 0 <= j < |es| ensures Time(es[j]) <= Time(es[i]) || Time(es[i + 1]) <= Time(es[j]) {
      assert j <= i || i + 1 <= j;
    }
  }

  lemma {:induction false} KindIsThere(es: seq<Event>, entries: bool, c: GateCrossing)
    requires c in OfKind(es, entries)
    ensures (if entries then EntryEvent(c) else ExitEvent(c)) in es
  {
    if c in OfKind(es[..|es| - 1], entries) {
      KindIsThere(es[..|es| - 1], entries, c);
    }
  }

  // ----- why a pass is not eligible -----

  /** Looking back from n past exits only, a gap comes first. */
  predicate GapCameLast(es: seq<Event>, n: nat)
    requires n <= |es|
  {
    exists k :: 0 <= k < n && es[k].GapEvent? && forall j :: k < j < n ==> es[j].ExitEvent?
  }

  /** An entry without an exit: another entry came first, a gap did, or the segment ended. */
  predicate LeftOpenAt(es: seq<Event>, openEnded: bool, f: Fields, i: nat)
    requires i < |es|
  {
    && es[i].EntryEvent? && f.entry == Some(es[i].crossing) && f.exit.None?
    && (i + 1 < |es| ==> !es[i + 1].ExitEvent?)
    && f.exclusion == Some(
         if i + 1 == |es| then (if openEnded then TrackingGap else RaceWindow)
         else if es[i + 1].EntryEvent? then GateOrder
         else TrackingGap)
  }

  /** An exit without an entry: a gap may have hidden it, or there was none. */
  predicate NotEnteredAt(es: seq<Event>, f: Fields, i: nat)
    requires i < |es|
  {
    && es[i].ExitEvent? && f.exit == Some(es[i].crossing) && f.entry.None?
    && (i > 0 ==> !es[i - 1].EntryEvent?)
    && f.exclusion == Some(if GapCameLast(es, i) then TrackingGap else GateOrder)
  }

  predicate HasReason(es: seq<Event>, openEnded: bool, f: Fields) {
    exists i :: 0 <= i < |es| && (LeftOpenAt(es, openEnded, f, i) || NotEnteredAt(es, f, i))
  }

  lemma {:induction false} AfterGapMeans(es: seq<Event>, n: nat)
    requires n <= |es|
    ensures AfterGap(es, n) <==> GapCameLast(es, n)
  {
    if n > 0 {
      AfterGapMeans(es, n - 1);
      if es[n - 1].ExitEvent? && GapCameLast(es, n - 1) {
        var k :| 0 <= k < n - 1 && es[k].GapEvent? && forall j :: k < j < n - 1 ==> es[j].ExitEvent?;
        assert forall j :: k < j < n ==> es[j].ExitEvent?;
      }
    }
  }

  /** Every pass that is not eligible lacks its exit or its entry, for the reason it names. */
  lemma {:induction false} IneligibleForItsReason(es: seq<Event>, n: nat, openEnded: bool, f: Fields)
    requires n <= |es| && f in PassesUpTo(es, n, openEnded) && !f.eligible
    ensures f.durationMs.None? && HasReason(es, openEnded, f)
  {
    if PassAt(es, n - 1, openEnded) == Some(f) {
      AfterGapMeans(es, n - 1);
      hide AfterGap, GapCameLast;
      assert LeftOpenAt(es, openEnded, f, n - 1) || NotEnteredAt(es, f, n - 1);
    } else {
      IneligibleForItsReason(es, n - 1, openEnded, f);
    }
  }

  /** So in the measured passes of a corner, over its events in the order of time. */
  lemma IneligiblePassHasItsReason(corner: EvidenceCorner, segment: Segment, tolerance: real, p: CornerPass)
    requires p in CornerPasses(corner, segment, tolerance) && !p.eligible
    ensures var es := ByTime(Events(corner, segment.observations, segment.gaps, |segment.observations|));
            var f := Fields(p.entry, p.exit, p.durationMs, p.eligible, p.exclusion);
            p.durationMs.None? && HasReason(es, segment.openGapMs.Some?, f)
  {
    var es := ByTime(Events(corner, segment.observations, segment.gaps, |segment.observations|));
    hide Events, ByTime, CornerPasses, HasReason;
    var f := PassIsField(corner, segment, tolerance, p);
    IneligibleForItsReason(es, |es|, segment.openGapMs.Some?, f);
  }
}
