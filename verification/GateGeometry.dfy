/**
 A gate is a directed segment; a movement between two observations crosses it
 when the half-open movement meets the closed segment in the gate's direction.
 Arithmetic is over exact reals.
 */
module GateGeometry {
  import opened Wrappers

  datatype Point = Point(x: real, y: real)
  datatype Direction = Forward | Reverse
  datatype Gate = Gate(start: Point, end: Point, direction: Direction)

  datatype Observation = Observation(
    timestampMs: int,
    frameIndex: int,
    center: Point,
    visible: bool,
    identityConfidence: real)

  datatype GateCrossing = GateCrossing(timestampMs: real, beforeFrameIndex: int, afterFrameIndex: int)

  function Cross(left: Point, right: Point): real {
    left.x * right.y - left.y * right.x
  }

  function Subtract(left: Point, right: Point): Point {
    Point(left.x - right.x, left.y - right.y)
  }

  function Crossing(before: Observation, after: Observation, gate: Gate): Option<GateCrossing> {
    var gateVector := Subtract(gate.end, gate.start);
    var beforeSide := Cross(gateVector, Subtract(before.center, gate.start));
    var afterSide := Cross(gateVector, Subtract(after.center, gate.start));
    var directed :=
      if gate.direction.Forward? then beforeSide < 0.0 && afterSide >= 0.0
      else beforeSide > 0.0 && afterSide <= 0.0;
    if !directed then None
    else
      var movement := Subtract(after.center, before.center);
      var denominator := Cross(movement, gateVector);
      var offset := Subtract(gate.start, before.center);
      SidesDiffer(before.center, after.center, gate);
      var movementFraction := Cross(offset, gateVector) / denominator;
      var gateFraction := Cross(offset, movement) / denominator;
      if gateFraction < 0.0 || gateFraction > 1.0 then None
      else Some(GateCrossing(TimeAt(before, after, movementFraction), before.frameIndex, after.frameIndex))
  }

  function TimeAt(before: Observation, after: Observation, fraction: real): real {
    before.timestampMs as real + (after.timestampMs - before.timestampMs) as real * fraction
  }

  // ----- the meaning -----

  function Side(gate: Gate, p: Point): real {
    Cross(Subtract(gate.end, gate.start), Subtract(p, gate.start))
  }

  /** The point a fraction of the way along a segment. */
  function Along(a: Point, b: Point, fraction: real): Point {
    Point(a.x + fraction * (b.x - a.x), a.y + fraction * (b.y - a.y))
  }

  /** The movement, a fraction `t` of the way, is on the gate, a fraction `u` of the way. */
  ghost predicate MeetsAt(a: Point, b: Point, gate: Gate, t: real, u: real) {
    && 0.0 < t <= 1.0
    && 0.0 <= u <= 1.0
    && Along(a, b, t) == Along(gate.start, gate.end, u)
  }

  /** The movement starts strictly on the side the gate is entered from. */
  predicate Approaches(gate: Gate, p: Point) {
    if gate.direction.Forward? then Side(gate, p) < 0.0 else Side(gate, p) > 0.0
  }

  lemma SidesDiffer(a: Point, b: Point, gate: Gate)
    ensures Cross(Subtract(b, a), Subtract(gate.end, gate.start)) == Side(gate, a) - Side(gate, b)
    ensures Cross(Subtract(gate.start, a), Subtract(gate.end, gate.start)) == Side(gate, a)
  {
    var g := Subtract(gate.end, gate.start);
    var p := Subtract(a, gate.start);
    var q := Subtract(b, gate.start);
    assert Subtract(b, a) == Subtract(q, p);
    assert Subtract(gate.start, a) == Point(-p.x, -p.y);
    CrossLinear(g, p, q);
  }

  lemma CrossLinear(g: Point, p: Point, q: Point)
    ensures Cross(Subtract(q, p), g) == Cross(g, p) - Cross(g, q)
    ensures Cross(Point(-p.x, -p.y), g) == Cross(g, p)
  {
  }

  /** Cramer's rule: the only solution of t * m - u * g == o. */
  lemma Cramer(o: Point, m: Point, g: Point, t: real, u: real)
    requires Cross(m, g) != 0.0
    ensures t * m.x - u * g.x == o.x && t * m.y - u * g.y == o.y
       <==> t * Cross(m, g) == Cross(o, g) && u * Cross(m, g) == Cross(o, m)
  {
    var d := Cross(m, g);
    if t * m.x - u * g.x == o.x && t * m.y - u * g.y == o.y {
      CramerForward(o, m, g, t, u);
    }
    if t * d == Cross(o, g) && u * d == Cross(o, m) {
      CramerBack(o, m, g, t, u);
    }
  }

  lemma CramerForward(o: Point, m: Point, g: Point, t: real, u: real)
    requires t * m.x - u * g.x == o.x && t * m.y - u * g.y == o.y
    ensures t * Cross(m, g) == Cross(o, g) && u * Cross(m, g) == Cross(o, m)
  {
    calc {
      Cross(o, g);
      (t * m.x - u * g.x) * g.y - (t * m.y - u * g.y) * g.x;
      t * Cross(m, g);
    }
    calc {
      Cross(o, m);
      (t * m.x - u * g.x) * m.y - (t * m.y - u * g.y) * m.x;
      u * Cross(m, g);
    }
  }

  lemma CramerBack(o: Point, m: Point, g: Point, t: real, u: real)
    requires t * Cross(m, g) == Cross(o, g) && u * Cross(m, g) == Cross(o, m)
    requires Cross(m, g) != 0.0
    ensures t * m.x - u * g.x == o.x && t * m.y - u * g.y == o.y
  {
    var d := Cross(m, g);
    calc {
      (t * m.x - u * g.x) * d;
      (t * d) * m.x - (u * d) * g.x;
      Cross(o, g) * m.x - Cross(o, m) * g.x;
      o.x * d;
    }
    calc {
      (t * m.y - u * g.y) * d;
      (t * d) * m.y - (u * d) * g.y;
      Cross(o, g) * m.y - Cross(o, m) * g.y;
      o.y * d;
    }
    Cancel(t * m.x - u * g.x, o.x, d);
    Cancel(t * m.y - u * g.y, o.y, d);
  }

  lemma Cancel(a: real, b: real, d: real)
    requires a * d == b * d && d != 0.0
    ensures a == b
  {
    assert (a - b) * d == 0.0;
  }

  lemma MeetingSolves(a: Point, b: Point, gate: Gate, t: real, u: real)
    requires Side(gate, a) != Side(gate, b)
    ensures Along(a, b, t) == Along(gate.start, gate.end, u)
       <==> t * (Side(gate, a) - Side(gate, b)) == Side(gate, a)
            && u * (Side(gate, a) - Side(gate, b)) == Cross(Subtract(gate.start, a), Subtract(b, a))
  {
    var m, g, o := Subtract(b, a), Subtract(gate.end, gate.start), Subtract(gate.start, a);
    SidesDiffer(a, b, gate);
    Cramer(o, m, g, t, u);
  }

  lemma Quotient(a: real, d: real, t: real)
    requires d != 0.0
    ensures t * d == a <==> t == a / d
  {
  }

  lemma FractionInside(a: real, b: real)
    requires (a < 0.0 && b >= 0.0) || (a > 0.0 && b <= 0.0)
    ensures 0.0 < a / (a - b) <= 1.0
  {
  }

  /** Meeting the gate with a start strictly on one side forces the end onto the other. */
  lemma MeetingChangesSide(a: Point, b: Point, gate: Gate, t: real, u: real)
    requires MeetsAt(a, b, gate, t, u) && Side(gate, a) != 0.0
    ensures Side(gate, a) < 0.0 ==> Side(gate, b) >= 0.0
    ensures Side(gate, a) > 0.0 ==> Side(gate, b) <= 0.0
  {
    var g := Subtract(gate.end, gate.start);
    var p, q := Subtract(a, gate.start), Subtract(b, gate.start);
    var sa, sb := Side(gate, a), Side(gate, b);
    var point := Along(a, b, t);
    assert Subtract(point, gate.start) == Point(u * g.x, u * g.y);
    OnGate(g, u);
    assert Subtract(point, gate.start) == Point(p.x + t * (q.x - p.x), p.y + t * (q.y - p.y));
    SideAlong(g, p, q, t);
    assert sa + t * (sb - sa) == 0.0;
    OtherSide(t, sa, sb);
  }

  lemma OtherSide(t: real, sa: real, sb: real)
    requires sa + t * (sb - sa) == 0.0 && 0.0 < t <= 1.0
    ensures sa < 0.0 ==> sb >= 0.0
    ensures sa > 0.0 ==> sb <= 0.0
  {
    assert t * sb == (t - 1.0) * sa;
    Signs(t, sb, 1.0 - t, sa);
  }

  lemma Signs(t: real, x: real, s: real, y: real)
    requires t > 0.0 && s >= 0.0
    ensures x < 0.0 ==> t * x < 0.0
    ensures x > 0.0 ==> t * x > 0.0
    ensures y <= 0.0 ==> -s * y >= 0.0
    ensures y >= 0.0 ==> -s * y <= 0.0
  {
  }

  lemma OnGate(g: Point, u: real)
    ensures Cross(g, Point(u * g.x, u * g.y)) == 0.0
  {
  }

  lemma SideAlong(g: Point, p: Point, q: Point, t: real)
    ensures Cross(g, Point(p.x + t * (q.x - p.x), p.y + t * (q.y - p.y)))
         == Cross(g, p) + t * (Cross(g, q) - Cross(g, p))
  {
  }

  /**
   A crossing is returned exactly when the half-open movement meets the closed
   gate from the right side; its time is the time of that meeting.
   */
  lemma CrossingIsMeeting(before: Observation, after: Observation, gate: Gate)
    ensures Crossing(before, after, gate).Some?
       <==> Approaches(gate, before.center) && exists t, u :: MeetsAt(before.center, after.center, gate, t, u)
    ensures forall t, u ::
              Approaches(gate, before.center) && MeetsAt(before.center, after.center, gate, t, u) ==>
                Crossing(before, after, gate)
                == Some(GateCrossing(TimeAt(before, after, t), before.frameIndex, after.frameIndex))
  {
    forall t, u | Approaches(gate, before.center) && MeetsAt(before.center, after.center, gate, t, u)
      ensures Crossing(before, after, gate)
           == Some(GateCrossing(TimeAt(before, after, t), before.frameIndex, after.frameIndex))
    {
      MeetingIsCrossing(before, after, gate, t, u);
    }
    if Crossing(before, after, gate).Some? {
      var t, u := CrossingMeets(before, after, gate);
    }
  }

  lemma MeetingFractions(a: Point, b: Point, gate: Gate, t: real, u: real)
    requires Side(gate, a) != 0.0 && MeetsAt(a, b, gate, t, u)
    ensures var d := Cross(Subtract(b, a), Subtract(gate.end, gate.start));
            && d != 0.0
            && Cross(Subtract(gate.start, a), Subtract(gate.end, gate.start)) / d == t
            && Cross(Subtract(gate.start, a), Subtract(b, a)) / d == u
  {
    MeetingChangesSide(a, b, gate, t, u);
    hide Cross, Along;
    SidesDiffer(a, b, gate);
    MeetingSolves(a, b, gate, t, u);
    var d := Side(gate, a) - Side(gate, b);
    Quotient(Side(gate, a), d, t);
    Quotient(Cross(Subtract(gate.start, a), Subtract(b, a)), d, u);
  }

  lemma MeetingIsCrossing(before: Observation, after: Observation, gate: Gate, t: real, u: real)
    requires Approaches(gate, before.center) && MeetsAt(before.center, after.center, gate, t, u)
    ensures Crossing(before, after, gate)
         == Some(GateCrossing(TimeAt(before, after, t), before.frameIndex, after.frameIndex))
  {
    MeetingChangesSide(before.center, after.center, gate, t, u);
    MeetingFractions(before.center, after.center, gate, t, u);
    hide Cross, Along, TimeAt;
  }

  lemma CrossingMeets(before: Observation, after: Observation, gate: Gate) returns (t: real, u: real)
    requires Crossing(before, after, gate).Some?
    ensures Approaches(gate, before.center) && MeetsAt(before.center, after.center, gate, t, u)
    ensures Crossing(before, after, gate).value.timestampMs
         == TimeAt(before, after, t)
  {
    var a, b := before.center, after.center;
    SidesDiffer(a, b, gate);
    var d := Side(gate, a) - Side(gate, b);
    t := Side(gate, a) / d;
    u := Cross(Subtract(gate.start, a), Subtract(b, a)) / d;
    FractionInside(Side(gate, a), Side(gate, b));
    Quotient(Side(gate, a), d, t);
    Quotient(Cross(Subtract(gate.start, a), Subtract(b, a)), d, u);
    MeetingSolves(a, b, gate, t, u);
  }

  /** A crossing happens after the first observation and no later than the second. */
  lemma CrossingInTime(before: Observation, after: Observation, gate: Gate)
    requires before.timestampMs < after.timestampMs && Crossing(before, after, gate).Some?
    ensures before.timestampMs as real < Crossing(before, after, gate).value.timestampMs <= after.timestampMs as real
  {
    var t, u := CrossingMeets(before, after, gate);
    ScaleWithin((after.timestampMs - before.timestampMs) as real, t);
  }

  lemma ScaleWithin(span: real, t: real)
    requires span > 0.0 && 0.0 < t <= 1.0
    ensures 0.0 < span * t <= span
  {
  }

  /**
   The clip overlay recomputes the fraction from the entry timestamp; the
   subject centre it draws is the point where the movement meets the gate.
   */
  lemma OverlayCentreIsOnGate(before: Observation, after: Observation, gate: Gate) returns (t: real, u: real)
    requires before.timestampMs < after.timestampMs && Crossing(before, after, gate).Some?
    ensures MeetsAt(before.center, after.center, gate, t, u)
    ensures OverlayCentre(before, after, Crossing(before, after, gate).value.timestampMs)
         == Along(gate.start, gate.end, u)
  {
    hide Cross, Crossing, Along;
    t, u := CrossingMeets(before, after, gate);
    Recover(before.timestampMs as real, (after.timestampMs - before.timestampMs) as real, t);
  }

  function OverlayCentre(before: Observation, after: Observation, entryTimestampMs: real): Point
    requires before.timestampMs != after.timestampMs
  {
    var fraction := (entryTimestampMs - before.timestampMs as real) / (after.timestampMs - before.timestampMs) as real;
    Along(before.center, after.center, fraction)
  }

  lemma Recover(base: real, span: real, t: real)
    requires span != 0.0
    ensures (base + span * t - base) / span == t
  {
  }
}
