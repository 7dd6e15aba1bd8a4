/** Ranking the passes of one corner: greedy tie groups over eligible durations. */
module CornerRanking {
  import opened Wrappers
  import opened GateGeometry

  datatype Exclusion = TrackingGap | UntrustedCrossing | GateOrder | RaceWindow

  datatype CornerPass = CornerPass(
    cornerId: string,
    cornerKey: string,
    cornerOrder: int,
    ordinal: nat,
    entry: Option<GateCrossing>,
    exit: Option<GateCrossing>,
    durationMs: Option<real>,
    eligible: bool,
    exclusion: Option<Exclusion>,
    rank: Option<nat>,
    tieGroup: Option<nat>,
    best: bool)

  /** What the eligibility type guard promises of an eligible pass. */
  predicate Measured(p: CornerPass) {
    p.eligible ==> p.durationMs.Some? && p.entry.Some?
  }

  ghost predicate AllMeasured(passes: seq<CornerPass>) {
    forall i :: 0 <= i < |passes| ==> Measured(passes[i])
  }

  // ----- the meaning of a rank -----

  ghost function Durations(passes: seq<CornerPass>): set<real>
    requires AllMeasured(passes)
  {
    set i | 0 <= i < |passes| && passes[i].eligible :: passes[i].durationMs.value
  }

  ghost function Below(ds: set<real>, x: real): set<real> {
    set y | y in ds && y < x
  }

  /** A duration leads a tie group when it beats no smaller leader's tolerance. */
  ghost predicate Leads(ds: set<real>, tolerance: real, x: real)
    decreases Below(ds, x)
  {
    x in ds && forall y | y in Below(ds, x) && Leads(ds, tolerance, y) :: x - y > tolerance
  }

  ghost function Leaders(ds: set<real>, tolerance: real, x: real): set<real> {
    set y | y in ds && y <= x && Leads(ds, tolerance, y)
  }

  /** The rank of a duration: how many tie groups start at or below it. */
  ghost function Rank(ds: set<real>, tolerance: real, x: real): nat {
    |Leaders(ds, tolerance, x)|
  }

  /** The leader whose group a duration belongs to. */
  lemma {:induction false} HasLeader(ds: set<real>, tolerance: real, x: real) returns (leader: real)
    requires tolerance >= 0.0 && x in ds
    ensures leader in Leaders(ds, tolerance, x) && x - leader <= tolerance
    ensures forall y :: y in Leaders(ds, tolerance, x) ==> y <= leader
  {
    if Leads(ds, tolerance, x) {
      leader := x;
    } else {
      leader :| leader in Below(ds, x) && Leads(ds, tolerance, leader) && x - leader <= tolerance;
      forall y | y in Leaders(ds, tolerance, x) ensures y <= leader {
        assert y > leader ==> leader in Below(ds, y);
      }
    }
  }

  lemma RankMonotone(ds: set<real>, tolerance: real, x: real, y: real)
    requires x <= y
    ensures Leaders(ds, tolerance, x) <= Leaders(ds, tolerance, y)
    ensures Rank(ds, tolerance, x) <= Rank(ds, tolerance, y)
  {
    SubsetSize(Leaders(ds, tolerance, x), Leaders(ds, tolerance, y));
  }

  lemma {:induction false} SubsetSize<T>(a: set<T>, b: set<T>)
    requires a <= b
    ensures |a| <= |b|
    ensures |a| == |b| ==> a == b
  {
    assert b == a + (b - a);
    assert |b| == |a| + |b - a|;
    if |a| == |b| {
      assert b - a == {};
    }
  }

  /** Passes sharing a rank share a leader, so they differ by at most the tolerance. */
  lemma SameRankIsTied(ds: set<real>, tolerance: real, x: real, y: real)
    requires tolerance >= 0.0 && x in ds && y in ds && x <= y
    requires Rank(ds, tolerance, x) == Rank(ds, tolerance, y)
    ensures y - x <= tolerance
  {
    RankMonotone(ds, tolerance, x, y);
    SubsetSize(Leaders(ds, tolerance, x), Leaders(ds, tolerance, y));
    var leader := HasLeader(ds, tolerance, y);
    assert leader in Leaders(ds, tolerance, x);
  }

  /** Leaders of different groups differ by more than the tolerance. */
  lemma LeadersAreApart(ds: set<real>, tolerance: real, x: real, y: real)
    requires x < y && Leads(ds, tolerance, x) && Leads(ds, tolerance, y)
    ensures y - x > tolerance
    ensures tolerance >= 0.0 ==> Rank(ds, tolerance, x) < Rank(ds, tolerance, y)
  {
    assert x in Below(ds, y);
    assert y in Leaders(ds, tolerance, y) && y !in Leaders(ds, tolerance, x);
    RankMonotone(ds, tolerance, x, y);
    SubsetSize(Leaders(ds, tolerance, x), Leaders(ds, tolerance, y));
  }

  /** A leader's rank is one more than the rank just before it. */
  lemma LeaderStep(ds: set<real>, tolerance: real, x: real)
    requires Leads(ds, tolerance, x)
    ensures Leaders(ds, tolerance, x) == {x} + EarlierLeaders(ds, tolerance, x)
    ensures Rank(ds, tolerance, x) == 1 + |EarlierLeaders(ds, tolerance, x)|
  {
    assert Leaders(ds, tolerance, x) == {x} + EarlierLeaders(ds, tolerance, x);
    assert x !in EarlierLeaders(ds, tolerance, x);
  }

  ghost function EarlierLeaders(ds: set<real>, tolerance: real, x: real): set<real> {
    set y | y in Below(ds, x) && Leads(ds, tolerance, y)
  }

  lemma {:induction false} Greatest(s: set<real>, some: real) returns (m: real)
    requires some in s
    ensures m in s && forall y :: y in s ==> y <= m
    decreases |s|
  {
    m := some;
    if other :| other in s && other > some {
      m := Greatest(s - {some}, other);
      assert other in s - {some};
      forall y | y in s ensures y <= m {
        assert y == some || y in s - {some};
      }
    }
  }

  /** Ranks are dense from 1: below a pass of rank n there is a pass of every rank 1..n. */
  lemma {:induction false} RanksAreDense(ds: set<real>, tolerance: real, x: real, r: nat) returns (y: real)
    requires tolerance >= 0.0 && x in ds && 1 <= r <= Rank(ds, tolerance, x)
    ensures y in ds && y <= x && Rank(ds, tolerance, y) == r
    decreases Below(ds, x)
  {
    if r == Rank(ds, tolerance, x) {
      y := x;
    } else {
      var leader := HasLeader(ds, tolerance, x);
      assert Leaders(ds, tolerance, leader) == Leaders(ds, tolerance, x);
      LeaderStep(ds, tolerance, leader);
      var rest := EarlierLeaders(ds, tolerance, leader);
      assert rest != {};
      var some :| some in rest;
      var z := Greatest(rest, some);
      assert Leaders(ds, tolerance, z) == rest;
      assert Below(ds, z) < Below(ds, x) by {
        assert z in Below(ds, x) && z !in Below(ds, z);
      }
      y := RanksAreDense(ds, tolerance, z, r);
    }
  }

  lemma RankIsPositive(ds: set<real>, tolerance: real, x: real)
    requires tolerance >= 0.0 && x in ds
    ensures Rank(ds, tolerance, x) >= 1
  {
    var leader := HasLeader(ds, tolerance, x);
    SubsetSize({leader}, Leaders(ds, tolerance, x));
  }

  /** The best passes are exactly those within the tolerance of the fastest. */
  lemma BestIsNearFastest(ds: set<real>, tolerance: real, x: real)
    requires tolerance >= 0.0 && x in ds
    ensures Rank(ds, tolerance, x) == 1 <==> forall y :: y in ds ==> x - y <= tolerance
  {
    var fastest := Fastest(ds, x);
    assert Below(ds, fastest) == {};
    assert fastest in Leaders(ds, tolerance, x);
    var leader := HasLeader(ds, tolerance, x);
    if Rank(ds, tolerance, x) == 1 {
      SubsetSize({fastest}, Leaders(ds, tolerance, x));
      assert leader == fastest;
    }
    if forall y :: y in ds ==> x - y <= tolerance {
      forall y | y in Leaders(ds, tolerance, x) ensures y == fastest {
        assert x - fastest <= tolerance;
        if y != fastest {
          LeadersAreApart(ds, tolerance, fastest, y);
        }
      }
      assert Leaders(ds, tolerance, x) == {fastest};
    }
  }

  lemma {:induction false} Fastest(s: set<real>, some: real) returns (m: real)
    requires some in s
    ensures m in s && forall y :: y in s ==> m <= y
    decreases |s|
  {
    m := some;
    if other :| other in s && other < some {
      m := Fastest(s - {some}, other);
      assert other in s - {some};
      forall y | y in s ensures m <= y {
        assert y == some || y in s - {some};
      }
    }
  }

  lemma {:induction false} LeadsIsLocal(ds: set<real>, es: set<real>, tolerance: real, x: real, y: real)
    requires y <= x && forall z :: z <= x ==> (z in ds <==> z in es)
    ensures Leads(ds, tolerance, y) <==> Leads(es, tolerance, y)
    decreases Below(ds, y)
  {
    assert Below(ds, y) == Below(es, y);
    forall z | z in Below(ds, y) ensures Leads(ds, tolerance, z) <==> Leads(es, tolerance, z) {
      assert Below(ds, z) < Below(ds, y) by {
        assert z !in Below(ds, z);
      }
      LeadsIsLocal(ds, es, tolerance, x, z);
    }
  }

  /** A rank depends only on the durations at or below its own. */
  lemma RankIsLocal(ds: set<real>, es: set<real>, tolerance: real, x: real)
    requires forall z :: z <= x ==> (z in ds <==> z in es)
    ensures Rank(ds, tolerance, x) == Rank(es, tolerance, x)
  {
    forall y | y <= x ensures Leads(ds, tolerance, y) <==> Leads(es, tolerance, y) {
      LeadsIsLocal(ds, es, tolerance, x, y);
    }
    assert Leaders(ds, tolerance, x) == Leaders(es, tolerance, x);
  }

  // ----- the ranking loop -----

  /** An eligible pass in the sort: which pass it is, and its two sort keys. */
  datatype Timed = Timed(index: nat, durationMs: real, entryMs: real)

  predicate NotAfter(p: Timed, q: Timed) {
    p.durationMs < q.durationMs || (p.durationMs == q.durationMs && p.entryMs <= q.entryMs)
  }

  ghost predicate Ascending(order: seq<Timed>) {
    forall a, b :: 0 <= a < b < |order| ==> order[a].durationMs <= order[b].durationMs
  }

  function Insert(order: seq<Timed>, t: Timed): (r: seq<Timed>)
    ensures forall x :: x in r <==> x in order || x == t
  {
    if order == [] || NotAfter(order[|order| - 1], t) then order + [t]
    else
      var front, last := order[..|order| - 1], order[|order| - 1];
      assert order == front + [last];
      Insert(front, t) + [last]
  }

  lemma {:induction false} InsertKeepsAscending(order: seq<Timed>, t: Timed)
    requires Ascending(order)
    ensures Ascending(Insert(order, t))
  {
    if order != [] && !NotAfter(order[|order| - 1], t) {
      var front, last := order[..|order| - 1], order[|order| - 1];
      InsertKeepsAscending(front, t);
      forall x | x in Insert(front, t) ensures x.durationMs <= last.durationMs {
        if x in front {
          var m :| 0 <= m < |front| && front[m] == x;
          assert order[m] == x;
        }
      }
    }
  }

  /** The pass with its rank, tie group and best flag filled in. */
  ghost function Ranked(passes: seq<CornerPass>, tolerance: real, p: CornerPass): CornerPass
    requires AllMeasured(passes) && Measured(p)
  {
    var rank := if p.eligible then Some(Rank(Durations(passes), tolerance, p.durationMs.value)) else None;
    p.(rank := rank, tieGroup := rank, best := rank == Some(1))
  }

  ghost function RankedAll(passes: seq<CornerPass>, tolerance: real): seq<CornerPass>
    requires AllMeasured(passes)
  {
    seq(|passes|, i requires 0 <= i < |passes| => Ranked(passes, tolerance, passes[i]))
  }

  /** The eligible passes seen so far in ascending order, the current group's leader, and its rank. */
  ghost predicate GroupState(ds: set<real>, tolerance: real, last: real, leader: real, rank: nat) {
    && rank == Rank(ds, tolerance, last)
    && leader in Leaders(ds, tolerance, last)
    && last - leader <= tolerance
    && forall y :: y in Leaders(ds, tolerance, last) ==> y <= leader
  }

  lemma NextInGroup(ds: set<real>, tolerance: real, last: real, leader: real, rank: nat, next: real)
    requires tolerance >= 0.0 && next in ds && last in ds && last <= next
    requires forall y :: y in ds ==> y <= last || next <= y
    requires GroupState(ds, tolerance, last, leader, rank)
    ensures if next - leader > tolerance
            then GroupState(ds, tolerance, next, next, rank + 1)
            else GroupState(ds, tolerance, next, leader, rank)
  {
    if next - leader > tolerance {
      forall y | y in Below(ds, next) && Leads(ds, tolerance, y) ensures next - y > tolerance {
        assert y in Leaders(ds, tolerance, last);
      }
      assert Leaders(ds, tolerance, next) == Leaders(ds, tolerance, last) + {next};
      assert next !in Leaders(ds, tolerance, last);
    } else {
      assert Leads(ds, tolerance, next) ==> next == leader by {
        if Leads(ds, tolerance, next) && next != leader {
          LeadersAreApart(ds, tolerance, leader, next);
        }
      }
      assert Leaders(ds, tolerance, next) == Leaders(ds, tolerance, last);
    }
  }

  lemma FirstGroup(ds: set<real>, tolerance: real, first: real)
    requires tolerance >= 0.0 && first in ds && forall y :: y in ds ==> first <= y
    ensures GroupState(ds, tolerance, first, first, 1)
  {
    assert Below(ds, first) == {};
    assert Leaders(ds, tolerance, first) == {first};
  }

  ghost predicate Lists(passes: seq<CornerPass>, t: Timed) {
    && t.index < |passes|
    && passes[t.index].eligible && passes[t.index].durationMs == Some(t.durationMs)
  }

  method SortEligible(passes: seq<CornerPass>) returns (order: seq<Timed>)
    requires AllMeasured(passes)
    ensures Ascending(order)
    ensures forall t :: t in order ==> Lists(passes, t)
    ensures forall i :: 0 <= i < |passes| && passes[i].eligible ==> exists t :: t in order && t.index == i
  {
    order := [];
    for i := 0 to |passes|
      invariant Ascending(order)
      invariant forall t :: t in order ==> Lists(passes, t)
      invariant forall k :: 0 <= k < i && passes[k].eligible ==> exists t :: t in order && t.index == k
    {
      if passes[i].eligible {
        var t := Timed(i, passes[i].durationMs.value, passes[i].entry.value.timestampMs);
        ghost var before := order;
        InsertKeepsAscending(order, t);
        order := Insert(order, t);
        forall k | 0 <= k < i + 1 && passes[k].eligible ensures exists u :: u in order && u.index == k {
          if k < i {
            var u :| u in before && u.index == k;
            assert u in order;
          } else {
            assert t in order;
          }
        }
      }
    }
  }

  lemma NeighboursInOrder(passes: seq<CornerPass>, order: seq<Timed>, n: nat)
    requires AllMeasured(passes) && Ascending(order) && n < |order|
    requires forall t :: t in order ==> Lists(passes, t)
    requires forall i :: 0 <= i < |passes| && passes[i].eligible ==> exists t :: t in order && t.index == i
    ensures order[n].durationMs in Durations(passes)
    ensures n == 0 ==> forall y :: y in Durations(passes) ==> order[n].durationMs <= y
    ensures n > 0 ==>
              && order[n - 1].durationMs in Durations(passes)
              && order[n - 1].durationMs <= order[n].durationMs
              && forall y :: y in Durations(passes) ==> y <= order[n - 1].durationMs || order[n].durationMs <= y
  {
    assert Lists(passes, order[n]);
    assert n > 0 ==> Lists(passes, order[n - 1]);
    forall y | y in Durations(passes)
      ensures exists m :: 0 <= m < |order| && y == order[m].durationMs
    {
      var i :| 0 <= i < |passes| && passes[i].eligible && passes[i].durationMs.value == y;
      var t :| t in order && t.index == i;
      assert Lists(passes, t);
      var m :| 0 <= m < |order| && order[m] == t;
    }
  }

  /** The greedy loop gives every eligible pass its rank, and every other pass none. */
  method RankCornerPasses(passes: seq<CornerPass>, tolerance: real) returns (ranked: seq<CornerPass>)
    requires AllMeasured(passes) && tolerance >= 0.0
    ensures ranked == RankedAll(passes, tolerance)
  {
    hide Rank, Leaders, Durations, Ascending;
    var order := SortEligible(passes);
    ghost var ds := Durations(passes);
    var ranks: map<nat, nat> := map[];
    var rank := 0;
    var leader: Option<real> := None;
    for n := 0 to |order|
      invariant forall m :: 0 <= m < n ==> order[m].index in ranks
      invariant forall k :: k in ranks ==>
                  k < |passes| && passes[k].eligible && ranks[k] == Rank(ds, tolerance, passes[k].durationMs.value)
      invariant leader.None? <==> n == 0
      invariant n == 0 ==> rank == 0
      invariant n > 0 ==> GroupState(ds, tolerance, order[n - 1].durationMs, leader.value, rank)
    {
      var durationMs := order[n].durationMs;
      NeighboursInOrder(passes, order, n);
      assert Lists(passes, order[n]);
      if leader.None? {
        FirstGroup(ds, tolerance, durationMs);
      } else {
        NextInGroup(ds, tolerance, order[n - 1].durationMs, leader.value, rank, durationMs);
      }
      if leader.None? || durationMs - leader.value > tolerance {
        rank := rank + 1;
        leader := Some(durationMs);
      }
      ranks := ranks[order[n].index := rank];
    }
    forall i | 0 <= i < |passes| && passes[i].eligible ensures i in ranks {
      var t :| t in order && t.index == i;
      var m: nat :| m < |order| && order[m] == t;
    }
    ranked := [];
    for i := 0 to |passes|
      invariant |ranked| == i
      invariant forall k :: 0 <= k < i ==> ranked[k] == Ranked(passes, tolerance, passes[k])
    {
      var r := if i in ranks then Some(ranks[i]) else None;
      ranked := ranked + [passes[i].(rank := r, tieGroup := r, best := r == Some(1))];
    }
  }

  // ----- what callers rely on -----

  /** Ranking again, on already ranked passes, changes nothing. */
  lemma RerankIsIdempotent(passes: seq<CornerPass>, tolerance: real)
    requires AllMeasured(passes)
    ensures AllMeasured(RankedAll(passes, tolerance))
    ensures RankedAll(RankedAll(passes, tolerance), tolerance) == RankedAll(passes, tolerance)
  {
    var again := RankedAll(passes, tolerance);
    assert Durations(again) == Durations(passes) by {
      forall d | d in Durations(passes) ensures d in Durations(again) {
        var i :| 0 <= i < |passes| && passes[i].eligible && passes[i].durationMs.value == d;
        assert again[i].eligible && again[i].durationMs.value == d;
      }
      forall d | d in Durations(again) ensures d in Durations(passes) {
        var i :| 0 <= i < |again| && again[i].eligible && again[i].durationMs.value == d;
        assert passes[i].eligible;
      }
    }
  }

  /** Reordering the passes carries each pass's rank along with it. */
  lemma RanksFollowTheirPasses(passes: seq<CornerPass>, shuffled: seq<CornerPass>, tolerance: real, i: nat, j: nat)
    requires AllMeasured(passes) && multiset(passes) == multiset(shuffled)
    requires i < |passes| && j < |shuffled| && passes[i] == shuffled[j]
    ensures AllMeasured(shuffled)
    ensures RankedAll(shuffled, tolerance)[j] == RankedAll(passes, tolerance)[i]
  {
    forall p ensures p in passes <==> p in shuffled {
      assert p in passes <==> p in multiset(passes);
      assert p in shuffled <==> p in multiset(shuffled);
    }
    SamePassesSameDurations(passes, shuffled);
  }

  lemma SamePassesSameDurations(passes: seq<CornerPass>, shuffled: seq<CornerPass>)
    requires AllMeasured(passes) && forall p :: p in passes <==> p in shuffled
    ensures AllMeasured(shuffled) && Durations(passes) == Durations(shuffled)
  {
    forall k | 0 <= k < |shuffled| ensures Measured(shuffled[k]) {
      assert shuffled[k] in passes;
    }
    forall d | d in Durations(passes) ensures d in Durations(shuffled) {
      var k :| 0 <= k < |passes| && passes[k].eligible && passes[k].durationMs.value == d;
      assert passes[k] in shuffled;
    }
    forall d | d in Durations(shuffled) ensures d in Durations(passes) {
      var k :| 0 <= k < |shuffled| && shuffled[k].eligible && shuffled[k].durationMs.value == d;
      assert shuffled[k] in passes;
    }
  }

  /** Adding passes that are no faster than a pass leaves that pass's rank alone. */
  lemma SlowerPassesChangeNothing(passes: seq<CornerPass>, more: seq<CornerPass>, tolerance: real, i: nat)
    requires AllMeasured(passes) && AllMeasured(more) && i < |passes| && passes[i].eligible
    requires forall k :: 0 <= k < |more| && more[k].eligible ==> passes[i].durationMs.value <= more[k].durationMs.value
    ensures AllMeasured(passes + more)
    ensures RankedAll(passes + more, tolerance)[i] == RankedAll(passes, tolerance)[i]
  {
    var x := passes[i].durationMs.value;
    var all := passes + more;
    forall z | z <= x ensures z in Durations(passes) <==> z in Durations(all) {
      if z in Durations(passes) {
        var k :| 0 <= k < |passes| && passes[k].eligible && passes[k].durationMs.value == z;
        assert all[k].eligible && all[k].durationMs.value == z;
      }
      if z in Durations(all) {
        var k :| 0 <= k < |all| && all[k].eligible && all[k].durationMs.value == z;
        if k >= |passes| {
          assert more[k - |passes|].eligible && z == x;
        } else {
          assert passes[k].eligible;
        }
      }
    }
    RankIsLocal(Durations(passes), Durations(all), tolerance, x);
  }
}
