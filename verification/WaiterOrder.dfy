/**
 The persisted waiters form an unsorted array whose service order is their
 ordinals.  Reading that array as a line commutes with the three ways the
 coordinator changes it: filtering, pushing the greatest ordinal, and pushing
 back a lease whose ordinal is below every waiter's.
 */
module WaiterOrder {
  import opened Wrappers
  import opened LeaseQueue

  datatype Waiter = Waiter(job: Job, ordinal: nat)

  /** A stable sort by ordinal. */
  function Sorted(ws: seq<Waiter>): seq<Waiter> {
    if ws == [] then [] else Insert(Sorted(ws[..|ws| - 1]), ws[|ws| - 1])
  }

  function Insert(s: seq<Waiter>, w: Waiter): seq<Waiter> {
    if s == [] || s[|s| - 1].ordinal <= w.ordinal then s + [w]
    else Insert(s[..|s| - 1], w) + [s[|s| - 1]]
  }

  function Jobs(s: seq<Waiter>): seq<Job> {
    seq(|s|, i requires 0 <= i < |s| => s[i].job)
  }

  /** The line that an array of waiters stands for. */
  function Line(ws: seq<Waiter>): seq<Job> {
    Jobs(Sorted(ws))
  }

  function KeptWaiters(ws: seq<Waiter>, k: Keep): seq<Waiter> {
    if ws == [] then []
    else if Keeps(k, ws[|ws| - 1].job) then KeptWaiters(ws[..|ws| - 1], k) + [ws[|ws| - 1]]
    else KeptWaiters(ws[..|ws| - 1], k)
  }

  ghost predicate Ascending(s: seq<Waiter>) {
    forall i, j :: 0 <= i < j < |s| ==> s[i].ordinal <= s[j].ordinal
  }

  lemma {:induction false} InsertFacts(s: seq<Waiter>, w: Waiter)
    ensures multiset(Insert(s, w)) == multiset(s) + multiset{w}
    ensures Ascending(s) ==> Ascending(Insert(s, w))
  {
    if s != [] && s[|s| - 1].ordinal > w.ordinal {
      var front, last := s[..|s| - 1], s[|s| - 1];
      assert s == front + [last];
      InsertFacts(front, w);
      if Ascending(s) {
        InsertBelow(front, w, last);
      }
    }
  }

  lemma {:induction false} InsertBelow(s: seq<Waiter>, w: Waiter, last: Waiter)
    requires w.ordinal <= last.ordinal && forall i :: 0 <= i < |s| ==> s[i].ordinal <= last.ordinal
    ensures forall i :: 0 <= i < |Insert(s, w)| ==> Insert(s, w)[i].ordinal <= last.ordinal
  {
    if s != [] && s[|s| - 1].ordinal > w.ordinal {
      InsertBelow(s[..|s| - 1], w, last);
    }
  }

  lemma {:induction false} SortedFacts(ws: seq<Waiter>)
    ensures multiset(Sorted(ws)) == multiset(ws)
    ensures Ascending(Sorted(ws))
    ensures |Sorted(ws)| == |ws|
    ensures forall w :: w in Sorted(ws) <==> w in ws
  {
    if ws != [] {
      var front, last := ws[..|ws| - 1], ws[|ws| - 1];
      assert ws == front + [last];
      SortedFacts(front);
      InsertFacts(Sorted(front), last);
    }
    assert |Sorted(ws)| == |multiset(Sorted(ws))| == |multiset(ws)|;
    forall w ensures w in Sorted(ws) <==> w in ws {
      assert w in Sorted(ws) <==> w in multiset(Sorted(ws));
      assert w in ws <==> w in multiset(ws);
    }
  }

  /** Any array holding the same waiters in ascending order is the sorted one. */
  lemma {:induction false} SortedFixed(s: seq<Waiter>)
    requires Ascending(s)
    ensures Sorted(s) == s
  {
    if s != [] {
      var front, last := s[..|s| - 1], s[|s| - 1];
      InsertLast(front, last);
      SortedFixed(front);
      hide Insert, Ascending;
      assert s == front + [last];
    }
  }

  lemma InsertLast(s: seq<Waiter>, w: Waiter)
    requires s == [] || s[|s| - 1].ordinal <= w.ordinal
    ensures Insert(s, w) == s + [w]
  {
  }

  lemma {:induction false} InsertFirst(s: seq<Waiter>, w: Waiter)
    requires forall x :: x in s ==> w.ordinal < x.ordinal
    ensures Insert(s, w) == [w] + s
  {
    if s != [] {
      InsertFirst(s[..|s| - 1], w);
      assert s == s[..|s| - 1] + [s[|s| - 1]];
    }
  }

  lemma JobsAppend(a: seq<Waiter>, b: seq<Waiter>)
    ensures Jobs(a + b) == Jobs(a) + Jobs(b)
  {
  }

  /** Pushing the newest ordinal joins the back of the line. */
  lemma PushBack(ws: seq<Waiter>, w: Waiter)
    requires forall x :: x in ws ==> x.ordinal < w.ordinal
    ensures Line(ws + [w]) == Line(ws) + [w.job]
  {
    SortedMembers(ws);
    SortedOfMore(ws, w);
    hide Sorted, Insert;
    InsertLast(Sorted(ws), w);
    JobsAppend(Sorted(ws), [w]);
  }

  lemma SortedMembers(ws: seq<Waiter>)
    ensures forall w :: w in Sorted(ws) <==> w in ws
  {
    SortedFacts(ws);
  }

  lemma SortedOfMore(ws: seq<Waiter>, w: Waiter)
    ensures Sorted(ws + [w]) == Insert(Sorted(ws), w)
  {
    assert (ws + [w])[..|ws|] == ws;
  }

  /** Pushing the oldest ordinal, though at the end of the array, joins the front of the line. */
  lemma PushFront(ws: seq<Waiter>, w: Waiter)
    requires forall x :: x in ws ==> w.ordinal < x.ordinal
    ensures Line(ws + [w]) == [w.job] + Line(ws)
  {
    SortedMembers(ws);
    SortedOfMore(ws, w);
    hide Sorted, Insert;
    InsertFirst(Sorted(ws), w);
    JobsAppend([w], Sorted(ws));
  }

  lemma {:induction false} KeptWaitersMembers(ws: seq<Waiter>, k: Keep)
    ensures |KeptWaiters(ws, k)| <= |ws|
    ensures forall w :: w in KeptWaiters(ws, k) <==> w in ws && Keeps(k, w.job)
  {
    if ws != [] {
      KeptWaitersMembers(ws[..|ws| - 1], k);
      assert ws == ws[..|ws| - 1] + [ws[|ws| - 1]];
    }
  }

  lemma {:induction false} KeptWaitersDistinct(ws: seq<Waiter>, k: Keep)
    requires DistinctOrdinals(ws)
    ensures DistinctOrdinals(KeptWaiters(ws, k))
  {
    if ws != [] {
      var front := ws[..|ws| - 1];
      KeptWaitersDistinct(front, k);
      KeptWaitersMembers(front, k);
      forall i | 0 <= i < |KeptWaiters(front, k)|
        ensures KeptWaiters(front, k)[i].ordinal != ws[|ws| - 1].ordinal
      {
        assert KeptWaiters(front, k)[i] in front;
      }
    }
  }

  ghost predicate DistinctOrdinals(ws: seq<Waiter>) {
    forall i, j :: 0 <= i < j < |ws| ==> ws[i].ordinal != ws[j].ordinal
  }

  lemma KeptAppend(s: seq<Waiter>, w: Waiter, k: Keep)
    ensures KeptWaiters(s + [w], k) == if Keeps(k, w.job) then KeptWaiters(s, k) + [w] else KeptWaiters(s, k)
  {
    assert (s + [w])[..|s|] == s;
  }

  lemma InsertBefore(s: seq<Waiter>, last: Waiter, w: Waiter)
    requires last.ordinal > w.ordinal
    ensures Insert(s + [last], w) == Insert(s, w) + [last]
  {
    assert (s + [last])[..|s|] == s;
  }

  lemma SortedAppend(s: seq<Waiter>, w: Waiter)
    ensures Sorted(s + [w]) == Insert(Sorted(s), w)
  {
    assert (s + [w])[..|s|] == s;
  }

  ghost predicate KeptInserts(s: seq<Waiter>, w: Waiter, k: Keep) {
    KeptWaiters(Insert(s, w), k)
    == if Keeps(k, w.job) then Insert(KeptWaiters(s, k), w) else KeptWaiters(s, k)
  }

  lemma KeptInsertLast(s: seq<Waiter>, w: Waiter, k: Keep)
    requires forall x :: x in s ==> x.ordinal <= w.ordinal
    ensures KeptInserts(s, w, k)
  {
    KeptAppend(s, w, k);
    KeptWaitersMembers(s, k);
    var ks := KeptWaiters(s, k);
    assert ks != [] ==> ks[|ks| - 1] in s;
  }

  lemma {:induction false} KeptInsert(s: seq<Waiter>, w: Waiter, k: Keep)
    requires Ascending(s)
    ensures KeptInserts(s, w, k)
  {
    if s == [] || s[|s| - 1].ordinal <= w.ordinal {
      KeptInsertLast(s, w, k);
    } else {
      var front, last := s[..|s| - 1], s[|s| - 1];
      assert s == front + [last];
      KeptInsert(front, w, k);
      InsertBefore(front, last, w);
      KeptAppend(Insert(front, w), last, k);
      KeptAppend(front, last, k);
      InsertBefore(KeptWaiters(front, k), last, w);
    }
  }

  lemma {:induction false} KeptSorted(ws: seq<Waiter>, k: Keep)
    ensures KeptWaiters(Sorted(ws), k) == Sorted(KeptWaiters(ws, k))
  {
    if ws != [] {
      var front, last := ws[..|ws| - 1], ws[|ws| - 1];
      assert ws == front + [last];
      KeptSorted(front, k);
      SortedFacts(front);
      KeptInsert(Sorted(front), last, k);
      KeptAppend(front, last, k);
      SortedAppend(KeptWaiters(front, k), last);
    }
  }

  lemma {:induction false} KeptJobs(s: seq<Waiter>, k: Keep)
    ensures Jobs(KeptWaiters(s, k)) == Kept(Jobs(s), k)
  {
    if s != [] {
      KeptJobs(s[..|s| - 1], k);
      assert Jobs(s)[..|s| - 1] == Jobs(s[..|s| - 1]);
    }
  }

  /** Filtering the array is filtering the line. */
  lemma LineKept(ws: seq<Waiter>, k: Keep)
    ensures Line(KeptWaiters(ws, k)) == Kept(Line(ws), k)
  {
    KeptSorted(ws, k);
    KeptJobs(Sorted(ws), k);
  }

  lemma LineMembers(ws: seq<Waiter>)
    ensures |Line(ws)| == |ws|
    ensures forall j :: j in Line(ws) <==> exists w :: w in ws && w.job == j
  {
    SortedFacts(ws);
    var s := Sorted(ws);
    forall j ensures j in Line(ws) <==> exists w :: w in ws && w.job == j {
      if j in Line(ws) {
        var i :| 0 <= i < |s| && s[i].job == j;
        assert s[i] in ws;
      }
      if w :| w in ws && w.job == j {
        assert w in s;
        var i :| 0 <= i < |s| && s[i] == w;
        assert Line(ws)[i] == j;
      }
    }
  }
}
