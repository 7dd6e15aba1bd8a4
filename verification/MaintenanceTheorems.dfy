/** Archiving undoes services, and restoring does them again. */
module MaintenanceTheorems {
  import opened Wrappers
  import opened MaintenanceSync

  /** What completing one service leaves. */
  lemma CompleteLeaves(c: Collection, carId: nat, planId: nat, service: Service)
    requires Ready(c, planId)
    ensures var d := Complete(c, carId, planId, service);
            var plan := c.plans[planId];
            && d.plans == c.plans[planId :=
                 plan.(baselineAt := service.input.performedAt, baselineSessionCount := service.sessionCount)]
            && d.records == c.records[service.recordId :=
                 Record(service.recordId, carId, service.input, Some(planId), service.input.performedAt,
                        Some(service.sessionCount), Some(plan.baselineAt), Some(plan.baselineSessionCount), None)]
  {
  }

  /** Archiving the service that set the plan's baseline puts the plan back. */
  lemma ArchiveUndoes(c: Collection, e: Collection, carId: nat, planId: nat, service: Service, stamp: Stamp)
    requires Ready(c, planId)
    requires var d := Complete(c, carId, planId, service);
             e.plans == d.plans && service.recordId in e.records && e.records[service.recordId] == d.records[service.recordId]
    ensures var f := Redo(e, carId, planId, service.recordId, Archive, stamp);
            && f.plans == c.plans
            && f.records == e.records[service.recordId := e.records[service.recordId].(deletedAt := Some(stamp.now))]
  {
    CompleteLeaves(c, carId, planId, service);
    hide Complete;
  }

  /** Restoring it does it again. */
  lemma RestoreRedoes(
      c: Collection, e: Collection, carId: nat, planId: nat, service: Service, archived: Stamp, restored: Stamp)
    requires Ready(c, planId)
    requires var d := Complete(c, carId, planId, service);
             e.plans == d.plans && service.recordId in e.records && e.records[service.recordId] == d.records[service.recordId]
    ensures var f := Redo(e, carId, planId, service.recordId, Archive, archived);
            Redo(f, carId, planId, service.recordId, Restore, restored) == e
  {
    ArchiveUndoes(c, e, carId, planId, service, archived);
    CompleteLeaves(c, carId, planId, service);
    hide Complete;
  }

  /** A record from before session counts were kept puts the date it has, and counts from zero. */
  lemma MissingCountIsZero(c: Collection, carId: nat, planId: nat, recordId: nat, stamp: Stamp)
    requires Ready(c, planId) && recordId in c.records
    ensures var plan, r := c.plans[planId], c.records[recordId];
            plan.baselineAt == r.baselineAt && r.previousBaselineAt.Some? && r.previousBaselineAt.value != ""
            && r.previousBaselineSessionCount.None? ==>
              Redo(c, carId, planId, recordId, Archive, stamp).plans
              == c.plans[planId := plan.(baselineAt := r.previousBaselineAt.value, baselineSessionCount := 0)]
    ensures var plan, r := c.plans[planId], c.records[recordId];
            r.previousBaselineAt == Some(plan.baselineAt) && r.baselineSessionCount.None? ==>
              Redo(c, carId, planId, recordId, Restore, stamp).plans
              == c.plans[planId := plan.(baselineAt := r.baselineAt, baselineSessionCount := 0)]
  {
  }

  lemma NextServices(c: Collection, carId: nat, planId: nat, services: seq<Service>)
    requires Ready(c, planId) && NewServices(c, services) && services != []
    ensures var d := Complete(c, carId, planId, services[0]);
            Ready(d, planId) && NewServices(d, services[1..])
  {
    CompleteLeaves(c, carId, planId, services[0]);
    hide Complete;
    var rest := services[1..];
    forall i | 0 <= i < |rest| ensures rest[i].recordId != services[0].recordId && rest[i].recordId !in c.records {
      assert rest[i] == services[i + 1];
    }
  }

  /**
   Completing any services on a plan and archiving them in reverse order restores every plan,
   the baseline date and session count included, and leaves the records there were.
   */
  lemma {:induction false} ReverseArchivingUndoes(
      c: Collection, carId: nat, planId: nat, services: seq<Service>, stamps: nat -> Stamp)
    requires Ready(c, planId) && NewServices(c, services)
    ensures var e := ArchiveAll(CompleteAll(c, carId, planId, services), carId, planId, services, stamps);
            && e.plans == c.plans
            && (forall r :: r in c.records ==> r in e.records && e.records[r] == c.records[r])
            && (forall i :: 0 <= i < |services| ==>
                 services[i].recordId in e.records
                 && e.records[services[i].recordId].deletedAt == Some(stamps(services[i].recordId).now))
    decreases services
  {
    if services != [] {
      var service := services[0];
      var rest := services[1..];
      NextServices(c, carId, planId, services);
      CompleteLeaves(c, carId, planId, service);
      var d := Complete(c, carId, planId, service);
      hide Complete, Redo;
      ReverseArchivingUndoes(d, carId, planId, rest, stamps);
      var e := ArchiveAll(CompleteAll(d, carId, planId, rest), carId, planId, rest, stamps);
      ArchiveUndoes(c, e, carId, planId, service, stamps(service.recordId));
      assert forall i :: 0 <= i < |rest| ==> rest[i] == services[i + 1];
      assert forall i :: 1 <= i < |services| ==> services[i] == rest[i - 1];
    }
  }

  /** Restoring them in order afterwards gives back exactly the collection in which all were completed. */
  lemma {:induction false} ForwardRestoringRedoes(
      c: Collection, carId: nat, planId: nat, services: seq<Service>, archived: nat -> Stamp, restored: nat -> Stamp)
    requires Ready(c, planId) && NewServices(c, services)
    ensures var d := CompleteAll(c, carId, planId, services);
            RestoreAll(ArchiveAll(d, carId, planId, services, archived), carId, planId, services, restored) == d
    decreases services
  {
    if services != [] {
      var service := services[0];
      var rest := services[1..];
      NextServices(c, carId, planId, services);
      CompleteLeaves(c, carId, planId, service);
      var d := Complete(c, carId, planId, service);
      hide Complete, Redo;
      ForwardRestoringRedoes(d, carId, planId, rest, archived, restored);
      ReverseArchivingUndoes(d, carId, planId, rest, archived);
      var e := ArchiveAll(CompleteAll(d, carId, planId, rest), carId, planId, rest, archived);
      RestoreRedoes(c, e, carId, planId, service, archived(service.recordId), restored(service.recordId));
    }
  }

  /** Archiving a record moves the plan's baseline exactly when the plan still has the record's and it replaced one. */
  lemma ArchiveMovesExactly(c: Collection, change: ServiceChange, now: string, sessionCount: nat)
    requires change.action == Archive && change.base.Some?
    requires change.planBase.Some? && change.planBase.value.id in c.plans
    requires c.plans[change.planBase.value.id] == change.planBase.value
    ensures var plan := change.planBase.value;
            var base := change.base.value;
            var after := ApplyService(c, change, now, sessionCount);
            if plan.baselineAt == base.baselineAt && base.previousBaselineAt.Some? && base.previousBaselineAt.value != "" then
              after.plans == c.plans[plan.id := plan.(
                baselineAt := base.previousBaselineAt.value,
                baselineSessionCount := OrZero(base.previousBaselineSessionCount))]
            else after.plans == c.plans
  {
  }

  // ----- corrections -----

  /** Save a record again with other input, on the plan as it is. */
  function Correct(c: Collection, carId: nat, planId: nat, recordId: nat, input: Input, stamp: Stamp): Collection {
    if planId !in c.plans || recordId !in c.records then c
    else
      var change := ServiceChange(carId, Save, recordId, Some(c.records[recordId]), Some(c.plans[planId]), input);
      ApplyService(c, change, stamp.now, stamp.sessionCount)
  }

  function CorrectAll(c: Collection, carId: nat, planId: nat, recordId: nat, inputs: seq<Input>, stamp: Stamp): Collection
    decreases inputs
  {
    if inputs == [] then c
    else CorrectAll(Correct(c, carId, planId, recordId, inputs[0], stamp), carId, planId, recordId, inputs[1..], stamp)
  }

  /** The record set the plan's baseline, and remembers the one it replaced. */
  predicate SetBaseline(c: Collection, e: Collection, planId: nat, recordId: nat)
    requires planId in c.plans
  {
    var plan := c.plans[planId];
    && recordId in e.records && planId in e.plans
    && var record := e.records[recordId];
       && e.plans == c.plans[planId := e.plans[planId]]
       && e.plans[planId] == plan.(baselineAt := record.baselineAt,
                                   baselineSessionCount := e.plans[planId].baselineSessionCount)
       && record.baselineAt == record.input.performedAt
       && record.previousBaselineAt == Some(plan.baselineAt)
       && record.previousBaselineSessionCount == Some(plan.baselineSessionCount)
  }

  lemma {:induction false} CorrectionsKeepBaseline(
      c: Collection, e: Collection, carId: nat, planId: nat, recordId: nat, inputs: seq<Input>, stamp: Stamp)
    requires Ready(c, planId) && SetBaseline(c, e, planId, recordId)
    ensures SetBaseline(c, CorrectAll(e, carId, planId, recordId, inputs, stamp), planId, recordId)
    decreases inputs
  {
    if inputs != [] {
      CorrectionsKeepBaseline(
        c, Correct(e, carId, planId, recordId, inputs[0], stamp), carId, planId, recordId, inputs[1..], stamp);
    }
  }

  /** However often the date of the latest service was corrected, archiving it still puts the plan back. */
  lemma CorrectedServiceStillUndoes(
      c: Collection, carId: nat, planId: nat, service: Service, inputs: seq<Input>, corrected: Stamp, archived: Stamp)
    requires Ready(c, planId)
    ensures var d := CorrectAll(Complete(c, carId, planId, service), carId, planId, service.recordId, inputs, corrected);
            && (inputs != [] ==>
                 planId in d.plans && d.plans[planId].baselineAt == inputs[|inputs| - 1].performedAt)
            && Redo(d, carId, planId, service.recordId, Archive, archived).plans == c.plans
  {
    CompleteLeaves(c, carId, planId, service);
    var e := Complete(c, carId, planId, service);
    hide Complete;
    CorrectionsKeepBaseline(c, e, carId, planId, service.recordId, inputs, corrected);
    LastCorrectionCounts(c, e, carId, planId, service.recordId, inputs, corrected);
    hide CorrectAll;
  }

  lemma {:induction false} LastCorrectionCounts(
      c: Collection, e: Collection, carId: nat, planId: nat, recordId: nat, inputs: seq<Input>, stamp: Stamp)
    requires Ready(c, planId) && SetBaseline(c, e, planId, recordId)
    ensures var d := CorrectAll(e, carId, planId, recordId, inputs, stamp);
            planId in d.plans && d.plans[planId].baselineAt ==
              if inputs == [] then e.plans[planId].baselineAt else inputs[|inputs| - 1].performedAt
    decreases inputs
  {
    if inputs != [] {
      var next := Correct(e, carId, planId, recordId, inputs[0], stamp);
      CorrectionsKeepBaseline(c, e, carId, planId, recordId, inputs[..1], stamp);
      assert inputs[..1][1..] == [];
      LastCorrectionCounts(c, next, carId, planId, recordId, inputs[1..], stamp);
    }
  }

  // ----- archiving out of order -----

  /**
   Archiving the earlier of two services first undoes both exactly when they have one date, other than
   the plan's, or when the first had changed nothing: it had the plan's own date and session count.
   */
  lemma ForwardArchivingUndoesExactly(
      c: Collection, carId: nat, planId: nat, first: Service, second: Service, one: Stamp, two: Stamp)
    requires Ready(c, planId) && NewServices(c, [first, second])
    ensures var d := Complete(Complete(c, carId, planId, first), carId, planId, second);
            var e := Redo(Redo(d, carId, planId, first.recordId, Archive, one), carId, planId, second.recordId, Archive, two);
            var plan := c.plans[planId];
            e.plans == c.plans <==>
              || first.input.performedAt == second.input.performedAt != plan.baselineAt
              || (first.input.performedAt == plan.baselineAt && first.sessionCount == plan.baselineSessionCount)
  {
    assert [first, second][0] == first && [first, second][1] == second;
    NextServices(c, carId, planId, [first, second]);
    CompleteLeaves(c, carId, planId, first);
    CompleteLeaves(Complete(c, carId, planId, first), carId, planId, second);
    var d := Complete(Complete(c, carId, planId, first), carId, planId, second);
    var e := Redo(Redo(d, carId, planId, first.recordId, Archive, one), carId, planId, second.recordId, Archive, two);
    hide Complete;
    assert e.plans == c.plans[planId := e.plans[planId]];
    assert e.plans == c.plans <==> e.plans[planId] == c.plans[planId];
  }

  /** The baseline that the k-th of these services replaces. */
  function Replaced(c: Collection, planId: nat, services: seq<Service>, k: nat): (string, nat)
    requires planId in c.plans && k <= |services|
  {
    if k == 0 then (c.plans[planId].baselineAt, c.plans[planId].baselineSessionCount)
    else (services[k - 1].input.performedAt, services[k - 1].sessionCount)
  }

  /** After all the services the plan has the last one's baseline, and no other plan changed. */
  lemma {:induction false} CompletedPlan(c: Collection, carId: nat, planId: nat, services: seq<Service>)
    requires Ready(c, planId) && NewServices(c, services)
    ensures var d := CompleteAll(c, carId, planId, services);
            var (at, count) := Replaced(c, planId, services, |services|);
            d.plans == c.plans[planId := c.plans[planId].(baselineAt := at, baselineSessionCount := count)]
    decreases services
  {
    if services != [] {
      NextServices(c, carId, planId, services);
      CompleteLeaves(c, carId, planId, services[0]);
      hide Complete;
      CompletedPlan(Complete(c, carId, planId, services[0]), carId, planId, services[1..]);
    }
  }

  lemma {:induction false} CompletingKeepsRecords(c: Collection, carId: nat, planId: nat, services: seq<Service>, recordId: nat)
    requires Ready(c, planId) && NewServices(c, services) && recordId in c.records
    ensures var d := CompleteAll(c, carId, planId, services);
            recordId in d.records && d.records[recordId] == c.records[recordId]
    decreases services
  {
    if services != [] {
      NextServices(c, carId, planId, services);
      CompleteLeaves(c, carId, planId, services[0]);
      hide Complete;
      CompletingKeepsRecords(Complete(c, carId, planId, services[0]), carId, planId, services[1..], recordId);
    }
  }

  /** Each service's record remembers the baseline that the service replaced. */
  lemma {:induction false} CompletedRecord(c: Collection, carId: nat, planId: nat, services: seq<Service>, k: nat)
    requires Ready(c, planId) && NewServices(c, services) && k < |services|
    ensures var d := CompleteAll(c, carId, planId, services);
            var (at, count) := Replaced(c, planId, services, k);
            && services[k].recordId in d.records
            && var record := d.records[services[k].recordId];
               && record.baselineAt == services[k].input.performedAt
               && record.previousBaselineAt == Some(at) && record.previousBaselineSessionCount == Some(count)
    decreases services
  {
    NextServices(c, carId, planId, services);
    CompleteLeaves(c, carId, planId, services[0]);
    var next := Complete(c, carId, planId, services[0]);
    hide Complete;
    if k == 0 {
      CompletingKeepsRecords(next, carId, planId, services[1..], services[0].recordId);
    } else {
      CompletedRecord(next, carId, planId, services[1..], k - 1);
    }
  }

  /**
   After any number of services, archiving one of them leaves every plan alone exactly when the last
   service has another date than it, or when it had replaced the very baseline the plan has now;
   otherwise the plan goes back to what that service replaced, whatever came in between.
   */
  lemma ArchivingOneOfMany(
      c: Collection, carId: nat, planId: nat, services: seq<Service>, k: nat, stamp: Stamp)
    requires Ready(c, planId) && NewServices(c, services) && k < |services|
    ensures var d := CompleteAll(c, carId, planId, services);
            var e := Redo(d, carId, planId, services[k].recordId, Archive, stamp);
            var last := services[|services| - 1];
            var (at, count) := Replaced(c, planId, services, k);
            && (e.plans == d.plans <==>
                 || last.input.performedAt != services[k].input.performedAt
                 || (at == last.input.performedAt && count == last.sessionCount))
            && (last.input.performedAt == services[k].input.performedAt ==>
                 e.plans == c.plans[planId := c.plans[planId].(baselineAt := at, baselineSessionCount := count)])
  {
    CompletedPlan(c, carId, planId, services);
    CompletedRecord(c, carId, planId, services, k);
    var d := CompleteAll(c, carId, planId, services);
    var e := Redo(d, carId, planId, services[k].recordId, Archive, stamp);
    var record := d.records[services[k].recordId];
    var archive := ServiceChange(carId, Archive, services[k].recordId, Some(record), Some(d.plans[planId]), record.input);
    ArchiveMovesExactly(d, archive, stamp.now, stamp.sessionCount);
    hide CompleteAll, ApplyService;
    assert k > 0 ==> services[k - 1].input.performedAt != "";
    assert e.plans == d.plans[planId := e.plans[planId]];
    assert e.plans == d.plans <==> e.plans[planId] == d.plans[planId];
  }
}
