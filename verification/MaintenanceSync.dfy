/**
 Services move a maintenance plan's baseline, and each record keeps the baseline it
 replaced, so that archiving can undo it and restoring can do it again.
 */
module MaintenanceSync {
  import opened Wrappers

  /** `details` are the plan's fields that no service touches. */
  datatype Plan = Plan(id: nat, baselineAt: string, baselineSessionCount: nat, details: nat)

  /** What a user enters for a service; `notes` are the fields that no rule reads. */
  datatype Input = Input(performedAt: string, notes: nat)

  datatype Record = Record(
    id: nat,
    carId: nat,
    input: Input,
    planId: Option<nat>,
    baselineAt: string,
    baselineSessionCount: Option<nat>,
    previousBaselineAt: Option<string>,
    previousBaselineSessionCount: Option<nat>,
    deletedAt: Option<string>)

  datatype Action = Save | Archive | Restore

  datatype ServiceChange = ServiceChange(
    carId: nat, action: Action, recordId: nat, base: Option<Record>, planBase: Option<Plan>, input: Input)

  datatype Collection = Collection(plans: map<nat, Plan>, records: map<nat, Record>)

  function OrElse<T>(value: Option<T>, other: Option<T>): Option<T> {
    if value.Some? then value else other
  }

  function OrZero(value: Option<nat>): nat {
    if value.Some? then value.value else 0
  }

  function RecordOf(change: ServiceChange, now: string, sessionCount: nat): Record {
    var base := change.base;
    var plan := change.planBase;
    var input := if change.action == Save || base.None? then change.input else base.value.input;
    Record(
      change.recordId,
      change.carId,
      input,
      if plan.Some? then Some(plan.value.id) else None,
      input.performedAt,
      OrElse(if base.Some? then base.value.baselineSessionCount else None, if plan.Some? then Some(sessionCount) else None),
      OrElse(if base.Some? then base.value.previousBaselineAt else None,
             if plan.Some? then Some(plan.value.baselineAt) else None),
      OrElse(if base.Some? then base.value.previousBaselineSessionCount else None,
             if plan.Some? then Some(plan.value.baselineSessionCount) else None),
      if change.action == Archive then Some(now) else None)
  }

  /** The plan a service leaves, when it moves the baseline. */
  function PlanAfter(change: ServiceChange, plan: Plan, baselineAt: string, sessionCount: nat): Option<Plan> {
    if change.base.None? then Some(plan.(baselineAt := baselineAt, baselineSessionCount := sessionCount))
    else
      var base := change.base.value;
      if change.action == Archive && plan.baselineAt == base.baselineAt
         && base.previousBaselineAt.Some? && base.previousBaselineAt.value != ""
      then Some(plan.(baselineAt := base.previousBaselineAt.value,
                      baselineSessionCount := OrZero(base.previousBaselineSessionCount)))
      else if change.action == Restore && Some(plan.baselineAt) == base.previousBaselineAt
      then Some(plan.(baselineAt := base.baselineAt, baselineSessionCount := OrZero(base.baselineSessionCount)))
      else if change.action == Save && plan.baselineAt == base.baselineAt then Some(plan.(baselineAt := baselineAt))
      else None
  }

  function ApplyService(c: Collection, change: ServiceChange, now: string, sessionCount: nat): Collection {
    var record := RecordOf(change, now, sessionCount);
    var records := c.records[record.id := record];
    if change.planBase.None? then Collection(c.plans, records)
    else
      var plan := change.planBase.value;
      var after := PlanAfter(change, plan, record.baselineAt, sessionCount);
      Collection(if after.Some? then c.plans[plan.id := after.value] else c.plans, records)
  }

  // ----- one plan's services, each made on the plan as it is -----

  datatype Service = Service(recordId: nat, input: Input, sessionCount: nat, now: string)

  function Complete(c: Collection, carId: nat, planId: nat, service: Service): (d: Collection)
    requires planId in c.plans && c.plans[planId].id == planId
    ensures planId in d.plans && d.plans[planId].id == planId
  {
    var change := ServiceChange(carId, Save, service.recordId, None, Some(c.plans[planId]), service.input);
    ApplyService(c, change, service.now, service.sessionCount)
  }

  /** When a step is made, and how many sessions there are then. */
  datatype Stamp = Stamp(now: string, sessionCount: nat)

  /** Archive or restore a record as it is, on the plan as it is. */
  function Redo(c: Collection, carId: nat, planId: nat, recordId: nat, action: Action, stamp: Stamp): Collection {
    if planId !in c.plans || recordId !in c.records then c
    else
      var record := c.records[recordId];
      var change := ServiceChange(carId, action, recordId, Some(record), Some(c.plans[planId]), record.input);
      ApplyService(c, change, stamp.now, stamp.sessionCount)
  }

  function CompleteAll(c: Collection, carId: nat, planId: nat, services: seq<Service>): Collection
    requires planId in c.plans && c.plans[planId].id == planId
    decreases services
  {
    if services == [] then c else CompleteAll(Complete(c, carId, planId, services[0]), carId, planId, services[1..])
  }

  /** Archive the records of these services, the last one first. */
  function ArchiveAll(c: Collection, carId: nat, planId: nat, services: seq<Service>, stamps: nat -> Stamp): Collection
    decreases services
  {
    if services == [] then c
    else
      var service := services[0];
      Redo(ArchiveAll(c, carId, planId, services[1..], stamps), carId, planId, service.recordId, Archive,
           stamps(service.recordId))
  }

  /** Restore the records of these services in order. */
  function RestoreAll(c: Collection, carId: nat, planId: nat, services: seq<Service>, stamps: nat -> Stamp): Collection
    decreases services
  {
    if services == [] then c
    else
      var service := services[0];
      RestoreAll(Redo(c, carId, planId, service.recordId, Restore, stamps(service.recordId)),
                 carId, planId, services[1..], stamps)
  }

  /** The plan is the collection's, under its own identifier, with a real date. */
  predicate Ready(c: Collection, planId: nat) {
    planId in c.plans && c.plans[planId].id == planId && c.plans[planId].baselineAt != ""
  }

  /** New records with real dates, each under its own free identifier. */
  predicate NewServices(c: Collection, services: seq<Service>) {
    && (forall i :: 0 <= i < |services| ==> services[i].recordId !in c.records && services[i].input.performedAt != "")
    && (forall i, j :: 0 <= i < j < |services| ==> services[i].recordId != services[j].recordId)
  }
}
