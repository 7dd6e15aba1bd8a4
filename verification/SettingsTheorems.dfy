/** The promises Settings synchronization keeps over every run from an opened account. */
module SettingsTheorems {
  import opened Wrappers
  import opened SettingsSync
  import opened SettingsSafety

  lemma OpenedInv(owners: map<nat, nat>)
    ensures Inv(Opened(owners))
  {
  }

  // ----- at most once -----

  /** An operation's own write matches a row at most once, and then its receipt says applied. */
  lemma EffectAtMostOnce(owners: map<nat, nat>, steps: seq<Step>, k: Key)
    ensures var s := Run(Opened(owners), steps);
            && s.effects[k] <= 1
            && (s.effects[k] == 1 ==> k in s.receipts && s.receipts[k].outcome.Applied?)
  {
    OpenedInv(owners);
    RunKeeps(Opened(owners), steps);
  }

  /** A receipt keeps its request hash, and once terminal never changes again. */
  lemma TerminalForever(s: System, steps: seq<Step>, k: Key)
    requires Inv(s) && k in s.receipts
    ensures var t := Run(s, steps);
            && k in t.receipts && t.receipts[k].hash == s.receipts[k].hash
            && (!s.receipts[k].outcome.Pending? ==> t.receipts[k] == s.receipts[k])
  {
    RunKeeps(s, steps);
  }

  /** Once an operation is terminal, nothing any request for it does has an effect again. */
  lemma {:induction false} NoEffectAfterTerminal(s: System, steps: seq<Step>, k: Key)
    requires Inv(s) && k in s.receipts && !s.receipts[k].outcome.Pending?
    ensures Run(s, steps).effects[k] == s.effects[k]
    decreases steps
  {
    hide Inv, Take;
    if steps != [] {
      StepKeeps(s, steps[0]);
      StepEffects(s, steps[0], k);
      NoEffectAfterTerminal(Take(s, steps[0]), steps[1..], k);
    }
  }

  lemma StepEffects(s: System, step: Step, k: Key)
    requires Inv(s) && k in s.receipts && !s.receipts[k].outcome.Pending?
    ensures Take(s, step).effects[k] == s.effects[k]
  {
    hide Inv, BatchTimezone, BatchCreate, BatchRevoke, CodeFree, SlotFree;
    if step.Proceed? && step.pid in s.callers {
      NextKeeps(s, step.pid);
      var c := s.callers[step.pid];
      if c.TimezoneBatch? {
        TimezoneBatchOk(s, c.request, c.current);
      } else if c.Deciding? {
        match c.request.command
        case InviteCreate(Some(code)) => CreateBatchOk(s, c.request, code);
        case InviteRevoke(id) => RevokeBatchOk(s, c.request, id);
        case _ =>
      }
    }
  }

  // ----- answers -----

  /** Every answer is the operation's one terminal receipt, or says that the receipt is another request's. */
  lemma AnswersAreTheReceipt(owners: map<nat, nat>, steps: seq<Step>, pid: nat)
    ensures var s := Run(Opened(owners), steps);
            pid in s.callers && s.callers[pid].Answered? ==>
              var c := s.callers[pid];
              && c.request.key in s.receipts
              && (match c.answer
                  case Replay(outcome) =>
                    s.receipts[c.request.key] == Receipt(c.request.hash, outcome) && !outcome.Pending?
                  case HashMismatch => s.receipts[c.request.key].hash != c.request.hash)
  {
    OpenedInv(owners);
    RunKeeps(Opened(owners), steps);
    var s := Run(Opened(owners), steps);
    if pid in s.callers {
      CallerIsOk(s, pid);
    }
  }

  /** Two requests for one operation with the same hash are answered alike, whenever they ran. */
  lemma RepeatedRequestsAgree(owners: map<nat, nat>, steps: seq<Step>, p: nat, q: nat)
    ensures var s := Run(Opened(owners), steps);
            p in s.callers && q in s.callers && s.callers[p].Answered? && s.callers[q].Answered?
              && s.callers[p].request.key == s.callers[q].request.key
              && s.callers[p].request.hash == s.callers[q].request.hash
            ==> s.callers[p].answer == s.callers[q].answer
  {
    AnswersAreTheReceipt(owners, steps, p);
    AnswersAreTheReceipt(owners, steps, q);
  }

  /** A request that goes on to replay always finds a terminal receipt. */
  lemma ReplayFindsATerminalReceipt(owners: map<nat, nat>, steps: seq<Step>, pid: nat)
    ensures var s := Run(Opened(owners), steps);
            pid in s.callers && s.callers[pid].Finishing? ==>
              s.callers[pid].request.key in s.receipts && !s.receipts[s.callers[pid].request.key].outcome.Pending?
  {
    OpenedInv(owners);
    RunKeeps(Opened(owners), steps);
    var s := Run(Opened(owners), steps);
    if pid in s.callers {
      CallerIsOk(s, pid);
    }
  }

  // ----- applied only where it holds -----

  /** What an applied receipt claims, on the rows themselves. */
  predicate Holds(s: System, k: Key, body: Body) {
    match body
    case TimezoneBody(timezone) => k.owner in s.owners && s.owners[k.owner] == timezone
    case InviteBody(id, code) =>
      id == k.operation && id in s.invites && s.invites[id].creator == k.owner && s.invites[id].code == code
    case RevokedBody(id) => id in s.invites && s.invites[id].creator == k.owner && s.invites[id].status == Revoked
  }

  lemma TerminalAppliesOnlyWhen(s: System, r: Request, outcome: Outcome, holds: bool, k: Key)
    requires k in Terminal(s, r, outcome, holds).receipts && Terminal(s, r, outcome, holds).receipts[k].outcome.Applied?
    requires k !in s.receipts || s.receipts[k] != Terminal(s, r, outcome, holds).receipts[k]
    ensures holds && k == r.key && Terminal(s, r, outcome, holds).receipts[k].outcome == outcome
  {
  }

  /** The receipt of `k` newly says applied. */
  predicate NewlyApplied(s: System, t: System, k: Key) {
    k in t.receipts && t.receipts[k].outcome.Applied? && (k !in s.receipts || s.receipts[k] != t.receipts[k])
  }

  lemma TimezoneAppliesWhereItHolds(s: System, r: Request, current: nat, k: Key)
    requires r.command.Timezone? && NewlyApplied(s, BatchTimezone(s, r, current), k)
    ensures Holds(BatchTimezone(s, r, current), k, BatchTimezone(s, r, current).receipts[k].outcome.body)
  {
  }

  lemma RejectionAppliesNothing(s: System, r: Request, k: Key)
    ensures !NewlyApplied(s, Terminal(s, r, Rejected, true), k)
    ensures Terminal(s, r, Rejected, true).invites == s.invites
    ensures k in Terminal(s, r, Rejected, true).receipts && Terminal(s, r, Rejected, true).receipts[k].outcome.Applied? ==>
              k in s.receipts && s.receipts[k] == Terminal(s, r, Rejected, true).receipts[k]
  {
  }

  lemma CreateAppliesWhereItHolds(s: System, r: Request, code: nat, k: Key)
    requires NewlyApplied(s, BatchCreate(s, r, code), k)
    ensures Holds(BatchCreate(s, r, code), k, BatchCreate(s, r, code).receipts[k].outcome.body)
  {
    var inserted := InsertSlots(s, r, code, SLOTS);
    var outcome := Applied(InviteBody(r.key.operation, code));
    var applied := Terminal(inserted, r, outcome, InviteHolds(inserted, r, code));
    InsertsComeWithTheirInvite(s, r, code);
    RejectionAppliesNothing(applied, r, k);
    hide InsertSlots;
    TerminalAppliesOnlyWhen(inserted, r, outcome, InviteHolds(inserted, r, code), k);
  }

  lemma RevokeAppliesWhereItHolds(s: System, r: Request, id: nat, k: Key)
    requires NewlyApplied(s, BatchRevoke(s, r, id), k)
    ensures Holds(BatchRevoke(s, r, id), k, BatchRevoke(s, r, id).receipts[k].outcome.body)
  {
    var written := WriteRevoke(s, r, id);
    var outcome := Applied(RevokedBody(id));
    var applied := Terminal(written, r, outcome, OwnInvite(written, r, id, Revoked));
    RejectionAppliesNothing(applied, r, k);
    TerminalAppliesOnlyWhen(written, r, outcome, OwnInvite(written, r, id, Revoked), k);
  }

  /** A receipt becomes applied only in the very step after which its claim holds. */
  lemma AppliedWhereItHolds(s: System, step: Step, k: Key)
    requires Inv(s) && NewlyApplied(s, Take(s, step), k)
    ensures Holds(Take(s, step), k, Take(s, step).receipts[k].outcome.body)
  {
    hide BatchTimezone, BatchCreate, BatchRevoke, Holds, EffectsOk, CodeFree, SlotFree;
    if step.Proceed? && step.pid in s.callers {
      CallerIsOk(s, step.pid);
      var c := s.callers[step.pid];
      var r := c.request;
      if c.TimezoneBatch? {
        TimezoneAppliesWhereItHolds(s, r, c.current, k);
        SameRows(BatchTimezone(s, r, c.current), Take(s, step), k);
      } else if c.Deciding? {
        match r.command
        case InviteCreate(Some(code)) =>
          CreateAppliesWhereItHolds(s, r, code, k);
          SameRows(BatchCreate(s, r, code), Take(s, step), k);
        case InviteRevoke(id) =>
          RevokeAppliesWhereItHolds(s, r, id, k);
          SameRows(BatchRevoke(s, r, id), Take(s, step), k);
        case _ =>
      }
    }
  }

  lemma SameRows(s: System, t: System, k: Key)
    requires t.owners == s.owners && t.invites == s.invites
    ensures forall body :: Holds(s, k, body) ==> Holds(t, k, body)
  {
  }

  // ----- the reviewed base -----

  /** An operation's timezone write replaces the reviewed base or the same value, and nothing of another owner. */
  lemma TimezoneReplacesReviewed(owners: map<nat, nat>, steps: seq<Step>, step: Step, owner: nat)
    requires !step.OwnerChanges?
    ensures var s := Run(Opened(owners), steps);
            var t := Take(s, step);
            && t.owners.Keys == s.owners.Keys
            && (owner in s.owners && t.owners[owner] != s.owners[owner] ==>
                 && step.Proceed? && step.pid in s.callers
                 && var r := s.callers[step.pid].request;
                    && r.command.Timezone? && r.key.owner == owner
                    && s.owners[owner] == r.command.base && t.owners[owner] == r.command.timezone
                    && r.key in t.receipts && t.receipts[r.key] == Receipt(r.hash, Applied(TimezoneBody(r.command.timezone))))
  {
    OpenedInv(owners);
    RunKeeps(Opened(owners), steps);
    var s := Run(Opened(owners), steps);
    if step.Proceed? && step.pid in s.callers {
      CallerIsOk(s, step.pid);
      NextReplacesReviewed(s, step.pid, owner);
    }
  }

  lemma InviteBatchesLeaveOwners(s: System, r: Request, code: nat, id: nat)
    ensures BatchCreate(s, r, code).owners == s.owners && BatchRevoke(s, r, id).owners == s.owners
  {
    InsertsTakeFirstFree(s, r, code, SLOTS);
    hide InsertSlots, SlotFree, CodeFree;
  }

  lemma NextReplacesReviewed(s: System, pid: nat, owner: nat)
    requires pid in s.callers && CallerOk(s, s.callers[pid])
    ensures var r := s.callers[pid].request;
            var t := Next(s, pid, s.callers[pid]);
            && t.owners.Keys == s.owners.Keys
            && (owner in s.owners && t.owners[owner] != s.owners[owner] ==>
                 && r.command.Timezone? && r.key.owner == owner
                 && s.owners[owner] == r.command.base && t.owners[owner] == r.command.timezone
                 && r.key in t.receipts && t.receipts[r.key] == Receipt(r.hash, Applied(TimezoneBody(r.command.timezone))))
  {
    hide BatchCreate, BatchRevoke;
    var r := s.callers[pid].request;
    match r.command
    case InviteCreate(Some(code)) => InviteBatchesLeaveOwners(s, r, code, 0);
    case InviteRevoke(id) => InviteBatchesLeaveOwners(s, r, 0, id);
    case _ =>
  }

  // ----- the invite allowance -----

  /**
   An invite is created exactly when the identifier and the code are unused, the owner exists and one
   of five slots is free.  The operation is applied exactly then, or when the identifier already names
   an invite of this owner with this code; otherwise it is rejected.
   */
  lemma InviteCreatedExactly(s: System, r: Request, code: nat)
    requires ReceiptPending(s, r)
    ensures var t := BatchCreate(s, r, code);
            var creates :=
              && r.key.operation !in s.invites && r.key.owner in s.owners && code !in CodesOf(s.invites)
              && exists slot :: 1 <= slot <= 5 && Some(slot) !in SlotsOf(s.invites, r.key.owner);
            && (t.invites != s.invites <==> creates)
            && (creates ==> t.invites.Keys == s.invites.Keys + {r.key.operation}
                            && (forall i :: i in s.invites ==> t.invites[i] == s.invites[i]))
            && r.key in t.receipts
            && t.receipts[r.key].outcome ==
                 if creates || InviteHolds(s, r, code) then Applied(InviteBody(r.key.operation, code)) else Rejected
  {
    InsertsTakeFirstFree(s, r, code, SLOTS);
    FreeMeans(s.invites, r.key.owner, code);
    hide InsertSlots, SlotFree, CodeFree, SlotsOf, CodesOf;
    var t := InsertSlots(s, r, code, SLOTS);
    assert t.invites != s.invites ==> r.key.operation in t.invites && r.key.operation !in s.invites;
  }

  /** Slots are numbered 1 to 5, no creator has two invites in one slot, and no code is used twice. */
  ghost predicate SlotsOk(invites: map<nat, Invite>) {
    && (forall i :: i in invites && invites[i].slot.Some? ==> 1 <= invites[i].slot.value <= SLOTS)
    && (forall i, j :: i in invites && j in invites && i != j && invites[i].creator == invites[j].creator
                       && invites[i].slot.Some?
                       ==> invites[i].slot != invites[j].slot)
    && (forall i, j :: i in invites && j in invites && i != j ==> invites[i].code != invites[j].code)
  }

  lemma AddingKeepsSlots(invites: map<nat, Invite>, id: nat, code: nat, creator: nat, slot: nat)
    requires SlotsOk(invites) && id !in invites && 1 <= slot <= SLOTS
    requires CodeFree(invites, code) && SlotFree(invites, creator, slot)
    ensures SlotsOk(invites[id := Invite(code, creator, Some(slot), Available)])
  {
  }

  lemma ChangingKeepsSlots(invites: map<nat, Invite>, id: nat, status: InviteStatus)
    requires SlotsOk(invites) && id in invites
    ensures SlotsOk(invites[id := invites[id].(status := status)])
  {
  }

  lemma CreateKeepsSlots(s: System, r: Request, code: nat)
    requires SlotsOk(s.invites)
    ensures SlotsOk(BatchCreate(s, r, code).invites)
  {
    InsertsTakeFirstFree(s, r, code, SLOTS);
    var t := InsertSlots(s, r, code, SLOTS);
    hide InsertSlots, SlotsOk, SlotFree, CodeFree;
    if t.invites != s.invites {
      AddingKeepsSlots(s.invites, r.key.operation, code, r.key.owner, t.invites[r.key.operation].slot.value);
    }
  }

  lemma StepKeepsSlots(s: System, step: Step)
    requires SlotsOk(s.invites)
    ensures SlotsOk(Take(s, step).invites)
  {
    hide BatchCreate, SlotsOk, SlotFree, CodeFree;
    match step
    case InviteChanges(id, status) => if id in s.invites { ChangingKeepsSlots(s.invites, id, status); }
    case InviteAppears(id, code, creator, slot) =>
      if Take(s, step) != s { AddingKeepsSlots(s.invites, id, code, creator, slot); }
    case Proceed(pid) =>
      if pid in s.callers && s.callers[pid].Deciding? {
        var r := s.callers[pid].request;
        match r.command
        case InviteCreate(Some(code)) => CreateKeepsSlots(s, r, code);
        case InviteRevoke(id) => if id in s.invites { ChangingKeepsSlots(s.invites, id, Revoked); }
        case _ =>
      }
    case _ =>
  }

  lemma {:induction false} RunKeepsSlots(s: System, steps: seq<Step>)
    requires SlotsOk(s.invites)
    ensures SlotsOk(Run(s, steps).invites)
    decreases steps
  {
    hide SlotsOk, Take;
    if steps != [] {
      StepKeepsSlots(s, steps[0]);
      RunKeepsSlots(Take(s, steps[0]), steps[1..]);
    }
  }

  /** The invites of a creator in slots up to `n`. */
  function Slotted(invites: map<nat, Invite>, creator: nat, n: nat): set<nat> {
    set i | i in invites && invites[i].creator == creator && invites[i].slot.Some? && invites[i].slot.value <= n
  }

  lemma {:induction false} AtMostOnePerSlot(invites: map<nat, Invite>, creator: nat, n: nat)
    requires SlotsOk(invites)
    ensures |Slotted(invites, creator, n)| <= n
  {
    if n == 0 {
      assert Slotted(invites, creator, 0) == {};
    } else {
      AtMostOnePerSlot(invites, creator, n - 1);
      var before := Slotted(invites, creator, n - 1);
      var now := Slotted(invites, creator, n);
      if i :| i in now && i !in before {
        assert now == before + {i};
      } else {
        assert now == before;
      }
    }
  }

  /** Whatever runs, no creator ever has more than five invites made in slots. */
  lemma AllowanceHolds(owners: map<nat, nat>, steps: seq<Step>, creator: nat)
    ensures |Slotted(Run(Opened(owners), steps).invites, creator, SLOTS)| <= 5
  {
    RunKeepsSlots(Opened(owners), steps);
    AtMostOnePerSlot(Run(Opened(owners), steps).invites, creator, SLOTS);
  }
}
