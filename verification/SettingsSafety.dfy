/** What any interleaving, crash or repetition of Settings operations keeps. */
module SettingsSafety {
  import opened Wrappers
  import opened SettingsSync

  // ----- one step on the receipts -----

  /** Receipts stay, keep their hash, and once terminal never change. */
  ghost predicate ReceiptsGrow(s: System, t: System) {
    forall k :: k in s.receipts ==>
      k in t.receipts && t.receipts[k].hash == s.receipts[k].hash
      && (s.receipts[k].outcome.Pending? || t.receipts[k] == s.receipts[k])
  }

  /** Each effect so far is on an operation that is applied, and there is at most one. */
  ghost predicate EffectsOk(s: System) {
    forall k :: s.effects[k] <= 1 && (s.effects[k] == 1 ==> k in s.receipts && s.receipts[k].outcome.Applied?)
  }

  ghost predicate CallerOk(s: System, c: Caller) {
    && Runnable(s, c)
    && (!c.Reading? && !c.Answered? ==> s.receipts[c.request.key].hash == c.request.hash)
    && (c.TimezoneBatch? ==> c.current == c.request.command.base || c.current == c.request.command.timezone)
    && (c.TimezoneCheck? ==> c.request.command.Timezone?)
    && (c.Settling? ==> !c.outcome.Pending? && !c.outcome.Applied?)
    && (c.Finishing? ==> !s.receipts[c.request.key].outcome.Pending?)
    && (c.Answered? && c.answer.HashMismatch? ==> s.receipts[c.request.key].hash != c.request.hash)
    && (c.Answered? && c.answer.Replay? ==>
         s.receipts[c.request.key] == Receipt(c.request.hash, c.answer.outcome) && !c.answer.outcome.Pending?)
  }

  ghost predicate CallersOk(s: System) {
    forall pid :: pid in s.callers ==> CallerOk(s, s.callers[pid])
  }

  ghost predicate Inv(s: System) {
    EffectsOk(s) && CallersOk(s)
  }

  lemma CallerIsOk(s: System, pid: nat)
    requires CallersOk(s) && pid in s.callers
    ensures CallerOk(s, s.callers[pid])
  {
  }

  lemma CallerStable(s: System, t: System, c: Caller)
    requires ReceiptsGrow(s, t) && CallerOk(s, c)
    ensures CallerOk(t, c)
  {
  }

  lemma CallersStable(s: System, t: System)
    requires CallersOk(s) && ReceiptsGrow(s, t)
    requires forall pid :: pid in t.callers ==>
               (pid in s.callers && t.callers[pid] == s.callers[pid]) || CallerOk(t, t.callers[pid])
    ensures CallersOk(t)
  {
    hide CallerOk, ReceiptsGrow;
    forall pid | pid in t.callers ensures CallerOk(t, t.callers[pid]) {
      if pid in s.callers && t.callers[pid] == s.callers[pid] {
        CallerIsOk(s, pid);
        CallerStable(s, t, s.callers[pid]);
      }
    }
  }

  // ----- one batch -----

  /** A batch changes nothing about any other operation, and its own effect comes with an applied receipt. */
  ghost predicate BatchOk(s: System, t: System, r: Request) {
    && t.callers == s.callers
    && (forall k :: k in s.receipts && k != r.key ==> k in t.receipts && t.receipts[k] == s.receipts[k])
    && r.key in t.receipts && t.receipts[r.key].hash == r.hash
    && (if ReceiptPending(s, r) then t.effects == s.effects || t.effects == s.effects + multiset{r.key}
        else t == s)
    && (t.effects != s.effects ==> t.receipts[r.key].outcome.Applied?)
  }

  lemma BatchKeepsOrder(s: System, t: System, r: Request)
    requires BatchOk(s, t, r) && EffectsOk(s) && r.key in s.receipts
    ensures ReceiptsGrow(s, t) && EffectsOk(t)
  {
    if ReceiptPending(s, r) {
      assert s.effects[r.key] == 0;
    }
  }

  lemma TimezoneBatchOk(s: System, r: Request, current: nat)
    requires r.command.Timezone? && r.key in s.receipts && s.receipts[r.key].hash == r.hash
    ensures BatchOk(s, BatchTimezone(s, r, current), r)
  {
  }

  function CodesOf(invites: map<nat, Invite>): set<nat> {
    set i | i in invites :: invites[i].code
  }

  /** The slots that a creator's invites stand in. */
  function SlotsOf(invites: map<nat, Invite>, creator: nat): set<Option<nat>> {
    set i | i in invites && invites[i].creator == creator :: invites[i].slot
  }

  lemma FreeMeans(invites: map<nat, Invite>, creator: nat, code: nat)
    ensures CodeFree(invites, code) <==> code !in CodesOf(invites)
    ensures forall slot: nat :: SlotFree(invites, creator, slot) <==> Some(slot) !in SlotsOf(invites, creator)
  {
  }

  /** Of the five inserts at most one takes effect: the first free slot's. */
  lemma {:induction false} InsertsTakeFirstFree(s: System, r: Request, code: nat, n: nat)
    ensures var t := InsertSlots(s, r, code, n);
            && t.receipts == s.receipts && t.owners == s.owners && t.callers == s.callers
            && (if t.invites == s.invites then
                  && t == s
                  && (r.key.owner in s.owners && ReceiptPending(s, r) && r.key.operation !in s.invites
                      && CodeFree(s.invites, code) ==>
                        forall k :: 1 <= k <= n ==> !SlotFree(s.invites, r.key.owner, k))
                else
                  && r.key.owner in s.owners && ReceiptPending(s, r)
                  && r.key.operation !in s.invites && r.key.operation in t.invites && CodeFree(s.invites, code)
                  && t.effects == s.effects + multiset{r.key}
                  && var slot := t.invites[r.key.operation].slot;
                     && slot.Some? && 1 <= slot.value <= n
                     && t.invites == s.invites[r.key.operation := Invite(code, r.key.owner, slot, Available)]
                     && SlotFree(s.invites, r.key.owner, slot.value)
                     && forall k :: 1 <= k < slot.value ==> !SlotFree(s.invites, r.key.owner, k))
  {
    hide SlotFree, CodeFree;
    if n > 0 {
      InsertsTakeFirstFree(s, r, code, n - 1);
    }
  }

  lemma CreateBatchOk(s: System, r: Request, code: nat)
    requires r.key in s.receipts && s.receipts[r.key].hash == r.hash
    ensures BatchOk(s, BatchCreate(s, r, code), r) && !BatchCreate(s, r, code).receipts[r.key].outcome.Pending?
  {
    InsertsComeWithTheirInvite(s, r, code);
    hide InsertSlots, InviteHolds;
  }

  lemma InsertsComeWithTheirInvite(s: System, r: Request, code: nat)
    ensures var t := InsertSlots(s, r, code, SLOTS);
            && t.receipts == s.receipts && t.callers == s.callers
            && (!ReceiptPending(s, r) ==> t == s)
            && (t.effects == s.effects || (t.effects == s.effects + multiset{r.key} && InviteHolds(t, r, code)))
  {
    InsertsTakeFirstFree(s, r, code, SLOTS);
    hide InsertSlots, SlotFree, CodeFree;
  }

  lemma RevokeBatchOk(s: System, r: Request, id: nat)
    requires r.key in s.receipts && s.receipts[r.key].hash == r.hash
    ensures BatchOk(s, BatchRevoke(s, r, id), r) && !BatchRevoke(s, r, id).receipts[r.key].outcome.Pending?
  {
  }

  // ----- one step -----

  lemma BatchThenGoes(s: System, t: System, pid: nat, c: Caller)
    requires Inv(s) && c.request.key in s.receipts && BatchOk(s, t, c.request)
    requires CallerOk(t, c)
    ensures Inv(Goes(t, pid, c)) && ReceiptsGrow(s, Goes(t, pid, c))
  {
    BatchKeepsOrder(s, t, c.request);
    var u := Goes(t, pid, c);
    assert CallerOk(u, c);
    hide CallerOk, BatchOk;
    CallersStable(s, u);
  }

  lemma DecideKeeps(s: System, pid: nat, r: Request)
    requires Inv(s) && CallerOk(s, Deciding(r))
    ensures Inv(Decide(s, pid, r)) && ReceiptsGrow(s, Decide(s, pid, r))
  {
    hide Inv, BatchCreate, BatchRevoke;
    match r.command
    case InviteCreate(Some(code)) =>
      CreateBatchOk(s, r, code);
      BatchThenGoes(s, BatchCreate(s, r, code), pid, Finishing(r));
    case InviteRevoke(id) =>
      RevokeBatchOk(s, r, id);
      BatchThenGoes(s, BatchRevoke(s, r, id), pid, Finishing(r));
    case _ =>
      BatchThenGoes(s, s, pid, Decide(s, pid, r).callers[pid]);
  }

  lemma SettleOk(s: System, r: Request, outcome: Outcome)
    requires r.key in s.receipts && s.receipts[r.key].hash == r.hash && !outcome.Pending?
    ensures BatchOk(s, Terminal(s, r, outcome, true), r)
    ensures !Terminal(s, r, outcome, true).receipts[r.key].outcome.Pending?
  {
  }

  lemma NextKeeps(s: System, pid: nat)
    requires Inv(s) && pid in s.callers
    ensures CallerOk(s, s.callers[pid])
    ensures var t := Next(s, pid, s.callers[pid]); Inv(t) && ReceiptsGrow(s, t)
  {
    var c := s.callers[pid];
    CallerIsOk(s, pid);
    hide Inv, EffectsOk, CallersOk, Decide, BatchTimezone, Terminal;
    match c
    case Deciding(r) => DecideKeeps(s, pid, r);
    case TimezoneBatch(r, current) =>
      TimezoneBatchOk(s, r, current);
      BatchThenGoes(s, BatchTimezone(s, r, current), pid, TimezoneCheck(r));
    case Settling(r, outcome) =>
      SettleOk(s, r, outcome);
      BatchThenGoes(s, Terminal(s, r, outcome, true), pid, Finishing(r));
    case Answered(_, _) =>
    case Reading(r) => ReadingKeeps(s, pid);
    case _ =>
      BatchThenGoes(s, s, pid, Next(s, pid, c).callers[pid]);
  }

  lemma ReadingKeeps(s: System, pid: nat)
    requires Inv(s) && pid in s.callers && s.callers[pid].Reading? && Runnable(s, s.callers[pid])
    ensures var t := Next(s, pid, s.callers[pid]); Inv(t) && ReceiptsGrow(s, t)
  {
    var t := Next(s, pid, s.callers[pid]);
    assert CallerOk(t, t.callers[pid]);
    hide CallerOk;
    CallersStable(s, t);
  }

  lemma OutsideKeeps(s: System, t: System)
    requires Inv(s) && t.receipts == s.receipts && t.effects == s.effects
    requires forall pid :: pid in t.callers ==> pid in s.callers && t.callers[pid] == s.callers[pid]
    ensures Inv(t) && ReceiptsGrow(s, t)
  {
    hide CallerOk;
    CallersStable(s, t);
  }

  lemma ClaimGrows(s: System, pid: nat, r: Request)
    requires EffectsOk(s)
    ensures ReceiptsGrow(s, Claim(s, pid, r)) && EffectsOk(Claim(s, pid, r))
  {
  }

  lemma ClaimKeeps(s: System, pid: nat, r: Request)
    requires Inv(s)
    ensures Inv(Claim(s, pid, r)) && ReceiptsGrow(s, Claim(s, pid, r))
  {
    var t := Claim(s, pid, r);
    ClaimGrows(s, pid, r);
    hide EffectsOk, ReceiptsGrow, CallersOk;
    assert CallerOk(t, t.callers[pid]);
    hide CallerOk;
    CallersStable(s, t);
  }

  lemma StepKeeps(s: System, step: Step)
    requires Inv(s)
    ensures Inv(Take(s, step)) && ReceiptsGrow(s, Take(s, step))
  {
    hide Inv, Next, Claim, ReceiptsGrow, CodeFree, SlotFree;
    match step
    case Proceed(pid) =>
      OutsideKeeps(s, s);
      if pid in s.callers { NextKeeps(s, pid); }
    case Begin(pid, r) => ClaimKeeps(s, pid, r);
    case _ => OutsideKeeps(s, Take(s, step));
  }

  lemma {:induction false} RunKeeps(s: System, steps: seq<Step>)
    requires Inv(s)
    ensures Inv(Run(s, steps)) && ReceiptsGrow(s, Run(s, steps))
    decreases steps
  {
    hide Inv, Take, ReceiptsGrow;
    if steps != [] {
      StepKeeps(s, steps[0]);
      RunKeeps(Take(s, steps[0]), steps[1..]);
      GrowthChains(s, Take(s, steps[0]), Run(s, steps));
    } else {
      GrowthChains(s, s, s);
    }
  }

  lemma GrowthChains(s: System, t: System, u: System)
    requires (ReceiptsGrow(s, t) && ReceiptsGrow(t, u)) || (s == t == u)
    ensures ReceiptsGrow(s, u)
  {
  }
}
