/**
 Owner Settings operations that a client may repeat: each is claimed by a receipt,
 applied by a guarded batch, and answered from the receipt.  Requests run
 concurrently; each statement or batch is one atomic step, and a request may stop
 after any of them.
 */
module SettingsSync {
  import opened Wrappers

  /** What a policy outside the model decides about a command's text is part of the command. */
  datatype Command =
    | Timezone(base: nat, timezone: nat, known: bool)
    | InviteCreate(code: Option<nat>)
    | InviteRevoke(inviteId: nat)

  datatype Key = Key(owner: nat, operation: nat)

  datatype Request = Request(key: Key, hash: nat, command: Command)

  datatype Body = TimezoneBody(timezone: nat) | InviteBody(id: nat, code: nat) | RevokedBody(id: nat)

  datatype Outcome = Pending | Applied(body: Body) | Rejected | Conflict(remote: nat)

  datatype Receipt = Receipt(hash: nat, outcome: Outcome)

  datatype InviteStatus = Available | Reserved | Redeemed | Revoked

  datatype Invite = Invite(code: nat, creator: nat, slot: Option<nat>, status: InviteStatus)

  datatype Answer = Replay(outcome: Outcome) | HashMismatch

  /** A request, by what it does next. */
  datatype Caller =
    | Reading(request: Request)
    | Deciding(request: Request)
    | TimezoneBatch(request: Request, current: nat)
    | TimezoneCheck(request: Request)
    | TimezoneRemote(request: Request)
    | Settling(request: Request, outcome: Outcome)
    | Finishing(request: Request)
    | Answered(request: Request, answer: Answer)

  datatype System = System(
    receipts: map<Key, Receipt>,
    owners: map<nat, nat>,             // timezone by owner
    invites: map<nat, Invite>,         // by invite id
    callers: map<nat, Caller>,
    effects: multiset<Key>)            // how often an operation's own write matched a row

  function Goes(s: System, pid: nat, c: Caller): System {
    s.(callers := s.callers[pid := c])
  }

  // ----- receipts -----

  predicate ReceiptPending(s: System, r: Request) {
    r.key in s.receipts && s.receipts[r.key] == Receipt(r.hash, Pending)
  }

  function Terminal(s: System, r: Request, outcome: Outcome, holds: bool): System {
    if ReceiptPending(s, r) && holds then s.(receipts := s.receipts[r.key := Receipt(r.hash, outcome)]) else s
  }

  function Claim(s: System, pid: nat, r: Request): System {
    if r.key in s.receipts then Goes(s, pid, Reading(r))
    else Goes(s.(receipts := s.receipts[r.key := Receipt(r.hash, Pending)]), pid, Deciding(r))
  }

  function ReadClaimed(s: System, pid: nat, r: Request): System
    requires r.key in s.receipts
  {
    var receipt := s.receipts[r.key];
    if receipt.hash != r.hash then Goes(s, pid, Answered(r, HashMismatch))
    else if !receipt.outcome.Pending? then Goes(s, pid, Answered(r, Replay(receipt.outcome)))
    else Goes(s, pid, Deciding(r))
  }

  function Finish(s: System, pid: nat, r: Request): System
    requires r.key in s.receipts
  {
    Goes(s, pid, Answered(r, Replay(s.receipts[r.key].outcome)))
  }

  // ----- timezone -----

  function DecideTimezone(s: System, pid: nat, r: Request): System
    requires r.command.Timezone?
  {
    if !r.command.known then Goes(s, pid, Settling(r, Rejected))
    else if r.key.owner !in s.owners then Goes(s, pid, Settling(r, Rejected))
    else
      var current := s.owners[r.key.owner];
      if current != r.command.base && current != r.command.timezone then Goes(s, pid, Settling(r, Conflict(current)))
      else Goes(s, pid, TimezoneBatch(r, current))
  }

  function WriteTimezone(s: System, r: Request, current: nat): System
    requires r.command.Timezone?
  {
    if r.key.owner in s.owners && s.owners[r.key.owner] == current && ReceiptPending(s, r)
    then s.(owners := s.owners[r.key.owner := r.command.timezone], effects := s.effects + multiset{r.key})
    else s
  }

  predicate TimezoneHolds(s: System, r: Request)
    requires r.command.Timezone?
  {
    r.key.owner in s.owners && s.owners[r.key.owner] == r.command.timezone
  }

  function BatchTimezone(s: System, r: Request, current: nat): System
    requires r.command.Timezone?
  {
    var written := WriteTimezone(s, r, current);
    Terminal(written, r, Applied(TimezoneBody(r.command.timezone)), TimezoneHolds(written, r))
  }

  function CheckTimezone(s: System, pid: nat, r: Request): System
    requires r.key in s.receipts
  {
    if s.receipts[r.key].outcome.Pending? then Goes(s, pid, TimezoneRemote(r))
    else Goes(s, pid, Answered(r, Replay(s.receipts[r.key].outcome)))
  }

  function ReadRemote(s: System, pid: nat, r: Request): System
    requires r.command.Timezone?
  {
    Goes(s, pid, Settling(r, Conflict(if r.key.owner in s.owners then s.owners[r.key.owner] else r.command.base)))
  }

  // ----- invites -----

  const SLOTS := 5

  predicate SlotFree(invites: map<nat, Invite>, creator: nat, slot: nat) {
    forall i :: i in invites ==> !(invites[i].creator == creator && invites[i].slot == Some(slot))
  }

  predicate CodeFree(invites: map<nat, Invite>, code: nat) {
    forall i :: i in invites ==> invites[i].code != code
  }

  /** One insert: the primary key, the code and the creator's slot are unique, and a conflict does nothing. */
  function InsertSlot(s: System, r: Request, code: nat, slot: nat): System {
    if r.key.owner in s.owners && ReceiptPending(s, r)
       && r.key.operation !in s.invites && CodeFree(s.invites, code) && SlotFree(s.invites, r.key.owner, slot)
    then s.(invites := s.invites[r.key.operation := Invite(code, r.key.owner, Some(slot), Available)],
            effects := s.effects + multiset{r.key})
    else s
  }

  /** The inserts of the batch from slot 1 up to `n`, in that order. */
  function InsertSlots(s: System, r: Request, code: nat, n: nat): System {
    if n == 0 then s else InsertSlot(InsertSlots(s, r, code, n - 1), r, code, n)
  }

  predicate InviteHolds(s: System, r: Request, code: nat) {
    r.key.operation in s.invites
    && s.invites[r.key.operation].creator == r.key.owner && s.invites[r.key.operation].code == code
  }

  function BatchCreate(s: System, r: Request, code: nat): System {
    var inserted := InsertSlots(s, r, code, SLOTS);
    var applied := Terminal(inserted, r, Applied(InviteBody(r.key.operation, code)), InviteHolds(inserted, r, code));
    Terminal(applied, r, Rejected, true)
  }

  predicate OwnInvite(s: System, r: Request, id: nat, status: InviteStatus) {
    id in s.invites && s.invites[id].creator == r.key.owner && s.invites[id].status == status
  }

  function WriteRevoke(s: System, r: Request, id: nat): System {
    if OwnInvite(s, r, id, Available) && ReceiptPending(s, r)
    then s.(invites := s.invites[id := s.invites[id].(status := Revoked)], effects := s.effects + multiset{r.key})
    else s
  }

  function BatchRevoke(s: System, r: Request, id: nat): System {
    var written := WriteRevoke(s, r, id);
    var applied := Terminal(written, r, Applied(RevokedBody(id)), OwnInvite(written, r, id, Revoked));
    Terminal(applied, r, Rejected, true)
  }

  function Decide(s: System, pid: nat, r: Request): System {
    match r.command
    case Timezone(_, _, _) => DecideTimezone(s, pid, r)
    case InviteCreate(None) => Goes(s, pid, Settling(r, Rejected))
    case InviteCreate(Some(code)) => Goes(BatchCreate(s, r, code), pid, Finishing(r))
    case InviteRevoke(id) => Goes(BatchRevoke(s, r, id), pid, Finishing(r))
  }

  // ----- steps -----

  datatype Step =
    | Begin(pid: nat, request: Request)
    | Proceed(pid: nat)
    | Stop(pid: nat)
    | OwnerChanges(owner: nat, timezone: Option<nat>)
    | InviteChanges(id: nat, status: InviteStatus)
    | InviteAppears(id: nat, code: nat, creator: nat, slot: nat)

  function Next(s: System, pid: nat, c: Caller): System
    requires c.request.key in s.receipts
    requires c.TimezoneBatch? || c.TimezoneRemote? ==> c.request.command.Timezone?
  {
    match c
    case Reading(r) => ReadClaimed(s, pid, r)
    case Deciding(r) => Decide(s, pid, r)
    case TimezoneBatch(r, current) => Goes(BatchTimezone(s, r, current), pid, TimezoneCheck(r))
    case TimezoneCheck(r) => CheckTimezone(s, pid, r)
    case TimezoneRemote(r) => ReadRemote(s, pid, r)
    case Settling(r, outcome) => Goes(Terminal(s, r, outcome, true), pid, Finishing(r))
    case Finishing(r) => Finish(s, pid, r)
    case Answered(_, _) => s
  }

  /** What makes a caller able to go on; every caller in a reachable state is. */
  predicate Runnable(s: System, c: Caller) {
    c.request.key in s.receipts && (c.TimezoneBatch? || c.TimezoneRemote? ==> c.request.command.Timezone?)
  }

  function Take(s: System, step: Step): System {
    match step
    case Begin(pid, r) => Claim(s, pid, r)
    case Proceed(pid) =>
      if pid in s.callers && Runnable(s, s.callers[pid]) then Next(s, pid, s.callers[pid]) else s
    case Stop(pid) => s.(callers := s.callers - {pid})
    case OwnerChanges(owner, timezone) =>
      if timezone.Some? then s.(owners := s.owners[owner := timezone.value]) else s.(owners := s.owners - {owner})
    case InviteChanges(id, status) =>
      if id in s.invites then s.(invites := s.invites[id := s.invites[id].(status := status)]) else s
    case InviteAppears(id, code, creator, slot) =>
      if id !in s.invites && CodeFree(s.invites, code) && 1 <= slot <= SLOTS && SlotFree(s.invites, creator, slot)
      then s.(invites := s.invites[id := Invite(code, creator, Some(slot), Available)]) else s
  }

  function Run(s: System, steps: seq<Step>): System
    decreases steps
  {
    if steps == [] then s else Run(Take(s, steps[0]), steps[1..])
  }

  function Opened(owners: map<nat, nat>): System {
    System(map[], owners, map[], map[], multiset{})
  }
}
