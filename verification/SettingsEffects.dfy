/** What each Settings operation does and answers when nothing else runs, and after a change in between. */
module SettingsEffects {
  import opened Wrappers
  import opened SettingsSync
  import opened SettingsSafety

  function Proceeds(s: System, pid: nat, n: nat): System {
    if n == 0 then s else Take(Proceeds(s, pid, n - 1), Proceed(pid))
  }

  lemma ProceedsFirst(s: System, pid: nat, n: nat)
    requires n > 0
    ensures Proceeds(s, pid, n) == Proceeds(Take(s, Proceed(pid)), pid, n - 1)
  {
    hide Take;
    if n > 1 {
      ProceedsFirst(s, pid, n - 1);
    } else {
      assert Proceeds(s, pid, 0) == s;
    }
  }

  /** The request is at this point, and its operation is still open. */
  predicate At(s: System, pid: nat, c: Caller) {
    pid in s.callers && s.callers[pid] == c && ReceiptPending(s, c.request)
  }

  /** The operation has ended with this outcome, and its request was told so; the other receipts and requests stay. */
  predicate Ended(s: System, t: System, pid: nat, r: Request, outcome: Outcome) {
    && t.receipts == s.receipts[r.key := Receipt(r.hash, outcome)]
    && t.callers == s.callers[pid := Answered(r, Replay(outcome))]
  }

  // ----- beginning -----

  /** A new operation is claimed and decided; a repeated one is answered from its receipt, or goes on while it is open. */
  lemma BeginsExactly(s: System, pid: nat, r: Request)
    ensures var t := Take(s, Begin(pid, r));
            var u := Take(t, Proceed(pid));
            if r.key !in s.receipts then
              && t.receipts == s.receipts[r.key := Receipt(r.hash, Pending)] && At(t, pid, Deciding(r))
              && t.owners == s.owners && t.invites == s.invites
            else
              && u.receipts == s.receipts && u.owners == s.owners && u.invites == s.invites && pid in u.callers
              && var receipt := s.receipts[r.key];
                 u.callers[pid] == if receipt.hash != r.hash then Answered(r, HashMismatch)
                                   else if receipt.outcome.Pending? then Deciding(r)
                                   else Answered(r, Replay(receipt.outcome))
  {
  }

  // ----- settling -----

  lemma SettlingEnds(s: System, pid: nat, r: Request, outcome: Outcome)
    requires At(s, pid, Settling(r, outcome))
    ensures var t := Proceeds(s, pid, 2);
            Ended(s, t, pid, r, outcome) && t.owners == s.owners && t.invites == s.invites
  {
    var settled := s.(receipts := s.receipts[r.key := Receipt(r.hash, outcome)], callers := s.callers[pid := Finishing(r)]);
    assert Proceeds(s, pid, 1) == Take(s, Proceed(pid)) == settled;
    assert Take(settled, Proceed(pid)) == settled.(callers := settled.callers[pid := Answered(r, Replay(outcome))]);
    assert settled.callers[pid := Answered(r, Replay(outcome))] == s.callers[pid := Answered(r, Replay(outcome))];
  }

  // ----- timezones -----

  /** The zone there is, if the owner is there. */
  function Zone(s: System, owner: nat): Option<nat> {
    if owner in s.owners then Some(s.owners[owner]) else None
  }

  /** What becomes of a timezone operation when nothing else runs. */
  function TimezoneOutcome(zone: Option<nat>, base: nat, timezone: nat, known: bool): Outcome {
    if !known || zone.None? then Rejected
    else if zone == Some(base) || zone == Some(timezone) then Applied(TimezoneBody(timezone))
    else Conflict(zone.value)
  }

  /**
   A timezone is changed, and said to be, exactly when both zones are known, the owner is there and has
   the reviewed zone or already the new one; with any third zone the answer is a conflict that names it.
   */
  lemma TimezoneAlone(s: System, pid: nat, r: Request)
    requires r.command.Timezone? && At(s, pid, Deciding(r))
    ensures var t := Proceeds(s, pid, 3);
            var outcome := TimezoneOutcome(Zone(s, r.key.owner), r.command.base, r.command.timezone, r.command.known);
            && Ended(s, t, pid, r, outcome) && t.invites == s.invites
            && t.owners == if outcome.Applied? then s.owners[r.key.owner := r.command.timezone] else s.owners
  {
    hide Take, Proceeds, Ended;
    TimezoneDecides(s, pid, r);
    ProceedsFirst(s, pid, 3);
    var outcome := TimezoneOutcome(Zone(s, r.key.owner), r.command.base, r.command.timezone, r.command.known);
    var next := if outcome.Applied? then TimezoneBatch(r, s.owners[r.key.owner]) else Settling(r, outcome);
    MovesOn(s, pid, next, r, outcome, Proceeds(s, pid, 3));
    if outcome.Applied? {
      BatchApplies(Moved(s, pid, next), pid, r, s.owners[r.key.owner]);
    } else {
      SettlingEnds(Moved(s, pid, next), pid, r, outcome);
    }
  }

  /** The request at another point. */
  function Moved(s: System, pid: nat, c: Caller): System {
    s.(callers := s.callers[pid := c])
  }

  lemma MovesOn(s: System, pid: nat, c: Caller, r: Request, outcome: Outcome, t: System)
    ensures Ended(Moved(s, pid, c), t, pid, r, outcome) <==> Ended(s, t, pid, r, outcome)
    ensures ReceiptPending(s, c.request) ==> At(Moved(s, pid, c), pid, c)
  {
    CallersReplaced(s, pid, c, Answered(r, Replay(outcome)));
  }

  lemma TimezoneDecides(s: System, pid: nat, r: Request)
    requires r.command.Timezone? && At(s, pid, Deciding(r))
    ensures var outcome := TimezoneOutcome(Zone(s, r.key.owner), r.command.base, r.command.timezone, r.command.known);
            Take(s, Proceed(pid)) ==
              Moved(s, pid, if outcome.Applied? then TimezoneBatch(r, s.owners[r.key.owner]) else Settling(r, outcome))
  {
  }

  lemma CallersReplaced(s: System, pid: nat, c: Caller, d: Caller)
    ensures s.callers[pid := c][pid := d] == s.callers[pid := d]
  {
  }

  /** When the zone still is the one that was read, or is the new one by then, the batch applies the operation. */
  lemma BatchApplies(s: System, pid: nat, r: Request, current: nat)
    requires r.command.Timezone? && At(s, pid, TimezoneBatch(r, current))
    requires Zone(s, r.key.owner) == Some(current) || Zone(s, r.key.owner) == Some(r.command.timezone)
    ensures var t := Proceeds(s, pid, 2);
            && Ended(s, t, pid, r, Applied(TimezoneBody(r.command.timezone))) && t.invites == s.invites
            && t.owners == s.owners[r.key.owner := r.command.timezone]
  {
    var outcome := Applied(TimezoneBody(r.command.timezone));
    var batched := Take(s, Proceed(pid));
    assert s.owners[r.key.owner] == r.command.timezone ==> s.owners == s.owners[r.key.owner := r.command.timezone];
    assert batched == s.(owners := s.owners[r.key.owner := r.command.timezone],
                         receipts := s.receipts[r.key := Receipt(r.hash, outcome)],
                         callers := s.callers[pid := TimezoneCheck(r)],
                         effects := batched.effects);
    assert Proceeds(s, pid, 1) == batched;
    CallersReplaced(s, pid, TimezoneCheck(r), Answered(r, Replay(outcome)));
  }

  /** When the zone is a third one by then, nothing is written and the answer is a conflict that names the zone there is, or the base when the owner is gone. */
  lemma ChangedBeforeTheBatch(s: System, pid: nat, r: Request, current: nat)
    requires r.command.Timezone? && At(s, pid, TimezoneBatch(r, current))
    requires Zone(s, r.key.owner) != Some(current) && Zone(s, r.key.owner) != Some(r.command.timezone)
    ensures var t := Proceeds(s, pid, 5);
            var zone := Zone(s, r.key.owner);
            && Ended(s, t, pid, r, Conflict(if zone.Some? then zone.value else r.command.base))
            && t.owners == s.owners && t.invites == s.invites
  {
    hide Take, Proceeds, Ended;
    var zone := Zone(s, r.key.owner);
    var outcome := Conflict(if zone.Some? then zone.value else r.command.base);
    MissesThenChecks(s, pid, r, current);
    ProceedsFirst(s, pid, 5);
    ProceedsFirst(Moved(s, pid, TimezoneCheck(r)), pid, 4);
    ProceedsFirst(Moved(s, pid, TimezoneRemote(r)), pid, 3);
    MovesOn(s, pid, Settling(r, outcome), r, outcome, Proceeds(s, pid, 5));
    SettlingEnds(Moved(s, pid, Settling(r, outcome)), pid, r, outcome);
  }

  lemma MissesThenChecks(s: System, pid: nat, r: Request, current: nat)
    requires r.command.Timezone? && At(s, pid, TimezoneBatch(r, current))
    requires Zone(s, r.key.owner) != Some(current) && Zone(s, r.key.owner) != Some(r.command.timezone)
    ensures var zone := Zone(s, r.key.owner);
            var outcome := Conflict(if zone.Some? then zone.value else r.command.base);
            && Take(s, Proceed(pid)) == Moved(s, pid, TimezoneCheck(r))
            && Take(Moved(s, pid, TimezoneCheck(r)), Proceed(pid)) == Moved(s, pid, TimezoneRemote(r))
            && Take(Moved(s, pid, TimezoneRemote(r)), Proceed(pid)) == Moved(s, pid, Settling(r, outcome))
  {
    var zone := Zone(s, r.key.owner);
    var outcome := Conflict(if zone.Some? then zone.value else r.command.base);
    CallersReplaced(s, pid, TimezoneCheck(r), TimezoneRemote(r));
    CallersReplaced(s, pid, TimezoneRemote(r), Settling(r, outcome));
  }

  // ----- invites -----

  lemma FinishingEnds(s: System, pid: nat, r: Request, outcome: Outcome)
    requires pid in s.callers && s.callers[pid] == Finishing(r) && r.key in s.receipts && s.receipts[r.key].outcome == outcome
    ensures Take(s, Proceed(pid)) == s.(callers := s.callers[pid := Answered(r, Replay(outcome))])
  {
  }

  /** A revocation is applied exactly to an invite of the owner that is available, which it revokes, or revoked already. */
  lemma RevokeAlone(s: System, pid: nat, r: Request)
    requires r.command.InviteRevoke? && At(s, pid, Deciding(r))
    ensures var t := Proceeds(s, pid, 2);
            var id := r.command.inviteId;
            var own := id in s.invites && s.invites[id].creator == r.key.owner;
            var applied := own && (s.invites[id].status == Available || s.invites[id].status == Revoked);
            && Ended(s, t, pid, r, if applied then Applied(RevokedBody(id)) else Rejected)
            && t.invites == (if applied then s.invites[id := s.invites[id].(status := Revoked)] else s.invites)
            && t.owners == s.owners
  {
    var id := r.command.inviteId;
    var decided := Take(s, Proceed(pid));
    assert Proceeds(s, pid, 1) == decided;
    if id in s.invites && s.invites[id].creator == r.key.owner && s.invites[id].status == Revoked {
      assert s.invites == s.invites[id := s.invites[id].(status := Revoked)];
    }
    var outcome := decided.receipts[r.key].outcome;
    FinishingEnds(decided, pid, r, outcome);
    CallersReplaced(s, pid, Finishing(r), Answered(r, Replay(outcome)));
  }

  /** The least free slot of an owner. */
  predicate FirstFreeSlot(invites: map<nat, Invite>, owner: nat, slot: nat) {
    1 <= slot <= 5 && Some(slot) !in SlotsOf(invites, owner) && forall k :: 1 <= k < slot ==> Some(k) in SlotsOf(invites, owner)
  }

  /**
   An invite with a valid code is made in the owner's least free slot exactly when there is one, the
   owner is there and neither its identifier nor its code is used; a code that is not valid is rejected.
   */
  lemma CreateAlone(s: System, pid: nat, r: Request, slot: nat)
    requires r.command.InviteCreate? && At(s, pid, Deciding(r))
    ensures r.command.code.None? ==>
              var t := Proceeds(s, pid, 3);
              Ended(s, t, pid, r, Rejected) && t.owners == s.owners && t.invites == s.invites
    ensures r.command.code.Some? ==>
              var t := Proceeds(s, pid, 2);
              var code := r.command.code.value;
              var id := r.key.operation;
              var free := r.key.owner in s.owners && id !in s.invites && code !in CodesOf(s.invites);
              && t.owners == s.owners
              && (free && FirstFreeSlot(s.invites, r.key.owner, slot) ==>
                   Ended(s, t, pid, r, Applied(InviteBody(id, code)))
                   && t.invites == s.invites[id := Invite(code, r.key.owner, Some(slot), Available)])
              && (!free || (forall k :: 1 <= k <= 5 ==> Some(k) in SlotsOf(s.invites, r.key.owner)) ==>
                   && t.invites == s.invites
                   && Ended(s, t, pid, r, if id in s.invites && s.invites[id].creator == r.key.owner && s.invites[id].code == code
                                          then Applied(InviteBody(id, code)) else Rejected))
  {
    if r.command.code.None? {
      RejectsNoCode(s, pid, r);
    } else {
      CreatesWithCode(s, pid, r, slot);
    }
  }

  lemma RejectsNoCode(s: System, pid: nat, r: Request)
    requires r.command.InviteCreate? && r.command.code.None? && At(s, pid, Deciding(r))
    ensures var t := Proceeds(s, pid, 3);
            Ended(s, t, pid, r, Rejected) && t.owners == s.owners && t.invites == s.invites
  {
    var decided := Take(s, Proceed(pid));
    assert decided == s.(callers := s.callers[pid := Settling(r, Rejected)]);
    ProceedsFirst(s, pid, 3);
    SettlingEnds(decided, pid, r, Rejected);
    CallersReplaced(s, pid, Settling(r, Rejected), Answered(r, Replay(Rejected)));
  }

  lemma BatchCreates(s: System, r: Request, code: nat, slot: nat)
    requires ReceiptPending(s, r)
    ensures var t := BatchCreate(s, r, code);
            var id := r.key.operation;
            var free := r.key.owner in s.owners && id !in s.invites && code !in CodesOf(s.invites);
            && t.owners == s.owners && t.callers == s.callers
            && (free && FirstFreeSlot(s.invites, r.key.owner, slot) ==>
                 && t.receipts == s.receipts[r.key := Receipt(r.hash, Applied(InviteBody(id, code)))]
                 && t.invites == s.invites[id := Invite(code, r.key.owner, Some(slot), Available)])
            && (!free || (forall k :: 1 <= k <= 5 ==> Some(k) in SlotsOf(s.invites, r.key.owner)) ==>
                 && t.invites == s.invites
                 && t.receipts == s.receipts[r.key := Receipt(r.hash,
                      if id in s.invites && s.invites[id].creator == r.key.owner && s.invites[id].code == code
                      then Applied(InviteBody(id, code)) else Rejected)])
  {
    InsertsTakeFirstFree(s, r, code, SLOTS);
    FreeMeans(s.invites, r.key.owner, code);
    hide InsertSlots, SlotFree, CodeFree, SlotsOf, CodesOf;
    var t := InsertSlots(s, r, code, SLOTS);
    if FirstFreeSlot(s.invites, r.key.owner, slot) && t.invites != s.invites {
      var taken := t.invites[r.key.operation].slot.value;
      assert taken == slot by {
        assert taken < slot || slot < taken || taken == slot;
      }
    }
  }

  lemma CreatesWithCode(s: System, pid: nat, r: Request, slot: nat)
    requires r.command.InviteCreate? && r.command.code.Some? && At(s, pid, Deciding(r))
    ensures var t := Proceeds(s, pid, 2);
            var code := r.command.code.value;
            var id := r.key.operation;
            var free := r.key.owner in s.owners && id !in s.invites && code !in CodesOf(s.invites);
            && t.owners == s.owners
            && (free && FirstFreeSlot(s.invites, r.key.owner, slot) ==>
                 Ended(s, t, pid, r, Applied(InviteBody(id, code)))
                 && t.invites == s.invites[id := Invite(code, r.key.owner, Some(slot), Available)])
            && (!free || (forall k :: 1 <= k <= 5 ==> Some(k) in SlotsOf(s.invites, r.key.owner)) ==>
                 && t.invites == s.invites
                 && Ended(s, t, pid, r, if id in s.invites && s.invites[id].creator == r.key.owner && s.invites[id].code == code
                                        then Applied(InviteBody(id, code)) else Rejected))
  {
    var code := r.command.code.value;
    var decided := Goes(BatchCreate(s, r, code), pid, Finishing(r));
    assert Proceeds(s, pid, 1) == Take(s, Proceed(pid)) == decided by { hide BatchCreate; }
    BatchCreates(s, r, code, slot);
    hide BatchCreate, SlotFree, CodeFree, SlotsOf, CodesOf, FirstFreeSlot;
    if r.key in decided.receipts {
      var outcome := decided.receipts[r.key].outcome;
      assert Proceeds(s, pid, 2) == decided.(callers := decided.callers[pid := Answered(r, Replay(outcome))]);
      CallersReplaced(s, pid, Finishing(r), Answered(r, Replay(outcome)));
    }
  }
}
