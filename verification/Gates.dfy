// What the gate of a name promises the operations on it: ordered ids, cursors that lag, waiters that cannot miss a
// wake, and a conditional write that replaces only what it matched.
module Gates {
  import opened Common
  import opened GenIds
  import opened Generations
  import opened Records
  import opened DiskModel
  import opened Transitions
  import opened StoreMachine
  import opened Leases
  import opened Ownership
  import opened OwnershipSteps
  import opened OwnershipTail

  // A follower's cursor never passes the id seed, and anything being written is past it.
  predicate CursorLags(slot: Slot, cursor: GenId) {
    && cursor.prefix <= slot.lastPrefix
    && (slot.live.Some? ==> slot.live.value.id.prefix > cursor.prefix)
  }

  // A waiter parked on the channel still open would find nothing if it resolved now.
  predicate NotMissed(s: State, hd: Handle, op: Op)
    requires op.Opening? && op.rstage.Parked?
  {
    && op.rstage.channel <= hd.notify
    && (s.steady && op.rstage.channel == hd.notify ==> Resolve(hd.slot, op.cursor, s.now) == NotFound)
  }

  predicate AtGate(s: State, op: Op)
    requires op.Leased() && op.h in s.handles
  {
    var hd := s.handles[op.h];
    && (op.Opening? ==>
          && (op.cursor.Some? ==> op.next && CursorLags(hd.slot, op.cursor.value))
          && (op.rstage != Resolving && op.next ==> op.cursor.Some?)
          && (op.rstage.Reading? && op.next ==> op.rstage.g.After(op.cursor.value))
          && (op.rstage.Parked? ==> NotMissed(s, hd, op)))
    && (op.Writing? && op.matched.Some? && hd.slot.current.Some? ==> hd.slot.current.value.id == op.matched.value)
  }

  ghost predicate GateInv(s: State) {
    && (forall h | h in s.handles :: s.handles[h].slot.Ordered())
    && (forall p | p in s.ops && s.ops[p].Leased() :: s.ops[p].h in s.handles && AtGate(s, s.ops[p]))
  }

  // -------------------------------------------------------------------------
  // Frames
  // -------------------------------------------------------------------------

  lemma GateFrame(s: State, t: State, o: nat)
    requires GateInv(s) && Moves(s, t, o) && SameClock(s, t)
    requires t.handles[s.ops[o].h].slot.Ordered() && AtGate(t, t.ops[o])
    requires forall p | p in s.ops && p != o && s.ops[p].Leased() && s.ops[p].h == s.ops[o].h :: AtGate(t, s.ops[p])
    ensures GateInv(t)
  {
    forall p | p in t.ops && t.ops[p].Leased()
      ensures t.ops[p].h in t.handles && AtGate(t, t.ops[p])
    {
      if p != o {
        assert AtGate(s, s.ops[p]);
      }
    }
  }

  lemma SameHandle(s: State, t: State, o: nat)
    requires GateInv(s) && Moves(s, t, o) && SameClock(s, t)
    requires t.handles[s.ops[o].h] == s.handles[s.ops[o].h]
    requires AtGate(t, t.ops[o])
    ensures GateInv(t)
  {
    forall p | p in s.ops && p != o && s.ops[p].Leased() && s.ops[p].h == s.ops[o].h
      ensures AtGate(t, s.ops[p])
    {
      assert AtGate(s, s.ops[p]);
    }
    GateFrame(s, t, o);
  }

  // The handle moved in a way no other operation on it can have missed: the waiters were woken, or what moved
  // (the id seed, or a forfeited claim) leaves every open resolve where it was.
  predicate Safe(s: State, t: State, h: nat, op: Op)
    requires h in s.handles && h in t.handles
  {
    var a, b := s.handles[h], t.handles[h];
    && b.notify >= a.notify
    && b.slot.lastPrefix >= a.slot.lastPrefix
    && (b.slot.live.Some? ==> b.slot.live == a.slot.live || b.slot.live.value.id.prefix > a.slot.lastPrefix)
    && (op.Writing? && b.slot.current.Some? ==> a.slot.current.Some? && a.slot.current.value.id == b.slot.current.value.id)
    && (op.Opening? && op.rstage.Parked? && b.notify == a.notify && Resolve(a.slot, op.cursor, s.now) == NotFound ==>
          Resolve(b.slot, op.cursor, s.now) == NotFound)
  }

  lemma SafeKeepsGate(s: State, t: State, op: Op)
    requires op.Leased() && op.h in s.handles && op.h in t.handles && AtGate(s, op)
    requires SameClock(s, t) && Safe(s, t, op.h, op)
    ensures AtGate(t, op)
  {
  }

  lemma SafeFrame(s: State, t: State, o: nat)
    requires GateInv(s) && Moves(s, t, o) && SameClock(s, t)
    requires t.handles[s.ops[o].h].slot.Ordered() && AtGate(t, t.ops[o])
    requires forall p | p in s.ops && p != o && s.ops[p].Leased() && s.ops[p].h == s.ops[o].h ::
               Safe(s, t, s.ops[o].h, s.ops[p])
    ensures GateInv(t)
  {
    forall p | p in s.ops && p != o && s.ops[p].Leased() && s.ops[p].h == s.ops[o].h
      ensures AtGate(t, s.ops[p])
    {
      SafeKeepsGate(s, t, s.ops[p]);
    }
    GateFrame(s, t, o);
  }

  // -------------------------------------------------------------------------
  // Uploads
  // -------------------------------------------------------------------------

  // Steps that leave every handle alone need only account for their own operation.
  lemma QuietKeepsGate(s: State, t: State, o: nat)
    requires GateInv(s) && Quiet(s, t, o)
    requires t.ops[o].Opening? ==> AtGate(t, t.ops[o])
    ensures GateInv(t)
  {
    assert AtGate(s, s.ops[o]);
    SameHandle(s, t, o);
  }

  // The seed moves strictly forward at every admission, however the clock stands.
  lemma AdmitAdvances(s: State, o: nat, tail: Option<Uint64>)
    requires AdmitEnabled(s, o, tail) && tail.Some?
    ensures FreshId(s, s.ops[o].h, tail.value).prefix > s.handles[s.ops[o].h].slot.lastPrefix
  {
    NextPrefixAdvances(s.handles[s.ops[o].h].slot.lastPrefix, s.now);
  }

  lemma AdmitIsSafe(s: State, o: nat, tail: Option<Uint64>, made: bool, p: nat)
    requires OpsWell(s) && Admits(s, o, tail)
    requires p in s.ops && p != o && s.ops[p].Leased() && s.ops[p].h == s.ops[o].h
    ensures s.ops[o].h in AdmitNext(s, o, tail, made).handles
    ensures Safe(s, AdmitNext(s, o, tail, made), s.ops[o].h, s.ops[p])
  {
    hide ClockAhead;
    AdmitAdvances(s, o, tail);
    OpHolds(s, p);
  }

  lemma AdmitKeepsGate(s: State, o: nat, tail: Option<Uint64>, made: bool)
    requires GateInv(s) && OpsWell(s) && AdmitEnabled(s, o, tail)
    ensures GateInv(AdmitNext(s, o, tail, made))
  {
    hide ClockAhead, Safe, OpsWell, AtGate;
    var t := AdmitNext(s, o, tail, made);
    AdmitMoves(s, o, tail, made);
    if !Admits(s, o, tail) {
      RefusedSettles(s, o, tail, made);
      LeavingAtGate(t, s.ops[o].h);
      SameHandle(s, t, o);
    } else {
      AdmittedSettles(s, o, tail, made);
      forall p | p in s.ops && p != o && s.ops[p].Leased() && s.ops[p].h == s.ops[o].h
        ensures Safe(s, t, s.ops[o].h, s.ops[p])
      {
        AdmitIsSafe(s, o, tail, made, p);
      }
      SafeFrame(s, t, o);
    }
  }

  lemma LeavingAtGate(t: State, h: nat)
    requires h in t.handles
    ensures AtGate(t, Leaving(h))
  {
  }

  lemma AdmittedSettles(s: State, o: nat, tail: Option<Uint64>, made: bool)
    requires s.up && Admits(s, o, tail) && s.handles[s.ops[o].h].slot.Ordered()
    ensures var t := AdmitNext(s, o, tail, made);
            && s.ops[o].h in t.handles && t.handles[s.ops[o].h].slot.Ordered()
            && o in t.ops && t.ops[o].Leased() && t.ops[o].h == s.ops[o].h && AtGate(t, t.ops[o])
  {
    hide ClockAhead;
    AdmitAdvances(s, o, tail);
  }

  lemma RefusedSettles(s: State, o: nat, tail: Option<Uint64>, made: bool)
    requires AdmitEnabled(s, o, tail) && !Admits(s, o, tail)
    ensures AdmitNext(s, o, tail, made) == s.SetOp(o, Leaving(s.ops[o].h))
  {
    hide ClockAhead;
  }

  lemma FlipKeepsGate(s: State, o: nat)
    requires GateInv(s) && OwnInv(s) && IsFlipping(s, o)
    ensures GateInv(FlipNext(s, o))
  {
    var t := FlipNext(s, o);
    FlipMoves(s, o);
    forall p | p in s.ops && p != o && s.ops[p].Leased() && s.ops[p].h == s.ops[o].h
      ensures Safe(s, t, s.ops[o].h, s.ops[p])
    {
      WriterIsAlone(s, o, p);
    }
    SafeFrame(s, t, o);
  }

  lemma DiscardKeepsGate(s: State, o: nat)
    requires GateInv(s) && IsWriting(s, o)
    ensures GateInv(DiscardNext(s, o))
  {
    var t := DiscardNext(s, o);
    DiscardMoves(s, o);
    forall p | p in s.ops && p != o && s.ops[p].Leased() && s.ops[p].h == s.ops[o].h
      ensures Safe(s, t, s.ops[o].h, s.ops[p])
    {
      assert AtGate(s, s.ops[p]);
    }
    SafeFrame(s, t, o);
  }

  // -------------------------------------------------------------------------
  // Reads
  // -------------------------------------------------------------------------

  // The cursor captured at the first resolve lags, and a follow-next only attaches past it.
  lemma CursorCaptured(s: State, o: nat)
    requires GateInv(s) && IsResolving(s, o)
    ensures var slot := s.handles[s.ops[o].h].slot;
            var cursor := CursorOf(s.ops[o], slot);
            && (cursor.Some? <==> s.ops[o].next)
            && (cursor.Some? ==> CursorLags(slot, cursor.value))
            && (cursor.Some? && Resolve(slot, cursor, s.now).Found? ==>
                  Resolve(slot, cursor, s.now).gen.id.After(cursor.value))
  {
    var slot := s.handles[s.ops[o].h].slot;
    assert AtGate(s, s.ops[o]);
    assert slot.Ordered();
  }

  // A reader that did not find what it waits for parks on the channel it will be woken by.
  lemma UnclaimedAtGate(s: State, op: Op, attached: bool)
    requires op.Opening? && op.rstage == Resolving && op.h in s.handles && (op.cursor.Some? <==> op.next)
    requires var slot := s.handles[op.h].slot;
             op.cursor.Some? ==>
               && CursorLags(slot, op.cursor.value)
               && (Resolve(slot, op.cursor, s.now).Found? ==>
                     Resolve(slot, op.cursor, s.now).gen.id.After(op.cursor.value))
    ensures var hd := s.handles[op.h];
            var p := Unclaimed(op, Resolve(hd.slot, op.cursor, s.now), hd.notify, attached);
            p.Leased() && p.h == op.h && AtGate(s, p)
  {
    hide Resolve;
  }

  lemma ResolveAtGate(s: State, o: nat, claim: Outcome, attached: bool)
    requires GateInv(s) && ResolveEnabled(s, o, claim) && !Claims(s, o, claim)
    ensures var t := ResolveNext(s, o, claim, attached);
            o in t.ops && t.ops[o].Leased() && t.ops[o].h in t.handles && AtGate(t, t.ops[o])
  {
    hide ResolveNext, Resolve, GateInv, AtGate, Unclaimed;
    if Claimable(Resolved(s, o)) {
      ResolveGivesUp(s, o, claim, attached);
      LeavingAtGate(ResolveNext(s, o, claim, attached), s.ops[o].h);
    } else {
      ResolveClaimsNothing(s, o, claim, attached);
      CursorCaptured(s, o);
      var op := s.ops[o].(cursor := CursorOf(s.ops[o], s.handles[s.ops[o].h].slot));
      UnclaimedAtGate(s, op, attached);
      SameGate(s, ResolveNext(s, o, claim, attached), ResolveNext(s, o, claim, attached).ops[o]);
    }
  }

  lemma SameGate(s: State, t: State, op: Op)
    requires op.Leased() && op.h in s.handles && t.handles == s.handles && t.now == s.now && t.steady == s.steady && AtGate(s, op)
    ensures AtGate(t, op)
  {
  }

  lemma ResolveKeepsGateQuietly(s: State, o: nat, claim: Outcome, attached: bool)
    requires GateInv(s) && ResolveEnabled(s, o, claim) && !Claims(s, o, claim)
    ensures GateInv(ResolveNext(s, o, claim, attached))
  {
    ResolveQuietly(s, o, claim, attached);
    ResolveAtGate(s, o, claim, attached);
    QuietKeepsGate(s, ResolveNext(s, o, claim, attached), o);
  }

  // A claim consumes the current generation in place. Nobody is parked on it with the channel still open: they
  // would have found it.
  predicate Consumes(s: State, t: State, o: nat) {
    && o in s.ops && s.ops[o].Leased() && s.ops[o].h in s.handles && s.ops[o].h in t.handles
    && SameClock(s, t)
    && PresentCurrent(s.handles[s.ops[o].h].slot, s.now).Some?
    && t.handles[s.ops[o].h].slot
         == s.handles[s.ops[o].h].slot.(current := Some(s.handles[s.ops[o].h].slot.current.value.(state := GenConsumed)))
    && t.handles[s.ops[o].h].notify >= s.handles[s.ops[o].h].notify
  }

  lemma ClaimConsumes(s: State, o: nat, claim: Outcome, attached: bool)
    requires Claims(s, o, claim)
    requires s.handles[s.ops[o].h].slot.live.Some? ==> s.handles[s.ops[o].h].slot.live.value.state == GenLive
    ensures Consumes(s, ResolveNext(s, o, claim, attached), o)
  {
  }

  lemma ClaimEnds(s: State, o: nat, claim: Outcome, attached: bool)
    requires Claims(s, o, claim)
    requires s.handles[s.ops[o].h].slot.live.Some? ==> s.handles[s.ops[o].h].slot.live.value.state == GenLive
    ensures var t := ResolveNext(s, o, claim, attached);
            var slot := s.handles[s.ops[o].h].slot;
            && o in t.ops
            && (t.ops[o].Opening? ==>
                  && t.ops[o].next == s.ops[o].next && t.ops[o].cursor == CursorOf(s.ops[o], slot)
                  && t.ops[o].rstage.Reading? && slot.current.Some? && t.ops[o].rstage.g == slot.current.value.id)
            && !t.ops[o].Writing?
  {
  }

  lemma ResolveKeepsGateClaiming(s: State, o: nat, claim: Outcome, attached: bool)
    requires GateInv(s) && Claims(s, o, claim)
    requires s.handles[s.ops[o].h].slot.live.Some? ==> s.handles[s.ops[o].h].slot.live.value.state == GenLive
    ensures GateInv(ResolveNext(s, o, claim, attached))
  {
    var t := ResolveNext(s, o, claim, attached);
    CursorCaptured(s, o);
    ResolveMoves(s, o, claim, attached);
    ClaimConsumes(s, o, claim, attached);
    ClaimEnds(s, o, claim, attached);
    ConsumesKeepsGate(s, t, o);
  }

  lemma ConsumesKeepsGate(s: State, t: State, o: nat)
    requires GateInv(s) && Moves(s, t, o) && Consumes(s, t, o) && AtGate(t, t.ops[o])
    ensures GateInv(t)
  {
    assert s.handles[s.ops[o].h].slot.Ordered();
    SafeFrame(s, t, o);
  }

  lemma RetireKeepsGate(s: State, o: nat, target: Option<Generation>, outcome: Outcome)
    requires GateInv(s) && At(s, o) && (s.ops[o].Deleting? || s.ops[o].Reaping?)
    requires RenamesMarker(s, target, outcome)
    requires target.Some? ==> s.handles[s.ops[o].h].slot.current == target
    ensures GateInv(RetireNext(s, o, s.ops[o].h, target, outcome))
  {
    var t := RetireNext(s, o, s.ops[o].h, target, outcome);
    RetireMoves(s, o, s.ops[o].h, target, outcome);
    if target.None? || outcome == NeverTook {
      SameHandle(s, t, o);
    } else {
      SafeFrame(s, t, o);
    }
  }

  // -------------------------------------------------------------------------
  // The rest
  // -------------------------------------------------------------------------

  lemma ReclaimKeepsGate(s: State, o: nat, removal: Removal)
    requires GateInv(s) && IsOwing(s, o)
    ensures GateInv(ReclaimNext(s, o, removal))
  {
    ReclaimMoves(s, o, removal);
    SameHandle(s, ReclaimNext(s, o, removal), o);
  }

  lemma ClearKeepsGate(s: State, o: nat)
    requires GateInv(s) && At(s, o) && s.ops[o].Clearing?
    ensures GateInv(ClearNext(s, o))
  {
    ClearMoves(s, o);
    SafeFrame(s, ClearNext(s, o), o);
  }

  lemma TickKeepsGate(s: State, at: int)
    requires GateInv(s)
    ensures GateInv(s.(now := at, steady := s.steady && at >= s.now))
  {
    var t := s.(now := at, steady := s.steady && at >= s.now);
    forall p | p in t.ops && t.ops[p].Leased()
      ensures t.ops[p].h in t.handles && AtGate(t, t.ops[p])
    {
      var op := s.ops[p];
      assert AtGate(s, op);
      if op.Opening? && op.rstage.Parked? && t.steady && op.rstage.channel == s.handles[op.h].notify {
        WaitingOnlyEndsByAChange(s.handles[op.h].slot, op.cursor, s.now, at);
      }
    }
  }

  lemma AcquireKeepsGate(s: State, o: nat, h: nat, name: string, op: Op)
    requires GateInv(s)
    requires o in s.ops ==> s.ops[o].Observed?
    requires if name in s.reg then h == s.reg[name] && h in s.handles else h !in s.handles
    requires op.Leased() && op.h == h && !op.Writing?
    requires op.Opening? ==> op.rstage == Resolving && op.cursor.None?
    ensures GateInv(s.Acquire(o, h, name, op))
  {
    var t := s.Acquire(o, h, name, op);
    forall p | p in t.ops && t.ops[p].Leased()
      ensures t.ops[p].h in t.handles && AtGate(t, t.ops[p])
    {
      if p != o {
        assert AtGate(s, s.ops[p]);
      }
    }
  }

  lemma ReleaseKeepsGate(s: State, o: nat)
    requires GateInv(s) && At(s, o) && s.ops[o].Leaving?
    ensures GateInv(ReleaseNext(s, o))
  {
    var t := ReleaseNext(s, o);
    forall p | p in t.ops && t.ops[p].Leased()
      ensures t.ops[p].h in t.handles && AtGate(t, t.ops[p])
    {
      assert AtGate(s, s.ops[p]);
    }
  }

  lemma UnleasedKeepsGate(s: State, o: nat, op: Op)
    requires GateInv(s) && o !in s.ops && !op.Leased()
    ensures GateInv(s.SetOp(o, op))
  {
    var t := s.SetOp(o, op);
    forall p | p in t.ops && t.ops[p].Leased()
      ensures t.ops[p].h in t.handles && AtGate(t, t.ops[p])
    {
      assert AtGate(s, s.ops[p]);
    }
  }
}
