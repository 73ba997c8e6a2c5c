// The ownership invariant, continued: claims, retires, reclamation, leases, and restart.
module OwnershipTail {
  import opened Common
  import opened GenIds
  import opened Generations
  import opened Records
  import opened DiskModel
  import opened Transitions
  import opened StoreMachine
  import opened Leases
  import opened Ownership
  import opened OwnershipSteps

  // -------------------------------------------------------------------------
  // Reclaiming and clearing
  // -------------------------------------------------------------------------

  lemma ReclaimMoves(s: State, o: nat, removal: Removal)
    requires IsOwing(s, o)
    ensures Moves(s, ReclaimNext(s, o, removal), o)
  {
  }

  lemma ReclaimSlot(s: State, o: nat, removal: Removal)
    requires IsOwing(s, o) && SlotWell(s, s.ops[o].h) && HoldsWell(s, s.ops[o])
    ensures SlotWell(ReclaimNext(s, o, removal), s.ops[o].h)
  {
    var t := ReclaimNext(s, o, removal);
    var h := s.ops[o].h;
    var slot := s.handles[h].slot;
    if slot.current.Some? && slot.current.value.state == GenConsumed {
      var p :| ClearerOf(s, p, h, slot.current.value.id);
      assert ClearerOf(t, p, h, slot.current.value.id);
    }
    if slot.live.Some? {
      var p :| WriterOf(s, p, h, slot.live.value.id);
      assert WriterOf(t, p, h, slot.live.value.id);
    }
  }

  // No other slot holds what this operation owes.
  lemma ReclaimOthers(s: State, o: nat, removal: Removal)
    requires LeaseInv(s) && OwnInv(s) && IsOwing(s, o)
    ensures var t := ReclaimNext(s, o, removal);
            forall h | h in s.handles && h != s.ops[o].h :: ExtantIn(t, s.handles[h].slot)
  {
    hide NoneLost, OneOwner;
    var t := ReclaimNext(s, o, removal);
    LeasePins(s, o);
    assert HoldsWell(s, s.ops[o]);
    forall h | h in s.handles && h != s.ops[o].h
      ensures ExtantIn(t, s.handles[h].slot)
    {
      assert SlotWell(s, h);
      if !s.handles[h].slot.Empty() {
        assert InUse(s.handles[h]);
      }
    }
  }

  lemma ReclaimOps(s: State, o: nat, removal: Removal)
    requires OwnInv(s) && IsOwing(s, o)
    ensures OpsWell(ReclaimNext(s, o, removal))
  {
    hide NoneLost, SlotsWell;
    var t := ReclaimNext(s, o, removal);
    ReclaimMoves(s, o, removal);
    assert HoldsWell(s, s.ops[o]);
    forall p | p in s.ops && p != o && s.ops[p].Leased()
      ensures s.ops[p].Owes().Some? ==> s.ops[p].Owes().value in t.extant
      ensures s.ops[p].h == s.ops[o].h ==> HoldsWell(t, s.ops[p])
    {
      assert HoldsWell(s, s.ops[p]);
    }
    OpsFrame(s, t, o);
  }

  lemma ReclaimKeepsOwnership(s: State, o: nat, removal: Removal)
    requires LeaseInv(s) && OwnInv(s) && IsOwing(s, o)
    ensures OwnInv(ReclaimNext(s, o, removal))
  {
    hide OneOwner, NoneLost, LeaseInv;
    var t := ReclaimNext(s, o, removal);
    ReclaimMoves(s, o, removal);
    assert SlotWell(s, s.ops[o].h) && HoldsWell(s, s.ops[o]);
    ReclaimSlot(s, o, removal);
    ReclaimOthers(s, o, removal);
    SlotsFrame(s, t, o);
    ReclaimOps(s, o, removal);
    OwnersFrame(s, t, o);
    LostFrame(s, t, o);
  }

  lemma ClearMoves(s: State, o: nat)
    requires At(s, o) && s.ops[o].Clearing?
    ensures Moves(s, ClearNext(s, o), o)
  {
  }

  lemma ClearSlot(s: State, o: nat)
    requires At(s, o) && s.ops[o].Clearing? && SlotWell(s, s.ops[o].h)
    ensures SlotWell(ClearNext(s, o), s.ops[o].h)
  {
    var t := ClearNext(s, o);
    var h := s.ops[o].h;
    var slot := s.handles[h].slot;
    if slot.current.Some? && slot.current.value.state == GenConsumed && slot.current.value.id != s.ops[o].g {
      var p :| ClearerOf(s, p, h, slot.current.value.id);
      assert ClearerOf(t, p, h, slot.current.value.id);
    }
    if slot.live.Some? {
      var p :| WriterOf(s, p, h, slot.live.value.id);
      assert WriterOf(t, p, h, slot.live.value.id);
    }
  }

  lemma ClearOps(s: State, o: nat)
    requires OpsWell(s) && At(s, o) && s.ops[o].Clearing?
    ensures OpsWell(ClearNext(s, o))
  {
    var t := ClearNext(s, o);
    ClearMoves(s, o);
    forall p | p in s.ops && p != o && s.ops[p].Leased()
      ensures s.ops[p].Owes().Some? ==> s.ops[p].Owes().value in t.extant
      ensures s.ops[p].h == s.ops[o].h ==> HoldsWell(t, s.ops[p])
    {
      assert HoldsWell(s, s.ops[p]);
    }
    OpsFrame(s, t, o);
  }

  lemma ClearKeepsOwnership(s: State, o: nat)
    requires LeaseInv(s) && OwnInv(s) && At(s, o) && s.ops[o].Clearing?
    ensures OwnInv(ClearNext(s, o))
  {
    hide OpsWell, OneOwner, NoneLost, LeaseInv, SlotWell;
    var t := ClearNext(s, o);
    ClearMoves(s, o);
    ClearOps(s, o);
    OpHolds(s, o);
    ClearSlot(s, o);
    SlotsWellExtant(s);
    SlotsFrame(s, t, o);
    OwnersFrame(s, t, o);
    LostFrame(s, t, o);
  }

  // -------------------------------------------------------------------------
  // Claiming and retiring the current generation
  // -------------------------------------------------------------------------

  // Operation `o`, which owed nothing, takes the finalized current generation of its slot.
  ghost predicate Takes(s: State, t: State, o: nat, g: GenId) {
    && Moves(s, t, o) && Keeps(s, t) && t.extant == s.extant
    && !s.ops[o].Writing? && s.ops[o].Owes().None? && s.ops[o].Clears().None?
    && t.ops[o].EndsLog().None? && t.ops[o].Owes() == Some(g)
    && IsFinal(s.handles[s.ops[o].h], g)
    && t.handles[s.ops[o].h].slot.live == s.handles[s.ops[o].h].slot.live
    && match t.ops[o].Clears()
       case None => t.handles[s.ops[o].h].slot.current.None?
       case Some(c) => && c == g && s.handles[s.ops[o].h].slot.current.value.consume
                       && t.handles[s.ops[o].h].slot.current
                            == Some(s.handles[s.ops[o].h].slot.current.value.(state := GenConsumed))
  }

  lemma TakesSlot(s: State, t: State, o: nat, g: GenId)
    requires SlotsWell(s) && Takes(s, t, o, g)
    ensures SlotWell(t, s.ops[o].h)
  {
    var h := s.ops[o].h;
    assert SlotWell(s, h);
    if t.ops[o].Clears().Some? {
      assert ClearerOf(t, o, h, g);
    }
    if s.handles[h].slot.live.Some? {
      var p :| WriterOf(s, p, h, s.handles[h].slot.live.value.id);
      assert WriterOf(t, p, h, s.handles[h].slot.live.value.id);
    }
  }

  lemma TakesOps(s: State, t: State, o: nat, g: GenId)
    requires OwnInv(s) && Takes(s, t, o, g)
    ensures OpsWell(t)
  {
    assert SlotWell(s, s.ops[o].h);
    forall p | p in s.ops && p != o && s.ops[p].Leased()
      ensures s.ops[p].Owes().Some? ==> s.ops[p].Owes().value in t.extant
      ensures s.ops[p].h == s.ops[o].h ==> HoldsWell(t, s.ops[p])
    {
      assert HoldsWell(s, s.ops[p]);
    }
    OpsFrame(s, t, o);
  }

  lemma TakesKeepsOwnership(s: State, t: State, o: nat, g: GenId)
    requires LeaseInv(s) && OwnInv(s) && Takes(s, t, o, g)
    ensures OwnInv(t)
  {
    hide OpsWell, NoneLost, LeaseInv, SlotWell;
    TakesSlot(s, t, o, g);
    SlotsWellExtant(s);
    SlotsFrame(s, t, o);
    TakesOps(s, t, o, g);
    forall p | p in s.ops && p != o
      ensures s.ops[p].Owes() != Some(g)
    {
      FinalIsUnowed(s, o, p, g);
    }
    OwnersFrame(s, t, o);
    LostFrame(s, t, o);
  }

  lemma ClaimTakes(s: State, o: nat, op: Op, g: Generation, claim: Outcome, attached: bool)
    requires At(s, o) && s.ops[o].Opening? && s.ops[o].rstage == Resolving
    requires op.Opening? && op.h == s.ops[o].h && s.handles[op.h].slot.current == Some(g)
    requires g.state == GenFinalized && g.consume && RenamesMarker(s, Some(g), claim)
    requires !op.canceled && claim != NeverTook
    ensures Takes(s, ClaimNext(s, o, op, g, claim, attached), o, g.id)
  {
    ClaimMoves(s, o, op, g, claim, attached);
  }

  // The resolve claims: it found a finalized consume-once generation and the claim's rename takes.
  ghost predicate Claims(s: State, o: nat, claim: Outcome) {
    && ResolveEnabled(s, o, claim) && claim != NeverTook && !s.ops[o].canceled
    && Claimable(Resolved(s, o))
  }

  lemma ResolveGivesUp(s: State, o: nat, claim: Outcome, attached: bool)
    requires ResolveEnabled(s, o, claim) && Claimable(Resolved(s, o)) && (claim == NeverTook || s.ops[o].canceled)
    ensures ResolveNext(s, o, claim, attached) == s.SetOp(o, Leaving(s.ops[o].h))
  {
  }

  lemma ResolveClaimsNothing(s: State, o: nat, claim: Outcome, attached: bool)
    requires ResolveEnabled(s, o, claim) && !Claimable(Resolved(s, o))
    ensures var hd := s.handles[s.ops[o].h];
            var op := s.ops[o].(cursor := CursorOf(s.ops[o], hd.slot));
            ResolveNext(s, o, claim, attached) == s.SetOp(o, Unclaimed(op, Resolved(s, o), hd.notify, attached))
  {
  }

  // A resolve that claims nothing moves only its own operation, which owes nothing before or after.
  lemma ResolveMovesOnlyItself(s: State, o: nat, claim: Outcome, attached: bool)
    requires ResolveEnabled(s, o, claim) && !Claims(s, o, claim)
    ensures var t := ResolveNext(s, o, claim, attached);
            && o in t.ops && t == s.SetOp(o, t.ops[o])
            && (t.ops[o].Opening? || t.ops[o].Leaving?) && t.ops[o].h == s.ops[o].h && !s.ops[o].Writing?
            && t.ops[o].Owes().None? && t.ops[o].Clears().None?
  {
    hide ResolveNext, Resolve, Unclaimed;
    if Claimable(Resolved(s, o)) {
      ResolveGivesUp(s, o, claim, attached);
    } else {
      var hd := s.handles[s.ops[o].h];
      var op := s.ops[o].(cursor := CursorOf(s.ops[o], hd.slot));
      ResolveClaimsNothing(s, o, claim, attached);
      UnclaimedOwesNothing(op, Resolved(s, o), hd.notify, attached);
    }
  }

  lemma UnclaimedOwesNothing(op: Op, r: Resolution, channel: nat, attached: bool)
    requires op.Opening? && op.rstage == Resolving
    ensures var p := Unclaimed(op, r, channel, attached);
            && p.Leased() && p.h == op.h && (p.Opening? || p.Leaving?)
            && p.Owes().None? && p.Clears().None?
  {
  }

  lemma ResolveQuietly(s: State, o: nat, claim: Outcome, attached: bool)
    requires ResolveEnabled(s, o, claim) && !Claims(s, o, claim)
    ensures Quiet(s, ResolveNext(s, o, claim, attached), o)
  {
    ResolveMovesOnlyItself(s, o, claim, attached);
    StageIsQuiet(s, o, ResolveNext(s, o, claim, attached).ops[o]);
  }

  lemma ResolveTakes(s: State, o: nat, claim: Outcome, attached: bool)
    requires Claims(s, o, claim)
    requires s.handles[s.ops[o].h].slot.live.Some? ==> s.handles[s.ops[o].h].slot.live.value.state == GenLive
    ensures s.handles[s.ops[o].h].slot.current.Some?
    ensures Takes(s, ResolveNext(s, o, claim, attached), o, s.handles[s.ops[o].h].slot.current.value.id)
  {
    var hd := s.handles[s.ops[o].h];
    var op := s.ops[o].(cursor := CursorOf(s.ops[o], hd.slot));
    ClaimTakes(s, o, op, Resolved(s, o).gen, claim, attached);
  }

  lemma ResolveKeepsOwnership(s: State, o: nat, claim: Outcome, attached: bool)
    requires LeaseInv(s) && OwnInv(s) && ResolveEnabled(s, o, claim)
    ensures OwnInv(ResolveNext(s, o, claim, attached))
  {
    var t := ResolveNext(s, o, claim, attached);
    assert SlotWell(s, s.ops[o].h);
    if Claims(s, o, claim) {
      ResolveTakes(s, o, claim, attached);
      TakesKeepsOwnership(s, t, o, s.handles[s.ops[o].h].slot.current.value.id);
    } else {
      ResolveQuietly(s, o, claim, attached);
      QuietKeepsOwnership(s, t, o);
    }
  }

  lemma RetireTakes(s: State, o: nat, target: Option<Generation>, outcome: Outcome)
    requires At(s, o) && (s.ops[o].Deleting? || s.ops[o].Reaping?) && RenamesMarker(s, target, outcome)
    requires target.Some? ==> s.handles[s.ops[o].h].slot.current == target && target.value.state == GenFinalized
    ensures var t := RetireNext(s, o, s.ops[o].h, target, outcome);
            if target.None? || outcome == NeverTook then Quiet(s, t, o) else Takes(s, t, o, target.value.id)
  {
    hide Quiet, Takes, RetireNext;
    if target.None? || outcome == NeverTook {
      RetireMisses(s, o, target, outcome);
    } else {
      RetireHits(s, o, target, outcome);
    }
  }

  lemma RetireMisses(s: State, o: nat, target: Option<Generation>, outcome: Outcome)
    requires At(s, o) && (s.ops[o].Deleting? || s.ops[o].Reaping?) && RenamesMarker(s, target, outcome)
    requires target.Some? ==> s.handles[s.ops[o].h].slot.current == target
    requires target.None? || outcome == NeverTook
    ensures Quiet(s, RetireNext(s, o, s.ops[o].h, target, outcome), o)
  {
  }

  lemma RetireHits(s: State, o: nat, target: Option<Generation>, outcome: Outcome)
    requires At(s, o) && (s.ops[o].Deleting? || s.ops[o].Reaping?) && RenamesMarker(s, target, outcome)
    requires target.Some? && s.handles[s.ops[o].h].slot.current == target && target.value.state == GenFinalized
    requires outcome != NeverTook
    ensures Takes(s, RetireNext(s, o, s.ops[o].h, target, outcome), o, target.value.id)
  {
    hide Moves, GenDir.Commit;
    RetireMoves(s, o, s.ops[o].h, target, outcome);
    assert Moves(s, RetireNext(s, o, s.ops[o].h, target, outcome), o);
  }

  lemma RetireKeepsOwnership(s: State, o: nat, target: Option<Generation>, outcome: Outcome)
    requires LeaseInv(s) && OwnInv(s) && At(s, o) && (s.ops[o].Deleting? || s.ops[o].Reaping?)
    requires RenamesMarker(s, target, outcome)
    requires target.Some? ==> s.handles[s.ops[o].h].slot.current == target && target.value.state == GenFinalized
    ensures OwnInv(RetireNext(s, o, s.ops[o].h, target, outcome))
  {
    var t := RetireNext(s, o, s.ops[o].h, target, outcome);
    RetireTakes(s, o, target, outcome);
    if target.None? || outcome == NeverTook {
      QuietKeepsOwnership(s, t, o);
    } else {
      TakesKeepsOwnership(s, t, o, target.value.id);
    }
  }

  // -------------------------------------------------------------------------
  // Leases
  // -------------------------------------------------------------------------

  lemma AcquireKeepsOwnership(s: State, o: nat, h: nat, name: string, op: Op)
    requires OwnInv(s) && Registered(s)
    requires o in s.ops ==> s.ops[o].Observed?
    requires if name in s.reg then h == s.reg[name] && h in s.handles else h !in s.handles
    requires op.Leased() && op.h == h && !op.Writing? && !op.Finishing? && op.Owes().None? && op.Clears().None?
    ensures OwnInv(s.Acquire(o, h, name, op))
  {
    hide SlotWell, NoneLost, Registered;
    var t := s.Acquire(o, h, name, op);
    assert OpsWell(t) by {
      forall p | p in t.ops && t.ops[p].Leased()
        ensures t.ops[p].h in t.handles && HoldsWell(t, t.ops[p])
      {
        if p != o {
          assert HoldsWell(s, s.ops[p]);
        }
      }
    }
    AcquireSlots(s, o, h, name, op);
    AcquireLosesNone(s, o, h, name, op);
  }

  lemma AcquireSlots(s: State, o: nat, h: nat, name: string, op: Op)
    requires SlotsWell(s)
    requires o in s.ops ==> s.ops[o].Observed?
    requires if name in s.reg then h == s.reg[name] && h in s.handles else h !in s.handles
    ensures SlotsWell(s.Acquire(o, h, name, op))
  {
    var t := s.Acquire(o, h, name, op);
    forall k | k in t.handles
      ensures SlotWell(t, k)
    {
      if k in s.handles {
        assert SlotWell(s, k);
        var slot := s.handles[k].slot;
        if slot.current.Some? && slot.current.value.state == GenConsumed {
          var p :| ClearerOf(s, p, k, slot.current.value.id);
          assert ClearerOf(t, p, k, slot.current.value.id);
        }
        if slot.live.Some? {
          var p :| WriterOf(s, p, k, slot.live.value.id);
          assert WriterOf(t, p, k, slot.live.value.id);
        }
      }
    }
  }

  lemma AcquireLosesNone(s: State, o: nat, h: nat, name: string, op: Op)
    requires NoneLost(s) && Registered(s)
    requires o in s.ops ==> s.ops[o].Observed?
    requires if name in s.reg then h == s.reg[name] && h in s.handles else h !in s.handles
    ensures NoneLost(s.Acquire(o, h, name, op))
  {
    var t := s.Acquire(o, h, name, op);
    forall g | g in t.extant
      ensures g in t.logs && (Seated(t, g) || exists p :: OwedBy(t, p, g))
    {
      if Seated(s, g) {
        assert Seated(t, g);
      } else {
        var p :| OwedBy(s, p, g);
        assert OwedBy(t, p, g);
      }
    }
  }

  lemma ReleaseSlots(s: State, o: nat)
    requires SlotsWell(s) && At(s, o) && s.ops[o].Leaving?
    ensures SlotsWell(ReleaseNext(s, o))
  {
    var t := ReleaseNext(s, o);
    forall k | k in t.handles
      ensures SlotWell(t, k)
    {
      assert SlotWell(s, k);
      var slot := s.handles[k].slot;
      if slot.current.Some? && slot.current.value.state == GenConsumed {
        var p :| ClearerOf(s, p, k, slot.current.value.id);
        assert ClearerOf(t, p, k, slot.current.value.id);
      }
      if slot.live.Some? {
        var p :| WriterOf(s, p, k, slot.live.value.id);
        assert WriterOf(t, p, k, slot.live.value.id);
      }
    }
  }

  lemma ReleaseLosesNone(s: State, o: nat)
    requires LeaseInv(s) && NoneLost(s) && At(s, o) && s.ops[o].Leaving?
    ensures NoneLost(ReleaseNext(s, o))
  {
    var t := ReleaseNext(s, o);
    LeasePins(s, o);
    forall g | g in t.extant
      ensures g in t.logs && (Seated(t, g) || exists p :: OwedBy(t, p, g))
    {
      if Seated(s, g) {
        assert Seated(t, g);
      } else {
        var p :| OwedBy(s, p, g);
        assert OwedBy(t, p, g);
      }
    }
  }

  lemma ReleaseKeepsOwnership(s: State, o: nat)
    requires LeaseInv(s) && OwnInv(s) && At(s, o) && s.ops[o].Leaving?
    ensures OwnInv(ReleaseNext(s, o))
  {
    var t := ReleaseNext(s, o);
    ReleaseSlots(s, o);
    ReleaseLosesNone(s, o);
    assert OpsWell(t) by {
      forall p | p in t.ops && t.ops[p].Leased()
        ensures t.ops[p].h in t.handles && HoldsWell(t, t.ops[p])
      {
        assert HoldsWell(s, s.ops[p]);
      }
    }
    assert OneOwner(t);
  }

  lemma UnleasedKeepsOwnership(s: State, o: nat, op: Op)
    requires OwnInv(s) && o !in s.ops && !op.Leased()
    ensures OwnInv(s.SetOp(o, op))
  {
    var t := s.SetOp(o, op);
    assert OpsWell(t) by {
      forall p | p in t.ops && t.ops[p].Leased()
        ensures t.ops[p].h in t.handles && HoldsWell(t, t.ops[p])
      {
        assert HoldsWell(s, s.ops[p]);
      }
    }
    assert SlotsWell(t) by {
      forall k | k in t.handles
        ensures SlotWell(t, k)
      {
        assert SlotWell(s, k);
        var slot := s.handles[k].slot;
        if slot.current.Some? && slot.current.value.state == GenConsumed {
          var p :| ClearerOf(s, p, k, slot.current.value.id);
          assert ClearerOf(t, p, k, slot.current.value.id);
        }
        if slot.live.Some? {
          var p :| WriterOf(s, p, k, slot.live.value.id);
          assert WriterOf(t, p, k, slot.live.value.id);
        }
      }
    }
    assert NoneLost(t) by {
      forall g | g in t.extant
        ensures g in t.logs && (Seated(t, g) || exists p :: OwedBy(t, p, g))
      {
        if Seated(s, g) {
          assert Seated(t, g);
        } else {
          var p :| OwedBy(s, p, g);
          assert OwedBy(t, p, g);
        }
      }
    }
  }

  // -------------------------------------------------------------------------
  // Restart
  // -------------------------------------------------------------------------

  // A candidate's record names the name its id was minted for.
  ghost predicate CandidatesNamed(s: State) {
    forall id | id in s.disk && Candidate(id, s.disk[id], s.cfg.checksum) ::
      id in s.minted && s.minted[id] == s.disk[id].marker.now.value.name
  }

  lemma BootSlot(s: State, after: Disk, hs: map<nat, Handle>, names: map<string, nat>, h: nat)
    requires CandidatesNamed(s) && Restores(s.disk, s.cfg.checksum, hs, names) && after.Keys == s.disk.Keys
    requires h in hs
    ensures SlotWell(BootNext(s, after, hs, names), h)
  {
    var g := hs[h].slot.current.value;
    assert Survives(s.disk, g.id, s.cfg.checksum);
    assert g.id in Survivors(s.disk, s.cfg.checksum);
  }

  lemma BootSeats(s: State, after: Disk, hs: map<nat, Handle>, names: map<string, nat>, g: GenId)
    requires CandidatesNamed(s) && Restores(s.disk, s.cfg.checksum, hs, names)
    requires g in Survivors(s.disk, s.cfg.checksum)
    ensures Seated(BootNext(s, after, hs, names), g)
  {
    var n := s.disk[g].marker.now.value.name;
    assert Survives(s.disk, g, s.cfg.checksum);
    assert hs[names[n]].slot.current.value.id == g;
  }

  lemma BootKeepsOwnership(s: State, after: Disk, hs: map<nat, Handle>, names: map<string, nat>)
    requires s.ops == map[] && CandidatesNamed(s)
    requires Restores(s.disk, s.cfg.checksum, hs, names) && after.Keys == s.disk.Keys
    ensures OwnInv(BootNext(s, after, hs, names))
  {
    forall h | h in hs
      ensures SlotWell(BootNext(s, after, hs, names), h)
    {
      BootSlot(s, after, hs, names, h);
    }
    forall g | g in Survivors(s.disk, s.cfg.checksum)
      ensures Seated(BootNext(s, after, hs, names), g)
    {
      BootSeats(s, after, hs, names, g);
    }
  }
}
