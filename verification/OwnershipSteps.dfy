// Every step keeps the ownership invariant.
module OwnershipSteps {
  import opened Common
  import opened GenIds
  import opened Generations
  import opened Records
  import opened DiskModel
  import opened Transitions
  import opened StoreMachine
  import opened Leases
  import opened Ownership

  // -------------------------------------------------------------------------
  // The stages of an upload between admission and flip, and the ends of a log
  // -------------------------------------------------------------------------

  // A writer moves to its next stage, and only its own generation's log and directory change with it.
  lemma WriterStageIsQuiet(s: State, t: State, o: nat, stage: WriterStage)
    requires IsWriting(s, o) && t.ops == s.ops[o := s.ops[o].(stage := stage)]
    requires t.up == s.up && t.handles == s.handles && t.reg == s.reg && t.minted == s.minted && t.extant == s.extant
    requires SameClock(s, t)
    requires forall g | g in s.logs :: g in t.logs
    requires forall g | g in s.disk :: g in t.disk
    ensures Quiet(s, t, o)
  {
  }

  lemma ReserveIsQuiet(s: State, o: nat, chunk: seq<Byte>)
    requires IsWriting(s, o)
    ensures Quiet(s, ReserveNext(s, o, chunk), o)
  {
    hide Quiet;
    var t := ReserveNext(s, o, chunk);
    assert s.ops == s.ops[o := s.ops[o]];
    WriterStageIsQuiet(s, t, o, if t == s then s.ops[o].stage else Reserved(chunk));
  }

  lemma AppendIsQuiet(s: State, o: nat, stored: nat)
    requires IsWriting(s, o) && s.ops[o].stage.Reserved? && stored <= |s.ops[o].stage.chunk|
    ensures Quiet(s, AppendNext(s, o, stored), o)
  {
  }

  lemma ReturnTailIsQuiet(s: State, o: nat)
    requires IsWriting(s, o) && s.ops[o].stage.ShortBy?
    ensures Quiet(s, ReturnTailNext(s, o), o)
  {
  }

  lemma SyncBytesIsQuiet(s: State, o: nat, ok: bool)
    requires IsWriting(s, o)
    ensures Quiet(s, SyncBytesNext(s, o, ok), o)
  {
  }

  lemma PublishIsQuiet(s: State, o: nat, outcome: Outcome)
    requires IsPublishing(s, o)
    ensures Quiet(s, PublishNext(s, o, outcome), o)
  {
    hide Quiet, RecordOf, Finalize;
    var at := s.ops[o].stage.at;
    WriterStageIsQuiet(s, PublishNext(s, o, outcome), o,
                       match outcome case NeverTook => Failing(false) case TookUnflushed => Failing(true)
                                     case TookDurable => Published(at));
  }

  lemma AbortPublishIsQuiet(s: State, o: nat, outcome: Outcome)
    requires IsWriting(s, o)
    ensures Quiet(s, AbortPublishNext(s, o, outcome), o)
  {
  }

  lemma FinishLogIsQuiet(s: State, o: nat)
    requires IsFinishing(s, o)
    ensures Quiet(s, FinishLogNext(s, o), o)
  {
  }

  lemma TearLogIsQuiet(s: State, o: nat)
    requires IsTearing(s, o)
    ensures Quiet(s, TearLogNext(s, o), o)
  {
  }

  // An operation that refuses, fails or waits changes nothing but its own stage.
  lemma StageIsQuiet(s: State, o: nat, op: Op)
    requires At(s, o) && op.Leased() && op.h == s.ops[o].h
    requires !op.Writing? && !s.ops[o].Writing? && op.EndsLog().None?
    requires op.Owes() == s.ops[o].Owes() && op.Clears() == s.ops[o].Clears()
    ensures Quiet(s, s.SetOp(o, op), o)
  {
  }

  // -------------------------------------------------------------------------
  // Admission
  // -------------------------------------------------------------------------

  // An admission that is not refused mints an id nobody holds.
  lemma FreshIsUnheld(s: State, g: GenId, p: nat)
    requires OpsWell(s) && SlotsWell(s) && g !in s.minted && p in s.ops && s.ops[p].Leased()
    ensures s.ops[p].h in s.handles
    ensures var hd := s.handles[s.ops[p].h];
            && !IsLive(hd, g) && !IsCurrent(hd, g) && s.ops[p].Owes() != Some(g) && s.ops[p].Clears() != Some(g)
            && s.ops[p].EndsLog() != Some(g)
  {
    assert HoldsWell(s, s.ops[p]);
    assert SlotWell(s, s.ops[p].h);
  }

  lemma HalfMadeOps(s: State, o: nat, tail: Option<Uint64>)
    requires OpsWell(s) && Admits(s, o, tail)
    ensures OpsWell(AdmitNext(s, o, tail, false))
  {
    var t := AdmitNext(s, o, tail, false);
    AdmitMoves(s, o, tail, false);
    forall p | p in s.ops && s.ops[p].Leased()
      ensures HoldsWell(s, s.ops[p])
    {
    }
    OpsFrame(s, t, o);
  }

  lemma HalfMadeKeepsOwnership(s: State, o: nat, tail: Option<Uint64>)
    requires LeaseInv(s) && OwnInv(s) && Admits(s, o, tail)
    ensures OwnInv(AdmitNext(s, o, tail, false))
  {
    hide OpsWell, OneOwner, NoneLost, LeaseInv, SlotsWell;
    var t := AdmitNext(s, o, tail, false);
    AdmitMoves(s, o, tail, false);
    SlotOfSame(s, t, o);
    SlotsWellExtant(s);
    SlotsFrame(s, t, o);
    HalfMadeOps(s, o, tail);
    OwnersFrame(s, t, o);
    LostFrame(s, t, o);
  }

  // A slot whose generations did not move is still well, as long as no writer or clearer left it.
  lemma SlotOfSame(s: State, t: State, o: nat)
    requires SlotsWell(s) && Moves(s, t, o) && Keeps(s, t) && t.extant == s.extant
    requires !s.ops[o].Writing? && s.ops[o].Clears().None?
    requires t.handles[s.ops[o].h].slot.current == s.handles[s.ops[o].h].slot.current
    requires t.handles[s.ops[o].h].slot.live == s.handles[s.ops[o].h].slot.live
    ensures SlotWell(t, s.ops[o].h)
  {
    var h := s.ops[o].h;
    assert SlotWell(s, h);
    var slot := s.handles[h].slot;
    if slot.current.Some? && slot.current.value.state == GenConsumed {
      var p :| ClearerOf(s, p, h, slot.current.value.id);
      assert ClearerOf(t, p, h, slot.current.value.id);
    }
    if slot.live.Some? {
      var p :| WriterOf(s, p, h, slot.live.value.id);
      assert WriterOf(t, p, h, slot.live.value.id);
    }
  }

  ghost predicate Admits(s: State, o: nat, tail: Option<Uint64>) {
    && AdmitEnabled(s, o, tail) && tail.Some?
    && Admission(s.handles[s.ops[o].h].slot, s.now, s.ops[o].opts.ifMatch, s.clips, s.cfg.maxClips) == Admitted
  }

  lemma AdmittedSlot(s: State, o: nat, tail: Option<Uint64>)
    requires SlotsWell(s) && Admits(s, o, tail)
    ensures SlotWell(AdmitNext(s, o, tail, true), s.ops[o].h)
  {
    var t := AdmitNext(s, o, tail, true);
    var h := s.ops[o].h;
    AdmitMoves(s, o, tail, true);
    assert SlotWell(s, h);
    var slot := s.handles[h].slot;
    if slot.current.Some? && slot.current.value.state == GenConsumed {
      var p :| ClearerOf(s, p, h, slot.current.value.id);
      assert ClearerOf(t, p, h, slot.current.value.id);
    }
    assert WriterOf(t, o, h, FreshId(s, h, tail.value));
  }

  lemma AdmittedOps(s: State, o: nat, tail: Option<Uint64>)
    requires OpsWell(s) && SlotsWell(s) && Admits(s, o, tail)
    ensures var t := AdmitNext(s, o, tail, true);
            && HoldsWell(t, t.ops[o])
            && forall p | p in s.ops && p != o && s.ops[p].Leased() ::
                 && (s.ops[p].Owes().Some? ==> s.ops[p].Owes().value in t.extant)
                 && (s.ops[p].h == s.ops[o].h ==> HoldsWell(t, s.ops[p]))
  {
    var t := AdmitNext(s, o, tail, true);
    AdmitMoves(s, o, tail, true);
    var id := FreshId(s, s.ops[o].h, tail.value);
    forall p | p in s.ops && p != o && s.ops[p].Leased()
      ensures s.ops[p].Owes().Some? ==> s.ops[p].Owes().value in t.extant
      ensures s.ops[p].h == s.ops[o].h ==> HoldsWell(t, s.ops[p])
    {
      assert HoldsWell(s, s.ops[p]);
      FreshIsUnheld(s, id, p);
    }
  }

  lemma AdmittedOwners(s: State, o: nat, tail: Option<Uint64>)
    requires OwnInv(s) && Admits(s, o, tail)
    ensures OneOwner(AdmitNext(s, o, tail, true))
  {
    hide ClockAhead, NoneLost;
    var t := AdmitNext(s, o, tail, true);
    var id := FreshId(s, s.ops[o].h, tail.value);
    AdmitMoves(s, o, tail, true);
    forall p | p in s.ops && p != o
      ensures s.ops[p].EndsLog() != Some(id)
    {
      if s.ops[p].Leased() {
        FreshIsUnheld(s, id, p);
      }
    }
    OwnersFrame(s, t, o);
  }

  lemma AdmittedLosesNone(s: State, o: nat, tail: Option<Uint64>)
    requires LeaseInv(s) && OwnInv(s) && Admits(s, o, tail)
    ensures NoneLost(AdmitNext(s, o, tail, true))
  {
    hide ClockAhead, NoneLost, OneOwner, OpsWell, SlotsWell, LeaseInv;
    var t := AdmitNext(s, o, tail, true);
    var h := s.ops[o].h;
    var id := FreshId(s, h, tail.value);
    AdmitMoves(s, o, tail, true);
    assert InHand(t, o, id) && Named(t, id, s.handles[h].name);
    FreshIsUnheld(s, id, o);
    LostFrame(s, t, o);
  }

  lemma AdmittedKeepsOwnership(s: State, o: nat, tail: Option<Uint64>)
    requires LeaseInv(s) && OwnInv(s) && Admits(s, o, tail)
    ensures OwnInv(AdmitNext(s, o, tail, true))
  {
    hide OpsWell, OneOwner, NoneLost, LeaseInv, SlotWell, ClockAhead;
    var t := AdmitNext(s, o, tail, true);
    AdmitMoves(s, o, tail, true);
    AdmittedSlot(s, o, tail);
    SlotsWellExtant(s);
    SlotsFrame(s, t, o);
    AdmittedOps(s, o, tail);
    OpsFrame(s, t, o);
    AdmittedOwners(s, o, tail);
    AdmittedLosesNone(s, o, tail);
  }

  lemma AdmitKeepsOwnership(s: State, o: nat, tail: Option<Uint64>, made: bool)
    requires LeaseInv(s) && OwnInv(s) && AdmitEnabled(s, o, tail)
    ensures OwnInv(AdmitNext(s, o, tail, made))
  {
    if !Admits(s, o, tail) {
      StageIsQuiet(s, o, Leaving(s.ops[o].h));
      QuietKeepsOwnership(s, AdmitNext(s, o, tail, made), o);
    } else if made {
      AdmittedKeepsOwnership(s, o, tail);
    } else {
      HalfMadeKeepsOwnership(s, o, tail);
    }
  }

  // -------------------------------------------------------------------------
  // The flip and the discard
  // -------------------------------------------------------------------------

  // The writer is the only operation on its handle that writes, and nobody else has a claim on what it writes.
  lemma WriterIsAlone(s: State, o: nat, p: nat)
    requires OwnInv(s) && o in s.ops && s.ops[o].Writing? && p in s.ops && p != o && s.ops[p].Leased()
    requires s.ops[p].h == s.ops[o].h
    ensures !s.ops[p].Writing? && s.ops[p].Owes() != Some(s.ops[o].g) && s.ops[p].Clears() != Some(s.ops[o].g)
    ensures s.ops[p].Finishing? ==> s.ops[p].g != s.ops[o].g
  {
    assert HoldsWell(s, s.ops[p]);
    assert HoldsWell(s, s.ops[o]);
  }

  // Whatever a slot holds finalized, no operation anywhere owes.
  lemma FinalIsUnowed(s: State, o: nat, p: nat, g: GenId)
    requires LeaseInv(s) && OwnInv(s) && o in s.ops && s.ops[o].Leased() && p in s.ops && s.ops[o].h in s.handles
    requires IsFinal(s.handles[s.ops[o].h], g) || IsLive(s.handles[s.ops[o].h], g)
    ensures s.ops[p].Owes() != Some(g)
  {
    if s.ops[p].Owes() == Some(g) {
      assert HoldsWell(s, s.ops[p]);
      assert SlotWell(s, s.ops[o].h);
      OneHandlePerName(s, o, p);
    }
  }

  lemma FlipSlot(s: State, o: nat)
    requires OwnInv(s) && IsFlipping(s, o)
    ensures SlotWell(FlipNext(s, o), s.ops[o].h)
  {
    assert SlotWell(s, s.ops[o].h);
    assert HoldsWell(s, s.ops[o]);
  }

  lemma FlipOps(s: State, o: nat)
    requires OwnInv(s) && IsFlipping(s, o)
    ensures var t := FlipNext(s, o);
            && HoldsWell(t, t.ops[o])
            && forall p | p in s.ops && p != o && s.ops[p].Leased() ::
                 && (s.ops[p].Owes().Some? ==> s.ops[p].Owes().value in t.extant)
                 && (s.ops[p].h == s.ops[o].h ==> HoldsWell(t, s.ops[p]))
  {
    var t := FlipNext(s, o);
    assert SlotWell(s, s.ops[o].h);
    assert HoldsWell(s, s.ops[o]);
    forall p | p in s.ops && p != o && s.ops[p].Leased()
      ensures s.ops[p].Owes().Some? ==> s.ops[p].Owes().value in t.extant
      ensures s.ops[p].h == s.ops[o].h ==> HoldsWell(t, s.ops[p])
    {
      assert HoldsWell(s, s.ops[p]);
      if s.ops[p].h == s.ops[o].h {
        WriterIsAlone(s, o, p);
      }
    }
  }

  lemma FlipOwners(s: State, o: nat)
    requires LeaseInv(s) && OwnInv(s) && IsFlipping(s, o)
    ensures OneOwner(FlipNext(s, o))
  {
    var t := FlipNext(s, o);
    FlipMoves(s, o);
    assert SlotWell(s, s.ops[o].h);
    if t.ops[o].Owes().Some? {
      forall p | p in s.ops && p != o
        ensures s.ops[p].Owes() != t.ops[o].Owes()
      {
        FinalIsUnowed(s, o, p, t.ops[o].prev.value);
      }
    }
    OwnersFrame(s, t, o);
  }

  lemma FlipLosesNone(s: State, o: nat)
    requires LeaseInv(s) && OwnInv(s) && IsFlipping(s, o)
    ensures NoneLost(FlipNext(s, o))
  {
    hide SlotsWell, OneOwner;
    FlipMoves(s, o);
    assert HoldsWell(s, s.ops[o]);
    LostFrame(s, FlipNext(s, o), o);
  }

  lemma FlipKeepsOwnership(s: State, o: nat)
    requires LeaseInv(s) && OwnInv(s) && IsFlipping(s, o)
    ensures OwnInv(FlipNext(s, o))
  {
    hide OpsWell, OneOwner, NoneLost, LeaseInv, SlotWell;
    var t := FlipNext(s, o);
    FlipOwners(s, o);
    FlipLosesNone(s, o);
    FlipMoves(s, o);
    FlipSlot(s, o);
    SlotsWellExtant(s);
    SlotsFrame(s, t, o);
    FlipOps(s, o);
    OpsFrame(s, t, o);
  }

  lemma DiscardOps(s: State, o: nat)
    requires OwnInv(s) && IsWriting(s, o)
    ensures var t := DiscardNext(s, o);
            && HoldsWell(t, t.ops[o]) && SlotWell(t, s.ops[o].h)
            && forall p | p in s.ops && p != o && s.ops[p].Leased() ::
                 && (s.ops[p].Owes().Some? ==> s.ops[p].Owes().value in t.extant)
                 && (s.ops[p].h == s.ops[o].h ==> HoldsWell(t, s.ops[p]))
  {
    var t := DiscardNext(s, o);
    var h := s.ops[o].h;
    assert SlotWell(s, h);
    assert HoldsWell(s, s.ops[o]);
    if s.handles[h].slot.current.Some? && s.handles[h].slot.current.value.state == GenConsumed {
      var p :| ClearerOf(s, p, h, s.handles[h].slot.current.value.id);
      assert ClearerOf(t, p, h, s.handles[h].slot.current.value.id);
    }
    forall p | p in s.ops && p != o && s.ops[p].Leased()
      ensures s.ops[p].Owes().Some? ==> s.ops[p].Owes().value in t.extant
      ensures s.ops[p].h == s.ops[o].h ==> HoldsWell(t, s.ops[p])
    {
      assert HoldsWell(s, s.ops[p]);
      if s.ops[p].h == s.ops[o].h {
        WriterIsAlone(s, o, p);
      }
    }
  }

  lemma DiscardOwners(s: State, o: nat)
    requires LeaseInv(s) && OwnInv(s) && IsWriting(s, o)
    ensures OneOwner(DiscardNext(s, o))
  {
    hide NoneLost, SlotsWell, LeaseInv;
    var t := DiscardNext(s, o);
    DiscardMoves(s, o);
    OpHolds(s, o);
    forall p | p in s.ops && p != o
      ensures s.ops[p].Owes() != t.ops[o].Owes()
    {
      FinalIsUnowed(s, o, p, s.ops[o].g);
    }
    OwnersFrame(s, t, o);
  }

  lemma DiscardLosesNone(s: State, o: nat)
    requires LeaseInv(s) && OwnInv(s) && IsWriting(s, o)
    ensures NoneLost(DiscardNext(s, o))
  {
    hide NoneLost, SlotsWell, LeaseInv, OneOwner, OpsWell;
    OpHolds(s, o);
    DiscardMoves(s, o);
    LostFrame(s, DiscardNext(s, o), o);
  }

  lemma DiscardKeepsOwnership(s: State, o: nat)
    requires LeaseInv(s) && OwnInv(s) && IsWriting(s, o)
    ensures OwnInv(DiscardNext(s, o))
  {
    hide OpsWell, OneOwner, NoneLost, LeaseInv, SlotWell;
    var t := DiscardNext(s, o);
    DiscardMoves(s, o);
    DiscardOps(s, o);
    SlotsWellExtant(s);
    SlotsFrame(s, t, o);
    OpsFrame(s, t, o);
    DiscardOwners(s, o);
    DiscardLosesNone(s, o);
  }
}
