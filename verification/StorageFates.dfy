// The storage invariant across the steps that decide a generation's fate, and across leases.
module StorageFates {
  import opened Common
  import opened GenIds
  import opened Generations
  import opened Records
  import opened DiskModel
  import opened Transitions
  import opened StoreMachine
  import opened Leases
  import opened Ownership
  import opened OwnershipSteps
  import opened OwnershipTail
  import opened Gates
  import opened Storage
  import opened StorageSteps

  // -------------------------------------------------------------------------
  // The end of a log
  // -------------------------------------------------------------------------

  // Only the end of one log changes, and the operation that owed it moves on.
  ghost predicate EndsOne(s: State, t: State, o: nat, end: LogEnd) {
    && Quiet(s, t, o) && s.ops[o].EndsLog().Some? && t.ops[o].EndsLog().None?
    && (t.ops[o].Owing? || t.ops[o].Leaving?)
    && t.disk == s.disk && t.cfg == s.cfg && t.up == s.up && t.settled == s.settled
    && t.minted == s.minted && t.published == s.published
    && t.acked == s.acked && t.ended == s.ended && t.gone == s.gone && t.delivered == s.delivered
    && s.ops[o].EndsLog().value in s.logs
    && t.logs == s.logs[s.ops[o].EndsLog().value := s.logs[s.ops[o].EndsLog().value].(end := end)]
  }

  lemma EndsOneOps(s: State, t: State, o: nat, end: LogEnd)
    requires OneOwner(s) && OpsStored(s) && EndsOne(s, t, o, end)
    ensures OpsStored(t)
  {
    forall p | p in t.ops
      ensures StoredWell(t, t.ops[p])
    {
      if p != o {
        assert StoredWell(s, s.ops[p]);
        assert s.ops[p].EndsLog() != s.ops[o].EndsLog();
      }
    }
  }

  lemma EndsOneKeepsStore(s: State, t: State, o: nat, end: LogEnd)
    requires Base(s) && StoreInv(s) && s.up && EndsOne(s, t, o, end)
    requires var g := s.ops[o].EndsLog().value;
             if end == Finished then g in s.published && s.published[g].bytes == s.logs[g].bytes
             else end == Torn && g !in s.acked
    ensures StoreInv(t)
  {
    hide DirsWell, FatesWell, SlotsStored, OpsStored, SeedBounds, LeaseInv, GateInv, OpsWell, SlotsWell, NoneLost;
    EndsOneOps(s, t, o, end);
    EndsOneSlots(s, t, o, end);
    EndedKept(s, t);
  }

  lemma EndsOneSlots(s: State, t: State, o: nat, end: LogEnd)
    requires SlotsStored(s) && EndsOne(s, t, o, end)
    ensures SlotsStored(t)
  {
    forall h | h in t.handles
      ensures SlotStored(t, t.handles[h])
    {
      assert SlotStored(s, s.handles[h]);
    }
  }

  lemma EndedKept(s: State, t: State)
    requires DirsWell(s) && FatesWell(s) && SeedBounds(s)
    requires t.disk == s.disk && t.cfg == s.cfg && t.up == s.up && t.settled == s.settled
    requires t.minted == s.minted && t.published == s.published
    requires t.acked == s.acked && t.ended == s.ended && t.gone == s.gone && t.delivered == s.delivered
    requires t.handles == s.handles && t.reg == s.reg
    ensures DirsWell(t) && FatesWell(t) && SeedBounds(t)
  {
    forall g | g in t.disk
      ensures DirWell(t, g)
    {
      assert DirWell(s, g);
    }
    forall g | g in t.published
      ensures PublicationWell(t, g)
    {
      assert PublicationWell(s, g);
    }
    forall g | g in t.acked - t.ended
      ensures Acknowledged(t, g)
    {
      assert Acknowledged(s, g);
    }
    forall g | g in t.gone
      ensures Gone(t, g)
    {
      assert Gone(s, g);
    }
  }

  lemma FinishLogKeepsStore(s: State, o: nat)
    requires Base(s) && StoreInv(s) && s.up && IsFinishing(s, o)
    ensures StoreInv(FinishLogNext(s, o))
  {
    hide DirsWell, FatesWell, LogsWell, SlotsStored, SeedBounds, LeaseInv, OwnInv, GateInv;
    FinishLogIsQuiet(s, o);
    assert StoredWell(s, s.ops[o]);
    EndsOneKeepsStore(s, FinishLogNext(s, o), o, Finished);
  }

  lemma TearLogKeepsStore(s: State, o: nat)
    requires Base(s) && StoreInv(s) && s.up && IsTearing(s, o)
    ensures StoreInv(TearLogNext(s, o))
  {
    hide DirsWell, FatesWell, LogsWell, SlotsStored, SeedBounds, LeaseInv, OwnInv, GateInv;
    TearLogIsQuiet(s, o);
    assert StoredWell(s, s.ops[o]);
    EndsOneKeepsStore(s, TearLogNext(s, o), o, Torn);
  }

  // -------------------------------------------------------------------------
  // Steps that move a handle: what every one of them must show
  // -------------------------------------------------------------------------

  // What a slot elsewhere stores depends only on its own finalized generation.
  lemma OtherSlotStored(s: State, t: State, hd: Handle)
    requires SlotStored(s, hd) && t.cfg == s.cfg
    requires hd.slot.current.Some? && hd.slot.current.value.state == GenFinalized ==>
               var g := hd.slot.current.value.id;
               && (g in s.published ==> g in t.published && t.published[g] == s.published[g])
               && (g in s.disk ==> g in t.disk && t.disk[g] == s.disk[g])
               && (g in s.logs ==> g in t.logs && t.logs[g] == s.logs[g])
    ensures SlotStored(t, hd)
  {
  }

  // -------------------------------------------------------------------------
  // Admission
  // -------------------------------------------------------------------------

  // The seed a successful mint leaves still bounds everything a crash could return.
  lemma AdmitBounds(s: State, o: nat, tail: Option<Uint64>, made: bool)
    requires Base(s) && StoreInv(s) && s.up && Admits(s, o, tail)
    ensures SeedBounds(AdmitNext(s, o, tail, made))
  {
    hide OpsStored, SlotsStored, FatesWell, LogsWell, OwnInv, PublicationWell;
    var t := AdmitNext(s, o, tail, made);
    var h := s.ops[o].h;
    var id := FreshId(s, h, tail.value);
    LeasePins(s, o);
    AdmitMoves(s, o, tail, made);
    AdmitAdvances(s, o, tail);
    forall g | s.settled && g in t.disk && t.disk[g].MayReturn() && g in t.minted && t.minted[g] in t.reg
               && t.reg[t.minted[g]] in t.handles && t.handles[t.reg[t.minted[g]]].slot.lastPrefix > 0
      ensures g.prefix <= t.handles[t.reg[t.minted[g]]].slot.lastPrefix
    {
      assert g != id;
      assert g in s.disk && t.disk[g] == s.disk[g];
      assert DirWell(s, g);
    }
  }

  // One more directory, empty, for an id not minted before; perhaps one more log, still open.
  lemma MintsDir(s: State, t: State, id: GenId, name: string, dir: GenDir)
    requires DirsWell(s) && id !in s.minted && id !in s.disk && id.prefix > 0
    requires dir == GenDir.Fresh() || dir == GenDir.HalfMade()
    requires t.disk == s.disk[id := dir] && t.minted == s.minted[id := name] && t.published == s.published
    ensures DirsWell(t)
  {
    forall g | g in t.disk
      ensures DirWell(t, g)
    {
      assert g in t.published ==> PublicationWell(s, g);
      assert g in s.disk ==> DirWell(s, g);
    }
    forall g | g in t.published
      ensures PublicationWell(t, g)
    {
      assert PublicationWell(s, g);
    }
  }

  lemma AdmitDirs(s: State, o: nat, tail: Option<Uint64>, made: bool)
    requires DirsWell(s) && LogsWell(s) && Admits(s, o, tail) && FreshId(s, s.ops[o].h, tail.value) !in s.published
    ensures DirsWell(AdmitNext(s, o, tail, made)) && LogsWell(AdmitNext(s, o, tail, made))
  {
    hide DirsWell, ClockAhead;
    var id := FreshId(s, s.ops[o].h, tail.value);
    AdmitAdvances(s, o, tail);
    MintsDir(s, AdmitNext(s, o, tail, made), id, s.handles[s.ops[o].h].name,
             if made then GenDir.Fresh() else GenDir.HalfMade());
  }

  lemma AdmitFates(s: State, o: nat, tail: Option<Uint64>, made: bool)
    requires FatesWell(s) && s.up && Admits(s, o, tail)
    ensures FatesWell(AdmitNext(s, o, tail, made))
  {
    var t := AdmitNext(s, o, tail, made);
    forall g | g in t.acked - t.ended
      ensures Acknowledged(t, g)
    {
      assert Acknowledged(s, g);
    }
    forall g | g in t.gone
      ensures Gone(t, g)
    {
      assert Gone(s, g);
    }
  }

  lemma AdmitSlots(s: State, o: nat, tail: Option<Uint64>, made: bool)
    requires SlotsStored(s) && Admits(s, o, tail) && StoredWell(s, s.ops[o])
    requires forall h | h in s.handles && s.handles[h].slot.current.Some? :: s.handles[h].slot.current.value.id in s.minted
    ensures SlotsStored(AdmitNext(s, o, tail, made))
  {
    var t := AdmitNext(s, o, tail, made);
    forall h | h in t.handles
      ensures SlotStored(t, t.handles[h])
    {
      assert SlotStored(s, s.handles[h]);
    }
  }

  lemma AdmitOps(s: State, o: nat, tail: Option<Uint64>, made: bool)
    requires OpsStored(s) && Admits(s, o, tail)
    requires var id := FreshId(s, s.ops[o].h, tail.value);
             && id !in s.acked && id !in s.gone && id !in s.published
             && forall p | p in s.ops && p != o :: s.ops[p].EndsLog() != Some(id) && (s.ops[p].Writing? ==> s.ops[p].h != s.ops[o].h)
    ensures OpsStored(AdmitNext(s, o, tail, made))
  {
    var t := AdmitNext(s, o, tail, made);
    forall p | p in t.ops
      ensures StoredWell(t, t.ops[p])
    {
      if p != o {
        assert StoredWell(s, s.ops[p]);
      }
    }
  }

  // The id an admission mints has no past, and no writer stands where it is installed.
  lemma AdmitIsClean(s: State, o: nat, tail: Option<Uint64>)
    requires Base(s) && StoreInv(s) && s.up && Admits(s, o, tail)
    ensures var id := FreshId(s, s.ops[o].h, tail.value);
            && id !in s.acked && id !in s.gone && id !in s.published
            && forall p | p in s.ops && p != o :: s.ops[p].EndsLog() != Some(id) && (s.ops[p].Writing? ==> s.ops[p].h != s.ops[o].h)
    ensures forall h | h in s.handles && s.handles[h].slot.current.Some? :: s.handles[h].slot.current.value.id in s.minted
  {
    var id := FreshId(s, s.ops[o].h, tail.value);
    assert id in s.published ==> PublicationWell(s, id);
    assert id in s.gone ==> Gone(s, id);
    forall p | p in s.ops && p != o
      ensures s.ops[p].EndsLog() != Some(id) && (s.ops[p].Writing? ==> s.ops[p].h != s.ops[o].h)
    {
      if s.ops[p].Leased() {
        FreshIsUnheld(s, id, p);
        assert HoldsWell(s, s.ops[p]);
      }
    }
    forall h | h in s.handles && s.handles[h].slot.current.Some?
      ensures s.handles[h].slot.current.value.id in s.minted
    {
      assert SlotWell(s, h);
    }
  }

  lemma AdmitKeepsStore(s: State, o: nat, tail: Option<Uint64>, made: bool)
    requires Base(s) && StoreInv(s) && s.up && AdmitEnabled(s, o, tail)
    ensures StoreInv(AdmitNext(s, o, tail, made))
  {
    hide DirsWell, FatesWell, LogsWell, SlotsStored, SeedBounds, LeaseInv, OwnInv, GateInv, ClockAhead;
    if Admits(s, o, tail) {
      AdmitIsClean(s, o, tail);
      AdmitBounds(s, o, tail, made);
      AdmitDirs(s, o, tail, made);
      AdmitFates(s, o, tail, made);
      assert StoredWell(s, s.ops[o]);
      AdmitSlots(s, o, tail, made);
      AdmitOps(s, o, tail, made);
    } else {
      StageIsQuiet(s, o, Leaving(s.ops[o].h));
      QuietKeepsStore(s, AdmitNext(s, o, tail, made), o);
    }
  }

  // -------------------------------------------------------------------------
  // The flip and the discard
  // -------------------------------------------------------------------------

  // No other operation writes on the writer's handle, or ends its log.
  ghost predicate Alone(s: State, o: nat) {
    && o in s.ops && s.ops[o].Writing?
    && forall p | p in s.ops && p != o ::
         && (s.ops[p].Writing? ==> s.ops[p].h != s.ops[o].h)
         && s.ops[p].EndsLog() != Some(s.ops[o].g)
  }

  lemma WriterAlone(s: State, o: nat)
    requires OwnInv(s) && o in s.ops && s.ops[o].Writing?
    ensures Alone(s, o)
  {
    assert s.ops[o].EndsLog() == Some(s.ops[o].g);
    forall p | p in s.ops && p != o && s.ops[p].Writing?
      ensures s.ops[p].h != s.ops[o].h
    {
      if s.ops[p].h == s.ops[o].h {
        WriterIsAlone(s, o, p);
      }
    }
  }

  lemma FlipOpsStored(s: State, o: nat)
    requires OpsStored(s) && Alone(s, o) && IsFlipping(s, o)
    ensures OpsStored(FlipNext(s, o))
  {
    var t := FlipNext(s, o);
    assert StoredWell(s, s.ops[o]);
    forall p | p in t.ops
      ensures StoredWell(t, t.ops[p])
    {
      if p != o {
        assert StoredWell(s, s.ops[p]);
      }
    }
  }

  // The flipped generation is durable before it is visible.
  lemma FlipSlotsStored(s: State, o: nat)
    requires Base(s) && StoreInv(s) && s.up && IsFlipping(s, o)
    ensures SlotsStored(FlipNext(s, o))
  {
    hide FlipNext, SlotStored, StoredWell, LeaseInv, GateInv, DirsWell, FatesWell, LogsWell, SeedBounds;
    var t := FlipNext(s, o);
    FlipMoves(s, o);
    FlipKeepsFiles(s, o);
    FlippedIsStored(s, o);
    forall h | h in t.handles
      ensures SlotStored(t, t.handles[h])
    {
      if h != s.ops[o].h {
        OtherSlotStored(s, t, s.handles[h]);
      }
    }
  }

  lemma FlipKeepsFiles(s: State, o: nat)
    requires IsFlipping(s, o)
    ensures var t := FlipNext(s, o);
            t.cfg == s.cfg && t.published == s.published && t.disk == s.disk && t.logs == s.logs
  {
    hide Finalize;
  }

  lemma FlippedIsStored(s: State, o: nat)
    requires Base(s) && StoreInv(s) && s.up && IsFlipping(s, o)
    ensures s.ops[o].h in FlipNext(s, o).handles && SlotStored(FlipNext(s, o), FlipNext(s, o).handles[s.ops[o].h])
  {
    hide LeaseInv, GateInv, FatesWell, LogsWell, SeedBounds, PublicationWell;
    assert StoredWell(s, s.ops[o]);
    assert HoldsWell(s, s.ops[o]);
    assert SlotStored(s, s.handles[s.ops[o].h]);
    assert DirWell(s, s.ops[o].g);
  }

  lemma FlipFates(s: State, o: nat)
    requires FatesWell(s) && IsFlipping(s, o) && s.up
    requires var op := s.ops[o];
             && Kept(s, op.g) && IsLive(s.handles[op.h], op.g)
             && op.g in s.minted && s.minted[op.g] in s.reg && s.reg[s.minted[op.g]] == op.h
    ensures FatesWell(FlipNext(s, o))
  {
    var t := FlipNext(s, o);
    forall g | g in t.acked - t.ended
      ensures Acknowledged(t, g)
    {
      if g != s.ops[o].g {
        assert Acknowledged(s, g);
      }
    }
    forall g | g in t.gone
      ensures Gone(t, g)
    {
      assert Gone(s, g);
    }
  }

  lemma FlipIsReady(s: State, o: nat)
    requires LeaseInv(s) && OwnInv(s) && OpsStored(s) && IsFlipping(s, o)
    ensures var op := s.ops[o];
            && Kept(s, op.g) && IsLive(s.handles[op.h], op.g)
            && op.g in s.minted && s.minted[op.g] in s.reg && s.reg[s.minted[op.g]] == op.h
            && op.g in s.logs && s.logs[op.g].end == Open
  {
    LeasePins(s, o);
    assert StoredWell(s, s.ops[o]);
    assert HoldsWell(s, s.ops[o]);
    assert SlotWell(s, s.ops[o].h);
  }

  lemma FlipKeepsStore(s: State, o: nat)
    requires Base(s) && StoreInv(s) && s.up && IsFlipping(s, o)
    ensures StoreInv(FlipNext(s, o))
  {
    hide DirsWell, FatesWell, SeedBounds, SlotsStored, OpsStored, LeaseInv, OwnInv, GateInv, Finalize, RecordOf;
    var t := FlipNext(s, o);
    WriterAlone(s, o);
    FlipOpsStored(s, o);
    FlipSlotsStored(s, o);
    FlipIsReady(s, o);
    FlipFates(s, o);
    FlipMoves(s, o);
    SameDirs(s, t);
    BoundsFrame(s, t, o);
  }

  // The disk, its publications and the mint are as they were.
  lemma SameDirs(s: State, t: State)
    requires DirsWell(s) && t.disk == s.disk && t.published == s.published && t.minted == s.minted
    ensures DirsWell(t)
  {
    forall g | g in t.disk
      ensures DirWell(t, g)
    {
      assert DirWell(s, g);
    }
    forall g | g in t.published
      ensures PublicationWell(t, g)
    {
      assert PublicationWell(s, g);
    }
  }

  // No directory became returnable and no seed moved back.
  lemma BoundsFrame(s: State, t: State, o: nat)
    requires SeedBounds(s) && DirsWell(s) && Moves(s, t, o) && t.minted == s.minted && t.settled == s.settled
    requires t.handles[s.ops[o].h].slot.lastPrefix == s.handles[s.ops[o].h].slot.lastPrefix
    requires forall g | g in t.disk && t.disk[g].MayReturn() :: g in s.disk && s.disk[g].MayReturn()
    ensures SeedBounds(t)
  {
  }

  lemma DiscardOpsStored(s: State, o: nat)
    requires OpsStored(s) && Alone(s, o) && IsWriting(s, o)
    ensures OpsStored(DiscardNext(s, o))
  {
    var t := DiscardNext(s, o);
    assert StoredWell(s, s.ops[o]);
    forall p | p in t.ops
      ensures StoredWell(t, t.ops[p])
    {
      if p != o {
        assert StoredWell(s, s.ops[p]);
      }
    }
  }

  lemma DiscardKeepsStore(s: State, o: nat)
    requires Base(s) && StoreInv(s) && s.up && IsWriting(s, o)
    ensures StoreInv(DiscardNext(s, o))
  {
    var t := DiscardNext(s, o);
    DiscardMoves(s, o);
    WriterAlone(s, o);
    DiscardOpsStored(s, o);
    DiscardSlots(s, o);
    SameDirs(s, t);
    BoundsFrame(s, t, o);
  }

  lemma DiscardSlots(s: State, o: nat)
    requires StoreInv(s) && s.up && IsWriting(s, o)
    ensures SlotsStored(DiscardNext(s, o)) && FatesWell(DiscardNext(s, o))
  {
    hide OpsStored, DirsWell, LogsWell, SeedBounds, RecordOf, Validates;
    var t := DiscardNext(s, o);
    forall h | h in t.handles
      ensures SlotStored(t, t.handles[h])
    {
      assert SlotStored(s, s.handles[h]);
      OtherSlotStored(s, t, s.handles[h]);
    }
    forall g | g in t.acked - t.ended
      ensures Acknowledged(t, g)
    {
      assert Acknowledged(s, g);
    }
    forall g | g in t.gone
      ensures Gone(t, g)
    {
      assert Gone(s, g);
    }
  }
}
