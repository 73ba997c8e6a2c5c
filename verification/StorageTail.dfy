// The storage invariant across claims, retires, reclamation and leases.
module StorageTail {
  import opened Common
  import opened GenIds
  import opened Generations
  import opened Records
  import opened DiskModel
  import opened Transitions
  import opened StoreMachine
  import opened Leases
  import opened Ownership
  import opened OwnershipSteps
  import opened OwnershipTail
  import opened Gates
  import opened Storage
  import opened StorageSteps
  import opened StorageFates

  // -------------------------------------------------------------------------
  // A directory that nobody but its owner looks at changes towards absence
  // -------------------------------------------------------------------------

  // Directory `g` lost entries, or may lose them at a crash; it gained nothing.
  ghost predicate Lessened(s: State, t: State, g: GenId) {
    && g in s.disk && g in t.disk && t.disk == s.disk[g := t.disk[g]]
    && var a, b := s.disk[g], t.disk[g];
       && b.Sound() && b.bytes == a.bytes && b.flushed == a.flushed
       && b.marker.crash <= a.marker.crash + {None}
       && (a.Sealed() ==> b.Sealed()) && (b.MayReturn() ==> a.MayReturn())
  }

  lemma CommitAsideLessens(s: State, g: GenId, outcome: Outcome)
    requires g in s.disk && DirWell(s, g)
    ensures Lessened(s, s.SetDir(g, s.disk[g].Commit(None, outcome)), g)
    ensures outcome == TookDurable ==> s.disk[g].Commit(None, outcome).Sealed()
  {
  }

  lemma RemoveLessens(s: State, g: GenId, removal: Removal)
    requires g in s.disk && DirWell(s, g)
    ensures Lessened(s, s.SetDir(g, s.disk[g].Remove(removal)), g)
  {
  }

  lemma LessenedDirs(s: State, t: State, g: GenId)
    requires DirsWell(s) && Lessened(s, t, g) && t.published == s.published && t.minted == s.minted
    ensures DirsWell(t)
  {
    forall k | k in t.disk
      ensures DirWell(t, k)
    {
      assert DirWell(s, k);
    }
    forall k | k in t.published
      ensures PublicationWell(t, k)
    {
      assert PublicationWell(s, k);
    }
  }

  // No operation and no slot looks at the directory any more.
  ghost predicate Unseen(s: State, o: nat, g: GenId) {
    && (forall p | p in s.ops && p != o && s.ops[p].Writing? :: s.ops[p].g != g)
    && (forall k | k in s.handles && o in s.ops && (s.ops[o].Leased() ==> k != s.ops[o].h) :: !IsFinal(s.handles[k], g))
  }

  lemma FinalIsUnseen(s: State, o: nat, g: GenId)
    requires LeaseInv(s) && OwnInv(s) && o in s.ops && s.ops[o].Leased() && s.ops[o].h in s.handles
    requires IsFinal(s.handles[s.ops[o].h], g) || s.ops[o].Owes() == Some(g)
    ensures Unseen(s, o, g)
  {
    assert SlotWell(s, s.ops[o].h);
    assert HoldsWell(s, s.ops[o]);
    forall k | k in s.handles && k != s.ops[o].h
      ensures !IsFinal(s.handles[k], g)
    {
      SlotsApart(s, o, k, g);
    }
    forall p | p in s.ops && p != o && s.ops[p].Writing?
      ensures s.ops[p].g != g
    {
      if s.ops[p].g == g {
        assert HoldsWell(s, s.ops[p]);
        if s.ops[p].h != s.ops[o].h {
          SlotsApart(s, o, s.ops[p].h, g);
        }
      }
    }
  }

  // -------------------------------------------------------------------------
  // Claims and retires
  // -------------------------------------------------------------------------

  // The finalized current generation is taken: its marker is renamed aside, and its value has ended.
  ghost predicate TakesStore(s: State, t: State, o: nat, g: GenId, outcome: Outcome) {
    && Takes(s, t, o, g) && outcome != NeverTook && g in s.disk
    && t.disk == s.disk[g := s.disk[g].Commit(None, outcome)]
    && t.logs == s.logs && t.cfg == s.cfg && t.up == s.up && t.settled == s.settled
    && t.minted == s.minted && t.published == s.published
    && t.acked == s.acked && t.ended == s.ended + {g}
    && t.gone == (if outcome == TookDurable then s.gone + {g} else s.gone)
    && (t.delivered == s.delivered || (outcome == TookDurable && t.delivered == s.delivered + multiset{g}))
    && t.handles[s.ops[o].h].slot.lastPrefix == s.handles[s.ops[o].h].slot.lastPrefix
    && (t.ops[o].Owing? || t.ops[o].Opening?)
  }

  lemma TakesOpsStored(s: State, t: State, o: nat, g: GenId, outcome: Outcome)
    requires OpsStored(s) && Unseen(s, o, g) && TakesStore(s, t, o, g, outcome)
    ensures OpsStored(t)
  {
    forall p | p in t.ops
      ensures StoredWell(t, t.ops[p])
    {
      if p != o {
        assert StoredWell(s, s.ops[p]);
      }
    }
  }

  lemma TakesSlotsStored(s: State, t: State, o: nat, g: GenId, outcome: Outcome)
    requires SlotsStored(s) && Unseen(s, o, g) && TakesStore(s, t, o, g, outcome)
    ensures SlotsStored(t)
  {
    forall h | h in t.handles
      ensures SlotStored(t, t.handles[h])
    {
      assert SlotStored(s, s.handles[h]);
    }
  }

  // What is taken was on disk, so it had not been claimed, deleted or delivered before.
  lemma TakesFates(s: State, t: State, o: nat, g: GenId, outcome: Outcome)
    requires FatesWell(s) && DirsWell(s) && s.up && TakesStore(s, t, o, g, outcome)
    requires OnDisk(s, g)
    ensures FatesWell(t)
  {
    hide PublicationWell, Keeps, IsLive, RecordOf, Validates, ChecksumHolds;
    assert g in s.gone ==> Gone(s, g);
    CommitAsideLessens(s, g, outcome);
    assert DirWell(s, g);
    forall k | k in t.acked - t.ended
      ensures Acknowledged(t, k)
    {
      assert Acknowledged(s, k);
    }
    forall k | k in t.gone
      ensures Gone(t, k)
    {
      if k != g {
        assert Gone(s, k);
      }
    }
  }

  // The generation taken is on disk, and no operation or slot elsewhere looks at it.
  lemma TakenIsReady(s: State, o: nat, g: GenId)
    requires LeaseInv(s) && OwnInv(s) && SlotsStored(s) && DirsWell(s)
    requires o in s.ops && s.ops[o].Leased() && s.ops[o].h in s.handles && IsFinal(s.handles[s.ops[o].h], g)
    ensures OnDisk(s, g) && DirWell(s, g) && Unseen(s, o, g)
  {
    assert SlotStored(s, s.handles[s.ops[o].h]);
    FinalIsUnseen(s, o, g);
  }

  lemma TakesDirs(s: State, t: State, o: nat, g: GenId, outcome: Outcome)
    requires DirsWell(s) && SeedBounds(s) && LogsWell(s) && TakesStore(s, t, o, g, outcome)
    ensures DirsWell(t) && SeedBounds(t) && LogsWell(t)
  {
    assert DirWell(s, g);
    CommitAsideLessens(s, g, outcome);
    LessenedDirs(s, t, g);
    BoundsFrame(s, t, o);
  }

  lemma TakesKeepsStore(s: State, t: State, o: nat, g: GenId, outcome: Outcome)
    requires StoreInv(s) && s.up && TakesStore(s, t, o, g, outcome)
    requires OnDisk(s, g) && Unseen(s, o, g)
    ensures StoreInv(t)
  {
    TakesOpsStored(s, t, o, g, outcome);
    TakesSlotsStored(s, t, o, g, outcome);
    TakesFates(s, t, o, g, outcome);
    TakesDirs(s, t, o, g, outcome);
  }

  lemma ClaimTakesStore(s: State, o: nat, claim: Outcome, attached: bool)
    requires Claims(s, o, claim)
    requires s.handles[s.ops[o].h].slot.live.Some? ==> s.handles[s.ops[o].h].slot.live.value.state == GenLive
    ensures s.handles[s.ops[o].h].slot.current.Some?
    ensures TakesStore(s, ResolveNext(s, o, claim, attached), o, s.handles[s.ops[o].h].slot.current.value.id, claim)
  {
    hide ClaimNext, GenDir.Commit;
    ResolveTakes(s, o, claim, attached);
    var hd := s.handles[s.ops[o].h];
    var op := s.ops[o].(cursor := CursorOf(s.ops[o], hd.slot));
    assert ResolveNext(s, o, claim, attached)
        == ClaimNext(s, o, op, hd.slot.current.value, claim, attached);
    ClaimTouchesLittle(s, o, op, hd.slot.current.value, claim, attached);
    ClaimTakesExactly(s, o, op, hd.slot.current.value, claim, attached);
  }

  lemma ClaimKeepsStore(s: State, o: nat, claim: Outcome, attached: bool)
    requires LeaseInv(s) && OwnInv(s) && StoreInv(s) && s.up && Claims(s, o, claim)
    requires s.handles[s.ops[o].h].slot.live.Some? ==> s.handles[s.ops[o].h].slot.live.value.state == GenLive
    ensures StoreInv(ResolveNext(s, o, claim, attached))
  {
    ClaimTakesStore(s, o, claim, attached);
    var g := s.handles[s.ops[o].h].slot.current.value.id;
    TakenIsReady(s, o, g);
    TakesKeepsStore(s, ResolveNext(s, o, claim, attached), o, g, claim);
  }

  lemma ResolveKeepsStoreQuietly(s: State, o: nat, claim: Outcome, attached: bool)
    requires StoreInv(s) && s.up && ResolveEnabled(s, o, claim) && !Claims(s, o, claim)
    ensures StoreInv(ResolveNext(s, o, claim, attached))
  {
    hide OpsStored, DirsWell, SlotsStored, FatesWell, LogsWell, SeedBounds, DownWell, ResolveNext, Claims;
    ResolveQuietly(s, o, claim, attached);
    ResolveMovesOnlyItself(s, o, claim, attached);
    QuietKeepsStore(s, ResolveNext(s, o, claim, attached), o);
  }

  lemma RetireTakesStore(s: State, o: nat, target: Option<Generation>, outcome: Outcome)
    requires At(s, o) && (s.ops[o].Deleting? || s.ops[o].Reaping?) && RenamesMarker(s, target, outcome)
    requires target.Some? && s.handles[s.ops[o].h].slot.current == target && target.value.state == GenFinalized
    requires outcome != NeverTook
    ensures TakesStore(s, RetireNext(s, o, s.ops[o].h, target, outcome), o, target.value.id, outcome)
  {
    RetireTakes(s, o, target, outcome);
  }

  lemma RetireKeepsStore(s: State, o: nat, target: Option<Generation>, outcome: Outcome)
    requires LeaseInv(s) && OwnInv(s) && StoreInv(s) && s.up
    requires At(s, o) && (s.ops[o].Deleting? || s.ops[o].Reaping?) && RenamesMarker(s, target, outcome)
    requires target.Some? ==> s.handles[s.ops[o].h].slot.current == target && target.value.state == GenFinalized
    ensures StoreInv(RetireNext(s, o, s.ops[o].h, target, outcome))
  {
    hide DirsWell, FatesWell, LogsWell, SlotsStored, OpsStored, SeedBounds, OwnInv, LeaseInv;
    if target.Some? && outcome != NeverTook {
      RetireTakesStore(s, o, target, outcome);
      TakenIsReady(s, o, target.value.id);
      TakesKeepsStore(s, RetireNext(s, o, s.ops[o].h, target, outcome), o, target.value.id, outcome);
    } else {
      StageIsQuiet(s, o, Leaving(s.ops[o].h));
      QuietKeepsStore(s, s.SetOp(o, Leaving(s.ops[o].h)), o);
    }
  }

  // -------------------------------------------------------------------------
  // Reclaiming and clearing
  // -------------------------------------------------------------------------

  lemma ReclaimOpsStored(s: State, o: nat, removal: Removal)
    requires OpsStored(s) && IsOwing(s, o) && Unseen(s, o, s.ops[o].g)
    ensures OpsStored(ReclaimNext(s, o, removal))
  {
    var t := ReclaimNext(s, o, removal);
    forall p | p in t.ops
      ensures StoredWell(t, t.ops[p])
    {
      if p != o {
        assert StoredWell(s, s.ops[p]);
      }
    }
  }

  lemma ReclaimSlotsStored(s: State, o: nat, removal: Removal)
    requires SlotsStored(s) && IsOwing(s, o)
    requires forall k | k in s.handles :: !IsFinal(s.handles[k], s.ops[o].g)
    ensures SlotsStored(ReclaimNext(s, o, removal))
  {
    var t := ReclaimNext(s, o, removal);
    forall h | h in t.handles
      ensures SlotStored(t, t.handles[h])
    {
      assert SlotStored(s, s.handles[h]);
    }
  }

  // Reclaiming never touches an acknowledged value that still stands: it is in its slot, not owed.
  lemma ReclaimFates(s: State, o: nat, removal: Removal)
    requires FatesWell(s) && s.up && IsOwing(s, o) && DirWell(s, s.ops[o].g)
    requires forall k | k in s.handles :: !IsFinal(s.handles[k], s.ops[o].g)
    ensures FatesWell(ReclaimNext(s, o, removal))
  {
    var t := ReclaimNext(s, o, removal);
    RemoveLessens(s, s.ops[o].g, removal);
    forall k | k in t.acked - t.ended
      ensures Acknowledged(t, k)
    {
      assert Acknowledged(s, k);
    }
    forall k | k in t.gone
      ensures Gone(t, k)
    {
      assert Gone(s, k);
    }
  }

  lemma ReclaimDirs(s: State, o: nat, removal: Removal)
    requires DirsWell(s) && SeedBounds(s) && LogsWell(s) && IsOwing(s, o)
    ensures DirsWell(ReclaimNext(s, o, removal)) && SeedBounds(ReclaimNext(s, o, removal))
    ensures LogsWell(ReclaimNext(s, o, removal))
  {
    var t := ReclaimNext(s, o, removal);
    assert DirWell(s, s.ops[o].g);
    RemoveLessens(s, s.ops[o].g, removal);
    LessenedDirs(s, t, s.ops[o].g);
    ReclaimMoves(s, o, removal);
    BoundsFrame(s, t, o);
  }

  lemma OwedIsReady(s: State, o: nat)
    requires LeaseInv(s) && OwnInv(s) && DirsWell(s) && IsOwing(s, o)
    ensures DirWell(s, s.ops[o].g) && Unseen(s, o, s.ops[o].g)
    ensures forall k | k in s.handles :: !IsFinal(s.handles[k], s.ops[o].g)
  {
    FinalIsUnseen(s, o, s.ops[o].g);
    forall k | k in s.handles
      ensures !IsFinal(s.handles[k], s.ops[o].g)
    {
      OwedIsNotFinal(s, o, k, s.ops[o].g);
    }
  }

  lemma ReclaimKeepsStore(s: State, o: nat, removal: Removal)
    requires LeaseInv(s) && OwnInv(s) && StoreInv(s) && s.up && IsOwing(s, o)
    ensures StoreInv(ReclaimNext(s, o, removal))
  {
    OwedIsReady(s, o);
    ReclaimOpsStored(s, o, removal);
    ReclaimSlotsStored(s, o, removal);
    ReclaimFates(s, o, removal);
    ReclaimDirs(s, o, removal);
  }

  lemma ClearSlotsStored(s: State, o: nat)
    requires SlotsStored(s) && FatesWell(s) && s.up && At(s, o) && s.ops[o].Clearing?
    requires !IsFinal(s.handles[s.ops[o].h], s.ops[o].g)
    ensures SlotsStored(ClearNext(s, o)) && FatesWell(ClearNext(s, o))
  {
    var t := ClearNext(s, o);
    forall h | h in t.handles
      ensures SlotStored(t, t.handles[h])
    {
      assert SlotStored(s, s.handles[h]);
    }
    forall k | k in t.acked - t.ended
      ensures Acknowledged(t, k)
    {
      assert Acknowledged(s, k);
    }
    forall k | k in t.gone
      ensures Gone(t, k)
    {
      assert Gone(s, k);
    }
  }

  lemma ClearOpsStored(s: State, o: nat)
    requires OpsStored(s) && At(s, o) && s.ops[o].Clearing?
    ensures OpsStored(ClearNext(s, o))
  {
    var t := ClearNext(s, o);
    forall p | p in t.ops
      ensures StoredWell(t, t.ops[p])
    {
      if p != o {
        assert StoredWell(s, s.ops[p]);
      }
    }
  }

  lemma ClearDirs(s: State, o: nat)
    requires DirsWell(s) && SeedBounds(s) && At(s, o) && s.ops[o].Clearing?
    ensures DirsWell(ClearNext(s, o)) && SeedBounds(ClearNext(s, o))
  {
    ClearMoves(s, o);
    SameDirs(s, ClearNext(s, o));
    BoundsFrame(s, ClearNext(s, o), o);
  }

  lemma ClearKeepsStore(s: State, o: nat)
    requires OpsWell(s) && StoreInv(s) && s.up && At(s, o) && s.ops[o].Clearing?
    ensures StoreInv(ClearNext(s, o))
  {
    hide DirsWell, SlotsStored, FatesWell, OpsStored, SeedBounds, DownWell;
    assert HoldsWell(s, s.ops[o]);
    ClearSlotsStored(s, o);
    ClearOpsStored(s, o);
    ClearDirs(s, o);
  }

  // -------------------------------------------------------------------------
  // Leases, sweeps and the clock
  // -------------------------------------------------------------------------

  // Operations come and go, handles are leased, built and evicted; no slot of a handle that stays changes.
  ghost predicate Registers(s: State, t: State) {
    && SameStore(s, t) && HandlesCome(s, t)
    && (forall p | p in t.ops && p in s.ops && t.ops[p] == s.ops[p] :: StoredWell(s, s.ops[p]))
    && (forall p | p in t.ops && (p !in s.ops || t.ops[p] != s.ops[p]) :: t.ops[p].EndsLog().None? && StoredWell(t, t.ops[p]))
  }

  ghost predicate HandlesCome(s: State, t: State) {
    && (forall h | h in t.handles ::
          if h in s.handles then t.handles[h].slot == s.handles[h].slot && t.handles[h].name == s.handles[h].name
          else ValidName(t.handles[h].name) && t.handles[h].slot == Slot(None, None, 0))
    && (forall h | h in s.handles :: h in t.handles)
    && (forall n | n in s.reg && s.reg[n] in s.handles && !s.handles[s.reg[n]].slot.Empty() :: n in t.reg && t.reg[n] == s.reg[n])
    && (forall n | n in t.reg && t.reg[n] in t.handles && t.handles[t.reg[n]].slot.lastPrefix > 0 :: n in s.reg && s.reg[n] == t.reg[n])
  }

  lemma RegistersKeepsStore(s: State, t: State)
    requires StoreInv(s) && s.up && Registers(s, t)
    ensures StoreInv(t)
  {
    assert OpsStored(t) by {
      forall p | p in t.ops
        ensures StoredWell(t, t.ops[p])
      {
        if p in s.ops && t.ops[p] == s.ops[p] {
          assert StoredWell(s, s.ops[p]);
        }
      }
    }
    assert SlotsStored(t) by {
      forall h | h in t.handles
        ensures SlotStored(t, t.handles[h])
      {
        if h in s.handles {
          assert SlotStored(s, s.handles[h]);
        }
      }
    }
    RegistersFates(s, t);
    SameDirs(s, t);
  }

  lemma RegistersFates(s: State, t: State)
    requires FatesWell(s) && SeedBounds(s) && s.up && Registers(s, t)
    ensures FatesWell(t) && SeedBounds(t)
  {
    forall k | k in t.acked - t.ended
      ensures Acknowledged(t, k)
    {
      assert Acknowledged(s, k);
    }
    forall k | k in t.gone
      ensures Gone(t, k)
    {
      assert Gone(s, k);
    }
  }

  lemma AcquireRegisters(s: State, o: nat, h: nat, name: string, op: Op)
    requires OpsStored(s) && Registered(s) && ValidName(name)
    requires o in s.ops ==> s.ops[o].Observed?
    requires if name in s.reg then h == s.reg[name] && h in s.handles else h !in s.handles
    requires op.Leased() && op.h == h && op.EndsLog().None? && (op.Creating? ==> op.meta == Normalized(op.meta))
    ensures Registers(s, s.Acquire(o, h, name, op))
  {
    hide ValidName, Normalized, StoredWell, HandlesCome;
    var t := s.Acquire(o, h, name, op);
    AcquiredHandlesCome(s, o, h, name, op);
    NewcomerStored(t, op);
    assert forall p | p in t.ops && p in s.ops && t.ops[p] == s.ops[p] :: StoredWell(s, s.ops[p]);
  }

  lemma AcquiredHandlesCome(s: State, o: nat, h: nat, name: string, op: Op)
    requires Registered(s) && ValidName(name)
    requires if name in s.reg then h == s.reg[name] && h in s.handles else h !in s.handles
    ensures HandlesCome(s, s.Acquire(o, h, name, op))
  {
    hide ValidName;
  }

  lemma NewcomerStored(t: State, op: Op)
    requires op.Leased() && op.EndsLog().None? && (op.Creating? ==> op.meta == Normalized(op.meta))
    ensures StoredWell(t, op)
  {
    hide Normalized;
  }

  lemma AcquireKeepsStore(s: State, o: nat, h: nat, name: string, op: Op)
    requires StoreInv(s) && s.up && Registered(s) && ValidName(name)
    requires o in s.ops ==> s.ops[o].Observed?
    requires if name in s.reg then h == s.reg[name] && h in s.handles else h !in s.handles
    requires op.Leased() && op.h == h && op.EndsLog().None? && (op.Creating? ==> op.meta == Normalized(op.meta))
    ensures StoreInv(s.Acquire(o, h, name, op))
  {
    hide Registered, Registers, ValidName, Normalized, OpsStored, DirsWell, SlotsStored, FatesWell, LogsWell, SeedBounds;
    AcquireRegisters(s, o, h, name, op);
    RegistersKeepsStore(s, s.Acquire(o, h, name, op));
  }

  lemma ReleaseKeepsStore(s: State, o: nat)
    requires StoreInv(s) && LeaseInv(s) && GateInv(s) && s.up && At(s, o) && s.ops[o].Leaving?
    ensures StoreInv(ReleaseNext(s, o))
  {
    LeasePins(s, o);
    RegistersKeepsStore(s, ReleaseNext(s, o));
  }

  lemma UnleasedKeepsStore(s: State, o: nat, op: Op)
    requires StoreInv(s) && s.up && o !in s.ops && !op.Leased() && (op.Observed? ==> ValidName(op.name))
    ensures StoreInv(s.SetOp(o, op))
  {
    RegistersKeepsStore(s, s.SetOp(o, op));
  }
}
