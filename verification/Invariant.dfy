// Every step of the store keeps the whole invariant.
module Invariant {
  import opened Common
  import opened GenIds
  import opened Generations
  import opened Records
  import opened DiskModel
  import opened Transitions
  import opened StoreMachine
  import opened Leases
  import opened Ownership
  import opened OwnershipSteps
  import opened OwnershipTail
  import opened Gates
  import opened QuotaInvariant
  import opened Storage
  import opened StorageSteps
  import opened StorageFates
  import opened StorageTail
  import opened StorageRestart

  ghost predicate Inv(s: State) { Base(s) && QuotaInv(s) && StoreInv(s) }

  lemma InitInv(s: State)
    requires Init(s)
    ensures Inv(s)
  {
    assert Sizes(s.logs, s.extant) == map[];
    assert Helds(s.ops) == map[];
  }

  // -------------------------------------------------------------------------
  // Steps that change no handle
  // -------------------------------------------------------------------------

  lemma QuietKeepsBase(s: State, t: State, o: nat)
    requires Base(s) && Quiet(s, t, o)
    requires t.ops[o].Opening? ==> AtGate(t, t.ops[o])
    ensures Base(t)
  {
    hide LeaseInv, OwnInv, GateInv, AtGate;
    MovesKeepsLeases(s, t, o);
    QuietKeepsOwnership(s, t, o);
    QuietKeepsGate(s, t, o);
  }

  // What a writer writes has a footprint, and no other writer writes it.
  lemma WrittenIsExtant(s: State, o: nat)
    requires OwnInv(s) && o in s.ops && s.ops[o].Writing?
    ensures s.ops[o].g in s.extant
    ensures forall p | p in s.ops && p != o && s.ops[p].Writing? :: s.ops[p].g != s.ops[o].g
  {
    assert HoldsWell(s, s.ops[o]);
    assert SlotWell(s, s.ops[o].h);
    forall p | p in s.ops && p != o && s.ops[p].Writing?
      ensures s.ops[p].g != s.ops[o].g
    {
      assert s.ops[o].EndsLog() == Some(s.ops[o].g);
      assert s.ops[p].EndsLog() == Some(s.ops[p].g);
    }
  }

  // What has a footprint was minted.
  lemma ExtantIsMinted(s: State)
    requires LeaseInv(s) && OwnInv(s)
    ensures s.extant <= s.minted.Keys
  {
    forall g | g in s.extant
      ensures g in s.minted
    {
      if !Seated(s, g) {
        var p :| OwedBy(s, p, g);
        assert HoldsWell(s, s.ops[p]);
      }
    }
  }

  // A step that moves neither a handle nor a counter.
  lemma QuietAndStill(s: State, t: State, o: nat)
    requires Base(s) && QuotaInv(s) && Quiet(s, t, o) && Still(s, t, o)
    requires t.ops[o].Opening? ==> AtGate(t, t.ops[o])
    ensures Base(t) && QuotaInv(t)
  {
    hide LeaseInv, OwnInv, GateInv, AtGate, QuotaInv;
    QuietKeepsBase(s, t, o);
    StillKeepsQuota(s, t, o);
  }

  lemma ReserveStored(s: State, o: nat, chunk: seq<Byte>)
    requires OpsStored(s) && IsWriting(s, o) && s.ops[o].stage.Idle?
    ensures var t := ReserveNext(s, o, chunk);
            o in t.ops && StoredWell(t, t.ops[o]) && SameStore(s, t)
  {
    hide RecordOf, Finalize, ValidName, Normalized;
    assert StoredWell(s, s.ops[o]);
  }

  lemma ReserveKeepsStore(s: State, o: nat, chunk: seq<Byte>)
    requires StoreInv(s) && IsWriting(s, o) && s.ops[o].stage.Idle?
    ensures StoreInv(ReserveNext(s, o, chunk))
  {
    hide LeaseInv, DirsWell, OpsStored, SlotsStored, FatesWell, LogsWell, SeedBounds, DownWell, StoredWell,
         SameStore, Quiet, ReserveNext;
    ReserveIsQuiet(s, o, chunk);
    ReserveStored(s, o, chunk);
    QuietKeepsStore(s, ReserveNext(s, o, chunk), o);
  }

  lemma ReserveKeepsBase(s: State, o: nat, chunk: seq<Byte>)
    requires Base(s) && IsWriting(s, o)
    ensures Base(ReserveNext(s, o, chunk))
  {
    ReserveIsQuiet(s, o, chunk);
    QuietKeepsBase(s, ReserveNext(s, o, chunk), o);
  }

  lemma ReserveKeepsInv(s: State, o: nat, chunk: seq<Byte>)
    requires Inv(s) && IsWriting(s, o) && s.ops[o].stage.Idle?
    ensures Inv(ReserveNext(s, o, chunk))
  {
    hide Base, QuotaInv, StoreInv;
    ReserveKeepsBase(s, o, chunk);
    ReserveKeepsQuota(s, o, chunk);
    ReserveKeepsStore(s, o, chunk);
  }

  lemma AppendKeepsInv(s: State, o: nat, stored: nat)
    requires Inv(s) && IsWriting(s, o) && s.ops[o].stage.Reserved? && stored <= |s.ops[o].stage.chunk|
    ensures Inv(AppendNext(s, o, stored))
  {
    AppendIsQuiet(s, o, stored);
    QuietKeepsBase(s, AppendNext(s, o, stored), o);
    WrittenIsExtant(s, o);
    AppendKeepsQuota(s, o, stored);
    AppendKeepsStore(s, o, stored);
  }

  lemma ReturnTailKeepsStore(s: State, o: nat)
    requires StoreInv(s) && IsWriting(s, o) && s.ops[o].stage.ShortBy?
    ensures StoreInv(ReturnTailNext(s, o))
  {
    hide DirsWell, SlotsStored, FatesWell, LogsWell, SeedBounds, DownWell, RecordOf, Finalize, ValidName, Normalized;
    ReturnTailIsQuiet(s, o);
    assert StoredWell(s, s.ops[o]);
    QuietKeepsStore(s, ReturnTailNext(s, o), o);
  }

  lemma ReturnTailKeepsInv(s: State, o: nat)
    requires Inv(s) && IsWriting(s, o) && s.ops[o].stage.ShortBy?
    ensures Inv(ReturnTailNext(s, o))
  {
    hide LeaseInv, OwnInv, GateInv, QuotaInv, StoreInv;
    ReturnTailIsQuiet(s, o);
    QuietKeepsBase(s, ReturnTailNext(s, o), o);
    ReturnTailKeepsQuota(s, o);
    ReturnTailKeepsStore(s, o);
  }

  lemma SyncBytesIsStill(s: State, o: nat, ok: bool)
    requires IsWriting(s, o) && s.ops[o].stage.Idle?
    ensures Still(s, SyncBytesNext(s, o, ok), o)
    ensures !SyncBytesNext(s, o, ok).ops[o].Opening?
  {
  }

  lemma SyncBytesKeepsMemory(s: State, o: nat, ok: bool)
    requires Base(s) && QuotaInv(s) && IsWriting(s, o) && s.ops[o].stage.Idle?
    ensures Base(SyncBytesNext(s, o, ok)) && QuotaInv(SyncBytesNext(s, o, ok))
  {
    hide Base, QuotaInv, Quiet, Still;
    SyncBytesIsQuiet(s, o, ok);
    SyncBytesIsStill(s, o, ok);
    QuietAndStill(s, SyncBytesNext(s, o, ok), o);
  }

  lemma SyncBytesKeepsInv(s: State, o: nat, ok: bool)
    requires Inv(s) && IsWriting(s, o) && s.ops[o].stage.Idle?
    ensures Inv(SyncBytesNext(s, o, ok))
  {
    SyncBytesKeepsMemory(s, o, ok);
    SyncBytesKeepsStore(s, o, ok);
  }

  lemma PublishIsStill(s: State, o: nat, outcome: Outcome)
    requires IsPublishing(s, o)
    ensures Still(s, PublishNext(s, o, outcome), o)
    ensures !PublishNext(s, o, outcome).ops[o].Opening?
  {
  }

  lemma PublishKeepsMemory(s: State, o: nat, outcome: Outcome)
    requires Base(s) && QuotaInv(s) && IsPublishing(s, o)
    ensures Base(PublishNext(s, o, outcome)) && QuotaInv(PublishNext(s, o, outcome))
  {
    hide Base, QuotaInv, Quiet, Still;
    PublishIsQuiet(s, o, outcome);
    PublishIsStill(s, o, outcome);
    QuietAndStill(s, PublishNext(s, o, outcome), o);
  }

  lemma PublishKeepsInv(s: State, o: nat, outcome: Outcome)
    requires Inv(s) && IsPublishing(s, o)
    ensures Inv(PublishNext(s, o, outcome))
  {
    PublishKeepsMemory(s, o, outcome);
    PublishKeepsStore(s, o, outcome);
  }

  lemma AbortPublishIsStill(s: State, o: nat, outcome: Outcome)
    requires IsWriting(s, o) && s.ops[o].stage.Failing?
    ensures Still(s, AbortPublishNext(s, o, outcome), o)
    ensures !AbortPublishNext(s, o, outcome).ops[o].Opening?
  {
  }

  lemma AbortPublishKeepsMemory(s: State, o: nat, outcome: Outcome)
    requires Base(s) && QuotaInv(s) && IsWriting(s, o) && s.ops[o].stage == Failing(true)
    ensures Base(AbortPublishNext(s, o, outcome)) && QuotaInv(AbortPublishNext(s, o, outcome))
  {
    hide Base, QuotaInv, Quiet, Still;
    AbortPublishIsQuiet(s, o, outcome);
    AbortPublishIsStill(s, o, outcome);
    QuietAndStill(s, AbortPublishNext(s, o, outcome), o);
  }

  lemma AbortPublishKeepsInv(s: State, o: nat, outcome: Outcome)
    requires Inv(s) && IsWriting(s, o) && s.ops[o].stage == Failing(true)
    ensures Inv(AbortPublishNext(s, o, outcome))
  {
    AbortPublishKeepsMemory(s, o, outcome);
    AbortPublishKeepsStore(s, o, outcome);
  }

  lemma FinishLogKeepsInv(s: State, o: nat)
    requires Inv(s) && IsFinishing(s, o)
    ensures Inv(FinishLogNext(s, o))
  {
    hide LeaseInv, OwnInv, GateInv, QuotaInv, StoreInv;
    FinishLogIsQuiet(s, o);
    QuietKeepsBase(s, FinishLogNext(s, o), o);
    StillKeepsQuota(s, FinishLogNext(s, o), o);
    FinishLogKeepsStore(s, o);
  }

  lemma TearLogKeepsInv(s: State, o: nat)
    requires Inv(s) && IsTearing(s, o)
    ensures Inv(TearLogNext(s, o))
  {
    hide LeaseInv, OwnInv, GateInv, QuotaInv, StoreInv;
    TearLogIsQuiet(s, o);
    QuietKeepsBase(s, TearLogNext(s, o), o);
    StillKeepsQuota(s, TearLogNext(s, o), o);
    TearLogKeepsStore(s, o);
  }

  // -------------------------------------------------------------------------
  // Admission, the flip and the discard
  // -------------------------------------------------------------------------

  lemma AdmitKeepsQuota(s: State, o: nat, tail: Option<Uint64>, made: bool)
    requires QuotaInv(s) && LeaseInv(s) && OwnInv(s) && AdmitEnabled(s, o, tail)
    ensures QuotaInv(AdmitNext(s, o, tail, made))
  {
    if Admits(s, o, tail) && made {
      ExtantIsMinted(s);
      AdmittedKeepsQuota(s, o, tail);
    } else {
      StillKeepsQuota(s, AdmitNext(s, o, tail, made), o);
    }
  }

  lemma AdmitKeepsInv(s: State, o: nat, tail: Option<Uint64>, made: bool)
    requires Inv(s) && AdmitEnabled(s, o, tail)
    ensures Inv(AdmitNext(s, o, tail, made))
  {
    AdmitMoves(s, o, tail, made);
    MovesKeepsLeases(s, AdmitNext(s, o, tail, made), o);
    AdmitKeepsOwnership(s, o, tail, made);
    AdmitKeepsGate(s, o, tail, made);
    AdmitKeepsQuota(s, o, tail, made);
    AdmitKeepsStore(s, o, tail, made);
  }

  lemma FlipKeepsInv(s: State, o: nat)
    requires Inv(s) && IsFlipping(s, o)
    ensures Inv(FlipNext(s, o))
  {
    hide LeaseInv, OwnInv, GateInv, QuotaInv, StoreInv;
    FlipMoves(s, o);
    MovesKeepsLeases(s, FlipNext(s, o), o);
    FlipKeepsOwnership(s, o);
    FlipKeepsGate(s, o);
    StillKeepsQuota(s, FlipNext(s, o), o);
    FlipKeepsStore(s, o);
  }

  lemma DiscardKeepsMemory(s: State, o: nat)
    requires Base(s) && QuotaInv(s)
    requires IsWriting(s, o) && (s.ops[o].stage.Idle? || s.ops[o].stage == Failing(false))
    ensures Base(DiscardNext(s, o)) && QuotaInv(DiscardNext(s, o))
  {
    hide LeaseInv, OwnInv, GateInv, QuotaInv, StoreInv;
    DiscardMoves(s, o);
    MovesKeepsLeases(s, DiscardNext(s, o), o);
    DiscardKeepsOwnership(s, o);
    DiscardKeepsGate(s, o);
    StillKeepsQuota(s, DiscardNext(s, o), o);
  }

  lemma DiscardKeepsInv(s: State, o: nat)
    requires Inv(s) && IsWriting(s, o) && (s.ops[o].stage.Idle? || s.ops[o].stage == Failing(false))
    ensures Inv(DiscardNext(s, o))
  {
    hide Base, QuotaInv, StoreInv;
    DiscardKeepsMemory(s, o);
    DiscardKeepsStore(s, o);
  }

  // -------------------------------------------------------------------------
  // Reads, deletes and reaps
  // -------------------------------------------------------------------------

  lemma ResolveKeepsBase(s: State, o: nat, claim: Outcome, attached: bool)
    requires Base(s) && ResolveEnabled(s, o, claim)
    ensures Base(ResolveNext(s, o, claim, attached))
  {
    assert SlotWell(s, s.ops[o].h);
    ResolveMoves(s, o, claim, attached);
    MovesKeepsLeases(s, ResolveNext(s, o, claim, attached), o);
    ResolveKeepsOwnership(s, o, claim, attached);
    if Claims(s, o, claim) {
      ResolveKeepsGateClaiming(s, o, claim, attached);
    } else {
      ResolveKeepsGateQuietly(s, o, claim, attached);
    }
  }

  // A step that ends up holding nothing and moves no counter.
  lemma StageIsStill(s: State, t: State, o: nat)
    requires o in s.ops && s.ops[o].Held() == 0 && o in t.ops && t.ops == s.ops[o := t.ops[o]] && !t.ops[o].Writing?
    requires t.cfg == s.cfg && t.clips == s.clips && t.bytes == s.bytes && t.extant == s.extant
    requires t.restored == s.restored && t.baseBytes == s.baseBytes && t.logs == s.logs
    ensures Still(s, t, o)
  {
  }

  lemma ClaimIsStill(s: State, o: nat, op: Op, g: Generation, claim: Outcome, attached: bool)
    requires At(s, o) && s.ops[o].Opening? && op.Opening? && op.h in s.handles && s.handles[op.h].slot.current == Some(g)
    requires RenamesMarker(s, Some(g), claim)
    ensures Still(s, ClaimNext(s, o, op, g, claim, attached), o)
  {
    hide ClaimNext, Still;
    ClaimTouchesLittle(s, o, op, g, claim, attached);
    StageIsStill(s, ClaimNext(s, o, op, g, claim, attached), o);
  }

  lemma ResolveIsStill(s: State, o: nat, claim: Outcome, attached: bool)
    requires ResolveEnabled(s, o, claim)
    ensures Still(s, ResolveNext(s, o, claim, attached), o)
  {
    var hd := s.handles[s.ops[o].h];
    var op := s.ops[o].(cursor := CursorOf(s.ops[o], hd.slot));
    if Claimable(Resolved(s, o)) {
      ClaimIsStill(s, o, op, Resolved(s, o).gen, claim, attached);
    } else {
      ResolveClaimsNothing(s, o, claim, attached);
      UnclaimedOwesNothing(op, Resolved(s, o), hd.notify, attached);
      StageIsStill(s, ResolveNext(s, o, claim, attached), o);
    }
  }

  lemma ResolveKeepsInv(s: State, o: nat, claim: Outcome, attached: bool)
    requires Inv(s) && ResolveEnabled(s, o, claim)
    ensures Inv(ResolveNext(s, o, claim, attached))
  {
    ResolveKeepsBase(s, o, claim, attached);
    ResolveIsStill(s, o, claim, attached);
    StillKeepsQuota(s, ResolveNext(s, o, claim, attached), o);
    assert SlotWell(s, s.ops[o].h);
    if Claims(s, o, claim) {
      ClaimKeepsStore(s, o, claim, attached);
    } else {
      ResolveKeepsStoreQuietly(s, o, claim, attached);
    }
  }

  lemma RetireKeepsMemory(s: State, o: nat, target: Option<Generation>, outcome: Outcome)
    requires Base(s) && QuotaInv(s)
    requires At(s, o) && (s.ops[o].Deleting? || s.ops[o].Reaping?) && RenamesMarker(s, target, outcome)
    requires target.Some? ==> s.handles[s.ops[o].h].slot.current == target && target.value.state == GenFinalized
    ensures Base(RetireNext(s, o, s.ops[o].h, target, outcome))
    ensures QuotaInv(RetireNext(s, o, s.ops[o].h, target, outcome))
  {
    hide LeaseInv, OwnInv, GateInv, QuotaInv, StoreInv;
    var t := RetireNext(s, o, s.ops[o].h, target, outcome);
    RetireMoves(s, o, s.ops[o].h, target, outcome);
    MovesKeepsLeases(s, t, o);
    RetireKeepsOwnership(s, o, target, outcome);
    RetireKeepsGate(s, o, target, outcome);
    StillKeepsQuota(s, t, o);
  }

  lemma RetireKeepsInv(s: State, o: nat, target: Option<Generation>, outcome: Outcome)
    requires Inv(s) && At(s, o) && (s.ops[o].Deleting? || s.ops[o].Reaping?) && RenamesMarker(s, target, outcome)
    requires target.Some? ==> s.handles[s.ops[o].h].slot.current == target && target.value.state == GenFinalized
    ensures Inv(RetireNext(s, o, s.ops[o].h, target, outcome))
  {
    RetireKeepsMemory(s, o, target, outcome);
    RetireKeepsStore(s, o, target, outcome);
  }

  lemma OwedIsExtant(s: State, o: nat)
    requires OpsWell(s) && IsOwing(s, o)
    ensures s.ops[o].g in s.extant
  {
    assert HoldsWell(s, s.ops[o]);
  }

  lemma ReclaimKeepsBase(s: State, o: nat, removal: Removal)
    requires Base(s) && IsOwing(s, o)
    ensures Base(ReclaimNext(s, o, removal))
  {
    ReclaimMoves(s, o, removal);
    MovesKeepsLeases(s, ReclaimNext(s, o, removal), o);
    ReclaimKeepsOwnership(s, o, removal);
    ReclaimKeepsGate(s, o, removal);
  }

  lemma ReclaimKeepsInv(s: State, o: nat, removal: Removal)
    requires Inv(s) && IsOwing(s, o)
    ensures Inv(ReclaimNext(s, o, removal))
  {
    OwedIsExtant(s, o);
    ReclaimKeepsBase(s, o, removal);
    ReclaimKeepsQuota(s, o, removal);
    ReclaimKeepsStore(s, o, removal);
  }

  lemma ClearKeepsInv(s: State, o: nat)
    requires Inv(s) && At(s, o) && s.ops[o].Clearing?
    ensures Inv(ClearNext(s, o))
  {
    hide LeaseInv, OpsWell, SlotsWell, OneOwner, NoneLost, GateInv, QuotaInv, StoreInv;
    ClearMoves(s, o);
    MovesKeepsLeases(s, ClearNext(s, o), o);
    ClearKeepsOwnership(s, o);
    ClearKeepsGate(s, o);
    StillKeepsQuota(s, ClearNext(s, o), o);
    ClearKeepsStore(s, o);
  }

  lemma StageKeepsMemory(s: State, o: nat, op: Op)
    requires Base(s) && QuotaInv(s) && At(s, o) && s.ops[o].Opening?
    requires op.Leased() && op.h == s.ops[o].h && AtGate(s, op) && (op.Opening? || op.Leaving? || op.Owing?)
    requires op.Owes() == s.ops[o].Owes() && op.Clears() == s.ops[o].Clears()
    ensures Base(s.SetOp(o, op)) && QuotaInv(s.SetOp(o, op))
  {
    hide LeaseInv, OwnInv, GateInv, QuotaInv, StoreInv;
    StageIsQuiet(s, o, op);
    QuietAndStill(s, s.SetOp(o, op), o);
  }

  lemma StageKeepsStore(s: State, o: nat, op: Op)
    requires StoreInv(s) && At(s, o) && s.ops[o].Opening? && op.Leased() && op.h == s.ops[o].h
    requires op.Opening? || op.Leaving? || op.Owing?
    requires op.Owes() == s.ops[o].Owes() && op.Clears() == s.ops[o].Clears()
    ensures StoreInv(s.SetOp(o, op))
  {
    hide DirsWell, SlotsStored, FatesWell, LogsWell, SeedBounds, DownWell, OpsStored;
    StageIsQuiet(s, o, op);
    QuietKeepsStore(s, s.SetOp(o, op), o);
  }

  // Waking, canceling, elapsing and closing: only the reader's own stage changes.
  lemma ReaderStageKeepsInv(s: State, o: nat, op: Op)
    requires Inv(s) && At(s, o) && s.ops[o].Opening? && op.Leased() && op.h == s.ops[o].h && AtGate(s, op)
    requires op.Opening? || op.Leaving? || op.Owing?
    requires op.Owes() == s.ops[o].Owes() && op.Clears() == s.ops[o].Clears()
    ensures Inv(s.SetOp(o, op))
  {
    StageKeepsMemory(s, o, op);
    StageKeepsStore(s, o, op);
  }

  // -------------------------------------------------------------------------
  // Leases, sweeps and the clock
  // -------------------------------------------------------------------------

  lemma AcquireKeepsInv(s: State, o: nat, h: nat, name: string, op: Op)
    requires Inv(s) && s.up && ValidName(name)
    requires o in s.ops ==> s.ops[o].Observed?
    requires if name in s.reg then h == s.reg[name] && h in s.handles else h !in s.handles
    requires op.Leased() && op.h == h && op.EndsLog().None? && op.Owes().None? && op.Clears().None?
    requires op.Opening? ==> op.rstage == Resolving && op.cursor.None?
    requires op.Creating? ==> op.meta == Normalized(op.meta)
    ensures Inv(s.Acquire(o, h, name, op))
  {
    hide Counted, Registered, OwnInv, GateInv, QuotaInv, StoreInv, ValidName;
    AcquireKeepsLeases(s, o, h, name, op);
    AcquireKeepsOwnership(s, o, h, name, op);
    AcquireKeepsGate(s, o, h, name, op);
    StillKeepsQuota(s, s.Acquire(o, h, name, op), o);
    AcquireKeepsStore(s, o, h, name, op);
  }

  lemma BeginKeepsInv(s: State, o: nat, h: nat, name: string, req: Request)
    requires Inv(s) && s.MayAcquire(o, h, name)
    ensures Inv(s.Acquire(o, h, name, Start(req, h, s.now)))
  {
    if req.Create? {
      NormalizedIsIdempotent(req.meta);
    }
    AcquireKeepsInv(s, o, h, name, Start(req, h, s.now));
  }

  lemma ReleaseKeepsInv(s: State, o: nat)
    requires Inv(s) && At(s, o) && s.ops[o].Leaving?
    ensures Inv(ReleaseNext(s, o))
  {
    ReleaseKeepsLeases(s, o);
    ReleaseKeepsOwnership(s, o);
    ReleaseKeepsGate(s, o);
    ReleaseKeepsQuota(s, o);
    ReleaseKeepsStore(s, o);
  }

  lemma UnleasedKeepsInv(s: State, o: nat, op: Op)
    requires Inv(s) && s.up && o !in s.ops && !op.Leased() && (op.Observed? ==> ValidName(op.name))
    ensures Inv(s.SetOp(o, op))
  {
    UnleasedKeepsLeases(s, o, op);
    UnleasedKeepsOwnership(s, o, op);
    UnleasedKeepsGate(s, o, op);
    StillKeepsQuota(s, s.SetOp(o, op), o);
    UnleasedKeepsStore(s, o, op);
  }

  lemma TickKeepsInv(s: State, at: int)
    requires Inv(s)
    ensures Inv(s.(now := at, steady := s.steady && at >= s.now))
  {
    TickKeepsGate(s, at);
    TickKeepsRest(s, at);
  }

  lemma TickKeepsRest(s: State, at: int)
    requires LeaseInv(s) && OwnInv(s) && QuotaInv(s) && StoreInv(s)
    ensures var t := s.(now := at, steady := s.steady && at >= s.now);
            LeaseInv(t) && OwnInv(t) && QuotaInv(t) && StoreInv(t)
  {
    var t := s.(now := at, steady := s.steady && at >= s.now);
    TickKeepsOwnership(s, t);
    TickKeepsStore(s, t);
  }

  lemma TickKeepsOwnership(s: State, t: State)
    requires OwnInv(s) && t == s.(now := t.now, steady := t.steady)
    ensures OwnInv(t)
  {
    forall h | h in t.handles
      ensures SlotWell(t, h)
    {
      assert SlotWell(s, h);
      var slot := s.handles[h].slot;
      if slot.current.Some? && slot.current.value.state == GenConsumed {
        var p :| ClearerOf(s, p, h, slot.current.value.id);
        assert ClearerOf(t, p, h, slot.current.value.id);
      }
      if slot.live.Some? {
        var p :| WriterOf(s, p, h, slot.live.value.id);
        assert WriterOf(t, p, h, slot.live.value.id);
      }
    }
    forall p | p in t.ops && t.ops[p].Leased()
      ensures t.ops[p].h in t.handles && HoldsWell(t, t.ops[p])
    {
      assert HoldsWell(s, s.ops[p]);
    }
    TickLosesNone(s, t);
  }

  lemma TickLosesNone(s: State, t: State)
    requires NoneLost(s) && t == s.(now := t.now, steady := t.steady)
    ensures NoneLost(t)
  {
    forall g | g in t.extant
      ensures g in t.logs && (Seated(t, g) || exists p :: OwedBy(t, p, g))
    {
      if Seated(s, g) {
        assert Seated(t, g);
      } else {
        var p :| OwedBy(s, p, g);
        assert OwedBy(t, p, g);
      }
    }
  }

  lemma TickKeepsStore(s: State, t: State)
    requires StoreInv(s) && t == s.(now := t.now, steady := t.steady)
    ensures StoreInv(t)
  {
    SameDirs(s, t);
    forall p | p in t.ops
      ensures StoredWell(t, t.ops[p])
    {
      assert StoredWell(s, s.ops[p]);
    }
    forall h | h in t.handles
      ensures SlotStored(t, t.handles[h])
    {
      assert SlotStored(s, s.handles[h]);
    }
    TickKeepsFates(s, t);
    if !s.up {
      TickStaysBeaten(s, t);
    }
  }

  lemma TickStaysBeaten(s: State, t: State)
    requires DownWell(s) && t == s.(now := t.now, steady := t.steady)
    ensures DownWell(t)
  {
    forall k | s.settled && Survives(t.disk, k, t.cfg.checksum)
      ensures Kept(t, k)
    {
      assert Kept(s, k);
    }
    forall g | s.settled && g in t.disk && t.disk[g].MayReturn()
      ensures exists k :: Beats(t, k, g)
    {
      var k :| Beats(s, k, g);
      assert Beats(t, k, g);
    }
  }

  lemma TickKeepsFates(s: State, t: State)
    requires FatesWell(s) && t == s.(now := t.now, steady := t.steady)
    ensures FatesWell(t)
  {
    forall g | g in t.acked - t.ended
      ensures Acknowledged(t, g)
    {
      assert Acknowledged(s, g);
    }
    forall g | g in t.gone
      ensures Gone(t, g)
    {
      assert Gone(s, g);
    }
  }

  // -------------------------------------------------------------------------
  // Crash and recovery
  // -------------------------------------------------------------------------

  lemma CrashKeepsInv(s: State, after: Disk)
    requires Inv(s) && MayCrashInto(s.disk, after)
    ensures Inv(CrashNext(s, after))
  {
    CrashKeepsQuota(s, after);
    CrashKeepsStore(s, after);
    NothingInFlight(CrashNext(s, after));
  }

  lemma KillKeepsInv(s: State)
    requires Inv(s)
    ensures Inv(KillNext(s))
  {
    KillKeepsStore(s);
    NothingInFlight(KillNext(s));
    CrashKeepsQuota(s, s.disk);
    DownKeepsQuota(CrashNext(s, s.disk), KillNext(s));
  }

  lemma NothingInFlight(t: State)
    requires t.ops == map[] && t.handles == map[] && t.reg == map[] && t.extant == {}
    ensures Base(t)
  {
  }

  lemma ScanKeepsInv(s: State, after: Disk)
    requires Inv(s) && !s.up && ScanLeaves(s.disk, after, s.cfg.checksum)
    ensures Inv(ScanNext(s, after))
  {
    ScanKeepsStore(s, after);
    NothingInFlight(ScanNext(s, after));
    DownKeepsQuota(s, ScanNext(s, after));
  }

  // While nothing serves the counters are zero, under any settings.
  lemma DownKeepsQuota(s: State, t: State)
    requires QuotaInv(s) && s.ops == map[] && s.extant == {}
    requires t.ops == map[] && t.extant == {} && t.clips == s.clips && t.bytes == s.bytes
    requires t.restored == s.restored && t.baseBytes == s.baseBytes
    ensures QuotaInv(t)
  {
    assert Sizes(s.logs, s.extant) == map[] && Sizes(t.logs, t.extant) == map[];
    assert Helds(s.ops) == map[] && Helds(t.ops) == map[];
  }

  lemma ReconfigureKeepsInv(s: State, cfg: Config)
    requires Inv(s) && !s.up
    ensures Inv(s.(cfg := cfg))
  {
    ReconfigureKeepsStore(s, cfg);
    NothingInFlight(s.(cfg := cfg));
    DownKeepsQuota(s, s.(cfg := cfg));
  }

  lemma BootKeepsInv(s: State, after: Disk, hs: map<nat, Handle>, names: map<string, nat>)
    requires Inv(s) && !s.up && ScanLeaves(s.disk, after, s.cfg.checksum)
    requires Restores(s.disk, s.cfg.checksum, hs, names)
    ensures Inv(BootNext(s, after, hs, names))
  {
    BootKeepsLeases(s, after, hs, names);
    BootOwns(s, after, hs, names);
    BootKeepsGate(s, after, hs, names);
    BootKeepsQuota(s, after, hs, names);
    BootKeepsStore(s, after, hs, names);
  }

  // -------------------------------------------------------------------------
  // The machine
  // -------------------------------------------------------------------------

  lemma UploadKeepsInv(s: State, o: nat, u: UploadStep)
    requires Inv(s) && UploadEnabled(s, o, u)
    ensures Inv(UploadNext(s, o, u))
  {
    hide Inv;
    match u
    case Admit(tail, made) => AdmitKeepsInv(s, o, tail, made);
    case Reserve(chunk) => ReserveKeepsInv(s, o, chunk);
    case Append(stored) => AppendKeepsInv(s, o, stored);
    case ReturnTail => ReturnTailKeepsInv(s, o);
    case SyncBytes(ok) => SyncBytesKeepsInv(s, o, ok);
    case Publish(outcome) => PublishKeepsInv(s, o, outcome);
    case FlipCurrent => FlipKeepsInv(s, o);
    case FinishLog => FinishLogKeepsInv(s, o);
    case AbortPublish(outcome) => AbortPublishKeepsInv(s, o, outcome);
    case Discard => DiscardKeepsInv(s, o);
    case TearLog => TearLogKeepsInv(s, o);
  }

  // A reader's next stage keeps what the gate and its duties require of it.
  predicate NextStage(s: State, o: nat, op: Op)
    requires At(s, o)
  {
    && s.ops[o].Opening? && op.Leased() && op.h == s.ops[o].h && AtGate(s, op)
    && (op.Opening? || op.Leaving? || op.Owing?)
    && op.Owes() == s.ops[o].Owes() && op.Clears() == s.ops[o].Clears()
  }

  lemma WakeStage(s: State, o: nat)
    requires GateInv(s) && WakeEnabled(s, o)
    ensures o in WakeNext(s, o).ops && WakeNext(s, o) == s.SetOp(o, WakeNext(s, o).ops[o])
    ensures NextStage(s, o, WakeNext(s, o).ops[o])
  {
    assert AtGate(s, s.ops[o]);
  }

  lemma WakeKeepsInv(s: State, o: nat)
    requires Inv(s) && WakeEnabled(s, o)
    ensures Inv(WakeNext(s, o))
  {
    WakeStage(s, o);
    ReaderStageKeepsInv(s, o, WakeNext(s, o).ops[o]);
  }

  lemma CloseReaderStage(s: State, o: nat)
    requires GateInv(s) && ReaderOpen(s, o)
    ensures o in CloseReaderNext(s, o).ops && CloseReaderNext(s, o) == s.SetOp(o, CloseReaderNext(s, o).ops[o])
    ensures NextStage(s, o, CloseReaderNext(s, o).ops[o])
  {
  }

  lemma CloseReaderKeepsInv(s: State, o: nat)
    requires Inv(s) && ReaderOpen(s, o)
    ensures Inv(CloseReaderNext(s, o))
  {
    CloseReaderStage(s, o);
    ReaderStageKeepsInv(s, o, CloseReaderNext(s, o).ops[o]);
  }

  lemma CancelKeepsInv(s: State, o: nat, op: Op)
    requires Inv(s) && At(s, o) && s.ops[o].Opening?
    requires op == s.ops[o].(canceled := true) || op == s.ops[o].(elapsed := true)
    ensures Inv(s.SetOp(o, op))
  {
    assert AtGate(s, s.ops[o]);
    ReaderStageKeepsInv(s, o, op);
  }

  lemma ObserveKeepsInv(s: State, o: nat, sweep: nat, h: nat)
    requires Inv(s) && ObserveEnabled(s, o, sweep, h)
    ensures Inv(ObserveNext(s, o, sweep, h))
  {
    assert SlotWell(s, h) && SlotStored(s, s.handles[h]);
    UnleasedKeepsInv(s, o, ObserveNext(s, o, sweep, h).ops[o]);
  }

  lemma ReapBeginKeepsInv(s: State, o: nat, h: nat)
    requires Inv(s) && ReapBeginEnabled(s, o, h)
    ensures Inv(ReapBeginNext(s, o, h))
  {
    assert StoredWell(s, s.ops[o]);
    AcquireKeepsInv(s, o, h, s.ops[o].name, Reaping(h, s.ops[o].at, s.ops[o].id));
  }

  predicate IsRestartStep(step: Step) {
    step.Crash? || step.Kill? || step.ScanPartly? || step.Reconfigure? || step.Boot?
  }

  lemma RestartKeepsInv(s: State, step: Step)
    requires Inv(s) && Enabled(s, step) && IsRestartStep(step)
    ensures Inv(Next(s, step))
  {
    hide Inv;
    if step.Crash? {
      CrashKeepsInv(s, step.after);
    } else if step.Kill? {
      KillKeepsInv(s);
    } else if step.ScanPartly? {
      ScanKeepsInv(s, step.after);
    } else if step.Reconfigure? {
      ReconfigureKeepsInv(s, step.cfg);
    } else {
      BootKeepsInv(s, step.after, step.hs, step.names);
    }
  }

  predicate IsReaderStep(step: Step) {
    step.ResolveOpen? || step.WakeUp? || step.Cancel? || step.Elapse? || step.CloseReader?
  }

  lemma ReaderKeepsInv(s: State, step: Step)
    requires Inv(s) && Enabled(s, step) && IsReaderStep(step)
    ensures Inv(Next(s, step))
  {
    hide Inv;
    if step.ResolveOpen? {
      ResolveKeepsInv(s, step.o, step.claim, step.attached);
    } else if step.WakeUp? {
      WakeKeepsInv(s, step.o);
    } else if step.Cancel? {
      CancelKeepsInv(s, step.o, s.ops[step.o].(canceled := true));
    } else if step.Elapse? {
      CancelKeepsInv(s, step.o, s.ops[step.o].(elapsed := true));
    } else {
      CloseReaderKeepsInv(s, step.o);
    }
  }

  predicate IsRetireStep(step: Step) {
    step.DeleteCurrent? || step.SweepBegin? || step.Observe? || step.ReapBegin? || step.ReapCurrent?
  }

  lemma SweepKeepsInv(s: State, step: Step)
    requires Inv(s) && Enabled(s, step) && IsRetireStep(step)
    ensures Inv(Next(s, step))
  {
    hide Inv;
    if step.DeleteCurrent? {
      var op := s.ops[step.o];
      RetireKeepsInv(s, step.o, PresentCurrent(s.handles[op.h].slot, op.at), step.outcome);
    } else if step.SweepBegin? {
      UnleasedKeepsInv(s, step.o, Sweeping(s.now));
    } else if step.Observe? {
      ObserveKeepsInv(s, step.o, step.sweep, step.h);
    } else if step.ReapBegin? {
      ReapBeginKeepsInv(s, step.o, step.h);
    } else {
      var op := s.ops[step.o];
      RetireKeepsInv(s, step.o, ReapTarget(s.handles[op.h].slot, op.at, op.id), step.outcome);
    }
  }

  // Whatever happens next, the invariant holds after it.
  lemma NextKeepsInv(s: State, step: Step)
    requires Inv(s) && Enabled(s, step)
    ensures Inv(Next(s, step))
  {
    hide Inv;
    if IsRestartStep(step) {
      RestartKeepsInv(s, step);
    } else if IsReaderStep(step) {
      ReaderKeepsInv(s, step);
    } else if IsRetireStep(step) {
      SweepKeepsInv(s, step);
    } else if step.Tick? {
      TickKeepsInv(s, step.t);
    } else if step.Begin? {
      BeginKeepsInv(s, step.o, step.h, step.name, step.req);
    } else if step.Upload? {
      UploadKeepsInv(s, step.o, step.u);
    } else if step.Reclaim? {
      ReclaimKeepsInv(s, step.o, step.removal);
    } else if step.ClearCurrent? {
      ClearKeepsInv(s, step.o);
    } else {
      ReleaseKeepsInv(s, step.o);
    }
  }
}
