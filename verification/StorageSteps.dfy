// Every step keeps the storage invariant while the store serves.
module StorageSteps {
  import opened Common
  import opened GenIds
  import opened Generations
  import opened Records
  import opened DiskModel
  import opened Transitions
  import opened StoreMachine
  import opened Leases
  import opened Ownership
  import opened OwnershipSteps
  import opened OwnershipTail
  import opened Gates
  import opened Storage

  // The invariants the storage proofs stand on.
  ghost predicate Base(s: State) { LeaseInv(s) && OwnInv(s) && GateInv(s) }

  // -------------------------------------------------------------------------
  // Nobody else has a hand on the generation an operation works on
  // -------------------------------------------------------------------------

  // A generation in some hand or slot of one handle is in no slot of another.
  lemma SlotsApart(s: State, o: nat, k: nat, g: GenId)
    requires LeaseInv(s) && OwnInv(s) && o in s.ops && s.ops[o].Leased() && k in s.handles && k != s.ops[o].h
    requires s.ops[o].h in s.handles && Named(s, g, s.handles[s.ops[o].h].name)
    ensures !IsCurrent(s.handles[k], g) && !IsLive(s.handles[k], g)
  {
    LeasePins(s, o);
    assert SlotWell(s, k);
    if !s.handles[k].slot.Empty() {
      assert InUse(s.handles[k]);
    }
  }

  // What a writer writes is nobody's finalized value.
  lemma WrittenIsNotFinal(s: State, o: nat, k: nat)
    requires LeaseInv(s) && OwnInv(s) && o in s.ops && s.ops[o].Writing? && k in s.handles
    ensures !IsCurrent(s.handles[k], s.ops[o].g)
  {
    assert HoldsWell(s, s.ops[o]);
    assert SlotWell(s, s.ops[o].h);
    if k != s.ops[o].h {
      SlotsApart(s, o, k, s.ops[o].g);
    }
  }

  // Neither is what an operation owes.
  lemma OwedIsNotFinal(s: State, o: nat, k: nat, g: GenId)
    requires LeaseInv(s) && OwnInv(s) && o in s.ops && s.ops[o].Leased() && s.ops[o].Owes() == Some(g) && k in s.handles
    ensures !IsFinal(s.handles[k], g) && !IsLive(s.handles[k], g)
  {
    assert HoldsWell(s, s.ops[o]);
    if k != s.ops[o].h {
      SlotsApart(s, o, k, g);
    }
  }

  // -------------------------------------------------------------------------
  // Steps that change nothing stored
  // -------------------------------------------------------------------------

  predicate SameStore(s: State, t: State) {
    && t.disk == s.disk && t.logs == s.logs && t.cfg == s.cfg && t.up == s.up && t.settled == s.settled
    && t.minted == s.minted && t.published == s.published && t.acked == s.acked && t.ended == s.ended
    && t.gone == s.gone && t.delivered == s.delivered
  }

  lemma QuietKeepsStore(s: State, t: State, o: nat)
    requires StoreInv(s) && s.up && Quiet(s, t, o) && SameStore(s, t) && StoredWell(t, t.ops[o])
    ensures StoreInv(t)
  {
    hide DirsWell, FatesWell, LogsWell, SeedBounds, DownWell;
    assert OpsStored(t) by {
      forall p | p in t.ops
        ensures StoredWell(t, t.ops[p])
      {
        if p != o {
          assert StoredWell(s, s.ops[p]);
        }
      }
    }
    assert SlotsStored(t) by {
      forall h | h in t.handles
        ensures SlotStored(t, t.handles[h])
      {
        assert SlotStored(s, s.handles[h]);
      }
    }
    StillKept(s, t);
  }

  // Published and durable generations are where they were.
  lemma StillKept(s: State, t: State)
    requires DirsWell(s) && FatesWell(s) && LogsWell(s) && SeedBounds(s) && SameStore(s, t)
    requires t.reg == s.reg && t.handles == s.handles
    ensures DirsWell(t) && FatesWell(t) && LogsWell(t) && SeedBounds(t)
  {
    forall g | g in t.disk
      ensures DirWell(t, g)
    {
      assert DirWell(s, g);
    }
    forall g | g in t.published
      ensures PublicationWell(t, g)
    {
      assert PublicationWell(s, g);
    }
    forall g | g in t.acked - t.ended
      ensures Acknowledged(t, g)
    {
      assert Acknowledged(s, g);
    }
    forall g | g in t.gone
      ensures Gone(t, g)
    {
      assert Gone(s, g);
    }
  }

  // -------------------------------------------------------------------------
  // Steps of a writer on its own generation
  // -------------------------------------------------------------------------

  // Only the directory, log and publication of the generation being written change.
  ghost predicate OnOwn(s: State, t: State, o: nat) {
    && Quiet(s, t, o) && s.ops[o].Writing? && t.ops[o].Writing?
    && t.cfg == s.cfg && t.up == s.up && t.settled == s.settled && t.minted == s.minted && t.acked == s.acked
    && t.ended == s.ended && t.delivered == s.delivered
    && var g := s.ops[o].g;
       && g in t.disk && t.disk == s.disk[g := t.disk[g]]
       && g in s.logs && g in t.logs && t.logs == s.logs[g := t.logs[g]] && t.logs[g].end == Open
       && (forall k | k != g :: (k in t.published <==> k in s.published) && (k in s.published ==> t.published[k] == s.published[k]))
       && (t.gone == s.gone || t.gone == s.gone + {g})
  }

  lemma OwnOps(s: State, t: State, o: nat)
    requires Base(s) && OpsStored(s) && OnOwn(s, t, o) && StoredWell(t, t.ops[o])
    ensures OpsStored(t)
  {
    forall p | p in t.ops
      ensures StoredWell(t, t.ops[p])
    {
      if p != o {
        assert StoredWell(s, s.ops[p]);
        assert s.ops[o].EndsLog() == Some(s.ops[o].g);
        assert s.ops[p].EndsLog() != Some(s.ops[o].g);
      }
    }
  }

  lemma OwnSlots(s: State, t: State, o: nat)
    requires Base(s) && SlotsStored(s) && OnOwn(s, t, o)
    ensures SlotsStored(t)
  {
    hide LeaseInv, OwnInv, RecordOf;
    forall h | h in t.handles
      ensures SlotStored(t, t.handles[h])
    {
      assert SlotStored(s, s.handles[h]);
      WrittenIsNotFinal(s, o, h);
    }
  }

  lemma OwnFates(s: State, t: State, o: nat)
    requires FatesWell(s) && OnOwn(s, t, o) && s.ops[o].g !in s.acked
    requires s.ops[o].g in t.gone ==> Gone(t, s.ops[o].g)
    ensures FatesWell(t)
  {
    forall g | g in t.acked - t.ended
      ensures Acknowledged(t, g)
    {
      assert Acknowledged(s, g);
    }
    forall g | g in t.gone
      ensures Gone(t, g)
    {
      if g != s.ops[o].g {
        assert Gone(s, g);
      }
    }
  }

  lemma OwnDirs(s: State, t: State, o: nat)
    requires DirsWell(s) && OnOwn(s, t, o)
    requires DirWell(t, s.ops[o].g) && (s.ops[o].g in t.published ==> PublicationWell(t, s.ops[o].g))
    ensures DirsWell(t)
  {
    forall g | g in t.disk
      ensures DirWell(t, g)
    {
      if g != s.ops[o].g {
        assert DirWell(s, g);
      }
    }
    forall g | g in t.published
      ensures PublicationWell(t, g)
    {
      if g != s.ops[o].g {
        assert PublicationWell(s, g);
      }
    }
  }

  lemma OwnLogs(s: State, t: State, o: nat)
    requires LogsWell(s) && OnOwn(s, t, o)
    requires s.ops[o].g in t.published ==> t.published[s.ops[o].g].bytes == t.logs[s.ops[o].g].bytes
    ensures LogsWell(t)
  {
    hide Quiet;
  }

  lemma OwnBounds(s: State, t: State, o: nat)
    requires Base(s) && SeedBounds(s) && OnOwn(s, t, o)
    ensures SeedBounds(t)
  {
    var h := s.ops[o].h;
    LeasePins(s, o);
    assert HoldsWell(s, s.ops[o]);
    assert SlotWell(s, h);
    assert s.handles[h].slot.Ordered();
  }

  lemma OwnKeepsStore(s: State, t: State, o: nat)
    requires Base(s) && StoreInv(s) && s.up && OnOwn(s, t, o) && StoredWell(t, t.ops[o])
    requires DirWell(t, s.ops[o].g) && (s.ops[o].g in t.published ==> PublicationWell(t, s.ops[o].g))
    requires s.ops[o].g in t.published ==> t.published[s.ops[o].g].bytes == t.logs[s.ops[o].g].bytes
    requires s.ops[o].g in t.gone ==> Gone(t, s.ops[o].g)
    ensures StoreInv(t)
  {
    assert StoredWell(s, s.ops[o]);
    OwnOps(s, t, o);
    OwnSlots(s, t, o);
    OwnFates(s, t, o);
    OwnDirs(s, t, o);
    OwnLogs(s, t, o);
    OwnBounds(s, t, o);
  }

  lemma AppendKeepsStore(s: State, o: nat, stored: nat)
    requires Base(s) && StoreInv(s) && s.up
    requires IsWriting(s, o) && s.ops[o].stage.Reserved? && stored <= |s.ops[o].stage.chunk|
    ensures StoreInv(AppendNext(s, o, stored))
  {
    hide FatesWell, LogsWell, SlotsStored, SeedBounds, Base;
    var t := AppendNext(s, o, stored);
    AppendIsQuiet(s, o, stored);
    assert StoredWell(s, s.ops[o]);
    assert DirWell(s, s.ops[o].g);
    OwnKeepsStore(s, t, o);
  }

  lemma SyncBytesKeepsStore(s: State, o: nat, ok: bool)
    requires Base(s) && StoreInv(s) && s.up && IsWriting(s, o) && s.ops[o].stage.Idle?
    ensures StoreInv(SyncBytesNext(s, o, ok))
  {
    hide FatesWell, SlotsStored, LogsWell, SeedBounds, DownWell, Base, SyncBytesNext, StoredWell, DirWell, OnOwn, SameStore;
    var t := SyncBytesNext(s, o, ok);
    SyncBytesIsQuiet(s, o, ok);
    assert StoredWell(s, s.ops[o]) && DirWell(s, s.ops[o].g);
    SyncedStored(s, o, ok);
    if ok {
      SyncOnOwn(s, o);
      OwnKeepsStore(s, t, o);
    } else {
      SyncFailed(s, o);
      QuietKeepsStore(s, t, o);
    }
  }

  lemma SyncFailed(s: State, o: nat)
    requires IsWriting(s, o)
    ensures SameStore(s, SyncBytesNext(s, o, false))
  {
  }

  lemma SyncOnOwn(s: State, o: nat)
    requires IsWriting(s, o) && s.ops[o].stage.Idle? && s.logs[s.ops[o].g].end == Open && DirWell(s, s.ops[o].g)
    requires s.ops[o].g !in s.published && s.ops[o].g !in s.gone
    ensures var t := SyncBytesNext(s, o, true);
            && OnOwn(s, t, o) && DirWell(t, s.ops[o].g) && t.published == s.published && t.gone == s.gone
  {
    SyncBytesIsQuiet(s, o, true);
  }

  lemma SyncedStored(s: State, o: nat, ok: bool)
    requires IsWriting(s, o) && s.ops[o].stage.Idle? && StoredWell(s, s.ops[o])
    ensures o in SyncBytesNext(s, o, ok).ops && StoredWell(SyncBytesNext(s, o, ok), SyncBytesNext(s, o, ok).ops[o])
    ensures s.logs[s.ops[o].g].end == Open && s.ops[o].g !in s.published && s.ops[o].g !in s.gone && s.ops[o].g !in s.acked
  {
    hide RecordOf, Finalize;
  }

  // What finalize publishes is a record recovery accepts.
  lemma PublishedIsWell(s: State, o: nat)
    requires Base(s) && StoreInv(s) && s.up && IsPublishing(s, o)
    ensures var op := s.ops[o];
            var g := Finalize(s.handles[op.h].slot.live.value, op.stage.at);
            var r := RecordOf(g, s.logs[op.g].bytes, s.cfg.checksum);
            && op.g in s.minted && r.name == s.minted[op.g] && ValidName(r.name)
            && r.version == META_VERSION && Validates(r, op.g, |s.logs[op.g].bytes|)
            && ChecksumHolds(r, s.logs[op.g].bytes, true) && r.meta == Normalized(r.meta)
  {
    var op := s.ops[o];
    assert HoldsWell(s, op);
    assert SlotWell(s, op.h);
    assert SlotStored(s, s.handles[op.h]);
    RecordRoundTrip(Finalize(s.handles[op.h].slot.live.value, op.stage.at), s.logs[op.g].bytes, s.cfg.checksum, true);
  }

  lemma PublishOnOwn(s: State, o: nat, outcome: Outcome)
    requires IsPublishing(s, o) && s.logs[s.ops[o].g].end == Open
    ensures OnOwn(s, PublishNext(s, o, outcome), o)
  {
    PublishIsQuiet(s, o, outcome);
  }

  lemma PublishStored(s: State, o: nat, outcome: Outcome)
    requires IsPublishing(s, o) && StoredWell(s, s.ops[o])
    ensures o in PublishNext(s, o, outcome).ops
    ensures StoredWell(PublishNext(s, o, outcome), PublishNext(s, o, outcome).ops[o])
  {
    hide RecordOf, Finalize, PublishNext, StoredWell;
    match outcome {
      case NeverTook => UnpublishedStored(s, o);
      case TookUnflushed => UnflushedStored(s, o);
      case TookDurable => DurableStored(s, o);
    }
  }

  lemma UnpublishedStored(s: State, o: nat)
    requires IsPublishing(s, o) && StoredWell(s, s.ops[o])
    ensures o in PublishNext(s, o, NeverTook).ops
    ensures StoredWell(PublishNext(s, o, NeverTook), PublishNext(s, o, NeverTook).ops[o])
  {
    hide RecordOf, Finalize;
  }

  lemma UnflushedStored(s: State, o: nat)
    requires IsPublishing(s, o) && StoredWell(s, s.ops[o])
    ensures o in PublishNext(s, o, TookUnflushed).ops
    ensures StoredWell(PublishNext(s, o, TookUnflushed), PublishNext(s, o, TookUnflushed).ops[o])
  {
    hide RecordOf, Finalize;
  }

  lemma DurableStored(s: State, o: nat)
    requires IsPublishing(s, o) && StoredWell(s, s.ops[o])
    ensures o in PublishNext(s, o, TookDurable).ops
    ensures StoredWell(PublishNext(s, o, TookDurable), PublishNext(s, o, TookDurable).ops[o])
  {
    hide RecordOf, Finalize;
  }

  lemma PublishDir(s: State, o: nat, outcome: Outcome)
    requires IsPublishing(s, o) && StoredWell(s, s.ops[o]) && DirWell(s, s.ops[o].g)
    requires var op := s.ops[o];
             var r := RecordOf(Finalize(s.handles[op.h].slot.live.value, op.stage.at), s.logs[op.g].bytes, s.cfg.checksum);
             && op.g in s.minted && r.name == s.minted[op.g] && ValidName(r.name)
             && r.version == META_VERSION && Validates(r, op.g, |s.logs[op.g].bytes|)
             && ChecksumHolds(r, s.logs[op.g].bytes, true) && r.meta == Normalized(r.meta)
    ensures var t := PublishNext(s, o, outcome);
            var g := s.ops[o].g;
            g in t.disk && DirWell(t, g) && (g in t.published ==> PublicationWell(t, g)) && t.gone == s.gone
  {
  }

  lemma PublishKeepsStore(s: State, o: nat, outcome: Outcome)
    requires Base(s) && StoreInv(s) && s.up && IsPublishing(s, o)
    ensures StoreInv(PublishNext(s, o, outcome))
  {
    assert StoredWell(s, s.ops[o]);
    assert DirWell(s, s.ops[o].g);
    PublishOnOwn(s, o, outcome);
    PublishedIsWell(s, o);
    PublishStored(s, o, outcome);
    PublishDir(s, o, outcome);
    OwnKeepsStore(s, PublishNext(s, o, outcome), o);
  }

  lemma AbortPublishDir(s: State, o: nat, outcome: Outcome)
    requires IsWriting(s, o) && DirWell(s, s.ops[o].g)
    ensures var t := AbortPublishNext(s, o, outcome);
            var g := s.ops[o].g;
            && g in t.disk && DirWell(t, g) && (outcome == TookDurable ==> Gone(t, g))
            && t.gone == (if outcome == TookDurable then s.gone + {g} else s.gone)
  {
  }

  lemma AbortPublishKeepsStore(s: State, o: nat, outcome: Outcome)
    requires Base(s) && StoreInv(s) && s.up && IsWriting(s, o) && s.ops[o].stage == Failing(true)
    ensures StoreInv(AbortPublishNext(s, o, outcome))
  {
    hide FatesWell, SlotsStored, SeedBounds, Base, RecordOf, Finalize, Validates;
    var t := AbortPublishNext(s, o, outcome);
    AbortPublishIsQuiet(s, o, outcome);
    assert StoredWell(s, s.ops[o]);
    assert DirWell(s, s.ops[o].g);
    AbortPublishDir(s, o, outcome);
    if s.ops[o].g in s.published {
      assert PublicationWell(s, s.ops[o].g);
    }
    OwnKeepsStore(s, t, o);
  }
}
