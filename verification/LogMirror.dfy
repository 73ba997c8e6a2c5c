// The store's log of a generation and the followable log its readers are on are one log: every step of the store is, on
// each log, a few of that log's own writer steps, or none.
module LogMirror {
  import opened Common
  import opened GenIds
  import opened Generations
  import opened Records
  import opened DiskModel
  import opened Transitions
  import opened StoreMachine
  import opened Leases
  import opened Ownership
  import opened OwnershipSteps
  import opened OwnershipTail
  import opened Gates
  import opened QuotaInvariant
  import opened Storage
  import opened StorageSteps
  import opened StorageFates
  import opened Invariant
  import L = ByteLog
  import R = Runs

  // The operation may still append to the log of `g`.
  predicate Grows(op: Op, g: GenId) {
    op.Writing? && op.g == g && (op.stage.Idle? || op.stage.Reserved? || op.stage.ShortBy?)
  }

  ghost predicate Growing(m: State, g: GenId) { exists p :: p in m.ops && Grows(m.ops[p], g) }

  // Between steps of the store, the log of `g` is `s`: the same bytes, ended the same way, and past its last append
  // exactly when no operation may append to it.
  ghost predicate Mirrors(m: State, g: GenId, s: L.State) {
    && g in m.logs && L.LogInv(s) && !s.writer.Stored? && s.stored == m.logs[g].bytes
    && (s.closed <==> m.logs[g].end == Finished) && (s.aborted <==> m.logs[g].end == Torn)
    && if Growing(m, g) then s.writer.Ready? else s.Terminated() || s.writer.Closing?
  }

  // What the writer of `g` does to its log in one step of the store.
  function WriterSteps(m: State, step: Step, g: GenId): seq<L.Step> {
    if !step.Upload? || step.o !in m.ops || m.ops[step.o].EndsLog() != Some(g) then []
    else
      match step.u
      case Append(stored) =>
        if !m.ops[step.o].Writing? || !m.ops[step.o].stage.Reserved? then []
        else [L.Step.Store(m.ops[step.o].stage.chunk, stored)] + if stored > 0 then [L.Step.Advance] else []
      case SyncBytes(_) => [L.BeginClose]
      case Discard => if Grows(m.ops[step.o], g) then [L.BeginClose] else []
      case FinishLog => [L.Step.Finish]
      case TearLog => [L.Step.Fail]
      case _ => []
  }

  // -------------------------------------------------------------------------
  // Logs begin
  // -------------------------------------------------------------------------

  // An admitted generation's log is a new one.
  lemma AdmittedLogMirrors(m: State, o: nat, tail: Option<Uint64>, s: L.State)
    requires Admits(m, o, tail) && L.Init(s)
    ensures Mirrors(AdmitNext(m, o, tail, true), FreshId(m, m.ops[o].h, tail.value), s)
  {
    hide ClockAhead;
    var t := AdmitNext(m, o, tail, true);
    assert Grows(t.ops[o], FreshId(m, m.ops[o].h, tail.value));
  }

  // A restored generation's log is a sealed one.
  lemma RestoredLogMirrors(m: State, step: Step, g: GenId, s: L.State)
    requires Inv(m) && Enabled(m, step) && step.Boot? && g in Next(m, step).logs
    requires L.Sealed(s) && s.stored == Next(m, step).logs[g].bytes
    ensures Mirrors(Next(m, step), g, s)
  {
    hide Restores, ScanLeaves, Base, QuotaInv, DownWell, DirsWell, FatesWell, LogsWell, SlotsStored, OpsStored, Survivors,
         Losers, L.ReaderWell;
    BootIsIdle(m, step);
  }

  lemma BootIsIdle(m: State, step: Step)
    requires Inv(m) && Enabled(m, step) && step.Boot?
    ensures var t := Next(m, step);
            t.ops == map[] && forall g | g in t.logs :: t.logs[g].end == Finished
  {
    hide Restores, ScanLeaves, Base, QuotaInv, DownWell, DirsWell, FatesWell, LogsWell, SlotsStored, OpsStored, Survivors,
         Losers;
  }

  // -------------------------------------------------------------------------
  // Steps that leave the log alone
  // -------------------------------------------------------------------------

  // Nothing but one operation changed, and it may append to `g` as it might before.
  ghost predicate ChangesOne(m: State, t: State, o: nat, g: GenId) {
    && (forall p | p != o :: (p in t.ops <==> p in m.ops) && (p in m.ops ==> t.ops[p] == m.ops[p]))
    && ((o in t.ops && Grows(t.ops[o], g)) <==> (o in m.ops && Grows(m.ops[o], g)))
  }

  lemma GrowingStands(m: State, t: State, o: nat, g: GenId)
    requires ChangesOne(m, t, o, g)
    ensures Growing(t, g) <==> Growing(m, g)
  {
    if Growing(m, g) {
      var p :| p in m.ops && Grows(m.ops[p], g);
      assert p in t.ops && Grows(t.ops[p], g);
    }
    if Growing(t, g) {
      var p :| p in t.ops && Grows(t.ops[p], g);
      assert p in m.ops && Grows(m.ops[p], g);
    }
  }

  lemma MirrorStands(m: State, t: State, o: nat, g: GenId, s: L.State)
    requires Mirrors(m, g, s) && ChangesOne(m, t, o, g) && g in t.logs && t.logs[g] == m.logs[g]
    ensures Mirrors(t, g, s)
  {
    hide L.LogInv, Grows;
    GrowingStands(m, t, o, g);
  }

  // No operation may append to `g` after this one's step.
  lemma GrowingEnds(m: State, t: State, o: nat, g: GenId)
    requires o in m.ops && Alone(m, o) && m.ops[o].g == g
    requires forall p | p in t.ops && p != o :: p in m.ops && t.ops[p] == m.ops[p]
    requires o in t.ops ==> !Grows(t.ops[o], g)
    ensures !Growing(t, g)
  {
    forall p | p in t.ops
      ensures !Grows(t.ops[p], g)
    {
      if p != o {
        assert m.ops[p].EndsLog() != Some(g);
      }
    }
  }

  // The operation whose own step this is.
  function Mover(step: Step): nat
    requires !step.Tick? && !IsRestartStep(step)
  {
    step.o
  }

  lemma ResolveLeavesLogs(m: State, o: nat, claim: Outcome, attached: bool, g: GenId)
    requires ResolveEnabled(m, o, claim)
    ensures var t := ResolveNext(m, o, claim, attached);
            t.logs == m.logs && ChangesOne(m, t, o, g)
  {
    hide Resolve, ResolveNext, Unclaimed, CursorOf;
    if Claimable(Resolved(m, o)) {
      ResolveClaims(m, o, claim, attached);
    } else {
      ResolveClaimsNothing(m, o, claim, attached);
      var hd := m.handles[m.ops[o].h];
      UnclaimedIsNoWriter(m.ops[o].(cursor := CursorOf(m.ops[o], hd.slot)), Resolved(m, o), hd.notify, attached);
    }
  }

  lemma UnclaimedIsNoWriter(op: Op, r: Resolution, channel: nat, attached: bool)
    requires op.Opening?
    ensures !Unclaimed(op, r, channel, attached).Writing?
  {
  }

  lemma ResolveClaims(m: State, o: nat, claim: Outcome, attached: bool)
    requires ResolveEnabled(m, o, claim) && Claimable(Resolved(m, o))
    ensures var t := ResolveNext(m, o, claim, attached);
            t.logs == m.logs && o in t.ops && !t.ops[o].Writing? && t.ops == m.ops[o := t.ops[o]]
  {
    hide ClaimNext;
    ClaimTouchesLittle(m, o, m.ops[o].(cursor := CursorOf(m.ops[o], m.handles[m.ops[o].h].slot)), Resolved(m, o).gen, claim,
                       attached);
  }

  lemma RetireLeavesLogs(m: State, o: nat, h: nat, target: Option<Generation>, outcome: Outcome, g: GenId)
    requires h in m.handles && RenamesMarker(m, target, outcome) && o in m.ops && !m.ops[o].Writing?
    requires target.Some? ==> m.handles[h].slot.current == target
    ensures var t := RetireNext(m, o, h, target, outcome);
            t.logs == m.logs && ChangesOne(m, t, o, g)
  {
  }

  lemma RetireStepsLeaveLogs(m: State, step: Step, g: GenId)
    requires Enabled(m, step) && (step.DeleteCurrent? || step.ReapCurrent?)
    ensures Next(m, step).logs == m.logs && ChangesOne(m, Next(m, step), step.o, g)
  {
    hide RetireNext, RenamesMarker;
    var op := m.ops[step.o];
    if step.DeleteCurrent? {
      RetireLeavesLogs(m, step.o, op.h, PresentCurrent(m.handles[op.h].slot, op.at), step.outcome, g);
    } else {
      RetireLeavesLogs(m, step.o, op.h, ReapTarget(m.handles[op.h].slot, op.at, op.id), step.outcome, g);
    }
  }

  lemma ReaderStepsLeaveLogs(m: State, step: Step, g: GenId)
    requires Enabled(m, step) && IsReaderStep(step)
    ensures Next(m, step).logs == m.logs && ChangesOne(m, Next(m, step), step.o, g)
  {
    hide ResolveNext, ResolveEnabled;
    if step.ResolveOpen? {
      ResolveLeavesLogs(m, step.o, step.claim, step.attached, g);
    }
  }

  lemma SweepStepsLeaveLogs(m: State, step: Step, g: GenId)
    requires Enabled(m, step) && IsRetireStep(step)
    ensures Next(m, step).logs == m.logs && ChangesOne(m, Next(m, step), step.o, g)
  {
    hide DeleteNext, DeleteEnabled, ReapNext, ReapEnabled, ValidName, ExpiredCurrent, UploadEnabled, UploadNext, ResolveEnabled,
         ResolveNext, ReclaimNext, ClearNext, ReleaseNext, BootNext, ScanNext, KillNext, CrashNext;
    if step.DeleteCurrent? || step.ReapCurrent? {
      RetireStepsLeaveLogs(m, step, g);
    }
  }

  lemma OtherStepsLeaveLogs(m: State, step: Step, g: GenId)
    requires Enabled(m, step) && !step.Upload? && !step.Tick? && !IsRestartStep(step)
    ensures Next(m, step).logs == m.logs && ChangesOne(m, Next(m, step), Mover(step), g)
  {
    hide ResolveNext, ResolveEnabled, DeleteNext, DeleteEnabled, ReapNext, ReapEnabled, WakeNext, CloseReaderNext,
         ObserveNext, ReapBeginNext, Clear, GenDir.Remove;
    if IsReaderStep(step) {
      ReaderStepsLeaveLogs(m, step, g);
    } else if IsRetireStep(step) {
      SweepStepsLeaveLogs(m, step, g);
    }
  }

  // -------------------------------------------------------------------------
  // Steps of an upload
  // -------------------------------------------------------------------------

  lemma PublishLeavesLog(m: State, o: nat, outcome: Outcome, g: GenId)
    requires IsPublishing(m, o)
    ensures var t := PublishNext(m, o, outcome);
            t.logs == m.logs && ChangesOne(m, t, o, g)
  {
    hide RecordOf, Finalize;
  }

  lemma FlipLeavesLog(m: State, o: nat, g: GenId)
    requires IsFlipping(m, o)
    ensures FlipNext(m, o).logs == m.logs && ChangesOne(m, FlipNext(m, o), o, g)
  {
    hide Finalize;
  }

  lemma AppendElsewhere(m: State, o: nat, stored: nat, g: GenId)
    requires UploadEnabled(m, o, Append(stored)) && m.ops[o].g != g && g in m.logs
    ensures var t := AppendNext(m, o, stored);
            g in t.logs && t.logs[g] == m.logs[g] && ChangesOne(m, t, o, g)
  {
  }

  lemma EndElsewhere(m: State, o: nat, u: UploadStep, g: GenId)
    requires UploadEnabled(m, o, u) && (u.FinishLog? || u.TearLog?) && m.ops[o].g != g && g in m.logs
    ensures var t := UploadNext(m, o, u);
            g in t.logs && t.logs[g] == m.logs[g] && ChangesOne(m, t, o, g)
  {
  }

  lemma SyncElsewhere(m: State, o: nat, ok: bool, g: GenId)
    requires UploadEnabled(m, o, SyncBytes(ok)) && m.ops[o].g != g
    ensures SyncBytesNext(m, o, ok).logs == m.logs && ChangesOne(m, SyncBytesNext(m, o, ok), o, g)
  {
  }

  lemma DiscardElsewhere(m: State, o: nat, g: GenId)
    requires UploadEnabled(m, o, Discard) && !Grows(m.ops[o], g)
    ensures DiscardNext(m, o).logs == m.logs && ChangesOne(m, DiscardNext(m, o), o, g)
  {
  }

  lemma ReserveLeavesLog(m: State, o: nat, chunk: seq<Byte>, g: GenId)
    requires UploadEnabled(m, o, Reserve(chunk))
    ensures ReserveNext(m, o, chunk).logs == m.logs && ChangesOne(m, ReserveNext(m, o, chunk), o, g)
  {
    hide ReserveNext;
    if ReserveNext(m, o, chunk) != m {
      ReserveUnfolds(m, o, chunk);
    }
  }

  lemma ReturnLeavesLog(m: State, o: nat, g: GenId)
    requires UploadEnabled(m, o, ReturnTail)
    ensures ReturnTailNext(m, o).logs == m.logs && ChangesOne(m, ReturnTailNext(m, o), o, g)
  {
  }

  lemma AbortLeavesLog(m: State, o: nat, outcome: Outcome, g: GenId)
    requires UploadEnabled(m, o, AbortPublish(outcome))
    ensures AbortPublishNext(m, o, outcome).logs == m.logs && ChangesOne(m, AbortPublishNext(m, o, outcome), o, g)
  {
    hide GenDir.Commit;
  }

  // An upload's step on another generation's log, or between appends, leaves this one's alone.
  lemma UploadLeavesLog(m: State, o: nat, u: UploadStep, g: GenId)
    requires UploadEnabled(m, o, u) && g in m.logs && !u.Admit? && WriterSteps(m, Upload(o, u), g) == []
    ensures var t := UploadNext(m, o, u);
            g in t.logs && t.logs[g] == m.logs[g] && ChangesOne(m, t, o, g)
  {
    hide PublishNext, FlipNext, AppendNext, ChangesOne, SyncBytesNext, DiscardNext, ReserveNext, ReturnTailNext,
         AbortPublishNext, FinishLogNext, TearLogNext;
    if u.Publish? {
      PublishLeavesLog(m, o, u.outcome, g);
    } else if u.FlipCurrent? {
      FlipLeavesLog(m, o, g);
    } else if u.Append? {
      AppendElsewhere(m, o, u.stored, g);
    } else if u.FinishLog? || u.TearLog? {
      EndElsewhere(m, o, u, g);
    } else if u.SyncBytes? {
      SyncElsewhere(m, o, u.ok, g);
    } else if u.Discard? {
      DiscardElsewhere(m, o, g);
    } else if u.Reserve? {
      ReserveLeavesLog(m, o, u.chunk, g);
    } else if u.ReturnTail? {
      ReturnLeavesLog(m, o, g);
    } else {
      AbortLeavesLog(m, o, u.outcome, g);
    }
  }

  lemma AdmitLeavesLog(m: State, o: nat, tail: Option<Uint64>, made: bool, g: GenId)
    requires Inv(m) && AdmitEnabled(m, o, tail) && g in m.logs
    ensures var t := AdmitNext(m, o, tail, made);
            g in t.logs && t.logs[g] == m.logs[g] && ChangesOne(m, t, o, g)
  {
    hide ClockAhead, Base, QuotaInv, DirsWell, OpsStored, SlotsStored, FatesWell, SeedBounds, DownWell, Admission,
         NewGeneration, Install;
    assert g in m.minted;
  }

  lemma OneStep(s: L.State, a: L.Step)
    requires L.Captured(s) && L.Enabled(s, a)
    ensures L.Run(s, [a], L.Next(s, a))
  {
    hide L.Enabled, L.Next, L.Captured;
    assert [a][1..] == [];
  }

  lemma TwoSteps(s: L.State, a: L.Step, b: L.Step)
    requires L.Captured(s) && L.Enabled(s, a) && L.Captured(L.Next(s, a)) && L.Enabled(L.Next(s, a), b)
    ensures L.Run(s, [a, b], L.Next(L.Next(s, a), b))
  {
    hide L.Enabled, L.Next, L.Captured;
    OneStep(L.Next(s, a), b);
    assert [a, b][1..] == [b];
  }

  // The bytes an append stored, then their publication.
  lemma StoredThenPublished(s: L.State, chunk: seq<Byte>, n: nat) returns (t: L.State)
    requires L.LogInv(s) && s.writer.Ready? && !s.Terminated() && n <= |chunk|
    ensures L.Run(s, [L.Step.Store(chunk, n)] + if n > 0 then [L.Step.Advance] else [], t)
    ensures L.LogInv(t) && t.stored == s.stored + chunk[..n] && t.writer.Ready? && t.readers == s.readers
    ensures t.closed == s.closed && t.aborted == s.aborted
  {
    hide L.LogInv, L.Captured;
    var store := L.Step.Store(chunk, n);
    L.CapturesExist(s);
    L.NextKeepsInv(s, store);
    t := L.Next(s, store);
    OneStep(s, store);
    if n > 0 {
      L.CapturesExist(t);
      L.NextKeepsInv(t, L.Step.Advance);
      TwoSteps(s, store, L.Step.Advance);
      t := L.Next(t, L.Step.Advance);
      assert [store] + [L.Step.Advance] == [store, L.Step.Advance];
    } else {
      assert [store] + [] == [store];
    }
  }

  lemma AppendGrows(m: State, o: nat, stored: nat)
    requires UploadEnabled(m, o, Append(stored))
    ensures var t := AppendNext(m, o, stored);
            var g := m.ops[o].g;
            && Growing(m, g) && Growing(t, g) && g in t.logs
            && t.logs[g] == m.logs[g].(bytes := m.logs[g].bytes + m.ops[o].stage.chunk[..stored])
  {
    var g := m.ops[o].g;
    assert Grows(m.ops[o], g) && Grows(AppendNext(m, o, stored).ops[o], g);
  }

  lemma WriterLogIsOpen(m: State, o: nat)
    requires OpsStored(m) && o in m.ops && m.ops[o].Writing?
    ensures m.ops[o].g in m.logs && m.logs[m.ops[o].g].end == Open
  {
    hide RecordOf, Finalize, ValidName, Normalized;
    assert StoredWell(m, m.ops[o]);
  }

  lemma AppendIsLogSteps(m: State, o: nat, stored: nat, s: L.State) returns (t: L.State)
    requires Inv(m) && UploadEnabled(m, o, Append(stored)) && Mirrors(m, m.ops[o].g, s)
    ensures L.Run(s, WriterSteps(m, Upload(o, Append(stored)), m.ops[o].g), t) && t.readers == s.readers
    ensures Mirrors(AppendNext(m, o, stored), m.ops[o].g, t)
  {
    hide Base, QuotaInv, DirsWell, SlotsStored, FatesWell, LogsWell, OpsStored, SeedBounds, DownWell, L.LogInv, AppendNext,
         Growing, L.Run;
    AppendGrows(m, o, stored);
    WriterLogIsOpen(m, o);
    t := StoredThenPublished(s, m.ops[o].stage.chunk, stored);
  }

  // The owner is past its last append.
  lemma Closed(s: L.State) returns (t: L.State)
    requires L.LogInv(s) && s.writer.Ready?
    ensures L.Run(s, [L.BeginClose], t) && L.LogInv(t) && t == s.(writer := L.Closing)
  {
    hide L.LogInv, L.Captured;
    L.CapturesExist(s);
    L.NextKeepsInv(s, L.BeginClose);
    t := L.Next(s, L.BeginClose);
    OneStep(s, L.BeginClose);
  }

  lemma SyncedGrowsNoMore(m: State, o: nat, ok: bool)
    requires Alone(m, o) && UploadEnabled(m, o, SyncBytes(ok))
    ensures SyncBytesNext(m, o, ok).logs == m.logs && !Growing(SyncBytesNext(m, o, ok), m.ops[o].g)
  {
    hide Alone;
    GrowingEnds(m, SyncBytesNext(m, o, ok), o, m.ops[o].g);
  }

  lemma DiscardedGrowsNoMore(m: State, o: nat)
    requires Alone(m, o) && UploadEnabled(m, o, Discard)
    ensures DiscardNext(m, o).logs == m.logs && !Growing(DiscardNext(m, o), m.ops[o].g)
  {
    hide Alone;
    GrowingEnds(m, DiscardNext(m, o), o, m.ops[o].g);
  }

  lemma CloseIsLogSteps(m: State, o: nat, u: UploadStep, s: L.State) returns (t: L.State)
    requires Inv(m) && UploadEnabled(m, o, u) && (u.SyncBytes? || u.Discard?) && Mirrors(m, m.ops[o].g, s)
    requires Grows(m.ops[o], m.ops[o].g)
    ensures L.Run(s, WriterSteps(m, Upload(o, u), m.ops[o].g), t) && t.readers == s.readers
    ensures Mirrors(UploadNext(m, o, u), m.ops[o].g, t)
  {
    hide QuotaInv, StoreInv, LeaseInv, GateInv, OwnInv, L.LogInv, L.Run, SyncBytesNext, DiscardNext;
    WriterAlone(m, o);
    t := Closed(s);
    if u.SyncBytes? {
      SyncedGrowsNoMore(m, o, u.ok);
    } else {
      DiscardedGrowsNoMore(m, o);
    }
  }

  lemma EndIsLogSteps(m: State, o: nat, u: UploadStep, s: L.State) returns (t: L.State)
    requires Inv(m) && UploadEnabled(m, o, u) && (u.FinishLog? || u.TearLog?) && Mirrors(m, m.ops[o].g, s)
    ensures L.Run(s, WriterSteps(m, Upload(o, u), m.ops[o].g), t) && t.readers == s.readers
    ensures Mirrors(UploadNext(m, o, u), m.ops[o].g, t)
  {
    hide Base, QuotaInv, DirsWell, SlotsStored, FatesWell, LogsWell, SeedBounds, DownWell, L.LogInv, L.ReaderWell, L.Captured;
    var g := m.ops[o].g;
    var end := if u.FinishLog? then L.Step.Finish else L.Step.Fail;
    assert StoredWell(m, m.ops[o]);
    L.CapturesExist(s);
    L.NextKeepsInv(s, end);
    t := L.Next(s, end);
    OneStep(s, end);
    GrowingStands(m, UploadNext(m, o, u), o, g);
  }

  lemma UploadIsLogSteps(m: State, o: nat, u: UploadStep, g: GenId, s: L.State) returns (t: L.State)
    requires Inv(m) && UploadEnabled(m, o, u) && Mirrors(m, g, s)
    ensures L.Run(s, WriterSteps(m, Upload(o, u), g), t) && t.readers == s.readers && Mirrors(UploadNext(m, o, u), g, t)
  {
    hide Inv, Mirrors, L.LogInv, L.Enabled, L.Next, L.Captured, AdmitNext, AppendNext, PublishNext, FlipNext, ChangesOne;
    t := s;
    if u.Admit? {
      MirrorsItsLog(m, g, s);
      AdmitLeavesLog(m, o, u.tail, u.made, g);
      MirrorStands(m, UploadNext(m, o, u), o, g, s);
    } else if WriterSteps(m, Upload(o, u), g) == [] {
      MirrorsItsLog(m, g, s);
      UploadLeavesLog(m, o, u, g);
      MirrorStands(m, UploadNext(m, o, u), o, g, s);
    } else if u.Append? {
      t := AppendIsLogSteps(m, o, u.stored, s);
    } else if u.FinishLog? || u.TearLog? {
      t := EndIsLogSteps(m, o, u, s);
    } else {
      t := CloseIsLogSteps(m, o, u, s);
    }
  }

  lemma MirrorsItsLog(m: State, g: GenId, s: L.State)
    requires Mirrors(m, g, s)
    ensures g in m.logs
  {
  }

  // -------------------------------------------------------------------------
  // The two machines go together
  // -------------------------------------------------------------------------

  // Whatever step the store takes while it serves, the log of `g` follows it by its own writer's steps, and no reader of
  // the log is touched.
  lemma StoreStepIsLogSteps(m: State, step: Step, g: GenId, s: L.State) returns (t: L.State)
    requires Inv(m) && Enabled(m, step) && !IsRestartStep(step) && Mirrors(m, g, s)
    ensures L.Run(s, WriterSteps(m, step, g), t) && t.readers == s.readers && Mirrors(Next(m, step), g, t)
  {
    hide Inv, Mirrors, UploadNext, UploadEnabled, L.LogInv, L.Enabled, L.Next, L.Captured, ChangesOne;
    t := s;
    if step.Upload? {
      t := UploadIsLogSteps(m, step.o, step.u, g, s);
    } else {
      MirrorsItsLog(m, g, s);
      if step.Tick? {
        TickLeavesLogs(m, step, g);
        MirrorStands(m, Next(m, step), 0, g, s);
      } else {
        OtherStepsLeaveLogs(m, step, g);
        MirrorStands(m, Next(m, step), Mover(step), g, s);
      }
    }
  }

  lemma TickLeavesLogs(m: State, step: Step, g: GenId)
    requires step.Tick? && Enabled(m, step)
    ensures Next(m, step).logs == m.logs && ChangesOne(m, Next(m, step), 0, g)
  {
  }

  // A reader's own steps, at any moment between, leave the two logs one.
  predicate IsReaderLogStep(step: L.Step) {
    !step.Store? && !step.Advance? && !step.BeginClose? && !step.Finish? && !step.Fail?
  }

  lemma ReaderStepKeepsMirror(m: State, g: GenId, s: L.State, step: L.Step)
    requires Mirrors(m, g, s) && L.Enabled(s, step) && IsReaderLogStep(step)
    ensures L.Captured(s) && Mirrors(m, g, L.Next(s, step))
  {
    hide L.LogInv, L.ReaderWell, L.RegionError, Growing, L.Captured;
    L.CapturesExist(s);
    L.NextKeepsInv(s, step);
  }

  // -------------------------------------------------------------------------
  // Runs of both
  // -------------------------------------------------------------------------

  datatype Move = OfStore(step: Step) | OfReader(read: L.Step)

  // The store and the log of `g`, from `m` and `s` to `n` and `t`: the store's steps, each with what it does to this log, and
  // between them the readers' own.
  ghost predicate Together(m: State, s: L.State, g: GenId, moves: seq<Move>, n: State, t: L.State)
    decreases |moves|
  {
    if moves == [] then n == m && t == s
    else
      match moves[0]
      case OfStore(step) =>
        && Enabled(m, step) && !IsRestartStep(step)
        && exists u :: L.Run(s, WriterSteps(m, step, g), u) && Together(Next(m, step), u, g, moves[1..], n, t)
      case OfReader(read) =>
        && L.Enabled(s, read) && L.Captured(s) && IsReaderLogStep(read)
        && Together(m, L.Next(s, read), g, moves[1..], n, t)
  }

  lemma {:induction false} RunIsFunctional(s: L.State, steps: seq<L.Step>, a: L.State, b: L.State)
    requires L.Run(s, steps, a) && L.Run(s, steps, b)
    ensures a == b
    decreases |steps|
  {
    hide L.Enabled, L.Next, L.Captured;
    if steps != [] {
      RunIsFunctional(L.Next(s, steps[0]), steps[1..], a, b);
    }
  }

  // Reader `r` of the one is reader `r` of the other, of the same kind.
  predicate SameKind(s: L.State, t: L.State, r: nat) {
    r in s.readers && r in t.readers && (t.readers[r].Section? <==> s.readers[r].Section?)
  }

  lemma ReaderStepKeepsKind(s: L.State, step: L.Step, r: nat)
    requires L.Enabled(s, step) && L.Captured(s) && r in s.readers
    ensures SameKind(s, L.Next(s, step), r)
  {
  }

  // However the two interleave, they stay one log, and a reader stays what it was opened as.
  lemma {:induction false} TogetherKeepsMirror(m: State, s: L.State, g: GenId, moves: seq<Move>, n: State, t: L.State, r: nat)
    returns (steps: seq<Step>)
    requires Inv(m) && Mirrors(m, g, s) && Together(m, s, g, moves, n, t) && r in s.readers
    ensures R.Run(m, steps, n) && Inv(n) && Mirrors(n, g, t) && SameKind(s, t, r)
    decreases |moves|
  {
    hide Inv, Mirrors, Enabled, Next, L.Enabled, L.Next, L.Captured, IsReaderLogStep, WriterSteps;
    if moves == [] {
      steps := [];
    } else if moves[0].OfStore? {
      var u := StoreStepIsLogSteps(m, moves[0].step, g, s);
      var v :| L.Run(s, WriterSteps(m, moves[0].step, g), v) && Together(Next(m, moves[0].step), v, g, moves[1..], n, t);
      RunIsFunctional(s, WriterSteps(m, moves[0].step, g), u, v);
      NextKeepsInv(m, moves[0].step);
      var rest := TogetherKeepsMirror(Next(m, moves[0].step), u, g, moves[1..], n, t, r);
      steps := [moves[0].step] + rest;
      assert steps[1..] == rest;
    } else {
      ReaderStepKeepsMirror(m, g, s, moves[0].read);
      ReaderStepKeepsKind(s, moves[0].read, r);
      steps := TogetherKeepsMirror(m, L.Next(s, moves[0].read), g, moves[1..], n, t, r);
    }
  }

  // The log's own account of such a run.
  lemma {:induction false} TogetherIsARunOfTheLog(m: State, s: L.State, g: GenId, moves: seq<Move>, n: State, t: L.State)
    returns (steps: seq<L.Step>)
    requires Together(m, s, g, moves, n, t)
    ensures L.Run(s, steps, t)
    decreases |moves|
  {
    hide Enabled, Next, L.Enabled, L.Next, L.Captured, IsReaderLogStep, WriterSteps, IsRestartStep;
    if moves == [] {
      steps := [];
    } else if moves[0].OfStore? {
      var step := moves[0].step;
      var u :| L.Run(s, WriterSteps(m, step, g), u) && Together(Next(m, step), u, g, moves[1..], n, t);
      var rest := TogetherIsARunOfTheLog(Next(m, step), u, g, moves[1..], n, t);
      LogRunsConcatenate(s, WriterSteps(m, step, g), u, rest, t);
      steps := WriterSteps(m, step, g) + rest;
    } else {
      var rest := TogetherIsARunOfTheLog(m, L.Next(s, moves[0].read), g, moves[1..], n, t);
      steps := [moves[0].read] + rest;
      assert steps[1..] == rest;
    }
  }

  lemma {:induction false} LogRunsConcatenate(s: L.State, a: seq<L.Step>, u: L.State, b: seq<L.Step>, t: L.State)
    requires L.Run(s, a, u) && L.Run(u, b, t)
    ensures L.Run(s, a + b, t)
    decreases |a|
  {
    hide L.Enabled, L.Next, L.Captured;
    if a == [] {
      assert a + b == b;
    } else {
      assert (a + b)[1..] == a[1..] + b;
      LogRunsConcatenate(L.Next(s, a[0]), a[1..], u, b, t);
    }
  }
}
