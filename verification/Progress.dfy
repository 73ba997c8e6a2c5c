// No operation is ever stuck: the presence conditions the steps name always hold, and every step an operation takes on
// its own account brings it nearer its end, whatever the disk answers.
module Progress {
  import opened Common
  import opened GenIds
  import opened Generations
  import opened Records
  import opened DiskModel
  import opened Transitions
  import opened StoreMachine
  import opened Leases
  import opened Ownership
  import opened OwnershipSteps
  import opened OwnershipTail
  import opened Gates
  import opened QuotaInvariant
  import opened Storage
  import opened StorageSteps
  import opened Invariant
  import opened Runs

  // -------------------------------------------------------------------------
  // Something is always enabled, for every outcome
  // -------------------------------------------------------------------------

  // What a writer may do next in each stage, whatever the disk answers.
  ghost predicate WriterMayGoOn(s: State, o: nat)
    requires o in s.ops && s.ops[o].Writing?
  {
    match s.ops[o].stage
    case Idle => IsWriting(s, o)
    case Reserved(_) => IsWriting(s, o)
    case ShortBy(_) => IsWriting(s, o)
    case Synced(_) => IsPublishing(s, o)
    case Published(_) => IsFlipping(s, o)
    case Failing(took) => IsWriting(s, o) && (took ==> s.disk[s.ops[o].g].marker.now.Some?)
  }

  lemma WriterGoesOn(s: State, o: nat)
    requires Reachable(s) && s.up && o in s.ops && s.ops[o].Writing?
    ensures WriterMayGoOn(s, o)
  {
    hide Reachable, LeaseInv, GateInv, QuotaInv, OneOwner, NoneLost, DirsWell, SlotsStored, FatesWell, LogsWell, SeedBounds,
         RecordOf, Finalize;
    ReachableInv(s);
    OpHolds(s, o);
    assert SlotWell(s, s.ops[o].h);
    assert StoredWell(s, s.ops[o]);
  }

  lemma StageIsEnabled(s: State, o: nat)
    requires o in s.ops && s.ops[o].Writing? && WriterMayGoOn(s, o)
    ensures match s.ops[o].stage
            case Idle =>
              && Enabled(s, Upload(o, Discard)) && (forall ok :: Enabled(s, Upload(o, SyncBytes(ok))))
              && forall chunk :: Enabled(s, Upload(o, Reserve(chunk)))
            case Reserved(chunk) => forall n: nat | n <= |chunk| :: Enabled(s, Upload(o, Append(n)))
            case ShortBy(_) => Enabled(s, Upload(o, ReturnTail))
            case Synced(_) => forall outcome :: Enabled(s, Upload(o, Publish(outcome)))
            case Published(_) => Enabled(s, Upload(o, FlipCurrent))
            case Failing(took) =>
              if took then forall outcome :: Enabled(s, Upload(o, AbortPublish(outcome))) else Enabled(s, Upload(o, Discard))
  {
  }

  lemma WritersAreNeverStuck(s: State, o: nat)
    requires Reachable(s) && s.up && o in s.ops && s.ops[o].Writing?
    ensures WriterMayGoOn(s, o)
    ensures match s.ops[o].stage
            case Idle =>
              && Enabled(s, Upload(o, Discard)) && (forall ok :: Enabled(s, Upload(o, SyncBytes(ok))))
              && forall chunk :: Enabled(s, Upload(o, Reserve(chunk)))
            case Reserved(chunk) => forall n: nat | n <= |chunk| :: Enabled(s, Upload(o, Append(n)))
            case ShortBy(_) => Enabled(s, Upload(o, ReturnTail))
            case Synced(_) => forall outcome :: Enabled(s, Upload(o, Publish(outcome)))
            case Published(_) => Enabled(s, Upload(o, FlipCurrent))
            case Failing(took) =>
              if took then forall outcome :: Enabled(s, Upload(o, AbortPublish(outcome))) else Enabled(s, Upload(o, Discard))
  {
    hide Reachable, Enabled, WriterMayGoOn;
    WriterGoesOn(s, o);
    StageIsEnabled(s, o);
  }

  lemma ReclaimersAreNeverStuck(s: State, o: nat)
    requires Reachable(s) && s.up && o in s.ops && s.ops[o].Leased()
    ensures At(s, o)
    ensures s.ops[o].Finishing? ==> IsFinishing(s, o)
    ensures s.ops[o].Tearing? ==> IsTearing(s, o)
    ensures s.ops[o].Owing? ==> IsOwing(s, o)
    ensures s.ops[o].Finishing? ==> Enabled(s, Upload(o, FinishLog))
    ensures s.ops[o].Tearing? ==> Enabled(s, Upload(o, TearLog))
    ensures s.ops[o].Owing? ==> forall removal :: Enabled(s, Reclaim(o, removal))
    ensures s.ops[o].Clearing? ==> Enabled(s, ClearCurrent(o))
    ensures s.ops[o].Leaving? ==> Enabled(s, Release(o))
  {
    hide Reachable, LeaseInv, GateInv, QuotaInv, OneOwner, NoneLost, StoreInv, SlotsWell;
    ReachableInv(s);
    OpHolds(s, o);
  }

  // A finalized current generation has its marker in place, so a rename of it may take.
  lemma MarkersAreInPlace(s: State, h: nat, target: Option<Generation>, outcome: Outcome)
    requires SlotsStored(s) && DirsWell(s) && h in s.handles
    requires target.Some? ==> s.handles[h].slot.current == target && target.value.state == GenFinalized
    ensures RenamesMarker(s, target, outcome)
  {
    hide ValidName, RecordOf, Normalized, PublicationWell;
    assert SlotStored(s, s.handles[h]);
    if target.Some? {
      assert DirWell(s, target.value.id);
    }
  }

  // A delete and a reap may end in every way the disk allows.
  lemma RetiresAreNeverStuck(s: State, o: nat, outcome: Outcome)
    requires Reachable(s) && s.up && o in s.ops && (s.ops[o].Deleting? || s.ops[o].Reaping?)
    ensures s.ops[o].Deleting? ==> DeleteEnabled(s, o, outcome) && Enabled(s, DeleteCurrent(o, outcome))
    ensures s.ops[o].Reaping? ==> ReapEnabled(s, o, outcome) && Enabled(s, ReapCurrent(o, outcome))
  {
    hide Reachable, LeaseInv, GateInv, QuotaInv, OneOwner, NoneLost, DirsWell, OpsStored, FatesWell, LogsWell, SeedBounds,
         RenamesMarker, SlotsWell;
    ReachableInv(s);
    OpHolds(s, o);
    var slot := s.handles[s.ops[o].h].slot;
    if s.ops[o].Deleting? {
      MarkersAreInPlace(s, s.ops[o].h, PresentCurrent(slot, s.ops[o].at), outcome);
    } else {
      MarkersAreInPlace(s, s.ops[o].h, ReapTarget(slot, s.ops[o].at, s.ops[o].id), outcome);
    }
  }

  // So may a claim; and a resolve that finds nothing to claim has no use for the disk.
  lemma ReadersAreNeverStuck(s: State, o: nat, claim: Outcome)
    requires Reachable(s) && s.up && o in s.ops && s.ops[o].Opening? && s.ops[o].rstage == Resolving
    ensures IsResolving(s, o) && (Claimable(Resolved(s, o)) || claim == NeverTook ==> ResolveEnabled(s, o, claim))
    ensures ResolveEnabled(s, o, claim) ==> forall attached :: Enabled(s, ResolveOpen(o, claim, attached))
  {
    hide Reachable, LeaseInv, GateInv, QuotaInv, OneOwner, NoneLost, DirsWell, OpsStored, FatesWell, LogsWell, SeedBounds,
         Resolve, SlotWell;
    ReachableInv(s);
    OpHolds(s, o);
    if Claimable(Resolved(s, o)) {
      ResolvedCurrent(s, o);
      MarkersAreInPlace(s, s.ops[o].h, s.handles[s.ops[o].h].slot.current, claim);
    }
  }

  // An open may be canceled at any time, and its reader closed whenever it has one; a wait may elapse at any time.
  lemma OpensMayBeEnded(s: State, o: nat)
    requires Reachable(s) && s.up && o in s.ops && s.ops[o].Opening?
    ensures Enabled(s, Cancel(o)) && (s.ops[o].wait ==> Enabled(s, Elapse(o)))
    ensures s.ops[o].rstage.Reading? ==> Enabled(s, CloseReader(o))
    ensures s.ops[o].rstage.Parked? && (s.ops[o].canceled || s.ops[o].elapsed) ==> Enabled(s, WakeUp(o))
  {
    hide Reachable, Enabled;
    ReclaimersAreNeverStuck(s, o);
    AtTheGateMayEnd(s, o);
  }

  lemma AtTheGateMayEnd(s: State, o: nat)
    requires At(s, o) && s.ops[o].Opening?
    ensures Enabled(s, Cancel(o)) && (s.ops[o].wait ==> Enabled(s, Elapse(o)))
    ensures s.ops[o].rstage.Reading? ==> Enabled(s, CloseReader(o))
    ensures s.ops[o].rstage.Parked? && (s.ops[o].canceled || s.ops[o].elapsed) ==> Enabled(s, WakeUp(o))
  {
  }

  lemma ResolvedCurrent(s: State, o: nat)
    requires IsResolving(s, o) && SlotWell(s, s.ops[o].h) && Claimable(Resolved(s, o))
    ensures s.handles[s.ops[o].h].slot.current == Some(Resolved(s, o).gen)
  {
  }

  // -------------------------------------------------------------------------
  // Every own step descends
  // -------------------------------------------------------------------------

  // How far an operation is from giving its lease back.
  function Distance(op: Op): nat {
    match op
    case Creating(_, _, _) => 12
    case Writing(_, _, _, stage) =>
      (match stage
       case Reserved(_) => 11
       case ShortBy(_) => 10
       case Idle => 9
       case Synced(_) => 8
       case Published(_) => 7
       case Failing(took) => if took then 6 else 5)
    case Opening(_, _, _, _, _, _, rstage) =>
      (match rstage case Resolving => 6 case Parked(_) => 5 case Reading(_, _) => 4)
    case Observed(_, _, _) => 5
    case Deleting(_, _) => 4
    case Reaping(_, _, _) => 4
    case Finishing(_, _, _) => 4
    case Tearing(_, _) => 4
    case Owing(_, _, _) => 3
    case Clearing(_, _) => 2
    case Leaving(_) => 1
    case Sweeping(_) => 0
  }

  // The operation is over, or nearer its end.
  predicate Descends(s: State, t: State, o: nat)
    requires o in s.ops
  {
    o in t.ops ==> Distance(t.ops[o]) < Distance(s.ops[o])
  }

  lemma AdmitDescends(s: State, o: nat, tail: Option<Uint64>, made: bool)
    requires AdmitEnabled(s, o, tail)
    ensures Descends(s, AdmitNext(s, o, tail, made), o)
  {
    hide ClockAhead, Admission, NewGeneration, Install;
  }

  lemma ResolveDescends(s: State, o: nat, claim: Outcome, attached: bool)
    requires ResolveEnabled(s, o, claim)
    ensures Descends(s, ResolveNext(s, o, claim, attached), o)
  {
    hide ResolveNext, Resolve;
    if Claimable(Resolved(s, o)) {
      ClaimDescends(s, o, claim, attached);
    } else {
      ResolveClaimsNothing(s, o, claim, attached);
    }
  }

  lemma ClaimDescends(s: State, o: nat, claim: Outcome, attached: bool)
    requires ResolveEnabled(s, o, claim) && Claimable(Resolved(s, o))
    ensures Descends(s, ResolveNext(s, o, claim, attached), o)
  {
    hide ClaimNext;
    ClaimTouchesLittle(s, o, s.ops[o].(cursor := CursorOf(s.ops[o], s.handles[s.ops[o].h].slot)), Resolved(s, o).gen, claim,
                       attached);
  }

  lemma RetireDescends(s: State, o: nat, target: Option<Generation>, outcome: Outcome)
    requires At(s, o) && (s.ops[o].Deleting? || s.ops[o].Reaping?) && RenamesMarker(s, target, outcome)
    requires target.Some? ==> s.handles[s.ops[o].h].slot.current == target
    ensures Descends(s, RetireNext(s, o, s.ops[o].h, target, outcome), o)
  {
  }

  lemma AppendDescends(s: State, o: nat, stored: nat)
    requires IsWriting(s, o) && s.ops[o].stage.Reserved? && stored <= |s.ops[o].stage.chunk|
    ensures Descends(s, AppendNext(s, o, stored), o)
  {
  }

  lemma PublishDescends(s: State, o: nat, outcome: Outcome)
    requires IsPublishing(s, o)
    ensures Descends(s, PublishNext(s, o, outcome), o)
  {
    hide Finalize, RecordOf;
  }

  lemma FlipDescends(s: State, o: nat)
    requires IsFlipping(s, o)
    ensures Descends(s, FlipNext(s, o), o)
  {
    hide Finalize;
  }

  lemma AbortDescends(s: State, o: nat, outcome: Outcome)
    requires UploadEnabled(s, o, AbortPublish(outcome))
    ensures Descends(s, AbortPublishNext(s, o, outcome), o)
  {
    hide GenDir.Commit;
  }

  lemma SyncDescends(s: State, o: nat, ok: bool)
    requires UploadEnabled(s, o, SyncBytes(ok))
    ensures Descends(s, SyncBytesNext(s, o, ok), o)
  {
  }

  // Every step of an upload but the client's next chunk.
  lemma UploadDescends(s: State, o: nat, u: UploadStep)
    requires UploadEnabled(s, o, u) && !u.Reserve?
    ensures Descends(s, UploadNext(s, o, u), o)
  {
    hide AdmitNext, AdmitEnabled, PublishNext, AppendNext, FlipNext, Finalize, RecordOf, AbortPublishNext, SyncBytesNext,
         GenDir.Commit;
    if u.AbortPublish? {
      AbortDescends(s, o, u.outcome);
    } else if u.SyncBytes? {
      SyncDescends(s, o, u.ok);
    } else if u.Admit? {
      AdmitDescends(s, o, u.tail, u.made);
    } else if u.Append? {
      AppendDescends(s, o, u.stored);
    } else if u.Publish? {
      PublishDescends(s, o, u.outcome);
    } else if u.FlipCurrent? {
      FlipDescends(s, o);
    }
  }

  // The operation a step belongs to, when it is a step that operation takes on its own account: not its client's next
  // chunk, cancel or deadline, and not a wakeup that sends a waiter to look again.
  function OwnStep(s: State, step: Step): Option<nat> {
    match step
    case Upload(o, u) => if u.Reserve? then None else Some(o)
    case Reclaim(o, _) => Some(o)
    case ClearCurrent(o) => Some(o)
    case Release(o) => Some(o)
    case ResolveOpen(o, _, _) => Some(o)
    case WakeUp(o) =>
      if o in s.ops && s.ops[o].Opening? && (s.ops[o].canceled || s.ops[o].elapsed) then Some(o) else None
    case CloseReader(o) => Some(o)
    case DeleteCurrent(o, _) => Some(o)
    case ReapBegin(o, _) => Some(o)
    case ReapCurrent(o, _) => Some(o)
    case _ => None
  }

  // Whatever the disk answers, each own step brings its operation strictly nearer its end.
  lemma OwnStepsDescend(s: State, step: Step)
    requires Enabled(s, step) && OwnStep(s, step).Some?
    ensures OwnStep(s, step).value in s.ops && Descends(s, Next(s, step), OwnStep(s, step).value)
  {
    hide UploadNext, UploadEnabled, ResolveNext, RetireNext;
    if step.Upload? {
      UploadIsOwn(s, step.o, step.u);
      UploadDescends(s, step.o, step.u);
    } else if step.ResolveOpen? {
      ResolveDescends(s, step.o, step.claim, step.attached);
    } else if step.DeleteCurrent? {
      RetireDescends(s, step.o, PresentCurrent(s.handles[s.ops[step.o].h].slot, s.ops[step.o].at), step.outcome);
    } else if step.ReapCurrent? {
      RetireDescends(s, step.o, ReapTarget(s.handles[s.ops[step.o].h].slot, s.ops[step.o].at, s.ops[step.o].id), step.outcome);
    }
  }

  lemma UploadIsOwn(s: State, o: nat, u: UploadStep)
    requires UploadEnabled(s, o, u)
    ensures o in s.ops
  {
  }
}
