// Each name is one atomic value: what every step of the protocol does to it, and what every read sees of it.
module Refinement {
  import opened Common
  import opened GenIds
  import opened Generations
  import opened Records
  import opened DiskModel
  import opened Transitions
  import opened StoreMachine
  import opened Leases
  import opened Ownership
  import opened OwnershipSteps
  import opened OwnershipTail
  import opened Gates
  import opened QuotaInvariant
  import opened Storage
  import opened StorageSteps
  import opened Invariant
  import opened Runs
  import opened Survival

  // What a step does to the values of the names: nothing, one value put, or one value taken away.
  datatype Effect = Keep | Put(name: string, gen: Generation) | Take(name: string)

  function Apply(e: Effect, name: string, value: Option<Generation>): Option<Generation> {
    match e
    case Keep => value
    case Put(n, g) => if n == name then Some(g) else value
    case Take(n) => if n == name then None else value
  }

  // Only a publish flip puts a value; only a claim, a delete or a reap whose rename took takes one away.
  ghost function EffectOf(s: State, step: Step): Effect
    requires Enabled(s, step)
  {
    match step
    case Upload(o, u) =>
      if u.FlipCurrent? then
        Put(s.handles[s.ops[o].h].name, Finalize(s.handles[s.ops[o].h].slot.live.value, s.ops[o].stage.at))
      else Keep
    case ResolveOpen(o, claim, _) => if Claims(s, o, claim) then Take(s.handles[s.ops[o].h].name) else Keep
    case DeleteCurrent(o, outcome) =>
      if outcome != NeverTook && PresentCurrent(s.handles[s.ops[o].h].slot, s.ops[o].at).Some?
      then Take(s.handles[s.ops[o].h].name) else Keep
    case ReapCurrent(o, outcome) =>
      if outcome != NeverTook && ReapTarget(s.handles[s.ops[o].h].slot, s.ops[o].at, s.ops[o].id).Some?
      then Take(s.handles[s.ops[o].h].name) else Keep
    case _ => Keep
  }

  // The finalized value of one slot.
  function FinalOf(slot: Slot): Option<Generation> {
    if slot.current.Some? && slot.current.value.state == GenFinalized then slot.current else None
  }

  // A step on operation `o` changes at most the value of its own name.
  lemma MovesValue(s: State, t: State, o: nat, name: string)
    requires LeaseInv(s) && s.up && Moves(s, t, o)
    ensures Value(t, name) == if name == s.handles[s.ops[o].h].name then FinalOf(t.handles[s.ops[o].h].slot)
                              else Value(s, name)
    ensures Value(s, s.handles[s.ops[o].h].name) == FinalOf(s.handles[s.ops[o].h].slot)
  {
    LeasePins(s, o);
  }

  lemma QuietKeepsValue(s: State, t: State, o: nat, name: string)
    requires LeaseInv(s) && s.up && Quiet(s, t, o)
    ensures Value(t, name) == Value(s, name)
  {
    hide LeaseInv;
    MovesValue(s, t, o, name);
  }

  lemma UploadRefines(s: State, o: nat, u: UploadStep, name: string)
    requires LeaseInv(s) && UploadEnabled(s, o, u) && s.up
    ensures Value(UploadNext(s, o, u), name) == Apply(EffectOf(s, Upload(o, u)), name, Value(s, name))
  {
    hide LeaseInv, Value, Quiet, Moves, FinalOf, AdmitNext, AdmitEnabled, RecordOf, Finalize, ReserveNext, AppendNext,
         ReturnTailNext, SyncBytesNext, PublishNext, FlipNext, FinishLogNext, AbortPublishNext, DiscardNext, TearLogNext;
    match u
    case Admit(tail, made) => AdmitKeepsValue(s, o, tail, made, name);
    case Reserve(chunk) => ReserveIsQuiet(s, o, chunk); QuietKeepsValue(s, ReserveNext(s, o, chunk), o, name);
    case Append(stored) => AppendIsQuiet(s, o, stored); QuietKeepsValue(s, AppendNext(s, o, stored), o, name);
    case ReturnTail => ReturnTailIsQuiet(s, o); QuietKeepsValue(s, ReturnTailNext(s, o), o, name);
    case SyncBytes(ok) => SyncBytesIsQuiet(s, o, ok); QuietKeepsValue(s, SyncBytesNext(s, o, ok), o, name);
    case Publish(outcome) => PublishIsQuiet(s, o, outcome); QuietKeepsValue(s, PublishNext(s, o, outcome), o, name);
    case FlipCurrent => FlipPutsValue(s, o, name);
    case FinishLog => FinishLogIsQuiet(s, o); QuietKeepsValue(s, FinishLogNext(s, o), o, name);
    case AbortPublish(outcome) =>
      AbortPublishIsQuiet(s, o, outcome); QuietKeepsValue(s, AbortPublishNext(s, o, outcome), o, name);
    case Discard => DiscardKeepsValue(s, o, name);
    case TearLog => TearLogIsQuiet(s, o); QuietKeepsValue(s, TearLogNext(s, o), o, name);
  }

  lemma AdmitKeepsValue(s: State, o: nat, tail: Option<Uint64>, made: bool, name: string)
    requires LeaseInv(s) && s.up && AdmitEnabled(s, o, tail)
    ensures Value(AdmitNext(s, o, tail, made), name) == Value(s, name)
  {
    hide LeaseInv, ClockAhead, Moves, Value;
    AdmitMoves(s, o, tail, made);
    MovesValue(s, AdmitNext(s, o, tail, made), o, name);
  }

  lemma FlipPutsValue(s: State, o: nat, name: string)
    requires LeaseInv(s) && s.up && IsFlipping(s, o)
    ensures var op := s.ops[o];
            Value(FlipNext(s, o), name)
              == if name == s.handles[op.h].name then Some(Finalize(s.handles[op.h].slot.live.value, op.stage.at))
                 else Value(s, name)
  {
    hide LeaseInv, Moves, Value;
    FlipMoves(s, o);
    MovesValue(s, FlipNext(s, o), o, name);
  }

  lemma DiscardKeepsValue(s: State, o: nat, name: string)
    requires LeaseInv(s) && s.up && IsWriting(s, o)
    ensures Value(DiscardNext(s, o), name) == Value(s, name)
  {
    hide LeaseInv, Moves, Value;
    DiscardMoves(s, o);
    MovesValue(s, DiscardNext(s, o), o, name);
  }

  lemma ResolveEffect(s: State, o: nat, claim: Outcome, attached: bool)
    requires ResolveEnabled(s, o, claim)
    ensures EffectOf(s, ResolveOpen(o, claim, attached))
         == if Claims(s, o, claim) then Take(s.handles[s.ops[o].h].name) else Keep
  {
    hide Claims;
  }

  lemma ResolveRefines(s: State, o: nat, claim: Outcome, attached: bool, name: string)
    requires LeaseInv(s) && SlotsWell(s) && ResolveEnabled(s, o, claim)
    ensures Value(ResolveNext(s, o, claim, attached), name)
         == Apply(EffectOf(s, ResolveOpen(o, claim, attached)), name, Value(s, name))
  {
    hide LeaseInv, Moves, Value, Quiet, ResolveNext, Claims, Resolved, EffectOf;
    assert SlotWell(s, s.ops[o].h);
    ResolveEffect(s, o, claim, attached);
    if Claims(s, o, claim) {
      ResolveMoves(s, o, claim, attached);
      ClaimConsumes(s, o, claim, attached);
      MovesValue(s, ResolveNext(s, o, claim, attached), o, name);
    } else {
      ResolveQuietly(s, o, claim, attached);
      QuietKeepsValue(s, ResolveNext(s, o, claim, attached), o, name);
    }
  }

  lemma RetireRefines(s: State, o: nat, target: Option<Generation>, outcome: Outcome, name: string)
    requires LeaseInv(s) && At(s, o) && RenamesMarker(s, target, outcome)
    requires target.Some? ==> s.handles[s.ops[o].h].slot.current == target && target.value.state == GenFinalized
    ensures Value(RetireNext(s, o, s.ops[o].h, target, outcome), name)
         == if target.Some? && outcome != NeverTook && name == s.handles[s.ops[o].h].name then None else Value(s, name)
  {
    hide LeaseInv, Moves, Value;
    RetireMoves(s, o, s.ops[o].h, target, outcome);
    MovesValue(s, RetireNext(s, o, s.ops[o].h, target, outcome), o, name);
  }

  lemma ReclaimKeepsValue(s: State, o: nat, removal: Removal, name: string)
    requires LeaseInv(s) && IsOwing(s, o)
    ensures Value(ReclaimNext(s, o, removal), name) == Value(s, name)
  {
    hide LeaseInv, Moves, Value;
    ReclaimMoves(s, o, removal);
    MovesValue(s, ReclaimNext(s, o, removal), o, name);
  }

  lemma ClearKeepsValue(s: State, o: nat, name: string)
    requires LeaseInv(s) && OpsWell(s) && At(s, o) && s.ops[o].Clearing?
    ensures Value(ClearNext(s, o), name) == Value(s, name)
  {
    hide LeaseInv, Moves, Value;
    OpHolds(s, o);
    ClearMoves(s, o);
    MovesValue(s, ClearNext(s, o), o, name);
  }

  lemma AcquireKeepsValue(s: State, o: nat, h: nat, n: string, op: Op, name: string)
    requires s.up && Registered(s) && if n in s.reg then h == s.reg[n] && h in s.handles else h !in s.handles
    ensures Value(s.Acquire(o, h, n, op), name) == Value(s, name)
  {
  }

  lemma ReleaseKeepsValue(s: State, o: nat, name: string)
    requires LeaseInv(s) && At(s, o) && s.ops[o].Leaving?
    ensures Value(ReleaseNext(s, o), name) == Value(s, name)
  {
    LeasePins(s, o);
  }

  // The protocol refines one atomic value per name. In particular a replacement being written, an upload discarded
  // or failed, an open, a wait, a reclamation, a cleanup and an eviction leave every name's value as it was.
  lemma StepRefinesTheValue(s: State, step: Step, name: string)
    requires Inv(s) && s.up && Enabled(s, step) && !step.Crash? && !step.Kill?
    ensures Value(Next(s, step), name) == Apply(EffectOf(s, step), name, Value(s, name))
  {
    hide GateInv, QuotaInv, StoreInv, UploadEnabled, UploadNext, ResolveEnabled, ResolveNext, RetireNext, ReclaimNext,
         ClearNext, ReleaseNext, Value, Counted, Registered, OpsWell, SlotsWell, OneOwner, NoneLost, Claims;
    match step
    case Tick(t) => TickKeepsValue(s, t, name);
    case Begin(o, h, n, req) => AcquireKeepsValue(s, o, h, n, Start(req, h, s.now), name);
    case Upload(o, u) => UploadRefines(s, o, u, name);
    case Reclaim(o, removal) => ReclaimKeepsValue(s, o, removal, name);
    case ClearCurrent(o) => ClearKeepsValue(s, o, name);
    case Release(o) => ReleaseKeepsValue(s, o, name);
    case ResolveOpen(o, claim, attached) => ResolveRefines(s, o, claim, attached, name);
    case WakeUp(o) => SetOpKeepsValue(s, o, WakeNext(s, o).ops[o], name);
    case Cancel(o) => SetOpKeepsValue(s, o, s.ops[o].(canceled := true), name);
    case Elapse(o) => SetOpKeepsValue(s, o, s.ops[o].(elapsed := true), name);
    case CloseReader(o) => SetOpKeepsValue(s, o, CloseReaderNext(s, o).ops[o], name);
    case DeleteCurrent(o, outcome) =>
      RetireRefines(s, o, PresentCurrent(s.handles[s.ops[o].h].slot, s.ops[o].at), outcome, name);
    case SweepBegin(o) => SetOpKeepsValue(s, o, Sweeping(s.now), name);
    case Observe(o, sweep, h) => SetOpKeepsValue(s, o, ObserveNext(s, o, sweep, h).ops[o], name);
    case ReapBegin(o, h) =>
      AcquireKeepsValue(s, o, h, s.ops[o].name, Reaping(h, s.ops[o].at, s.ops[o].id), name);
    case ReapCurrent(o, outcome) =>
      RetireRefines(s, o, ReapTarget(s.handles[s.ops[o].h].slot, s.ops[o].at, s.ops[o].id), outcome, name);
    case Crash(_) =>
    case Kill =>
    case ScanPartly(_) =>
    case Reconfigure(_) =>
    case Boot(_, _, _) =>
  }

  lemma SetOpKeepsValue(s: State, o: nat, op: Op, name: string)
    ensures Value(s.SetOp(o, op), name) == Value(s, name)
  {
  }

  lemma TickKeepsValue(s: State, t: int, name: string)
    ensures Value(s.(now := t, steady := s.steady && t >= s.now), name) == Value(s, name)
  {
  }

  // -------------------------------------------------------------------------
  // What reads see
  // -------------------------------------------------------------------------

  // The value a read may see: present, and within its deadline.
  function Readable(s: State, name: string): Option<Generation> {
    var v := Value(s, name);
    if v.Some? && !v.value.Expired(s.now) then v else None
  }

  lemma PresentIsReadable(s: State, o: nat)
    requires LeaseInv(s) && At(s, o)
    ensures PresentCurrent(s.handles[s.ops[o].h].slot, s.now) == Readable(s, s.handles[s.ops[o].h].name)
  {
    LeasePins(s, o);
  }

  // The two things an open can find.
  lemma ResolvedIsPresentOrLive(s: State, o: nat)
    requires IsResolving(s, o) && SlotWell(s, s.ops[o].h)
    ensures var slot := s.handles[s.ops[o].h].slot;
            var present := PresentCurrent(slot, s.now);
            var cursor := CursorOf(s.ops[o], slot);
            var r := Resolved(s, o);
            r.Found? ==>
              || (present == Some(r.gen) && r.gen.state == GenFinalized)
              || (slot.live == Some(r.gen) && r.gen.state == GenLive && !r.gen.consume
                  && (present.Some? ==> cursor.Some? && !present.value.id.After(cursor.value)))
  {
  }

  predicate Attaches(t: State, o: nat) { o in t.ops && t.ops[o].Opening? && t.ops[o].rstage.Reading? }

  lemma AttachesUnclaimed(s: State, o: nat, claim: Outcome, attached: bool)
    requires ResolveEnabled(s, o, claim) && !Claimable(Resolved(s, o)) && Attaches(ResolveNext(s, o, claim, attached), o)
    ensures var t := ResolveNext(s, o, claim, attached);
            && Resolved(s, o).Found? && t.ops[o].rstage == Reading(Resolved(s, o).gen.id, false)
            && t.delivered == s.delivered
  {
    hide ResolveNext, Resolve;
    ResolveClaimsNothing(s, o, claim, attached);
  }

  lemma AttachesClaimed(s: State, o: nat, claim: Outcome, attached: bool)
    requires ResolveEnabled(s, o, claim) && Claimable(Resolved(s, o)) && Attaches(ResolveNext(s, o, claim, attached), o)
    requires s.handles[s.ops[o].h].slot.current == Some(Resolved(s, o).gen)
    ensures var t := ResolveNext(s, o, claim, attached);
            && t.ops[o].rstage == Reading(Resolved(s, o).gen.id, true)
            && t.delivered == s.delivered + multiset{Resolved(s, o).gen.id}
  {
    hide Resolve;
    ResolveUnfolds(s, o, claim, attached);
  }

  // What `o` attached to, at its resolve in `s`: `v`, the readable value of its name; or the upload in flight, where there
  // is no value its rule lets it take.
  ghost predicate HoldsLatest(s: State, t: State, o: nat, v: Option<Generation>)
    requires IsResolving(s, o) && Attaches(t, o)
  {
    var g := t.ops[o].rstage.g;
    var hd := s.handles[s.ops[o].h];
    || (v.Some? && v.value.id == g && t.ops[o].rstage.claimed == v.value.consume
        && t.delivered == (if v.value.consume then s.delivered + multiset{g} else s.delivered))
    || (IsLive(hd, g) && !hd.slot.live.value.consume && !t.ops[o].rstage.claimed && t.delivered == s.delivered
        && (v.Some? ==> s.ops[o].next && CursorOf(s.ops[o], hd.slot).Some?
                        && !v.value.id.After(CursorOf(s.ops[o], hd.slot).value)))
  }

  // A reader that attaches holds its name's readable value; or, there being none it may take, follows the one
  // upload in flight, never a consume-once one. On a consume-once value it attaches by being the one delivery.
  lemma ReadsReturnTheLatestValue(s: State, o: nat, claim: Outcome, attached: bool)
    requires Inv(s) && ResolveEnabled(s, o, claim) && Attaches(ResolveNext(s, o, claim, attached), o)
    ensures HoldsLatest(s, ResolveNext(s, o, claim, attached), o, Readable(s, s.handles[s.ops[o].h].name))
  {
    hide GateInv, QuotaInv, StoreInv, OpsWell, OneOwner, NoneLost, LeaseInv, Readable, ResolveNext, SlotWell, Resolve;
    PresentIsReadable(s, o);
    ResolvedIsPresentOrLive(s, o);
    CursorGoesWithNext(s, o);
    if Claimable(Resolved(s, o)) {
      AttachesClaimed(s, o, claim, attached);
    } else {
      AttachesUnclaimed(s, o, claim, attached);
    }
  }

  lemma CursorGoesWithNext(s: State, o: nat)
    requires Inv(s) && IsResolving(s, o)
    ensures s.ops[o].next <==> CursorOf(s.ops[o], s.handles[s.ops[o].h].slot).Some?
  {
    hide LeaseInv, OwnInv, QuotaInv, StoreInv;
    CursorCaptured(s, o);
  }

  // The definition of the turn, in the two forms it takes.
  lemma ResolveUnfolds(s: State, o: nat, claim: Outcome, attached: bool)
    requires ResolveEnabled(s, o, claim)
    ensures var hd := s.handles[s.ops[o].h];
            var op := s.ops[o].(cursor := CursorOf(s.ops[o], hd.slot));
            ResolveNext(s, o, claim, attached)
              == if Claimable(Resolved(s, o)) then ClaimNext(s, o, op, Resolved(s, o).gen, claim, attached)
                 else s.SetOp(o, Unclaimed(op, Resolved(s, o), hd.notify, attached))
  {
  }

  // A conditional write is admitted only against its name's readable value, and records which one that was.
  lemma AdmissionMatchesTheValue(s: State, o: nat, tail: Option<Uint64>)
    requires Inv(s) && Admits(s, o, tail) && s.ops[o].opts.ifMatch != ""
    ensures var v := Readable(s, s.handles[s.ops[o].h].name);
            && v.Some? && (s.ops[o].opts.ifMatch == "*" || v.value.id.String() == s.ops[o].opts.ifMatch)
            && AdmitNext(s, o, tail, true).ops[o].matched == Some(v.value.id)
  {
    hide OwnInv, GateInv, QuotaInv, StoreInv, LeaseInv, ClockAhead, Readable;
    PresentIsReadable(s, o);
  }
}
