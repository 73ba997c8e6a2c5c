// The quota over whole runs: the counters are exact at every step, bounded by the caps and what a boot restored, and
// every generation's footprint is given back once and only once.
module Accounting {
  import opened Common
  import opened GenIds
  import opened Generations
  import opened DiskModel
  import opened Transitions
  import opened StoreMachine
  import opened Leases
  import opened Ownership
  import opened OwnershipSteps
  import opened OwnershipTail
  import opened Gates
  import opened QuotaInvariant
  import opened Storage
  import opened StorageSteps
  import opened Invariant
  import opened Runs
  import opened Survival
  import opened Refinement
  import opened Promises
  import opened Progress

  // Conservation and the bounds, in every reachable state.
  lemma CountersAreExactAndCapped(s: State)
    requires Reachable(s)
    ensures s.clips == |s.extant|
    ensures s.bytes == Sum(Sizes(s.logs, s.extant)) + Sum(Helds(s.ops))
    ensures s.cfg.maxClips != 0 ==> s.clips <= Max(s.cfg.maxClips, |s.restored|)
    ensures s.cfg.maxTotal != 0 ==> s.bytes <= Max(s.cfg.maxTotal, s.baseBytes)
    ensures s.cfg.maxClip != 0 ==>
              forall g | g in s.extant && g in s.logs && g !in s.restored :: |s.logs[g].bytes| <= s.cfg.maxClip
  {
    hide Base, StoreInv, Reachable, Sizes, Helds, Sum;
    ReachableInv(s);
  }

  // Nothing is stranded: what still has a footprint is its name's live or finalized generation, or some operation
  // in flight owes its reclamation, and no two do.
  lemma NothingIsStranded(s: State, g: GenId)
    requires Reachable(s) && g in s.extant
    ensures Seated(s, g) || exists o :: OwedBy(s, o, g)
    ensures forall o, p | OwedBy(s, o, g) && OwedBy(s, p, g) :: o == p
  {
    hide LeaseInv, GateInv, QuotaInv, StoreInv, Reachable, OpsWell, SlotsWell;
    ReachableInv(s);
  }

  // -------------------------------------------------------------------------
  // Reclaimed once
  // -------------------------------------------------------------------------

  // The generation a step reclaims.
  function Reclaimed(s: State, step: Step): Option<GenId> {
    if step.Reclaim? && step.o in s.ops && s.ops[step.o].Owing? then Some(s.ops[step.o].g) else None
  }

  // How often a run reclaims `g`.
  ghost function Reclamations(s: State, steps: seq<Step>, g: GenId): nat
    decreases |steps|
  {
    if steps == [] || !Enabled(s, steps[0]) then 0
    else
      (if Reclaimed(s, steps[0]) == Some(g) then 1 else 0) + Reclamations(Next(s, steps[0]), steps[1..], g)
  }

  // A footprint begins at admission, under an id not minted before, and ends at its reclamation.
  ghost predicate FootprintsMove(s: State, t: State, g: GenId) {
    g in t.extant ==> g in s.extant || (g !in s.minted && g in t.minted)
  }

  lemma AdmitFootprints(s: State, o: nat, tail: Option<Uint64>, made: bool, g: GenId)
    requires AdmitEnabled(s, o, tail)
    ensures FootprintsMove(s, AdmitNext(s, o, tail, made), g)
  {
    hide ClockAhead, Admission, NewGeneration, Install;
  }

  lemma UploadFootprints(s: State, o: nat, u: UploadStep, g: GenId)
    requires UploadEnabled(s, o, u)
    ensures FootprintsMove(s, UploadNext(s, o, u), g)
  {
    hide AdmitNext, AdmitEnabled, Finalize;
    if u.Admit? {
      AdmitFootprints(s, o, u.tail, u.made, g);
    }
  }

  lemma ResolveFootprints(s: State, o: nat, claim: Outcome, attached: bool, g: GenId)
    requires ResolveEnabled(s, o, claim)
    ensures FootprintsMove(s, ResolveNext(s, o, claim, attached), g)
  {
    hide ResolveNext;
    ResolveIsStill(s, o, claim, attached);
  }

  lemma RetireFootprints(s: State, o: nat, h: nat, target: Option<Generation>, outcome: Outcome, g: GenId)
    requires h in s.handles && RenamesMarker(s, target, outcome)
    requires target.Some? ==> s.handles[h].slot.current == target
    ensures FootprintsMove(s, RetireNext(s, o, h, target, outcome), g)
  {
  }

  lemma StepFootprints(s: State, step: Step, g: GenId)
    requires Enabled(s, step) && !step.Boot?
    ensures FootprintsMove(s, Next(s, step), g)
  {
    hide UploadEnabled, UploadNext, ResolveEnabled, ResolveNext, Restores, ScanLeaves, MayCrashInto, RetireNext, Losers,
         GenDir.Remove, Clear;
    if step.Upload? {
      UploadFootprints(s, step.o, step.u, g);
    } else if step.DeleteCurrent? {
      var op := s.ops[step.o];
      RetireFootprints(s, step.o, op.h, PresentCurrent(s.handles[op.h].slot, op.at), step.outcome, g);
    } else if step.ReapCurrent? {
      var op := s.ops[step.o];
      RetireFootprints(s, step.o, op.h, ReapTarget(s.handles[op.h].slot, op.at, op.id), step.outcome, g);
    } else if step.ResolveOpen? {
      ResolveFootprints(s, step.o, step.claim, step.attached, g);
    }
  }

  // Only what has a footprint is reclaimed, and then it has none.
  lemma ReclaimEndsTheFootprint(s: State, step: Step, g: GenId)
    requires Inv(s) && Enabled(s, step) && Reclaimed(s, step) == Some(g)
    ensures g in s.extant && g !in Next(s, step).extant && g in s.minted
  {
    hide GateInv, QuotaInv, StoreInv, SlotsWell, NoneLost, OneOwner, LeaseInv;
    OpHolds(s, step.o);
  }

  // Over any run of one process, each generation is reclaimed at most once: by whichever of supersede, discard,
  // delete, reap, forfeit or consumed cleanup it falls to.
  lemma {:induction false} ReclaimedAtMostOnce(s: State, steps: seq<Step>, t: State, g: GenId)
    requires Inv(s) && Run(s, steps, t) && forall i | 0 <= i < |steps| :: !steps[i].Boot?
    ensures Reclamations(s, steps, g) <= if g in s.extant || g !in s.minted then 1 else 0
    decreases |steps|
  {
    hide Inv, Enabled, Next, Reclaimed, FootprintsMove;
    if steps != [] {
      var m := Next(s, steps[0]);
      NextKeepsInv(s, steps[0]);
      NextMints(s, steps[0]);
      StepFootprints(s, steps[0], g);
      ReclaimedAtMostOnce(m, steps[1..], t, g);
      if Reclaimed(s, steps[0]) == Some(g) {
        ReclaimEndsTheFootprint(s, steps[0], g);
      }
      FootprintsUnfold(s, m, g);
    }
  }

  lemma FootprintsUnfold(s: State, t: State, g: GenId)
    requires FootprintsMove(s, t, g)
    ensures g in t.extant ==> g in s.extant || g !in s.minted
  {
  }

  lemma NextMints(s: State, step: Step)
    requires Inv(s) && Enabled(s, step)
    ensures forall g | g in s.minted :: g in Next(s, step).minted
  {
    hide Enabled, Next, Base, QuotaInv, DirsWell, SlotsStored, FatesWell, LogsWell;
    NextRemembers(s, step);
  }

  // -------------------------------------------------------------------------
  // And reclaimed at last
  // -------------------------------------------------------------------------

  // What its owner does before it reclaims: it ends the log it owes an end, or closes the reader it handed out.
  function BeforeReclaim(s: State, o: nat): seq<Step>
    requires o in s.ops && s.ops[o].Owes().Some?
  {
    if s.ops[o].Finishing? then [Upload(o, FinishLog)]
    else if s.ops[o].Tearing? then [Upload(o, TearLog)]
    else if s.ops[o].Opening? then [CloseReader(o)]
    else []
  }

  lemma OwnerIsAtTheGate(s: State, o: nat)
    requires Reachable(s) && s.up && o in s.ops && s.ops[o].Owes().Some?
    ensures |BeforeReclaim(s, o)| <= 1
    ensures BeforeReclaim(s, o) == [] ==> IsOwing(s, o) && s.ops[o].g == s.ops[o].Owes().value
    ensures BeforeReclaim(s, o) != [] ==>
              && var step := BeforeReclaim(s, o)[0];
              && Enabled(s, step) && OwnStep(s, step) == Some(o) && Next(s, step).up
              && Reclaimed(s, step).None?
              && o in Next(s, step).ops && Next(s, step).ops[o].Owing? && Next(s, step).ops[o].g == s.ops[o].Owes().value
  {
    hide Reachable, FinishLogNext, TearLogNext, CloseReaderNext;
    ReclaimersAreNeverStuck(s, o);
    if s.ops[o].Finishing? {
      FinishThenOwes(s, o);
    } else if s.ops[o].Tearing? {
      TearThenOwes(s, o);
    } else if s.ops[o].Opening? {
      CloseThenOwes(s, o);
    }
  }

  lemma FinishThenOwes(s: State, o: nat)
    requires IsFinishing(s, o) && s.ops[o].prev.Some?
    ensures var t := FinishLogNext(s, o);
            t.up && o in t.ops && t.ops[o].Owing? && t.ops[o].g == s.ops[o].prev.value
  {
  }

  lemma TearThenOwes(s: State, o: nat)
    requires IsTearing(s, o)
    ensures var t := TearLogNext(s, o);
            t.up && o in t.ops && t.ops[o].Owing? && t.ops[o].g == s.ops[o].g
  {
  }

  lemma CloseThenOwes(s: State, o: nat)
    requires ReaderOpen(s, o) && s.ops[o].rstage.claimed
    ensures var t := CloseReaderNext(s, o);
            t.up && o in t.ops && t.ops[o].Owing? && t.ops[o].g == s.ops[o].rstage.g
  {
  }

  lemma ReclaimRun(s: State, o: nat, removal: Removal)
    requires Reachable(s) && IsOwing(s, o)
    ensures Run(s, [Reclaim(o, removal)], ReclaimNext(s, o, removal))
    ensures Reclamations(s, [Reclaim(o, removal)], s.ops[o].g) == 1 && s.ops[o].g !in ReclaimNext(s, o, removal).extant
  {
    hide Reachable, ReclaimNext;
    ReclaimedIsGone(s, o, removal);
    var steps := [Reclaim(o, removal)];
    assert steps[1..] == [] && Enabled(s, steps[0]) && Next(s, steps[0]) == ReclaimNext(s, o, removal);
    assert Reclamations(ReclaimNext(s, o, removal), [], s.ops[o].g) == 0;
  }

  lemma ReclaimedIsGone(s: State, o: nat, removal: Removal)
    requires IsOwing(s, o)
    ensures s.ops[o].g !in ReclaimNext(s, o, removal).extant
  {
    hide GenDir.Remove;
  }

  // Every footprint nobody holds as a value or an upload has an owner, and that owner's own next steps, one or two of
  // them and each enabled whatever the disk answers, give it back: once, with ReclaimedAtMostOnce.
  lemma EveryDebtIsPaid(s: State, g: GenId, removal: Removal) returns (o: nat, steps: seq<Step>, t: State)
    requires Reachable(s) && s.up && g in s.extant && !Seated(s, g)
    ensures OwedBy(s, o, g) && steps == BeforeReclaim(s, o) + [Reclaim(o, removal)]
    ensures Run(s, steps, t) && g !in t.extant && Reclamations(s, steps, g) == 1
  {
    hide Reachable, Seated, Run, Reclamations, Enabled, Next, BeforeReclaim, OwnStep, Reclaimed;
    NothingIsStranded(s, g);
    o :| OwedBy(s, o, g);
    OwnerIsAtTheGate(s, o);
    if BeforeReclaim(s, o) == [] {
      ReclaimRun(s, o, removal);
      steps, t := [Reclaim(o, removal)], ReclaimNext(s, o, removal);
      assert [] + steps == steps;
    } else {
      var step := BeforeReclaim(s, o)[0];
      var m := Next(s, step);
      OneStep(s, step);
      ReclaimersAreNeverStuck(m, o);
      ReclaimRun(m, o, removal);
      steps, t := [step] + [Reclaim(o, removal)], ReclaimNext(m, o, removal);
      assert BeforeReclaim(s, o) == [step];
      StepBefore(s, step, [Reclaim(o, removal)], t, g);
    }
  }

  lemma StepBefore(s: State, step: Step, rest: seq<Step>, t: State, g: GenId)
    requires Enabled(s, step) && Reclaimed(s, step).None? && Run(Next(s, step), rest, t)
    ensures Run(s, [step] + rest, t)
    ensures Reclamations(s, [step] + rest, g) == Reclamations(Next(s, step), rest, g)
  {
    hide Enabled, Next, Reclaimed;
    assert ([step] + rest)[1..] == rest;
  }

  // -------------------------------------------------------------------------
  // At rest
  // -------------------------------------------------------------------------

  // The generations the registry's names hold.
  ghost function Held(s: State): set<GenId> {
    set n | n in s.reg && Value(s, n).Some? :: Value(s, n).value.id
  }

  lemma ValueIsNamed(s: State, n: string)
    requires Inv(s) && Value(s, n).Some?
    ensures var g := Value(s, n).value.id; g in s.minted && s.minted[g] == n && g in s.extant
  {
    hide GateInv, QuotaInv, StoreInv, OpsWell, NoneLost, OneOwner;
    assert SlotWell(s, s.reg[n]);
  }

  lemma AtRestEveryFootprintIsAValue(s: State)
    requires Reachable(s) && Quiescent(s)
    ensures s.extant == Held(s)
  {
    hide Reachable, GateInv, QuotaInv, StoreInv, SlotsWell, OneOwner, LeaseInv, Value, Quiescent;
    ReachableInv(s);
    forall g | g in s.extant
      ensures g in Held(s)
    {
      FootprintIsAValue(s, g);
    }
    forall n | n in s.reg && Value(s, n).Some?
      ensures Value(s, n).value.id in s.extant
    {
      ValueIsNamed(s, n);
    }
  }

  lemma FootprintIsAValue(s: State, g: GenId)
    requires Reachable(s) && Inv(s) && Quiescent(s) && g in s.extant
    ensures exists n :: n in s.reg && Value(s, n).Some? && Value(s, n).value.id == g
  {
    hide Reachable, GateInv, QuotaInv, StoreInv, LeaseInv;
    assert forall p | OwedBy(s, p, g) :: s.ops[p].Leased();
    RestingHandle(s, s.minted[g]);
  }

  lemma {:induction false} DistinctImages(names: set<string>, ids: set<GenId>, f: map<string, GenId>)
    requires names == f.Keys && ids == f.Values
    requires forall a, b | a in f && b in f && f[a] == f[b] :: a == b
    ensures |ids| == |names|
    decreases |names|
  {
    if names != {} {
      var n :| n in names;
      var rest := f - {n};
      assert f == rest[n := f[n]];
      assert ids == rest.Values + {f[n]};
      assert f[n] !in rest.Values;
      DistinctImages(names - {n}, rest.Values, rest);
    } else {
      assert ids == {};
    }
  }

  // With nothing in flight the counters are exactly the values the names hold: one clip each, and their bytes.
  lemma AtRestTheCountersAreTheValues(s: State)
    requires Reachable(s) && Quiescent(s)
    ensures s.clips == |s.reg| && s.extant == Held(s)
    ensures s.bytes == Sum(Sizes(s.logs, s.extant))
  {
    hide Reachable, Inv, Value, Quiescent, Sizes;
    ReachableInv(s);
    AtRestEveryFootprintIsAValue(s);
    CountersAreExactAndCapped(s);
    forall n | n in s.reg
      ensures Value(s, n).Some? && s.minted.Keys >= {Value(s, n).value.id} && s.minted[Value(s, n).value.id] == n
    {
      AtRestTheRegistryIsTheValues(s, n);
      ValueIsNamed(s, n);
    }
    var f := map n | n in s.reg :: Value(s, n).value.id;
    assert f.Values == Held(s) by {
      forall g | g in Held(s)
        ensures g in f.Values
      {
        var n :| n in s.reg && Value(s, n).Some? && Value(s, n).value.id == g;
        assert f[n] == g;
      }
    }
    DistinctImages(s.reg.Keys, Held(s), f);
    NothingIsHeldAtRest(s);
  }

  lemma NothingIsHeldAtRest(s: State)
    requires Quiescent(s)
    ensures Sum(Helds(s.ops)) == 0
  {
    AllZero(Helds(s.ops));
  }

  lemma {:induction false} AllZero<K>(m: map<K, nat>)
    requires forall k | k in m :: m[k] == 0
    ensures Sum(m) == 0
    decreases |m|
  {
    if m != map[] {
      var k :| k in m;
      SumSplit(m, k);
      AllZero(m - {k});
    }
  }
}
