// What a stat and a list may show: neither holds more than one name still, and a list visits its names one after another
// while everything else moves.
module Listing {
  import opened Common
  import opened GenIds
  import opened Generations
  import opened Records
  import opened DiskModel
  import opened Transitions
  import opened StoreMachine
  import opened Leases
  import opened Ownership
  import opened OwnershipSteps
  import opened OwnershipTail
  import opened Gates
  import opened QuotaInvariant
  import opened Storage
  import opened StorageSteps
  import opened Invariant
  import opened Runs
  import opened Survival
  import opened Refinement

  // -------------------------------------------------------------------------
  // A handle stands where it was found
  // -------------------------------------------------------------------------

  // No handle is lost or renamed, and a name that has a value keeps its handle.
  ghost predicate Stands(s: State, t: State) {
    && (forall h | h in s.handles :: h in t.handles && t.handles[h].name == s.handles[h].name)
    && (forall n | Value(s, n).Some? :: n in t.reg && t.reg[n] == s.reg[n])
  }

  lemma MovesStands(s: State, t: State, o: nat)
    requires Moves(s, t, o)
    ensures Stands(s, t)
  {
  }

  lemma SameHandlesStand(s: State, t: State)
    requires t.handles == s.handles && t.reg == s.reg
    ensures Stands(s, t)
  {
  }

  lemma AcquireStands(s: State, o: nat, h: nat, name: string, op: Op)
    requires if name in s.reg then h == s.reg[name] && h in s.handles else h !in s.handles
    ensures Stands(s, s.Acquire(o, h, name, op))
  {
  }

  // The last lease evicts only a handle that holds nothing.
  lemma ReleaseStands(s: State, o: nat)
    requires LeaseInv(s) && At(s, o) && s.ops[o].Leaving?
    ensures Stands(s, ReleaseNext(s, o))
  {
    LeasePins(s, o);
  }

  lemma UploadStands(s: State, o: nat, u: UploadStep)
    requires UploadEnabled(s, o, u)
    ensures Stands(s, UploadNext(s, o, u))
  {
    hide Stands, Quiet, Moves, AdmitNext, AdmitEnabled, AppendNext, PublishNext, FlipNext, DiscardNext, RecordOf, Finalize;
    match u
    case Admit(tail, made) => AdmitMoves(s, o, tail, made); MovesStands(s, AdmitNext(s, o, tail, made), o);
    case Reserve(chunk) => ReserveIsQuiet(s, o, chunk); QuietStands(s, ReserveNext(s, o, chunk), o);
    case Append(stored) => AppendIsQuiet(s, o, stored); QuietStands(s, AppendNext(s, o, stored), o);
    case ReturnTail => ReturnTailIsQuiet(s, o); QuietStands(s, ReturnTailNext(s, o), o);
    case SyncBytes(ok) => SyncBytesIsQuiet(s, o, ok); QuietStands(s, SyncBytesNext(s, o, ok), o);
    case Publish(outcome) => PublishIsQuiet(s, o, outcome); QuietStands(s, PublishNext(s, o, outcome), o);
    case FlipCurrent => FlipMoves(s, o); MovesStands(s, FlipNext(s, o), o);
    case FinishLog => FinishLogIsQuiet(s, o); QuietStands(s, FinishLogNext(s, o), o);
    case AbortPublish(outcome) => AbortPublishIsQuiet(s, o, outcome); QuietStands(s, AbortPublishNext(s, o, outcome), o);
    case Discard => DiscardMoves(s, o); MovesStands(s, DiscardNext(s, o), o);
    case TearLog => TearLogIsQuiet(s, o); QuietStands(s, TearLogNext(s, o), o);
  }

  lemma QuietStands(s: State, t: State, o: nat)
    requires Quiet(s, t, o)
    ensures Stands(s, t)
  {
    hide Stands;
    MovesStands(s, t, o);
  }

  lemma StepStands(s: State, step: Step)
    requires LeaseInv(s) && Enabled(s, step) && !IsRestartStep(step)
    ensures Stands(s, Next(s, step))
  {
    hide Stands, LeaseInv, UploadEnabled, UploadNext, ResolveEnabled, ResolveNext, RetireNext, ReclaimNext, ClearNext,
         ReleaseNext, Moves;
    match step
    case Begin(o, h, n, req) => AcquireStands(s, o, h, n, Start(req, h, s.now));
    case Upload(o, u) => UploadStands(s, o, u);
    case Reclaim(o, removal) => ReclaimMoves(s, o, removal); MovesStands(s, ReclaimNext(s, o, removal), o);
    case ClearCurrent(o) => ClearMoves(s, o); MovesStands(s, ClearNext(s, o), o);
    case Release(o) => ReleaseStands(s, o);
    case ResolveOpen(o, claim, attached) =>
      ResolveMoves(s, o, claim, attached); MovesStands(s, ResolveNext(s, o, claim, attached), o);
    case DeleteCurrent(o, outcome) =>
      RetireMoves(s, o, s.ops[o].h, PresentCurrent(s.handles[s.ops[o].h].slot, s.ops[o].at), outcome);
      MovesStands(s, Next(s, step), o);
    case ReapCurrent(o, outcome) =>
      RetireMoves(s, o, s.ops[o].h, ReapTarget(s.handles[s.ops[o].h].slot, s.ops[o].at, s.ops[o].id), outcome);
      MovesStands(s, Next(s, step), o);
    case ReapBegin(o, h) => AcquireStands(s, o, h, s.ops[o].name, Reaping(h, s.ops[o].at, s.ops[o].id));
    case Tick(_) => SameHandlesStand(s, Next(s, step));
    case WakeUp(_) => SameHandlesStand(s, Next(s, step));
    case Cancel(_) => SameHandlesStand(s, Next(s, step));
    case Elapse(_) => SameHandlesStand(s, Next(s, step));
    case CloseReader(_) => SameHandlesStand(s, Next(s, step));
    case SweepBegin(_) => SameHandlesStand(s, Next(s, step));
    case Observe(_, _, _) => SameHandlesStand(s, Next(s, step));
    case Crash(_) =>
    case Kill =>
    case ScanPartly(_) =>
    case Reconfigure(_) =>
    case Boot(_, _, _) =>
  }

  // -------------------------------------------------------------------------
  // A list's walk
  // -------------------------------------------------------------------------

  // The steps of one process, from the snapshot of the handles to the visit of one of them.
  ghost predicate Walk(s: State, steps: seq<Step>, t: State)
    decreases |steps|
  {
    if steps == [] then t == s
    else Enabled(s, steps[0]) && !IsRestartStep(steps[0]) && Walk(Next(s, steps[0]), steps[1..], t)
  }

  // The name has some value at every moment of the walk, replaced as often as may be.
  ghost predicate Throughout(s: State, steps: seq<Step>, n: string)
    decreases |steps|
  {
    Value(s, n).Some? && (steps == [] || (Enabled(s, steps[0]) && Throughout(Next(s, steps[0]), steps[1..], n)))
  }

  lemma {:induction false} WalkStands(s: State, steps: seq<Step>, t: State, h: nat, n: string)
    requires Inv(s) && Walk(s, steps, t) && h in s.handles && s.handles[h].name == n
    ensures Inv(t) && h in t.handles && t.handles[h].name == n
    ensures n in s.reg && s.reg[n] == h && Throughout(s, steps, n) ==> n in t.reg && t.reg[n] == h && Value(t, n).Some?
    decreases |steps|
  {
    hide Inv, Enabled, Next, IsRestartStep, Value;
    if steps != [] {
      NextKeepsInv(s, steps[0]);
      InvLeases(s);
      StepStands(s, steps[0]);
      WalkStands(Next(s, steps[0]), steps[1..], t, h, n);
    }
  }

  lemma InvLeases(s: State)
    requires Inv(s)
    ensures LeaseInv(s)
  {
  }

  // What a list that began at `at` shows of the handle it visits in `t`.
  function Shown(t: State, h: nat, at: int): Option<Generation>
    requires h in t.handles
  {
    PresentCurrent(t.handles[h].slot, at)
  }

  // A list shows of each name it found registered either nothing, or what was the name's value when its handle was
  // visited, within its deadline at the list's instant; and a name that had a value throughout, visited or not yet, is
  // shown unless that value is past its deadline. Evictions and fresh handles in between change neither.
  lemma ListShowsTheReadable(s: State, steps: seq<Step>, t: State, n: string, at: int)
    requires Reachable(s) && n in s.reg && s.reg[n] in s.handles && s.handles[s.reg[n]].name == n && Walk(s, steps, t)
    ensures s.reg[n] in t.handles
    ensures Shown(t, s.reg[n], at).Some? ==> Value(t, n) == Shown(t, s.reg[n], at) && !Value(t, n).value.Expired(at)
    ensures Throughout(s, steps, n) ==>
              Value(t, n).Some? && Shown(t, s.reg[n], at) == if Value(t, n).value.Expired(at) then None else Value(t, n)
  {
    hide Reachable, Walk, Throughout, OwnInv, GateInv, QuotaInv, StoreInv;
    ReachableInv(s);
    WalkStands(s, steps, t, s.reg[n], n);
    if Shown(t, s.reg[n], at).Some? {
      assert InUse(t.handles[s.reg[n]]);
      OccupiedMeansUp(t, s.reg[n]);
    }
  }

  lemma OccupiedMeansUp(t: State, h: nat)
    requires Inv(t) && h in t.handles
    ensures t.up
  {
  }

  // Two names a list visits are two handles, so no name is shown twice.
  lemma NoNameIsListedTwice(s: State, n: string, m: string)
    requires Reachable(s) && n in s.reg && m in s.reg && s.reg[n] == s.reg[m]
    ensures n == m
  {
    hide Reachable, OwnInv, GateInv, QuotaInv, StoreInv;
    ReachableInv(s);
  }

  // -------------------------------------------------------------------------
  // A stat
  // -------------------------------------------------------------------------

  // While it holds its lease, a stat sees its name as a plain open would, and claims nothing: the value if it is within its
  // deadline; failing that the upload in flight, never a consume-once one; failing that, whether a reader has it.
  lemma StatSeesWhatAnOpenWould(s: State, o: nat, at: int)
    requires Inv(s) && At(s, o)
    ensures var hd := s.handles[s.ops[o].h];
            var v := Value(s, hd.name);
            match ResolveRead(hd.slot, at)
            case Found(g) =>
              if v.Some? && (v.value.expires.None? || at <= v.value.expires.value) then v == Some(g)
              else hd.slot.live == Some(g) && g.state == GenLive && !g.consume
            case AlreadyConsumed =>
              && v.None? && (hd.slot.live.Some? ==> hd.slot.live.value.consume)
              && exists p :: ClearerOf(s, p, s.ops[o].h, hd.slot.current.value.id)
            case NotFound =>
              && (v.Some? ==> v.value.expires.Some? && at > v.value.expires.value)
              && (hd.slot.live.Some? ==> hd.slot.live.value.consume)
              && (hd.slot.current.Some? ==> hd.slot.current.value.state == GenFinalized)
  {
    hide GateInv, QuotaInv, StoreInv, OpsWell, OneOwner, NoneLost, Counted;
    LeasePins(s, o);
    assert SlotWell(s, s.ops[o].h);
  }

  // A stat, once it has given its lease back, leaves the store exactly as it found it; at most a handle that nothing
  // names any more remains to be collected.
  lemma StatLeavesNoTrace(s: State, o: nat, h: nat, name: string)
    requires Inv(s) && s.MayAcquire(o, h, name)
    ensures var m := s.Acquire(o, h, name, Start(Stat, h, s.now));
            && At(m, o) && m.ops[o].Leaving?
            && var t := ReleaseNext(m, o);
               && t == s.(handles := t.handles) && (forall k | k in s.handles :: k in t.handles && t.handles[k] == s.handles[k])
               && (h !in s.handles ==> name !in t.reg)
  {
    hide Inv, ValidName;
    var m := s.Acquire(o, h, name, Start(Stat, h, s.now));
    var t := ReleaseNext(m, o);
    InvLeases(s);
    StatComesAndGoes(s, o, h, name);
    assert t.ops == s.ops;
  }

  lemma StatComesAndGoes(s: State, o: nat, h: nat, name: string)
    requires LeaseInv(s) && s.MayAcquire(o, h, name)
    ensures var t := ReleaseNext(s.Acquire(o, h, name, Leaving(h)), o);
            t.reg == s.reg && forall k | k in s.handles :: k in t.handles && t.handles[k] == s.handles[k]
  {
    hide Counted, ValidName;
  }
}
