// Runs of the store: what holds in every state reachable from an empty store, and what no step ever takes back.
module Runs {
  import opened Common
  import opened GenIds
  import opened Generations
  import opened Records
  import opened DiskModel
  import opened Transitions
  import opened StoreMachine
  import opened Leases
  import opened Ownership
  import opened OwnershipTail
  import opened Storage
  import opened Invariant

  ghost predicate Run(s: State, steps: seq<Step>, t: State)
    decreases |steps|
  {
    if steps == [] then t == s else Enabled(s, steps[0]) && Run(Next(s, steps[0]), steps[1..], t)
  }

  ghost predicate Reachable(t: State) {
    exists s, steps :: Init(s) && Run(s, steps, t)
  }

  lemma {:induction false} RunKeepsInv(s: State, steps: seq<Step>, t: State)
    requires Inv(s) && Run(s, steps, t)
    ensures Inv(t)
    decreases |steps|
  {
    hide Inv, Enabled, Next;
    if steps != [] {
      NextKeepsInv(s, steps[0]);
      RunKeepsInv(Next(s, steps[0]), steps[1..], t);
    }
  }

  lemma ReachableInv(t: State)
    requires Reachable(t)
    ensures Inv(t)
  {
    hide Inv, Run, Init;
    var s, steps :| Init(s) && Run(s, steps, t);
    InitInv(s);
    RunKeepsInv(s, steps, t);
  }

  lemma {:induction false} RunsConcatenate(s: State, a: seq<Step>, m: State, b: seq<Step>, t: State)
    requires Run(s, a, m) && Run(m, b, t)
    ensures Run(s, a + b, t)
    decreases |a|
  {
    hide Enabled, Next;
    if a == [] {
      assert a + b == b;
    } else {
      assert (a + b)[1..] == a[1..] + b;
      RunsConcatenate(Next(s, a[0]), a[1..], m, b, t);
    }
  }

  lemma ReachableExtends(m: State, steps: seq<Step>, t: State)
    requires Reachable(m) && Run(m, steps, t)
    ensures Reachable(t)
  {
    hide Init;
    var s, before :| Init(s) && Run(s, before, m);
    RunsConcatenate(s, before, m, steps, t);
    assert Init(s) && Run(s, before + steps, t);
  }

  // -------------------------------------------------------------------------
  // History only grows
  // -------------------------------------------------------------------------

  ghost predicate Remembers(s: State, t: State) {
    && s.acked <= t.acked && s.ended <= t.ended && s.gone <= t.gone && s.delivered <= t.delivered
    && (forall g | g in s.minted :: g in t.minted && t.minted[g] == s.minted[g])
    && (forall g | g in s.published :: g in t.published && t.published[g] == s.published[g])
  }

  lemma RemembersTransitively(s: State, m: State, t: State)
    requires Remembers(s, m) && Remembers(m, t)
    ensures Remembers(s, t)
  {
  }

  lemma PublishRemembers(s: State, o: nat, outcome: Outcome)
    requires OpsStored(s) && IsPublishing(s, o)
    ensures Remembers(s, PublishNext(s, o, outcome))
  {
    hide RecordOf, Finalize;
    assert StoredWell(s, s.ops[o]);
  }

  lemma AdmitRemembers(s: State, o: nat, tail: Option<Uint64>, made: bool)
    requires AdmitEnabled(s, o, tail)
    ensures Remembers(s, AdmitNext(s, o, tail, made))
  {
    hide ClockAhead, Admission, NewGeneration, Install;
  }

  lemma UploadRemembers(s: State, o: nat, u: UploadStep)
    requires OpsStored(s) && UploadEnabled(s, o, u)
    ensures Remembers(s, UploadNext(s, o, u))
  {
    hide OpsStored, PublishNext, IsPublishing, AdmitNext, AdmitEnabled, Remembers, ReserveNext, AppendNext, ReturnTailNext,
         SyncBytesNext, FlipNext, AbortPublishNext, FinishLogNext, DiscardNext, TearLogNext;
    match u {
      case Admit(tail, made) => AdmitRemembers(s, o, tail, made);
      case Publish(outcome) => PublishRemembers(s, o, outcome);
      case Reserve(_) => ReserveRemembers(s, o, u);
      case Append(stored) => AppendRemembers(s, o, stored);
      case ReturnTail => ReserveRemembers(s, o, u);
      case SyncBytes(ok) => SyncRemembers(s, o, ok);
      case FlipCurrent => FlipRemembers(s, o);
      case AbortPublish(outcome) => AbortRemembers(s, o, outcome);
      case FinishLog => EndRemembers(s, o, u);
      case Discard => EndRemembers(s, o, u);
      case TearLog => EndRemembers(s, o, u);
    }
  }

  lemma ReserveRemembers(s: State, o: nat, u: UploadStep)
    requires UploadEnabled(s, o, u) && (u.Reserve? || u.ReturnTail?)
    ensures Remembers(s, UploadNext(s, o, u))
  {
  }

  lemma AppendRemembers(s: State, o: nat, stored: nat)
    requires UploadEnabled(s, o, Append(stored))
    ensures Remembers(s, AppendNext(s, o, stored))
  {
  }

  lemma SyncRemembers(s: State, o: nat, ok: bool)
    requires UploadEnabled(s, o, SyncBytes(ok))
    ensures Remembers(s, SyncBytesNext(s, o, ok))
  {
  }

  lemma FlipRemembers(s: State, o: nat)
    requires IsFlipping(s, o)
    ensures Remembers(s, FlipNext(s, o))
  {
    hide Finalize, Superseded, Flip;
  }

  lemma AbortRemembers(s: State, o: nat, outcome: Outcome)
    requires IsWriting(s, o)
    ensures Remembers(s, AbortPublishNext(s, o, outcome))
  {
    hide GenDir.Commit;
  }

  lemma EndRemembers(s: State, o: nat, u: UploadStep)
    requires UploadEnabled(s, o, u) && (u.FinishLog? || u.Discard? || u.TearLog?)
    ensures Remembers(s, UploadNext(s, o, u))
  {
  }

  lemma ClaimRemembers(s: State, o: nat, op: Op, g: Generation, claim: Outcome, attached: bool)
    requires op.Opening? && op.h in s.handles && s.handles[op.h].slot.current == Some(g)
    requires RenamesMarker(s, Some(g), claim)
    ensures Remembers(s, ClaimNext(s, o, op, g, claim, attached))
  {
    hide Remembers, ClaimNext, RenamesMarker;
    ClaimTouchesLittle(s, o, op, g, claim, attached);
    HistoryRemembers(s, ClaimNext(s, o, op, g, claim, attached));
  }

  lemma HistoryRemembers(s: State, t: State)
    requires s.acked <= t.acked
    requires forall k | k in s.minted :: k in t.minted && t.minted[k] == s.minted[k]
    requires forall k | k in s.published :: k in t.published && t.published[k] == s.published[k]
    requires s.ended <= t.ended && s.gone <= t.gone && s.delivered <= t.delivered
    ensures Remembers(s, t)
  {
  }

  lemma ResolveRemembers(s: State, o: nat, claim: Outcome, attached: bool)
    requires ResolveEnabled(s, o, claim)
    ensures Remembers(s, ResolveNext(s, o, claim, attached))
  {
    hide ClaimNext, Unclaimed, CursorOf;
    if Claimable(Resolved(s, o)) {
      var op := s.ops[o].(cursor := CursorOf(s.ops[o], s.handles[s.ops[o].h].slot));
      ClaimRemembers(s, o, op, Resolved(s, o).gen, claim, attached);
    } else {
      ResolveClaimsNothing(s, o, claim, attached);
    }
  }

  lemma RetireRemembers(s: State, o: nat, h: nat, target: Option<Generation>, outcome: Outcome)
    requires h in s.handles && RenamesMarker(s, target, outcome)
    requires target.Some? ==> s.handles[h].slot.current == target
    ensures Remembers(s, RetireNext(s, o, h, target, outcome))
  {
  }

  // Nothing is ever unminted, unpublished, unacknowledged, un-ended, brought back or undelivered.
  lemma NextRemembers(s: State, step: Step)
    requires OpsStored(s) && Enabled(s, step)
    ensures Remembers(s, Next(s, step))
  {
    hide OpsStored, UploadEnabled, UploadNext, ResolveEnabled, ResolveNext, RetireNext, Restores, ScanLeaves, MayCrashInto;
    if step.Upload? {
      UploadRemembers(s, step.o, step.u);
    } else if step.ResolveOpen? {
      ResolveRemembers(s, step.o, step.claim, step.attached);
    } else if step.DeleteCurrent? {
      var op := s.ops[step.o];
      RetireRemembers(s, step.o, op.h, PresentCurrent(s.handles[op.h].slot, op.at), step.outcome);
    } else if step.ReapCurrent? {
      var op := s.ops[step.o];
      RetireRemembers(s, step.o, op.h, ReapTarget(s.handles[op.h].slot, op.at, op.id), step.outcome);
    }
  }

  lemma {:induction false} RunRemembers(s: State, steps: seq<Step>, t: State)
    requires Inv(s) && Run(s, steps, t)
    ensures Remembers(s, t)
    decreases |steps|
  {
    hide Enabled, Next, Remembers;
    if steps == [] {
      RemembersItself(s);
    } else {
      NextKeepsInv(s, steps[0]);
      NextRemembers(s, steps[0]);
      RunRemembers(Next(s, steps[0]), steps[1..], t);
      RemembersTransitively(s, Next(s, steps[0]), t);
    }
  }

  lemma RemembersItself(s: State)
    ensures Remembers(s, s)
  {
  }
}
