// What the store promises the operations on one name, in every reachable state.
module Promises {
  import opened Common
  import opened GenIds
  import opened Generations
  import opened DiskModel
  import opened Transitions
  import opened StoreMachine
  import opened Leases
  import opened Ownership
  import opened OwnershipTail
  import opened Gates
  import opened QuotaInvariant
  import opened Storage
  import opened StorageSteps
  import opened Invariant
  import opened Runs
  import opened Survival
  import opened Refinement

  // No wakeup is ever lost: as long as the clock has not stepped back, a waiter parked on a channel still open would
  // find nothing if it resolved again, by whichever rule it waits.
  lemma NoLostWakeup(s: State, o: nat)
    requires Reachable(s) && s.steady && o in s.ops && s.ops[o].Opening? && s.ops[o].rstage.Parked?
    ensures s.ops[o].h in s.handles && s.ops[o].rstage.channel <= s.handles[s.ops[o].h].notify
    ensures s.ops[o].rstage.channel == s.handles[s.ops[o].h].notify ==>
              Resolve(s.handles[s.ops[o].h].slot, s.ops[o].cursor, s.now) == NotFound
  {
    hide LeaseInv, OwnInv, QuotaInv, StoreInv, Reachable, Resolve;
    ReachableInv(s);
    assert AtGate(s, s.ops[o]);
  }

  // A waiter whose channel was replaced, or whose wait is over, can always move on, and so can every waiter there is
  // something for: it looks again, by the rule and past the cursor it waited with.
  lemma WokenWaitersMoveOn(s: State, o: nat)
    requires Reachable(s) && s.up && o in s.ops && s.ops[o].Opening? && s.ops[o].rstage.Parked?
    ensures Enabled(s, WakeUp(o)) <==> WakeEnabled(s, o)
    ensures WakeEnabled(s, o) <==>
              s.ops[o].h in s.handles && (s.handles[s.ops[o].h].notify > s.ops[o].rstage.channel
                                          || s.ops[o].canceled || s.ops[o].elapsed)
    ensures s.ops[o].h in s.handles
    ensures s.steady && Resolve(s.handles[s.ops[o].h].slot, s.ops[o].cursor, s.now) != NotFound ==> WakeEnabled(s, o)
    ensures WakeEnabled(s, o) && !s.ops[o].canceled && !s.ops[o].elapsed ==>
              && IsResolving(WakeNext(s, o), o)
              && WakeNext(s, o).ops[o].cursor == s.ops[o].cursor && WakeNext(s, o).ops[o].next == s.ops[o].next
  {
    hide LeaseInv, OwnInv, QuotaInv, StoreInv, Reachable, Resolve;
    ReachableInv(s);
    assert AtGate(s, s.ops[o]);
  }

  // While one upload of a name is in flight, there is no other.
  lemma OneUploadPerName(s: State, o: nat, p: nat)
    requires Reachable(s) && o in s.ops && s.ops[o].Writing? && p in s.ops && s.ops[p].Writing?
    ensures s.ops[o].h in s.handles && s.ops[p].h in s.handles
    ensures s.handles[s.ops[o].h].name == s.handles[s.ops[p].h].name ==> o == p
    ensures IsLive(s.handles[s.ops[o].h], s.ops[o].g)
  {
    hide GateInv, QuotaInv, StoreInv, Reachable, SlotsWell, NoneLost, LeaseInv;
    ReachableInv(s);
    OneHandlePerName(s, o, p);
    OpHolds(s, o);
    OpHolds(s, p);
    assert s.ops[o].EndsLog() == Some(s.ops[o].g) && s.ops[p].EndsLog() == Some(s.ops[p].g);
  }

  // No lost update: what a conditional write replaces when it publishes is the generation it was matched against,
  // finalized still or consumed since, or nothing; and it reclaims only that one.
  lemma ConditionalWriteReplacesItsMatch(s: State, o: nat)
    requires Reachable(s) && IsFlipping(s, o) && s.ops[o].matched.Some?
    ensures var slot := s.handles[s.ops[o].h].slot;
            && (slot.current.Some? ==> slot.current.value.id == s.ops[o].matched.value)
            && FlipNext(s, o).ops[o].prev in {None, s.ops[o].matched}
            && (FlipNext(s, o).ops[o].prev.Some? <==>
                  slot.current.Some? && slot.current.value.state == GenFinalized)
  {
    hide LeaseInv, OpsWell, OneOwner, NoneLost, QuotaInv, StoreInv, Reachable;
    ReachableInv(s);
    assert AtGate(s, s.ops[o]);
    assert SlotWell(s, s.ops[o].h);
  }

  // Ids never regress, however the clock moves: in every slot what is being written follows what it will replace, and
  // the seed bounds both -- and, unless a process was killed since the machine last went down, every directory of the
  // name a crash could still bring back.
  lemma IdsNeverRegress(s: State, h: nat, g: GenId)
    requires Reachable(s) && h in s.handles
    ensures s.handles[h].slot.Ordered()
    ensures s.up && s.settled && g in s.disk && s.disk[g].MayReturn() && g in s.minted && s.minted[g] in s.reg
            && s.reg[s.minted[g]] == h && s.handles[h].slot.lastPrefix > 0 ==>
              g.prefix <= s.handles[h].slot.lastPrefix
  {
    hide LeaseInv, OwnInv, QuotaInv, Reachable, DirsWell, OpsStored, SlotsStored, FatesWell, LogsWell;
    ReachableInv(s);
  }

  // A follow-next reader holds something strictly after the cursor it captured.
  lemma FollowNextDeliversSomethingNewer(s: State, o: nat)
    requires Reachable(s) && o in s.ops && s.ops[o].Opening? && s.ops[o].next && s.ops[o].rstage.Reading?
    ensures s.ops[o].cursor.Some? && s.ops[o].rstage.g.After(s.ops[o].cursor.value)
  {
    hide LeaseInv, OwnInv, QuotaInv, StoreInv, Reachable;
    ReachableInv(s);
    assert AtGate(s, s.ops[o]);
  }

  // The cursor is the id current at the first resolve, or the zero id of an empty name, and it never moves again.
  lemma CursorIsCapturedOnce(s: State, o: nat, claim: Outcome, attached: bool)
    requires ResolveEnabled(s, o, claim)
    requires o in ResolveNext(s, o, claim, attached).ops && ResolveNext(s, o, claim, attached).ops[o].Opening?
    ensures var slot := s.handles[s.ops[o].h].slot;
            var before, after := s.ops[o].cursor, ResolveNext(s, o, claim, attached).ops[o].cursor;
            && (before.Some? ==> after == before)
            && (before.None? && s.ops[o].next ==>
                  after == Some(if slot.current.Some? then slot.current.value.id else ZERO_ID))
            && (before.None? && !s.ops[o].next ==> after.None?)
  {
    hide Resolve, ResolveNext, ClaimNext;
    if Claimable(Resolved(s, o)) {
      ResolveUnfolds(s, o, claim, attached);
      ClaimKeepsTheCursor(s, o, claim, attached);
    } else {
      ResolveClaimsNothing(s, o, claim, attached);
    }
  }

  lemma ClaimKeepsTheCursor(s: State, o: nat, claim: Outcome, attached: bool)
    requires ResolveEnabled(s, o, claim) && Claimable(Resolved(s, o))
    ensures var op := s.ops[o].(cursor := CursorOf(s.ops[o], s.handles[s.ops[o].h].slot));
            var t := ClaimNext(s, o, op, Resolved(s, o).gen, claim, attached);
            o in t.ops && (t.ops[o].Opening? ==> t.ops[o].cursor == op.cursor)
  {
  }

  // -------------------------------------------------------------------------
  // Leases and eviction
  // -------------------------------------------------------------------------

  // A handle with a lease or a generation is the one the registry maps its name to.
  lemma HandlesInUseAreRegistered(s: State, h: nat, k: nat)
    requires Reachable(s) && h in s.handles && InUse(s.handles[h]) && k in s.handles && InUse(s.handles[k])
    ensures s.handles[h].name in s.reg && s.reg[s.handles[h].name] == h
    ensures s.handles[h].name == s.handles[k].name ==> h == k
  {
    hide OwnInv, GateInv, QuotaInv, StoreInv, Reachable;
    ReachableInv(s);
  }

  // No operation holds a lease.
  predicate Quiescent(s: State) { s.up && forall o | o in s.ops :: !s.ops[o].Leased() }

  // At rest a handle holds one finalized generation and nothing else.
  lemma RestingHandle(s: State, n: string)
    requires Reachable(s) && Quiescent(s) && n in s.reg
    ensures s.reg[n] in s.handles
    ensures var hd := s.handles[s.reg[n]];
            && hd.leases == 0 && hd.slot.live.None? && hd.slot.current.Some? && hd.slot.current.value.state == GenFinalized
            && Value(s, n) == hd.slot.current
  {
    hide GateInv, QuotaInv, StoreInv, Reachable, OpsWell, OneOwner, NoneLost;
    ReachableInv(s);
    assert Holders(s.ops, s.reg[n]) == {};
    assert SlotWell(s, s.reg[n]);
  }

  // At rest the registry maps exactly the names that have a value.
  lemma AtRestTheRegistryIsTheValues(s: State, n: string)
    requires Reachable(s) && Quiescent(s)
    ensures n in s.reg <==> Value(s, n).Some?
  {
    hide Reachable, Inv;
    if n in s.reg {
      RestingHandle(s, n);
    }
  }

  // -------------------------------------------------------------------------
  // Retention
  // -------------------------------------------------------------------------

  // A sweep removes only the very generation it observed expired: whatever happened to the name since, either its
  // value stands, or it was that generation, finalized still and past its deadline at the sweep's instant.
  lemma ReapRemovesOnlyWhatWasObserved(s: State, o: nat, outcome: Outcome, name: string)
    requires Reachable(s) && ReapEnabled(s, o, outcome)
    ensures var before, after := Value(s, name), Value(ReapNext(s, o, outcome), name);
            before != after ==>
              && before.Some? && before.value.id == s.ops[o].id && before.value.Expired(s.ops[o].at)
              && outcome != NeverTook && after.None?
  {
    hide Reachable, OwnInv, GateInv, QuotaInv, StoreInv, RetireNext, Value;
    ReachableInv(s);
    var target := ReapTarget(s.handles[s.ops[o].h].slot, s.ops[o].at, s.ops[o].id);
    RetireRefines(s, o, target, outcome, name);
    ValueOfOwnName(s, o);
  }

  lemma ValueOfOwnName(s: State, o: nat)
    requires LeaseInv(s) && At(s, o)
    ensures Value(s, s.handles[s.ops[o].h].name) == FinalOf(s.handles[s.ops[o].h].slot)
  {
    LeasePins(s, o);
  }
}
