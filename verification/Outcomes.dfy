// What each operation comes to: not only what it may not do, but that it does what it is for, and exactly when.
module Outcomes {
  import opened Common
  import opened GenIds
  import opened Generations
  import opened Records
  import opened DiskModel
  import opened Transitions
  import opened StoreMachine
  import opened Leases
  import opened Ownership
  import opened OwnershipSteps
  import opened OwnershipTail
  import opened Gates
  import opened QuotaInvariant
  import opened Storage
  import opened StorageSteps
  import opened Invariant
  import opened Runs
  import opened Survival
  import opened Refinement
  import opened Listing
  import opened Requests
  import opened Progress

  // -------------------------------------------------------------------------
  // Creates
  // -------------------------------------------------------------------------

  // A create is decided by its name's value at that instant, its upload in flight and the count, in this order: a condition
  // that no unexpired value meets -- any value for a star, otherwise the one whose id it spells -- then an upload in flight,
  // then the cap.
  lemma AdmissionIsExact(s: State, o: nat)
    requires Inv(s) && At(s, o) && s.ops[o].Creating?
    ensures var hd, match_ := s.handles[s.ops[o].h], s.ops[o].opts.ifMatch;
            var v := Value(s, hd.name);
            var readable := v.Some? && (v.value.expires.None? || s.now <= v.value.expires.value);
            var met := match_ == "" || (readable && (match_ == "*" || match_ == v.value.id.String()));
            Admission(hd.slot, s.now, match_, s.clips, s.cfg.maxClips)
              == if !met then PreconditionFailed
                 else if hd.slot.live.Some? then Busy
                 else if s.cfg.maxClips != 0 && s.clips >= s.cfg.maxClips then NoSpace
                 else Admitted
  {
    hide OwnInv, GateInv, QuotaInv, StoreInv, Counted, GenId.String;
    LeasePins(s, o);
  }

  // An admitted create installs its upload, live and empty, beside the value that stands, under a fresh id past the seed;
  // it remembers the value its condition met, takes one of the count, and wakes whoever waits.
  lemma AdmissionInstalls(s: State, o: nat, tail: Option<Uint64>)
    requires Inv(s) && Admits(s, o, tail)
    ensures var t, h, id := AdmitNext(s, o, tail, true), s.ops[o].h, FreshId(s, s.ops[o].h, tail.value);
            && h in t.handles && t.handles[h].slot.current == s.handles[h].slot.current
            && id.prefix > s.handles[h].slot.lastPrefix && id !in s.minted && id in t.minted
            && IsLive(t.handles[h], id) && t.handles[h].slot.live.value.state == GenLive
            && o in t.ops && t.ops[o] == Writing(h, id, MatchedValue(s, o), Idle)
            && id in t.logs && t.logs[id] == Log([], Open) && t.clips == s.clips + 1 && t.bytes == s.bytes
            && t.handles[h].notify > s.handles[h].notify
  {
    hide OwnInv, GateInv, QuotaInv, StoreInv, Counted, ClockAhead, GenId.String, ResolveTTL;
    AdmitAdvances(s, o, tail);
    LeasePins(s, o);
  }

  // The value a conditional create is held to, if it is conditional.
  function MatchedValue(s: State, o: nat): Option<GenId>
    requires o in s.ops && s.ops[o].Creating? && s.ops[o].h in s.handles
  {
    var v := Value(s, s.handles[s.ops[o].h].name);
    if s.ops[o].opts.ifMatch == "" || v.None? then None else Some(v.value.id)
  }

  // A create that is refused, or whose id or home could not be had, leaves every value, upload, log and counter.
  lemma RefusalLeavesNothing(s: State, o: nat, tail: Option<Uint64>, made: bool)
    requires AdmitEnabled(s, o, tail) && (!Admits(s, o, tail) || !made)
    ensures var t, h := AdmitNext(s, o, tail, made), s.ops[o].h;
            && o in t.ops && t.ops[o] == Leaving(h) && h in t.handles && t.handles[h].slot.current == s.handles[h].slot.current
            && t.handles[h].slot.live == s.handles[h].slot.live && t.clips == s.clips && t.bytes == s.bytes && t.logs == s.logs
            && (!Admits(s, o, tail) ==> t == s.SetOp(o, Leaving(h)))
  {
    hide ClockAhead, Admission, NewGeneration;
  }

  // -------------------------------------------------------------------------
  // Writes and closes
  // -------------------------------------------------------------------------

  // A chunk is reserved exactly when it fits what its upload may grow to and what the store may hold; a chunk that does not
  // leaves no trace.
  lemma ChunksThatFitAreReserved(s: State, o: nat, chunk: seq<Byte>)
    requires UploadEnabled(s, o, Reserve(chunk))
    ensures var t := ReserveNext(s, o, chunk);
            var fits := (s.cfg.maxClip == 0 || |s.logs[s.ops[o].g].bytes| + |chunk| <= s.cfg.maxClip)
                        && (s.cfg.maxTotal == 0 || s.bytes + |chunk| <= s.cfg.maxTotal);
            if fits then o in t.ops && t.ops[o] == s.ops[o].(stage := Reserved(chunk)) && t.bytes == s.bytes + |chunk| else t == s
  {
  }

  // One write of an upload, of which the backing stores a part.
  function WriteSteps(o: nat, chunk: seq<Byte>, stored: nat): seq<Step> {
    [Upload(o, Reserve(chunk)), Upload(o, Append(stored)), Upload(o, ReturnTail)]
  }

  lemma ReserveStage(s: State, o: nat, chunk: seq<Byte>)
    requires UploadEnabled(s, o, Reserve(chunk))
    requires s.cfg.maxClip == 0 || |s.logs[s.ops[o].g].bytes| + |chunk| <= s.cfg.maxClip
    requires s.cfg.maxTotal == 0 || s.bytes + |chunk| <= s.cfg.maxTotal
    ensures var a := ReserveNext(s, o, chunk);
            IsWriting(a, o) && a == s.(ops := s.ops[o := s.ops[o].(stage := Reserved(chunk))], bytes := s.bytes + |chunk|)
  {
  }

  lemma AppendStage(a: State, o: nat, stored: nat)
    requires UploadEnabled(a, o, Append(stored))
    ensures var b, g, chunk := AppendNext(a, o, stored), a.ops[o].g, a.ops[o].stage.chunk;
            && IsWriting(b, o)
            && b == a.(ops := a.ops[o := a.ops[o].(stage := ShortBy(|chunk| - stored))], disk := b.disk,
                       logs := a.logs[g := a.logs[g].(bytes := a.logs[g].bytes + chunk[..stored])])
            && b.disk[g].bytes == a.disk[g].bytes + chunk[..stored]
  {
  }

  lemma ReturnTailStage(b: State, o: nat)
    requires UploadEnabled(b, o, ReturnTail)
    ensures ReturnTailNext(b, o)
         == b.(ops := b.ops[o := b.ops[o].(stage := Idle)], bytes := b.bytes - b.ops[o].stage.tail)
  {
  }

  // A write of a chunk that fits puts what the backing stores of it at the end of the log, counts just that, and leaves the
  // upload ready for the next one; nothing else of the store's memory moves.
  lemma WriteOutcome(s: State, o: nat, chunk: seq<Byte>, stored: nat) returns (t: State)
    requires UploadEnabled(s, o, Reserve(chunk)) && stored <= |chunk|
    requires s.cfg.maxClip == 0 || |s.logs[s.ops[o].g].bytes| + |chunk| <= s.cfg.maxClip
    requires s.cfg.maxTotal == 0 || s.bytes + |chunk| <= s.cfg.maxTotal
    ensures Run(s, WriteSteps(o, chunk, stored), t)
    ensures var g := s.ops[o].g;
            && g in t.logs && t.logs == s.logs[g := s.logs[g].(bytes := s.logs[g].bytes + chunk[..stored])]
            && t.bytes == s.bytes + stored && t.clips == s.clips && t.ops == s.ops && t.handles == s.handles && t.now == s.now
            && g in t.disk && t.disk[g].bytes == s.disk[g].bytes + chunk[..stored]
            && UploadEnabled(t, o, Reserve(chunk)) && UploadEnabled(t, o, SyncBytes(true))
  {
    hide ReserveNext, AppendNext, ReturnTailNext, GenDir.Append;
    var a := ReserveNext(s, o, chunk);
    ReserveStage(s, o, chunk);
    var b := AppendNext(a, o, stored);
    AppendStage(a, o, stored);
    t := ReturnTailNext(b, o);
    ReturnTailStage(b, o);
    assert s.ops[o].(stage := Reserved(chunk)).(stage := ShortBy(|chunk| - stored)).(stage := Idle) == s.ops[o];
    RunOfThree(s, Upload(o, Reserve(chunk)), a, Upload(o, Append(stored)), b, Upload(o, ReturnTail), t);
  }

  lemma RunOfThree(s: State, x: Step, a: State, y: Step, b: State, z: Step, t: State)
    requires Enabled(s, x) && a == Next(s, x) && Enabled(a, y) && b == Next(a, y) && Enabled(b, z) && t == Next(b, z)
    ensures Run(s, [x, y, z], t)
  {
    hide Enabled, Next;
    assert [x, y, z][1..] == [y, z] && [y, z][1..] == [z] && [z][1..] == [];
    assert Run(t, [], t);
    assert Run(b, [z], t);
    assert Run(a, [y, z], t);
  }

  // The stages of a Close that meets no fault.
  function CloseSteps(o: nat): seq<Step> {
    [Upload(o, SyncBytes(true)), Upload(o, Publish(TookDurable)), Upload(o, FlipCurrent)]
  }

  // A Close that meets no fault makes its upload its name's value, acknowledged, durable and not ended, closed as of the
  // instant it began and over exactly the bytes written; it ends what it replaced and nothing else, and owes that one's
  // reclamation unless a reader has it. With what RetentionIsWhatWasAsked and GenerationIsWhatWasAsked say of it from
  // there, that is the whole of what a client that was told nil may count on.
  lemma CloseOutcome(s: State, o: nat, tail: Option<Uint64>, before: seq<Step>, m: State, w: nat) returns (t: State)
    requires Reachable(s) && Admits(s, o, tail) && Run(AdmitNext(s, o, tail, true), before, m)
    requires UploadEnabled(m, w, SyncBytes(true)) && m.ops[w].g == FreshId(s, s.ops[o].h, tail.value)
    ensures Run(m, CloseSteps(w), t)
    ensures var g, hd := m.ops[w].g, m.handles[m.ops[w].h];
            var v := Value(t, hd.name);
            && v.Some? && v.value.id == g && v.value.finalized == m.now && v.value.state == GenFinalized
            && g in t.acked && g !in t.ended && Kept(t, g) && t.published[g].bytes == m.logs[g].bytes
            && m.ops[w].h in t.handles && t.handles[m.ops[w].h].slot.live.None?
            && t.ended == m.ended + (if hd.slot.current.Some? then {hd.slot.current.value.id} else {})
            && t.ops == m.ops[w := Finishing(m.ops[w].h, g,
                                     if Value(m, hd.name).Some? then Some(Value(m, hd.name).value.id) else None)]
  {
    hide Inv, Reachable, Run, ClockAhead, AdmitNext, Story, Known, Admission, Next, Value;
    var a, none := StoryFromAdmission(s, o, tail, before, m);
    t := CloseRun(m, w);
    StoryUnended(m, w, m.ops[w].g, a, none);
  }

  lemma StoryUnended(m: State, w: nat, id: GenId, a: Asked, closed: Option<int>)
    requires Story(m, id, a, closed) && w in m.ops && Writes(m.ops[w], id)
    ensures id !in m.ended
  {
    hide SlotAnswers, OpAnswers, RecordAnswers;
  }

  lemma SyncStage(m: State, w: nat)
    requires UploadEnabled(m, w, SyncBytes(true)) && m.handles[m.ops[w].h].slot.live.Some?
    ensures var a := SyncBytesNext(m, w, true);
            && IsPublishing(a, w) && a == m.(ops := m.ops[w := m.ops[w].(stage := Synced(m.now))], disk := a.disk)
  {
    hide GenDir.SyncData;
  }

  lemma PublishStage(a: State, w: nat)
    requires IsPublishing(a, w)
    ensures var b, g := PublishNext(a, w, TookDurable), a.ops[w].g;
            && IsFlipping(b, w) && b == a.(ops := a.ops[w := a.ops[w].(stage := Published(a.ops[w].stage.at))],
                                           disk := b.disk, published := b.published)
            && g in b.published && b.published[g].bytes == a.logs[g].bytes
  {
    hide GenDir.Commit, RecordOf, Finalize;
  }

  lemma FlipStage(b: State, w: nat)
    requires IsFlipping(b, w) && IsLive(b.handles[b.ops[w].h], b.ops[w].g)
    ensures var t, g, h := FlipNext(b, w), b.ops[w].g, b.ops[w].h;
            var slot := b.handles[h].slot;
            && h in t.handles && t.handles[h].slot.live.None? && IsFinal(t.handles[h], g)
            && t.handles[h].slot.current.value.finalized == b.ops[w].stage.at
            && g in t.acked && t.disk == b.disk && t.published == b.published && t.up == b.up && t.reg == b.reg
            && t.handles[h].name == b.handles[h].name
            && t.ended == b.ended + (if slot.current.Some? then {slot.current.value.id} else {})
            && t.ops == b.ops[w := Finishing(h, g, Superseded(slot))]
  {
    hide DeadlineAt;
  }

  lemma SupersededIsTheValue(s: State, o: nat)
    requires Inv(s) && At(s, o)
    ensures var v := Value(s, s.handles[s.ops[o].h].name);
            Superseded(s.handles[s.ops[o].h].slot) == if v.Some? then Some(v.value.id) else None
  {
    hide GateInv, QuotaInv, StoreInv, OpsWell, OneOwner, NoneLost, Counted;
    LeasePins(s, o);
    assert SlotWell(s, s.ops[o].h);
  }

  lemma PublishedIsKept(b: State, w: nat)
    requires Inv(b) && IsFlipping(b, w)
    ensures Kept(b, b.ops[w].g)
  {
    hide Base, QuotaInv, DirsWell, SlotsStored, FatesWell, LogsWell, SeedBounds, Kept, RecordOf, Finalize;
    assert StoredWell(b, b.ops[w]);
  }

  lemma CloseRun(m: State, w: nat) returns (t: State)
    requires Inv(m) && UploadEnabled(m, w, SyncBytes(true))
    ensures Run(m, CloseSteps(w), t)
    ensures var g, hd := m.ops[w].g, m.handles[m.ops[w].h];
            var v := Value(t, hd.name);
            && v.Some? && v.value.id == g && v.value.finalized == m.now && v.value.state == GenFinalized
            && g in t.acked && Kept(t, g) && t.published[g].bytes == m.logs[g].bytes
            && m.ops[w].h in t.handles && t.handles[m.ops[w].h].slot.live.None?
            && t.ended == m.ended + (if hd.slot.current.Some? then {hd.slot.current.value.id} else {})
            && (hd.slot.current.Some? ==> hd.slot.current.value.id != g)
            && t.ops == m.ops[w := Finishing(m.ops[w].h, g,
                                     if Value(m, hd.name).Some? then Some(Value(m, hd.name).value.id) else None)]
  {
    hide Inv, SyncBytesNext, PublishNext, FlipNext, Superseded;
    WrittenIsOnlyLive(m, w, m.ops[w].g);
    LiveIsOpenEnded(m, w, m.ops[w].g);
    var a := SyncBytesNext(m, w, true);
    SyncStage(m, w);
    SyncBytesKeepsInv(m, w, true);
    var b := PublishNext(a, w, TookDurable);
    PublishStage(a, w);
    PublishKeepsInv(a, w, TookDurable);
    PublishedIsKept(b, w);
    t := FlipNext(b, w);
    FlipStage(b, w);
    SupersededIsTheValue(m, w);
    LeaseIsRegistered(m, w);
    RunOfThree(m, Upload(w, SyncBytes(true)), a, Upload(w, Publish(TookDurable)), b, Upload(w, FlipCurrent), t);
  }

  // -------------------------------------------------------------------------
  // Opens
  // -------------------------------------------------------------------------

  // The value is within its deadline at that instant.
  predicate Unexpired(v: Option<Generation>, now: int) {
    v.Some? && (v.value.expires.None? || now <= v.value.expires.value)
  }

  // What an open resolves, by either rule: its name's unexpired value, if it is after the cursor the open steps past, if
  // any; failing that the upload in flight, unless it is consume-once; failing that it is told that a reader has the value, if
  // one does and it steps past nothing, and otherwise that there is nothing.
  lemma ResolutionIsExact(s: State, h: nat, cursor: Option<GenId>, at: int)
    requires Inv(s) && s.up && h in s.handles && s.handles[h].name in s.reg && s.reg[s.handles[h].name] == h
    ensures var slot, v := s.handles[h].slot, Value(s, s.handles[h].name);
            var taken := v.None? && slot.current.Some? && exists p :: ClearerOf(s, p, h, slot.current.value.id);
            Resolve(slot, cursor, at)
              == if Unexpired(v, at) && (cursor.Some? ==> v.value.id.After(cursor.value)) then Found(v.value)
                 else if slot.live.Some? && !slot.live.value.consume then Found(slot.live.value)
                 else if taken && cursor.None? then AlreadyConsumed
                 else NotFound
  {
    hide GateInv, QuotaInv, StoreInv, OpsWell, OneOwner, NoneLost, LeaseInv;
    assert SlotWell(s, h);
  }

  // A woken waiter looks again by the rule and past the cursor it waited with.
  lemma WokenLooksAgain(t: State, p: nat, now: int)
    requires WakeEnabled(t, p) && !t.ops[p].canceled && !t.ops[p].elapsed && (t.ops[p].next ==> t.ops[p].cursor.Some?)
    ensures Enabled(t, WakeUp(p))
    ensures var m := Next(t, WakeUp(p)).(now := now);
            IsResolving(m, p) && Resolved(m, p) == Resolve(t.handles[t.ops[p].h].slot, t.ops[p].cursor, now)
  {
    hide Resolve;
  }

  // A publish flip is never slept through: whoever is parked on the name, for any value or for the next write, can go on at
  // once, and if the new value is unexpired at its next turn, that is what it finds.
  lemma FlipServesTheWaiters(s: State, o: nat, p: nat, now: int)
    requires Reachable(s) && IsFlipping(s, o) && p in s.ops && s.ops[p].Opening? && s.ops[p].rstage.Parked?
    requires s.ops[p].h == s.ops[o].h && !s.ops[p].canceled && !s.ops[p].elapsed
    ensures var t := FlipNext(s, o);
            && s.handles[s.ops[o].h].name in t.reg && Value(t, s.handles[s.ops[o].h].name).Some?
            && Value(t, s.handles[s.ops[o].h].name).value.id == s.ops[o].g
            && WakeEnabled(t, p) && Enabled(t, WakeUp(p))
            && var m := Next(t, WakeUp(p)).(now := now);
               && IsResolving(m, p)
               && (Unexpired(Value(t, s.handles[s.ops[o].h].name), now) ==>
                     Resolved(m, p) == Found(Value(t, s.handles[s.ops[o].h].name).value))
  {
    hide Reachable, OwnInv, QuotaInv, StoreInv, Counted, FlipNext, Next, Enabled, Resolved;
    ReachableInv(s);
    assert AtGate(s, s.ops[p]);
    LeasePins(s, o);
    WrittenIsOnlyLive(s, o, s.ops[o].g);
    FlippedSlotIs(s, o);
    WokenLooksAgain(FlipNext(s, o), p, now);
  }

  lemma FlippedSlotIs(s: State, o: nat)
    requires IsFlipping(s, o) && IsLive(s.handles[s.ops[o].h], s.ops[o].g)
    ensures var t, h := FlipNext(s, o), s.ops[o].h;
            && t.up && t.reg == s.reg && t.ops == s.ops[o := t.ops[o]] && t.handles == s.handles[h := t.handles[h]]
            && t.handles[h].notify == s.handles[h].notify + 1 && t.handles[h].name == s.handles[h].name
            && t.handles[h].slot.live.None? && IsFinal(t.handles[h], s.ops[o].g)
  {
    hide DeadlineAt, Superseded;
  }

  // Nor is an admission: whoever is parked can go on, and unless the upload is consume-once, finds it if there is no value for it.
  lemma AdmissionServesTheWaiters(s: State, o: nat, tail: Option<Uint64>, p: nat, now: int)
    requires Reachable(s) && Admits(s, o, tail) && p in s.ops && s.ops[p].Opening? && s.ops[p].rstage.Parked?
    requires s.ops[p].h == s.ops[o].h && !s.ops[p].canceled && !s.ops[p].elapsed && !s.ops[o].opts.consumeOnce
    ensures var t, v := AdmitNext(s, o, tail, true), Value(s, s.handles[s.ops[o].h].name);
            && WakeEnabled(t, p) && Enabled(t, WakeUp(p))
            && var m := Next(t, WakeUp(p)).(now := now);
               && IsResolving(m, p) && Resolved(m, p).Found?
               && (!(Unexpired(v, now) && (s.ops[p].next ==> s.ops[p].cursor.Some? && v.value.id.After(s.ops[p].cursor.value))) ==>
                     Resolved(m, p).gen.id == FreshId(s, s.ops[o].h, tail.value))
  {
    hide Reachable, OwnInv, QuotaInv, StoreInv, Counted, ClockAhead, Admission, AdmitNext, Next, Enabled, Resolved;
    ReachableInv(s);
    assert AtGate(s, s.ops[p]);
    LeasePins(s, o);
    AdmittedSlotIs(s, o, tail);
    WokenLooksAgain(AdmitNext(s, o, tail, true), p, now);
  }

  lemma AdmittedSlotIs(s: State, o: nat, tail: Option<Uint64>)
    requires Admits(s, o, tail)
    ensures var t, h, id := AdmitNext(s, o, tail, true), s.ops[o].h, FreshId(s, s.ops[o].h, tail.value);
            && t.up && t.ops == s.ops[o := t.ops[o]] && t.handles == s.handles[h := t.handles[h]]
            && t.handles[h].notify == s.handles[h].notify + 1 && t.handles[h].slot.current == s.handles[h].slot.current
            && IsLive(t.handles[h], id) && t.handles[h].slot.live.value.consume == s.ops[o].opts.consumeOnce
  {
    hide ClockAhead, Matched;
  }

  // One turn of an open that found no consume-once value: it attaches to what it found, unless its reader cannot be opened;
  // waits for what it did not find, if it waits, on the channel that was open; and otherwise leaves. Nothing else moves.
  lemma PlainTurn(s: State, o: nat, claim: Outcome, attached: bool)
    requires ResolveEnabled(s, o, claim) && (Resolved(s, o).Found? ==> !Resolved(s, o).gen.consume)
    ensures var r, h, t := Resolved(s, o), s.ops[o].h, ResolveNext(s, o, claim, attached);
            && o in t.ops && t == s.SetOp(o, t.ops[o])
            && (r.Found? && attached ==> Attaches(t, o) && t.ops[o].rstage == Reading(r.gen.id, false) && t.ops[o].h == h)
            && (r == NotFound && s.ops[o].wait ==> t.ops[o].Opening? && t.ops[o].rstage == Parked(s.handles[h].notify)
                                                   && t.ops[o].h == h)
            && ((r.Found? && !attached) || r == AlreadyConsumed || (r == NotFound && !s.ops[o].wait) ==> t.ops[o] == Leaving(h))
  {
    hide Resolve, ResolveNext;
    ResolveClaimsNothing(s, o, claim, attached);
  }

  // One turn of an open that found a consume-once value. A request canceled by then, or a claim whose rename did not take,
  // leaves the value for another reader. A claim that took takes it from its name for good as far as any reader goes; it is
  // handed over, once, exactly if it is durable and its reader opened, and is otherwise this open's to destroy.
  lemma ClaimingTurn(s: State, o: nat, claim: Outcome, attached: bool)
    requires Inv(s) && ResolveEnabled(s, o, claim) && Resolved(s, o).Found? && Resolved(s, o).gen.consume
    ensures var g, h, t := Resolved(s, o).gen, s.ops[o].h, ResolveNext(s, o, claim, attached);
            && Value(s, s.handles[h].name) == Some(g) && o in t.ops
            && if s.ops[o].canceled || claim == NeverTook then t == s.SetOp(o, Leaving(h))
               else
                 && Value(t, s.handles[h].name).None?
                 && (if claim == TookDurable && attached then
                       Attaches(t, o) && t.ops[o].rstage == Reading(g.id, true) && t.delivered == s.delivered + multiset{g.id}
                     else t.ops[o] == Owing(h, g.id, true) && t.delivered == s.delivered)
                 && (g.id in t.gone <==> claim == TookDurable || g.id in s.gone)
  {
    hide Inv, Resolved, ResolveNext, ClaimNext, Value;
    FoundIsTheSlots(s, o);
    ResolveUnfolds(s, o, claim, attached);
    ClaimableIsTheValue(s, o);
    if s.ops[o].canceled || claim == NeverTook {
      ResolveGivesUp(s, o, claim, attached);
    } else {
      ClaimEmptiesTheName(s, o, claim, attached);
      ClaimHandsOver(s, o, claim, attached);
    }
  }

  lemma ClaimableIsTheValue(s: State, o: nat)
    requires Inv(s) && IsResolving(s, o) && Claimable(Resolved(s, o))
    requires s.handles[s.ops[o].h].slot.current == Some(Resolved(s, o).gen)
    ensures Value(s, s.handles[s.ops[o].h].name) == Some(Resolved(s, o).gen)
  {
    hide OwnInv, GateInv, QuotaInv, StoreInv, Counted, Resolved;
    LeasePins(s, o);
  }

  lemma ClaimEmptiesTheName(s: State, o: nat, claim: Outcome, attached: bool)
    requires Inv(s) && Claims(s, o, claim)
    ensures Value(ResolveNext(s, o, claim, attached), s.handles[s.ops[o].h].name).None?
  {
    hide GateInv, QuotaInv, StoreInv, LeaseInv, OpsWell, OneOwner, NoneLost, Value, ResolveNext, Resolved;
    var name := s.handles[s.ops[o].h].name;
    ResolveRefines(s, o, claim, attached, name);
    ResolveEffect(s, o, claim, attached);
  }

  lemma ClaimHandsOver(s: State, o: nat, claim: Outcome, attached: bool)
    requires Claims(s, o, claim) && s.handles[s.ops[o].h].slot.current == Some(Resolved(s, o).gen)
    ensures var op := s.ops[o].(cursor := CursorOf(s.ops[o], s.handles[s.ops[o].h].slot));
            var g, t := Resolved(s, o).gen, ClaimNext(s, o, op, Resolved(s, o).gen, claim, attached);
            && o in t.ops && t.gone == (if claim == TookDurable then s.gone + {g.id} else s.gone)
            && if claim == TookDurable && attached then
                 t.ops[o] == op.(rstage := Reading(g.id, true)) && t.delivered == s.delivered + multiset{g.id}
               else t.ops[o] == Owing(op.h, g.id, true) && t.delivered == s.delivered
  {
    hide Resolved, GenDir.Commit, Claim;
  }

  // -------------------------------------------------------------------------
  // Deletes and sweeps
  // -------------------------------------------------------------------------

  // A delete takes its name's value exactly if that was unexpired when the delete began and its rename took, and no other
  // name's; it reclaims what it took and reports it gone for good exactly if the rename was flushed.
  lemma DeleteOutcome(s: State, o: nat, outcome: Outcome, name: string)
    requires Inv(s) && DeleteEnabled(s, o, outcome)
    ensures var h, t := s.ops[o].h, DeleteNext(s, o, outcome);
            var v := Value(s, s.handles[h].name);
            var takes := outcome != NeverTook && Unexpired(v, s.ops[o].at);
            && Value(t, name) == (if takes && name == s.handles[h].name then None else Value(s, name))
            && o in t.ops && t.ops[o] == (if takes then Owing(h, v.value.id, false) else Leaving(h))
            && t.gone == s.gone + (if takes && outcome == TookDurable then {v.value.id} else {})
  {
    hide OwnInv, GateInv, QuotaInv, StoreInv, LeaseInv, Value, PresentCurrent, RetireNext;
    var target := PresentCurrent(s.handles[s.ops[o].h].slot, s.ops[o].at);
    PresentIsUnexpired(s, o, s.ops[o].at);
    PresentIsFinal(s.handles[s.ops[o].h].slot, s.ops[o].at);
    RetireRefines(s, o, target, outcome, name);
    RetireLeaves(s, o, target, outcome);
  }

  lemma PresentIsUnexpired(s: State, o: nat, at: int)
    requires LeaseInv(s) && At(s, o)
    ensures var v := Value(s, s.handles[s.ops[o].h].name);
            && PresentCurrent(s.handles[s.ops[o].h].slot, at) == (if Unexpired(v, at) then v else None)
            && ExpiredCurrent(s.handles[s.ops[o].h].slot, at) == (if Unexpired(v, at) then None else v)
  {
    LeasePins(s, o);
  }

  lemma PresentIsFinal(slot: Slot, at: int)
    ensures var p := PresentCurrent(slot, at); p.Some? ==> slot.current == p && p.value.state == GenFinalized
  {
  }

  lemma RetireLeaves(s: State, o: nat, target: Option<Generation>, outcome: Outcome)
    requires At(s, o) && RenamesMarker(s, target, outcome) && (target.Some? ==> s.handles[s.ops[o].h].slot.current == target)
    ensures var h, t := s.ops[o].h, RetireNext(s, o, s.ops[o].h, target, outcome);
            var takes := outcome != NeverTook && target.Some?;
            && o in t.ops && t.ops[o] == (if takes then Owing(h, target.value.id, false) else Leaving(h))
            && t.gone == s.gone + (if takes && outcome == TookDurable then {target.value.id} else {})
  {
    hide GenDir.Commit, Retire;
  }

  // A sweep sees every value past its deadline as of its own instant, by name and id, and no other; and it can go back for it.
  lemma SweepsSeeTheExpired(s: State, sweep: nat, o: nat, n: string)
    requires Inv(s) && s.up && sweep in s.ops && s.ops[sweep].Sweeping? && o !in s.ops && Value(s, n).Some?
    ensures Enabled(s, Observe(o, sweep, s.reg[n])) <==> !Unexpired(Value(s, n), s.ops[sweep].at)
    ensures ObserveEnabled(s, o, sweep, s.reg[n]) <==> !Unexpired(Value(s, n), s.ops[sweep].at)
    ensures ObserveEnabled(s, o, sweep, s.reg[n]) ==>
              && var t := ObserveNext(s, o, sweep, s.reg[n]);
              && o in t.ops && t.ops[o] == Observed(s.ops[sweep].at, n, Value(s, n).value.id)
              && ReapBeginEnabled(t, o, t.reg[n]) && ReapBeginNext(t, o, t.reg[n]).ops[o]
                                                     == Reaping(s.reg[n], s.ops[sweep].at, Value(s, n).value.id)
  {
    hide OwnInv, GateInv, QuotaInv, Counted, Enabled;
    SlotNamesItsValue(s, s.reg[n]);
    ObservesHere(s, o, sweep, s.reg[n]);
  }

  lemma ObservesHere(s: State, o: nat, sweep: nat, h: nat)
    ensures Enabled(s, Observe(o, sweep, h)) <==> ObserveEnabled(s, o, sweep, h)
  {
  }

  lemma SlotNamesItsValue(s: State, h: nat)
    requires Inv(s) && h in s.handles && s.handles[h].slot.current.Some?
    ensures s.handles[h].slot.current.value.name == s.handles[h].name
  {
    hide LeaseInv, GateInv, QuotaInv, StoreInv, OpsWell, OneOwner, NoneLost;
    assert SlotWell(s, h);
  }

  // A reap takes its name's value exactly if that is still the generation the sweep saw, its rename took, and it was past
  // its deadline at the sweep's instant; and then owes its reclamation.
  lemma ReapOutcome(s: State, o: nat, outcome: Outcome, name: string)
    requires Inv(s) && ReapEnabled(s, o, outcome)
    ensures var h, t := s.ops[o].h, ReapNext(s, o, outcome);
            var v := Value(s, s.handles[h].name);
            var takes := outcome != NeverTook && v.Some? && v.value.id == s.ops[o].id && !Unexpired(v, s.ops[o].at);
            && Value(t, name) == (if takes && name == s.handles[h].name then None else Value(s, name))
            && o in t.ops && t.ops[o] == (if takes then Owing(h, v.value.id, false) else Leaving(h))
  {
    hide OwnInv, GateInv, QuotaInv, StoreInv, LeaseInv, Value, ExpiredCurrent, RetireNext;
    var target := ReapTarget(s.handles[s.ops[o].h].slot, s.ops[o].at, s.ops[o].id);
    PresentIsUnexpired(s, o, s.ops[o].at);
    ExpiredIsFinal(s.handles[s.ops[o].h].slot, s.ops[o].at);
    RetireRefines(s, o, target, outcome, name);
    RetireLeaves(s, o, target, outcome);
  }

  lemma ExpiredIsFinal(slot: Slot, at: int)
    ensures var p := ExpiredCurrent(slot, at); p.Some? ==> slot.current == p && p.value.state == GenFinalized
  {
  }

  // -------------------------------------------------------------------------
  // Reclamations and aborts
  // -------------------------------------------------------------------------

  // A reclamation gives back one clip and all its bytes whatever the disk did, and as far as the disk went -- nothing, the
  // marker, the data, both, or the whole directory -- the running machine no longer sees it; no other directory and no value
  // moves.
  lemma ReclaimOutcome(s: State, o: nat, removal: Removal, name: string)
    requires Inv(s) && IsOwing(s, o)
    ensures var t, g := ReclaimNext(s, o, removal), s.ops[o].g;
            && t.clips == s.clips - 1 && t.bytes == s.bytes - |s.logs[g].bytes| && t.extant == s.extant - {g}
            && g in t.disk && t.disk == s.disk[g := t.disk[g]] && Value(t, name) == Value(s, name)
            && (removal in {RemovedMarker, RemovedFiles, RemovedAll} ==> t.disk[g].marker.now.None?)
            && (removal in {RemovedData, RemovedFiles, RemovedAll} ==> !t.disk[g].data.now)
            && (removal == RemovedAll ==> !t.disk[g].link.now) && (removal == RemovedNothing ==> t.disk == s.disk)
  {
    hide OwnInv, GateInv, QuotaInv, StoreInv, LeaseInv, Value;
    ReclaimKeepsValue(s, o, removal, name);
    assert s.disk[s.ops[o].g := s.disk[s.ops[o].g]] == s.disk;
  }

  // Retiring a publish that took: if the rename aside took, the marker is gone from its name, and if it is durable no crash
  // returns it; if it did not, the directory is as it was. Then the upload is to be discarded.
  lemma AbortOutcome(s: State, o: nat, outcome: Outcome)
    requires UploadEnabled(s, o, AbortPublish(outcome))
    ensures var t, g := AbortPublishNext(s, o, outcome), s.ops[o].g;
            && g in t.disk && t.disk == s.disk[g := t.disk[g]] && Enabled(t, Upload(o, Discard))
            && (outcome == NeverTook ==> t.disk == s.disk && t.gone == s.gone)
            && (outcome != NeverTook ==> t.disk[g].marker.now.None?)
            && (outcome == TookDurable ==> t.disk[g].Sealed() && t.gone == s.gone + {g})
  {
    assert s.disk[s.ops[o].g := s.disk[s.ops[o].g]] == s.disk;
  }

  // -------------------------------------------------------------------------
  // An acknowledged write stands until something takes its place
  // -------------------------------------------------------------------------

  // What a step adds to the generations that have ended.
  ghost predicate Ends(s: State, t: State, e: Effect) {
    match e
    case Keep => t.ended == s.ended
    case Put(n, _) =>
      && n in s.reg && s.reg[n] in s.handles
      && var slot := s.handles[s.reg[n]].slot;
         t.ended == s.ended + if slot.current.Some? then {slot.current.value.id} else {}
    case Take(n) => Value(s, n).Some? && t.ended == s.ended + {Value(s, n).value.id}
  }

  lemma FlipEnds(s: State, o: nat)
    requires LeaseInv(s) && IsFlipping(s, o)
    ensures Ends(s, FlipNext(s, o), EffectOf(s, Upload(o, FlipCurrent)))
  {
    hide Finalize;
    LeasePins(s, o);
  }

  lemma AdmitEndsNothing(s: State, o: nat, tail: Option<Uint64>, made: bool)
    requires AdmitEnabled(s, o, tail)
    ensures AdmitNext(s, o, tail, made).ended == s.ended
  {
    hide ClockAhead, Admission, NewGeneration, Install;
  }

  lemma AppendEndsNothing(s: State, o: nat, stored: nat)
    requires UploadEnabled(s, o, Append(stored))
    ensures AppendNext(s, o, stored).ended == s.ended
  {
    hide GenDir.Append;
  }

  lemma SyncEndsNothing(s: State, o: nat, ok: bool)
    requires IsWriting(s, o)
    ensures SyncBytesNext(s, o, ok).ended == s.ended
  {
    hide GenDir.SyncData;
  }

  lemma PublishEndsNothing(s: State, o: nat, outcome: Outcome)
    requires IsPublishing(s, o)
    ensures PublishNext(s, o, outcome).ended == s.ended
  {
    hide GenDir.Commit, RecordOf, Finalize;
  }

  lemma AbortEndsNothing(s: State, o: nat, outcome: Outcome)
    requires IsWriting(s, o)
    ensures AbortPublishNext(s, o, outcome).ended == s.ended
  {
    hide GenDir.Commit;
  }

  lemma TerminalEndsNothing(s: State, o: nat, u: UploadStep)
    requires UploadEnabled(s, o, u) && (u.FinishLog? || u.Discard? || u.TearLog?)
    ensures UploadNext(s, o, u).ended == s.ended
  {
    hide AdmitEnabled, AdmitNext, ReserveNext, AppendNext, ReturnTailNext, SyncBytesNext, PublishNext, FlipNext, AbortPublishNext;
  }

  lemma CountEndsNothing(s: State, o: nat, u: UploadStep)
    requires UploadEnabled(s, o, u) && (u.Reserve? || u.ReturnTail?)
    ensures UploadNext(s, o, u).ended == s.ended
  {
    hide AdmitEnabled, AdmitNext, AppendNext, SyncBytesNext, PublishNext, FlipNext, FinishLogNext, AbortPublishNext, DiscardNext,
         TearLogNext;
  }

  lemma UploadEnds(s: State, o: nat, u: UploadStep)
    requires LeaseInv(s) && UploadEnabled(s, o, u)
    ensures Ends(s, UploadNext(s, o, u), EffectOf(s, Upload(o, u)))
  {
    hide LeaseInv, FlipNext, AdmitEnabled, AdmitNext, ReserveNext, AppendNext, ReturnTailNext, SyncBytesNext, PublishNext,
         FinishLogNext, AbortPublishNext, DiscardNext, TearLogNext, Finalize;
    match u
    case Admit(tail, made) => AdmitEndsNothing(s, o, tail, made);
    case FlipCurrent => FlipEnds(s, o);
    case Append(stored) => AppendEndsNothing(s, o, stored);
    case SyncBytes(ok) => SyncEndsNothing(s, o, ok);
    case Publish(outcome) => PublishEndsNothing(s, o, outcome);
    case AbortPublish(outcome) => AbortEndsNothing(s, o, outcome);
    case Reserve(_) => CountEndsNothing(s, o, u);
    case ReturnTail => CountEndsNothing(s, o, u);
    case FinishLog => TerminalEndsNothing(s, o, u);
    case Discard => TerminalEndsNothing(s, o, u);
    case TearLog => TerminalEndsNothing(s, o, u);
  }

  lemma ClaimEndsTheValue(s: State, o: nat, claim: Outcome, attached: bool)
    requires Inv(s) && Claims(s, o, claim)
    ensures Ends(s, ResolveNext(s, o, claim, attached), Take(s.handles[s.ops[o].h].name))
  {
    hide Inv, Resolved, ResolveNext, ClaimNext, Value, RenamesMarker, Claim, GenDir.Commit;
    FoundIsTheSlots(s, o);
    ClaimableIsTheValue(s, o);
    ResolveUnfolds(s, o, claim, attached);
    ClaimTakesExactly(s, o, s.ops[o].(cursor := CursorOf(s.ops[o], s.handles[s.ops[o].h].slot)), Resolved(s, o).gen, claim,
                      attached);
  }

  lemma UnclaimedEndsNothing(s: State, o: nat, claim: Outcome, attached: bool)
    requires ResolveEnabled(s, o, claim) && !Claims(s, o, claim)
    ensures ResolveNext(s, o, claim, attached).ended == s.ended
  {
    hide Resolved, ResolveNext, ClaimNext, RenamesMarker;
    if Claimable(Resolved(s, o)) {
      ResolveGivesUp(s, o, claim, attached);
    } else {
      ResolveClaimsNothing(s, o, claim, attached);
    }
  }

  lemma ResolveEnds(s: State, o: nat, claim: Outcome, attached: bool)
    requires Inv(s) && ResolveEnabled(s, o, claim)
    ensures Ends(s, ResolveNext(s, o, claim, attached), if Claims(s, o, claim) then Take(s.handles[s.ops[o].h].name) else Keep)
  {
    hide Inv, Resolved, ResolveNext, Value, RenamesMarker;
    if Claims(s, o, claim) {
      ClaimEndsTheValue(s, o, claim, attached);
    } else {
      UnclaimedEndsNothing(s, o, claim, attached);
    }
  }

  lemma RetireEnds(s: State, o: nat, target: Option<Generation>, outcome: Outcome)
    requires LeaseInv(s) && At(s, o) && RenamesMarker(s, target, outcome)
    requires target.Some? ==> s.handles[s.ops[o].h].slot.current == target && target.value.state == GenFinalized
    ensures Ends(s, RetireNext(s, o, s.ops[o].h, target, outcome),
                 if outcome != NeverTook && target.Some? then Take(s.handles[s.ops[o].h].name) else Keep)
  {
    hide GenDir.Commit, Retire;
    LeasePins(s, o);
  }

  lemma StepEnds(s: State, step: Step)
    requires Inv(s) && s.up && Enabled(s, step) && !IsRestartStep(step)
    ensures Ends(s, Next(s, step), EffectOf(s, step))
  {
    hide OwnInv, GateInv, QuotaInv, StoreInv, LeaseInv, UploadEnabled, UploadNext, ResolveEnabled, ResolveNext, RetireNext,
         Ends, Value, GenDir.Remove, Clear, ValidName;
    match step
    case Upload(o, u) => UploadEnds(s, o, u);
    case ResolveOpen(o, claim, attached) => ResolveEffect(s, o, claim, attached); ResolveEnds(s, o, claim, attached);
    case DeleteCurrent(o, outcome) =>
      PresentIsFinal(s.handles[s.ops[o].h].slot, s.ops[o].at);
      RetireEnds(s, o, PresentCurrent(s.handles[s.ops[o].h].slot, s.ops[o].at), outcome);
    case ReapCurrent(o, outcome) =>
      ExpiredIsFinal(s.handles[s.ops[o].h].slot, s.ops[o].at);
      RetireEnds(s, o, ReapTarget(s.handles[s.ops[o].h].slot, s.ops[o].at, s.ops[o].id), outcome);
    case _ => RestEnds(s, step);
  }

  lemma RestEnds(s: State, step: Step)
    requires Enabled(s, step) && !IsRestartStep(step)
    requires !step.Upload? && !step.ResolveOpen? && !step.DeleteCurrent? && !step.ReapCurrent?
    ensures Ends(s, Next(s, step), EffectOf(s, step))
  {
    hide GenDir.Remove, Clear, ValidName, Value;
  }

  // While the store serves, a write whose Close returned nil stops being its name's value at a step exactly when that step ends
  // it: a later write's flip, a claim, a delete or a reap of that name that took. No step of another name, no failed upload
  // and no reclamation does.
  lemma AcknowledgedEndsWithItsValue(s: State, step: Step, g: GenId)
    requires Inv(s) && s.up && Enabled(s, step) && !IsRestartStep(step) && g in s.acked && g !in s.ended
    ensures g in s.minted && Value(s, s.minted[g]).Some? && Value(s, s.minted[g]).value.id == g
    ensures var v := Value(Next(s, step), s.minted[g]);
            && (g in Next(s, step).ended <==> v.None? || v.value.id != g)
            && (g in Next(s, step).ended <==> match EffectOf(s, step)
                                              case Keep => false
                                              case Put(n, _) => n == s.minted[g]
                                              case Take(n) => n == s.minted[g])
  {
    hide Inv, Enabled, Next, Value, EffectOf, IsRestartStep, Reachable;
    AcknowledgedIsTheValue(s, g);
    StepEnds(s, step);
    StepIsNoStop(step);
    StepRefinesTheValue(s, step, s.minted[g]);
    match EffectOf(s, step)
    case Keep =>
    case Put(n, v) => PutEnds(s, step, n, v, g);
    case Take(n) => ValueIsItsNames(s, n);
  }

  lemma StepIsNoStop(step: Step)
    requires !IsRestartStep(step)
    ensures !step.Crash? && !step.Kill?
  {
  }

  lemma ValueIsItsNames(s: State, n: string)
    requires Inv(s) && Value(s, n).Some?
    ensures Value(s, n).value.id in s.minted && s.minted[Value(s, n).value.id] == n
  {
    hide GateInv, QuotaInv, StoreInv, OpsWell, NoneLost, OneOwner;
    assert SlotWell(s, s.reg[n]);
  }

  lemma PutEnds(s: State, step: Step, n: string, v: Generation, g: GenId)
    requires Inv(s) && s.up && Enabled(s, step) && EffectOf(s, step) == Put(n, v) && Ends(s, Next(s, step), Put(n, v))
    requires g in s.minted && g !in s.ended && Value(s, s.minted[g]).Some? && Value(s, s.minted[g]).value.id == g
    ensures v.id != g && (g in Next(s, step).ended <==> n == s.minted[g])
  {
    hide GateInv, QuotaInv, StoreInv, OpsWell, NoneLost, OneOwner, Counted, Next, RecordOf;
    assert step.Upload? && step.u.FlipCurrent?;
    WrittenIsOnlyLive(s, step.o, s.ops[step.o].g);
    assert SlotWell(s, s.reg[n]);
  }

  // -------------------------------------------------------------------------
  // Every operation can end
  // -------------------------------------------------------------------------

  // A step that brings the operation nearer its end, whatever else is in flight and with the disk refusing all it may refuse;
  // `spare` is a handle number not in use.
  function Exit(s: State, o: nat, spare: nat): Step
    requires o in s.ops && !s.ops[o].Sweeping?
  {
    match s.ops[o]
    case Creating(_, _, _) => Upload(o, Admit(None, false))
    case Writing(_, _, _, stage) =>
      (match stage
       case Idle => Upload(o, Discard)
       case Reserved(_) => Upload(o, Append(0))
       case ShortBy(_) => Upload(o, ReturnTail)
       case Synced(_) => Upload(o, Publish(NeverTook))
       case Published(_) => Upload(o, FlipCurrent)
       case Failing(took) => Upload(o, if took then AbortPublish(NeverTook) else Discard))
    case Finishing(_, _, _) => Upload(o, FinishLog)
    case Tearing(_, _) => Upload(o, TearLog)
    case Opening(_, _, _, _, canceled, _, rstage) =>
      (match rstage
       case Resolving => ResolveOpen(o, NeverTook, false)
       case Parked(_) => if canceled then WakeUp(o) else Cancel(o)
       case Reading(_, _) => CloseReader(o))
    case Deleting(_, _) => DeleteCurrent(o, NeverTook)
    case Observed(_, name, _) => ReapBegin(o, if name in s.reg then s.reg[name] else spare)
    case Reaping(_, _, _) => ReapCurrent(o, NeverTook)
    case Owing(_, _, _) => Reclaim(o, RemovedNothing)
    case Clearing(_, _) => ClearCurrent(o)
    case Leaving(_) => Release(o)
  }

  // How far an operation is from its end, a waiter's cancel included.
  function Remaining(op: Op): nat {
    2 * Distance(op) + if op.Opening? && !op.canceled then 1 else 0
  }

  lemma {:induction false} Above(used: set<nat>) returns (b: nat)
    ensures forall k | k in used :: k < b
    decreases |used|
  {
    b := 0;
    if used != {} {
      var k :| k in used;
      b := Above(used - {k});
      assert forall j | j in used :: j == k || j in used - {k};
      if b <= k {
        b := k + 1;
      }
    }
  }

  lemma ExitIsIts(s: State, o: nat, spare: nat)
    requires o in s.ops && !s.ops[o].Sweeping?
    ensures Actor(Exit(s, o, spare)) == Some(o)
  {
  }

  lemma ExitIsEnabled(s: State, o: nat, spare: nat)
    requires Reachable(s) && s.up && o in s.ops && !s.ops[o].Sweeping? && spare !in s.handles
    ensures Enabled(s, Exit(s, o, spare))
  {
    hide Reachable, ResolveEnabled, DeleteEnabled, ReapEnabled, IsPublishing, IsFlipping, IsWriting, IsFinishing, IsTearing,
         IsOwing;
    if s.ops[o].Leased() {
      ReclaimersAreNeverStuck(s, o);
    } else {
      ObservedIsEnabled(s, o, spare);
    }
    if s.ops[o].Writing? {
      WritersAreNeverStuck(s, o);
      WritersHaveTheirs(s, o);
    } else if s.ops[o].Deleting? || s.ops[o].Reaping? {
      RetiresAreNeverStuck(s, o, NeverTook);
    } else if s.ops[o].Opening? && s.ops[o].rstage.Resolving? {
      ReadersAreNeverStuck(s, o, NeverTook);
    }
  }

  lemma WritersHaveTheirs(s: State, o: nat)
    requires o in s.ops && s.ops[o].Writing? && WriterMayGoOn(s, o)
    ensures IsWriting(s, o)
  {
  }

  lemma ObservedIsEnabled(s: State, o: nat, spare: nat)
    requires Reachable(s) && s.up && o in s.ops && s.ops[o].Observed? && spare !in s.handles
    ensures Enabled(s, Exit(s, o, spare))
  {
    hide Reachable, OwnInv, GateInv, QuotaInv, StoreInv, Counted;
    ReachableInv(s);
  }

  lemma UploadMoves(s: State, o: nat, u: UploadStep)
    requires UploadEnabled(s, o, u)
    ensures Moves(s, UploadNext(s, o, u), o)
  {
    hide Moves, Quiet, AdmitNext, AdmitEnabled, AppendNext, PublishNext, FlipNext, DiscardNext, RecordOf, Finalize;
    match u
    case Admit(tail, made) => AdmitMoves(s, o, tail, made);
    case Reserve(chunk) => ReserveIsQuiet(s, o, chunk); QuietIsAMove(s, ReserveNext(s, o, chunk), o);
    case Append(stored) => AppendIsQuiet(s, o, stored); QuietIsAMove(s, AppendNext(s, o, stored), o);
    case ReturnTail => ReturnTailIsQuiet(s, o); QuietIsAMove(s, ReturnTailNext(s, o), o);
    case SyncBytes(ok) => SyncBytesIsQuiet(s, o, ok); QuietIsAMove(s, SyncBytesNext(s, o, ok), o);
    case Publish(outcome) => PublishIsQuiet(s, o, outcome); QuietIsAMove(s, PublishNext(s, o, outcome), o);
    case FlipCurrent => FlipMoves(s, o);
    case FinishLog => FinishLogIsQuiet(s, o); QuietIsAMove(s, FinishLogNext(s, o), o);
    case AbortPublish(outcome) => AbortPublishIsQuiet(s, o, outcome); QuietIsAMove(s, AbortPublishNext(s, o, outcome), o);
    case Discard => DiscardMoves(s, o);
    case TearLog => TearLogIsQuiet(s, o); QuietIsAMove(s, TearLogNext(s, o), o);
  }

  // Nothing but operation `o` moved, and the store still serves.
  predicate OnlyMoves(s: State, t: State, o: nat) {
    t.up == s.up && t.ops - {o} == s.ops - {o} && (o in t.ops ==> !t.ops[o].Sweeping?)
  }

  lemma MovesOnly(s: State, t: State, o: nat)
    requires Moves(s, t, o)
    ensures OnlyMoves(s, t, o)
  {
  }

  // The operation whose step this is.
  function Actor(step: Step): Option<nat> {
    match step
    case Upload(o, _) => Some(o)
    case Reclaim(o, _) => Some(o)
    case ClearCurrent(o) => Some(o)
    case Release(o) => Some(o)
    case ResolveOpen(o, _, _) => Some(o)
    case WakeUp(o) => Some(o)
    case Cancel(o) => Some(o)
    case CloseReader(o) => Some(o)
    case DeleteCurrent(o, _) => Some(o)
    case ReapBegin(o, _) => Some(o)
    case ReapCurrent(o, _) => Some(o)
    case _ => None
  }

  lemma RetireMovesOnly(s: State, o: nat, target: Option<Generation>, outcome: Outcome)
    requires At(s, o) && RenamesMarker(s, target, outcome) && (target.Some? ==> s.handles[s.ops[o].h].slot.current == target)
    ensures OnlyMoves(s, RetireNext(s, o, s.ops[o].h, target, outcome), o)
  {
    hide RetireNext, Moves, OnlyMoves, RenamesMarker;
    RetireMoves(s, o, s.ops[o].h, target, outcome);
    MovesOnly(s, RetireNext(s, o, s.ops[o].h, target, outcome), o);
  }

  lemma StepMovesOnly(s: State, step: Step, o: nat)
    requires Enabled(s, step) && Actor(step) == Some(o)
    ensures OnlyMoves(s, Next(s, step), o)
  {
    hide UploadEnabled, UploadNext, ResolveEnabled, ResolveNext, RetireNext, ReclaimNext, ClearNext, OnlyMoves, Moves;
    if step.Upload? {
      UploadMoves(s, o, step.u);
      MovesOnly(s, UploadNext(s, o, step.u), o);
    } else if step.ResolveOpen? {
      ResolveMoves(s, o, step.claim, step.attached);
      MovesOnly(s, ResolveNext(s, o, step.claim, step.attached), o);
    } else if step.DeleteCurrent? {
      RetireMovesOnly(s, o, PresentCurrent(s.handles[s.ops[o].h].slot, s.ops[o].at), step.outcome);
    } else if step.ReapCurrent? {
      RetireMovesOnly(s, o, ReapTarget(s.handles[s.ops[o].h].slot, s.ops[o].at, s.ops[o].id), step.outcome);
    } else if step.Reclaim? {
      ReclaimMoves(s, o, step.removal);
      MovesOnly(s, ReclaimNext(s, o, step.removal), o);
    } else if step.ClearCurrent? {
      ClearMoves(s, o);
      MovesOnly(s, ClearNext(s, o), o);
    } else {
      StageMovesOnly(s, step, o);
    }
  }

  lemma StageMovesOnly(s: State, step: Step, o: nat)
    requires Enabled(s, step) && Actor(step) == Some(o)
    requires step.ReapBegin? || step.Release? || step.WakeUp? || step.Cancel? || step.CloseReader?
    ensures OnlyMoves(s, Next(s, step), o)
  {
  }

  lemma CancelKeepsDistance(op: Op)
    requires op.Opening?
    ensures Distance(op.(canceled := true)) == Distance(op)
  {
  }

  lemma ExitDescends(s: State, o: nat, spare: nat)
    requires o in s.ops && !s.ops[o].Sweeping? && Enabled(s, Exit(s, o, spare))
    ensures var t := Next(s, Exit(s, o, spare)); o in t.ops ==> Remaining(t.ops[o]) < Remaining(s.ops[o])
  {
    hide UploadEnabled, UploadNext, ResolveEnabled, ResolveNext, RetireNext, ReclaimNext, ClearNext, ReleaseNext, Distance;
    var step := Exit(s, o, spare);
    if step.Cancel? {
      CancelKeepsDistance(s.ops[o]);
    } else {
      OwnStepsDescend(s, step);
    }
  }

  // From any state of a store that serves, whatever else is in flight, any operation can be run to its end by steps of its own
  // (a waiter's beginning with its cancel), whatever the disk refuses: no upload, read, delete or reap can be left holding its
  // lease, its name or its footprint for want of anything another operation does.
  lemma {:induction false} EveryOperationCanEnd(s: State, o: nat) returns (steps: seq<Step>, t: State)
    requires Reachable(s) && s.up && o in s.ops && !s.ops[o].Sweeping?
    ensures Run(s, steps, t) && t.up && t.ops == s.ops - {o}
    decreases Remaining(s.ops[o])
  {
    hide Reachable, Enabled, Next, Exit, Remaining, Actor;
    var spare := Above(s.handles.Keys);
    var step := Exit(s, o, spare);
    ExitIsEnabled(s, o, spare);
    ExitIsIts(s, o, spare);
    StepMovesOnly(s, step, o);
    ExitDescends(s, o, spare);
    OneStep(s, step);
    var m := Next(s, step);
    if o in m.ops {
      var rest;
      rest, t := EveryOperationCanEnd(m, o);
      steps := [step] + rest;
      assert steps[1..] == rest;
    } else {
      steps, t := [step], m;
      assert steps[1..] == [] && Run(m, [], m);
    }
  }

  // -------------------------------------------------------------------------
  // And every request can begin
  // -------------------------------------------------------------------------

  lemma AcquiredStarts(s: State, o: nat, h: nat, name: string, req: Request)
    requires Registered(s) && s.MayAcquire(o, h, name)
    ensures var t := Next(s, Begin(o, h, name, req));
            o in t.ops && t.ops[o] == Start(req, h, s.now) && h in t.handles && t.handles[h].name == name
  {
    hide ValidName, Start;
  }

  lemma SweepMayBegin(s: State, o: nat)
    requires s.up && o !in s.ops
    ensures Enabled(s, SweepBegin(o)) && Next(s, SweepBegin(o)) == s.(ops := s.ops[o := Sweeping(s.now)])
  {
  }

  // Whatever a store that serves is doing, any request on any valid name can begin, on the handle its name already has if any, and
  // so can a sweep, as of that instant.
  lemma EveryRequestCanBegin(s: State, name: string, req: Request) returns (o: nat, h: nat)
    requires Reachable(s) && s.up && ValidName(name)
    ensures o !in s.ops && Enabled(s, Begin(o, h, name, req)) && (name in s.reg ==> h == s.reg[name])
    ensures var t := Next(s, Begin(o, h, name, req));
            o in t.ops && t.ops[o] == Start(req, h, s.now) && h in t.handles && t.handles[h].name == name
    ensures Enabled(s, SweepBegin(o)) && Next(s, SweepBegin(o)) == s.(ops := s.ops[o := Sweeping(s.now)])
  {
    hide Reachable, OwnInv, GateInv, QuotaInv, StoreInv, Counted, ValidName, Start, Next;
    ReachableInv(s);
    o := Above(s.ops.Keys);
    SweepMayBegin(s, o);
    h := Above(s.handles.Keys);
    if name in s.reg {
      h := s.reg[name];
    }
    AcquiredStarts(s, o, h, name, req);
  }

  lemma FirstBegins(s: State, name: string, meta: Meta, opts: PutOpts) returns (a: State)
    requires Init(s) && ValidName(name)
    ensures Enabled(s, Begin(0, 0, name, Create(opts, meta))) && a == Next(s, Begin(0, 0, name, Create(opts, meta)))
    ensures a == s.(handles := map[0 := Handle(name, 1, Slot(None, None, 0), 0)], reg := map[name := 0],
                    ops := map[0 := Creating(0, opts, Normalized(meta))])
  {
    hide ValidName, Normalized;
    a := Next(s, Begin(0, 0, name, Create(opts, meta)));
  }

  lemma FirstIsAdmitted(s: State, a: State, name: string, meta: Meta, opts: PutOpts, tail: Uint64)
    requires Init(s) && opts.ifMatch == "" && 0 < s.now <= MAX_UINT64
    requires a == s.(handles := map[0 := Handle(name, 1, Slot(None, None, 0), 0)], reg := map[name := 0],
                     ops := map[0 := Creating(0, opts, meta)])
    ensures Admits(a, 0, Some(tail)) && FreshId(a, 0, tail) == GenId(s.now, tail)
    ensures var admit := Upload(0, Admit(Some(tail), true));
            Enabled(a, admit) && Next(a, admit) == AdmitNext(a, 0, Some(tail), true)
    ensures var b := AdmitNext(a, 0, Some(tail), true);
            && b.now == s.now && b.bytes == 0 && b.cfg == s.cfg
            && (forall chunk :: UploadEnabled(b, 0, Reserve(chunk)))
            && b.ops[0].g == GenId(s.now, tail) && b.ops[0].h == 0 && b.logs[GenId(s.now, tail)].bytes == []
            && b.handles.Keys == {0} && b.handles[0].name == name
  {
    assert ClockPrefix(s.now) == s.now;
  }

  lemma FirstIsUnexpired(a: State, tail: Uint64, steps: seq<Step>, t: State, name: string)
    requires Reachable(a) && Admits(a, 0, Some(tail)) && Run(AdmitNext(a, 0, Some(tail), true), steps, t)
    requires Value(t, name).Some? && Value(t, name).value.id == FreshId(a, a.ops[0].h, tail)
    requires Value(t, name).value.finalized == a.now
    ensures Unexpired(Value(t, name), a.now)
  {
    hide Reachable, Run, ClockAhead, Admission, AdmitNext;
    GenerationIsWhatWasAsked(a, 0, Some(tail), steps, t, t.reg[name], Value(t, name).value);
  }

  lemma InitIsReachable(s: State)
    requires Init(s)
    ensures Reachable(s)
  {
    hide Init;
    assert Run(s, [], s);
  }

  // Even an empty store's: a first write of a name, within the caps, is its name's value, whole, when its Close returns.
  lemma FirstWriteIsItsNamesValue(s: State, name: string, meta: Meta, opts: PutOpts, tail: Uint64, chunk: seq<Byte>)
    returns (steps: seq<Step>, t: State)
    requires Init(s) && ValidName(name) && opts.ifMatch == "" && 0 < s.now <= MAX_UINT64
    requires (s.cfg.maxClip == 0 || |chunk| <= s.cfg.maxClip) && (s.cfg.maxTotal == 0 || |chunk| <= s.cfg.maxTotal)
    ensures Run(s, steps, t) && Unexpired(Value(t, name), s.now)
    ensures Value(t, name).value.id == GenId(s.now, tail) && Value(t, name).value.id in t.acked
    ensures Value(t, name).value.id in t.published && t.published[Value(t, name).value.id].bytes == chunk
  {
    hide Inv, Next, Run, ValidName, Story, Value, AdmitNext, Admits, Reachable, UploadEnabled, Init;
    var begin, admit := Begin(0, 0, name, Create(opts, meta)), Upload(0, Admit(Some(tail), true));
    var a := FirstBegins(s, name, meta, opts);
    InitIsReachable(s);
    OneStep(s, begin);
    FirstIsAdmitted(s, a, name, Normalized(meta), opts, tail);
    var b := AdmitNext(a, 0, Some(tail), true);
    var m := WriteOutcome(b, 0, chunk, |chunk|);
    t := CloseOutcome(a, 0, Some(tail), WriteSteps(0, chunk, |chunk|), m, 0);
    assert chunk[..|chunk|] == chunk && [] + chunk == chunk;
    RunsConcatenate(b, WriteSteps(0, chunk, |chunk|), m, CloseSteps(0), t);
    FirstIsUnexpired(a, tail, WriteSteps(0, chunk, |chunk|) + CloseSteps(0), t, name);
    steps := [begin, admit] + (WriteSteps(0, chunk, |chunk|) + CloseSteps(0));
    TwoThen(s, begin, a, admit, b, WriteSteps(0, chunk, |chunk|) + CloseSteps(0), t);
  }

  lemma TwoThen(s: State, x: Step, a: State, y: Step, b: State, rest: seq<Step>, t: State)
    requires Enabled(s, x) && a == Next(s, x) && Enabled(a, y) && b == Next(a, y) && Run(b, rest, t)
    ensures Run(s, [x, y] + rest, t)
  {
    hide Enabled, Next;
    var steps := [x, y] + rest;
    assert steps[1..] == [y] + rest && ([y] + rest)[1..] == rest;
    assert Run(a, [y] + rest, t);
  }
}
