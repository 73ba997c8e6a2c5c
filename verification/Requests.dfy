// What a create asked for is what its generation is, from its admission to its end: its name, its metadata, the instant it
// was created at, its one reader if it asked for one, and the deadline its Close and its span give it.
module Requests {
  import opened Common
  import opened GenIds
  import opened Generations
  import opened Records
  import opened DiskModel
  import opened Transitions
  import opened StoreMachine
  import opened Leases
  import opened Ownership
  import opened OwnershipSteps
  import opened OwnershipTail
  import opened Gates
  import opened QuotaInvariant
  import opened Storage
  import opened StorageSteps
  import opened StorageRestart
  import opened Invariant
  import opened Runs
  import opened Survival
  import opened Refinement
  import opened Listing

  // What one create asked of its generation; `span` is how long it is kept once closed, for ever if not positive.
  datatype Asked = Asked(name: string, meta: Meta, created: int, consume: bool, span: int)

  // The generation is the one asked for. `closed` is the instant its Close stamped, once it has.
  predicate Answers(g: Generation, a: Asked, closed: Option<int>) {
    && g.name == a.name && g.meta == a.meta && g.created == a.created && g.consume == a.consume
    && if g.state == GenLive then g.ttl == a.span
       else (closed.Some? ==> g.finalized == closed.value)
            && g.expires == if a.span > 0 then Some(g.finalized + a.span) else None
  }

  predicate RecordAnswers(r: Record, a: Asked, closed: Option<int>) {
    && r.name == a.name && r.meta == a.meta && r.created == a.created && r.consume == a.consume
    && (closed.Some? ==> r.finalized == closed.value)
    && r.expires == if a.span > 0 then Some(r.finalized + a.span) else None
  }

  predicate SlotAnswers(slot: Slot, id: GenId, a: Asked, closed: Option<int>) {
    && (slot.current.Some? && slot.current.value.id == id ==> Answers(slot.current.value, a, closed))
    && (slot.live.Some? && slot.live.value.id == id ==> Answers(slot.live.value, a, closed))
  }

  // Its writer is closing it as of that instant and no other; its readers claimed it exactly if it asked for one reader.
  predicate OpAnswers(op: Op, id: GenId, a: Asked, closed: Option<int>) {
    && (op.Writing? && op.g == id ==>
          match op.stage
          case Synced(at) => closed == Some(at)
          case Published(at) => closed == Some(at)
          case Failing(_) => true
          case _ => closed.None?)
    && (op.Opening? && op.rstage.Reading? && op.rstage.g == id ==> op.rstage.claimed == a.consume)
  }

  predicate Writes(op: Op, id: GenId) { op.Writing? && op.g == id }

  // Wherever the generation `id` is found, it is what `a` asked for; and nothing has ended it while it is written.
  ghost predicate Story(s: State, id: GenId, a: Asked, closed: Option<int>) {
    && id in s.minted && s.minted[id] == a.name
    && (forall h | h in s.handles :: SlotAnswers(s.handles[h].slot, id, a, closed))
    && (forall p | p in s.ops :: OpAnswers(s.ops[p], id, a, closed))
    && (id in s.published ==> RecordAnswers(s.published[id].record, a, closed))
    && (forall p | p in s.ops && Writes(s.ops[p], id) :: id !in s.ended)
  }

  // -------------------------------------------------------------------------
  // Frames
  // -------------------------------------------------------------------------

  // A step on operation `o` need only account for itself, its own slot and what it published or ended.
  lemma StoryFrame(s: State, t: State, o: nat, id: GenId, a: Asked, closed: Option<int>)
    requires Story(s, id, a, closed) && Moves(s, t, o)
    requires id in t.minted && t.minted[id] == s.minted[id]
    requires OpAnswers(t.ops[o], id, a, closed) && SlotAnswers(t.handles[s.ops[o].h].slot, id, a, closed)
    requires id in t.published ==> RecordAnswers(t.published[id].record, a, closed)
    requires Writes(t.ops[o], id) ==> Writes(s.ops[o], id)
    requires id in t.ended ==> id in s.ended || forall p | p in t.ops :: !Writes(t.ops[p], id)
    ensures Story(t, id, a, closed)
  {
    hide Answers, RecordAnswers;
  }

  lemma QuietStory(s: State, t: State, o: nat, id: GenId, a: Asked, closed: Option<int>)
    requires Story(s, id, a, closed) && Quiet(s, t, o)
    requires OpAnswers(t.ops[o], id, a, closed) && t.published == s.published && t.ended == s.ended
    ensures Story(t, id, a, closed)
  {
    hide SlotAnswers, OpAnswers, RecordAnswers;
    StoryFrame(s, t, o, id, a, closed);
  }

  // Nothing of the generation moved.
  lemma SameStory(s: State, t: State, id: GenId, a: Asked, closed: Option<int>)
    requires Story(s, id, a, closed)
    requires t.minted == s.minted && t.published == s.published && t.ended == s.ended
    requires forall h | h in t.handles :: (h in s.handles && t.handles[h].slot == s.handles[h].slot) || t.handles[h].slot.Empty()
    requires forall p | p in t.ops :: (p in s.ops && t.ops[p] == s.ops[p])
                                      || (OpAnswers(t.ops[p], id, a, closed) && !Writes(t.ops[p], id))
    ensures Story(t, id, a, closed)
  {
    hide Answers, RecordAnswers, OpAnswers;
  }

  // -------------------------------------------------------------------------
  // Uploads
  // -------------------------------------------------------------------------

  lemma AppendStory(s: State, o: nat, stored: nat, id: GenId, a: Asked, closed: Option<int>)
    requires Story(s, id, a, closed) && UploadEnabled(s, o, Append(stored))
    ensures Story(AppendNext(s, o, stored), id, a, closed)
  {
    hide Story, Quiet, GenDir.Append;
    StoryOfOp(s, o, id, a, closed);
    AppendIsQuiet(s, o, stored);
    QuietStory(s, AppendNext(s, o, stored), o, id, a, closed);
  }

  lemma StoryOfOp(s: State, o: nat, id: GenId, a: Asked, closed: Option<int>)
    requires Story(s, id, a, closed) && o in s.ops
    ensures OpAnswers(s.ops[o], id, a, closed)
  {
  }

  lemma ReserveStory(s: State, o: nat, chunk: seq<Byte>, id: GenId, a: Asked, closed: Option<int>)
    requires Story(s, id, a, closed) && UploadEnabled(s, o, Reserve(chunk))
    ensures Story(ReserveNext(s, o, chunk), id, a, closed)
  {
    hide Story, Quiet;
    StoryOfOp(s, o, id, a, closed);
    ReserveIsQuiet(s, o, chunk);
    QuietStory(s, ReserveNext(s, o, chunk), o, id, a, closed);
  }

  lemma ReturnTailStory(s: State, o: nat, id: GenId, a: Asked, closed: Option<int>)
    requires Story(s, id, a, closed) && UploadEnabled(s, o, ReturnTail)
    ensures Story(ReturnTailNext(s, o), id, a, closed)
  {
    hide Story, Quiet;
    StoryOfOp(s, o, id, a, closed);
    ReturnTailIsQuiet(s, o);
    QuietStory(s, ReturnTailNext(s, o), o, id, a, closed);
  }

  lemma AbortPublishStory(s: State, o: nat, outcome: Outcome, id: GenId, a: Asked, closed: Option<int>)
    requires Story(s, id, a, closed) && UploadEnabled(s, o, AbortPublish(outcome))
    ensures Story(AbortPublishNext(s, o, outcome), id, a, closed)
  {
    hide Story, Quiet, GenDir.Commit;
    AbortPublishIsQuiet(s, o, outcome);
    QuietStory(s, AbortPublishNext(s, o, outcome), o, id, a, closed);
  }

  lemma FinishLogStory(s: State, o: nat, id: GenId, a: Asked, closed: Option<int>)
    requires Story(s, id, a, closed) && IsFinishing(s, o)
    ensures Story(FinishLogNext(s, o), id, a, closed)
  {
    hide Story, Quiet;
    FinishLogIsQuiet(s, o);
    QuietStory(s, FinishLogNext(s, o), o, id, a, closed);
  }

  lemma TearLogStory(s: State, o: nat, id: GenId, a: Asked, closed: Option<int>)
    requires Story(s, id, a, closed) && IsTearing(s, o)
    ensures Story(TearLogNext(s, o), id, a, closed)
  {
    hide Story, Quiet;
    TearLogIsQuiet(s, o);
    QuietStory(s, TearLogNext(s, o), o, id, a, closed);
  }

  lemma DiscardStory(s: State, o: nat, id: GenId, a: Asked, closed: Option<int>)
    requires Story(s, id, a, closed) && UploadEnabled(s, o, Discard)
    ensures Story(DiscardNext(s, o), id, a, closed)
  {
    hide Answers, RecordAnswers, Moves;
    DiscardMoves(s, o);
    StoryFrame(s, DiscardNext(s, o), o, id, a, closed);
  }

  // Another create's generation is another one.
  lemma AdmitStory(s: State, o: nat, tail: Option<Uint64>, made: bool, id: GenId, a: Asked, closed: Option<int>)
    requires Story(s, id, a, closed) && AdmitEnabled(s, o, tail)
    ensures Story(AdmitNext(s, o, tail, made), id, a, closed)
  {
    hide ClockAhead, Admission, NewGeneration, Answers, RecordAnswers, Moves, OpAnswers;
    AdmitMoves(s, o, tail, made);
    var t := AdmitNext(s, o, tail, made);
    AdmitTouches(s, o, tail, made, id, a, closed);
    StoryFrame(s, t, o, id, a, closed);
  }

  lemma AdmitTouches(s: State, o: nat, tail: Option<Uint64>, made: bool, id: GenId, a: Asked, closed: Option<int>)
    requires id in s.minted && AdmitEnabled(s, o, tail) && SlotAnswers(s.handles[s.ops[o].h].slot, id, a, closed)
    ensures var t := AdmitNext(s, o, tail, made);
            && id in t.minted && t.minted[id] == s.minted[id] && t.published == s.published && t.ended == s.ended
            && o in t.ops && s.ops[o].h in t.handles && SlotAnswers(t.handles[s.ops[o].h].slot, id, a, closed)
            && !Writes(t.ops[o], id) && !t.ops[o].Opening? && OpAnswers(t.ops[o], id, a, closed)
  {
    hide ClockAhead, Admission, Answers;
  }

  // A flush fixes the instant the generation is closed as of.
  function ClosedBy(s: State, step: Step, id: GenId, closed: Option<int>): Option<int> {
    if step.Upload? && step.u.SyncBytes? && step.u.ok && step.o in s.ops && Writes(s.ops[step.o], id) then Some(s.now)
    else closed
  }

  // While a generation is written it is its name's upload, and neither a value nor published.
  lemma WrittenIsOnlyLive(s: State, o: nat, id: GenId)
    requires Inv(s) && IsWriting(s, o) && s.ops[o].g == id
    ensures forall h | h in s.handles :: !IsCurrent(s.handles[h], id)
    ensures forall p | p in s.ops && Writes(s.ops[p], id) :: p == o
    ensures forall h | h in s.handles && IsLive(s.handles[h], id) :: h == s.ops[o].h
    ensures IsLive(s.handles[s.ops[o].h], id)
    ensures s.ops[o].stage.Idle? ==> id !in s.published
  {
    hide GateInv, QuotaInv, NoneLost, DirsWell, SlotsStored, FatesWell, LogsWell, SeedBounds, RecordOf, Finalize, Counted;
    OpHolds(s, o);
    LeasePins(s, o);
    WrittenIsExtant(s, o);
    assert StoredWell(s, s.ops[o]);
    assert SlotWell(s, s.ops[o].h);
    forall h | h in s.handles
      ensures !IsCurrent(s.handles[h], id) && (IsLive(s.handles[h], id) ==> h == s.ops[o].h)
    {
      assert SlotWell(s, h);
      if IsCurrent(s.handles[h], id) || IsLive(s.handles[h], id) {
        assert InUse(s.handles[h]);
      }
    }
  }

  lemma SyncBytesStory(s: State, o: nat, ok: bool, id: GenId, a: Asked, closed: Option<int>)
    requires Inv(s) && Story(s, id, a, closed) && UploadEnabled(s, o, SyncBytes(ok))
    ensures Story(SyncBytesNext(s, o, ok), id, a, if ok && s.ops[o].g == id then Some(s.now) else closed)
  {
    hide Inv, Quiet, Answers, RecordAnswers;
    if ok && s.ops[o].g == id {
      WrittenIsOnlyLive(s, o, id);
      LiveIsOpenEnded(s, o, id);
      StampStory(s, o, id, a, closed);
    } else {
      SyncBytesIsQuiet(s, o, ok);
      QuietStory(s, SyncBytesNext(s, o, ok), o, id, a, closed);
    }
  }

  lemma LiveIsOpenEnded(s: State, o: nat, id: GenId)
    requires Inv(s) && IsWriting(s, o) && s.ops[o].g == id
    ensures s.handles[s.ops[o].h].slot.live.Some? && s.handles[s.ops[o].h].slot.live.value.state == GenLive
  {
    hide GateInv, QuotaInv, NoneLost, StoreInv, Counted, Registered;
    OpHolds(s, o);
    assert SlotWell(s, s.ops[o].h);
  }

  lemma StampStory(s: State, o: nat, id: GenId, a: Asked, closed: Option<int>)
    requires Story(s, id, a, closed) && UploadEnabled(s, o, SyncBytes(true)) && s.ops[o].g == id && id !in s.published
    requires forall h | h in s.handles :: !IsCurrent(s.handles[h], id)
    requires forall p | p in s.ops && Writes(s.ops[p], id) :: p == o
    requires forall h | h in s.handles && IsLive(s.handles[h], id) :: h == s.ops[o].h
    requires s.handles[s.ops[o].h].slot.live.Some? && s.handles[s.ops[o].h].slot.live.value.state == GenLive
    ensures Story(SyncBytesNext(s, o, true), id, a, Some(s.now))
  {
    hide RecordAnswers;
  }

  lemma PublishStory(s: State, o: nat, outcome: Outcome, id: GenId, a: Asked, closed: Option<int>)
    requires Inv(s) && Story(s, id, a, closed) && IsPublishing(s, o)
    ensures Story(PublishNext(s, o, outcome), id, a, closed)
  {
    hide Inv, Quiet, Moves, Answers, RecordAnswers, RecordOf, Finalize, SlotAnswers;
    PublishIsQuiet(s, o, outcome);
    QuietIsAMove(s, PublishNext(s, o, outcome), o);
    if s.ops[o].g == id {
      PublishedAnswers(s, o, id, a, closed);
    }
    PublishTouches(s, o, outcome, id, a, closed);
    StoryFrame(s, PublishNext(s, o, outcome), o, id, a, closed);
  }

  lemma QuietIsAMove(s: State, t: State, o: nat)
    requires Quiet(s, t, o)
    ensures Moves(s, t, o) && t.handles == s.handles
  {
  }

  lemma PublishedAnswers(s: State, o: nat, id: GenId, a: Asked, closed: Option<int>)
    requires Inv(s) && Story(s, id, a, closed) && IsPublishing(s, o) && s.ops[o].g == id
    ensures RecordAnswers(RecordOf(Finalize(s.handles[s.ops[o].h].slot.live.value, s.ops[o].stage.at),
                                   s.logs[id].bytes, s.cfg.checksum), a, closed)
  {
    hide Inv, Checksum;
    WrittenIsOnlyLive(s, o, id);
    LiveIsOpenEnded(s, o, id);
    assert OpAnswers(s.ops[o], id, a, closed) && SlotAnswers(s.handles[s.ops[o].h].slot, id, a, closed);
  }

  lemma PublishTouches(s: State, o: nat, outcome: Outcome, id: GenId, a: Asked, closed: Option<int>)
    requires IsPublishing(s, o) && OpAnswers(s.ops[o], id, a, closed)
    requires id in s.published ==> RecordAnswers(s.published[id].record, a, closed)
    requires s.ops[o].g == id ==>
               RecordAnswers(RecordOf(Finalize(s.handles[s.ops[o].h].slot.live.value, s.ops[o].stage.at),
                                      s.logs[id].bytes, s.cfg.checksum), a, closed)
    ensures var t := PublishNext(s, o, outcome);
            && t.minted == s.minted && t.ended == s.ended && o in t.ops && OpAnswers(t.ops[o], id, a, closed)
            && (Writes(t.ops[o], id) ==> Writes(s.ops[o], id))
            && (id in t.published ==> RecordAnswers(t.published[id].record, a, closed))
  {
    hide RecordAnswers, RecordOf, Finalize, GenDir.Commit, Has;
    PublishedRecord(s, o, outcome, id, a, closed);
  }

  lemma PublishedRecord(s: State, o: nat, outcome: Outcome, id: GenId, a: Asked, closed: Option<int>)
    requires IsPublishing(s, o)
    requires id in s.published ==> RecordAnswers(s.published[id].record, a, closed)
    requires s.ops[o].g == id ==>
               RecordAnswers(RecordOf(Finalize(s.handles[s.ops[o].h].slot.live.value, s.ops[o].stage.at),
                                      s.logs[id].bytes, s.cfg.checksum), a, closed)
    ensures id in PublishNext(s, o, outcome).published ==>
              RecordAnswers(PublishNext(s, o, outcome).published[id].record, a, closed)
  {
    hide RecordAnswers, RecordOf, Finalize, GenDir.Commit, OpAnswers;
  }

  lemma FlipStory(s: State, o: nat, id: GenId, a: Asked, closed: Option<int>)
    requires Inv(s) && Story(s, id, a, closed) && IsFlipping(s, o)
    ensures Story(FlipNext(s, o), id, a, closed)
  {
    hide Inv, Moves, RecordAnswers;
    var t := FlipNext(s, o);
    FlipMoves(s, o);
    WrittenIsOnlyLive(s, o, s.ops[o].g);
    LiveIsOpenEnded(s, o, s.ops[o].g);
    assert OpAnswers(s.ops[o], id, a, closed) && SlotAnswers(s.handles[s.ops[o].h].slot, id, a, closed);
    if IsCurrent(s.handles[s.ops[o].h], id) {
      CurrentIsNotWritten(s, s.ops[o].h, id);
    }
    StoryFrame(s, t, o, id, a, closed);
  }

  lemma CurrentIsNotWritten(s: State, h: nat, id: GenId)
    requires Inv(s) && s.up && h in s.handles && IsCurrent(s.handles[h], id)
    ensures forall p | p in s.ops :: !Writes(s.ops[p], id)
  {
    hide GateInv, QuotaInv, NoneLost, StoreInv, Counted;
    assert SlotWell(s, h) && InUse(s.handles[h]);
    forall p | p in s.ops && s.ops[p].Writing?
      ensures s.ops[p].g != id
    {
      OpHolds(s, p);
      LeasePins(s, p);
      assert SlotWell(s, s.ops[p].h);
    }
  }

  lemma UploadStory(s: State, o: nat, u: UploadStep, id: GenId, a: Asked, closed: Option<int>)
    requires Inv(s) && Story(s, id, a, closed) && UploadEnabled(s, o, u)
    ensures Story(UploadNext(s, o, u), id, a, ClosedBy(s, Upload(o, u), id, closed))
  {
    hide Inv, Story, AdmitEnabled, AdmitNext, ReserveNext, AppendNext, ReturnTailNext, SyncBytesNext, PublishNext, FlipNext,
         FinishLogNext, AbortPublishNext, DiscardNext, TearLogNext;
    match u
    case Admit(tail, made) => AdmitStory(s, o, tail, made, id, a, closed);
    case Reserve(chunk) => ReserveStory(s, o, chunk, id, a, closed);
    case Append(stored) => AppendStory(s, o, stored, id, a, closed);
    case ReturnTail => ReturnTailStory(s, o, id, a, closed);
    case SyncBytes(ok) => SyncBytesStory(s, o, ok, id, a, closed);
    case Publish(outcome) => PublishStory(s, o, outcome, id, a, closed);
    case FlipCurrent => FlipStory(s, o, id, a, closed);
    case FinishLog => FinishLogStory(s, o, id, a, closed);
    case AbortPublish(outcome) => AbortPublishStory(s, o, outcome, id, a, closed);
    case Discard => DiscardStory(s, o, id, a, closed);
    case TearLog => TearLogStory(s, o, id, a, closed);
  }

  // -------------------------------------------------------------------------
  // Reads and ends
  // -------------------------------------------------------------------------

  lemma ResolveStory(s: State, o: nat, claim: Outcome, attached: bool, id: GenId, a: Asked, closed: Option<int>)
    requires Inv(s) && Story(s, id, a, closed) && ResolveEnabled(s, o, claim)
    ensures Story(ResolveNext(s, o, claim, attached), id, a, closed)
  {
    hide Inv, Story, ResolveNext, Resolve;
    if Claimable(Resolved(s, o)) {
      ResolveUnfolds(s, o, claim, attached);
      FoundIsTheSlots(s, o);
      ClaimStory(s, o, claim, attached, id, a, closed);
    } else {
      ResolveClaimsNothing(s, o, claim, attached);
      UnclaimedStory(s, o, attached, id, a, closed);
    }
  }

  lemma FoundIsTheSlots(s: State, o: nat)
    requires Inv(s) && IsResolving(s, o) && Resolved(s, o).Found?
    ensures var slot := s.handles[s.ops[o].h].slot;
            var g := Resolved(s, o).gen;
            && (slot.current == Some(g) || slot.live == Some(g))
            && (Claimable(Resolved(s, o)) <==> g.consume) && (g.consume ==> slot.current == Some(g))
  {
    hide LeaseInv, GateInv, QuotaInv, StoreInv, OpsWell, OneOwner, NoneLost;
    assert SlotWell(s, s.ops[o].h);
  }

  lemma UnclaimedStory(s: State, o: nat, attached: bool, id: GenId, a: Asked, closed: Option<int>)
    requires Inv(s) && Story(s, id, a, closed) && IsResolving(s, o) && !Claimable(Resolved(s, o))
    ensures var hd := s.handles[s.ops[o].h];
            var op := s.ops[o].(cursor := CursorOf(s.ops[o], hd.slot));
            Story(s.SetOp(o, Unclaimed(op, Resolved(s, o), hd.notify, attached)), id, a, closed)
  {
    hide Inv, Story, Resolved, Answers, RecordAnswers;
    var hd := s.handles[s.ops[o].h];
    var op := s.ops[o].(cursor := CursorOf(s.ops[o], hd.slot));
    if Resolved(s, o).Found? {
      FoundIsTheSlots(s, o);
      FoundAnswers(s, o, id, a, closed);
    }
    UnclaimedAnswers(op, Resolved(s, o), hd.notify, attached, id, a, closed);
    OneOpStory(s, o, Unclaimed(op, Resolved(s, o), hd.notify, attached), id, a, closed);
  }

  lemma FoundAnswers(s: State, o: nat, id: GenId, a: Asked, closed: Option<int>)
    requires Story(s, id, a, closed) && At(s, o)
    ensures var slot := s.handles[s.ops[o].h].slot;
            forall g: Generation | (slot.current == Some(g) || slot.live == Some(g)) && g.id == id :: g.consume == a.consume
  {
    hide RecordAnswers;
    assert SlotAnswers(s.handles[s.ops[o].h].slot, id, a, closed);
  }

  lemma UnclaimedAnswers(op: Op, r: Resolution, channel: nat, attached: bool, id: GenId, a: Asked, closed: Option<int>)
    requires op.Opening? && !op.rstage.Reading?
    requires r.Found? ==> !r.gen.consume && (r.gen.id == id ==> !a.consume)
    ensures var p := Unclaimed(op, r, channel, attached); OpAnswers(p, id, a, closed) && !p.Writing?
  {
  }

  lemma OneOpStory(s: State, o: nat, op: Op, id: GenId, a: Asked, closed: Option<int>)
    requires Story(s, id, a, closed) && OpAnswers(op, id, a, closed) && !op.Writing?
    ensures Story(s.SetOp(o, op), id, a, closed)
  {
    hide Answers, RecordAnswers;
    SameStory(s, s.SetOp(o, op), id, a, closed);
  }

  lemma ClaimStory(s: State, o: nat, claim: Outcome, attached: bool, id: GenId, a: Asked, closed: Option<int>)
    requires Inv(s) && Story(s, id, a, closed) && ResolveEnabled(s, o, claim) && Claimable(Resolved(s, o))
    requires s.handles[s.ops[o].h].slot.current == Some(Resolved(s, o).gen)
    ensures var op := s.ops[o].(cursor := CursorOf(s.ops[o], s.handles[s.ops[o].h].slot));
            Story(ClaimNext(s, o, op, Resolved(s, o).gen, claim, attached), id, a, closed)
  {
    hide Inv, Resolved, ClaimNext, Moves, RecordAnswers;
    var op := s.ops[o].(cursor := CursorOf(s.ops[o], s.handles[s.ops[o].h].slot));
    var g := Resolved(s, o).gen;
    var t := ClaimNext(s, o, op, g, claim, attached);
    ClaimMoves(s, o, op, g, claim, attached);
    ClaimTouchesLittle(s, o, op, g, claim, attached);
    ClaimedSlot(s, o, op, g, claim, attached);
    assert SlotAnswers(s.handles[op.h].slot, id, a, closed);
    CurrentIsNotWritten(s, op.h, g.id);
    StoryFrame(s, t, o, id, a, closed);
  }

  // A claim changes at most the state of the generation it consumes.
  lemma ClaimedSlot(s: State, o: nat, op: Op, g: Generation, claim: Outcome, attached: bool)
    requires op.Opening? && op.h in s.handles && s.handles[op.h].slot.current == Some(g)
    requires RenamesMarker(s, Some(g), claim)
    ensures var t := ClaimNext(s, o, op, g, claim, attached);
            && op.h in t.handles
            && (t.handles[op.h].slot == s.handles[op.h].slot || t.handles[op.h].slot == Claim(s.handles[op.h].slot, claim))
  {
    hide ClaimNext, Claim, ClaimSticks, ClaimForfeits;
    if op.canceled || claim == NeverTook {
      ClaimGivesUp(s, o, op, g, claim, attached);
    } else {
      ClaimedInPlace(s, o, op, g, claim, attached);
    }
  }

  lemma ClaimGivesUp(s: State, o: nat, op: Op, g: Generation, claim: Outcome, attached: bool)
    requires op.Opening? && op.h in s.handles && s.handles[op.h].slot.current == Some(g)
    requires RenamesMarker(s, Some(g), claim) && (op.canceled || claim == NeverTook)
    ensures ClaimNext(s, o, op, g, claim, attached).handles == s.handles
  {
    hide ClaimSticks, ClaimForfeits;
  }

  lemma ClaimedInPlace(s: State, o: nat, op: Op, g: Generation, claim: Outcome, attached: bool)
    requires op.Opening? && op.h in s.handles && s.handles[op.h].slot.current == Some(g)
    requires RenamesMarker(s, Some(g), claim) && !op.canceled && claim != NeverTook
    ensures var t := ClaimNext(s, o, op, g, claim, attached);
            op.h in t.handles && t.handles[op.h].slot == Claim(s.handles[op.h].slot, claim)
  {
    hide ClaimNext, Claim, GenDir.Commit, ClaimSticks, ClaimForfeits;
    ClaimTakesExactly(s, o, op, g, claim, attached);
  }

  lemma RetireStory(s: State, o: nat, target: Option<Generation>, outcome: Outcome, id: GenId, a: Asked, closed: Option<int>)
    requires Inv(s) && Story(s, id, a, closed) && At(s, o) && RenamesMarker(s, target, outcome)
    requires target.Some? ==> s.handles[s.ops[o].h].slot.current == target
    ensures Story(RetireNext(s, o, s.ops[o].h, target, outcome), id, a, closed)
  {
    hide Inv, Moves, Answers, RecordAnswers, GenDir.Commit;
    RetireMoves(s, o, s.ops[o].h, target, outcome);
    assert SlotAnswers(s.handles[s.ops[o].h].slot, id, a, closed);
    if target.Some? {
      CurrentIsNotWritten(s, s.ops[o].h, target.value.id);
    }
    StoryFrame(s, RetireNext(s, o, s.ops[o].h, target, outcome), o, id, a, closed);
  }

  lemma ReclaimStory(s: State, o: nat, removal: Removal, id: GenId, a: Asked, closed: Option<int>)
    requires Story(s, id, a, closed) && IsOwing(s, o)
    ensures Story(ReclaimNext(s, o, removal), id, a, closed)
  {
    hide Answers, RecordAnswers, GenDir.Remove;
    SameStory(s, ReclaimNext(s, o, removal), id, a, closed);
  }

  lemma ClearStory(s: State, o: nat, id: GenId, a: Asked, closed: Option<int>)
    requires Story(s, id, a, closed) && At(s, o) && s.ops[o].Clearing?
    ensures Story(ClearNext(s, o), id, a, closed)
  {
    hide Answers, RecordAnswers, Moves;
    ClearMoves(s, o);
    assert SlotAnswers(s.handles[s.ops[o].h].slot, id, a, closed);
    StoryFrame(s, ClearNext(s, o), o, id, a, closed);
  }

  lemma AcquireStory(s: State, o: nat, h: nat, name: string, op: Op, id: GenId, a: Asked, closed: Option<int>)
    requires Story(s, id, a, closed) && if name in s.reg then h == s.reg[name] && h in s.handles else h !in s.handles
    requires !op.Writing? && (op.Opening? ==> !op.rstage.Reading?)
    ensures Story(s.Acquire(o, h, name, op), id, a, closed)
  {
    hide RecordAnswers, Answers;
    SameStory(s, s.Acquire(o, h, name, op), id, a, closed);
  }

  lemma ReleaseStory(s: State, o: nat, id: GenId, a: Asked, closed: Option<int>)
    requires Story(s, id, a, closed) && At(s, o) && s.ops[o].Leaving?
    ensures Story(ReleaseNext(s, o), id, a, closed)
  {
    hide RecordAnswers, Answers;
    SameStory(s, ReleaseNext(s, o), id, a, closed);
  }

  lemma SetOpStory(s: State, o: nat, op: Op, id: GenId, a: Asked, closed: Option<int>)
    requires Story(s, id, a, closed) && !op.Writing?
    requires op.Opening? && op.rstage.Reading? ==> o in s.ops && s.ops[o].Opening? && s.ops[o].rstage == op.rstage
    ensures Story(s.SetOp(o, op), id, a, closed)
  {
    hide RecordAnswers, Answers;
    SameStory(s, s.SetOp(o, op), id, a, closed);
  }

  // -------------------------------------------------------------------------
  // Restarts
  // -------------------------------------------------------------------------

  lemma DownStory(s: State, t: State, id: GenId, a: Asked, closed: Option<int>)
    requires Story(s, id, a, closed)
    requires t.handles == map[] && t.ops == map[] && t.minted == s.minted && t.published == s.published
    ensures Story(t, id, a, closed)
  {
    hide RecordAnswers;
  }

  lemma BootStory(s: State, after: Disk, hs: map<nat, Handle>, names: map<string, nat>, id: GenId, a: Asked, closed: Option<int>)
    requires Inv(s) && !s.up && Story(s, id, a, closed) && Enabled(s, Boot(after, hs, names))
    ensures Story(BootNext(s, after, hs, names), id, a, closed)
  {
    hide Base, QuotaInv, Validates, ChecksumHolds, ValidName, DownWell, ScanLeaves, FatesWell, LogsWell, Sum;
    var t := BootNext(s, after, hs, names);
    forall h | h in hs
      ensures SlotAnswers(hs[h].slot, id, a, closed)
    {
      if hs[h].slot.current.value.id == id {
        RestoredAnswers(s, hs, names, h, id, a, closed);
      }
    }
  }

  lemma RestoredAnswers(s: State, hs: map<nat, Handle>, names: map<string, nat>, h: nat, id: GenId, a: Asked, closed: Option<int>)
    requires DirsWell(s) && id in s.minted && (id in s.published ==> RecordAnswers(s.published[id].record, a, closed))
    requires Restores(s.disk, s.cfg.checksum, hs, names) && h in hs && IsCurrent(hs[h], id)
    ensures Answers(hs[h].slot.current.value, a, closed)
  {
    hide Validates, ChecksumHolds, ValidName;
    assert Survives(s.disk, id, s.cfg.checksum) && Candidate(id, s.disk[id], s.cfg.checksum);
    assert DirWell(s, id);
    assert PublicationWell(s, id);
  }

  lemma RestartStory(s: State, step: Step, id: GenId, a: Asked, closed: Option<int>)
    requires Inv(s) && Story(s, id, a, closed) && Enabled(s, step) && IsRestartStep(step)
    ensures Story(Next(s, step), id, a, closed)
  {
    hide Base, QuotaInv, DirsWell, OpsStored, SlotsStored, FatesWell, LogsWell, SeedBounds, DownWell, Story, BootNext, ScanLeaves,
         MayCrashInto, Restores, Losers;
    if step.Boot? {
      BootStory(s, step.after, step.hs, step.names, id, a, closed);
    } else {
      DownStory(s, Next(s, step), id, a, closed);
    }
  }

  // -------------------------------------------------------------------------
  // Over runs
  // -------------------------------------------------------------------------

  // No step of any operation, no crash and no boot makes the generation anything but what was asked for.
  lemma NextKeepsStory(s: State, step: Step, id: GenId, a: Asked, closed: Option<int>)
    requires Inv(s) && Story(s, id, a, closed) && Enabled(s, step)
    ensures Story(Next(s, step), id, a, ClosedBy(s, step, id, closed))
  {
    hide Inv, Story, UploadEnabled, UploadNext, ResolveEnabled, ResolveNext, RetireNext, ReclaimNext, ClearNext, ReleaseNext,
         BootNext, ScanNext, CrashNext, KillNext, Restores, ScanLeaves, MayCrashInto;
    match step
    case Tick(_) => SameStory(s, Next(s, step), id, a, closed);
    case Begin(o, h, n, req) => AcquireStory(s, o, h, n, Start(req, h, s.now), id, a, closed);
    case Upload(o, u) => UploadStory(s, o, u, id, a, closed);
    case Reclaim(o, removal) => ReclaimStory(s, o, removal, id, a, closed);
    case ClearCurrent(o) => ClearStory(s, o, id, a, closed);
    case Release(o) => ReleaseStory(s, o, id, a, closed);
    case ResolveOpen(o, claim, attached) => ResolveStory(s, o, claim, attached, id, a, closed);
    case WakeUp(o) => SetOpStory(s, o, WakeNext(s, o).ops[o], id, a, closed);
    case Cancel(o) => SetOpStory(s, o, s.ops[o].(canceled := true), id, a, closed);
    case Elapse(o) => SetOpStory(s, o, s.ops[o].(elapsed := true), id, a, closed);
    case CloseReader(o) => SetOpStory(s, o, CloseReaderNext(s, o).ops[o], id, a, closed);
    case DeleteCurrent(o, outcome) =>
      RetireStory(s, o, PresentCurrent(s.handles[s.ops[o].h].slot, s.ops[o].at), outcome, id, a, closed);
    case SweepBegin(o) => SetOpStory(s, o, Sweeping(s.now), id, a, closed);
    case Observe(o, sweep, h) => SetOpStory(s, o, ObserveNext(s, o, sweep, h).ops[o], id, a, closed);
    case ReapBegin(o, h) => AcquireStory(s, o, h, s.ops[o].name, Reaping(h, s.ops[o].at, s.ops[o].id), id, a, closed);
    case ReapCurrent(o, outcome) =>
      RetireStory(s, o, ReapTarget(s.handles[s.ops[o].h].slot, s.ops[o].at, s.ops[o].id), outcome, id, a, closed);
    case Crash(_) => RestartStory(s, step, id, a, closed);
    case Kill => RestartStory(s, step, id, a, closed);
    case ScanPartly(_) => RestartStory(s, step, id, a, closed);
    case Reconfigure(_) => RestartStory(s, step, id, a, closed);
    case Boot(_, _, _) => RestartStory(s, step, id, a, closed);
  }

  // Once its Close has stamped an instant, no other is ever stamped.
  lemma ClosedOnce(s: State, step: Step, id: GenId, a: Asked, closed: Option<int>)
    requires Story(s, id, a, closed) && Enabled(s, step) && closed.Some?
    ensures ClosedBy(s, step, id, closed) == closed
  {
    hide Answers, RecordAnswers, SlotAnswers;
    if step.Upload? && step.u.SyncBytes? {
      assert OpAnswers(s.ops[step.o], id, a, closed);
    }
  }

  lemma {:induction false} RunKeepsStory(s: State, steps: seq<Step>, t: State, id: GenId, a: Asked, closed: Option<int>)
    returns (stamped: Option<int>)
    requires Inv(s) && Story(s, id, a, closed) && Run(s, steps, t)
    ensures Inv(t) && Story(t, id, a, stamped) && (closed.Some? ==> stamped == closed)
    decreases |steps|
  {
    hide Inv, Enabled, Next, Story, ClosedBy;
    stamped := closed;
    if steps != [] {
      NextKeepsInv(s, steps[0]);
      NextKeepsStory(s, steps[0], id, a, closed);
      if closed.Some? {
        ClosedOnce(s, steps[0], id, a, closed);
      }
      stamped := RunKeepsStory(Next(s, steps[0]), steps[1..], t, id, a, ClosedBy(s, steps[0], id, closed));
    }
  }

  // -------------------------------------------------------------------------
  // Nothing is known of an id before it is minted
  // -------------------------------------------------------------------------

  // Whatever a reader holds or something has ended was minted.
  ghost predicate Known(s: State) {
    && s.ended <= s.minted.Keys
    && forall p | p in s.ops && s.ops[p].Opening? && s.ops[p].rstage.Reading? :: s.ops[p].rstage.g in s.minted
  }

  lemma KnownFrame(s: State, t: State, o: nat)
    requires Known(s) && s.minted.Keys <= t.minted.Keys && t.ended <= s.ended + t.minted.Keys
    requires forall p | p in t.ops && p != o :: p in s.ops && t.ops[p] == s.ops[p]
    requires o in t.ops && t.ops[o].Opening? && t.ops[o].rstage.Reading? ==> t.ops[o].rstage.g in t.minted
    ensures Known(t)
  {
  }

  lemma SlotIsMinted(s: State, h: nat)
    requires Inv(s) && h in s.handles
    ensures var slot := s.handles[h].slot;
            && (slot.current.Some? ==> slot.current.value.id in s.minted)
            && (slot.live.Some? ==> slot.live.value.id in s.minted)
  {
    hide LeaseInv, GateInv, QuotaInv, StoreInv, OpsWell, OneOwner, NoneLost;
    assert SlotWell(s, h);
  }

  lemma AdmitKnows(s: State, o: nat, tail: Option<Uint64>, made: bool)
    requires Known(s) && AdmitEnabled(s, o, tail)
    ensures Known(AdmitNext(s, o, tail, made))
  {
    hide ClockAhead, Admission, NewGeneration, Install;
    KnownFrame(s, AdmitNext(s, o, tail, made), o);
  }

  lemma FlipKnows(s: State, o: nat)
    requires Inv(s) && Known(s) && IsFlipping(s, o)
    ensures Known(FlipNext(s, o))
  {
    hide Inv, Finalize, Superseded;
    SlotIsMinted(s, s.ops[o].h);
    KnownFrame(s, FlipNext(s, o), o);
  }

  lemma PublishKnows(s: State, o: nat, outcome: Outcome)
    requires Known(s) && IsPublishing(s, o)
    ensures Known(PublishNext(s, o, outcome))
  {
    hide RecordOf, Finalize, GenDir.Commit;
    KnownFrame(s, PublishNext(s, o, outcome), o);
  }

  lemma WriteKnows(s: State, o: nat, u: UploadStep)
    requires Known(s) && UploadEnabled(s, o, u) && (u.Reserve? || u.Append? || u.ReturnTail?)
    ensures Known(UploadNext(s, o, u))
  {
    hide Known, GenDir.Append;
    KnownFrame(s, UploadNext(s, o, u), o);
  }

  lemma SyncKnows(s: State, o: nat, ok: bool)
    requires Known(s) && UploadEnabled(s, o, SyncBytes(ok))
    ensures Known(SyncBytesNext(s, o, ok))
  {
    hide Known, GenDir.SyncData;
    KnownFrame(s, SyncBytesNext(s, o, ok), o);
  }

  lemma AbortKnows(s: State, o: nat, outcome: Outcome)
    requires Known(s) && UploadEnabled(s, o, AbortPublish(outcome))
    ensures Known(AbortPublishNext(s, o, outcome))
  {
    hide Known, GenDir.Commit;
    KnownFrame(s, AbortPublishNext(s, o, outcome), o);
  }

  lemma EndKnows(s: State, o: nat, u: UploadStep)
    requires Known(s) && UploadEnabled(s, o, u) && (u.FinishLog? || u.Discard? || u.TearLog?)
    ensures Known(UploadNext(s, o, u))
  {
    hide Known;
    KnownFrame(s, UploadNext(s, o, u), o);
  }

  lemma UploadKnows(s: State, o: nat, u: UploadStep)
    requires Inv(s) && Known(s) && UploadEnabled(s, o, u)
    ensures Known(UploadNext(s, o, u))
  {
    hide Inv, Known, AdmitEnabled, AdmitNext, ReserveNext, AppendNext, ReturnTailNext, SyncBytesNext, PublishNext, FlipNext,
         FinishLogNext, AbortPublishNext, DiscardNext, TearLogNext;
    if u.Admit? {
      AdmitKnows(s, o, u.tail, u.made);
    } else if u.Publish? {
      PublishKnows(s, o, u.outcome);
    } else if u.FlipCurrent? {
      FlipKnows(s, o);
    } else if u.Reserve? || u.Append? || u.ReturnTail? {
      WriteKnows(s, o, u);
    } else if u.SyncBytes? {
      SyncKnows(s, o, u.ok);
    } else if u.AbortPublish? {
      AbortKnows(s, o, u.outcome);
    } else {
      EndKnows(s, o, u);
    }
  }

  lemma ClaimKnows(s: State, o: nat, op: Op, g: Generation, claim: Outcome, attached: bool)
    requires Known(s) && op.Opening? && op.h in s.handles && s.handles[op.h].slot.current == Some(g)
    requires RenamesMarker(s, Some(g), claim) && g.id in s.minted
    ensures Known(ClaimNext(s, o, op, g, claim, attached))
  {
    hide ClaimNext, RenamesMarker;
    ClaimTouchesLittle(s, o, op, g, claim, attached);
    KnownFrame(s, ClaimNext(s, o, op, g, claim, attached), o);
  }

  lemma FoundIsMinted(s: State, o: nat)
    requires Inv(s) && IsResolving(s, o) && Resolved(s, o).Found?
    ensures Resolved(s, o).gen.id in s.minted
    ensures Claimable(Resolved(s, o)) ==> s.handles[s.ops[o].h].slot.current == Some(Resolved(s, o).gen)
  {
    hide Inv, Resolved;
    SlotIsMinted(s, s.ops[o].h);
    FoundIsTheSlots(s, o);
  }

  lemma StageKnows(s: State, o: nat, op: Op, r: Resolution, channel: nat, attached: bool)
    requires Known(s) && op.Opening? && !op.rstage.Reading? && (r.Found? ==> r.gen.id in s.minted)
    ensures Known(s.SetOp(o, Unclaimed(op, r, channel, attached)))
  {
    KnownFrame(s, s.SetOp(o, Unclaimed(op, r, channel, attached)), o);
  }

  lemma ResolveKnows(s: State, o: nat, claim: Outcome, attached: bool)
    requires Inv(s) && Known(s) && ResolveEnabled(s, o, claim)
    ensures Known(ResolveNext(s, o, claim, attached))
  {
    hide Inv, Known, ResolveNext, Resolved, ClaimNext;
    var hd := s.handles[s.ops[o].h];
    var op := s.ops[o].(cursor := CursorOf(s.ops[o], hd.slot));
    if Resolved(s, o).Found? {
      FoundIsMinted(s, o);
    }
    if Claimable(Resolved(s, o)) {
      ResolveUnfolds(s, o, claim, attached);
      ClaimKnows(s, o, op, Resolved(s, o).gen, claim, attached);
    } else {
      ResolveClaimsNothing(s, o, claim, attached);
      StageKnows(s, o, op, Resolved(s, o), hd.notify, attached);
    }
  }

  lemma RetireKnows(s: State, o: nat, target: Option<Generation>, outcome: Outcome)
    requires Inv(s) && Known(s) && At(s, o) && RenamesMarker(s, target, outcome)
    requires target.Some? ==> s.handles[s.ops[o].h].slot.current == target
    ensures Known(RetireNext(s, o, s.ops[o].h, target, outcome))
  {
    hide Inv, GenDir.Commit, Retire;
    SlotIsMinted(s, s.ops[o].h);
    KnownFrame(s, RetireNext(s, o, s.ops[o].h, target, outcome), o);
  }

  lemma LosersAreMinted(s: State)
    requires Inv(s)
    ensures Losers(s.disk, s.cfg.checksum) <= s.minted.Keys
  {
    hide Base, QuotaInv, OpsStored, SlotsStored, FatesWell, LogsWell, SeedBounds, DownWell, Survives;
    forall g | g in s.disk
      ensures g in s.minted
    {
      assert DirWell(s, g);
    }
  }

  lemma RestartKnows(s: State, step: Step)
    requires Inv(s) && Known(s) && Enabled(s, step) && IsRestartStep(step)
    ensures Known(Next(s, step))
  {
    hide Inv, Restores, ScanLeaves, MayCrashInto, Losers, BootNext, ScanNext, KillNext, CrashNext, Known, UploadEnabled, UploadNext,
         ResolveEnabled, ResolveNext, DeleteEnabled, DeleteNext, ReapEnabled, ReapNext, ReclaimNext, ClearNext, ReleaseNext;
    LosersAreMinted(s);
    if step.Boot? {
      NothingServes(s);
      BootKnows(s, step.after, step.hs, step.names);
    } else if step.Crash? {
      CrashKnows(s, step.after);
    } else if step.Kill? {
      CrashKnows(s, s.disk);
    } else if step.ScanPartly? {
      ScanKnows(s, step.after);
    } else {
      DownKnows(s, s.(cfg := step.cfg));
    }
  }

  lemma CrashKnows(s: State, after: Disk)
    requires Known(s)
    ensures Known(CrashNext(s, after)) && Known(KillNext(s))
  {
  }

  lemma ScanKnows(s: State, after: Disk)
    requires Known(s) && Losers(s.disk, s.cfg.checksum) <= s.minted.Keys
    ensures Known(ScanNext(s, after))
  {
    hide Losers;
  }

  lemma BootKnows(s: State, after: Disk, hs: map<nat, Handle>, names: map<string, nat>)
    requires Known(s) && s.ops == map[] && Losers(s.disk, s.cfg.checksum) <= s.minted.Keys
    ensures Known(BootNext(s, after, hs, names))
  {
    hide Losers, Survivors, Sum;
  }

  lemma DownKnows(s: State, t: State)
    requires Known(s) && t.minted == s.minted && t.ended <= s.ended + s.minted.Keys
    requires t.ops == map[] || t.ops == s.ops
    ensures Known(t)
  {
  }

  lemma NothingServes(s: State)
    requires Inv(s) && !s.up
    ensures s.ops == map[]
  {
  }

  lemma NextKnows(s: State, step: Step)
    requires Inv(s) && Known(s) && Enabled(s, step)
    ensures Known(Next(s, step))
  {
    hide Inv, UploadEnabled, UploadNext, ResolveEnabled, ResolveNext, RetireNext, IsRestartStep, BootNext, ScanNext, CrashNext,
         KillNext, Restores, ScanLeaves, MayCrashInto, GenDir.Remove, Clear;
    if step.Upload? {
      UploadKnows(s, step.o, step.u);
    } else if step.ResolveOpen? {
      ResolveKnows(s, step.o, step.claim, step.attached);
    } else if step.DeleteCurrent? {
      RetireKnows(s, step.o, PresentCurrent(s.handles[s.ops[step.o].h].slot, s.ops[step.o].at), step.outcome);
    } else if step.ReapCurrent? {
      RetireKnows(s, step.o, ReapTarget(s.handles[s.ops[step.o].h].slot, s.ops[step.o].at, s.ops[step.o].id), step.outcome);
    } else if IsRestartStep(step) {
      RestartKnows(s, step);
    } else {
      RestKnows(s, step);
    }
  }

  lemma RestKnows(s: State, step: Step)
    requires Known(s) && Enabled(s, step) && !IsRestartStep(step)
    requires !step.Upload? && !step.ResolveOpen? && !step.DeleteCurrent? && !step.ReapCurrent?
    ensures Known(Next(s, step))
  {
    hide GenDir.Remove, Clear, ValidName;
    if !step.Tick? {
      KnownFrame(s, Next(s, step), step.o);
    }
  }

  lemma {:induction false} RunKnows(s: State, steps: seq<Step>, t: State)
    requires Inv(s) && Known(s) && Run(s, steps, t)
    ensures Known(t)
    decreases |steps|
  {
    hide Inv, Enabled, Next, Known;
    if steps != [] {
      NextKeepsInv(s, steps[0]);
      NextKnows(s, steps[0]);
      RunKnows(Next(s, steps[0]), steps[1..], t);
    }
  }

  lemma ReachableKnows(t: State)
    requires Reachable(t)
    ensures Known(t)
  {
    hide Inv, Run;
    var s, steps :| Init(s) && Run(s, steps, t);
    InitInv(s);
    RunKnows(s, steps, t);
  }

  // -------------------------------------------------------------------------
  // What was asked for is what there is
  // -------------------------------------------------------------------------

  // A request starts as the operation it asks for: a create with its own options and its metadata, less what its kind does
  // not carry; an open that waits if it was told to, or asks for the next write; a delete as of its own instant.
  lemma RequestsBecomeOperations(req: Request, h: nat, now: int)
    ensures req.Create? ==>
              && var op := Start(req, h, now);
              && op.Creating? && op.h == h && op.opts == req.opts && op.meta.kind == req.meta.kind
              && op.meta.filename == (if req.meta.kind in {"file", "archive"} then req.meta.filename else "")
              && (op.meta.executable <==> req.meta.kind == "file" && req.meta.executable)
    ensures req.OpenRead? ==>
              Start(req, h, now) == Opening(h, req.wait || req.next, req.next, None, false, false, Resolving)
    ensures req.Delete? ==> Start(req, h, now) == Deleting(h, now)
  {
    hide Op.Owes;
  }

  // An admitted generation is new, and what its create asked for.
  lemma AdmittedStory(s: State, o: nat, tail: Option<Uint64>)
    requires Inv(s) && Known(s) && Admits(s, o, tail)
    ensures var op, id := s.ops[o], FreshId(s, s.ops[o].h, tail.value);
            Story(AdmitNext(s, o, tail, true), id,
                  Asked(s.handles[op.h].name, op.meta, s.now, op.opts.consumeOnce,
                        if op.opts.keep then 0 else if op.opts.ttl > 0 then op.opts.ttl else s.cfg.defaultTTL), None)
  {
    hide Inv, ClockAhead, Admission, Matched;
    var t := AdmitNext(s, o, tail, true);
    var id := FreshId(s, s.ops[o].h, tail.value);
    forall h | h in s.handles
      ensures !IsCurrent(s.handles[h], id) && !IsLive(s.handles[h], id)
    {
      SlotIsMinted(s, h);
    }
    forall p | p in s.ops
      ensures !Writes(s.ops[p], id)
    {
      if s.ops[p].Writing? {
        WrittenIsMinted(s, p);
      }
    }
    PublishedIsMinted(s, id);
  }

  lemma WrittenIsMinted(s: State, p: nat)
    requires Inv(s) && p in s.ops && s.ops[p].Writing?
    ensures s.ops[p].g in s.minted
  {
    hide LeaseInv, GateInv, QuotaInv, StoreInv, OneOwner, NoneLost;
    OpHolds(s, p);
    SlotIsMinted(s, s.ops[p].h);
  }

  lemma PublishedIsMinted(s: State, id: GenId)
    requires Inv(s)
    ensures id in s.published ==> id in s.minted
  {
    hide Base, QuotaInv, OpsStored, SlotsStored, FatesWell, LogsWell, SeedBounds, DownWell;
    if id in s.published {
      assert PublicationWell(s, id);
    }
  }

  // From its admission to the end of any run -- through uploads, reads, claims, deletes and sweeps of its own and every other
  // name, crashes, kills, scans and boots -- a generation has the name, the metadata, the creation instant and the
  // consume-once flag its create asked for, and a deadline exactly if it asked for one; and a reader of it holds a claim exactly
  // if its create asked for one reader.
  lemma GenerationIsWhatWasAsked(s: State, o: nat, tail: Option<Uint64>, steps: seq<Step>, t: State, h: nat, g: Generation)
    requires Reachable(s) && Admits(s, o, tail) && Run(AdmitNext(s, o, tail, true), steps, t)
    requires h in t.handles && g.id == FreshId(s, s.ops[o].h, tail.value)
    requires t.handles[h].slot.current == Some(g) || t.handles[h].slot.live == Some(g)
    ensures var op := s.ops[o];
            var span := if op.opts.keep then 0 else if op.opts.ttl > 0 then op.opts.ttl else s.cfg.defaultTTL;
            && g.name == t.handles[h].name == s.handles[op.h].name && g.meta == op.meta && g.created == s.now
            && (g.consume <==> op.opts.consumeOnce)
            && (g.state != GenLive ==> g.expires == if span > 0 then Some(g.finalized + span) else None)
  {
    hide Inv, Reachable, Run, ClockAhead, AdmitNext, Story, Known;
    var a, stamped := StoryFromAdmission(s, o, tail, steps, t);
    HandleIsItsNames(t, h, g);
    StoryOfSlot(t, h, g, a, stamped);
  }

  lemma StoryFromAdmission(s: State, o: nat, tail: Option<Uint64>, steps: seq<Step>, t: State)
    returns (a: Asked, stamped: Option<int>)
    requires Reachable(s) && Admits(s, o, tail) && Run(AdmitNext(s, o, tail, true), steps, t)
    ensures Inv(t) && Story(t, FreshId(s, s.ops[o].h, tail.value), a, stamped)
    ensures var op := s.ops[o];
            a == Asked(s.handles[op.h].name, op.meta, s.now, op.opts.consumeOnce,
                       if op.opts.keep then 0 else if op.opts.ttl > 0 then op.opts.ttl else s.cfg.defaultTTL)
  {
    hide Inv, Reachable, Run, ClockAhead, AdmitNext, Story, Known, Admission;
    ReachableInv(s);
    ReachableKnows(s);
    AdmittedStory(s, o, tail);
    AdmitKeepsInv(s, o, tail, true);
    var op := s.ops[o];
    a := Asked(s.handles[op.h].name, op.meta, s.now, op.opts.consumeOnce,
               if op.opts.keep then 0 else if op.opts.ttl > 0 then op.opts.ttl else s.cfg.defaultTTL);
    stamped := RunKeepsStory(AdmitNext(s, o, tail, true), steps, t, FreshId(s, op.h, tail.value), a, None);
  }

  lemma StoryOfSlot(t: State, h: nat, g: Generation, a: Asked, closed: Option<int>)
    requires Story(t, g.id, a, closed) && h in t.handles
    requires t.handles[h].slot.current == Some(g) || t.handles[h].slot.live == Some(g)
    ensures Answers(g, a, closed)
  {
    hide Answers, RecordAnswers, OpAnswers;
    assert SlotAnswers(t.handles[h].slot, g.id, a, closed);
  }

  lemma HandleIsItsNames(t: State, h: nat, g: Generation)
    requires Inv(t) && h in t.handles && (t.handles[h].slot.current == Some(g) || t.handles[h].slot.live == Some(g))
    ensures g.name == t.handles[h].name
  {
    hide LeaseInv, GateInv, QuotaInv, StoreInv, OpsWell, OneOwner, NoneLost;
    assert SlotWell(t, h);
  }

  // One reader, over whole runs, for every create that asked for one: in any later state each operation reading the generation
  // holds the claim on it, so there is no more than one, and it is never handed out again. A create that did not ask for it
  // never has its generation claimed.
  lemma OneReaderIfAsked(s: State, o: nat, tail: Option<Uint64>, steps: seq<Step>, t: State, p: nat, q: nat)
    requires Reachable(s) && Admits(s, o, tail) && Run(AdmitNext(s, o, tail, true), steps, t)
    requires Attaches(t, p) && t.ops[p].rstage.g == FreshId(s, s.ops[o].h, tail.value)
    ensures t.ops[p].rstage.claimed <==> s.ops[o].opts.consumeOnce
    ensures s.ops[o].opts.consumeOnce ==> t.delivered[t.ops[p].rstage.g] <= 1
    ensures s.ops[o].opts.consumeOnce && Attaches(t, q) && t.ops[q].rstage.g == t.ops[p].rstage.g ==> p == q
  {
    hide Inv, Reachable, Run, ClockAhead, AdmitNext, Story, Known;
    var a, stamped := StoryFromAdmission(s, o, tail, steps, t);
    StoryOfOp(t, p, t.ops[p].rstage.g, a, stamped);
    DeliveredOnce(t, t.ops[p].rstage.g);
    if Attaches(t, q) && t.ops[q].rstage.g == t.ops[p].rstage.g && s.ops[o].opts.consumeOnce {
      StoryOfOp(t, q, t.ops[p].rstage.g, a, stamped);
      OneClaimant(t, p, q);
    }
  }

  lemma DeliveredOnce(t: State, g: GenId)
    requires Inv(t)
    ensures t.delivered[g] <= 1
  {
    hide Base, QuotaInv;
  }

  lemma OneClaimant(t: State, p: nat, q: nat)
    requires Inv(t) && Attaches(t, p) && Attaches(t, q)
    requires t.ops[p].rstage.claimed && t.ops[q].rstage.claimed && t.ops[p].rstage.g == t.ops[q].rstage.g
    ensures p == q
  {
    hide LeaseInv, GateInv, QuotaInv, StoreInv, OpsWell, SlotsWell, NoneLost;
    assert t.ops[p].Owes() == t.ops[q].Owes() == Some(t.ops[p].rstage.g);
  }

  // -------------------------------------------------------------------------
  // Retention
  // -------------------------------------------------------------------------

  // A finalized value with this deadline is seen by an open, a stat, a list and a delete, and spared by a sweep, exactly as
  // long as its span has not run out; from then on it is the sweep's.
  lemma DeadlineIsExact(slot: Slot, v: Generation, span: int, at: int, now: int)
    requires slot.current == Some(v) && v.state == GenFinalized && v.expires == if span > 0 then Some(at + span) else None
    requires slot.live.Some? ==> slot.live.value.state == GenLive
    ensures ResolveRead(slot, now) == Found(v) <==> span <= 0 || now <= at + span
    ensures PresentCurrent(slot, now) == if span <= 0 || now <= at + span then Some(v) else None
    ensures ReapTarget(slot, now, v.id) == if span <= 0 || now <= at + span then None else Some(v)
  {
  }

  // Over runs: a write created with this request, and closed as of `at`, is its name's value for the whole span the request
  // gives -- for ever if it says keep, its own positive span, or else the store's -- from `at` on, and not a nanosecond more,
  // across crashes and boots: an open or a stat finds it, a list shows it and a delete takes it at `now` exactly while
  // `now <= at + span`, and a sweep takes it exactly after.
  lemma RetentionIsWhatWasAsked(s: State, o: nat, tail: Option<Uint64>, before: seq<Step>, m: State, w: nat, after: seq<Step>,
                                t: State, n: string, now: int)
    requires Reachable(s) && Admits(s, o, tail) && Run(AdmitNext(s, o, tail, true), before, m)
    requires UploadEnabled(m, w, SyncBytes(true)) && m.ops[w].g == FreshId(s, s.ops[o].h, tail.value)
    requires Run(SyncBytesNext(m, w, true), after, t)
    requires Value(t, n).Some? && Value(t, n).value.id == m.ops[w].g
    ensures t.reg[n] in t.handles
    ensures var opts, at, v := s.ops[o].opts, m.now, Value(t, n).value;
            var span := if opts.keep then 0 else if opts.ttl > 0 then opts.ttl else s.cfg.defaultTTL;
            var kept := span <= 0 || now <= at + span;
            && v.finalized == at
            && (ResolveRead(t.handles[t.reg[n]].slot, now) == Found(v) <==> kept)
            && Shown(t, t.reg[n], now) == (if kept then Some(v) else None)
            && ReapTarget(t.handles[t.reg[n]].slot, now, v.id) == (if kept then None else Some(v))
  {
    hide Inv, Reachable, Run, ClockAhead, AdmitNext, SyncBytesNext, Story, Known, ResolveRead, ReapTarget;
    var a, none := StoryFromAdmission(s, o, tail, before, m);
    var step := Upload(w, SyncBytes(true));
    NextKeepsInv(m, step);
    NextKeepsStory(m, step, m.ops[w].g, a, none);
    var stamped := RunKeepsStory(SyncBytesNext(m, w, true), after, t, m.ops[w].g, a, Some(m.now));
    var v := Value(t, n).value;
    StoryOfSlot(t, t.reg[n], v, a, stamped);
    SlotIsWell(t, t.reg[n]);
    DeadlineIsExact(t.handles[t.reg[n]].slot, v, a.span, m.now, now);
  }

  lemma SlotIsWell(t: State, h: nat)
    requires Inv(t) && h in t.handles
    ensures t.handles[h].slot.live.Some? ==> t.handles[h].slot.live.value.state == GenLive
  {
    hide LeaseInv, GateInv, QuotaInv, StoreInv, OpsWell, OneOwner, NoneLost;
    assert SlotWell(t, h);
  }
}
