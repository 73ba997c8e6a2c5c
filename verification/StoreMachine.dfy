// The store as a state machine: every operation in flight, interleaved one atomic step at a time.
//
// A step is one critical section of a gate, one registry call, one access to the quota counters or one stage of the
// durable protocol; between two steps of an operation any other operation, a crash or the clock may move. A rename
// and the flush that follows it are one step with three outcomes, because a crash between the two leaves the disk
// as the failed flush followed by a crash leaves it.
module StoreMachine {
  import opened Common
  import opened GenIds
  import opened Generations
  import opened Records
  import opened DiskModel
  import opened Transitions

  // A per-name handle. `notify` numbers the channel waiters capture: replacing the channel is adding one.
  datatype Handle = Handle(name: string, leases: int, slot: Slot, notify: nat)

  datatype LogEnd = Open | Finished | Torn

  // A generation's in-memory byte log.
  datatype Log = Log(bytes: seq<Byte>, end: LogEnd)

  datatype WriterStage =
    | Idle
    | Reserved(chunk: seq<Byte>)          // budget taken, append not run
    | ShortBy(tail: nat)                  // append stored less than was reserved
    | Synced(at: int)                     // Close stamped the finalize instant and flushed the bytes
    | Published(at: int)                  // the record is durable, the flip has not run
    | Failing(tookRename: bool)           // Close failed; discard is owed

  datatype ReaderStage =
    | Resolving
    | Parked(channel: nat)
    | Reading(g: GenId, claimed: bool)

  // An operation in flight. Every one but a sweep and its observations holds a lease on its handle.
  datatype Op =
    | Creating(h: nat, opts: PutOpts, meta: Meta)
    | Writing(h: nat, g: GenId, matched: Option<GenId>, stage: WriterStage)
    | Finishing(h: nat, g: GenId, prev: Option<GenId>)    // flipped; the log's end and `prev` are owed
    | Tearing(h: nat, g: GenId)                            // detached; the log's end and `g` are owed
    | Opening(h: nat, wait: bool, next: bool, cursor: Option<GenId>, canceled: bool, elapsed: bool, rstage: ReaderStage)
    | Deleting(h: nat, at: int)
    | Sweeping(at: int)                                    // a retention sweep, at the instant it judges by
    | Observed(at: int, name: string, id: GenId)           // what a sweep saw expired
    | Reaping(h: nat, at: int, id: GenId)
    | Owing(h: nat, g: GenId, clear: bool)                 // a detached generation to reclaim, then perhaps to clear
    | Clearing(h: nat, g: GenId)
    | Leaving(h: nat)                                      // only the lease is left to give back
  {
    predicate Leased() { !Observed? && !Sweeping? }

    // The generation whose log this operation will end.
    function EndsLog(): Option<GenId> { if Writing? || Finishing? || Tearing? then Some(g) else None }

    // The generation this operation will reclaim.
    function Owes(): Option<GenId> {
      match this
      case Finishing(_, _, prev) => prev
      case Tearing(_, g) => Some(g)
      case Owing(_, g, _) => Some(g)
      case Opening(_, _, _, _, _, _, Reading(g, true)) => Some(g)
      case _ => None
    }

    // The consumed generation this operation will clear from its slot.
    function Clears(): Option<GenId> {
      match this
      case Owing(_, g, true) => Some(g)
      case Clearing(_, g) => Some(g)
      case Opening(_, _, _, _, _, _, Reading(g, true)) => Some(g)
      case _ => None
    }

    // Bytes reserved and not (or no longer) stored.
    function Held(): nat {
      if Writing? && stage.Reserved? then |stage.chunk|
      else if Writing? && stage.ShortBy? then stage.tail
      else 0
    }
  }

  // What a publish made of a generation: its record and the bytes beside it.
  datatype Publication = Publication(record: Record, bytes: seq<Byte>)

  datatype State = State(
    cfg: Config,
    // memory, lost at a crash
    up: bool, now: int,
    handles: map<nat, Handle>, reg: map<string, nat>,
    bytes: int, clips: int,
    extant: set<GenId>, logs: map<GenId, Log>, ops: map<nat, Op>,
    // storage
    disk: Disk,
    // history
    steady: bool,                              // the clock has never stepped back
    settled: bool,                             // no process was killed since the machine last went down
    restored: set<GenId>, baseBytes: nat,      // what the last boot restored, and its footprint
    minted: map<GenId, string>,                // every id ever minted, with its name
    published: map<GenId, Publication>,        // publish renames that took
    acked: set<GenId>,                         // writes whose Close flipped, and so returned nil
    ended: set<GenId>,                         // superseded, claimed or retired since
    gone: set<GenId>,                          // claimed, deleted or retired by an abort, durably
    delivered: multiset<GenId>)                // readers handed out on consume-once generations
  {
    function SetOp(o: nat, op: Op): State { this.(ops := ops[o := op]) }

    function SetSlot(h: nat, slot: Slot, wake: bool): State
      requires h in handles
    {
      this.(handles := handles[h := handles[h].(slot := slot, notify := handles[h].notify + if wake then 1 else 0)])
    }

    function SetDir(g: GenId, dir: GenDir): State { this.(disk := disk[g := dir]) }

    // registry.acquire for an operation `o`: the name's handle, built if absent, with one more lease.
    function Acquire(o: nat, h: nat, name: string, op: Op): State
      requires name in reg ==> h == reg[name] && h in handles
    {
      var hd := if name in reg then handles[h] else Handle(name, 0, Slot(None, None, 0), 0);
      this.(handles := handles[h := hd.(leases := hd.leases + 1)], reg := reg[name := h], ops := ops[o := op])
    }

    // The handle an acquire of `name` may return, and an unused operation number.
    predicate MayAcquire(o: nat, h: nat, name: string) {
      up && o !in ops && ValidName(name) && if name in reg then h == reg[name] && h in handles else h !in handles
    }
  }

  // What a caller may ask of a name. A stat reads under its lease and leaves.
  datatype Request =
    | Create(opts: PutOpts, meta: Meta)
    | OpenRead(wait: bool, next: bool)
    | Delete
    | Stat

  // The operation a request starts as, once it holds its lease.
  function Start(req: Request, h: nat, now: int): Op {
    match req
    case Create(opts, meta) => Creating(h, opts, Normalized(meta))
    case OpenRead(wait, next) => Opening(h, wait || next, next, None, false, false, Resolving)
    case Delete => Deleting(h, now)
    case Stat => Leaving(h)
  }

  // The steps of one upload between its admission and the end of its log.
  datatype UploadStep =
    | Admit(tail: Option<Uint64>, made: bool)
    | Reserve(chunk: seq<Byte>)
    | Append(stored: nat)
    | ReturnTail
    | SyncBytes(ok: bool)
    | Publish(outcome: Outcome)
    | FlipCurrent
    | FinishLog
    | AbortPublish(outcome: Outcome)
    | Discard
    | TearLog

  datatype Step =
    | Tick(t: int)
    | Begin(o: nat, h: nat, name: string, req: Request)
    | Upload(o: nat, u: UploadStep)
    | Reclaim(o: nat, removal: Removal)
    | ClearCurrent(o: nat)
    | Release(o: nat)
    | ResolveOpen(o: nat, claim: Outcome, attached: bool)
    | WakeUp(o: nat)
    | Cancel(o: nat)
    | Elapse(o: nat)
    | CloseReader(o: nat)
    | DeleteCurrent(o: nat, outcome: Outcome)
    | SweepBegin(o: nat)
    | Observe(o: nat, sweep: nat, h: nat)
    | ReapBegin(o: nat, h: nat)
    | ReapCurrent(o: nat, outcome: Outcome)
    | Crash(after: Disk)                   // the machine goes down
    | Kill                                 // only the process does
    | ScanPartly(after: Disk)
    | Reconfigure(cfg: Config)
    | Boot(after: Disk, hs: map<nat, Handle>, names: map<string, nat>)

  // -------------------------------------------------------------------------
  // Step by step
  // -------------------------------------------------------------------------

  // Operation `o` is in flight and its handle is at hand.
  predicate At(s: State, o: nat) {
    s.up && o in s.ops && s.ops[o].Leased() && s.ops[o].h in s.handles
  }

  // The generation's log and directory are at hand. Guards of this kind never refuse a step: see NothingIsMissing.
  predicate Has(s: State, g: GenId) { g in s.logs && g in s.disk }

  // The one assumption on the clock: a name whose handle has not yet minted or recovered an id (it was evicted, or
  // the name is new) meets a clock ahead of every id of that name a crash could still bring back.
  ghost predicate ClockAhead(s: State, name: string, id: GenId) {
    forall g | g in s.disk && g in s.minted && s.minted[g] == name && s.disk[g].MayReturn() :: id.prefix > g.prefix
  }

  function FreshId(s: State, h: nat, tail: Uint64): GenId
    requires h in s.handles
  {
    GenId(NextPrefix(s.handles[h].slot.lastPrefix, s.now), tail)
  }

  ghost predicate AdmitEnabled(s: State, o: nat, tail: Option<Uint64>) {
    && At(s, o) && s.ops[o].Creating?
    && var h := s.ops[o].h;
       tail.Some? ==>
         && s.handles[h].slot.lastPrefix < MAX_UINT64
         && FreshId(s, h, tail.value) !in s.minted && FreshId(s, h, tail.value) !in s.disk
         && (s.handles[h].slot.lastPrefix == 0 ==> ClockAhead(s, s.handles[h].name, FreshId(s, h, tail.value)))
  }

  // createOnce's transition. A failed create has already moved the id seed; a failed random read has not.
  ghost function AdmitNext(s: State, o: nat, tail: Option<Uint64>, made: bool): State
    requires AdmitEnabled(s, o, tail)
  {
    var op := s.ops[o];
    var hd := s.handles[op.h];
    var refused := s.SetOp(o, Leaving(op.h));
    if Admission(hd.slot, s.now, op.opts.ifMatch, s.clips, s.cfg.maxClips) != Admitted || tail.None? then refused
    else
      var id := FreshId(s, op.h, tail.value);
      if !made then
        refused.SetSlot(op.h, hd.slot.(lastPrefix := id.prefix), false)
               .(minted := s.minted[id := hd.name], disk := s.disk[id := GenDir.HalfMade()])
      else
        var matched := if op.opts.ifMatch == "" then None
                       else Some(Matched(hd.slot, s.now, op.opts.ifMatch).value.id);
        var g := NewGeneration(id, hd.name, op.meta, s.now, op.opts, s.cfg.defaultTTL);
        s.SetOp(o, Writing(op.h, id, matched, Idle))
         .SetSlot(op.h, Install(hd.slot, g), true)
         .(clips := s.clips + 1, extant := s.extant + {id}, logs := s.logs[id := Log([], Open)],
           minted := s.minted[id := hd.name], disk := s.disk[id := GenDir.Fresh()])
  }

  predicate IsWriting(s: State, o: nat) { At(s, o) && s.ops[o].Writing? && Has(s, s.ops[o].g) }

  // quota.reserve, after the per-clip check: refused without a trace when either cap is in the way.
  ghost function ReserveNext(s: State, o: nat, chunk: seq<Byte>): State
    requires IsWriting(s, o)
  {
    var op := s.ops[o];
    if s.cfg.maxClip != 0 && |s.logs[op.g].bytes| + |chunk| > s.cfg.maxClip then s
    else if s.cfg.maxTotal != 0 && s.bytes + |chunk| > s.cfg.maxTotal then s
    else s.SetOp(o, op.(stage := Reserved(chunk))).(bytes := s.bytes + |chunk|)
  }

  // The append, which a disk may cut short; the tail it did not store is still reserved.
  ghost function AppendNext(s: State, o: nat, stored: nat): State
    requires IsWriting(s, o) && s.ops[o].stage.Reserved? && stored <= |s.ops[o].stage.chunk|
  {
    var op := s.ops[o];
    var p := op.stage.chunk[..stored];
    s.SetOp(o, op.(stage := ShortBy(|op.stage.chunk| - stored)))
     .SetDir(op.g, s.disk[op.g].Append(p))
     .(logs := s.logs[op.g := s.logs[op.g].(bytes := s.logs[op.g].bytes + p)])
  }

  ghost function ReturnTailNext(s: State, o: nat): State
    requires IsWriting(s, o) && s.ops[o].stage.ShortBy?
  {
    s.SetOp(o, s.ops[o].(stage := Idle)).(bytes := s.bytes - s.ops[o].stage.tail)
  }

  // Close: the finalize instant is stamped, then the bytes are flushed.
  ghost function SyncBytesNext(s: State, o: nat, ok: bool): State
    requires IsWriting(s, o)
  {
    var op := s.ops[o];
    if ok then s.SetOp(o, op.(stage := Synced(s.now))).SetDir(op.g, s.disk[op.g].SyncData())
    else s.SetOp(o, op.(stage := Failing(false)))
  }

  predicate IsPublishing(s: State, o: nat) {
    IsWriting(s, o) && s.ops[o].stage.Synced? && s.handles[s.ops[o].h].slot.live.Some?
  }

  // finalize: the record is written and renamed in. A record that could not be written never took.
  ghost function PublishNext(s: State, o: nat, outcome: Outcome): State
    requires IsPublishing(s, o)
  {
    var op := s.ops[o];
    var dir := s.disk[op.g];
    var content := s.logs[op.g].bytes;
    var record := RecordOf(Finalize(s.handles[op.h].slot.live.value, op.stage.at), content, s.cfg.checksum);
    var t := s.SetDir(op.g, dir.Commit(Some(record), outcome));
    match outcome
    case NeverTook => t.SetOp(o, op.(stage := Failing(false)))
    case TookUnflushed => t.SetOp(o, op.(stage := Failing(true)))
                           .(published := s.published[op.g := Publication(record, content)])
    case TookDurable => t.SetOp(o, op.(stage := Published(op.stage.at)))
                         .(published := s.published[op.g := Publication(record, content)])
  }

  predicate IsFlipping(s: State, o: nat) {
    IsWriting(s, o) && s.ops[o].stage.Published? && s.handles[s.ops[o].h].slot.live.Some?
  }

  // Close's flip. From here Close returns nil.
  ghost function FlipNext(s: State, o: nat): State
    requires IsFlipping(s, o)
  {
    var op := s.ops[o];
    var slot := s.handles[op.h].slot;
    s.SetSlot(op.h, Flip(slot, Finalize(slot.live.value, op.stage.at)), true)
     .SetOp(o, Finishing(op.h, op.g, Superseded(slot)))
     .(acked := s.acked + {op.g}, ended := s.ended + if slot.current.Some? then {slot.current.value.id} else {})
  }

  predicate IsFinishing(s: State, o: nat) { At(s, o) && s.ops[o].Finishing? && Has(s, s.ops[o].g) }

  // The log ends cleanly, after the flip; then whatever the flip replaced is to be reclaimed.
  ghost function FinishLogNext(s: State, o: nat): State
    requires IsFinishing(s, o)
  {
    var op := s.ops[o];
    s.SetOp(o, if op.prev.Some? then Owing(op.h, op.prev.value, false) else Leaving(op.h))
     .(logs := s.logs[op.g := s.logs[op.g].(end := Finished)])
  }

  // abortPublish: the marker of a publish that took is renamed aside before the generation is discarded.
  ghost function AbortPublishNext(s: State, o: nat, outcome: Outcome): State
    requires IsWriting(s, o)
  {
    var op := s.ops[o];
    s.SetOp(o, op.(stage := Failing(false)))
     .SetDir(op.g, s.disk[op.g].Commit(None, outcome))
     .(gone := if outcome == TookDurable then s.gone + {op.g} else s.gone)
  }

  ghost function DiscardNext(s: State, o: nat): State
    requires IsWriting(s, o)
  {
    var op := s.ops[o];
    s.SetSlot(op.h, Detach(s.handles[op.h].slot), true).SetOp(o, Tearing(op.h, op.g))
  }

  predicate IsTearing(s: State, o: nat) { At(s, o) && s.ops[o].Tearing? && Has(s, s.ops[o].g) }

  ghost function TearLogNext(s: State, o: nat): State
    requires IsTearing(s, o)
  {
    var op := s.ops[o];
    s.SetOp(o, Owing(op.h, op.g, false)).(logs := s.logs[op.g := s.logs[op.g].(end := Torn)])
  }

  predicate IsOwing(s: State, o: nat) { At(s, o) && s.ops[o].Owing? && Has(s, s.ops[o].g) }

  // reclaim: the home is removed as far as the disk allows, and the quota footprint is given back regardless.
  ghost function ReclaimNext(s: State, o: nat, removal: Removal): State
    requires IsOwing(s, o)
  {
    var op := s.ops[o];
    s.SetOp(o, if op.clear then Clearing(op.h, op.g) else Leaving(op.h))
     .SetDir(op.g, s.disk[op.g].Remove(removal))
     .(bytes := s.bytes - |s.logs[op.g].bytes|, clips := s.clips - 1, extant := s.extant - {op.g})
  }

  ghost function ClearNext(s: State, o: nat): State
    requires At(s, o) && s.ops[o].Clearing?
  {
    var op := s.ops[o];
    var slot := s.handles[op.h].slot;
    s.SetSlot(op.h, Clear(slot, op.g), Clear(slot, op.g) != slot).SetOp(o, Leaving(op.h))
  }

  // registry.release: the last lease on an empty handle evicts it.
  ghost function ReleaseNext(s: State, o: nat): State
    requires At(s, o) && s.ops[o].Leaving?
  {
    var h := s.ops[o].h;
    var hd := s.handles[h].(leases := s.handles[h].leases - 1);
    s.(handles := s.handles[h := hd], ops := s.ops - {o},
       reg := if hd.leases == 0 && hd.slot.Empty() then s.reg - {hd.name} else s.reg)
  }

  predicate IsResolving(s: State, o: nat) { At(s, o) && s.ops[o].Opening? && s.ops[o].rstage == Resolving }

  // The cursor a follow-next open resolves with: captured at its first resolve, never again.
  function CursorOf(op: Op, slot: Slot): Option<GenId>
    requires op.Opening?
  {
    if op.next && op.cursor.None? then Some(if slot.current.Some? then slot.current.value.id else ZERO_ID)
    else op.cursor
  }

  function Resolved(s: State, o: nat): Resolution
    requires IsResolving(s, o)
  {
    var hd := s.handles[s.ops[o].h];
    Resolve(hd.slot, CursorOf(s.ops[o], hd.slot), s.now)
  }

  predicate Claimable(r: Resolution) { r.Found? && r.gen.state == GenFinalized && r.gen.consume }

  // A rename of the marker out of its name only takes where there is one.
  ghost predicate RenamesMarker(s: State, target: Option<Generation>, outcome: Outcome) {
    target.Some? && outcome != NeverTook ==> target.value.id in s.disk && s.disk[target.value.id].marker.now.Some?
  }

  ghost predicate ResolveEnabled(s: State, o: nat, claim: Outcome) {
    && IsResolving(s, o)
    && RenamesMarker(s, s.handles[s.ops[o].h].slot.current, claim)
  }

  // One turn of await: resolve, then park, fail, or claim and open under the same hold.
  ghost function ResolveNext(s: State, o: nat, claim: Outcome, attached: bool): State
    requires ResolveEnabled(s, o, claim)
  {
    var hd := s.handles[s.ops[o].h];
    var op := s.ops[o].(cursor := CursorOf(s.ops[o], hd.slot));
    var r := Resolved(s, o);
    if Claimable(r) then ClaimNext(s, o, op, r.gen, claim, attached)
    else s.SetOp(o, Unclaimed(op, r, hd.notify, attached))
  }

  // Where a resolve that claims nothing leaves its reader: parked on the channel it captured, attached, or gone.
  function Unclaimed(op: Op, r: Resolution, channel: nat, attached: bool): Op
    requires op.Opening?
  {
    match r
    case NotFound => if op.wait then op.(rstage := Parked(channel)) else Leaving(op.h)
    case AlreadyConsumed => Leaving(op.h)
    case Found(g) => if attached then op.(rstage := Reading(g.id, false)) else Leaving(op.h)
  }

  ghost function ClaimNext(s: State, o: nat, op: Op, g: Generation, claim: Outcome, attached: bool): State
    requires op.Opening? && op.h in s.handles && s.handles[op.h].slot.current == Some(g)
    requires RenamesMarker(s, Some(g), claim)
  {
    if op.canceled || claim == NeverTook then s.SetOp(o, Leaving(op.h))
    else if claim == TookUnflushed then ClaimForfeits(s, o, op, g)
    else ClaimSticks(s, o, op, g, attached)
  }

  // The claim took, but may not last: the generation is destroyed with no reader, and nobody is woken.
  ghost function ClaimForfeits(s: State, o: nat, op: Op, g: Generation): State
    requires op.Opening? && op.h in s.handles && s.handles[op.h].slot.current.Some? && g.id in s.disk
  {
    s.(handles := s.handles[op.h := s.handles[op.h].(slot := Claim(s.handles[op.h].slot, TookUnflushed))],
       disk := s.disk[g.id := s.disk[g.id].Commit(None, TookUnflushed)],
       ops := s.ops[o := Owing(op.h, g.id, true)],
       ended := s.ended + {g.id})
  }

  // The claim took for good: the one delivery is made, unless its reader could not be opened.
  ghost function ClaimSticks(s: State, o: nat, op: Op, g: Generation, attached: bool): State
    requires op.Opening? && op.h in s.handles && s.handles[op.h].slot.current.Some? && g.id in s.disk
  {
    s.(handles := s.handles[op.h := s.handles[op.h].(slot := Claim(s.handles[op.h].slot, TookDurable),
                                                     notify := s.handles[op.h].notify + 1)],
       disk := s.disk[g.id := s.disk[g.id].Commit(None, TookDurable)],
       ops := s.ops[o := if attached then op.(rstage := Reading(g.id, true)) else Owing(op.h, g.id, true)],
       ended := s.ended + {g.id}, gone := s.gone + {g.id},
       delivered := if attached then s.delivered + multiset{g.id} else s.delivered)
  }

  // The park ends only when the captured channel was replaced or the wait's context ended.
  predicate WakeEnabled(s: State, o: nat) {
    && At(s, o) && s.ops[o].Opening? && s.ops[o].rstage.Parked?
    && (s.ops[o].rstage.channel != s.handles[s.ops[o].h].notify || s.ops[o].canceled || s.ops[o].elapsed)
  }

  function WakeNext(s: State, o: nat): State
    requires WakeEnabled(s, o)
  {
    var op := s.ops[o];
    s.SetOp(o, if op.canceled || op.elapsed then Leaving(op.h) else op.(rstage := Resolving))
  }

  predicate ReaderOpen(s: State, o: nat) { At(s, o) && s.ops[o].Opening? && s.ops[o].rstage.Reading? }

  function CloseReaderNext(s: State, o: nat): State
    requires ReaderOpen(s, o)
  {
    var op := s.ops[o];
    s.SetOp(o, if op.rstage.claimed then Owing(op.h, op.rstage.g, true) else Leaving(op.h))
  }

  // retire, on the current generation a deleter or the reaper selected.
  ghost function RetireNext(s: State, o: nat, h: nat, target: Option<Generation>, outcome: Outcome): State
    requires h in s.handles && RenamesMarker(s, target, outcome)
    requires target.Some? ==> s.handles[h].slot.current == target
  {
    if target.None? || outcome == NeverTook then s.SetOp(o, Leaving(h))
    else
      var g := target.value.id;
      s.SetSlot(h, Retire(s.handles[h].slot, outcome), true)
       .SetDir(g, s.disk[g].Commit(None, outcome))
       .SetOp(o, Owing(h, g, false))
       .(ended := s.ended + {g}, gone := if outcome == TookDurable then s.gone + {g} else s.gone)
  }

  // The reaper rechecks its observation: the same generation, still finalized, still expired.
  function ReapTarget(slot: Slot, at: int, id: GenId): Option<Generation> {
    var e := ExpiredCurrent(slot, at);
    if e.Some? && e.value.id == id then e else None
  }

  // reapCandidates: what the sweep records of an expired current is its name and id, never the handle.
  predicate ObserveEnabled(s: State, o: nat, sweep: nat, h: nat) {
    && s.up && o !in s.ops && sweep in s.ops && s.ops[sweep].Sweeping?
    && h in s.handles && ExpiredCurrent(s.handles[h].slot, s.ops[sweep].at).Some?
  }

  ghost function ObserveNext(s: State, o: nat, sweep: nat, h: nat): State
    requires ObserveEnabled(s, o, sweep, h)
  {
    var g := s.handles[h].slot.current.value;
    s.SetOp(o, Observed(s.ops[sweep].at, g.name, g.id))
  }

  ghost predicate DeleteEnabled(s: State, o: nat, outcome: Outcome) {
    && At(s, o) && s.ops[o].Deleting?
    && RenamesMarker(s, PresentCurrent(s.handles[s.ops[o].h].slot, s.ops[o].at), outcome)
  }

  // reapRemove re-acquires by name; it may meet a fresh handle, or one that holds something else by now.
  predicate ReapBeginEnabled(s: State, o: nat, h: nat) {
    && s.up && o in s.ops && s.ops[o].Observed?
    && if s.ops[o].name in s.reg then h == s.reg[s.ops[o].name] && h in s.handles else h !in s.handles
  }

  function ReapBeginNext(s: State, o: nat, h: nat): State
    requires ReapBeginEnabled(s, o, h)
  {
    var op := s.ops[o];
    s.Acquire(o, h, op.name, Reaping(h, op.at, op.id))
  }

  ghost predicate ReapEnabled(s: State, o: nat, outcome: Outcome) {
    && At(s, o) && s.ops[o].Reaping?
    && RenamesMarker(s, ReapTarget(s.handles[s.ops[o].h].slot, s.ops[o].at, s.ops[o].id), outcome)
  }

  ghost function DeleteNext(s: State, o: nat, outcome: Outcome): State
    requires DeleteEnabled(s, o, outcome)
  {
    var op := s.ops[o];
    RetireNext(s, o, op.h, PresentCurrent(s.handles[op.h].slot, op.at), outcome)
  }

  ghost function ReapNext(s: State, o: nat, outcome: Outcome): State
    requires ReapEnabled(s, o, outcome)
  {
    var op := s.ops[o];
    RetireNext(s, o, op.h, ReapTarget(s.handles[op.h].slot, op.at, op.id), outcome)
  }

  // -------------------------------------------------------------------------
  // Crash and recovery
  // -------------------------------------------------------------------------

  function CrashNext(s: State, after: Disk): State {
    s.(up := false, disk := after, handles := map[], reg := map[], bytes := 0, clips := 0, extant := {},
       logs := map[], ops := map[], settled := true)
  }

  // The process dies on a machine that stays up: the disk is as it was seen, flushed or not.
  function KillNext(s: State): State { CrashNext(s, s.disk).(settled := false) }

  // restore: each name with a survivor has one unleased handle holding it, the id seed taken from it.
  ghost predicate Restores(disk: Disk, verify: bool, hs: map<nat, Handle>, names: map<string, nat>) {
    && (forall n | n in names :: names[n] in hs && hs[names[n]].name == n)
    && (forall h | h in hs :: hs[h].name in names && names[hs[h].name] == h)
    && (forall h | h in hs ::
          && hs[h].leases == 0 && hs[h].slot.live.None? && hs[h].slot.current.Some?
          && var g := hs[h].slot.current.value;
             && Survives(disk, g.id, verify)
             && g == Recovered(g.id, disk[g.id].marker.now.value)
             && g.name == hs[h].name
             && hs[h].slot.lastPrefix == g.id.prefix)
    && (forall id | id in disk && Survives(disk, id, verify) ::
          && disk[id].marker.now.value.name in names
          && hs[names[disk[id].marker.now.value.name]].slot.current.Some?
          && hs[names[disk[id].marker.now.value.name]].slot.current.value.id == id)
  }

  ghost function Survivors(disk: Disk, verify: bool): set<GenId> {
    set id | id in disk && Survives(disk, id, verify)
  }

  // What a scan does not keep.
  ghost function Losers(disk: Disk, verify: bool): set<GenId> {
    set id | id in disk && !Survives(disk, id, verify)
  }

  // A scan cut short: some of its removals ran, and nothing serves yet.
  ghost function ScanNext(s: State, after: Disk): State {
    s.(disk := after, ended := s.ended + Losers(s.disk, s.cfg.checksum))
  }

  ghost function BootNext(s: State, after: Disk, hs: map<nat, Handle>, names: map<string, nat>): State {
    var kept := Survivors(s.disk, s.cfg.checksum);
    var footprint := Sum(map id | id in kept :: |s.disk[id].bytes|);
    s.(up := true, disk := after, handles := hs, reg := names, extant := kept,
       clips := |kept|, bytes := footprint, restored := kept, baseBytes := footprint,
       logs := map id | id in kept :: Log(s.disk[id].bytes, Finished),
       ended := s.ended + Losers(s.disk, s.cfg.checksum))
  }

  // -------------------------------------------------------------------------
  // The machine
  // -------------------------------------------------------------------------

  ghost predicate UploadEnabled(s: State, o: nat, u: UploadStep) {
    match u
    case Admit(tail, _) => AdmitEnabled(s, o, tail)
    case Reserve(_) => IsWriting(s, o) && s.ops[o].stage.Idle?
    case Append(stored) => IsWriting(s, o) && s.ops[o].stage.Reserved? && stored <= |s.ops[o].stage.chunk|
    case ReturnTail => IsWriting(s, o) && s.ops[o].stage.ShortBy?
    case SyncBytes(_) => IsWriting(s, o) && s.ops[o].stage.Idle?
    case Publish(_) => IsPublishing(s, o)
    case FlipCurrent => IsFlipping(s, o)
    case FinishLog => IsFinishing(s, o)
    case AbortPublish(_) => IsWriting(s, o) && s.ops[o].stage == Failing(true)
    case Discard => IsWriting(s, o) && (s.ops[o].stage.Idle? || s.ops[o].stage == Failing(false))
    case TearLog => IsTearing(s, o)
  }

  ghost function UploadNext(s: State, o: nat, u: UploadStep): State
    requires UploadEnabled(s, o, u)
  {
    match u
    case Admit(tail, made) => AdmitNext(s, o, tail, made)
    case Reserve(chunk) => ReserveNext(s, o, chunk)
    case Append(stored) => AppendNext(s, o, stored)
    case ReturnTail => ReturnTailNext(s, o)
    case SyncBytes(ok) => SyncBytesNext(s, o, ok)
    case Publish(outcome) => PublishNext(s, o, outcome)
    case FlipCurrent => FlipNext(s, o)
    case FinishLog => FinishLogNext(s, o)
    case AbortPublish(outcome) => AbortPublishNext(s, o, outcome)
    case Discard => DiscardNext(s, o)
    case TearLog => TearLogNext(s, o)
  }

  ghost predicate Enabled(s: State, step: Step) {
    match step
    case Tick(_) => true
    case Begin(o, h, name, _) => s.MayAcquire(o, h, name)
    case Upload(o, u) => UploadEnabled(s, o, u)
    case Reclaim(o, _) => IsOwing(s, o)
    case ClearCurrent(o) => At(s, o) && s.ops[o].Clearing?
    case Release(o) => At(s, o) && s.ops[o].Leaving?
    case ResolveOpen(o, claim, _) => ResolveEnabled(s, o, claim)
    case WakeUp(o) => WakeEnabled(s, o)
    case Cancel(o) => At(s, o) && s.ops[o].Opening?
    case Elapse(o) => At(s, o) && s.ops[o].Opening? && s.ops[o].wait
    case CloseReader(o) => ReaderOpen(s, o)
    case DeleteCurrent(o, outcome) => DeleteEnabled(s, o, outcome)
    case SweepBegin(o) => s.up && o !in s.ops
    case Observe(o, sweep, h) => ObserveEnabled(s, o, sweep, h)
    case ReapBegin(o, h) => ReapBeginEnabled(s, o, h)
    case ReapCurrent(o, outcome) => ReapEnabled(s, o, outcome)
    case Crash(after) => MayCrashInto(s.disk, after)
    case Kill => s.up
    case ScanPartly(after) => !s.up && ScanLeaves(s.disk, after, s.cfg.checksum)
    case Reconfigure(_) => !s.up
    case Boot(after, hs, names) => && !s.up && ScanLeaves(s.disk, after, s.cfg.checksum)
                                   && Restores(s.disk, s.cfg.checksum, hs, names)
  }

  ghost function Next(s: State, step: Step): State
    requires Enabled(s, step)
  {
    match step
    case Tick(t) => s.(now := t, steady := s.steady && t >= s.now)
    case Begin(o, h, name, req) => s.Acquire(o, h, name, Start(req, h, s.now))
    case Upload(o, u) => UploadNext(s, o, u)
    case Reclaim(o, removal) => ReclaimNext(s, o, removal)
    case ClearCurrent(o) => ClearNext(s, o)
    case Release(o) => ReleaseNext(s, o)
    case ResolveOpen(o, claim, attached) => ResolveNext(s, o, claim, attached)
    case WakeUp(o) => WakeNext(s, o)
    case Cancel(o) => s.SetOp(o, s.ops[o].(canceled := true))
    case Elapse(o) => s.SetOp(o, s.ops[o].(elapsed := true))
    case CloseReader(o) => CloseReaderNext(s, o)
    case DeleteCurrent(o, outcome) => DeleteNext(s, o, outcome)
    case SweepBegin(o) => s.SetOp(o, Sweeping(s.now))
    case Observe(o, sweep, h) => ObserveNext(s, o, sweep, h)
    case ReapBegin(o, h) => ReapBeginNext(s, o, h)
    case ReapCurrent(o, outcome) => ReapNext(s, o, outcome)
    case Crash(after) => CrashNext(s, after)
    case Kill => KillNext(s)
    case ScanPartly(after) => ScanNext(s, after)
    case Reconfigure(cfg) => s.(cfg := cfg)
    case Boot(after, hs, names) => BootNext(s, after, hs, names)
  }

  // An empty store over an empty data directory.
  predicate Init(s: State) {
    && s.up && s.handles == map[] && s.reg == map[] && s.bytes == 0 && s.clips == 0 && s.extant == {}
    && s.logs == map[] && s.ops == map[] && s.disk == map[] && s.steady && s.settled && s.baseBytes == 0 && s.restored == {}
    && s.minted == map[] && s.published == map[] && s.acked == {} && s.ended == {} && s.gone == {}
    && s.delivered == multiset{}
  }
}
