// The critical sections of one name's gate, as functions of the slot they run on. Each also says whether it wakes
// the parked waiters; the machine and the handle class are both built on these.
module Transitions {
  import opened Common
  import opened GenIds
  import opened Generations
  import opened DiskModel

  datatype PutOpts = PutOpts(ttl: int, keep: bool, consumeOnce: bool, ifMatch: string)

  datatype Config = Config(maxClip: nat, maxTotal: nat, maxClips: nat, defaultTTL: int, checksum: bool)

  // The retention span a write carries: zero never expires.
  function ResolveTTL(o: PutOpts, defaultTTL: int): int {
    if o.keep then 0 else if o.ttl > 0 then o.ttl else defaultTTL
  }

  // The deadline Close stamps from that span.
  function DeadlineAt(ttl: int, finalized: int): Option<int> {
    if ttl > 0 then Some(finalized + ttl) else None
  }

  datatype Verdict = PreconditionFailed | Busy | NoSpace | Admitted

  // The generation a conditional write asserts, if the readable value satisfies the condition.
  function Matched(slot: Slot, now: int, ifMatch: string): Option<Generation> {
    var present := PresentCurrent(slot, now);
    if present.Some? && (ifMatch == "*" || present.value.id.String() == ifMatch) then present else None
  }

  // A write is refused for a failed precondition before it is refused for a busy name, and for that before the cap.
  function Admission(slot: Slot, now: int, ifMatch: string, clips: int, maxClips: nat): Verdict {
    if ifMatch != "" && Matched(slot, now, ifMatch).None? then PreconditionFailed
    else if slot.live.Some? then Busy
    else if maxClips != 0 && clips + 1 > maxClips then NoSpace
    else Admitted
  }

  function NewGeneration(id: GenId, name: string, m: Meta, now: int, o: PutOpts, defaultTTL: int): Generation {
    Generation(id, name, m, now, ResolveTTL(o, defaultTTL), 0, None, o.consumeOnce, GenLive)
  }

  // createOnce, once admitted: the new generation becomes the live one. Wakes.
  function Install(slot: Slot, g: Generation): Slot {
    slot.(live := Some(g), lastPrefix := g.id.prefix)
  }

  // The finalized form a live generation takes at the publish flip.
  function Finalize(g: Generation, at: int): Generation {
    g.(state := GenFinalized, finalized := at, expires := DeadlineAt(g.ttl, at))
  }

  // Close's flip: the live generation, finalized, becomes the current one. Wakes.
  function Flip(slot: Slot, g: Generation): Slot {
    slot.(current := Some(g), live := None)
  }

  // What the flip hands back for reclamation: the value it replaced, unless a reader already owns that one's end.
  function Superseded(slot: Slot): Option<GenId> {
    if slot.current.Some? && slot.current.value.state != GenConsumed then Some(slot.current.value.id) else None
  }

  // discard: the live generation is detached. Wakes.
  function Detach(slot: Slot): Slot { slot.(live := None) }

  // retire: the finalized current is cleared once its rename took; wakes exactly then.
  function Retire(slot: Slot, outcome: Outcome): Slot {
    if outcome == NeverTook then slot else slot.(current := None)
  }

  // commitRead's claim: a rename that never took is reverted, one that took consumes the current generation.
  function Claim(slot: Slot, outcome: Outcome): Slot
    requires slot.current.Some?
  {
    if outcome == NeverTook then slot else slot.(current := Some(slot.current.value.(state := GenConsumed)))
  }

  // cleanupConsumed: clear the current pointer if it still names the delivered generation; wakes exactly then.
  function Clear(slot: Slot, id: GenId): Slot {
    if slot.current.Some? && slot.current.value.id == id then slot.(current := None) else slot
  }
}
