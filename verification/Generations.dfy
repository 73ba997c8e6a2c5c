// A generation, the pair of generations one name can carry, and the rules that say which one a caller sees.
module Generations {
  import opened Common
  import opened GenIds

  datatype GenState = GenLive | GenFinalized | GenConsumed

  datatype Meta = Meta(kind: string, filename: string, executable: bool)

  // One complete write of a name. Its byte log is kept apart, keyed by `id`.
  datatype Generation = Generation(
    id: GenId, name: string, meta: Meta, created: int, ttl: int,
    finalized: int, expires: Option<int>, consume: bool, state: GenState)
  {
    // Strictly past the deadline; no deadline never expires.
    predicate Expired(now: int) {
      expires.Some? && now > expires.value
    }
  }

  // The state the gate of one name guards: `current`, `live` and the id seed.
  datatype Slot = Slot(current: Option<Generation>, live: Option<Generation>, lastPrefix: Uint64) {
    predicate Empty() {
      current.None? && live.None?
    }

    // No generation of the name can be later than the seed, and the one in flight follows the one it will replace.
    predicate Ordered() {
      && (current.Some? ==> 0 < current.value.id.prefix <= lastPrefix)
      && (live.Some? ==> 0 < live.value.id.prefix <= lastPrefix)
      && (current.Some? && live.Some? ==> current.value.id.prefix < live.value.id.prefix)
    }
  }

  datatype Resolution = Found(gen: Generation) | AlreadyConsumed | NotFound

  function PresentCurrent(slot: Slot, now: int): Option<Generation> {
    if slot.current.Some? && slot.current.value.state == GenFinalized && !slot.current.value.Expired(now)
    then slot.current
    else None
  }

  function ExpiredCurrent(slot: Slot, now: int): Option<Generation> {
    if slot.current.Some? && slot.current.value.state == GenFinalized && slot.current.value.Expired(now)
    then slot.current
    else None
  }

  function ResolveRead(slot: Slot, now: int): Resolution {
    var present := PresentCurrent(slot, now);
    if present.Some? then Found(present.value)
    else if slot.live.Some? && !slot.live.value.consume then Found(slot.live.value)
    else if slot.current.Some? && slot.current.value.state == GenConsumed then AlreadyConsumed
    else NotFound
  }

  function FollowResolve(slot: Slot, baseline: GenId, now: int): Resolution {
    var present := PresentCurrent(slot, now);
    if present.Some? && present.value.id.After(baseline) then Found(present.value)
    else if slot.live.Some? && !slot.live.value.consume then Found(slot.live.value)
    else NotFound
  }

  // What an open resolves, by whichever of the two rules it runs under.
  function Resolve(slot: Slot, cursor: Option<GenId>, now: int): Resolution {
    if cursor.Some? then FollowResolve(slot, cursor.value, now) else ResolveRead(slot, now)
  }

  // -------------------------------------------------------------------------
  // What the rules guarantee
  // -------------------------------------------------------------------------

  // The two selectors split every finalized current between the readers and the reaper, leaving nothing to neither.
  lemma SelectorsPartitionTheCurrent(slot: Slot, now: int)
    ensures !(PresentCurrent(slot, now).Some? && ExpiredCurrent(slot, now).Some?)
    ensures PresentCurrent(slot, now).Some? || ExpiredCurrent(slot, now).Some? <==>
            slot.current.Some? && slot.current.value.state == GenFinalized
  {
  }

  // Retention is exact: a finalized generation is never resolved past its deadline, a live consume-once one is
  // never resolved at all, and a consumed one never again.
  lemma ResolutionRespectsRetention(slot: Slot, cursor: Option<GenId>, now: int)
    requires slot.live.Some? ==> slot.live.value.state == GenLive
    ensures var r := Resolve(slot, cursor, now);
            r.Found? ==>
              && (r.gen.state == GenFinalized ==> slot.current == Some(r.gen) && !r.gen.Expired(now))
              && (r.gen.state == GenLive ==> slot.live == Some(r.gen) && !r.gen.consume)
              && r.gen.state != GenConsumed
  {
  }

  // A replacement being written stays invisible while a present finalized value stands.
  lemma ReplacementIsInvisible(slot: Slot, replacement: Option<Generation>, now: int)
    requires PresentCurrent(slot, now).Some?
    ensures ResolveRead(slot.(live := replacement), now) == ResolveRead(slot, now) == Found(slot.current.value)
  {
  }

  // Follow-next only ever attaches to something newer than its cursor, provided the seed bounded the cursor
  // when it was captured and anything in flight was minted past it.
  lemma FollowNextIsNewer(slot: Slot, baseline: GenId, now: int)
    requires slot.live.Some? ==> slot.live.value.id.prefix > baseline.prefix
    ensures var r := FollowResolve(slot, baseline, now);
            r.Found? ==> r.gen.id.After(baseline)
  {
  }

  // Time alone never makes an absent name readable: what is not found stays not found as the clock advances.
  lemma WaitingOnlyEndsByAChange(slot: Slot, cursor: Option<GenId>, now: int, later: int)
    requires now <= later
    requires Resolve(slot, cursor, now) == NotFound
    ensures Resolve(slot, cursor, later) == NotFound
  {
  }
}
