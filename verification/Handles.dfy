// The per-name handle, its gate's critical sections, and the registry that leases and evicts handles. Each critical
// section is proved to be the transition the store machine takes in its place.
module Handles {
  import opened Common
  import opened GenIds
  import opened Generations
  import opened Records
  import opened DiskModel
  import opened Transitions

  datatype CreateError = InvalidName | NotMatched | NameBusy | NoRoom | MediumFault

  datatype DeleteError = NothingThere | RetireFault

  // What one turn of an open's wait came to.
  datatype Turn =
    | Parked(channel: nat)
    | Attached(g: GenId, cleanup: bool)                  // a reader, and whether its close destroys the generation
    | Refused(consumed: bool)
    | Declined                                           // canceled before the claim it would have spent
    | Failed(destroy: Option<GenId>)                     // a fault, and the claimed generation to destroy at once

  class ClipHandle {
    const name: string
    var leases: nat
    var current: Option<Generation>
    var live: Option<Generation>
    var lastPrefix: Uint64
    var notify: nat

    constructor (name: string)
      ensures this.name == name && leases == 0 && notify == 0 && Slot() == Generations.Slot.Slot(None, None, 0)
    {
      this.name := name;
      leases, notify, lastPrefix := 0, 0, 0;
      current, live := None, None;
    }

    // What the gate guards.
    function Slot(): Generations.Slot
      reads `current, `live, `lastPrefix
    {
      Generations.Slot.Slot(current, live, lastPrefix)
    }

    predicate Idle()
      reads this
    {
      leases == 0 && Slot().Empty()
    }

    // Closes the channel every waiter parked on, and arms a fresh one.
    method Wake()
      modifies `notify
      ensures notify == old(notify) + 1
    {
      notify := notify + 1;
    }

    // Mints the next id, unless the random tail cannot be read, which leaves the seed alone.
    method Allocate(now: int, tail: Option<Uint64>) returns (id: Option<GenId>)
      modifies `lastPrefix
      ensures tail.None? ==> id.None? && lastPrefix == old(lastPrefix)
      ensures tail.Some? ==> id == Some(GenId(NextPrefix(old(lastPrefix), now), tail.value)) && lastPrefix == id.value.prefix
    {
      var prefix := ClockPrefix(now);
      if prefix <= lastPrefix {
        prefix := (lastPrefix + 1) % (MAX_UINT64 + 1);
      }
      if tail.None? {
        return None;
      }
      lastPrefix := prefix;
      return Some(GenId(prefix, tail.value));
    }

    // createOnce's closure. The clip counter is `clips`, taken before the id is minted and given back on a fault.
    method Admit(now: int, m: Meta, o: PutOpts, defaultTTL: int, clips: int, maxClips: nat, tail: Option<Uint64>, made: bool)
      returns (g: Option<Generation>, err: Option<CreateError>, reserved: int)
      modifies `live, `lastPrefix, `notify
      ensures g.Some? <==> err.None?
      ensures var verdict := Admission(old(Slot()), now, o.ifMatch, clips, maxClips);
              && (err.None? <==> verdict == Admitted && tail.Some? && made)
              && (verdict != Admitted ==>
                    && Slot() == old(Slot())
                    && err == Some(match verdict case PreconditionFailed => NotMatched case Busy => NameBusy case _ => NoRoom))
              && (verdict == Admitted && err.Some? ==>
                    && err == Some(MediumFault) && Slot().current == old(current) && Slot().live == old(live)
                    && lastPrefix == if tail.Some? then NextPrefix(old(lastPrefix), now) else old(lastPrefix))
      ensures g.Some? ==>
                && g.value == NewGeneration(GenId(NextPrefix(old(lastPrefix), now), tail.value), name, m, now, o, defaultTTL)
                && Slot() == Install(old(Slot()), g.value)
                && g.value.name == name && g.value.meta == m && g.value.created == now && g.value.state == GenLive
                && (g.value.consume <==> o.consumeOnce)
                && g.value.ttl == (if o.keep then 0 else if o.ttl > 0 then o.ttl else defaultTTL)
                && live == g && current == old(current) && lastPrefix == g.value.id.prefix
      ensures notify == old(notify) + (if g.Some? then 1 else 0)
      ensures reserved == clips + (if g.Some? then 1 else 0)
    {
      reserved := clips;
      if o.ifMatch != "" {
        var inc := PresentCurrent(Slot(), now);
        if !(inc.Some? && (o.ifMatch == "*" || inc.value.id.String() == o.ifMatch)) {
          return None, Some(NotMatched), reserved;
        }
      }
      if live.Some? {
        return None, Some(NameBusy), reserved;
      }
      if maxClips != 0 && clips + 1 > maxClips {
        return None, Some(NoRoom), reserved;
      }
      reserved := clips + 1;
      var id := Allocate(now, tail);
      if id.None? || !made {
        return None, Some(MediumFault), clips;
      }
      var built := NewGeneration(id.value, name, m, now, o, defaultTTL);
      live := Some(built);
      Wake();
      return Some(built), None, reserved;
    }

    // Close's flip: the written generation becomes current; what it replaced is handed back, unless a reader owns it.
    method Flip(g: Generation, at: int) returns (prev: Option<GenId>)
      modifies `current, `live, `notify
      ensures Slot() == Transitions.Flip(old(Slot()), Finalize(g, at))
      ensures prev == Superseded(old(Slot())) && notify == old(notify) + 1
    {
      var cur := current;
      var prevConsumed := cur.Some? && cur.value.state == GenConsumed;
      current, live := Some(Finalize(g, at)), None;
      Wake();
      prev := if cur.Some? && !prevConsumed then Some(cur.value.id) else None;
    }

    method Discard()
      modifies `live, `notify
      ensures Slot() == Detach(old(Slot())) && notify == old(notify) + 1
    {
      live := None;
      Wake();
    }

    // retire, on the generation the caller found current: three ways, two of which clear it.
    method Retire(g: GenId, outcome: Outcome) returns (reclaim: Option<GenId>, fault: bool)
      modifies `current
      ensures Slot() == Transitions.Retire(old(Slot()), outcome)
      ensures reclaim == (if outcome == NeverTook then None else Some(g)) && fault == (outcome != TookDurable)
    {
      if outcome == NeverTook {
        return None, true;
      }
      current := None;
      return Some(g), outcome != TookDurable;
    }

    // Delete's closure: only what a reader would see is deleted.
    method Delete(now: int, outcome: Outcome) returns (reclaim: Option<GenId>, err: Option<DeleteError>)
      modifies `current, `notify
      ensures var cur := PresentCurrent(old(Slot()), now);
              if cur.None? then Slot() == old(Slot()) && reclaim.None? && err == Some(NothingThere)
              else && Slot() == Transitions.Retire(old(Slot()), outcome)
                   && reclaim == (if outcome == NeverTook then None else Some(cur.value.id))
                   && err == (if outcome == TookDurable then None else Some(RetireFault))
      ensures notify == old(notify) + (if reclaim.Some? then 1 else 0)
    {
      var cur := PresentCurrent(Slot(), now);
      if cur.None? {
        return None, Some(NothingThere);
      }
      var fault;
      reclaim, fault := Retire(cur.value.id, outcome);
      if reclaim.Some? {
        Wake();
      }
      err := if fault then Some(RetireFault) else None;
    }

    // reapRemove's closure: the recheck by id, then the same retire.
    method Reap(now: int, id: GenId, outcome: Outcome) returns (reclaim: Option<GenId>)
      modifies `current, `notify
      ensures var cur := ExpiredCurrent(old(Slot()), now);
              if cur.Some? && cur.value.id == id then
                Slot() == Transitions.Retire(old(Slot()), outcome) && reclaim == (if outcome == NeverTook then None else Some(id))
              else Slot() == old(Slot()) && reclaim.None?
      ensures notify == old(notify) + (if reclaim.Some? then 1 else 0)
    {
      var cur := ExpiredCurrent(Slot(), now);
      if cur.None? || cur.value.id != id {
        return None;
      }
      var ignored;
      reclaim, ignored := Retire(id, outcome);
      if reclaim.Some? {
        Wake();
      }
    }

    // cleanupConsumed's closure: a replacement that has superseded the delivered generation is left alone.
    method ClearConsumed(id: GenId)
      modifies `current, `notify
      ensures Slot() == Clear(old(Slot()), id)
      ensures notify == old(notify) + (if Slot() == old(Slot()) then 0 else 1)
    {
      if current.Some? && current.value.id == id {
        current := None;
        Wake();
      }
    }

    // One turn of an open: resolve, and park on the channel captured under the same hold, or commit under it -- claim a
    // finalized consume-once generation, then open the reader.
    method AwaitTurn(now: int, cursor: Option<GenId>, wait: bool, canceled: bool, claim: Outcome, opens: bool) returns (t: Turn)
      modifies `current, `notify
      ensures var r := Resolve(old(Slot()), cursor, now);
              var claims := r.Found? && r.gen.state == GenFinalized && r.gen.consume;
              && (t.Parked? <==> r == NotFound && wait) && (t.Parked? ==> t.channel == notify)
              && (r == NotFound && !wait ==> t == Refused(false)) && (r == AlreadyConsumed ==> t == Refused(true))
              && (!claims ==> Slot() == old(Slot()) && notify == old(notify))
              && (r.Found? && !claims ==> t == if opens then Attached(r.gen.id, false) else Failed(None))
              && (claims && canceled ==> Slot() == old(Slot()) && notify == old(notify) && t == Declined)
              && (claims && !canceled ==>
                    && old(current) == Some(r.gen) && Slot() == Transitions.Claim(old(Slot()), claim)
                    && notify == old(notify) + (if claim == TookDurable then 1 else 0)
                    && t == match claim
                            case NeverTook => Failed(None)
                            case TookUnflushed => Failed(Some(r.gen.id))
                            case TookDurable => if opens then Attached(r.gen.id, true) else Failed(Some(r.gen.id)))
      requires live.Some? ==> live.value.state == GenLive
    {
      var r := Resolve(Slot(), cursor, now);
      match r
      case NotFound => return if wait then Parked(notify) else Refused(false);
      case AlreadyConsumed => return Refused(true);
      case Found(g) =>
        var consumed := false;
        if g.state == GenFinalized && g.consume {
          if canceled {
            return Declined;
          }
          current := Some(g.(state := GenConsumed));
          if claim == TookUnflushed {
            return Failed(Some(g.id));
          }
          if claim == NeverTook {
            current := Some(g);
            return Failed(None);
          }
          consumed := true;
        }
        if consumed {
          Wake();
        }
        if !opens {
          return Failed(if consumed then Some(g.id) else None);
        }
        return Attached(g.id, consumed);
    }
  }

  class Registry {
    var handles: map<string, ClipHandle>
    ghost var built: set<ClipHandle>                     // every handle ever handed out

    // What each registered name holds.
    ghost function Slots(): map<string, Generations.Slot>
      reads this, handles.Values
    {
      map n | n in handles :: handles[n].Slot()
    }

    // A handle with a lease or a generation is the one its name maps to, and the map holds no other.
    ghost predicate Valid()
      reads this, built
    {
      && (forall n | n in handles :: handles[n] in built && handles[n].name == n && !handles[n].Idle())
      && (forall h | h in built && !h.Idle() :: h.name in handles && handles[h.name] == h)
    }

    constructor ()
      ensures Valid() && handles == map[] && built == {}
    {
      handles, built := map[], {};
    }

    // The name's handle, built if absent, with a lease taken.
    method Acquire(name: string) returns (h: ClipHandle)
      requires Valid()
      modifies this, built
      ensures Valid() && h in built && h.name == name && handles == old(handles)[name := h]
      ensures if name in old(handles) then built == old(built) && h == old(handles)[name] && h.leases == old(handles[name].leases) + 1
                                           && h.Slot() == old(handles[name].Slot()) && h.notify == old(handles[name].notify)
              else fresh(h) && built == old(built) + {h} && h.leases == 1 && h.Slot().Empty() && h.lastPrefix == 0
      ensures forall k | k in old(built) && k != h :: k.leases == old(k.leases) && k.Slot() == old(k.Slot()) && k.notify == old(k.notify)
      ensures Slots() == if name in old(handles) then old(Slots())
                         else old(Slots())[name := Generations.Slot.Slot(None, None, 0)]
    {
      if name !in handles {
        h := new ClipHandle(name);
        handles := handles[name := h];
        built := built + {h};
      } else {
        h := handles[name];
        assert handles == handles[name := h];
      }
      h.leases := h.leases + 1;
    }

    // Drops a lease; the last one out of an empty handle evicts it.
    method Release(h: ClipHandle)
      requires Valid() && h in built && h.leases > 0
      modifies this, h
      ensures Valid() && built == old(built) && h.leases == old(h.leases) - 1
      ensures h.Slot() == old(h.Slot()) && h.notify == old(h.notify)
      ensures handles == if h.Idle() then old(handles) - {h.name} else old(handles)
      ensures Slots() == if h.Idle() then old(Slots()) - {h.name} else old(Slots())
    {
      h.leases := h.leases - 1;
      if h.leases == 0 {
        var empty := h.current.None? && h.live.None?;
        if empty {
          handles := handles - {h.name};
        }
      }
    }

    // The set a list or a sweep walks, with no lock held across it.
    method Snapshot() returns (hs: set<ClipHandle>)
      requires Valid()
      ensures hs == handles.Values
    {
      hs := {};
      var names := handles.Keys;
      while names != {}
        invariant names <= handles.Keys
        invariant hs == set n | n in handles && n !in names :: handles[n]
        decreases names
      {
        var n :| n in names;
        hs := hs + {handles[n]};
        names := names - {n};
      }
    }
  }

  // No name has two handles in use.
  lemma OneHandlePerName(r: Registry, h: ClipHandle, k: ClipHandle)
    requires r.Valid() && h in r.built && k in r.built && !h.Idle() && !k.Idle() && h.name == k.name
    ensures h == k && h in r.handles.Values
  {
    assert r.handles[h.name] == h;
  }

  // With no lease out, the map holds exactly the names that have a generation.
  lemma AtRestOnlyGenerationsKeepHandles(r: Registry, n: string)
    requires r.Valid() && forall h | h in r.built :: h.leases == 0
    ensures n in r.handles <==> exists h | h in r.built :: h.name == n && !h.Slot().Empty()
  {
    if n in r.handles {
      assert r.handles[n] in r.built;
    }
  }
}
