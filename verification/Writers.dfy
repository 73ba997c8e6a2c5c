// One upload, from the writer a create returns to its one terminal.
module Writers {
  import opened Common
  import opened GenIds
  import opened Generations
  import opened Records
  import opened DiskModel
  import opened Transitions
  import opened Handles
  import opened Medium
  import opened Quota
  import opened StoreMachine

  datatype WriteFailure = AfterTerminal | TooLarge | OutOfSpace | BackingFailed

  // The view of a generation a response is framed by.
  datatype View = View(
    name: string, id: GenId, meta: Meta, size: nat, created: int, consume: bool,
    finalized: bool, finalizedAt: Option<int>, expires: Option<int>)

  // An upload in flight has neither a finalize instant nor a deadline to show.
  function ViewOf(g: Generation, size: nat): View {
    if g.state == GenLive then View(g.name, g.id, g.meta, size, g.created, g.consume, false, None, None)
    else View(g.name, g.id, g.meta, size, g.created, g.consume, true, Some(g.finalized), g.expires)
  }

  // What a counter that held `was` may hold at some moment among these rivals.
  predicate LeftBy(was: int, rivals: seq<int>, c: int) { c == was || c in rivals }

  class Writer {
    const reg: Registry
    const h: ClipHandle
    const limits: Limits
    const home: Home
    const g: Generation
    var log: Log
    var written: nat
    var done: bool
    var framing: View

    // The writer of a generation just admitted, holding the handle's lease.
    constructor (reg: Registry, h: ClipHandle, limits: Limits, home: Home, g: Generation)
      requires g.state == GenLive
      ensures this.reg == reg && this.h == h && this.limits == limits && this.home == home && this.g == g
      ensures log == Log([], Open) && written == 0 && !done
    {
      this.reg, this.h, this.limits, this.home, this.g := reg, h, limits, home, g;
      log, written, done := Log([], Open), 0, false;
      framing := ViewOf(g, 0);
    }

    // Between calls: the running total is the log's length, and until its terminal the writer holds a lease on the
    // handle whose live generation it writes.
    ghost predicate Valid()
      reads this, h, reg, reg.built, limits
    {
      && g.state == GenLive && limits.bytes != limits.clips
      && (!done ==> written == |log.bytes| && log.end == Open
                    && reg.Valid() && h in reg.built && h.leases > 0 && h.live == Some(g))
    }

    // Takes room for `n` bytes among rivals: at once, or after one sweep, which frees `freed` bytes, and whatever rivals did
    // meanwhile. It decides on the very total it swaps or gives up on: `seen`.
    method ReserveOrSweep(n: nat, freed: nat, first: seq<int>, second: seq<int>) returns (ok: bool, ghost seen: int)
      modifies limits.bytes
      ensures ok <==> Claimed(seen, n, limits.maxTotal).Some?
      ensures limits.bytes.value == if ok then Claimed(seen, n, limits.maxTotal).value else seen
      ensures LeftBy(old(limits.bytes.value), first, seen) || seen in second
              || exists c :: LeftBy(old(limits.bytes.value), first, c) && seen == Wrap(c - freed)
    {
      hide Wrap, Claimed;
      ok, seen := limits.Reserve(n, first);
      if !ok {
        ghost var refusedOn := seen;
        limits.Release(freed);
        ok, seen := limits.Reserve(n, second);
        assert LeftBy(old(limits.bytes.value), first, refusedOn);
      }
    }

    // Admits a chunk whole or refuses it whole; what the backing then did not store is given back at once. When the
    // total cap is in the way, a sweep frees `freed` bytes before the one retry.
    method Write(p: seq<Byte>, freed: nat, stored: nat, first: seq<int>, second: seq<int>)
      returns (n: nat, err: Option<WriteFailure>, ghost seen: int)
      requires Valid() && stored <= |p|
      modifies `log, `written, limits.bytes
      ensures Valid()
      ensures old(done) <==> err == Some(AfterTerminal)
      ensures !old(done) ==> (err == Some(TooLarge) <==> !limits.PerClipOK(old(written), |p|))
      ensures !old(done) && old(|log.bytes|) + |p| <= MAX_INT64 ==>
                (err == Some(TooLarge) <==> limits.maxClip != 0 && old(|log.bytes|) + |p| > limits.maxClip)
      ensures err in {None, Some(OutOfSpace), Some(BackingFailed)} ==>
                && (err == Some(OutOfSpace) <==> Claimed(seen, |p|, limits.maxTotal).None?)
                && (0 <= seen && seen + |p| <= MAX_INT64 ==>
                      (err == Some(OutOfSpace) <==> limits.maxTotal != 0 && seen + |p| > limits.maxTotal))
      ensures err in {Some(AfterTerminal), Some(TooLarge)} ==> limits.bytes.value == old(limits.bytes.value)
      ensures err == Some(OutOfSpace) ==> limits.bytes.value == seen
      ensures err in {Some(AfterTerminal), Some(TooLarge), Some(OutOfSpace)} ==> n == 0 && log == old(log)
      ensures err in {None, Some(BackingFailed)} ==>
                && n == stored && log.bytes == old(log.bytes) + p[..stored] && (err.None? <==> stored == |p|)
                && (0 <= seen && seen + |p| <= MAX_INT64 ==>
                      limits.bytes.value == seen + stored && (limits.maxTotal != 0 ==> limits.bytes.value <= limits.maxTotal))
      ensures limits.maxClip != 0 && old(|log.bytes|) <= limits.maxClip && old(written) + |p| <= MAX_INT64 ==>
                |log.bytes| <= limits.maxClip
    {
      hide Wrap;
      WrapIsExact(written + |p|);
      seen := limits.bytes.value;
      if done {
        return 0, Some(WriteFailure.AfterTerminal), seen;
      }
      if !limits.PerClipOK(written, |p|) {
        return 0, Some(TooLarge), seen;
      }
      var ok;
      ok, seen := ReserveOrSweep(|p|, freed, first, second);
      WrapIsExact(seen + |p|);
      if !ok {
        return 0, Some(OutOfSpace), seen;
      }
      WrapIsExact(seen + stored);
      log := log.(bytes := log.bytes + p[..stored]);
      limits.Release(|p| - stored);
      written := written + stored;
      return stored, if stored == |p| then None else Some(BackingFailed), seen;
    }

    // Gives back a generation's whole footprint: its home as far as the disk allows, and its quota regardless.
    method Reclaim(size: nat)
      requires limits.bytes != limits.clips
      modifies limits.bytes, limits.clips
      ensures limits.clips.value == Wrap(old(limits.clips.value) - 1)
      ensures limits.bytes.value == if size == 0 then old(limits.bytes.value) else Wrap(old(limits.bytes.value) - size)
    {
      limits.ReleaseGen(size);
    }

    // The lease goes back exactly once: every terminal sets `done` first.
    method End()
      requires !done && reg.Valid() && h in reg.built && h.leases > 0
      modifies `done, reg, h
      ensures done && reg.Valid() && reg.built == old(reg.built) && h.leases == old(h.leases) - 1
      ensures h.Slot() == old(h.Slot()) && h.notify == old(h.notify)
    {
      done := true;
      reg.Release(h);
    }

    // Detaches the live generation, tears its log, reclaims it. The current value is never touched.
    method Discard()
      requires Valid() && !done
      modifies this, h, reg, limits.bytes, limits.clips
      ensures Valid() && done && h.Slot() == Detach(old(h.Slot())) && h.notify == old(h.notify) + 1
      ensures log == old(log).(end := Torn)
      ensures framing == View(g.name, g.id, g.meta, |log.bytes|, g.created, g.consume, false, None, None)
      ensures h.leases == old(h.leases) - 1
      ensures limits.clips.value == Wrap(old(limits.clips.value) - 1)
      ensures limits.bytes.value == if |log.bytes| == 0 then old(limits.bytes.value) else Wrap(old(limits.bytes.value) - |log.bytes|)
    {
      framing := ViewOf(g, |log.bytes|);
      h.Discard();
      log := log.(end := Torn);
      Reclaim(|log.bytes|);
      End();
    }

    // A failed finalize, turned into an abort: a publish that took is retired durably before the teardown.
    method Fail(committed: bool, retires: bool, retireFlushes: bool)
      requires Valid() && !done
      modifies this, h, reg, home, limits.bytes, limits.clips
      ensures Valid() && done && h.Slot() == Detach(old(h.Slot())) && h.notify == old(h.notify) + 1
      ensures log == old(log).(end := Torn) && !framing.finalized && h.leases == old(h.leases) - 1
      ensures limits.clips.value == Wrap(old(limits.clips.value) - 1)
      ensures !committed ==> home.dir == old(home.dir)
      ensures home.fsync && committed && retires && retireFlushes ==> home.dir == old(home.dir).Commit(None, TookDurable)
    {
      hide Wrap;
      if committed {
        var retired, durable := home.RenameAside(retires, retireFlushes);
      }
      Discard();
    }

    // Abort, safe to call again.
    method Abort()
      requires Valid()
      modifies this, h, reg, limits.bytes, limits.clips
      ensures Valid() && done
      ensures old(done) ==> log == old(log) && h.leases == old(h.leases) && h.Slot() == old(h.Slot()) && framing == old(framing)
      ensures !old(done) ==> h.Slot() == Detach(old(h.Slot())) && log == old(log).(end := Torn) && h.leases == old(h.leases) - 1
    {
      if !done {
        Discard();
      }
    }

    // The flip and what follows it off the lock: followers reach their end, the superseded generation is reclaimed.
    method Publish(now: int, prevSize: nat)
      requires Valid() && !done
      modifies this, h, reg, limits.bytes, limits.clips
      ensures Valid() && done && h.Slot() == Flip(old(h.Slot()), Finalize(g, now)) && h.notify == old(h.notify) + 1
      ensures log == old(log).(end := Finished)
      ensures var expires := if g.ttl > 0 then Some(now + g.ttl) else None;
              && framing == View(g.name, g.id, g.meta, |log.bytes|, g.created, g.consume, true, Some(now), expires)
              && h.live.None? && h.current.Some? && h.current.value.id == g.id && h.current.value.state == GenFinalized
              && h.current.value.finalized == now && h.current.value.expires == expires
              && h.current.value.consume == g.consume && h.current.value.meta == g.meta
      ensures h.leases == old(h.leases) - 1
      ensures limits.clips.value == (if Superseded(old(h.Slot())).Some? then Wrap(old(limits.clips.value) - 1)
                                     else old(limits.clips.value))
    {
      hide Wrap, Superseded;
      var prev := h.Flip(g, now);
      framing := ViewOf(Finalize(g, now), |log.bytes|);
      log := log.(end := Finished);
      if prev.Some? {
        Reclaim(prevSize);
      }
      End();
    }

    // Close: stamp the instant, flush the bytes, publish the record, flip. A failure anywhere before the flip is an
    // abort -- preceded, when the publish had taken, by retiring it -- and leaves the current value standing. The
    // superseded generation's footprint is `prevSize` bytes.
    method Close(now: int, syncs: bool, hashes: bool, writes: bool, renames: bool, flushes: bool,
                 retires: bool, retireFlushes: bool, prevSize: nat)
      returns (ok: bool)
      requires Valid() && (!done ==> home.dir.bytes == log.bytes)
      modifies this, h, reg, home, limits.bytes, limits.clips
      ensures Valid() && done
      ensures old(done) ==> !ok && log == old(log) && h.Slot() == old(h.Slot()) && h.leases == old(h.leases)
      ensures !old(done) ==> h.leases == old(h.leases) - 1 && h.notify == old(h.notify) + 1 && log.bytes == old(log.bytes)
      ensures ok ==>
                && h.Slot() == Flip(old(h.Slot()), Finalize(g, now)) && log.end == Finished
                && var expires := if g.ttl > 0 then Some(now + g.ttl) else None;
                && h.live.None? && h.current.Some? && h.current.value.id == g.id && h.current.value.state == GenFinalized
                && h.current.value.finalized == now && h.current.value.expires == expires
                && h.current.value.consume == g.consume && h.current.value.meta == g.meta
                && framing == View(g.name, g.id, g.meta, |log.bytes|, g.created, g.consume, true, Some(now), expires)
                && limits.clips.value == (if Superseded(old(h.Slot())).Some? then Wrap(old(limits.clips.value) - 1)
                                          else old(limits.clips.value))
                && (home.fsync ==> home.dir == old(home.dir).SyncData()
                                                 .Commit(Some(RecordOf(Finalize(g, now), log.bytes, home.checksum)), TookDurable))
      ensures !ok && !old(done) ==>
                && h.Slot() == Detach(old(h.Slot())) && h.current == old(h.current) && log.end == Torn
                && !framing.finalized && limits.clips.value == Wrap(old(limits.clips.value) - 1)
                && (home.fsync && retires && retireFlushes && old(home.dir).marker == Settled(None) ==> home.dir.Sealed())
    {
      hide Wrap, RecordOf, Finalize, Superseded, ValidName;
      if done {
        return false;
      }
      var finalized := Finalize(g, now);
      var synced := home.Sync(syncs);
      if !synced {
        Fail(false, retires, retireFlushes);
        return false;
      }
      var committed, published := home.Finalize(finalized, hashes, writes, renames, flushes);
      if !published {
        Fail(committed, retires, retireFlushes);
        return false;
      }
      Publish(now, prevSize);
      return true;
    }

    // The view for response headers: live until the terminal, then what that terminal fixed.
    method Clip() returns (v: View)
      requires Valid()
      ensures done ==> v == framing
      ensures !done ==> v == View(g.name, g.id, g.meta, |log.bytes|, g.created, g.consume, false, None, None)
    {
      if done {
        return framing;
      }
      return ViewOf(g, |log.bytes|);
    }
  }
}
