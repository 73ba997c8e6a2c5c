// From a write's Close to a client's copy: what a client holds after a clean read is one published generation, whole.
module EndToEnd {
  import opened Common
  import opened GenIds
  import opened Generations
  import opened Records
  import opened Quota
  import opened Handles
  import Transitions
  import L = ByteLog
  import C = Completion
  import M = StoreMachine
  import R = Runs
  import S = Survival
  import T = Storage
  import I = Invariant
  import G = LogMirror
  import F = Refinement
  import O = Ownership
  import P = Progress
  import RS = ReadShare
  import SS = StorageSteps
  import LS = Leases
  import opened DiskModel

  // A log that ended cleanly holds exactly what its generation published; a value's log does so from its flip on.
  lemma FinishedLogsArePublished(m: M.State, g: GenId)
    requires R.Reachable(m) && g in m.logs && m.logs[g].end == M.Finished
    ensures g in m.published && m.published[g].bytes == m.logs[g].bytes
    ensures m.published[g].record.size == |m.logs[g].bytes| && m.published[g].record.generation == g.String()
  {
    hide R.Reachable;
    R.ReachableInv(m);
    assert T.PublicationWell(m, g);
  }

  lemma ValuesArePublished(m: M.State, name: string)
    requires R.Reachable(m) && S.Value(m, name).Some?
    ensures var g := S.Value(m, name).value.id;
            g in m.logs && g in m.published && m.published[g].bytes == m.logs[g].bytes
  {
    hide R.Reachable;
    R.ReachableInv(m);
    assert T.SlotStored(m, m.handles[m.reg[name]]);
  }

  // What an open that resolved `g` opens on its log: a follower of an upload in flight, a section of anything else.
  function Attached(m: M.State, o: nat, r: nat): L.Step
    requires M.IsResolving(m, o) && M.Resolved(m, o).Found?
  {
    if M.Resolved(m, o).gen.state == GenLive then L.Follow(r) else L.OpenSection(r)
  }

  lemma AttachmentIsResolved(m: M.State, o: nat, claim: Outcome)
    requires I.Inv(m) && M.ResolveEnabled(m, o, claim) && F.Attaches(M.ResolveNext(m, o, claim, true), o)
    ensures M.Resolved(m, o).Found? && M.ResolveNext(m, o, claim, true).ops[o].rstage.g == M.Resolved(m, o).gen.id
  {
    hide M.ResolveNext, M.Resolved, I.Inv;
    if M.Claimable(M.Resolved(m, o)) {
      ClaimedIsCurrent(m, o);
      F.AttachesClaimed(m, o, claim, true);
    } else {
      F.AttachesUnclaimed(m, o, claim, true);
    }
  }

  lemma ClaimedIsCurrent(m: M.State, o: nat)
    requires I.Inv(m) && M.IsResolving(m, o) && M.Claimable(M.Resolved(m, o))
    ensures m.handles[m.ops[o].h].slot.current == Some(M.Resolved(m, o).gen)
  {
    assert O.SlotWell(m, m.ops[o].h);
    P.ResolvedCurrent(m, o);
  }

  // A reader is only ever given a section of what has been published; nothing is appended to that log any more.
  lemma SectionsArePublished(m: M.State, o: nat, g: GenId)
    requires I.Inv(m) && M.IsResolving(m, o) && M.Resolved(m, o).Found? && M.Resolved(m, o).gen.state != GenLive
    requires g == M.Resolved(m, o).gen.id
    ensures g in m.published && g in m.logs && !G.Growing(m, g)
  {
    var h := m.ops[o].h;
    assert O.SlotWell(m, h) && T.SlotStored(m, m.handles[h]);
    F.ResolvedIsPresentOrLive(m, o);
    assert O.IsCurrent(m.handles[h], g);
    forall p | p in m.ops
      ensures !G.Grows(m.ops[p], g)
    {
      if m.ops[p].Writing? {
        SS.WrittenIsNotFinal(m, p, h);
      }
    }
  }

  // And that reader can always be opened: an upload in flight may be followed, and whatever else an open resolves has a log that
  // will grow no more.
  lemma AttachmentIsPossible(m: M.State, o: nat, claim: Outcome, first: L.State, r: nat)
    requires I.Inv(m) && M.ResolveEnabled(m, o, claim) && F.Attaches(M.ResolveNext(m, o, claim, true), o)
    requires G.Mirrors(M.ResolveNext(m, o, claim, true), M.ResolveNext(m, o, claim, true).ops[o].rstage.g, first)
    requires r !in first.readers && M.Resolved(m, o).Found?
    ensures L.Enabled(first, Attached(m, o, r)) && L.Captured(first)
  {
    hide M.ResolveNext, M.Resolved, I.Inv, L.ReaderWell, L.LogWell;
    AttachmentIsResolved(m, o, claim);
    L.CapturesExist(first);
    var g := M.Resolved(m, o).gen.id;
    if M.Resolved(m, o).gen.state != GenLive {
      SectionsArePublished(m, o, g);
      LS.ResolveMoves(m, o, claim, true);
      NothingStartsToGrow(m, M.ResolveNext(m, o, claim, true), o, g);
    }
  }

  lemma NothingStartsToGrow(m: M.State, n: M.State, o: nat, g: GenId)
    requires LS.Moves(m, n, o) && F.Attaches(n, o) && !G.Growing(m, g)
    ensures !G.Growing(n, g)
  {
    forall p | p in n.ops
      ensures !G.Grows(n.ops[p], g)
    {
      assert p in m.ops && (p == o || n.ops[p] == m.ops[p]);
    }
  }

  lemma PublishedStays(m: M.State, o: nat, claim: Outcome, steps: seq<M.Step>, n: M.State, g: GenId)
    requires R.Reachable(m) && M.ResolveEnabled(m, o, claim) && g in m.published
    requires R.Run(M.ResolveNext(m, o, claim, true), steps, n)
    ensures g in n.published && n.published[g] == m.published[g]
  {
    hide R.Reachable, I.Inv, R.Run, M.ResolveNext, M.ResolveEnabled;
    var step := M.ResolveOpen(o, claim, true);
    assert M.Enabled(m, step) && M.Next(m, step) == M.ResolveNext(m, o, claim, true);
    R.ReachableInv(m);
    I.NextKeepsInv(m, step);
    R.ResolveRemembers(m, o, claim, true);
    R.RunRemembers(M.ResolveNext(m, o, claim, true), steps, n);
  }

  // A client whose copy ended cleanly holds exactly the bytes of a published generation, whole: the one its open resolved.
  // On the live arm that is because the log it followed finished; on the finalized arm because what it was opened on was
  // published already, however it was claimed, superseded, deleted or reaped while the client read. No torn upload,
  // lost byte, truncated file, aborted handler or short transfer ends that way.
  lemma CleanReadIsAPublishedGeneration(m: M.State, o: nat, claim: Outcome, first: L.State, r: nat, moves: seq<G.Move>,
                                        n: M.State, s: L.State, resp: C.Response, rx: C.Received, out: seq<Byte>)
    requires R.Reachable(m) && M.ResolveEnabled(m, o, claim) && F.Attaches(M.ResolveNext(m, o, claim, true), o)
    requires var g := M.ResolveNext(m, o, claim, true).ops[o].rstage.g;
             && L.Reachable(first) && r !in first.readers && G.Mirrors(M.ResolveNext(m, o, claim, true), g, first)
             && M.Resolved(m, o).Found? && L.Enabled(first, Attached(m, o, r)) && L.Captured(first)
             && G.Together(M.ResolveNext(m, o, claim, true), L.Next(first, Attached(m, o, r)), g, moves, n, s)
    requires r in s.readers && C.Streamed(s.readers[r].results, s.readers[r].Section?, s.size, resp)
    requires C.Carried(resp, rx) && C.Copied(rx, out, Some(L.EndOfFile))
    ensures var g := M.ResolveNext(m, o, claim, true).ops[o].rstage.g;
            && g in n.published && out == n.published[g].bytes
            && (M.Resolved(m, o).gen.state != GenLive ==> g in m.published && out == m.published[g].bytes)
            && (s.readers[r].Section? <==> M.Resolved(m, o).gen.state != GenLive)
  {
    hide R.Reachable, L.Reachable, C.Streamed, C.Carried, C.Copied, I.Inv, G.Mirrors, G.Together, M.ResolveNext, M.Resolved,
         L.LogInv, L.Captured, L.Enabled, L.Next, F.Attaches, L.Run;
    var m1, s1 := M.ResolveNext(m, o, claim, true), L.Next(first, Attached(m, o, r));
    R.ReachableInv(m);
    AttachmentIsResolved(m, o, claim);
    var g := M.Resolved(m, o).gen.id;
    AttachKeepsInv(m, o, claim);
    AttachOpens(first, Attached(m, o, r), r);
    G.ReaderStepKeepsMirror(m1, g, first, Attached(m, o, r));
    var steps := G.TogetherKeepsMirror(m1, s1, g, moves, n, s, r);
    var logged := G.TogetherIsARunOfTheLog(m1, s1, g, moves, n, s);
    LogReaches(first, Attached(m, o, r), logged, s);
    C.CleanCopyIsTheWholeLog(s, r, resp, rx, out);
    MirroredBytes(n, g, s);
    if M.Resolved(m, o).gen.state != GenLive {
      SectionsArePublished(m, o, g);
      PublishedStays(m, o, claim, steps, n, g);
    }
    LogsArePublished(n, g);
  }

  lemma AttachKeepsInv(m: M.State, o: nat, claim: Outcome)
    requires I.Inv(m) && M.ResolveEnabled(m, o, claim)
    ensures I.Inv(M.ResolveNext(m, o, claim, true))
  {
    hide I.Inv, M.ResolveEnabled, M.ResolveNext;
    var step := M.ResolveOpen(o, claim, true);
    assert M.Enabled(m, step) && M.Next(m, step) == M.ResolveNext(m, o, claim, true);
    I.NextKeepsInv(m, step);
  }

  lemma AttachOpens(first: L.State, step: L.Step, r: nat)
    requires L.Enabled(first, step) && L.Captured(first) && (step == L.Follow(r) || step == L.OpenSection(r))
    ensures G.IsReaderLogStep(step) && r in L.Next(first, step).readers
    ensures L.Next(first, step).readers[r].Section? <==> step == L.OpenSection(r)
  {
  }

  lemma LogReaches(first: L.State, step: L.Step, logged: seq<L.Step>, s: L.State)
    requires L.Reachable(first) && L.Enabled(first, step) && L.Captured(first) && L.Run(L.Next(first, step), logged, s)
    ensures L.Reachable(s)
  {
    hide L.Enabled, L.Next, L.Captured;
    var init, before :| (L.Init(init) || L.Sealed(init)) && L.Run(init, before, first);
    assert ([step] + logged)[1..] == logged;
    G.LogRunsConcatenate(init, before, first, [step] + logged, s);
  }

  lemma MirroredBytes(n: M.State, g: GenId, s: L.State)
    requires G.Mirrors(n, g, s)
    ensures g in n.logs && s.size == |s.stored| && s.Published() == n.logs[g].bytes
    ensures s.closed ==> n.logs[g].end == M.Finished
  {
  }

  lemma LogsArePublished(n: M.State, g: GenId)
    requires I.Inv(n) && g in n.logs
    ensures n.logs[g].end == M.Finished ==> g in n.published
    ensures g in n.published ==> n.published[g].bytes == n.logs[g].bytes
  {
  }

  // -------------------------------------------------------------------------
  // The reader that holds a lease
  // -------------------------------------------------------------------------

  // A read stream, the lease that keeps its handle, and for a consume-once read the generation its end destroys.
  class LeasedReader {
    const reg: Registry
    const h: ClipHandle
    const limits: Limits
    const rc: RS.Handle
    const cleanup: Option<GenId>
    const size: nat
    var open: bool

    constructor (reg: Registry, h: ClipHandle, limits: Limits, rc: RS.Handle, cleanup: Option<GenId>, size: nat)
      ensures this.reg == reg && this.h == h && this.limits == limits && this.rc == rc
      ensures this.cleanup == cleanup && this.size == size && open
    {
      this.reg, this.h, this.limits, this.rc, this.cleanup, this.size := reg, h, limits, rc, cleanup, size;
      open := true;
    }

    // What follows the read handle's close: what was consumed is destroyed, then the lease goes back. A replacement that has
    // superseded the consumed generation is left alone.
    method Settle()
      requires limits.bytes != limits.clips && reg.Valid() && h in reg.built && h.leases > 0
      modifies h, reg, limits.bytes, limits.clips
      ensures reg.Valid() && h.leases == old(h.leases) - 1
      ensures h.Slot() == if cleanup.Some? then Transitions.Clear(old(h.Slot()), cleanup.value) else old(h.Slot())
      ensures limits.clips.value == if cleanup.Some? then Wrap(old(limits.clips.value) - 1) else old(limits.clips.value)
      ensures limits.bytes.value == if cleanup.Some? && size != 0 then Wrap(old(limits.bytes.value) - size)
                                    else old(limits.bytes.value)
    {
      hide Wrap;
      if cleanup.Some? {
        limits.ReleaseGen(size);
        h.ClearConsumed(cleanup.value);
      }
      reg.Release(h);
    }

    // Drops the read handle, then settles -- both once, however often it is closed.
    method Close()
      requires limits.bytes != limits.clips && (open ==> reg.Valid() && h in reg.built && h.leases > 0)
      requires rc.share.Valid() && rc in rc.share.handles && (open ==> !rc.closed)
      modifies this, h, reg, limits.bytes, limits.clips, rc, rc.share, rc.share.Current()
      ensures !open
      ensures !old(open) ==> h.leases == old(h.leases) && h.Slot() == old(h.Slot())
      ensures !old(open) ==> limits.clips.value == old(limits.clips.value) && limits.bytes.value == old(limits.bytes.value)
      ensures !old(open) ==> rc.closed == old(rc.closed) && rc.share.refs == old(rc.share.refs)
      ensures old(open) ==> rc.closed && rc.share.Valid() && rc.share.Outstanding() == old(rc.share.Outstanding()) - {rc}
      ensures old(open) ==> reg.Valid() && h.leases == old(h.leases) - 1
      ensures old(open) ==> h.Slot() == if cleanup.Some? then Transitions.Clear(old(h.Slot()), cleanup.value) else old(h.Slot())
      ensures old(open) ==> limits.clips.value == if cleanup.Some? then Wrap(old(limits.clips.value) - 1) else old(limits.clips.value)
      ensures old(open) ==> limits.bytes.value == if cleanup.Some? && size != 0 then Wrap(old(limits.bytes.value) - size)
                                                  else old(limits.bytes.value)
    {
      hide Wrap, Transitions.Clear;
      if !open {
        return;
      }
      open := false;
      rc.Close();
      Settle();
    }
  }
}
