// The registry's invariant: a handle in use is the one its name maps to, and its lease count is exact.
module Leases {
  import opened Common
  import opened GenIds
  import opened Generations
  import opened Records
  import opened DiskModel
  import opened Transitions
  import opened StoreMachine

  predicate InUse(hd: Handle) { hd.leases > 0 || !hd.slot.Empty() }

  // The operations holding a lease on handle `h`.
  ghost function Holders(ops: map<nat, Op>, h: nat): set<nat> {
    set o | o in ops && ops[o].Leased() && ops[o].h == h
  }

  ghost predicate Counted(s: State) {
    && (forall o | o in s.ops && s.ops[o].Leased() :: s.ops[o].h in s.handles)
    && (forall h | h in s.handles :: s.handles[h].leases == |Holders(s.ops, h)|)
  }

  ghost predicate Registered(s: State) {
    && (forall h | h in s.handles && InUse(s.handles[h]) ::
          s.handles[h].name in s.reg && s.reg[s.handles[h].name] == h)
    && (forall n | n in s.reg :: s.reg[n] in s.handles && s.handles[s.reg[n]].name == n && InUse(s.handles[s.reg[n]]))
  }

  ghost predicate LeaseInv(s: State) { Counted(s) && Registered(s) }

  // An operation's lease pins its handle in the registry.
  lemma LeasePins(s: State, o: nat)
    requires LeaseInv(s) && o in s.ops && s.ops[o].Leased()
    ensures var h := s.ops[o].h;
            && h in s.handles && s.handles[h].leases > 0
            && s.handles[h].name in s.reg && s.reg[s.handles[h].name] == h
  {
    assert o in Holders(s.ops, s.ops[o].h);
  }

  // Two leased operations on the same name are on the same handle.
  lemma OneHandlePerName(s: State, o: nat, p: nat)
    requires LeaseInv(s) && o in s.ops && s.ops[o].Leased() && p in s.ops && s.ops[p].Leased()
    ensures s.ops[o].h in s.handles && s.ops[p].h in s.handles
    ensures s.handles[s.ops[o].h].name == s.handles[s.ops[p].h].name ==> s.ops[o].h == s.ops[p].h
  {
    LeasePins(s, o);
    LeasePins(s, p);
  }

  // Operation `o` moves on under the lease it has, changing at most the slot of its own handle.
  ghost predicate Moves(s: State, t: State, o: nat) {
    && o in s.ops && s.ops[o].Leased() && s.ops[o].h in s.handles
    && o in t.ops && t.ops == s.ops[o := t.ops[o]] && t.ops[o].Leased() && t.ops[o].h == s.ops[o].h
    && t.up == s.up && t.reg == s.reg && t.handles.Keys == s.handles.Keys
    && (forall h | h in s.handles && h != s.ops[o].h :: t.handles[h] == s.handles[h])
    && t.handles[s.ops[o].h].leases == s.handles[s.ops[o].h].leases
    && t.handles[s.ops[o].h].name == s.handles[s.ops[o].h].name
  }

  lemma MovesKeepsLeases(s: State, t: State, o: nat)
    requires LeaseInv(s) && Moves(s, t, o)
    ensures LeaseInv(t)
  {
    LeasePins(s, o);
    forall h | h in t.handles
      ensures Holders(t.ops, h) == Holders(s.ops, h)
    {
    }
  }

  lemma HoldersOfAcquire(ops: map<nat, Op>, o: nat, op: Op, k: nat)
    requires o in ops ==> !ops[o].Leased()
    requires op.Leased()
    ensures |Holders(ops[o := op], k)| == |Holders(ops, k)| + if k == op.h then 1 else 0
  {
    var a, b := Holders(ops[o := op], k), Holders(ops, k);
    assert o !in b;
    assert a - {o} == b;
    if k == op.h {
      assert o in a;
      assert a == b + {o};
    }
  }

  lemma AcquireKeepsLeases(s: State, o: nat, h: nat, name: string, op: Op)
    requires LeaseInv(s)
    requires o in s.ops ==> !s.ops[o].Leased()
    requires if name in s.reg then h == s.reg[name] && h in s.handles else h !in s.handles
    requires op.Leased() && op.h == h
    ensures LeaseInv(s.Acquire(o, h, name, op))
  {
    var t := s.Acquire(o, h, name, op);
    assert Counted(t) by {
      forall k | k in t.handles
        ensures t.handles[k].leases == |Holders(t.ops, k)|
      {
        HoldersOfAcquire(s.ops, o, op, k);
        if k !in s.handles {
          assert Holders(s.ops, k) == {};
        }
      }
    }
    assert Registered(t) by {
      assert InUse(t.handles[h]);
    }
  }

  lemma ReleaseKeepsLeases(s: State, o: nat)
    requires LeaseInv(s) && At(s, o) && s.ops[o].Leaving?
    ensures LeaseInv(ReleaseNext(s, o))
  {
    var t := ReleaseNext(s, o);
    var h := s.ops[o].h;
    LeasePins(s, o);
    assert Counted(t) by {
      forall k | k in t.handles
        ensures t.handles[k].leases == |Holders(t.ops, k)|
      {
        if k == h {
          assert Holders(t.ops, k) == Holders(s.ops, k) - {o};
        } else {
          assert Holders(t.ops, k) == Holders(s.ops, k);
        }
      }
    }
    assert Registered(t);
  }

  // Operations that hold no lease come and go freely.
  lemma UnleasedKeepsLeases(s: State, o: nat, op: Op)
    requires LeaseInv(s) && o !in s.ops && !op.Leased()
    ensures LeaseInv(s.SetOp(o, op))
  {
    forall h | h in s.handles
      ensures Holders(s.ops[o := op], h) == Holders(s.ops, h)
    {
    }
  }

  lemma BootKeepsLeases(s: State, after: Disk, hs: map<nat, Handle>, names: map<string, nat>)
    requires s.ops == map[] && Restores(s.disk, s.cfg.checksum, hs, names)
    ensures LeaseInv(BootNext(s, after, hs, names))
  {
    var t := BootNext(s, after, hs, names);
    forall h | h in t.handles
      ensures Holders(t.ops, h) == {}
    {
    }
  }

  lemma AdmitMoves(s: State, o: nat, tail: Option<Uint64>, made: bool)
    requires AdmitEnabled(s, o, tail)
    ensures Moves(s, AdmitNext(s, o, tail, made), o)
  {
  }

  lemma FlipMoves(s: State, o: nat)
    requires IsFlipping(s, o)
    ensures Moves(s, FlipNext(s, o), o)
  {
  }

  lemma DiscardMoves(s: State, o: nat)
    requires IsWriting(s, o)
    ensures Moves(s, DiscardNext(s, o), o)
  {
  }

  lemma StageMoves(s: State, o: nat, op: Op)
    requires o in s.ops && s.ops[o].Leased() && s.ops[o].h in s.handles
    requires op.Leased() && op.h == s.ops[o].h
    ensures Moves(s, s.SetOp(o, op), o)
  {
  }

  lemma ClaimMoves(s: State, o: nat, op: Op, g: Generation, claim: Outcome, attached: bool)
    requires At(s, o) && op.Opening? && op.h == s.ops[o].h && s.handles[op.h].slot.current == Some(g)
    requires RenamesMarker(s, Some(g), claim)
    ensures Moves(s, ClaimNext(s, o, op, g, claim, attached), o)
  {
    hide ClaimNext;
    ClaimTouchesLittle(s, o, op, g, claim, attached);
  }

  lemma ResolveMoves(s: State, o: nat, claim: Outcome, attached: bool)
    requires ResolveEnabled(s, o, claim)
    ensures Moves(s, ResolveNext(s, o, claim, attached), o)
  {
    var hd := s.handles[s.ops[o].h];
    var op := s.ops[o].(cursor := CursorOf(s.ops[o], hd.slot));
    var r := Resolved(s, o);
    if Claimable(r) {
      ClaimMoves(s, o, op, r.gen, claim, attached);
    } else {
      StageMoves(s, o, Unclaimed(op, r, hd.notify, attached));
    }
  }

  lemma RetireMoves(s: State, o: nat, h: nat, target: Option<Generation>, outcome: Outcome)
    requires At(s, o) && h == s.ops[o].h && RenamesMarker(s, target, outcome)
    requires target.Some? ==> s.handles[h].slot.current == target
    ensures Moves(s, RetireNext(s, o, h, target, outcome), o)
  {
  }

  // -------------------------------------------------------------------------
  // What a claim touches
  // -------------------------------------------------------------------------

  // What a claim may change of the store, and how its reader comes out of it.
  ghost predicate ClaimTouches(s: State, t: State, o: nat, op: Op, g: GenId)
    requires op.Opening? && op.h in s.handles
  {
    && t == s.(handles := t.handles, disk := t.disk, ops := t.ops, ended := t.ended, gone := t.gone, delivered := t.delivered)
    && o in t.ops && t.ops == s.ops[o := t.ops[o]]
    && t.ops[o] in {Leaving(op.h), op.(rstage := Reading(g, true)), Owing(op.h, g, true)}
    && op.h in t.handles && t.handles == s.handles[op.h := t.handles[op.h]]
    && t.handles[op.h].name == s.handles[op.h].name && t.handles[op.h].leases == s.handles[op.h].leases
    && t.ended in {s.ended, s.ended + {g}} && t.gone in {s.gone, s.gone + {g}}
    && t.delivered in {s.delivered, s.delivered + multiset{g}}
  }

  lemma StickTouches(s: State, o: nat, op: Op, g: Generation, attached: bool)
    requires op.Opening? && op.h in s.handles && s.handles[op.h].slot.current.Some? && g.id in s.disk
    ensures ClaimTouches(s, ClaimSticks(s, o, op, g, attached), o, op, g.id)
  {
    hide Claim, GenDir.Commit;
  }

  lemma ForfeitTouches(s: State, o: nat, op: Op, g: Generation)
    requires op.Opening? && op.h in s.handles && s.handles[op.h].slot.current.Some? && g.id in s.disk
    ensures ClaimTouches(s, ClaimForfeits(s, o, op, g), o, op, g.id)
  {
    hide Claim, GenDir.Commit;
  }

  lemma RevertTouches(s: State, o: nat, op: Op, g: GenId)
    requires op.Opening? && op.h in s.handles
    ensures ClaimTouches(s, s.SetOp(o, Leaving(op.h)), o, op, g)
  {
    assert s.handles == s.handles[op.h := s.handles[op.h]];
  }

  lemma ClaimTouchesLittle(s: State, o: nat, op: Op, g: Generation, claim: Outcome, attached: bool)
    requires op.Opening? && op.h in s.handles && s.handles[op.h].slot.current == Some(g)
    requires RenamesMarker(s, Some(g), claim)
    ensures ClaimTouches(s, ClaimNext(s, o, op, g, claim, attached), o, op, g.id)
  {
    hide ClaimTouches, ClaimSticks, ClaimForfeits;
    RevertTouches(s, o, op, g.id);
    match claim {
      case NeverTook =>
      case TookUnflushed => ForfeitTouches(s, o, op, g);
      case TookDurable => StickTouches(s, o, op, g, attached);
    }
  }

  // What a claim that took did to the disk and to what is remembered of its generation.
  lemma ClaimTakesExactly(s: State, o: nat, op: Op, g: Generation, claim: Outcome, attached: bool)
    requires op.Opening? && op.h in s.handles && s.handles[op.h].slot.current == Some(g)
    requires RenamesMarker(s, Some(g), claim) && !op.canceled && claim != NeverTook
    ensures var t := ClaimNext(s, o, op, g, claim, attached);
            && g.id in s.disk && t.disk == s.disk[g.id := s.disk[g.id].Commit(None, claim)]
            && t.ended == s.ended + {g.id} && t.gone == (if claim == TookDurable then s.gone + {g.id} else s.gone)
            && (t.delivered == s.delivered || (claim == TookDurable && t.delivered == s.delivered + multiset{g.id}))
            && op.h in t.handles && t.handles[op.h].slot == Claim(s.handles[op.h].slot, claim)
  {
    hide Claim, GenDir.Commit, ClaimSticks, ClaimForfeits;
    if claim == TookUnflushed {
      ForfeitTakes(s, o, op, g);
    } else {
      StickTakes(s, o, op, g, attached);
    }
  }

  lemma ForfeitTakes(s: State, o: nat, op: Op, g: Generation)
    requires op.Opening? && op.h in s.handles && s.handles[op.h].slot.current.Some? && g.id in s.disk
    ensures var t := ClaimForfeits(s, o, op, g);
            && t.disk == s.disk[g.id := s.disk[g.id].Commit(None, TookUnflushed)]
            && t.ended == s.ended + {g.id} && t.gone == s.gone && t.delivered == s.delivered
            && op.h in t.handles && t.handles[op.h].slot == Claim(s.handles[op.h].slot, TookUnflushed)
  {
    hide Claim, GenDir.Commit;
  }

  lemma StickTakes(s: State, o: nat, op: Op, g: Generation, attached: bool)
    requires op.Opening? && op.h in s.handles && s.handles[op.h].slot.current.Some? && g.id in s.disk
    ensures var t := ClaimSticks(s, o, op, g, attached);
            && t.disk == s.disk[g.id := s.disk[g.id].Commit(None, TookDurable)]
            && t.ended == s.ended + {g.id} && t.gone == s.gone + {g.id}
            && (t.delivered == s.delivered || t.delivered == s.delivered + multiset{g.id})
            && op.h in t.handles && t.handles[op.h].slot == Claim(s.handles[op.h].slot, TookDurable)
  {
    hide Claim, GenDir.Commit;
  }
}
