// Who will end a generation: every generation that still has a footprint is in exactly one place -- its name's live
// slot with one writer, its name's current slot, or owed by exactly one operation -- so each is reclaimed once.
module Ownership {
  import opened Common
  import opened GenIds
  import opened Generations
  import opened Records
  import opened DiskModel
  import opened Transitions
  import opened StoreMachine
  import opened Leases

  predicate IsLive(hd: Handle, g: GenId) { hd.slot.live.Some? && hd.slot.live.value.id == g }

  predicate IsCurrent(hd: Handle, g: GenId) { hd.slot.current.Some? && hd.slot.current.value.id == g }

  predicate IsFinal(hd: Handle, g: GenId) { IsCurrent(hd, g) && hd.slot.current.value.state == GenFinalized }

  predicate Named(s: State, g: GenId, name: string) { g in s.minted && s.minted[g] == name && Has(s, g) }

  // What an operation holds of its own handle.
  predicate HoldsWell(s: State, op: Op)
    requires op.Leased() && op.h in s.handles
  {
    var hd := s.handles[op.h];
    && (op.Writing? ==> IsLive(hd, op.g))
    && (op.Finishing? ==> Named(s, op.g, hd.name) && !IsLive(hd, op.g) && op.prev != Some(op.g))
    && (op.Owes().Some? ==>
          && Named(s, op.Owes().value, hd.name) && op.Owes().value in s.extant
          && !IsLive(hd, op.Owes().value) && !IsFinal(hd, op.Owes().value)
          && (IsCurrent(hd, op.Owes().value) ==> op.Clears() == op.Owes()))
    && (op.Clears().Some? ==>
          && Named(s, op.Clears().value, hd.name)
          && !IsLive(hd, op.Clears().value) && !IsFinal(hd, op.Clears().value))
  }

  ghost predicate WriterOf(s: State, p: nat, h: nat, g: GenId) {
    p in s.ops && s.ops[p].Writing? && s.ops[p].h == h && s.ops[p].g == g
  }

  ghost predicate ClearerOf(s: State, p: nat, h: nat, g: GenId) {
    p in s.ops && s.ops[p].Leased() && s.ops[p].h == h && s.ops[p].Clears() == Some(g)
  }

  // What a slot holds.
  ghost predicate SlotWell(s: State, h: nat)
    requires h in s.handles
  {
    var hd := s.handles[h];
    && (hd.slot.current.Some? ==>
          var c := hd.slot.current.value;
          && c.name == hd.name && Named(s, c.id, hd.name) && c.state != GenLive
          && (c.state == GenFinalized ==> c.id in s.extant)
          && (c.state == GenConsumed ==> c.consume && exists p :: ClearerOf(s, p, h, c.id)))
    && (hd.slot.live.Some? ==>
          var l := hd.slot.live.value;
          && l.name == hd.name && Named(s, l.id, hd.name) && l.state == GenLive && l.id in s.extant
          && !IsCurrent(hd, l.id)
          && exists p :: WriterOf(s, p, h, l.id))
  }

  // The generation sits in its name's slot, live or finalized.
  predicate Seated(s: State, g: GenId) {
    && g in s.minted && s.minted[g] in s.reg && s.reg[s.minted[g]] in s.handles
    && (IsLive(s.handles[s.reg[s.minted[g]]], g) || IsFinal(s.handles[s.reg[s.minted[g]]], g))
  }

  ghost predicate OwedBy(s: State, p: nat, g: GenId) { p in s.ops && s.ops[p].Owes() == Some(g) }

  ghost predicate OpsWell(s: State) {
    forall p | p in s.ops && s.ops[p].Leased() :: s.ops[p].h in s.handles && HoldsWell(s, s.ops[p])
  }

  lemma OpHolds(s: State, p: nat)
    requires OpsWell(s) && p in s.ops && s.ops[p].Leased()
    ensures s.ops[p].h in s.handles && HoldsWell(s, s.ops[p])
  {
  }

  ghost predicate SlotsWell(s: State) { forall h | h in s.handles :: SlotWell(s, h) }

  ghost predicate OneOwner(s: State) {
    && (forall p, q | p in s.ops && q in s.ops && p != q && s.ops[p].Owes().Some? :: s.ops[p].Owes() != s.ops[q].Owes())
    && (forall p, q | p in s.ops && q in s.ops && p != q && s.ops[p].EndsLog().Some? ::
          s.ops[p].EndsLog() != s.ops[q].EndsLog())
  }

  ghost predicate NoneLost(s: State) {
    forall g | g in s.extant :: g in s.logs && (Seated(s, g) || exists p :: OwedBy(s, p, g))
  }

  ghost predicate OwnInv(s: State) { OpsWell(s) && SlotsWell(s) && OneOwner(s) && NoneLost(s) }

  // -------------------------------------------------------------------------
  // What a step must show: its own operation, its own slot, and where its duties went
  // -------------------------------------------------------------------------

  // Everything known of a generation stays known.
  predicate Keeps(s: State, t: State) {
    && (forall g | g in s.minted :: g in t.minted && t.minted[g] == s.minted[g])
    && (forall g | g in s.logs :: g in t.logs)
    && (forall g | g in s.disk :: g in t.disk)
  }

  lemma OpsFrame(s: State, t: State, o: nat)
    requires OpsWell(s) && Moves(s, t, o) && Keeps(s, t)
    requires HoldsWell(t, t.ops[o])
    requires forall p | p in s.ops && p != o && s.ops[p].Leased() ::
               && (s.ops[p].Owes().Some? ==> s.ops[p].Owes().value in t.extant)
               && (s.ops[p].h == s.ops[o].h ==> HoldsWell(t, s.ops[p]))
    ensures OpsWell(t)
  {
    forall p | p in t.ops && t.ops[p].Leased()
      ensures t.ops[p].h in t.handles && HoldsWell(t, t.ops[p])
    {
      if p != o {
        assert HoldsWell(s, s.ops[p]);
      }
    }
  }

  lemma SlotsFrame(s: State, t: State, o: nat)
    requires SlotsWell(s) && Moves(s, t, o) && Keeps(s, t)
    requires SlotWell(t, s.ops[o].h)
    requires forall h | h in s.handles && h != s.ops[o].h :: ExtantIn(t, s.handles[h].slot)
    ensures SlotsWell(t)
  {
    forall h | h in t.handles
      ensures SlotWell(t, h)
    {
      if h != s.ops[o].h {
        assert SlotWell(s, h);
        WitnessesStay(s, t, o, h);
      }
    }
  }

  // The slot's own generations still have their footprint.
  predicate ExtantIn(t: State, slot: Slot) {
    && (slot.current.Some? && slot.current.value.state == GenFinalized ==> slot.current.value.id in t.extant)
    && (slot.live.Some? ==> slot.live.value.id in t.extant)
  }

  lemma SlotsWellExtant(s: State)
    requires SlotsWell(s)
    ensures forall h | h in s.handles :: ExtantIn(s, s.handles[h].slot)
  {
    forall h | h in s.handles
      ensures ExtantIn(s, s.handles[h].slot)
    {
      assert SlotWell(s, h);
    }
  }

  lemma WitnessesStay(s: State, t: State, o: nat, h: nat)
    requires h in s.handles && SlotWell(s, h) && Moves(s, t, o) && h != s.ops[o].h
    ensures var slot := s.handles[h].slot;
            && (slot.current.Some? && slot.current.value.state == GenConsumed ==>
                  exists p :: ClearerOf(t, p, h, slot.current.value.id))
            && (slot.live.Some? ==> exists p :: WriterOf(t, p, h, slot.live.value.id))
  {
    var slot := s.handles[h].slot;
    if slot.current.Some? && slot.current.value.state == GenConsumed {
      var p :| ClearerOf(s, p, h, slot.current.value.id);
      assert ClearerOf(t, p, h, slot.current.value.id);
    }
    if slot.live.Some? {
      var p :| WriterOf(s, p, h, slot.live.value.id);
      assert WriterOf(t, p, h, slot.live.value.id);
    }
  }

  lemma OwnersFrame(s: State, t: State, o: nat)
    requires OneOwner(s) && Moves(s, t, o)
    requires t.ops[o].Owes().Some? ==> forall p | p in s.ops && p != o :: s.ops[p].Owes() != t.ops[o].Owes()
    requires t.ops[o].EndsLog().Some? ==> forall p | p in s.ops && p != o :: s.ops[p].EndsLog() != t.ops[o].EndsLog()
    ensures OneOwner(t)
  {
  }

  // The generation is in the hands of operation `o` or of the slot of its handle.
  predicate InHand(s: State, o: nat, g: GenId)
    requires o in s.ops && s.ops[o].Leased() && s.ops[o].h in s.handles
  {
    var hd := s.handles[s.ops[o].h];
    IsLive(hd, g) || IsFinal(hd, g) || s.ops[o].Owes() == Some(g)
  }

  lemma LostFrame(s: State, t: State, o: nat)
    requires LeaseInv(s) && OwnInv(s) && Moves(s, t, o) && Keeps(s, t)
    requires forall g | g in t.extant :: g in s.extant || (InHand(t, o, g) && Named(t, g, s.handles[s.ops[o].h].name))
    requires forall g | g in t.extant && InHand(s, o, g) :: InHand(t, o, g)
    ensures NoneLost(t)
  {
    LeasePins(s, o);
    forall g | g in t.extant
      ensures g in t.logs && (Seated(t, g) || exists p :: OwedBy(t, p, g))
    {
      if InHand(t, o, g) {
        if g in s.extant && InHand(s, o, g) {
          InHandIsNamed(s, o, g);
        }
        if t.ops[o].Owes() == Some(g) {
          assert OwedBy(t, o, g);
        } else if g in s.extant && !InHand(s, o, g) {
          NotInHandStays(s, t, o, g);
        } else {
          assert Seated(t, g);
        }
      } else {
        NotInHandStays(s, t, o, g);
      }
    }
  }

  lemma InHandIsNamed(s: State, o: nat, g: GenId)
    requires OwnInv(s) && o in s.ops && s.ops[o].Leased() && s.ops[o].h in s.handles && InHand(s, o, g)
    ensures Named(s, g, s.handles[s.ops[o].h].name)
  {
    assert SlotWell(s, s.ops[o].h);
    assert HoldsWell(s, s.ops[o]);
  }

  lemma NotInHandStays(s: State, t: State, o: nat, g: GenId)
    requires NoneLost(s) && Moves(s, t, o) && Keeps(s, t) && Registered(s)
    requires g in s.extant && !InHand(s, o, g)
    ensures g in t.logs && (Seated(t, g) || exists p :: OwedBy(t, p, g))
  {
    if Seated(s, g) {
      assert s.reg[s.minted[g]] != s.ops[o].h;
      assert Seated(t, g);
    } else {
      var p :| OwedBy(s, p, g);
      assert OwedBy(t, p, g);
    }
  }

  // -------------------------------------------------------------------------
  // Steps that change no slot and no duty
  // -------------------------------------------------------------------------

  predicate SameClock(s: State, t: State) { t.now == s.now && t.steady == s.steady }

  ghost predicate Quiet(s: State, t: State, o: nat) {
    && Moves(s, t, o) && Keeps(s, t) && t.extant == s.extant
    && t.handles == s.handles && SameClock(s, t)
    && t.ops[o].Writing? == s.ops[o].Writing?
    && (t.ops[o].Writing? ==> t.ops[o].g == s.ops[o].g && t.ops[o].matched == s.ops[o].matched)
    && (t.ops[o].Finishing? ==> s.ops[o].Finishing? && t.ops[o].g == s.ops[o].g && t.ops[o].prev == s.ops[o].prev)
    && t.ops[o].Owes() == s.ops[o].Owes() && t.ops[o].Clears() == s.ops[o].Clears()
    && (t.ops[o].EndsLog().Some? ==> t.ops[o].EndsLog() == s.ops[o].EndsLog())
  }

  lemma QuietKeepsOwnership(s: State, t: State, o: nat)
    requires LeaseInv(s) && OwnInv(s) && Quiet(s, t, o)
    ensures OwnInv(t)
  {
    QuietSlot(s, t, o);
    SlotsWellExtant(s);
    SlotsFrame(s, t, o);
    QuietHolds(s, t, o);
    OpsFrame(s, t, o);
    OwnersFrame(s, t, o);
    LostFrame(s, t, o);
  }

  lemma QuietHolds(s: State, t: State, o: nat)
    requires OpsWell(s) && Quiet(s, t, o)
    ensures HoldsWell(t, t.ops[o])
    ensures forall p | p in s.ops && p != o && s.ops[p].Leased() ::
              && (s.ops[p].Owes().Some? ==> s.ops[p].Owes().value in t.extant)
              && (s.ops[p].h == s.ops[o].h ==> HoldsWell(t, s.ops[p]))
  {
    assert HoldsWell(s, s.ops[o]);
    forall p | p in s.ops && p != o && s.ops[p].Leased()
      ensures s.ops[p].Owes().Some? ==> s.ops[p].Owes().value in t.extant
      ensures s.ops[p].h == s.ops[o].h ==> HoldsWell(t, s.ops[p])
    {
      assert HoldsWell(s, s.ops[p]);
    }
  }

  lemma QuietSlot(s: State, t: State, o: nat)
    requires SlotsWell(s) && Quiet(s, t, o)
    ensures SlotWell(t, s.ops[o].h)
  {
    var h := s.ops[o].h;
    assert SlotWell(s, h);
    var slot := s.handles[h].slot;
    if slot.current.Some? && slot.current.value.state == GenConsumed {
      var p :| ClearerOf(s, p, h, slot.current.value.id);
      assert ClearerOf(t, p, h, slot.current.value.id);
    }
    if slot.live.Some? {
      var p :| WriterOf(s, p, h, slot.live.value.id);
      assert WriterOf(t, p, h, slot.live.value.id);
    }
  }
}
