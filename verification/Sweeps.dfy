// The retention sweep and the self-heal a create runs when the count cap is in its way, one call at a time.
module Sweeps {
  import opened Common
  import opened GenIds
  import opened Generations
  import opened Records
  import opened DiskModel
  import opened Transitions
  import opened Handles
  import opened Quota

  const MIN_RECLAIM_INTERVAL: int := 1_000_000_000

  // -------------------------------------------------------------------------
  // The throttle
  // -------------------------------------------------------------------------

  predicate IsInt64(t: int) { -MAX_INT64 - 1 <= t <= MAX_INT64 }

  // Whether a pressure sweep may run now, and the instant remembered after. The difference of two instants is taken in
  // 64 bits, and an instant of zero is read as no sweep yet.
  predicate MaySweep(last: int, now: int) { last == 0 || Wrap(now - last) >= MIN_RECLAIM_INTERVAL }

  function Remembered(last: int, now: int): int { if MaySweep(last, now) then now else last }

  // The instants at which sweeps ran, of the calls made at `calls`.
  function SweptAt(last: int, calls: seq<int>): seq<int>
    decreases |calls|
  {
    if calls == [] then []
    else (if MaySweep(last, calls[0]) then [calls[0]] else []) + SweptAt(Remembered(last, calls[0]), calls[1..])
  }

  lemma WrapOfDifference(d: int)
    requires -2 * (MAX_INT64 + 1) < d < 2 * (MAX_INT64 + 1)
    ensures Wrap(d) == if d > MAX_INT64 then d - 2 * (MAX_INT64 + 1)
                       else if d < -MAX_INT64 - 1 then d + 2 * (MAX_INT64 + 1) else d
  {
  }

  // A sweep that the throttle lets run is at least the interval after the one it remembers exactly when that one is
  // remembered as one, and the clock has not fallen back by more than 64 bits can tell from a step forward.
  lemma PermittedSweepIsSpaced(last: int, now: int)
    requires IsInt64(last) && IsInt64(now) && MaySweep(last, now)
    ensures now - last >= MIN_RECLAIM_INTERVAL <==>
            if last == 0 then now >= MIN_RECLAIM_INTERVAL else now - last >= -MAX_INT64 - 1
  {
    WrapOfDifference(now - last);
  }

  // The throttle lets a sweep run exactly when it remembers none, or the clock has moved on by the interval or more -- or, the
  // difference being taken in 64 bits, has fallen back by more than they hold.
  lemma SweepIsPermittedExactly(last: int, now: int)
    requires IsInt64(last) && IsInt64(now)
    ensures MaySweep(last, now) <==>
              || last == 0 || 1_000_000_000 <= now - last <= 0x7FFF_FFFF_FFFF_FFFF
              || -0x1_0000_0000_0000_0000 + 1_000_000_000 <= now - last < -0x8000_0000_0000_0000
  {
    WrapOfDifference(now - last);
  }

  // The last sweep there was, or else what was remembered to begin with.
  function LastOf(last: int, swept: seq<int>): int { if swept == [] then last else swept[|swept| - 1] }

  // A call sweeps exactly if the throttle lets it since the last sweep there was.
  lemma {:induction false} SweepsAreThePermitted(last: int, calls: seq<int>, k: nat)
    requires k < |calls|
    ensures var before := SweptAt(last, calls[..k]);
            SweptAt(last, calls[..k + 1]) == before + if MaySweep(LastOf(last, before), calls[k]) then [calls[k]] else []
    decreases k
  {
    hide MaySweep;
    if k == 0 {
      assert calls[..1][1..] == [] && calls[..0] == [] && calls[..1][0] == calls[0];
    } else {
      SweepsAreThePermitted(Remembered(last, calls[0]), calls[1..], k - 1);
      assert calls[..k][1..] == calls[1..][..k - 1] && calls[..k + 1][1..] == calls[1..][..k];
      assert calls[1..][k - 1] == calls[k] && calls[..k][0] == calls[0] == calls[..k + 1][0];
    }
  }

  // Against every clock at once, that is exactly the instants before 1970.
  lemma ThrottleHoldsWhateverTheClock(last: int)
    requires IsInt64(last)
    ensures (forall now | IsInt64(now) && MaySweep(last, now) :: now - last >= MIN_RECLAIM_INTERVAL) <==> last < 0
  {
    if last < 0 {
      forall now | IsInt64(now) && MaySweep(last, now)
        ensures now - last >= MIN_RECLAIM_INTERVAL
      {
        PermittedSweepIsSpaced(last, now);
      }
    } else {
      var now := if last <= MAX_INT64 - MIN_RECLAIM_INTERVAL then -MAX_INT64 - 1 else last - MAX_INT64 - 2;
      WrapOfDifference(now - last);
      assert IsInt64(now) && MaySweep(last, now) && now - last < MIN_RECLAIM_INTERVAL;
    }
  }

  lemma {:induction false} FirstSweepIsPermitted(last: int, calls: seq<int>)
    requires SweptAt(last, calls) != []
    ensures MaySweep(last, SweptAt(last, calls)[0]) && SweptAt(last, calls)[0] in calls
    decreases |calls|
  {
    hide MaySweep;
    if !MaySweep(last, calls[0]) {
      FirstSweepIsPermitted(last, calls[1..]);
    }
  }

  // Each sweep is let run by the one before it.
  lemma {:induction false} SweepsArePermitted(last: int, calls: seq<int>, i: nat)
    requires i + 1 < |SweptAt(last, calls)|
    ensures MaySweep(SweptAt(last, calls)[i], SweptAt(last, calls)[i + 1])
    ensures SweptAt(last, calls)[i] in calls && SweptAt(last, calls)[i + 1] in calls
    decreases |calls|
  {
    hide MaySweep;
    if MaySweep(last, calls[0]) {
      if i == 0 {
        FirstSweepIsPermitted(calls[0], calls[1..]);
      } else {
        SweepsArePermitted(calls[0], calls[1..], i - 1);
      }
    } else {
      SweepsArePermitted(last, calls[1..], i);
    }
  }

  // So of two successive pressure sweeps, however the clock moves between the calls, the second is at least the interval
  // after the first exactly when the first did not run at the instant the clock calls zero, or the second ran late
  // enough after that, and the clock did not fall back past the bottom of 64 bits in between.
  lemma SweepsAreSpaced(last: int, calls: seq<int>, i: nat)
    requires i + 1 < |SweptAt(last, calls)| && forall k | 0 <= k < |calls| :: IsInt64(calls[k])
    ensures var first, second := SweptAt(last, calls)[i], SweptAt(last, calls)[i + 1];
            second - first >= MIN_RECLAIM_INTERVAL <==>
              if first == 0 then second >= MIN_RECLAIM_INTERVAL else second - first >= -MAX_INT64 - 1
  {
    hide MaySweep, SweptAt, Wrap;
    SweepsArePermitted(last, calls, i);
    PermittedSweepIsSpaced(SweptAt(last, calls)[i], SweptAt(last, calls)[i + 1]);
  }

  lemma SweepAtZeroIsForgotten()
    ensures SweptAt(0, [0, 1]) == [0, 1]
  {
    assert [0, 1][1..] == [1] && [1][1..] == [];
    assert SweptAt(0, [1]) == [1] + SweptAt(1, []);
  }

  // A clock that falls back far enough runs the next sweep long before the last one.
  lemma SweepPastTheBottom()
    ensures var last, now := 0x4000_0000_0000_0000 + MIN_RECLAIM_INTERVAL, -0x4000_0000_0000_0000;
            IsInt64(last) && IsInt64(now) && now < last && SweptAt(last, [now]) == [now]
  {
    var last, now := 0x4000_0000_0000_0000 + MIN_RECLAIM_INTERVAL, -0x4000_0000_0000_0000;
    WrapOfDifference(now - last);
    assert [now][1..] == [];
    assert SweptAt(now, []) == [];
  }

  // -------------------------------------------------------------------------
  // The sweep
  // -------------------------------------------------------------------------

  datatype Candidate = Candidate(name: string, id: GenId)

  type Slots = map<string, Generations.Slot>

  // What a slot holds finalized.
  function FinalIn(slot: Generations.Slot): Option<GenId> {
    if slot.current.Some? && slot.current.value.state == GenFinalized then Some(slot.current.value.id) else None
  }

  // What a slot holds live.
  function LiveIn(slot: Generations.Slot): Option<GenId> {
    if slot.live.Some? then Some(slot.live.value.id) else None
  }

  // The generations in use: an upload in flight, or owed a reclamation by some operation.
  function InUse(slots: Slots, owed: set<GenId>): set<GenId> {
    owed + set n | n in slots && LiveIn(slots[n]).Some? :: LiveIn(slots[n]).value
  }

  // Each name's finalized value has a footprint, is not in use, and is no other name's.
  ghost predicate FinalsApart(slots: Slots, extant: set<GenId>, owed: set<GenId>) {
    && (forall n | n in slots && FinalIn(slots[n]).Some? ::
          FinalIn(slots[n]).value in extant && FinalIn(slots[n]).value !in InUse(slots, owed) && slots[n].current.value.name == n)
    && (forall n | n in slots && slots[n].current.Some? :: slots[n].current.value.state != GenLive)
    && (forall n, m | n in slots && m in slots && n != m && FinalIn(slots[n]).Some? :: FinalIn(slots[n]) != FinalIn(slots[m]))
  }

  // So has each name's upload, which nobody owes and which is no other name's.
  ghost predicate LivesApart(slots: Slots, extant: set<GenId>, owed: set<GenId>) {
    && owed <= extant
    && (forall n | n in slots && LiveIn(slots[n]).Some? :: LiveIn(slots[n]).value in extant && LiveIn(slots[n]).value !in owed)
    && (forall n, m | n in slots && m in slots && n != m && LiveIn(slots[n]).Some? :: LiveIn(slots[n]) != LiveIn(slots[m]))
  }

  // And nothing else has a footprint.
  ghost predicate Balanced(slots: Slots, extant: set<GenId>, owed: set<GenId>) {
    && FinalsApart(slots, extant, owed) && LivesApart(slots, extant, owed)
    && (forall g | g in extant && g !in InUse(slots, owed) :: exists n :: n in slots && FinalIn(slots[n]) == Some(g))
  }

  // The name still holds the very generation the candidate names, and it is still past its deadline.
  predicate StillExpired(slots: Slots, c: Candidate, now: int) {
    c.name in slots && ExpiredCurrent(slots[c.name], now).Some? && slots[c.name].current.value.id == c.id
  }

  // One candidate's removal: its name's current cleared, perhaps its handle evicted; nothing else touched.
  ghost predicate Reaped(slots: Slots, after: Slots, c: Candidate, removed: bool) {
    && after.Keys <= slots.Keys
    && (forall n | n in slots && (n != c.name || !removed) :: n in after && after[n] == slots[n])
    && (removed && c.name in after ==> c.name in slots && after[c.name] == slots[c.name].(current := None))
    && (removed && c.name !in after && c.name in slots ==> slots[c.name].live.None?)
  }

  // No upload starts or ends in a reap.
  lemma ReapKeepsUses(slots: Slots, after: Slots, owed: set<GenId>, c: Candidate, removed: bool)
    requires Reaped(slots, after, c, removed) && (removed ==> c.name in slots)
    ensures InUse(after, owed) == InUse(slots, owed)
  {
    forall g | g in InUse(slots, owed)
      ensures g in InUse(after, owed)
    {
      if g !in owed {
        var n :| n in slots && LiveIn(slots[n]) == Some(g);
        assert n in after && LiveIn(after[n]) == Some(g);
      }
    }
    forall g | g in InUse(after, owed)
      ensures g in InUse(slots, owed)
    {
      if g !in owed {
        var n :| n in after && LiveIn(after[n]) == Some(g);
        assert n in slots && LiveIn(slots[n]) == Some(g);
      }
    }
  }

  lemma ReapKeepsBalance(slots: Slots, after: Slots, extant: set<GenId>, owed: set<GenId>, c: Candidate, now: int)
    requires Balanced(slots, extant, owed) && Reaped(slots, after, c, true) && StillExpired(slots, c, now)
    ensures c.id in extant && c.id !in InUse(slots, owed) && Balanced(after, extant - {c.id}, owed)
  {
    hide InUse;
    ReapKeepsUses(slots, after, owed, c, true);
    assert FinalIn(slots[c.name]) == Some(c.id);
    UsesAreApart(slots, owed);
    forall g | g in extant - {c.id} && g !in InUse(slots, owed)
      ensures exists n :: n in after && FinalIn(after[n]) == Some(g)
    {
      var n :| n in slots && FinalIn(slots[n]) == Some(g);
      assert n != c.name && n in after && FinalIn(after[n]) == Some(g);
    }
  }

  lemma UsesAreApart(slots: Slots, owed: set<GenId>)
    ensures owed <= InUse(slots, owed)
    ensures forall n | n in slots && LiveIn(slots[n]).Some? :: LiveIn(slots[n]).value in InUse(slots, owed)
  {
  }

  // An acquire, a retire and a release of one name, seen as one change.
  lemma RetiredIsReaped(before: Slots, acquired: Slots, retired: Slots, after: Slots, c: Candidate, removed: bool)
    requires acquired == if c.name in before then before else before[c.name := Generations.Slot.Slot(None, None, 0)]
    requires retired == acquired[c.name := if removed then acquired[c.name].(current := None) else acquired[c.name]]
    requires after == retired || after == retired - {c.name}
    requires c.name !in before ==> !removed && after == retired - {c.name}
    requires c.name in before && !removed ==> after == retired
    requires c.name !in after ==> retired[c.name].live.None?
    ensures Reaped(before, after, c, removed)
  {
  }

  // What a name holds: nothing, if it has no handle.
  function SlotOf(slots: Slots, name: string): Generations.Slot {
    if name in slots then slots[name] else Generations.Slot.Slot(None, None, 0)
  }

  // How a create with a valid name comes out: by its admission, and then by whether its home could be built.
  function CreateFault(slot: Generations.Slot, now: int, ifMatch: string, clips: int, maxClips: nat, built: bool): Option<CreateError> {
    match Admission(slot, now, ifMatch, clips, maxClips)
    case PreconditionFailed => Some(NotMatched)
    case Busy => Some(NameBusy)
    case NoSpace => Some(NoRoom)
    case Admitted => if built then None else Some(MediumFault)
  }

  class Store {
    const reg: Registry
    const maxClips: nat
    const defaultTTL: int
    var clips: int
    var lastReclaim: int
    ghost var extant: set<GenId>
    ghost var owed: set<GenId>                           // detached, and some operation's to reclaim

    ghost predicate Valid()
      reads this, reg, reg.built, reg.handles.Values
    {
      reg.Valid() && clips == |extant| && Balanced(reg.Slots(), extant, owed)
    }

    constructor (maxClips: nat, defaultTTL: int)
      ensures Valid() && this.maxClips == maxClips && this.defaultTTL == defaultTTL && lastReclaim == 0 && extant == {}
    {
      reg := new Registry();
      this.maxClips, this.defaultTTL := maxClips, defaultTTL;
      clips, lastReclaim, extant, owed := 0, 0, {}, {};
    }

    // The recheck and the retire, under the lease.
    method ReapLeased(h: ClipHandle, now: int, c: Candidate, outcome: Outcome) returns (removed: bool)
      requires reg.Valid() && h in reg.built && h.leases > 0 && h.name == c.name
      modifies h
      ensures reg.Valid() && h.leases == old(h.leases) && h.Slot() == reg.Slots()[c.name]
      ensures c.name in reg.handles && reg.handles[c.name] == h && reg.Slots().Keys == old(reg.Slots()).Keys
      ensures removed <==> outcome != NeverTook && StillExpired(old(reg.Slots()), c, now)
      ensures reg.Slots() == old(reg.Slots())[c.name := if removed then old(reg.Slots())[c.name].(current := None)
                                                        else old(reg.Slots())[c.name]]
    {
      var prev := h.Reap(now, c.id, outcome);
      removed := prev.Some?;
    }

    // Re-acquires the candidate's name, rechecks what it holds, and retires it under the same hold.
    method RetireExpired(now: int, c: Candidate, outcome: Outcome) returns (removed: bool)
      requires reg.Valid()
      modifies reg, reg.built
      ensures reg.Valid() && fresh(reg.built - old(reg.built))
      ensures removed <==> outcome != NeverTook && StillExpired(old(reg.Slots()), c, now)
      ensures Reaped(old(reg.Slots()), reg.Slots(), c, removed)
    {
      hide Reaped;
      ghost var before := reg.Slots();
      var h := reg.Acquire(c.name);
      ghost var acquired := reg.Slots();
      assert acquired[c.name] == h.Slot();
      removed := ReapLeased(h, now, c, outcome);
      ghost var retired := reg.Slots();
      reg.Release(h);
      RetiredIsReaped(before, acquired, retired, reg.Slots(), c, removed);
    }

    // Removes one candidate and gives its footprint back.
    method ReapRemove(now: int, c: Candidate, outcome: Outcome) returns (removed: bool)
      requires Valid()
      modifies this`clips, this`extant, reg, reg.built
      ensures Valid() && owed == old(owed) && fresh(reg.built - old(reg.built))
      ensures removed <==> outcome != NeverTook && StillExpired(old(reg.Slots()), c, now)
      ensures Reaped(old(reg.Slots()), reg.Slots(), c, removed)
      ensures extant == (if removed then old(extant) - {c.id} else old(extant))
      ensures clips == old(clips) - (if removed then 1 else 0)
    {
      hide Balanced, Reaped, StillExpired;
      ghost var before := reg.Slots();
      removed := RetireExpired(now, c, outcome);
      if removed {
        ReapKeepsBalance(before, reg.Slots(), extant, owed, c, now);
        extant := extant - {c.id};
        clips := clips - 1;
      } else {
        UnreapedIsSame(before, reg.Slots(), c);
      }
    }

    // What a sweep at `now` would drop: names and ids only, never a handle that could go stale.
    method ReapCandidates(now: int) returns (out: seq<Candidate>)
      requires Valid()
      ensures forall c | c in out :: StillExpired(reg.Slots(), c, now)
      ensures forall n | n in reg.Slots() && ExpiredCurrent(reg.Slots()[n], now).Some? ::
                Candidate(n, reg.Slots()[n].current.value.id) in out
      ensures forall i, j | 0 <= i < j < |out| :: out[i].name != out[j].name
    {
      out := [];
      var names := reg.handles.Keys;
      while names != {}
        invariant names <= reg.handles.Keys
        invariant forall c | c in out :: StillExpired(reg.Slots(), c, now) && c.name !in names
        invariant forall n | n in reg.Slots() && n !in names && ExpiredCurrent(reg.Slots()[n], now).Some? ::
                    Candidate(n, reg.Slots()[n].current.value.id) in out
        invariant forall i, j | 0 <= i < j < |out| :: out[i].name != out[j].name
        decreases names
      {
        var n :| n in names;
        names := names - {n};
        var h := reg.handles[n];
        assert reg.Slots()[n] == h.Slot();
        var g := ExpiredCurrent(h.Slot(), now);
        if g.Some? {
          assert FinalIn(h.Slot()).Some?;
          ghost var before := out;
          out := out + [Candidate(g.value.name, g.value.id)];
          assert out[|before|] == Candidate(n, g.value.id);
        }
      }
    }

    // One sweep: snapshot, then remove each candidate that is still what it was. `refused` are the retires whose rename
    // the disk refuses; the others take, flushed or not.
    method ReapExpired(now: int, refused: set<GenId>) returns (reclaimed: nat)
      requires Valid()
      modifies this`clips, this`extant, reg, reg.built
      ensures Valid() && owed == old(owed) && fresh(reg.built - old(reg.built))
      ensures SweptTo(old(reg.Slots()), reg.Slots(), {}, now, refused)
      ensures clips == old(clips) - reclaimed && extant <= old(extant)
      ensures reclaimed == 0 ==> reg.Slots() == old(reg.Slots()) && extant == old(extant)
    {
      hide Balanced, StillExpired;
      ghost var before := reg.Slots();
      var cands := ReapCandidates(now);
      assert reg.Slots() == before;
      CandidatesAreExpired(before, cands, now);
      reclaimed := 0;
      var i := 0;
      ghost var pending := CandidateNames(cands);
      SweepBegins(before, cands, pending, now, refused);
      while i < |cands|
        invariant i <= |cands| && Valid() && owed == old(owed) && fresh(reg.built - old(reg.built))
        invariant pending == CandidateNames(cands[i..])
        invariant SweptTo(before, reg.Slots(), pending, now, refused)
        invariant clips == old(clips) - reclaimed && extant <= old(extant)
        invariant reclaimed == 0 ==> reg.Slots() == before && extant == old(extant)
      {
        ghost var was := reg.Slots();
        var removed := ReapRemove(now, cands[i], if cands[i].id in refused then NeverTook else TookDurable);
        if removed {
          reclaimed := reclaimed + 1;
        } else {
          UnreapedIsSame(was, reg.Slots(), cands[i]);
        }
        SweepNext(before, was, reg.Slots(), cands, i, now, refused, removed);
        pending := CandidateNames(cands[i + 1..]);
        i := i + 1;
      }
      assert cands[i..] == [];
    }

    // The write-pressure self-heal: at most one sweep an interval, and none if a rival claimed the window first.
    method ReclaimExpired(now: int, rival: Option<int>, refused: set<GenId>) returns (freed: bool)
      requires Valid()
      modifies this`clips, this`extant, this`lastReclaim, reg, reg.built
      ensures Valid() && owed == old(owed) && fresh(reg.built - old(reg.built))
      ensures MaySweep(old(lastReclaim), now) && rival.None? ==>
                lastReclaim == now && SweptTo(old(reg.Slots()), reg.Slots(), {}, now, refused)
      ensures !MaySweep(old(lastReclaim), now) || rival.Some? ==>
                !freed && reg.Slots() == old(reg.Slots()) && extant == old(extant) && clips == old(clips)
      ensures !freed ==> reg.Slots() == old(reg.Slots()) && extant == old(extant) && clips == old(clips)
      ensures freed ==> clips < old(clips)
      ensures extant <= old(extant)
      ensures lastReclaim == if !MaySweep(old(lastReclaim), now) then old(lastReclaim)
                             else if rival.Some? then rival.value else now
    {
      hide Balanced, SweptTo, Wrap;
      var last := lastReclaim;
      if last != 0 && Wrap(now - last) < MIN_RECLAIM_INTERVAL {
        return false;
      }
      if rival.Some? {
        lastReclaim := rival.value;
        return false;
      }
      lastReclaim := now;
      var reclaimed := ReapExpired(now, refused);
      return reclaimed > 0;
    }

    // createOnce's closure under the lease, seen from the registry: one name's slot changes, if any.
    method AdmitSlot(h: ClipHandle, now: int, m: Meta, o: PutOpts, tail: Option<Uint64>, made: bool)
      returns (g: Option<Generation>, err: Option<CreateError>, counted: int)
      requires reg.Valid() && h in reg.built && h.leases > 0
      modifies h
      ensures reg.Valid() && h.leases == old(h.leases) && h.name in old(reg.Slots()) && g.Some? == err.None?
      ensures reg.Slots() == old(reg.Slots())[h.name := h.Slot()] && h.current == old(h.current)
      ensures old(reg.Slots())[h.name] == old(h.Slot())
      ensures err.Some? ==> h.live == old(h.live) && counted == clips
      ensures err == CreateFault(old(h.Slot()), now, o.ifMatch, clips, maxClips, tail.Some? && made)
      ensures g.Some? ==> g.value.name == h.name && g.value.meta == m && g.value.created == now && g.value.consume == o.consumeOnce
      ensures g.Some? ==> old(h.live).None? && h.live == g && counted == clips + 1
                          && tail.Some? && exists p: Uint64 :: g.value.id == GenId(p, tail.value)
    {
      g, err, counted := h.Admit(now, m, o, defaultTTL, clips, maxClips, tail, made);
    }

    // createOnce under the lease: the admission, and the new generation's footprint if it is admitted.
    method AdmitLeased(h: ClipHandle, now: int, m: Meta, o: PutOpts, tail: Option<Uint64>, made: bool)
      returns (g: Option<Generation>, err: Option<CreateError>)
      requires Valid() && h in reg.built && h.leases > 0
      requires tail.Some? ==> forall p: Uint64 :: GenId(p, tail.value) !in extant
      modifies this`clips, this`extant, h
      ensures Valid() && h.leases == old(h.leases) && g.Some? == err.None?
      ensures err.Some? ==> clips == old(clips) && extant == old(extant) && h.current == old(h.current) && h.live == old(h.live)
      ensures err == CreateFault(old(h.Slot()), now, o.ifMatch, old(clips), maxClips, tail.Some? && made)
      ensures g.Some? ==> g.value.name == h.name && g.value.meta == m && g.value.created == now && g.value.consume == o.consumeOnce
      ensures reg.Slots().Keys == old(reg.Slots()).Keys
      ensures forall n | n in reg.Slots() && (err.Some? || n != h.name) :: SameValues(old(reg.Slots())[n], reg.Slots()[n])
      ensures owed == old(owed)
      ensures g.Some? ==> extant == old(extant) + {g.value.id} && g.value.id in InUse(reg.Slots(), owed) && h.live == g
      ensures g.Some? ==> clips == old(clips) + 1 && g.value.id !in old(extant)
                          && h.name in reg.Slots() && reg.Slots()[h.name].live == g
    {
      hide Balanced, InUse;
      ghost var before := reg.Slots();
      var counted;
      g, err, counted := AdmitSlot(h, now, m, o, tail, made);
      if g.Some? {
        AdmitKeepsBalance(before, reg.Slots(), extant, owed, h.name, g.value);
        clips := counted;
        extant := extant + {g.value.id};
      } else {
        SameValuesBalance(before, reg.Slots(), extant, owed);
      }
    }

    // The publish flip, under the writer's lease: what it replaced is its writer's to reclaim, unless a reader owns it.
    method Publish(h: ClipHandle, at: int)
      requires Valid() && h in reg.built && h.leases > 0 && h.live.Some? && h.live.value.name == h.name
      modifies this`owed, h
      ensures Valid() && extant == old(extant) && clips == old(clips)
      ensures h.Slot() == Flip(old(h.Slot()), Finalize(old(h.live).value, at))
      ensures owed == old(owed) + if Superseded(old(h.Slot())).Some? then {Superseded(old(h.Slot())).value} else {}
    {
      hide Balanced, Finalize;
      ghost var before := reg.Slots();
      ghost var g := h.live.value;
      var prev := h.Flip(h.live.value, at);
      assert reg.Slots() == before[h.name := h.Slot()];
      FlipKeepsBalance(before, reg.Slots(), extant, owed, h.name, g, at);
      owed := owed + if prev.Some? then {prev.value} else {};
    }

    // A discard, under the writer's lease: the upload is detached, and its writer's to reclaim.
    method Discard(h: ClipHandle)
      requires Valid() && h in reg.built && h.leases > 0 && h.live.Some?
      modifies this`owed, h
      ensures Valid() && extant == old(extant) && clips == old(clips)
      ensures h.Slot() == Detach(old(h.Slot())) && owed == old(owed) + {old(h.live).value.id}
    {
      hide Balanced;
      ghost var before := reg.Slots();
      ghost var g := h.live.value.id;
      h.Discard();
      assert reg.Slots() == before[h.name := h.Slot()];
      DetachKeepsBalance(before, reg.Slots(), extant, owed, h.name, g);
      owed := owed + {g};
    }

    // reclaim: a debt is paid, and its footprint is gone.
    method Reclaim(ghost g: GenId)
      requires Valid() && g in owed
      modifies this`clips, this`extant, this`owed
      ensures Valid() && owed == old(owed) - {g} && extant == old(extant) - {g} && clips == old(clips) - 1
    {
      hide Balanced;
      SettledBalance(reg.Slots(), extant, owed, g);
      extant, owed := extant - {g}, owed - {g};
      clips := clips - 1;
    }

    // createOnce: a refused attempt leaves no handle behind, so it can be run again.
    method CreateOnce(name: string, now: int, m: Meta, o: PutOpts, tail: Option<Uint64>, made: bool)
      returns (g: Option<Generation>, err: Option<CreateError>)
      requires Valid()
      requires tail.Some? ==> forall p: Uint64 :: GenId(p, tail.value) !in extant
      modifies this`clips, this`extant, reg, reg.built
      ensures Valid() && g.Some? == err.None? && fresh(reg.built - old(reg.built))
      ensures !ValidName(name) ==> err == Some(InvalidName) && reg.Slots() == old(reg.Slots())
      ensures err.Some? ==> clips == old(clips) && extant == old(extant) && owed == old(owed)
      ensures ValidName(name) ==>
                err == CreateFault(SlotOf(old(reg.Slots()), name), now, o.ifMatch, old(clips), maxClips, tail.Some? && made)
      ensures g.Some? ==>
                && clips == old(clips) + 1 && g.value.id !in old(extant) && extant == old(extant) + {g.value.id} && owed == old(owed)
                && name in reg.Slots() && reg.Slots()[name].live == g
                && g.value.name == name && g.value.created == now && g.value.consume == o.consumeOnce
      ensures err.Some? ==> reg.Slots().Keys == old(reg.Slots()).Keys
                            && forall n | n in reg.Slots() :: SameValues(old(reg.Slots())[n], reg.Slots()[n])
    {
      hide Balanced, ValidName, SameValues, CreateFault, InUse, Normalized, PresentCurrent;
      g := None;
      if !ValidName(name) {
        FinalsStand(reg.Slots());
        return None, Some(InvalidName);
      }
      ghost var before := reg.Slots();
      var h := reg.Acquire(name);
      ghost var acquired := reg.Slots();
      assert h.Slot() == SlotOf(before, name);
      AcquiredBalance(before, acquired, name, extant, owed);
      g, err := AdmitLeased(h, now, Normalized(m), o, tail, made);
      if err.Some? {
        Refuse(h, before, acquired);
      }
    }

    // A refused attempt gives its lease back, and with it the handle that only it needed.
    method Refuse(h: ClipHandle, ghost before: Slots, ghost acquired: Slots)
      requires Valid() && h in reg.built && h.leases > 0
      requires acquired == if h.name in before then before else before[h.name := Generations.Slot.Slot(None, None, 0)]
      requires reg.Slots().Keys == acquired.Keys && forall n | n in reg.Slots() :: SameValues(acquired[n], reg.Slots()[n])
      requires if h.name in before then h.leases > 1 || !h.Slot().Empty() else h.leases == 1
      modifies reg, h
      ensures Valid() && reg.built == old(reg.built)
      ensures reg.Slots().Keys == before.Keys && forall n | n in reg.Slots() :: SameValues(before[n], reg.Slots()[n])
    {
      hide Balanced;
      ghost var refused := reg.Slots();
      assert refused[h.name] == h.Slot();
      reg.Release(h);
      ReleasedBalance(refused, reg.Slots(), h.name, extant, owed);
      RefusedIsSame(before, acquired, refused, reg.Slots(), h.name);
    }

    // Create, with the one self-heal a full store may need. If it still reports no room for the count, and the sweep was
    // neither throttled nor beaten to the window nor refused by the disk, then the store really is full: of generations
    // in use, and of finalized values within their deadline.
    method Create(name: string, m: Meta, o: PutOpts, first: int, sweep: int, second: int, tail: Option<Uint64>, made: bool,
                  rival: Option<int>)
      returns (g: Option<Generation>, err: Option<CreateError>)
      requires Valid()
      requires tail.Some? ==> forall p: Uint64 :: GenId(p, tail.value) !in extant
      modifies this`clips, this`extant, this`lastReclaim, reg, reg.built
      ensures Valid() && g.Some? == err.None?
      ensures !ValidName(name) ==> err == Some(InvalidName)
      ensures var asked := SlotOf(old(reg.Slots()), name);
              ValidName(name) && Admission(asked, first, o.ifMatch, old(clips), maxClips) != NoSpace ==>
                err == CreateFault(asked, first, o.ifMatch, old(clips), maxClips, tail.Some? && made)
      ensures g.Some? ==> g.value.name == name && g.value.created in {first, second} && g.value.consume == o.consumeOnce
                          && name in reg.Slots() && reg.Slots()[name].live == g
      ensures err == Some(NoRoom) ==> maxClips != 0 && |extant| >= maxClips
      ensures err == Some(NoRoom) && MaySweep(old(lastReclaim), sweep) && rival.None? ==>
                forall x | x in extant && x !in InUse(reg.Slots(), owed) :: exists n :: HoldsFresh(reg.Slots(), n, x, sweep)
    {
      hide Balanced, ValidName;
      g, err := CreateOnce(name, first, m, o, tail, made);
      if err != Some(NoRoom) {
        return;
      }
      ghost var before := reg.Slots();
      var freed := ReclaimExpired(sweep, rival, {});
      ghost var swept := reg.Slots();
      if freed {
        g, err := CreateOnce(name, second, m, o, tail, made);
      }
      if err == Some(NoRoom) && MaySweep(old(lastReclaim), sweep) && rival.None? {
        SweptIsFresh(before, swept, sweep);
        FullOfFresh(swept, reg.Slots(), extant, owed, sweep);
      }
    }
  }

  // The name's finalized value is `x`, within its deadline.
  predicate HoldsFresh(slots: Slots, n: string, x: GenId, now: int) {
    n in slots && FinalIn(slots[n]) == Some(x) && ExpiredCurrent(slots[n], now).None?
  }

  // Neither the value nor the upload changed.
  predicate SameValues(a: Generations.Slot, b: Generations.Slot) { a.current == b.current && a.live == b.live }

  lemma SweptIsFresh(slots: Slots, after: Slots, now: int)
    requires SweptTo(slots, after, {}, now, {})
    ensures forall n | n in after :: ExpiredCurrent(after[n], now).None?
  {
    forall n | n in after
      ensures ExpiredCurrent(after[n], now).None?
    {
      assert n in slots;
    }
  }

  lemma FullOfFresh(swept: Slots, slots: Slots, extant: set<GenId>, owed: set<GenId>, now: int)
    requires Balanced(slots, extant, owed) && slots.Keys == swept.Keys && forall n | n in slots :: SameValues(swept[n], slots[n])
    requires forall n | n in swept :: ExpiredCurrent(swept[n], now).None?
    ensures forall x | x in extant && x !in InUse(slots, owed) :: exists n :: HoldsFresh(slots, n, x, now)
  {
    hide InUse;
    forall x | x in extant && x !in InUse(slots, owed)
      ensures exists n :: HoldsFresh(slots, n, x, now)
    {
      var n :| n in slots && FinalIn(slots[n]) == Some(x);
      assert SameValues(swept[n], slots[n]);
      assert HoldsFresh(slots, n, x, now);
    }
  }

  lemma SameUses(slots: Slots, after: Slots, owed: set<GenId>)
    requires after.Keys == slots.Keys && forall n | n in slots :: LiveIn(slots[n]) == LiveIn(after[n])
    ensures InUse(after, owed) == InUse(slots, owed)
  {
  }

  lemma SameValuesBalance(slots: Slots, after: Slots, extant: set<GenId>, owed: set<GenId>)
    requires Balanced(slots, extant, owed) && after.Keys == slots.Keys && forall n | n in slots :: SameValues(slots[n], after[n])
    ensures Balanced(after, extant, owed)
  {
    hide InUse;
    assert forall n | n in slots :: SameValues(slots[n], after[n]) && FinalIn(after[n]) == FinalIn(slots[n])
                                    && LiveIn(after[n]) == LiveIn(slots[n]);
    SameUses(slots, after, owed);
    forall g | g in extant && g !in InUse(slots, owed)
      ensures exists n :: n in after && FinalIn(after[n]) == Some(g)
    {
      var n :| n in slots && FinalIn(slots[n]) == Some(g);
      assert FinalIn(after[n]) == Some(g);
    }
  }

  // One name's upload, before and after.
  lemma UsesChange(slots: Slots, after: Slots, owed: set<GenId>, more: set<GenId>, name: string)
    requires name in slots && name in after && after == slots[name := after[name]]
    requires LivesApart(slots, InUse(slots, owed), owed)
    ensures InUse(after, owed + more)
         == InUse(slots, owed) - (if LiveIn(slots[name]).Some? then {LiveIn(slots[name]).value} else {})
            + more + (if LiveIn(after[name]).Some? then {LiveIn(after[name]).value} else {})
  {
    var gone := if LiveIn(slots[name]).Some? then {LiveIn(slots[name]).value} else {};
    var fresh_ := if LiveIn(after[name]).Some? then {LiveIn(after[name]).value} else {};
    forall g | g in InUse(slots, owed) - gone
      ensures g in InUse(after, owed + more)
    {
      if g !in owed {
        var n :| n in slots && LiveIn(slots[n]) == Some(g);
        assert n != name && LiveIn(after[n]) == Some(g);
      }
    }
    forall g | g in InUse(after, owed + more)
      ensures g in InUse(slots, owed) - gone + more + fresh_
    {
      if g !in owed + more {
        var n :| n in after && LiveIn(after[n]) == Some(g);
        assert n != name ==> LiveIn(slots[n]) == Some(g);
      }
    }
  }

  lemma AdmitKeepsFinals(slots: Slots, after: Slots, extant: set<GenId>, owed: set<GenId>, name: string, id: GenId)
    requires FinalsApart(slots, extant, owed) && name in slots && name in after && after == slots[name := after[name]]
    requires after[name].current == slots[name].current && id !in extant && InUse(after, owed) == InUse(slots, owed) + {id}
    ensures FinalsApart(after, extant + {id}, owed)
  {
    hide InUse;
    assert forall n | n in slots :: after[n].current == slots[n].current && FinalIn(after[n]) == FinalIn(slots[n]);
  }

  lemma AdmitKeepsLives(slots: Slots, after: Slots, extant: set<GenId>, owed: set<GenId>, name: string, id: GenId)
    requires LivesApart(slots, extant, owed) && name in slots && name in after && after == slots[name := after[name]]
    requires LiveIn(after[name]) == Some(id) && id !in extant
    ensures LivesApart(after, extant + {id}, owed)
  {
    hide InUse;
  }

  lemma AdmitKeepsBalance(slots: Slots, after: Slots, extant: set<GenId>, owed: set<GenId>, name: string, g: Generation)
    requires Balanced(slots, extant, owed) && name in slots && name in after && after == slots[name := after[name]]
    requires after[name].current == slots[name].current && slots[name].live.None? && after[name].live == Some(g)
    requires g.id !in extant
    ensures Balanced(after, extant + {g.id}, owed) && g.id in InUse(after, owed)
  {
    hide InUse;
    UsesAreApart(slots, owed);
    UsesChange(slots, after, owed, {}, name);
    assert owed + {} == owed;
    assert InUse(after, owed) == InUse(slots, owed) + {g.id};
    AdmitKeepsFinals(slots, after, extant, owed, name, g.id);
    AdmitKeepsLives(slots, after, extant, owed, name, g.id);
    OneSlotBalance(slots, after, extant, extant + {g.id}, owed, owed, name);
  }

  lemma FlipKeepsBalance(slots: Slots, after: Slots, extant: set<GenId>, owed: set<GenId>, name: string, g: Generation, at: int)
    requires Balanced(slots, extant, owed) && name in slots && name in after && after == slots[name := after[name]]
    requires slots[name].live == Some(g) && g.name == name && after[name] == Flip(slots[name], Finalize(g, at))
    ensures Balanced(after, extant,
                     owed + if Superseded(slots[name]).Some? then {Superseded(slots[name]).value} else {})
  {
    hide InUse;
    var prev := if Superseded(slots[name]).Some? then {Superseded(slots[name]).value} else {};
    UsesAreApart(slots, owed);
    UsesChange(slots, after, owed, prev, name);
    OneSlotBalance(slots, after, extant, extant, owed, owed + prev, name);
  }

  lemma DetachKeepsBalance(slots: Slots, after: Slots, extant: set<GenId>, owed: set<GenId>, name: string, g: GenId)
    requires Balanced(slots, extant, owed) && name in slots && name in after && after == slots[name := after[name]]
    requires LiveIn(slots[name]) == Some(g) && after[name] == Detach(slots[name])
    ensures Balanced(after, extant, owed + {g})
  {
    hide InUse;
    UsesAreApart(slots, owed);
    UsesChange(slots, after, owed, {g}, name);
    OneSlotBalance(slots, after, extant, extant, owed, owed + {g}, name);
  }

  // One name's slot changed, and what it let go of is in use or gone.
  lemma OneSlotBalance(slots: Slots, after: Slots, extant: set<GenId>, left: set<GenId>, owed: set<GenId>, owing: set<GenId>,
                       name: string)
    requires Balanced(slots, extant, owed) && name in slots && name in after && after == slots[name := after[name]]
    requires FinalsApart(after, left, owing) && LivesApart(after, left, owing)
    requires forall g | g in left && g !in InUse(after, owing) && FinalIn(after[name]) != Some(g) ::
               g in extant && g !in InUse(slots, owed) && FinalIn(slots[name]) != Some(g)
    ensures Balanced(after, left, owing)
  {
    hide InUse, FinalsApart, LivesApart;
    forall g | g in left && g !in InUse(after, owing)
      ensures exists n :: n in after && FinalIn(after[n]) == Some(g)
    {
      if FinalIn(after[name]) != Some(g) {
        var n :| n in slots && FinalIn(slots[n]) == Some(g);
        assert n != name && FinalIn(after[n]) == Some(g);
      }
    }
  }

  lemma SettledBalance(slots: Slots, extant: set<GenId>, owed: set<GenId>, g: GenId)
    requires Balanced(slots, extant, owed) && g in owed
    ensures g in extant && Balanced(slots, extant - {g}, owed - {g})
  {
    UsesAreApart(slots, owed);
    assert InUse(slots, owed - {g}) == InUse(slots, owed) - {g};
  }

  // Taking or giving back a lease on an empty handle changes no balance.
  lemma AcquiredBalance(slots: Slots, after: Slots, name: string, extant: set<GenId>, owed: set<GenId>)
    requires Balanced(slots, extant, owed)
    requires after == if name in slots then slots else slots[name := Generations.Slot.Slot(None, None, 0)]
    ensures Balanced(after, extant, owed)
  {
    AcquireKeepsUses(slots, after, name, owed);
    forall g | g in extant && g !in InUse(slots, owed)
      ensures exists n :: n in after && FinalIn(after[n]) == Some(g)
    {
      var n :| n in slots && FinalIn(slots[n]) == Some(g);
      assert n in after && FinalIn(after[n]) == Some(g);
    }
  }

  lemma FinalsStand(slots: Slots)
    ensures forall n | n in slots :: SameValues(slots[n], slots[n])
  {
  }

  // An attempt that installed nothing leaves every name and every finalized value as they were.
  lemma RefusedIsSame(slots: Slots, acquired: Slots, refused: Slots, after: Slots, name: string)
    requires acquired == if name in slots then slots else slots[name := Generations.Slot.Slot(None, None, 0)]
    requires refused.Keys == acquired.Keys && forall n | n in refused :: SameValues(acquired[n], refused[n])
    requires if name in slots then after == refused else after == refused - {name}
    ensures after.Keys == slots.Keys && forall n | n in after :: SameValues(slots[n], after[n])
  {
  }

  lemma ReleasedBalance(slots: Slots, after: Slots, name: string, extant: set<GenId>, owed: set<GenId>)
    requires Balanced(slots, extant, owed)
    requires after == slots || (after == slots - {name} && name in slots && slots[name].Empty())
    ensures Balanced(after, extant, owed)
  {
    EvictionKeepsUses(slots, after, name, owed);
    forall g | g in extant && g !in InUse(slots, owed)
      ensures exists n :: n in after && FinalIn(after[n]) == Some(g)
    {
      var n :| n in slots && FinalIn(slots[n]) == Some(g);
      assert n in after && FinalIn(after[n]) == Some(g);
    }
  }

  lemma AcquireKeepsUses(slots: Slots, after: Slots, name: string, owed: set<GenId>)
    requires after == if name in slots then slots else slots[name := Generations.Slot.Slot(None, None, 0)]
    ensures InUse(after, owed) == InUse(slots, owed)
  {
    forall g | g in InUse(slots, owed)
      ensures g in InUse(after, owed)
    {
      if g !in owed {
        var n :| n in slots && LiveIn(slots[n]) == Some(g);
        assert n in after && LiveIn(after[n]) == Some(g);
      }
    }
  }

  lemma EvictionKeepsUses(slots: Slots, after: Slots, name: string, owed: set<GenId>)
    requires after == slots || (after == slots - {name} && name in slots && slots[name].Empty())
    ensures InUse(after, owed) == InUse(slots, owed)
  {
    forall g | g in InUse(slots, owed)
      ensures g in InUse(after, owed)
    {
      if g !in owed {
        var n :| n in slots && LiveIn(slots[n]) == Some(g);
        assert n in after && LiveIn(after[n]) == Some(g);
      }
    }
  }

  function CandidateNames(cands: seq<Candidate>): set<string> { set c | c in cands :: c.name }

  // A sweep takes this current: it is past its deadline and the disk did not refuse its retire.
  predicate Takes(slot: Generations.Slot, now: int, refused: set<GenId>) {
    ExpiredCurrent(slot, now).Some? && slot.current.value.id !in refused
  }

  // Outside `pending`, everything expired has been dropped but what the disk refused, and nothing else has changed.
  ghost predicate SweptTo(slots: Slots, after: Slots, pending: set<string>, now: int, refused: set<GenId>) {
    && after.Keys <= slots.Keys
    && forall n | n in slots ::
         if n !in pending && Takes(slots[n], now, refused) then n in after ==> after[n] == slots[n].(current := None)
         else n in after && after[n] == slots[n]
  }

  lemma CandidatesAreExpired(slots: Slots, cands: seq<Candidate>, now: int)
    requires forall c | c in cands :: StillExpired(slots, c, now)
    ensures forall j | 0 <= j < |cands| :: StillExpired(slots, cands[j], now)
  {
    hide StillExpired;
    forall j | 0 <= j < |cands|
      ensures StillExpired(slots, cands[j], now)
    {
      assert cands[j] in cands;
    }
  }

  lemma SweepBegins(slots: Slots, cands: seq<Candidate>, pending: set<string>, now: int, refused: set<GenId>)
    requires pending == CandidateNames(cands)
    requires forall n | n in slots && ExpiredCurrent(slots[n], now).Some? :: Candidate(n, slots[n].current.value.id) in cands
    ensures SweptTo(slots, slots, pending, now, refused) && cands[0..] == cands
  {
    forall n | n in slots && ExpiredCurrent(slots[n], now).Some?
      ensures n in pending
    {
      assert Candidate(n, slots[n].current.value.id).name in pending;
    }
  }

  lemma SweepNext(slots: Slots, was: Slots, after: Slots, cands: seq<Candidate>, i: nat, now: int, refused: set<GenId>, removed: bool)
    requires i < |cands| && forall j, k | 0 <= j < k < |cands| :: cands[j].name != cands[k].name
    requires StillExpired(slots, cands[i], now)
    requires SweptTo(slots, was, CandidateNames(cands[i..]), now, refused) && Reaped(was, after, cands[i], removed)
    requires removed <==> cands[i].id !in refused && StillExpired(was, cands[i], now)
    ensures SweptTo(slots, after, CandidateNames(cands[i + 1..]), now, refused)
  {
    var c := cands[i];
    assert cands[i..] == [c] + cands[i + 1..];
    assert CandidateNames(cands[i..]) == CandidateNames(cands[i + 1..]) + {c.name} by {
      forall n | n in CandidateNames(cands[i..])
        ensures n in CandidateNames(cands[i + 1..]) + {c.name}
      {
        var k :| k in cands[i..] && k.name == n;
        assert k == c || k in cands[i + 1..];
      }
    }
    assert c.name !in CandidateNames(cands[i + 1..]) by {
      forall k | k in cands[i + 1..]
        ensures k.name != c.name
      {
      }
    }
  }

  lemma UnreapedIsSame(slots: Slots, after: Slots, c: Candidate)
    requires Reaped(slots, after, c, false)
    ensures after == slots
  {
  }
}
