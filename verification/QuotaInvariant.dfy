// Conservation: the clip counter is the number of generations with a footprint, the byte counter is the sum of their
// logs and of what writers hold reserved, and neither passes its cap except by what a boot restored.
module QuotaInvariant {
  import opened Common
  import opened GenIds
  import opened Generations
  import opened Records
  import opened DiskModel
  import opened Transitions
  import opened StoreMachine
  import opened Ownership
  import opened OwnershipSteps

  ghost function Helds(ops: map<nat, Op>): map<nat, nat> { map p | p in ops :: ops[p].Held() }

  ghost function Sizes(logs: map<GenId, Log>, extant: set<GenId>): map<GenId, nat> {
    map g | g in extant && g in logs :: |logs[g].bytes|
  }

  function Max(a: int, b: int): int { if a < b then b else a }

  ghost predicate Balanced(s: State) {
    && s.clips == |s.extant|
    && s.bytes == Sum(Sizes(s.logs, s.extant)) + Sum(Helds(s.ops))
  }

  ghost predicate Capped(s: State) {
    && (s.cfg.maxClips != 0 ==> s.clips <= Max(s.cfg.maxClips, |s.restored|))
    && (s.cfg.maxTotal != 0 ==> s.bytes <= Max(s.cfg.maxTotal, s.baseBytes))
    && (forall g | g in s.extant && g !in s.restored && g in s.logs && s.cfg.maxClip != 0 ::
          |s.logs[g].bytes| <= s.cfg.maxClip)
    && (forall p | p in s.ops && s.ops[p].Writing? && s.ops[p].stage.Reserved? && s.cfg.maxClip != 0 ::
          s.ops[p].g in s.logs && |s.logs[s.ops[p].g].bytes| + |s.ops[p].stage.chunk| <= s.cfg.maxClip)
  }

  ghost predicate QuotaInv(s: State) { Balanced(s) && Capped(s) }

  lemma HeldsUpdate(ops: map<nat, Op>, o: nat, op: Op)
    ensures Sum(Helds(ops[o := op])) == Sum(Helds(ops)) - (if o in ops then ops[o].Held() else 0) + op.Held()
  {
    assert Helds(ops[o := op]) == Helds(ops)[o := op.Held()];
    SumUpdate(Helds(ops), o, op.Held());
  }

  // Steps that touch neither the counters nor a log's size, and leave the operation holding what it held.
  ghost predicate Still(s: State, t: State, o: nat) {
    && t.cfg == s.cfg && t.clips == s.clips && t.bytes == s.bytes && t.extant == s.extant
    && t.restored == s.restored && t.baseBytes == s.baseBytes
    && (forall g | g in s.logs :: g in t.logs && |t.logs[g].bytes| == |s.logs[g].bytes|)
    && o in t.ops && t.ops == s.ops[o := t.ops[o]]
    && t.ops[o].Held() == (if o in s.ops then s.ops[o].Held() else 0)
    && (t.ops[o].Writing? ==> !t.ops[o].stage.Reserved?)
  }

  lemma StillKeepsQuota(s: State, t: State, o: nat)
    requires QuotaInv(s) && OwnInv(s) && Still(s, t, o)
    ensures QuotaInv(t)
  {
    hide OpsWell, SlotsWell, OneOwner, Seated, OwedBy;
    assert Sizes(t.logs, t.extant) == Sizes(s.logs, s.extant);
    HeldsUpdate(s.ops, o, t.ops[o]);
  }

  lemma ReleaseKeepsQuota(s: State, o: nat)
    requires QuotaInv(s) && At(s, o) && s.ops[o].Leaving?
    ensures QuotaInv(ReleaseNext(s, o))
  {
    assert Helds(s.ops - {o}) == Helds(s.ops) - {o};
    SumSplit(Helds(s.ops), o);
  }

  lemma AdmittedKeepsQuota(s: State, o: nat, tail: Option<Uint64>)
    requires QuotaInv(s) && Admits(s, o, tail) && s.extant <= s.minted.Keys
    ensures QuotaInv(AdmitNext(s, o, tail, true))
  {
    var t := AdmitNext(s, o, tail, true);
    var id := FreshId(s, s.ops[o].h, tail.value);
    InstalledKeepsQuota(s, t, o, id);
  }

  // One more generation, empty so far, within the cap on their number.
  lemma SizesInstalled(logs: map<GenId, Log>, extant: set<GenId>, id: GenId)
    requires id !in extant
    ensures Sizes(logs[id := Log([], Open)], extant + {id}) == Sizes(logs, extant)[id := 0]
  {
  }

  lemma InstalledKeepsQuota(s: State, t: State, o: nat, id: GenId)
    requires QuotaInv(s) && id !in s.extant && t.extant == s.extant + {id} && t.clips == s.clips + 1 && t.bytes == s.bytes
    requires t.logs == s.logs[id := Log([], Open)] && t.cfg == s.cfg
    requires t.restored == s.restored && t.baseBytes == s.baseBytes
    requires o in s.ops && s.ops[o].Held() == 0 && !s.ops[o].Writing?
    requires o in t.ops && t.ops == s.ops[o := t.ops[o]] && t.ops[o].Writing? && t.ops[o].stage == Idle
    requires s.cfg.maxClips != 0 ==> s.clips + 1 <= s.cfg.maxClips
    ensures QuotaInv(t)
  {
    SizesInstalled(s.logs, s.extant, id);
    SumUpdate(Sizes(s.logs, s.extant), id, 0);
    HeldsUpdate(s.ops, o, t.ops[o]);
  }

  lemma ReserveKeepsQuota(s: State, o: nat, chunk: seq<Byte>)
    requires QuotaInv(s) && IsWriting(s, o) && s.ops[o].stage.Idle?
    ensures QuotaInv(ReserveNext(s, o, chunk))
  {
    hide OwnInv, ReserveNext;
    if ReserveNext(s, o, chunk) != s {
      ReserveUnfolds(s, o, chunk);
      ReservedKeepsQuota(s, ReserveNext(s, o, chunk), o, chunk);
    }
  }

  lemma ReserveUnfolds(s: State, o: nat, chunk: seq<Byte>)
    requires IsWriting(s, o) && s.ops[o].stage.Idle? && ReserveNext(s, o, chunk) != s
    ensures ReserveNext(s, o, chunk) == s.SetOp(o, s.ops[o].(stage := Reserved(chunk))).(bytes := s.bytes + |chunk|)
    ensures s.cfg.maxClip == 0 || |s.logs[s.ops[o].g].bytes| + |chunk| <= s.cfg.maxClip
    ensures s.cfg.maxTotal == 0 || s.bytes + |chunk| <= s.cfg.maxTotal
  {
  }

  lemma ReservedKeepsQuota(s: State, t: State, o: nat, chunk: seq<Byte>)
    requires QuotaInv(s) && IsWriting(s, o) && s.ops[o].stage.Idle?
    requires t == s.SetOp(o, s.ops[o].(stage := Reserved(chunk))).(bytes := s.bytes + |chunk|)
    requires s.cfg.maxClip == 0 || |s.logs[s.ops[o].g].bytes| + |chunk| <= s.cfg.maxClip
    requires s.cfg.maxTotal == 0 || s.bytes + |chunk| <= s.cfg.maxTotal
    ensures QuotaInv(t)
  {
    hide Helds, Sizes, Sum;
    HeldsUpdate(s.ops, o, t.ops[o]);
  }

  lemma AppendKeepsQuota(s: State, o: nat, stored: nat)
    requires QuotaInv(s) && IsWriting(s, o) && s.ops[o].stage.Reserved? && stored <= |s.ops[o].stage.chunk|
    requires s.ops[o].g in s.extant
    requires forall p | p in s.ops && p != o && s.ops[p].Writing? :: s.ops[p].g != s.ops[o].g
    ensures QuotaInv(AppendNext(s, o, stored))
  {
    var t := AppendNext(s, o, stored);
    var g := s.ops[o].g;
    assert Sizes(t.logs, t.extant) == Sizes(s.logs, s.extant)[g := |t.logs[g].bytes|];
    SumUpdate(Sizes(s.logs, s.extant), g, |t.logs[g].bytes|);
    HeldsUpdate(s.ops, o, t.ops[o]);
  }

  lemma ReturnTailKeepsQuota(s: State, o: nat)
    requires QuotaInv(s) && IsWriting(s, o) && s.ops[o].stage.ShortBy?
    ensures QuotaInv(ReturnTailNext(s, o))
  {
    HeldsUpdate(s.ops, o, ReturnTailNext(s, o).ops[o]);
  }

  // The footprint of a generation is given back once, and it is all of it.
  lemma ReclaimKeepsQuota(s: State, o: nat, removal: Removal)
    requires QuotaInv(s) && IsOwing(s, o) && s.ops[o].g in s.extant
    ensures QuotaInv(ReclaimNext(s, o, removal))
  {
    var t := ReclaimNext(s, o, removal);
    var g := s.ops[o].g;
    assert Sizes(t.logs, t.extant) == Sizes(s.logs, s.extant) - {g};
    SumSplit(Sizes(s.logs, s.extant), g);
    HeldsUpdate(s.ops, o, t.ops[o]);
  }

  lemma CrashKeepsQuota(s: State, after: Disk)
    requires QuotaInv(s)
    ensures QuotaInv(CrashNext(s, after))
  {
    var t := CrashNext(s, after);
    assert Sizes(t.logs, t.extant) == map[];
    assert Helds(t.ops) == map[];
  }

  lemma BootKeepsQuota(s: State, after: Disk, hs: map<nat, Handle>, names: map<string, nat>)
    requires s.ops == map[]
    ensures QuotaInv(BootNext(s, after, hs, names))
  {
    var t := BootNext(s, after, hs, names);
    RestoredIsBalanced(s.disk, Survivors(s.disk, s.cfg.checksum), t);
  }

  lemma RestoredIsBalanced(disk: Disk, kept: set<GenId>, t: State)
    requires kept <= disk.Keys && t.ops == map[] && t.extant == kept == t.restored && t.clips == |kept|
    requires t.bytes == Sum(map id | id in kept :: |disk[id].bytes|) == t.baseBytes
    requires t.logs == map id | id in kept :: Log(disk[id].bytes, Finished)
    ensures QuotaInv(t)
  {
    assert Sizes(t.logs, t.extant) == map id | id in kept :: |disk[id].bytes|;
    assert Helds(t.ops) == map[];
  }
}
