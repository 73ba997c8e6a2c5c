// What a crash of the machine or a kill of the process may and may not do: acknowledged writes come back exactly as they
// were, ended ones do not come back, and recovery, however often it is interrupted, changes which generations survive
// only where the machine goes down after a kill.
module Survival {
  import opened Common
  import opened GenIds
  import opened Generations
  import opened Records
  import opened DiskModel
  import opened Transitions
  import opened StoreMachine
  import opened Leases
  import opened Ownership
  import opened Gates
  import opened QuotaInvariant
  import opened Storage
  import opened StorageSteps
  import opened StorageRestart
  import opened Invariant
  import opened Runs

  // -------------------------------------------------------------------------
  // The survivors are decided at the crash
  // -------------------------------------------------------------------------

  // Steps that may happen while nothing serves: another crash, a scan cut short, a change of settings.
  predicate Recovering(step: Step) { step.Crash? || step.ScanPartly? || step.Reconfigure? }

  // The two ways a store that serves stops.
  predicate Stops(step: Step) { step.Crash? || step.Kill? }

  // Every candidate a second crash leaves was beaten, before it, by a survivor of its name.
  lemma SecondCrashCandidates(d: State, after: Disk, i: GenId) returns (k: GenId)
    requires DirsWell(d) && DownWell(d) && d.settled && MayCrashInto(d.disk, after)
    requires i in after && Candidate(i, after[i], d.cfg.checksum)
    ensures Survives(d.disk, k, d.cfg.checksum) && !i.After(k) && k in after && Kept(CrashNext(d, after), k)
    ensures Candidate(k, after[k], d.cfg.checksum)
    ensures after[k].marker.now.value.name == d.disk[k].marker.now.value.name == after[i].marker.now.value.name
  {
    hide ChecksumHolds, Validates, ValidName;
    CrashSettles(d, after, i);
    assert d.disk[i].MayCrashTo(after[i]);
    k :| Beats(d, k, i);
    KeptSurvivesACrash(d, after, k);
    CrashSettles(d, after, k);
  }

  lemma SecondCrashKeepsSurvivors(d: State, after: Disk, k: GenId)
    requires DirsWell(d) && DownWell(d) && d.settled && MayCrashInto(d.disk, after)
    ensures Survives(after, k, d.cfg.checksum) <==> Survives(d.disk, k, d.cfg.checksum)
  {
    hide ChecksumHolds, Validates, ValidName, LoadMeta, DirsWell, DownWell, MayCrashInto, Kept;
    if Survives(after, k, d.cfg.checksum) {
      var j := SecondCrashCandidates(d, after, k);
      assert !j.After(k);
      AfterIsStrictTotalOrder(j, k, j);
    }
    if Survives(d.disk, k, d.cfg.checksum) {
      SurvivorStaysCandidate(d, after, k);
      forall i | i in after && Candidate(i, after[i], d.cfg.checksum)
                 && after[i].marker.now.value.name == after[k].marker.now.value.name
        ensures !i.After(k)
      {
        var j := SecondCrashCandidates(d, after, i);
        OneSurvivorPerName(d.disk, j, k, d.cfg.checksum);
      }
    }
  }

  lemma SurvivorStaysCandidate(d: State, after: Disk, k: GenId)
    requires DirsWell(d) && DownWell(d) && d.settled && MayCrashInto(d.disk, after) && Survives(d.disk, k, d.cfg.checksum)
    ensures k in after && Candidate(k, after[k], d.cfg.checksum) && d.disk[k].marker.now.Some?
    ensures after[k].marker.now == d.disk[k].marker.now
  {
    hide ChecksumHolds, Validates, ValidName;
    assert Kept(d, k);
    KeptSurvivesACrash(d, after, k);
    CrashSettles(d, after, k);
  }

  lemma DownStepKeepsSurvivors(d: State, step: Step, k: GenId)
    requires StoreInv(d) && !d.up && Recovering(step) && Enabled(d, step) && (d.settled || !step.Crash?)
    ensures !Next(d, step).up && Next(d, step).settled == d.settled && Next(d, step).published == d.published && Next(d, step).minted == d.minted
    ensures Survives(Next(d, step).disk, k, Next(d, step).cfg.checksum) <==> Survives(d.disk, k, d.cfg.checksum)
  {
    hide Candidate, DirsWell, DownWell, MayCrashInto, ScanLeaves, Survives;
    if step.Crash? {
      SecondCrashKeepsSurvivors(d, step.after, k);
    } else if step.ScanPartly? {
      ScanKeepsSurvivors(d.disk, step.after, k, d.cfg.checksum);
    } else {
      SurvivesEitherWay(d, k, d.cfg.checksum, step.cfg.checksum);
      SurvivesEitherWay(d, k, step.cfg.checksum, d.cfg.checksum);
    }
  }

  // However often recovery is interrupted, and whatever the settings become, the generations that will be restored are
  // those the first stop left; and however often the machine goes down again, once it has.
  lemma {:induction false} SurvivorsAreDecided(d: State, steps: seq<Step>, t: State, k: GenId)
    requires Inv(d) && !d.up && Run(d, steps, t) && forall i | 0 <= i < |steps| :: Recovering(steps[i])
    requires d.settled || forall i | 0 <= i < |steps| :: !steps[i].Crash?
    ensures Inv(t) && !t.up && t.published == d.published && t.minted == d.minted
    ensures Survives(t.disk, k, t.cfg.checksum) <==> Survives(d.disk, k, d.cfg.checksum)
    decreases |steps|
  {
    hide Enabled, Next, Survives, StoreInv;
    if steps != [] {
      DownStepKeepsSurvivors(d, steps[0], k);
      NextKeepsInv(d, steps[0]);
      SurvivorsAreDecided(Next(d, steps[0]), steps[1..], t, k);
    }
  }

  // -------------------------------------------------------------------------
  // Acknowledged writes survive
  // -------------------------------------------------------------------------

  // The finalized value a serving store holds for a name.
  function Value(s: State, name: string): Option<Generation> {
    if s.up && name in s.reg && s.reg[name] in s.handles then
      var c := s.handles[s.reg[name]].slot.current;
      if c.Some? && c.value.state == GenFinalized then c else None
    else None
  }

  // While the store serves, an acknowledged write that nothing has ended is its name's value, over its full bytes.
  lemma AcknowledgedIsTheValue(s: State, g: GenId)
    requires Inv(s) && s.up && g in s.acked && g !in s.ended
    ensures g in s.minted && Value(s, s.minted[g]).Some?
    ensures Value(s, s.minted[g]).value.id == g && Value(s, s.minted[g]).value.state == GenFinalized
    ensures g in s.published && g in s.logs && s.logs[g].bytes == s.published[g].bytes
    ensures s.published[g].record.(checksum := "")
         == RecordOf(Value(s, s.minted[g]).value, s.published[g].bytes, false).(checksum := "")
  {
    assert Acknowledged(s, g);
    assert SlotStored(s, s.handles[s.reg[s.minted[g]]]);
  }

  // Reading a record back gives the generation it was made from, but for the span its deadline replaced.
  lemma RecordDetermines(g: Generation, r: Record, bytes: seq<Byte>)
    requires r.(checksum := "") == RecordOf(g, bytes, false).(checksum := "")
    requires r.meta == Normalized(r.meta) && g.state == GenFinalized
    ensures Recovered(g.id, r) == g.(ttl := 0)
  {
  }

  // What a boot makes of a name is its survivor, under the record and the bytes it was published with.
  lemma BootInstallsTheSurvivor(d: State, after: Disk, hs: map<nat, Handle>, names: map<string, nat>, k: GenId)
    requires Inv(d) && !d.up && Enabled(d, Boot(after, hs, names)) && Survives(d.disk, k, d.cfg.checksum)
    ensures var t := BootNext(d, after, hs, names);
            && k in d.minted && k in d.published
            && Value(t, d.minted[k]) == Some(Recovered(k, d.published[k].record))
            && k in t.logs && t.logs[k].bytes == d.published[k].bytes
  {
    hide LeaseInv, OwnInv, GateInv, QuotaInv, Validates, ChecksumHolds, ValidName, RecordOf, Normalized, Survives,
         DirsWell, DownWell, ScanLeaves, FatesWell;
    SurvivorIsSeated(d, hs, names, k);
    SurvivorIsOnDisk(d, after, k);
    assert k in Survivors(d.disk, d.cfg.checksum);
  }

  // -------------------------------------------------------------------------
  // The heir of an acknowledged write
  // -------------------------------------------------------------------------

  // `k` is what recovery would keep for the name of `g`: the generation itself, or one published later.
  ghost predicate Heir(d: State, g: GenId, k: GenId) {
    && Survives(d.disk, k, d.cfg.checksum) && k in d.published
    && k in d.minted && g in d.minted && d.minted[k] == d.minted[g] && (k == g || k.After(g))
  }

  lemma CandidateHasHeir(d: State, g: GenId, i: GenId) returns (k: GenId)
    requires DirsWell(d) && i in d.disk && Candidate(i, d.disk[i], d.cfg.checksum)
    requires g in d.minted && i in d.minted && d.minted[i] == d.minted[g] && (i == g || i.After(g))
    ensures Heir(d, g, k)
  {
    hide Candidate, Validates, ChecksumHolds, Survives;
    k := CandidateHasSurvivor(d.disk, i, d.cfg.checksum);
    SurvivorIsACandidate(d.disk, k, d.cfg.checksum);
    CandidateMeans(d, k, d.cfg.checksum);
    CandidateMeans(d, i, d.cfg.checksum);
    AfterIsStrictTotalOrder(k, i, g);
  }

  lemma SurvivorIsACandidate(disk: Disk, k: GenId, verify: bool)
    requires Survives(disk, k, verify)
    ensures k in disk && Candidate(k, disk[k], verify)
  {
  }

  // An acknowledged write that nothing has ended has an heir, as the disk stands.
  lemma AcknowledgedHasHeir(s: State, g: GenId) returns (k: GenId)
    requires StoreInv(s) && g in s.acked && g !in s.ended
    ensures Heir(s, g, k)
  {
    hide Survives, Validates, ChecksumHolds;
    assert Acknowledged(s, g) && DirWell(s, g);
    CandidateMeans(s, g, s.cfg.checksum);
    k := CandidateHasHeir(s, g, g);
  }

  // What is kept has an heir after a crash, itself kept.
  lemma KeptHasHeirAfterACrash(s: State, after: Disk, g: GenId, i: GenId) returns (k: GenId)
    requires DirsWell(s) && MayCrashInto(s.disk, after) && Kept(s, i) && g in s.minted
    requires i in s.minted && s.minted[i] == s.minted[g] && (i == g || i.After(g))
    ensures Heir(CrashNext(s, after), g, k) && Kept(CrashNext(s, after), k)
  {
    hide Candidate, Survives, Validates, ChecksumHolds;
    var t := CrashNext(s, after);
    CrashDirs(s, after);
    KeptSurvivesACrash(s, after, i);
    CrashSettles(s, after, i);
    k := CandidateHasHeir(t, g, i);
    SurvivorIsACandidate(after, k, t.cfg.checksum);
    CrashSettles(s, after, k);
  }

  // One step while nothing serves leaves an heir, and one that was kept leaves one that is.
  lemma StepLeavesAnHeir(d: State, step: Step, g: GenId, k: GenId) returns (j: GenId)
    requires StoreInv(d) && !d.up && Recovering(step) && Enabled(d, step) && Heir(d, g, k)
    requires step.Crash? ==> Kept(d, k)
    ensures Heir(Next(d, step), g, j) && (Kept(d, k) ==> Kept(Next(d, step), j))
    ensures !Next(d, step).up && Next(d, step).published == d.published && Next(d, step).minted == d.minted
  {
    hide Candidate, DirsWell, DownWell, MayCrashInto, Survives, FatesWell;
    if step.Crash? {
      j := KeptHasHeirAfterACrash(d, step.after, g, k);
    } else if step.ScanPartly? {
      ScanKeepsSurvivors(d.disk, step.after, k, d.cfg.checksum);
      j := k;
    } else {
      SurvivesEitherWay(d, k, d.cfg.checksum, step.cfg.checksum);
      j := k;
    }
  }

  lemma {:induction false} RecoveryLeavesAnHeir(d: State, steps: seq<Step>, t: State, g: GenId, k: GenId) returns (j: GenId)
    requires Inv(d) && !d.up && Run(d, steps, t) && forall i | 0 <= i < |steps| :: Recovering(steps[i])
    requires Heir(d, g, k) && (Kept(d, k) || forall i | 0 <= i < |steps| :: !steps[i].Crash?)
    ensures Inv(t) && !t.up && t.published == d.published && t.minted == d.minted && Heir(t, g, j)
    decreases |steps|
  {
    hide Enabled, Next, Heir, StoreInv, Kept;
    if steps == [] {
      j := k;
    } else {
      NextKeepsInv(d, steps[0]);
      var m := StepLeavesAnHeir(d, steps[0], g, k);
      j := RecoveryLeavesAnHeir(Next(d, steps[0]), steps[1..], t, g, m);
    }
  }

  // What recovery would keep right now for the name of `g` has been flushed.
  ghost predicate HeirIsFlushed(s: State, g: GenId) { forall k | Heir(s, g, k) :: Kept(s, k) }

  lemma StopLeavesAnHeir(s: State, stop: Step, g: GenId) returns (k: GenId)
    requires Inv(s) && g in s.acked && g !in s.ended && Stops(stop) && Enabled(s, stop)
    ensures Heir(Next(s, stop), g, k) && (stop.Crash? || HeirIsFlushed(s, g) ==> Kept(Next(s, stop), k))
    ensures !Next(s, stop).up && Next(s, stop).published == s.published && Next(s, stop).minted == s.minted
  {
    hide Candidate, DirsWell, DownWell, MayCrashInto, Survives, LeaseInv, OwnInv, GateInv, QuotaInv;
    assert Acknowledged(s, g);
    k := AcknowledgedHasHeir(s, g);
    if stop.Crash? {
      k := KeptHasHeirAfterACrash(s, stop.after, g, g);
    }
  }

  // A write whose Close returned nil and that nothing has ended is, after the machine goes down or the process is killed,
  // any number of interrupted recoveries and the boot that ends them, its name's value again -- the same generation over
  // the same bytes -- unless a later write of the name had already taken its publish rename, which is then the value. The
  // machine may go down again meanwhile, however often; where it was only the process that died first, this needs what
  // recovery then found for the name to have been flushed. KillIsSafeExactlyWhenFlushed shows that nothing less would do.
  lemma AcknowledgedWritesSurvive(s: State, stop: Step, steps: seq<Step>, d: State,
                                  after: Disk, hs: map<nat, Handle>, names: map<string, nat>, g: GenId)
    requires Reachable(s) && s.up && g in s.acked && g !in s.ended
    requires Stops(stop) && Enabled(s, stop)
    requires Run(Next(s, stop), steps, d) && forall i | 0 <= i < |steps| :: Recovering(steps[i])
    requires stop.Kill? && (exists i :: 0 <= i < |steps| && steps[i].Crash?) ==> HeirIsFlushed(s, g)
    requires Enabled(d, Boot(after, hs, names))
    ensures g in s.minted && Value(s, s.minted[g]).Some?
    ensures var t := BootNext(d, after, hs, names);
            var before, now := Value(s, s.minted[g]).value, Value(t, s.minted[g]);
            now.Some? &&
            if now.value.id == g then
              now.value == before.(ttl := 0) && g in s.logs && g in t.logs && t.logs[g].bytes == s.logs[g].bytes
            else now.value.id.After(g) && now.value.id in s.published
  {
    hide Inv, Survives, Recovered, Run, Enabled, Next, Reachable, RecordOf, Recovering, Value, Kept, HeirIsFlushed;
    ReachableInv(s);
    NextKeepsInv(s, stop);
    var first := StopLeavesAnHeir(s, stop, g);
    var k := RecoveryLeavesAnHeir(Next(s, stop), steps, d, g, first);
    BootInstallsTheSurvivor(d, after, hs, names, k);
    AcknowledgedIsTheValue(s, g);
    RecoveredIsIts(k, s.published[k].record);
    if k == g {
      PublishedIsNormal(s, g);
      RecordDetermines(Value(s, s.minted[g]).value, s.published[g].record, s.published[g].bytes);
    }
  }

  // -------------------------------------------------------------------------
  // A process killed between a rename and its flush
  // -------------------------------------------------------------------------

  // The worst a scan may do: everything it does not keep is removed, as far as the running machine can see.
  ghost function ScannedOut(disk: Disk, verify: bool): Disk {
    map id | id in disk :: if Survives(disk, id, verify) then disk[id] else disk[id].Remove(RemovedAll)
  }

  // The worst a crash may do: every entry that may be lost is lost.
  function Stripped(dir: GenDir): GenDir {
    GenDir(Settled(true), Settled(dir.data.now && false !in dir.data.crash), dir.bytes, true,
           Settled(if None in dir.marker.crash then None else dir.marker.now))
  }

  ghost function StrippedDisk(disk: Disk): Disk {
    map id | id in disk && false !in disk[id].link.crash :: Stripped(disk[id])
  }

  lemma ScannedOutIsAScan(disk: Disk, verify: bool)
    ensures ScanLeaves(disk, ScannedOut(disk, verify), verify)
  {
    hide Survives;
    var after := ScannedOut(disk, verify);
    forall id | id in after && !Survives(disk, id, verify)
      ensures exists r :: after[id] == disk[id].Remove(r)
    {
      assert after[id] == disk[id].Remove(RemovedAll);
    }
  }

  lemma StrippedIsACrash(disk: Disk)
    requires forall id | id in disk :: disk[id].Sound()
    ensures MayCrashInto(disk, StrippedDisk(disk))
  {
    forall id | id in StrippedDisk(disk)
      ensures disk[id].MayCrashTo(Stripped(disk[id]))
    {
      assert disk[id].Sound();
      OnlyTrue(disk[id].link);
    }
  }

  // An entry that no crash loses is there.
  lemma OnlyTrue(f: Fact<bool>)
    requires f.Sound() && false !in f.crash
    ensures f.now && f.crash == {true}
  {
    assert f.now in {true, false};
    forall b | b in f.crash
      ensures b in {true}
    {
      assert b in {true, false};
    }
  }

  // What is on disk and still there when every entry that may be lost is lost is kept.
  lemma WhatIsLeftIsKept(s: State, g: GenId)
    requires g in s.disk && DirWell(s, g) && g in s.published && g in StrippedDisk(s.disk)
    requires Stripped(s.disk[g]).data.now && Stripped(s.disk[g]).marker.now.Some?
    ensures Kept(s, g)
  {
    var d := s.disk[g];
    OnlyTrue(d.link);
    OnlyTrue(d.data);
    assert d.marker.crash == {Some(s.published[g].record)};
  }

  // Exactly when what recovery would keep for the name has been flushed, a killed process costs the name nothing: whatever
  // the scan after it removes, and whatever the machine going down after that undoes, an heir is left. Otherwise the
  // scan may remove the acknowledged write in favour of a later one that the crash then takes back, and the name is empty.
  lemma KillIsSafeExactlyWhenFlushed(s: State, g: GenId, k: GenId)
    requires Reachable(s) && s.up && g in s.acked && g !in s.ended && Heir(s, g, k)
    ensures Kept(s, k) <==>
            forall scan, crash | ScanLeaves(s.disk, scan, s.cfg.checksum) && MayCrashInto(scan, crash) ::
              exists j :: Heir(s.(disk := crash), g, j)
    ensures !Kept(s, k) ==>
            exists scan, crash :: ScanLeaves(s.disk, scan, s.cfg.checksum) && MayCrashInto(scan, crash)
                                  && forall j :: !Heir(s.(disk := crash), g, j)
  {
    hide Inv, Reachable, Heir, Kept, Survives, ScanLeaves, MayCrashInto;
    ReachableInv(s);
    if Kept(s, k) {
      forall scan, crash | ScanLeaves(s.disk, scan, s.cfg.checksum) && MayCrashInto(scan, crash)
        ensures exists j :: Heir(s.(disk := crash), g, j)
      {
        var j := KeptHeirOutlivesBoth(s, g, k, scan, crash);
      }
    } else {
      LosesBoth(s, g, k);
    }
  }

  lemma KeptHeirOutlivesBoth(s: State, g: GenId, k: GenId, scan: Disk, crash: Disk) returns (j: GenId)
    requires Inv(s) && Heir(s, g, k) && Kept(s, k)
    requires ScanLeaves(s.disk, scan, s.cfg.checksum) && MayCrashInto(scan, crash)
    ensures Heir(s.(disk := crash), g, j)
  {
    hide Survives, DirsWell, MayCrashInto, Candidate;
    var m := s.(disk := scan);
    ScanDirs(s, scan, m);
    j := KeptHasHeirAfterACrash(m, crash, g, k);
  }

  lemma LosesBoth(s: State, g: GenId, k: GenId)
    requires Inv(s) && Heir(s, g, k) && !Kept(s, k)
    ensures exists scan, crash :: ScanLeaves(s.disk, scan, s.cfg.checksum) && MayCrashInto(scan, crash)
                                  && forall j :: !Heir(s.(disk := crash), g, j)
  {
    hide Survives, Kept, ScannedOut, StrippedDisk, ScanLeaves, MayCrashInto, Heir;
    var scan := ScannedOut(s.disk, s.cfg.checksum);
    var crash := StrippedDisk(scan);
    ScannedOutIsAScan(s.disk, s.cfg.checksum);
    ScannedIsSound(s);
    StrippedIsACrash(scan);
    forall j
      ensures !Heir(s.(disk := crash), g, j)
    {
      if Heir(s.(disk := crash), g, j) {
        LeftIsTheHeir(s, g, k, j);
      }
    }
  }

  lemma ScannedIsSound(s: State)
    requires DirsWell(s)
    ensures forall id | id in ScannedOut(s.disk, s.cfg.checksum) :: ScannedOut(s.disk, s.cfg.checksum)[id].Sound()
  {
    hide Survives;
    forall id | id in s.disk
      ensures s.disk[id].Sound() && s.disk[id].Remove(RemovedAll).Sound()
    {
      assert DirWell(s, id);
    }
  }

  // Whatever is left of the name after both is the heir there was, and it was flushed.
  lemma LeftIsTheHeir(s: State, g: GenId, k: GenId, j: GenId)
    requires DirsWell(s) && Heir(s, g, k)
    requires Heir(s.(disk := StrippedDisk(ScannedOut(s.disk, s.cfg.checksum))), g, j)
    ensures Kept(s, k)
  {
    hide Validates, ChecksumHolds, Survives;
    var scan := ScannedOut(s.disk, s.cfg.checksum);
    SurvivorIsACandidate(StrippedDisk(scan), j, s.cfg.checksum);
    SurvivorIsACandidate(s.disk, k, s.cfg.checksum);
    assert Survives(s.disk, j, s.cfg.checksum);
    SurvivorIsACandidate(s.disk, j, s.cfg.checksum);
    CandidateMeans(s, j, s.cfg.checksum);
    CandidateMeans(s, k, s.cfg.checksum);
    OneSurvivorPerName(s.disk, j, k, s.cfg.checksum);
    assert DirWell(s, k);
    WhatIsLeftIsKept(s, k);
  }

  // It does happen: a process killed between an upload's publish rename and the flush of it, over an acknowledged value,
  // with no record of the name on disk as late as the upload's.
  lemma KilledMidPublishMayLoseBoth(s: State, o: nat, g: GenId)
    requires Reachable(s) && IsPublishing(s, o) && g in s.acked && g !in s.ended
    requires g in s.minted && s.ops[o].g in s.minted && s.minted[g] == s.minted[s.ops[o].g]
    requires forall i | i in s.disk && Candidate(i, s.disk[i], s.cfg.checksum)
                        && s.disk[i].marker.now.value.name == s.minted[g] :: s.ops[o].g.After(i)
    ensures var t := PublishNext(s, o, TookUnflushed);
            && Enabled(t, Kill) && g in t.acked && g !in t.ended
            && exists scan, crash :: ScanLeaves(KillNext(t).disk, scan, t.cfg.checksum) && MayCrashInto(scan, crash)
                                     && forall j :: !Heir(KillNext(t).(disk := crash), g, j)
  {
    hide Inv, Reachable, Heir, Kept, Survives, ScanLeaves, MayCrashInto, Candidate;
    ReachableInv(s);
    var t := PublishNext(s, o, TookUnflushed);
    PublishedAloneIsHeir(s, o, g);
    assert Enabled(s, Upload(o, Publish(TookUnflushed))) && t == Next(s, Upload(o, Publish(TookUnflushed)));
    OneStep(s, Upload(o, Publish(TookUnflushed)));
    KillIsSafeExactlyWhenFlushed(t, g, s.ops[o].g);
    var scan, crash :| ScanLeaves(t.disk, scan, t.cfg.checksum) && MayCrashInto(scan, crash)
                       && forall j :: !Heir(t.(disk := crash), g, j);
    forall j
      ensures !Heir(KillNext(t).(disk := crash), g, j)
    {
      HeirReadsTheDisk(t.(disk := crash), KillNext(t).(disk := crash), g, j);
    }
  }

  lemma PublishedUnflushed(s: State, o: nat)
    requires IsPublishing(s, o) && StoredWell(s, s.ops[o]) && DirWell(s, s.ops[o].g)
    ensures var t, k := PublishNext(s, o, TookUnflushed), s.ops[o].g;
            && t.minted == s.minted && t.cfg == s.cfg && OnDisk(t, k) && !Kept(t, k) && t.disk == s.disk[k := t.disk[k]]
  {
    hide RecordOf, Finalize, PublicationWell;
  }

  lemma KeptIsOnDisk(s: State, g: GenId)
    requires Kept(s, g) && DirWell(s, g)
    ensures OnDisk(s, g)
  {
  }

  // The upload whose publish took, and was not flushed, is now what recovery would keep for its name.
  lemma PublishedAloneIsHeir(s: State, o: nat, g: GenId)
    requires Inv(s) && IsPublishing(s, o) && g in s.acked && g !in s.ended
    requires g in s.minted && s.ops[o].g in s.minted && s.minted[g] == s.minted[s.ops[o].g]
    requires forall i | i in s.disk && Candidate(i, s.disk[i], s.cfg.checksum)
                        && s.disk[i].marker.now.value.name == s.minted[g] :: s.ops[o].g.After(i)
    ensures var t := PublishNext(s, o, TookUnflushed);
            Heir(t, g, s.ops[o].g) && !Kept(t, s.ops[o].g)
  {
    hide Validates, ChecksumHolds, RecordOf, Finalize, Base, QuotaInv, Candidate, ValidName, PublishNext, Kept, StoredWell;
    var t := PublishNext(s, o, TookUnflushed);
    var k := s.ops[o].g;
    assert StoredWell(s, s.ops[o]) && DirWell(s, k);
    PublishedUnflushed(s, o);
    assert Acknowledged(s, g) && DirWell(s, g);
    KeptIsOnDisk(s, g);
    CandidateMeans(s, g, s.cfg.checksum);
    PublishKeepsStore(s, o, TookUnflushed);
    CandidateMeans(t, k, s.cfg.checksum);
    forall i | i in t.disk && Candidate(i, t.disk[i], s.cfg.checksum)
               && t.disk[i].marker.now.Some? && t.disk[i].marker.now.value.name == s.minted[g]
      ensures !i.After(k)
    {
      AfterIsStrictTotalOrder(i, k, i);
    }
  }

  lemma HeirReadsTheDisk(s: State, t: State, g: GenId, j: GenId)
    requires t.disk == s.disk && t.cfg == s.cfg && t.published == s.published && t.minted == s.minted
    ensures Heir(t, g, j) <==> Heir(s, g, j)
  {
  }

  lemma RecoveredIsIts(id: GenId, r: Record)
    ensures Recovered(id, r).id == id
  {
  }

  lemma PublishedIsNormal(s: State, g: GenId)
    requires Inv(s) && g in s.published
    ensures s.published[g].record.meta == Normalized(s.published[g].record.meta)
  {
    assert PublicationWell(s, g);
  }

  // -------------------------------------------------------------------------
  // No resurrection
  // -------------------------------------------------------------------------

  // A generation durably claimed, deleted or retired by an aborted publish is no survivor of any scan, ever after,
  // and no handle ever holds it as a readable value again: whatever removals fail and whatever crashes undo.
  lemma GoneNeverReturns(s: State, steps: seq<Step>, t: State, g: GenId, verify: bool)
    requires Reachable(s) && g in s.gone && Run(s, steps, t)
    ensures g in t.gone && !Survives(t.disk, g, verify)
    ensures forall h | h in t.handles :: !IsFinal(t.handles[h], g)
  {
    hide Run, Reachable, Base, QuotaInv;
    ReachableInv(s);
    RunKeepsInv(s, steps, t);
    RunRemembers(s, steps, t);
    assert Gone(t, g);
    GoneIsNotFinal(t, g);
  }

  lemma GoneIsNotFinal(t: State, g: GenId)
    requires SlotsStored(t) && Gone(t, g)
    ensures forall h | h in t.handles :: !IsFinal(t.handles[h], g)
  {
    forall h | h in t.handles
      ensures !IsFinal(t.handles[h], g)
    {
      assert SlotStored(t, t.handles[h]);
    }
  }

  // A delete that reports success has deleted for good the very value it found.
  lemma DeletedStaysDeleted(s: State, o: nat, steps: seq<Step>, t: State, verify: bool)
    requires Reachable(s) && DeleteEnabled(s, o, TookDurable)
    requires PresentCurrent(s.handles[s.ops[o].h].slot, s.ops[o].at).Some?
    requires Run(DeleteNext(s, o, TookDurable), steps, t)
    ensures var g := s.handles[s.ops[o].h].slot.current.value.id;
            && Value(s, s.handles[s.ops[o].h].name).Some? && Value(s, s.handles[s.ops[o].h].name).value.id == g
            && Value(DeleteNext(s, o, TookDurable), s.handles[s.ops[o].h].name).None?
            && !Survives(t.disk, g, verify) && forall h | h in t.handles :: !IsFinal(t.handles[h], g)
  {
    hide Survives, Run, Reachable, Inv, IsFinal;
    var g := s.handles[s.ops[o].h].slot.current.value.id;
    assert Enabled(s, DeleteCurrent(o, TookDurable));
    OneStep(s, DeleteCurrent(o, TookDurable));
    ReachableInv(s);
    LeaseIsRegistered(s, o);
    GoneNeverReturns(DeleteNext(s, o, TookDurable), steps, t, g, verify);
  }

  lemma LeaseIsRegistered(s: State, o: nat)
    requires Inv(s) && o in s.ops && s.ops[o].Leased()
    ensures s.ops[o].h in s.handles && s.handles[s.ops[o].h].name in s.reg
    ensures s.reg[s.handles[s.ops[o].h].name] == s.ops[o].h
  {
    hide OwnInv, GateInv, QuotaInv, StoreInv;
    LeasePins(s, o);
  }

  lemma OneStep(s: State, step: Step)
    requires Reachable(s) && Enabled(s, step)
    ensures Reachable(Next(s, step))
  {
    hide Enabled, Next, Reachable;
    assert [step][1..] == [];
    ReachableExtends(s, [step], Next(s, step));
  }

  // A consume-once generation handed to a reader is gone for good.
  lemma DeliveredStaysGone(s: State, steps: seq<Step>, t: State, g: GenId, verify: bool)
    requires Reachable(s) && g in s.delivered && Run(s, steps, t)
    ensures t.delivered[g] == 1
    ensures !Survives(t.disk, g, verify) && forall h | h in t.handles :: !IsFinal(t.handles[h], g)
  {
    hide Survives, Run, Reachable, IsFinal, Base, QuotaInv;
    ReachableInv(s);
    GoneNeverReturns(s, steps, t, g, verify);
    RunKeepsInv(s, steps, t);
    RunRemembers(s, steps, t);
    assert g in t.delivered;
  }

  // At most once, over whole runs: no interleaving of opens, cancels, claims that fail or are forfeited, reader
  // failures, supersedes, crashes and recoveries hands out a second reader on a consume-once generation.
  lemma DeliveredAtMostOnce(t: State, g: GenId)
    requires Reachable(t)
    ensures t.delivered[g] <= 1
  {
    hide Reachable, Base, QuotaInv;
    ReachableInv(t);
  }
}
