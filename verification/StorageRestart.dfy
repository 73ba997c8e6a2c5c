// The storage invariant across a crash, scans cut short, a change of settings, and the boot that serves again.
module StorageRestart {
  import opened Common
  import opened GenIds
  import opened Generations
  import opened Records
  import opened DiskModel
  import opened Transitions
  import opened StoreMachine
  import opened Leases
  import opened Ownership
  import opened OwnershipTail
  import opened Gates
  import opened Storage
  import opened StorageFates

  // -------------------------------------------------------------------------
  // The per-name contest
  // -------------------------------------------------------------------------

  // A finite set of ids has a latest one.
  lemma {:induction false} Latest(ids: set<GenId>) returns (k: GenId)
    requires ids != {}
    ensures k in ids && forall i | i in ids :: !i.After(k)
    decreases |ids|
  {
    var p :| p in ids;
    k := p;
    if ids != {p} {
      var m := Latest(ids - {p});
      k := if m.After(p) then m else p;
      forall i | i in ids
        ensures !i.After(k)
      {
        if i != p {
          assert i in ids - {p};
        }
      }
    }
  }

  // Every candidate loses, if it does, to one that survives.
  lemma CandidateHasSurvivor(disk: Disk, id: GenId, verify: bool) returns (k: GenId)
    requires id in disk && Candidate(id, disk[id], verify)
    ensures Survives(disk, k, verify) && !id.After(k)
    ensures disk[k].marker.now.value.name == disk[id].marker.now.value.name
  {
    var name := disk[id].marker.now.value.name;
    var rivals := set i | i in disk && Candidate(i, disk[i], verify) && disk[i].marker.now.value.name == name;
    assert id in rivals;
    k := Latest(rivals);
  }

  // A name has at most one survivor.
  lemma OneSurvivorPerName(disk: Disk, a: GenId, b: GenId, verify: bool)
    requires Survives(disk, a, verify) && Survives(disk, b, verify)
    requires disk[a].marker.now.value.name == disk[b].marker.now.value.name
    ensures a == b
  {
    AfterIsStrictTotalOrder(a, b, a);
  }

  // A scan, however far it got, decides nothing that a later scan would decide differently.
  lemma ScanKeepsSurvivors(disk: Disk, after: Disk, id: GenId, verify: bool)
    requires ScanLeaves(disk, after, verify)
    ensures Survives(after, id, verify) <==> Survives(disk, id, verify)
  {
    if Survives(disk, id, verify) {
      CandidatesOnlyLeave(disk, after, verify);
    } else if id in after && Candidate(id, after[id], verify) {
      CandidatesOnlyLeave(disk, after, verify);
      var k := CandidateHasSurvivor(disk, id, verify);
      assert after[k] == disk[k] && k != id;
      AfterIsStrictTotalOrder(id, k, id);
    }
  }

  // A scan leaves each directory as some removal of it, the empty one included.
  lemma ScanRemoves(disk: Disk, after: Disk, g: GenId, verify: bool) returns (r: Removal)
    requires ScanLeaves(disk, after, verify) && g in after
    ensures g in disk && after[g] == disk[g].Remove(r) && (Survives(disk, g, verify) ==> after[g] == disk[g])
  {
    if Survives(disk, g, verify) {
      r := RemovedNothing;
    } else {
      r :| after[g] == disk[g].Remove(r);
    }
  }

  // A removal that got anywhere leaves no candidate.
  lemma RemovedIsNoCandidate(id: GenId, dir: GenDir, r: Removal, verify: bool)
    requires dir.Remove(r) != dir
    ensures !Candidate(id, dir.Remove(r), verify)
  {
  }

  lemma CandidatesOnlyLeave(disk: Disk, after: Disk, verify: bool)
    requires ScanLeaves(disk, after, verify)
    ensures forall i | i in after && Candidate(i, after[i], verify) ::
              i in disk && after[i] == disk[i]
  {
    forall i | i in after && Candidate(i, after[i], verify)
      ensures i in disk && after[i] == disk[i]
    {
      var r := ScanRemoves(disk, after, i, verify);
      if disk[i].Remove(r) != disk[i] {
        RemovedIsNoCandidate(i, disk[i], r, verify);
      }
    }
  }

  // -------------------------------------------------------------------------
  // Candidates of a well-kept disk
  // -------------------------------------------------------------------------

  // Whatever the checksum setting, a directory is a candidate exactly when its marker and its data are there.
  lemma CandidateMeans(s: State, g: GenId, verify: bool)
    requires DirsWell(s) && g in s.disk
    ensures Candidate(g, s.disk[g], verify) <==>
            s.disk[g].link.now && s.disk[g].data.now && s.disk[g].marker.now.Some?
    ensures Candidate(g, s.disk[g], verify) ==>
            && g in s.published && s.disk[g].marker.now.value == s.published[g].record
            && s.disk[g].marker.now.value.name == s.minted[g]
  {
    assert DirWell(s, g);
    if g in s.published {
      assert PublicationWell(s, g);
    }
  }

  lemma AllCandidates(s: State, verify: bool)
    requires DirsWell(s)
    ensures forall g | g in s.disk ::
              && (Candidate(g, s.disk[g], verify) <==>
                    s.disk[g].link.now && s.disk[g].data.now && s.disk[g].marker.now.Some?)
              && (Candidate(g, s.disk[g], verify) ==>
                    && g in s.published && s.disk[g].marker.now.value == s.published[g].record
                    && s.disk[g].marker.now.value.name == s.minted[g])
  {
    forall g | g in s.disk
      ensures Candidate(g, s.disk[g], verify) <==>
              s.disk[g].link.now && s.disk[g].data.now && s.disk[g].marker.now.Some?
      ensures Candidate(g, s.disk[g], verify) ==>
              && g in s.published && s.disk[g].marker.now.value == s.published[g].record
              && s.disk[g].marker.now.value.name == s.minted[g]
    {
      CandidateMeans(s, g, verify);
    }
  }

  // The settings do not choose the survivors.
  lemma SurvivesEitherWay(s: State, g: GenId, a: bool, b: bool)
    requires DirsWell(s)
    ensures Survives(s.disk, g, a) ==> Survives(s.disk, g, b)
  {
    if Survives(s.disk, g, a) {
      AllCandidates(s, a);
      AllCandidates(s, b);
    }
  }

  // -------------------------------------------------------------------------
  // Crash
  // -------------------------------------------------------------------------

  lemma CrashDirs(s: State, after: Disk)
    requires DirsWell(s) && MayCrashInto(s.disk, after)
    ensures DirsWell(CrashNext(s, after))
  {
    var t := CrashNext(s, after);
    forall g | g in t.disk
      ensures DirWell(t, g)
    {
      assert DirWell(s, g);
      assert s.disk[g].MayCrashTo(after[g]);
    }
    forall g | g in t.published
      ensures PublicationWell(t, g)
    {
      assert PublicationWell(s, g);
    }
  }

  // What is kept stays kept, whichever way the machine goes down.
  lemma KeptSurvivesACrash(s: State, after: Disk, g: GenId)
    requires Kept(s, g) && MayCrashInto(s.disk, after)
    ensures Kept(CrashNext(s, after), g)
  {
    assert g in after;
    assert s.disk[g].MayCrashTo(after[g]);
  }

  lemma SealedStaysSealed(s: State, after: Disk, g: GenId)
    requires Gone(s, g) && MayCrashInto(s.disk, after)
    ensures Gone(CrashNext(s, after), g)
  {
    if g in after {
      assert s.disk[g].MayCrashTo(after[g]);
    }
  }

  lemma CrashFates(s: State, after: Disk)
    requires FatesWell(s) && MayCrashInto(s.disk, after)
    ensures FatesWell(CrashNext(s, after))
  {
    var t := CrashNext(s, after);
    forall g | g in t.acked - t.ended
      ensures Acknowledged(t, g)
    {
      assert Acknowledged(s, g);
      KeptSurvivesACrash(s, after, g);
    }
    forall g | g in t.gone
      ensures Gone(t, g)
    {
      assert Gone(s, g);
      SealedStaysSealed(s, after, g);
    }
  }

  // After a crash every directory that could still return is a candidate, and every candidate is durable.
  lemma CrashSettles(s: State, after: Disk, g: GenId)
    requires DirsWell(s) && MayCrashInto(s.disk, after) && g in after
    ensures var t := CrashNext(s, after);
            && (after[g].MayReturn() <==> Candidate(g, after[g], t.cfg.checksum))
            && (Candidate(g, after[g], t.cfg.checksum) ==> Kept(t, g) && after[g].marker.now.value.name == t.minted[g])
            && g in t.minted
  {
    var t := CrashNext(s, after);
    assert DirWell(s, g);
    assert s.disk[g].MayCrashTo(after[g]);
    CrashDirs(s, after);
    CandidateMeans(t, g, t.cfg.checksum);
    assert DirWell(t, g);
  }

  lemma CrashIsBeaten(s: State, after: Disk)
    requires DirsWell(s) && MayCrashInto(s.disk, after)
    ensures DownWell(CrashNext(s, after))
  {
    var t := CrashNext(s, after);
    forall k | Survives(t.disk, k, t.cfg.checksum)
      ensures Kept(t, k)
    {
      CrashSettles(s, after, k);
    }
    forall g | g in t.disk && t.disk[g].MayReturn()
      ensures exists k :: Beats(t, k, g)
    {
      CrashSettles(s, after, g);
      var k := CandidateHasSurvivor(after, g, t.cfg.checksum);
      CrashSettles(s, after, k);
      assert Beats(t, k, g);
    }
  }

  lemma CrashKeepsStore(s: State, after: Disk)
    requires DirsWell(s) && FatesWell(s) && MayCrashInto(s.disk, after)
    ensures StoreInv(CrashNext(s, after))
  {
    CrashDirs(s, after);
    CrashFates(s, after);
    CrashIsBeaten(s, after);
  }

  // The death of the process alone changes nothing on disk.
  lemma KillKeepsStore(s: State)
    requires DirsWell(s) && FatesWell(s)
    ensures StoreInv(KillNext(s))
  {
    var t := KillNext(s);
    SameDirs(s, t);
    forall g | g in t.acked - t.ended
      ensures Acknowledged(t, g)
    {
      assert Acknowledged(s, g);
    }
    forall g | g in t.gone
      ensures Gone(t, g)
    {
      assert Gone(s, g);
    }
  }

  // -------------------------------------------------------------------------
  // Scans, and the settings, while nothing serves
  // -------------------------------------------------------------------------

  // A directory a removal got at lost entries, or may lose them at a crash.
  lemma RemovalLessens(s: State, g: GenId, r: Removal)
    requires g in s.disk && DirWell(s, g)
    ensures DirWell(s.(disk := s.disk[g := s.disk[g].Remove(r)]), g)
    ensures s.disk[g].Sealed() ==> s.disk[g].Remove(r).Sealed()
    ensures s.disk[g].Remove(r).MayReturn() ==> s.disk[g].MayReturn()
  {
  }

  lemma ScanLessens(s: State, after: Disk, g: GenId)
    requires DirsWell(s) && ScanLeaves(s.disk, after, s.cfg.checksum) && g in after
    ensures g in s.disk && DirWell(s.(disk := after), g)
    ensures s.disk[g].Sealed() ==> after[g].Sealed()
    ensures after[g].MayReturn() ==> s.disk[g].MayReturn()
  {
    var r := ScanRemoves(s.disk, after, g, s.cfg.checksum);
    RemovalLessens(s, g, r);
  }

  lemma ScanDirs(s: State, after: Disk, t: State)
    requires DirsWell(s) && ScanLeaves(s.disk, after, s.cfg.checksum)
    requires t.disk == after && t.minted == s.minted && t.published == s.published
    ensures DirsWell(t)
  {
    forall g | g in t.disk
      ensures DirWell(t, g)
    {
      ScanLessens(s, after, g);
    }
    forall g | g in t.published
      ensures PublicationWell(t, g)
    {
      assert PublicationWell(s, g);
    }
  }

  // A scan ends no acknowledged value but one a later publish had overtaken.
  lemma ScanEnds(s: State, after: Disk, g: GenId)
    requires FatesWell(s) && ScanLeaves(s.disk, after, s.cfg.checksum)
    requires g in s.acked && g !in s.ended && g !in Losers(s.disk, s.cfg.checksum)
    ensures Survives(s.disk, g, s.cfg.checksum) && g in after && after[g] == s.disk[g]
    ensures Kept(s, g) && Kept(s.(disk := after), g)
  {
    assert Acknowledged(s, g);
  }

  lemma ScanFates(s: State, after: Disk)
    requires FatesWell(s) && DirsWell(s) && !s.up && ScanLeaves(s.disk, after, s.cfg.checksum)
    ensures FatesWell(ScanNext(s, after))
  {
    var t := ScanNext(s, after);
    forall g | g in t.acked - t.ended
      ensures Acknowledged(t, g)
    {
      ScanEnds(s, after, g);
    }
    forall g | g in t.gone
      ensures Gone(t, g)
    {
      assert Gone(s, g);
      if g in after {
        ScanLessens(s, after, g);
      }
    }
  }

  lemma ScanStaysBeaten(s: State, after: Disk)
    requires DownWell(s) && DirsWell(s) && ScanLeaves(s.disk, after, s.cfg.checksum)
    ensures DownWell(ScanNext(s, after))
  {
    var t := ScanNext(s, after);
    forall k | s.settled && Survives(t.disk, k, t.cfg.checksum)
      ensures Kept(t, k)
    {
      ScanKeepsSurvivors(s.disk, after, k, s.cfg.checksum);
      assert Kept(s, k);
    }
    forall g | s.settled && g in t.disk && t.disk[g].MayReturn()
      ensures exists k :: Beats(t, k, g)
    {
      ScanLessens(s, after, g);
      var k :| Beats(s, k, g);
      ScanKeepsSurvivors(s.disk, after, k, s.cfg.checksum);
      assert Beats(t, k, g);
    }
  }

  lemma ScanKeepsStore(s: State, after: Disk)
    requires StoreInv(s) && !s.up && ScanLeaves(s.disk, after, s.cfg.checksum)
    ensures StoreInv(ScanNext(s, after))
  {
    ScanDirs(s, after, ScanNext(s, after));
    ScanFates(s, after);
    ScanStaysBeaten(s, after);
  }

  lemma ReconfigureKeepsStore(s: State, cfg: Config)
    requires StoreInv(s) && !s.up
    ensures StoreInv(s.(cfg := cfg))
  {
    var t := s.(cfg := cfg);
    forall g | g in t.disk
      ensures DirWell(t, g)
    {
      assert DirWell(s, g);
    }
    forall g | g in t.published
      ensures PublicationWell(t, g)
    {
      assert PublicationWell(s, g);
    }
    forall g | g in t.acked - t.ended
      ensures Acknowledged(t, g)
    {
      assert Acknowledged(s, g);
    }
    forall g | g in t.gone
      ensures Gone(t, g)
    {
      assert Gone(s, g);
    }
    ReconfigureStaysBeaten(s, cfg);
  }

  lemma ReconfigureStaysBeaten(s: State, cfg: Config)
    requires DownWell(s) && DirsWell(s)
    ensures DownWell(s.(cfg := cfg))
  {
    var t := s.(cfg := cfg);
    forall k | s.settled && Survives(t.disk, k, t.cfg.checksum)
      ensures Kept(t, k)
    {
      SurvivesEitherWay(s, k, cfg.checksum, s.cfg.checksum);
      assert Kept(s, k);
    }
    forall g | s.settled && g in t.disk && t.disk[g].MayReturn()
      ensures exists k :: Beats(t, k, g)
    {
      var k :| Beats(s, k, g);
      SurvivesEitherWay(s, k, s.cfg.checksum, cfg.checksum);
      assert Beats(t, k, g);
    }
  }

  // -------------------------------------------------------------------------
  // Boot
  // -------------------------------------------------------------------------

  // A survivor is its name's restored value.
  lemma SurvivorIsSeated(s: State, hs: map<nat, Handle>, names: map<string, nat>, k: GenId)
    requires DirsWell(s) && Restores(s.disk, s.cfg.checksum, hs, names) && Survives(s.disk, k, s.cfg.checksum)
    ensures k in s.minted && s.minted[k] in names && names[s.minted[k]] in hs
    ensures var hd := hs[names[s.minted[k]]];
            hd.slot.current.Some? && hd.slot.current.value == Recovered(k, s.disk[k].marker.now.value)
            && hd.slot.lastPrefix == k.prefix
  {
    CandidateMeans(s, k, s.cfg.checksum);
    assert s.disk[k].marker.now.value.name in names;
  }

  lemma BootBounds(s: State, after: Disk, hs: map<nat, Handle>, names: map<string, nat>)
    requires DownWell(s) && DirsWell(s) && ScanLeaves(s.disk, after, s.cfg.checksum)
    requires Restores(s.disk, s.cfg.checksum, hs, names)
    ensures SeedBounds(BootNext(s, after, hs, names))
  {
    var t := BootNext(s, after, hs, names);
    forall g | s.settled && g in t.disk && t.disk[g].MayReturn() && g in t.minted && t.minted[g] in t.reg
               && t.reg[t.minted[g]] in t.handles
      ensures g.prefix <= t.handles[t.reg[t.minted[g]]].slot.lastPrefix
    {
      ScanLessens(s, after, g);
      var k :| Beats(s, k, g);
      SurvivorIsSeated(s, hs, names, k);
    }
  }

  // Recovery rebuilds exactly the generation its record describes.
  lemma RecoveredMatches(id: GenId, r: Record, bytes: seq<Byte>, checksum: bool)
    requires r.version == META_VERSION && Validates(r, id, |bytes|) && r.meta == Normalized(r.meta)
    ensures RecordOf(Recovered(id, r), bytes, checksum).(checksum := "") == r.(checksum := "")
  {
  }

  lemma BootSlotStored(s: State, after: Disk, hs: map<nat, Handle>, names: map<string, nat>, h: nat)
    requires DirsWell(s) && ScanLeaves(s.disk, after, s.cfg.checksum)
    requires Restores(s.disk, s.cfg.checksum, hs, names) && h in hs
    ensures SlotStored(BootNext(s, after, hs, names), hs[h])
    ensures hs[h].slot.Ordered()
  {
    var g := hs[h].slot.current.value;
    assert Survives(s.disk, g.id, s.cfg.checksum);
    SurvivorIsOnDisk(s, after, g.id);
    assert PublicationWell(s, g.id);
    assert g.id in Survivors(s.disk, s.cfg.checksum);
    RecoveredMatches(g.id, s.published[g.id].record, s.published[g.id].bytes, s.cfg.checksum);
  }

  // A survivor is a published generation, with its record beside its bytes.
  lemma SurvivorIsOnDisk(s: State, after: Disk, k: GenId)
    requires DirsWell(s) && ScanLeaves(s.disk, after, s.cfg.checksum)
    requires Survives(s.disk, k, s.cfg.checksum)
    ensures OnDisk(s, k) && OnDisk(s.(disk := after), k) && k.prefix > 0 && k in s.minted
    ensures s.disk[k].bytes == s.published[k].bytes
  {
    CandidateMeans(s, k, s.cfg.checksum);
    assert DirWell(s, k);
  }

  lemma BootFates(s: State, after: Disk, hs: map<nat, Handle>, names: map<string, nat>)
    requires FatesWell(s) && DirsWell(s) && ScanLeaves(s.disk, after, s.cfg.checksum)
    requires Restores(s.disk, s.cfg.checksum, hs, names)
    ensures FatesWell(BootNext(s, after, hs, names))
  {
    var t := BootNext(s, after, hs, names);
    forall g | g in t.acked - t.ended
      ensures Acknowledged(t, g)
    {
      ScanEnds(s, after, g);
      SurvivorIsSeated(s, hs, names, g);
    }
    forall g | g in t.gone
      ensures Gone(t, g)
    {
      assert Gone(s, g);
      if g in after {
        ScanLessens(s, after, g);
      }
    }
  }

  lemma BootLogs(s: State, after: Disk, hs: map<nat, Handle>, names: map<string, nat>)
    requires DirsWell(s) && ScanLeaves(s.disk, after, s.cfg.checksum)
    ensures LogsWell(BootNext(s, after, hs, names))
  {
    var t := BootNext(s, after, hs, names);
    forall g | g in t.logs
      ensures g in t.published && t.published[g].bytes == t.logs[g].bytes
    {
      assert g in Survivors(s.disk, s.cfg.checksum);
      SurvivorIsOnDisk(s, after, g);
    }
  }

  lemma BootKeepsStore(s: State, after: Disk, hs: map<nat, Handle>, names: map<string, nat>)
    requires StoreInv(s) && !s.up && ScanLeaves(s.disk, after, s.cfg.checksum)
    requires Restores(s.disk, s.cfg.checksum, hs, names)
    ensures StoreInv(BootNext(s, after, hs, names))
  {
    var t := BootNext(s, after, hs, names);
    ScanDirs(s, after, t);
    BootBounds(s, after, hs, names);
    BootFates(s, after, hs, names);
    BootLogs(s, after, hs, names);
    forall h | h in t.handles
      ensures SlotStored(t, t.handles[h])
    {
      BootSlotStored(s, after, hs, names, h);
    }
  }

  lemma BootKeepsGate(s: State, after: Disk, hs: map<nat, Handle>, names: map<string, nat>)
    requires StoreInv(s) && !s.up && ScanLeaves(s.disk, after, s.cfg.checksum)
    requires Restores(s.disk, s.cfg.checksum, hs, names)
    ensures GateInv(BootNext(s, after, hs, names))
  {
    forall h | h in hs
      ensures hs[h].slot.Ordered()
    {
      BootSlotStored(s, after, hs, names, h);
    }
  }

  lemma BootOwns(s: State, after: Disk, hs: map<nat, Handle>, names: map<string, nat>)
    requires StoreInv(s) && !s.up && ScanLeaves(s.disk, after, s.cfg.checksum)
    requires Restores(s.disk, s.cfg.checksum, hs, names)
    ensures OwnInv(BootNext(s, after, hs, names))
  {
    AllCandidates(s, s.cfg.checksum);
    assert forall id | id in s.disk :: DirWell(s, id);
    BootKeepsOwnership(s, after, hs, names);
  }
}
