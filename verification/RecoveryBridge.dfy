// The tree a scan reads and the disk the store machine crashes are the same disk: recovery keeps exactly the survivors
// the machine restores, and there is always a way to restore them.
module RecoveryBridge {
  import opened Common
  import opened GenIds
  import opened Generations
  import opened Records
  import opened DiskModel
  import opened StoreMachine
  import opened StorageRestart
  import R = Recovery

  // The files of one directory, as a scan finds them.
  function FilesOf(g: GenDir): R.GenFiles {
    R.GenFiles(if g.marker.now.Some? then R.Holds(Encoded(g.marker.now.value)) else R.NoMeta,
               if g.data.now then R.DataBytes(g.bytes, true) else R.NoData)
  }

  // `clips` lists exactly the linked directories of `disk`, each under its id's rendering.
  ghost predicate Lists(clips: R.Clips, disk: Disk) {
    && (forall id | id in disk && disk[id].link.now :: id.String() in clips && clips[id.String()] == R.Directory(FilesOf(disk[id])))
    && (forall d | R.IsDir(clips, d) :: exists id: GenId :: id in disk && disk[id].link.now && d == id.String())
  }

  lemma CandidatesAgree(clips: R.Clips, disk: Disk, id: GenId, verify: bool)
    requires Lists(clips, disk)
    ensures R.IsCandidate(clips, id.String(), verify) <==> id in disk && Candidate(id, disk[id], verify)
    ensures id in disk && Candidate(id, disk[id], verify) ==>
              R.Judged(clips, id.String(), verify) == R.Keep(id, disk[id].marker.now.value)
  {
    var d := id.String();
    if R.IsDir(clips, d) {
      var k: GenId :| k in disk && disk[k].link.now && d == k.String();
      StringIsInjective(id, k);
      if disk[id].marker.now.Some? {
        R.KeptExactlyWhenSound(d, FilesOf(disk[id]), verify, id, disk[id].marker.now.value);
      }
      KeepsItsRecord(d, FilesOf(disk[id]), verify);
      ParseAcceptsExactlyTheRendering(d, id);
    }
  }

  lemma KeepsItsRecord(d: string, f: R.GenFiles, verify: bool)
    ensures R.Judge(d, f, verify).Keep? ==> f.meta.Holds? && f.meta.content == Encoded(R.Judge(d, f, verify).record)
    ensures R.Judge(d, f, verify).Keep? ==> ParseGenId(d) == Some(R.Judge(d, f, verify).id)
  {
  }

  // A directory wins its name's contest in the tree exactly when its generation survives on the disk.
  lemma ScanKeepsTheSurvivors(clips: R.Clips, disk: Disk, id: GenId, verify: bool)
    requires Lists(clips, disk)
    ensures R.Wins(clips, id.String(), verify) <==> Survives(disk, id, verify)
  {
    hide R.Judge, Candidate, Lists;
    CandidatesAgree(clips, disk, id, verify);
    if Survives(disk, id, verify) {
      forall e | e in clips
        ensures !R.Beats(clips, e, id.String(), verify)
      {
        if R.IsCandidate(clips, e, verify) {
          R.CandidateIsItsName(clips, e, verify);
          CandidatesAgree(clips, disk, R.Judged(clips, e, verify).id, verify);
        }
      }
    }
    if R.Wins(clips, id.String(), verify) {
      forall k | k in disk && Candidate(k, disk[k], verify)
                 && Named(disk, k, verify) == Named(disk, id, verify)
        ensures !k.After(id)
      {
        CandidatesAgree(clips, disk, k, verify);
        assert !R.Beats(clips, k.String(), id.String(), verify);
      }
      SurvivesFromNames(disk, id, verify);
    }
  }

  function Named(disk: Disk, k: GenId, verify: bool): string
    requires k in disk && Candidate(k, disk[k], verify)
  {
    disk[k].marker.now.value.name
  }

  lemma SurvivesFromNames(disk: Disk, id: GenId, verify: bool)
    requires id in disk && Candidate(id, disk[id], verify)
    requires forall k | k in disk && Candidate(k, disk[k], verify) && Named(disk, k, verify) == Named(disk, id, verify) ::
               !k.After(id)
    ensures Survives(disk, id, verify)
  {
  }

  // -------------------------------------------------------------------------
  // What a scan leaves of the tree is what the machine's scan leaves of the disk
  // -------------------------------------------------------------------------

  // How far a sweep that left `after` of `clips` got with the directory of `id`.
  ghost function SweptBy(disk: Disk, clips: R.Clips, after: R.Clips, id: GenId): Removal
    requires id in disk
  {
    var d := id.String();
    if !disk[id].link.now then RemovedNothing
    else if d !in after then RemovedAll
    else if after[d] == R.Directory(FilesOf(disk[id])) then RemovedNothing
    else if exists r :: after[d] == R.Directory(FilesOf(disk[id]).Partly(r)) then
      var r :| after[d] == R.Directory(FilesOf(disk[id]).Partly(r));
      if r.RemovedAll? then RemovedFiles else r
    else RemovedAll
  }

  ghost function SweptDisk(disk: Disk, clips: R.Clips, after: R.Clips): Disk {
    map id | id in disk :: disk[id].Remove(SweptBy(disk, clips, after, id))
  }

  lemma RemoveIsPartly(dir: GenDir, r: Removal)
    requires !r.RemovedAll?
    ensures FilesOf(dir.Remove(r)) == FilesOf(dir).Partly(r) && dir.Remove(r).link == dir.link
  {
  }

  // A directory the sweep left stands as it left it.
  lemma SweptDirectory(clips: R.Clips, after: R.Clips, disk: Disk, id: GenId, verify: bool)
    requires Lists(clips, disk) && R.PartlySwept(clips, after, verify) && id in disk && disk[id].link.now
    requires id.String() in after
    ensures var dir := disk[id].Remove(SweptBy(disk, clips, after, id));
            dir.link.now && after[id.String()] == R.Directory(FilesOf(dir))
  {
    hide FilesOf, R.Wins, R.Judge;
    var d := id.String();
    assert clips[d] == R.Directory(FilesOf(disk[id]));
    R.DispositionsPartition(clips, d, verify);
    RemoveIsPartly(disk[id], RemovedNothing);
    if after[d] != clips[d] {
      assert exists r :: after[d] == R.Directory(FilesOf(disk[id]).Partly(r));
      RemoveIsPartly(disk[id], SweptBy(disk, clips, after, id));
    }
  }

  lemma SweptKeepsSurvivors(clips: R.Clips, after: R.Clips, disk: Disk, id: GenId, verify: bool)
    requires Lists(clips, disk) && R.PartlySwept(clips, after, verify) && Survives(disk, id, verify)
    ensures disk[id].Remove(SweptBy(disk, clips, after, id)) == disk[id]
  {
    hide R.Judge, FilesOf;
    ScanKeepsTheSurvivors(clips, disk, id, verify);
    assert id.String() in after && after[id.String()] == clips[id.String()];
  }

  lemma SweptIsListed(clips: R.Clips, after: R.Clips, disk: Disk, verify: bool)
    requires Lists(clips, disk) && R.PartlySwept(clips, after, verify)
    ensures Lists(after, SweptDisk(disk, clips, after))
  {
    hide R.Wins, R.IsGarbage, R.IsCorrupt, FilesOf;
    var swept := SweptDisk(disk, clips, after);
    forall id | id in swept && swept[id].link.now
      ensures id.String() in after && after[id.String()] == R.Directory(FilesOf(swept[id]))
    {
      assert disk[id].link.now && id.String() in after;
      SweptDirectory(clips, after, disk, id, verify);
    }
    forall d | R.IsDir(after, d)
      ensures exists id: GenId :: id in swept && swept[id].link.now && d == id.String()
    {
      assert R.IsDir(clips, d);
      var id: GenId :| id in disk && disk[id].link.now && d == id.String();
      SweptDirectory(clips, after, disk, id, verify);
      assert id in swept && swept[id].link.now;
    }
  }

  // Any tree a scan of this disk may leave, finished or cut short, lists a disk the machine's own scan may leave: so the
  // verified scan is the machine's ScanPartly, and with what it returns restored, its Boot.
  lemma SweepIsAScan(clips: R.Clips, after: R.Clips, disk: Disk, verify: bool)
    requires Lists(clips, disk) && R.PartlySwept(clips, after, verify)
    ensures ScanLeaves(disk, SweptDisk(disk, clips, after), verify) && Lists(after, SweptDisk(disk, clips, after))
  {
    hide Lists, R.PartlySwept, Survives, SweptBy, GenDir.Remove;
    var swept := SweptDisk(disk, clips, after);
    SweptIsListed(clips, after, disk, verify);
    forall id | id in swept
      ensures if Survives(disk, id, verify) then swept[id] == disk[id] else exists r :: swept[id] == disk[id].Remove(r)
    {
      if Survives(disk, id, verify) {
        SweptKeepsSurvivors(clips, after, disk, id, verify);
      }
    }
  }

  // -------------------------------------------------------------------------
  // There is always a boot
  // -------------------------------------------------------------------------

  function RestoredHandle(disk: Disk, id: GenId): Handle
    requires id in disk && disk[id].marker.now.Some?
  {
    var g := Recovered(id, disk[id].marker.now.value);
    Handle(g.name, 0, Slot(Some(g), None, id.prefix), 0)
  }

  // The handle holds one of the survivors in `done`.
  ghost predicate Holding(disk: Disk, done: set<GenId>, hd: Handle) {
    && hd.slot.current.Some? && hd.slot.current.value.id in done && hd.slot.current.value.id in disk
    && disk[hd.slot.current.value.id].marker.now.Some? && hd == RestoredHandle(disk, hd.slot.current.value.id)
  }

  // The survivor is held by its name's handle.
  ghost predicate Held(disk: Disk, id: GenId, hs: map<nat, Handle>, names: map<string, nat>) {
    && id in disk && disk[id].marker.now.Some? && disk[id].marker.now.value.name in names
    && names[disk[id].marker.now.value.name] in hs
    && hs[names[disk[id].marker.now.value.name]] == RestoredHandle(disk, id)
  }

  // The survivors in `done` have their handles, numbered from zero.
  ghost predicate PartlyRestored(disk: Disk, verify: bool, done: set<GenId>, hs: map<nat, Handle>, names: map<string, nat>) {
    && (forall h | h in hs :: h < |done|)
    && (forall n | n in names :: names[n] in hs && hs[names[n]].name == n)
    && (forall h | h in hs :: hs[h].name in names && names[hs[h].name] == h && Holding(disk, done, hs[h]))
    && (forall id | id in done :: Survives(disk, id, verify) && Held(disk, id, hs, names))
  }

  // restore: one handle per survivor, holding it, its id the name's seed; then the quota, absolute.
  method Restore(disk: Disk, verify: bool, survivors: seq<GenId>)
    returns (hs: map<nat, Handle>, names: map<string, nat>, bytes: nat, clips: nat)
    requires forall id :: id in survivors <==> Survives(disk, id, verify)
    requires forall i, j | 0 <= i < j < |survivors| :: survivors[i] != survivors[j]
    ensures Restores(disk, verify, hs, names)
    ensures clips == |survivors|
    ensures bytes == TotalBytes(disk, survivors)
  {
    hide Survives, PartlyRestored, Restores, RestoredHandle, Firsts;
    hs, names, bytes := map[], map[], 0;
    NoneRestored(disk, verify, survivors);
    var i := 0;
    while i < |survivors|
      invariant i <= |survivors|
      invariant PartlyRestored(disk, verify, Firsts(survivors, i), hs, names) && |Firsts(survivors, i)| == i
      invariant bytes == TotalBytes(disk, survivors[..i])
    {
      var id := survivors[i];
      SurvivorHasMarker(disk, id, verify);
      FirstsNext(survivors, i);
      RestoreOne(disk, verify, Firsts(survivors, i), hs, names, id, i);
      hs := hs[i := RestoredHandle(disk, id)];
      names := names[disk[id].marker.now.value.name := i];
      bytes := bytes + |disk[id].bytes|;
      assert survivors[..i + 1][..i] == survivors[..i];
      i := i + 1;
    }
    assert survivors[..i] == survivors;
    FirstsAll(survivors);
    AllRestored(disk, verify, Firsts(survivors, i), hs, names);
    clips := |survivors|;
  }

  lemma NoneRestored(disk: Disk, verify: bool, survivors: seq<GenId>)
    ensures Firsts(survivors, 0) == {} && PartlyRestored(disk, verify, {}, map[], map[])
  {
  }

  lemma FirstsAll(survivors: seq<GenId>)
    ensures forall id :: id in Firsts(survivors, |survivors|) <==> id in survivors
  {
    assert survivors[..|survivors|] == survivors;
  }

  function Firsts(survivors: seq<GenId>, i: nat): set<GenId>
    requires i <= |survivors|
  {
    set id | id in survivors[..i]
  }

  lemma FirstsNext(survivors: seq<GenId>, i: nat)
    requires i < |survivors| && forall k, j | 0 <= k < j < |survivors| :: survivors[k] != survivors[j]
    ensures Firsts(survivors, i + 1) == Firsts(survivors, i) + {survivors[i]} && survivors[i] !in Firsts(survivors, i)
  {
    assert survivors[..i + 1] == survivors[..i] + [survivors[i]];
  }

  ghost function TotalBytes(disk: Disk, survivors: seq<GenId>): nat
  {
    if survivors == [] then 0
    else
      var last := survivors[|survivors| - 1];
      TotalBytes(disk, survivors[..|survivors| - 1]) + if last in disk then |disk[last].bytes| else 0
  }

  lemma SurvivorHasMarker(disk: Disk, id: GenId, verify: bool)
    requires Survives(disk, id, verify)
    ensures id in disk && disk[id].marker.now.Some?
  {
  }

  // A survivor not restored yet brings a name not restored yet.
  lemma NameIsNew(disk: Disk, verify: bool, done: set<GenId>, hs: map<nat, Handle>, names: map<string, nat>, id: GenId)
    requires PartlyRestored(disk, verify, done, hs, names) && Survives(disk, id, verify) && id !in done
    requires disk[id].marker.now.Some?
    ensures disk[id].marker.now.value.name !in names
    ensures forall k | k in done :: disk[k].marker.now.Some? && disk[k].marker.now.value.name != disk[id].marker.now.value.name
  {
    hide Candidate;
    var n := disk[id].marker.now.value.name;
    forall k | k in done
      ensures disk[k].marker.now.Some? && disk[k].marker.now.value.name != n
    {
      SurvivorHasMarker(disk, k, verify);
      if disk[k].marker.now.value.name == n {
        OneSurvivorPerName(disk, k, id, verify);
      }
    }
  }

  lemma RestoreHandles(disk: Disk, verify: bool, done: set<GenId>, hs: map<nat, Handle>, names: map<string, nat>,
                       id: GenId, i: nat, h: nat)
    requires PartlyRestored(disk, verify, done, hs, names) && |done| == i && id !in done
    requires id in disk && disk[id].marker.now.Some? && disk[id].marker.now.value.name !in names
    requires h in hs[i := RestoredHandle(disk, id)]
    ensures var t, m := hs[i := RestoredHandle(disk, id)], names[disk[id].marker.now.value.name := i];
            h <= i && t[h].name in m && m[t[h].name] == h && Holding(disk, done + {id}, t[h])
  {
    hide Survives, Recovered, RestoredHandle, Held;
    RestoredUnderItsName(disk, id);
    if h != i {
      assert Holding(disk, done, hs[h]) && hs[h].name in names;
    }
  }

  lemma RestoreDone(disk: Disk, verify: bool, done: set<GenId>, hs: map<nat, Handle>, names: map<string, nat>,
                    id: GenId, i: nat, k: GenId)
    requires PartlyRestored(disk, verify, done, hs, names) && |done| == i && id !in done
    requires id in disk && disk[id].marker.now.Some? && disk[id].marker.now.value.name !in names
    requires k in done
    ensures Survives(disk, k, verify)
    ensures Held(disk, k, hs[i := RestoredHandle(disk, id)], names[disk[id].marker.now.value.name := i])
  {
    hide Survives, RestoredHandle, Holding;
    assert Held(disk, k, hs, names);
    assert names[disk[k].marker.now.value.name] < |done|;
  }

  lemma RestoreOne(disk: Disk, verify: bool, done: set<GenId>, hs: map<nat, Handle>, names: map<string, nat>, id: GenId, i: nat)
    requires PartlyRestored(disk, verify, done, hs, names) && |done| == i
    requires Survives(disk, id, verify) && id !in done && id in disk && disk[id].marker.now.Some?
    ensures |done + {id}| == i + 1
    ensures PartlyRestored(disk, verify, done + {id}, hs[i := RestoredHandle(disk, id)],
                           names[disk[id].marker.now.value.name := i])
  {
    hide Survives, RestoredHandle, Holding;
    NameIsNew(disk, verify, done, hs, names, id);
    RestoredUnderItsName(disk, id);
    var t, m := hs[i := RestoredHandle(disk, id)], names[disk[id].marker.now.value.name := i];
    forall h | h in t
      ensures h <= i && t[h].name in m && m[t[h].name] == h && Holding(disk, done + {id}, t[h])
    {
      RestoreHandles(disk, verify, done, hs, names, id, i, h);
    }
    forall k | k in done
      ensures Survives(disk, k, verify) && Held(disk, k, t, m)
    {
      RestoreDone(disk, verify, done, hs, names, id, i, k);
    }
    forall n | n in m
      ensures m[n] in t && t[m[n]].name == n
    {
    }
  }

  lemma RestoredUnderItsName(disk: Disk, id: GenId)
    requires id in disk && disk[id].marker.now.Some?
    ensures RestoredHandle(disk, id).name == disk[id].marker.now.value.name
    ensures RestoredHandle(disk, id).slot.current.Some? && RestoredHandle(disk, id).slot.current.value.id == id
  {
  }

  lemma AllRestored(disk: Disk, verify: bool, done: set<GenId>, hs: map<nat, Handle>, names: map<string, nat>)
    requires PartlyRestored(disk, verify, done, hs, names) && forall id :: id in done <==> Survives(disk, id, verify)
    ensures Restores(disk, verify, hs, names)
  {
    hide Candidate;
    forall id | Survives(disk, id, verify)
      ensures disk[id].marker.now.Some?
    {
      SurvivorHasMarker(disk, id, verify);
    }
  }

  lemma {:induction false} SomeRestoration(disk: Disk, verify: bool, done: set<GenId>)
    returns (hs: map<nat, Handle>, names: map<string, nat>)
    requires forall id | id in done :: Survives(disk, id, verify)
    ensures PartlyRestored(disk, verify, done, hs, names)
    decreases |done|
  {
    hide Survives, PartlyRestored, RestoredHandle;
    if done == {} {
      hs, names := map[], map[];
      NoneRestored(disk, verify, []);
    } else {
      var id :| id in done;
      hs, names := SomeRestoration(disk, verify, done - {id});
      SurvivorHasMarker(disk, id, verify);
      RestoreOne(disk, verify, done - {id}, hs, names, id, |done| - 1);
      hs, names := hs[|done| - 1 := RestoredHandle(disk, id)], names[disk[id].marker.now.value.name := |done| - 1];
      assert done - {id} + {id} == done;
    }
  }

  // Whatever is on disk, a store that is down can boot: a scan may leave it as it is, and its survivors, whoever they
  // are, can be restored.
  lemma BootIsAlwaysPossible(s: State)
    requires !s.up
    ensures exists hs: map<nat, Handle>, names: map<string, nat> :: Enabled(s, Boot(s.disk, hs, names))
  {
    hide Survives, Restores, PartlyRestored;
    var hs, names := SomeRestoration(s.disk, s.cfg.checksum, Survivors(s.disk, s.cfg.checksum));
    SurvivorsAreAll(s.disk, s.cfg.checksum);
    AllRestored(s.disk, s.cfg.checksum, Survivors(s.disk, s.cfg.checksum), hs, names);
    NothingNeedLeave(s.disk, s.cfg.checksum);
    assert Enabled(s, Boot(s.disk, hs, names));
  }

  lemma SurvivorsAreAll(disk: Disk, verify: bool)
    ensures forall id :: id in Survivors(disk, verify) <==> Survives(disk, id, verify)
  {
  }

  lemma NothingNeedLeave(disk: Disk, verify: bool)
    ensures ScanLeaves(disk, disk, verify)
  {
    hide Survives;
    forall id | id in disk
      ensures exists r :: disk[id] == disk[id].Remove(r)
    {
      assert disk[id] == disk[id].Remove(RemovedNothing);
    }
  }
}
