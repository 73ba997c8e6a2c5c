// The disk medium's calls on one generation's home: each is the one rename-then-flush, and reports separately whether
// the rename took and whether the whole of it succeeded.
module Medium {
  import opened Common
  import opened GenIds
  import opened Generations
  import opened Records
  import opened DiskModel
  import opened Transitions

  // The three ways a committed/err pair can read.
  function OutcomeOf(committed: bool, ok: bool): Outcome {
    if !committed then NeverTook else if ok then TookDurable else TookUnflushed
  }

  class Home {
    var dir: GenDir
    const fsync: bool
    const checksum: bool

    // A fresh home; its own entry is flushed before the call returns.
    constructor (fsync: bool, checksum: bool)
      ensures dir == GenDir.Fresh() && this.fsync == fsync && this.checksum == checksum
    {
      dir := GenDir.Fresh();
      this.fsync, this.checksum := fsync, checksum;
    }

    // Renames the marker to or from its name, then flushes the directory when durability is on.
    method Commit(to: Option<Record>, renames: bool, flushes: bool) returns (committed: bool, ok: bool)
      modifies `dir
      ensures committed == renames && ok == (renames && (!fsync || flushes))
      ensures fsync ==> dir == old(dir).Commit(to, OutcomeOf(committed, ok))
      ensures !fsync ==> dir == if renames then old(dir).(marker := old(dir).marker.Write(to)) else old(dir)
    {
      if !renames {
        return false, false;
      }
      dir := dir.(marker := dir.marker.Write(to));
      if !fsync {
        return true, true;
      }
      if !flushes {
        return true, false;
      }
      dir := dir.SyncDir();
      return true, true;
    }

    // Flushes the bytes; the buffer's Sync, before anything is published.
    method Sync(flushes: bool) returns (ok: bool)
      modifies `dir
      ensures ok == (!fsync || flushes)
      ensures dir == if fsync && flushes then old(dir).SyncData() else old(dir)
    {
      if !fsync {
        return true;
      }
      if flushes {
        dir := dir.SyncData();
      }
      return flushes;
    }

    // Writes the record of `g` and publishes it. A record that could not be hashed or written was never published.
    method Finalize(g: Generation, hashes: bool, writes: bool, renames: bool, flushes: bool) returns (committed: bool, ok: bool)
      modifies `dir
      ensures ok ==> committed
      ensures (checksum && !hashes) || !writes ==> !committed && dir == old(dir)
      ensures (!checksum || hashes) && writes ==> committed == renames && ok == (renames && (!fsync || flushes))
      ensures fsync ==> dir == old(dir).Commit(Some(RecordOf(g, old(dir).bytes, checksum)), OutcomeOf(committed, ok))
    {
      if checksum && !hashes {
        return false, false;
      }
      var record := RecordOf(g, dir.bytes, checksum);
      if !writes {
        return false, false;
      }
      committed, ok := Commit(Some(record), renames, flushes);
    }

    // claim, unpublish and abortPublish: the marker is renamed aside.
    method RenameAside(renames: bool, flushes: bool) returns (committed: bool, ok: bool)
      modifies `dir
      ensures committed == renames && ok == (renames && (!fsync || flushes))
      ensures fsync ==> dir == old(dir).Commit(None, OutcomeOf(committed, ok))
      ensures !committed ==> dir == old(dir)
    {
      committed, ok := Commit(None, renames, flushes);
    }
  }

  // With durability on, a publish that reports success over flushed bytes cannot be lost, and a rename aside that
  // reports success cannot be undone, by any crash.
  lemma SuccessIsDurable(dir: GenDir, record: Record, after: GenDir)
    requires dir.flushed && dir.link.crash == {true} && dir.data.now
    requires dir.Commit(Some(record), TookDurable).MayCrashTo(after)
    ensures after.marker.now == Some(record) && after.data.now && after.bytes == dir.bytes
    ensures dir.Commit(Some(record), TookDurable).Durable(record, dir.bytes)
  {
  }

  lemma AsideIsForGood(dir: GenDir, after: GenDir)
    requires dir.Commit(None, TookDurable).MayCrashTo(after)
    ensures after.marker.now.None? && dir.Commit(None, TookDurable).Sealed()
  {
  }

  // One that reports a failure after its rename may be found either way: the reason every caller forks three ways.
  lemma UnflushedMayGoEitherWay(dir: GenDir, to: Option<Record>, value: Option<Record>)
    requires dir.Sound() && dir.link.crash == {true} && (value == to || value == dir.marker.now)
    ensures exists after :: dir.Commit(to, TookUnflushed).MayCrashTo(after) && after.marker.now == value
  {
    var d := dir.Commit(to, TookUnflushed);
    var after := GenDir(Settled(true), Settled(d.data.now), d.bytes, true, Settled(value));
    assert d.MayCrashTo(after);
  }

  // No removal is flushed: whatever a crash could have found before one, however far it got, it may still find after; and if the
  // machine stays up the files are gone as far as it got, and not the bytes.
  lemma RemovalsMayComeBack(dir: GenDir, r: Removal, after: GenDir)
    requires dir.MayCrashTo(after)
    ensures dir.Remove(r).MayCrashTo(after)
    ensures var gone := dir.Remove(r);
            && gone.bytes == dir.bytes && gone.flushed == dir.flushed
            && gone.marker.now == (if r.RemovedNothing? || r.RemovedData? then dir.marker.now else None)
            && gone.data.now == (dir.data.now && (r.RemovedNothing? || r.RemovedMarker?))
            && gone.link.now == (dir.link.now && !r.RemovedAll?)
  {
  }

  // Nor is an append, until the log is synced: the bytes beside the marker may then be anything.
  lemma UnsyncedBytesMayBeLost(dir: GenDir, p: seq<Byte>, left: seq<Byte>)
    requires dir.Sound() && dir.link.crash == {true}
    ensures exists after :: dir.Append(p).MayCrashTo(after) && after.bytes == left
    ensures forall after | dir.Append(p).SyncData().MayCrashTo(after) :: after.bytes == dir.bytes + p
  {
    var d := dir.Append(p);
    var after := GenDir(Settled(true), Settled(d.data.now), left, true, Settled(d.marker.now));
    assert d.MayCrashTo(after);
  }
}
