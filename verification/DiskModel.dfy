// One generation's directory, as the running process sees it and as a crash may leave it.
//
// Every directory entry is a Fact: its value now, and the set of values it may be found with after a crash.
// Changing an entry adds the new value to that set; flushing the directory that holds the entry settles it.
// Entries settle independently, so a crash may keep either half of an unflushed rename.
module DiskModel {
  import opened Common
  import opened GenIds
  import opened Generations
  import opened Records

  datatype Fact<T> = Fact(now: T, crash: set<T>) {
    predicate Sound() { now in crash }

    function Write(value: T): Fact<T> { Fact(value, crash + {value}) }

    function Flush(): Fact<T> { Fact(now, {now}) }
  }

  function Settled<T>(value: T): Fact<T> { Fact(value, {value}) }

  // clips/<genid>: its own entry, the data file, and the finalize marker with the record it holds.
  datatype GenDir = GenDir(
    link: Fact<bool>, data: Fact<bool>, bytes: seq<Byte>, flushed: bool, marker: Fact<Option<Record>>)
  {
    // The directory's own entry is flushed by create; the data file's entry is not yet.
    static function Fresh(): GenDir {
      GenDir(Settled(true), Fact(true, {true, false}), [], false, Settled(None))
    }

    // What a create that failed half way leaves behind after its best-effort removal.
    static function HalfMade(): GenDir {
      GenDir(Fact(false, {true, false}), Fact(false, {true, false}), [], false, Settled(None))
    }

    predicate Sound() { link.Sound() && data.Sound() && marker.Sound() }

    function Append(p: seq<Byte>): GenDir { this.(bytes := bytes + p, flushed := false) }

    function SyncData(): GenDir { this.(flushed := true) }

    function SyncDir(): GenDir { this.(data := data.Flush(), marker := marker.Flush()) }

    // `commit`: the rename of a marker into or out of its final name, then the directory flush.
    function Commit(to: Option<Record>, outcome: Outcome): GenDir {
      match outcome
      case NeverTook => this
      case TookUnflushed => this.(marker := marker.Write(to))
      case TookDurable => this.(marker := marker.Write(to)).SyncDir()
    }

    // RemoveAll, however far it got; no removal is ever flushed.
    function Remove(r: Removal): GenDir {
      match r
      case RemovedNothing => this
      case RemovedMarker => this.(marker := marker.Write(None))
      case RemovedData => this.(data := data.Write(false))
      case RemovedFiles => this.(marker := marker.Write(None), data := data.Write(false))
      case RemovedAll => this.(marker := marker.Write(None), data := data.Write(false), link := link.Write(false))
    }

    // This directory may be found as `after` once the machine is back up.
    ghost predicate MayCrashTo(after: GenDir) {
      && after.link == Settled(true) && true in link.crash
      && after.data.now in data.crash && after.data == Settled(after.data.now)
      && after.marker.now in marker.crash && after.marker == Settled(after.marker.now)
      && (flushed ==> after.bytes == bytes) && after.flushed
    }

    // Nothing a crash may lose: the marker carries exactly this record beside exactly these bytes.
    predicate Durable(record: Record, content: seq<Byte>) {
      && link.crash == {true} && data.crash == {true} && marker.crash == {Some(record)}
      && flushed && bytes == content
    }

    // No crash can bring the finalize marker back.
    predicate Sealed() { marker.now == None && marker.crash == {None} }

    // A crash may leave the marker beside the data, so that a scan would take the directory for a survivor.
    predicate MayReturn() { true in link.crash && true in data.crash && marker.crash != {None} }
  }

  // The three ways a rename followed by a directory flush ends.
  datatype Outcome = NeverTook | TookUnflushed | TookDurable

  datatype Removal = RemovedNothing | RemovedMarker | RemovedData | RemovedFiles | RemovedAll

  // A directory recovery keeps as a valid finalized survivor.
  predicate Candidate(id: GenId, dir: GenDir, verify: bool) {
    && dir.link.now && dir.marker.now.Some? && dir.data.now
    && var r := dir.marker.now.value;
       && LoadMeta(Encoded(r)).Some?
       && ValidName(r.name)
       && Validates(r, id, |dir.bytes|)
       && ChecksumHolds(r, dir.bytes, verify)
  }

  type Disk = map<GenId, GenDir>

  // The disk may come back as `after`: each directory lost, or found in one of its possible states.
  ghost predicate MayCrashInto(disk: Disk, after: Disk) {
    && after.Keys <= disk.Keys
    && (forall id | id in after :: disk[id].MayCrashTo(after[id]))
    && (forall id | id in disk && id !in after :: false in disk[id].link.crash)
  }

  // `id` is the directory the per-name contest keeps: a candidate no other candidate of its name is after.
  ghost predicate Survives(disk: Disk, id: GenId, verify: bool) {
    && id in disk && Candidate(id, disk[id], verify)
    && forall other | other in disk && Candidate(other, disk[other], verify)
                      && disk[other].marker.now.value.name == disk[id].marker.now.value.name ::
         !other.After(id)
  }

  // What a scan, finished or cut short, does to the disk: survivors are untouched, anything else may be removed as
  // far as RemoveAll got. A quarantined directory leaves clips/ by an unflushed rename, which is the last arm.
  ghost predicate ScanLeaves(disk: Disk, after: Disk, verify: bool) {
    && after.Keys == disk.Keys
    && forall id | id in after ::
         if Survives(disk, id, verify) then after[id] == disk[id] else exists r :: after[id] == disk[id].Remove(r)
  }
}
