// Startup recovery over whatever is on disk: how each directory is judged, what a scan leaves, and why a scan may be
// interrupted anywhere and run again.
module Recovery {
  import opened Common
  import opened GenIds
  import opened Generations
  import opened Records
  import opened DiskModel

  // The metadata file of one directory: absent, present but unreadable, or holding something.
  datatype MetaFile = NoMeta | Unreadable | Holds(content: MetaContent)

  // The data file: absent, present but beyond a stat, or so many bytes, which a read may still fail on.
  datatype DataFile = NoData | Unstattable | DataBytes(bytes: seq<Byte>, readable: bool)

  datatype GenFiles = GenFiles(meta: MetaFile, data: DataFile) {
    // What a RemoveAll that stopped part way left of them.
    function Partly(r: Removal): GenFiles {
      match r
      case RemovedNothing => this
      case RemovedMarker => this.(meta := NoMeta)
      case RemovedData => this.(data := NoData)
      case RemovedFiles => GenFiles(NoMeta, NoData)
      case RemovedAll => GenFiles(NoMeta, NoData)
    }
  }

  // An entry of clips/.
  datatype Entry = Stray | Directory(files: GenFiles)

  type Clips = map<string, Entry>

  datatype Fate = Keep(id: GenId, record: Record) | Reclaim | Quarantine

  // -------------------------------------------------------------------------
  // Judging one directory
  // -------------------------------------------------------------------------

  // The classification tree: cheapest and most decisive checks first.
  function Judge(dirname: string, f: GenFiles, verify: bool): Fate {
    var id := ParseGenId(dirname);
    if id.None? then Quarantine
    else
      match f.meta
      case NoMeta => Reclaim
      case Unreadable => Quarantine
      case Holds(content) =>
        var r := LoadMeta(content);
        if r.None? || !ValidName(r.value.name) then Quarantine
        else
          match f.data
          case NoData => Reclaim
          case Unstattable => Quarantine
          case DataBytes(bytes, readable) =>
            if !Validates(r.value, id.value, |bytes|) then Quarantine
            else if verify && r.value.checksum != "" && (!readable || Checksum(bytes) != r.value.checksum) then Quarantine
            else Keep(id.value, r.value)
  }

  // Nothing is kept that does not fully validate, and nothing that does is thrown away.
  lemma KeptExactlyWhenSound(dirname: string, f: GenFiles, verify: bool, id: GenId, r: Record)
    ensures Judge(dirname, f, verify) == Keep(id, r) <==>
              && dirname == id.String() && f.meta == Holds(Encoded(r)) && r.version <= META_VERSION && ValidName(r.name)
              && f.data.DataBytes? && r.generation == dirname && r.size == |f.data.bytes|
              && (verify && r.checksum != "" ==> f.data.readable && Checksum(f.data.bytes) == r.checksum)
  {
    ParseAcceptsExactlyTheRendering(dirname, id);
    if ParseGenId(dirname).Some? {
      ParseAcceptsExactlyTheRendering(dirname, ParseGenId(dirname).value);
    }
  }

  // Only a directory one of this store's ids names, with nothing in it a reader could want, is reclaimed: it has no
  // finalize marker, or a sound marker and no data at all.
  lemma ReclaimedExactlyWhenGarbage(dirname: string, f: GenFiles, verify: bool)
    ensures Judge(dirname, f, verify) == Reclaim <==>
              && (exists id: GenId :: dirname == id.String())
              && (f.meta.NoMeta?
                  || (f.meta.Holds? && LoadMeta(f.meta.content).Some? && ValidName(LoadMeta(f.meta.content).value.name)
                      && f.data.NoData?))
  {
    if ParseGenId(dirname).Some? {
      ParseAcceptsExactlyTheRendering(dirname, ParseGenId(dirname).value);
      assert dirname == ParseGenId(dirname).value.String();
    } else {
      forall id: GenId
        ensures dirname != id.String()
      {
        ParseAcceptsExactlyTheRendering(dirname, id);
      }
    }
  }

  // A directory half way through its removal is garbage, whatever it was.
  lemma HalfRemovedIsGarbage(dirname: string, f: GenFiles, r: Removal, verify: bool)
    requires Judge(dirname, f, verify) != Quarantine && f.Partly(r) != f
    ensures Judge(dirname, f.Partly(r), verify) == Reclaim
  {
  }

  // -------------------------------------------------------------------------
  // Judging the whole tree
  // -------------------------------------------------------------------------

  predicate IsDir(clips: Clips, d: string) { d in clips && clips[d].Directory? }

  function Judged(clips: Clips, d: string, verify: bool): Fate
    requires IsDir(clips, d)
  {
    Judge(d, clips[d].files, verify)
  }

  predicate IsCandidate(clips: Clips, d: string, verify: bool) {
    IsDir(clips, d) && Judged(clips, d, verify).Keep?
  }

  predicate SameName(clips: Clips, d: string, e: string, verify: bool)
    requires IsCandidate(clips, d, verify) && IsCandidate(clips, e, verify)
  {
    Judged(clips, d, verify).record.name == Judged(clips, e, verify).record.name
  }

  // `e` beats `d`: the same name, a later id.
  predicate Beats(clips: Clips, e: string, d: string, verify: bool) {
    && IsCandidate(clips, d, verify) && IsCandidate(clips, e, verify) && SameName(clips, d, e, verify)
    && Judged(clips, e, verify).id.After(Judged(clips, d, verify).id)
  }

  // The directory its name keeps.
  predicate Wins(clips: Clips, d: string, verify: bool) {
    IsCandidate(clips, d, verify) && forall e | e in clips :: !Beats(clips, e, d, verify)
  }

  predicate IsGarbage(clips: Clips, d: string, verify: bool) {
    IsDir(clips, d) && Judged(clips, d, verify) != Quarantine && !Wins(clips, d, verify)
  }

  predicate IsCorrupt(clips: Clips, d: string, verify: bool) {
    IsDir(clips, d) && Judged(clips, d, verify) == Quarantine
  }

  // Each directory has exactly one disposition.
  lemma DispositionsPartition(clips: Clips, d: string, verify: bool)
    requires IsDir(clips, d)
    ensures Wins(clips, d, verify) || IsGarbage(clips, d, verify) || IsCorrupt(clips, d, verify)
    ensures !(Wins(clips, d, verify) && IsGarbage(clips, d, verify))
    ensures !(Wins(clips, d, verify) && IsCorrupt(clips, d, verify))
    ensures !(IsGarbage(clips, d, verify) && IsCorrupt(clips, d, verify))
  {
  }

  // A directory is named by its candidate's id, so no two candidates share one.
  lemma CandidateIsItsName(clips: Clips, d: string, verify: bool)
    requires IsCandidate(clips, d, verify)
    ensures d == Judged(clips, d, verify).id.String()
  {
    var j := Judged(clips, d, verify);
    KeptExactlyWhenSound(d, clips[d].files, verify, j.id, j.record);
  }

  // Each name keeps one directory.
  lemma OneWinnerPerName(clips: Clips, d: string, e: string, verify: bool)
    requires Wins(clips, d, verify) && Wins(clips, e, verify) && SameName(clips, d, e, verify)
    ensures d == e
  {
    CandidateIsItsName(clips, d, verify);
    CandidateIsItsName(clips, e, verify);
    assert !Beats(clips, e, d, verify) && !Beats(clips, d, e, verify);
    AfterIsStrictTotalOrder(Judged(clips, d, verify).id, Judged(clips, e, verify).id, Judged(clips, d, verify).id);
  }

  lemma BeatsIsTransitive(clips: Clips, k: string, e: string, d: string, verify: bool)
    requires Beats(clips, k, e, verify) && Beats(clips, e, d, verify)
    ensures Beats(clips, k, d, verify) && !Beats(clips, e, e, verify)
  {
    hide Judge;
    AfterIsStrictTotalOrder(Judged(clips, k, verify).id, Judged(clips, e, verify).id, Judged(clips, d, verify).id);
  }

  // Every candidate that does not win loses to one that does.
  lemma {:induction false} SomeoneWins(clips: Clips, d: string, verify: bool, above: set<string>) returns (w: string)
    requires IsCandidate(clips, d, verify)
    requires above == set e | e in clips && Beats(clips, e, d, verify)
    ensures Wins(clips, w, verify) && SameName(clips, d, w, verify) && (w == d || Beats(clips, w, d, verify))
    decreases |above|
  {
    hide Judge;
    if above == {} {
      w := d;
      forall e | e in clips
        ensures !Beats(clips, e, d, verify)
      {
        assert e !in above;
      }
    } else {
      var e :| e in above;
      var higher := set k | k in clips && Beats(clips, k, e, verify);
      forall k | k in higher
        ensures k in above && k != e
      {
        BeatsIsTransitive(clips, k, e, d, verify);
      }
      assert e !in higher;
      ProperSubsetIsSmaller(higher, above);
      w := SomeoneWins(clips, e, verify, higher);
      if w != e {
        BeatsIsTransitive(clips, w, e, d, verify);
      }
    }
  }

  lemma ProperSubsetIsSmaller<T>(a: set<T>, b: set<T>)
    requires a < b
    ensures |a| < |b|
  {
    assert b == a + (b - a);
  }

  // -------------------------------------------------------------------------
  // A scan may stop anywhere and run again
  // -------------------------------------------------------------------------

  // The tree some prefix of a scan may leave, together with whatever a crash undid of it: what wins is untouched,
  // garbage is as it was, half removed or gone, corruption is as it was or moved away, strays are untouched.
  ghost predicate PartlySwept(clips: Clips, after: Clips, verify: bool) {
    && after.Keys <= clips.Keys
    && (forall d | d in clips && clips[d].Stray? :: d in after && after[d] == clips[d])
    && (forall d | Wins(clips, d, verify) :: d in after && after[d] == clips[d])
    && (forall d | IsCorrupt(clips, d, verify) && d in after :: after[d] == clips[d])
    && (forall d | IsGarbage(clips, d, verify) && d in after :: exists r :: after[d] == Directory(clips[d].files.Partly(r)))
  }

  lemma SweptCandidates(clips: Clips, after: Clips, verify: bool, d: string)
    requires PartlySwept(clips, after, verify) && IsCandidate(after, d, verify)
    ensures IsCandidate(clips, d, verify) && after[d] == clips[d]
  {
    assert IsDir(clips, d);
    DispositionsPartition(clips, d, verify);
    if IsGarbage(clips, d, verify) {
      var r :| after[d] == Directory(clips[d].files.Partly(r));
      if clips[d].files.Partly(r) != clips[d].files {
        HalfRemovedIsGarbage(d, clips[d].files, r, verify);
      }
    }
  }

  // Whatever a scan got done before it was cut short, the next scan keeps the very same directories.
  lemma SweepsAgreeOnWinners(clips: Clips, after: Clips, verify: bool, d: string)
    requires PartlySwept(clips, after, verify)
    ensures Wins(after, d, verify) <==> Wins(clips, d, verify)
    ensures Wins(clips, d, verify) ==> d in after && after[d] == clips[d]
  {
    hide Judge;
    if Wins(clips, d, verify) {
      forall e | Beats(after, e, d, verify)
        ensures Beats(clips, e, d, verify)
      {
        SweptCandidates(clips, after, verify, e);
      }
    }
    if Wins(after, d, verify) {
      SweptCandidates(clips, after, verify, d);
      var w := SomeoneWins(clips, d, verify, set e | e in clips && Beats(clips, e, d, verify));
      assert w != d ==> Beats(after, w, d, verify);
    }
  }

  // And it judges the rest as this one did: what was garbage is still garbage, what was corrupt is still corrupt.
  lemma SweepsAgreeOnTheRest(clips: Clips, after: Clips, verify: bool, d: string)
    requires PartlySwept(clips, after, verify) && IsDir(after, d)
    ensures IsGarbage(clips, d, verify) <==> IsGarbage(after, d, verify)
    ensures IsCorrupt(clips, d, verify) <==> IsCorrupt(after, d, verify)
  {
    assert IsDir(clips, d);
    SweepsAgreeOnWinners(clips, after, verify, d);
    DispositionsPartition(clips, d, verify);
    if IsGarbage(clips, d, verify) {
      var r :| after[d] == Directory(clips[d].files.Partly(r));
      if clips[d].files.Partly(r) != clips[d].files {
        HalfRemovedIsGarbage(d, clips[d].files, r, verify);
      }
    }
  }

  // So any number of interrupted scans is one scan.
  lemma SweepsCompose(clips: Clips, middle: Clips, after: Clips, verify: bool)
    requires PartlySwept(clips, middle, verify) && PartlySwept(middle, after, verify)
    ensures PartlySwept(clips, after, verify)
  {
    forall d | d in clips
      ensures Wins(clips, d, verify) ==> d in after && after[d] == clips[d]
      ensures IsCorrupt(clips, d, verify) && d in after ==> after[d] == clips[d]
      ensures IsGarbage(clips, d, verify) && d in after ==> exists r :: after[d] == Directory(clips[d].files.Partly(r))
    {
      SweepsAgreeOnWinners(clips, middle, verify, d);
      if d in after && IsDir(middle, d) {
        SweepsAgreeOnTheRest(clips, middle, verify, d);
        if IsGarbage(clips, d, verify) {
          var q :| middle[d] == Directory(clips[d].files.Partly(q));
          var r :| after[d] == Directory(middle[d].files.Partly(r));
          PartlyTwice(clips[d].files, q, r);
        }
      }
    }
  }

  lemma PartlyTwice(f: GenFiles, q: Removal, r: Removal)
    ensures exists k :: f.Partly(q).Partly(r) == f.Partly(k)
  {
    assert f == f.Partly(RemovedNothing);
    assert f.Partly(RemovedMarker).Partly(RemovedData) == f.Partly(RemovedFiles);
    assert f.Partly(RemovedData).Partly(RemovedMarker) == f.Partly(RemovedFiles);
    match q
    case RemovedNothing => assert f.Partly(q).Partly(r) == f.Partly(r);
    case RemovedMarker =>
      assert f.Partly(q).Partly(r) == (if r.RemovedNothing? || r.RemovedMarker? then f.Partly(q) else f.Partly(RemovedFiles));
    case RemovedData =>
      assert f.Partly(q).Partly(r) == (if r.RemovedNothing? || r.RemovedData? then f.Partly(q) else f.Partly(RemovedFiles));
    case RemovedFiles => assert f.Partly(q).Partly(r) == f.Partly(q);
    case RemovedAll => assert f.Partly(q).Partly(r) == f.Partly(q);
  }
}
