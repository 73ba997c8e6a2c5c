// The scan itself, step by step over the directory tree, proved to leave what Recovery says it may.
module RecoveryScan {
  import opened Common
  import opened GenIds
  import opened Generations
  import opened Records
  import opened DiskModel
  import opened Recovery
  import opened Text

  // What the file system refuses this time: removals that stop part way, directories that will not move, and entries
  // of quarantine/ that exist but cannot be stat'd.
  datatype Faults = Faults(stuck: map<string, Removal>, immovable: set<string>, blind: set<string>)

  datatype Whole = Whole(dirname: string, id: GenId, record: Record)

  // -------------------------------------------------------------------------
  // Naming a quarantined copy
  // -------------------------------------------------------------------------

  // The names a directory is tried under in quarantine/, in order.
  function Copy(dirname: string, i: nat): string {
    if i == 0 then dirname else dirname + "." + Decimal(i)
  }

  lemma CopiesDiffer(dirname: string, i: nat, j: nat)
    requires i != j
    ensures Copy(dirname, i) != Copy(dirname, j)
  {
    if Copy(dirname, i) == Copy(dirname, j) {
      if i > 0 && j > 0 {
        assert Decimal(i) == Copy(dirname, i)[|dirname| + 1..] == Copy(dirname, j)[|dirname| + 1..] == Decimal(j);
        DecimalIsInjective(i, j);
      }
    }
  }

  class Tally {
    var survivors: seq<Whole>
    var quarantined: nat
    var reclaimed: nat

    constructor ()
      ensures survivors == [] && quarantined == 0 && reclaimed == 0
    {
      survivors, quarantined, reclaimed := [], 0, 0;
    }
  }

  class DiskMedium {
    var clips: Clips
    var quarantined: map<string, GenFiles>

    constructor (clips: Clips, quarantined: map<string, GenFiles>)
      ensures this.clips == clips && this.quarantined == quarantined
    {
      this.clips := clips;
      this.quarantined := quarantined;
    }

    // The first name of the series that is free, or that cannot be stat'd: the loop ends, because quarantine/ is finite
    // and no name is tried twice.
    method FreeName(dirname: string, blind: set<string>) returns (dst: string)
      ensures dst !in quarantined || dst in blind
      ensures exists i: nat :: dst == Copy(dirname, i) && forall j | 0 <= j < i :: Copy(dirname, j) in quarantined
    {
      dst := dirname;
      var i := 0;
      ghost var tried: set<string> := {};
      while dst in quarantined && dst !in blind
        invariant dst == Copy(dirname, i)
        invariant tried == set j | 0 <= j < i :: Copy(dirname, j)
        invariant tried <= quarantined.Keys
        decreases quarantined.Keys - tried
      {
        assert dst !in tried by {
          forall j | 0 <= j < i
            ensures Copy(dirname, j) != dst
          {
            CopiesDiffer(dirname, i, j);
          }
        }
        tried := tried + {dst};
        i := i + 1;
        dst := dirname + "." + Decimal(i);
      }
      forall j | 0 <= j < i
        ensures Copy(dirname, j) in quarantined
      {
        assert Copy(dirname, j) in tried;
      }
    }

    // Moves a directory whole under quarantine/; a rename never lands on a copy that is already there.
    method Quarantine(d: string, faults: Faults, rec: Tally)
      requires IsDir(clips, d)
      modifies this, rec`quarantined
      ensures forall q | q in old(quarantined) :: q in quarantined && quarantined[q] == old(quarantined[q])
      ensures d in clips ==> clips == old(clips) && quarantined == old(quarantined) && rec.quarantined == old(rec.quarantined)
      ensures d !in clips ==>
                && clips == old(clips) - {d} && rec.quarantined == old(rec.quarantined) + 1
                && exists dst :: dst !in old(quarantined) && quarantined == old(quarantined)[dst := old(clips)[d].files]
      ensures d !in faults.immovable && faults.blind == {} ==> d !in clips
    {
      var dst := FreeName(d, faults.blind);
      if d in faults.immovable || dst in quarantined {
        return;
      }
      var files := clips[d].files;
      assert dst !in old(quarantined) && quarantined[dst := files] == old(quarantined)[dst := old(clips)[d].files];
      clips, quarantined := clips - {d}, quarantined[dst := files];
      rec.quarantined := rec.quarantined + 1;
    }

    // Removes a directory; a removal that fails leaves it part way, and is not counted.
    method RemoveGenDir(d: string, faults: Faults, rec: Tally)
      requires IsDir(clips, d)
      modifies this`clips, rec`reclaimed
      ensures Removed(old(clips), clips, d, faults) && OthersStand(old(clips), clips, d)
      ensures rec.reclaimed == old(rec.reclaimed) + if d in clips then 0 else 1
    {
      if d in faults.stuck {
        clips := clips[d := Directory(clips[d].files.Partly(faults.stuck[d]))];
        return;
      }
      clips := clips - {d};
      rec.reclaimed := rec.reclaimed + 1;
    }

    // The ordered tree of checks on one directory: cheapest and most decisive first.
    method Inspect(d: string, verify: bool) returns (fate: Fate)
      requires IsDir(clips, d)
      ensures fate == Judged(clips, d, verify)
    {
      var files := clips[d].files;
      var id := ParseGenId(d);
      if id.None? {
        return Fate.Quarantine;
      }
      if files.meta.NoMeta? {
        return Reclaim;
      }
      if files.meta.Unreadable? {
        return Fate.Quarantine;
      }
      var r := LoadMeta(files.meta.content);
      if r.None? || !ValidName(r.value.name) {
        return Fate.Quarantine;
      }
      if files.data.NoData? {
        return Reclaim;
      }
      if files.data.Unstattable? || !Validates(r.value, id.value, |files.data.bytes|) {
        return Fate.Quarantine;
      }
      if verify && r.value.checksum != "" {
        if !files.data.readable || Checksum(files.data.bytes) != r.value.checksum {
          return Fate.Quarantine;
        }
      }
      return Keep(id.value, r.value);
    }

    // Acts on one directory's fate.
    method Classify(d: string, verify: bool, faults: Faults, rec: Tally) returns (c: Option<Whole>)
      requires IsDir(clips, d)
      modifies this, rec`quarantined, rec`reclaimed
      ensures Handled(old(clips), clips, d, verify, faults) && OthersStand(old(clips), clips, d)
      ensures Preserves(old(quarantined), quarantined)
      ensures IsCorrupt(old(clips), d, verify) && d !in clips ==> IsQuarantined(quarantined, old(quarantined), old(clips)[d].files)
      ensures rec.reclaimed == old(rec.reclaimed) + if !IsCorrupt(old(clips), d, verify) && d !in clips then 1 else 0
      ensures rec.quarantined == old(rec.quarantined) + if IsCorrupt(old(clips), d, verify) && d !in clips then 1 else 0
      ensures c.Some? <==> IsCandidate(old(clips), d, verify)
      ensures c.Some? ==> Keep(c.value.id, c.value.record) == Judged(old(clips), d, verify) && c.value.dirname == d
    {
      hide Judge;
      c := None;
      var fate := Inspect(d, verify);
      match fate
      case Quarantine => Quarantine(d, faults, rec);
      case Reclaim => RemoveGenDir(d, faults, rec);
      case Keep(id, record) => c := Some(Whole(d, id, record));
    }

    // Among one name's candidates, the one no other is after.
    static method Latest(cands: seq<Whole>) returns (keep: Whole)
      requires |cands| > 0
      ensures keep in cands && forall c | c in cands :: !c.id.After(keep.id)
    {
      keep := cands[0];
      var i := 1;
      while i < |cands|
        invariant 1 <= i <= |cands| && keep in cands
        invariant forall j | 0 <= j < i :: !cands[j].id.After(keep.id)
      {
        if cands[i].id.After(keep.id) {
          keep := cands[i];
        }
        i := i + 1;
      }
    }

    // Every candidate but the one kept is a supersede that crashed before it could reclaim the loser.
    method RemoveLosers(cands: seq<Whole>, keep: Whole, faults: Faults, rec: Tally)
      requires Distinct(cands) && forall c | c in cands :: IsDir(clips, c.dirname)
      modifies this`clips, rec`reclaimed
      ensures AllRemoved(old(clips), clips, Losers(cands, keep), faults)
      ensures rec.reclaimed == old(rec.reclaimed) + |Losers(cands, keep) - clips.Keys|
    {
      hide Removed, OthersStand, Distinct, AllRemoved, Losers, IsDir;
      ghost var before := clips;
      var i := 0;
      NoneRemoved(clips, faults);
      NoLosersYet(cands, keep);
      while i < |cands|
        invariant i <= |cands|
        invariant AllRemoved(before, clips, Losers(cands[..i], keep), faults)
        invariant rec.reclaimed == old(rec.reclaimed) + |Losers(cands[..i], keep) - clips.Keys|
      {
        var c := cands[i];
        CandidateIsDir(before, cands, i);
        LosersNext(cands, keep, i);
        if c.id != keep.id {
          ghost var was := clips;
          StillThere(before, clips, Losers(cands[..i], keep), c.dirname, faults);
          RemoveGenDir(c.dirname, faults, rec);
          OneMoreRemoved(before, was, clips, Losers(cands[..i], keep), c.dirname, faults);
        }
        i := i + 1;
      }
      assert cands[..i] == cands;
    }

    // Takes in one directory of those still pending.
    method SortOne(d: string, byName: map<string, seq<Whole>>, verify: bool, faults: Faults, rec: Tally,
                   ghost before: Clips, ghost kept: map<string, GenFiles>, ghost pending: set<string>)
      returns (grouped: map<string, seq<Whole>>)
      requires d in pending && IsDir(before, d) && IsDir(clips, d) && clips[d] == before[d]
      requires Classified(before, clips, pending, verify, faults) && Grouped(before, byName, pending, verify)
      requires Preserves(kept, quarantined) && MovedAway(before, clips, kept, quarantined, verify)
      modifies this, rec`quarantined, rec`reclaimed
      ensures Classified(before, clips, pending - {d}, verify, faults) && Grouped(before, grouped, pending - {d}, verify)
      ensures Preserves(kept, quarantined) && MovedAway(before, clips, kept, quarantined, verify)
      ensures rec.reclaimed - Cleared(Leftovers(before, verify), pending - {d}, clips)
           == old(rec.reclaimed) - Cleared(Leftovers(before, verify), pending, old(clips))
      ensures rec.quarantined - Cleared(Corrupt(before, verify), pending - {d}, clips)
           == old(rec.quarantined) - Cleared(Corrupt(before, verify), pending, old(clips))
    {
      hide Handled, OthersStand, Judge, Preserves, Leftovers, Corrupt, Classified, Grouped, MovedAway, IsQuarantined,
           Cleared;
      ghost var was, stored := clips, quarantined;
      var c := Classify(d, verify, faults, rec);
      grouped := byName;
      if c.Some? {
        var n := c.value.record.name;
        grouped := byName[n := (if n in byName then byName[n] else []) + [c.value]];
      }
      SortedOne(before, was, clips, pending, d, verify, faults);
      GroupedOne(before, byName, grouped, pending, d, c, verify);
      MovedOne(before, was, clips, kept, stored, quarantined, d, verify);
    }

    // Classifies every directory once, grouping the candidates by the name their records carry; a stray file is left
    // untouched.
    method Sort(verify: bool, faults: Faults, rec: Tally) returns (byName: map<string, seq<Whole>>)
      modifies this, rec`quarantined, rec`reclaimed
      ensures Classified(old(clips), clips, {}, verify, faults) && Grouped(old(clips), byName, {}, verify)
      ensures Preserves(old(quarantined), quarantined)
      ensures MovedAway(old(clips), clips, old(quarantined), quarantined, verify)
      ensures rec.reclaimed == old(rec.reclaimed) + Cleared(Leftovers(old(clips), verify), {}, clips)
      ensures rec.quarantined == old(rec.quarantined) + Cleared(Corrupt(old(clips), verify), {}, clips)
    {
      hide Handled, OthersStand, Judge, Preserves, Leftovers, Corrupt, Classified, Grouped, MovedAway, IsQuarantined,
           Cleared;
      ghost var before, kept := clips, quarantined;
      byName := map[];
      var entries := clips.Keys;
      SortBegins(clips, quarantined, verify, faults);
      while entries != {}
        invariant Classified(before, clips, entries, verify, faults) && Grouped(before, byName, entries, verify)
        invariant entries <= before.Keys
        invariant Preserves(kept, quarantined) && MovedAway(before, clips, kept, quarantined, verify)
        invariant rec.reclaimed == old(rec.reclaimed) + Cleared(Leftovers(before, verify), entries, clips)
        invariant rec.quarantined == old(rec.quarantined) + Cleared(Corrupt(before, verify), entries, clips)
        decreases entries
      {
        var d :| d in entries;
        PendingStands(before, clips, entries, d, verify, faults);
        if clips[d].Directory? {
          byName := SortOne(d, byName, verify, faults, rec, before, kept, entries);
        } else {
          SortedStray(before, clips, entries, d, byName, verify, faults);
        }
        entries := entries - {d};
      }
    }

    // One name's contest: the greatest id is its survivor, the others are removed.
    method Contest(n: string, cands: seq<Whole>, verify: bool, faults: Faults, rec: Tally,
                   ghost before: Clips, ghost byName: map<string, seq<Whole>>, ghost left: set<string>)
      requires n in left && n in byName && cands == byName[n] && Grouped(before, byName, {}, verify)
      requires Contested(before, clips, left, verify, faults) && Surviving(before, rec.survivors, left, verify)
      modifies this`clips, rec
      ensures Contested(before, clips, left - {n}, verify, faults) && Surviving(before, rec.survivors, left - {n}, verify)
      ensures clips.Keys <= old(clips).Keys && OthersStay(before, old(clips), clips, verify)
      ensures rec.quarantined == old(rec.quarantined)
      ensures rec.reclaimed - Cleared(Garbage(before, left - {n}, verify), {}, clips)
           == old(rec.reclaimed) - Cleared(Garbage(before, left, verify), {}, old(clips))
    {
      hide Judge, Handled, Removed, OthersStand, AllRemoved, Losers, Contested, Surviving, Cleared, Garbage, Grouped, Distinct,
           IsCandidate, Judged, Wins, Beats, OthersStay;
      ghost var was := clips;
      GroupIsThere(before, was, byName, n, left, verify, faults);
      var keep := Latest(cands);
      RemoveLosers(cands, keep, faults, rec);
      ContestedOne(before, was, clips, byName, n, keep, left, verify, faults);
      SurvivingOne(before, rec.survivors, byName, n, keep, left, verify);
      rec.survivors := rec.survivors + [keep];
    }

    // The whole replay. What it leaves is a tree from which a later scan would keep the same directories; what it
    // reports is what reached the disk; and when the disk refuses nothing, every directory is kept, reclaimed or
    // quarantined, one of the three.
    method Scan(verify: bool, listable: bool, faults: Faults, rec: Tally) returns (ok: bool)
      requires rec.survivors == [] && rec.quarantined == 0 && rec.reclaimed == 0
      modifies this, rec
      ensures ok == listable
      ensures !ok ==> clips == old(clips) && quarantined == old(quarantined) && rec.survivors == []
      ensures PartlySwept(old(clips), clips, verify)
      ensures Preserves(old(quarantined), quarantined)
      ensures MovedAway(old(clips), clips, old(quarantined), quarantined, verify)
      ensures ok ==> Surviving(old(clips), rec.survivors, {}, verify)
      ensures ok ==> rec.reclaimed == |Garbage(old(clips), {}, verify) - clips.Keys|
      ensures ok ==> rec.quarantined == |Corrupt(old(clips), verify) - clips.Keys|
      ensures ok && faults == Faults(map[], {}, {}) ==>
                forall d | IsDir(old(clips), d) :: d in clips <==> Wins(old(clips), d, verify)
    {
      hide Handled, Removed, OthersStand, Judge, Preserves, Leftovers, Corrupt, Classified, Grouped, MovedAway, IsQuarantined,
           Cleared, Contested, Surviving, Garbage, PartlySwept, OthersStay;
      ghost var before := clips;
      if !listable {
        NothingSwept(clips, verify);
        NothingMoved(clips, quarantined, verify);
        return false;
      }
      var byName := Sort(verify, faults, rec);
      ghost var sorted, stored := clips, quarantined;
      ContestsBegin(before, clips, byName, verify, faults);
      var names := byName.Keys;
      OthersStayPut(before, clips, verify);
      while names != {}
        invariant names <= byName.Keys && clips.Keys <= sorted.Keys && OthersStay(before, sorted, clips, verify)
        invariant quarantined == stored
        invariant Contested(before, clips, names, verify, faults) && Surviving(before, rec.survivors, names, verify)
        invariant rec.reclaimed == Cleared(Garbage(before, names, verify), {}, clips)
        invariant rec.quarantined == Cleared(Corrupt(before, verify), {}, sorted)
        decreases names
      {
        var n :| n in names;
        ghost var was := clips;
        Contest(n, byName[n], verify, faults, rec, before, byName, names);
        OthersStayOn(before, sorted, was, clips, verify);
        names := names - {n};
      }
      ContestsEnd(before, sorted, clips, old(quarantined), quarantined, byName, verify, faults);
      return true;
    }
  }

  // The directories of `gone` were removed as far as the file system let them, and no other changed.
  ghost predicate AllRemoved(clips: Clips, after: Clips, gone: set<string>, faults: Faults) {
    && (forall d | d !in gone :: (d in clips <==> d in after) && (d in clips ==> after[d] == clips[d]))
    && (forall d | d in gone :: IsDir(clips, d) && Removed(clips, after, d, faults))
  }

  lemma NoneRemoved(clips: Clips, faults: Faults)
    ensures AllRemoved(clips, clips, {}, faults)
  {
  }

  lemma StillThere(clips: Clips, after: Clips, gone: set<string>, d: string, faults: Faults)
    requires AllRemoved(clips, after, gone, faults) && d !in gone && IsDir(clips, d)
    ensures IsDir(after, d) && after[d] == clips[d]
  {
  }

  lemma CandidateIsDir(clips: Clips, cands: seq<Whole>, i: nat)
    requires i < |cands| && forall c | c in cands :: IsDir(clips, c.dirname)
    ensures IsDir(clips, cands[i].dirname)
  {
    assert cands[i] in cands;
  }

  lemma OneMoreRemoved(clips: Clips, was: Clips, after: Clips, gone: set<string>, d: string, faults: Faults)
    requires AllRemoved(clips, was, gone, faults) && d !in gone && IsDir(clips, d) && IsDir(was, d)
    requires Removed(was, after, d, faults) && OthersStand(was, after, d)
    ensures AllRemoved(clips, after, gone + {d}, faults)
    ensures |(gone + {d}) - after.Keys| == |gone - was.Keys| + if d in after then 0 else 1
  {
    OneMoreCounted(was.Keys, after.Keys, gone, d);
    assert was[d] == clips[d];
    forall e | e in gone
      ensures IsDir(clips, e) && Removed(clips, after, e, faults)
    {
      assert Removed(clips, was, e, faults);
    }
  }

  lemma OneMoreCounted(was: set<string>, after: set<string>, gone: set<string>, d: string)
    requires d !in gone && forall e | e != d :: e in was <==> e in after
    ensures |(gone + {d}) - after| == |gone - was| + if d in after then 0 else 1
  {
    var a, b := gone - was, (gone + {d}) - after;
    assert b - {d} == a;
    assert d in b <==> d !in after;
  }

  // Everything but `pending` has been classified.
  ghost predicate Classified(clips: Clips, after: Clips, pending: set<string>, verify: bool, faults: Faults) {
    && after.Keys <= clips.Keys
    && forall d | d in clips ::
         if d in pending || clips[d].Stray? then d in after && after[d] == clips[d]
         else Handled(clips, after, d, verify, faults)
  }

  predicate IsMember(clips: Clips, pending: set<string>, n: string, c: Whole, verify: bool) {
    && IsCandidate(clips, c.dirname, verify) && c.dirname !in pending && c.record.name == n
    && Judged(clips, c.dirname, verify) == Keep(c.id, c.record)
  }

  // The groups hold exactly the candidates seen so far, each once, under its own name.
  ghost predicate Grouped(clips: Clips, byName: map<string, seq<Whole>>, pending: set<string>, verify: bool) {
    && (forall n | n in byName :: |byName[n]| > 0 && Distinct(byName[n]))
    && (forall n, c | n in byName && c in byName[n] :: IsMember(clips, pending, n, c, verify))
    && (forall d | IsCandidate(clips, d, verify) && d !in pending :: HasMember(byName, d, Judged(clips, d, verify)))
  }

  predicate HasMember(byName: map<string, seq<Whole>>, d: string, f: Fate)
    requires f.Keep?
  {
    f.record.name in byName && Whole(d, f.id, f.record) in byName[f.record.name]
  }

  function Leftovers(clips: Clips, verify: bool): set<string> {
    set d | d in clips && IsDir(clips, d) && Judged(clips, d, verify) == Reclaim
  }

  // How many of a kind have left clips/, of those no longer pending.
  function Cleared(kind: set<string>, pending: set<string>, after: Clips): nat { |(kind - pending) - after.Keys| }

  function Corrupt(clips: Clips, verify: bool): set<string> {
    set d | d in clips && IsCorrupt(clips, d, verify)
  }

  // What left clips/ as corrupt is whole in quarantine/.
  ghost predicate MovedAway(clips: Clips, after: Clips, before: map<string, GenFiles>, now: map<string, GenFiles>, verify: bool) {
    forall d | IsCorrupt(clips, d, verify) && d !in after :: IsQuarantined(now, before, clips[d].files)
  }

  lemma SortBegins(clips: Clips, q: map<string, GenFiles>, verify: bool, faults: Faults)
    ensures Classified(clips, clips, clips.Keys, verify, faults) && Grouped(clips, map[], clips.Keys, verify)
    ensures Preserves(q, q) && MovedAway(clips, clips, q, q, verify)
    ensures Cleared(Leftovers(clips, verify), clips.Keys, clips) == 0
    ensures Cleared(Corrupt(clips, verify), clips.Keys, clips) == 0
  {
    assert (Leftovers(clips, verify) - clips.Keys) - clips.Keys == {};
    assert (Corrupt(clips, verify) - clips.Keys) - clips.Keys == {};
  }

  lemma PendingStands(clips: Clips, after: Clips, pending: set<string>, d: string, verify: bool, faults: Faults)
    requires Classified(clips, after, pending, verify, faults) && d in pending && d in clips
    ensures d in after && after[d] == clips[d]
  {
  }

  lemma SortedOne(clips: Clips, was: Clips, after: Clips, pending: set<string>, d: string, verify: bool, faults: Faults)
    requires Classified(clips, was, pending, verify, faults) && d in pending && IsDir(clips, d) && IsDir(was, d)
    requires was[d] == clips[d] && Handled(was, after, d, verify, faults) && OthersStand(was, after, d)
    ensures Classified(clips, after, pending - {d}, verify, faults)
    ensures Cleared(Leftovers(clips, verify), pending - {d}, after)
         == Cleared(Leftovers(clips, verify), pending, was) + if !IsCorrupt(clips, d, verify) && d !in after then 1 else 0
    ensures Cleared(Corrupt(clips, verify), pending - {d}, after)
         == Cleared(Corrupt(clips, verify), pending, was) + if IsCorrupt(clips, d, verify) && d !in after then 1 else 0
  {
    hide Judge;
    ClassifiedOne(clips, was, after, pending, d, verify, faults);
    OneFewerPending(was.Keys, after.Keys, Leftovers(clips, verify), pending, d);
    OneFewerPending(was.Keys, after.Keys, Corrupt(clips, verify), pending, d);
  }

  lemma OneFewerPending(was: set<string>, after: set<string>, kind: set<string>, pending: set<string>, d: string)
    requires d in pending && forall e | e != d :: e in was <==> e in after
    ensures |(kind - (pending - {d})) - after| == |(kind - pending) - was| + if d in kind && d !in after then 1 else 0
  {
    if d in kind {
      OneMoreCounted(was, after, kind - pending, d);
      assert kind - (pending - {d}) == (kind - pending) + {d};
    } else {
      assert (kind - (pending - {d})) - after == (kind - pending) - was;
    }
  }

  lemma ClassifiedOne(clips: Clips, was: Clips, after: Clips, pending: set<string>, d: string, verify: bool, faults: Faults)
    requires Classified(clips, was, pending, verify, faults) && d in pending && IsDir(clips, d) && IsDir(was, d)
    requires was[d] == clips[d] && Handled(was, after, d, verify, faults) && OthersStand(was, after, d)
    ensures Classified(clips, after, pending - {d}, verify, faults)
  {
    hide Judge;
    forall e | e in clips
      ensures if e in pending - {d} || clips[e].Stray? then e in after && after[e] == clips[e]
              else Handled(clips, after, e, verify, faults)
    {
      if e != d && e !in pending && clips[e].Directory? {
        assert Handled(clips, was, e, verify, faults);
      }
    }
  }

  lemma SortedStray(clips: Clips, after: Clips, pending: set<string>, d: string, byName: map<string, seq<Whole>>,
                    verify: bool, faults: Faults)
    requires Classified(clips, after, pending, verify, faults) && Grouped(clips, byName, pending, verify)
    requires d in pending && d in clips && clips[d].Stray?
    ensures Classified(clips, after, pending - {d}, verify, faults) && Grouped(clips, byName, pending - {d}, verify)
    ensures Cleared(Leftovers(clips, verify), pending - {d}, after) == Cleared(Leftovers(clips, verify), pending, after)
    ensures Cleared(Corrupt(clips, verify), pending - {d}, after) == Cleared(Corrupt(clips, verify), pending, after)
  {
    hide Judge, Handled;
    assert Leftovers(clips, verify) - (pending - {d}) == Leftovers(clips, verify) - pending;
    assert Corrupt(clips, verify) - (pending - {d}) == Corrupt(clips, verify) - pending;
  }

  lemma GroupedOne(clips: Clips, byName: map<string, seq<Whole>>, now: map<string, seq<Whole>>, pending: set<string>,
                   d: string, c: Option<Whole>, verify: bool)
    requires Grouped(clips, byName, pending, verify) && d in pending && IsDir(clips, d)
    requires c.Some? <==> IsCandidate(clips, d, verify)
    requires c.Some? ==> c.value.dirname == d && Judged(clips, d, verify) == Keep(c.value.id, c.value.record)
    requires now == if c.None? then byName
                    else byName[c.value.record.name := (if c.value.record.name in byName then byName[c.value.record.name] else []) + [c.value]]
    ensures Grouped(clips, now, pending - {d}, verify)
  {
    hide Judge;
    if c.Some? {
      var n := c.value.record.name;
      forall m, k | m in now && k in now[m]
        ensures IsMember(clips, pending - {d}, m, k, verify)
      {
        if m in byName && k in byName[m] {
          assert IsMember(clips, pending, m, k, verify);
        }
      }
      forall e | IsCandidate(clips, e, verify) && e !in pending - {d}
        ensures HasMember(now, e, Judged(clips, e, verify))
      {
        if e != d {
          assert HasMember(byName, e, Judged(clips, e, verify));
        } else {
          assert now[n][|now[n]| - 1] == c.value;
        }
      }
      GroupStaysDistinct(clips, byName, pending, n, c.value, verify);
    }
  }

  lemma GroupStaysDistinct(clips: Clips, byName: map<string, seq<Whole>>, pending: set<string>, n: string, c: Whole, verify: bool)
    requires Grouped(clips, byName, pending, verify) && c.dirname in pending
    ensures Distinct((if n in byName then byName[n] else []) + [c])
  {
    if n in byName {
      forall k | k in byName[n]
        ensures k.dirname != c.dirname
      {
        assert IsMember(clips, pending, n, k, verify);
      }
    }
  }

  lemma MovedOne(clips: Clips, was: Clips, after: Clips, before: map<string, GenFiles>, stored: map<string, GenFiles>,
                 now: map<string, GenFiles>, d: string, verify: bool)
    requires MovedAway(clips, was, before, stored, verify) && Preserves(before, stored) && Preserves(stored, now)
    requires IsDir(clips, d) && d in was && was[d] == clips[d] && OthersStand(was, after, d)
    requires IsCorrupt(was, d, verify) && d !in after ==> IsQuarantined(now, stored, was[d].files)
    ensures MovedAway(clips, after, before, now, verify) && Preserves(before, now)
  {
    hide Judge;
    forall e | IsCorrupt(clips, e, verify) && e !in after
      ensures IsQuarantined(now, before, clips[e].files)
    {
      if e != d {
        var dst :| dst in stored && dst !in before && stored[dst] == clips[e].files;
        assert now[dst] == clips[e].files;
      } else {
        var dst :| dst in now && dst !in stored && now[dst] == clips[d].files;
        assert dst !in before;
      }
    }
  }

  // Every directory has been classified, and the contest of every name outside `left` decided.
  ghost predicate Contested(clips: Clips, after: Clips, left: set<string>, verify: bool, faults: Faults) {
    && after.Keys <= clips.Keys
    && forall d | d in clips ::
         if clips[d].Stray? then d in after && after[d] == clips[d]
         else if !IsCandidate(clips, d, verify) then Handled(clips, after, d, verify, faults)
         else if Judged(clips, d, verify).record.name in left || Wins(clips, d, verify) then d in after && after[d] == clips[d]
         else Removed(clips, after, d, faults)
  }

  // A contest touches candidates only.
  ghost predicate OthersStay(clips: Clips, was: Clips, after: Clips, verify: bool) {
    forall d | d in was && !IsCandidate(clips, d, verify) :: d in after
  }

  lemma OthersStayPut(clips: Clips, a: Clips, verify: bool)
    ensures OthersStay(clips, a, a, verify)
  {
  }

  lemma OthersStayOn(clips: Clips, a: Clips, b: Clips, c: Clips, verify: bool)
    requires OthersStay(clips, a, b, verify) && OthersStay(clips, b, c, verify)
    ensures OthersStay(clips, a, c, verify)
  {
  }

  // The survivors so far are the winners of the names outside `left`, each once.
  ghost predicate Surviving(clips: Clips, survivors: seq<Whole>, left: set<string>, verify: bool) {
    && Distinct(survivors)
    && (forall w | w in survivors :: IsSurvivor(clips, w, left, verify))
    && (forall d | Wins(clips, d, verify) && Judged(clips, d, verify).record.name !in left ::
          Whole(d, Judged(clips, d, verify).id, Judged(clips, d, verify).record) in survivors)
  }

  predicate IsSurvivor(clips: Clips, w: Whole, left: set<string>, verify: bool) {
    Wins(clips, w.dirname, verify) && Judged(clips, w.dirname, verify) == Keep(w.id, w.record) && w.record.name !in left
  }

  // What is to be reclaimed, the losers of the names in `left` aside.
  function Garbage(clips: Clips, left: set<string>, verify: bool): set<string> {
    set d | d in clips && IsGarbage(clips, d, verify)
            && (IsCandidate(clips, d, verify) ==> Judged(clips, d, verify).record.name !in left)
  }

  lemma NothingSwept(clips: Clips, verify: bool)
    ensures PartlySwept(clips, clips, verify)
  {
    hide Judge;
    forall d | IsGarbage(clips, d, verify)
      ensures exists r :: clips[d] == Directory(clips[d].files.Partly(r))
    {
      assert clips[d] == Directory(clips[d].files.Partly(RemovedNothing));
    }
  }

  lemma NothingMoved(clips: Clips, q: map<string, GenFiles>, verify: bool)
    ensures Preserves(q, q) && MovedAway(clips, clips, q, q, verify)
  {
  }

  lemma ContestsBegin(clips: Clips, after: Clips, byName: map<string, seq<Whole>>, verify: bool, faults: Faults)
    requires Classified(clips, after, {}, verify, faults) && Grouped(clips, byName, {}, verify)
    ensures Contested(clips, after, byName.Keys, verify, faults) && Surviving(clips, [], byName.Keys, verify)
    ensures Cleared(Garbage(clips, byName.Keys, verify), {}, after) == Cleared(Leftovers(clips, verify), {}, after)
  {
    hide Judge, Wins, Removed;
    NotCandidatesDoNotWin(clips, verify);
    forall d | IsCandidate(clips, d, verify)
      ensures Judged(clips, d, verify).record.name in byName.Keys && d in after && after[d] == clips[d]
    {
      assert HasMember(byName, d, Judged(clips, d, verify));
      assert Handled(clips, after, d, verify, faults);
    }
    assert Garbage(clips, byName.Keys, verify) == Leftovers(clips, verify);
  }

  lemma NotCandidatesDoNotWin(clips: Clips, verify: bool)
    ensures forall d | Wins(clips, d, verify) :: IsCandidate(clips, d, verify)
  {
  }

  lemma ContestedIsSwept(clips: Clips, after: Clips, verify: bool, faults: Faults)
    requires Contested(clips, after, {}, verify, faults)
    ensures PartlySwept(clips, after, verify)
    ensures faults == Faults(map[], {}, {}) ==> forall d | IsDir(clips, d) :: d in after <==> Wins(clips, d, verify)
  {
    hide Judge, Wins;
    NotCandidatesDoNotWin(clips, verify);
  }

  lemma ContestsEnd(clips: Clips, sorted: Clips, after: Clips, before: map<string, GenFiles>, now: map<string, GenFiles>,
                    byName: map<string, seq<Whole>>, verify: bool, faults: Faults)
    requires Contested(clips, after, {}, verify, faults) && Classified(clips, sorted, {}, verify, faults)
    requires MovedAway(clips, sorted, before, now, verify) && after.Keys <= sorted.Keys
    requires OthersStay(clips, sorted, after, verify)
    ensures PartlySwept(clips, after, verify) && MovedAway(clips, after, before, now, verify)
    ensures Cleared(Garbage(clips, {}, verify), {}, after) == |Garbage(clips, {}, verify) - after.Keys|
    ensures Cleared(Corrupt(clips, verify), {}, sorted) == |Corrupt(clips, verify) - after.Keys|
    ensures faults == Faults(map[], {}, {}) ==> forall d | IsDir(clips, d) :: d in after <==> Wins(clips, d, verify)
  {
    hide Judge, Wins, Garbage, PartlySwept, IsQuarantined, Contested, Classified;
    ContestedIsSwept(clips, after, verify, faults);
    assert Garbage(clips, {}, verify) - {} == Garbage(clips, {}, verify);
    CorruptStay(clips, sorted, after, verify);
  }

  lemma CorruptStay(clips: Clips, sorted: Clips, after: Clips, verify: bool)
    requires after.Keys <= sorted.Keys && OthersStay(clips, sorted, after, verify)
    ensures (Corrupt(clips, verify) - {}) - sorted.Keys == Corrupt(clips, verify) - after.Keys
  {
    hide Judge;
  }

  lemma MemberOfGroup(clips: Clips, byName: map<string, seq<Whole>>, n: string, c: Whole, verify: bool)
    requires Grouped(clips, byName, {}, verify) && n in byName && c in byName[n]
    ensures IsCandidate(clips, c.dirname, verify) && Judged(clips, c.dirname, verify) == Keep(c.id, c.record)
    ensures c.record.name == n && c.dirname == c.id.String()
  {
    hide Judge;
    assert IsMember(clips, {}, n, c, verify);
    CandidateIsItsName(clips, c.dirname, verify);
  }

  lemma GroupIsThere(clips: Clips, after: Clips, byName: map<string, seq<Whole>>, n: string, left: set<string>,
                     verify: bool, faults: Faults)
    requires Grouped(clips, byName, {}, verify) && n in byName && n in left
    requires Contested(clips, after, left, verify, faults)
    ensures |byName[n]| > 0 && Distinct(byName[n]) && forall c | c in byName[n] :: IsDir(after, c.dirname)
  {
    hide Judge, Handled;
    forall c | c in byName[n]
      ensures IsDir(after, c.dirname)
    {
      MemberOfGroup(clips, byName, n, c, verify);
    }
  }

  // The latest of a group wins its name.
  lemma LatestWins(clips: Clips, byName: map<string, seq<Whole>>, n: string, keep: Whole, verify: bool)
    requires Grouped(clips, byName, {}, verify) && n in byName && keep in byName[n]
    requires forall c | c in byName[n] :: !c.id.After(keep.id)
    ensures IsSurvivor(clips, keep, {}, verify) && keep.record.name == n
  {
    hide Judge;
    MemberOfGroup(clips, byName, n, keep, verify);
    forall e | e in clips
      ensures !Beats(clips, e, keep.dirname, verify)
    {
      assert IsCandidate(clips, e, verify) && Judged(clips, e, verify).record.name == n ==>
               HasMember(byName, e, Judged(clips, e, verify));
    }
  }

  // The rest of its group are exactly the candidates of the name that do not win.
  lemma LosersAreBeaten(clips: Clips, byName: map<string, seq<Whole>>, n: string, keep: Whole, d: string, verify: bool)
    requires Grouped(clips, byName, {}, verify) && n in byName && keep in byName[n]
    requires forall c | c in byName[n] :: !c.id.After(keep.id)
    ensures d in Losers(byName[n], keep) <==>
              IsCandidate(clips, d, verify) && Judged(clips, d, verify).record.name == n && !Wins(clips, d, verify)
  {
    hide Judge;
    LatestWins(clips, byName, n, keep, verify);
    if d in Losers(byName[n], keep) {
      var c :| c in byName[n] && c.id != keep.id && c.dirname == d;
      MemberOfGroup(clips, byName, n, c, verify);
      AfterIsStrictTotalOrder(c.id, keep.id, c.id);
      assert Beats(clips, keep.dirname, d, verify);
    }
    if IsCandidate(clips, d, verify) && Judged(clips, d, verify).record.name == n && !Wins(clips, d, verify) {
      var f := Judged(clips, d, verify);
      assert HasMember(byName, d, f);
      MemberOfGroup(clips, byName, n, Whole(d, f.id, f.record), verify);
      assert Whole(d, f.id, f.record).dirname in Losers(byName[n], keep);
    }
  }

  lemma ContestedOne(clips: Clips, was: Clips, after: Clips, byName: map<string, seq<Whole>>, n: string, keep: Whole,
                     left: set<string>, verify: bool, faults: Faults)
    requires Grouped(clips, byName, {}, verify) && n in byName && n in left && keep in byName[n]
    requires forall c | c in byName[n] :: !c.id.After(keep.id)
    requires Contested(clips, was, left, verify, faults) && AllRemoved(was, after, Losers(byName[n], keep), faults)
    ensures Contested(clips, after, left - {n}, verify, faults) && after.Keys <= was.Keys
    ensures OthersStay(clips, was, after, verify)
    ensures Cleared(Garbage(clips, left - {n}, verify), {}, after)
         == Cleared(Garbage(clips, left, verify), {}, was) + |Losers(byName[n], keep) - after.Keys|
  {
    hide Judge, Losers, Grouped, Wins, Contested, AllRemoved, Cleared, Garbage;
    var losers := Losers(byName[n], keep);
    forall d
      ensures d in losers <==>
                IsCandidate(clips, d, verify) && Judged(clips, d, verify).record.name == n && !Wins(clips, d, verify)
    {
      LosersAreBeaten(clips, byName, n, keep, d, verify);
    }
    ContestedStep(clips, was, after, losers, n, left, verify, faults);
    GarbageStep(clips, was, after, losers, n, left, verify, faults);
  }

  lemma ContestedStep(clips: Clips, was: Clips, after: Clips, losers: set<string>, n: string, left: set<string>,
                      verify: bool, faults: Faults)
    requires n in left
    requires forall d :: d in losers <==>
               IsCandidate(clips, d, verify) && Judged(clips, d, verify).record.name == n && !Wins(clips, d, verify)
    requires Contested(clips, was, left, verify, faults) && AllRemoved(was, after, losers, faults)
    ensures Contested(clips, after, left - {n}, verify, faults) && after.Keys <= was.Keys
    ensures OthersStay(clips, was, after, verify)
  {
    hide Judge, Wins;
    forall d | d in after
      ensures d in was
    {
      assert d in losers ==> IsDir(was, d);
    }
    forall d | d in clips
      ensures if clips[d].Stray? then d in after && after[d] == clips[d]
              else if !IsCandidate(clips, d, verify) then Handled(clips, after, d, verify, faults)
              else if Judged(clips, d, verify).record.name in left - {n} || Wins(clips, d, verify)
              then d in after && after[d] == clips[d]
              else Removed(clips, after, d, faults)
    {
    }
  }

  lemma GarbageStep(clips: Clips, was: Clips, after: Clips, losers: set<string>, n: string, left: set<string>,
                    verify: bool, faults: Faults)
    requires n in left
    requires forall d :: d in losers <==>
               IsCandidate(clips, d, verify) && Judged(clips, d, verify).record.name == n && !Wins(clips, d, verify)
    requires AllRemoved(was, after, losers, faults)
    ensures Cleared(Garbage(clips, left - {n}, verify), {}, after)
         == Cleared(Garbage(clips, left, verify), {}, was) + |losers - after.Keys|
  {
    hide Judge, Wins, Removed;
    GarbageGrows(clips, losers, n, left, verify);
    CountTogether(Garbage(clips, left, verify), losers, was.Keys, after.Keys);
  }

  lemma GarbageGrows(clips: Clips, losers: set<string>, n: string, left: set<string>, verify: bool)
    requires n in left
    requires forall d :: d in losers <==>
               IsCandidate(clips, d, verify) && Judged(clips, d, verify).record.name == n && !Wins(clips, d, verify)
    ensures Garbage(clips, left - {n}, verify) == Garbage(clips, left, verify) + losers
    ensures Garbage(clips, left, verify) !! losers
  {
    hide Judge, Wins;
    assert forall d | IsCandidate(clips, d, verify) :: d in clips;
  }

  lemma CountTogether(g: set<string>, losers: set<string>, was: set<string>, after: set<string>)
    requires g !! losers && forall d | d !in losers :: d in was <==> d in after
    ensures |((g + losers) - {}) - after| == |(g - {}) - was| + |losers - after|
  {
    assert ((g + losers) - {}) - after == (g - was) + (losers - after);
    assert (g - {}) - was == g - was;
  }

  lemma SurvivingOne(clips: Clips, survivors: seq<Whole>, byName: map<string, seq<Whole>>, n: string, keep: Whole,
                     left: set<string>, verify: bool)
    requires Grouped(clips, byName, {}, verify) && n in byName && n in left && keep in byName[n]
    requires forall c | c in byName[n] :: !c.id.After(keep.id)
    requires Surviving(clips, survivors, left, verify)
    ensures Surviving(clips, survivors + [keep], left - {n}, verify)
  {
    hide Judge, Grouped;
    LatestWins(clips, byName, n, keep, verify);
    forall w | w in survivors
      ensures w.dirname != keep.dirname
    {
      assert IsSurvivor(clips, w, left, verify);
    }
    forall w | w in survivors + [keep]
      ensures IsSurvivor(clips, w, left - {n}, verify)
    {
      assert w in survivors ==> IsSurvivor(clips, w, left, verify);
    }
    forall d | Wins(clips, d, verify) && Judged(clips, d, verify).record.name !in left - {n}
      ensures Whole(d, Judged(clips, d, verify).id, Judged(clips, d, verify).record) in survivors + [keep]
    {
      if Judged(clips, d, verify).record.name == n {
        OneWinnerPerName(clips, d, keep.dirname, verify);
        assert (survivors + [keep])[|survivors|] == keep;
      }
    }
  }

  predicate Distinct(cands: seq<Whole>) {
    forall i, j | 0 <= i < j < |cands| :: cands[i].dirname != cands[j].dirname
  }

  function Losers(cands: seq<Whole>, keep: Whole): set<string> {
    set c | c in cands && c.id != keep.id :: c.dirname
  }

  lemma NoLosersYet(cands: seq<Whole>, keep: Whole)
    ensures Losers(cands[..0], keep) == {}
  {
  }

  lemma LosersNext(cands: seq<Whole>, keep: Whole, i: nat)
    requires i < |cands| && Distinct(cands)
    ensures Losers(cands[..i + 1], keep)
         == Losers(cands[..i], keep) + if cands[i].id != keep.id then {cands[i].dirname} else {}
    ensures cands[i].dirname !in Losers(cands[..i], keep)
  {
    assert cands[..i + 1] == cands[..i] + [cands[i]];
  }

  // One directory has been dealt with: a candidate stands, the corrupt stand or have left, garbage is half removed or
  // gone.
  ghost predicate Handled(clips: Clips, after: Clips, d: string, verify: bool, faults: Faults)
    requires IsDir(clips, d)
  {
    match Judged(clips, d, verify)
    case Keep(_, _) => d in after && after[d] == clips[d]
    case Quarantine => && (d in after ==> after[d] == clips[d])
                       && (d !in faults.immovable && faults.blind == {} ==> d !in after)
    case Reclaim => Removed(clips, after, d, faults)
  }

  ghost predicate Removed(clips: Clips, after: Clips, d: string, faults: Faults)
    requires IsDir(clips, d)
  {
    && (d in after <==> d in faults.stuck)
    && (d in after ==> exists r :: after[d] == Directory(clips[d].files.Partly(r)))
  }

  ghost predicate OthersStand(clips: Clips, after: Clips, d: string) {
    forall e | e != d :: (e in clips <==> e in after) && (e in clips ==> after[e] == clips[e])
  }

  predicate Preserves(before: map<string, GenFiles>, now: map<string, GenFiles>) {
    forall q | q in before :: q in now && now[q] == before[q]
  }

  // The files are in quarantine/ under a name that was free.
  predicate IsQuarantined(now: map<string, GenFiles>, before: map<string, GenFiles>, files: GenFiles) {
    exists dst | dst in now :: dst !in before && now[dst] == files
  }
}
