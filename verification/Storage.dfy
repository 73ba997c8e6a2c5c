// What is on disk, what a crash may make of it, and what each operation in flight knows about its generation.
module Storage {
  import opened Common
  import opened GenIds
  import opened Generations
  import opened Records
  import opened DiskModel
  import opened Transitions
  import opened StoreMachine
  import opened Leases
  import opened Ownership

  // The directory of a minted id: its marker is absent or carries the record published for the id, and a published
  // record sits beside exactly the bytes it was published with.
  predicate DirWell(s: State, g: GenId)
    requires g in s.disk
  {
    var d := s.disk[g];
    && g in s.minted && g.prefix > 0 && d.Sound()
    && (forall m | m in d.marker.crash :: m == None || (g in s.published && m == Some(s.published[g].record)))
    && (g in s.published ==> d.flushed && d.bytes == s.published[g].bytes)
  }

  // A published record is one recovery accepts, for this id, this name and these bytes.
  predicate PublicationWell(s: State, g: GenId)
    requires g in s.published
  {
    var p := s.published[g];
    && g in s.minted && p.record.name == s.minted[g] && ValidName(p.record.name)
    && p.record.version == META_VERSION && Validates(p.record, g, |p.bytes|)
    && ChecksumHolds(p.record, p.bytes, true)
    && p.record.meta == Normalized(p.record.meta)
  }

  // The published generation is on disk so that no crash can lose or change it.
  predicate Kept(s: State, g: GenId) {
    g in s.published && g in s.disk && s.disk[g].Durable(s.published[g].record, s.published[g].bytes)
  }

  // Right now it is on disk under its record, whatever a crash may make of that.
  predicate OnDisk(s: State, g: GenId) {
    && g in s.published && g in s.disk && s.disk[g].link.now && s.disk[g].data.now
    && s.disk[g].marker.now == Some(s.published[g].record)
  }

  predicate Untouched(s: State, g: GenId) {
    && g !in s.published && g in s.disk && s.disk[g].marker == Settled(None) && s.disk[g].link.crash == {true}
    && s.disk[g].data.now && g in s.logs && s.disk[g].bytes == s.logs[g].bytes
  }

  // What the operation knows of the generation it works on.
  predicate StoredWell(s: State, op: Op) {
    match op
    case Writing(h, g, _, stage) =>
      && g in s.logs && s.logs[g].end == Open && g !in s.acked
      && (stage.Idle? || stage.Reserved? || stage.ShortBy? ==> Untouched(s, g) && g !in s.gone)
      && (stage.Synced? ==> Untouched(s, g) && s.disk[g].flushed && g !in s.gone)
      && (stage.Published? ==>
            && Kept(s, g) && g !in s.gone && s.published[g].bytes == s.logs[g].bytes
            && h in s.handles && s.handles[h].slot.live.Some?
            && s.published[g].record
                 == RecordOf(Finalize(s.handles[h].slot.live.value, stage.at), s.logs[g].bytes, s.cfg.checksum))
      && (stage.Failing? && stage.tookRename ==> g in s.disk && s.disk[g].marker.now.Some? && g !in s.gone)
    case Finishing(_, g, _) =>
      g in s.logs && s.logs[g].end == Open && g in s.acked && g in s.published && s.published[g].bytes == s.logs[g].bytes
    case Tearing(_, g) => g in s.logs && s.logs[g].end == Open && g !in s.acked
    case Creating(_, _, meta) => meta == Normalized(meta)
    case Observed(_, name, _) => ValidName(name)
    case _ => true
  }

  // A finalized current generation is on disk, and is what its record says.
  predicate SlotStored(s: State, hd: Handle) {
    && ValidName(hd.name)
    && (hd.slot.current.Some? && hd.slot.current.value.state == GenFinalized ==>
          var c := hd.slot.current.value;
          && OnDisk(s, c.id) && RecordOf(c, s.published[c.id].bytes, s.cfg.checksum).(checksum := "")
                              == s.published[c.id].record.(checksum := "")
          && c.id in s.logs && s.logs[c.id].bytes == s.published[c.id].bytes)
    && (hd.slot.live.Some? ==> hd.slot.live.value.meta == Normalized(hd.slot.live.value.meta))
  }

  // The generation is its name's finalized value.
  predicate InPlace(s: State, g: GenId) {
    && g in s.minted && s.minted[g] in s.reg && s.reg[s.minted[g]] in s.handles
    && IsFinal(s.handles[s.reg[s.minted[g]]], g)
  }

  // An acknowledged write that nothing has ended is kept on disk, and in a serving store it is its name's value.
  predicate Acknowledged(s: State, g: GenId) { Kept(s, g) && (s.up ==> InPlace(s, g)) }

  // Claimed, deleted and durably aborted generations have no marker and no crash can return it; a consume-once
  // generation is only ever delivered once it is one of these, and only once.
  predicate Gone(s: State, g: GenId) { g in s.minted && (g in s.disk ==> s.disk[g].Sealed()) }

  // Once the disk has settled, every directory a crash could return for a name is bounded by the id seed of its handle.
  ghost predicate SeedBounds(s: State) {
    s.settled ==> forall g | g in s.disk && s.disk[g].MayReturn() && g in s.minted && s.minted[g] in s.reg
               && s.reg[s.minted[g]] in s.handles ::
      s.handles[s.reg[s.minted[g]]].slot.lastPrefix > 0 ==> g.prefix <= s.handles[s.reg[s.minted[g]]].slot.lastPrefix
  }

  // While nothing serves, and the disk has settled: survivors are durable, and every directory a crash could still
  // return is beaten by one.
  ghost predicate DownWell(s: State) {
    s.settled ==>
    && (forall k | Survives(s.disk, k, s.cfg.checksum) :: Kept(s, k))
    && (forall g | g in s.disk && s.disk[g].MayReturn() :: exists k :: Beats(s, k, g))
  }

  ghost predicate Beats(s: State, k: GenId, g: GenId) {
    && Survives(s.disk, k, s.cfg.checksum) && g in s.minted && k in s.minted && s.minted[k] == s.minted[g]
    && !g.After(k)
  }

  ghost predicate DirsWell(s: State) {
    && (forall g | g in s.disk :: DirWell(s, g))
    && (forall g | g in s.published :: PublicationWell(s, g))
    && (forall g | g in s.minted :: g.prefix > 0)
  }

  ghost predicate OpsStored(s: State) { forall p | p in s.ops :: StoredWell(s, s.ops[p]) }

  ghost predicate SlotsStored(s: State) { forall h | h in s.handles :: SlotStored(s, s.handles[h]) }

  ghost predicate FatesWell(s: State) {
    && (forall g | g in s.acked :: g in s.published)
    && (forall g | g in s.acked - s.ended :: Acknowledged(s, g))
    && (forall g | g in s.gone :: Gone(s, g))
    && (forall g | g in s.delivered :: g in s.gone && s.delivered[g] == 1)
  }

  // Every log is a minted generation's, and holds what that generation published if it did. A log that ended cleanly is
  // a published one's, and one that was torn was never acknowledged.
  ghost predicate LogsWell(s: State) {
    forall g | g in s.logs ::
      && g in s.minted && (g in s.published ==> s.published[g].bytes == s.logs[g].bytes)
      && (s.logs[g].end == Finished ==> g in s.published)
      && (s.logs[g].end == Torn ==> g !in s.acked)
  }

  ghost predicate StoreInv(s: State) {
    && DirsWell(s) && OpsStored(s) && SlotsStored(s) && FatesWell(s) && LogsWell(s)
    && (if s.up then SeedBounds(s) else DownWell(s) && s.ops == map[] && s.handles == map[] && s.reg == map[] && s.logs == map[] && s.extant == {})
  }
}
