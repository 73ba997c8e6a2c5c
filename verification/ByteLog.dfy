// The followable byte log under every interleaving of its one writer with any number of readers.
//
// A step is one critical section of the log's lock, one call into the backing, or one arm of a reader's wait; between
// two steps of a reader the writer and every other reader may move.
module ByteLog {
  import opened Common

  // What a read reports beside its bytes.
  datatype ReadError = EndOfFile | AbortedLog | UnexpectedEnd | CanceledRead | BackingFault | BadOffset

  datatype ReadResult = ReadResult(bytes: seq<Byte>, err: Option<ReadError>)

  // readRegion's rule for what the backing answered: `n` of `want` bytes inside the published range.
  function RegionError(n: nat, want: nat, err: Option<ReadError>): Option<ReadError> {
    if err == Some(EndOfFile) then (if n == want then None else Some(UnexpectedEnd)) else err
  }

  // io.ReaderAt's contract: a short answer comes with an error.
  predicate Answers(n: nat, want: nat, err: Option<ReadError>) {
    n <= want && (n < want ==> err.Some?) && err != Some(AbortedLog) && err != Some(CanceledRead)
  }

  // The writer between its calls, having stored bytes it has yet to publish, or past its last append.
  datatype Writer = Ready | Stored(n: nat) | Closing

  datatype Stage =
    | Out                                              // between calls of Read
    | Turning(len: nat)                                // at the top of the loop
    | Saw(len: nat, size: nat, closed: bool, aborted: bool, channel: nat)
    | Waiting(len: nat, channel: nat)

  // A follower streams the live log; a section reads the finished log's fixed range.
  datatype Reader =
    | Follower(off: nat, canceled: bool, stage: Stage, results: seq<ReadResult>)
    | Section(off: nat, size: nat, results: seq<ReadResult>)

  // `stored` is what the backing holds, `size` how much of it is published. `notify` numbers the channel.
  datatype State = State(
    stored: seq<Byte>, size: nat, closed: bool, aborted: bool, notify: nat, writer: Writer, readers: map<nat, Reader>)
  {
    function Published(): seq<Byte>
      requires size <= |stored|
    {
      stored[..size]
    }

    predicate Terminated() { closed || aborted }

    function SetReader(r: nat, reader: Reader): State { this.(readers := readers[r := reader]) }
  }

  datatype Step =
    | Store(p: seq<Byte>, n: nat)                      // the backing took n of p
    | Advance
    | BeginClose                                       // the owner will append no more
    | Finish
    | Fail
    | Follow(r: nat)
    | OpenSection(r: nat)
    | CallRead(r: nat, len: nat)
    | Top(r: nat)                                      // the cancel check, then the capture under the lock
    | Deliver(r: nat, n: nat, err: Option<ReadError>)
    | End(r: nat)
    | Park(r: nat)
    | Wake(r: nat)
    | CancelReader(r: nat)
    | ReadSection(r: nat, len: nat, n: nat, err: Option<ReadError>)

  predicate IsFollower(s: State, r: nat) { r in s.readers && s.readers[r].Follower? }

  predicate InStage(s: State, r: nat) { IsFollower(s, r) && s.readers[r].stage.Saw? }

  function Min(a: nat, b: nat): nat { if a < b then a else b }

  // How many bytes this turn asks the backing for.
  function Want(len: nat, off: nat, bound: nat): nat
    requires off <= bound
  {
    Min(len, bound - off)
  }

  predicate Enabled(s: State, step: Step) {
    match step
    // Append refuses after a terminal, and only the one writer calls it.
    case Store(p, n) => s.writer.Ready? && !s.Terminated() && n <= |p|
    case Advance => s.writer.Stored?
    case BeginClose => s.writer.Ready?
    // A terminal runs between the writer's own calls; nothing stops a second one.
    case Finish => !s.writer.Stored?
    case Fail => !s.writer.Stored?
    case Follow(r) => r !in s.readers
    // A section is opened on a log that will not grow further.
    case OpenSection(r) => r !in s.readers && (s.Terminated() || s.writer.Closing?) && !s.writer.Stored?
    case CallRead(r, len) => IsFollower(s, r) && s.readers[r].stage.Out?
    case Top(r) => IsFollower(s, r) && s.readers[r].stage.Turning?
    case Deliver(r, n, err) =>
      && InStage(s, r) && s.readers[r].off < s.readers[r].stage.size
      && Answers(n, Want(s.readers[r].stage.len, s.readers[r].off, s.readers[r].stage.size), err)
    case End(r) => InStage(s, r) && s.readers[r].off >= s.readers[r].stage.size
                   && (s.readers[r].stage.aborted || s.readers[r].stage.closed)
    case Park(r) => InStage(s, r) && s.readers[r].off >= s.readers[r].stage.size
                    && !s.readers[r].stage.aborted && !s.readers[r].stage.closed
    case Wake(r) => && IsFollower(s, r) && s.readers[r].stage.Waiting?
                    && (s.readers[r].stage.channel != s.notify || s.readers[r].canceled)
    case CancelReader(r) => IsFollower(s, r)
    case ReadSection(r, len, n, err) =>
      && r in s.readers && s.readers[r].Section?
      && (s.readers[r].off < s.readers[r].size ==>
            Answers(n, Want(len, s.readers[r].off, s.readers[r].size), err) && s.readers[r].off + n <= |s.stored|)
  }

  // Every capture in flight lies within the stored bytes.
  predicate Captured(s: State) {
    forall r | r in s.readers && s.readers[r].Follower? && s.readers[r].stage.Saw? ::
      s.readers[r].stage.size <= |s.stored|
  }

  function Returns(rd: Reader, result: ReadResult): Reader
    requires rd.Follower?
  {
    rd.(off := rd.off + |result.bytes|, stage := Out, results := rd.results + [result])
  }

  function Next(s: State, step: Step): State
    requires Enabled(s, step)
    requires Captured(s)
  {
    match step
    case Store(p, n) => s.(stored := s.stored + p[..n], writer := if n > 0 then Stored(n) else Ready)
    case Advance => s.(size := s.size + s.writer.n, notify := s.notify + 1, writer := Ready)
    case BeginClose => s.(writer := Closing)
    case Finish => s.(closed := true, notify := s.notify + 1)
    case Fail => s.(aborted := true, notify := s.notify + 1)
    case Follow(r) => s.SetReader(r, Follower(0, false, Out, []))
    case OpenSection(r) => s.SetReader(r, Section(0, s.size, []))
    case CallRead(r, len) =>
      // An empty buffer reads nothing rather than block for room it does not have.
      s.SetReader(r, if len == 0 then Returns(s.readers[r], ReadResult([], None))
                     else s.readers[r].(stage := Turning(len)))
    case Top(r) =>
      s.SetReader(r, if s.readers[r].canceled then Returns(s.readers[r], ReadResult([], Some(CanceledRead)))
                     else s.readers[r].(stage := Saw(s.readers[r].stage.len, s.size, s.closed, s.aborted, s.notify)))
    case Deliver(r, n, err) =>
      var rd := s.readers[r];
      var want := Want(rd.stage.len, rd.off, rd.stage.size);
      s.SetReader(r, Returns(rd, ReadResult(s.stored[rd.off..rd.off + n], RegionError(n, want, err))))
    case End(r) =>
      s.SetReader(r, Returns(s.readers[r],
                             ReadResult([], Some(if s.readers[r].stage.aborted then AbortedLog else EndOfFile))))
    case Park(r) => s.SetReader(r, s.readers[r].(stage := Waiting(s.readers[r].stage.len, s.readers[r].stage.channel)))
    case Wake(r) =>
      s.SetReader(r, if s.readers[r].canceled then Returns(s.readers[r], ReadResult([], Some(CanceledRead)))
                     else s.readers[r].(stage := Turning(s.readers[r].stage.len)))
    case CancelReader(r) => s.SetReader(r, s.readers[r].(canceled := true))
    case ReadSection(r, len, n, err) =>
      var rd := s.readers[r];
      var result :=
        if rd.off >= rd.size then ReadResult([], Some(EndOfFile))
        else ReadResult(s.stored[rd.off..rd.off + n], RegionError(n, Want(len, rd.off, rd.size), err));
      s.SetReader(r, Section(rd.off + |result.bytes|, rd.size, rd.results + [result]))
  }

  predicate Init(s: State) {
    s.stored == [] && s.size == 0 && !s.closed && !s.aborted && s.writer.Ready? && s.readers == map[]
  }

  // A log recovered from disk: finished at birth, all of it published.
  predicate Sealed(s: State) {
    s.size == |s.stored| && s.closed && !s.aborted && s.writer.Ready? && s.readers == map[]
  }

  // -------------------------------------------------------------------------
  // What the reads so far add up to
  // -------------------------------------------------------------------------

  function Delivered(results: seq<ReadResult>): seq<Byte> {
    if results == [] then [] else Delivered(results[..|results| - 1]) + results[|results| - 1].bytes
  }

  predicate Reported(results: seq<ReadResult>, err: ReadError) {
    exists i :: 0 <= i < |results| && results[i].err == Some(err)
  }

  lemma DeliveredSnoc(results: seq<ReadResult>, r: ReadResult)
    ensures Delivered(results + [r]) == Delivered(results) + r.bytes
    ensures forall e :: Reported(results + [r], e) <==> Reported(results, e) || r.err == Some(e)
  {
    assert (results + [r])[..|results|] == results;
    forall e
      ensures Reported(results + [r], e) <==> Reported(results, e) || r.err == Some(e)
    {
      assert (results + [r])[|results|] == r;
      if Reported(results, e) {
        var i :| 0 <= i < |results| && results[i].err == Some(e);
        assert (results + [r])[i].err == Some(e);
      }
    }
  }

  // -------------------------------------------------------------------------
  // The invariant
  // -------------------------------------------------------------------------

  // Published bytes exist; once a terminal has run, or the owner is done, the size is final.
  predicate LogWell(s: State) {
    && s.size <= |s.stored|
    && (s.writer.Stored? ==> s.size + s.writer.n == |s.stored| && s.writer.n > 0 && !s.Terminated())
    && (!s.writer.Stored? ==> s.size == |s.stored|)
  }

  // What a reader captured is still true of the log, as far as it promised.
  predicate SawWell(s: State, st: Stage)
    requires st.Saw?
  {
    && st.size <= s.size && st.channel <= s.notify && st.len > 0
    && (st.closed ==> s.closed) && (st.aborted ==> s.aborted)
    && (st.closed || st.aborted ==> st.size == s.size)
    && (st.channel == s.notify ==> st.size == s.size && st.closed == s.closed && st.aborted == s.aborted)
  }

  // A parked reader on a channel still open is caught up with a log that has not ended.
  predicate WaitingWell(s: State, off: nat, st: Stage)
    requires st.Waiting?
  {
    && st.len > 0 && st.channel <= s.notify
    && (st.channel == s.notify ==> off == s.size && !s.closed && !s.aborted)
  }

  predicate ReaderWell(s: State, rd: Reader)
    requires s.size <= |s.stored|
  {
    && rd.off <= s.size && Delivered(rd.results) == s.stored[..rd.off]
    && (Reported(rd.results, EndOfFile) ==> rd.off == s.size)
    && match rd
       case Follower(off, _, stage, results) =>
         && (Reported(results, EndOfFile) ==> s.closed)
         && (Reported(results, AbortedLog) ==> s.aborted && off == s.size)
         && (stage.Turning? ==> stage.len > 0)
         && (stage.Saw? ==> SawWell(s, stage) && off <= stage.size)
         && (stage.Waiting? ==> WaitingWell(s, off, stage))
       case Section(off, size, results) =>
         && size == s.size && (s.Terminated() || s.writer.Closing?)
         && !Reported(results, AbortedLog) && !Reported(results, CanceledRead)
  }

  predicate LogInv(s: State) {
    LogWell(s) && forall r | r in s.readers :: ReaderWell(s, s.readers[r])
  }

  lemma WriterKeepsReader(s: State, step: Step, rd: Reader)
    requires LogWell(s) && Enabled(s, step) && ReaderWell(s, rd)
    requires Captured(s)
    requires step.Store? || step.Advance? || step.BeginClose? || step.Finish? || step.Fail?
    ensures LogWell(Next(s, step)) && ReaderWell(Next(s, step), rd)
  {
    assert Next(s, step).stored[..rd.off] == s.stored[..rd.off];
  }

  // A read that returned keeps the reader's account of the log.
  lemma ReturnKeepsAccount(s: State, off: nat, results: seq<ReadResult>, n: nat, err: Option<ReadError>)
    requires off + n <= s.size <= |s.stored| && Delivered(results) == s.stored[..off]
    ensures var r := ReadResult(s.stored[off..off + n], err);
            && |r.bytes| == n && Delivered(results + [r]) == s.stored[..off + n]
            && forall e :: Reported(results + [r], e) <==> Reported(results, e) || err == Some(e)
  {
    DeliveredSnoc(results, ReadResult(s.stored[off..off + n], err));
    assert s.stored[..off] + s.stored[off..off + n] == s.stored[..off + n];
  }

  // The captures a turn makes exist in the backing.
  lemma CapturesExist(s: State)
    requires LogInv(s)
    ensures Captured(s)
  {
    forall r | r in s.readers && s.readers[r].Follower? && s.readers[r].stage.Saw?
      ensures s.readers[r].stage.size <= |s.stored|
    {
      assert ReaderWell(s, s.readers[r]);
    }
  }

  lemma CallKeepsReader(s: State, r: nat, len: nat)
    requires LogInv(s) && Enabled(s, CallRead(r, len))
    ensures ReaderWell(s, if len == 0 then Returns(s.readers[r], ReadResult([], None))
                          else s.readers[r].(stage := Turning(len)))
  {
    var rd := s.readers[r];
    assert ReaderWell(s, rd);
    ReturnKeepsAccount(s, rd.off, rd.results, 0, None);
  }

  lemma TopKeepsReader(s: State, r: nat)
    requires LogInv(s) && Enabled(s, Top(r))
    ensures var rd := s.readers[r];
            ReaderWell(s, if rd.canceled then Returns(rd, ReadResult([], Some(CanceledRead)))
                          else rd.(stage := Saw(rd.stage.len, s.size, s.closed, s.aborted, s.notify)))
  {
    var rd := s.readers[r];
    assert ReaderWell(s, rd);
    ReturnKeepsAccount(s, rd.off, rd.results, 0, Some(CanceledRead));
  }

  // Bytes are delivered from the published range; a backing that ends inside it never ends the stream cleanly.
  lemma DeliverKeepsReader(s: State, r: nat, n: nat, err: Option<ReadError>)
    requires LogInv(s) && Enabled(s, Deliver(r, n, err))
    ensures var rd := s.readers[r];
            && rd.off + n <= |s.stored|
            && ReaderWell(s, Returns(rd, ReadResult(s.stored[rd.off..rd.off + n],
                                                    RegionError(n, Want(rd.stage.len, rd.off, rd.stage.size), err))))
  {
    var rd := s.readers[r];
    assert ReaderWell(s, rd);
    ReturnKeepsAccount(s, rd.off, rd.results, n, RegionError(n, Want(rd.stage.len, rd.off, rd.stage.size), err));
  }

  lemma EndKeepsReader(s: State, r: nat)
    requires LogInv(s) && Enabled(s, End(r))
    ensures ReaderWell(s, Returns(s.readers[r],
                                  ReadResult([], Some(if s.readers[r].stage.aborted then AbortedLog else EndOfFile))))
  {
    var rd := s.readers[r];
    assert ReaderWell(s, rd);
    ReturnKeepsAccount(s, rd.off, rd.results, 0, Some(if rd.stage.aborted then AbortedLog else EndOfFile));
  }

  lemma WakeKeepsReader(s: State, r: nat)
    requires LogInv(s) && Enabled(s, Wake(r))
    ensures var rd := s.readers[r];
            ReaderWell(s, if rd.canceled then Returns(rd, ReadResult([], Some(CanceledRead)))
                          else rd.(stage := Turning(rd.stage.len)))
  {
    var rd := s.readers[r];
    assert ReaderWell(s, rd);
    ReturnKeepsAccount(s, rd.off, rd.results, 0, Some(CanceledRead));
  }

  lemma SectionKeepsReader(s: State, r: nat, len: nat, n: nat, err: Option<ReadError>)
    requires LogInv(s) && Enabled(s, ReadSection(r, len, n, err))
    ensures var rd := s.readers[r];
            var result :=
              if rd.off >= rd.size then ReadResult([], Some(EndOfFile))
              else ReadResult(s.stored[rd.off..rd.off + n], RegionError(n, Want(len, rd.off, rd.size), err));
            ReaderWell(s, Section(rd.off + |result.bytes|, rd.size, rd.results + [result]))
  {
    var rd := s.readers[r];
    assert ReaderWell(s, rd);
    if rd.off >= rd.size {
      ReturnKeepsAccount(s, rd.off, rd.results, 0, Some(EndOfFile));
    } else {
      ReturnKeepsAccount(s, rd.off, rd.results, n, RegionError(n, Want(len, rd.off, rd.size), err));
    }
  }

  // A new account of one reader, in a log that did not change.
  lemma SetKeepsInv(s: State, r: nat, rd: Reader)
    requires LogInv(s) && ReaderWell(s, rd)
    ensures LogInv(s.SetReader(r, rd))
  {
    var t := s.SetReader(r, rd);
    forall q | q in t.readers
      ensures ReaderWell(t, t.readers[q])
    {
      if q != r {
        assert ReaderWell(s, s.readers[q]);
        SameLog(s, t, s.readers[q]);
      } else {
        SameLog(s, t, rd);
      }
    }
  }

  lemma SameLog(s: State, t: State, rd: Reader)
    requires s.size <= |s.stored| && ReaderWell(s, rd) && t == s.(readers := t.readers)
    ensures ReaderWell(t, rd)
  {
  }

  lemma WriterKeepsInv(s: State, step: Step)
    requires LogInv(s) && Enabled(s, step)
    requires step.Store? || step.Advance? || step.BeginClose? || step.Finish? || step.Fail?
    requires Captured(s)
    ensures LogInv(Next(s, step))
  {
    forall r | r in s.readers
      ensures ReaderWell(Next(s, step), s.readers[r])
    {
      WriterKeepsReader(s, step, s.readers[r]);
    }
  }

  lemma FreshKeepsReader(s: State, rd: Reader)
    requires LogInv(s) && rd.off == 0 && rd.results == []
    requires rd.Follower? ==> rd.stage == Out
    requires rd.Section? ==> rd.size == s.size && (s.Terminated() || s.writer.Closing?)
    ensures ReaderWell(s, rd)
  {
  }

  lemma NextKeepsInv(s: State, step: Step)
    requires LogInv(s) && Enabled(s, step)
    requires Captured(s)
    ensures LogInv(Next(s, step))
  {
    hide LogInv, ReaderWell, LogWell, Delivered, Reported, RegionError;
    match step
    case Store(_, _) => WriterKeepsInv(s, step);
    case Advance => WriterKeepsInv(s, step);
    case BeginClose => WriterKeepsInv(s, step);
    case Finish => WriterKeepsInv(s, step);
    case Fail => WriterKeepsInv(s, step);
    case Follow(r) => FreshKeepsReader(s, Follower(0, false, Out, [])); SetKeepsInv(s, r, Follower(0, false, Out, []));
    case OpenSection(r) => FreshKeepsReader(s, Section(0, s.size, [])); SetKeepsInv(s, r, Section(0, s.size, []));
    case CallRead(r, len) => CallKeepsReader(s, r, len); SetKeepsInv(s, r, Next(s, step).readers[r]);
    case Top(r) => TopKeepsReader(s, r); SetKeepsInv(s, r, Next(s, step).readers[r]);
    case Deliver(r, n, err) => DeliverKeepsReader(s, r, n, err); SetKeepsInv(s, r, Next(s, step).readers[r]);
    case End(r) => EndKeepsReader(s, r); SetKeepsInv(s, r, Next(s, step).readers[r]);
    case Park(r) => ParkKeepsReader(s, r); SetKeepsInv(s, r, Next(s, step).readers[r]);
    case Wake(r) => WakeKeepsReader(s, r); SetKeepsInv(s, r, Next(s, step).readers[r]);
    case CancelReader(r) => CancelKeepsReader(s, r); SetKeepsInv(s, r, Next(s, step).readers[r]);
    case ReadSection(r, len, n, err) =>
      SectionKeepsReader(s, r, len, n, err); SetKeepsInv(s, r, Next(s, step).readers[r]);
  }

  lemma ParkKeepsReader(s: State, r: nat)
    requires LogInv(s) && Enabled(s, Park(r))
    ensures ReaderWell(s, s.readers[r].(stage := Waiting(s.readers[r].stage.len, s.readers[r].stage.channel)))
  {
    assert ReaderWell(s, s.readers[r]);
  }

  lemma CancelKeepsReader(s: State, r: nat)
    requires LogInv(s) && Enabled(s, CancelReader(r))
    ensures ReaderWell(s, s.readers[r].(canceled := true))
  {
    assert ReaderWell(s, s.readers[r]);
  }

  // -------------------------------------------------------------------------
  // Runs
  // -------------------------------------------------------------------------

  ghost predicate Run(s: State, steps: seq<Step>, t: State)
    decreases |steps|
  {
    if steps == [] then t == s
    else Enabled(s, steps[0]) && Captured(s) && Run(Next(s, steps[0]), steps[1..], t)
  }

  ghost predicate Reachable(t: State) { exists s, steps :: (Init(s) || Sealed(s)) && Run(s, steps, t) }

  lemma {:induction false} RunKeepsInv(s: State, steps: seq<Step>, t: State)
    requires LogInv(s) && Run(s, steps, t)
    ensures LogInv(t)
    decreases |steps|
  {
    hide LogInv, Enabled, Next, Captured;
    if steps != [] {
      NextKeepsInv(s, steps[0]);
      RunKeepsInv(Next(s, steps[0]), steps[1..], t);
    }
  }

  lemma ReachableInv(t: State)
    requires Reachable(t)
    ensures LogInv(t) && Captured(t)
  {
    var s, steps :| (Init(s) || Sealed(s)) && Run(s, steps, t);
    RunKeepsInv(s, steps, t);
    CapturesExist(t);
  }

  // -------------------------------------------------------------------------
  // What readers may rely on
  // -------------------------------------------------------------------------

  // Whatever a reader has been given is a prefix of the log.
  lemma DeliveredIsAPrefix(s: State, r: nat)
    requires Reachable(s) && r in s.readers
    ensures s.size <= |s.stored| && s.readers[r].off <= s.size
    ensures Delivered(s.readers[r].results) == s.Published()[..s.readers[r].off]
    ensures Delivered(s.readers[r].results) <= s.Published()
  {
    ReachableInv(s);
    assert ReaderWell(s, s.readers[r]);
    assert s.stored[..s.size][..s.readers[r].off] == s.stored[..s.readers[r].off];
  }

  // A clean end comes only after every byte, and only from a log that finished; a section needs no flag, because its
  // log was complete when it was opened.
  lemma CleanEndMeansComplete(s: State, r: nat)
    requires Reachable(s) && r in s.readers && Reported(s.readers[r].results, EndOfFile)
    ensures s.size <= |s.stored| && Delivered(s.readers[r].results) == s.Published()
    ensures s.readers[r].Follower? ==> s.closed
    ensures s.Terminated() || s.writer.Closing?
  {
    ReachableInv(s);
    assert ReaderWell(s, s.readers[r]);
  }

  // A torn log that was never also finished ends no follower cleanly; one that reads to its end is told it is torn.
  lemma TornNeverEndsCleanly(s: State, r: nat)
    requires Reachable(s) && IsFollower(s, r) && s.aborted && !s.closed
    ensures !Reported(s.readers[r].results, EndOfFile)
    ensures Enabled(s, End(r)) ==> Enabled(s, End(r)) && Captured(s) && Reported(Next(s, End(r)).readers[r].results, AbortedLog)
  {
    ReachableInv(s);
    var rd := s.readers[r];
    assert ReaderWell(s, rd);
    if Enabled(s, End(r)) {
      DeliveredSnoc(rd.results, ReadResult([], Some(AbortedLog)));
    }
  }

  // Even a log both finished and torn reads as torn, once the tear is seen.
  lemma TornWinsOverFinished(s: State, r: nat)
    requires Enabled(s, End(r)) && Captured(s) && s.readers[r].stage.aborted
    ensures Reported(Next(s, End(r)).readers[r].results, AbortedLog)
    ensures !Reported(s.readers[r].results, EndOfFile) ==> !Reported(Next(s, End(r)).readers[r].results, EndOfFile)
  {
    DeliveredSnoc(s.readers[r].results, ReadResult([], Some(AbortedLog)));
  }

  // A backing that ends inside the published range tears the read: it never reports a clean end.
  lemma TruncationTears(s: State, r: nat, n: nat)
    requires Captured(s) && Enabled(s, Deliver(r, n, Some(EndOfFile)))
    ensures var rd := s.readers[r];
            var last := ReadResult(s.stored[rd.off..rd.off + n], RegionError(n, Want(rd.stage.len, rd.off, rd.stage.size), Some(EndOfFile)));
            && Next(s, Deliver(r, n, Some(EndOfFile))).readers[r].results == rd.results + [last]
            && last.err == (if n < Want(rd.stage.len, rd.off, rd.stage.size) then Some(UnexpectedEnd) else None)
  {
  }

  // No wakeup is lost: a reader parked on the open channel has everything, and there is no end to tell it.
  lemma ParkedIsCaughtUp(s: State, r: nat)
    requires Reachable(s) && IsFollower(s, r) && s.readers[r].stage.Waiting?
    ensures s.readers[r].stage.channel == s.notify ==> s.readers[r].off == s.size && !s.Terminated()
    ensures s.readers[r].off < s.size || s.Terminated() ==> Enabled(s, Wake(r))
  {
    ReachableInv(s);
    assert ReaderWell(s, s.readers[r]);
  }

  // -------------------------------------------------------------------------
  // What one read comes to
  // -------------------------------------------------------------------------

  // How an undisturbed read of a follower ends: with what is published past its offset, or with how the log ended.
  function LastStep(s: State, r: nat, len: nat): Step
    requires IsFollower(s, r)
  {
    var off := s.readers[r].off;
    if off < s.size then Deliver(r, if len < s.size - off then len else s.size - off, None)
    else if s.Terminated() then End(r)
    else Park(r)
  }

  lemma ReadRuns(s: State, r: nat, len: nat, t: State)
    requires LogInv(s) && IsFollower(s, r) && s.readers[r].stage.Out? && !s.readers[r].canceled && len > 0
    requires t == s.SetReader(r, s.readers[r].(stage := Saw(len, s.size, s.closed, s.aborted, s.notify)))
    ensures Captured(t) && Enabled(t, LastStep(s, r, len))
    ensures Run(s, [CallRead(r, len), Top(r), LastStep(s, r, len)], Next(t, LastStep(s, r, len)))
  {
    hide ReaderWell;
    CapturesExist(s);
    var a := Next(s, CallRead(r, len));
    var last := LastStep(s, r, len);
    assert t == Next(a, Top(r));
    assert Run(Next(t, last), [], Next(t, last));
    assert [CallRead(r, len), Top(r), last][1..] == [Top(r), last] && [Top(r), last][1..] == [last] && [last][1..] == [];
    assert Run(t, [last], Next(t, last));
    assert Run(a, [Top(r), last], Next(t, last));
  }

  // A follower's read, undisturbed and over a backing that answers, returns the next bytes published, as many as it asked for or
  // there are; at the end of a log it returns the tear, or failing that the clean end; and otherwise it waits on the channel
  // that is open, which the very next thing published, or the end, replaces.
  lemma FollowerReadsWhatThereIs(s: State, r: nat, len: nat) returns (t: State)
    requires LogInv(s) && IsFollower(s, r) && s.readers[r].stage.Out? && !s.readers[r].canceled && len > 0
    ensures Run(s, [CallRead(r, len), Top(r), LastStep(s, r, len)], t)
    ensures r in t.readers && t == s.SetReader(r, t.readers[r])
    ensures IsFollower(t, r)
    ensures var off, past, results := s.readers[r].off, t.readers[r].off, s.readers[r].results;
            if off < s.size then
              && off < past <= s.size <= |s.stored| && past <= off + len && (past == off + len || past == s.size)
              && t.readers[r] == Follower(past, false, Out, results + [ReadResult(s.stored[off..past], None)])
            else if s.aborted then t.readers[r] == Follower(off, false, Out, results + [ReadResult([], Some(AbortedLog))])
            else if s.closed then t.readers[r] == Follower(off, false, Out, results + [ReadResult([], Some(EndOfFile))])
            else t.readers[r] == Follower(off, false, Waiting(len, s.notify), results)
    ensures forall m: State | IsFollower(m, r) && m.readers[r] == t.readers[r] && m.notify > s.notify && t.readers[r].stage.Waiting? ::
              Enabled(m, Wake(r))
  {
    hide ReaderWell, Run;
    CapturesExist(s);
    var seen := s.SetReader(r, s.readers[r].(stage := Saw(len, s.size, s.closed, s.aborted, s.notify)));
    ReadRuns(s, r, len, seen);
    t := Next(seen, LastStep(s, r, len));
  }

  // A reader may follow the log at any time, from its first byte; and take a section of it, all of it, once it has ended.
  lemma ReadersMayAttach(s: State, r: nat)
    requires LogInv(s) && r !in s.readers
    ensures Captured(s) && Enabled(s, Follow(r)) && Next(s, Follow(r)).readers[r] == Follower(0, false, Out, [])
    ensures s.Terminated() && !s.writer.Stored? ==>
              Enabled(s, OpenSection(r)) && Next(s, OpenSection(r)).readers[r] == Section(0, |s.stored|, [])
  {
    hide ReaderWell;
    CapturesExist(s);
  }

  // A section's read, over a backing that answers, returns the next bytes of its range, as many as it asked for or there are, and
  // past its end the clean end.
  lemma SectionReadsWhatThereIs(s: State, r: nat, len: nat)
    requires LogInv(s) && r in s.readers && s.readers[r].Section?
    ensures s.readers[r].off <= s.readers[r].size <= |s.stored|
    ensures var rd := s.readers[r];
            var n := if len < rd.size - rd.off then len else rd.size - rd.off;
            && Captured(s) && Enabled(s, ReadSection(r, len, n, None))
            && Next(s, ReadSection(r, len, n, None)).readers[r]
                 == Section(rd.off + n, rd.size, rd.results + [ReadResult(s.stored[rd.off..rd.off + n],
                                                                         if rd.off == rd.size then Some(EndOfFile) else None)])
  {
    CapturesExist(s);
    var rd := s.readers[r];
    assert ReaderWell(s, rd);
    assert s.stored[rd.off..rd.off] == [];
  }
}
