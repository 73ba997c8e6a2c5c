// From the byte log to the client's copy: a read that ends cleanly at the client delivered a whole generation.
//
// The network between the two is an assumption, stated as Carried: it delivers a prefix of the body, and a trailer only
// after the whole chunked body of a handler that returned normally (sections 7.1 and 8 of RFC 9112 and section 6.5 of
// RFC 9110). An intermediary may still turn any prefix into a clean end of stream.
module Completion {
  import opened Common
  import opened ByteLog

  predicate Unbroken(results: seq<ReadResult>) { forall i | 0 <= i < |results| :: results[i].err.None? }

  // The last of these reads is the first to report anything, and what it reports is the clean end.
  predicate EndedCleanly(results: seq<ReadResult>) {
    |results| > 0 && Unbroken(results[..|results| - 1]) && results[|results| - 1].err == Some(EndOfFile)
  }

  lemma {:induction false} DeliveredOfPrefix(results: seq<ReadResult>, k: nat)
    requires k <= |results|
    ensures Delivered(results[..k]) <= Delivered(results)
    decreases |results|
  {
    if k < |results| {
      DeliveredOfPrefix(results[..|results| - 1], k);
      assert results[..|results| - 1][..k] == results[..k];
    } else {
      assert results[..k] == results;
    }
  }

  lemma DeliveredNext(results: seq<ReadResult>, k: nat)
    requires k < |results|
    ensures results[..k + 1][..k] == results[..k]
    ensures Delivered(results[..k + 1]) == Delivered(results[..k]) + results[k].bytes
  {
    assert results[..k + 1] == results[..k] + [results[k]];
    DeliveredSnoc(results[..k], results[k]);
  }

  // -------------------------------------------------------------------------
  // The server
  // -------------------------------------------------------------------------

  // What the server put on the wire: the length or the trailer it announced, the body it wrote, whether its handler
  // returned or aborted the connection, and whether the trailer says complete.
  datatype Response = Response(
    declared: Option<nat>, announced: bool, body: seq<Byte>, returned: bool, complete: bool)

  // What a handler may make of the reads it took from its source.
  ghost predicate Streamed(taken: seq<ReadResult>, finalized: bool, size: nat, resp: Response) {
    && resp.declared == (if finalized then Some(size) else None) && resp.announced == !finalized
    && resp.body <= Delivered(taken)
    && (resp.complete <==> resp.returned && !finalized)
    && (resp.returned ==> EndedCleanly(taken) && resp.body == Delivered(taken))
  }

  // The framing is chosen once; the body is copied until the source reports something; only a clean end lets the
  // handler return, and only a live stream seals it with the trailer. Every other ending aborts the connection. The
  // source would answer `source`, of which the handler takes the first `n`; the connection accepts `accepts` bytes
  // before a write to it fails.
  method Stream(source: seq<ReadResult>, finalized: bool, size: nat, flushes: bool, accepts: nat)
    returns (n: nat, resp: Response)
    ensures n <= |source| && Streamed(source[..n], finalized, size, resp)
    ensures !finalized && !flushes ==> !resp.returned && resp.body == []
    ensures (finalized || flushes) && accepts >= |Delivered(source)| && n > 0 && source[n - 1].err == Some(EndOfFile) ==>
              resp.returned
  {
    var declared: Option<nat>, announced := None, false;
    if finalized {
      declared := Some(size);
    } else {
      announced := true;
      if !flushes {
        return 0, Response(declared, announced, [], false, false);
      }
    }
    var body := [];
    n := 0;
    while n < |source|
      invariant n <= |source| && Unbroken(source[..n]) && body == Delivered(source[..n])
    {
      var r := source[n];
      DeliveredNext(source, n);
      DeliveredOfPrefix(source, n + 1);
      n := n + 1;
      if |body| + |r.bytes| > accepts {
        // A write that fails, wholly or short, ends the copy.
        var part := if accepts > |body| then r.bytes[..accepts - |body|] else [];
        assert body + part <= Delivered(source[..n]);
        return n, Response(declared, announced, body + part, false, false);
      }
      body := body + r.bytes;
      if r.err == Some(EndOfFile) {
        return n, Response(declared, announced, body, true, !finalized);
      }
      if r.err.Some? {
        return n, Response(declared, announced, body, false, false);
      }
    }
    return n, Response(declared, announced, body, false, false);
  }

  // -------------------------------------------------------------------------
  // The network
  // -------------------------------------------------------------------------

  // What reached the client: the length it was declared, the reads it made of the body, and what the trailer said at
  // the end of them.
  datatype Received = Received(declared: Option<nat>, results: seq<ReadResult>, trailer: bool)

  predicate Carried(resp: Response, rx: Received) {
    && rx.declared == resp.declared
    && Delivered(rx.results) <= resp.body
    && (rx.trailer ==> resp.returned && resp.complete && Delivered(rx.results) == resp.body)
  }

  // -------------------------------------------------------------------------
  // The client
  // -------------------------------------------------------------------------

  class Body {
    const declared: Option<nat>
    const trailer: bool
    var count: nat

    constructor (declared: Option<nat>, trailer: bool)
      ensures this.declared == declared && this.trailer == trailer && count == 0
    {
      this.declared := declared;
      this.trailer := trailer;
      count := 0;
    }

    // The one completion rule: the count reaching a declared length, or else the trailer.
    predicate Complete()
      reads this
    {
      if declared.Some? then count == declared.value else trailer
    }

    // Bytes pass straight through, tallied first; a clean end is believed only with its proof, and everything else
    // that ends the stream tears it.
    method Read(under: ReadResult) returns (r: ReadResult)
      modifies this`count
      ensures r.bytes == under.bytes && count == old(count) + |under.bytes|
      ensures r.err.None? <==> under.err.None?
      ensures r.err == Some(EndOfFile) <==> under.err == Some(EndOfFile) && Complete()
      ensures r.err in {None, Some(EndOfFile), Some(AbortedLog)}
    {
      count := count + |under.bytes|;
      if under.err.None? {
        return ReadResult(under.bytes, None);
      }
      if under.err == Some(EndOfFile) && Complete() {
        return ReadResult(under.bytes, Some(EndOfFile));
      }
      return ReadResult(under.bytes, Some(AbortedLog));
    }
  }

  // The client's copy wrote everything it read, and ended cleanly only on a clean end with its proof.
  predicate Copied(rx: Received, out: seq<Byte>, err: Option<ReadError>) {
    && out == Delivered(rx.results)
    && (err == Some(EndOfFile) <==>
          EndedCleanly(rx.results) && if rx.declared.Some? then |out| == rx.declared.value else rx.trailer)
    && (err.Some? <==> !Unbroken(rx.results))
  }

  // A transparent copy through the body. The network would answer `source`, of which the copy reads the first `n`.
  method Copy(declared: Option<nat>, source: seq<ReadResult>, trailer: bool)
    returns (n: nat, out: seq<Byte>, err: Option<ReadError>)
    ensures n <= |source| && Copied(Received(declared, source[..n], trailer), out, err)
    ensures err.None? ==> n == |source| && Unbroken(source)
  {
    var b := new Body(declared, trailer);
    out, n := [], 0;
    while n < |source|
      invariant n <= |source| && Unbroken(source[..n])
      invariant out == Delivered(source[..n]) && b.count == |out|
      invariant b.declared == declared && b.trailer == trailer
    {
      DeliveredNext(source, n);
      var r := b.Read(source[n]);
      out := out + r.bytes;
      n := n + 1;
      if r.err.Some? {
        return n, out, r.err;
      }
    }
    assert source[..n] == source;
    return n, out, None;
  }

  // -------------------------------------------------------------------------
  // End to end
  // -------------------------------------------------------------------------

  // No torn log, network failure, short transfer or aborted handler ever looks like the whole thing: if the client's
  // copy ended cleanly, the client holds every byte of the log. On the live arm that log had finished; on the finalized
  // arm it was complete when the reader opened it.
  lemma CleanCopyIsTheWholeLog(s: State, r: nat, resp: Response, rx: Received, out: seq<Byte>)
    requires Reachable(s) && r in s.readers
    requires Streamed(s.readers[r].results, s.readers[r].Section?, s.size, resp)
    requires Carried(resp, rx) && Copied(rx, out, Some(EndOfFile))
    ensures s.size <= |s.stored| && out == s.Published()
    ensures if s.readers[r].Follower? then s.closed else s.Terminated() || s.writer.Closing?
  {
    DeliveredIsAPrefix(s, r);
    if s.readers[r].Section? {
      SectionIsComplete(s, r);
    } else {
      assert Reported(s.readers[r].results, EndOfFile);
      CleanEndMeansComplete(s, r);
    }
  }

  lemma SectionIsComplete(s: State, r: nat)
    requires Reachable(s) && r in s.readers && s.readers[r].Section?
    ensures s.Terminated() || s.writer.Closing?
  {
    ReachableInv(s);
    assert ReaderWell(s, s.readers[r]);
  }

  // And nothing less than the whole is refused for the sake of it: a reader that reached the clean end of its log, over
  // a network that carried everything, is copied cleanly.
  lemma WholeTransferIsClean(results: seq<ReadResult>, finalized: bool, size: nat, resp: Response, rx: Received)
    requires EndedCleanly(results) && |Delivered(results)| == size
    requires Streamed(results, finalized, size, resp) && resp.returned
    requires rx == Received(resp.declared, results, resp.complete)
    ensures Carried(resp, rx) && Copied(rx, Delivered(results), Some(EndOfFile))
  {
  }
}
