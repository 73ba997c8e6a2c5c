// The byte log's own objects: the backing, the buffer over it, and the two readers. Each call is proved to be the
// steps of ByteLog it stands for.
module Buffers {
  import opened Common
  import opened ByteLog

  datatype WriteError = AfterTerminal | ShortWrite

  // The bytes a backing holds. A file and a memory slice answer reads alike; a file may also be found shorter than
  // what was once stored in it.
  class Backing {
    var data: seq<Byte>

    constructor ()
      ensures data == []
    {
      data := [];
    }

    // Stores as much of `p` as the medium `takes`: all of it in memory, perhaps less on a disk.
    method Append(p: array<Byte>, takes: nat) returns (n: nat, short: bool)
      requires takes <= p.Length
      modifies this
      ensures data == old(data) + p[..takes] && n == takes && (short <==> n < p.Length)
    {
      data := data + p[..takes];
      n, short := takes, takes < p.Length;
    }

    // Copies bytes at `off` into the first `want` places of `p`: as many as there are, and the end of the file if
    // those are too few.
    method ReadAt(p: array<Byte>, want: nat, off: int) returns (n: nat, err: Option<ReadError>)
      requires want <= p.Length
      modifies p
      ensures off < 0 ==> n == 0 && err == Some(BadOffset)
      ensures off >= 0 ==> n == (if off >= |data| then 0 else Min(want, |data| - off))
      ensures off >= 0 ==> err == (if off >= |data| || n < want then Some(EndOfFile) else None)
      ensures n > 0 ==> p[..n] == data[off..off + n]
      ensures p[n..] == old(p[n..])
    {
      if off < 0 {
        return 0, Some(BadOffset);
      }
      if off >= |data| {
        return 0, Some(EndOfFile);
      }
      n := Min(want, |data| - off);
      var i := 0;
      while i < n
        invariant 0 <= i <= n
        invariant p[..i] == data[off..off + i]
        invariant p[n..] == old(p[n..])
      {
        p[i] := data[off + i];
        i := i + 1;
      }
      err := if n < want then Some(EndOfFile) else None;
    }
  }

  // Reads within [off, bound), a range the caller knows is stored. A clean end of file never comes out of it: a
  // backing that has the range fills the read, and one that lost part of it tears the read.
  method ReadRegion(h: Backing, p: array<Byte>, off: nat, bound: nat) returns (n: nat, err: Option<ReadError>)
    requires off < bound
    modifies p
    ensures n <= Min(p.Length, bound - off) && off + n <= off + p.Length
    ensures n > 0 ==> off + n <= |h.data| && p[..n] == h.data[off..off + n]
    ensures err in {None, Some(UnexpectedEnd)}
    ensures err.None? <==> n == Min(p.Length, bound - off)
    ensures bound <= |h.data| ==> err.None?
    ensures err.Some? ==> |h.data| < bound
  {
    var want := Min(p.Length, bound - off);
    n, err := h.ReadAt(p, want, off);
    if err == Some(EndOfFile) {
      if n == want {
        err := None;
      } else {
        err := Some(UnexpectedEnd);
      }
    }
  }

  class Buffer {
    var size: nat
    var closed: bool
    var aborted: bool
    var notify: nat
    const back: Backing

    // Between the writer's calls everything stored is published.
    ghost predicate Valid()
      reads this, back
    {
      size == |back.data|
    }

    // This buffer as a state of the log, between the writer's calls.
    ghost function Log(): ByteLog.State
      reads this, back
    {
      ByteLog.State(back.data, size, closed, aborted, notify, Ready, map[])
    }

    constructor (b: Backing)
      requires b.data == []
      ensures Valid() && back == b && ByteLog.Init(Log()) && size == 0
    {
      size, closed, aborted, notify := 0, false, false, 0;
      back := b;
    }

    // A log recovered from disk, finished at birth.
    constructor Recovered(b: Backing)
      ensures Valid() && back == b && ByteLog.Sealed(Log()) && size == |b.data|
    {
      size, closed, aborted, notify := |b.data|, true, false, 0;
      back := b;
    }

    // Closing the channel wakes every waiter at once; a fresh one arms the next wait.
    method Wake()
      modifies this`notify
      ensures notify == old(notify) + 1
    {
      notify := notify + 1;
    }

    method Advance(n: nat)
      modifies this`size, this`notify
      ensures size == old(size) + n && notify == old(notify) + 1
    {
      size := size + n;
      Wake();
    }

    method Terminated() returns (r: bool)
      ensures r == (closed || aborted)
    {
      r := closed || aborted;
    }

    // Stores, then publishes exactly what was stored, short or not; refuses after a terminal, before the backing is touched.
    method Append(p: array<Byte>, takes: nat) returns (n: nat, err: Option<WriteError>)
      requires Valid() && takes <= p.Length
      modifies this`size, this`notify, back
      ensures Valid()
      ensures err == Some(AfterTerminal) <==> closed || aborted
      ensures err == Some(AfterTerminal) ==> n == 0 && Log() == old(Log())
      ensures err != Some(AfterTerminal) ==> n == takes && (err.None? <==> n == p.Length)
      ensures err != Some(AfterTerminal) && n == 0 ==> Log() == old(Log())
      ensures err != Some(AfterTerminal) && n > 0 ==>
                && Enabled(old(Log()), Store(old(p[..]), n))
                && Log() == Next(Next(old(Log()), Store(old(p[..]), n)), ByteLog.Step.Advance)
    {
      var t := Terminated();
      if t {
        return 0, Some(AfterTerminal);
      }
      var short;
      n, short := back.Append(p, takes);
      assert old(p[..])[..n] == old(p[..n]);
      if n > 0 {
        Advance(n);
      } else {
        assert back.data == old(back.data);
      }
      err := if short then Some(ShortWrite) else None;
    }

    method Finish()
      requires Valid()
      modifies this`closed, this`notify
      ensures Valid() && Log() == Next(old(Log()), ByteLog.Step.Finish)
    {
      closed := true;
      Wake();
    }

    method Fail()
      requires Valid()
      modifies this`aborted, this`notify
      ensures Valid() && Log() == Next(old(Log()), ByteLog.Step.Fail)
    {
      aborted := true;
      Wake();
    }
  }

  // What one turn of a follower's loop sees of a world that moves between turns: the cancel check at its top, the
  // state it captures under the lock, and, should it park, whether the wait ends by a cancel.
  datatype Sight = Sight(canceledAtTop: bool, size: nat, closed: bool, aborted: bool, canceledWaiting: bool)

  // The turn finds nothing to say and parks until the channel is replaced.
  predicate Parks(s: Sight, off: nat) {
    !s.canceledAtTop && off >= s.size && !s.aborted && !s.closed && !s.canceledWaiting
  }

  // How a turn that does not park ends, when it has no bytes to give.
  function Ending(s: Sight, off: nat): Option<ReadError> {
    if s.canceledAtTop then Some(CanceledRead)
    else if off < s.size then None
    else if s.aborted then Some(AbortedLog)
    else if s.closed then Some(EndOfFile)
    else if s.canceledWaiting then Some(CanceledRead)
    else None
  }

  // The sight of a turn of reader `r` that captured in `top` and, if it parked, was woken in `wake`.
  function SightOf(top: ByteLog.State, wake: ByteLog.State, r: nat): Sight
    requires IsFollower(top, r) && IsFollower(wake, r)
  {
    Sight(top.readers[r].canceled, top.size, top.closed, top.aborted, wake.readers[r].canceled)
  }

  // Reader `r`, in `seen`, is where its capture in `top` left it, whatever the writer and the other readers did since.
  predicate Captures(top: ByteLog.State, seen: ByteLog.State, r: nat)
    requires IsFollower(top, r) && top.readers[r].stage.Turning?
  {
    && IsFollower(seen, r) && seen.readers[r].off == top.readers[r].off && seen.readers[r].results == top.readers[r].results
    && seen.readers[r].stage == Saw(top.readers[r].stage.len, top.size, top.closed, top.aborted, top.notify)
  }

  // Each turn of a follower's loop is the log's own steps for that reader, in any run: a turn that captured in `top` acts,
  // in some later `seen`, as its sight says, and one that parks is sent, in some later `wake`, back to its top or away.
  lemma TurnIsTheLogs(top: ByteLog.State, seen: ByteLog.State, wake: ByteLog.State, r: nat)
    requires Reachable(top) && IsFollower(top, r) && top.readers[r].stage.Turning? && Captured(top)
    requires IsFollower(seen, r) && IsFollower(wake, r) && Captured(seen) && Captured(wake)
    ensures var rd := top.readers[r];
            var sight := SightOf(top, wake, r);
            && rd.off <= sight.size && Enabled(top, Top(r))
            && (if sight.canceledAtTop then
                  Next(top, Top(r)).readers[r] == Returns(rd, ReadResult([], Ending(sight, rd.off)))
                else Captures(top, Next(top, Top(r)), r))
            && (Captures(top, seen, r) && !sight.canceledAtTop ==>
                  && (Enabled(seen, Park(r)) <==> Parks(sight.(canceledWaiting := false), rd.off))
                  && (Enabled(seen, End(r)) <==>
                        rd.off >= sight.size && Ending(sight.(canceledWaiting := false), rd.off).Some?)
                  && (Enabled(seen, End(r)) ==>
                        Next(seen, End(r)).readers[r] == Returns(seen.readers[r], ReadResult([], Ending(sight, rd.off))))
                  && (forall n, err :: Enabled(seen, Deliver(r, n, err)) <==>
                        rd.off < sight.size && Answers(n, Want(rd.stage.len, rd.off, sight.size), err)))
            && (Enabled(wake, Wake(r)) && wake.readers[r].off == rd.off && Parks(sight.(canceledWaiting := false), rd.off) ==>
                  if Parks(sight, rd.off) then Next(wake, Wake(r)).readers[r].stage.Turning?
                  else Next(wake, Wake(r)).readers[r] == Returns(wake.readers[r], ReadResult([], Ending(sight, rd.off))))
  {
    hide Reachable, LogInv;
    ReachableInv(top);
    ReaderIsWell(top, r);
  }

  lemma ReaderIsWell(s: ByteLog.State, r: nat)
    requires LogInv(s) && r in s.readers
    ensures s.readers[r].off <= s.size
  {
    assert ReaderWell(s, s.readers[r]);
  }

  class FollowerReader {
    var off: nat
    const h: Backing

    constructor (b: Backing)
      ensures off == 0 && h == b
    {
      off := 0;
      h := b;
    }

    // The blocking loop. It parks through every turn that has nothing to say, and the first that has decides: bytes
    // of the range that turn saw published, or its ending. `turn` counts the parks; the wait may outlast the sights.
    method Read(p: array<Byte>, sights: seq<Sight>) returns (n: nat, err: Option<ReadError>, turn: nat)
      requires forall i | 0 <= i < |sights| :: off <= sights[i].size
      modifies this`off, p
      ensures off == old(off) + n
      ensures p.Length == 0 ==> n == 0 && err.None? && turn == 0
      ensures turn <= |sights| && forall i | 0 <= i < turn :: Parks(sights[i], old(off))
      ensures p.Length > 0 && turn == |sights| ==> n == 0 && err.None?
      ensures p.Length > 0 && turn < |sights| ==>
                && var s := sights[turn];
                   if Ending(s, old(off)).Some? then n == 0 && err == Ending(s, old(off))
                   else old(off) < s.size && n <= Min(p.Length, s.size - old(off))
                        && (err.None? <==> n == Min(p.Length, s.size - old(off)))
                        && (s.size <= |h.data| ==> err.None?)
                        && err in {None, Some(UnexpectedEnd)}
      ensures n > 0 ==> off <= |h.data| && p[..n] == h.data[old(off)..off]
    {
      n, err, turn := 0, None, 0;
      if p.Length == 0 {
        return;
      }
      while turn < |sights|
        invariant turn <= |sights| && off == old(off) && n == 0 && err.None?
        invariant forall i | 0 <= i < turn :: Parks(sights[i], off)
      {
        var s := sights[turn];
        if s.canceledAtTop {
          return 0, Some(CanceledRead), turn;
        }
        if off < s.size {
          n, err := ReadRegion(h, p, off, s.size);
          off := off + n;
          return;
        } else if s.aborted {
          return 0, Some(AbortedLog), turn;
        } else if s.closed {
          return 0, Some(EndOfFile), turn;
        } else if s.canceledWaiting {
          return 0, Some(CanceledRead), turn;
        }
        turn := turn + 1;
      }
    }
  }

  class SectionReader {
    var off: nat
    const h: Backing
    const size: nat

    constructor (b: Buffer)
      ensures off == 0 && h == b.back && size == b.size
    {
      off := 0;
      h := b.back;
      size := b.size;
    }

    // At the captured size the log's own clean end; below it, bytes, or a tear if the file no longer has them.
    method Read(p: array<Byte>) returns (n: nat, err: Option<ReadError>)
      modifies this`off, p
      ensures off == old(off) + n
      ensures n <= p.Length
      ensures err == Some(EndOfFile) <==> old(off) >= size
      ensures old(off) >= size ==> n == 0
      ensures old(off) < size ==>
                && n <= Min(p.Length, size - old(off)) && (err.None? <==> n == Min(p.Length, size - old(off)))
                && (size <= |h.data| ==> err.None?) && err in {None, Some(UnexpectedEnd)}
      ensures n > 0 ==> off <= |h.data| && p[..n] == h.data[old(off)..off]
    {
      if off >= size {
        return 0, Some(EndOfFile);
      }
      n, err := ReadRegion(h, p, off, size);
      off := off + n;
    }
  }

  // Reading a section to its end, as a copy does: everything the log held, or a tear.
  method CopySection(r: SectionReader, p: array<Byte>) returns (out: seq<Byte>, err: Option<ReadError>)
    requires r.off == 0 && p.Length > 0
    modifies r`off, p
    ensures err in {None, Some(UnexpectedEnd)}
    ensures err.None? ==> r.size <= |r.h.data| && out == r.h.data[..r.size]
    ensures r.size <= |r.h.data| ==> err.None?
    ensures |out| <= |r.h.data| && out == r.h.data[..|out|]
  {
    out := [];
    while true
      invariant r.off == |out| <= r.size && |out| <= |r.h.data| && out == r.h.data[..|out|]
      decreases r.size - r.off
    {
      ghost var before := r.off;
      var n, e := r.Read(p);
      out := out + p[..n];
      if e == Some(EndOfFile) {
        return out, None;
      }
      if e.Some? {
        return out, e;
      }
    }
  }
}
