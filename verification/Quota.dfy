// The store's counters, claimed by compare-and-swap against whatever the other writers did in between.
module Quota {
  import opened Common

  const MAX_INT64: int := 0x7FFF_FFFF_FFFF_FFFF

  // Two's-complement addition on 64 bits.
  function Wrap(x: int): int { (x + MAX_INT64 + 1) % (2 * (MAX_INT64 + 1)) - (MAX_INT64 + 1) }

  // What one claim does to a counter: refused, leaving it, or taken.
  function Claimed(cur: int, n: int, max: int): Option<int> {
    if max != 0 && Wrap(cur + n) > max then None else Some(Wrap(cur + n))
  }

  lemma WrapIsExact(x: int)
    ensures -MAX_INT64 - 1 <= x <= MAX_INT64 ==> Wrap(x) == x
  {
  }

  // The check in 64-bit arithmetic is the check on the true sum exactly while that sum fits: past the top of the range
  // the sum wraps to the bottom, and the claim is let through.
  lemma ClaimIsExactBelowTheTop(cur: int, n: int, max: int)
    requires 0 <= cur <= MAX_INT64 && 0 <= n <= MAX_INT64 && 0 <= max <= MAX_INT64
    ensures (Claimed(cur, n, max) == if max != 0 && cur + n > max then None else Some(cur + n)) <==> cur + n <= MAX_INT64
    ensures cur + n > MAX_INT64 ==> Claimed(cur, n, max) == Some(cur + n - 2 * (MAX_INT64 + 1))
  {
    if cur + n <= MAX_INT64 {
      assert Wrap(cur + n) == cur + n;
    } else {
      assert Wrap(cur + n) == cur + n - 2 * (MAX_INT64 + 1);
    }
  }

  // The failing case is reachable: a cap near the top, and a claim that passes it.
  lemma ClaimWrapsAtTheTop()
    ensures Claimed(MAX_INT64, 1, MAX_INT64).Some?
  {
    ClaimIsExactBelowTheTop(MAX_INT64, 1, MAX_INT64);
  }

  // An atomic counter among other writers: `others` lists what they will have left in it by the time of each of this
  // caller's swaps that they get in before.
  class Counter {
    var value: int

    constructor ()
      ensures value == 0
    {
      value := 0;
    }

    // Swaps if nobody got in since the load; if somebody did, the counter holds what they left.
    method CompareAndSwap(old_: int, new_: int, other: Option<int>) returns (ok: bool)
      modifies this
      ensures other.None? ==> ok == (old(value) == old_) && value == if ok then new_ else old(value)
      ensures other.Some? ==> ok == (other.value == old_) && value == if ok then new_ else other.value
    {
      if other.Some? {
        value := other.value;
      }
      ok := value == old_;
      if ok {
        value := new_;
      }
    }

    // Claims `n` of what is left under `max`, retrying until it wins its swap or loses to the limit. Whatever the
    // others did, it decides on the very value it swaps: `seen`.
    method Claim(n: int, max: int, others: seq<int>) returns (ok: bool, ghost seen: int)
      modifies this
      ensures ok <==> Claimed(seen, n, max).Some?
      ensures ok ==> value == Claimed(seen, n, max).value
      ensures !ok ==> value == seen
      ensures seen == old(value) || seen in others
    {
      var i := 0;
      while true
        invariant i <= |others| && (value == old(value) || value in others)
        decreases |others| - i
      {
        var cur := value;
        if max != 0 && Wrap(cur + n) > max {
          return false, cur;
        }
        var meddled := if i < |others| then Some(others[i]) else None;
        var swapped := CompareAndSwap(cur, Wrap(cur + n), meddled);
        if swapped {
          return true, cur;
        }
        i := i + 1;
      }
    }
  }

  class Limits {
    const maxClip: nat
    const maxTotal: nat
    const maxClips: nat
    const bytes: Counter
    const clips: Counter

    constructor (maxClip: nat, maxTotal: nat, maxClips: nat)
      ensures this.maxClip == maxClip && this.maxTotal == maxTotal && this.maxClips == maxClips
      ensures fresh(bytes) && fresh(clips) && bytes != clips && bytes.value == 0 && clips.value == 0
    {
      this.maxClip, this.maxTotal, this.maxClips := maxClip, maxTotal, maxClips;
      bytes := new Counter();
      clips := new Counter();
    }

    // The footprint a boot inherits, whatever the caps say.
    method Restore(b: nat, c: nat)
      requires bytes != clips
      modifies bytes, clips
      ensures bytes.value == b && clips.value == c
    {
      bytes.value, clips.value := b, c;
    }

    method Reserve(n: nat, others: seq<int>) returns (ok: bool, ghost seen: int)
      modifies bytes
      ensures ok <==> Claimed(seen, n, maxTotal).Some?
      ensures bytes.value == if ok then Claimed(seen, n, maxTotal).value else seen
      ensures seen == old(bytes.value) || seen in others
    {
      ok, seen := bytes.Claim(n, maxTotal, others);
    }

    method Release(n: nat)
      modifies bytes
      ensures bytes.value == if n == 0 then old(bytes.value) else Wrap(old(bytes.value) - n)
    {
      if n != 0 {
        bytes.value := Wrap(bytes.value - n);
      }
    }

    method ReserveClip(others: seq<int>) returns (ok: bool, ghost seen: int)
      modifies clips
      ensures ok <==> Claimed(seen, 1, maxClips).Some?
      ensures clips.value == if ok then Claimed(seen, 1, maxClips).value else seen
      ensures seen == old(clips.value) || seen in others
    {
      ok, seen := clips.Claim(1, maxClips, others);
    }

    method ReleaseClip()
      modifies clips
      ensures clips.value == Wrap(old(clips.value) - 1)
    {
      clips.value := Wrap(clips.value - 1);
    }

    // A generation's whole footprint, at the one exit.
    method ReleaseGen(size: nat)
      requires bytes != clips
      modifies bytes, clips
      ensures clips.value == Wrap(old(clips.value) - 1)
      ensures bytes.value == if size == 0 then old(bytes.value) else Wrap(old(bytes.value) - size)
    {
      Release(size);
      ReleaseClip();
    }

    predicate PerClipOK(running: nat, n: nat) { maxClip == 0 || Wrap(running + n) <= maxClip }
  }

  // The per-clip check wraps alike: it admits exactly what fits under the cap, if there is one, as long as the sum fits 64
  // bits, and past that it admits every chunk.
  lemma PerClipIsExactBelowTheTop(l: Limits, running: nat, n: nat)
    requires running <= MAX_INT64 && n <= MAX_INT64 && l.maxClip <= MAX_INT64
    ensures running + n <= MAX_INT64 ==> (l.PerClipOK(running, n) <==> l.maxClip == 0 || running + n <= l.maxClip)
    ensures running + n > MAX_INT64 ==> l.PerClipOK(running, n)
  {
    if l.maxClip > 0 {
      ClaimIsExactBelowTheTop(running, n, l.maxClip);
    }
  }

  // A reservation and its release, in either order with anyone else's, leave the counter where it was.
  lemma ReleaseUndoesReserve(cur: int, n: nat, max: nat)
    requires 0 <= cur <= MAX_INT64 && cur + n <= MAX_INT64 && Claimed(cur, n, max).Some?
    ensures Wrap(Claimed(cur, n, max).value - n) == cur
  {
    assert Wrap(cur + n) == cur + n && Wrap(cur) == cur;
  }
}
