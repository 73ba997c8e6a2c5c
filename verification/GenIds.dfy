// Generation ids: a per-name monotonic counter and a random tail, printed as 32 lowercase hex digits.
module GenIds {
  import opened Common

  // The two big-endian halves of the sixteen id bytes.
  datatype GenId = GenId(prefix: Uint64, tail: Uint64) {
    // Whether this id names a more recent generation than `other`.
    predicate After(other: GenId) {
      if prefix != other.prefix then prefix > other.prefix else tail > other.tail
    }

    // The directory name and wire token of the id.
    function String(): string {
      Hex(prefix, 16) + Hex(tail, 16)
    }
  }

  // The id no generation ever carries; a follower with nothing to skip starts from it.
  const ZERO_ID := GenId(0, 0)

  // -------------------------------------------------------------------------
  // Minting
  // -------------------------------------------------------------------------

  // uint64(now.UnixNano()): a clock before 1970 wraps to the top of the range.
  function ClockPrefix(now: int): Uint64 {
    now % (MAX_UINT64 + 1)
  }

  // The counter value `allocate` issues. The increment wraps at the top of the 64-bit range.
  function NextPrefix(lastPrefix: Uint64, now: int): Uint64 {
    var clock := ClockPrefix(now);
    if clock <= lastPrefix then (lastPrefix + 1) % (MAX_UINT64 + 1) else clock
  }

  // However the clock jumps, a name's counter moves strictly forward, except from the very top of the range.
  lemma NextPrefixAdvances(lastPrefix: Uint64, now: int)
    ensures NextPrefix(lastPrefix, now) > lastPrefix <==> lastPrefix != MAX_UINT64
    ensures ClockPrefix(now) > lastPrefix ==> NextPrefix(lastPrefix, now) == ClockPrefix(now)
    ensures lastPrefix != MAX_UINT64 ==> NextPrefix(lastPrefix, now) <= if ClockPrefix(now) > lastPrefix then ClockPrefix(now) else lastPrefix + 1
  {
    if lastPrefix == MAX_UINT64 {
      assert (lastPrefix + 1) % (MAX_UINT64 + 1) == 0;
    } else {
      assert (lastPrefix + 1) % (MAX_UINT64 + 1) == lastPrefix + 1;
    }
  }

  // The failing case is reachable: one nanosecond before 1970 wraps to the top, and the next id restarts at zero.
  lemma NextPrefixWrapsAtTheTop(now: int)
    ensures NextPrefix(0, -1) == MAX_UINT64
    ensures NextPrefix(NextPrefix(0, -1), now) == 0
  {
    assert (-1) % (MAX_UINT64 + 1) == MAX_UINT64;
    assert (MAX_UINT64 + 1) % (MAX_UINT64 + 1) == 0;
  }

  // After is a strict total order on ids.
  lemma AfterIsStrictTotalOrder(a: GenId, b: GenId, c: GenId)
    ensures !a.After(a)
    ensures a.After(b) && b.After(c) ==> a.After(c)
    ensures a == b || a.After(b) || b.After(a)
    ensures !(a.After(b) && b.After(a))
  {
  }

  // -------------------------------------------------------------------------
  // Printing and parsing
  // -------------------------------------------------------------------------

  const HEX_DIGITS := "0123456789abcdef"

  function HexDigit(d: nat): char
    requires d < 16
  {
    HEX_DIGITS[d]
  }

  // The value of one hex character in either case, as hex.Decode reads it.
  function DigitValue(c: char): Option<nat> {
    if '0' <= c <= '9' then Some(c as int - '0' as int)
    else if 'a' <= c <= 'f' then Some(c as int - 'a' as int + 10)
    else if 'A' <= c <= 'F' then Some(c as int - 'A' as int + 10)
    else None
  }

  function Pow16(k: nat): (p: nat)
    ensures p > 0
  {
    if k == 0 then 1 else 16 * Pow16(k - 1)
  }

  // n as exactly `width` lowercase digits, most significant first.
  function Hex(n: nat, width: nat): (s: string)
    ensures |s| == width
  {
    if width == 0 then "" else Hex(n / 16, width - 1) + [HexDigit(n % 16)]
  }

  // The number a string of hex digits denotes, or None at the first foreign character.
  function Unhex(s: string): Option<nat> {
    if s == "" then Some(0)
    else
      var high := Unhex(s[..|s| - 1]);
      var low := DigitValue(s[|s| - 1]);
      if high.None? || low.None? then None else Some(16 * high.value + low.value)
  }

  lemma DigitsSplit(n: nat, p: nat)
    requires n < 16 * p
    ensures n / 16 < p && 16 * (n / 16) + n % 16 == n
  {
  }

  lemma UnhexSnoc(s: string, c: char)
    requires Unhex(s).Some? && DigitValue(c).Some?
    ensures Unhex(s + [c]) == Some(16 * Unhex(s).value + DigitValue(c).value)
  {
    hide DigitValue;
    assert (s + [c])[..|s|] == s;
  }

  lemma DigitRoundTrip(d: nat)
    requires d < 16
    ensures DigitValue(HexDigit(d)) == Some(d)
  {
  }

  lemma {:induction false} UnhexHex(n: nat, width: nat)
    requires n < Pow16(width)
    ensures Unhex(Hex(n, width)) == Some(n)
  {
    hide Unhex, HexDigit, DigitValue;
    if width == 0 {
      UnhexNothing();
    } else {
      DigitsSplit(n, Pow16(width - 1));
      UnhexHex(n / 16, width - 1);
      DigitRoundTrip(n % 16);
      UnhexSnoc(Hex(n / 16, width - 1), HexDigit(n % 16));
    }
  }

  lemma UnhexNothing()
    ensures Unhex("") == Some(0)
  {
  }

  lemma {:induction false} UnhexBound(s: string)
    requires Unhex(s).Some?
    ensures Unhex(s).value < Pow16(|s|)
  {
    if s != "" {
      UnhexBound(s[..|s| - 1]);
    }
  }

  lemma Pow16Of16()
    ensures Pow16(16) == MAX_UINT64 + 1
  {
    assert Pow16(4) == 0x1_0000;
    assert Pow16(8) == 0x1_0000_0000;
    assert Pow16(12) == 0x1_0000_0000_0000;
  }

  // Reads a directory name back: 32 hex digits whose canonical rendering is the very string read.
  function ParseGenId(s: string): Option<GenId> {
    if |s| != 32 then None
    else
      var hi := Unhex(s[..16]);
      var lo := Unhex(s[16..]);
      if hi.None? || lo.None? then None
      else
        UnhexBound(s[..16]); UnhexBound(s[16..]); Pow16Of16();
        var id := GenId(hi.value, lo.value);
        if id.String() != s then None else Some(id)
  }

  // Printing then parsing gives the id back, and nothing but that rendering is accepted for it.
  lemma ParseAcceptsExactlyTheRendering(s: string, id: GenId)
    ensures ParseGenId(s) == Some(id) <==> s == id.String()
  {
    Pow16Of16();
    UnhexHex(id.prefix, 16);
    UnhexHex(id.tail, 16);
    assert id.String()[..16] == Hex(id.prefix, 16);
    assert id.String()[16..] == Hex(id.tail, 16);
  }

  lemma StringIsInjective(a: GenId, b: GenId)
    ensures a.String() == b.String() <==> a == b
  {
    ParseAcceptsExactlyTheRendering(a.String(), a);
    ParseAcceptsExactlyTheRendering(b.String(), b);
  }

  // -------------------------------------------------------------------------
  // Lexical order of the renderings
  // -------------------------------------------------------------------------

  predicate LexLess(a: string, b: string) {
    if a == "" then b != ""
    else if b == "" then false
    else if a[0] != b[0] then a[0] < b[0]
    else LexLess(a[1..], b[1..])
  }

  // Strings of equal length compare by their last character only when everything before agrees.
  lemma {:induction false} LexLessSnoc(a: string, x: char, b: string, y: char)
    requires |a| == |b|
    ensures LexLess(a + [x], b + [y]) <==> LexLess(a, b) || (a == b && x < y)
  {
    if a != "" {
      assert (a + [x])[1..] == a[1..] + [x];
      assert (b + [y])[1..] == b[1..] + [y];
      assert a == [a[0]] + a[1..] && b == [b[0]] + b[1..];
      LexLessSnoc(a[1..], x, b[1..], y);
    } else {
      assert a + [x] == [x] && b + [y] == [y];
      assert [x][1..] == "" && [y][1..] == "";
    }
  }

  lemma {:induction false} LexLessAppend(a: string, c: string, b: string, d: string)
    requires |a| == |b| && |c| == |d|
    ensures LexLess(a + c, b + d) <==> LexLess(a, b) || (a == b && LexLess(c, d))
  {
    if a == "" {
      assert a + c == c && b + d == d;
      assert b == "";
      LexLessIrreflexive(a);
    } else {
      assert (a + c)[1..] == a[1..] + c;
      assert (b + d)[1..] == b[1..] + d;
      assert a == [a[0]] + a[1..] && b == [b[0]] + b[1..];
      LexLessAppend(a[1..], c, b[1..], d);
    }
  }

  lemma LexLessIrreflexive(a: string)
    ensures !LexLess(a, a)
  {
  }

  lemma {:induction false} HexOrder(m: nat, n: nat, width: nat)
    requires m < Pow16(width) && n < Pow16(width)
    ensures LexLess(Hex(m, width), Hex(n, width)) <==> m < n
    ensures Hex(m, width) == Hex(n, width) <==> m == n
  {
    UnhexHex(m, width);
    UnhexHex(n, width);
    if width > 0 {
      HexOrder(m / 16, n / 16, width - 1);
      LexLessSnoc(Hex(m / 16, width - 1), HexDigit(m % 16), Hex(n / 16, width - 1), HexDigit(n % 16));
      HexDigitOrder(m % 16, n % 16);
    }
  }

  lemma HexDigitOrder(d: nat, e: nat)
    requires d < 16 && e < 16
    ensures HexDigit(d) < HexDigit(e) <==> d < e
  {
  }

  // The greatest string is the most recent generation: picking by string maximum is picking by After.
  lemma LexicalOrderIsAfter(a: GenId, b: GenId)
    ensures LexLess(a.String(), b.String()) <==> b.After(a)
  {
    Pow16Of16();
    HexOrder(a.prefix, b.prefix, 16);
    HexOrder(a.tail, b.tail, 16);
    LexLessAppend(Hex(a.prefix, 16), Hex(a.tail, 16), Hex(b.prefix, 16), Hex(b.tail, 16));
  }
}
