// The durable record of a finalized generation and the checks recovery makes on one.
module Records {
  import opened Common
  import opened GenIds
  import opened Generations

  const META_VERSION := 1

  datatype Record = Record(
    version: int, name: string, generation: string, meta: Meta, size: int,
    created: int, finalized: int, expires: Option<int>, consume: bool, checksum: string)

  // What a metadata file holds: bytes that do not decode, or the record they encode.
  datatype MetaContent = Undecodable | Encoded(record: Record)

  // Thirty-two bits, the least significant first.
  type Word = w: seq<bool> | |w| == 32 witness seq(32, _ => false)

  function BitsOf(n: nat, width: nat): (bits: seq<bool>)
    ensures |bits| == width
  {
    if width == 0 then [] else [n % 2 == 1] + BitsOf(n / 2, width - 1)
  }

  function NatOf(bits: seq<bool>): nat {
    if bits == [] then 0 else (if bits[0] then 1 else 0) + 2 * NatOf(bits[1..])
  }

  function Xor(a: Word, b: Word): Word { seq(32, i requires 0 <= i < 32 => a[i] != b[i]) }

  const ONES: Word := BitsOf(0xFFFF_FFFF, 32)

  // The reflected Castagnoli polynomial.
  const CASTAGNOLI: Word := BitsOf(0x82F6_3B78, 32)

  // CRC32C, bit by bit.
  function CrcBit(crc: Word): Word {
    var shifted := crc[1..] + [false];
    if crc[0] then Xor(shifted, CASTAGNOLI) else shifted
  }

  function CrcBits(crc: Word, k: nat): Word
    decreases k
  {
    if k == 0 then crc else CrcBits(CrcBit(crc), k - 1)
  }

  function CrcBytes(bytes: seq<Byte>, crc: Word): Word
    decreases |bytes|
  {
    if bytes == [] then crc else CrcBytes(bytes[1..], CrcBits(Xor(crc, BitsOf(bytes[0], 32)), 8))
  }

  // The content checksum as finalize stamps it and recovery verifies it.
  function Checksum(bytes: seq<Byte>): string {
    "crc32c:" + Hex(NatOf(Xor(CrcBytes(bytes, ONES), ONES)), 8)
  }

  // The record `finalize` writes for a generation whose log holds `bytes`.
  function RecordOf(g: Generation, bytes: seq<Byte>, checksum: bool): Record {
    Record(META_VERSION, g.name, g.id.String(), g.meta, |bytes|, g.created, g.finalized, g.expires, g.consume,
           if checksum then Checksum(bytes) else "")
  }

  // A record this build can act on: it decodes, and its version is not newer than the build's.
  function LoadMeta(content: MetaContent): Option<Record> {
    if content.Encoded? && content.record.version <= META_VERSION then Some(content.record) else None
  }

  // The record belongs to this directory and matches the length of the data beside it.
  predicate Validates(record: Record, id: GenId, dataSize: int) {
    record.generation == id.String() && record.size == dataSize
  }

  predicate ChecksumHolds(record: Record, bytes: seq<Byte>, verify: bool) {
    verify && record.checksum != "" ==> Checksum(bytes) == record.checksum
  }

  // The file-scoped fields survive only on the kinds that carry them.
  function Normalized(m: Meta): Meta {
    Meta(m.kind,
         if m.kind == "file" || m.kind == "archive" then m.filename else "",
         m.kind == "file" && m.executable)
  }

  // The finalized generation recovery rebuilds from a record.
  function Recovered(id: GenId, r: Record): Generation {
    Generation(id, r.name, Normalized(r.meta), r.created, 0, r.finalized, r.expires, r.consume, GenFinalized)
  }

  // A slot name: a leading alphanumeric, then up to 127 alphanumerics, dots, underscores and hyphens.
  predicate ValidName(name: string) {
    && 1 <= |name| <= 128
    && Alphanumeric(name[0])
    && forall i | 0 < i < |name| :: Alphanumeric(name[i]) || name[i] in "._-"
  }

  predicate Alphanumeric(c: char) {
    '0' <= c <= '9' || 'A' <= c <= 'Z' || 'a' <= c <= 'z'
  }

  // Names are ASCII letters and digits and, after the first character, dots, underscores and hyphens: nothing that could separate
  // a path, and never a name that is only dots.
  lemma NamesArePlain(name: string)
    ensures ValidName(name) <==>
              && 0 < |name| < 129 && name[0] !in "._-"
              && forall i | 0 <= i < |name| ::
                   name[i] in "._-" || 48 <= name[i] as int <= 57 || 65 <= name[i] as int <= 90 || 97 <= name[i] as int <= 122
  {
  }

  // The file-scoped fields are kept on exactly the kinds that carry them: the filename on files and archives, the executable bit on
  // files alone.
  lemma NormalizedKeepsWhatTheKindCarries(m: Meta)
    ensures Normalized(m).kind == m.kind
    ensures Normalized(m) == m <==>
              (m.kind == "file" || (m.kind == "archive" && !m.executable) || (m.filename == "" && !m.executable))
    ensures m.kind == "archive" ==> Normalized(m) == Meta(m.kind, m.filename, false)
    ensures m.kind !in {"file", "archive"} ==> Normalized(m) == Meta(m.kind, "", false)
  {
    hide ValidName;
  }

  lemma NormalizedIsIdempotent(m: Meta)
    ensures Normalized(Normalized(m)) == Normalized(m)
  {
  }

  // What finalize writes, recovery reads back: the same generation, its data accepted, whatever the settings.
  lemma RecordRoundTrip(g: Generation, bytes: seq<Byte>, checksum: bool, verify: bool)
    requires g.meta == Normalized(g.meta)
    ensures var r := RecordOf(g, bytes, checksum);
            && LoadMeta(Encoded(r)) == Some(r)
            && (forall id :: Validates(r, id, |bytes|) <==> id == g.id)
            && ChecksumHolds(r, bytes, verify)
            && Recovered(g.id, r) == g.(ttl := 0, state := GenFinalized)
  {
    forall id: GenId
      ensures Validates(RecordOf(g, bytes, checksum), id, |bytes|) <==> id == g.id
    {
      StringIsInjective(g.id, id);
    }
  }

  // -------------------------------------------------------------------------
  // What the checksum catches
  // -------------------------------------------------------------------------

  function Pow2(k: nat): (p: nat)
    ensures p > 0
  {
    if k == 0 then 1 else 2 * Pow2(k - 1)
  }

  lemma {:induction false} NatOfBits(n: nat, width: nat)
    requires n < Pow2(width)
    ensures NatOf(BitsOf(n, width)) == n
  {
    if width > 0 {
      NatOfBits(n / 2, width - 1);
      assert BitsOf(n, width)[1..] == BitsOf(n / 2, width - 1);
    }
  }

  lemma {:induction false} NatOfBound(bits: seq<bool>)
    ensures NatOf(bits) < Pow2(|bits|)
    ensures |bits| > 0 && !bits[|bits| - 1] ==> NatOf(bits) < Pow2(|bits| - 1)
    decreases |bits|
  {
    if bits != [] {
      NatOfBound(bits[1..]);
    }
  }

  lemma {:induction false} NatOfIsOneToOne(a: seq<bool>, b: seq<bool>)
    requires |a| == |b| && NatOf(a) == NatOf(b)
    ensures a == b
    decreases |a|
  {
    if a != [] {
      NatOfIsOneToOne(a[1..], b[1..]);
      assert a == [a[0]] + a[1..] && b == [b[0]] + b[1..];
    }
  }

  lemma Pow2Of32()
    ensures Pow2(31) == 0x8000_0000 && Pow2(32) == 0x1_0000_0000 == Pow16(8)
  {
    assert Pow2(8) == 0x100;
    assert Pow2(16) == 0x1_0000;
    assert Pow2(24) == 0x100_0000;
    assert Pow16(4) == 0x1_0000;
  }

  lemma XorCancels(x: Word, y: Word, b: Word)
    requires Xor(x, b) == Xor(y, b) || Xor(b, x) == Xor(b, y)
    ensures x == y
  {
    forall i | 0 <= i < 32
      ensures x[i] == y[i]
    {
      assert Xor(x, b)[i] == (x[i] != b[i]) && Xor(y, b)[i] == (y[i] != b[i]);
      assert Xor(b, x)[i] == (b[i] != x[i]) && Xor(b, y)[i] == (b[i] != y[i]);
    }
  }

  // The polynomial has its top term, so each bit's step can be taken back: what it shifted out is what it left on top.
  lemma CrcBitShows(crc: Word)
    ensures CrcBit(crc)[31] == crc[0]
  {
    hide Pow2, BitsOf;
    Pow2Of32();
    NatOfBits(0x82F6_3B78, 32);
    NatOfBound(CASTAGNOLI);
  }

  lemma CrcBitIsOneToOne(x: Word, y: Word)
    requires CrcBit(x) == CrcBit(y)
    ensures x == y
  {
    hide CrcBit, Xor, BitsOf;
    CrcBitShows(x);
    CrcBitShows(y);
    CrcBitUnfolds(x);
    CrcBitUnfolds(y);
    if x[0] {
      XorCancels(x[1..] + [false], y[1..] + [false], CASTAGNOLI);
    }
    assert x[1..] == (x[1..] + [false])[..31] && y[1..] == (y[1..] + [false])[..31];
    assert x == [x[0]] + x[1..] && y == [y[0]] + y[1..];
  }

  lemma CrcBitUnfolds(crc: Word)
    ensures CrcBit(crc) == if crc[0] then Xor(crc[1..] + [false], CASTAGNOLI) else crc[1..] + [false]
  {
    hide Xor, BitsOf;
  }

  lemma {:induction false} CrcBitsAreOneToOne(x: Word, y: Word, k: nat)
    requires CrcBits(x, k) == CrcBits(y, k)
    ensures x == y
    decreases k
  {
    hide CrcBit;
    if k > 0 {
      CrcBitsAreOneToOne(CrcBit(x), CrcBit(y), k - 1);
      CrcBitIsOneToOne(x, y);
    }
  }

  lemma {:induction false} CrcBytesAreOneToOne(bytes: seq<Byte>, x: Word, y: Word)
    requires CrcBytes(bytes, x) == CrcBytes(bytes, y)
    ensures x == y
    decreases |bytes|
  {
    hide CrcBits, Xor, BitsOf;
    if bytes != [] {
      var b := BitsOf(bytes[0], 32);
      CrcBytesAreOneToOne(bytes[1..], CrcBits(Xor(x, b), 8), CrcBits(Xor(y, b), 8));
      CrcBitsAreOneToOne(Xor(x, b), Xor(y, b), 8);
      XorCancels(x, y, b);
    }
  }

  lemma {:induction false} CrcSeesAByte(bytes: seq<Byte>, i: nat, c: Byte, crc: Word)
    requires i < |bytes| && c != bytes[i]
    ensures CrcBytes(bytes[i := c], crc) != CrcBytes(bytes, crc)
    decreases |bytes|
  {
    hide CrcBits, Xor, BitsOf;
    var changed := bytes[i := c];
    if i == 0 {
      assert changed[1..] == bytes[1..];
      FirstByteShows(bytes[1..], c, bytes[0], crc);
    } else {
      assert changed[1..] == bytes[1..][i - 1 := c];
      CrcSeesAByte(bytes[1..], i - 1, c, CrcBits(Xor(crc, BitsOf(bytes[0], 32)), 8));
    }
  }

  lemma FirstByteShows(rest: seq<Byte>, a: Byte, b: Byte, crc: Word)
    requires a != b
    ensures CrcBytes(rest, CrcBits(Xor(crc, BitsOf(a, 32)), 8)) != CrcBytes(rest, CrcBits(Xor(crc, BitsOf(b, 32)), 8))
  {
    hide CrcBits, Xor, BitsOf, CrcBytes, Pow2;
    var x, y := Xor(crc, BitsOf(a, 32)), Xor(crc, BitsOf(b, 32));
    if CrcBytes(rest, CrcBits(x, 8)) == CrcBytes(rest, CrcBits(y, 8)) {
      CrcBytesAreOneToOne(rest, CrcBits(x, 8), CrcBits(y, 8));
      CrcBitsAreOneToOne(x, y, 8);
      XorCancels(BitsOf(a, 32), BitsOf(b, 32), crc);
      Pow2Of32();
      NatOfBits(a, 32);
      NatOfBits(b, 32);
    }
  }

  // A data file in which any one byte has changed does not match the checksum it was published with, so recovery, where it
  // verifies, does not take it.
  lemma ChecksumCatchesAnyByte(g: Generation, bytes: seq<Byte>, i: nat, c: Byte)
    requires i < |bytes| && c != bytes[i]
    ensures ChecksumHolds(RecordOf(g, bytes, true), bytes, true)
    ensures !ChecksumHolds(RecordOf(g, bytes, true), bytes[i := c], true)
  {
    hide CrcBytes, Xor, BitsOf, Hex, NatOf;
    CrcSeesAByte(bytes, i, c, ONES);
    WordsApart(CrcBytes(bytes, ONES), CrcBytes(bytes[i := c], ONES));
  }

  lemma WordsApart(x: Word, y: Word)
    requires x != y
    ensures "crc32c:" + Hex(NatOf(Xor(x, ONES)), 8) != "crc32c:" + Hex(NatOf(Xor(y, ONES)), 8)
  {
    hide Xor, BitsOf, Hex, NatOf, Pow2, Pow16;
    var m, n := NatOf(Xor(x, ONES)), NatOf(Xor(y, ONES));
    Pow2Of32();
    NatOfBound(Xor(x, ONES));
    NatOfBound(Xor(y, ONES));
    UnhexHex(m, 8);
    UnhexHex(n, 8);
    if Hex(m, 8) == Hex(n, 8) {
      NatOfIsOneToOne(Xor(x, ONES), Xor(y, ONES));
      XorCancels(x, y, ONES);
    }
    assert ("crc32c:" + Hex(m, 8))[7..] == Hex(m, 8) && ("crc32c:" + Hex(n, 8))[7..] == Hex(n, 8);
  }
}
