// How a person writes a size or a span, in both directions: what a renderer prints, the matching parser reads back.
//
// A float64 is modelled by the real number it holds, with what rounding to it may do; the standard library's parsers and
// float formatting are parameters, of which only what is needed is assumed.
module Units {
  import opened Common
  import opened Text

  const MAX_INT64: nat := 0x7FFF_FFFF_FFFF_FFFF

  // -------------------------------------------------------------------------
  // Sizes
  // -------------------------------------------------------------------------

  // Every whole number up to here is a float64.
  const TWO_TO_53: nat := 0x20_0000_0000_0000

  // What converting a count to a float64 may make of it: itself while it fits the fraction, and within half a unit in
  // the last place of an int64 otherwise.
  predicate FloatOf(n: nat, x: nat) {
    if n <= TWO_TO_53 then x == n else n - 512 <= x <= n + 512 && x <= MAX_INT64 + 1
  }

  // `f` is a float64 nearest to `v`.
  predicate Rounds(f: real, v: real) { -v <= (f - v) * TWO_TO_53 as real <= v }

  datatype SizeError = Malformed | Negative | OutOfRange

  const UNITS := "KMGTPE"

  function Pow1024(k: nat): (p: nat)
    ensures p > 0
  {
    if k == 0 then 1 else 1024 * Pow1024(k - 1)
  }

  // n / div to the nearest tenth, ties to the even one, counted in tenths.
  function Tenths(n: nat, div: nat): nat
    requires div > 0
  {
    var q, r := 10 * n / div, 10 * n % div;
    if 2 * r < div || (2 * r == div && q % 2 == 0) then q else q + 1
  }

  function RenderTenths(t: nat): string { Decimal(t / 10) + "." + [Digit(t % 10)] }

  // The largest unit that fits, by repeated division: its size, and its place in the ladder.
  method LargestUnit(n: nat) returns (div: nat, exp: nat)
    requires 1024 <= n <= MAX_INT64
    ensures exp < 6 && div == Pow1024(exp + 1) && div <= n < 1024 * div
  {
    div, exp := 1024, 0;
    var x := n / 1024;
    while x >= 1024
      invariant exp < 6 && div == Pow1024(exp + 1) && x >= 1
      invariant x * div <= n < (x + 1) * div
    {
      DivideAgain(n, div, x);
      LadderEnds(div, exp, n);
      div := div * 1024;
      exp := exp + 1;
      x := x / 1024;
    }
    OneUnit(n, div, x);
  }

  lemma DivideAgain(n: nat, div: nat, x: nat)
    requires x >= 1024 && x * div <= n < (x + 1) * div
    ensures x / 1024 * (div * 1024) <= n < (x / 1024 + 1) * (div * 1024)
    ensures 1024 * div <= n
  {
    var y := x / 1024;
    assert y * 1024 <= x && x + 1 <= (y + 1) * 1024;
    Monotone(y * 1024, x, div);
    Monotone(x + 1, (y + 1) * 1024, div);
    Monotone(1024, x, div);
    assert y * 1024 * div == y * (div * 1024) && (y + 1) * 1024 * div == (y + 1) * (div * 1024);
  }

  lemma Monotone(a: nat, b: nat, k: nat)
    requires a <= b
    ensures a * k <= b * k
  {
  }

  lemma OneUnit(n: nat, div: nat, x: nat)
    requires 1 <= x < 1024 && x * div <= n < (x + 1) * div
    ensures div <= n < 1024 * div
  {
    Monotone(1, x, div);
    Monotone(x + 1, 1024, div);
  }

  // Nothing an int64 holds reaches past the sixth unit.
  lemma LadderEnds(div: nat, exp: nat, n: nat)
    requires exp < 6 && div == Pow1024(exp + 1) && 1024 * div <= n <= MAX_INT64
    ensures exp + 1 < 6
  {
    assert Pow1024(6) == 0x1000_0000_0000_0000;
  }

  // The spec of the rendering, for the unit the loop found.
  function SizeIn(n: nat, exp: nat): string
    requires exp < 6
  {
    RenderTenths(Tenths(n, Pow1024(exp + 1))) + [UNITS[exp]] + "iB"
  }

  predicate InUnit(n: nat, exp: nat) { exp < 6 && Pow1024(exp + 1) <= n < 1024 * Pow1024(exp + 1) }

  // Size: exact in bytes below a kibibyte, one decimal of the largest unit above.
  // `x` is the count as a float64, which the decimal is computed from.
  method Size(n: int, x: nat) returns (s: string)
    requires n <= MAX_INT64 && (n >= 0 ==> FloatOf(n, x))
    ensures Renders(n, x, s)
  {
    if n < 1024 {
      return (if n < 0 then "-" + Decimal(-n) else Decimal(n)) + "B";
    }
    var div, exp := LargestUnit(n);
    assert InUnit(n, exp);
    return RenderTenths(Tenths(x, div)) + [UNITS[exp]] + "iB";
  }

  // strconv.ParseInt in base ten: an optional sign and digits, within an int64.
  function ParseInt(s: string): (v: Option<int>)
    ensures v.Some? ==> -(MAX_INT64 as int) - 1 <= v.value <= MAX_INT64
  {
    var digits := if s != "" && (s[0] == '-' || s[0] == '+') then s[1..] else s;
    if digits == "" || !AllDigits(digits) then None
    else
      var v := if s[0] == '-' then -(Number(digits) as int) else Number(digits);
      if -(MAX_INT64 as int) - 1 <= v <= MAX_INT64 then Some(v) else None
  }

  predicate IsPlain(whole: string, part: string) { whole != "" && part != "" && AllDigits(whole) && AllDigits(part) }

  function Pow10(k: nat): (p: nat)
    ensures p > 0
  {
    if k == 0 then 1 else 10 * Pow10(k - 1)
  }

  // What is assumed of strconv.ParseFloat: digits, a point and digits are read as a float64 nearest to the number they
  // denote, and as that number itself if it is whole.
  ghost predicate ReadsDecimals(parseFloat: string -> Option<real>) {
    forall whole, part | IsPlain(whole, part) && Number(whole) < TWO_TO_53 ::
      var v := Number(whole) as real + Number(part) as real / Pow10(|part|) as real;
      && parseFloat(whole + "." + part).Some? && Rounds(parseFloat(whole + "." + part).value, v)
      && (Number(part) == 0 ==> parseFloat(whole + "." + part).value == v)
  }

  // The multiplier a final unit letter stands for; none is bytes.
  function Multiplier(c: char): (m: nat)
    ensures m > 0
  {
    match c
    case 'K' => Pow1024(1)
    case 'k' => Pow1024(1)
    case 'M' => Pow1024(2)
    case 'm' => Pow1024(2)
    case 'G' => Pow1024(3)
    case 'g' => Pow1024(3)
    case 'T' => Pow1024(4)
    case 't' => Pow1024(4)
    case 'P' => Pow1024(5)
    case 'p' => Pow1024(5)
    case 'E' => Pow1024(6)
    case 'e' => Pow1024(6)
    case _ => 1
  }

  // The text with an optional B or iB shed, in either case.
  function Shed(s: string): string { TrimLast(TrimLast(TrimLast(TrimLast(s, 'B'), 'b'), 'i'), 'I') }

  function Scale(mantissa: string, mult: nat, parseFloat: string -> Option<real>): Result<nat, SizeError> {
    if '.' in mantissa then FractionalSize(mantissa, mult, parseFloat)
    else
      var v := ParseInt(mantissa);
      if v.None? then Err(Malformed)
      else if v.value < 0 then Err(Negative)
      else if mult > 1 && v.value > MAX_INT64 / mult then Err(OutOfRange)
      else Ok(v.value * mult)
  }

  // A float64 times a power of two, which is exact.
  function Times(f: real, mult: nat): real { f * mult as real }

  function FractionalSize(mantissa: string, mult: nat, parseFloat: string -> Option<real>): (r: Result<nat, SizeError>)
    ensures r.Ok? ==> r.value <= MAX_INT64
  {
    if mult == 1 then Err(Malformed)
    else
      var f := parseFloat(mantissa);
      if f.None? then Err(Malformed)
      else if f.value < 0.0 then Err(Negative)
      else if Times(f.value, mult) < (MAX_INT64 + 1) as real then (NotNegativeProduct(f.value, mult); Ok(Times(f.value, mult).Floor))
      else Err(OutOfRange)
  }

  // The size a text denotes: its mantissa times its unit.
  function SizeOf(s: string, parseFloat: string -> Option<real>): Result<nat, SizeError> {
    var t := TrimSpace(s);
    if t == "" then Err(Malformed)
    else
      var u := Shed(t);
      var mult := if u == "" then 1 else Multiplier(u[|u| - 1]);
      Scale(TrimSpace(if mult != 1 then u[..|u| - 1] else u), mult, parseFloat)
  }

  // ParseSize, shedding the text from its end as it reads it.
  method ParseSize(s: string, parseFloat: string -> Option<real>) returns (r: Result<nat, SizeError>)
    ensures r == SizeOf(s, parseFloat)
    ensures r.Ok? ==> r.value <= MAX_INT64
  {
    hide ParseInt, FractionalSize, Pow1024, TrimSpace, TrimLast, Multiplier;
    var u := TrimSpace(s);
    if u == "" {
      return Err(Malformed);
    }
    u := TrimLast(u, 'B');
    u := TrimLast(u, 'b');
    u := TrimLast(u, 'i');
    u := TrimLast(u, 'I');
    var mult := 1;
    if u != "" {
      mult := Multiplier(u[|u| - 1]);
      if mult != 1 {
        u := u[..|u| - 1];
      }
    }
    u := TrimSpace(u);
    if '.' in u {
      r := FractionalSize(u, mult, parseFloat);
      return;
    }
    var v := ParseInt(u);
    if v.None? {
      return Err(Malformed);
    }
    if v.value < 0 {
      return Err(Negative);
    }
    if mult != 1 && v.value > MAX_INT64 / mult {
      return Err(OutOfRange);
    }
    ScaledFits(v.value, mult);
    return Ok(v.value * mult);
  }

  lemma ScaledFits(v: nat, mult: nat)
    requires mult > 0 && v <= MAX_INT64 && (mult > 1 ==> v <= MAX_INT64 / mult)
    ensures v * mult <= MAX_INT64
  {
    if mult > 1 {
      assert v * mult <= MAX_INT64 / mult * mult <= MAX_INT64;
    }
  }

  // -------------------------------------------------------------------------
  // A size read off a listing
  // -------------------------------------------------------------------------

  // What Size prints, in any of its forms.
  ghost predicate Renders(n: int, x: nat, s: string) {
    if n < 0 then s == "-" + Decimal(-n) + "B"
    else if n < 1024 then s == Decimal(n) + "B"
    else exists exp: nat :: InUnit(n, exp) && s == SizeIn(x, exp)
  }

  lemma TenthsAreNear(n: nat, div: nat)
    requires div > 0
    ensures -(div as int) <= 2 * (10 * n - Tenths(n, div) * div) <= div
  {
    var q, r := 10 * n / div, 10 * n % div;
    assert 10 * n == q * div + r;
    assert (q + 1) * div == q * div + div;
  }

  // The text left when unit and suffix are shed is the mantissa.
  lemma ShedsToUnit(mantissa: string, c: char)
    requires mantissa != "" && c in UNITS
    ensures Shed(mantissa + [c] + "iB") == mantissa + [c]
  {
    var u := mantissa + [c];
    assert (u + "iB")[..|u| + 1] == u + "i";
    assert (u + "i")[..|u|] == u;
    assert TrimLast(u + "iB", 'B') == u + "i";
  }

  lemma LetterIsUnit(exp: nat)
    requires exp < 6
    ensures Multiplier(UNITS[exp]) == Pow1024(exp + 1) > 1 && UNITS[exp] in UNITS
  {
  }

  lemma RenderedIsPlain(t: nat)
    ensures !IsSpace(RenderTenths(t)[0]) && '.' in RenderTenths(t) && RenderTenths(t) != ""
    ensures TrimSpace(RenderTenths(t)) == RenderTenths(t)
    ensures IsPlain(Decimal(t / 10), [Digit(t % 10)]) && Number([Digit(t % 10)]) == t % 10
  {
    hide Decimal, TrimSpace, RenderTenths;
    TenthsAreTrim(t);
    DigitIsItsNumber(t % 10);
  }

  lemma TenthsAreTrim(t: nat)
    ensures !IsSpace(RenderTenths(t)[0]) && '.' in RenderTenths(t) && RenderTenths(t) != ""
    ensures TrimSpace(RenderTenths(t)) == RenderTenths(t)
  {
    hide Decimal, TrimSpace;
    var m := RenderTenths(t);
    assert m[0] == Decimal(t / 10)[0];
    assert m[|Decimal(t / 10)|] == '.';
    assert m[|m| - 1] == Digit(t % 10);
    NothingToTrim(m);
  }

  lemma DigitIsItsNumber(d: nat)
    requires d < 10
    ensures AllDigits([Digit(d)]) && Number([Digit(d)]) == d
  {
    assert [Digit(d)][..0] == "";
  }

  lemma ReadsOne(parseFloat: string -> Option<real>, whole: string, part: string)
    requires ReadsDecimals(parseFloat) && IsPlain(whole, part) && Number(whole) < TWO_TO_53
    ensures var v := Number(whole) as real + Number(part) as real / Pow10(|part|) as real;
            var f := parseFloat(whole + "." + part);
            f.Some? && Rounds(f.value, v) && (Number(part) == 0 ==> f.value == v)
  {
    hide Number, Pow10, AllDigits, Rounds;
  }

  lemma SplitTenths(t: nat)
    ensures (t / 10) as real + (t % 10) as real / 10.0 == t as real / 10.0
  {
    assert t == 10 * (t / 10) + t % 10;
  }

  lemma TenthsValue(t: nat, parseFloat: string -> Option<real>)
    requires ReadsDecimals(parseFloat) && t < 10 * TWO_TO_53
    ensures var f := parseFloat(RenderTenths(t));
            f.Some? && Rounds(f.value, t as real / 10.0) && (t % 10 == 0 ==> f.value == t as real / 10.0)
  {
    hide ReadsDecimals, Decimal, Number, Digit, IsPlain, Rounds;
    RenderedIsPlain(t);
    NumberOfDecimal(t / 10);
    SplitTenths(t);
    ReadsOne(parseFloat, Decimal(t / 10), [Digit(t % 10)]);
    assert Pow10(1) == 10 * Pow10(0) == 10;
  }

  // Rounding survives an exact scaling.
  lemma ScaledRounding(f: real, v: real, mult: nat)
    requires Rounds(f, v)
    ensures Rounds(Times(f, mult), Times(v, mult))
  {
    var m, p := mult as real, TWO_TO_53 as real;
    Scaled((f - v) * p, v, m);
    Scaled(-v, (f - v) * p, m);
    assert (f * m - v * m) * p == (f - v) * p * m;
  }

  lemma Scaled(a: real, b: real, m: real)
    requires a <= b && m >= 0.0
    ensures a * m <= b * m
  {
  }

  // `m` is `tenths` tenths, but for the rounding of the float64 in between and the cut to a whole number.
  predicate ReadsTenths(m: int, tenths: nat) {
    -(tenths as int) - 10 * TWO_TO_53 <= (10 * m - tenths) * TWO_TO_53 <= tenths
  }

  lemma FloorReadsTenths(s: real, tenths: nat)
    requires Rounds(s, tenths as real / 10.0)
    ensures ReadsTenths(s.Floor, tenths)
  {
    var p, m, k := TWO_TO_53 as real, s.Floor as real, tenths as real;
    assert m <= s < m + 1.0;
    assert (10.0 * s - k) * p <= k && -k <= (10.0 * s - k) * p;
    Scaled(10.0 * m - k, 10.0 * s - k, p);
    Scaled(10.0 * s - k, 10.0 * m + 10.0 - k, p);
    assert (10 * s.Floor - tenths) as real == 10.0 * m - k;
    assert ((10 * s.Floor - tenths) * TWO_TO_53) as real == (10.0 * m - k) * p;
  }

  // Nothing that is clear of the ceiling is rounded up to it.
  lemma ClearOfTheTop(s: real, tenths: nat)
    requires Rounds(s, tenths as real / 10.0) && 100 * tenths <= 99 * 10 * (MAX_INT64 + 1)
    ensures s < (MAX_INT64 + 1) as real
  {
  }

  lemma SuffixedSize(m: string, c: char, parseFloat: string -> Option<real>)
    requires m != "" && !IsSpace(m[0]) && TrimSpace(m) == m && c in UNITS && Multiplier(c) != 1
    ensures SizeOf(m + [c] + "iB", parseFloat) == Scale(m, Multiplier(c), parseFloat)
  {
    hide Scale, Multiplier, Shed, TrimLeft, TrimRight;
    var s, u := m + [c] + "iB", m + [c];
    assert s[0] == m[0] && s[|s| - 1] == 'B';
    NothingToTrim(s);
    ShedsToUnit(m, c);
    assert u[|u| - 1] == c && u[..|u| - 1] == m;
  }

  // So many tenths, in all, are what the rendering says; they are clear of the ceiling, or whole and past it.
  predicate Plainly(t: nat, tenths: nat) {
    && t < 10 * TWO_TO_53
    && (100 * tenths <= 99 * 10 * (MAX_INT64 + 1) || (t % 10 == 0 && tenths >= 10 * (MAX_INT64 + 1)))
  }

  // What a parser may make of them.
  predicate ReadsBack(r: Result<nat, SizeError>, tenths: nat) {
    match r
    case Ok(m) => tenths < 10 * (MAX_INT64 + 1) && ReadsTenths(m, tenths)
    case Err(e) => tenths >= 10 * (MAX_INT64 + 1) && e == OutOfRange
  }

  lemma ScaleOfFraction(m: string, div: nat, parseFloat: string -> Option<real>, f: real)
    requires '.' in m && div > 1 && parseFloat(m) == Some(f) && f >= 0.0
    ensures Times(f, div).Floor >= 0
    ensures Scale(m, div, parseFloat)
         == if Times(f, div) < (MAX_INT64 + 1) as real then Ok(Times(f, div).Floor) else Err(OutOfRange)
  {
    hide Times, ParseInt;
    NotNegativeProduct(f, div);
  }

  lemma NotNegativeProduct(f: real, div: nat)
    requires f >= 0.0
    ensures Times(f, div) >= 0.0 && Times(f, div).Floor >= 0
  {
    Scaled(0.0, f, div as real);
  }

  lemma ScaledRendering(t: nat, div: nat, tenths: nat, parseFloat: string -> Option<real>)
    requires ReadsDecimals(parseFloat) && div > 1 && tenths == t * div && Plainly(t, tenths)
    ensures ReadsBack(Scale(RenderTenths(t), div, parseFloat), tenths)
  {
    hide ReadsDecimals, Decimal, IsPlain, ParseInt, Rounds, ReadsTenths, RenderTenths, Scale, Times, ReadsBack;
    RenderedIsPlain(t);
    TenthsValue(t, parseFloat);
    var f, v := parseFloat(RenderTenths(t)).value, t as real / 10.0;
    ScaledRounding(f, v, div);
    TenthsScale(t, div, tenths);
    NotNegative(f, v);
    ScaleOfFraction(RenderTenths(t), div, parseFloat, f);
    ScaledBack(Times(f, div), t, tenths);
  }

  lemma ScaledBack(s: real, t: nat, tenths: nat)
    requires s.Floor >= 0 && Rounds(s, tenths as real / 10.0) && Plainly(t, tenths)
    requires t % 10 == 0 ==> s == tenths as real / 10.0
    ensures ReadsBack(if s < (MAX_INT64 + 1) as real then Ok(s.Floor) else Err(OutOfRange), tenths)
  {
    hide Rounds, ReadsTenths;
    if tenths < 10 * (MAX_INT64 + 1) {
      ClearOfTheTop(s, tenths);
      FloorReadsTenths(s, tenths);
    }
  }

  lemma TenthsScale(t: nat, div: nat, tenths: nat)
    requires tenths == t * div
    ensures Times(t as real / 10.0, div) == tenths as real / 10.0 && t as real / 10.0 >= 0.0
  {
    assert t as real * div as real == tenths as real;
  }

  lemma NotNegative(f: real, v: real)
    requires Rounds(f, v) && v >= 0.0
    ensures f >= 0.0
  {
  }

  // What a unit rendering parses to.
  lemma SizeInReadsBack(x: nat, exp: nat, t: nat, tenths: nat, parseFloat: string -> Option<real>)
    requires exp < 6 && ReadsDecimals(parseFloat)
    requires t == Tenths(x, Pow1024(exp + 1)) && tenths == t * Pow1024(exp + 1) && Plainly(t, tenths)
    ensures ReadsBack(SizeOf(SizeIn(x, exp), parseFloat), tenths)
  {
    hide ReadsDecimals, RenderTenths, Tenths, Scale, SizeOf, Multiplier, Pow1024, TrimSpace, ReadsBack, Plainly;
    RenderedIsPlain(t);
    LetterIsUnit(exp);
    SuffixedSize(RenderTenths(t), UNITS[exp], parseFloat);
    ScaledRendering(t, Pow1024(exp + 1), tenths, parseFloat);
  }

  lemma BareSize(m: string, parseFloat: string -> Option<real>)
    requires m != "" && AllDigits(m)
    ensures SizeOf(m + "B", parseFloat) == Scale(m, 1, parseFloat)
  {
    hide Scale, TrimLeft, TrimRight;
    var s := m + "B";
    assert IsDigit(m[|m| - 1]) && IsDigit(m[0]);
    assert s[0] == m[0] && s[|s| - 1] == 'B' && s[..|s| - 1] == m;
    NothingToTrim(s);
    assert Shed(s) == m;
    NothingToTrim(m);
  }

  lemma BytesReadBack(n: nat, parseFloat: string -> Option<real>)
    requires n < 1024
    ensures SizeOf(Decimal(n) + "B", parseFloat) == Ok(n)
  {
    hide SizeOf, Decimal;
    BareSize(Decimal(n), parseFloat);
    DigitsParse(Decimal(n));
    NumberOfDecimal(n);
  }

  // A negative count renders with its sign, and is refused for it.
  lemma NegativesAreRefused(n: int, parseFloat: string -> Option<real>)
    requires -(MAX_INT64 as int) - 1 <= n < 0
    ensures SizeOf("-" + Decimal(-n) + "B", parseFloat) == Err(Negative)
  {
    hide Decimal, SizeOf, ParseInt;
    NumberOfDecimal(-n);
    SignedSize(Decimal(-n), parseFloat);
    SignedParse(Decimal(-n));
  }

  lemma SignedSize(digits: string, parseFloat: string -> Option<real>)
    requires digits != "" && AllDigits(digits)
    ensures SizeOf("-" + digits + "B", parseFloat) == Scale("-" + digits, 1, parseFloat)
  {
    hide Scale, TrimLeft, TrimRight;
    var m := "-" + digits;
    var s := m + "B";
    assert IsDigit(digits[|digits| - 1]) && m[|m| - 1] == digits[|digits| - 1];
    assert s[0] == m[0] == '-' && s[|s| - 1] == 'B' && s[..|s| - 1] == m;
    NothingToTrim(s);
    assert Shed(s) == m;
    NothingToTrim(m);
  }

  lemma SignedParse(digits: string)
    requires digits != "" && AllDigits(digits)
    ensures '.' !in "-" + digits
    ensures Number(digits) <= MAX_INT64 + 1 ==> ParseInt("-" + digits) == Some(-(Number(digits) as int))
  {
    hide Number;
    DigitsParse(digits);
    assert ("-" + digits)[1..] == digits;
  }

  lemma DigitsParse(m: string)
    requires m != "" && AllDigits(m)
    ensures '.' !in m
    ensures Number(m) <= MAX_INT64 ==> ParseInt(m) == Some(Number(m))
  {
    hide Number;
    assert IsDigit(m[0]);
  }

  lemma Powers()
    ensures Pow1024(1) == 0x400 && Pow1024(2) == 0x10_0000 && Pow1024(3) == 0x4000_0000
    ensures Pow1024(4) == 0x100_0000_0000 && Pow1024(5) == 0x4_0000_0000_0000 && Pow1024(6) == 0x1000_0000_0000_0000
  {
    assert Pow1024(3) == 1024 * Pow1024(2);
    assert Pow1024(6) == 1024 * Pow1024(5);
  }

  // Which renderings exceed an int64: the one that says eight exbibytes.
  // The tenths rendered in a unit, and which of them are out of range: eighty tenths of an exbibyte, exactly.
  lemma OnlyEightExbibytesOverflows(n: nat, x: nat, exp: nat, t: nat, tenths: nat)
    requires n <= MAX_INT64 && InUnit(n, exp) && FloatOf(n, x)
    requires t == Tenths(x, Pow1024(exp + 1)) && tenths == t * Pow1024(exp + 1)
    ensures Plainly(t, tenths)
    ensures tenths >= 10 * (MAX_INT64 + 1) <==> SizeIn(x, exp) == "8.0EiB"
    ensures SizeIn(x, exp) == "8.0EiB" <==> 20 * x >= 159 * 0x1000_0000_0000_0000
  {
    hide Tenths, RenderTenths, Pow1024, FloatOf, Plainly;
    var div := Pow1024(exp + 1);
    Powers();
    TenthsAreNear(x, div);
    EightIsEighty(t, exp);
    if exp == 5 {
      AtMostTheTop(n, x);
      TopTenths(x, t, tenths);
    } else {
      TenthsAtLeast(t, div, tenths);
      LowerTenths(n, x, div, t, tenths);
    }
  }

  lemma AtMostTheTop(n: nat, x: nat)
    requires n <= MAX_INT64 && FloatOf(n, x)
    ensures x <= MAX_INT64 + 1
  {
  }

  lemma TopTenths(x: nat, t: nat, tenths: nat)
    requires x <= MAX_INT64 + 1 && t == Tenths(x, 0x1000_0000_0000_0000) && tenths == t * 0x1000_0000_0000_0000
    ensures t <= 80 && Plainly(t, tenths)
    ensures t == 80 <==> 20 * x >= 159 * 0x1000_0000_0000_0000
    ensures tenths >= 10 * (MAX_INT64 + 1) <==> t == 80
  {
  }

  lemma TenthsAtLeast(t: nat, div: nat, tenths: nat)
    requires div >= 1 && tenths == t * div
    ensures t <= tenths && (div >= 1024 ==> 1024 * t <= tenths)
  {
  }

  // Below exbibytes nothing comes near the ceiling.
  lemma LowerTenths(n: nat, x: nat, div: nat, t: nat, tenths: nat)
    requires 1024 <= div <= 0x4_0000_0000_0000 && n < 1024 * div && FloatOf(n, x)
    requires -(div as int) <= 2 * (10 * x - tenths) <= div && 1024 * t <= tenths
    ensures Plainly(t, tenths) && tenths < 10 * (MAX_INT64 + 1)
    ensures 20 * x < 159 * 0x1000_0000_0000_0000
  {
  }

  lemma EightIsEighty(t: nat, exp: nat)
    requires exp < 6
    ensures RenderTenths(t) + [UNITS[exp]] + "iB" == "8.0EiB" <==> t == 80 && exp == 5
  {
    var m := RenderTenths(t);
    var s := m + [UNITS[exp]] + "iB";
    if s == "8.0EiB" {
      assert |m| == 3 && m == s[..3] == "8.0" && s[3] == UNITS[exp];
      assert Decimal(t / 10) == m[..1] == "8" && m[2] == Digit(t % 10);
      NumberOfDecimal(t / 10);
      assert "8"[..0] == "" && Number("8") == 8;
    }
    if t == 80 && exp == 5 {
      assert Decimal(8) == "8";
    }
  }

  // What the float64 in the middle may cost, in twentieths of a byte: two bytes while a count fits its fraction.
  function Slack(n: nat): nat { if n <= TWO_TO_53 then 41 else 32000 }

  // Within a twentieth of the unit `n` is rendered in, and that slack.
  ghost predicate Near(n: nat, m: int) {
    exists exp: nat :: InUnit(n, exp)
                       && -(Pow1024(exp + 1) as int) - Slack(n) <= 20 * (m - n) <= Pow1024(exp + 1) + Slack(n)
  }

  // Whatever Size prints for a count of bytes ParseSize reads back, exactly below a kibibyte and otherwise to within a
  // twentieth of the unit and the slack of a float64 -- with the exceptions of a negative count, and of the rendering that
  // says eight exbibytes, which is more than an int64 holds; those are always refused.
  lemma SizesReadBack(n: int, x: nat, s: string, parseFloat: string -> Option<real>)
    requires -(MAX_INT64 as int) - 1 <= n <= MAX_INT64 && (n >= 0 ==> FloatOf(n, x))
    requires Renders(n, x, s) && ReadsDecimals(parseFloat)
    ensures match SizeOf(s, parseFloat)
            case Ok(m) => n >= 0 && s != "8.0EiB" && if n < 1024 then m == n else Near(n, m)
            case Err(e) => if n < 0 then e == Negative else s == "8.0EiB" && e == OutOfRange
  {
    hide SizeOf, SizeIn, Tenths, ReadsDecimals, Decimal, Pow1024, ReadsTenths, FloatOf, Slack, Plainly;
    if n < 0 {
      NegativesAreRefused(n, parseFloat);
    } else if n < 1024 {
      BytesReadBack(n, parseFloat);
      BytesAreNotExbibytes(n);
    } else {
      var exp: nat :| InUnit(n, exp) && s == SizeIn(x, exp);
      var div := Pow1024(exp + 1);
      var t := Tenths(x, div);
      var tenths := t * div;
      OnlyEightExbibytesOverflows(n, x, exp, t, tenths);
      SizeInReadsBack(x, exp, t, tenths, parseFloat);
      TenthsAreNear(x, div);
      if SizeOf(s, parseFloat).Ok? {
        NearEnough(n, x, div, tenths, SizeOf(s, parseFloat).value);
      }
    }
  }

  // A caller can tell beforehand which counts will not read back: negative ones, and those whose float64 is within a
  // twentieth of an exbibyte of eight.
  lemma WhichSizesDoNotReadBack(n: int, x: nat, s: string, parseFloat: string -> Option<real>)
    requires -(MAX_INT64 as int) - 1 <= n <= MAX_INT64 && (n >= 0 ==> FloatOf(n, x))
    requires Renders(n, x, s) && ReadsDecimals(parseFloat)
    ensures SizeOf(s, parseFloat).Err? <==> n < 0 || 20 * x >= 159 * 0x1000_0000_0000_0000
    ensures 20 * MAX_INT64 >= 159 * 0x1000_0000_0000_0000
  {
    hide SizeOf, SizeIn, Tenths, ReadsDecimals, Decimal, Pow1024;
    SizesReadBack(n, x, s, parseFloat);
    if n < 0 {
    } else if n < 1024 {
      BytesAreNotExbibytes(n);
    } else {
      var exp: nat :| InUnit(n, exp) && s == SizeIn(x, exp);
      OnlyEightExbibytesOverflows(n, x, exp, Tenths(x, Pow1024(exp + 1)), Tenths(x, Pow1024(exp + 1)) * Pow1024(exp + 1));
    }
  }

  lemma NearEnough(n: nat, x: nat, div: nat, tenths: nat, m: int)
    requires n <= MAX_INT64 && FloatOf(n, x) && div <= n && ReadsTenths(m, tenths)
    requires -(div as int) <= 2 * (10 * x - tenths) <= div
    ensures -(div as int) - Slack(n) <= 20 * (m - n) <= div + Slack(n)
  {
    if n <= TWO_TO_53 {
      assert -21 - 20 <= 2 * (10 * m - tenths) <= 21;
    } else {
      assert -21505 - 20 <= 2 * (10 * m - tenths) <= 21505;
    }
  }

  lemma BytesAreNotExbibytes(n: nat)
    ensures Decimal(n) + "B" != "8.0EiB"
  {
    hide Decimal;
    var d := Decimal(n);
    assert |d| >= 2 ==> (d + "B")[1] == d[1] && IsDigit(d[1]);
  }

  // -------------------------------------------------------------------------
  // Spans
  // -------------------------------------------------------------------------

  const SECOND: nat := 1_000_000_000
  const MINUTE: nat := 60 * SECOND
  const HOUR: nat := 60 * MINUTE
  const DAY: nat := 24 * HOUR
  const WEEK: nat := 7 * DAY

  // The largest whole unit of a span, and its letter; a sliver below a second counts no whole one.
  function Ladder(d: int): (nat, string) {
    if d >= WEEK then (WEEK, "w")
    else if d >= DAY then (DAY, "d")
    else if d >= HOUR then (HOUR, "h")
    else if d >= MINUTE then (MINUTE, "m")
    else (SECOND, "s")
  }

  // Duration: truncated, never rounded, to the largest whole unit.
  function Duration(d: int): string {
    if d >= WEEK then Decimal(d / WEEK) + "w"
    else if d >= DAY then Decimal(d / DAY) + "d"
    else if d >= HOUR then Decimal(d / HOUR) + "h"
    else if d >= MINUTE then Decimal(d / MINUTE) + "m"
    else if d >= SECOND then Decimal(d / SECOND) + "s"
    else "0s"
  }

  predicate IsMantissaByte(c: char) { IsDigit(c) || c == '.' }

  // One term of a span: a run of number, then a run of unit.
  datatype Term = Term(mantissa: string, unit: string)

  // How far a run of one kind goes.
  function RunLength(s: string, mantissa: bool): (n: nat)
    ensures n <= |s| && forall i | 0 <= i < n :: IsMantissaByte(s[i]) == mantissa
    ensures n < |s| ==> IsMantissaByte(s[n]) != mantissa
  {
    if s == "" || IsMantissaByte(s[0]) != mantissa then 0 else 1 + RunLength(s[1..], mantissa)
  }

  function FirstTerm(s: string): (t: (Term, string))
    ensures t.0.mantissa + t.0.unit + t.1 == s
    ensures s != "" ==> |t.1| < |s|
  {
    var i := RunLength(s, true);
    var j := RunLength(s[i..], false);
    (Term(s[..i], s[i..][..j]), s[i..][j..])
  }

  function Terms(s: string): seq<Term>
    decreases |s|
  {
    if s == "" then [] else [FirstTerm(s).0] + Terms(FirstTerm(s).1)
  }

  function Spelled(terms: seq<Term>): string {
    if terms == [] then "" else terms[0].mantissa + terms[0].unit + Spelled(terms[1..])
  }

  // The scan loses nothing and invents nothing: its terms spell the text, numbers hold no unit and units no number.
  lemma {:induction false} ScanIsLossless(s: string)
    ensures Spelled(Terms(s)) == s
    ensures forall t | t in Terms(s) :: (forall c | c in t.mantissa :: IsMantissaByte(c)) && forall c | c in t.unit :: !IsMantissaByte(c)
    decreases |s|
  {
    if s != "" {
      var t := FirstTerm(s);
      ScanIsLossless(t.1);
      assert Terms(s)[0] == t.0 && Terms(s)[1..] == Terms(t.1);
    }
  }

  // The hours a day or week term stands for.
  function UnitHours(unit: string): Option<nat> {
    if unit == "d" then Some(DAY / HOUR) else if unit == "w" then Some(WEEK / HOUR) else None
  }

  function RewriteTerm(t: Term, parseFloat: string -> Option<real>, format: real -> string): Option<string> {
    var hours := UnitHours(t.unit);
    if hours.None? then Some(t.mantissa + t.unit)
    else
      var f := parseFloat(t.mantissa);
      if f.None? then None else Some(format(f.value * hours.value as real) + "h")
  }

  function Rewrite(terms: seq<Term>, parseFloat: string -> Option<real>, format: real -> string): Option<string> {
    if terms == [] then Some("")
    else
      var head := RewriteTerm(terms[0], parseFloat, format);
      var tail := Rewrite(terms[1..], parseFloat, format);
      if head.None? || tail.None? then None else Some(head.value + tail.value)
  }

  predicate HasNewUnit(s: string) { 'd' in s || 'w' in s }

  function Sign(s: string): string { if s != "" && (s[0] == '-' || s[0] == '+') then [s[0]] else "" }

  // The span a text denotes: the standard parser's reading of it, day and week terms rewritten in hours.
  function SpanOf(s: string, std: string -> Option<int>, parseFloat: string -> Option<real>, format: real -> string): Option<int> {
    var t := TrimSpace(s);
    if !HasNewUnit(t) then std(t)
    else
      var r := Rewrite(Terms(t[|Sign(t)|..]), parseFloat, format);
      if r.None? then None else std(Sign(t) + r.value)
  }

  // The run of one kind of byte the scan is looking at.
  method TakeRun(s: string, mantissa: bool) returns (n: nat)
    ensures n == RunLength(s, mantissa)
  {
    n := 0;
    while n < |s| && IsMantissaByte(s[n]) == mantissa
      invariant n <= |s| && forall i | 0 <= i < n :: IsMantissaByte(s[i]) == mantissa
    {
      n := n + 1;
    }
    RunIs(s, mantissa, n);
  }

  // The run ends where its kind does.
  lemma {:induction false} RunIs(s: string, mantissa: bool, n: nat)
    requires n <= |s| && forall i | 0 <= i < n :: IsMantissaByte(s[i]) == mantissa
    requires n < |s| ==> IsMantissaByte(s[n]) != mantissa
    ensures RunLength(s, mantissa) == n
    decreases n
  {
    if n > 0 {
      RunIs(s[1..], mantissa, n - 1);
    }
  }

  lemma RewriteNext(s: string, parseFloat: string -> Option<real>, format: real -> string)
    requires s != ""
    ensures var t := FirstTerm(s);
            var head := RewriteTerm(t.0, parseFloat, format);
            var tail := Rewrite(Terms(t.1), parseFloat, format);
            Rewrite(Terms(s), parseFloat, format)
              == if head.None? || tail.None? then None else Some(head.value + tail.value)
  {
    hide FirstTerm, RewriteTerm;
    assert Terms(s)[0] == FirstTerm(s).0 && Terms(s)[1..] == Terms(FirstTerm(s).1);
  }

  // The rewriting scan, term by term: it consumes at least a byte each time, so it ends on any input.
  method RewriteAll(s: string, parseFloat: string -> Option<real>, format: real -> string) returns (r: Option<string>)
    ensures r == Rewrite(Terms(s), parseFloat, format)
  {
    hide Rewrite, Terms, RewriteTerm, RunLength, IsMantissaByte;
    var rewritten, rest := "", s;
    assert forall x: string :: "" + x == x;
    ghost var all := Rewrite(Terms(s), parseFloat, format);
    while rest != ""
      invariant all.None? <==> Rewrite(Terms(rest), parseFloat, format).None?
      invariant all.Some? ==> all.value == rewritten + Rewrite(Terms(rest), parseFloat, format).value
      decreases |rest|
    {
      RewriteNext(rest, parseFloat, format);
      ghost var before := rest;
      var i := TakeRun(rest, true);
      var mantissa := rest[..i];
      rest := rest[i..];
      var j := TakeRun(rest, false);
      var unit := rest[..j];
      rest := rest[j..];
      assert FirstTerm(before) == (Term(mantissa, unit), rest);
      var term := RewriteTerm(Term(mantissa, unit), parseFloat, format);
      if term.None? {
        return None;
      }
      rewritten := rewritten + term.value;
    }
    NoTerms(parseFloat, format);
    assert rewritten + "" == rewritten;
    return Some(rewritten);
  }

  // ParseDuration: the standard parser's reading, after any day and week terms have become hours.
  method ParseDuration(s: string, std: string -> Option<int>, parseFloat: string -> Option<real>, format: real -> string)
    returns (r: Option<int>)
    ensures r == SpanOf(s, std, parseFloat, format)
  {
    hide Rewrite, Terms, TrimSpace, HasNewUnit;
    var t := TrimSpace(s);
    if !HasNewUnit(t) {
      return std(t);
    }
    var sign, rest := "", t;
    if rest != "" && (rest[0] == '-' || rest[0] == '+') {
      sign, rest := [rest[0]], rest[1..];
    }
    assert sign == Sign(t) && rest == t[|Sign(t)|..];
    var rewritten := RewriteAll(rest, parseFloat, format);
    if rewritten.None? {
      return None;
    }
    return std(sign + rewritten.value);
  }

  lemma NoTerms(parseFloat: string -> Option<real>, format: real -> string)
    ensures Rewrite(Terms(""), parseFloat, format) == Some("")
  {
  }

  // What is assumed of time.ParseDuration: it knows no d and no w, trims nothing, and reads whole hours, minutes and
  // seconds as what they are.
  ghost predicate Standard(std: string -> Option<int>) {
    && (forall s | std(s).Some? :: !HasNewUnit(s) && TrimSpace(s) == s)
    && (forall k: nat | k * HOUR <= MAX_INT64 :: std(Decimal(k) + "h") == Some(k * HOUR))
    && (forall k: nat | k * MINUTE <= MAX_INT64 :: std(Decimal(k) + "m") == Some(k * MINUTE))
    && (forall k: nat | k * SECOND <= MAX_INT64 :: std(Decimal(k) + "s") == Some(k * SECOND))
  }

  // What is assumed of strconv on whole numbers a float64 holds exactly.
  ghost predicate ExactOnIntegers(parseFloat: string -> Option<real>, format: real -> string) {
    forall k: nat | k < 0x20_0000_0000_0000 :: parseFloat(Decimal(k)) == Some(k as real) && format(k as real) == Decimal(k)
  }

  // An exact superset: whatever the standard parser accepts means the same here, and what it does not accept is accepted
  // here only for a day or a week in it, or for the space around it.
  lemma SupersetOfTheStandard(s: string, std: string -> Option<int>, parseFloat: string -> Option<real>, format: real -> string)
    requires Standard(std)
    ensures std(s).Some? ==> SpanOf(s, std, parseFloat, format) == std(s)
    ensures SpanOf(s, std, parseFloat, format) != std(s) ==> HasNewUnit(TrimSpace(s)) || TrimSpace(s) != s
  {
    hide TrimSpace, Terms, Rewrite;
  }

  // The span, cut down to its largest whole unit.
  function Truncated(d: int): int { d - d % Ladder(d).0 }

  // A day or week rendering is one term, and becomes whole hours.
  lemma NewUnitReadsBack(k: nat, unit: string, hours: nat, m: nat, std: string -> Option<int>,
                         parseFloat: string -> Option<real>, format: real -> string)
    requires Standard(std) && ExactOnIntegers(parseFloat, format)
    requires UnitHours(unit) == Some(hours) && k <= m == k * hours < 0x20_0000_0000_0000 && m * HOUR <= MAX_INT64
    ensures SpanOf(Decimal(k) + unit, std, parseFloat, format) == Some(m * HOUR)
  {
    hide Standard, ExactOnIntegers, Decimal, Terms, Rewrite, RewriteTerm, TrimSpace, HasNewUnit, Sign, SpanOf;
    OneTerm(Decimal(k), unit);
    OneRewrite(Term(Decimal(k), unit), parseFloat, format);
    NewUnitInHours(k, unit, hours, m, parseFloat, format);
    StandardHere(m, std);
    NewUnitIsSeen(Decimal(k), unit);
    UnsignedSpan(Decimal(k) + unit, Decimal(m) + "h", std, parseFloat, format);
  }

  lemma NewUnitInHours(k: nat, unit: string, hours: nat, m: nat, parseFloat: string -> Option<real>, format: real -> string)
    requires ExactOnIntegers(parseFloat, format)
    requires UnitHours(unit) == Some(hours) && k <= m == k * hours < 0x20_0000_0000_0000
    ensures RewriteTerm(Term(Decimal(k), unit), parseFloat, format) == Some(Decimal(m) + "h")
  {
    hide ExactOnIntegers, Decimal, UnitHours, RewriteTerm;
    ExactHere(k, m, hours, parseFloat, format);
    TermInHours(Term(Decimal(k), unit), k as real, hours, m as real, parseFloat, format);
  }

  lemma TermInHours(t: Term, f: real, hours: nat, x: real, parseFloat: string -> Option<real>, format: real -> string)
    requires UnitHours(t.unit) == Some(hours) && parseFloat(t.mantissa) == Some(f) && x == f * hours as real
    ensures RewriteTerm(t, parseFloat, format) == Some(format(x) + "h")
  {
    assert hours == 24 || hours == 168;
    if hours == 24 {
      assert parseFloat(t.mantissa).value * 24.0 == x;
    } else {
      assert parseFloat(t.mantissa).value * 168.0 == x;
    }
  }

  // A text with nothing to trim and no sign means what its terms rewrite to.
  lemma UnsignedSpan(s: string, x: string, std: string -> Option<int>, parseFloat: string -> Option<real>, format: real -> string)
    requires TrimSpace(s) == s && HasNewUnit(s) && Sign(s) == "" && Rewrite(Terms(s), parseFloat, format) == Some(x)
    ensures SpanOf(s, std, parseFloat, format) == std(x)
  {
    hide Terms, Rewrite, TrimSpace, HasNewUnit, Sign;
    assert s[0..] == s && "" + x == x;
  }

  lemma NewUnitIsSeen(d: string, unit: string)
    requires d != "" && AllDigits(d) && (unit == "d" || unit == "w")
    ensures TrimSpace(d + unit) == d + unit && HasNewUnit(d + unit)
  {
    var s := d + unit;
    assert IsDigit(s[0]) && s[0] == d[0] && s[|s| - 1] == unit[0];
    NothingToTrim(s);
    assert unit[0] in s;
  }

  lemma ExactHere(k: nat, m: nat, hours: nat, parseFloat: string -> Option<real>, format: real -> string)
    requires ExactOnIntegers(parseFloat, format) && k <= m == k * hours < 0x20_0000_0000_0000
    ensures parseFloat(Decimal(k)) == Some(k as real) && format(m as real) == Decimal(m)
    ensures m as real == k as real * hours as real
  {
    hide Decimal;
  }

  lemma StandardHere(k: nat, std: string -> Option<int>)
    requires Standard(std)
    ensures k * HOUR <= MAX_INT64 ==> std(Decimal(k) + "h") == Some(k * HOUR)
    ensures k * MINUTE <= MAX_INT64 ==> std(Decimal(k) + "m") == Some(k * MINUTE)
    ensures k * SECOND <= MAX_INT64 ==> std(Decimal(k) + "s") == Some(k * SECOND)
  {
    hide Decimal, TrimSpace;
  }

  lemma OneTerm(m: string, unit: string)
    requires m != "" && AllDigits(m) && (unit == "d" || unit == "w")
    ensures Terms(m + unit) == [Term(m, unit)] && Sign(m + unit) == ""
  {
    hide RunLength;
    var s := m + unit;
    assert IsDigit(m[0]) && s[0] == m[0];
    assert s[|m|] == unit[0] && s[..|m|] == m && s[|m|..] == unit;
    RunIs(s, true, |m|);
    RunIs(unit, false, 1);
    assert unit[..1] == unit && unit[1..] == "";
    assert FirstTerm(s) == (Term(m, unit), "");
    assert Terms("") == [];
  }

  lemma OneRewrite(t: Term, parseFloat: string -> Option<real>, format: real -> string)
    ensures Rewrite([t], parseFloat, format) == RewriteTerm(t, parseFloat, format)
  {
    assert Rewrite([], parseFloat, format) == Some("");
    assert [t][1..] == [];
    var r := RewriteTerm(t, parseFloat, format);
    assert r.Some? ==> r.value + "" == r.value;
  }

  // A rendering in hours or below is the standard parser's own.
  lemma OldUnitReadsBack(k: nat, unit: string, std: string -> Option<int>, parseFloat: string -> Option<real>, format: real -> string)
    requires unit == "h" || unit == "m" || unit == "s"
    ensures SpanOf(Decimal(k) + unit, std, parseFloat, format) == std(Decimal(k) + unit)
  {
    hide Decimal, Terms, Rewrite;
    var d := Decimal(k);
    var s := d + unit;
    assert s[0] == d[0] && IsDigit(d[0]) && s[|s| - 1] == unit[0];
    NothingToTrim(s);
    assert !HasNewUnit(s);
  }

  lemma WeeksAndDaysReadBack(d: nat, std: string -> Option<int>, parseFloat: string -> Option<real>, format: real -> string)
    requires DAY <= d <= MAX_INT64 && Standard(std) && ExactOnIntegers(parseFloat, format)
    ensures SpanOf(Duration(d), std, parseFloat, format) == Some(Truncated(d))
  {
    hide SpanOf, Standard, ExactOnIntegers, Decimal;
    if d >= WEEK {
      NewUnitReadsBack(d / WEEK, "w", 168, d / WEEK * 168, std, parseFloat, format);
    } else {
      NewUnitReadsBack(d / DAY, "d", 24, d / DAY * 24, std, parseFloat, format);
    }
  }

  lemma ShorterReadBack(d: nat, std: string -> Option<int>, parseFloat: string -> Option<real>, format: real -> string)
    requires d < DAY && Standard(std)
    ensures SpanOf(Duration(d), std, parseFloat, format) == Some(Truncated(d))
  {
    hide SpanOf, Standard, Decimal;
    if d >= HOUR {
      StandardHere(d / HOUR, std);
      OldUnitReadsBack(d / HOUR, "h", std, parseFloat, format);
    } else if d >= MINUTE {
      StandardHere(d / MINUTE, std);
      OldUnitReadsBack(d / MINUTE, "m", std, parseFloat, format);
    } else {
      StandardHere(d / SECOND, std);
      OldUnitReadsBack(d / SECOND, "s", std, parseFloat, format);
      ZeroIsZero();
    }
  }

  // Whatever Duration prints for a span ParseDuration reads back as that span cut down to its largest whole unit --
  // never more time than there is -- and prints the same way again.
  lemma SpansReadBack(d: nat, std: string -> Option<int>, parseFloat: string -> Option<real>, format: real -> string)
    requires d <= MAX_INT64 && Standard(std) && ExactOnIntegers(parseFloat, format)
    ensures SpanOf(Duration(d), std, parseFloat, format) == Some(Truncated(d))
    ensures 0 <= Truncated(d) <= d < Truncated(d) + Ladder(d).0
    ensures Duration(Truncated(d)) == Duration(d)
  {
    hide SpanOf, Standard, ExactOnIntegers, Decimal;
    if d >= DAY {
      WeeksAndDaysReadBack(d, std, parseFloat, format);
    } else {
      ShorterReadBack(d, std, parseFloat, format);
    }
    TruncatedPrintsTheSame(d);
  }

  lemma TruncatedPrintsTheSame(d: nat)
    ensures 0 <= Truncated(d) <= d < Truncated(d) + Ladder(d).0
    ensures Duration(Truncated(d)) == Duration(d)
  {
    hide Decimal;
    WholeUnits(d, Ladder(d).0);
    assert WEEK == 604_800 * SECOND && DAY == 86_400 * SECOND && HOUR == 3_600 * SECOND;
  }

  lemma WholeUnits(d: nat, u: nat)
    requires u > 0
    ensures 0 <= d - d % u <= d < d - d % u + u
    ensures (d - d % u) / u == d / u
    ensures d >= u ==> d - d % u >= u
  {
    var q := d / u;
    assert d - d % u == q * u;
    WholeQuotient(q, u);
    if d >= u {
      QuotientAtLeastOne(d, u);
      Monotone(1, q, u);
    }
  }

  lemma WholeQuotient(q: nat, u: nat)
    requires u > 0
    ensures q * u / u == q
  {
    var p := q * u / u;
    assert q * u == p * u + q * u % u;
    if p < q {
      Monotone(p + 1, q, u);
    } else if p > q {
      Monotone(q + 1, p, u);
    }
  }

  lemma QuotientAtLeastOne(d: nat, u: nat)
    requires 0 < u <= d
    ensures d / u >= 1
  {
    assert d == d / u * u + d % u;
  }

  lemma ZeroIsZero()
    ensures Decimal(0) + "s" == "0s"
  {
  }
}
