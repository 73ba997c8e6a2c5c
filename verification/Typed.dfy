// What a person may type for a span or a size, and exactly what it is read as.
module Typed {
  import opened Common
  import opened Text
  import opened Units

  // -------------------------------------------------------------------------
  // Space around
  // -------------------------------------------------------------------------

  predicate AllSpace(s: string) { forall i | 0 <= i < |s| :: IsSpace(s[i]) }

  lemma {:induction false} TrimsLeft(left: string, s: string)
    requires AllSpace(left) && (s == "" || !IsSpace(s[0]))
    ensures TrimLeft(left + s) == s
    decreases |left|
  {
    if left == "" {
      assert left + s == s;
    } else {
      assert (left + s)[1..] == left[1..] + s;
      TrimsLeft(left[1..], s);
    }
  }

  lemma {:induction false} TrimsRight(s: string, right: string)
    requires AllSpace(right) && (s == "" || !IsSpace(s[|s| - 1]))
    ensures TrimRight(s + right) == s
    decreases |right|
  {
    if right == "" {
      assert s + right == s;
    } else {
      assert (s + right)[..|s + right| - 1] == s + right[..|right| - 1];
      TrimsRight(s, right[..|right| - 1]);
    }
  }

  // Space at either end is all that is trimmed.
  lemma TrimsAround(left: string, s: string, right: string)
    requires AllSpace(left) && AllSpace(right) && s != "" && !IsSpace(s[0]) && !IsSpace(s[|s| - 1])
    ensures TrimSpace(left + s + right) == s
  {
    hide TrimLeft, TrimRight;
    assert left + s + right == left + (s + right);
    TrimsLeft(left, s + right);
    TrimsRight(s, right);
  }

  // -------------------------------------------------------------------------
  // The terms of a span
  // -------------------------------------------------------------------------

  predicate IsMantissa(s: string) { forall i | 0 <= i < |s| :: IsMantissaByte(s[i]) }

  predicate IsUnit(s: string) { forall i | 0 <= i < |s| :: !IsMantissaByte(s[i]) }

  // Numbers and units in turn: only the first number and the last unit may be missing.
  predicate InTurn(ts: seq<Term>) {
    && (forall i | 0 <= i < |ts| :: IsMantissa(ts[i].mantissa) && IsUnit(ts[i].unit) && (ts[i].mantissa != "" || ts[i].unit != ""))
    && (forall i | 0 < i < |ts| :: ts[i].mantissa != "")
    && (forall i | 0 <= i < |ts| - 1 :: ts[i].unit != "")
  }

  lemma FirstTermOf(m: string, u: string, rest: string)
    requires IsMantissa(m) && IsUnit(u) && (u == "" ==> rest == "") && (rest != "" ==> IsMantissaByte(rest[0]))
    ensures FirstTerm(m + u + rest) == (Term(m, u), rest)
  {
    hide RunLength, IsMantissaByte;
    var s := m + (u + rest);
    assert m + u + rest == s;
    RunIs(s, true, |m|);
    assert s[..|m|] == m && s[|m|..] == u + rest;
    RunIs(u + rest, false, |u|);
    assert (u + rest)[..|u|] == u && (u + rest)[|u|..] == rest;
  }

  lemma FirstTermIs(ts: seq<Term>)
    requires InTurn(ts) && ts != []
    ensures FirstTerm(Spelled(ts)) == (ts[0], Spelled(ts[1..]))
  {
    hide FirstTerm, IsMantissaByte;
    RestBegins(ts);
    FirstTermOf(ts[0].mantissa, ts[0].unit, Spelled(ts[1..]));
  }

  // What follows a term begins with a number, and there is nothing after one without a unit.
  lemma RestBegins(ts: seq<Term>)
    requires InTurn(ts) && ts != []
    ensures var rest := Spelled(ts[1..]);
            (rest != "" ==> IsMantissaByte(rest[0])) && (ts[0].unit == "" ==> rest == "")
  {
    if |ts| > 1 {
      assert Spelled(ts[1..]) == ts[1].mantissa + ts[1].unit + Spelled(ts[1..][1..]);
      assert ts[1].mantissa != "";
    }
  }

  lemma {:induction false} SpelledIsScanned(ts: seq<Term>)
    requires InTurn(ts)
    ensures Terms(Spelled(ts)) == ts
    decreases |ts|
  {
    hide FirstTerm;
    if ts != [] {
      FirstTermIs(ts);
      SpelledIsScanned(ts[1..]);
      assert Spelled(ts) != "";
      assert ts == [ts[0]] + ts[1..];
    }
  }

  lemma PrependInTurn(t: Term, ts: seq<Term>)
    requires InTurn(ts) && IsMantissa(t.mantissa) && IsUnit(t.unit) && (t.mantissa != "" || t.unit != "")
    requires ts != [] ==> t.unit != "" && ts[0].mantissa != ""
    ensures InTurn([t] + ts)
  {
    hide IsMantissa, IsUnit;
    var all := [t] + ts;
    assert forall i | 0 < i < |all| :: all[i] == ts[i - 1];
  }

  lemma {:induction false} ScannedInTurn(s: string)
    ensures InTurn(Terms(s))
    ensures s != "" && IsMantissaByte(s[0]) ==> Terms(s) != [] && Terms(s)[0].mantissa != ""
    decreases |s|
  {
    hide IsMantissaByte, IsMantissa, IsUnit, InTurn, FirstTerm;
    if s == "" {
      NothingInTurn();
    } else {
      var t := FirstTerm(s);
      ScannedInTurn(t.1);
      FirstTermStops(s);
      PrependInTurn(t.0, Terms(t.1));
    }
  }

  lemma NothingInTurn()
    ensures InTurn([])
  {
  }

  lemma FirstTermStops(s: string)
    requires s != ""
    ensures var t := FirstTerm(s);
            && IsMantissa(t.0.mantissa) && IsUnit(t.0.unit) && (t.0.mantissa != "" || t.0.unit != "")
            && (IsMantissaByte(s[0]) ==> t.0.mantissa != "")
            && (t.1 != "" ==> t.0.unit != "" && IsMantissaByte(t.1[0]))
  {
    hide IsMantissaByte;
    var i := RunLength(s, true);
    var j := RunLength(s[i..], false);
  }

  // The scan is exact: a text's terms are the one way to spell it with numbers and units in turn.
  lemma ScanIsExact(s: string, ts: seq<Term>)
    ensures Terms(s) == ts <==> InTurn(ts) && Spelled(ts) == s
  {
    hide Terms, Spelled, InTurn;
    if InTurn(ts) && Spelled(ts) == s {
      SpelledIsScanned(ts);
    }
    ScanIsLossless(s);
    ScannedInTurn(s);
  }

  // -------------------------------------------------------------------------
  // Days and weeks
  // -------------------------------------------------------------------------

  predicate IsNew(t: Term) { t.unit == "d" || t.unit == "w" }

  // Each day or week is counted in a number.
  predicate Counted(ts: seq<Term>, parseFloat: string -> Option<real>) {
    forall i | 0 <= i < |ts| && IsNew(ts[i]) :: parseFloat(ts[i].mantissa).Some?
  }

  // A day is 24 hours and a week 168, whatever the calendar says; anything else is left as it was typed.
  function InHours(t: Term, parseFloat: string -> Option<real>, format: real -> string): string
    requires IsNew(t) ==> parseFloat(t.mantissa).Some?
  {
    if t.unit == "d" then format(parseFloat(t.mantissa).value * 24.0) + "h"
    else if t.unit == "w" then format(parseFloat(t.mantissa).value * 168.0) + "h"
    else t.mantissa + t.unit
  }

  function AllInHours(ts: seq<Term>, parseFloat: string -> Option<real>, format: real -> string): string
    requires Counted(ts, parseFloat)
  {
    if ts == [] then "" else InHours(ts[0], parseFloat, format) + AllInHours(ts[1..], parseFloat, format)
  }

  lemma {:induction false} RewritesTermByTerm(ts: seq<Term>, parseFloat: string -> Option<real>, format: real -> string)
    ensures Rewrite(ts, parseFloat, format)
         == if Counted(ts, parseFloat) then Some(AllInHours(ts, parseFloat, format)) else None
    decreases |ts|
  {
    if ts != [] {
      RewritesTermByTerm(ts[1..], parseFloat, format);
      assert forall i | 0 < i < |ts| :: ts[i] == ts[1..][i - 1];
      assert Counted(ts, parseFloat) <==> (IsNew(ts[0]) ==> parseFloat(ts[0].mantissa).Some?) && Counted(ts[1..], parseFloat);
      TermInHoursIs(ts[0], parseFloat, format);
    }
  }

  lemma TermInHoursIs(t: Term, parseFloat: string -> Option<real>, format: real -> string)
    ensures RewriteTerm(t, parseFloat, format)
         == if IsNew(t) && parseFloat(t.mantissa).None? then None else Some(InHours(t, parseFloat, format))
  {
    assert DAY / HOUR == 24 && WEEK / HOUR == 168;
  }

  // Without a day or a week nothing is rewritten.
  lemma {:induction false} NothingInHours(ts: seq<Term>, parseFloat: string -> Option<real>, format: real -> string)
    requires forall i | 0 <= i < |ts| :: !IsNew(ts[i])
    ensures Counted(ts, parseFloat) && AllInHours(ts, parseFloat, format) == Spelled(ts)
    decreases |ts|
  {
    if ts != [] {
      NothingInHours(ts[1..], parseFloat, format);
    }
  }

  lemma {:induction false} NewUnitIsSpelled(ts: seq<Term>, i: nat)
    requires i < |ts| && IsNew(ts[i])
    ensures HasNewUnit(Spelled(ts))
    decreases |ts|
  {
    var s := Spelled(ts);
    if i == 0 {
      var m, u := ts[0].mantissa, ts[0].unit;
      assert s == m + u + Spelled(ts[1..]) && s[|m|] == u[0];
    } else {
      NewUnitIsSpelled(ts[1..], i - 1);
      var rest := Spelled(ts[1..]);
      assert s == (ts[0].mantissa + ts[0].unit) + rest;
      assert forall c | c in rest :: c in s;
    }
  }

  lemma SpelledBegins(ts: seq<Term>)
    requires ts != [] && ts[0].mantissa != ""
    ensures Spelled(ts) != "" && Spelled(ts)[0] == ts[0].mantissa[0]
  {
  }

  lemma SignIsSplit(sign: string, rest: string)
    requires sign in {"", "-", "+"} && rest != "" && IsMantissaByte(rest[0])
    ensures Sign(sign + rest) == sign && (sign + rest)[|sign|..] == rest
    ensures HasNewUnit(sign + rest) <==> HasNewUnit(rest)
    ensures !IsSpace((sign + rest)[0])
  {
    var s := sign + rest;
    if sign == "" {
      assert s == rest;
    }
    assert forall c | c in rest :: c in s;
    assert forall c | c in s :: c in sign || c in rest;
  }

  // A span, with or without a sign and space around it, is read term by term, in order: each day and week as its hours, each
  // other term as the standard parser reads it, the sign kept in front. It is refused here only for a day or a week counted in
  // no number.
  lemma SpansAreReadTermByTerm(left: string, sign: string, ts: seq<Term>, right: string, std: string -> Option<int>,
                               parseFloat: string -> Option<real>, format: real -> string)
    requires AllSpace(left) && AllSpace(right) && sign in {"", "-", "+"}
    requires InTurn(ts) && ts != [] && ts[0].mantissa != "" && !IsSpace(Spelled(ts)[|Spelled(ts)| - 1])
    ensures SpanOf(left + (sign + Spelled(ts)) + right, std, parseFloat, format)
         == if Counted(ts, parseFloat) then std(sign + AllInHours(ts, parseFloat, format)) else None
  {
    hide Spelled, Rewrite, Terms, TrimSpace, HasNewUnit, Sign, Counted, AllInHours, IsSpace;
    SpelledBegins(ts);
    var s := sign + Spelled(ts);
    SignIsSplit(sign, Spelled(ts));
    TrimsAround(left, s, right);
    if forall i | 0 <= i < |ts| :: !IsNew(ts[i]) {
      NothingInHours(ts, parseFloat, format);
    } else {
      var i :| 0 <= i < |ts| && IsNew(ts[i]);
      NewUnitIsSpelled(ts, i);
    }
    SpelledIsScanned(ts);
    RewritesTermByTerm(ts, parseFloat, format);
  }

  // -------------------------------------------------------------------------
  // Whole days and weeks
  // -------------------------------------------------------------------------

  // What a person strings together: whole days, whole weeks, and terms the standard parser knows or refuses by itself.
  datatype Piece = Days(k: nat) | Weeks(k: nat) | Other(mantissa: string, unit: string)
  {
    predicate Sound() {
      match this
      case Days(k) => 24 * k < 0x20_0000_0000_0000
      case Weeks(k) => 168 * k < 0x20_0000_0000_0000
      case Other(m, u) => m != "" && IsMantissa(m) && u != "" && IsUnit(u) && u != "d" && u != "w" && !IsSpace(u[|u| - 1])
    }

    function Typed(): string {
      match this
      case Days(k) => Decimal(k) + "d"
      case Weeks(k) => Decimal(k) + "w"
      case Other(m, u) => m + u
    }

    function Standard(): string {
      match this
      case Days(k) => Decimal(24 * k) + "h"
      case Weeks(k) => Decimal(168 * k) + "h"
      case Other(m, u) => m + u
    }

    function AsTerm(): Term {
      match this
      case Days(k) => Term(Decimal(k), "d")
      case Weeks(k) => Term(Decimal(k), "w")
      case Other(m, u) => Term(m, u)
    }
  }

  function TypedText(ps: seq<Piece>): string {
    if ps == [] then "" else ps[0].Typed() + TypedText(ps[1..])
  }

  function StandardText(ps: seq<Piece>): string {
    if ps == [] then "" else ps[0].Standard() + StandardText(ps[1..])
  }

  function AsTerms(ps: seq<Piece>): (ts: seq<Term>)
    ensures |ts| == |ps| && forall i | 0 <= i < |ps| :: ts[i] == ps[i].AsTerm()
  {
    seq(|ps|, i requires 0 <= i < |ps| => ps[i].AsTerm())
  }

  lemma PieceIsATerm(p: Piece)
    requires p.Sound()
    ensures var t := p.AsTerm();
            && t.mantissa + t.unit == p.Typed() && t.mantissa != "" && t.unit != "" && IsMantissa(t.mantissa) && IsUnit(t.unit)
            && !IsSpace(t.unit[|t.unit| - 1])
  {
  }

  lemma PieceInHours(p: Piece, parseFloat: string -> Option<real>, format: real -> string)
    requires p.Sound() && ExactOnIntegers(parseFloat, format)
    ensures IsNew(p.AsTerm()) ==> parseFloat(p.AsTerm().mantissa).Some?
    ensures InHours(p.AsTerm(), parseFloat, format) == p.Standard()
  {
    hide Decimal, ExactOnIntegers;
    match p
    case Days(k) => ExactHere(k, 24 * k, 24, parseFloat, format);
    case Weeks(k) => ExactHere(k, 168 * k, 168, parseFloat, format);
    case Other(_, _) =>
  }

  lemma {:induction false} PiecesInHours(ps: seq<Piece>, parseFloat: string -> Option<real>, format: real -> string)
    requires (forall i | 0 <= i < |ps| :: ps[i].Sound()) && ExactOnIntegers(parseFloat, format)
    ensures Counted(AsTerms(ps), parseFloat) && AllInHours(AsTerms(ps), parseFloat, format) == StandardText(ps)
    ensures Spelled(AsTerms(ps)) == TypedText(ps)
    decreases |ps|
  {
    hide ExactOnIntegers, InHours, IsNew, Piece.Sound, Piece.Typed, Piece.Standard, Piece.AsTerm;
    if ps != [] {
      PieceInHours(ps[0], parseFloat, format);
      PieceIsATerm(ps[0]);
      PiecesInHours(ps[1..], parseFloat, format);
      assert AsTerms(ps)[1..] == AsTerms(ps[1..]);
      assert forall i | 0 < i < |ps| :: AsTerms(ps)[i] == AsTerms(ps[1..])[i - 1];
    }
  }

  lemma PiecesInTurn(ps: seq<Piece>)
    requires forall i | 0 <= i < |ps| :: ps[i].Sound()
    ensures InTurn(AsTerms(ps))
    ensures ps != [] ==> AsTerms(ps)[0].mantissa != ""
  {
    hide IsMantissa, IsUnit, IsSpace, Piece.Sound, Piece.Typed, Piece.AsTerm;
    forall i | 0 <= i < |ps|
      ensures var t := AsTerms(ps)[i];
              t.mantissa != "" && t.unit != "" && IsMantissa(t.mantissa) && IsUnit(t.unit)
    {
      PieceIsATerm(ps[i]);
    }
  }

  lemma {:induction false} LastIsNoSpace(ps: seq<Piece>)
    requires ps != [] && forall i | 0 <= i < |ps| :: ps[i].Sound()
    ensures TypedText(ps) != "" && !IsSpace(TypedText(ps)[|TypedText(ps)| - 1])
    decreases |ps|
  {
    hide IsMantissa, IsUnit, IsSpace, Piece.Sound, Piece.Typed, Piece.AsTerm;
    PieceIsATerm(ps[0]);
    if |ps| > 1 {
      LastIsNoSpace(ps[1..]);
    } else {
      var t := ps[0].AsTerm();
      assert TypedText(ps[1..]) == "";
      assert TypedText(ps) == t.mantissa + t.unit;
    }
  }

  // Whole days and weeks, alone or among other terms, in any order and with any sign, are read as so many times 24 and 168 hours
  // in the same places: 1d12h as 24h12h, -2w3d4h as -336h72h4h.
  lemma DaysAndWeeksAreHours(left: string, sign: string, ps: seq<Piece>, right: string, std: string -> Option<int>,
                             parseFloat: string -> Option<real>, format: real -> string)
    requires AllSpace(left) && AllSpace(right) && sign in {"", "-", "+"} && ExactOnIntegers(parseFloat, format)
    requires ps != [] && forall i | 0 <= i < |ps| :: ps[i].Sound()
    ensures SpanOf(left + (sign + TypedText(ps)) + right, std, parseFloat, format) == std(sign + StandardText(ps))
  {
    hide ExactOnIntegers, SpanOf, Piece.Sound, Counted, AllInHours, Spelled, TypedText, StandardText, InTurn, AllSpace, IsSpace;
    PiecesInTurn(ps);
    PiecesInHours(ps, parseFloat, format);
    LastIsNoSpace(ps);
    SpansAreReadTermByTerm(left, sign, AsTerms(ps), right, std, parseFloat, format);
  }

  // Duration prints the whole number of the largest unit there is at least one of, and no more of it than the next unit has: so
  // many weeks, less than seven days, less than 24 hours, less than 60 minutes, less than 60 seconds.
  lemma DurationIsTheLargestUnit(d: nat)
    ensures d >= 604_800_000_000_000 ==>
              exists q: nat :: Duration(d) == Decimal(q) + "w" && q * 604_800_000_000_000 <= d < (q + 1) * 604_800_000_000_000
    ensures 86_400_000_000_000 <= d < 604_800_000_000_000 ==>
              exists q: nat :: Duration(d) == Decimal(q) + "d" && q < 7 && q * 86_400_000_000_000 <= d < (q + 1) * 86_400_000_000_000
    ensures 3_600_000_000_000 <= d < 86_400_000_000_000 ==>
              exists q: nat :: Duration(d) == Decimal(q) + "h" && q < 24 && q * 3_600_000_000_000 <= d < (q + 1) * 3_600_000_000_000
    ensures 60_000_000_000 <= d < 3_600_000_000_000 ==>
              exists q: nat :: Duration(d) == Decimal(q) + "m" && q < 60 && q * 60_000_000_000 <= d < (q + 1) * 60_000_000_000
    ensures 1_000_000_000 <= d < 60_000_000_000 ==>
              exists q: nat :: Duration(d) == Decimal(q) + "s" && q < 60 && q * 1_000_000_000 <= d < (q + 1) * 1_000_000_000
    ensures d < 1_000_000_000 ==> Duration(d) == "0s"
  {
    hide Decimal;
    var unit, q := Ladder(d).0, d / Ladder(d).0;
    assert d == q * unit + d % unit;
    if d >= SECOND {
      assert Duration(d) == Decimal(q) + Ladder(d).1;
    }
  }

  // -------------------------------------------------------------------------
  // Sizes
  // -------------------------------------------------------------------------

  const SUFFIXES := {"", "B", "b", "i", "I", "iB", "ib", "IB", "Ib"}

  // What a unit letter, in either case, multiplies by; bytes have none.
  const MULTIPLES := map[
    "" := 1, "K" := 0x400, "k" := 0x400, "M" := 0x10_0000, "m" := 0x10_0000, "G" := 0x4000_0000, "g" := 0x4000_0000,
    "T" := 0x100_0000_0000, "t" := 0x100_0000_0000, "P" := 0x4_0000_0000_0000, "p" := 0x4_0000_0000_0000,
    "E" := 0x1000_0000_0000_0000, "e" := 0x1000_0000_0000_0000]

  // The suffix is shed whole, and nothing before it.
  lemma SuffixIsShed(u: string, suffix: string)
    requires suffix in SUFFIXES && u != "" && u[|u| - 1] !in {'B', 'b', 'i', 'I'}
    ensures Shed(u + suffix) == u
  {
    var s := u + suffix;
    assert u + "" == u;
    if |suffix| == 1 {
      assert s[..|s| - 1] == u && s[|s| - 1] == suffix[0];
    } else if |suffix| == 2 {
      var v := u + [suffix[0]];
      assert s[..|s| - 1] == v && s[|s| - 1] == suffix[1] && v[..|v| - 1] == u && v[|v| - 1] == suffix[0];
    }
  }

  lemma MultiplierIs(unit: string)
    requires unit in MULTIPLES && unit != ""
    ensures |unit| == 1 && Multiplier(unit[0]) == MULTIPLES[unit] > 1 && !IsSpace(unit[0])
    ensures unit[0] !in {'B', 'b', 'i', 'I'} && !IsDigit(unit[0])
  {
    Powers();
  }

  lemma DigitsAreNoUnit(c: char)
    requires IsDigit(c)
    ensures Multiplier(c) == 1 && !IsSpace(c) && c !in {'B', 'b', 'i', 'I'}
  {
  }

  // What a number, a unit and a suffix come to: the number's own reading, scaled.
  lemma TypedSizeIs(left: string, m: string, gap: string, unit: string, suffix: string, right: string,
                    parseFloat: string -> Option<real>)
    requires AllSpace(left) && AllSpace(gap) && AllSpace(right) && unit in MULTIPLES && suffix in SUFFIXES
    requires m != "" && !IsSpace(m[0]) && IsDigit(m[|m| - 1]) && (unit == "" ==> gap == "")
    ensures SizeOf(left + (m + gap + unit + suffix) + right, parseFloat) == Scale(m, MULTIPLES[unit], parseFloat)
  {
    hide Scale, TrimLeft, TrimRight, Shed, Multiplier, IsSpace, TrimSpace, AllSpace;
    DigitsAreNoUnit(m[|m| - 1]);
    var u := m + gap + unit;
    TypedUnit(m, gap, unit);
    SuffixIsShed(u, suffix);
    SuffixEnds(u, suffix);
    TrimsAround(left, u + suffix, right);
    assert m + gap + unit + suffix == u + suffix;
    if unit == "" {
      NothingToTrimHere(m);
      assert u == m;
    } else {
      MultiplierIs(unit);
      assert u[..|u| - 1] == m + gap == "" + m + gap;
      NoSpaceIsSpace();
      TrimsAround("", m, gap);
    }
  }

  lemma NoSpaceIsSpace()
    ensures AllSpace("")
  {
  }

  lemma NothingToTrimHere(m: string)
    requires m != "" && !IsSpace(m[0]) && !IsSpace(m[|m| - 1])
    ensures TrimSpace(m) == m
  {
    hide IsSpace;
    NothingToTrim(m);
  }

  lemma TypedUnit(m: string, gap: string, unit: string)
    requires m != "" && !IsSpace(m[0]) && IsDigit(m[|m| - 1]) && unit in MULTIPLES && (unit == "" ==> gap == "")
    ensures var u := m + gap + unit;
            && u != "" && u[0] == m[0] && !IsSpace(u[|u| - 1]) && u[|u| - 1] !in {'B', 'b', 'i', 'I'}
            && Multiplier(u[|u| - 1]) == MULTIPLES[unit]
  {
    hide IsSpace, Multiplier;
    var u := m + gap + unit;
    if unit == "" {
      assert u == m;
      DigitsAreNoUnit(m[|m| - 1]);
    } else {
      MultiplierIs(unit);
      assert u[|u| - 1] == unit[0];
    }
  }

  lemma SuffixEnds(u: string, suffix: string)
    requires suffix in SUFFIXES && u != "" && !IsSpace(u[0]) && !IsSpace(u[|u| - 1])
    ensures var s := u + suffix; s != "" && !IsSpace(s[0]) && !IsSpace(s[|s| - 1])
  {
    var s := u + suffix;
    assert s[|s| - 1] == if suffix == "" then u[|u| - 1] else suffix[|suffix| - 1];
  }

  // A whole number of bytes, or of any unit from kibibytes to exbibytes, in either case, with or without B, i or iB, space around
  // it or before its unit, is that number times that power of 1024 -- and is refused exactly when that does not fit an
  // int64: as malformed if the number alone does not, as out of range if only the product does not.
  lemma WholeSizesAreExact(left: string, k: nat, gap: string, unit: string, suffix: string, right: string,
                           parseFloat: string -> Option<real>)
    requires AllSpace(left) && AllSpace(gap) && AllSpace(right) && unit in MULTIPLES && suffix in SUFFIXES
    requires unit == "" ==> gap == ""
    ensures SizeOf(left + (Decimal(k) + gap + unit + suffix) + right, parseFloat)
         == if k > MAX_INT64 then Err(Malformed)
            else if k * MULTIPLES[unit] > MAX_INT64 then Err(OutOfRange)
            else Ok(k * MULTIPLES[unit])
  {
    hide Scale, SizeOf, IsSpace, Decimal;
    DigitsAreNoUnit(Decimal(k)[0]);
    TypedSizeIs(left, Decimal(k), gap, unit, suffix, right, parseFloat);
    WholeScale(k, MULTIPLES[unit], parseFloat);
  }

  lemma WholeScale(k: nat, mult: nat, parseFloat: string -> Option<real>)
    requires mult > 0
    ensures Scale(Decimal(k), mult, parseFloat)
         == if k > MAX_INT64 then Err(Malformed) else if k * mult > MAX_INT64 then Err(OutOfRange) else Ok(k * mult)
  {
    hide Decimal, ParseInt;
    DigitsParse(Decimal(k));
    NumberOfDecimal(k);
    ParseIntOfDecimal(k);
    if k <= MAX_INT64 {
      QuotientBound(k, mult, MAX_INT64);
    }
  }

  lemma ParseIntOfDecimal(k: nat)
    ensures ParseInt(Decimal(k)) == if k > MAX_INT64 then None else Some(k)
  {
    hide Decimal, Number;
    NumberOfDecimal(k);
    assert IsDigit(Decimal(k)[0]);
  }

  lemma QuotientBound(k: nat, mult: nat, top: nat)
    requires mult > 0
    ensures k > top / mult <==> k * mult > top
  {
    var q := top / mult;
    assert top == q * mult + top % mult;
    if k > q {
      Monotone(q + 1, k, mult);
    } else {
      Monotone(k, q, mult);
    }
  }

  // A sign is read and refused for what it is; a fraction of a byte is malformed.
  lemma NegativeSizesAreRefused(k: nat, unit: string, suffix: string, parseFloat: string -> Option<real>)
    requires 0 < k <= MAX_INT64 && unit in MULTIPLES && suffix in SUFFIXES
    ensures SizeOf("-" + Decimal(k) + unit + suffix, parseFloat) == Err(Negative)
  {
    hide Scale, SizeOf, Decimal;
    var m := "-" + Decimal(k);
    assert m[|m| - 1] == Decimal(k)[|Decimal(k)| - 1];
    assert "" + (m + "" + unit + suffix) + "" == "-" + Decimal(k) + unit + suffix;
    TypedSizeIs("", m, "", unit, suffix, "", parseFloat);
    NegativeScale(k, MULTIPLES[unit], parseFloat);
  }

  lemma NegativeScale(k: nat, mult: nat, parseFloat: string -> Option<real>)
    requires 0 < k <= MAX_INT64
    ensures Scale("-" + Decimal(k), mult, parseFloat) == Err(Negative)
  {
    hide Decimal, ParseInt;
    NumberOfDecimal(k);
    SignedParse(Decimal(k));
  }

  lemma FractionsNeedAUnit(whole: string, part: string, suffix: string, parseFloat: string -> Option<real>)
    requires IsPlain(whole, part) && suffix in SUFFIXES
    ensures SizeOf(whole + "." + part + suffix, parseFloat) == Err(Malformed)
  {
    hide Scale, SizeOf;
    var m := whole + "." + part;
    assert m[0] == whole[0] && IsDigit(whole[0]) && m[|m| - 1] == part[|part| - 1] && m[|whole|] == '.';
    assert "" + (m + "" + "" + suffix) + "" == m + suffix;
    TypedSizeIs("", m, "", "", suffix, "", parseFloat);
    FractionScale(m, parseFloat);
  }

  lemma FractionScale(m: string, parseFloat: string -> Option<real>)
    requires '.' in m
    ensures Scale(m, 1, parseFloat) == Err(Malformed)
  {
  }
}
