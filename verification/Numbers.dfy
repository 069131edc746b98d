/** Number texts: the grammar of RFC 8259 section 6, and the canonical rendering of
    src/lumencast/lsml/hash.py (ECMA-262, Number::toString). */
module Numbers {
  import opened Wrappers
  import opened Texts
  import opened Decimals

  // ------------------------------------------------------------ the grammar, as a reader

  datatype Exponent = Exponent(mark: char, sign: string, digits: string)

  /** int [ frac ] [ exp ]; the minus sign is kept apart. */
  datatype Numeral = Numeral(whole: string, frac: Option<string>, exp: Option<Exponent>)

  predicate WellFormed(n: Numeral) {
    && n.whole != "" && AllDigits(n.whole) && (|n.whole| > 1 ==> n.whole[0] != '0')
    && (n.frac.Some? ==> n.frac.value != "" && AllDigits(n.frac.value))
    && (n.exp.Some? ==> GoodExponent(n.exp.value))
  }

  predicate IsMark(c: char) {
    c == 'e' || c == 'E'
  }

  predicate GoodExponent(e: Exponent) {
    IsMark(e.mark) && (e.sign == "" || e.sign == "+" || e.sign == "-") && e.digits != "" && AllDigits(e.digits)
  }

  function FracText(f: Option<string>): string {
    if f.Some? then "." + f.value else ""
  }

  function ExpText(e: Option<Exponent>): string {
    if e.Some? then [e.value.mark] + (e.value.sign + e.value.digits) else ""
  }

  function NumeralText(n: Numeral): string {
    n.whole + FracText(n.frac) + ExpText(n.exp)
  }

  function FracDigits(n: Numeral): string {
    if n.frac.Some? then n.frac.value else ""
  }

  function ExpValue(n: Numeral): int
    requires WellFormed(n)
  {
    if n.exp.None? then 0
    else if n.exp.value.sign == "-" then -(NatOf(n.exp.value.digits) as int)
    else NatOf(n.exp.value.digits)
  }

  /** What the numeral denotes. */
  function NumeralValue(n: Numeral): real
    requires WellFormed(n)
  {
    Scale10(Num(n.whole + FracDigits(n)), ExpValue(n) - |FracDigits(n)|)
  }

  /** The longest run of digits at the start of s, and what follows it. */
  function DigitSplit(s: string): (p: (string, string))
    ensures s == p.0 + p.1 && AllDigits(p.0)
    ensures p.1 == "" || !IsDigit(p.1[0])
  {
    if s == "" || !IsDigit(s[0]) then ("", s)
    else
      var p := DigitSplit(s[1..]);
      ([s[0]] + p.0, p.1)
  }

  function SignSplit(s: string): (p: (string, string))
    ensures s == p.0 + p.1 && (p.0 == "" || p.0 == "+" || p.0 == "-")
  {
    if s != "" && (s[0] == '+' || s[0] == '-') then ([s[0]], s[1..]) else ("", s)
  }

  function ReadFrac(s: string): (r: Option<(Option<string>, string)>)
    ensures r.Some? && r.value.0.Some? ==> r.value.0.value != "" && AllDigits(r.value.0.value)
    ensures r.Some? ==> |r.value.1| <= |s|
  {
    if s == "" || s[0] != '.' then Some((None, s))
    else
      var p := DigitSplit(s[1..]);
      if p.0 == "" then None else Some((Some(p.0), p.1))
  }

  function ReadExp(s: string): (r: Option<(Option<Exponent>, string)>)
    ensures r.Some? && r.value.0.Some? ==> GoodExponent(r.value.0.value)
    ensures r.Some? ==> |r.value.1| <= |s|
  {
    if s == "" || !IsMark(s[0]) then Some((None, s))
    else
      var sign := SignSplit(s[1..]);
      var p := DigitSplit(sign.1);
      if p.0 == "" then None else Some((Some(Exponent(s[0], sign.0, p.0)), p.1))
  }

  function ReadNumeral(s: string): (r: Option<(Numeral, string)>)
    ensures r.Some? ==> WellFormed(r.value.0) && |r.value.1| < |s|
  {
    var w := DigitSplit(s);
    if w.0 == "" || (|w.0| > 1 && w.0[0] == '0') then None
    else
      var f := ReadFrac(w.1);
      if f.None? then None
      else
        var e := ReadExp(f.value.1);
        if e.None? then None else Some((Numeral(w.0, f.value.0, e.value.0), e.value.1))
  }

  function ReadUnsigned(s: string): Option<(real, string)> {
    var r := ReadNumeral(s);
    if r.None? then None else Some((NumeralValue(r.value.0), r.value.1))
  }

  function Negated(r: Option<(real, string)>): Option<(real, string)> {
    if r.None? then None else Some((-r.value.0, r.value.1))
  }

  /** number = [ minus ] int [ frac ] [ exp ] at the start of s: its value, and what follows. */
  function ReadNumber(s: string): Option<(real, string)> {
    if s != "" && s[0] == '-' then Negated(ReadUnsigned(s[1..])) else ReadUnsigned(s)
  }

  /** Nothing in rest can prolong a number. */
  predicate Ends(rest: string) {
    rest == "" || (!IsDigit(rest[0]) && rest[0] != '.' && !IsMark(rest[0]))
  }

  lemma {:induction false} DigitSplitStops(a: string, rest: string)
    requires AllDigits(a) && (rest == "" || !IsDigit(rest[0]))
    ensures DigitSplit(a + rest) == (a, rest)
  {
    if a == "" {
      assert a + rest == rest;
    } else {
      assert (a + rest)[1..] == a[1..] + rest;
      DigitSplitStops(a[1..], rest);
      assert a == [a[0]] + a[1..];
    }
  }

  lemma {:induction false} ReadFracText(f: Option<string>, rest: string)
    requires f.Some? ==> f.value != "" && AllDigits(f.value)
    requires rest == "" || (!IsDigit(rest[0]) && rest[0] != '.')
    ensures ReadFrac(FracText(f) + rest) == Some((f, rest))
  {
    if f.Some? {
      assert (FracText(f) + rest)[1..] == f.value + rest;
      DigitSplitStops(f.value, rest);
    } else {
      assert FracText(f) + rest == rest;
    }
  }

  lemma {:induction false} Regroup(a: string, b: string, c: string, d: string)
    ensures a + (b + (c + d)) == a + b + c + d
  {
  }

  lemma {:induction false} Regroup3(a: string, b: string, c: string, d: string)
    ensures a + (b + c) + d == a + (b + (c + d))
  {
  }

  lemma {:induction false} SignSplitStops(sign: string, t: string)
    requires sign == "" || sign == "+" || sign == "-"
    requires t != "" && IsDigit(t[0])
    ensures SignSplit(sign + t) == (sign, t)
  {
    if sign == "" { assert sign + t == t; } else { assert (sign + t)[1..] == t; }
  }

  lemma {:induction false} ReadExpParts(x: Exponent, rest: string)
    requires GoodExponent(x)
    requires rest == "" || !IsDigit(rest[0])
    ensures ReadExp([x.mark] + (x.sign + (x.digits + rest))) == Some((Some(x), rest))
  {
    var t := x.digits + rest;
    assert ([x.mark] + (x.sign + t))[1..] == x.sign + t;
    DigitSplitStops(x.digits, rest);
    SignSplitStops(x.sign, t);
  }

  lemma {:induction false} ReadExpText(e: Option<Exponent>, rest: string)
    requires e.Some? ==> GoodExponent(e.value)
    requires Ends(rest)
    ensures ReadExp(ExpText(e) + rest) == Some((e, rest))
  {
    if e.Some? {
      var x := e.value;
      ReadExpParts(x, rest);
      Regroup3([x.mark], x.sign, x.digits, rest);
    } else {
      assert ExpText(e) + rest == rest;
    }
  }

  lemma {:induction false} TailStarts(n: Numeral, rest: string)
    requires WellFormed(n) && Ends(rest)
    ensures var tail := ExpText(n.exp) + rest; tail == "" || (!IsDigit(tail[0]) && tail[0] != '.')
    ensures var mid := FracText(n.frac) + (ExpText(n.exp) + rest); mid == "" || !IsDigit(mid[0])
  {
    if n.exp.None? { assert ExpText(n.exp) + rest == rest; }
    if n.frac.None? { assert FracText(n.frac) + (ExpText(n.exp) + rest) == ExpText(n.exp) + rest; }
  }

  /** The reader takes the whole spelling of a well-formed numeral, whatever follows it. */
  lemma {:induction false} ReadNumeralText(n: Numeral, rest: string)
    requires WellFormed(n) && Ends(rest)
    ensures ReadNumeral(NumeralText(n) + rest) == Some((n, rest))
  {
    var tail := ExpText(n.exp) + rest;
    Regroup(n.whole, FracText(n.frac), ExpText(n.exp), rest);
    TailStarts(n, rest);
    DigitSplitStops(n.whole, FracText(n.frac) + tail);
    ReadFracText(n.frac, tail);
    ReadExpText(n.exp, rest);
  }

  // ------------------------------------------------------------- the canonical rendering

  const EXP_UPPER := 21

  /** Where each branch puts the digits of 0.digits times ten to the point. */
  function Place(digits: string, point: int): string
    requires digits != ""
  {
    var count := |digits|;
    if count <= point <= EXP_UPPER then digits + Zeros(point - count)
    else if 0 < point <= EXP_UPPER then digits[..point] + "." + digits[point..]
    else if -6 < point <= 0 then "0." + Zeros(-point) + digits
    else
      var exponent := point - 1;
      var mantissa := [digits[0]] + if count > 1 then "." + digits[1..] else "";
      mantissa + "e" + (if exponent >= 0 then "+" else "-") + NatText(if exponent >= 0 then exponent else -exponent)
  }

  /** The numeral that Place spells. */
  function Placed(digits: string, point: int): Numeral
    requires digits != ""
  {
    var count := |digits|;
    if count <= point <= EXP_UPPER then Numeral(digits + Zeros(point - count), None, None)
    else if 0 < point <= EXP_UPPER then Numeral(digits[..point], Some(digits[point..]), None)
    else if -6 < point <= 0 then Numeral("0", Some(Zeros(-point) + digits), None)
    else
      var x := point - 1;
      Numeral([digits[0]], if count > 1 then Some(digits[1..]) else None,
              Some(Exponent('e', if x >= 0 then "+" else "-", NatText(if x >= 0 then x else -x))))
  }

  lemma {:induction false} PlaceSpells(digits: string, point: int)
    requires Normal(digits)
    ensures WellFormed(Placed(digits, point)) && Place(digits, point) == NumeralText(Placed(digits, point))
  {
    if |digits| <= point <= EXP_UPPER {
      WholeSpells(digits + Zeros(point - |digits|));
    } else if 0 < point <= EXP_UPPER {
      DecimalSpells(digits[..point], digits[point..]);
    } else if -6 < point <= 0 {
      FractionSpells(digits, -point);
    } else {
      ExponentialSpells(digits, point);
    }
  }

  lemma {:induction false} WholeSpells(whole: string)
    ensures NumeralText(Numeral(whole, None, None)) == whole
  {
  }

  lemma {:induction false} FractionSpells(digits: string, n: nat)
    ensures NumeralText(Numeral("0", Some(Zeros(n) + digits), None)) == "0." + Zeros(n) + digits
  {
    assert "0" + ("." + (Zeros(n) + digits)) == "0." + Zeros(n) + digits;
  }

  lemma {:induction false} DecimalSpells(whole: string, frac: string)
    ensures NumeralText(Numeral(whole, Some(frac), None)) == whole + "." + frac
  {
  }

  lemma {:induction false} ExponentialSpells(digits: string, point: int)
    requires Normal(digits)
    requires point > EXP_UPPER || point <= -6
    ensures WellFormed(Placed(digits, point)) && Place(digits, point) == NumeralText(Placed(digits, point))
  {
    var x, n := point - 1, Placed(digits, point);
    var mantissa := [digits[0]] + if |digits| > 1 then "." + digits[1..] else "";
    assert mantissa == n.whole + FracText(n.frac);
    var sign, t := if x >= 0 then "+" else "-", NatText(if x >= 0 then x else -x);
    Regroup(mantissa, "e", sign, t);
    assert Place(digits, point) == mantissa + "e" + sign + t;
  }

  lemma {:induction false} WholeValue(n: Numeral)
    requires WellFormed(n) && n.frac.None? && n.exp.None?
    ensures NumeralValue(n) == Num(n.whole)
  {
    assert n.whole + "" == n.whole;
  }

  lemma {:induction false} HeadAndTail(digits: string)
    requires digits != ""
    ensures [digits[0]] + (if |digits| > 1 then digits[1..] else "") == digits
  {
  }

  lemma {:induction false} PlacedExponential(digits: string, point: int)
    requires Normal(digits)
    requires point > EXP_UPPER || point <= -6
    ensures WellFormed(Placed(digits, point))
    ensures NumeralValue(Placed(digits, point)) == Scaled(digits, point)
  {
    var x, n := point - 1, Placed(digits, point);
    NatTextReads(if x >= 0 then x else -x);
    assert ExpValue(n) == x;
    HeadAndTail(digits);
  }

  lemma {:induction false} PlacedFraction(digits: string, point: int)
    requires Normal(digits) && -6 < point <= 0
    ensures WellFormed(Placed(digits, point))
    ensures NumeralValue(Placed(digits, point)) == Scaled(digits, point)
  {
    var n := Placed(digits, point);
    assert n.whole + FracDigits(n) == Zeros(1 - point) + digits;
    NumLeadingZeros(1 - point, digits);
  }

  lemma {:induction false} PlacedValue(digits: string, point: int)
    requires Normal(digits) && WellFormed(Placed(digits, point))
    ensures NumeralValue(Placed(digits, point)) == Scaled(digits, point)
  {
    var count, n := |digits|, Placed(digits, point);
    if count <= point <= EXP_UPPER {
      WholeValue(n);
      ScaledPad(digits, point - count, point);
    } else if 0 < point <= EXP_UPPER {
      assert digits[..point] + digits[point..] == digits;
    } else if -6 < point <= 0 {
      PlacedFraction(digits, point);
    } else {
      PlacedExponential(digits, point);
    }
  }

  lemma {:induction false} PlaceUnsigned(digits: string, point: int, rest: string)
    requires Normal(digits) && Ends(rest)
    ensures ReadUnsigned(Place(digits, point) + rest) == Some((Scaled(digits, point), rest))
    ensures Place(digits, point) != "" && IsDigit(Place(digits, point)[0])
  {
    PlaceSpells(digits, point);
    PlacedValue(digits, point);
    ReadNumeralText(Placed(digits, point), rest);
  }

  /** Each branch prints a valid number of exactly the value 0.digits times ten to the point,
      and a reader finds its end. */
  lemma {:induction false} PlaceKeepsValue(digits: string, point: int, rest: string)
    requires Normal(digits) && Ends(rest)
    ensures ReadNumber(Place(digits, point) + rest) == Some((Scaled(digits, point), rest))
  {
    PlaceUnsigned(digits, point, rest);
  }

  /** Distinct normal forms print differently. */
  lemma {:induction false} PlaceInjective(a: string, p: int, b: string, q: int)
    requires Normal(a) && Normal(b) && Place(a, p) == Place(b, q)
    ensures a == b && p == q
  {
    PlaceKeepsValue(a, p, "");
    PlaceKeepsValue(b, q, "");
    NormalFormUnique(a, p, b, q);
  }

  // ------------------------------------------------- the digits of a repr text

  function LStrip(s: string): (r: string)
    ensures |r| <= |s|
  {
    if s != "" && s[0] == '0' then LStrip(s[1..]) else s
  }

  function RStrip(s: string): (r: string)
    ensures |r| <= |s|
  {
    if s != "" && s[|s|-1] == '0' then RStrip(s[..|s|-1]) else s
  }

  /** Python's int() on an exponent text. */
  function IntOf(s: string): int {
    if s != "" && s[0] == '-' && AllDigits(s[1..]) then -(NatOf(s[1..]) as int)
    else if s != "" && s[0] == '+' && AllDigits(s[1..]) then NatOf(s[1..])
    else if AllDigits(s) then NatOf(s)
    else 0
  }

  function Strip(whole: string, frac: string, exponent: int): (string, int) {
    var raw := whole + frac;
    var stripped := LStrip(raw);
    var digits := RStrip(stripped);
    (if digits == "" then "0" else digits, |whole| + exponent - (|raw| - |stripped|))
  }

  function ShortestDigits(text: string): (string, int) {
    var e := IndexFrom(text, 'e', 0);
    var mantissa, exponent := text[..e], if e < |text| then IntOf(text[e+1..]) else 0;
    var dot := IndexFrom(mantissa, '.', 0);
    var whole, frac := mantissa[..dot], if dot < |mantissa| then mantissa[dot+1..] else "";
    Strip(whole, frac, exponent)
  }

  /** A repr of a non-negative number: a numeral without a capital E. */
  predicate ReprShaped(text: string) {
    && ReadNumeral(text).Some?
    && ReadNumeral(text).value.1 == ""
    && 'E' !in text
  }

  function ReprValue(text: string): real
    requires ReprShaped(text)
  {
    NumeralValue(ReadNumeral(text).value.0)
  }

  lemma {:induction false} ReadFracBack(s: string)
    requires ReadFrac(s).Some?
    ensures s == FracText(ReadFrac(s).value.0) + ReadFrac(s).value.1
  {
    if s != "" && s[0] == '.' {
      var p := DigitSplit(s[1..]);
      assert s == ['.'] + (p.0 + p.1);
    }
  }

  lemma {:induction false} ReadExpBack(s: string)
    requires ReadExp(s).Some?
    ensures s == ExpText(ReadExp(s).value.0) + ReadExp(s).value.1
  {
    if s != "" && IsMark(s[0]) {
      var sign := SignSplit(s[1..]);
      var p := DigitSplit(sign.1);
      Regroup3([s[0]], sign.0, p.0, p.1);
      assert s == [s[0]] + s[1..];
    }
  }

  /** And nothing else: what it took is the spelling of the well-formed numeral it returns. */
  lemma {:induction false} ReadBack(s: string)
    requires ReadNumeral(s).Some?
    ensures WellFormed(ReadNumeral(s).value.0)
    ensures s == NumeralText(ReadNumeral(s).value.0) + ReadNumeral(s).value.1
  {
    var w := DigitSplit(s);
    var f := ReadFrac(w.1).value;
    var e := ReadExp(f.1).value;
    ReadFracBack(w.1);
    ReadExpBack(f.1);
    Regroup(w.0, FracText(f.0), ExpText(e.0), e.1);
  }

  lemma {:induction false} LStripZeros(s: string)
    ensures s == Zeros(|s| - |LStrip(s)|) + LStrip(s)
    ensures LStrip(s) != "" ==> LStrip(s)[0] != '0'
  {
    if s != "" && s[0] == '0' {
      LStripZeros(s[1..]);
      assert s == [s[0]] + s[1..];
      assert Zeros(|s| - |LStrip(s)|) == ['0'] + Zeros(|s[1..]| - |LStrip(s)|);
    }
  }

  lemma {:induction false} RStripZeros(s: string)
    ensures s == RStrip(s) + Zeros(|s| - |RStrip(s)|)
    ensures RStrip(s) != "" ==> RStrip(s)[|RStrip(s)|-1] != '0'
  {
    if s != "" && s[|s|-1] == '0' {
      RStripZeros(s[..|s|-1]);
      assert s == s[..|s|-1] + [s[|s|-1]];
      assert Zeros(|s| - |RStrip(s)|) == Zeros(|s| - 1 - |RStrip(s)|) + ['0'];
    }
  }

  lemma {:induction false} DigitsOfParts(a: string, b: string)
    requires AllDigits(a + b)
    ensures AllDigits(a) && AllDigits(b)
  {
    assert forall i :: 0 <= i < |a| ==> a[i] == (a + b)[i];
    assert forall i :: 0 <= i < |b| ==> b[i] == (a + b)[|a|+i];
  }

  /** The digits between the zeros, normal unless there are none. */
  predicate Stripped(raw: string, stripped: string, digits: string) {
    && |digits| <= |stripped| <= |raw|
    && raw == Zeros(|raw| - |stripped|) + stripped && stripped == digits + Zeros(|stripped| - |digits|)
    && AllDigits(raw) && AllDigits(stripped) && AllDigits(digits)
    && (digits != "" ==> Normal(digits))
  }

  /** A digit string is its stripped digits between zeros, and empty only if all are zeros. */
  lemma {:induction false} StripParts(raw: string)
    requires AllDigits(raw)
    ensures Stripped(raw, LStrip(raw), RStrip(LStrip(raw)))
  {
    var stripped := LStrip(raw);
    LStripZeros(raw);
    RStripZeros(stripped);
    StrippedParts(raw, stripped, RStrip(stripped), |raw| - |stripped|, |stripped| - |RStrip(stripped)|);
  }

  lemma {:induction false} StrippedParts(raw: string, stripped: string, digits: string, lead: nat, trail: nat)
    requires AllDigits(raw) && raw == Zeros(lead) + stripped && stripped == digits + Zeros(trail)
    requires stripped != "" ==> stripped[0] != '0'
    requires digits != "" ==> digits[|digits|-1] != '0'
    ensures AllDigits(stripped) && AllDigits(digits) && (digits != "" ==> Normal(digits))
  {
    DigitsOfParts(Zeros(lead), stripped);
    DigitsOfParts(digits, Zeros(trail));
    SameHead(stripped, digits, Zeros(trail));
  }

  lemma {:induction false} SameHead(s: string, a: string, b: string)
    requires s == a + b
    ensures a != "" ==> s != "" && a[0] == s[0]
  {
  }

  lemma {:induction false} StripValue(raw: string, stripped: string, digits: string, lead: nat, trail: nat, shift: int)
    requires raw == Zeros(lead) + stripped && stripped == digits + Zeros(trail)
    requires AllDigits(raw) && AllDigits(stripped) && AllDigits(digits)
    ensures Scaled(digits, |stripped| + shift) == Scale10(Num(raw), shift)
    ensures Num(raw) != 0.0 ==> digits != ""
  {
    NumLeadingZeros(lead, stripped);
    ScaledPad(digits, trail, |stripped| + shift);
    NumZeros(trail);
    ZerosOnly(digits, trail);
  }

  lemma {:induction false} StripFinish(raw: string, stripped: string, digits: string, shift: int)
    requires Stripped(raw, stripped, digits) && Num(raw) != 0.0
    ensures IsNormalForm((digits, |raw| + shift - (|raw| - |stripped|)), Scale10(Num(raw), shift))
  {
    StripValue(raw, stripped, digits, |raw| - |stripped|, |stripped| - |digits|, shift);
    assert |raw| + shift - (|raw| - |stripped|) == |stripped| + shift;
  }

  /** Stripping a digit string that is not all zeros: the same value, in normal form. */
  lemma {:induction false} StripNormal(raw: string, shift: int)
    requires AllDigits(raw) && Num(raw) != 0.0
    ensures IsNormalForm((RStrip(LStrip(raw)), |raw| + shift - (|raw| - |LStrip(raw)|)), Scale10(Num(raw), shift))
  {
    StripParts(raw);
    StripFinish(raw, LStrip(raw), RStrip(LStrip(raw)), shift);
  }

  lemma {:induction false} ZerosOnly(digits: string, n: nat)
    ensures digits == "" ==> digits + Zeros(n) == Zeros(n)
  {
  }

  /** The normal form of v: its digits and its point. */
  predicate IsNormalForm(p: (string, int), v: real) {
    Normal(p.0) && Scaled(p.0, p.1) == v
  }

  lemma {:induction false} StripKeepsValue(whole: string, frac: string, exponent: int)
    requires AllDigits(whole + frac) && Num(whole + frac) != 0.0
    ensures IsNormalForm(Strip(whole, frac, exponent), Scale10(Num(whole + frac), exponent - |frac|))
  {
    StripNormal(whole + frac, exponent - |frac|);
  }

  lemma {:induction false} SplitAt(a: string, c: char, b: string)
    requires c !in a
    ensures var s := a + ([c] + b);
      var k := IndexFrom(s, c, 0);
      k < |s| && s[..k] == a && s[k+1..] == b
  {
    var s := a + ([c] + b);
    assert s[0..|a|] == a && s[|a|] == c;
    IndexFromUnique(s, c, 0, |a|);
  }

  /** The mantissa is split at its dot. */
  predicate MantissaAt(m: string, whole: string, frac: string) {
    var dot := IndexFrom(m, '.', 0);
    m[..dot] == whole && (if dot < |m| then m[dot+1..] else "") == frac
  }

  /** The text is split at its e. */
  predicate TextAt(text: string, m: string, exponent: int) {
    var e := IndexFrom(text, 'e', 0);
    text[..e] == m && (if e < |text| then IntOf(text[e+1..]) else 0) == exponent
  }

  lemma {:induction false} MantissaSplits(n: Numeral)
    requires WellFormed(n)
    ensures var m := n.whole + FracText(n.frac); 'e' !in m && MantissaAt(m, n.whole, FracDigits(n))
  {
    DigitsOnly(n.whole);
    if n.frac.Some? {
      DigitsOnly(n.frac.value);
      SplitAt(n.whole, '.', n.frac.value);
    } else {
      assert n.whole + "" == n.whole;
      assert n.whole[..|n.whole|] == n.whole;
    }
  }

  lemma {:induction false} DigitsOnly(s: string)
    requires AllDigits(s)
    ensures 'e' !in s && 'E' !in s && '.' !in s
  {
  }

  lemma {:induction false} ExponentReads(n: Numeral)
    requires WellFormed(n) && n.exp.Some?
    ensures IntOf(n.exp.value.sign + n.exp.value.digits) == ExpValue(n)
  {
    var x := n.exp.value;
    var s := x.sign + x.digits;
    if x.sign == "" { assert s == x.digits; } else { assert s[1..] == x.digits; }
  }

  lemma {:induction false} TextSplits(n: Numeral)
    requires WellFormed(n) && (n.exp.Some? ==> n.exp.value.mark == 'e')
    ensures TextAt(NumeralText(n), n.whole + FracText(n.frac), ExpValue(n))
  {
    var m := n.whole + FracText(n.frac);
    assert 'e' !in m by { MantissaSplits(n); }
    if n.exp.Some? {
      var tail := n.exp.value.sign + n.exp.value.digits;
      assert NumeralText(n) == m + (['e'] + tail);
      SplitAt(m, 'e', tail);
      ExponentReads(n);
    } else {
      assert NumeralText(n) == m;
      assert m[..|m|] == m;
    }
  }

  lemma {:induction false} PartsOf(text: string, m: string, whole: string, frac: string, exponent: int)
    requires TextAt(text, m, exponent) && MantissaAt(m, whole, frac)
    ensures ShortestDigits(text) == Strip(whole, frac, exponent)
  {
  }

  /** What ShortestDigits computes, in terms of the parts of the text. */
  lemma {:induction false} ShortestDigitsParts(n: Numeral)
    requires WellFormed(n) && (n.exp.Some? ==> n.exp.value.mark == 'e')
    ensures ShortestDigits(NumeralText(n)) == Strip(n.whole, FracDigits(n), ExpValue(n))
  {
    TextSplits(n);
    MantissaSplits(n);
    PartsOf(NumeralText(n), n.whole + FracText(n.frac), n.whole, FracDigits(n), ExpValue(n));
  }

  lemma {:induction false} ReprParts(text: string)
    requires ReprShaped(text)
    ensures var n := ReadNumeral(text).value.0;
      WellFormed(n) && NumeralText(n) == text && (n.exp.Some? ==> n.exp.value.mark == 'e')
  {
    var n := ReadNumeral(text).value.0;
    ReadBack(text);
    assert NumeralText(n) + "" == NumeralText(n);
    if n.exp.Some? { assert text[|n.whole + FracText(n.frac)|] == n.exp.value.mark; }
  }

  lemma {:induction false} NonZeroDigits(n: Numeral)
    requires WellFormed(n) && NumeralValue(n) != 0.0
    ensures Num(n.whole + FracDigits(n)) != 0.0
  {
    ScaleZero(ExpValue(n) - |FracDigits(n)|);
  }

  lemma {:induction false} StrippedNormal(n: Numeral, p: (string, int))
    requires WellFormed(n) && NumeralValue(n) != 0.0
    requires p == Strip(n.whole, FracDigits(n), ExpValue(n))
    ensures IsNormalForm(p, NumeralValue(n))
  {
    NonZeroDigits(n);
    StripKeepsValue(n.whole, FracDigits(n), ExpValue(n));
  }

  lemma {:induction false} NumeralDigitsNormal(n: Numeral)
    requires WellFormed(n) && (n.exp.Some? ==> n.exp.value.mark == 'e') && NumeralValue(n) != 0.0
    ensures IsNormalForm(ShortestDigits(NumeralText(n)), NumeralValue(n))
  {
    ShortestDigitsParts(n);
    StrippedNormal(n, ShortestDigits(NumeralText(n)));
  }

  /** The digits read off the repr of a positive number are its one normal form. */
  lemma {:induction false} ShortestDigitsNormal(text: string)
    requires ReprShaped(text) && ReprValue(text) > 0.0
    ensures IsNormalForm(ShortestDigits(text), ReprValue(text))
  {
    ReprParts(text);
    NumeralDigitsNormal(ReadNumeral(text).value.0);
  }

  /** format_number, on the sign and the repr text of a finite float. */
  function FormatNumber(neg: bool, text: string): string
    requires ReprShaped(text)
  {
    if ReprValue(text) == 0.0 then "0"
    else
      var (digits, point) := ShortestDigits(text);
      ShortestDigitsNonEmpty(text);
      (if neg then "-" else "") + Place(digits, point)
  }

  lemma {:induction false} ShortestDigitsNonEmpty(text: string)
    ensures ShortestDigits(text).0 != ""
  {
  }

  function SignedValue(neg: bool, text: string): real
    requires ReprShaped(text)
  {
    if neg then -ReprValue(text) else ReprValue(text)
  }

  lemma {:induction false} NumeralNonNegative(n: Numeral)
    requires WellFormed(n)
    ensures NumeralValue(n) >= 0.0
  {
    ScaleNonNegative(Num(n.whole + FracDigits(n)), ExpValue(n) - |FracDigits(n)|);
  }

  lemma {:induction false} ReprNonNegative(text: string)
    requires ReprShaped(text)
    ensures ReprValue(text) >= 0.0
  {
    NumeralNonNegative(ReadNumeral(text).value.0);
  }

  lemma {:induction false} ZeroReads(rest: string)
    requires Ends(rest)
    ensures ReadNumber("0" + rest) == Some((0.0, rest))
  {
    var zero := Numeral("0", None, None);
    ReadNumeralText(zero, rest);
    assert NumeralText(zero) == "0";
    WholeValue(zero);
    NumOne('0');
  }

  /** A minus sign before what reads as a number negates it. */
  lemma {:induction false} MinusReads(s: string)
    ensures ReadNumber(['-'] + s) == Negated(ReadUnsigned(s))
  {
    assert (['-'] + s)[1..] == s;
  }

  lemma {:induction false} SignReads(neg: bool, s: string, signed: string, v: real, rest: string)
    requires signed == if neg then ['-'] + s else s
    requires s != "" && IsDigit(s[0]) && ReadUnsigned(s) == Some((v, rest))
    ensures ReadNumber(signed) == Some((if neg then -v else v, rest))
  {
    if neg { MinusReads(s); }
  }

  lemma {:induction false} SignedText(neg: bool, t: string, rest: string)
    ensures (if neg then "-" else "") + t + rest == if neg then ['-'] + (t + rest) else t + rest
  {
    assert "" + t == t;
  }

  /** What FormatNumber prints for a number that is not zero. */
  lemma {:induction false} FormatParts(neg: bool, text: string) returns (digits: string, point: int)
    requires ReprShaped(text) && ReprValue(text) > 0.0
    ensures (digits, point) == ShortestDigits(text) && IsNormalForm((digits, point), ReprValue(text))
    ensures FormatNumber(neg, text) == (if neg then "-" else "") + Place(digits, point)
  {
    ShortestDigitsNormal(text);
    digits, point := ShortestDigits(text).0, ShortestDigits(text).1;
  }

  /** The rendering is a valid number of the same value, and a reader finds its end. */
  lemma {:induction false} FormatNumberReads(neg: bool, text: string, rest: string)
    requires ReprShaped(text) && Ends(rest)
    ensures ReadNumber(FormatNumber(neg, text) + rest) == Some((SignedValue(neg, text), rest))
  {
    ReprNonNegative(text);
    if ReprValue(text) == 0.0 {
      ZeroReads(rest);
    } else {
      var digits, point := FormatParts(neg, text);
      PlaceUnsigned(digits, point, rest);
      SignedText(neg, Place(digits, point), rest);
      SignReads(neg, Place(digits, point) + rest, FormatNumber(neg, text) + rest, ReprValue(text), rest);
    }
  }

  // --------------------------------------------- the ECMA-262 spelling (Number::toString)

  /** An unsigned rendering put together from its parts. */
  function Spelled(whole: string, frac: string, exponential: bool, sign: string, x: string): string {
    whole + (if frac == "" then "" else "." + frac) + (if exponential then "e" + sign + x else "")
  }

  /** Digits before the dot, and after it digits that do not end in zero. */
  predicate Mantissa(whole: string, frac: string) {
    && whole != "" && AllDigits(whole) && AllDigits(frac)
    && (frac != "" ==> frac[|frac|-1] != '0')
  }

  lemma {:induction false} ExponentialBranch(digits: string, point: int, mantissa: string, sign: string, x: string)
    requires Normal(digits) && (point > 21 || point <= -6)
    requires mantissa == [digits[0]] + if |digits| > 1 then "." + digits[1..] else ""
    requires sign == (if point > 0 then "+" else "-") && x == NatText(if point > 0 then point - 1 else 1 - point)
    ensures Place(digits, point) == mantissa + "e" + sign + x
  {
  }

  lemma {:induction false} SpelledGroups(whole: string, frac: string, sign: string, x: string)
    ensures (whole + if frac == "" then "" else "." + frac) + "e" + sign + x == Spelled(whole, frac, true, sign, x)
  {
    var mantissa := whole + if frac == "" then "" else "." + frac;
    assert mantissa + "e" + sign + x == mantissa + ("e" + sign + x);
  }

  lemma {:induction false} HeadMantissa(digits: string)
    requires Normal(digits)
    ensures Mantissa([digits[0]], digits[1..])
  {
  }

  lemma {:induction false} ExponentialSpelled(digits: string, point: int, frac: string, sign: string, x: string)
    requires Normal(digits) && (point > 21 || point <= -6) && frac == digits[1..]
    requires sign == (if point > 0 then "+" else "-") && x == NatText(if point > 0 then point - 1 else 1 - point)
    ensures Place(digits, point) == Spelled([digits[0]], frac, true, sign, x)
  {
    var mantissa := [digits[0]] + if frac == "" then "" else "." + frac;
    ExponentialBranch(digits, point, mantissa, sign, x);
    SpelledGroups([digits[0]], frac, sign, x);
  }

  lemma {:induction false} PlaceExponential(digits: string, point: int)
    returns (whole: string, frac: string, sign: string, x: string)
    requires Normal(digits) && (point > 21 || point <= -6)
    ensures Place(digits, point) == Spelled(whole, frac, true, sign, x) && Mantissa(whole, frac)
    ensures |whole| == 1 && whole[0] != '0'
    ensures sign == (if point > 0 then "+" else "-")
    ensures x == NatText(if point > 0 then point - 1 else 1 - point)
  {
    whole, frac := [digits[0]], digits[1..];
    sign := if point > 0 then "+" else "-";
    x := NatText(if point > 0 then point - 1 else 1 - point);
    HeadMantissa(digits);
    ExponentialSpelled(digits, point, frac, sign, x);
  }

  lemma {:induction false} PlacePlain(digits: string, point: int) returns (whole: string, frac: string)
    requires Normal(digits) && -6 < point <= 21
    ensures Place(digits, point) == Spelled(whole, frac, false, "", "") && Mantissa(whole, frac)
    ensures if point > 0 then whole[0] != '0' else whole == "0" && frac != ""
  {
    if |digits| <= point {
      whole, frac := digits + Zeros(point - |digits|), "";
      assert whole + "" + "" == whole;
    } else if 0 < point {
      whole, frac := digits[..point], digits[point..];
      assert whole + ("." + frac) + "" == whole + "." + frac;
    } else {
      whole, frac := "0", Zeros(-point) + digits;
      assert whole + ("." + frac) + "" == "0." + Zeros(-point) + digits;
    }
  }

  /** A number that is not zero is printed exponentially exactly from 10^21 on and below 10^-6.
      Then one non-zero digit stands before the dot and the exponent has an explicit sign and no
      leading zero; otherwise there is no exponent, and a zero before the dot exactly below one.
      After a dot the digits never end in zero. */
  lemma {:induction false} EcmaSpelling(neg: bool, text: string)
    returns (whole: string, frac: string, sign: string, x: string)
    requires ReprShaped(text) && ReprValue(text) != 0.0
    ensures var v := ReprValue(text);
      var exponential := v >= 1000000000000000000000.0 || v < 0.000001;
      && FormatNumber(neg, text) == (if neg then "-" else "") + Spelled(whole, frac, exponential, sign, x)
      && Mantissa(whole, frac)
      && (exponential ==>
            && |whole| == 1 && whole[0] != '0'
            && sign == (if v >= 1.0 then "+" else "-")
            && x != "" && AllDigits(x) && x[0] != '0')
      && (!exponential ==> (whole == "0" <==> v < 1.0) && (v >= 1.0 ==> whole[0] != '0'))
  {
    ReprNonNegative(text);
    var digits, point := FormatParts(neg, text);
    var v := ReprValue(text);
    ScaledBounds(digits, point);
    NotationBounds();
    PowerBand(point, v, 21);
    PowerBand(point, v, 0);
    PowerBand(point, v, -6);
    if point > 21 || point <= -6 {
      whole, frac, sign, x := PlaceExponential(digits, point);
      NatTextHead(if point > 0 then point - 1 else 1 - point);
    } else {
      whole, frac := PlacePlain(digits, point);
      sign, x := "", "";
    }
  }

  lemma {:induction false} NoMark(s: string)
    requires AllDigits(s)
    ensures 'e' !in s
  {
  }

  /** The rendering has an exponent exactly for the very large and the very small. */
  lemma {:induction false} ExponentExact(neg: bool, text: string)
    requires ReprShaped(text) && ReprValue(text) != 0.0
    ensures 'e' in FormatNumber(neg, text) <==>
      ReprValue(text) >= 1000000000000000000000.0 || ReprValue(text) < 0.000001
  {
    var whole, frac, sign, x := EcmaSpelling(neg, text);
    NoMark(whole);
    NoMark(frac);
    var exponential := ReprValue(text) >= 1000000000000000000000.0 || ReprValue(text) < 0.000001;
    MarkIn(if neg then "-" else "", whole, frac, exponential, sign, x);
  }

  lemma {:induction false} MarkIn(minus: string, whole: string, frac: string, exponential: bool, sign: string,
                                  x: string)
    requires 'e' !in minus && 'e' !in whole && 'e' !in frac
    ensures 'e' in minus + Spelled(whole, frac, exponential, sign, x) <==> exponential
  {
    var mantissa := whole + if frac == "" then "" else "." + frac;
    var tail := if exponential then "e" + sign + x else "";
    if exponential { assert tail[0] == 'e' && tail[0] in tail; }
    assert Spelled(whole, frac, exponential, sign, x) == mantissa + tail;
  }

  lemma {:induction false} FormatNumberHead(neg: bool, text: string)
    requires ReprShaped(text)
    ensures FormatNumber(neg, text) != ""
    ensures FormatNumber(neg, text)[0] == '-' || IsDigit(FormatNumber(neg, text)[0])
  {
    ReprNonNegative(text);
    if ReprValue(text) != 0.0 {
      ShortestDigitsNormal(text);
      var (digits, point) := ShortestDigits(text);
      PlaceUnsigned(digits, point, "");
    }
  }

  /** Two finite floats render alike exactly when they are equal, however they are spelled;
      both zeros are "0". */
  lemma {:induction false} FormatNumberExact(neg: bool, text: string, neg': bool, text': string)
    requires ReprShaped(text) && ReprShaped(text')
    ensures FormatNumber(neg, text) == FormatNumber(neg', text') <==>
            SignedValue(neg, text) == SignedValue(neg', text')
  {
    FormatNumberReads(neg, text, "");
    FormatNumberReads(neg', text', "");
    assert FormatNumber(neg, text) + "" == FormatNumber(neg, text);
    assert FormatNumber(neg', text') + "" == FormatNumber(neg', text');
    ReprNonNegative(text);
    ReprNonNegative(text');
    if SignedValue(neg, text) == SignedValue(neg', text') && ReprValue(text) != 0.0 {
      ShortestDigitsNormal(text);
      ShortestDigitsNormal(text');
      var (a, p) := ShortestDigits(text);
      var (b, q) := ShortestDigits(text');
      NormalFormUnique(a, p, b, q);
    }
  }
}
