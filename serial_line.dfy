/**
 * The serial line format gui.py's `serial_logger` accepts:
 * `(\d+),(-?\d+),([-+]?\d*\.\d+|None),([-+]?\d*\.\d+|None),([-+]?\d*\.\d+|None)`
 * matched at the start of the stripped line, read as the pico's time in
 * microseconds, the encoder count, and heading, roll and pitch with `None`
 * read as 0.0. Each part of the pattern is a greedy run that no shorter
 * match could rescue, so the parsers below read it without backtracking.
 */
module SerialLine {
  import opened Text

  /** The length of the run of digits that starts `s`. */
  function DigitRun(s: string): (n: nat)
    ensures n <= |s|
    ensures forall k :: 0 <= k < n ==> IsDigit(s[k])
    ensures n < |s| ==> !IsDigit(s[n])
  {
    if |s| > 0 && IsDigit(s[0]) then 1 + DigitRun(s[1..]) else 0
  }

  lemma DigitRunOf(ds: string, tail: string)
    requires AllDigits(ds)
    requires tail == [] || !IsDigit(tail[0])
    ensures DigitRun(ds + tail) == |ds|
  {
    var s := ds + tail;
    assert forall k :: 0 <= k < |ds| ==> s[k] == ds[k];
    assert |ds| < |s| ==> s[|ds|] == tail[0];
  }

  /** A value read from the front of a line, and the text after it. */
  datatype Tok<T> = Tok(value: T, rest: string)

  /** `\d+`. */
  function Unsigned(s: string): (r: Option<Tok<nat>>)
    ensures r.Some? <==> |s| > 0 && IsDigit(s[0])
  {
    var n := DigitRun(s);
    if n == 0 then None
    else
      assert AllDigits(s[..n]);
      Some(Tok(DigitsValue(s[..n]), s[n..]))
  }

  lemma UnsignedOf(ds: string, tail: string)
    requires AllDigits(ds) && |ds| >= 1
    requires tail == [] || !IsDigit(tail[0])
    ensures Unsigned(ds + tail) == Some(Tok(DigitsValue(ds), tail))
  {
    DigitRunOf(ds, tail);
    assert (ds + tail)[..|ds|] == ds;
    assert (ds + tail)[|ds|..] == tail;
  }

  /** `-?\d+`, read by `int`. */
  function SignedInt(s: string): Option<Tok<int>>
  {
    if |s| > 0 && s[0] == '-' then
      match Unsigned(s[1..])
      case None => None
      case Some(t) => var v: int := -(t.value as int); Some(Tok(v, t.rest))
    else
      match Unsigned(s)
      case None => None
      case Some(t) => var v: int := t.value; Some(Tok(v, t.rest))
  }

  lemma SignedIntOf(n: int, tail: string)
    requires tail == [] || !IsDigit(tail[0])
    ensures SignedInt(IntToString(n) + tail) == Some(Tok(n, tail))
  {
    if n < 0 {
      NegativeOf(n, tail);
    } else {
      NonNegativeOf(n, tail);
    }
  }

  lemma NegativeOf(n: int, tail: string)
    requires n < 0
    requires tail == [] || !IsDigit(tail[0])
    ensures SignedInt(IntToString(n) + tail) == Some(Tok(n, tail))
  {
    var ds := NatToDigits(-n);
    NatToDigitsValue(-n);
    UnsignedOf(ds, tail);
    assert IntToString(n) == "-" + ds;
    ConsAssoc('-', ds, tail);
    MinusOf(ds + tail, -n, tail);
  }

  /** A leading '-' is read as the negation of the digits after it. */
  lemma MinusOf(u: string, v: nat, rest: string)
    requires Unsigned(u) == Some(Tok(v, rest))
    ensures SignedInt("-" + u) == Some(Tok(-(v as int), rest))
  {
    assert ("-" + u)[1..] == u;
  }

  lemma ConsAssoc(c: char, a: string, b: string)
    ensures ([c] + a) + b == [c] + (a + b)
  {
  }

  lemma NonNegativeOf(n: int, tail: string)
    requires n >= 0
    requires tail == [] || !IsDigit(tail[0])
    ensures SignedInt(IntToString(n) + tail) == Some(Tok(n, tail))
  {
    var s := IntToString(n) + tail;
    var ds := NatToDigits(n);
    assert IntToString(n) == ds;
    assert s[0] == ds[0];
    UnsignedOf(ds, tail);
    NatToDigitsValue(n);
    assert Unsigned(s) == Some(Tok(n, tail));
  }

  /** An angle group as read: `None`, or a decimal numeral `[-+]?whole.frac` by its parts. */
  datatype Angle = NoneAngle | Dec(negative: bool, whole: nat, frac: nat, places: nat)

  /** `float(x) if x != "None" else 0.0`, in exact arithmetic. */
  function AngleValue(a: Angle): real
  {
    match a
    case NoneAngle => 0.0
    case Dec(negative, whole, frac, places) =>
      var m := whole as real + frac as real / Pow10(places) as real;
      if negative then -m else m
  }

  /** The angle the digit strings `whole` and `frac` of `whole.frac` stand for. */
  function DecimalAngle(negative: bool, whole: string, frac: string): (a: Angle)
    requires AllDigits(whole) && AllDigits(frac)
    ensures a.Dec? && a.negative == negative && a.places == |frac|
  {
    Dec(negative, DigitsValue(whole), DigitsValue(frac), |frac|)
  }

  /** `\d*\.\d+`. */
  function Fraction(negative: bool, t: string): Option<Tok<Angle>>
  {
    var w := DigitRun(t);
    if w < |t| && t[w] == '.' then
      assert AllDigits(t[..w]);
      FractionDigits(negative, t[..w], t[w + 1..])
    else None
  }

  /** `\d+` after the point of `whole.`. */
  function FractionDigits(negative: bool, whole: string, u: string): Option<Tok<Angle>>
    requires AllDigits(whole)
  {
    var f := DigitRun(u);
    if f == 0 then None
    else
      assert AllDigits(u[..f]);
      Some(Tok(DecimalAngle(negative, whole, u[..f]), u[f..]))
  }

  /** `[-+]?\d*\.\d+`. */
  function Decimal(s: string): Option<Tok<Angle>>
  {
    if |s| > 0 && (s[0] == '-' || s[0] == '+') then
      Fraction(s[0] == '-', s[1..])
    else Fraction(false, s)
  }

  /** `([-+]?\d*\.\d+|None)`. */
  function FloatOrNone(s: string): Option<Tok<Angle>>
  {
    match Decimal(s)
    case Some(t) => Some(t)
    case None => if |s| >= 4 && s[..4] == "None" then Some(Tok(NoneAngle, s[4..])) else None
  }

  function CommaSigned(s: string): Option<Tok<int>>
  {
    if |s| > 0 && s[0] == ',' then SignedInt(s[1..]) else None
  }

  function CommaFloat(s: string): Option<Tok<Angle>>
  {
    if |s| > 0 && s[0] == ',' then FloatOrNone(s[1..]) else None
  }

  /** One accepted pico record: the pico's time in microseconds, the encoder count and three angles. */
  datatype PicoSample = PicoSample(timeUs: nat, count: int, heading: Angle, roll: Angle, pitch: Angle)

  /** `pattern.match(s)` and the conversion of its groups; text after the match is ignored. */
  function MatchLine(s: string): Option<PicoSample>
  {
    match Unsigned(s)
    case None => None
    case Some(t) =>
      match CommaSigned(t.rest)
      case None => None
      case Some(c) =>
        match MatchAngles(c.rest)
        case None => None
        case Some(a) => Some(PicoSample(t.value, c.value, a.0, a.1, a.2))
  }

  /** The three `,([-+]?\d*\.\d+|None)` groups: heading, roll and pitch. */
  function MatchAngles(s: string): Option<(Angle, Angle, Angle)>
  {
    match CommaFloat(s)
    case None => None
    case Some(h) =>
      match CommaFloat(h.rest)
      case None => None
      case Some(r) =>
        match CommaFloat(r.rest)
        case None => None
        case Some(p) => Some((h.value, r.value, p.value))
  }

  /** `pattern.match(line.strip())`. */
  function Decode(line: string): Option<PicoSample>
  {
    MatchLine(Strip(line))
  }

  /** A line is accepted only if it starts with a digit: anything else is skipped. */
  lemma DecodeNeedsLeadingDigit(s: string)
    requires MatchLine(s).Some?
    ensures |s| > 0 && IsDigit(s[0])
  {
  }

  /** `float(m.group(1)) / 1e6`: the pico's time in seconds. */
  function PicoSeconds(s: PicoSample): real
  {
    s.timeUs as real / 1000000.0
  }

  // ---------------------------------------------------------------------
  // Printing a record, and reading it back
  // ---------------------------------------------------------------------

  /** The optional sign in front of a printed angle. */
  datatype Sign = NoSign | Minus | Plus

  /** How an angle field is printed: `None`, or an optional sign, whole digits, a point and fraction digits. */
  datatype Field = NoneField | DecimalField(sign: Sign, whole: string, frac: string)

  predicate WellFormed(f: Field)
  {
    f.DecimalField? ==> AllDigits(f.whole) && AllDigits(f.frac) && |f.frac| >= 1
  }

  function SignText(sign: Sign): string
  {
    match sign
    case NoSign => ""
    case Minus => "-"
    case Plus => "+"
  }

  function FieldText(f: Field): string
  {
    match f
    case NoneField => "None"
    case DecimalField(sign, whole, frac) => SignText(sign) + (whole + "." + frac)
  }

  /** The angle a printed field stands for. */
  function FieldAngle(f: Field): Angle
    requires WellFormed(f)
  {
    match f
    case NoneField => NoneAngle
    case DecimalField(sign, whole, frac) => DecimalAngle(sign == Minus, whole, frac)
  }

  lemma FloatOrNoneOf(f: Field, tail: string)
    requires WellFormed(f)
    requires tail == [] || !IsDigit(tail[0])
    ensures FloatOrNone(FieldText(f) + tail) == Some(Tok(FieldAngle(f), tail))
  {
    match f
    case NoneField => NoneOf(tail);
    case DecimalField(sign, whole, frac) =>
      assert FieldText(f) + tail == SignText(sign) + (whole + "." + frac + tail);
      DecimalFieldOf(sign, whole, frac, tail);
  }

  lemma DecimalFieldOf(sign: Sign, whole: string, frac: string, tail: string)
    requires AllDigits(whole) && AllDigits(frac) && |frac| >= 1
    requires tail == [] || !IsDigit(tail[0])
    ensures FloatOrNone(SignText(sign) + (whole + "." + frac + tail))
         == Some(Tok(DecimalAngle(sign == Minus, whole, frac), tail))
  {
    DecimalOf(sign, whole, frac, tail);
  }

  lemma NoneOf(tail: string)
    ensures FloatOrNone("None" + tail) == Some(Tok(NoneAngle, tail))
  {
    var s := "None" + tail;
    assert s[0] == 'N';
    assert DigitRun(s) == 0;
    assert s[..4] == "None";
    assert s[4..] == tail;
  }

  lemma DecimalOf(sign: Sign, whole: string, frac: string, tail: string)
    requires AllDigits(whole) && AllDigits(frac) && |frac| >= 1
    requires tail == [] || !IsDigit(tail[0])
    ensures Decimal(SignText(sign) + (whole + "." + frac + tail))
         == Some(Tok(DecimalAngle(sign == Minus, whole, frac), tail))
  {
    var t := whole + "." + frac + tail;
    FractionOf(sign == Minus, whole, frac, tail);
    if sign == NoSign {
      assert SignText(sign) + t == t;
      if |whole| > 0 { assert t[0] == whole[0]; } else { assert t[0] == '.'; }
      UnsignedDecimal(t);
    } else {
      var c := if sign == Minus then '-' else '+';
      assert SignText(sign) + t == [c] + t;
      SignedDecimal(c, t);
    }
  }

  lemma UnsignedDecimal(t: string)
    requires |t| > 0 && (IsDigit(t[0]) || t[0] == '.')
    ensures Decimal(t) == Fraction(false, t)
  {
  }

  lemma SignedDecimal(c: char, t: string)
    requires c == '-' || c == '+'
    ensures Decimal([c] + t) == Fraction(c == '-', t)
  {
    assert ([c] + t)[1..] == t;
  }

  lemma FractionOf(negative: bool, whole: string, frac: string, tail: string)
    requires AllDigits(whole) && AllDigits(frac) && |frac| >= 1
    requires tail == [] || !IsDigit(tail[0])
    ensures Fraction(negative, whole + "." + frac + tail) == Some(Tok(DecimalAngle(negative, whole, frac), tail))
  {
    var u := frac + tail;
    var t := whole + "." + frac + tail;
    var w := |whole|;
    assert t == whole + ("." + u);
    DigitRunOf(whole, "." + u);
    assert t[w] == '.' && t[w + 1..] == u && t[..w] == whole;
    FractionDigitsOf(negative, whole, frac, tail);
  }

  lemma FractionDigitsOf(negative: bool, whole: string, frac: string, tail: string)
    requires AllDigits(whole) && AllDigits(frac) && |frac| >= 1
    requires tail == [] || !IsDigit(tail[0])
    ensures FractionDigits(negative, whole, frac + tail) == Some(Tok(DecimalAngle(negative, whole, frac), tail))
  {
    DigitRunOf(frac, tail);
    assert (frac + tail)[..|frac|] == frac && (frac + tail)[|frac|..] == tail;
  }

  /** The text of one record: time, count and the three angle fields, comma-separated. */
  function Render(timeUs: nat, count: int, h: Field, r: Field, p: Field): string
  {
    NatToDigits(timeUs) + ("," + (IntToString(count) + AnglesText(h, r, p)))
  }

  function AnglesText(h: Field, r: Field, p: Field): string
  {
    "," + (FieldText(h) + ("," + (FieldText(r) + ("," + FieldText(p)))))
  }

  lemma Assoc(a: string, b: string, c: string)
    ensures (a + b) + c == a + (b + c)
  {
  }

  /**
   * A rendered record is read back field for field, whatever follows it
   * that does not extend its last number.
   */
  lemma MatchRendered(timeUs: nat, count: int, h: Field, r: Field, p: Field, rest: string)
    requires WellFormed(h) && WellFormed(r) && WellFormed(p)
    requires rest == [] || !IsDigit(rest[0])
    ensures MatchLine(Render(timeUs, count, h, r, p) + rest)
         == Some(PicoSample(timeUs, count, FieldAngle(h), FieldAngle(r), FieldAngle(p)))
  {
    var angles := AnglesText(h, r, p) + rest;
    AnglesOf(h, r, p, rest);
    var t1 := IntToString(count) + angles;
    CommaSignedOf(count, angles);
    var t0 := NatToDigits(timeUs) + ("," + t1);
    UnsignedOf(NatToDigits(timeUs), "," + t1);
    NatToDigitsValue(timeUs);
    Assoc(IntToString(count), AnglesText(h, r, p), rest);
    Assoc(",", IntToString(count) + AnglesText(h, r, p), rest);
    Assoc(NatToDigits(timeUs), "," + (IntToString(count) + AnglesText(h, r, p)), rest);
    assert Render(timeUs, count, h, r, p) + rest == t0;
    MatchLineOf(t0, timeUs, "," + t1, count, angles, (FieldAngle(h), FieldAngle(r), FieldAngle(p)));
  }

  /** The three groups read in turn make the sample. */
  lemma MatchLineOf(s: string, timeUs: nat, s1: string, count: int, s2: string, a: (Angle, Angle, Angle))
    requires Unsigned(s) == Some(Tok(timeUs, s1))
    requires CommaSigned(s1) == Some(Tok(count, s2))
    requires MatchAngles(s2) == Some(a)
    ensures MatchLine(s) == Some(PicoSample(timeUs, count, a.0, a.1, a.2))
  {
  }

  lemma AnglesOf(h: Field, r: Field, p: Field, rest: string)
    requires WellFormed(h) && WellFormed(r) && WellFormed(p)
    requires rest == [] || !IsDigit(rest[0])
    ensures MatchAngles(AnglesText(h, r, p) + rest) == Some((FieldAngle(h), FieldAngle(r), FieldAngle(p)))
  {
    var tp := FieldText(p) + rest;
    CommaFloatOf(p, rest);
    var tr := FieldText(r) + ("," + tp);
    CommaFloatOf(r, "," + tp);
    var th := FieldText(h) + ("," + tr);
    CommaFloatOf(h, "," + tr);
    Assoc(",", FieldText(p), rest);
    Assoc(FieldText(r), "," + FieldText(p), rest);
    Assoc(",", FieldText(r) + ("," + FieldText(p)), rest);
    Assoc(FieldText(h), "," + (FieldText(r) + ("," + FieldText(p))), rest);
    Assoc(",", FieldText(h) + ("," + (FieldText(r) + ("," + FieldText(p)))), rest);
    assert AnglesText(h, r, p) + rest == "," + th;
  }

  lemma CommaSignedOf(n: int, tail: string)
    requires tail == [] || !IsDigit(tail[0])
    ensures CommaSigned("," + (IntToString(n) + tail)) == Some(Tok(n, tail))
  {
    SignedIntOf(n, tail);
    assert ("," + (IntToString(n) + tail))[1..] == IntToString(n) + tail;
  }

  lemma CommaFloatOf(f: Field, tail: string)
    requires WellFormed(f)
    requires tail == [] || !IsDigit(tail[0])
    ensures CommaFloat("," + (FieldText(f) + tail)) == Some(Tok(FieldAngle(f), tail))
  {
    FloatOrNoneOf(f, tail);
    assert ("," + (FieldText(f) + tail))[1..] == FieldText(f) + tail;
  }

  /**
   * The line the pico sends: the record, a sixth field with the pin value,
   * and "\r\n". It is stripped and read back as the record; the pin field
   * is ignored.
   */
  lemma DecodeRendered(timeUs: nat, count: int, h: Field, r: Field, p: Field, pin: nat)
    requires WellFormed(h) && WellFormed(r) && WellFormed(p)
    ensures Decode(Render(timeUs, count, h, r, p) + ("," + NatToDigits(pin)) + "\r\n")
         == Some(PicoSample(timeUs, count, FieldAngle(h), FieldAngle(r), FieldAngle(p)))
  {
    var x := Render(timeUs, count, h, r, p);
    var tail := "," + NatToDigits(pin);
    RenderedEnds(timeUs, count, h, r, p);
    LastOf(",", NatToDigits(pin));
    LastOf(x, tail);
    assert (x + tail)[0] == x[0];
    StripLineEnd(x + tail);
    MatchRendered(timeUs, count, h, r, p, tail);
  }

  /** Text that neither starts nor ends with whitespace, so `strip()` leaves it whole. */
  predicate Solid(x: string)
  {
    |x| > 0 && !IsSpace(x[0]) && !IsSpace(x[|x| - 1])
  }

  /** A record starts with a digit and ends with a digit or the `e` of `None`. */
  lemma RenderedEnds(timeUs: nat, count: int, h: Field, r: Field, p: Field)
    requires WellFormed(p)
    ensures Solid(Render(timeUs, count, h, r, p))
  {
    var ds := NatToDigits(timeUs);
    NatToDigitsValue(timeUs);
    var rest := "," + (IntToString(count) + AnglesText(h, r, p));
    AnglesLast(h, r, p);
    LastOf(IntToString(count), AnglesText(h, r, p));
    LastOf(",", IntToString(count) + AnglesText(h, r, p));
    LastOf(ds, rest);
    assert Render(timeUs, count, h, r, p) == ds + rest;
    assert (ds + rest)[0] == ds[0];
    FieldLast(p);
  }

  /** The angles end where the pitch field ends. */
  lemma AnglesLast(h: Field, r: Field, p: Field)
    requires WellFormed(p)
    ensures |FieldText(p)| > 0 && |AnglesText(h, r, p)| > 0
    ensures AnglesText(h, r, p)[|AnglesText(h, r, p)| - 1] == FieldText(p)[|FieldText(p)| - 1]
  {
    FieldLast(p);
    var y := FieldText(p);
    LastOf(",", y);
    LastOf(FieldText(r), "," + y);
    LastOf(",", FieldText(r) + ("," + y));
    LastOf(FieldText(h), "," + (FieldText(r) + ("," + y)));
    LastOf(",", FieldText(h) + ("," + (FieldText(r) + ("," + y))));
  }

  /** A printed field ends with a digit or the `e` of `None`. */
  lemma FieldLast(f: Field)
    requires WellFormed(f)
    ensures |FieldText(f)| > 0 && !IsSpace(FieldText(f)[|FieldText(f)| - 1])
  {
    match f
    case NoneField =>
    case DecimalField(sign, whole, frac) =>
      LastOf(SignText(sign) + (whole + "."), frac);
      assert FieldText(f) == SignText(sign) + (whole + ".") + frac;
  }

  lemma LastOf(a: string, b: string)
    requires |b| > 0
    ensures (a + b)[|a + b| - 1] == b[|b| - 1]
  {
  }

  /** The `\r\n` the pico ends a line with is stripped, and nothing else. */
  lemma StripLineEnd(x: string)
    requires Solid(x)
    ensures Strip(x + "\r\n") == x
  {
    var s := x + "\r\n";
    assert TrimStart(s) == s;
    assert s[..|s| - 1] == x + "\r";
    assert (x + "\r")[..|x|] == x;
    assert TrimEnd(x) == x;
    assert TrimEnd(x + "\r") == TrimEnd(x);
    assert TrimEnd(s) == TrimEnd(x + "\r");
  }
}
