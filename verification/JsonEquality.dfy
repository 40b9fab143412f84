// Structural JSON equality, which decides whether a resubmit of a scheduled
// message is a duplicate or a replacement (delivery-api/internal/message/equality.go).
module JsonEquality {
  import opened Common
  import opened Decimal

  /** A decoded document; numbers keep their literal. */
  datatype Json =
    | Null
    | Bool(b: bool)
    | String(s: string)
    | Number(literal: string)
    | Array(items: seq<Json>)
    | Object(members: map<string, Json>)

  // ----- Numbers ------------------------------------------------------------

  /** The decimal exponent past which math/big refuses to build a rational. */
  const EXPONENT_CAP: int := 1_000_000

  /** A decimal literal taken apart: sign, digits and the power of ten they are scaled by. */
  datatype Parts = Parts(negative: bool, digits: string, exponent: int)

  function Pow10(n: nat): (p: nat)
    ensures p > 0
  {
    if n == 0 then 1 else 10 * Pow10(n - 1)
  }

  /** Exponents are read as int64. */
  predicate FitsInt64(e: int) { -0x8000_0000_0000_0000 <= e < 0x8000_0000_0000_0000 }

  /** The exponent part, what follows e or E: an optional sign and digits. */
  function SplitExponent(s: string): Option<int>
  {
    var negative := |s| > 0 && s[0] == '-';
    var digits := if |s| > 0 && (s[0] == '-' || s[0] == '+') then s[1..] else s;
    if digits == "" || DigitRun(digits) != |digits| then None
    else
      var value := DigitsValue(digits);
      var exponent := if negative then -value else value;
      if FitsInt64(exponent) then Some(exponent) else None
  }

  /** What follows the integer digits: an optional fraction. Returns its digits and the rest. */
  function SplitFraction(s: string): Option<(string, string)>
  {
    if |s| == 0 || s[0] != '.' then Some(("", s))
    else
      var run := DigitRun(s[1..]);
      if run == 0 then None else Some((s[1..][..run], s[1..][run..]))
  }

  /** The leading digits and the rest. */
  function Head(s: string): (string, string)
  {
    (s[..DigitRun(s)], s[DigitRun(s)..])
  }

  /** All digits are known; what remains is empty or an exponent. */
  function WithExponent(negative: bool, digits: string, shift: nat, tail: string): Option<Parts>
  {
    if tail == "" then Some(Parts(negative, digits, 0 - shift))
    else if tail[0] != 'e' && tail[0] != 'E' then None
    else match SplitExponent(tail[1..])
    case None => None
    case Some(exponent) => Some(Parts(negative, digits, exponent - shift))
  }

  function WithFraction(negative: bool, whole: string, rest: string): Option<Parts>
  {
    if whole == "" then None
    else match SplitFraction(rest)
    case None => None
    case Some((fraction, tail)) => WithExponent(negative, whole + fraction, |fraction|, tail)
  }

  function SplitUnsigned(negative: bool, s: string): Option<Parts>
  {
    WithFraction(negative, Head(s).0, Head(s).1)
  }

  function SplitNumber(literal: string): Option<Parts>
  {
    if |literal| > 0 && literal[0] == '-' then SplitUnsigned(true, literal[1..])
    else SplitUnsigned(false, literal)
  }

  /** The value of a literal that was taken apart. */
  function Value(split: Option<Parts>): Option<real>
  {
    match split
    case None => None
    case Some(parts) =>
      var magnitude := DigitsValue(parts.digits);
      if magnitude == 0 then Some(0.0)
      else if parts.exponent > EXPONENT_CAP || parts.exponent < -EXPONENT_CAP then None
      else Some(Scaled(if parts.negative then -magnitude else magnitude, parts.exponent))
  }

  /**
   * The exact rational value of a number literal, or None when it is not a
   * decimal literal or its exponent is beyond the cap.
   */
  function ParseNumber(literal: string): Option<real> { Value(SplitNumber(literal)) }

  /** A mantissa times a power of ten. */
  function Scaled(mantissa: int, exponent: int): real
  {
    if exponent >= 0 then (mantissa * Pow10(exponent)) as real else mantissa as real / Pow10(-exponent) as real
  }

  /** Identical literals, or two literals with one exact value. */
  predicate SameNumber(left: string, right: string)
  {
    left == right ||
    (ParseNumber(left).Some? && ParseNumber(right).Some? && ParseNumber(left) == ParseNumber(right))
  }

  // ----- Every spelling of a number -------------------------------------------

  /** The exponent of a literal as written: its letter, an optional sign, its digits. */
  datatype Exponent = Exponent(upper: bool, sign: Option<bool>, digits: string)

  /** A JSON number literal as written; a sign of Some(true) on the exponent is a minus. */
  datatype Spelling = Spelling(negative: bool, whole: string, fraction: Option<string>, exponent: Option<Exponent>)

  predicate WellSpelled(s: Spelling)
  {
    && s.whole != "" && AllDigits(s.whole)
    && (s.fraction.Some? ==> s.fraction.value != "" && AllDigits(s.fraction.value))
    && (s.exponent.Some? ==> s.exponent.value.digits != "" && AllDigits(s.exponent.value.digits))
  }

  function SignText(sign: Option<bool>): string
  {
    if sign == None then "" else if sign.value then "-" else "+"
  }

  function ExponentText(e: Option<Exponent>): string
  {
    if e.None? then "" else (if e.value.upper then "E" else "e") + (SignText(e.value.sign) + e.value.digits)
  }

  function FractionText(f: Option<string>): string { if f.None? then "" else "." + f.value }

  function FractionDigits(f: Option<string>): string { if f.None? then "" else f.value }

  function Text(s: Spelling): string
  {
    (if s.negative then "-" else "") + (s.whole + (FractionText(s.fraction) + ExponentText(s.exponent)))
  }

  function Digits(s: Spelling): string { s.whole + FractionDigits(s.fraction) }

  function ExponentOf(s: Spelling): int
  {
    if s.exponent.None? then 0
    else
      var value := DigitsValue(s.exponent.value.digits);
      if s.exponent.value.sign == Some(true) then -value else value
  }

  /** The power of ten the digits are scaled by. */
  function ScaleOf(s: Spelling): int
  {
    ExponentOf(s) - |FractionDigits(s.fraction)|
  }

  function ValueOf(s: Spelling): real
  {
    var magnitude := DigitsValue(Digits(s));
    Scaled(if s.negative then -magnitude else magnitude, ScaleOf(s))
  }

  /** What math/big reads: an int64 exponent, and unless the number is zero a scale within the cap. */
  predicate Readable(s: Spelling)
  {
    FitsInt64(ExponentOf(s)) && (DigitsValue(Digits(s)) == 0 || -EXPONENT_CAP <= ScaleOf(s) <= EXPONENT_CAP)
  }

  lemma ExponentReads(e: Exponent)
    requires e.digits != "" && AllDigits(e.digits)
    ensures var magnitude := DigitsValue(e.digits);
      var value := if e.sign == Some(true) then -magnitude else magnitude;
      SplitExponent(SignText(e.sign) + e.digits) == if FitsInt64(value) then Some(value) else None
  {
    var s := SignText(e.sign) + e.digits;
    assert e.digits + "" == e.digits && e.digits[..|e.digits|] == e.digits;
    DigitRunOf(e.digits, "");
    assert IsDigit(e.digits[0]);
    if e.sign == None { assert s == e.digits; } else { assert s[1..] == e.digits; }
  }

  lemma FractionReads(f: Option<string>, tail: string)
    requires f.Some? ==> f.value != "" && AllDigits(f.value)
    requires tail == "" || (!IsDigit(tail[0]) && tail[0] != '.')
    ensures SplitFraction(FractionText(f) + tail) == Some((FractionDigits(f), tail))
  {
    if f.None? {
      assert "" + tail == tail;
    } else {
      var s := FractionText(f) + tail;
      assert s[1..] == f.value + tail;
      DigitRunOf(f.value, tail);
      assert s[1..][..|f.value|] == f.value && s[1..][|f.value|..] == tail;
    }
  }

  lemma WholeReads(whole: string, rest: string)
    requires AllDigits(whole) && (rest == "" || !IsDigit(rest[0]))
    ensures Head(whole + rest) == (whole, rest)
  {
    DigitRunOf(whole, rest);
  }

  lemma TailReads(e: Option<Exponent>)
    requires e.Some? ==> e.value.digits != "" && AllDigits(e.value.digits)
    ensures e.Some? ==>
      var tail, magnitude := ExponentText(e), DigitsValue(e.value.digits);
      var value := if e.value.sign == Some(true) then -magnitude else magnitude;
      && tail != "" && (tail[0] == 'e' || tail[0] == 'E')
      && SplitExponent(tail[1..]) == if FitsInt64(value) then Some(value) else None
  {
    if e.Some? {
      ExponentReads(e.value);
      assert ExponentText(e)[1..] == SignText(e.value.sign) + e.value.digits;
    }
  }

  lemma WholeSplits(negative: bool, whole: string, rest: string)
    requires AllDigits(whole) && (rest == "" || !IsDigit(rest[0]))
    ensures SplitUnsigned(negative, whole + rest) == WithFraction(negative, whole, rest)
  {
    WholeReads(whole, rest);
  }

  lemma FractionSplits(negative: bool, whole: string, f: Option<string>, tail: string)
    requires whole != "" && AllDigits(whole) && (f.Some? ==> f.value != "" && AllDigits(f.value))
    requires tail == "" || (!IsDigit(tail[0]) && tail[0] != '.')
    ensures WithFraction(negative, whole, FractionText(f) + tail) ==
      WithExponent(negative, whole + FractionDigits(f), |FractionDigits(f)|, tail)
  {
    FractionReads(f, tail);
  }

  lemma ExponentSplits(s: Spelling, digits: string, shift: nat)
    requires WellSpelled(s)
    ensures WithExponent(s.negative, digits, shift, ExponentText(s.exponent)) ==
      if FitsInt64(ExponentOf(s)) then Some(Parts(s.negative, digits, ExponentOf(s) - shift)) else None
  {
    TailReads(s.exponent);
  }

  /** Up to the exponent, with any tail that starts neither a fraction nor with a digit. */
  lemma MantissaSplits(negative: bool, whole: string, f: Option<string>, tail: string)
    requires whole != "" && AllDigits(whole) && (f.Some? ==> f.value != "" && AllDigits(f.value))
    requires tail == "" || (!IsDigit(tail[0]) && tail[0] != '.')
    ensures SplitUnsigned(negative, whole + (FractionText(f) + tail)) ==
      WithExponent(negative, whole + FractionDigits(f), |FractionDigits(f)|, tail)
  {
    var rest := FractionText(f) + tail;
    assert rest == "" || !IsDigit(rest[0]);
    WholeSplits(negative, whole, rest);
    FractionSplits(negative, whole, f, tail);
  }

  lemma TailStarts(e: Option<Exponent>)
    ensures var tail := ExponentText(e); tail == "" || (!IsDigit(tail[0]) && tail[0] != '.')
  {
  }

  lemma SignSplits(negative: bool, whole: string, rest: string)
    requires whole != "" && AllDigits(whole)
    ensures SplitNumber((if negative then "-" else "") + (whole + rest)) == SplitUnsigned(negative, whole + rest)
  {
    var body := whole + rest;
    assert IsDigit(body[0]);
    if negative { assert ("-" + body)[1..] == body; } else { assert "" + body == body; }
  }

  lemma NumberSplits(s: Spelling)
    requires WellSpelled(s)
    ensures SplitNumber(Text(s)) ==
      WithExponent(s.negative, Digits(s), |FractionDigits(s.fraction)|, ExponentText(s.exponent))
  {
    SignSplits(s.negative, s.whole, FractionText(s.fraction) + ExponentText(s.exponent));
    TailStarts(s.exponent);
    MantissaSplits(s.negative, s.whole, s.fraction, ExponentText(s.exponent));
  }

  /** The value of a literal as the reader should find it. */
  function Reading(s: Spelling): Option<real> { if Readable(s) then Some(ValueOf(s)) else None }

  lemma PartsRead(s: Spelling)
    requires WellSpelled(s)
    ensures Value(WithExponent(s.negative, Digits(s), |FractionDigits(s.fraction)|, ExponentText(s.exponent))) == Reading(s)
  {
    ExponentSplits(s, Digits(s), |FractionDigits(s.fraction)|);
    if DigitsValue(Digits(s)) == 0 { ZeroScales(ScaleOf(s)); }
  }

  /** Every well-formed literal reads as its exact value, or not at all beyond the bounds of the reader. */
  lemma TextReads(s: Spelling)
    requires WellSpelled(s)
    ensures ParseNumber(Text(s)) == Reading(s)
  {
    NumberSplits(s);
    PartsRead(s);
  }

  lemma ZeroScales(exponent: int)
    ensures Scaled(0, exponent) == 0.0
  {
  }

  /**
   * Literals that can be read are one number exactly when their values are equal, however they are
   * spelled; a literal that cannot is equal to itself alone.
   */
  lemma SameNumberIsExact(a: Spelling, b: Spelling)
    requires WellSpelled(a) && WellSpelled(b)
    ensures Readable(a) && Readable(b) ==> (SameNumber(Text(a), Text(b)) <==> ValueOf(a) == ValueOf(b))
    ensures !Readable(a) || !Readable(b) ==> (SameNumber(Text(a), Text(b)) <==> Text(a) == Text(b))
  {
    TextReads(a);
    TextReads(b);
  }

  // ----- Spellings that change nothing ------------------------------------------

  lemma ScaledTenfold(mantissa: int, exponent: int)
    ensures Scaled(mantissa * 10, exponent - 1) == Scaled(mantissa, exponent)
  {
    if exponent >= 1 {
      assert Pow10(exponent) == 10 * Pow10(exponent - 1);
      assert mantissa * 10 * Pow10(exponent - 1) == mantissa * Pow10(exponent);
    } else {
      var p := Pow10(-exponent);
      assert Pow10(-(exponent - 1)) == 10 * p;
      TenfoldFraction(mantissa, p);
    }
  }

  lemma TenfoldFraction(m: int, p: nat)
    requires p > 0
    ensures (m * 10) as real / (10 * p) as real == m as real / p as real
  {
    var q := m as real / p as real;
    assert q * p as real == m as real;
    assert q * (10 * p) as real == (m * 10) as real;
  }

  lemma ZeroAppended(d: string)
    ensures DigitsValue(d + "0") == DigitsValue(d) * 10
  {
    var more := d + "0";
    assert more[..|more| - 1] == d && more[|more| - 1] == '0';
  }

  /** A zero appended to the fraction, a fraction of just zero included: 100 and 100.0. */
  lemma TrailingZero(s: Spelling, t: Spelling)
    requires WellSpelled(s) && t == s.(fraction := Some(FractionDigits(s.fraction) + "0"))
    ensures WellSpelled(t) && ValueOf(t) == ValueOf(s)
  {
    ZeroAppended(Digits(s));
    assert Digits(t) == Digits(s) + "0";
    var magnitude := DigitsValue(Digits(s));
    ScaledTenfold(if s.negative then -magnitude else magnitude, ScaleOf(s));
  }

  /** Moving the point one place right, with the exponent one less. */
  lemma PointMoves(s: Spelling, t: Spelling)
    requires WellSpelled(s) && WellSpelled(t) && s.negative == t.negative
    requires s.fraction.Some? && ExponentOf(t) == ExponentOf(s) - 1
    requires t.whole == s.whole + s.fraction.value[..1] && FractionDigits(t.fraction) == s.fraction.value[1..]
    ensures ValueOf(t) == ValueOf(s)
  {
    assert Digits(t) == Digits(s);
  }

  /** Zero has no sign and no scale. */
  lemma ZeroIsZero(s: Spelling, t: Spelling)
    requires WellSpelled(s) && WellSpelled(t) && DigitsValue(Digits(s)) == 0
    ensures ValueOf(t) == ValueOf(s) <==> DigitsValue(Digits(t)) == 0
  {
    ZeroScales(ScaleOf(s));
    var magnitude := DigitsValue(Digits(t));
    if magnitude == 0 {
      ZeroScales(ScaleOf(t));
    } else {
      NonZeroScales(if t.negative then -magnitude else magnitude, ScaleOf(t));
    }
  }

  lemma NonZeroScales(mantissa: int, exponent: int)
    requires mantissa != 0
    ensures Scaled(mantissa, exponent) != 0.0
  {
    if exponent >= 0 {
      assert mantissa * Pow10(exponent) != 0;
    } else {
      var p := Pow10(-exponent) as real;
      assert mantissa as real / p * p == mantissa as real;
    }
  }

  /** A fraction and the integer of the same digits with a negative exponent: 0.01 and 1E-2. */
  lemma FractionAsPower(s: Spelling, t: Spelling)
    requires WellSpelled(s) && WellSpelled(t) && s.negative == t.negative
    requires s.fraction.Some? && s.exponent.None? && DigitsValue(s.whole) == 0
    requires t.fraction.None? && DigitsValue(t.whole) == DigitsValue(s.fraction.value)
    requires ExponentOf(t) == -|s.fraction.value|
    ensures ValueOf(t) == ValueOf(s)
  {
    assert Digits(t) == t.whole;
    ZerosBefore(s.whole, s.fraction.value);
  }

  lemma {:induction false} ZerosBefore(zeros: string, d: string)
    requires AllDigits(zeros) && AllDigits(d) && DigitsValue(zeros) == 0
    ensures DigitsValue(zeros + d) == DigitsValue(d)
    decreases |d|
  {
    if d == "" {
      assert zeros + d == zeros;
    } else {
      ZerosBefore(zeros, d[..|d| - 1]);
      assert (zeros + d)[..|zeros + d| - 1] == zeros + d[..|d| - 1];
    }
  }

  // ----- Values -------------------------------------------------------------

  predicate SameJson(left: Json, right: Json)
    decreases left
  {
    match left
    case Object(ms) =>
      right.Object? && |ms| == |right.members| &&
      forall k :: k in ms ==> k in right.members && SameJson(ms[k], right.members[k])
    case Array(xs) =>
      right.Array? && |xs| == |right.items| &&
      forall i :: 0 <= i < |xs| ==> SameJson(xs[i], right.items[i])
    case Number(l) => right.Number? && SameNumber(l, right.literal)
    case _ => left == right
  }

  /** Two equal-size maps, one's keys within the other's: the keys are the same. */
  lemma SameKeys(a: map<string, Json>, b: map<string, Json>)
    requires |a| == |b| && a.Keys <= b.Keys
    ensures a.Keys == b.Keys
  {
    SubsetSize(a.Keys, b.Keys);
    assert |b.Keys - a.Keys| == 0;
  }

  /** A document with every number in its one form: its exact value, or its literal where it has none. */
  datatype Canon =
    | CanonNull
    | CanonBool(b: bool)
    | CanonString(s: string)
    | CanonValue(value: real)
    | CanonLiteral(literal: string)
    | CanonArray(items: seq<Canon>)
    | CanonObject(members: map<string, Canon>)

  function CanonNumber(literal: string): Canon
  {
    var value := ParseNumber(literal);
    if value.Some? then CanonValue(value.value) else CanonLiteral(literal)
  }

  function Canonical(j: Json): Canon
    decreases j
  {
    match j
    case Null => CanonNull
    case Bool(b) => CanonBool(b)
    case String(s) => CanonString(s)
    case Number(literal) => CanonNumber(literal)
    case Array(items) => CanonArray(seq(|items|, i requires 0 <= i < |items| => Canonical(items[i])))
    case Object(members) => CanonObject(map k | k in members :: Canonical(members[k]))
  }

  lemma SameNumberIsCanonical(left: string, right: string)
    ensures SameNumber(left, right) <==> CanonNumber(left) == CanonNumber(right)
  {
  }

  lemma ObjectsAreCanonical(a: map<string, Json>, b: map<string, Json>)
    requires forall k :: k in a && k in b ==> (SameJson(a[k], b[k]) <==> Canonical(a[k]) == Canonical(b[k]))
    ensures SameJson(Object(a), Object(b)) <==> Canonical(Object(a)) == Canonical(Object(b))
  {
    var ca, cb := Canonical(Object(a)).members, Canonical(Object(b)).members;
    assert ca.Keys == a.Keys && cb.Keys == b.Keys;
    if SameJson(Object(a), Object(b)) {
      SameKeys(a, b);
      assert ca == cb;
    }
    if ca == cb {
      assert a.Keys == b.Keys && |a| == |a.Keys| && |b| == |b.Keys|;
      forall k | k in a ensures k in b && SameJson(a[k], b[k]) { assert ca[k] == cb[k]; }
    }
  }

  lemma ArraysAreCanonical(a: seq<Json>, b: seq<Json>)
    requires forall i :: 0 <= i < |a| && i < |b| ==> (SameJson(a[i], b[i]) <==> Canonical(a[i]) == Canonical(b[i]))
    ensures SameJson(Array(a), Array(b)) <==> Canonical(Array(a)) == Canonical(Array(b))
  {
    var ca, cb := Canonical(Array(a)).items, Canonical(Array(b)).items;
    if SameJson(Array(a), Array(b)) { assert ca == cb; }
    if ca == cb {
      forall i | 0 <= i < |a| ensures SameJson(a[i], b[i]) { assert ca[i] == cb[i]; }
    }
  }

  /** Two documents are the same exactly when they agree once every number is in its one form. */
  lemma {:induction false} SameJsonIsCanonical(a: Json, b: Json)
    ensures SameJson(a, b) <==> Canonical(a) == Canonical(b)
    decreases a
  {
    if a.Object? && b.Object? {
      forall k | k in a.members && k in b.members
        ensures SameJson(a.members[k], b.members[k]) <==> Canonical(a.members[k]) == Canonical(b.members[k])
      {
        SameJsonIsCanonical(a.members[k], b.members[k]);
      }
      ObjectsAreCanonical(a.members, b.members);
    } else if a.Array? && b.Array? {
      forall i | 0 <= i < |a.items| && i < |b.items|
        ensures SameJson(a.items[i], b.items[i]) <==> Canonical(a.items[i]) == Canonical(b.items[i])
      {
        SameJsonIsCanonical(a.items[i], b.items[i]);
      }
      ArraysAreCanonical(a.items, b.items);
    } else if a.Number? && b.Number? {
      SameNumberIsCanonical(a.literal, b.literal);
    }
  }

  lemma {:induction false} SameJsonReflexive(j: Json)
    ensures SameJson(j, j)
    decreases j
  {
    match j
    case Object(ms) =>
      forall k | k in ms ensures SameJson(ms[k], ms[k]) { SameJsonReflexive(ms[k]); }
    case Array(xs) =>
      forall i | 0 <= i < |xs| ensures SameJson(xs[i], xs[i]) { SameJsonReflexive(xs[i]); }
    case _ =>
  }

  lemma {:induction false} SameJsonSymmetric(a: Json, b: Json)
    requires SameJson(a, b)
    ensures SameJson(b, a)
    decreases a
  {
    match a
    case Object(ms) =>
      SameKeys(ms, b.members);
      forall k | k in b.members ensures k in ms && SameJson(b.members[k], ms[k]) {
        SameJsonSymmetric(ms[k], b.members[k]);
      }
    case Array(xs) =>
      forall i | 0 <= i < |xs| ensures SameJson(b.items[i], xs[i]) { SameJsonSymmetric(xs[i], b.items[i]); }
    case _ =>
  }

  lemma {:induction false} SameJsonTransitive(a: Json, b: Json, c: Json)
    requires SameJson(a, b) && SameJson(b, c)
    ensures SameJson(a, c)
    decreases a
  {
    match a
    case Object(ms) =>
      forall k | k in ms ensures k in c.members && SameJson(ms[k], c.members[k]) {
        SameJsonTransitive(ms[k], b.members[k], c.members[k]);
      }
    case Array(xs) =>
      forall i | 0 <= i < |xs| ensures SameJson(xs[i], c.items[i]) {
        SameJsonTransitive(xs[i], b.items[i], c.items[i]);
      }
    case _ =>
  }
}
