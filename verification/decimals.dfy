/** Printing numbers, as std::to_string and stream output do, and reading them back, whole or with `strtod`. */
module Decimals {
  import opened Wrappers

  const DIGITS := "0123456789"

  function Decimal(n: nat): (s: string)
    ensures |s| >= 1
  {
    if n < 10 then [DIGITS[n]] else Decimal(n / 10) + [DIGITS[n % 10]]
  }

  predicate IsDigit(c: char) {
    '0' <= c <= '9'
  }

  /** Length of the run of digits at the front. */
  function DigitRun(t: string): (k: nat)
    ensures k <= |t|
    ensures forall i :: 0 <= i < k ==> IsDigit(t[i])
    ensures k < |t| ==> !IsDigit(t[k])
  {
    if t == "" || !IsDigit(t[0]) then 0 else 1 + DigitRun(t[1..])
  }

  function Value(s: string): nat
    requires forall i :: 0 <= i < |s| ==> IsDigit(s[i])
  {
    if s == "" then 0
    else
      assert IsDigit(s[|s| - 1]);
      10 * Value(s[..|s| - 1]) + (s[|s| - 1] as int - '0' as int)
  }

  /** The number spelled by the digits at the front of t, if there is one. */
  function LeadingNat(t: string): (r: int)
    ensures r >= -1
  {
    var k := DigitRun(t);
    if k == 0 then -1 else Value(t[..k])
  }

  lemma DigitChar(d: nat)
    requires d < 10
    ensures IsDigit(DIGITS[d]) && DIGITS[d] as int - '0' as int == d
  {
  }

  lemma {:induction false} DecimalDigits(n: nat)
    ensures forall i :: 0 <= i < |Decimal(n)| ==> IsDigit(Decimal(n)[i])
    ensures Value(Decimal(n)) == n
  {
    if n < 10 {
      DigitChar(n);
      assert Decimal(n)[..0] == "";
    } else {
      DecimalDigits(n / 10);
      DigitChar(n % 10);
      assert Decimal(n)[..|Decimal(n)| - 1] == Decimal(n / 10);
    }
  }

  lemma RunStops(s: string, t: string)
    requires forall i :: 0 <= i < |s| ==> IsDigit(s[i])
    requires t != "" && !IsDigit(t[0])
    ensures DigitRun(s + t) == |s|
  {
    assert forall i :: 0 <= i < |s| ==> (s + t)[i] == s[i];
    assert (s + t)[|s|] == t[0];
  }

  /** What was printed is read back, whatever non-digit follows. */
  lemma DecimalRoundTrip(n: nat, t: string)
    requires t != "" && !IsDigit(t[0])
    ensures LeadingNat(Decimal(n) + t) == n
  {
    DecimalDigits(n);
    RunStops(Decimal(n), t);
    assert (Decimal(n) + t)[..|Decimal(n)|] == Decimal(n);
  }

  // ----- strtod -----

  predicate Space(c: char) {
    c == ' ' || '\t' <= c <= '\r'
  }

  function DropSpaces(t: string): string {
    if t != "" && Space(t[0]) then DropSpaces(t[1..]) else t
  }

  /** The digits behind a decimal point at the front of u, if there is one. */
  function Fraction(u: string): (d: string)
    ensures forall i :: 0 <= i < |d| ==> IsDigit(d[i])
  {
    if u != "" && u[0] == '.' then u[1..][..DigitRun(u[1..])] else ""
  }

  function BehindFraction(u: string): string {
    if u != "" && u[0] == '.' then u[1..][DigitRun(u[1..])..] else u
  }

  /** The power of ten at the front of e: no digits, no exponent. */
  function Exponent(e: string): int {
    if |e| < 2 || (e[0] != 'e' && e[0] != 'E') then 0
    else if e[1] == '-' then (if LeadingNat(e[2..]) < 0 then 0 else -LeadingNat(e[2..]))
    else
      var n := LeadingNat(if e[1] == '+' then e[2..] else e[1..]);
      if n < 0 then 0 else n
  }

  function TimesTen(v: real, k: nat): real {
    if k == 0 then v else 10.0 * TimesTen(v, k - 1)
  }

  function OverTen(v: real, k: nat): real {
    if k == 0 then v else OverTen(v, k - 1) / 10.0
  }

  predicate AllDigits(s: string) {
    forall i :: 0 <= i < |s| ==> IsDigit(s[i])
  }

  /** The value of digits behind a point: each counts a tenth of the one before. */
  function Tenths(d: string): real
    requires AllDigits(d)
  {
    if d == "" then 0.0
    else
      assert IsDigit(d[0]);
      ((d[0] as int - '0' as int) as real + Tenths(d[1..])) / 10.0
  }

  /** The number with these digits before and behind the point. */
  function Joined(whole: string, part: string): real
    requires AllDigits(whole) && AllDigits(part)
  {
    Value(whole) as real + Tenths(part)
  }

  function Scaled(v: real, e: int): real {
    if e >= 0 then TimesTen(v, e) else OverTen(v, -e)
  }

  /** Digits, a point, digits, an exponent: at least one digit before the exponent. */
  function ReadUnsigned(t: string): Option<real> {
    var whole, rest := t[..DigitRun(t)], t[DigitRun(t)..];
    var part := Fraction(rest);
    if whole == "" && part == "" then None
    else Some(Scaled(Joined(whole, part), Exponent(BehindFraction(rest))))
  }

  function Negated(r: Option<real>): Option<real> {
    if r.None? then None else Some(-r.value)
  }

  /** The decimal numbers of `strtod`. */
  function ReadNumber(t: string): Option<real> {
    var s := DropSpaces(t);
    if s != "" && s[0] == '-' then Negated(ReadUnsigned(s[1..]))
    else if s != "" && s[0] == '+' then ReadUnsigned(s[1..])
    else ReadUnsigned(s)
  }

  /** A text that cannot carry a number on. */
  predicate EndsNumber(t: string) {
    t != "" && !IsDigit(t[0]) && t[0] != '.' && t[0] != 'e' && t[0] != 'E'
  }

  lemma NoExponent(v: real, t: string)
    requires EndsNumber(t)
    ensures Scaled(v, Exponent(t)) == v
  {
  }

  lemma WholeReadBack(n: nat, t: string)
    requires EndsNumber(t) && AllDigits(Decimal(n))
    ensures ReadUnsigned(Decimal(n) + t) == Some(Joined(Decimal(n), ""))
    ensures Joined(Decimal(n), "") == n as real
  {
    SplitsAt(n, t);
    NoExponent(Joined(Decimal(n), ""), t);
  }

  lemma SplitsAt(n: nat, t: string)
    requires t != "" && !IsDigit(t[0])
    ensures var s, k := Decimal(n) + t, |Decimal(n)|; DigitRun(s) == k && s[..k] == Decimal(n) && s[k..] == t
    ensures forall i :: 0 <= i < |Decimal(n)| ==> IsDigit(Decimal(n)[i])
    ensures Value(Decimal(n)) == n
  {
    DecimalDigits(n);
    RunStops(Decimal(n), t);
  }

  lemma FractionSplits(d: string, t: string)
    requires EndsNumber(t) && AllDigits(d)
    ensures Fraction("." + (d + t)) == d && BehindFraction("." + (d + t)) == t
  {
    var u := "." + (d + t);
    assert u[1..] == d + t;
    RunStops(d, t);
    assert (d + t)[..|d|] == d && (d + t)[|d|..] == t;
  }

  lemma FixedReadBack(n: nat, d: string, t: string)
    requires EndsNumber(t) && AllDigits(d) && AllDigits(Decimal(n))
    ensures ReadUnsigned(Decimal(n) + ("." + (d + t))) == Some(Joined(Decimal(n), d))
  {
    SplitsAt(n, "." + (d + t));
    FractionSplits(d, t);
    NoExponent(Joined(Decimal(n), d), t);
  }

  /** What follows the whole digits of a printed number. */
  function PartText(d: string, t: string): string {
    if d == "" then t else "." + (d + t)
  }

  lemma UnsignedReadBack(n: nat, d: string, t: string)
    requires EndsNumber(t) && AllDigits(d)
    ensures AllDigits(Decimal(n)) && IsDigit((Decimal(n) + PartText(d, t))[0])
    ensures ReadUnsigned(Decimal(n) + PartText(d, t)) == Some(Joined(Decimal(n), d))
  {
    DecimalDigits(n);
    if d == "" {
      WholeReadBack(n, t);
    } else {
      FixedReadBack(n, d, t);
    }
  }

  lemma NoSpaceFirst(t: string)
    requires t != "" && (IsDigit(t[0]) || t[0] == '-')
    ensures DropSpaces(t) == t
  {
  }

  lemma PlainRead(x: string, r: Option<real>)
    requires x != "" && IsDigit(x[0]) && ReadUnsigned(x) == r
    ensures ReadNumber(x) == r
  {
    NoSpaceFirst(x);
  }

  lemma MinusRead(x: string, body: string, r: Option<real>)
    requires x != "" && x[0] == '-' && x[1..] == body && ReadUnsigned(body) == r
    ensures ReadNumber(x) == Negated(r)
  {
    NoSpaceFirst(x);
  }

  /** A number printed with or without decimals is read back exactly. */
  lemma NumberReadBack(n: nat, d: string, t: string)
    requires EndsNumber(t) && AllDigits(d)
    ensures AllDigits(Decimal(n))
    ensures ReadNumber(Decimal(n) + PartText(d, t)) == Some(Joined(Decimal(n), d))
  {
    UnsignedReadBack(n, d, t);
    PlainRead(Decimal(n) + PartText(d, t), Some(Joined(Decimal(n), d)));
  }

  /** And, behind a minus sign, as its negative. */
  lemma NegativeReadBack(x: string, n: nat, d: string, t: string)
    requires EndsNumber(t) && AllDigits(d)
    requires x != "" && x[0] == '-' && x[1..] == Decimal(n) + PartText(d, t)
    ensures AllDigits(Decimal(n))
    ensures ReadNumber(x) == Negated(Some(Joined(Decimal(n), d)))
  {
    UnsignedReadBack(n, d, t);
    MinusRead(x, x[1..], Some(Joined(Decimal(n), d)));
  }

  /** A plus sign changes nothing, and neither does white space in front. */
  lemma PlusReadBack(x: string, n: nat, d: string, t: string)
    requires EndsNumber(t) && AllDigits(d)
    requires x != "" && x[0] == '+' && x[1..] == Decimal(n) + PartText(d, t)
    ensures AllDigits(Decimal(n))
    ensures ReadNumber(x) == Some(Joined(Decimal(n), d))
  {
    UnsignedReadBack(n, d, t);
    PlusRead(x, x[1..], Some(Joined(Decimal(n), d)));
  }

  lemma PlusRead(x: string, body: string, r: Option<real>)
    requires x != "" && x[0] == '+' && x[1..] == body && ReadUnsigned(body) == r
    ensures ReadNumber(x) == r
  {
    assert DropSpaces(x) == x;
  }

  lemma SpacesSkipped(x: string)
    requires x != "" && x[0] in " \t\n\r" + [11 as char, 12 as char]
    ensures ReadNumber(x) == ReadNumber(x[1..])
  {
    assert DropSpaces(x) == DropSpaces(x[1..]);
  }

  /** In particular a whole number. */
  lemma WholeNumberReadBack(n: nat, t: string)
    requires EndsNumber(t)
    ensures ReadNumber(Decimal(n) + t) == Some(n as real)
  {
    NumberReadBack(n, "", t);
    WholeReadBack(n, t);
  }

  // ----- exponents -----

  lemma UnsignedWith(n: nat, d: string, t: string)
    requires t != "" && !IsDigit(t[0]) && t[0] != '.' && AllDigits(d)
    ensures AllDigits(Decimal(n)) && IsDigit((Decimal(n) + PartText(d, t))[0])
    ensures ReadUnsigned(Decimal(n) + PartText(d, t)) == Some(Scaled(Joined(Decimal(n), d), Exponent(t)))
  {
    DecimalDigits(n);
    if d == "" {
      SplitsAt(n, t);
    } else {
      SplitsAt(n, "." + (d + t));
      PartSplits(d, t);
    }
  }

  lemma PartSplits(d: string, t: string)
    requires t != "" && !IsDigit(t[0]) && AllDigits(d)
    ensures Fraction("." + (d + t)) == d && BehindFraction("." + (d + t)) == t
  {
    var u := "." + (d + t);
    assert u[1..] == d + t;
    RunStops(d, t);
    assert (d + t)[..|d|] == d && (d + t)[|d|..] == t;
  }

  function Signed(minus: bool, k: nat): int {
    if minus then 0 - k else k
  }

  /** An exponent as printed: e, perhaps a sign, digits. */
  lemma ExponentIs(e: string, k: nat, t: string)
    requires EndsNumber(t) && (e == "e" || e == "E" || e == "e+" || e == "e-")
    ensures Exponent(e + (Decimal(k) + t)) == Signed(e == "e-", k)
  {
    var x := Decimal(k) + t;
    DecimalDigits(k);
    DecimalRoundTrip(k, t);
    assert x[0] == Decimal(k)[0];
    if |e| == 1 {
      assert (e + x)[1..] == x;
    } else {
      assert (e + x)[2..] == x;
    }
  }

  /** A number with an exponent is read as that number shifted by so many places. */
  lemma ExponentReadBack(n: nat, d: string, e: string, k: nat, t: string)
    requires EndsNumber(t) && AllDigits(d) && (e == "e" || e == "E" || e == "e+" || e == "e-")
    ensures AllDigits(Decimal(n))
    ensures ReadNumber(Decimal(n) + PartText(d, e + (Decimal(k) + t))) ==
            Some(if e == "e-" then OverTen(Joined(Decimal(n), d), k) else TimesTen(Joined(Decimal(n), d), k))
  {
    var x := e + (Decimal(k) + t);
    DecimalDigits(k);
    assert x[0] == e[0];
    UnsignedWith(n, d, x);
    ExponentIs(e, k, t);
    PlainRead(Decimal(n) + PartText(d, x), Some(Scaled(Joined(Decimal(n), d), Exponent(x))));
    SignedShift(Joined(Decimal(n), d), k, e == "e-");
  }

  lemma ShiftIs(v: real, e: int)
    ensures e >= 0 ==> Scaled(v, e) == TimesTen(v, e)
    ensures e < 0 ==> Scaled(v, e) == OverTen(v, -e)
  {
  }

  lemma SignedShift(v: real, k: nat, minus: bool)
    ensures Scaled(v, Signed(minus, k)) == if minus then OverTen(v, k) else TimesTen(v, k)
  {
    ShiftIs(v, Signed(minus, k));
    if k == 0 {
      NoShift(v);
    }
  }

  lemma NoShift(v: real)
    ensures TimesTen(v, 0) == v && OverTen(v, 0) == v
  {
  }

  /** What places mean: each digit behind the point is worth a tenth of the one before, and shifting undoes it. */
  lemma {:induction false} Shifted(whole: string, d: string)
    requires AllDigits(whole) && AllDigits(d)
    ensures AllDigits(whole + d) && TimesTen(Joined(whole, d), |d|) == Value(whole + d) as real
    decreases |d|
  {
    if d == "" {
      assert whole + d == whole;
    } else {
      var w := whole + [d[0]];
      assert w + d[1..] == whole + d;
      assert w[..|w| - 1] == whole;
      Shifted(w, d[1..]);
      assert Joined(w, d[1..]) == 10.0 * Joined(whole, d);
      ShiftOne(Joined(whole, d), |d| - 1);
    }
  }

  lemma {:induction false} ShiftOne(v: real, k: nat)
    ensures TimesTen(10.0 * v, k) == TimesTen(v, k + 1)
  {
    if k == 0 {
    } else {
      ShiftOne(v, k - 1);
    }
  }

  /** Shifting left and right undo each other, and a place is worth ten. */
  lemma {:induction false} ShiftsBack(v: real, k: nat)
    ensures TimesTen(v, 0) == v && OverTen(TimesTen(v, k), k) == v
    ensures TimesTen(v, k + 1) == 10.0 * TimesTen(v, k)
    decreases k
  {
    if k == 0 {
    } else {
      ShiftsBack(10.0 * v, k - 1);
      ShiftOne(v, k - 1);
      OverOne(TimesTen(v, k), k - 1);
    }
  }

  lemma {:induction false} OverOne(v: real, k: nat)
    ensures OverTen(v, k + 1) == OverTen(v, k) / 10.0
  {
  }
}
