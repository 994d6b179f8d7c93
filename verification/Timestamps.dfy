/** Comparing creation stamps as text. */
module Timestamps {

  /** A UTC time of the years 0 to 9999, without leap seconds. */
  datatype Time = Time(year: nat, month: nat, day: nat, hour: nat, minute: nat, second: nat, nanos: nat)

  predicate ValidTime(t: Time) {
    t.year <= 9999 && 1 <= t.month <= 12 && 1 <= t.day <= 31 && t.hour < 24 && t.minute < 60 && t.second < 60
    && t.nanos < 1_000_000_000
  }

  /** Calendar order. */
  predicate Before(t: Time, u: Time) {
    if t.year != u.year then t.year < u.year
    else if t.month != u.month then t.month < u.month
    else if t.day != u.day then t.day < u.day
    else if t.hour != u.hour then t.hour < u.hour
    else if t.minute != u.minute then t.minute < u.minute
    else if t.second != u.second then t.second < u.second
    else t.nanos < u.nanos
  }

  function Digit(n: nat): (c: char)
    requires n < 10
    ensures c as int == '0' as int + n
  {
    ('0' as int + n) as char
  }

  /** The last `width` decimal digits of n, zero-padded. */
  function Digits(n: nat, width: nat): (s: string)
    ensures |s| == width && forall c | c in s :: '0' <= c <= '9'
  {
    if width == 0 then "" else Digits(n / 10, width - 1) + [Digit(n % 10)]
  }

  const ZONE := "+00:00"

  /** No fraction, or as many groups of three digits as it takes. */
  function Fraction(nanos: nat): string {
    if nanos == 0 then ""
    else if nanos % 1_000_000 == 0 then "." + Digits(nanos / 1_000_000, 3)
    else if nanos % 1_000 == 0 then "." + Digits(nanos / 1_000, 6)
    else "." + Digits(nanos, 9)
  }

  function Date(t: Time): string { Digits(t.year, 4) + ("-" + (Digits(t.month, 2) + ("-" + Digits(t.day, 2)))) }

  function Clock(t: Time): string { Digits(t.hour, 2) + (":" + (Digits(t.minute, 2) + (":" + Digits(t.second, 2)))) }

  /** `to_rfc3339` of a UTC time. */
  function Stamp(t: Time): string { Date(t) + ("T" + (Clock(t) + (Fraction(t.nanos) + ZONE))) }

  /** Text order, character by character. */
  predicate Less(a: string, b: string) {
    b != "" && (a == "" || a[0] < b[0] || (a[0] == b[0] && Less(a[1..], b[1..])))
  }

  lemma {:induction false} LessIrreflexive(a: string)
    ensures !Less(a, a)
  {
    if a != "" {
      LessIrreflexive(a[1..]);
    }
  }

  lemma {:induction false} LessTotal(a: string, b: string)
    ensures a == b || Less(a, b) || Less(b, a)
    ensures !(Less(a, b) && Less(b, a))
  {
    if a != "" && b != "" {
      LessTotal(a[1..], b[1..]);
      assert a == [a[0]] + a[1..] && b == [b[0]] + b[1..];
    }
  }

  /** Parts of equal length decide first. */
  lemma {:induction false} LessByParts(a: string, x: string, b: string, y: string)
    requires |a| == |b|
    ensures Less(a + x, b + y) <==> Less(a, b) || (a == b && Less(x, y))
    decreases |a|
  {
    if a == "" {
      assert a + x == x && b + y == y;
    } else {
      assert (a + x)[1..] == a[1..] + x && (b + y)[1..] == b[1..] + y;
      LessByParts(a[1..], x, b[1..], y);
      assert a == [a[0]] + a[1..] && b == [b[0]] + b[1..];
      if a[0] == b[0] && a[1..] == b[1..] {
        assert a == b;
      }
    }
  }

  function Power(width: nat): nat { if width == 0 then 1 else 10 * Power(width - 1) }

  /** Digits of equal width compare like the numbers. */
  lemma {:induction false} DigitsOrder(n: nat, m: nat, width: nat)
    requires n < Power(width) && m < Power(width)
    ensures Less(Digits(n, width), Digits(m, width)) <==> n < m
    ensures Digits(n, width) == Digits(m, width) <==> n == m
  {
    if width > 0 {
      var a, b := Digits(n / 10, width - 1), Digits(m / 10, width - 1);
      var x, y := [Digit(n % 10)], [Digit(m % 10)];
      DigitsOrder(n / 10, m / 10, width - 1);
      LessByParts(a, x, b, y);
      assert Less(x, y) <==> x[0] < y[0] by {
        assert x[1..] == "" && y[1..] == "";
      }
      assert (a + x == b + y) <==> (a == b && x == y) by {
        assert (a + x)[..width - 1] == a && (b + y)[..width - 1] == b;
        assert (a + x)[width - 1] == x[0] && (b + y)[width - 1] == y[0];
      }
    }
  }

  lemma DigitsSplit(n: nat, width: nat)
    ensures Digits(n, width + 3) == Digits(n / 1_000, width) + Digits(n % 1_000, 3)
  {
    var a := Digits(n / 1_000, width);
    var d2, d1, d0 := n / 100 % 10, n / 10 % 10, n % 10;
    assert n / 10 / 10 == n / 100 && n / 100 / 10 == n / 1_000;
    assert Digits(n, width + 3) == Digits(n / 10, width + 2) + [Digit(d0)];
    assert Digits(n / 10, width + 2) == Digits(n / 100, width + 1) + [Digit(d1)];
    assert Digits(n / 100, width + 1) == a + [Digit(d2)];
    var r := n % 1_000;
    assert r % 10 == d0 && r / 10 % 10 == d1 && r / 10 / 10 % 10 == d2;
    assert Digits(r / 10 / 10, 1) == [Digit(d2)];
    assert Digits(r / 10, 2) == [Digit(d2)] + [Digit(d1)];
    assert Digits(r, 3) == [Digit(d2)] + [Digit(d1)] + [Digit(d0)];
  }

  // ---- the fraction ----

  /** How many groups of three digits the fraction shows. */
  function Groups(nanos: nat): nat {
    if nanos == 0 then 0 else if nanos % 1_000_000 == 0 then 1 else if nanos % 1_000 == 0 then 2 else 3
  }

  /** The first groups of the nine digits. */
  function Shown(nanos: nat, groups: nat): string {
    if groups == 1 then Digits(nanos / 1_000_000, 3) else if groups == 2 then Digits(nanos / 1_000, 6) else Digits(nanos, 9)
  }

  /** Digits shown in two fractions, as far as the shorter one goes. */
  lemma ShownOrder(n: nat, m: nat, groups: nat)
    requires n < 1_000_000_000 && m < 1_000_000_000 && 1 <= groups <= 3
    ensures var unit := Unit(groups);
            && |Shown(n, groups)| == |Shown(m, groups)|
            && (Less(Shown(n, groups), Shown(m, groups)) <==> n / unit < m / unit)
            && (Shown(n, groups) == Shown(m, groups) <==> n / unit == m / unit)
  {
    assert Power(3) == 1_000;
    assert Power(6) == 1_000 * Power(3) by {
      assert Power(4) == 10 * Power(3) && Power(5) == 10 * Power(4);
    }
    assert Power(9) == 1_000 * Power(6) by {
      assert Power(7) == 10 * Power(6) && Power(8) == 10 * Power(7);
    }
    if groups == 1 {
      DigitsOrder(n / 1_000_000, m / 1_000_000, 3);
    } else if groups == 2 {
      DigitsOrder(n / 1_000, m / 1_000, 6);
    } else {
      DigitsOrder(n, m, 9);
    }
  }

  /** A longer fraction continues the shorter one with a digit. */
  lemma ShownContinues(n: nat, short: nat, long: nat) returns (rest: string)
    requires n < 1_000_000_000 && 1 <= short <= long <= 3
    ensures Shown(n, long) == Shown(n, short) + rest
    ensures if short == long then rest == "" else rest != "" && '0' <= rest[0] <= '9'
  {
    DigitsSplit(n, 6);
    DigitsSplit(n / 1_000, 3);
    assert n / 1_000 / 1_000 == n / 1_000_000;
    rest := if short == long then ""
            else if short == 2 then Digits(n % 1_000, 3)
            else if long == 2 then Digits(n / 1_000 % 1_000, 3)
            else Digits(n / 1_000 % 1_000, 3) + Digits(n % 1_000, 3);
    assert rest != "" ==> rest[0] in rest;
  }

  lemma FractionShows(n: nat)
    requires n != 0
    ensures Fraction(n) == "." + Shown(n, Groups(n)) && Groups(n) >= 1
  {
  }

  function Unit(groups: nat): (unit: nat)
    ensures unit > 0
  {
    if groups == 1 then 1_000_000 else if groups == 2 then 1_000 else 1
  }

  lemma UnitsDecide(n: nat, m: nat)
    requires 1 <= Groups(n) <= Groups(m)
    ensures var unit := Unit(Groups(n)); n < m <==> n / unit < m / unit || (n / unit == m / unit && Groups(n) < Groups(m))
  {
    if Groups(n) == 1 {
      assert n == 1_000_000 * (n / 1_000_000) && m == 1_000_000 * (m / 1_000_000) + m % 1_000_000;
    } else if Groups(n) == 2 {
      assert n == 1_000 * (n / 1_000) && m == 1_000 * (m / 1_000) + m % 1_000;
    }
  }

  lemma DotFirst(a: string, b: string)
    requires |a| == |b|
    ensures (Less("." + a, "." + b) <==> Less(a, b)) && ("." + a == "." + b <==> a == b)
  {
    assert ("." + a)[1..] == a && ("." + b)[1..] == b;
  }

  /** A shorter fraction against a longer or equal one. */
  lemma ShorterFraction(n: nat, m: nat)
    requires n < 1_000_000_000 && m < 1_000_000_000 && 1 <= Groups(n) <= Groups(m)
    ensures Less(Fraction(n) + ZONE, Fraction(m) + ZONE) <==> n < m
  {
    var k := Groups(n);
    var rest := ShownContinues(m, k, Groups(m));
    var x, y := Shown(n, k), Shown(m, k);
    FractionShows(n);
    FractionShows(m);
    ShownOrder(n, m, k);
    DotFirst(x, y);
    assert Fraction(m) + ZONE == ("." + y) + (rest + ZONE);
    LessByParts("." + x, ZONE, "." + y, rest + ZONE);
    ZoneAgainst(rest);
    UnitsDecide(n, m);
  }

  /** The sign of the offset sorts before a digit. */
  lemma ZoneAgainst(rest: string)
    requires rest == "" || '0' <= rest[0] <= '9'
    ensures Less(ZONE, rest + ZONE) <==> rest != ""
  {
    if rest == "" {
      assert rest + ZONE == ZONE;
      LessIrreflexive(ZONE);
    }
  }

  lemma FractionOrder(n: nat, m: nat)
    requires n < 1_000_000_000 && m < 1_000_000_000
    ensures Less(Fraction(n) + ZONE, Fraction(m) + ZONE) <==> n < m
  {
    if n == 0 && m == 0 {
      LessIrreflexive(Fraction(n) + ZONE);
    } else if n == 0 || m == 0 {
      var l := if n == 0 then m else n;
      FractionShows(l);
      assert (Fraction(l) + ZONE)[0] == '.';
      assert "" + ZONE == ZONE;
    } else if Groups(n) <= Groups(m) {
      ShorterFraction(n, m);
    } else {
      ShorterFraction(m, n);
      LessTotal(Fraction(n) + ZONE, Fraction(m) + ZONE);
      LessTotal(Fraction(m) + ZONE, Fraction(n) + ZONE);
      if Fraction(n) + ZONE == Fraction(m) + ZONE {
        FractionLength(n);
        FractionLength(m);
      }
    }
  }

  lemma FractionLength(n: nat)
    requires n != 0
    ensures |Fraction(n)| == 1 + 3 * Groups(n)
  {
  }

  // ---- the stamp ----

  /** A field, a separator and the rest. */
  lemma FieldOrder(n: nat, m: nat, width: nat, separator: string, x: string, y: string)
    requires n < Power(width) && m < Power(width)
    ensures Less(Digits(n, width) + (separator + x), Digits(m, width) + (separator + y)) <==> n < m || (n == m && Less(x, y))
  {
    DigitsOrder(n, m, width);
    LessByParts(Digits(n, width), separator + x, Digits(m, width), separator + y);
    LessByParts(separator, x, separator, y);
    LessIrreflexive(separator);
  }

  function Tail(t: Time): string { Fraction(t.nanos) + ZONE }

  lemma ClockOrder(t: Time, u: Time)
    requires ValidTime(t) && ValidTime(u)
    ensures Less(Clock(t) + Tail(t), Clock(u) + Tail(u))
       <==> (if t.hour != u.hour then t.hour < u.hour
             else if t.minute != u.minute then t.minute < u.minute
             else if t.second != u.second then t.second < u.second
             else t.nanos < u.nanos)
  {
    assert Power(2) == 100;
    var s, v := Digits(t.second, 2) + ("" + Tail(t)), Digits(u.second, 2) + ("" + Tail(u));
    var m, l := Digits(t.minute, 2) + (":" + s), Digits(u.minute, 2) + (":" + v);
    FractionOrder(t.nanos, u.nanos);
    FieldOrder(t.second, u.second, 2, "", Tail(t), Tail(u));
    FieldOrder(t.minute, u.minute, 2, ":", s, v);
    FieldOrder(t.hour, u.hour, 2, ":", m, l);
    assert Clock(t) + Tail(t) == Digits(t.hour, 2) + (":" + m);
    assert Clock(u) + Tail(u) == Digits(u.hour, 2) + (":" + l);
  }

  lemma DateOrder(t: Time, u: Time, x: string, y: string)
    requires ValidTime(t) && ValidTime(u)
    ensures Less(Date(t) + ("T" + x), Date(u) + ("T" + y))
       <==> (if t.year != u.year then t.year < u.year
             else if t.month != u.month then t.month < u.month
             else if t.day != u.day then t.day < u.day
             else Less(x, y))
  {
    assert Power(2) == 100;
    assert Power(4) == 10 * Power(3) && Power(3) == 10 * Power(2);
    var d, f := Digits(t.day, 2) + ("T" + x), Digits(u.day, 2) + ("T" + y);
    var m, l := Digits(t.month, 2) + ("-" + d), Digits(u.month, 2) + ("-" + f);
    FieldOrder(t.day, u.day, 2, "T", x, y);
    FieldOrder(t.month, u.month, 2, "-", d, f);
    FieldOrder(t.year, u.year, 4, "-", m, l);
    DateRegrouped(t, x);
    DateRegrouped(u, y);
  }

  lemma DateRegrouped(t: Time, x: string)
    ensures Date(t) + ("T" + x) == Digits(t.year, 4) + ("-" + (Digits(t.month, 2) + ("-" + (Digits(t.day, 2) + ("T" + x)))))
  {
  }

  /** Creation stamps compare as text exactly as their times do, although the fraction has
      zero, three, six or nine digits. */
  lemma StampOrderIsTimeOrder(t: Time, u: Time)
    requires ValidTime(t) && ValidTime(u)
    ensures Less(Stamp(t), Stamp(u)) <==> Before(t, u)
  {
    ClockOrder(t, u);
    DateOrder(t, u, Clock(t) + Tail(t), Clock(u) + Tail(u));
  }

  /** Different times have different stamps. */
  lemma StampsAreDistinct(t: Time, u: Time)
    requires ValidTime(t) && ValidTime(u)
    ensures Stamp(t) == Stamp(u) <==> t == u
  {
    StampOrderIsTimeOrder(t, u);
    StampOrderIsTimeOrder(u, t);
    LessIrreflexive(Stamp(t));
  }
}
