/**
 * Calendar dates in the `YYYY-MM-DD` form the application stores and sends.
 *
 * The browser compares these dates as strings, the server compares the `Date`
 * objects it parses from them. `StringOrderIsChronological` shows the two agree
 * on well-formed dates.
 */
module Dates {
  import opened Strings

  predicate IsLeapYear(y: nat)
  {
    (y % 4 == 0 && y % 100 != 0) || y % 400 == 0
  }

  function DaysInMonth(y: nat, m: nat): nat
  {
    if m == 2 then (if IsLeapYear(y) then 29 else 28)
    else if m == 4 || m == 6 || m == 9 || m == 11 then 30
    else 31
  }

  /** Four digits, a dash, two digits, a dash, two digits, naming a day that exists. */
  predicate IsDate(s: string)
  {
    && |s| == 10 && s[4] == '-' && s[7] == '-'
    && AllDigits(s[..4]) && AllDigits(s[5..7]) && AllDigits(s[8..])
    && 1 <= DigitsValue(s[5..7]) <= 12
    && 1 <= DigitsValue(s[8..]) <= DaysInMonth(DigitsValue(s[..4]), DigitsValue(s[5..7]))
  }

  function Year(s: string): nat
    requires IsDate(s)
  {
    DigitsValue(s[..4])
  }

  function Month(s: string): nat
    requires IsDate(s)
  {
    DigitsValue(s[5..7])
  }

  function Day(s: string): nat
    requires IsDate(s)
  {
    DigitsValue(s[8..])
  }

  /** `a` is an earlier day than `b`: the comparison of the `Date` objects the server builds. */
  predicate ChronoLess(a: string, b: string)
    requires IsDate(a) && IsDate(b)
  {
    || Year(a) < Year(b)
    || (Year(a) == Year(b) && Month(a) < Month(b))
    || (Year(a) == Year(b) && Month(a) == Month(b) && Day(a) < Day(b))
  }

  /** On well-formed dates, string order is day order. */
  lemma StringOrderIsChronological(a: string, b: string)
    requires IsDate(a) && IsDate(b)
    ensures Less(a, b) <==> ChronoLess(a, b)
    ensures a == b <==> (Year(a) == Year(b) && Month(a) == Month(b) && Day(a) == Day(b))
  {
    var ya, yb := a[..4], b[..4];
    var ma, mb := a[5..7], b[5..7];
    var da, db := a[8..], b[8..];
    assert a == ya + ([a[4]] + (ma + ([a[7]] + da)));
    assert b == yb + ([b[4]] + (mb + ([b[7]] + db)));
    DigitsOrder(ya, yb);
    DigitsOrder(ma, mb);
    DigitsOrder(da, db);
    LessConcat(ya, [a[4]] + (ma + ([a[7]] + da)), yb, [b[4]] + (mb + ([b[7]] + db)));
    LessConcat([a[4]], ma + ([a[7]] + da), [b[4]], mb + ([b[7]] + db));
    LessIrreflexive([a[4]]);
    LessConcat(ma, [a[7]] + da, mb, [b[7]] + db);
    LessConcat([a[7]], da, [b[7]], db);
    LessIrreflexive([a[7]]);
  }
}
