/** Proleptic Gregorian calendar on integer day numbers (day 0 is 1 January of year 0), as far as
    JavaScript's UTC dates at midnight use it. Months are numbered from January of year 0. */
module Calendar {

  predicate LeapYear(year: int) {
    year % 4 == 0 && (year % 100 != 0 || year % 400 == 0)
  }

  function MonthLength(month: int): (days: int)
    ensures 28 <= days <= 31
  {
    var m := month % 12;
    if m == 1 then (if LeapYear(month / 12) then 29 else 28)
    else if m == 3 || m == 5 || m == 8 || m == 10 then 30
    else 31
  }

  /** Day number of the first day of a month. */
  function MonthStart(month: int): int
    decreases if month >= 0 then month else -month
  {
    if month == 0 then 0
    else if month > 0 then MonthStart(month - 1) + MonthLength(month - 1)
    else MonthStart(month + 1) - MonthLength(month)
  }

  lemma NextMonthStart(month: int)
    ensures MonthStart(month + 1) == MonthStart(month) + MonthLength(month)
  {
  }

  function SearchMonth(day: int, month: int): (m: int)
    ensures MonthStart(m) <= day < MonthStart(m + 1)
    decreases if day < MonthStart(month) then MonthStart(month) - day else day - MonthStart(month)
  {
    NextMonthStart(month);
    NextMonthStart(month - 1);
    if day < MonthStart(month) then
      // a step back may land before `day`, but then the month is found
      if MonthStart(month - 1) <= day then month - 1 else SearchMonth(day, month - 1)
    else if day < MonthStart(month + 1) then month
    else SearchMonth(day, month + 1)
  }

  /** The month that contains a day. */
  function MonthOf(day: int): (m: int)
    ensures MonthStart(m) <= day < MonthStart(m + 1)
  {
    SearchMonth(day, 0)
  }

  /** `date.setUTCMonth(date.getUTCMonth() + 1)`: same day of the month in the next month; a day
      past the end of that month runs over into the month after it. */
  function AddOneMonth(day: int): int {
    var month := MonthOf(day);
    MonthStart(month + 1) + (day - MonthStart(month))
  }

  /** The step is exactly as long as the month it starts in, day overflow included. */
  lemma AddOneMonthLength(day: int)
    ensures AddOneMonth(day) == day + MonthLength(MonthOf(day))
  {
    NextMonthStart(MonthOf(day));
  }

  lemma {:induction false} MonthStartsIncrease(m: int, n: int)
    requires m < n
    ensures MonthStart(m) < MonthStart(n)
    decreases n - m
  {
    NextMonthStart(n - 1);
    if m < n - 1 {
      MonthStartsIncrease(m, n - 1);
    }
  }

  /** Months partition the days, so `MonthOf` is the only month a day can lie in. */
  lemma MonthIsUnique(day: int, month: int)
    requires MonthStart(month) <= day < MonthStart(month + 1)
    ensures month == MonthOf(day)
  {
    var found := MonthOf(day);
    if month < found && month + 1 < found {
      MonthStartsIncrease(month + 1, found);
    } else if found < month && found + 1 < month {
      MonthStartsIncrease(found + 1, month);
    }
  }

  /** Within a year: January, March, May, July, August, October and December have 31 days, April, June,
      September and November 30, and February 28 or 29. */
  lemma LengthInYear(year: int, k: nat)
    requires k < 12
    ensures MonthLength(12 * year + k)
         == if k == 1 then (if LeapYear(year) then 29 else 28) else if k in {3, 5, 8, 10} then 30 else 31
    ensures MonthStart(12 * year + k + 1) == MonthStart(12 * year + k) + MonthLength(12 * year + k)
  {
    assert (12 * year + k) / 12 == year && (12 * year + k) % 12 == k;
    NextMonthStart(12 * year + k);
  }

  function DaysBefore(k: nat, leap: bool): nat
    requires k <= 12
  {
    if k == 0 then 0 else DaysBefore(k - 1, leap) + if k == 2 then (if leap then 29 else 28) else if k in {4, 6, 9, 11} then 30 else 31
  }

  lemma {:induction false} StartInYear(year: int, k: nat)
    requires k <= 12
    ensures MonthStart(12 * year + k) == MonthStart(12 * year) + DaysBefore(k, LeapYear(year))
  {
    if k > 0 {
      StartInYear(year, k - 1);
      LengthInYear(year, k - 1);
    }
  }

  lemma YearLength(year: int)
    ensures MonthStart(12 * (year + 1)) == MonthStart(12 * year) + if LeapYear(year) then 366 else 365
  {
    StartInYear(year, 12);
    assert DaysBefore(12, true) == 366 && DaysBefore(12, false) == 365;
  }

  /** Days from the start of year 0, counting a leap day for every fourth year, none for every hundredth, and
      one again for every four hundredth. */
  function DayFromYear(year: int): int {
    365 * year + (year + 3) / 4 - (year + 99) / 100 + (year + 399) / 400
  }

  lemma QuotientStep(n: int, k: nat)
    requires k > 0
    ensures (n + 1 + (k - 1)) / k == (n + (k - 1)) / k + if n % k == 0 then 1 else 0
  {
    var q, r := n / k, n % k;
    assert n == q * k + r;
    Quotient(n + k - 1, k, if r == 0 then q else q + 1, if r == 0 then k - 1 else r - 1);
    Quotient(n + k, k, q + 1, r);
  }

  lemma Multiples(d: int, k: nat)
    ensures (d >= 1 ==> d * k >= k) && (d <= -1 ==> d * k + k <= 0)
  {
    if d >= 1 { assert d * k == (d - 1) * k + k; } else if d <= -1 { assert d * k == (d + 1) * k - k; }
  }

  lemma Quotient(n: int, k: nat, q: int, r: nat)
    requires k > 0 && r < k && n == q * k + r
    ensures n / k == q
  {
    var d := n / k - q;
    assert d * k + n % k == r;
    Multiples(d, k);
  }

  lemma Divides(n: int, a: nat, b: nat)
    requires a > 0 && b > 0 && n % (a * b) == 0
    ensures n % a == 0
  {
    var q := n / (a * b);
    assert n == (q * b) * a;
    Quotient(n, a, q * b, 0);
  }

  lemma DayFromYearStep(year: int)
    ensures DayFromYear(year + 1) == DayFromYear(year) + if LeapYear(year) then 366 else 365
  {
    QuotientStep(year, 4);
    QuotientStep(year, 100);
    QuotientStep(year, 400);
    if year % 100 == 0 { Divides(year, 4, 25); }
    if year % 400 == 0 { Divides(year, 100, 4); }
  }

  lemma {:induction false} YearStart(year: int)
    ensures MonthStart(12 * year) == DayFromYear(year)
    decreases if year >= 0 then year else -year
  {
    if year > 0 {
      YearStart(year - 1);
      YearLength(year - 1);
      DayFromYearStep(year - 1);
    } else if year < 0 {
      YearStart(year + 1);
      YearLength(year);
      DayFromYearStep(year);
    }
  }

  lemma Shifted(n: int, k: nat, m: int)
    requires k > 0
    ensures (n + m * k) / k == n / k + m
  {
    assert n + m * k == (n / k + m) * k + n % k;
    Quotient(n + m * k, k, n / k + m, n % k);
  }

  /** Years start on the days that ECMA-262 gives for them (section 21.4.1, the day number of a year): 1970
      after 719528 days, and every other year by the closed form with its three leap rules. */
  lemma YearStartsAsInTheStandard(year: int)
    ensures MonthStart(12 * year) - 719528 == 365 * (year - 1970) + (year - 1969) / 4 - (year - 1901) / 100 + (year - 1601) / 400
  {
    YearStart(year);
    Shifted(year - 1969, 4, 493);
    Shifted(year - 1901, 100, 20);
    Shifted(year - 1601, 400, 5);
  }
}
