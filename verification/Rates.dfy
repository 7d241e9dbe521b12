/** Exchange rates to the base currency of a market, and what a transfer between currencies records. */
module Rates {
  import opened Basics
  import opened Rounding

  const FOUR_PLACES := 10000.0
  const TEN_PLACES := 10000000000.0

  /** An amount at a rate. */
  function Worth(amount: real, rate: real): real { amount * rate }

  datatype RateRow = RateRow(effectiveDate: real, rateToBase: real)

  datatype Resolved = Resolved(exchangeRate: real, baseCurrencyAmount: real)

  /** Latest row in force at `date`. */
  function LatestUpTo(rates: seq<RateRow>, date: real): Option<RateRow> {
    if rates == [] then None
    else
      var best, last := LatestUpTo(rates[..|rates| - 1], date), rates[|rates| - 1];
      if last.effectiveDate <= date && (best.None? || best.value.effectiveDate < last.effectiveDate) then Some(last) else best
  }

  function Earliest(rates: seq<RateRow>): Option<RateRow> {
    if rates == [] then None
    else
      var best, last := Earliest(rates[..|rates| - 1]), rates[|rates| - 1];
      if best.None? || last.effectiveDate < best.value.effectiveDate then Some(last) else best
  }

  /** The rate of one transaction: 1 for the base currency, the rate given by hand, or the one on
      record for the date; and the amount in base currency, to four places. */
  function ResolveRateToBase(rates: seq<RateRow>, isBase: bool, baseIsSet: bool, date: real, amount: real,
                             manual: Option<real>): Result<Resolved> {
    if !baseIsSet then Err("base currency is not set")
    else if isBase then
      if manual.Some? then Err("no rate may be given for the base currency")
      else Ok(Resolved(1.0, RoundTo(Worth(amount, 1.0), FOUR_PLACES)))
    else if manual.Some? then
      if manual.value <= 0.0 then Err("rate must be positive")
      else Ok(Resolved(manual.value, RoundTo(Worth(amount, manual.value), FOUR_PLACES)))
    else
      var latest := LatestUpTo(rates, date);
      var row := if latest.Some? then latest else Earliest(rates);
      if row.None? then Err("no rate is recorded")
      else Ok(Resolved(row.value.rateToBase, RoundTo(Worth(amount, row.value.rateToBase), FOUR_PLACES)))
  }

  /** The row is in force at `date` and none in force is later. */
  ghost predicate InForce(rates: seq<RateRow>, date: real, row: RateRow) {
    row in rates && row.effectiveDate <= date && forall r | r in rates && r.effectiveDate <= date :: r.effectiveDate <= row.effectiveDate
  }

  /** Nothing is in force yet, and the row is the first there is. */
  ghost predicate FirstToCome(rates: seq<RateRow>, date: real, row: RateRow) {
    row in rates && forall r | r in rates :: date < r.effectiveDate && row.effectiveDate <= r.effectiveDate
  }

  lemma {:induction false} LatestIsInForce(rates: seq<RateRow>, date: real)
    ensures var latest := LatestUpTo(rates, date);
            if latest.Some? then InForce(rates, date, latest.value) else forall r | r in rates :: date < r.effectiveDate
  {
    if rates != [] {
      var init, last := rates[..|rates| - 1], rates[|rates| - 1];
      LatestIsInForce(init, date);
      assert forall r :: r in rates <==> r in init || r == last;
    }
  }

  lemma {:induction false} EarliestIsFirst(rates: seq<RateRow>)
    ensures var first := Earliest(rates);
            if first.Some? then first.value in rates && forall r | r in rates :: first.value.effectiveDate <= r.effectiveDate
            else rates == []
  {
    if rates != [] {
      var init, last := rates[..|rates| - 1], rates[|rates| - 1];
      EarliestIsFirst(init);
      assert forall r :: r in rates <==> r in init || r == last;
    }
  }

  /** Without a manual rate a foreign currency gets the rate in force at its date, or before the first
      one the first one; it is refused exactly when none was ever recorded. */
  lemma RateOnRecord(rates: seq<RateRow>, date: real, amount: real) returns (row: RateRow)
    requires rates != []
    ensures ResolveRateToBase(rates, false, true, date, amount, None).Ok?
    ensures ResolveRateToBase(rates, false, true, date, amount, None).value.exchangeRate == row.rateToBase
    ensures InForce(rates, date, row) || FirstToCome(rates, date, row)
    ensures ResolveRateToBase([], false, true, date, amount, None).Err?
  {
    LatestIsInForce(rates, date);
    EarliestIsFirst(rates);
    row := if LatestUpTo(rates, date).Some? then LatestUpTo(rates, date).value else Earliest(rates).value;
  }

  /** Without a manual rate the lookup succeeds exactly when the base currency is set and the currency is
      that one or has some rate on record, whatever the date and the amount. */
  lemma RateLookup(rates: seq<RateRow>, isBase: bool, baseIsSet: bool, date: real, amount: real)
    ensures ResolveRateToBase(rates, isBase, baseIsSet, date, amount, None).Ok? <==> baseIsSet && (isBase || rates != [])
  {
    EarliestIsFirst(rates);
    LatestIsInForce(rates, date);
  }

  // ---- payment dates ------------------------------------------------------------------------------

  /** Kabul is four and a half hours ahead of UTC, all year. */
  const KABUL_OFFSET := 4.5 / 24.0

  /** The calendar day in Kabul of an instant, in days. */
  function KabulDay(t: real): int { (t + KABUL_OFFSET).Floor }

  /** What the checks before a payment find for a date and what is on record. */
  function EntryOf(rates: seq<RateRow>, isBase: bool, baseIsSet: bool, date: real, now: real): PaymentEntry {
    PaymentEntry(KabulDay(date) > KabulDay(now), ResolveRateToBase(rates, isBase, baseIsSet, date, 0.0, None).Ok?)
  }

  /** A date lies in the future exactly from the next midnight in Kabul on; that midnight is at most a
      day away, so an instant later than `now` on the same day in Kabul does not. */
  lemma FutureStartsAtKabulMidnight(rates: seq<RateRow>, isBase: bool, baseIsSet: bool, date: real, now: real)
    returns (midnight: real)
    ensures now < midnight <= now + 1.0 && midnight + KABUL_OFFSET == (KabulDay(now) + 1) as real
    ensures EntryOf(rates, isBase, baseIsSet, date, now).inFuture <==> midnight <= date
    ensures KabulDay(date) == KabulDay(now) ==> !EntryOf(rates, isBase, baseIsSet, date, now).inFuture
  {
    midnight := (KabulDay(now) + 1) as real - KABUL_OFFSET;
  }

  /** At ten in the evening UTC on day 0 it is day 1 in Kabul. A date without a time for day 1, which is
      midnight UTC, is later than that and lies in no future; seven and a half in the evening UTC on day 1
      does. */
  lemma TodayInKabul(rates: seq<RateRow>, isBase: bool, baseIsSet: bool)
    ensures var now := 22.0 / 24.0;
            && 1.0 > now && !EntryOf(rates, isBase, baseIsSet, 1.0, now).inFuture
            && EntryOf(rates, isBase, baseIsSet, 1.0 + 19.5 / 24.0, now).inFuture
  {
    var now := 22.0 / 24.0;
    var next := FutureStartsAtKabulMidnight(rates, isBase, baseIsSet, 1.0, now);
    var same := FutureStartsAtKabulMidnight(rates, isBase, baseIsSet, 1.0 + 19.5 / 24.0, now);
    assert KabulDay(now) == 1;
  }

  /** The base amount of a resolved rate is off by at most half of the last place. */
  lemma BaseAmountIsClose(rates: seq<RateRow>, isBase: bool, baseIsSet: bool, date: real, amount: real,
                          manual: Option<real>)
    requires ResolveRateToBase(rates, isBase, baseIsSet, date, amount, manual).Ok?
    ensures var r := ResolveRateToBase(rates, isBase, baseIsSet, date, amount, manual).value;
            Abs(r.baseCurrencyAmount - Worth(amount, r.exchangeRate)) <= 0.00005
    ensures var r := ResolveRateToBase(rates, isBase, baseIsSet, date, amount, manual).value;
            (isBase ==> r.exchangeRate == 1.0 && manual.None?) && (!isBase && manual.Some? ==> r.exchangeRate == manual.value > 0.0)
  {
    var r := ResolveRateToBase(rates, isBase, baseIsSet, date, amount, manual).value;
    RoundingError(Worth(amount, r.exchangeRate), FOUR_PLACES);
  }

  // ---- transfers between currencies -------------------------------------------------------------

  datatype Conversion = Conversion(exchangeRate: Option<real>, received: real, base: real, receivedBase: real)

  /** Within one currency the amount arrives as it is, valued at the one rate there is. */
  function Convert(amount: real, fromRate: real, toRate: real, crossCurrency: bool, manual: Option<real>): Conversion
    requires toRate > 0.0
  {
    var rate :=
      if !crossCurrency then None
      else if manual.Some? then manual
      else Some(RoundTo(fromRate / toRate, TEN_PLACES));
    var received := if rate.Some? then RoundTo(Worth(amount, rate.value), FOUR_PLACES) else amount;
    Conversion(rate, received, RoundTo(Worth(amount, fromRate), FOUR_PLACES),
               RoundTo(Worth(received, if crossCurrency then toRate else fromRate), FOUR_PLACES))
  }

  lemma ScaledError(x: real, y: real, factor: real, bound: real)
    requires factor >= 0.0 && -bound <= x - y <= bound
    ensures -Worth(bound, factor) <= Worth(x, factor) - Worth(y, factor) <= Worth(bound, factor)
  {
    var d := x - y;
    assert d * factor == x * factor - y * factor;
    assert (bound - d) * factor >= 0.0 && (bound + d) * factor >= 0.0;
  }

  lemma WorthOfExact(amount: real, fromRate: real, toRate: real)
    requires toRate > 0.0
    ensures Worth(Worth(amount, fromRate / toRate), toRate) == Worth(amount, fromRate)
  {
    var q := fromRate / toRate;
    assert q * toRate == fromRate;
    assert (amount * q) * toRate == amount * (q * toRate);
  }

  lemma Commutes(x: real, y: real)
    ensures Worth(x, y) == Worth(y, x)
  {
  }

  /** What is received is off by the rounding of the rate, times the amount, and its own rounding. */
  lemma ReceivedIsClose(amount: real, fromRate: real, toRate: real)
    requires amount > 0.0 && toRate > 0.0
    ensures var c := Convert(amount, fromRate, toRate, true, None);
            var slack := 0.00005 + Worth(0.00000000005, amount);
            -slack <= c.received - Worth(amount, fromRate / toRate) <= slack
  {
    var c := Convert(amount, fromRate, toRate, true, None);
    var rate, exact := c.exchangeRate.value, fromRate / toRate;
    RoundingError(exact, TEN_PLACES);
    ScaledError(rate, exact, amount, 0.00000000005);
    Commutes(rate, amount);
    Commutes(exact, amount);
    RoundingError(Worth(amount, rate), FOUR_PLACES);
  }

  /** Within one currency both sides of a transfer are worth the same in base currency. */
  lemma SameCurrencyIsWorthTheSame(amount: real, fromRate: real, toRate: real, manual: Option<real>)
    requires toRate > 0.0
    ensures var c := Convert(amount, fromRate, toRate, false, manual);
            c.base == c.receivedBase && c.received == amount && c.exchangeRate.None?
            && Abs(c.base - Worth(amount, fromRate)) <= 0.00005
  {
    RoundingError(Worth(amount, fromRate), FOUR_PLACES);
  }

  /** Between currencies, without a manual rate, the two sides differ in base currency by no more than
      the roundings allow: of the rate to ten places, and of three amounts to four. */
  lemma TransferRoundingBound(amount: real, fromRate: real, toRate: real)
    requires amount > 0.0 && fromRate > 0.0 && toRate > 0.0
    ensures var c := Convert(amount, fromRate, toRate, true, None);
            Abs(c.base - c.receivedBase) <= 0.0001 + toRate * (0.00005 + amount * 0.00000000005)
  {
    var c := Convert(amount, fromRate, toRate, true, None);
    var slack := 0.00005 + Worth(0.00000000005, amount);
    ReceivedIsClose(amount, fromRate, toRate);
    ScaledError(c.received, Worth(amount, fromRate / toRate), toRate, slack);
    WorthOfExact(amount, fromRate, toRate);
    RoundingError(Worth(amount, fromRate), FOUR_PLACES);
    RoundingError(Worth(c.received, toRate), FOUR_PLACES);
    SlackSpelledOut(amount, toRate);
  }

  lemma SlackSpelledOut(amount: real, toRate: real)
    ensures Worth(0.00005 + Worth(0.00000000005, amount), toRate) == toRate * (0.00005 + amount * 0.00000000005)
  {
  }
}
