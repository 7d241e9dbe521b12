/** Straight-line depreciation of an asset, and the nightly job that catches up on missed years. */
module Depreciation {
  import opened Basics

  /** A calendar day; months and days are only compared. */
  datatype Date = Date(year: int, month: int, day: int)

  predicate NotAfter(a: Date, b: Date) {
    a.year < b.year || (a.year == b.year && (a.month < b.month || (a.month == b.month && a.day <= b.day)))
  }

  function YearsElapsed(purchased: Date, now: Date): nat {
    var years := now.year - purchased.year;
    var anniversaryPassed := now.month > purchased.month || (now.month == purchased.month && now.day >= purchased.day);
    var whole := if anniversaryPassed then years else years - 1;
    if whole > 0 then whole else 0
  }

  function Anniversary(bought: Date, years: nat): Date { Date(bought.year + years, bought.month, bought.day) }

  /** A year has elapsed for each anniversary of the purchase that has come. */
  lemma YearsAreAnniversaries(purchased: Date, now: Date, k: nat)
    requires k > 0
    ensures k <= YearsElapsed(purchased, now) <==> NotAfter(Anniversary(purchased, k), now)
  {
  }

  datatype Event = Event(year: nat, amount: real, before: real, after: real)

  datatype Asset = Asset(
    purchased: Date,
    price: real,
    lifespanYears: nat,
    annualDepreciation: real,
    bookValue: real,
    events: seq<Event>,
    active: bool)

  /** A year can be applied while the asset is in use, has value left and years left. */
  predicate Applicable(a: Asset) { a.active && a.bookValue > 0.0 && |a.events| < a.lifespanYears }

  /** One more year: the annual amount, never more than is left, and in the last year all that is left. */
  function ApplyOneYear(a: Asset): Asset {
    if !Applicable(a) then a
    else
      var applied := |a.events|;
      var amount := if a.lifespanYears - applied == 1 then a.bookValue else Min(a.annualDepreciation, a.bookValue);
      a.(bookValue := a.bookValue - amount,
         events := a.events + [Event(applied + 1, amount, a.bookValue, a.bookValue - amount)])
  }

  function ApplyYears(a: Asset, n: nat): Asset { if n == 0 then a else ApplyOneYear(ApplyYears(a, n - 1)) }

  function YearsDue(a: Asset, now: Date): nat {
    var elapsed := YearsElapsed(a.purchased, now);
    if elapsed < a.lifespanYears then elapsed else a.lifespanYears
  }

  /** What the job makes of an asset: only the years that are due and not yet recorded. */
  function Scheduled(a: Asset, now: Date): Asset {
    var due := YearsDue(a, now);
    if a.active && due > |a.events| then ApplyYears(a, due - |a.events|) else a
  }

  // ---- the job ----------------------------------------------------------------------------------

  class AssetService {
    var assets: seq<Asset>

    constructor (assets: seq<Asset>)
      ensures this.assets == assets
    {
      this.assets := assets;
    }

    method ApplyOneDepreciationYear(id: nat) returns (applied: bool)
      requires id < |assets|
      modifies this
      ensures assets == old(assets)[id := ApplyOneYear(old(assets)[id])]
      ensures applied <==> Applicable(old(assets)[id])
    {
      var a := assets[id];
      if !a.active || a.bookValue <= 0.0 { return false; }
      var appliedYears := |a.events|;
      if appliedYears >= a.lifespanYears { return false; }
      var before := a.bookValue;
      var remainingYears := a.lifespanYears - appliedYears;
      var amount := if remainingYears == 1 then before else Min(a.annualDepreciation, before);
      var after := before - amount;
      a := a.(events := a.events + [Event(appliedYears + 1, amount, before, after)]);
      a := a.(bookValue := after);
      assets := assets[id := a];
      applied := true;
    }

    /** Every asset in use, year by year, stopping early where nothing more can be applied. */
    method ApplyScheduledDepreciation(now: Date)
      modifies this
      ensures |assets| == |old(assets)|
      ensures forall i | 0 <= i < |assets| :: assets[i] == Scheduled(old(assets)[i], now)
    {
      for id := 0 to |assets|
        invariant |assets| == |old(assets)|
        invariant forall i | 0 <= i < |assets| :: assets[i] == if i < id then Scheduled(old(assets)[i], now) else old(assets)[i]
      {
        if assets[id].active {
          var a := assets[id];
          var yearsToApply := YearsDue(a, now) - |a.events|;
          var i := 0;
          var stuck := false;
          while i < yearsToApply && !stuck
            invariant 0 <= i && (i <= yearsToApply || i == 0)
            invariant |assets| == |old(assets)|
            invariant forall j | 0 <= j < |assets| && j != id :: assets[j] == if j < id then Scheduled(old(assets)[j], now) else old(assets)[j]
            invariant assets[id] == ApplyYears(a, i)
            invariant stuck ==> i < yearsToApply && !Applicable(assets[id])
            decreases yearsToApply - i, !stuck
          {
            var applied := ApplyOneDepreciationYear(id);
            if applied { i := i + 1; } else { stuck := true; }
          }
          if stuck { StuckStays(a, i, yearsToApply); }
        }
      }
    }
  }

  // ---- what it keeps ----------------------------------------------------------------------------

  lemma {:induction false} StuckStays(a: Asset, k: nat, n: nat)
    requires k <= n && !Applicable(ApplyYears(a, k))
    ensures ApplyYears(a, n) == ApplyYears(a, k)
    decreases n
  {
    if k < n {
      StuckStays(a, k, n - 1);
    }
  }

  function Depreciated(events: seq<Event>): real {
    if events == [] then 0.0 else Depreciated(events[..|events| - 1]) + events[|events| - 1].amount
  }

  /** Event `i` takes the annual amount from what the events before it left, but no more than that, and
      all of it in the last year of life. */
  ghost predicate StraightLine(a: Asset, i: nat)
    requires i < |a.events|
  {
    var e := a.events[i];
    && e.year == i + 1
    && e.before == a.price - Depreciated(a.events[..i])
    && e.amount == (if i + 1 == a.lifespanYears then e.before else Min(a.annualDepreciation, e.before))
    && e.after == e.before - e.amount
  }

  /** The book value is the price less the events and never negative; there are at most as many events
      as years of life, and with the last of them nothing is left. */
  ghost predicate AssetOk(a: Asset) {
    && a.annualDepreciation >= 0.0 && a.lifespanYears > 0
    && a.bookValue == a.price - Depreciated(a.events) && a.bookValue >= 0.0
    && |a.events| <= a.lifespanYears
    && (|a.events| == a.lifespanYears ==> a.bookValue == 0.0)
    && (forall i: nat | i < |a.events| :: StraightLine(a, i))
  }

  /** An asset as it is created: no event yet, book value at the price. */
  ghost predicate Fresh(a: Asset) {
    a.active && a.events == [] && a.bookValue == a.price > 0.0 && a.lifespanYears > 0 && a.annualDepreciation >= 0.0
  }

  lemma OneYearKeeps(a: Asset)
    requires AssetOk(a)
    ensures AssetOk(ApplyOneYear(a))
  {
    if Applicable(a) {
      var a' := ApplyOneYear(a);
      assert a'.events[..|a.events|] == a.events;
      forall i: nat | i < |a'.events| ensures StraightLine(a', i) {
        if i < |a.events| {
          assert StraightLine(a, i);
          assert a'.events[..i] == a.events[..i];
        }
      }
    }
  }

  lemma {:induction false} YearsKeep(a: Asset, n: nat)
    requires AssetOk(a)
    ensures AssetOk(ApplyYears(a, n))
  {
    if n > 0 {
      YearsKeep(a, n - 1);
      OneYearKeeps(ApplyYears(a, n - 1));
    }
  }

  /** The years of a fresh asset are applied one by one until it is stuck for good. */
  lemma {:induction false} EventsCount(a: Asset, n: nat)
    requires Fresh(a)
    ensures var b := ApplyYears(a, n);
            && b.purchased == a.purchased && b.lifespanYears == a.lifespanYears && b.active && b.price == a.price
            && |b.events| <= n && (|b.events| == n || !Applicable(b))
  {
    if n > 0 {
      EventsCount(a, n - 1);
    }
  }

  lemma {:induction false} YearsAdd(a: Asset, m: nat, n: nat)
    ensures ApplyYears(ApplyYears(a, m), n) == ApplyYears(a, m + n)
  {
    if n > 0 {
      YearsAdd(a, m, n - 1);
    }
  }

  lemma ElapsedGrows(purchased: Date, earlier: Date, later: Date)
    requires NotAfter(earlier, later)
    ensures YearsElapsed(purchased, earlier) <= YearsElapsed(purchased, later)
  {
  }

  /** From any state the job left, the next run ends where one run on its day alone would. */
  lemma CatchesUp(a: Asset, k: nat, now: Date)
    requires Fresh(a) && k <= YearsDue(a, now)
    ensures Scheduled(ApplyYears(a, k), now) == ApplyYears(a, YearsDue(a, now))
  {
    var b, due := ApplyYears(a, k), YearsDue(a, now);
    EventsCount(a, k);
    if |b.events| == k {
      YearsAdd(a, k, due - k);
    } else {
      StuckStays(a, k, due);
      if due > |b.events| {
        StuckStays(b, 0, due - |b.events|);
      }
    }
  }

  function Runs(a: Asset, days: seq<Date>): Asset { if days == [] then a else Scheduled(Runs(a, days[..|days| - 1]),
                days[|days| - 1]) }

  /** On whatever days the job ran, in order, it leaves exactly what one run on the last day leaves:
      the same events with the same amounts. */
  lemma {:induction false} CatchUpIsConfluent(a: Asset, days: seq<Date>)
    requires Fresh(a) && days != [] && forall i, j | 0 <= i < j < |days| :: NotAfter(days[i], days[j])
    ensures Runs(a, days) == Scheduled(a, days[|days| - 1]) == ApplyYears(a, YearsDue(a, days[|days| - 1]))
  {
    var init, last := days[..|days| - 1], days[|days| - 1];
    CatchesUp(a, 0, last);
    if init != [] {
      CatchUpIsConfluent(a, init);
      ElapsedGrows(a.purchased, init[|init| - 1], last);
      CatchesUp(a, YearsDue(a, init[|init| - 1]), last);
    }
  }

  /** On any schedule each event takes the annual amount, or all that is left of it or of the asset's
      life; the book value is the price less the events, never negative; there are never more events
      than years of life; and once those years have passed nothing is left. */
  lemma BookValueOverAnySchedule(a: Asset, days: seq<Date>)
    requires Fresh(a) && days != [] && forall i, j | 0 <= i < j < |days| :: NotAfter(days[i], days[j])
    ensures var b := Runs(a, days);
            && b.bookValue == a.price - Depreciated(b.events) && b.bookValue >= 0.0 && |b.events| <= a.lifespanYears
            && (forall i: nat | i < |b.events| :: StraightLine(b, i))
            && (YearsElapsed(a.purchased, days[|days| - 1]) >= a.lifespanYears ==> b.bookValue == 0.0)
  {
    CatchUpIsConfluent(a, days);
    var n := YearsDue(a, days[|days| - 1]);
    YearsKeep(a, n);
    EventsCount(a, n);
  }

  // ---- the closed form --------------------------------------------------------------------------

  /** What a number of whole annual amounts leave of the price, below zero if they are more than it. */
  function LeftAfter(a: Asset, years: nat): real { a.price - years as real * a.annualDepreciation }

  /** The asset after some years, event by event: a year is recorded while there is something left for it. */
  ghost predicate ClosedForm(a: Asset, b: Asset, years: nat) {
    && b.bookValue == (if years == a.lifespanYears then 0.0 else Max(0.0, LeftAfter(a, years)))
    && (forall k: nat :: k < |b.events| <==> k < years && LeftAfter(a, k) > 0.0)
  }

  lemma OneYearLess(a: Asset, years: nat)
    ensures LeftAfter(a, years + 1) == LeftAfter(a, years) - a.annualDepreciation
  {
    assert (years + 1) as real * a.annualDepreciation == years as real * a.annualDepreciation + a.annualDepreciation;
  }

  lemma OneYearInClosedForm(a: Asset, b: Asset, years: nat)
    requires Fresh(a) && years < a.lifespanYears && ClosedForm(a, b, years)
    requires b.active && b.lifespanYears == a.lifespanYears && b.annualDepreciation == a.annualDepreciation && |b.events| <= years
    ensures ClosedForm(a, ApplyOneYear(b), years + 1)
  {
    OneYearLess(a, years);
    if b.bookValue > 0.0 {
      assert LeftAfter(a, years) > 0.0;
      if years > 0 {
        OneYearLess(a, years - 1);
        assert years - 1 < |b.events|;
      }
    }
  }

  lemma {:induction false} YearsInClosedForm(a: Asset, years: nat)
    requires Fresh(a) && years <= a.lifespanYears
    ensures ClosedForm(a, ApplyYears(a, years), years)
    ensures ApplyYears(a, years).annualDepreciation == a.annualDepreciation
  {
    if years == 0 {
      assert LeftAfter(a, 0) == a.price;
    } else {
      YearsInClosedForm(a, years - 1);
      EventsCount(a, years - 1);
      OneYearInClosedForm(a, ApplyYears(a, years - 1), years - 1);
    }
  }

  /** On any schedule the book value is the price less the annual amount for each anniversary that has come,
      not below zero, and zero once the years of life are over. Year `k + 1` is recorded exactly when its
      anniversary has come, within the years of life, and `k` annual amounts leave something of the price. */
  lemma BookValueIsStraightLine(a: Asset, days: seq<Date>) returns (years: nat)
    requires Fresh(a) && days != [] && forall i, j | 0 <= i < j < |days| :: NotAfter(days[i], days[j])
    ensures forall k: nat | k > 0 :: k <= years <==> NotAfter(Anniversary(a.purchased, k), days[|days| - 1])
    ensures var b := Runs(a, days);
            && b.bookValue == (if years >= a.lifespanYears then 0.0 else Max(0.0, a.price - years as real * a.annualDepreciation))
            && (forall k: nat :: k < |b.events| <==> k < years && k < a.lifespanYears && LeftAfter(a, k) > 0.0)
  {
    var today := days[|days| - 1];
    years := YearsElapsed(a.purchased, today);
    forall k: nat | k > 0
      ensures k <= years <==> NotAfter(Anniversary(a.purchased, k), today)
    {
      YearsAreAnniversaries(a.purchased, today, k);
    }
    CatchUpIsConfluent(a, days);
    YearsInClosedForm(a, YearsDue(a, today));
  }

  /** An asset that is not in use is left alone. */
  lemma {:induction false} IdleAssetsStay(a: Asset, days: seq<Date>)
    requires !a.active
    ensures Runs(a, days) == a
  {
    if days != [] {
      IdleAssetsStay(a, days[..|days| - 1]);
    }
  }
}
