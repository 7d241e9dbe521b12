/** What each electricity operation does, said of the columns of the tables alone: when it goes through, which
    bill and which meter it changes, and how. */
module ElectricityRequests {
  import opened Basics
  import opened Rounding
  import opened Electricity
  import opened ElectricityRuns
  import Fifo

  // ---- payments -------------------------------------------------------------------------------------

  predicate Unpaid(b: Bill) { b.status == PENDING || b.status == PARTIAL || b.status == OVERDUE }

  /** What is open of each bill of a tenant and shop. */
  function Remainders(bills: seq<Bill>, tenant: nat, shop: nat): seq<real> {
    seq(|bills|, i requires 0 <= i < |bills| =>
      if Unpaid(bills[i]) && bills[i].tenant == tenant && bills[i].shop == shop then bills[i].remaining else 0.0)
  }

  predicate HasOpenBill(bills: seq<Bill>, tenant: nat, shop: nat) {
    exists i :: 0 <= i < |bills| && Unpaid(bills[i]) && bills[i].tenant == tenant && bills[i].shop == shop
  }

  /** The bill named is an open one of the tenant and shop, and the amount is no more than it asks for; or, if
      none is named, the shop has an open bill and all of them together ask for as much. */
  predicate Payable(bills: seq<Bill>, tenant: nat, shop: nat, amount: real, bill: Option<nat>) {
    match bill
    case Some(i) =>
      && i < |bills| && Unpaid(bills[i]) && bills[i].tenant == tenant && bills[i].shop == shop && amount <= bills[i].remaining
    case None => HasOpenBill(bills, tenant, shop) && amount <= Sum(Remainders(bills, tenant, shop))
  }

  lemma {:induction false} DebtIsRemainders(bills: seq<Bill>, tenant: nat, shop: nat, k: nat)
    requires k <= |bills|
    ensures ShopDebtUpTo(bills, tenant, shop, k) == Prefix(Remainders(bills, tenant, shop), k)
  {
    if k > 0 {
      DebtIsRemainders(bills, tenant, shop, k - 1);
    }
  }

  /** A payment a client asks for goes through exactly when its date and rate are accepted, the deposit covers
      it if it comes from there, and the bill or the shop has that much open. */
  lemma PaymentGoesThroughWhen(t: Tables, tenant: nat, shop: nat, amount: real, bill: Option<nat>, deposit: Option<real>,
                               entry: PaymentEntry)
    ensures CreatePayment(t, tenant, shop, amount, bill, deposit, entry).Ok?
            <==> && !entry.inFuture && entry.rateKnown
                 && (deposit.Some? ==> amount <= deposit.value)
                 && Payable(t.bills, tenant, shop, amount, bill)
  {
    DebtIsRemainders(t.bills, tenant, shop, |t.bills|);
    assert HasOpenBill(t.bills, tenant, shop) <==> exists b | b in t.bills :: Owes(b, tenant, shop) by {
      if HasOpenBill(t.bills, tenant, shop) {
        var i :| 0 <= i < |t.bills| && Unpaid(t.bills[i]) && t.bills[i].tenant == tenant && t.bills[i].shop == shop;
        assert Owes(t.bills[i], tenant, shop) && t.bills[i] in t.bills;
      }
    }
  }

  /** What a payment does to a bill that receives a part of it. */
  ghost predicate PaidOn(before: Bill, after: Bill, part: real) {
    && after == before.(paid := before.paid + part, remaining := before.remaining - part, status := after.status)
    && after.status == if after.remaining == 0.0 then PAID else PARTIAL
  }

  /** A payment that names a bill lands on that bill in full, and on no other; it is recorded for the tenant and
      shop and allocated in one row. */
  lemma PaymentOfOneBill(t: Tables, tenant: nat, shop: nat, amount: real, i: nat, deposit: Option<real>, entry: PaymentEntry)
    requires BillsOk(t) && amount > 0.0 && CreatePayment(t, tenant, shop, amount, Some(i), deposit, entry).Ok?
    ensures i < |t.bills|
    ensures var t' := CreatePayment(t, tenant, shop, amount, Some(i), deposit, entry).value;
            && |t'.bills| == |t.bills| && PaidOn(t.bills[i], t'.bills[i], amount)
            && (forall k | 0 <= k < |t.bills| && k != i :: t'.bills[k] == t.bills[k])
            && t'.payments == t.payments + [Payment(tenant, shop, amount)]
            && t'.allocations == t.allocations + [Allocation(|t.payments|, i, amount)]
            && t'.meters == t.meters && t'.cycles == t.cycles
  {
    assert BillOk(t.bills[i]);
  }

  /** A payment of a shop's open bills changes no bill of another tenant or shop, and pays each of its own
      between nothing and what is open; together the parts are the amount. */
  lemma PaymentOfAllBills(t: Tables, tenant: nat, shop: nat, amount: real, deposit: Option<real>, entry: PaymentEntry)
    returns (cut: nat)
    requires BillsOk(t) && amount > 0.0 && CreatePayment(t, tenant, shop, amount, None, deposit, entry).Ok?
    ensures var t' := CreatePayment(t, tenant, shop, amount, None, deposit, entry).value;
            var queue := Queue(t.bills, tenant, shop);
            && |t'.bills| == |t.bills| && Within(queue, |t.bills|)
            && Fifo.CutAt(Remainings(t.bills, queue), Remainings(t'.bills, queue), cut)
            && Sum(Remainings(t'.bills, queue)) == Sum(Remainders(t.bills, tenant, shop)) - amount
            && (forall k | 0 <= k < |t.bills| && !(Unpaid(t.bills[k]) && t.bills[k].tenant == tenant && t.bills[k].shop == shop) ::
                  t'.bills[k] == t.bills[k])
            && t'.payments == t.payments + [Payment(tenant, shop, amount)]
            && t'.meters == t.meters && t'.cycles == t.cycles
  {
    DebtIsRemainders(t.bills, tenant, shop, |t.bills|);
    cut := PaymentIsOldestFirst(t, tenant, shop, amount);
  }

  // ---- bills ----------------------------------------------------------------------------------------

  /** The reading a bill starts from: the one given, or else the meter's. */
  function StartReading(t: Tables, r: BillRequest): Option<real> {
    match r.previousReading
    case Some(x) => Some(x)
    case None => if r.meter.Some? && r.meter.value < |t.meters| then t.meters[r.meter.value].lastReading else None
  }

  /** The meter of a live bill is there and active, and is read; a bill taken over from paper may have none. */
  predicate MeterFits(t: Tables, r: BillRequest) {
    && (r.meter.Some? ==> r.meter.value < |t.meters|)
    && (!r.openingEntry ==> r.meter.Some? && t.meters[r.meter.value].active && r.currentReading.Some? && r.paid.None?)
  }

  /** The period exists in the year and the contract has no bill for it. */
  predicate PeriodIsFree(t: Tables, r: BillRequest) {
    && r.year in t.cycles && t.cycles[r.year] in {1, 2, 3, 4, 6, 12} && 1 <= r.period <= 12 / t.cycles[r.year]
    && (forall i | 0 <= i < |t.bills| :: !(t.bills[i].contract == r.contract && t.bills[i].year == r.year && t.bills[i].period == r.period))
  }

  /** What is billed: the total given, or for a live bill the market's rate for what was consumed. */
  function Charged(t: Tables, r: BillRequest, marketRate: Option<real>): Option<real> {
    match r.total
    case Some(total) => Some(total)
    case None =>
      var start := StartReading(t, r);
      if !r.openingEntry && start.Some? && r.currentReading.Some? && start.value <= r.currentReading.value && marketRate.Some?
      then Some((r.currentReading.value - start.value) * marketRate.value)
      else None
  }

  predicate Billable(t: Tables, r: BillRequest, marketRate: Option<real>) {
    && MeterFits(t, r) && PeriodIsFree(t, r)
    && (r.readingDate.Some? ==> r.firstDay <= r.readingDate.value <= r.lastDay)
    && Charged(t, r, marketRate).Some?
    && (r.paid.Some? ==> r.paid.value <= Charged(t, r, marketRate).value)
  }

  lemma PeriodIsFreeMeans(t: Tables, r: BillRequest)
    ensures (exists b | b in t.bills :: SamePeriod(b, r.contract, r.year, r.period))
            <==> exists i | 0 <= i < |t.bills| ::
                   t.bills[i].contract == r.contract && t.bills[i].year == r.year && t.bills[i].period == r.period
  {
    if i :| 0 <= i < |t.bills| && t.bills[i].contract == r.contract && t.bills[i].year == r.year && t.bills[i].period == r.period {
      assert t.bills[i] in t.bills && SamePeriod(t.bills[i], r.contract, r.year, r.period);
    }
  }

  /** The total of a request whose meter and readings are accepted is what is to be charged. */
  lemma TotalIsCharged(t: Tables, r: BillRequest, marketRate: Option<real>)
    requires Admissible(OpCreateBill(r, marketRate))
    ensures var total := BillTotal(r, PreviousReading(t, r), if r.openingEntry then None else marketRate);
            && (total.Ok? <==> Charged(t, r, marketRate).Some?)
            && (total.Ok? ==> total.value == Charged(t, r, marketRate).value >= 0.0)
  {
    var start := StartReading(t, r);
    if r.total.None? && start.Some? && r.currentReading.Some? && start.value <= r.currentReading.value && marketRate.Some? {
      NonNegativeProduct(r.currentReading.value - start.value, marketRate.value);
    }
  }

  lemma RequestIsBillable(t: Tables, r: BillRequest, marketRate: Option<real>)
    requires Admissible(OpCreateBill(r, marketRate))
    ensures NewBill(t, r, marketRate).Ok? && (forall b | b in t.bills :: !SamePeriod(b, r.contract, r.year, r.period))
            <==> Billable(t, r, marketRate)
  {
    PeriodIsFreeMeans(t, r);
    TotalIsCharged(t, r, marketRate);
  }

  /** A bill is created exactly when its meter fits, its period exists and is free, its reading date lies in
      it, there is a total for it, and what is said to be paid does not exceed that. */
  lemma BillGoesThroughWhen(t: Tables, r: BillRequest, marketRate: Option<real>)
    requires Admissible(OpCreateBill(r, marketRate))
    ensures CreateBill(t, r, marketRate).Ok? <==> Billable(t, r, marketRate)
  {
    RequestIsBillable(t, r, marketRate);
  }

  /** The columns of a new bill. */
  ghost predicate BillAsAsked(t: Tables, r: BillRequest, marketRate: Option<real>, bill: Bill) {
    var start := StartReading(t, r);
    && bill.tenant == r.tenant && bill.shop == r.shop && bill.contract == r.contract && bill.meter == r.meter
    && bill.year == r.year && bill.period == r.period && bill.periodStart == r.firstDay
    && bill.periodEnd == (if r.readingDate.Some? then r.readingDate.value else r.lastDay)
    && Charged(t, r, marketRate) == Some(bill.total)
    && bill.paid == (if r.paid.Some? then r.paid.value else 0.0)
    && bill.paid + bill.remaining == bill.total
    && bill.status == (if bill.remaining == 0.0 then PAID else if bill.paid > 0.0 then PARTIAL else PENDING)
    && bill.openingEntry == r.openingEntry
    && bill.snapshot.rate == (if r.openingEntry then None else marketRate)
    && (bill.snapshot.manual <==> r.openingEntry || r.total.Some?)
    && (bill.snapshot.consumed.Some? <==>
          && start.Some? && r.currentReading.Some? && start.value <= r.currentReading.value
          && (r.openingEntry ==> r.previousReading.Some?))
    && (bill.snapshot.consumed.Some? ==>
          start.Some? && r.currentReading.Some? && bill.snapshot.consumed.value == RoundTo(r.currentReading.value - start.value, 100.0))
  }

  /** The meter of a new bill moves forward to its reading, and nothing else of it changes but a first reading
      that was not known. */
  ghost predicate MovedForward(before: Meter, after: Meter, r: BillRequest) {
    && after == before.(lastReading := after.lastReading, firstReading := after.firstReading)
    && after.lastReading == (if r.currentReading.Some? && (before.lastReading.None? || before.lastReading.value < r.currentReading.value)
                             then r.currentReading else before.lastReading)
    && (before.firstReading.Some? || after.lastReading == before.lastReading ==> after.firstReading == before.firstReading)
  }

  lemma NewBillIsAsAsked(t: Tables, r: BillRequest, marketRate: Option<real>)
    requires Admissible(OpCreateBill(r, marketRate)) && NewBill(t, r, marketRate).Ok?
    ensures BillAsAsked(t, r, marketRate, NewBill(t, r, marketRate).value)
  {
    TotalIsCharged(t, r, marketRate);
  }

  /** A bill is added at the end with the columns asked for; its meter moves forward; no other bill or meter and
      no payment changes. */
  lemma BillWrites(t: Tables, r: BillRequest, marketRate: Option<real>)
    requires Admissible(OpCreateBill(r, marketRate)) && CreateBill(t, r, marketRate).Ok?
    ensures var t', n := CreateBill(t, r, marketRate).value, |t.bills|;
            && |t'.bills| == n + 1 && t'.bills[..n] == t.bills && BillAsAsked(t, r, marketRate, t'.bills[n])
            && |t'.meters| == |t.meters| && t'.payments == t.payments && t'.allocations == t.allocations && t'.cycles == t.cycles
            && (forall m | 0 <= m < |t.meters| && r.meter != Some(m) :: t'.meters[m] == t.meters[m])
            && (r.meter.Some? ==> r.meter.value < |t.meters| && MovedForward(t.meters[r.meter.value], t'.meters[r.meter.value], r))
  {
    NewBillIsAsAsked(t, r, marketRate);
  }

  // ---- meters ---------------------------------------------------------------------------------------

  /** A new device starts with the reading it is recorded with. */
  lemma MeterIsAdded(t: Tables, shop: nat, active: bool, reading: Option<real>)
    ensures var t', n := AddMeter(t, shop, active, reading), |t.meters|;
            && t' == t.(meters := t'.meters) && |t'.meters| == n + 1 && t'.meters[..n] == t.meters
            && t'.meters[n].shop == Some(shop) && t'.meters[n].active == active && t'.meters[n].unbilled == 0.0
            && t'.meters[n].lastReading == t'.meters[n].firstReading == reading && t'.meters[n].finalReading == None
  {
  }

  /** A device is replaced exactly when it is active and was read, if ever, at just the final reading. It is then
      switched off with that reading, and a new active device on the same shop starts at the reading asked
      for; no other device, no bill and no debt changes. */
  lemma ReplacementStartsAnew(t: Tables, id: nat, finalReading: real, initialReading: real)
    ensures ReplaceMeter(t, id, finalReading, initialReading).Ok?
            <==> id < |t.meters| && t.meters[id].active && (t.meters[id].lastReading.Some? ==> t.meters[id].lastReading.value == finalReading)
    ensures ReplaceMeter(t, id, finalReading, initialReading).Ok? ==>
              var t', n := ReplaceMeter(t, id, finalReading, initialReading).value, |t.meters|;
              && t' == t.(meters := t'.meters) && |t'.meters| == n + 1
              && (forall m | 0 <= m < n && m != id :: t'.meters[m] == t.meters[m])
              && t'.meters[id] == t.meters[id].(active := false, finalReading := Some(finalReading))
              && t'.meters[n].shop == t.meters[id].shop && t'.meters[n].active && t'.meters[n].unbilled == 0.0
              && t'.meters[n].lastReading == t'.meters[n].firstReading == Some(initialReading) && t'.meters[n].finalReading == None
  {
  }

  /** A contract starts on a meter exactly when the meter is free or on the shop and the reading does not run
      backwards. The meter is then on the shop, active, at that reading, and what it ran through since it was
      last read counts as unbilled. */
  lemma CheckpointBinds(t: Tables, id: nat, shop: nat, reading: real)
    ensures Checkpoint(t, id, shop, reading).Ok?
            <==> && id < |t.meters| && (t.meters[id].shop == None || t.meters[id].shop == Some(shop))
                 && (t.meters[id].lastReading.Some? ==> t.meters[id].lastReading.value <= reading)
    ensures Checkpoint(t, id, shop, reading).Ok? ==>
              var t' := Checkpoint(t, id, shop, reading).value;
              && t' == t.(meters := t'.meters) && |t'.meters| == |t.meters|
              && (forall m | 0 <= m < |t.meters| && m != id :: t'.meters[m] == t.meters[m])
              && var before, after := t.meters[id], t'.meters[id];
              && after.shop == Some(shop) && after.active && after.lastReading == Some(reading) && after.finalReading == None
              && (before.firstReading.Some? ==> after.firstReading == before.firstReading)
              && (before.firstReading.None? ==> after.firstReading == Some(reading))
              && after.unbilled - before.unbilled == (if before.lastReading.Some? then reading - before.lastReading.value else 0.0)
  {
  }

  /** The billing period of a year can be set exactly when it stays as it is or the year has no bill yet. */
  lemma CycleIsSet(t: Tables, year: int, monthsPerPeriod: int)
    ensures SetBillingCycle(t, year, monthsPerPeriod).Ok?
            <==> (year in t.cycles && t.cycles[year] != monthsPerPeriod ==> forall i | 0 <= i < |t.bills| :: t.bills[i].year != year)
    ensures SetBillingCycle(t, year, monthsPerPeriod).Ok? ==>
              SetBillingCycle(t, year, monthsPerPeriod).value == t.(cycles := t.cycles[year := monthsPerPeriod])
  {
    if i :| 0 <= i < |t.bills| && t.bills[i].year == year {
      assert t.bills[i] in t.bills;
    }
  }

  // ---- write-offs, flags and debts --------------------------------------------------------------------

  /** A write-off lowers each open bill of the tenant and shop to what was paid on it, and no other. */
  lemma WriteOffWrites(t: Tables, tenant: nat, shop: nat, i: nat)
    requires BillsOk(t) && i < |t.bills|
    ensures var t', b := WriteOffOpenBillsForShop(t, tenant, shop), t.bills[i];
            && |t'.bills| == |t.bills| && t'.payments == t.payments && t'.allocations == t.allocations && t'.meters == t.meters
            && t'.bills[i] == (if Unpaid(b) && b.tenant == tenant && b.shop == shop
                               then b.(total := b.paid, remaining := 0.0, status := PAID) else b)
  {
  }

  /** The job flags exactly the PENDING bills whose period is over. */
  lemma JobFlags(t: Tables, now: real, i: nat)
    requires i < |t.bills|
    ensures var t', b := FlagOverdueBills(t, now), t.bills[i];
            && t' == t.(bills := t'.bills) && |t'.bills| == |t.bills|
            && t'.bills[i] == (if b.status == PENDING && (b.periodEnd as real) < now then b.(status := OVERDUE) else b)
  {
  }

  lemma {:induction false} OpenBillsAreUnpaid(bills: seq<Bill>, tenant: nat, b: Bill)
    ensures b in OpenBillsOf(bills, tenant) <==> b in bills && Unpaid(b) && b.tenant == tenant
  {
    if bills != [] {
      var init, last := bills[..|bills| - 1], bills[|bills| - 1];
      assert bills == init + [last];
      OpenBillsAreUnpaid(init, tenant, b);
    }
  }

  lemma {:induction false} LatestIsLatest(bills: seq<Bill>)
    requires bills != []
    ensures LatestBill(bills) in bills && forall b | b in bills :: b.periodStart <= LatestBill(bills).periodStart
  {
    if |bills| > 1 {
      var init, last := bills[..|bills| - 1], bills[|bills| - 1];
      assert bills == init + [last];
      LatestIsLatest(init);
    }
  }

  /** The stored row of a tenant with open bills names an open bill of the latest period: its start and its
      total; without open bills the row keeps what it named. Rows of other tenants stay. */
  lemma DebtRowNamesTheLatest(bills: seq<Bill>, debts: map<nat, DebtRow>, tenant: nat, other: nat) returns (latest: Option<Bill>)
    ensures tenant in Recomputed(bills, debts, tenant)
    ensures latest.Some? <==> exists b | b in bills :: Unpaid(b) && b.tenant == tenant
    ensures latest.Some? ==>
              && latest.value in bills && Unpaid(latest.value) && latest.value.tenant == tenant
              && (forall b | b in bills && Unpaid(b) && b.tenant == tenant :: b.periodStart <= latest.value.periodStart)
              && var row := Recomputed(bills, debts, tenant)[tenant];
              row.lastBillAmount == latest.value.total && row.lastBillDate == Some(latest.value.periodStart)
    ensures latest.None? && tenant in debts ==>
              var row := Recomputed(bills, debts, tenant)[tenant];
              row == debts[tenant].(totalDebt := 0.0)
    ensures other != tenant ==>
              (other in Recomputed(bills, debts, tenant) <==> other in debts)
              && (other in debts ==> Recomputed(bills, debts, tenant)[other] == debts[other])
  {
    var open := OpenBillsOf(bills, tenant);
    forall b ensures b in open <==> b in bills && Unpaid(b) && b.tenant == tenant { OpenBillsAreUnpaid(bills, tenant, b); }
    if open == [] {
      latest := None;
    } else {
      LatestIsLatest(open);
      latest := Some(LatestBill(open));
    }
  }
}
