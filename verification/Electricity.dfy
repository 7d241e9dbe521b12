/** Electricity: meters and their readings, bills, oldest-first payments, and the debt of a tenant,
    as functions from the tables before an operation to the tables after it. Ids are positions. */
module Electricity {
  import opened Basics
  import opened Rounding

  datatype BillStatus = PENDING | PARTIAL | PAID | OVERDUE

  datatype Bill = Bill(
    tenant: nat,
    shop: nat,
    contract: nat,
    meter: Option<nat>,
    year: int,
    period: int,
    periodStart: int,
    periodEnd: int,
    snapshot: Snapshot,
    total: real,
    paid: real,
    remaining: real,
    status: BillStatus,
    openingEntry: bool)

  /** How a bill was computed, stored with the bill. */
  datatype Snapshot = Snapshot(rate: Option<real>, consumed: Option<real>, manual: bool)

  /** `lastReading` is the stored column; `firstReading` (the first reading known of the device) and
      `finalReading` (the one a replacement is recorded with) are kept in the audit log; `unbilled`
      counts units passed over when a contract starts on a meter that ran on in an empty shop. */
  datatype Meter = Meter(
    shop: Option<nat>,
    active: bool,
    lastReading: Option<real>,
    firstReading: Option<real>,
    finalReading: Option<real>,
    unbilled: real)

  datatype Payment = Payment(tenant: nat, shop: nat, amount: real)

  datatype Allocation = Allocation(payment: nat, bill: nat, amount: real)

  datatype DebtRow = DebtRow(totalDebt: real, lastBillAmount: real, lastBillDate: Option<int>)

  /** `cycles` gives the months per billing period of a Jalali year. */
  datatype Tables = Tables(
    cycles: map<int, int>,
    meters: seq<Meter>,
    bills: seq<Bill>,
    payments: seq<Payment>,
    allocations: seq<Allocation>,
    debts: map<nat, DebtRow>)

  const EMPTY := Tables(map[], [], [], [], [], map[])

  predicate Open(b: Bill) { b.status.PENDING? || b.status.PARTIAL? || b.status.OVERDUE? }

  function StatusOf(remaining: real, paid: real): BillStatus {
    if remaining <= 0.0 then PAID else if paid > 0.0 then PARTIAL else PENDING
  }

  // ---- billing periods --------------------------------------------------------------------------

  const ALLOWED_MONTHS_PER_PERIOD := {1, 2, 3, 4, 6, 12}

  /** First and last month of a period, counted from 1. */
  function ResolvePeriod(monthsPerPeriod: int, period: int): Option<(int, int)>
    requires monthsPerPeriod in ALLOWED_MONTHS_PER_PERIOD
  {
    if period < 1 || period > 12 / monthsPerPeriod then None
    else Some(((period - 1) * monthsPerPeriod + 1, period * monthsPerPeriod))
  }

  predicate CoversMonth(monthsPerPeriod: int, period: int, month: int)
    requires monthsPerPeriod in ALLOWED_MONTHS_PER_PERIOD
  {
    match ResolvePeriod(monthsPerPeriod, period)
    case Some((first, last)) => first <= month <= last
    case None => false
  }

  /** The periods of a year cover each of its twelve months exactly once. */
  lemma PeriodsTileTheYear(monthsPerPeriod: int, month: int)
    requires monthsPerPeriod in ALLOWED_MONTHS_PER_PERIOD && 1 <= month <= 12
    ensures CoversMonth(monthsPerPeriod, (month - 1) / monthsPerPeriod + 1, month)
    ensures forall p, q :: CoversMonth(monthsPerPeriod, p, month) && CoversMonth(monthsPerPeriod, q, month) ==> p == q
  {
  }

  /** The length of a period may change only while the year has no bill. */
  function SetBillingCycle(t: Tables, year: int, monthsPerPeriod: int): Result<Tables> {
    if year in t.cycles && t.cycles[year] != monthsPerPeriod && exists b | b in t.bills :: b.year == year then
      Err("bills of this year exist")
    else Ok(t.(cycles := t.cycles[year := monthsPerPeriod]))
  }

  // ---- bills ------------------------------------------------------------------------------------

  /** `firstDay` and `lastDay` are what the Jalali calendar gives for the months of the period. */
  datatype BillRequest = BillRequest(
    tenant: nat,
    shop: nat,
    contract: nat,
    meter: Option<nat>,
    year: int,
    period: int,
    firstDay: int,
    lastDay: int,
    readingDate: Option<int>,
    previousReading: Option<real>,
    currentReading: Option<real>,
    total: Option<real>,
    openingEntry: bool,
    paid: Option<real>)

  function BuildBillSnapshot(openingEntry: bool, totalProvided: bool, marketRate: Option<real>,
                             previous: Option<real>, current: Option<real>, readingsExplicit: bool): Snapshot {
    Snapshot(
      if openingEntry then None else marketRate,
      if (!openingEntry || readingsExplicit) && previous.Some? && current.Some? && current.value >= previous.value
      then Some(RoundTo(current.value - previous.value, 100.0)) else None,
      openingEntry || totalProvided)
  }

  function BillTotal(r: BillRequest, previous: Option<real>, marketRate: Option<real>): Result<real> {
    if r.total.Some? then Ok(r.total.value)
    else if r.openingEntry then Err("total is required for an opening entry")
    else if previous.None? then Err("meter has no previous reading")
    else if r.currentReading.None? then Err("reading is required")
    else if r.currentReading.value < previous.value then Err("reading runs backwards")
    else if marketRate.None? then Err("market has no rate")
    else Ok((r.currentReading.value - previous.value) * marketRate.value)
  }

  function PreviousReading(t: Tables, r: BillRequest): Option<real> {
    if r.previousReading.Some? then r.previousReading
    else if r.meter.Some? && r.meter.value < |t.meters| then t.meters[r.meter.value].lastReading
    else None
  }

  /** A meter moves forward to the reading of a bill, never back. */
  function Advanced(m: Meter, r: BillRequest, consumed: Option<real>): Meter {
    if r.currentReading.None? || (m.lastReading.Some? && r.currentReading.value <= m.lastReading.value) then m
    else
      var first :=
        if m.firstReading.Some? then m.firstReading
        else if consumed.Some? && r.previousReading.Some? then r.previousReading
        else r.currentReading;
      m.(lastReading := r.currentReading, firstReading := first)
  }

  predicate SamePeriod(b: Bill, contract: nat, year: int, period: int) {
    b.contract == contract && b.year == year && b.period == period
  }

  /** Why a request is refused before anything is computed. */
  function BillRefusal(t: Tables, r: BillRequest): Option<string> {
    if r.meter.Some? && r.meter.value >= |t.meters| then Some("meter not found")
    else if r.meter.Some? && !r.openingEntry && !t.meters[r.meter.value].active then Some("meter is inactive")
    else if r.meter.None? && !r.openingEntry then Some("meter is required")
    else if !r.openingEntry && r.currentReading.None? then Some("reading is required")
    else if r.paid.Some? && !r.openingEntry then Some("paid amount is for opening entries only")
    else if r.year !in t.cycles || t.cycles[r.year] !in ALLOWED_MONTHS_PER_PERIOD then Some("no billing cycle")
    else if ResolvePeriod(t.cycles[r.year], r.period).None? then Some("no such period")
    else if r.readingDate.Some? && !(r.firstDay <= r.readingDate.value <= r.lastDay) then Some("reading date outside the period")
    else None
  }

  /** The row a request asks for, or why it is refused. */
  function NewBill(t: Tables, r: BillRequest, marketRate: Option<real>): Result<Bill> {
    match BillRefusal(t, r)
    case Some(reason) => Err(reason)
    case None =>
      var previous := PreviousReading(t, r);
      var rate := if r.openingEntry then None else marketRate;
      var paid := if r.paid.Some? then r.paid.value else 0.0;
      match BillTotal(r, previous, rate)
      case Err(reason) => Err(reason)
      case Ok(total) =>
        if paid > total then Err("paid amount exceeds the total")
        else
          var snapshot := BuildBillSnapshot(r.openingEntry, r.total.Some?, rate, previous, r.currentReading,
                                            r.previousReading.Some? && r.currentReading.Some?);
          Ok(Bill(r.tenant, r.shop, r.contract, r.meter, r.year, r.period, r.firstDay,
                  if r.readingDate.Some? then r.readingDate.value else r.lastDay, snapshot,
                  total, paid, total - paid, StatusOf(total - paid, paid), r.openingEntry))
  }

  /** The row is inserted unless its period is taken; the meter and the debt follow. */
  function InsertBill(t: Tables, r: BillRequest, bill: Bill): Result<Tables>
    requires r.meter.Some? ==> r.meter.value < |t.meters|
  {
    if exists b | b in t.bills :: SamePeriod(b, r.contract, r.year, r.period) then Err("period is already billed")
    else
      var bills := t.bills + [bill];
      Ok(t.(bills := bills,
            meters := if r.meter.None? then t.meters
                      else t.meters[r.meter.value := Advanced(t.meters[r.meter.value], r, bill.snapshot.consumed)],
            debts := Recomputed(bills, t.debts, r.tenant)))
  }

  function CreateBill(t: Tables, r: BillRequest, marketRate: Option<real>): Result<Tables> {
    match NewBill(t, r, marketRate)
    case Err(reason) => Err(reason)
    case Ok(bill) => InsertBill(t, r, bill)
  }

  // ---- meters -----------------------------------------------------------------------------------

  function AddMeter(t: Tables, shop: nat, active: bool, reading: Option<real>): Tables {
    t.(meters := t.meters + [Meter(Some(shop), active, reading, reading, None, 0.0)])
  }

  /** The old device must be billed up to exactly the reading it is taken off with. */
  function ReplaceMeter(t: Tables, id: nat, finalReading: real, initialReading: real): Result<Tables> {
    if id >= |t.meters| then Err("meter not found")
    else
      var m := t.meters[id];
      if !m.active then Err("meter is inactive")
      else if m.lastReading.Some? && finalReading < m.lastReading.value then Err("final reading runs backwards")
      else if m.lastReading.Some? && finalReading > m.lastReading.value then Err("consumption is not billed yet")
      else
        Ok(t.(meters := t.meters[id := m.(active := false, finalReading := Some(finalReading))]
                        + [Meter(m.shop, true, Some(initialReading), Some(initialReading), None, 0.0)]))
  }

  /** A contract starts on a meter at a reading: the meter is bound to its shop and switched on. */
  function Checkpoint(t: Tables, id: nat, shop: nat, reading: real): Result<Tables> {
    if id >= |t.meters| then Err("meter not found")
    else
      var m := t.meters[id];
      if m.shop.Some? && m.shop.value != shop then Err("meter belongs to another shop")
      else if m.lastReading.Some? && reading < m.lastReading.value then Err("reading runs backwards")
      else
        Ok(t.(meters := t.meters[id := Meter(Some(shop), true, Some(reading),
                                             if m.firstReading.Some? then m.firstReading else Some(reading), None,
                                             m.unbilled + (if m.lastReading.Some? then reading - m.lastReading.value else 0.0))]))
  }

  // ---- the debt of a tenant ---------------------------------------------------------------------

  function OpenBillsOf(bills: seq<Bill>, tenant: nat): seq<Bill> {
    if bills == [] then []
    else
      var last := bills[|bills| - 1];
      OpenBillsOf(bills[..|bills| - 1], tenant) + (if Open(last) && last.tenant == tenant then [last] else [])
  }

  function TotalRemaining(bills: seq<Bill>): real {
    if bills == [] then 0.0 else TotalRemaining(bills[..|bills| - 1]) + bills[|bills| - 1].remaining
  }

  /** First bill of a stable sort by descending `periodStart`. */
  function LatestBill(bills: seq<Bill>): Bill
    requires bills != []
  {
    var last := bills[|bills| - 1];
    if |bills| == 1 then last
    else
      var best := LatestBill(bills[..|bills| - 1]);
      if last.periodStart > best.periodStart then last else best
  }

  function Recomputed(bills: seq<Bill>, debts: map<nat, DebtRow>, tenant: nat): map<nat, DebtRow> {
    var open := OpenBillsOf(bills, tenant);
    var row := if tenant in debts then debts[tenant] else DebtRow(0.0, 0.0, None);
    debts[tenant :=
      if open == [] then row.(totalDebt := 0.0)
      else var latest := LatestBill(open); DebtRow(TotalRemaining(open), latest.total, Some(latest.periodStart))]
  }

  // ---- oldest-first allocation ------------------------------------------------------------------

  predicate Owes(b: Bill, tenant: nat, shop: nat) { Open(b) && b.tenant == tenant && b.shop == shop }

  function OwedBy(b: Bill, tenant: nat, shop: nat): real { if Owes(b, tenant, shop) then b.remaining else 0.0 }

  /** The order in which open bills are paid: by start of period, then as they were created. */
  predicate Before(bills: seq<Bill>, j: nat, i: nat)
    requires j < |bills| && i < |bills|
  {
    bills[j].periodStart < bills[i].periodStart || (bills[j].periodStart == bills[i].periodStart && j < i)
  }

  /** What a tenant owes for a shop over the first `k` bills. */
  function ShopDebtUpTo(bills: seq<Bill>, tenant: nat, shop: nat, k: nat): real
    requires k <= |bills|
  {
    if k == 0 then 0.0 else ShopDebtUpTo(bills, tenant, shop, k - 1) + OwedBy(bills[k - 1], tenant, shop)
  }

  function ShopDebt(bills: seq<Bill>, tenant: nat, shop: nat): real { ShopDebtUpTo(bills, tenant, shop, |bills|) }

  /** What is owed on bills that come before bill `i`, among the first `k`. */
  function AheadUpTo(bills: seq<Bill>, tenant: nat, shop: nat, i: nat, k: nat): real
    requires i < |bills| && k <= |bills|
  {
    if k == 0 then 0.0
    else
      AheadUpTo(bills, tenant, shop, i, k - 1)
      + (if Before(bills, k - 1, i) then OwedBy(bills[k - 1], tenant, shop) else 0.0)
  }

  function Ahead(bills: seq<Bill>, tenant: nat, shop: nat, i: nat): real
    requires i < |bills|
  {
    AheadUpTo(bills, tenant, shop, i, |bills|)
  }

  predicate Reached(bills: seq<Bill>, tenant: nat, shop: nat, amount: real, i: nat)
    requires i < |bills|
  {
    Owes(bills[i], tenant, shop) && Ahead(bills, tenant, shop, i) < amount
  }

  /** A reached bill gets what the bills before it leave over, up to what it owes. */
  function ShareOf(bills: seq<Bill>, tenant: nat, shop: nat, amount: real, i: nat): real
    requires i < |bills|
  {
    Min(bills[i].remaining, amount - Ahead(bills, tenant, shop, i))
  }

  function Pay(b: Bill, applied: real): Bill {
    var left := b.remaining - applied;
    b.(paid := b.paid + applied, remaining := left, status := if left <= 0.0 then PAID else PARTIAL)
  }

  function Allocated(bills: seq<Bill>, tenant: nat, shop: nat, amount: real): seq<Bill> {
    seq(|bills|, i requires 0 <= i < |bills| =>
      if Reached(bills, tenant, shop, amount, i) then Pay(bills[i], ShareOf(bills, tenant, shop, amount, i)) else bills[i])
  }

  predicate Within(queue: seq<nat>, n: nat) { forall p | 0 <= p < |queue| :: queue[p] < n }

  /** Bills in the order they are paid, as the database returns them. */
  function Insert(bills: seq<Bill>, queue: seq<nat>, x: nat): (r: seq<nat>)
    requires x < |bills| && Within(queue, |bills|)
    ensures Within(r, |bills|)
  {
    if queue == [] then [x]
    else
      var n := |queue| - 1;
      if Before(bills, queue[n], x) then queue + [x] else Insert(bills, queue[..n], x) + [queue[n]]
  }

  function OpenQueue(bills: seq<Bill>, tenant: nat, shop: nat, k: nat): (r: seq<nat>)
    requires k <= |bills|
    ensures Within(r, |bills|)
  {
    if k == 0 then []
    else
      var queue := OpenQueue(bills, tenant, shop, k - 1);
      if Owes(bills[k - 1], tenant, shop) then Insert(bills, queue, k - 1) else queue
  }

  function Queue(bills: seq<Bill>, tenant: nat, shop: nat): (r: seq<nat>)
    ensures Within(r, |bills|)
  {
    OpenQueue(bills, tenant, shop, |bills|)
  }

  function AllocationRows(bills: seq<Bill>, tenant: nat, shop: nat, amount: real, payment: nat,
                          queue: seq<nat>): seq<Allocation>
    requires Within(queue, |bills|)
  {
    if queue == [] then []
    else
      var i := queue[|queue| - 1];
      AllocationRows(bills, tenant, shop, amount, payment, queue[..|queue| - 1])
      + (if Reached(bills, tenant, shop, amount, i)
         then [Allocation(payment, i, ShareOf(bills, tenant, shop, amount, i))] else [])
  }

  // ---- payments and write-offs ------------------------------------------------------------------

  /** The bills and rows of a payment, over all open bills of a shop or on one bill only. */
  function AllocatePayment(t: Tables, tenant: nat, shop: nat, amount: real, bill: Option<nat>): Result<(seq<Bill>,
                           seq<Allocation>)> {
    var payment := |t.payments|;
    match bill
    case Some(i) =>
      if i >= |t.bills| then Err("bill not found")
      else if t.bills[i].tenant != tenant then Err("bill belongs to another tenant")
      else if !Open(t.bills[i]) then Err("bill is not open")
      else if amount > t.bills[i].remaining then Err("amount exceeds the bill")
      else Ok((t.bills[i := Pay(t.bills[i], amount)], [Allocation(payment, i, amount)]))
    case None =>
      if amount > ShopDebt(t.bills, tenant, shop) then Err("amount exceeds the open debt")
      else
        Ok((Allocated(t.bills, tenant, shop, amount),
            AllocationRows(t.bills, tenant, shop, amount, payment, Queue(t.bills, tenant, shop))))
  }

  /** One payment. `deposit` is what is left of the security deposit when the money is taken from there. */
  function RecordPayment(t: Tables, tenant: nat, shop: nat, amount: real, bill: Option<nat>, deposit: Option<real>,
                         entry: PaymentEntry): Result<Tables> {
    if EntryRefusal(entry).Some? then Err(EntryRefusal(entry).value)
    else if deposit.Some? && amount > deposit.value then Err("deposit is not sufficient")
    else
      match AllocatePayment(t, tenant, shop, amount, bill)
      case Err(reason) => Err(reason)
      case Ok((bills, rows)) =>
        Ok(t.(bills := bills, payments := t.payments + [Payment(tenant, shop, amount)], allocations := t.allocations + rows,
              debts := Recomputed(bills, t.debts, tenant)))
  }

  /** A payment a client asks for: the bill it names, or else the shop, must have something open. */
  function CreatePayment(t: Tables, tenant: nat, shop: nat, amount: real, bill: Option<nat>, deposit: Option<real>,
                         entry: PaymentEntry): Result<Tables> {
    if bill.Some? && bill.value >= |t.bills| then Err("bill not found")
    else if bill.Some? && (t.bills[bill.value].tenant != tenant || t.bills[bill.value].shop != shop) then
      Err("bill belongs to another tenant or shop")
    else if bill.Some? && !Open(t.bills[bill.value]) then Err("bill is not open")
    else if bill.None? && forall b | b in t.bills :: !Owes(b, tenant, shop) then Err("no open bill")
    else RecordPayment(t, tenant, shop, amount, bill, deposit, entry)
  }

  function WriteOff(b: Bill): Bill { b.(total := b.paid, remaining := 0.0, status := PAID) }

  function WrittenOff(bills: seq<Bill>, tenant: nat, shop: nat): seq<Bill> {
    seq(|bills|, i requires 0 <= i < |bills| => if Owes(bills[i], tenant, shop) then WriteOff(bills[i]) else bills[i])
  }

  function WriteOffOpenBillsForShop(t: Tables, tenant: nat, shop: nat): Tables {
    var bills := WrittenOff(t.bills, tenant, shop);
    t.(bills := bills, debts := Recomputed(bills, t.debts, tenant))
  }

  function Flagged(bills: seq<Bill>, now: real): seq<Bill> {
    seq(|bills|, i requires 0 <= i < |bills| =>
      if bills[i].status == PENDING && (bills[i].periodEnd as real) < now then bills[i].(status := OVERDUE) else bills[i])
  }

  function FlagOverdueBills(t: Tables, now: real): Tables { t.(bills := Flagged(t.bills, now)) }

  // ---- runs -------------------------------------------------------------------------------------

  datatype Op =
    | OpSetCycle(year: int, monthsPerPeriod: int)
    | OpAddMeter(shop: nat, active: bool, reading: Option<real>)
    | OpReplaceMeter(meter: nat, finalReading: real, initialReading: real)
    | OpCheckpoint(meter: nat, shop: nat, at: real)
    | OpCreateBill(request: BillRequest, marketRate: Option<real>)
    | OpCreatePayment(tenant: nat, shop: nat, amount: real, bill: Option<nat>, deposit: Option<real>, entry: PaymentEntry)
    | OpReceive(tenant: nat, shop: nat, amount: real, entry: PaymentEntry)
    | OpWriteOff(tenant: nat, shop: nat)
    | OpFlagOverdue(now: real)

  /** Request validation. */
  predicate Admissible(op: Op) {
    match op
    case OpSetCycle(_, n) => n in ALLOWED_MONTHS_PER_PERIOD
    case OpCreateBill(r, rate) =>
      && (r.total.Some? ==> r.total.value > 0.0) && (r.paid.Some? ==> r.paid.value >= 0.0)
      && (rate.Some? ==> rate.value >= 0.0)
    case OpCreatePayment(_, _, amount, _, _, _) => amount > 0.0
    case OpReceive(_, _, amount, _) => amount > 0.0
    case _ => true
  }

  function Step(t: Tables, op: Op): Result<Tables> {
    match op
    case OpSetCycle(year, n) => SetBillingCycle(t, year, n)
    case OpAddMeter(shop, active, reading) => Ok(AddMeter(t, shop, active, reading))
    case OpReplaceMeter(id, final, initial) => ReplaceMeter(t, id, final, initial)
    case OpCheckpoint(id, shop, reading) => Checkpoint(t, id, shop, reading)
    case OpCreateBill(r, rate) => CreateBill(t, r, rate)
    case OpCreatePayment(tenant, shop, amount, bill, deposit, entry) => CreatePayment(t, tenant, shop, amount, bill, deposit, entry)
    case OpReceive(tenant, shop, amount, entry) => RecordPayment(t, tenant, shop, amount, None, None, entry)
    case OpWriteOff(tenant, shop) => Ok(WriteOffOpenBillsForShop(t, tenant, shop))
    case OpFlagOverdue(now) => Ok(FlagOverdueBills(t, now))
  }

  function Apply(t: Tables, op: Op): Tables {
    match Step(t, op)
    case Ok(t') => t'
    case Err(_) => t
  }

  function Run(t: Tables, ops: seq<Op>): Tables {
    if ops == [] then t else Apply(Run(t, ops[..|ops| - 1]), ops[|ops| - 1])
  }
}
