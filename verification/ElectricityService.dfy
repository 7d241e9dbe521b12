/** The electricity engine as it runs, row by row over its tables, inside a transaction that commits
    or restores them. Every method is proved against its function in Electricity. */
module ElectricityService {
  import opened Basics
  import opened E = Electricity
  import opened ElectricityRuns
  import Fifo

  ghost predicate Outcome(spec: Result<Tables>, before: Tables, after: Tables, error: Option<string>) {
    match spec
    case Ok(t) => error == None && after == t
    case Err(reason) => error == Some(reason) && after == before
  }

  /** The running remainder at position `p` of the queue hands out the share of the bill there. */
  lemma RunningShare(bills: seq<Bill>, tenant: nat, shop: nat, amount: real, p: nat, remaining: real)
    requires p < |Queue(bills, tenant, shop)| && forall i | 0 <= i < |bills| :: BillOk(bills[i])
    requires remaining == Max(0.0, amount - Prefix(Remainings(bills, Queue(bills, tenant, shop)), p)) && remaining != 0.0
    ensures var i := Queue(bills, tenant, shop)[p];
            && Owes(bills[i], tenant, shop) && Reached(bills, tenant, shop, amount, i)
            && Min(remaining, bills[i].remaining) == ShareOf(bills, tenant, shop, amount, i)
            && remaining - Min(remaining, bills[i].remaining)
            == Max(0.0, amount - Prefix(Remainings(bills, Queue(bills, tenant, shop)), p + 1))
  {
    AheadOnQueue(bills, tenant, shop, p);
    assert BillOk(bills[Queue(bills, tenant, shop)[p]]);
  }

  /** Once the remainder is used up, the bills further down the queue are not reached. */
  lemma WalkStops(bills: seq<Bill>, tenant: nat, shop: nat, amount: real, p: nat, q: nat)
    requires p <= q < |Queue(bills, tenant, shop)| && forall i | 0 <= i < |bills| :: BillOk(bills[i])
    requires amount <= Prefix(Remainings(bills, Queue(bills, tenant, shop)), p)
    ensures !Reached(bills, tenant, shop, amount, Queue(bills, tenant, shop)[q])
  {
    AheadOnQueue(bills, tenant, shop, q);
    QueueAmounts(bills, tenant, shop);
    PrefixMonotone(Remainings(bills, Queue(bills, tenant, shop)), p, q);
  }

  lemma {:induction false} RowsStop(bills: seq<Bill>, tenant: nat, shop: nat, amount: real, payment: nat, p: nat,
                                    m: nat)
    requires p <= m <= |Queue(bills, tenant, shop)|
    requires forall q | p <= q < m :: !Reached(bills, tenant, shop, amount, Queue(bills, tenant, shop)[q])
    ensures var queue := Queue(bills, tenant, shop);
            && Within(queue[..m], |bills|) && Within(queue[..p], |bills|)
            && AllocationRows(bills, tenant, shop, amount, payment, queue[..m])
            == AllocationRows(bills, tenant, shop, amount, payment, queue[..p])
    decreases m
  {
    if p < m {
      RowsStop(bills, tenant, shop, amount, payment, p, m - 1);
      RowStep(bills, tenant, shop, amount, payment, m);
    }
  }

  /** A payment to be walked over the queue of a shop. */
  datatype Walk = Walk(before: seq<Bill>, tenant: nat, shop: nat, amount: real, payment: nat)

  ghost predicate Walkable(w: Walk) {
    w.amount > 0.0 && forall i | 0 <= i < |w.before| :: BillOk(w.before[i])
  }

  /** The walk has settled the first `p` bills of the queue: those are as they will be, the others as
      they were, `rows` has their allocation rows and `remaining` is what is left to hand out. */
  ghost predicate Walked(w: Walk, bills: seq<Bill>, rows: seq<Allocation>, p: nat, remaining: real) {
    var queue := Queue(w.before, w.tenant, w.shop);
    var after := Allocated(w.before, w.tenant, w.shop, w.amount);
    && p <= |queue| && Within(queue[..p], |w.before|) && |bills| == |w.before|
    && (forall i: nat | i < |bills| :: bills[i] == if i in queue[..p] then after[i] else w.before[i])
    && rows == AllocationRows(w.before, w.tenant, w.shop, w.amount, w.payment, queue[..p])
    && remaining == Max(0.0, w.amount - Prefix(Remainings(w.before, queue), p))
  }

  lemma WalkStart(w: Walk)
    requires Walkable(w)
    ensures Walked(w, w.before, [], 0, w.amount)
  {
  }

  /** What one step does to the bill at position `p`, to the rows, and to the remainder. */
  lemma StepEffect(w: Walk, p: nat, remaining: real)
    requires Walkable(w) && p < |Queue(w.before, w.tenant, w.shop)|
    requires remaining == Max(0.0, w.amount - Prefix(Remainings(w.before, Queue(w.before, w.tenant, w.shop)), p)) && remaining != 0.0
    ensures var queue := Queue(w.before, w.tenant, w.shop);
            var i := queue[p];
            var applied := Min(remaining, w.before[i].remaining);
            && Within(queue[..p], |w.before|) && Within(queue[..p + 1], |w.before|) && i !in queue[..p]
            && Allocated(w.before, w.tenant, w.shop, w.amount)[i] == Pay(w.before[i], applied)
            && AllocationRows(w.before, w.tenant, w.shop, w.amount, w.payment, queue[..p + 1])
            == AllocationRows(w.before, w.tenant, w.shop, w.amount, w.payment, queue[..p]) + [Allocation(w.payment, i, applied)]
            && remaining - applied == Max(0.0, w.amount - Prefix(Remainings(w.before, queue), p + 1))
  {
    RunningShare(w.before, w.tenant, w.shop, w.amount, p, remaining);
    QueueIsDistinct(w.before, w.tenant, w.shop, p);
    RowStep(w.before, w.tenant, w.shop, w.amount, w.payment, p + 1);
  }

  /** One step of the walk: the bill at position `p` is paid its share and gets its allocation row. */
  lemma WalkStep(w: Walk, bills: seq<Bill>, rows: seq<Allocation>, p: nat, remaining: real)
    requires Walkable(w) && Walked(w, bills, rows, p, remaining)
    requires p < |Queue(w.before, w.tenant, w.shop)| && remaining != 0.0
    ensures var i := Queue(w.before, w.tenant, w.shop)[p];
            && i < |bills|
            && var applied := Min(remaining, bills[i].remaining);
            Walked(w, bills[i := Pay(bills[i], applied)], rows + [Allocation(w.payment, i, applied)], p + 1, remaining - applied)
  {
    StepEffect(w, p, remaining);
    BillsStep(bills, w.before, Allocated(w.before, w.tenant, w.shop, w.amount), Queue(w.before, w.tenant, w.shop), p);
  }

  lemma BillsStep(bills: seq<Bill>, before: seq<Bill>, after: seq<Bill>, queue: seq<nat>, p: nat)
    requires p < |queue| && queue[p] < |bills| == |before| == |after|
    requires forall i: nat | i < |bills| :: bills[i] == if i in queue[..p] then after[i] else before[i]
    ensures var bills' := bills[queue[p] := after[queue[p]]];
            forall i: nat | i < |bills'| :: bills'[i] == if i in queue[..p + 1] then after[i] else before[i]
  {
    assert queue[..p + 1] == queue[..p] + [queue[p]];
  }

  /** Where the walk stops, all that a payment does is done. */
  lemma WalkDone(w: Walk, bills: seq<Bill>, rows: seq<Allocation>, p: nat, remaining: real)
    requires Walkable(w) && Walked(w, bills, rows, p, remaining)
    requires p < |Queue(w.before, w.tenant, w.shop)| ==> remaining == 0.0
    ensures bills == Allocated(w.before, w.tenant, w.shop, w.amount)
    ensures rows == AllocationRows(w.before, w.tenant, w.shop, w.amount, w.payment, Queue(w.before, w.tenant, w.shop))
  {
    var queue, after := Queue(w.before, w.tenant, w.shop), Allocated(w.before, w.tenant, w.shop, w.amount);
    forall q | p <= q < |queue| ensures !Reached(w.before, w.tenant, w.shop, w.amount, queue[q]) {
      WalkStops(w.before, w.tenant, w.shop, w.amount, p, q);
    }
    RowsStop(w.before, w.tenant, w.shop, w.amount, w.payment, p, |queue|);
    assert queue[..|queue|] == queue;
    QueueInOrder(w.before, w.tenant, w.shop, |w.before|);
    forall i: nat | i < |bills| && i !in queue[..p] ensures after[i] == w.before[i] {
      if i in queue {
        var q: nat :| q < |queue| && queue[q] == i;
        assert q >= p;
      }
    }
  }

  /** Sound tables stay sound: bills add up, payments are allocated in full, stored debts are the open
      remainders, and no period is billed twice. */
  ghost predicate Kept(before: Tables, after: Tables) { Inv(before) ==> Inv(after) }

  lemma OperationKeeps(before: Tables, op: Op, after: Tables, error: Option<string>)
    requires Outcome(Step(before, op), before, after, error)
    ensures Admissible(op) ==> Kept(before, after)
  {
    if Inv(before) && Admissible(op) { StepKeeps(before, op); }
  }

  lemma PayingKeeps(before: Tables, tenant: nat, shop: nat, amount: real, bill: Option<nat>, deposit: Option<real>,
                    entry: PaymentEntry,
                    after: Tables, error: Option<string>)
    requires Outcome(E.RecordPayment(before, tenant, shop, amount, bill, deposit, entry), before, after, error) && amount > 0.0
    ensures Kept(before, after)
  {
    if Inv(before) && error.None? { PaymentKeeps(before, tenant, shop, amount, bill, deposit, entry); }
  }

  class ElectricityService {
    var cycles: map<int, int>
    var meters: seq<Meter>
    var bills: seq<Bill>
    var payments: seq<Payment>
    var allocations: seq<Allocation>
    var debts: map<nat, DebtRow>

    ghost function State(): Tables
      reads this
    {
      Tables(cycles, meters, bills, payments, allocations, debts)
    }

    ghost predicate Valid()
      reads this
    {
      forall i | 0 <= i < |bills| :: BillOk(bills[i])
    }

    constructor ()
      ensures State() == EMPTY && Valid()
    {
      cycles, meters, bills, payments, allocations, debts := map[], [], [], [], [], map[];
    }

    /** Sum of what remains on the open bills of a shop. */
    method Outstanding(tenant: nat, shop: nat) returns (total: real)
      ensures total == ShopDebt(bills, tenant, shop)
    {
      total := 0.0;
      for i := 0 to |bills|
        invariant total == ShopDebtUpTo(bills, tenant, shop, i)
      {
        if Owes(bills[i], tenant, shop) { total := total + bills[i].remaining; }
      }
    }

    /** Oldest-first allocation over the open bills of one shop. */
    method AllocateToBills(tenant: nat, shop: nat, payment: nat, amount: real) returns (error: Option<string>)
      requires Valid() && amount > 0.0
      modifies this`bills, this`allocations
      ensures var before := old(bills);
              if amount > ShopDebt(before, tenant, shop) then
                error == Some("amount exceeds the open debt") && bills == before && allocations == old(allocations)
              else
                && error == None && bills == Allocated(before, tenant, shop, amount)
                && allocations == old(allocations)
                   + AllocationRows(before, tenant, shop, amount, payment, Queue(before, tenant, shop))
    {
      var total := Outstanding(tenant, shop);
      if amount > total { return Some("amount exceeds the open debt"); }
      WalkQueue(tenant, shop, payment, amount);
      error := None;
    }

    /** The walk: bill after bill until nothing of the amount is left. */
    method WalkQueue(tenant: nat, shop: nat, payment: nat, amount: real)
      requires Valid() && amount > 0.0
      modifies this`bills, this`allocations
      ensures bills == Allocated(old(bills), tenant, shop, amount)
      ensures allocations == old(allocations)
                + AllocationRows(old(bills), tenant, shop, amount, payment, Queue(old(bills), tenant, shop))
    {
      ghost var w := Walk(bills, tenant, shop, amount, payment);
      ghost var rows: seq<Allocation> := [];
      var queue := Queue(bills, tenant, shop);
      var remaining := amount;
      var p := 0;
      WalkStart(w);
      while p < |queue| && remaining != 0.0
        invariant Walked(w, bills, rows, p, remaining)
        invariant allocations == old(allocations) + rows
      {
        WalkStep(w, bills, rows, p, remaining);
        var applied := PayBill(queue[p], payment, remaining);
        rows := rows + [Allocation(payment, queue[p], applied)];
        remaining := remaining - applied;
        p := p + 1;
      }
      WalkDone(w, bills, rows, p, remaining);
    }

    /** One bill takes what it can of the remainder, and its allocation row is written. */
    method PayBill(i: nat, payment: nat, remaining: real) returns (applied: real)
      requires i < |bills|
      modifies this`bills, this`allocations
      ensures applied == Min(remaining, old(bills)[i].remaining)
      ensures bills == old(bills)[i := Pay(old(bills)[i], applied)]
      ensures allocations == old(allocations) + [Allocation(payment, i, applied)]
    {
      applied := Min(remaining, bills[i].remaining);
      allocations := allocations + [Allocation(payment, i, applied)];
      bills := bills[i := Pay(bills[i], applied)];
    }

    /** Sum the tenant's open bills and upsert the row. */
    method RecomputeElectricityDebt(tenant: nat)
      modifies this`debts
      ensures debts == Recomputed(bills, old(debts), tenant)
    {
      var open := OpenBillsOf(bills, tenant);
      var total := 0.0;
      for i := 0 to |open|
        invariant total == TotalRemaining(open[..i])
      {
        assert open[..i + 1][..i] == open[..i];
        total := total + open[i].remaining;
      }
      assert open[..|open|] == open;
      var row := if tenant in debts then debts[tenant] else DebtRow(0.0, 0.0, None);
      if open == [] {
        row := row.(totalDebt := total);
      } else {
        var latest := LatestBill(open);
        row := DebtRow(total, latest.total, Some(latest.periodStart));
      }
      debts := debts[tenant := row];
    }

    /** The rows of a payment on one bill, or on all open bills of the shop; nothing if it is refused. */
    method AllocatePayment(tenant: nat, shop: nat, amount: real, bill: Option<nat>) returns (error: Option<string>)
      requires Valid() && amount > 0.0
      modifies this`bills, this`allocations
      ensures Valid()
      ensures match E.AllocatePayment(old(State()), tenant, shop, amount, bill)
              case Ok((after, rows)) => error == None && bills == after && allocations == old(allocations) + rows
              case Err(reason) => error == Some(reason) && bills == old(bills) && allocations == old(allocations)
    {
      var payment := |payments|;
      if bill.Some? {
        var i := bill.value;
        if i >= |bills| { return Some("bill not found"); }
        if bills[i].tenant != tenant { return Some("bill belongs to another tenant"); }
        if !Open(bills[i]) { return Some("bill is not open"); }
        if amount > bills[i].remaining { return Some("amount exceeds the bill"); }
        allocations := allocations + [Allocation(payment, i, amount)];
        bills := bills[i := Pay(bills[i], amount)];
        error := None;
      } else {
        error := AllocateToBills(tenant, shop, payment, amount);
        AllocatedBillsOk(old(bills), tenant, shop, amount);
      }
    }

    method RecordPayment(tenant: nat, shop: nat, amount: real, bill: Option<nat>, deposit: Option<real>,
                         entry: PaymentEntry)
      returns (error: Option<string>)
      requires Valid() && amount > 0.0
      modifies this
      ensures Outcome(E.RecordPayment(old(State()), tenant, shop, amount, bill, deposit, entry), old(State()), State(), error)
      ensures Valid() && Kept(old(State()), State())
    {
      if entry.inFuture { return Some("payment date lies in the future"); }
      if !entry.rateKnown { return Some("no exchange rate is recorded"); }
      if deposit.Some? && amount > deposit.value { return Some("deposit is not sufficient"); }
      error := AllocatePayment(tenant, shop, amount, bill);
      if error.None? {
        payments := payments + [Payment(tenant, shop, amount)];
        RecomputeElectricityDebt(tenant);
      }
      PayingKeeps(old(State()), tenant, shop, amount, bill, deposit, entry, State(), error);
    }

    /** The checks on the bill or shop, then the payment. */
    method PlacePayment(tenant: nat, shop: nat, amount: real, bill: Option<nat>, deposit: Option<real>, entry: PaymentEntry)
      returns (error: Option<string>)
      requires Valid() && amount > 0.0
      modifies this
      ensures Outcome(E.CreatePayment(old(State()), tenant, shop, amount, bill, deposit, entry), old(State()), State(), error)
      ensures Valid()
    {
      if bill.Some? {
        if bill.value >= |bills| { return Some("bill not found"); }
        var b := bills[bill.value];
        if b.tenant != tenant || b.shop != shop { return Some("bill belongs to another tenant or shop"); }
        if !Open(b) { return Some("bill is not open"); }
      } else if forall b | b in bills :: !Owes(b, tenant, shop) {
        return Some("no open bill");
      }
      error := RecordPayment(tenant, shop, amount, bill, deposit, entry);
    }

    /** A payment as a client asks for it. */
    method CreatePayment(tenant: nat, shop: nat, amount: real, bill: Option<nat>, deposit: Option<real>, entry: PaymentEntry)
      returns (error: Option<string>)
      requires Valid() && amount > 0.0
      modifies this
      ensures Outcome(E.CreatePayment(old(State()), tenant, shop, amount, bill, deposit, entry), old(State()), State(), error)
      ensures Valid() && Kept(old(State()), State())
    {
      error := PlacePayment(tenant, shop, amount, bill, deposit, entry);
      OperationKeeps(old(State()), OpCreatePayment(tenant, shop, amount, bill, deposit, entry), State(), error);
    }

    method WriteOffOpenBillsForShop(tenant: nat, shop: nat)
      requires Valid()
      modifies this`bills, this`debts
      ensures State() == E.WriteOffOpenBillsForShop(old(State()), tenant, shop) && Valid()
      ensures Kept(old(State()), State())
    {
      ghost var after := WrittenOff(bills, tenant, shop);
      for i := 0 to |bills|
        invariant |bills| == |after|
        invariant forall j | 0 <= j < |bills| :: bills[j] == if j < i then after[j] else old(bills)[j]
        invariant debts == old(debts)
      {
        if Owes(bills[i], tenant, shop) {
          bills := bills[i := WriteOff(bills[i])];
        }
      }
      assert bills == after;
      WrittenOffBillsOk(old(bills), tenant, shop);
      RecomputeElectricityDebt(tenant);
      OperationKeeps(old(State()), OpWriteOff(tenant, shop), State(), None);
    }

    method FlagOverdueBills(now: real)
      modifies this`bills
      ensures State() == E.FlagOverdueBills(old(State()), now)
      ensures Kept(old(State()), State())
    {
      ghost var after := Flagged(bills, now);
      for i := 0 to |bills|
        invariant |bills| == |after|
        invariant forall j | 0 <= j < |bills| :: bills[j] == if j < i then after[j] else old(bills)[j]
      {
        if bills[i].status == PENDING && (bills[i].periodEnd as real) < now {
          bills := bills[i := bills[i].(status := OVERDUE)];
        }
      }
      assert bills == after;
      OperationKeeps(old(State()), OpFlagOverdue(now), State(), None);
    }

    method CheckBill(r: BillRequest) returns (refusal: Option<string>)
      ensures refusal == BillRefusal(State(), r)
    {
      if r.meter.Some? {
        if r.meter.value >= |meters| { return Some("meter not found"); }
        if !r.openingEntry && !meters[r.meter.value].active { return Some("meter is inactive"); }
      } else if !r.openingEntry {
        return Some("meter is required");
      }
      if !r.openingEntry && r.currentReading.None? { return Some("reading is required"); }
      if r.paid.Some? && !r.openingEntry { return Some("paid amount is for opening entries only"); }
      if r.year !in cycles || cycles[r.year] !in ALLOWED_MONTHS_PER_PERIOD { return Some("no billing cycle"); }
      if ResolvePeriod(cycles[r.year], r.period).None? { return Some("no such period"); }
      if r.readingDate.Some? && (r.readingDate.value < r.firstDay || r.readingDate.value > r.lastDay) {
        return Some("reading date outside the period");
      }
      refusal := None;
    }

    /** The checks and the amounts of a bill; nothing is written yet. */
    method PrepareBill(r: BillRequest, marketRate: Option<real>) returns (bill: Result<Bill>)
      ensures bill == NewBill(State(), r, marketRate)
    {
      var refusal := CheckBill(r);
      if refusal.Some? { return Err(refusal.value); }
      var end := if r.readingDate.Some? then r.readingDate.value else r.lastDay;
      var previous := r.previousReading;
      if previous.None? && r.meter.Some? { previous := meters[r.meter.value].lastReading; }
      var rate := if r.openingEntry then None else marketRate;
      var total := BillTotal(r, previous, rate);
      if total.Err? { return Err(total.reason); }
      var paid := if r.paid.Some? then r.paid.value else 0.0;
      if paid > total.value { return Err("paid amount exceeds the total"); }
      var snapshot := BuildBillSnapshot(r.openingEntry, r.total.Some?, rate, previous, r.currentReading,
                                        r.previousReading.Some? && r.currentReading.Some?);
      var remaining := total.value - paid;
      bill := Ok(Bill(r.tenant, r.shop, r.contract, r.meter, r.year, r.period, r.firstDay, end, snapshot,
                      total.value, paid, remaining, StatusOf(remaining, paid), r.openingEntry));
    }

    /** Insert the row unless its period is taken, move the meter forward, recompute the debt. */
    method WriteBill(r: BillRequest, bill: Bill) returns (error: Option<string>)
      requires r.meter.Some? ==> r.meter.value < |meters|
      modifies this
      ensures Outcome(InsertBill(old(State()), r, bill), old(State()), State(), error)
    {
      if exists b | b in bills :: SamePeriod(b, r.contract, r.year, r.period) { return Some("period is already billed"); }
      bills := bills + [bill];
      if r.meter.Some? {
        meters := meters[r.meter.value := Advanced(meters[r.meter.value], r, bill.snapshot.consumed)];
      }
      RecomputeElectricityDebt(r.tenant);
      error := None;
    }

    method CreateBill(r: BillRequest, marketRate: Option<real>) returns (error: Option<string>)
      modifies this
      ensures Outcome(E.CreateBill(old(State()), r, marketRate), old(State()), State(), error)
      ensures Admissible(OpCreateBill(r, marketRate)) ==> Kept(old(State()), State())
    {
      var prepared := PrepareBill(r, marketRate);
      if prepared.Err? { return Some(prepared.reason); }
      error := WriteBill(r, prepared.value);
      OperationKeeps(old(State()), OpCreateBill(r, marketRate), State(), error);
    }

    /** Take a device off and put a new one on the same shop. */
    method ReplaceMeter(id: nat, finalReading: real, initialReading: real) returns (error: Option<string>)
      modifies this`meters
      ensures Outcome(E.ReplaceMeter(old(State()), id, finalReading, initialReading), old(State()), State(), error)
      ensures Kept(old(State()), State())
    {
      if id >= |meters| { return Some("meter not found"); }
      var m := meters[id];
      if !m.active { return Some("meter is inactive"); }
      if m.lastReading.Some? {
        if finalReading < m.lastReading.value { return Some("final reading runs backwards"); }
        if finalReading > m.lastReading.value { return Some("consumption is not billed yet"); }
      }
      meters := meters[id := m.(active := false, finalReading := Some(finalReading))];
      meters := meters + [Meter(m.shop, true, Some(initialReading), Some(initialReading), None, 0.0)];
      error := None;
      OperationKeeps(old(State()), OpReplaceMeter(id, finalReading, initialReading), State(), error);
    }
  }

  lemma AllocatedBillsOk(bills: seq<Bill>, tenant: nat, shop: nat, amount: real)
    requires amount > 0.0 && forall i | 0 <= i < |bills| :: BillOk(bills[i])
    ensures forall i | 0 <= i < |bills| :: BillOk(Allocated(bills, tenant, shop, amount)[i])
  {
    forall i | 0 <= i < |bills| ensures BillOk(Allocated(bills, tenant, shop, amount)[i]) {
      assert BillOk(bills[i]);
    }
  }

  lemma WrittenOffBillsOk(bills: seq<Bill>, tenant: nat, shop: nat)
    requires forall i | 0 <= i < |bills| :: BillOk(bills[i])
    ensures forall i | 0 <= i < |bills| :: BillOk(WrittenOff(bills, tenant, shop)[i])
  {
    forall i | 0 <= i < |bills| ensures BillOk(WrittenOff(bills, tenant, shop)[i]) {
      assert BillOk(bills[i]);
    }
  }
}
