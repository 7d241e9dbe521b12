/** Metered units are conserved: what the bills of a meter charge for is what the meter moved through,
    also when devices are replaced one after the other. */
module Meters {
  import opened Basics
  import opened Rounding
  import opened Electricity

  /** Units billed on a meter, and the number of bills that record units on it. */
  function UnitsOf(bills: seq<Bill>, meter: nat): real {
    if bills == [] then 0.0
    else
      var last := bills[|bills| - 1];
      UnitsOf(bills[..|bills| - 1], meter)
      + (if last.meter == Some(meter) && last.snapshot.consumed.Some? then last.snapshot.consumed.value else 0.0)
  }

  function Counted(bills: seq<Bill>, meter: nat): nat {
    if bills == [] then 0
    else
      var last := bills[|bills| - 1];
      Counted(bills[..|bills| - 1], meter) + (if last.meter == Some(meter) && last.snapshot.consumed.Some? then 1 else 0)
  }

  /** Units a meter ran through since its first known reading, without those passed over unbilled. */
  function Advance(m: Meter): real {
    if m.lastReading.Some? && m.firstReading.Some? then m.lastReading.value - m.firstReading.value - m.unbilled else 0.0
  }

  /** Each bill rounds its units to two places; readings that have no more than two lose nothing. */
  function Slack(exact: bool, count: nat): real { if exact then 0.0 else 0.005 * count as real }

  ghost predicate Conserved(t: Tables, exact: bool) {
    forall m: nat | m < |t.meters| ::
      Abs(UnitsOf(t.bills, m) - Advance(t.meters[m])) <= Slack(exact, Counted(t.bills, m))
  }

  ghost predicate MeterOk(m: Meter, exact: bool) {
    && (m.lastReading.Some? <==> m.firstReading.Some?)
    && (m.lastReading.None? ==> m.unbilled == 0.0)
    && (m.finalReading.Some? ==> !m.active && (m.lastReading.Some? ==> m.lastReading == m.finalReading))
    && (exact && m.lastReading.Some? ==> OnGrid(m.lastReading.value, 100.0))
  }

  ghost predicate Inv(t: Tables, exact: bool) {
    && (forall m | 0 <= m < |t.meters| :: MeterOk(t.meters[m], exact))
    && (forall i | 0 <= i < |t.bills| :: t.bills[i].meter.Some? ==> t.bills[i].meter.value < |t.meters|)
    && Conserved(t, exact)
  }

  predicate TwoPlaces(exact: bool, reading: Option<real>) { exact && reading.Some? ==> OnGrid(reading.value, 100.0) }

  /** Live bills that start from the meter's own reading; a baseline may be given only to a meter
      that has no reading yet. */
  ghost predicate Regular(t: Tables, op: Op, exact: bool) {
    match op
    case OpCreateBill(r, _) =>
      && !r.openingEntry
      && (r.previousReading.Some? ==> r.meter.Some? && r.meter.value < |t.meters| && t.meters[r.meter.value].lastReading.None?)
      && TwoPlaces(exact, r.currentReading) && TwoPlaces(exact, r.previousReading)
    case OpAddMeter(_, _, reading) => TwoPlaces(exact, reading)
    case OpReplaceMeter(_, _, initial) => TwoPlaces(exact, Some(initial))
    case OpCheckpoint(_, _, reading) => TwoPlaces(exact, Some(reading))
    case _ => true
  }

  ghost predicate RegularRun(t: Tables, ops: seq<Op>, exact: bool) {
    ops != [] ==>
      var init := ops[..|ops| - 1];
      RegularRun(t, init, exact) && Regular(Run(t, init), ops[|ops| - 1], exact)
  }

  // ---- one bill ---------------------------------------------------------------------------------

  /** For a live bill on a meter with a reading, whose readings run forward: the units it charges are
      the units the meter moves exactly when it starts at the meter's reading, or when it lies wholly
      behind that reading and charges nothing. */
  lemma BillMatchesMeter(m: Meter, r: BillRequest, previous: real)
    requires m.lastReading.Some? && r.currentReading.Some? && previous <= r.currentReading.value
    ensures var moved := Advanced(m, r, None).lastReading.value - m.lastReading.value;
            r.currentReading.value - previous == moved
            <==> previous == if r.currentReading.value > m.lastReading.value then m.lastReading.value else r.currentReading.value
  {
  }

  lemma RoundedUnits(previous: real, current: real, exact: bool)
    requires exact ==> OnGrid(previous, 100.0) && OnGrid(current, 100.0)
    ensures Abs(RoundTo(current - previous, 100.0) - (current - previous)) <= Slack(exact, 1)
  {
    if exact {
      GridDifference(current, previous, 100.0);
      RoundingKeepsGrid(current - previous, 100.0);
    } else {
      RoundingError(current - previous, 100.0);
    }
  }

  /** A bill without an amount given by hand charges the market rate for what the meter moved. */
  lemma AutomaticBillChargesTheAdvance(t: Tables, r: BillRequest, rate: real)
    requires Regular(t, OpCreateBill(r, Some(rate)), false) && r.total.None? && CreateBill(t, r, Some(rate)).Ok?
    requires r.previousReading.None?
    ensures r.meter.Some? && r.meter.value < |t.meters| && t.meters[r.meter.value].lastReading.Some?
    ensures var t' := CreateBill(t, r, Some(rate)).value;
            var before, after := t.meters[r.meter.value].lastReading, t'.meters[r.meter.value].lastReading;
            && after.Some? && after == r.currentReading
            && t'.bills[|t.bills|].total == (after.value - before.value) * rate
            && t'.bills[|t.bills|].total == t'.bills[|t.bills|].remaining
  {
    var bill := NewBill(t, r, Some(rate)).value;
    assert CreateBill(t, r, Some(rate)).value.bills[|t.bills|] == bill;
  }

  /** What an automatic bill charges is the rate times the units it records, up to the rounding of those
      to two places. */
  lemma AutomaticBillChargesItsUnits(t: Tables, r: BillRequest, rate: real) returns (bill: Bill)
    requires NewBill(t, r, Some(rate)).Ok? && r.total.None? && rate >= 0.0
    ensures NewBill(t, r, Some(rate)) == Ok(bill)
    ensures bill.snapshot.rate == Some(rate) && !bill.snapshot.manual && bill.snapshot.consumed.Some?
    ensures bill.paid == 0.0 && bill.remaining == bill.total >= 0.0
    ensures Abs(bill.total - bill.snapshot.consumed.value * rate) <= 0.005 * rate
  {
    bill := NewBill(t, r, Some(rate)).value;
    var previous, current := PreviousReading(t, r).value, r.currentReading.value;
    RoundingError(current - previous, 100.0);
    ScaledUnits(RoundTo(current - previous, 100.0), current - previous, rate);
  }

  lemma ScaledUnits(rounded: real, units: real, rate: real)
    requires Abs(rounded - units) <= 0.005 && rate >= 0.0 && units >= 0.0
    ensures Abs(units * rate - rounded * rate) <= 0.005 * rate && units * rate >= 0.0
  {
    ProductIsNonNegative(0.005 - (units - rounded), rate);
    ProductIsNonNegative(0.005 + (units - rounded), rate);
    ProductIsNonNegative(units, rate);
  }

  lemma ProductIsNonNegative(x: real, y: real)
    requires x >= 0.0 && y >= 0.0
    ensures x * y >= 0.0
  {
  }

  lemma {:induction false} NoBillsNoUnits(bills: seq<Bill>, meter: nat)
    requires forall i | 0 <= i < |bills| :: bills[i].meter != Some(meter)
    ensures UnitsOf(bills, meter) == 0.0 && Counted(bills, meter) == 0
  {
    if bills != [] {
      NoBillsNoUnits(bills[..|bills| - 1], meter);
    }
  }

  lemma {:induction false} SameUnits(a: seq<Bill>, b: seq<Bill>, meter: nat)
    requires |a| == |b| && forall i | 0 <= i < |a| :: a[i].meter == b[i].meter && a[i].snapshot == b[i].snapshot
    ensures UnitsOf(a, meter) == UnitsOf(b, meter) && Counted(a, meter) == Counted(b, meter)
  {
    if a != [] {
      SameUnits(a[..|a| - 1], b[..|b| - 1], meter);
    }
  }

  // ---- every operation --------------------------------------------------------------------------

  /** Payments, write-offs and the overdue job rewrite bills but not their readings. */
  lemma RewriteKeeps(t: Tables, t': Tables, exact: bool)
    requires Inv(t, exact) && t'.meters == t.meters && |t'.bills| == |t.bills|
    requires forall i | 0 <= i < |t.bills| :: t'.bills[i].meter == t.bills[i].meter && t'.bills[i].snapshot == t.bills[i].snapshot
    ensures Inv(t', exact)
  {
    forall m: nat ensures UnitsOf(t'.bills, m) == UnitsOf(t.bills, m) && Counted(t'.bills, m) == Counted(t.bills, m) {
      SameUnits(t'.bills, t.bills, m);
    }
  }

  lemma AppendMeterKeeps(t: Tables, t': Tables, m: Meter, exact: bool)
    requires Inv(t, exact) && t'.meters == t.meters + [m] && t'.bills == t.bills
    requires MeterOk(m, exact) && Advance(m) == 0.0
    ensures Inv(t', exact)
  {
    NoBillsNoUnits(t.bills, |t.meters|);
  }

  lemma UpdateMeterKeeps(t: Tables, t': Tables, id: nat, m: Meter, exact: bool)
    requires Inv(t, exact) && id < |t.meters| && t'.meters == t.meters[id := m] && t'.bills == t.bills
    requires MeterOk(m, exact) && Advance(m) == Advance(t.meters[id])
    ensures Inv(t', exact)
  {
  }

  lemma ReplaceKeeps(t: Tables, id: nat, finalReading: real, initialReading: real, exact: bool)
    requires Inv(t, exact) && TwoPlaces(exact, Some(initialReading)) && ReplaceMeter(t, id, finalReading, initialReading).Ok?
    ensures Inv(ReplaceMeter(t, id, finalReading, initialReading).value, exact)
  {
    var t' := ReplaceMeter(t, id, finalReading, initialReading).value;
    var off := t.meters[id].(active := false, finalReading := Some(finalReading));
    assert MeterOk(t.meters[id], exact);
    var middle := t.(meters := t.meters[id := off]);
    UpdateMeterKeeps(t, middle, id, off, exact);
    AppendMeterKeeps(middle, t', t'.meters[|t.meters|], exact);
  }

  lemma CheckpointKeeps(t: Tables, id: nat, shop: nat, reading: real, exact: bool)
    requires Inv(t, exact) && TwoPlaces(exact, Some(reading)) && Checkpoint(t, id, shop, reading).Ok?
    ensures Inv(Checkpoint(t, id, shop, reading).value, exact)
  {
    var t' := Checkpoint(t, id, shop, reading).value;
    assert MeterOk(t.meters[id], exact);
    UpdateMeterKeeps(t, t', id, t'.meters[id], exact);
  }

  lemma NewBillKeeps(t: Tables, t': Tables, id: nat, bill: Bill, m: Meter, exact: bool)
    requires Inv(t, exact) && id < |t.meters| && bill.meter == Some(id)
    requires t'.bills == t.bills + [bill] && t'.meters == t.meters[id := m] && MeterOk(m, exact)
    requires var units := if bill.snapshot.consumed.Some? then bill.snapshot.consumed.value else 0.0;
             Abs(units - (Advance(m) - Advance(t.meters[id]))) <= Slack(exact, if bill.snapshot.consumed.Some? then 1 else 0)
    ensures Inv(t', exact)
  {
    assert t'.bills[..|t.bills|] == t.bills;
    forall i: nat | i < |t'.meters|
      ensures Abs(UnitsOf(t'.bills, i) - Advance(t'.meters[i])) <= Slack(exact, Counted(t'.bills, i))
    {
      assert Abs(UnitsOf(t.bills, i) - Advance(t.meters[i])) <= Slack(exact, Counted(t.bills, i));
    }
  }

  lemma CreateBillConserves(t: Tables, r: BillRequest, marketRate: Option<real>, exact: bool)
    requires Inv(t, exact) && Regular(t, OpCreateBill(r, marketRate), exact) && CreateBill(t, r, marketRate).Ok?
    ensures Inv(CreateBill(t, r, marketRate).value, exact)
  {
    var t' := CreateBill(t, r, marketRate).value;
    var id, bill := r.meter.value, t'.bills[|t.bills|];
    var m := t.meters[id];
    assert MeterOk(m, exact);
    var previous, current := PreviousReading(t, r), r.currentReading;
    if previous.Some? && current.value >= previous.value {
      RoundedUnits(previous.value, current.value, exact);
    }
    NewBillKeeps(t, t', id, bill, t'.meters[id], exact);
  }

  lemma PaymentRewrites(t: Tables, tenant: nat, shop: nat, amount: real, bill: Option<nat>, deposit: Option<real>,
                        entry: PaymentEntry)
    requires RecordPayment(t, tenant, shop, amount, bill, deposit, entry).Ok?
    ensures var t' := RecordPayment(t, tenant, shop, amount, bill, deposit, entry).value;
            && t'.meters == t.meters && |t'.bills| == |t.bills|
            && forall i | 0 <= i < |t.bills| :: t'.bills[i].meter == t.bills[i].meter && t'.bills[i].snapshot == t.bills[i].snapshot
  {
  }

  lemma StepConserves(t: Tables, op: Op, exact: bool)
    requires Inv(t, exact) && Regular(t, op, exact)
    ensures Inv(Apply(t, op), exact)
  {
    if Step(t, op).Ok? {
      var t' := Apply(t, op);
      match op
      case OpSetCycle(_, _) =>
      case OpAddMeter(_, _, _) => AppendMeterKeeps(t, t', t'.meters[|t.meters|], exact);
      case OpReplaceMeter(id, final, initial) => ReplaceKeeps(t, id, final, initial, exact);
      case OpCheckpoint(id, shop, reading) => CheckpointKeeps(t, id, shop, reading, exact);
      case OpCreateBill(r, rate) => CreateBillConserves(t, r, rate, exact);
      case OpCreatePayment(tenant, shop, amount, bill, deposit, entry) =>
        PaymentRewrites(t, tenant, shop, amount, bill, deposit, entry);
        RewriteKeeps(t, t', exact);
      case OpReceive(tenant, shop, amount, entry) =>
        PaymentRewrites(t, tenant, shop, amount, None, None, entry);
        RewriteKeeps(t, t', exact);
      case OpWriteOff(_, _) => RewriteKeeps(t, t', exact);
      case OpFlagOverdue(_) => RewriteKeeps(t, t', exact);
    }
  }

  // ---- whole runs -------------------------------------------------------------------------------

  /** Over any run of live bills, payments, write-offs, contract starts and replacements, the units
      billed on each meter are the units it ran through: exactly when readings have two places, and
      within half a hundredth per bill otherwise. */
  lemma {:induction false} RunConserves(t: Tables, ops: seq<Op>, exact: bool)
    requires Inv(t, exact) && RegularRun(t, ops, exact)
    ensures Inv(Run(t, ops), exact)
  {
    if ops != [] {
      var init := ops[..|ops| - 1];
      RunConserves(t, init, exact);
      StepConserves(Run(t, init), ops[|ops| - 1], exact);
    }
  }

  function UnitsOfChain(bills: seq<Bill>, chain: seq<nat>): real {
    if chain == [] then 0.0 else UnitsOfChain(bills, chain[..|chain| - 1]) + UnitsOf(bills, chain[|chain| - 1])
  }

  function AdvanceOfChain(meters: seq<Meter>, chain: seq<nat>): real
    requires forall p | 0 <= p < |chain| :: chain[p] < |meters|
  {
    if chain == [] then 0.0 else AdvanceOfChain(meters, chain[..|chain| - 1]) + Advance(meters[chain[|chain| - 1]])
  }

  lemma {:induction false} UnitsOfChainAdvance(t: Tables, chain: seq<nat>)
    requires Inv(t, true) && forall p | 0 <= p < |chain| :: chain[p] < |t.meters|
    ensures UnitsOfChain(t.bills, chain) == AdvanceOfChain(t.meters, chain)
  {
    if chain != [] {
      UnitsOfChainAdvance(t, chain[..|chain| - 1]);
      var m := chain[|chain| - 1];
      assert Abs(UnitsOf(t.bills, m) - Advance(t.meters[m])) <= Slack(true, Counted(t.bills, m));
    }
  }

  /** The devices that a run puts in the place of meter `start`, one after the other. */
  function ChainOf(t: Tables, ops: seq<Op>, start: nat): (chain: seq<nat>)
    ensures chain != [] && chain[0] == start
  {
    if ops == [] then [start]
    else
      var before, last := Run(t, ops[..|ops| - 1]), ops[|ops| - 1];
      var chain := ChainOf(t, ops[..|ops| - 1], start);
      if last.OpReplaceMeter? && last.meter == chain[|chain| - 1] && Step(before, last).Ok?
      then chain + [|before.meters|] else chain
  }

  /** Different devices, all on one shop. */
  ghost predicate OnShop(meters: seq<Meter>, chain: seq<nat>, shop: nat) {
    && (forall p | 0 <= p < |chain| :: chain[p] < |meters| && meters[chain[p]].shop == Some(shop))
    && (forall p, q | 0 <= p < q < |chain| :: chain[p] < chain[q])
  }

  /** No step takes a meter away or off its shop. */
  lemma StepKeepsShop(t: Tables, op: Op, m: nat)
    requires m < |t.meters| && t.meters[m].shop.Some?
    ensures m < |Apply(t, op).meters| && Apply(t, op).meters[m].shop == t.meters[m].shop
  {
    if op.OpCreatePayment? && Step(t, op).Ok? {
      PaymentRewrites(t, op.tenant, op.shop, op.amount, op.bill, op.deposit, op.entry);
    } else if op.OpReceive? && Step(t, op).Ok? {
      PaymentRewrites(t, op.tenant, op.shop, op.amount, None, None, op.entry);
    }
  }

  lemma StepKeepsShops(t: Tables, op: Op, chain: seq<nat>, shop: nat)
    requires OnShop(t.meters, chain, shop)
    ensures OnShop(Apply(t, op).meters, chain, shop)
  {
    forall p | 0 <= p < |chain| ensures chain[p] < |Apply(t, op).meters| && Apply(t, op).meters[chain[p]].shop == Some(shop) {
      StepKeepsShop(t, op, chain[p]);
    }
  }

  lemma ReplacementStaysOnShop(t: Tables, op: Op, chain: seq<nat>, shop: nat)
    requires OnShop(t.meters, chain, shop) && chain != [] && op.OpReplaceMeter? && op.meter == chain[|chain| - 1] && Step(t, op).Ok?
    ensures OnShop(Apply(t, op).meters, chain + [|t.meters|], shop)
  {
  }

  lemma {:induction false} ChainIsOnShop(t: Tables, ops: seq<Op>, start: nat, shop: nat)
    requires start < |t.meters| && t.meters[start].shop == Some(shop)
    ensures OnShop(Run(t, ops).meters, ChainOf(t, ops, start), shop)
  {
    if ops != [] {
      var init, last := ops[..|ops| - 1], ops[|ops| - 1];
      ChainIsOnShop(t, init, start, shop);
      var before, chain := Run(t, init), ChainOf(t, init, start);
      StepKeepsShops(before, last, chain, shop);
      if last.OpReplaceMeter? && last.meter == chain[|chain| - 1] && Step(before, last).Ok? {
        ReplacementStaysOnShop(before, last, chain, shop);
      }
    }
  }

  /** Over any run, the devices put one after the other in the place of a meter are different devices on
      its shop, and the units billed on all of them are the units they ran through: last reading less
      first reading, less what was passed over when a contract started on a meter that had run on. No
      unit is billed twice and none is lost. */
  lemma ChainConserves(t: Tables, ops: seq<Op>, start: nat, shop: nat) returns (after: Tables, chain: seq<nat>)
    requires Inv(t, true) && RegularRun(t, ops, true) && start < |t.meters| && t.meters[start].shop == Some(shop)
    ensures after == Run(t, ops) && chain == ChainOf(t, ops, start)
    ensures OnShop(after.meters, chain, shop)
    ensures UnitsOfChain(after.bills, chain) == AdvanceOfChain(after.meters, chain)
  {
    after, chain := Run(t, ops), ChainOf(t, ops, start);
    RunConserves(t, ops, true);
    ChainIsOnShop(t, ops, start, shop);
    UnitsOfChainAdvance(after, chain);
  }

  /** A device that was taken off is billed up to the reading it was taken off with. */
  lemma RetiredMetersAreFullyBilled(t: Tables, m: nat)
    requires Inv(t, true) && m < |t.meters| && t.meters[m].finalReading.Some? && t.meters[m].firstReading.Some?
    ensures UnitsOf(t.bills, m)
         == t.meters[m].finalReading.value - t.meters[m].firstReading.value - t.meters[m].unbilled
  {
    assert MeterOk(t.meters[m], true);
    assert Abs(UnitsOf(t.bills, m) - Advance(t.meters[m])) <= Slack(true, Counted(t.bills, m));
  }
}
