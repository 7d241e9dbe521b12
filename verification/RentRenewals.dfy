/** What a renewal without a rent of its own carries over: whatever the last period of the old contract
    bills by then. Over every run, that is the share by days of the contract's rent less the discount on
    the period. */
module RentRenewals {
  import opened Basics
  import opened Calendar
  import opened RentCharges
  import opened ChargeGeneration
  import opened RentTables
  import opened RentOps
  import opened RentRuns
  import opened RentConditions
  import RT = RentTheorems

  // ---- what a charge of a standing contract bills -------------------------------------------------

  /** The gross amount is the share of the rent by the days of the period, which is at most one month;
      what is billed is that less the discount. */
  ghost predicate AsIssued(rent: real, c: Charge) {
    && 0 < c.days <= MonthLength(MonthOf(c.periodStart))
    && c.gross == ByTheDay(rent, c)
    && Balanced(c)
  }

  /** So it is on every charge of a contract that stands for its whole term. */
  ghost predicate BilledByTheDay(c: Contract) {
    && c.rent >= 0.0
    && (Standing(c) ==> forall i | 0 <= i < |c.charges| :: AsIssued(c.rent, c.charges[i]))
  }

  ghost predicate AllBilledByTheDay(contracts: seq<Contract>) {
    forall k | 0 <= k < |contracts| :: BilledByTheDay(contracts[k])
  }

  /** Rows that bill the same days at the same gross amount, and stay balanced. */
  ghost predicate SameBilling(cs: seq<Charge>, ds: seq<Charge>) {
    && |ds| == |cs|
    && forall i | 0 <= i < |cs| ::
         && ds[i].periodStart == cs[i].periodStart && ds[i].days == cs[i].days && ds[i].gross == cs[i].gross
         && (Balanced(cs[i]) ==> Balanced(ds[i]))
  }

  lemma SameChargeAsIssued(rent: real, c: Charge, d: Charge)
    requires AsIssued(rent, c) && Balanced(d)
    requires d.periodStart == c.periodStart && d.days == c.days && d.gross == c.gross
    ensures AsIssued(rent, d)
  {
    assert ByTheDay(rent, d) == ByTheDay(rent, c);
  }

  lemma IssuedAsIssued(rent: real, c: Charge)
    requires BillsOnePeriod(c, rent)
    ensures AsIssued(rent, c)
  {
    assert c.dailyRate * c.days as real == ByTheDay(rent, c);
  }

  lemma SameBillingKeeps(c: Contract, d: Contract)
    requires BilledByTheDay(c) && d.rent == c.rent && (Standing(d) ==> Standing(c) && SameBilling(c.charges, d.charges))
    ensures BilledByTheDay(d)
  {
    if Standing(d) {
      forall i | 0 <= i < |d.charges| ensures AsIssued(d.rent, d.charges[i]) {
        SameChargeAsIssued(c.rent, c.charges[i], d.charges[i]);
      }
    }
  }

  lemma ReplacedBilling(contracts: seq<Contract>, id: nat, d: Contract)
    requires AllBilledByTheDay(contracts) && id < |contracts| && d.rent == contracts[id].rent
    requires Standing(d) ==> Standing(contracts[id]) && SameBilling(contracts[id].charges, d.charges)
    ensures AllBilledByTheDay(contracts[id := d])
  {
    SameBillingKeeps(contracts[id], d);
  }

  lemma FreshAsIssued(start: int, end: int, rent: real)
    requires start < end
    ensures forall i | 0 <= i < |Charges(start, end, rent)| :: AsIssued(rent, Charges(start, end, rent)[i])
  {
    var cs := Charges(start, end, rent);
    GeneratedChargesTile(start, end, rent);
    forall i | 0 <= i < |cs| ensures AsIssued(rent, cs[i]) { IssuedAsIssued(rent, cs[i]); }
  }

  lemma FreshBilling(contracts: seq<Contract>, c: Contract)
    requires AllBilledByTheDay(contracts) && c.rent >= 0.0
    requires c.startDate < c.endDate && c.charges == Charges(c.startDate, c.endDate, c.rent)
    ensures AllBilledByTheDay(contracts + [c])
  {
    FreshAsIssued(c.startDate, c.endDate, c.rent);
    assert BilledByTheDay(c);
  }

  lemma CreditsBillTheSame(cs: seq<Charge>, amount: real)
    requires AllCoherent(cs)
    ensures SameBilling(cs, Allocated(cs, amount)) && SameBilling(cs, Forgiven(cs, amount)) && SameBilling(cs, WrittenOff(cs))
  {
    forall i | 0 <= i < |cs|
      ensures Balanced(cs[i]) ==> Balanced(Allocated(cs, amount)[i]) && Balanced(Forgiven(cs, amount)[i])
      ensures Balanced(cs[i]) ==> Balanced(WrittenOff(cs)[i])
    {
      assert Coherent(cs[i]);
    }
  }

  lemma AdjustmentBillsTheSame(cs: seq<Charge>, newRent: real, effectiveFrom: int)
    requires forall c | c in cs && Adjustable(c, effectiveFrom) :: c.days != 0
    ensures SameBilling(cs, Adjusted(cs, newRent, effectiveFrom))
  {
  }

  lemma FlagsBillTheSame(cs: seq<Charge>, now: real)
    ensures SameBilling(cs, Flagged(cs, now))
  {
  }

  // ---- every step and every run -------------------------------------------------------------------

  lemma PaymentBilling(b: Book, id: nat, amount: real, fromDeposit: bool, entry: PaymentEntry, now: real)
    requires AllBilledByTheDay(b.contracts) && RecordPayment(b, id, amount, fromDeposit, entry, now).Ok?
    requires AllCoherent(b.contracts[id].charges)
    ensures AllBilledByTheDay(RecordPayment(b, id, amount, fromDeposit, entry, now).value.contracts)
  {
    CreditsBillTheSame(b.contracts[id].charges, amount);
    ReplacedBilling(b.contracts, id, PaidContracts(b.contracts, id, amount, fromDeposit)[id]);
  }

  lemma WriteOffBilling(b: Book, id: nat, now: real)
    requires AllBilledByTheDay(b.contracts) && id < |b.contracts| && AllCoherent(b.contracts[id].charges)
    ensures AllBilledByTheDay(WriteOffOpenCharges(b, id, now).contracts)
  {
    CreditsBillTheSame(b.contracts[id].charges, 0.0);
    ReplacedBilling(b.contracts, id, b.contracts[id].(charges := WrittenOff(b.contracts[id].charges)));
  }

  lemma SettlementBilling(b: Book, op: Op)
    requires Inv(b) && AllBilledByTheDay(b.contracts) && op.OpSettle? && Admissible(op) && Step(b, op).Ok?
    ensures AllBilledByTheDay(Step(b, op).value.contracts)
  {
    assert ContractOk(b.contracts[op.id]);
    if op.cash > 0.0 {
      var paid := RecordPayment(b, op.id, op.cash, false, op.entry, op.now).value;
      PaymentBilling(b, op.id, op.cash, false, op.entry, op.now);
      AllocatedKeeps(b.contracts[op.id].charges, op.cash);
      WriteOffBilling(paid, op.id, op.now);
    } else {
      WriteOffBilling(b, op.id, op.now);
    }
  }

  lemma DrawnBilling(b: Book, op: Op) returns (drawn: Book)
    requires AllBilledByTheDay(b.contracts) && op.OpCreate? && Admissible(op) && Step(b, op).Ok?
    ensures AllBilledByTheDay(drawn.contracts) && |drawn.contracts| == |b.contracts| + 1
    ensures AllCoherent(drawn.contracts[|b.contracts|].charges)
    ensures Step(b, op) == if op.openingPaid.None? then Ok(drawn)
                           else RecordPayment(drawn, |b.contracts|, op.openingPaid.value, false,
                                              PaymentEntry(false, op.rateKnown), op.now)
  {
    var c := Contract(op.tenant, op.shop, op.currency, op.start, op.end, op.rent,
                      if op.start as real <= op.now then Active else Draft, op.deposit, None, Charges(op.start, op.end, op.rent));
    FreshBilling(b.contracts, c);
    GeneratedChargesCoherent(op.start, op.end, op.rent);
    drawn := Drawn(b, c, op.now);
  }

  lemma CreationBilling(b: Book, op: Op)
    requires AllBilledByTheDay(b.contracts) && op.OpCreate? && Admissible(op) && Step(b, op).Ok?
    ensures AllBilledByTheDay(Step(b, op).value.contracts)
  {
    var drawn := DrawnBilling(b, op);
    if op.openingPaid.Some? {
      PaymentBilling(drawn, |b.contracts|, op.openingPaid.value, false, PaymentEntry(false, op.rateKnown), op.now);
    }
  }

  lemma RenewalBilling(b: Book, op: Op)
    requires Inv(b) && AllBilledByTheDay(b.contracts) && op.OpRenew? && Admissible(op) && Step(b, op).Ok?
    ensures AllBilledByTheDay(Step(b, op).value.contracts)
  {
    var closed, next := RenewalAppends(b, op.id, op.newEnd, op.rentAsked, op.newShop, op.now);
    ReplacedBilling(b.contracts, op.id, closed);
    var renewed := Step(b, op).value.contracts[|b.contracts|];
    FreshBilling(b.contracts[op.id := closed], renewed);
  }

  lemma FlagsBilling(b: Book, now: real)
    requires AllBilledByTheDay(b.contracts)
    ensures AllBilledByTheDay(FlagOverdueCharges(b, now).contracts)
    ensures AllBilledByTheDay(FlagExpiredContracts(b, now).contracts)
    ensures AllBilledByTheDay(ActivateStartedContracts(b, now).contracts)
  {
    forall k | 0 <= k < |b.contracts|
      ensures BilledByTheDay(FlagOverdueCharges(b, now).contracts[k])
      ensures BilledByTheDay(FlagExpiredContracts(b, now).contracts[k])
      ensures BilledByTheDay(ActivateStartedContracts(b, now).contracts[k])
    {
      assert BilledByTheDay(b.contracts[k]);
      FlagsBillTheSame(b.contracts[k].charges, now);
      SameBillingKeeps(b.contracts[k], FlagOverdueCharges(b, now).contracts[k]);
    }
  }

  lemma AdjustmentBilling(b: Book, op: Op)
    requires AllBilledByTheDay(b.contracts) && op.OpAdjust? && Step(b, op).Ok?
    ensures AllBilledByTheDay(Step(b, op).value.contracts)
  {
    var debts := AdjustmentIs(b, op.id, op.newRent, op.effectiveFrom, op.now);
    var c := b.contracts[op.id];
    AdjustmentBillsTheSame(c.charges, op.newRent, op.effectiveFrom);
    ReplacedBilling(b.contracts, op.id, c.(charges := Adjusted(c.charges, op.newRent, op.effectiveFrom)));
  }

  lemma DiscountBilling(b: Book, op: Op)
    requires AllBilledByTheDay(b.contracts) && op.OpDiscount? && Step(b, op).Ok? && AllCoherent(b.contracts[op.id].charges)
    ensures AllBilledByTheDay(Step(b, op).value.contracts)
  {
    var c := b.contracts[op.id];
    CreditsBillTheSame(c.charges, op.amount);
    ReplacedBilling(b.contracts, op.id, c.(charges := Forgiven(c.charges, op.amount)));
  }

  /** A termination and a cancellation take the contract out of those that stand. */
  lemma ClosingBilling(b: Book, op: Op)
    requires AllBilledByTheDay(b.contracts) && (op.OpTerminate? || op.OpCancel?) && Step(b, op).Ok?
    ensures AllBilledByTheDay(Step(b, op).value.contracts)
  {
    ReplacedBilling(b.contracts, op.id, Step(b, op).value.contracts[op.id]);
  }

  lemma StepKeepsBilling(b: Book, op: Op)
    requires Inv(b) && AllBilledByTheDay(b.contracts) && Admissible(op) && Step(b, op).Ok?
    ensures AllBilledByTheDay(Step(b, op).value.contracts)
  {
    match op {
      case OpCreate(_, _, _, _, _, _, _, _, _, _) => CreationBilling(b, op);
      case OpPay(id, amount, fromDeposit, entry, now) =>
        assert ContractOk(b.contracts[id]);
        PaymentBilling(b, id, amount, fromDeposit, entry, now);
      case OpSettle(_, _, _, _) => SettlementBilling(b, op);
      case OpRenew(_, _, _, _, _) => RenewalBilling(b, op);
      case OpFlagOverdue(now) => FlagsBilling(b, now);
      case OpFlagExpired(now) => FlagsBilling(b, now);
      case OpActivateStarted(now) => FlagsBilling(b, now);
      case OpRebuild(_, _) =>
      case OpDiscount(id, _, _) => assert ContractOk(b.contracts[id]); DiscountBilling(b, op);
      case OpAdjust(_, _, _, _) => AdjustmentBilling(b, op);
      case OpTerminate(_, _, _, _) => ClosingBilling(b, op);
      case OpCancel(_) => ClosingBilling(b, op);
    }
  }

  /** Over every serial run, whatever is paid, flagged, discounted, repriced, renewed or terminated, every
      charge of a contract that still stands has as its gross amount the share by days of the contract's
      rent, and bills that less its discount. */
  lemma {:induction false} RunBillsByTheDay(b: Book, ops: seq<Op>)
    requires Inv(b) && AllBilledByTheDay(b.contracts) && AllAdmissible(ops)
    ensures Inv(Run(b, ops)) && AllBilledByTheDay(Run(b, ops).contracts)
  {
    if ops != [] {
      var init, last := ops[..|ops| - 1], ops[|ops| - 1];
      assert forall op | op in init :: op in ops;
      RunBillsByTheDay(b, init);
      assert last in ops;
      if Step(Run(b, init), last).Ok? {
        StepKeeps(Run(b, init), last);
        StepKeepsBilling(Run(b, init), last);
      }
    }
  }

  // ---- the renewal --------------------------------------------------------------------------------

  /** What a renewal bills that asks for no rent of its own, against the rent of the old contract. */
  ghost predicate CarriesOver(c: Contract, last: Charge, billed: real) {
    && billed == ByTheDay(c.rent, last) - last.discount
    && (billed == c.rent <==> last.discount == ByTheDay(c.rent, last) - c.rent)
    && (last.discount == 0.0 ==> (billed == c.rent <==> last.days == MonthLength(MonthOf(last.periodStart)) || c.rent == 0.0))
    && (last.discount >= 0.0 ==> billed <= c.rent)
  }

  lemma ShareIsLess(rent: real, full: int, days: int)
    requires full > 0 && days <= full && rent >= 0.0
    ensures rent / full as real * days as real <= rent
  {
    var q := rent / full as real;
    assert q * full as real == rent;
    assert q * (full - days) as real >= 0.0;
  }

  lemma ShareOfPeriod(rent: real, c: Charge)
    requires rent >= 0.0 && c.days <= MonthLength(MonthOf(c.periodStart))
    ensures ByTheDay(rent, c) <= rent
    ensures ByTheDay(rent, c) == rent <==> c.days == MonthLength(MonthOf(c.periodStart)) || rent == 0.0
  {
    ShareIsWholeRent(rent, c);
    ShareIsLess(rent, MonthLength(MonthOf(c.periodStart)), c.days);
  }

  lemma LastChargeCarriesOver(c: Contract, last: Charge)
    requires c.rent >= 0.0 && AsIssued(c.rent, last)
    ensures CarriesOver(c, last, last.net)
  {
    ShareOfPeriod(c.rent, last);
  }

  /** A renewal without a rent of its own, at the end of any run, bills the share by days of the last period
      of the old contract less its discount. That is the old rent if and only if the discount makes up the
      difference; without a discount, if and only if the last period is a full month or the old rent is
      zero; and with a discount that takes something off, never more. */
  lemma RenewalBillsTheLastPeriod(ops: seq<Op>, op: Op) returns (last: Charge, next: Contract)
    requires AllAdmissible(ops) && op.OpRenew? && op.rentAsked.None? && Step(Run(EMPTY, ops), op).Ok?
    ensures var b, b' := Run(EMPTY, ops), Step(Run(EMPTY, ops), op).value;
            && op.id < |b.contracts| && |b'.contracts| == |b.contracts| + 1 && next == b'.contracts[|b.contracts|]
            && b.contracts[op.id].charges != [] && last == b.contracts[op.id].charges[|b.contracts[op.id].charges| - 1]
            && next.charges == Charges(next.startDate, next.endDate, next.rent)
            && CarriesOver(b.contracts[op.id], last, next.rent)
  {
    RunBillsByTheDay(EMPTY, ops);
    var b := Run(EMPTY, ops);
    var closed, successor := RenewalAppends(b, op.id, op.newEnd, op.rentAsked, op.newShop, op.now);
    var c := b.contracts[op.id];
    last := c.charges[|c.charges| - 1];
    next := Step(b, op).value.contracts[|b.contracts|];
    assert BilledByTheDay(c) && AsIssued(c.rent, last);
    LastChargeCarriesOver(c, last);
  }

  // ---- ten days ------------------------------------------------------------------------------------

  const RenewTenDays := OpRenew(0, 41, None, None, 10.0)

  lemma TenDaysRenew(b: Book, op: Op) returns (first: Contract, next: Contract)
    requires b.contracts == [Contract(0, 0, 0, 0, 10, 31.0, Active, 0.0, None, [Issue(0, 10, 1.0)])]
    requires op.OpRenew? && op.id == 0 && op.rentAsked.None? && op.newShop.None? && op.newEnd > 10 && op.now >= 10.0
    ensures Apply(b, op).contracts == [first, next] && first.rent == 31.0
    ensures next.rent == 10.0 && next.charges == Charges(10, op.newEnd, 10.0) && next.renewedFrom == Some(0)
  {
    assert RenewalRefusal(b, 0, op.newEnd, None, op.now).None?;
    assert RenewalRent(b.contracts[0], None) == 10.0;
    first, next := Apply(b, op).contracts[0], Apply(b, op).contracts[1];
  }

  lemma TenDaysRenewed(op: Op) returns (first: Contract, next: Contract)
    requires op.OpRenew? && op.id == 0 && op.rentAsked.None? && op.newShop.None? && op.newEnd > 10 && op.now >= 10.0
    ensures Apply(Apply(EMPTY, LetTenDays), op).contracts == [first, next] && first.rent == 31.0
    ensures next.rent == 10.0 && next.charges == Charges(10, op.newEnd, 10.0) && next.renewedFrom == Some(0)
  {
    var b := TenDaysLet();
    first, next := TenDaysRenew(b, op);
  }

  lemma MonthFromDayTen()
    ensures Charges(10, 41, 10.0) == [Issue(10, 41, 10.0 / 31.0)]
  {
    assert MonthStart(1) == 31;
    MonthIsUnique(10, 0);
    assert AddOneMonth(10) == 41;
    UnfoldCharges(10, 41, 10.0);
    assert PeriodCharge(10, 41, 10.0) == Issue(10, 41, 10.0 / 31.0);
    assert Charges(41, 41, 10.0) == [];
  }

  /** A concrete run: ten days are let at 31 a month and renewed for the month after; the renewal is let at
      10 a month, and bills 10 for that whole month. */
  lemma TenDaysRenewAtATen() returns (first: Contract, next: Contract)
    ensures Admissible(LetTenDays) && Admissible(RenewTenDays)
    ensures Run(EMPTY, [LetTenDays, RenewTenDays]).contracts == [first, next]
    ensures first.rent == 31.0 && next.rent == 10.0 && next.renewedFrom == Some(0)
    ensures |next.charges| == 1 && next.charges[0].days == 31 && next.charges[0].net == 10.0
  {
    first, next := TenDaysRenewed(RenewTenDays);
    MonthFromDayTen();
    RT.RunOfThree(LetTenDays, RenewTenDays, RenewTenDays);
  }
}
