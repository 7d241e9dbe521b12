/** When a settlement goes through and what it may forgive, said of the rows of the tables; that a contract
    is settled once in every run; and that security deposits are conserved over every run. */
module SettlementTheorems {
  import opened Basics
  import opened RentCharges
  import opened ChargeGeneration
  import opened RentTables
  import opened Settlement
  import D = RentDebts
  import RO = RentOps
  import RR = RentRuns
  import RT = RentTheorems
  import E = Electricity
  import ER = ElectricityRuns
  import L = Ledger
  import Fifo
  import SR = SettlementRuns
  import X = Rates

  // ---- the debts a settlement finds -----------------------------------------------------------------

  /** The row is open and its period has started. */
  predicate ChargeIsDue(c: Charge, now: real) {
    (c.status == PENDING || c.status == PARTIAL || c.status == OVERDUE) && c.periodStart as real <= now
  }

  function DueAmounts(cs: seq<Charge>, now: real): seq<real> {
    seq(|cs|, i requires 0 <= i < |cs| => if ChargeIsDue(cs[i], now) then cs[i].remaining else 0.0)
  }

  predicate BillIsOpen(b: E.Bill, tenant: nat, shop: nat) {
    (b.status == E.PENDING || b.status == E.PARTIAL || b.status == E.OVERDUE) && b.tenant == tenant && b.shop == shop
  }

  function BillAmounts(bills: seq<E.Bill>, tenant: nat, shop: nat): seq<real> {
    seq(|bills|, i requires 0 <= i < |bills| => if BillIsOpen(bills[i], tenant, shop) then bills[i].remaining else 0.0)
  }

  /** What is due on a contract: its started open charges and the open bills of its tenant and shop. */
  function TotalDue(c: Contract, bills: seq<E.Bill>, now: real): real {
    Sum(DueAmounts(c.charges, now)) + Sum(BillAmounts(bills, c.tenant, c.shop))
  }

  lemma {:induction false} ContractDueIsSum(cs: seq<Charge>, now: real, k: nat)
    requires k <= |cs|
    ensures D.ContractDue(cs[..k], now) == Prefix(DueAmounts(cs, now), k)
  {
    if k > 0 {
      ContractDueIsSum(cs, now, k - 1);
      assert cs[..k][..k - 1] == cs[..k - 1];
    }
  }

  lemma {:induction false} ShopDebtIsSumOfOpen(bills: seq<E.Bill>, tenant: nat, shop: nat, k: nat)
    requires k <= |bills|
    ensures E.ShopDebtUpTo(bills, tenant, shop, k) == Prefix(BillAmounts(bills, tenant, shop), k)
  {
    if k > 0 {
      ShopDebtIsSumOfOpen(bills, tenant, shop, k - 1);
    }
  }

  lemma DebtsAreSums(o: Office, id: nat, now: real)
    requires id < |o.rent.contracts|
    ensures var c := o.rent.contracts[id];
            && RentDue(o, id, now) == Sum(DueAmounts(c.charges, now))
            && ElectricityDue(o, id) == Sum(BillAmounts(o.electricity.bills, c.tenant, c.shop))
  {
    var c := o.rent.contracts[id];
    assert c.charges[..|c.charges|] == c.charges;
    ContractDueIsSum(c.charges, now, |c.charges|);
    ShopDebtIsSumOfOpen(o.electricity.bills, c.tenant, c.shop, |o.electricity.bills|);
  }

  // ---- when a settlement goes through ---------------------------------------------------------------

  /** The cash fits the way of settling: CASH covers what is due exactly, MIXED at most, and the other two
      bring none. */
  predicate CashFits(how: Method, cash: real, due: real) {
    match how
    case CASH => 0.0 < cash == due
    case MIXED => 0.0 <= cash <= due
    case WRITE_OFF => cash == 0.0
    case COLLATERAL => cash == 0.0
  }

  lemma RefusedOrNot(o: Office, id: nat, how: Method, cash: real, account: Option<nat>, now: real)
    requires cash >= 0.0 && (id < |o.rent.contracts| ==> RentDue(o, id, now) >= 0.0 && ElectricityDue(o, id) >= 0.0)
    ensures Refusal(o, id, how, cash, account, now).None?
            <==> id < |o.rent.contracts| && id !in o.settlements
                 && CashFits(how, cash, RentDue(o, id, now) + ElectricityDue(o, id))
                 && (cash > 0.0 ==> account.Some? && account.value in o.money.accounts)
  {
  }

  /** A settlement goes through exactly when the contract is there and was not settled before, the cash fits
      the way of settling and what is due, and if there is any it goes into an account that is there, on a
      day that has come, in a currency with a rate. */
  lemma SettlesExactlyWhen(o: Office, id: nat, how: Method, cash: real, account: Option<nat>, entry: PaymentEntry, now: real)
    requires Inv(o) && cash >= 0.0
    ensures Settle(o, id, how, cash, account, entry, now).Ok?
            <==> && id < |o.rent.contracts|
                 && id !in o.settlements
                 && CashFits(how, cash, TotalDue(o.rent.contracts[id], o.electricity.bills, now))
                 && (cash > 0.0 ==> account.Some? && account.value in o.money.accounts && !entry.inFuture && entry.rateKnown)
  {
    if id < |o.rent.contracts| {
      DueIsOpen(o, id, now);
      DebtsAreSums(o, id, now);
    }
    RefusedOrNot(o, id, how, cash, account, now);
    SettlementGoesThrough(o, id, how, cash, account, entry, now);
  }

  /** The same, with the entry of the cash looked up: its day has come in Kabul, and its currency is the
      base currency or has a rate on record. */
  lemma SettlementNeedsARate(o: Office, id: nat, how: Method, cash: real, account: Option<nat>, now: real,
                             rates: seq<X.RateRow>, isBase: bool, baseIsSet: bool, date: real)
    requires Inv(o) && cash >= 0.0
    ensures Settle(o, id, how, cash, account, X.EntryOf(rates, isBase, baseIsSet, date, now), now).Ok?
            <==> && id < |o.rent.contracts|
                 && id !in o.settlements
                 && CashFits(how, cash, TotalDue(o.rent.contracts[id], o.electricity.bills, now))
                 && (cash > 0.0 ==>
                       && account.Some? && account.value in o.money.accounts
                       && X.KabulDay(date) <= X.KabulDay(now) && baseIsSet && (isBase || rates != []))
  {
    SettlesExactlyWhen(o, id, how, cash, account, X.EntryOf(rates, isBase, baseIsSet, date, now), now);
    X.RateLookup(rates, isBase, baseIsSet, date, cash);
  }

  // ---- cash that covers what is due -----------------------------------------------------------------

  /** Everything that is due lies before anything that is not, so the debt that is due covers it. */
  lemma DueCoversEach(cs: seq<Charge>, now: real, i: nat)
    requires RR.Ordered(cs) && AllCoherent(cs) && i < |cs| && ChargeIsDue(cs[i], now)
    ensures Prefix(RO.OpenAmounts(cs), i + 1) <= Sum(DueAmounts(cs, now))
  {
    var open, due := RO.OpenAmounts(cs), DueAmounts(cs, now);
    forall j | 0 <= j < |cs| ensures due[j] >= 0.0 && (j <= i ==> open[j] == due[j]) {
      assert Coherent(cs[j]);
      if j < i { assert cs[j].periodStart < cs[i].periodStart; }
    }
    PrefixAgrees(open, due, i + 1);
    PrefixMonotone(due, i + 1, |due|);
  }

  /** A charge that was paid in full and forgiven nothing. */
  predicate PaidInFull(before: Charge, after: Charge) {
    after.paid == after.net == before.net && after.discount == before.discount
  }

  lemma DueIsPaidInFull(cs: seq<Charge>, now: real, i: nat)
    requires RR.Ordered(cs) && AllCoherent(cs) && i < |cs| && ChargeIsDue(cs[i], now)
    ensures PaidInFull(cs[i], RO.WrittenOff(PaidUp(cs, Sum(DueAmounts(cs, now))))[i])
  {
    var open, amount := RO.OpenAmounts(cs), Sum(DueAmounts(cs, now));
    assert Coherent(cs[i]);
    DueCoversEach(cs, now, i);
    RR.OpenAmountsNonNegative(cs);
    PrefixMonotone(open, 0, i);
    assert Prefix(open, i + 1) == Prefix(open, i) + open[i];
  }

  lemma {:induction false} NothingInAll(rs: seq<real>, i: nat, k: nat)
    requires NonNegative(rs) && i < k <= |rs| && Prefix(rs, k) == 0.0
    ensures rs[i] == 0.0
  {
    PrefixMonotone(rs, i, i + 1);
    PrefixMonotone(rs, i + 1, k);
    PrefixMonotone(rs, 0, i);
  }

  lemma BillsArePaidInFull(t: E.Tables, tenant: nat, shop: nat, i: nat)
    requires ER.BillsOk(t) && i < |t.bills|
    ensures var after := E.WrittenOff(BillsPaidUp(t.bills, tenant, shop, E.ShopDebt(t.bills, tenant, shop)), tenant, shop);
            && after[i].total == t.bills[i].total
            && (BillIsOpen(t.bills[i], tenant, shop) ==> after[i].paid == t.bills[i].total)
  {
    var debt, owed := E.ShopDebt(t.bills, tenant, shop), OwedOn(t.bills, tenant, shop);
    forall j | 0 <= j < |owed| ensures owed[j] >= 0.0 { assert ER.BillOk(t.bills[j]); }
    ShopDebtIsSum(t.bills, tenant, shop, |t.bills|);
    PrefixMonotone(owed, 0, |owed|);
    var paid := BillsPaidUp(t.bills, tenant, shop, debt);
    var moved := BillsReceive(t, tenant, shop, debt);
    NothingIsLeft(t, tenant, shop, paid, moved);
    assert ER.BillOk(t.bills[i]) && OwedOn(paid, tenant, shop)[i] == 0.0;
  }

  lemma NothingIsLeft(t: E.Tables, tenant: nat, shop: nat, paid: seq<E.Bill>, moved: seq<real>)
    requires ER.BillsOk(t) && |paid| == |moved| == |t.bills| && Sum(moved) == E.ShopDebt(t.bills, tenant, shop)
    requires forall i | 0 <= i < |paid| :: E.OwedBy(t.bills[i], tenant, shop) == E.OwedBy(paid[i], tenant, shop) + moved[i]
    requires forall i | 0 <= i < |paid| :: E.OwedBy(paid[i], tenant, shop) >= 0.0
    ensures forall i | 0 <= i < |paid| :: E.OwedBy(paid[i], tenant, shop) == 0.0
  {
    var left := OwedOn(paid, tenant, shop);
    ShopDebtIsSum(t.bills, tenant, shop, |t.bills|);
    SumsAdd(OwedOn(t.bills, tenant, shop), left, moved, |moved|);
    forall i | 0 <= i < |paid| ensures E.OwedBy(paid[i], tenant, shop) == 0.0 {
      NothingInAll(left, i, |left|);
    }
  }

  lemma PaymentsLeaveRecords(o: Office, id: nat, rent: real, electricity: real, account: nat, entry: PaymentEntry, now: real)
    requires id < |o.rent.contracts| && PayBoth(o, id, rent, electricity, account, entry, now).Ok?
    ensures PayBoth(o, id, rent, electricity, account, entry, now).value.settlements == o.settlements
  {
  }

  lemma PaidIsRecorded(o: Office, id: nat, cash: real, row: SettlementRow, into: nat, entry: PaymentEntry, now: real)
    requires id < |o.rent.contracts| && SettleFor(o, id, cash, row, into, entry, now).Ok?
    ensures SettleFor(o, id, cash, row, into, entry, now).value.settlements == o.settlements[id := row]
  {
    PaymentsLeaveRecords(o, id, CashForRent(cash, row), CashLeft(cash, row), into, entry, now);
  }

  lemma FoundIsRecorded(o: Office, id: nat, how: Method, cash: real, account: Option<nat>, entry: PaymentEntry, now: real)
    requires Settle(o, id, how, cash, account, entry, now).Ok?
    ensures id < |o.rent.contracts|
    ensures Settle(o, id, how, cash, account, entry, now).value.settlements
         == o.settlements[id := Found(RentDue(o, id, now), ElectricityDue(o, id), how)]
  {
    var row := Found(RentDue(o, id, now), ElectricityDue(o, id), how);
    PaidIsRecorded(o, id, cash, row, if account.Some? then account.value else 0, entry, now);
  }

  /** What goes through records the two debts it found, and touches the record of no other contract. */
  lemma SettlementIsRecorded(o: Office, id: nat, how: Method, cash: real, account: Option<nat>, entry: PaymentEntry, now: real)
    requires Settle(o, id, how, cash, account, entry, now).Ok?
    ensures var c, after := o.rent.contracts[id], Settle(o, id, how, cash, account, entry, now).value;
            var rent := Sum(DueAmounts(c.charges, now));
            var electricity := Sum(BillAmounts(o.electricity.bills, c.tenant, c.shop));
            after.settlements == o.settlements[id := SettlementRow(rent, electricity, rent + electricity, how)]
  {
    FoundIsRecorded(o, id, how, cash, account, entry, now);
    DebtsAreSums(o, id, now);
  }

  /** The rows of the contract and of its shop after cash that covered what was due. */
  ghost predicate DueIsPaid(o: Office, after: Office, id: nat, now: real)
    requires id < |o.rent.contracts| == |after.rent.contracts|
  {
    var c, d := o.rent.contracts[id], after.rent.contracts[id];
    var bills, paid := o.electricity.bills, after.electricity.bills;
    && |d.charges| == |c.charges| && |paid| == |bills|
    && (forall i | 0 <= i < |c.charges| && ChargeIsDue(c.charges[i], now) :: PaidInFull(c.charges[i], d.charges[i]))
    && (forall i | 0 <= i < |bills| && BillIsOpen(bills[i], c.tenant, c.shop) :: paid[i].paid == paid[i].total == bills[i].total)
  }

  lemma ClosedIsPaid(o: Office, after: Office, id: nat, into: nat, forRent: real, left: real, cash: real, now: real)
    requires Inv(o) && id < |o.rent.contracts| && Closed(o, after, id, forRent, left, cash, into)
    requires forRent == RentDue(o, id, now) && left == ElectricityDue(o, id)
    ensures |after.rent.contracts| == |o.rent.contracts| && DueIsPaid(o, after, id, now)
  {
    var c := o.rent.contracts[id];
    assert RR.ContractOk(c);
    DebtsAreSums(o, id, now);
    forall i | 0 <= i < |c.charges| && ChargeIsDue(c.charges[i], now)
      ensures PaidInFull(c.charges[i], after.rent.contracts[id].charges[i])
    {
      DueIsPaidInFull(c.charges, now, i);
    }
    forall i | 0 <= i < |o.electricity.bills| && BillIsOpen(o.electricity.bills[i], c.tenant, c.shop)
      ensures after.electricity.bills[i].paid == after.electricity.bills[i].total == o.electricity.bills[i].total
    {
      BillsArePaidInFull(o.electricity, c.tenant, c.shop, i);
    }
  }

  /** A settlement in CASH brings exactly what is due, pays it in full, and forgives nothing of it. */
  lemma CashForgivesNothingDue(o: Office, id: nat, cash: real, account: Option<nat>, entry: PaymentEntry, now: real)
    returns (after: Office)
    requires Inv(o) && cash >= 0.0 && Settle(o, id, CASH, cash, account, entry, now).Ok?
    ensures Settle(o, id, CASH, cash, account, entry, now) == Ok(after)
    ensures id < |o.rent.contracts| == |after.rent.contracts|
    ensures cash == TotalDue(o.rent.contracts[id], o.electricity.bills, now) && DueIsPaid(o, after, id, now)
  {
    SettlesExactlyWhen(o, id, CASH, cash, account, entry, now);
    DebtsAreSums(o, id, now);
    DueIsOpen(o, id, now);
    var into, row := SettleIsFor(o, id, CASH, cash, account, entry, now);
    after := SettleFor(o, id, cash, row, into, entry, now).value;
    SettleForCloses(o, after, id, cash, row, into, entry, now);
    ClosedIsPaid(o, after, id, into, CashForRent(cash, row), CashLeft(cash, row), cash, now);
  }

  // ---- once for each contract -----------------------------------------------------------------------

  lemma DebtPaymentLeavesRecords(o: Office, op: SR.Op)
    requires op.OpPayDebt? && SR.StepOffice(o, op).Ok?
    ensures SR.StepOffice(o, op).value.settlements == o.settlements
  {
    PaymentsLeaveRecords(o, op.id, op.rentAmount, op.electricityAmount, op.account, op.entry, op.now);
  }

  lemma OthersLeaveRecords(o: Office, op: SR.Op)
    requires !op.OpSettle? && SR.StepOffice(o, op).Ok?
    ensures SR.StepOffice(o, op).value.settlements == o.settlements
  {
    if op.OpPayDebt? { DebtPaymentLeavesRecords(o, op); }
  }

  lemma SettlingLeavesOthers(o: Office, op: SR.Op)
    requires op.OpSettle? && SR.StepOffice(o, op).Ok?
    ensures op.id !in o.settlements && op.id in SR.StepOffice(o, op).value.settlements
    ensures forall id | id in o.settlements ::
              id in SR.StepOffice(o, op).value.settlements && SR.StepOffice(o, op).value.settlements[id] == o.settlements[id]
  {
    FoundIsRecorded(o, op.id, op.how, op.cash, op.into, op.entry, op.now);
  }

  lemma StepKeepsRecords(d: SR.Desk, op: SR.Op, id: nat)
    requires id in d.office.settlements
    ensures id in SR.Apply(d, op).office.settlements && SR.Apply(d, op).office.settlements[id] == d.office.settlements[id]
  {
    if SR.StepOffice(d.office, op).Ok? {
      if op.OpSettle? { SettlingLeavesOthers(d.office, op); } else { OthersLeaveRecords(d.office, op); }
    }
  }

  lemma {:induction false} RunKeepsRecords(d: SR.Desk, ops: seq<SR.Op>, id: nat)
    requires id in d.office.settlements
    ensures id in SR.Run(d, ops).office.settlements && SR.Run(d, ops).office.settlements[id] == d.office.settlements[id]
  {
    if ops != [] {
      RunKeepsRecords(d, ops[..|ops| - 1], id);
      StepKeepsRecords(SR.Run(d, ops[..|ops| - 1]), ops[|ops| - 1], id);
    }
  }

  /** Once a contract has been settled, no run of any operations, payments and renewals included, leads to a
      state in which it can be settled again, and its record stays as it is. */
  lemma SettledOnce(d: SR.Desk, settle: SR.Op, ops: seq<SR.Op>, again: SR.Op) returns (settled: SR.Desk, later: SR.Desk)
    requires settle.OpSettle? && SR.Step(d, settle).Ok? && again.OpSettle? && again.id == settle.id
    ensures SR.Step(d, settle) == Ok(settled) && later == SR.Run(settled, ops)
    ensures settle.id in settled.office.settlements && settle.id in later.office.settlements
    ensures later.office.settlements[settle.id] == settled.office.settlements[settle.id]
    ensures SR.Step(later, again).Err?
  {
    settled := SR.Step(d, settle).value;
    SettlingLeavesOthers(d.office, settle);
    RunKeepsRecords(settled, ops, settle.id);
    later := SR.Run(settled, ops);
    if SR.StepOffice(later.office, again).Ok? { SettlingLeavesOthers(later.office, again); }
  }

  // ---- deposits -------------------------------------------------------------------------------------

  /** What is left of the security deposits of all contracts. */
  function DepositsLeft(contracts: seq<Contract>): real {
    if contracts == [] then 0.0
    else DepositsLeft(contracts[..|contracts| - 1]) + contracts[|contracts| - 1].depositRemaining
  }

  /** What the payments of one kind have taken out of deposits. */
  function TakenFromDeposits(amounts: seq<real>, fundings: seq<SR.Funding>): real
    requires |amounts| == |fundings|
  {
    if amounts == [] then 0.0
    else
      var n := |amounts| - 1;
      TakenFromDeposits(amounts[..n], fundings[..n]) + (if fundings[n].Deposit? then amounts[n] else 0.0)
  }

  /** What contracts brought in as deposits when they were created in a run. */
  function BroughtBy(d: SR.Desk, op: SR.Op): real {
    if op.OpRent? && op.rent.OpCreate? && SR.Step(d, op).Ok? then op.rent.deposit else 0.0
  }

  function BroughtIn(d: SR.Desk, ops: seq<SR.Op>): real {
    if ops == [] then 0.0
    else
      var init := ops[..|ops| - 1];
      BroughtIn(d, init) + BroughtBy(SR.Run(d, init), ops[|ops| - 1])
  }

  lemma {:induction false} DepositsOfChange(contracts: seq<Contract>, id: nat, c: Contract)
    requires id < |contracts|
    ensures DepositsLeft(contracts[id := c]) == DepositsLeft(contracts) - contracts[id].depositRemaining + c.depositRemaining
  {
    var n := |contracts| - 1;
    if id == n {
      assert contracts[id := c][..n] == contracts[..n];
    } else {
      DepositsOfChange(contracts[..n], id, c);
      assert contracts[id := c][..n] == contracts[..n][id := c];
    }
  }

  lemma DepositsOfOneMore(contracts: seq<Contract>, c: Contract)
    ensures DepositsLeft(contracts + [c]) == DepositsLeft(contracts) + c.depositRemaining
  {
    assert (contracts + [c])[..|contracts|] == contracts;
  }

  lemma {:induction false} SameDeposits(a: seq<Contract>, b: seq<Contract>)
    requires |a| == |b| && forall k | 0 <= k < |a| :: a[k].depositRemaining == b[k].depositRemaining
    ensures DepositsLeft(a) == DepositsLeft(b)
  {
    if a != [] {
      SameDeposits(a[..|a| - 1], b[..|b| - 1]);
    }
  }

  /** What the rent tables' part of a step does to deposits. */
  lemma RentPaymentTakes(b: Book, id: nat, amount: real, fromDeposit: bool, entry: PaymentEntry, now: real)
    requires RO.RecordPayment(b, id, amount, fromDeposit, entry, now).Ok?
    ensures DepositsLeft(RO.RecordPayment(b, id, amount, fromDeposit, entry, now).value.contracts)
         == DepositsLeft(b.contracts) - (if fromDeposit then amount else 0.0)
  {
    DepositsOfChange(b.contracts, id, RO.PaidContracts(b.contracts, id, amount, fromDeposit)[id]);
  }

  lemma WriteOffTakes(b: Book, id: nat, now: real)
    requires id < |b.contracts|
    ensures DepositsLeft(RO.WriteOffOpenCharges(b, id, now).contracts) == DepositsLeft(b.contracts)
  {
    DepositsOfChange(b.contracts, id, RO.WriteOffOpenCharges(b, id, now).contracts[id]);
  }

  lemma CreationBrings(b: Book, op: RR.Op)
    requires op.OpCreate? && RR.Step(b, op).Ok?
    ensures DepositsLeft(RR.Step(b, op).value.contracts) == DepositsLeft(b.contracts) + op.deposit
  {
    var status := if op.start as real <= op.now then Active else Draft;
    var c := Contract(op.tenant, op.shop, op.currency, op.start, op.end, op.rent, status, op.deposit, None,
                      Charges(op.start, op.end, op.rent));
    DepositsOfOneMore(b.contracts, c);
    if op.openingPaid.Some? {
      RentPaymentTakes(RO.Drawn(b, c, op.now), |b.contracts|, op.openingPaid.value, false, PaymentEntry(false, op.rateKnown), op.now);
    }
  }

  lemma RenewalCarries(b: Book, op: RR.Op)
    requires op.OpRenew? && RR.Step(b, op).Ok?
    ensures DepositsLeft(RR.Step(b, op).value.contracts) == DepositsLeft(b.contracts)
  {
    var after := RR.Step(b, op).value.contracts;
    var n := |b.contracts|;
    assert after == b.contracts[op.id := after[op.id]] + [after[n]];
    DepositsOfChange(b.contracts, op.id, after[op.id]);
    DepositsOfOneMore(b.contracts[op.id := after[op.id]], after[n]);
  }

  lemma RentOpTakes(b: Book, op: RR.Op)
    requires RR.Step(b, op).Ok? && !op.OpPay? && !op.OpSettle?
    ensures DepositsLeft(RR.Step(b, op).value.contracts)
         == DepositsLeft(b.contracts) + (if op.OpCreate? then op.deposit else 0.0)
  {
    if op.OpCreate? {
      CreationBrings(b, op);
    } else if op.OpRenew? {
      RenewalCarries(b, op);
    } else {
      SameDeposits(b.contracts, RR.Step(b, op).value.contracts);
    }
  }

  lemma PayBothTakes(o: Office, id: nat, rent: real, electricity: real, account: nat, entry: PaymentEntry, now: real)
    requires id < |o.rent.contracts| && PayBoth(o, id, rent, electricity, account, entry, now).Ok?
    ensures DepositsLeft(PayBoth(o, id, rent, electricity, account, entry, now).value.rent.contracts) == DepositsLeft(o.rent.contracts)
  {
    if rent > 0.0 { RentPaymentTakes(o.rent, id, rent, false, entry, now); }
  }

  lemma SettlingTakes(o: Office, op: SR.Op)
    requires op.OpSettle? && SR.StepOffice(o, op).Ok?
    ensures DepositsLeft(SR.StepOffice(o, op).value.rent.contracts) == DepositsLeft(o.rent.contracts)
  {
    var account, row := SettleIsFor(o, op.id, op.how, op.cash, op.into, op.entry, op.now);
    var rent, electricity := CashForRent(op.cash, row), CashLeft(op.cash, row);
    PayBothTakes(o, op.id, rent, electricity, account, op.entry, op.now);
    WriteOffTakes(PayBoth(o, op.id, rent, electricity, account, op.entry, op.now).value.rent, op.id, op.now);
  }

  lemma DepositPaymentTakes(o: Office, tenant: nat, shop: nat, amount: real, bill: Option<nat>, entry: PaymentEntry)
    requires PayElectricityFromDeposit(o, tenant, shop, amount, bill, entry).Ok?
    ensures DepositsLeft(PayElectricityFromDeposit(o, tenant, shop, amount, bill, entry).value.rent.contracts)
         == DepositsLeft(o.rent.contracts) - amount
  {
    var id, deposit, electricity := DepositPaymentIs(o, tenant, shop, amount, bill, entry);
    DepositsOfChange(o.rent.contracts, id, o.rent.contracts[id].(depositRemaining := deposit - amount));
  }

  /** What an operation asks to be taken out of a deposit. */
  function TakenBy(op: SR.Op): real {
    match op
    case OpRentFromDeposit(_, amount, _, _) => amount
    case OpElectricityFromDeposit(_, _, amount, _, _) => amount
    case _ => 0.0
  }

  lemma StepMovesDeposits(o: Office, op: SR.Op)
    requires SR.Admissible(op) && SR.StepOffice(o, op).Ok?
    ensures DepositsLeft(SR.StepOffice(o, op).value.rent.contracts)
         == DepositsLeft(o.rent.contracts) + (if op.OpRent? && op.rent.OpCreate? then op.rent.deposit else 0.0) - TakenBy(op)
  {
    match op {
      case OpRentToBank(id, amount, account, entry, now) => RentPaymentTakes(o.rent, id, amount, false, entry, now);
      case OpRentFromDeposit(id, amount, entry, now) => RentPaymentTakes(o.rent, id, amount, true, entry, now);
      case OpRentOpening(id, amount, entry, now) => RentPaymentTakes(o.rent, id, amount, false, entry, now);
      case OpElectricityFromDeposit(tenant, shop, amount, bill, entry) => DepositPaymentTakes(o, tenant, shop, amount, bill, entry);
      case OpPayDebt(id, rent, electricity, account, entry, now) => PayBothTakes(o, id, rent, electricity, account, entry, now);
      case OpSettle(_, _, _, _, _, _) => SettlingTakes(o, op);
      case OpRent(rent) => RentOpTakes(o.rent, rent);
      case _ =>
    }
  }

  lemma TakenAppend(amounts: seq<real>, fundings: seq<SR.Funding>, amount: real, f: SR.Funding)
    requires |amounts| == |fundings|
    ensures TakenFromDeposits(amounts + [amount], fundings + [f])
         == TakenFromDeposits(amounts, fundings) + (if f.Deposit? then amount else 0.0)
  {
    assert (amounts + [amount])[..|amounts|] == amounts && (fundings + [f])[..|fundings|] == fundings;
  }

  /** What has been taken out of deposits, over both tables of payments. */
  ghost function Taken(d: SR.Desk): real
    requires SR.AllReceipted(d)
  {
    TakenFromDeposits(SR.RentAmounts(d.office.rent), d.rent)
    + TakenFromDeposits(SR.ElectricityAmounts(d.office.electricity), d.electricity)
  }

  /** At most one row more. */
  ghost predicate Appends(before: seq<real>, after: seq<real>) {
    after == before || (|after| == |before| + 1 && after[..|before|] == before)
  }

  lemma FiledTakes(before: seq<real>, after: seq<real>, fundings: seq<SR.Funding>, f: SR.Funding)
    requires |before| == |fundings| && Appends(before, after)
    ensures var filed := if |after| > |before| then fundings + [f] else fundings;
            && |after| == |filed|
            && TakenFromDeposits(after, filed)
               == TakenFromDeposits(before, fundings) + (if |after| > |before| && f.Deposit? then after[|before|] else 0.0)
  {
    if after != before {
      assert after == before + [after[|before|]];
      TakenAppend(before, fundings, after[|before|], f);
    }
  }

  lemma PayBothAppends(o: Office, id: nat, rent: real, electricity: real, account: nat, entry: PaymentEntry, now: real)
    requires id < |o.rent.contracts| && PayBoth(o, id, rent, electricity, account, entry, now).Ok?
    ensures var after := PayBoth(o, id, rent, electricity, account, entry, now).value;
            && Appends(SR.RentAmounts(o.rent), SR.RentAmounts(after.rent))
            && Appends(SR.ElectricityAmounts(o.electricity), SR.ElectricityAmounts(after.electricity))
  {
    var c, middle := o.rent.contracts[id], PayRentIfAny(o, id, rent, account, entry, now).value;
    if rent > 0.0 { SR.RentIsRecorded(o.rent, id, rent, false, entry, now); }
    if electricity > 0.0 { SR.ElectricityIsRecorded(middle.electricity, c.tenant, c.shop, electricity, None, None, entry); }
  }

  lemma SettlingAppends(o: Office, op: SR.Op)
    requires op.OpSettle? && SR.StepOffice(o, op).Ok?
    ensures var after := SR.StepOffice(o, op).value;
            && Appends(SR.RentAmounts(o.rent), SR.RentAmounts(after.rent))
            && Appends(SR.ElectricityAmounts(o.electricity), SR.ElectricityAmounts(after.electricity))
  {
    var account, row := SettleIsFor(o, op.id, op.how, op.cash, op.into, op.entry, op.now);
    var rent, electricity := CashForRent(op.cash, row), CashLeft(op.cash, row);
    PayBothAppends(o, op.id, rent, electricity, account, op.entry, op.now);
    SR.CloseOutLeavesTrail(PayBoth(o, op.id, rent, electricity, account, op.entry, op.now).value, op.id, row, op.now);
  }

  lemma DepositPaymentAppends(o: Office, op: SR.Op)
    requires op.OpElectricityFromDeposit? && SR.StepOffice(o, op).Ok?
    ensures var after := SR.StepOffice(o, op).value;
            && SR.RentAmounts(after.rent) == SR.RentAmounts(o.rent)
            && SR.ElectricityAmounts(after.electricity) == SR.ElectricityAmounts(o.electricity) + [op.amount]
  {
    SR.DepositIsUnbanked(o, op.tenant, op.shop, op.amount, op.bill, op.entry);
  }

  lemma BankPaymentAppends(o: Office, op: SR.Op)
    requires op.OpRentToBank? || op.OpElectricityToBank? || op.OpElectricityOpening?
    requires SR.StepOffice(o, op).Ok?
    ensures var after := SR.StepOffice(o, op).value;
            && Appends(SR.RentAmounts(o.rent), SR.RentAmounts(after.rent))
            && Appends(SR.ElectricityAmounts(o.electricity), SR.ElectricityAmounts(after.electricity))
  {
    match op {
      case OpRentToBank(id, amount, account, entry, now) => SR.RentIsRecorded(o.rent, id, amount, false, entry, now);
      case OpElectricityToBank(tenant, shop, amount, bill, account, entry, now) =>
        SR.ElectricityIsRecorded(o.electricity, tenant, shop, amount, bill, None, entry);
      case OpElectricityOpening(tenant, shop, amount, entry) =>
        SR.ElectricityIsRecorded(o.electricity, tenant, shop, amount, None, None, entry);
    }
  }

  /** Payments are only ever added, at most one of a kind in a step; one out of a deposit has the amount
      that was asked for. */
  lemma StepAppends(o: Office, op: SR.Op)
    requires SR.Admissible(op) && SR.StepOffice(o, op).Ok?
    ensures var after := SR.StepOffice(o, op).value;
            && Appends(SR.RentAmounts(o.rent), SR.RentAmounts(after.rent))
            && Appends(SR.ElectricityAmounts(o.electricity), SR.ElectricityAmounts(after.electricity))
            && (op.OpRentFromDeposit? ==> SR.RentAmounts(after.rent) == SR.RentAmounts(o.rent) + [op.amount]
                                          && after.electricity == o.electricity)
            && (op.OpElectricityFromDeposit? ==> SR.RentAmounts(after.rent) == SR.RentAmounts(o.rent)
                                                 && SR.ElectricityAmounts(after.electricity) == SR.ElectricityAmounts(o.electricity) + [op.amount])
  {
    match op {
      case OpRentFromDeposit(id, amount, entry, now) => SR.RentIsRecorded(o.rent, id, amount, true, entry, now);
      case OpRentOpening(id, amount, entry, now) => SR.RentIsRecorded(o.rent, id, amount, false, entry, now);
      case OpElectricityFromDeposit(_, _, _, _, _) => DepositPaymentAppends(o, op);
      case OpPayDebt(id, rent, electricity, account, entry, now) => PayBothAppends(o, id, rent, electricity, account, entry, now);
      case OpSettle(_, _, _, _, _, _) => SettlingAppends(o, op);
      case OpRent(rent) => SR.RentOpPays(o.rent, rent);
      case OpElectricity(electricity) => SR.ElectricityOpPays(o.electricity, electricity);
      case OpMoney(_) =>
      case _ => BankPaymentAppends(o, op);
    }
  }

  /** The amounts and fundings of both tables of payments. */
  lemma StepTakes(d: SR.Desk, op: SR.Op)
    requires SR.AllReceipted(d) && SR.Admissible(op) && SR.Step(d, op).Ok? && SR.AllReceipted(SR.Step(d, op).value)
    ensures Taken(SR.Step(d, op).value) == Taken(d) + TakenBy(op)
  {
    var o, next := SR.StepOffice(d.office, op).value, d.office.money.nextId;
    var paysRent := |o.rent.payments| > |d.office.rent.payments|;
    StepAppends(d.office, op);
    FiledTakes(SR.RentAmounts(d.office.rent), SR.RentAmounts(o.rent), d.rent, SR.FundingOf(op, next));
    FiledTakes(SR.ElectricityAmounts(d.office.electricity), SR.ElectricityAmounts(o.electricity), d.electricity,
               SR.FundingOf(op, if paysRent then next + 1 else next));
  }

  /** Deposits are conserved over every serial run: what is left on all contracts together, and what payments
      of rent and electricity have been funded with out of deposits, is what was there and what new contracts
      brought in. Renewals, terminations, settlements and payments into the bank move none of it. */
  lemma {:induction false} DepositsAreConserved(d: SR.Desk, ops: seq<SR.Op>)
    requires SR.DeskInv(d) && forall op | op in ops :: SR.Admissible(op)
    ensures SR.DeskInv(SR.Run(d, ops))
    ensures DepositsLeft(SR.Run(d, ops).office.rent.contracts) + Taken(SR.Run(d, ops))
         == DepositsLeft(d.office.rent.contracts) + Taken(d) + BroughtIn(d, ops)
  {
    if ops != [] {
      var init, last := ops[..|ops| - 1], ops[|ops| - 1];
      assert forall op | op in init :: op in ops;
      DepositsAreConserved(d, init);
      assert last in ops;
      var before := SR.Run(d, init);
      if SR.Step(before, last).Ok? {
        SR.StepKeeps(before, last);
        StepMovesDeposits(before.office, last);
        StepTakes(before, last);
      }
    }
  }

  /** From empty tables: what is left is what was brought in, less what payments took. */
  lemma DepositsLeftAreWhatWasBrought(ops: seq<SR.Op>)
    requires forall op | op in ops :: SR.Admissible(op)
    ensures SR.DeskInv(SR.Run(SR.EMPTY, ops))
    ensures DepositsLeft(SR.Run(SR.EMPTY, ops).office.rent.contracts) == BroughtIn(SR.EMPTY, ops) - Taken(SR.Run(SR.EMPTY, ops))
  {
    SR.EmptyDeskIsSound();
    DepositsAreConserved(SR.EMPTY, ops);
  }
}
