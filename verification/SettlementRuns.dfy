/** Serial runs over the rent tables, the electricity tables, the accounts and the settlements together, and
    the pairing of payments with ledger rows that every run keeps. */
module SettlementRuns {
  import opened Basics
  import opened RentTables
  import opened Settlement
  import RO = RentOps
  import RR = RentRuns
  import E = Electricity
  import ER = ElectricityRuns
  import L = Ledger
  import LR = LedgerRuns

  /** Where the money of a payment row came from: into a bank account, under which the ledger refers to the
      payment by `row`; out of the security deposit; or in the past, before the books were opened. */
  datatype Funding = Bank(row: nat) | Deposit | Opening

  /** The office with the funding of each rent payment and of each electricity payment. */
  datatype Desk = Desk(office: Office, rent: seq<Funding>, electricity: seq<Funding>)

  datatype Op =
    | OpRentToBank(id: nat, amount: real, account: nat, entry: PaymentEntry, now: real)
    | OpRentFromDeposit(id: nat, amount: real, entry: PaymentEntry, now: real)
    | OpRentOpening(id: nat, amount: real, entry: PaymentEntry, now: real)
    | OpElectricityToBank(tenant: nat, shop: nat, amount: real, bill: Option<nat>, account: nat, entry: PaymentEntry, now: real)
    | OpElectricityFromDeposit(tenant: nat, shop: nat, amount: real, bill: Option<nat>, entry: PaymentEntry)
    | OpElectricityOpening(tenant: nat, shop: nat, amount: real, entry: PaymentEntry)
    | OpPayDebt(id: nat, rentAmount: real, electricityAmount: real, account: nat, entry: PaymentEntry, now: real)
    | OpSettle(id: nat, how: Method, cash: real, into: Option<nat>, entry: PaymentEntry, now: real)
    | OpRent(rent: RR.Op)
    | OpElectricity(electricity: E.Op)
    | OpMoney(money: L.Op)

  /** Request validation; payments go through the operations above. */
  predicate Admissible(op: Op) {
    match op
    case OpPayDebt(_, rentAmount, electricityAmount, _, _, _) => rentAmount >= 0.0 && electricityAmount >= 0.0
    case OpSettle(_, _, cash, _, _, _) => cash >= 0.0
    case OpRent(rent) => RR.Admissible(rent) && !rent.OpPay? && !rent.OpSettle?
    case OpElectricity(electricity) => E.Admissible(electricity) && !electricity.OpCreatePayment? && !electricity.OpReceive?
    case OpMoney(money) => L.Admissible(money) && !money.OpRentPayment? && !money.OpElectricityPayment?
    case _ => op.amount > 0.0
  }

  // ---- steps ----------------------------------------------------------------------------------------

  /** A payment a client asks for, of one bill or of a shop's open bills, into a bank account. */
  function ElectricityToBank(o: Office, tenant: nat, shop: nat, amount: real, bill: Option<nat>, account: nat,
                             entry: PaymentEntry, now: real): Result<Office> {
    match E.CreatePayment(o.electricity, tenant, shop, amount, bill, None, entry)
    case Err(reason) => Err(reason)
    case Ok(electricity) =>
      match L.Receive(o.money, account, amount, L.ElectricityPayment(o.money.nextId), now)
      case Err(reason) => Err(reason)
      case Ok(money) => Ok(o.(electricity := electricity, money := money))
  }

  function WithRent(o: Office, rent: Result<Book>): Result<Office> {
    match rent
    case Err(reason) => Err(reason)
    case Ok(b) => Ok(o.(rent := b))
  }

  function WithElectricity(o: Office, electricity: Result<E.Tables>): Result<Office> {
    match electricity
    case Err(reason) => Err(reason)
    case Ok(t) => Ok(o.(electricity := t))
  }

  function WithMoney(o: Office, money: Result<L.Books>): Result<Office> {
    match money
    case Err(reason) => Err(reason)
    case Ok(b) => Ok(o.(money := b))
  }

  function StepOffice(o: Office, op: Op): Result<Office> {
    match op
    case OpRentToBank(id, amount, account, entry, now) => PayRent(o, id, amount, account, entry, now)
    case OpRentFromDeposit(id, amount, entry, now) => WithRent(o, RO.RecordPayment(o.rent, id, amount, true, entry, now))
    case OpRentOpening(id, amount, entry, now) => WithRent(o, RO.RecordPayment(o.rent, id, amount, false, entry, now))
    case OpElectricityToBank(tenant, shop, amount, bill, account, entry, now) =>
      ElectricityToBank(o, tenant, shop, amount, bill, account, entry, now)
    case OpElectricityFromDeposit(tenant, shop, amount, bill, entry) =>
      PayElectricityFromDeposit(o, tenant, shop, amount, bill, entry)
    case OpElectricityOpening(tenant, shop, amount, entry) =>
      WithElectricity(o, E.RecordPayment(o.electricity, tenant, shop, amount, None, None, entry))
    case OpPayDebt(id, rentAmount, electricityAmount, account, entry, now) =>
      PayDebt(o, id, rentAmount, electricityAmount, account, entry, now)
    case OpSettle(id, how, cash, into, entry, now) => Settle(o, id, how, cash, into, entry, now)
    case OpRent(rent) => WithRent(o, RR.Step(o.rent, rent))
    case OpElectricity(electricity) => WithElectricity(o, E.Step(o.electricity, electricity))
    case OpMoney(money) => WithMoney(o, L.Step(o.money, money))
  }

  predicate FromDeposit(op: Op) { op.OpRentFromDeposit? || op.OpElectricityFromDeposit? }

  predicate ToBank(op: Op) { op.OpRentToBank? || op.OpElectricityToBank? || op.OpPayDebt? || op.OpSettle? }

  /** The funding of a payment row an operation writes; `row` is the id its ledger row would get. */
  function FundingOf(op: Op, row: nat): Funding {
    if ToBank(op) then Bank(row) else if FromDeposit(op) then Deposit else Opening
  }

  /** An operation writes at most one rent payment and one electricity payment, in this order. */
  function Filed(d: Desk, op: Op, o: Office): Desk {
    var next := d.office.money.nextId;
    var paysRent := |o.rent.payments| > |d.office.rent.payments|;
    var paysElectricity := |o.electricity.payments| > |d.office.electricity.payments|;
    Desk(o,
         if paysRent then d.rent + [FundingOf(op, next)] else d.rent,
         if paysElectricity then d.electricity + [FundingOf(op, if paysRent then next + 1 else next)] else d.electricity)
  }

  function Step(d: Desk, op: Op): Result<Desk> {
    match StepOffice(d.office, op)
    case Err(reason) => Err(reason)
    case Ok(o) => Ok(Filed(d, op, o))
  }

  function Apply(d: Desk, op: Op): Desk {
    match Step(d, op)
    case Ok(d') => d'
    case Err(_) => d
  }

  function Run(d: Desk, ops: seq<Op>): Desk {
    if ops == [] then d else Apply(Run(d, ops[..|ops| - 1]), ops[|ops| - 1])
  }

  const EMPTY := Desk(Office(RR.EMPTY, E.EMPTY, L.EMPTY, map[]), [], [])

  // ---- payments and ledger rows ---------------------------------------------------------------------

  /** What a ledger row says of a payment. */
  datatype Receipt = Receipt(row: nat, direction: L.Direction, amount: real)

  /** The ledger row belongs to a rent payment, or to an electricity payment. */
  predicate OfPayment(s: L.Source, rent: bool) { if rent then s.RentPayment? else s.ElectricityPayment? }

  function ReceiptOf(e: L.Entry): Receipt { Receipt(e.source.id, e.direction, e.amount) }

  /** The ledger rows of payments, in the order they were written. */
  function Receipts(entries: seq<L.Entry>, rent: bool): seq<Receipt> {
    if entries == [] then []
    else
      var last := entries[|entries| - 1];
      Receipts(entries[..|entries| - 1], rent) + (if OfPayment(last.source, rent) then [ReceiptOf(last)] else [])
  }

  /** The receipts the payments into bank accounts ask for. */
  function Due(amounts: seq<real>, fundings: seq<Funding>): seq<Receipt>
    requires |amounts| == |fundings|
  {
    if amounts == [] then []
    else
      var n := |amounts| - 1;
      Due(amounts[..n], fundings[..n]) + (if fundings[n].Bank? then [Receipt(fundings[n].row, L.IN, amounts[n])] else [])
  }

  function RentAmounts(b: Book): seq<real> { seq(|b.payments|, p requires 0 <= p < |b.payments| => b.payments[p].amount) }

  function ElectricityAmounts(t: E.Tables): seq<real> {
    seq(|t.payments|, p requires 0 <= p < |t.payments| => t.payments[p].amount)
  }

  /** The ledger rows of the payments of a kind are exactly those its bank payments ask for, in order. */
  ghost predicate Receipted(entries: seq<L.Entry>, amounts: seq<real>, fundings: seq<Funding>, rent: bool) {
    |amounts| == |fundings| && Receipts(entries, rent) == Due(amounts, fundings)
  }

  ghost predicate AllReceipted(d: Desk) {
    && Receipted(d.office.money.entries, RentAmounts(d.office.rent), d.rent, true)
    && Receipted(d.office.money.entries, ElectricityAmounts(d.office.electricity), d.electricity, false)
  }

  lemma ReceiptsAppend(entries: seq<L.Entry>, e: L.Entry, rent: bool)
    ensures Receipts(entries + [e], rent) == Receipts(entries, rent) + (if OfPayment(e.source, rent) then [ReceiptOf(e)] else [])
  {
    assert (entries + [e])[..|entries|] == entries;
  }

  lemma {:induction false} ReceiptsUpdate(entries: seq<L.Entry>, i: nat, e: L.Entry, rent: bool)
    requires i < |entries| && !OfPayment(entries[i].source, rent) && !OfPayment(e.source, rent)
    ensures Receipts(entries[i := e], rent) == Receipts(entries, rent)
  {
    var n := |entries| - 1;
    if i == n {
      assert entries[i := e][..n] == entries[..n];
    } else {
      ReceiptsUpdate(entries[..n], i, e, rent);
      assert entries[i := e][..n] == entries[..n][i := e];
    }
  }

  lemma {:induction false} ReceiptsRemove(entries: seq<L.Entry>, i: nat, rent: bool)
    requires i < |entries| && !OfPayment(entries[i].source, rent)
    ensures Receipts(L.RemoveAt(entries, i), rent) == Receipts(entries, rent)
  {
    var n := |entries| - 1;
    if i == n {
      assert L.RemoveAt(entries, i) == entries[..n];
    } else {
      ReceiptsRemove(entries[..n], i, rent);
      assert L.RemoveAt(entries, i)[..n - 1] == L.RemoveAt(entries[..n], i);
    }
  }

  lemma DueAppend(amounts: seq<real>, fundings: seq<Funding>, amount: real, f: Funding)
    requires |amounts| == |fundings|
    ensures Due(amounts + [amount], fundings + [f])
         == Due(amounts, fundings) + (if f.Bank? then [Receipt(f.row, L.IN, amount)] else [])
  {
    assert (amounts + [amount])[..|amounts|] == amounts && (fundings + [f])[..|fundings|] == fundings;
  }

  // ---- the other money operations write no such row -------------------------------------------------

  lemma CascadeSpares(entries: seq<L.Entry>, s: L.Source, rent: bool)
    requires !OfPayment(s, rent)
    ensures Receipts(L.Cascade(entries, s), rent) == Receipts(entries, rent)
  {
    match L.IndexOf(entries, s)
    case None =>
    case Some(i) => ReceiptsRemove(entries, i, rent);
  }

  lemma ExpenseEditSpares(b: L.Books, id: nat, seen: L.Money, next: L.Money, date: real, rent: bool)
    requires L.UpdateExpense(b, id, seen, next, date).Ok?
    ensures Receipts(L.UpdateExpense(b, id, seen, next, date).value.entries, rent) == Receipts(b.entries, rent)
  {
    var i := L.IndexOf(b.entries, L.Expense(id)).value;
    ReceiptsUpdate(b.entries, i, L.UpdateExpense(b, id, seen, next, date).value.entries[i], rent);
  }

  lemma IncomeEditSpares(b: L.Books, id: nat, seen: L.Money, next: L.Money, date: real, rent: bool)
    requires L.UpdateIncome(b, id, seen, next, date).Ok?
    ensures Receipts(L.UpdateIncome(b, id, seen, next, date).value.entries, rent) == Receipts(b.entries, rent)
  {
    var i := L.IndexOf(b.entries, L.Income(id)).value;
    ReceiptsUpdate(b.entries, i, L.UpdateIncome(b, id, seen, next, date).value.entries[i], rent);
  }

  lemma TransferSpares(b: L.Books, op: L.Op, rent: bool)
    requires op.OpTransfer? && L.Step(b, op).Ok?
    ensures Receipts(L.Step(b, op).value.entries, rent) == Receipts(b.entries, rent)
  {
    var b' := L.Step(b, op).value;
    var n := |b.entries|;
    assert b'.entries == b.entries + [b'.entries[n]] + [b'.entries[n + 1]];
    ReceiptsAppend(b.entries, b'.entries[n], rent);
    ReceiptsAppend(b.entries + [b'.entries[n]], b'.entries[n + 1], rent);
  }

  /** The operations that write one row at the end, or none. */
  lemma AppendingSpares(b: L.Books, op: L.Op, rent: bool)
    requires L.Step(b, op).Ok? && !op.OpRentPayment? && !op.OpElectricityPayment?
    requires !op.OpTransfer? && !op.OpUpdateExpense? && !op.OpUpdateIncome? && !op.OpRemoveExpense? && !op.OpRemoveIncome?
             && !op.OpRemoveLoan?
    ensures Receipts(L.Step(b, op).value.entries, rent) == Receipts(b.entries, rent)
  {
    var b' := L.Step(b, op).value;
    if b'.entries != b.entries {
      var e := b'.entries[|b.entries|];
      assert b'.entries == b.entries + [e] && !OfPayment(e.source, rent);
      ReceiptsAppend(b.entries, e, rent);
    }
  }

  lemma MoneySpares(b: L.Books, op: L.Op, rent: bool)
    requires L.Step(b, op).Ok? && !op.OpRentPayment? && !op.OpElectricityPayment?
    ensures Receipts(L.Step(b, op).value.entries, rent) == Receipts(b.entries, rent)
  {
    match op {
      case OpTransfer(_, _, _, _, _) => TransferSpares(b, op, rent);
      case OpUpdateExpense(id, seen, next, date) => ExpenseEditSpares(b, id, seen, next, date, rent);
      case OpUpdateIncome(id, seen, next, date) => IncomeEditSpares(b, id, seen, next, date, rent);
      case OpRemoveExpense(id) => CascadeSpares(b.entries, L.Expense(id), rent);
      case OpRemoveIncome(id, _) => CascadeSpares(b.entries, L.Income(id), rent);
      case OpRemoveLoan(id) => CascadeSpares(b.entries, L.Loan(id), rent);
      case _ => AppendingSpares(b, op, rent);
    }
  }

  // ---- what each operation does to payments and receipts --------------------------------------------

  /** The two payment tables and the ledger, as far as the pairing goes. */
  datatype Trail = Trail(entries: seq<L.Entry>, next: nat, rent: seq<real>, electricity: seq<real>)

  function TrailOf(o: Office): Trail {
    Trail(o.money.entries, o.money.nextId, RentAmounts(o.rent), ElectricityAmounts(o.electricity))
  }

  /** A payment of a kind into a bank account: its row, and the ledger row that refers to it. */
  ghost predicate Banked(t: Trail, t': Trail, rent: bool, amount: real) {
    && t'.next == t.next + 1 && |t'.entries| == |t.entries| + 1
    && var e := t'.entries[|t.entries|];
    && t'.entries == t.entries + [e]
    && e.source == (if rent then L.RentPayment(t.next) else L.ElectricityPayment(t.next))
    && e.direction == L.IN && e.amount == amount
    && t'.rent == (if rent then t.rent + [amount] else t.rent)
    && t'.electricity == (if rent then t.electricity else t.electricity + [amount])
  }

  /** A payment of a kind that moves no money. */
  ghost predicate Unbanked(t: Trail, t': Trail, rent: bool, amount: real) {
    && t'.entries == t.entries
    && t'.rent == (if rent then t.rent + [amount] else t.rent)
    && t'.electricity == (if rent then t.electricity else t.electricity + [amount])
  }

  ghost predicate Unpaid(t: Trail, t': Trail) {
    && t'.rent == t.rent && t'.electricity == t.electricity
    && forall rent: bool :: Receipts(t'.entries, rent) == Receipts(t.entries, rent)
  }

  ghost predicate TrailReceipted(t: Trail, rent: seq<Funding>, electricity: seq<Funding>) {
    Receipted(t.entries, t.rent, rent, true) && Receipted(t.entries, t.electricity, electricity, false)
  }

  lemma BankedIsReceipted(t: Trail, t': Trail, rent: bool, amount: real, rents: seq<Funding>, electricities: seq<Funding>)
    requires TrailReceipted(t, rents, electricities) && Banked(t, t', rent, amount)
    ensures TrailReceipted(t', if rent then rents + [Bank(t.next)] else rents,
                           if rent then electricities else electricities + [Bank(t.next)])
  {
    var e := t'.entries[|t.entries|];
    ReceiptsAppend(t.entries, e, true);
    ReceiptsAppend(t.entries, e, false);
    if rent {
      DueAppend(t.rent, rents, amount, Bank(t.next));
    } else {
      DueAppend(t.electricity, electricities, amount, Bank(t.next));
    }
  }

  lemma UnbankedIsReceipted(t: Trail, t': Trail, rent: bool, amount: real, f: Funding, rents: seq<Funding>,
                            electricities: seq<Funding>)
    requires TrailReceipted(t, rents, electricities) && Unbanked(t, t', rent, amount) && !f.Bank?
    ensures TrailReceipted(t', if rent then rents + [f] else rents, if rent then electricities else electricities + [f])
  {
    if rent { DueAppend(t.rent, rents, amount, f); } else { DueAppend(t.electricity, electricities, amount, f); }
  }

  lemma RentIsRecorded(b: Book, id: nat, amount: real, fromDeposit: bool, entry: PaymentEntry, now: real)
    requires RO.RecordPayment(b, id, amount, fromDeposit, entry, now).Ok?
    ensures RentAmounts(RO.RecordPayment(b, id, amount, fromDeposit, entry, now).value) == RentAmounts(b) + [amount]
  {
  }

  lemma ElectricityIsRecorded(t: E.Tables, tenant: nat, shop: nat, amount: real, bill: Option<nat>, deposit: Option<real>,
                              entry: PaymentEntry)
    requires E.RecordPayment(t, tenant, shop, amount, bill, deposit, entry).Ok?
    ensures ElectricityAmounts(E.RecordPayment(t, tenant, shop, amount, bill, deposit, entry).value)
         == ElectricityAmounts(t) + [amount]
  {
  }

  lemma RentIsBanked(o: Office, id: nat, amount: real, account: nat, entry: PaymentEntry, now: real)
    requires PayRent(o, id, amount, account, entry, now).Ok?
    ensures Banked(TrailOf(o), TrailOf(PayRent(o, id, amount, account, entry, now).value), true, amount)
  {
    RentIsRecorded(o.rent, id, amount, false, entry, now);
  }

  lemma ElectricityIsBanked(o: Office, tenant: nat, shop: nat, amount: real, account: nat, entry: PaymentEntry, now: real)
    requires PayElectricity(o, tenant, shop, amount, account, entry, now).Ok?
    ensures Banked(TrailOf(o), TrailOf(PayElectricity(o, tenant, shop, amount, account, entry, now).value), false, amount)
  {
    ElectricityIsRecorded(o.electricity, tenant, shop, amount, None, None, entry);
  }

  lemma BillsAreBanked(o: Office, tenant: nat, shop: nat, amount: real, bill: Option<nat>, account: nat,
                       entry: PaymentEntry, now: real)
    requires ElectricityToBank(o, tenant, shop, amount, bill, account, entry, now).Ok?
    ensures Banked(TrailOf(o), TrailOf(ElectricityToBank(o, tenant, shop, amount, bill, account, entry, now).value),
                   false, amount)
  {
    ElectricityIsRecorded(o.electricity, tenant, shop, amount, bill, None, entry);
  }

  lemma DepositIsUnbanked(o: Office, tenant: nat, shop: nat, amount: real, bill: Option<nat>, entry: PaymentEntry)
    requires PayElectricityFromDeposit(o, tenant, shop, amount, bill, entry).Ok?
    ensures Unbanked(TrailOf(o), TrailOf(PayElectricityFromDeposit(o, tenant, shop, amount, bill, entry).value), false, amount)
  {
    var id, deposit, electricity := DepositPaymentIs(o, tenant, shop, amount, bill, entry);
    ElectricityIsRecorded(o.electricity, tenant, shop, amount, bill, Some(deposit), entry);
  }

  /** The other rent operations write no payment, except for the opening payment of a contract. */
  lemma RentOpPays(b: Book, op: RR.Op)
    requires RR.Step(b, op).Ok? && !op.OpPay? && !op.OpSettle?
    ensures var before, after := RentAmounts(b), RentAmounts(RR.Step(b, op).value);
            if op.OpCreate? && op.openingPaid.Some? then after == before + [op.openingPaid.value] else after == before
  {
  }

  lemma ElectricityOpPays(t: E.Tables, op: E.Op)
    requires E.Step(t, op).Ok? && !op.OpCreatePayment? && !op.OpReceive?
    ensures ElectricityAmounts(E.Step(t, op).value) == ElectricityAmounts(t)
  {
  }

  // ---- every step and every run ---------------------------------------------------------------------

  /** The fundings after a step, by what it did to the payment tables. */
  function RentsFiled(op: Op, t: Trail, t': Trail, rents: seq<Funding>): seq<Funding> {
    if |t'.rent| > |t.rent| then rents + [FundingOf(op, t.next)] else rents
  }

  function ElectricitiesFiled(op: Op, t: Trail, t': Trail, electricities: seq<Funding>): seq<Funding> {
    if |t'.electricity| > |t.electricity|
    then electricities + [FundingOf(op, if |t'.rent| > |t.rent| then t.next + 1 else t.next)]
    else electricities
  }

  ghost predicate TrailStep(op: Op, t: Trail, t': Trail, rents: seq<Funding>, electricities: seq<Funding>) {
    TrailReceipted(t', RentsFiled(op, t, t', rents), ElectricitiesFiled(op, t, t', electricities))
  }

  lemma FiledByTrail(d: Desk, op: Op, o: Office)
    requires TrailStep(op, TrailOf(d.office), TrailOf(o), d.rent, d.electricity)
    ensures AllReceipted(Filed(d, op, o))
  {
  }

  lemma BankedStep(op: Op, t: Trail, t': Trail, rent: bool, amount: real, rents: seq<Funding>, electricities: seq<Funding>)
    requires TrailReceipted(t, rents, electricities) && Banked(t, t', rent, amount) && ToBank(op)
    ensures TrailStep(op, t, t', rents, electricities)
  {
    BankedIsReceipted(t, t', rent, amount, rents, electricities);
  }

  lemma BankedTwice(op: Op, t: Trail, middle: Trail, t': Trail, rent: real, electricity: real, rents: seq<Funding>,
                    electricities: seq<Funding>)
    requires TrailReceipted(t, rents, electricities) && ToBank(op)
    requires Banked(t, middle, true, rent) && Banked(middle, t', false, electricity)
    ensures TrailStep(op, t, t', rents, electricities)
  {
    BankedIsReceipted(t, middle, true, rent, rents, electricities);
    BankedIsReceipted(middle, t', false, electricity, rents + [Bank(t.next)], electricities);
  }

  lemma UnbankedStep(op: Op, t: Trail, t': Trail, rent: bool, amount: real, rents: seq<Funding>, electricities: seq<Funding>)
    requires TrailReceipted(t, rents, electricities) && Unbanked(t, t', rent, amount) && !ToBank(op)
    ensures TrailStep(op, t, t', rents, electricities)
  {
    UnbankedIsReceipted(t, t', rent, amount, FundingOf(op, t.next), rents, electricities);
  }

  lemma UnpaidStep(op: Op, t: Trail, t': Trail, rents: seq<Funding>, electricities: seq<Funding>)
    requires TrailReceipted(t, rents, electricities) && Unpaid(t, t')
    ensures TrailStep(op, t, t', rents, electricities)
  {
  }

  lemma PayBothStep(op: Op, o: Office, id: nat, rent: real, electricity: real, account: nat, entry: PaymentEntry,
                    now: real, rents: seq<Funding>, electricities: seq<Funding>)
    requires ToBank(op) && id < |o.rent.contracts| && PayBoth(o, id, rent, electricity, account, entry, now).Ok?
    requires TrailReceipted(TrailOf(o), rents, electricities)
    ensures TrailStep(op, TrailOf(o), TrailOf(PayBoth(o, id, rent, electricity, account, entry, now).value), rents,
                      electricities)
  {
    var c := o.rent.contracts[id];
    var middle := PayRentIfAny(o, id, rent, account, entry, now).value;
    var after := PayBoth(o, id, rent, electricity, account, entry, now).value;
    if rent > 0.0 { RentIsBanked(o, id, rent, account, entry, now); }
    if electricity > 0.0 { ElectricityIsBanked(middle, c.tenant, c.shop, electricity, account, entry, now); }
    if rent > 0.0 && electricity > 0.0 {
      BankedTwice(op, TrailOf(o), TrailOf(middle), TrailOf(after), rent, electricity, rents, electricities);
    } else if rent > 0.0 {
      BankedStep(op, TrailOf(o), TrailOf(after), true, rent, rents, electricities);
    } else if electricity > 0.0 {
      BankedStep(op, TrailOf(o), TrailOf(after), false, electricity, rents, electricities);
    } else {
      UnpaidStep(op, TrailOf(o), TrailOf(after), rents, electricities);
    }
  }

  lemma CloseOutLeavesTrail(o: Office, id: nat, row: SettlementRow, now: real)
    requires id < |o.rent.contracts|
    ensures TrailOf(CloseOut(o, id, row, now)) == TrailOf(o)
  {
  }

  lemma SettlementStep(op: Op, o: Office, rents: seq<Funding>, electricities: seq<Funding>)
    requires op.OpSettle? && StepOffice(o, op).Ok? && TrailReceipted(TrailOf(o), rents, electricities)
    ensures TrailStep(op, TrailOf(o), TrailOf(StepOffice(o, op).value), rents, electricities)
  {
    var account, row := SettleIsFor(o, op.id, op.how, op.cash, op.into, op.entry, op.now);
    var rent, electricity := CashForRent(op.cash, row), CashLeft(op.cash, row);
    PayBothStep(op, o, op.id, rent, electricity, account, op.entry, op.now, rents, electricities);
    var paid := PayBoth(o, op.id, rent, electricity, account, op.entry, op.now).value;
    CloseOutLeavesTrail(paid, op.id, row, op.now);
  }

  lemma RentOpStep(op: Op, o: Office, rents: seq<Funding>, electricities: seq<Funding>)
    requires op.OpRent? && Admissible(op) && StepOffice(o, op).Ok? && TrailReceipted(TrailOf(o), rents, electricities)
    ensures TrailStep(op, TrailOf(o), TrailOf(StepOffice(o, op).value), rents, electricities)
  {
    var t, t' := TrailOf(o), TrailOf(StepOffice(o, op).value);
    RentOpPays(o.rent, op.rent);
    if op.rent.OpCreate? && op.rent.openingPaid.Some? {
      UnbankedStep(op, t, t', true, op.rent.openingPaid.value, rents, electricities);
    } else {
      UnpaidStep(op, t, t', rents, electricities);
    }
  }

  lemma MoneyOpStep(op: Op, o: Office, rents: seq<Funding>, electricities: seq<Funding>)
    requires op.OpMoney? && Admissible(op) && StepOffice(o, op).Ok? && TrailReceipted(TrailOf(o), rents, electricities)
    ensures TrailStep(op, TrailOf(o), TrailOf(StepOffice(o, op).value), rents, electricities)
  {
    MoneySpares(o.money, op.money, true);
    MoneySpares(o.money, op.money, false);
    UnpaidStep(op, TrailOf(o), TrailOf(StepOffice(o, op).value), rents, electricities);
  }

  /** The operations that write one payment. */
  lemma OnePaymentStep(op: Op, o: Office, rents: seq<Funding>, electricities: seq<Funding>)
    requires op.OpRentToBank? || op.OpRentFromDeposit? || op.OpRentOpening? || op.OpElectricityToBank?
             || op.OpElectricityFromDeposit? || op.OpElectricityOpening?
    requires StepOffice(o, op).Ok? && TrailReceipted(TrailOf(o), rents, electricities)
    ensures TrailStep(op, TrailOf(o), TrailOf(StepOffice(o, op).value), rents, electricities)
  {
    var t, t' := TrailOf(o), TrailOf(StepOffice(o, op).value);
    match op {
      case OpRentToBank(id, amount, account, entry, now) =>
        RentIsBanked(o, id, amount, account, entry, now);
        BankedStep(op, t, t', true, amount, rents, electricities);
      case OpRentFromDeposit(id, amount, entry, now) =>
        RentIsRecorded(o.rent, id, amount, true, entry, now);
        UnbankedStep(op, t, t', true, amount, rents, electricities);
      case OpRentOpening(id, amount, entry, now) =>
        RentIsRecorded(o.rent, id, amount, false, entry, now);
        UnbankedStep(op, t, t', true, amount, rents, electricities);
      case OpElectricityToBank(tenant, shop, amount, bill, account, entry, now) =>
        BillsAreBanked(o, tenant, shop, amount, bill, account, entry, now);
        BankedStep(op, t, t', false, amount, rents, electricities);
      case OpElectricityFromDeposit(tenant, shop, amount, bill, entry) =>
        DepositIsUnbanked(o, tenant, shop, amount, bill, entry);
        UnbankedStep(op, t, t', false, amount, rents, electricities);
      case OpElectricityOpening(tenant, shop, amount, entry) =>
        ElectricityIsRecorded(o.electricity, tenant, shop, amount, None, None, entry);
        UnbankedStep(op, t, t', false, amount, rents, electricities);
    }
  }

  lemma StepIsReceipted(op: Op, o: Office, rents: seq<Funding>, electricities: seq<Funding>)
    requires Admissible(op) && StepOffice(o, op).Ok? && TrailReceipted(TrailOf(o), rents, electricities)
    ensures TrailStep(op, TrailOf(o), TrailOf(StepOffice(o, op).value), rents, electricities)
  {
    match op {
      case OpPayDebt(id, rent, electricity, account, entry, now) =>
        PayBothStep(op, o, id, rent, electricity, account, entry, now, rents, electricities);
      case OpSettle(_, _, _, _, _, _) => SettlementStep(op, o, rents, electricities);
      case OpRent(_) => RentOpStep(op, o, rents, electricities);
      case OpElectricity(electricity) =>
        ElectricityOpPays(o.electricity, electricity);
        UnpaidStep(op, TrailOf(o), TrailOf(StepOffice(o, op).value), rents, electricities);
      case OpMoney(_) => MoneyOpStep(op, o, rents, electricities);
      case _ => OnePaymentStep(op, o, rents, electricities);
    }
  }

  lemma BillPaymentKeeps(o: Office, op: Op)
    requires Inv(o) && op.OpElectricityToBank? && Admissible(op) && StepOffice(o, op).Ok?
    ensures Inv(StepOffice(o, op).value)
  {
    ER.StepKeeps(o.electricity, E.OpCreatePayment(op.tenant, op.shop, op.amount, op.bill, None, op.entry));
    LR.ReceiveKeeps(o.money, op.account, op.amount, L.ElectricityPayment(o.money.nextId), op.now);
  }

  /** Every operation keeps the three sets of books. */
  lemma StepKeepsOffice(o: Office, op: Op)
    requires Inv(o) && Admissible(op) && StepOffice(o, op).Ok?
    ensures Inv(StepOffice(o, op).value)
  {
    match op {
      case OpRentToBank(id, amount, account, entry, now) => PayRentKeeps(o, id, amount, account, entry, now);
      case OpRentFromDeposit(id, amount, entry, now) => RR.PayKeeps(o.rent, id, amount, true, entry, now);
      case OpRentOpening(id, amount, entry, now) => RR.PayKeeps(o.rent, id, amount, false, entry, now);
      case OpElectricityToBank(_, _, _, _, _, _, _) => BillPaymentKeeps(o, op);
      case OpElectricityFromDeposit(tenant, shop, amount, bill, entry) =>
        var id, deposit, electricity, after := DepositPaymentKeeps(o, tenant, shop, amount, bill, entry);
      case OpElectricityOpening(tenant, shop, amount, entry) =>
        ER.PaymentKeeps(o.electricity, tenant, shop, amount, None, None, entry);
      case OpPayDebt(id, rent, electricity, account, entry, now) => PayDebtKeeps(o, id, rent, electricity, account, entry, now);
      case OpSettle(id, how, cash, into, entry, now) => SettlementKeeps(o, id, how, cash, into, entry, now);
      case OpRent(rent) => RR.StepKeeps(o.rent, rent);
      case OpElectricity(electricity) => ER.StepKeeps(o.electricity, electricity);
      case OpMoney(money) => LR.StepKeeps(o.money, money);
    }
  }

  ghost predicate DeskInv(d: Desk) { Inv(d.office) && AllReceipted(d) }

  lemma StepKeeps(d: Desk, op: Op)
    requires DeskInv(d) && Admissible(op) && Step(d, op).Ok?
    ensures DeskInv(Step(d, op).value)
  {
    StepKeepsOffice(d.office, op);
    StepIsReceipted(op, d.office, d.rent, d.electricity);
    FiledByTrail(d, op, StepOffice(d.office, op).value);
  }

  /** Over every serial run of payments, settlements and all the other operations, the three sets of books
      stay sound, and the ledger rows of payments are exactly those the payments into bank accounts ask for. */
  lemma {:induction false} RunKeeps(d: Desk, ops: seq<Op>)
    requires DeskInv(d) && forall op | op in ops :: Admissible(op)
    ensures DeskInv(Run(d, ops))
  {
    if ops != [] {
      var init, last := ops[..|ops| - 1], ops[|ops| - 1];
      assert forall op | op in init :: op in ops;
      RunKeeps(d, init);
      assert last in ops;
      if Step(Run(d, init), last).Ok? { StepKeeps(Run(d, init), last); }
    }
  }

  // ---- one row for each bank payment ----------------------------------------------------------------

  ghost predicate HasRow(entries: seq<L.Entry>, rent: bool, r: Receipt) {
    exists i :: 0 <= i < |entries| && OfPayment(entries[i].source, rent) && ReceiptOf(entries[i]) == r
  }

  ghost predicate LedgerRowsDiffer(entries: seq<L.Entry>, rent: bool) {
    forall i, j | 0 <= i < j < |entries| && OfPayment(entries[i].source, rent) && OfPayment(entries[j].source, rent) ::
      entries[i].source.id != entries[j].source.id
  }

  ghost predicate BankRefsDiffer(fundings: seq<Funding>) {
    forall p, q | 0 <= p < q < |fundings| && fundings[p].Bank? && fundings[q].Bank? :: fundings[p].row != fundings[q].row
  }

  /** Each payment of the kind into a bank account has a ledger row, IN and of its amount; rows and bank
      payments refer to each other one to one; so a payment out of a deposit or before the books has none. */
  ghost predicate OneRowEach(entries: seq<L.Entry>, amounts: seq<real>, fundings: seq<Funding>, rent: bool) {
    && |amounts| == |fundings|
    && (forall p | 0 <= p < |fundings| && fundings[p].Bank? :: HasRow(entries, rent, Receipt(fundings[p].row, L.IN, amounts[p])))
    && (forall i | 0 <= i < |entries| && OfPayment(entries[i].source, rent) :: Bank(entries[i].source.id) in fundings)
    && LedgerRowsDiffer(entries, rent)
    && BankRefsDiffer(fundings)
  }

  lemma {:induction false} ReceiptsAreRows(entries: seq<L.Entry>, rent: bool, r: Receipt)
    ensures r in Receipts(entries, rent) <==> HasRow(entries, rent, r)
  {
    if entries != [] {
      var init := entries[..|entries| - 1];
      ReceiptsAreRows(init, rent, r);
      assert forall i | 0 <= i < |init| :: init[i] == entries[i];
    }
  }

  lemma {:induction false} DueIsBanked(amounts: seq<real>, fundings: seq<Funding>, r: Receipt)
    requires |amounts| == |fundings|
    ensures r in Due(amounts, fundings)
            <==> exists p :: 0 <= p < |fundings| && fundings[p].Bank? && Receipt(fundings[p].row, L.IN, amounts[p]) == r
  {
    if amounts != [] {
      var n := |amounts| - 1;
      DueIsBanked(amounts[..n], fundings[..n], r);
      assert forall p | 0 <= p < n :: fundings[..n][p] == fundings[p] && amounts[..n][p] == amounts[p];
    }
  }

  ghost predicate RowsDiffer(receipts: seq<Receipt>) {
    forall a, b | 0 <= a < b < |receipts| :: receipts[a].row != receipts[b].row
  }

  lemma {:induction false} ReceiptRowsDiffer(entries: seq<L.Entry>, rent: bool)
    requires forall i, j | 0 <= i < j < |entries| :: entries[i].source != entries[j].source
    ensures RowsDiffer(Receipts(entries, rent))
  {
    if entries != [] {
      var init, last := entries[..|entries| - 1], entries[|entries| - 1];
      ReceiptRowsDiffer(init, rent);
      if OfPayment(last.source, rent) {
        forall r | r in Receipts(init, rent) ensures r.row != last.source.id {
          ReceiptsAreRows(init, rent, r);
          var i :| 0 <= i < |init| && OfPayment(init[i].source, rent) && ReceiptOf(init[i]) == r;
          assert init[i] == entries[i] && entries[i].source != entries[|entries| - 1].source;
        }
      }
    }
  }

  lemma {:induction false} BankRowsDiffer(amounts: seq<real>, fundings: seq<Funding>)
    requires |amounts| == |fundings| && RowsDiffer(Due(amounts, fundings))
    ensures BankRefsDiffer(fundings)
  {
    if amounts != [] {
      var n := |amounts| - 1;
      var before, due := Due(amounts[..n], fundings[..n]), Due(amounts, fundings);
      assert forall a | 0 <= a < |before| :: due[a] == before[a];
      BankRowsDiffer(amounts[..n], fundings[..n]);
      if fundings[n].Bank? {
        forall p | 0 <= p < n && fundings[p].Bank? ensures fundings[p].row != fundings[n].row {
          var r := Receipt(fundings[p].row, L.IN, amounts[p]);
          assert fundings[..n][p] == fundings[p] && amounts[..n][p] == amounts[p];
          DueIsBanked(amounts[..n], fundings[..n], r);
          var a :| 0 <= a < |before| && before[a] == r;
          assert due[a].row != due[|before|].row;
        }
      }
    }
  }

  lemma ReceiptedOneByOne(entries: seq<L.Entry>, amounts: seq<real>, fundings: seq<Funding>, rent: bool)
    requires Receipted(entries, amounts, fundings, rent)
    requires forall i, j | 0 <= i < j < |entries| :: entries[i].source != entries[j].source
    ensures OneRowEach(entries, amounts, fundings, rent)
  {
    ReceiptRowsDiffer(entries, rent);
    BankRowsDiffer(amounts, fundings);
    forall p | 0 <= p < |fundings| && fundings[p].Bank?
      ensures HasRow(entries, rent, Receipt(fundings[p].row, L.IN, amounts[p]))
    {
      var r := Receipt(fundings[p].row, L.IN, amounts[p]);
      DueIsBanked(amounts, fundings, r);
      ReceiptsAreRows(entries, rent, r);
    }
    forall i | 0 <= i < |entries| && OfPayment(entries[i].source, rent)
      ensures Bank(entries[i].source.id) in fundings
    {
      assert HasRow(entries, rent, ReceiptOf(entries[i]));
      ReceiptsAreRows(entries, rent, ReceiptOf(entries[i]));
      DueIsBanked(amounts, fundings, ReceiptOf(entries[i]));
    }
  }

  lemma EmptyDeskIsSound()
    ensures DeskInv(EMPTY)
  {
    LR.EmptyBooksBalance();
  }

  /** In every reachable state each rent payment and each electricity payment into a bank account has exactly
      one ledger row, IN and of its amount, and every other payment has none. */
  lemma BankPaymentsHaveOneRow(ops: seq<Op>)
    requires forall op | op in ops :: Admissible(op)
    ensures var d := Run(EMPTY, ops);
            && Inv(d.office)
            && OneRowEach(d.office.money.entries, RentAmounts(d.office.rent), d.rent, true)
            && OneRowEach(d.office.money.entries, ElectricityAmounts(d.office.electricity), d.electricity, false)
  {
    EmptyDeskIsSound();
    RunKeeps(EMPTY, ops);
    var d := Run(EMPTY, ops);
    assert L.EntriesOk(d.office.money);
    ReceiptedOneByOne(d.office.money.entries, RentAmounts(d.office.rent), d.rent, true);
    ReceiptedOneByOne(d.office.money.entries, ElectricityAmounts(d.office.electricity), d.electricity, false);
  }
}
