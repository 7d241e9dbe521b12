/** The final settlement of a contract: cash first for rent that is due, then for electricity, the rest
    forgiven, over the rent tables, the electricity tables and the accounts together. One currency. */
module Settlement {
  import opened Basics
  import opened RentCharges
  import opened ChargeGeneration
  import opened RentTables
  import opened RentOps
  import E = Electricity
  import ER = ElectricityRuns
  import D = RentDebts
  import L = Ledger
  import LR = LedgerRuns
  import RR = RentRuns
  import RT = RentTheorems
  import Fifo

  datatype Method = CASH | COLLATERAL | WRITE_OFF | MIXED

  datatype SettlementRow = SettlementRow(finalRentDebt: real, finalElectricityDebt: real, settledAmount: real, how: Method)

  /** `settlements` is keyed by contract: a contract is settled at most once. */
  datatype Office = Office(
    rent: Book,
    electricity: E.Tables,
    money: L.Books,
    settlements: map<nat, SettlementRow>)

  // ---- payments that also move money ------------------------------------------------------------

  /** A rent payment into a bank account. */
  function PayRent(o: Office, id: nat, amount: real, account: nat, entry: PaymentEntry, now: real): Result<Office> {
    match RecordPayment(o.rent, id, amount, false, entry, now)
    case Err(reason) => Err(reason)
    case Ok(rent) =>
      match L.Receive(o.money, account, amount, L.RentPayment(o.money.nextId), now)
      case Err(reason) => Err(reason)
      case Ok(money) => Ok(o.(rent := rent, money := money))
  }

  /** An electricity payment for a shop into a bank account, over all its open bills. */
  function PayElectricity(o: Office, tenant: nat, shop: nat, amount: real, account: nat, entry: PaymentEntry,
                          now: real): Result<Office> {
    match E.RecordPayment(o.electricity, tenant, shop, amount, None, None, entry)
    case Err(reason) => Err(reason)
    case Ok(electricity) =>
      match L.Receive(o.money, account, amount, L.ElectricityPayment(o.money.nextId), now)
      case Err(reason) => Err(reason)
      case Ok(money) => Ok(o.(electricity := electricity, money := money))
  }

  function PayRentIfAny(o: Office, id: nat, amount: real, account: nat, entry: PaymentEntry,
                        now: real): Result<Office> {
    if amount > 0.0 then PayRent(o, id, amount, account, entry, now) else Ok(o)
  }

  function PayElectricityIfAny(o: Office, tenant: nat, shop: nat, amount: real, account: nat, entry: PaymentEntry,
                               now: real): Result<Office> {
    if amount > 0.0 then PayElectricity(o, tenant, shop, amount, account, entry, now) else Ok(o)
  }

  /** Rent first, then electricity of the contract's tenant and shop; both or neither. */
  function PayBoth(o: Office, id: nat, rentAmount: real, electricityAmount: real, account: nat, entry: PaymentEntry,
                   now: real): Result<Office>
    requires id < |o.rent.contracts|
  {
    var c := o.rent.contracts[id];
    match PayRentIfAny(o, id, rentAmount, account, entry, now)
    case Err(reason) => Err(reason)
    case Ok(paid) => PayElectricityIfAny(paid, c.tenant, c.shop, electricityAmount, account, entry, now)
  }

  /** Rent and electricity out of one pocket, in one transaction. */
  function PayDebt(o: Office, id: nat, rentAmount: real, electricityAmount: real, account: nat, entry: PaymentEntry,
                   now: real): Result<Office> {
    if id >= |o.rent.contracts| then Err("contract not found")
    else if rentAmount <= 0.0 && electricityAmount <= 0.0 then Err("nothing to pay")
    else if account !in o.money.accounts then Err("account not found")
    else PayBoth(o, id, rentAmount, electricityAmount, account, entry, now)
  }

  /** First active contract of a tenant for a shop. */
  function ActiveContract(contracts: seq<Contract>, tenant: nat, shop: nat): (r: Option<nat>)
    ensures r.Some? ==> r.value < |contracts| && contracts[r.value].tenant == tenant && contracts[r.value].shop == shop
    ensures r.None? ==> forall c | c in contracts :: !(c.tenant == tenant && c.shop == shop && c.status == Active)
  {
    if contracts == [] then None
    else
      var earlier := ActiveContract(contracts[..|contracts| - 1], tenant, shop);
      var last := contracts[|contracts| - 1];
      if earlier.Some? then earlier
      else if last.tenant == tenant && last.shop == shop && last.status == Active then Some(|contracts| - 1)
      else None
  }

  function WithDeposit(b: Book, id: nat, left: real): Book
    requires id < |b.contracts|
  {
    b.(contracts := b.contracts[id := b.contracts[id].(depositRemaining := left)])
  }

  /** An electricity payment out of the security deposit of the tenant's active contract for the shop. */
  function PayElectricityFromDeposit(o: Office, tenant: nat, shop: nat, amount: real, bill: Option<nat>,
                                     entry: PaymentEntry): Result<Office> {
    match ActiveContract(o.rent.contracts, tenant, shop)
    case None => Err("no active contract")
    case Some(id) =>
      var deposit := o.rent.contracts[id].depositRemaining;
      match E.CreatePayment(o.electricity, tenant, shop, amount, bill, Some(deposit), entry)
      case Err(reason) => Err(reason)
      case Ok(electricity) => Ok(o.(electricity := electricity, rent := WithDeposit(o.rent, id, deposit - amount)))
  }

  // ---- the settlement ---------------------------------------------------------------------------

  function RentDue(o: Office, id: nat, now: real): real
    requires id < |o.rent.contracts|
  {
    OpenDebtDue(o.rent.contracts[id].charges, now)
  }

  function ElectricityDue(o: Office, id: nat): real
    requires id < |o.rent.contracts|
  {
    var c := o.rent.contracts[id];
    E.ShopDebt(o.electricity.bills, c.tenant, c.shop)
  }

  /** Why a settlement is refused, before anything is written. */
  function Refusal(o: Office, id: nat, how: Method, cash: real, account: Option<nat>, now: real): Option<string> {
    if id >= |o.rent.contracts| then Some("contract not found")
    else if id in o.settlements then Some("already settled")
    else if how == CASH && cash <= 0.0 then Some("cash amount is required")
    else if (how == WRITE_OFF || how == COLLATERAL) && cash > 0.0 then Some("this method takes no cash")
    else if cash > 0.0 && account.None? then Some("account is required")
    else if cash > 0.0 && account.value !in o.money.accounts then Some("account not found")
    else
      var total := RentDue(o, id, now) + ElectricityDue(o, id);
      if cash > total then Some("cash exceeds the debt")
      else if how == CASH && cash != total then Some("cash must cover the debt exactly")
      else None
  }

  /** Forgive what is still open, charges of future periods included, and record the settlement. */
  function CloseOut(o: Office, id: nat, row: SettlementRow, now: real): Office
    requires id < |o.rent.contracts|
  {
    var c := o.rent.contracts[id];
    o.(rent := WriteOffOpenCharges(o.rent, id, now),
       electricity := E.WriteOffOpenBillsForShop(o.electricity, c.tenant, c.shop),
       settlements := o.settlements[id := row])
  }

  /** The debts a settlement finds, as it records them. */
  function Found(rentDebt: real, electricityDebt: real, how: Method): SettlementRow {
    SettlementRow(rentDebt, electricityDebt, rentDebt + electricityDebt, how)
  }

  /** Cash goes to rent first, as far as rent is due; the rest of it to electricity. */
  function CashForRent(cash: real, row: SettlementRow): real { Min(cash, row.finalRentDebt) }

  function CashLeft(cash: real, row: SettlementRow): real { cash - CashForRent(cash, row) }

  /** Pay, close out and record, given the two debts found. */
  function SettleFor(o: Office, id: nat, cash: real, row: SettlementRow, into: nat, entry: PaymentEntry,
                     now: real): Result<Office>
    requires id < |o.rent.contracts|
  {
    match PayBoth(o, id, CashForRent(cash, row), CashLeft(cash, row), into, entry, now)
    case Err(reason) => Err(reason)
    case Ok(paid) => if id < |paid.rent.contracts| then Ok(CloseOut(paid, id, row, now)) else Err("contract not found")
  }

  function Settle(o: Office, id: nat, how: Method, cash: real, account: Option<nat>, entry: PaymentEntry,
                  now: real): Result<Office> {
    match Refusal(o, id, how, cash, account, now)
    case Some(reason) => Err(reason)
    case None =>
      SettleFor(o, id, cash, Found(RentDue(o, id, now), ElectricityDue(o, id), how), if account.Some? then account.value else 0, entry, now)
  }

  // ---- what a settlement does -------------------------------------------------------------------

  ghost predicate Inv(o: Office) { RR.Inv(o.rent) && ER.Inv(o.electricity) && L.Inv(o.money) }

  function PaidOn(cs: seq<Charge>): seq<real> { seq(|cs|, i requires 0 <= i < |cs| => cs[i].paid) }

  function ForgivenOn(cs: seq<Charge>): seq<real> { seq(|cs|, i requires 0 <= i < |cs| => cs[i].discount) }

  function BilledOn(bills: seq<E.Bill>): seq<real> { seq(|bills|, i requires 0 <= i < |bills| => bills[i].total) }

  function PaidOnBills(bills: seq<E.Bill>): seq<real> { seq(|bills|, i requires 0 <= i < |bills| => bills[i].paid) }

  function OwedOn(bills: seq<E.Bill>, tenant: nat, shop: nat): seq<real> {
    seq(|bills|, i requires 0 <= i < |bills| => E.OwedBy(bills[i], tenant, shop))
  }

  lemma {:induction false} SumsAdd(a: seq<real>, b: seq<real>, c: seq<real>, k: nat)
    requires |a| == |b| == |c| && k <= |a| && forall i | 0 <= i < |a| :: a[i] == b[i] + c[i]
    ensures Prefix(a, k) == Prefix(b, k) + Prefix(c, k)
  {
    if k > 0 {
      SumsAdd(a, b, c, k - 1);
    }
  }

  lemma {:induction false} ShopDebtIsSum(bills: seq<E.Bill>, tenant: nat, shop: nat, k: nat)
    requires k <= |bills|
    ensures E.ShopDebtUpTo(bills, tenant, shop, k) == Prefix(OwedOn(bills, tenant, shop), k)
  {
    if k > 0 {
      ShopDebtIsSum(bills, tenant, shop, k - 1);
    }
  }

  /** Charges that are due lie before any that is not, so what is due never reaches further. */
  lemma {:induction false} DueUpTo(cs: seq<Charge>, now: real, k: nat, j: nat)
    requires RR.Ordered(cs) && NonNegative(OpenAmounts(cs)) && k <= |cs| && j <= |cs|
    requires j < |cs| ==> !D.Due(cs[j], now)
    ensures D.ContractDue(cs[..k], now) <= Prefix(OpenAmounts(cs), if k <= j then k else j)
  {
    if k > 0 {
      DueUpTo(cs, now, k - 1, j);
      assert cs[..k][..k - 1] == cs[..k - 1];
      assert OpenAmounts(cs)[k - 1] == OpenAmount(cs[k - 1]) >= 0.0;
      if j < k - 1 {
        assert cs[j].periodStart < cs[k - 1].periodStart;
      }
    }
  }

  /** Cash for rent that is due is accepted in full and passes over every charge that is not due. */
  lemma CashStaysOnDueCharges(cs: seq<Charge>, amount: real, now: real)
    requires RR.Ordered(cs) && AllCoherent(cs) && amount <= OpenDebtDue(cs, now)
    ensures amount <= OpenDebt(cs)
    ensures forall j | 0 <= j < |cs| && !D.Due(cs[j], now) :: !Reached(cs, amount, j)
  {
    RR.OpenAmountsNonNegative(cs);
    assert cs[..|cs|] == cs;
    DueUpTo(cs, now, |cs|, |cs|);
    forall j | 0 <= j < |cs| && !D.Due(cs[j], now) ensures !Reached(cs, amount, j) {
      DueUpTo(cs, now, |cs|, j);
      RT.NothingSpent(OpenAmounts(cs));
    }
  }

  function PaidUp(cs: seq<Charge>, amount: real): seq<Charge> { if amount > 0.0 then Allocated(cs, amount) else cs }

  lemma ChargeIsPaidOrForgiven(cs: seq<Charge>, amount: real, i: nat)
    requires AllCoherent(cs) && amount >= 0.0 && i < |cs|
    ensures var after := WrittenOff(PaidUp(cs, amount))[i];
            && after.paid == cs[i].paid + Fifo.Share(OpenAmounts(cs), amount, i)
            && after.discount == cs[i].discount + Fifo.After(OpenAmounts(cs), amount)[i]
            && !Open(after)
  {
    assert Coherent(cs[i]);
    RR.OpenAmountsNonNegative(cs);
    RT.NothingSpent(OpenAmounts(cs));
    PrefixMonotone(OpenAmounts(cs), 0, i);
    assert Fifo.After(OpenAmounts(cs), 0.0)[i] == OpenAmount(cs[i]);
  }

  /** What is paid and what is forgiven on a contract, when an amount is paid and the rest written off. */
  lemma RentIsPaidOrForgiven(cs: seq<Charge>, amount: real)
    requires AllCoherent(cs) && 0.0 <= amount <= OpenDebt(cs)
    ensures var after := WrittenOff(PaidUp(cs, amount));
            && Sum(PaidOn(after)) == Sum(PaidOn(cs)) + amount
            && Sum(ForgivenOn(after)) == Sum(ForgivenOn(cs)) + (OpenDebt(cs) - amount)
            && forall c | c in after :: !Open(c)
  {
    var after := WrittenOff(PaidUp(cs, amount));
    var rs := OpenAmounts(cs);
    RR.OpenAmountsNonNegative(cs);
    Fifo.SharesAddUp(rs, amount);
    Fifo.AfterUpTo(rs, amount, |rs|);
    forall i | 0 <= i < |cs|
      ensures PaidOn(after)[i] == PaidOn(cs)[i] + Fifo.Shares(rs, amount)[i]
      ensures ForgivenOn(after)[i] == ForgivenOn(cs)[i] + Fifo.After(rs, amount)[i]
      ensures !Open(after[i])
    {
      ChargeIsPaidOrForgiven(cs, amount, i);
    }
    SumsAdd(PaidOn(after), PaidOn(cs), Fifo.Shares(rs, amount), |cs|);
    SumsAdd(ForgivenOn(after), ForgivenOn(cs), Fifo.After(rs, amount), |cs|);
  }

  // ---- the electricity side ---------------------------------------------------------------------

  function AllocatedToEach(rows: seq<E.Allocation>, n: nat): seq<real> {
    seq(n, i requires 0 <= i < n => ER.AllocatedTo(rows, i))
  }

  lemma {:induction false} Bump(a: seq<real>, b: seq<real>, i: nat, x: real, k: nat)
    requires i < |a| == |b| && k <= |a| && b == a[i := a[i] + x]
    ensures Prefix(b, k) == Prefix(a, k) + (if i < k then x else 0.0)
  {
    if k > 0 {
      Bump(a, b, i, x, k - 1);
    }
  }

  lemma {:induction false} ZeroSum(rs: seq<real>, k: nat)
    requires k <= |rs| && forall i | 0 <= i < |rs| :: rs[i] == 0.0
    ensures Prefix(rs, k) == 0.0
  {
    if k > 0 {
      ZeroSum(rs, k - 1);
    }
  }

  /** Summed over the bills, the rows of a payment are the payment. */
  lemma {:induction false} RowsOverBills(rows: seq<E.Allocation>, payment: nat, n: nat)
    requires forall r | r in rows :: r.payment == payment && r.bill < n
    ensures Sum(AllocatedToEach(rows, n)) == ER.AllocatedOf(rows, payment)
  {
    if rows == [] {
      ZeroSum(AllocatedToEach(rows, n), n);
    } else {
      var init, last := rows[..|rows| - 1], rows[|rows| - 1];
      assert forall r | r in init :: r in rows;
      assert last in rows;
      RowsOverBills(init, payment, n);
      assert AllocatedToEach(rows, n) == AllocatedToEach(init, n)[last.bill := AllocatedToEach(init, n)[last.bill] + last.amount];
      Bump(AllocatedToEach(init, n), AllocatedToEach(rows, n), last.bill, last.amount, n);
    }
  }

  function BillsPaidUp(bills: seq<E.Bill>, tenant: nat, shop: nat, amount: real): seq<E.Bill> {
    if amount > 0.0 then E.Allocated(bills, tenant, shop, amount) else bills
  }

  /** What each bill of the shop receives when an amount is paid. */
  lemma BillsReceive(t: E.Tables, tenant: nat, shop: nat, amount: real) returns (moved: seq<real>)
    requires ER.BillsOk(t) && 0.0 <= amount <= E.ShopDebt(t.bills, tenant, shop)
    ensures |moved| == |t.bills| && Sum(moved) == amount
    ensures var paid := BillsPaidUp(t.bills, tenant, shop, amount);
            forall i | 0 <= i < |t.bills| ::
              && paid[i].paid == t.bills[i].paid + moved[i] && paid[i].total == t.bills[i].total
              && E.OwedBy(t.bills[i], tenant, shop) == E.OwedBy(paid[i], tenant, shop) + moved[i]
  {
    if amount == 0.0 {
      moved := seq(|t.bills|, i => 0.0);
      ZeroSum(moved, |moved|);
    } else {
      var n := |t.payments|;
      var rows := E.AllocationRows(t.bills, tenant, shop, amount, n, E.Queue(t.bills, tenant, shop));
      ER.RowsOfWholePayment(t, tenant, shop, amount);
      RowsOverBills(rows, n, |t.bills|);
      moved := AllocatedToEach(rows, |t.bills|);
      var paid := E.Allocated(t.bills, tenant, shop, amount);
      forall i | 0 <= i < |t.bills|
        ensures paid[i].paid == t.bills[i].paid + moved[i] && paid[i].total == t.bills[i].total
        ensures E.OwedBy(t.bills[i], tenant, shop) == E.OwedBy(paid[i], tenant, shop) + moved[i]
      {
        assert ER.BillOk(t.bills[i]);
      }
    }
  }

  /** What is paid and what is forgiven on the bills, when an amount is paid for a shop and the rest
      of the shop's bills is written off. */
  lemma BillsArePaidOrForgiven(t: E.Tables, tenant: nat, shop: nat, amount: real)
    requires ER.BillsOk(t) && 0.0 <= amount <= E.ShopDebt(t.bills, tenant, shop)
    ensures var paid := BillsPaidUp(t.bills, tenant, shop, amount);
            var after := E.WrittenOff(paid, tenant, shop);
            && Sum(PaidOnBills(after)) == Sum(PaidOnBills(t.bills)) + amount
            && Sum(BilledOn(after)) == Sum(BilledOn(t.bills)) - (E.ShopDebt(t.bills, tenant, shop) - amount)
            && forall b | b in after :: !E.Owes(b, tenant, shop)
  {
    var paid := BillsPaidUp(t.bills, tenant, shop, amount);
    var after := E.WrittenOff(paid, tenant, shop);
    var n := |t.bills|;
    var moved := BillsReceive(t, tenant, shop, amount);
    SumsAdd(PaidOnBills(after), PaidOnBills(t.bills), moved, n);
    SumsAdd(OwedOn(t.bills, tenant, shop), OwedOn(paid, tenant, shop), moved, n);
    ShopDebtIsSum(t.bills, tenant, shop, n);
    forall i | 0 <= i < n
      ensures BilledOn(t.bills)[i] == BilledOn(after)[i] + OwedOn(paid, tenant, shop)[i]
    {
      assert ER.BillOk(t.bills[i]);
    }
    SumsAdd(BilledOn(t.bills), BilledOn(after), OwedOn(paid, tenant, shop), n);
  }

  // ---- the whole settlement ---------------------------------------------------------------------

  lemma DueIsOpen(o: Office, id: nat, now: real)
    requires Inv(o) && id < |o.rent.contracts|
    ensures 0.0 <= RentDue(o, id, now) <= OpenDebt(o.rent.contracts[id].charges)
    ensures 0.0 <= ElectricityDue(o, id)
  {
    var c := o.rent.contracts[id];
    assert RR.ContractOk(c);
    RT.CoherentBooksAreSane(o.rent);
    D.ContractOverdueIsDue(c.charges, now);
    CashStaysOnDueCharges(c.charges, RentDue(o, id, now), now);
    ER.QueueAmounts(o.electricity.bills, c.tenant, c.shop);
    PrefixMonotone(ER.Remainings(o.electricity.bills, E.Queue(o.electricity.bills, c.tenant, c.shop)), 0,
                   |E.Queue(o.electricity.bills, c.tenant, c.shop)|);
  }

  /** The cash of a settlement that is not refused, split between rent and electricity. */
  lemma SplitFits(o: Office, id: nat, how: Method, cash: real, account: Option<nat>, now: real)
    requires Inv(o) && cash >= 0.0 && Refusal(o, id, how, cash, account, now).None?
    ensures id < |o.rent.contracts|
    ensures var forRent := Min(cash, RentDue(o, id, now));
            && 0.0 <= forRent <= OpenDebt(o.rent.contracts[id].charges)
            && 0.0 <= cash - forRent <= ElectricityDue(o, id)
  {
    DueIsOpen(o, id, now);
  }

  /** When its two parts fit what is open, only the date and the rate of the cash can stop a settlement. */
  lemma FittingCashIsAccepted(o: Office, id: nat, how: Method, cash: real, account: Option<nat>, entry: PaymentEntry, now: real)
    requires Refusal(o, id, how, cash, account, now).None? && cash >= 0.0 && id < |o.rent.contracts|
    requires var forRent := Min(cash, RentDue(o, id, now));
             forRent <= OpenDebt(o.rent.contracts[id].charges) && cash - forRent <= ElectricityDue(o, id)
    requires RentDue(o, id, now) >= 0.0
    ensures Settle(o, id, how, cash, account, entry, now).Ok? <==> (cash > 0.0 ==> Accepted(entry))
  {
  }

  /** A settlement goes through exactly when it is not refused up front and, if it brings cash, the date
      and the exchange rate of that cash are accepted: neither of the two payments inside it can exceed
      what is open. */
  lemma SettlementGoesThrough(o: Office, id: nat, how: Method, cash: real, account: Option<nat>, entry: PaymentEntry, now: real)
    requires Inv(o) && cash >= 0.0
    ensures Settle(o, id, how, cash, account, entry, now).Ok?
            <==> Refusal(o, id, how, cash, account, now).None? && (cash > 0.0 ==> Accepted(entry))
  {
    if Refusal(o, id, how, cash, account, now).None? {
      SplitFits(o, id, how, cash, account, now);
      DueIsOpen(o, id, now);
      FittingCashIsAccepted(o, id, how, cash, account, entry, now);
    }
  }

  lemma PayRentKeeps(o: Office, id: nat, amount: real, account: nat, entry: PaymentEntry, now: real)
    requires Inv(o) && amount >= 0.0 && PayRentIfAny(o, id, amount, account, entry, now).Ok?
    ensures Inv(PayRentIfAny(o, id, amount, account, entry, now).value)
  {
    if amount > 0.0 {
      RR.PayKeeps(o.rent, id, amount, false, entry, now);
      LR.ReceiveKeeps(o.money, account, amount, L.RentPayment(o.money.nextId), now);
    }
  }

  lemma PayElectricityKeeps(o: Office, tenant: nat, shop: nat, amount: real, account: nat, entry: PaymentEntry,
                            now: real)
    requires Inv(o) && amount >= 0.0 && PayElectricityIfAny(o, tenant, shop, amount, account, entry, now).Ok?
    ensures Inv(PayElectricityIfAny(o, tenant, shop, amount, account, entry, now).value)
  {
    if amount > 0.0 {
      ER.PaymentKeeps(o.electricity, tenant, shop, amount, None, None, entry);
      LR.ReceiveKeeps(o.money, account, amount, L.ElectricityPayment(o.money.nextId), now);
    }
  }

  lemma PayBothKeeps(o: Office, id: nat, rentAmount: real, electricityAmount: real, account: nat, entry: PaymentEntry,
                     now: real)
    requires Inv(o) && rentAmount >= 0.0 && electricityAmount >= 0.0 && id < |o.rent.contracts|
    requires PayBoth(o, id, rentAmount, electricityAmount, account, entry, now).Ok?
    ensures Inv(PayBoth(o, id, rentAmount, electricityAmount, account, entry, now).value)
  {
    var c := o.rent.contracts[id];
    PayRentKeeps(o, id, rentAmount, account, entry, now);
    var paid := PayRentIfAny(o, id, rentAmount, account, entry, now).value;
    PayElectricityKeeps(paid, c.tenant, c.shop, electricityAmount, account, entry, now);
  }

  /** Paying rent and electricity together keeps all three sets of books. */
  lemma PayDebtKeeps(o: Office, id: nat, rentAmount: real, electricityAmount: real, account: nat, entry: PaymentEntry,
                     now: real)
    requires Inv(o) && rentAmount >= 0.0 && electricityAmount >= 0.0
    requires PayDebt(o, id, rentAmount, electricityAmount, account, entry, now).Ok?
    ensures Inv(PayDebt(o, id, rentAmount, electricityAmount, account, entry, now).value)
  {
    PayBothKeeps(o, id, rentAmount, electricityAmount, account, entry, now);
  }

  lemma DepositKeeps(b: Book, id: nat, left: real)
    requires RR.Inv(b) && id < |b.contracts| && left >= 0.0
    ensures RR.Inv(WithDeposit(b, id, left))
  {
    var c := b.contracts[id];
    assert RR.ContractOk(c);
    var after := RR.ReplaceContract(b, id, c.(depositRemaining := left), b.debts);
  }

  lemma DepositCoversPayment(t: E.Tables, tenant: nat, shop: nat, amount: real, bill: Option<nat>, deposit: real,
                             entry: PaymentEntry, after: E.Tables)
    requires ER.Inv(t) && amount > 0.0 && E.CreatePayment(t, tenant, shop, amount, bill, Some(deposit), entry) == Ok(after)
    ensures amount <= deposit && ER.Inv(after)
  {
    ER.PaymentKeeps(t, tenant, shop, amount, bill, Some(deposit), entry);
  }

  /** What a payment out of the deposit writes. */
  lemma DepositPaymentIs(o: Office, tenant: nat, shop: nat, amount: real, bill: Option<nat>, entry: PaymentEntry)
    returns (id: nat, deposit: real, electricity: E.Tables)
    requires PayElectricityFromDeposit(o, tenant, shop, amount, bill, entry).Ok?
    ensures id < |o.rent.contracts| && deposit == o.rent.contracts[id].depositRemaining
    ensures o.rent.contracts[id].tenant == tenant && o.rent.contracts[id].shop == shop
    ensures E.CreatePayment(o.electricity, tenant, shop, amount, bill, Some(deposit), entry) == Ok(electricity)
    ensures PayElectricityFromDeposit(o, tenant, shop, amount, bill, entry)
         == Ok(o.(electricity := electricity, rent := WithDeposit(o.rent, id, deposit - amount)))
  {
    id := ActiveContract(o.rent.contracts, tenant, shop).value;
    deposit := o.rent.contracts[id].depositRemaining;
    electricity := E.CreatePayment(o.electricity, tenant, shop, amount, bill, Some(deposit), entry).value;
  }

  /** The bills and the deposit a payment out of the deposit finds: the deposit covers it. */
  lemma DepositPaysBills(o: Office, tenant: nat, shop: nat, amount: real, bill: Option<nat>, entry: PaymentEntry)
    returns (id: nat, deposit: real, electricity: E.Tables)
    requires ER.Inv(o.electricity) && amount > 0.0 && PayElectricityFromDeposit(o, tenant, shop, amount, bill, entry).Ok?
    ensures id < |o.rent.contracts| && deposit == o.rent.contracts[id].depositRemaining >= amount
    ensures o.rent.contracts[id].tenant == tenant && o.rent.contracts[id].shop == shop && ER.Inv(electricity)
    ensures PayElectricityFromDeposit(o, tenant, shop, amount, bill, entry)
         == Ok(o.(electricity := electricity, rent := WithDeposit(o.rent, id, deposit - amount)))
  {
    id, deposit, electricity := DepositPaymentIs(o, tenant, shop, amount, bill, entry);
    DepositCoversPayment(o.electricity, tenant, shop, amount, bill, deposit, entry, electricity);
  }

  lemma PartsKeep(o: Office, rent: Book, electricity: E.Tables)
    requires Inv(o) && RR.Inv(rent) && ER.Inv(electricity)
    ensures Inv(o.(electricity := electricity, rent := rent))
  {
  }

  /** A payment out of the deposit keeps all three sets of books, takes exactly its amount off the deposit
      of one contract of the tenant for the shop, without overdrawing it, and moves no money and no rent. */
  lemma DepositPaymentKeeps(o: Office, tenant: nat, shop: nat, amount: real, bill: Option<nat>, entry: PaymentEntry)
    returns (id: nat, deposit: real, electricity: E.Tables, after: Office)
    requires Inv(o) && amount > 0.0 && PayElectricityFromDeposit(o, tenant, shop, amount, bill, entry).Ok?
    ensures PayElectricityFromDeposit(o, tenant, shop, amount, bill, entry) == Ok(after) && Inv(after)
    ensures id < |o.rent.contracts| && o.rent.contracts[id].tenant == tenant && o.rent.contracts[id].shop == shop
    ensures deposit == o.rent.contracts[id].depositRemaining >= amount
    ensures after == o.(electricity := electricity, rent := WithDeposit(o.rent, id, deposit - amount))
  {
    id, deposit, electricity := DepositPaysBills(o, tenant, shop, amount, bill, entry);
    var rent := WithDeposit(o.rent, id, deposit - amount);
    DepositKeeps(o.rent, id, deposit - amount);
    PartsKeep(o, rent, electricity);
    after := o.(electricity := electricity, rent := rent);
  }

  /** The debts a settlement finds and the account its cash goes into. */
  lemma SettleIsFor(o: Office, id: nat, how: Method, cash: real, account: Option<nat>, entry: PaymentEntry, now: real)
    returns (into: nat, row: SettlementRow)
    requires Settle(o, id, how, cash, account, entry, now).Ok?
    ensures Refusal(o, id, how, cash, account, now).None?
    ensures id < |o.rent.contracts| && (cash > 0.0 ==> account == Some(into)) && row.finalRentDebt == RentDue(o, id, now)
    ensures Settle(o, id, how, cash, account, entry, now) == SettleFor(o, id, cash, row, into, entry, now)
  {
    row := Found(RentDue(o, id, now), ElectricityDue(o, id), how);
    into := if account.Some? then account.value else 0;
  }

  lemma CloseOutKeeps(o: Office, id: nat, row: SettlementRow, now: real)
    requires Inv(o) && id < |o.rent.contracts|
    ensures Inv(CloseOut(o, id, row, now))
  {
    var c := o.rent.contracts[id];
    RR.WriteOffKeeps(o.rent, id, now);
    ER.WriteOffKeeps(o.electricity, c.tenant, c.shop);
  }

  lemma SettleForKeeps(o: Office, id: nat, cash: real, row: SettlementRow, into: nat, entry: PaymentEntry, now: real)
    requires Inv(o) && id < |o.rent.contracts| && SettleFor(o, id, cash, row, into, entry, now).Ok?
    requires 0.0 <= CashForRent(cash, row) <= cash
    ensures Inv(SettleFor(o, id, cash, row, into, entry, now).value)
  {
    PayBothKeeps(o, id, CashForRent(cash, row), CashLeft(cash, row), into, entry, now);
    CloseOutKeeps(PayBoth(o, id, CashForRent(cash, row), CashLeft(cash, row), into, entry, now).value, id, row, now);
  }

  /** All three sets of books stay sound through a settlement. */
  lemma SettlementKeeps(o: Office, id: nat, how: Method, cash: real, account: Option<nat>, entry: PaymentEntry,
                        now: real)
    requires Inv(o) && cash >= 0.0 && Settle(o, id, how, cash, account, entry, now).Ok?
    ensures Inv(Settle(o, id, how, cash, account, entry, now).value)
  {
    var into, row := SettleIsFor(o, id, how, cash, account, entry, now);
    SplitFits(o, id, how, cash, account, now);
    SettleForKeeps(o, id, cash, row, into, entry, now);
  }

  /** Balances after `amount` came in on `account`. */
  ghost predicate Grown(before: L.Books, after: L.Books, account: nat, amount: real) {
    forall a | a in before.accounts ::
      && a in after.accounts
      && after.accounts[a].balance == before.accounts[a].balance + (if a == account then amount else 0.0)
  }

  lemma PayRentTables(o: Office, id: nat, amount: real, account: nat, entry: PaymentEntry, now: real)
    requires id < |o.rent.contracts| && amount >= 0.0 && PayRentIfAny(o, id, amount, account, entry, now).Ok?
    ensures var o' := PayRentIfAny(o, id, amount, account, entry, now).value;
            var c := o.rent.contracts[id];
            && |o'.rent.contracts| == |o.rent.contracts| && o'.electricity == o.electricity
            && o'.rent.contracts[id] == c.(charges := PaidUp(c.charges, amount))
            && Grown(o.money, o'.money, account, amount)
  {
  }

  lemma PayElectricityTables(o: Office, tenant: nat, shop: nat, amount: real, account: nat, entry: PaymentEntry,
                             now: real)
    requires amount >= 0.0 && PayElectricityIfAny(o, tenant, shop, amount, account, entry, now).Ok?
    ensures var o' := PayElectricityIfAny(o, tenant, shop, amount, account, entry, now).value;
            && o'.rent == o.rent && o'.electricity.bills == BillsPaidUp(o.electricity.bills, tenant, shop, amount)
            && Grown(o.money, o'.money, account, amount)
  {
  }

  lemma CloseOutTables(o: Office, id: nat, row: SettlementRow, now: real)
    requires id < |o.rent.contracts|
    ensures var o', c := CloseOut(o, id, row, now), o.rent.contracts[id];
            && |o'.rent.contracts| == |o.rent.contracts| && o'.money == o.money
            && o'.rent.contracts[id].charges == WrittenOff(c.charges)
            && o'.electricity.bills == E.WrittenOff(o.electricity.bills, c.tenant, c.shop)
  {
  }

  lemma GrownTwice(a: L.Books, b: L.Books, c: L.Books, account: nat, x: real, y: real, total: real)
    requires Grown(a, b, account, x) && Grown(b, c, account, y) && total == x + y
    ensures Grown(a, c, account, total)
  {
  }

  /** The tables after the two payments and the close. */
  ghost predicate Closed(o: Office, o': Office, id: nat, forRent: real, forElectricity: real, cash: real, into: nat)
    requires id < |o.rent.contracts|
  {
    var c := o.rent.contracts[id];
    && |o'.rent.contracts| == |o.rent.contracts|
    && o'.rent.contracts[id].charges == WrittenOff(PaidUp(c.charges, forRent))
    && o'.electricity.bills
       == E.WrittenOff(BillsPaidUp(o.electricity.bills, c.tenant, c.shop, forElectricity), c.tenant, c.shop)
    && Grown(o.money, o'.money, into, cash)
  }

  lemma SettleForCloses(o: Office, after: Office, id: nat, cash: real, row: SettlementRow, into: nat,
                        entry: PaymentEntry, now: real)
    requires id < |o.rent.contracts| && SettleFor(o, id, cash, row, into, entry, now) == Ok(after)
    requires 0.0 <= CashForRent(cash, row) <= cash
    ensures Closed(o, after, id, CashForRent(cash, row), CashLeft(cash, row), cash, into)
  {
    var c, forRent, left := o.rent.contracts[id], CashForRent(cash, row), CashLeft(cash, row);
    var first := PayRentIfAny(o, id, forRent, into, entry, now).value;
    var paid := PayBoth(o, id, forRent, left, into, entry, now).value;
    PayRentTables(o, id, forRent, into, entry, now);
    PayElectricityTables(first, c.tenant, c.shop, left, into, entry, now);
    CloseOutTables(paid, id, row, now);
    GrownTwice(o.money, first.money, paid.money, into, forRent, left, cash);
  }

  /** What `after` was paid and forgiven over `before`, on one contract. */
  ghost predicate RentSettled(before: seq<Charge>, after: seq<Charge>, paid: real, forgiven: real, now: real) {
    && |after| == |before|
    && (forall c | c in after :: !Open(c))
    && (forall i | 0 <= i < |before| && !D.Due(before[i], now) :: after[i].paid == before[i].paid)
    && Sum(PaidOn(after)) == Sum(PaidOn(before)) + paid
    && Sum(ForgivenOn(after)) == Sum(ForgivenOn(before)) + forgiven
  }

  ghost predicate BillsSettled(before: seq<E.Bill>, after: seq<E.Bill>, tenant: nat, shop: nat, paid: real,
                               forgiven: real) {
    && (forall b | b in after :: !E.Owes(b, tenant, shop))
    && Sum(PaidOnBills(after)) == Sum(PaidOnBills(before)) + paid
    && Sum(BilledOn(after)) == Sum(BilledOn(before)) - forgiven
  }

  /** Nothing is open any more, neither on the contract nor for its shop. `forRent` of the cash went to
      the contract, none of it to a charge whose period starts after `now`; `left` of it went to bills.
      Cash and what was forgiven make up all that was open, future charges included, and the account
      has grown by exactly the cash. */
  ghost predicate Settled(o: Office, o': Office, id: nat, cash: real, into: nat, forRent: real, left: real, now: real)
    requires id < |o.rent.contracts|
  {
    var c := o.rent.contracts[id];
    var forgivenRent, forgivenElectricity := OpenDebt(c.charges) - forRent, ElectricityDue(o, id) - left;
    && forRent + left == cash
    && |o'.rent.contracts| == |o.rent.contracts|
    && forgivenRent >= 0.0 && forgivenElectricity >= 0.0
    && RentSettled(c.charges, o'.rent.contracts[id].charges, forRent, forgivenRent, now)
    && BillsSettled(o.electricity.bills, o'.electricity.bills, c.tenant, c.shop, left, forgivenElectricity)
    && Grown(o.money, o'.money, into, cash)
  }

  lemma ClosedIsSettled(o: Office, o': Office, id: nat, cash: real, forRent: real, left: real, into: nat, now: real)
    requires Inv(o) && id < |o.rent.contracts| && Closed(o, o', id, forRent, left, cash, into)
    requires 0.0 <= forRent <= RentDue(o, id, now) && 0.0 <= left <= ElectricityDue(o, id) && forRent + left == cash
    ensures Settled(o, o', id, cash, into, forRent, left, now)
  {
    var c := o.rent.contracts[id];
    assert RR.ContractOk(c);
    CashStaysOnDueCharges(c.charges, forRent, now);
    RentIsPaidOrForgiven(c.charges, forRent);
    BillsArePaidOrForgiven(o.electricity, c.tenant, c.shop, left);
  }

  /** What every settlement that goes through does, with its cash first to rent that is due. */
  lemma SettlementSettles(o: Office, id: nat, how: Method, cash: real, account: Option<nat>, entry: PaymentEntry,
                          now: real)
    returns (into: nat, forRent: real, left: real, after: Office)
    requires Inv(o) && cash >= 0.0 && Settle(o, id, how, cash, account, entry, now).Ok?
    ensures Settle(o, id, how, cash, account, entry, now) == Ok(after)
    ensures id < |o.rent.contracts| && (cash > 0.0 ==> account == Some(into)) && forRent == Min(cash, RentDue(o, id, now))
    ensures Settled(o, after, id, cash, into, forRent, left, now)
  {
    var row;
    into, row := SettleIsFor(o, id, how, cash, account, entry, now);
    SplitFits(o, id, how, cash, account, now);
    forRent, left := CashForRent(cash, row), CashLeft(cash, row);
    after := SettleFor(o, id, cash, row, into, entry, now).value;
    SettleForCloses(o, after, id, cash, row, into, entry, now);
    ClosedIsSettled(o, after, id, cash, forRent, left, into, now);
  }
}
