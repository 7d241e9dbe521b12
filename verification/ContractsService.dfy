/** The contract life cycle as it runs: over the rent tables alone, and for settlements and combined
    payments over the rent, electricity and money engines together. Every method is proved against its
    function in RentOps or Settlement. */
module ContractsService {
  import opened Basics
  import opened RentCharges
  import opened ChargeGeneration
  import opened RentTables
  import RentDebts
  import Ops = RentOps
  import RR = RentRuns
  import RS = RentService
  import ES = ElectricityService
  import MS = MoneyService
  import E = Electricity
  import ER = ElectricityRuns
  import L = Ledger
  import S = Settlement

  ghost predicate Outcome(spec: Result<S.Office>, before: S.Office, after: S.Office, error: Option<string>) {
    match spec
    case Ok(o) => error == None && after == o
    case Err(reason) => error == Some(reason) && after == before
  }

  lemma FreshChargeAsksNothingNegative(c: Charge, rent: real)
    requires BillsOnePeriod(c, rent) && rent >= 0.0
    ensures Open(c) && OpenAmount(c) >= 0.0
  {
    RateIsNonNegative(rent, c);
    ER.NonNegativeProduct(c.dailyRate, c.days as real);
  }

  lemma RateIsNonNegative(rent: real, c: Charge)
    requires BillsOnePeriod(c, rent) && rent >= 0.0
    ensures c.dailyRate >= 0.0
  {
  }

  lemma FreshChargesAskNothingNegative(start: int, end: int, rent: real)
    requires start < end && rent >= 0.0
    ensures NonNegative(Ops.OpenAmounts(Charges(start, end, rent)))
  {
    GeneratedChargesTile(start, end, rent);
    var cs := Charges(start, end, rent);
    forall i | 0 <= i < |cs| ensures OpenAmount(cs[i]) >= 0.0 {
      FreshChargeAsksNothingNegative(cs[i], rent);
    }
  }

  lemma TerminatedAsksNothingNegative(cs: seq<Charge>, day: int, prorate: bool)
    requires NonNegative(Ops.OpenAmounts(cs))
    ensures NonNegative(Ops.OpenAmounts(Ops.Terminated(cs, day, prorate)))
  {
    var ds := Ops.Terminated(cs, day, prorate);
    forall i | 0 <= i < |ds| ensures Ops.OpenAmounts(ds)[i] >= 0.0 {
      assert Ops.OpenAmounts(cs)[i] >= 0.0;
    }
  }

  lemma {:induction false} DueIsNonNegative(cs: seq<Charge>, now: real)
    requires NonNegative(Ops.OpenAmounts(cs))
    ensures Ops.OpenDebtDue(cs, now) >= 0.0
  {
    if cs != [] {
      var init := cs[..|cs| - 1];
      assert forall i | 0 <= i < |init| :: Ops.OpenAmounts(init)[i] == Ops.OpenAmounts(cs)[i];
      DueIsNonNegative(init, now);
      assert Ops.OpenAmounts(cs)[|cs| - 1] >= 0.0;
    }
  }

  lemma StillThere(o: S.Office, id: nat, rentAmount: real, electricityAmount: real, into: nat, entry: PaymentEntry,
                   now: real)
    requires id < |o.rent.contracts|
    ensures var r := S.PayBoth(o, id, rentAmount, electricityAmount, into, entry, now);
            r.Ok? ==> |r.value.rent.contracts| == |o.rent.contracts|
  {
  }

  /** Sound rent, electricity and money books stay sound, all three. */
  ghost predicate Kept(before: S.Office, after: S.Office) { S.Inv(before) ==> S.Inv(after) }

  lemma PayingDebtKeeps(before: S.Office, id: nat, rentAmount: real, electricityAmount: real, account: nat,
                        entry: PaymentEntry, now: real,
                        after: S.Office, error: Option<string>)
    requires Outcome(S.PayDebt(before, id, rentAmount, electricityAmount, account, entry, now), before, after, error)
    ensures rentAmount >= 0.0 && electricityAmount >= 0.0 ==> Kept(before, after)
  {
    if S.Inv(before) && rentAmount >= 0.0 && electricityAmount >= 0.0 && error.None? {
      S.PayDebtKeeps(before, id, rentAmount, electricityAmount, account, entry, now);
    }
  }

  lemma DrawingKeeps(before: S.Office, tenant: nat, shop: nat, amount: real, bill: Option<nat>, entry: PaymentEntry,
                     after: S.Office, error: Option<string>)
    requires Outcome(S.PayElectricityFromDeposit(before, tenant, shop, amount, bill, entry), before, after, error) && amount > 0.0
    ensures Kept(before, after)
  {
    if S.Inv(before) && error.None? {
      var id, deposit, electricity, o := S.DepositPaymentKeeps(before, tenant, shop, amount, bill, entry);
    }
  }

  lemma SettlingKeeps(before: S.Office, id: nat, how: S.Method, cash: real, account: Option<nat>, entry: PaymentEntry,
                      now: real,
                      after: S.Office, error: Option<string>)
    requires Outcome(S.Settle(before, id, how, cash, account, entry, now), before, after, error) && cash >= 0.0
    ensures Kept(before, after)
  {
    if S.Inv(before) && error.None? { S.SettlementKeeps(before, id, how, cash, account, entry, now); }
  }

  class ContractsService {
    const rent: RS.RentService
    const electricity: ES.ElectricityService
    const money: MS.MoneyService
    var settlements: map<nat, S.SettlementRow>

    constructor (rent: RS.RentService, electricity: ES.ElectricityService, money: MS.MoneyService)
      ensures this.rent == rent && this.electricity == electricity && this.money == money && settlements == map[]
    {
      this.rent, this.electricity, this.money, settlements := rent, electricity, money, map[];
    }

    ghost function State(): S.Office
      reads this, rent, electricity, money
    {
      S.Office(rent.State(), electricity.State(), money.State(), settlements)
    }

    ghost predicate Valid()
      reads this, rent, electricity
    {
      rent.Valid() && electricity.Valid()
    }

    // ---- the life cycle -------------------------------------------------------------------------

    /** Write a contract with all its charges, and the debt row that follows from them. */
    method Draw(c: Contract, now: real)
      requires rent.Valid() && c.rent >= 0.0 && c.startDate < c.endDate && c.charges == Charges(c.startDate, c.endDate, c.rent)
      modifies rent
      ensures rent.State() == Ops.Drawn(old(rent.State()), c, now) && rent.Valid()
    {
      rent.contracts := rent.contracts + [c];
      FreshChargesAskNothingNegative(c.startDate, c.endDate, c.rent);
      rent.RecomputeRentDebt(c.tenant, now);
    }

    /** Sign a contract: its charges are generated at once, the debt row follows, and rent that was
        paid before the books were taken over is recorded as one opening payment. */
    method Create(tenant: nat, shop: nat, currency: nat, start: int, end: int, rentPerMonth: real, deposit: real,
                  openingPaid: Option<real>, rateKnown: bool, now: real) returns (error: Option<string>)
      requires rent.Valid() && rentPerMonth > 0.0 && deposit >= 0.0 && (openingPaid.Some? ==> openingPaid.value > 0.0)
      modifies rent
      ensures RS.Outcome(Ops.CreateContract(old(rent.State()), tenant, shop, currency, start, end, rentPerMonth, deposit,
                                            openingPaid, rateKnown, now), old(rent.State()), rent.State(), error)
      ensures rent.Valid()
      ensures RS.Kept(old(rent.State()), rent.State())
    {
      if end <= start { return Some("end is not after start"); }
      if exists c | c in rent.contracts :: Ops.OccupiesShop(c, shop) { return Some("shop already has an active contract"); }
      var saved, savedDebts := rent.contracts, rent.debts;
      var status := if start as real <= now then Active else Draft;
      var charges := GenerateCharges(start, end, rentPerMonth);
      Draw(Contract(tenant, shop, currency, start, end, rentPerMonth, status, deposit, None, charges), now);
      error := None;
      if openingPaid.Some? {
        error := rent.RecordPayment(|saved|, openingPaid.value, false, PaymentEntry(false, rateKnown), now);
        if error.Some? {
          rent.contracts, rent.debts := saved, savedDebts;
        }
      }
      RS.OperationKeeps(old(rent.State()), RR.OpCreate(tenant, shop, currency, start, end, rentPerMonth, deposit,
                                                                 openingPaid, rateKnown, now), rent.State(), error);
    }

    /** Cut the spanning charge short, cancel what starts later, end the contract on the day. */
    method Terminate(id: nat, day: int, prorate: bool, now: real) returns (error: Option<string>)
      requires rent.Valid()
      modifies rent
      ensures RS.Outcome(Ops.Terminate(old(rent.State()), id, day, prorate, now), old(rent.State()), rent.State(), error)
      ensures rent.Valid()
      ensures RS.Kept(old(rent.State()), rent.State()) && RS.Refreshed(old(rent.State()), rent.State(), id, now, error)
    {
      if id >= |rent.contracts| { return Some("contract not found"); }
      var c := rent.contracts[id];
      if c.status != Active && c.status != Suspended { return Some("contract is not active"); }
      var cs := c.charges;
      if prorate {
        var spanning := Ops.FirstSpanning(cs, day, 0);
        if spanning.Some? && spanning.value < |cs| {
          cs := cs[spanning.value := Prorate(cs[spanning.value], day)];
        }
      }
      ghost var cut := cs;
      ghost var target := Ops.CancelFrom(cut, day);
      for i := 0 to |cs|
        invariant |cs| == |cut|
        invariant forall j | 0 <= j < |cs| :: cs[j] == if j < i then target[j] else cut[j]
      {
        if cs[i].periodStart >= day && Open(cs[i]) {
          cs := cs[i := Cancel(cs[i])];
        }
      }
      assert cut == Ops.CutShort(c.charges, day, prorate);
      assert cs == Ops.Terminated(c.charges, day, prorate);
      TerminatedAsksNothingNegative(c.charges, day, prorate);
      rent.contracts := rent.contracts[id := c.(charges := cs, status := EarlyTerminated, endDate := day)];
      rent.RecomputeRentDebt(c.tenant, now);
      error := None;
      RS.OperationKeeps(old(rent.State()), RR.OpTerminate(id, day, prorate, now), rent.State(), error);
      RS.OperationRefreshes(old(rent.State()), RR.OpTerminate(id, day, prorate, now), id, rent.State(), error);
    }

    /** Cancel a contract that has not started. */
    method CancelDraft(id: nat) returns (error: Option<string>)
      requires rent.Valid()
      modifies rent
      ensures RS.Outcome(Ops.CancelDraft(old(rent.State()), id), old(rent.State()), rent.State(), error)
      ensures rent.Valid()
      ensures RS.Kept(old(rent.State()), rent.State())
    {
      if id >= |rent.contracts| { return Some("contract not found"); }
      var c := rent.contracts[id];
      if c.status != Draft { return Some("contract has started"); }
      var cs := c.charges;
      for i := 0 to |cs|
        invariant |cs| == |c.charges|
        invariant forall j | 0 <= j < |cs| :: cs[j] == if j < i then Ops.AllCanceled(c.charges)[j] else c.charges[j]
      {
        if Open(cs[i]) { cs := cs[i := Cancel(cs[i])]; }
      }
      assert cs == Ops.AllCanceled(c.charges);
      rent.contracts := rent.contracts[id := c.(charges := cs, status := Cancelled)];
      error := None;
      RS.OperationKeeps(old(rent.State()), RR.OpCancel(id), rent.State(), error);
    }

    method CheckRenewal(id: nat, newEnd: int, newShop: Option<nat>, now: real) returns (refusal: Option<string>)
      ensures refusal == Ops.RenewalRefusal(rent.State(), id, newEnd, newShop, now)
    {
      if id >= |rent.contracts| { return Some("contract not found"); }
      var c := rent.contracts[id];
      if c.status != Active && c.status != Expired { return Some("contract is neither active nor expired"); }
      if c.status == Active && (c.endDate as real) - now > Ops.RENEW_WINDOW_DAYS { return Some("too early to renew"); }
      if exists other | other in rent.contracts :: other.renewedFrom == Some(id) { return Some("already renewed"); }
      if newEnd <= c.endDate { return Some("new end is not after the old end"); }
      var shop := Ops.RenewedShop(c, newShop);
      if shop != c.shop && exists other | other in rent.contracts :: Ops.OccupiesShop(other, shop) {
        return Some("new shop already has an active contract");
      }
      refusal := None;
    }

    /** The writes of a renewal. */
    method WriteRenewal(id: nat, newEnd: int, rentAsked: Option<real>, newShop: Option<nat>, now: real)
      requires rent.Valid() && id < |rent.contracts| && rent.contracts[id].endDate < newEnd
      modifies rent`contracts
      ensures rent.State() == Ops.Renewed(old(rent.State()), id, newEnd, rentAsked, newShop, now)
      ensures Ops.RenewalRent(old(rent.contracts)[id], rentAsked) >= 0.0 ==> rent.Valid()
    {
      var c := rent.contracts[id];
      var billed := Ops.RenewalRent(c, rentAsked);
      rent.contracts := rent.contracts[id := c.(status := Expired, depositRemaining := 0.0)];
      var status := if c.endDate as real <= now then Active else Draft;
      var charges := GenerateCharges(c.endDate, newEnd, billed);
      rent.contracts := rent.contracts
        + [Contract(c.tenant, Ops.RenewedShop(c, newShop), c.currency, c.endDate, newEnd, billed, status,
                    c.depositRemaining, Some(id), charges)];
      if billed >= 0.0 { FreshChargesAskNothingNegative(c.endDate, newEnd, billed); }
    }

    /** Close the contract and start its successor on the day it ends. */
    method Renew(id: nat, newEnd: int, rentAsked: Option<real>, newShop: Option<nat>, now: real)
      returns (error: Option<string>)
      requires rent.Valid()
      modifies rent
      ensures RS.Outcome(Ops.Renew(old(rent.State()), id, newEnd, rentAsked, newShop, now), old(rent.State()), rent.State(), error)
      ensures (id < |old(rent.contracts)| ==> Ops.RenewalRent(old(rent.contracts)[id], rentAsked) >= 0.0) ==> rent.Valid()
      ensures (rentAsked.Some? ==> rentAsked.value > 0.0) ==> RS.Kept(old(rent.State()), rent.State())
    {
      error := CheckRenewal(id, newEnd, newShop, now);
      if error.Some? { return; }
      WriteRenewal(id, newEnd, rentAsked, newShop, now);
      RS.OperationKeeps(old(rent.State()), RR.OpRenew(id, newEnd, rentAsked, newShop, now), rent.State(), error);
    }

    method FlagExpiredContracts(now: real)
      modifies rent`contracts
      ensures rent.State() == Ops.FlagExpiredContracts(old(rent.State()), now)
      ensures RS.Kept(old(rent.State()), rent.State())
    {
      ghost var after := Ops.FlagExpiredContracts(rent.State(), now).contracts;
      for k := 0 to |rent.contracts|
        invariant |rent.contracts| == |after|
        invariant forall j | 0 <= j < |after| :: rent.contracts[j] == if j < k then after[j] else old(rent.contracts)[j]
      {
        var c := rent.contracts[k];
        if c.status == Active && (c.endDate as real) < now {
          rent.contracts := rent.contracts[k := c.(status := Expired)];
        }
      }
      assert rent.contracts == after;
      RS.OperationKeeps(old(rent.State()), RR.OpFlagExpired(now), rent.State(), None);
    }

    method ActivateStartedContracts(now: real)
      modifies rent`contracts
      ensures rent.State() == Ops.ActivateStartedContracts(old(rent.State()), now)
      ensures RS.Kept(old(rent.State()), rent.State())
    {
      ghost var after := Ops.ActivateStartedContracts(rent.State(), now).contracts;
      for k := 0 to |rent.contracts|
        invariant |rent.contracts| == |after|
        invariant forall j | 0 <= j < |after| :: rent.contracts[j] == if j < k then after[j] else old(rent.contracts)[j]
      {
        var c := rent.contracts[k];
        if c.status == Draft && c.startDate as real <= now {
          rent.contracts := rent.contracts[k := c.(status := Active)];
        }
      }
      assert rent.contracts == after;
      RS.OperationKeeps(old(rent.State()), RR.OpActivateStarted(now), rent.State(), None);
    }

    // ---- payments and settlement ----------------------------------------------------------------

    /** Put everything back as it was when the transaction began. */
    method RollBack(before: S.Office)
      modifies rent, electricity, money
      ensures State() == before.(settlements := settlements)
    {
      rent.contracts, rent.payments, rent.allocations, rent.debts :=
        before.rent.contracts, before.rent.payments, before.rent.allocations, before.rent.debts;
      electricity.cycles, electricity.meters, electricity.bills :=
        before.electricity.cycles, before.electricity.meters, before.electricity.bills;
      electricity.payments, electricity.allocations, electricity.debts :=
        before.electricity.payments, before.electricity.allocations, before.electricity.debts;
      money.accounts, money.entries, money.expenses := before.money.accounts, before.money.entries, before.money.expenses;
      money.incomes, money.loans, money.nextId := before.money.incomes, before.money.loans, before.money.nextId;
    }

    method Snapshot() returns (o: S.Office)
      ensures o == State()
    {
      var b := Book(rent.contracts, rent.payments, rent.allocations, rent.debts);
      var t := E.Tables(electricity.cycles, electricity.meters, electricity.bills, electricity.payments,
                        electricity.allocations, electricity.debts);
      var m := L.Books(money.accounts, money.entries, money.expenses, money.incomes, money.loans, money.nextId);
      o := S.Office(b, t, m, settlements);
    }

    /** Money into the account first, then the allocation; a payment that is refused undoes both. */
    method PayRentIfAny(id: nat, amount: real, account: nat, entry: PaymentEntry, now: real)
      returns (error: Option<string>)
      requires Valid() && (amount > 0.0 ==> account in money.accounts)
      modifies rent, electricity, money
      ensures Outcome(S.PayRentIfAny(old(State()), id, amount, account, entry, now), old(State()), State(), error)
      ensures Valid() && money.accounts.Keys == old(money.accounts).Keys
    {
      if amount <= 0.0 { return None; }
      var before := Snapshot();
      error := money.ReceiveOn(account, amount, L.RentPayment(money.nextId), now);
      error := rent.RecordPayment(id, amount, false, entry, now);
      if error.Some? { RollBack(before); }
    }

    method PayElectricityIfAny(tenant: nat, shop: nat, amount: real, account: nat, entry: PaymentEntry, now: real)
      returns (error: Option<string>)
      requires Valid() && (amount > 0.0 ==> account in money.accounts)
      modifies rent, electricity, money
      ensures Outcome(S.PayElectricityIfAny(old(State()), tenant, shop, amount, account, entry, now), old(State()), State(), error)
      ensures Valid()
    {
      if amount <= 0.0 { return None; }
      var before := Snapshot();
      error := money.ReceiveOn(account, amount, L.ElectricityPayment(money.nextId), now);
      error := electricity.RecordPayment(tenant, shop, amount, None, None, entry);
      if error.Some? { RollBack(before); }
    }

    /** Rent and then electricity; if either part is refused neither is kept. */
    method PayBoth(id: nat, rentAmount: real, electricityAmount: real, account: nat, entry: PaymentEntry, now: real)
      returns (error: Option<string>)
      requires Valid() && id < |rent.contracts|
      requires rentAmount > 0.0 || electricityAmount > 0.0 ==> account in money.accounts
      modifies rent, electricity, money
      ensures Outcome(S.PayBoth(old(State()), id, rentAmount, electricityAmount, account, entry, now), old(State()), State(), error)
      ensures Valid()
    {
      var tenant, shop := rent.contracts[id].tenant, rent.contracts[id].shop;
      var before := Snapshot();
      error := PayRentIfAny(id, rentAmount, account, entry, now);
      if error.Some? { return; }
      error := PayElectricityIfAny(tenant, shop, electricityAmount, account, entry, now);
      if error.Some? { RollBack(before); }
    }

    method PayDebt(id: nat, rentAmount: real, electricityAmount: real, account: nat, entry: PaymentEntry, now: real)
      returns (error: Option<string>)
      requires Valid()
      modifies rent, electricity, money
      ensures Outcome(S.PayDebt(old(State()), id, rentAmount, electricityAmount, account, entry, now), old(State()), State(), error)
      ensures Valid()
      ensures rentAmount >= 0.0 && electricityAmount >= 0.0 ==> Kept(old(State()), State())
    {
      if id >= |rent.contracts| { return Some("contract not found"); }
      if rentAmount <= 0.0 && electricityAmount <= 0.0 { return Some("nothing to pay"); }
      if account !in money.accounts { return Some("account not found"); }
      error := PayBoth(id, rentAmount, electricityAmount, account, entry, now);
      PayingDebtKeeps(old(State()), id, rentAmount, electricityAmount, account, entry, now, State(), error);
    }

    method SetDeposit(id: nat, left: real)
      requires rent.Valid() && id < |rent.contracts|
      modifies rent`contracts
      ensures rent.State() == S.WithDeposit(old(rent.State()), id, left) && rent.Valid()
    {
      rent.contracts := rent.contracts[id := rent.contracts[id].(depositRemaining := left)];
    }

    /** The electricity payment and the deposit it lowers, both or neither. */
    method DrawDeposit(tenant: nat, shop: nat, amount: real, bill: Option<nat>, entry: PaymentEntry)
      returns (error: Option<string>)
      requires Valid() && amount > 0.0
      modifies rent, electricity
      ensures Outcome(S.PayElectricityFromDeposit(old(State()), tenant, shop, amount, bill, entry),
                      old(State()), State(), error)
      ensures Valid()
    {
      var found := S.ActiveContract(rent.contracts, tenant, shop);
      if found.None? { return Some("no active contract"); }
      var deposit := rent.contracts[found.value].depositRemaining;
      error := electricity.PlacePayment(tenant, shop, amount, bill, Some(deposit), entry);
      if error.None? { SetDeposit(found.value, deposit - amount); }
    }

    /** An electricity payment out of the security deposit, which is lowered with it. */
    method PayElectricityFromDeposit(tenant: nat, shop: nat, amount: real, bill: Option<nat>, entry: PaymentEntry)
      returns (error: Option<string>)
      requires Valid() && amount > 0.0
      modifies rent, electricity
      ensures Outcome(S.PayElectricityFromDeposit(old(State()), tenant, shop, amount, bill, entry),
                      old(State()), State(), error)
      ensures Valid() && Kept(old(State()), State())
    {
      error := DrawDeposit(tenant, shop, amount, bill, entry);
      DrawingKeeps(old(State()), tenant, shop, amount, bill, entry, State(), error);
    }

    /** What is open on a contract for periods that have started. */
    method OpenDebtForContract(id: nat, now: real) returns (due: real)
      requires id < |rent.contracts|
      ensures due == Ops.OpenDebtDue(rent.contracts[id].charges, now)
    {
      var cs := rent.contracts[id].charges;
      due := 0.0;
      for i := 0 to |cs|
        invariant due == RentDebts.ContractDue(cs[..i], now)
      {
        assert cs[..i + 1][..i] == cs[..i];
        if Open(cs[i]) && RentDebts.Due(cs[i], now) { due := due + cs[i].remaining; }
      }
      assert cs[..|cs|] == cs;
    }

    method CheckSettlement(id: nat, how: S.Method, cash: real, account: Option<nat>, now: real)
      returns (refusal: Option<string>, rentDebt: real, electricityDebt: real)
      ensures refusal == S.Refusal(State(), id, how, cash, account, now)
      ensures refusal == None ==>
                id < |rent.contracts| && rentDebt == S.RentDue(State(), id, now) && electricityDebt == S.ElectricityDue(State(), id)
    {
      rentDebt, electricityDebt := 0.0, 0.0;
      if id >= |rent.contracts| { return Some("contract not found"), 0.0, 0.0; }
      if id in settlements { return Some("already settled"), 0.0, 0.0; }
      if how == S.CASH && cash <= 0.0 { return Some("cash amount is required"), 0.0, 0.0; }
      if (how == S.WRITE_OFF || how == S.COLLATERAL) && cash > 0.0 { return Some("this method takes no cash"), 0.0, 0.0; }
      if cash > 0.0 {
        if account.None? { return Some("account is required"), 0.0, 0.0; }
        if account.value !in money.accounts { return Some("account not found"), 0.0, 0.0; }
      }
      rentDebt := OpenDebtForContract(id, now);
      electricityDebt := electricity.Outstanding(rent.contracts[id].tenant, rent.contracts[id].shop);
      refusal :=
        if cash > rentDebt + electricityDebt then Some("cash exceeds the debt")
        else if how == S.CASH && cash != rentDebt + electricityDebt then Some("cash must cover the debt exactly")
        else None;
    }

    method CloseOut(id: nat, row: S.SettlementRow, now: real)
      requires Valid() && id < |rent.contracts|
      modifies this`settlements, rent, electricity
      ensures State() == S.CloseOut(old(State()), id, row, now) && Valid()
    {
      var tenant, shop := rent.contracts[id].tenant, rent.contracts[id].shop;
      rent.WriteOffOpenCharges(id, now);
      electricity.WriteOffOpenBillsForShop(tenant, shop);
      settlements := settlements[id := row];
    }

    /** The two payments and the close, in one transaction. */
    method SettleFor(id: nat, cash: real, row: S.SettlementRow, into: nat, entry: PaymentEntry, now: real)
      returns (error: Option<string>)
      requires Valid() && id < |rent.contracts| && row.finalRentDebt >= 0.0 && cash >= 0.0
      requires cash > 0.0 ==> into in money.accounts
      modifies this`settlements, rent, electricity, money
      ensures Outcome(S.SettleFor(old(State()), id, cash, row, into, entry, now), old(State()), State(), error)
      ensures Valid()
    {
      var cashForRent, cashForElectricity := S.CashForRent(cash, row), S.CashLeft(cash, row);
      StillThere(State(), id, cashForRent, cashForElectricity, into, entry, now);
      error := PayBoth(id, cashForRent, cashForElectricity, into, entry, now);
      if error.Some? { return; }
      CloseOut(id, row, now);
    }

    /** The final settlement: cash to rent that is due, the rest of it to electricity, all else forgiven. */
    method Settle(id: nat, how: S.Method, cash: real, account: Option<nat>, entry: PaymentEntry, now: real)
      returns (error: Option<string>)
      requires Valid() && cash >= 0.0
      modifies this`settlements, rent, electricity, money
      ensures Outcome(S.Settle(old(State()), id, how, cash, account, entry, now), old(State()), State(), error)
      ensures Valid()
      ensures Kept(old(State()), State())
    {
      var rentDebt, electricityDebt;
      error, rentDebt, electricityDebt := CheckSettlement(id, how, cash, account, now);
      if error.Some? { return; }
      DueIsNonNegative(rent.contracts[id].charges, now);
      var into := if account.Some? then account.value else 0;
      error := SettleFor(id, cash, S.Found(rentDebt, electricityDebt, how), into, entry, now);
      SettlingKeeps(old(State()), id, how, cash, account, entry, now, State(), error);
    }
  }
}
