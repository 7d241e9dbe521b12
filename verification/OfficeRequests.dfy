/** When the payments that touch rent, electricity, deposits and accounts together go through, and what they
    write, said of the columns of the tables alone. */
module OfficeRequests {
  import opened Basics
  import opened RentCharges
  import opened ChargeGeneration
  import opened RentTables
  import opened Settlement
  import RO = RentOps
  import RR = RentRuns
  import Q = RentRequests
  import E = Electricity
  import ER = ElectricityRuns
  import EQ = ElectricityRequests
  import L = Ledger
  import Fifo

  /** What is open on a contract, charges of future periods included. */
  function OpenRent(c: Contract): real { Sum(Q.Remainders(c.charges)) }

  /** What is open on the bills of a tenant and shop. */
  function OpenElectricity(bills: seq<E.Bill>, tenant: nat, shop: nat): real { Sum(EQ.Remainders(bills, tenant, shop)) }

  // ---- rent and electricity out of one pocket -------------------------------------------------------

  lemma RentPartGoesThroughWhen(o: Office, id: nat, amount: real, account: nat, entry: PaymentEntry, now: real)
    requires id < |o.rent.contracts| && amount > 0.0
    ensures PayRent(o, id, amount, account, entry, now).Ok?
            <==> && !entry.inFuture && entry.rateKnown
                 && amount <= OpenRent(o.rent.contracts[id]) && account in o.money.accounts
  {
    Q.OpenIsRemainders(o.rent.contracts[id].charges);
  }

  lemma ElectricityPartGoesThroughWhen(o: Office, tenant: nat, shop: nat, amount: real, account: nat, entry: PaymentEntry, now: real)
    requires amount > 0.0
    ensures PayElectricity(o, tenant, shop, amount, account, entry, now).Ok?
            <==> && !entry.inFuture && entry.rateKnown
                 && amount <= OpenElectricity(o.electricity.bills, tenant, shop) && account in o.money.accounts
  {
    EQ.DebtIsRemainders(o.electricity.bills, tenant, shop, |o.electricity.bills|);
  }

  lemma RentPartLeaves(o: Office, id: nat, amount: real, account: nat, entry: PaymentEntry, now: real)
    requires PayRentIfAny(o, id, amount, account, entry, now).Ok?
    ensures var paid := PayRentIfAny(o, id, amount, account, entry, now).value;
            paid.electricity == o.electricity && paid.money.accounts.Keys == o.money.accounts.Keys
  {
  }

  /** A payment of rent and electricity together goes through exactly when its contract is there, it pays
      something, its account is there, its date and rate are accepted, and neither part exceeds what is open. */
  lemma PayDebtGoesThroughWhen(o: Office, id: nat, rent: real, electricity: real, account: nat, entry: PaymentEntry, now: real)
    requires rent >= 0.0 && electricity >= 0.0
    requires id < |o.rent.contracts| ==>
               var c := o.rent.contracts[id]; OpenRent(c) >= 0.0 && OpenElectricity(o.electricity.bills, c.tenant, c.shop) >= 0.0
    ensures PayDebt(o, id, rent, electricity, account, entry, now).Ok?
            <==> && id < |o.rent.contracts| && rent + electricity > 0.0
                 && account in o.money.accounts && !entry.inFuture && entry.rateKnown
                 && var c := o.rent.contracts[id];
                 rent <= OpenRent(c) && electricity <= OpenElectricity(o.electricity.bills, c.tenant, c.shop)
  {
    if id < |o.rent.contracts| {
      var c := o.rent.contracts[id];
      if rent > 0.0 { RentPartGoesThroughWhen(o, id, rent, account, entry, now); }
      if PayRentIfAny(o, id, rent, account, entry, now).Ok? {
        RentPartLeaves(o, id, rent, account, entry, now);
        var paid := PayRentIfAny(o, id, rent, account, entry, now).value;
        if electricity > 0.0 { ElectricityPartGoesThroughWhen(paid, c.tenant, c.shop, electricity, account, entry, now); }
      }
    }
  }

  /** One row of the ledger for money that came in. */
  function InRow(source: L.Source, account: nat, amount: real, balance: real, date: real): L.Entry {
    L.Entry(source, account, L.IN, amount, balance, date)
  }

  /** Money came onto an account, with its row; no other account and no other row changes. */
  ghost predicate CameIn(before: L.Books, after: L.Books, account: nat, amount: real, source: L.Source, date: real) {
    && account in before.accounts
    && var balance := before.accounts[account].balance + amount;
    && after.accounts == before.accounts[account := before.accounts[account].(balance := balance)]
    && after.entries == before.entries + [InRow(source, account, amount, balance, date)]
    && after.nextId == before.nextId + 1
    && after.expenses == before.expenses && after.incomes == before.incomes && after.loans == before.loans
  }

  /** What a rent payment into a bank account writes. */
  lemma RentPartWrites(o: Office, id: nat, amount: real, account: nat, entry: PaymentEntry, now: real)
    requires id < |o.rent.contracts| && PayRent(o, id, amount, account, entry, now).Ok?
    ensures var after := PayRent(o, id, amount, account, entry, now).value;
            && after.rent.payments == o.rent.payments + [Payment(id, amount)]
            && |after.rent.contracts| == |o.rent.contracts|
            && (forall k | 0 <= k < |o.rent.contracts| && k != id :: after.rent.contracts[k] == o.rent.contracts[k])
            && after.rent.contracts[id] == o.rent.contracts[id].(charges := after.rent.contracts[id].charges)
            && after.electricity == o.electricity && after.settlements == o.settlements
            && CameIn(o.money, after.money, account, amount, L.RentPayment(o.money.nextId), now)
  {
  }

  lemma ElectricityPartWrites(o: Office, tenant: nat, shop: nat, amount: real, account: nat, entry: PaymentEntry, now: real)
    requires PayElectricity(o, tenant, shop, amount, account, entry, now).Ok?
    ensures var after := PayElectricity(o, tenant, shop, amount, account, entry, now).value;
            && after.electricity.payments == o.electricity.payments + [E.Payment(tenant, shop, amount)]
            && after.rent == o.rent && after.settlements == o.settlements
            && CameIn(o.money, after.money, account, amount, L.ElectricityPayment(o.money.nextId), now)
  {
  }

  lemma PartsAreCoherent(o: Office, id: nat)
    requires Inv(o) && id < |o.rent.contracts|
    ensures ER.BillsOk(o.electricity)
    ensures var c := o.rent.contracts[id]; OpenRent(c) >= 0.0 && OpenElectricity(o.electricity.bills, c.tenant, c.shop) >= 0.0
  {
    var c := o.rent.contracts[id];
    DueIsOpen(o, id, 0.0);
    Q.OpenIsRemainders(c.charges);
    EQ.DebtIsRemainders(o.electricity.bills, c.tenant, c.shop, |o.electricity.bills|);
  }

  /** The same in every sound state, where nothing that is open is negative. */
  lemma DebtIsPaidExactlyWhen(o: Office, id: nat, rent: real, electricity: real, account: nat, entry: PaymentEntry, now: real)
    requires Inv(o) && rent >= 0.0 && electricity >= 0.0
    ensures PayDebt(o, id, rent, electricity, account, entry, now).Ok?
            <==> && id < |o.rent.contracts| && rent + electricity > 0.0
                 && account in o.money.accounts && !entry.inFuture && entry.rateKnown
                 && var c := o.rent.contracts[id];
                 rent <= OpenRent(c) && electricity <= OpenElectricity(o.electricity.bills, c.tenant, c.shop)
  {
    if id < |o.rent.contracts| { PartsAreCoherent(o, id); }
    PayDebtGoesThroughWhen(o, id, rent, electricity, account, entry, now);
  }

  // ---- what it writes -------------------------------------------------------------------------------

  lemma OpenFallsBy(cs: seq<Charge>, amount: real)
    requires AllCoherent(cs) && 0.0 < amount <= Sum(Q.Remainders(cs))
    ensures Sum(Q.Remainders(RO.Allocated(cs, amount))) == Sum(Q.Remainders(cs)) - amount
  {
    Q.OpenIsRemainders(cs);
    Q.OpenIsRemainders(RO.Allocated(cs, amount));
    RR.OpenAmountsNonNegative(cs);
    RR.OpenAfter(cs, amount);
    Fifo.AfterUpTo(RO.OpenAmounts(cs), amount, |cs|);
  }

  lemma ChargesArePaid(o: Office, id: nat, amount: real, account: nat, entry: PaymentEntry, now: real)
    requires id < |o.rent.contracts| && PayRent(o, id, amount, account, entry, now).Ok?
    ensures var after := PayRent(o, id, amount, account, entry, now).value.rent.contracts;
            |after| == |o.rent.contracts| && after[id].charges == RO.Allocated(o.rent.contracts[id].charges, amount)
  {
  }

  /** A payment takes exactly its amount off what is open on the contract. */
  lemma RentFallsBy(o: Office, id: nat, amount: real, account: nat, entry: PaymentEntry, now: real)
    requires Inv(o) && id < |o.rent.contracts| && amount > 0.0 && PayRent(o, id, amount, account, entry, now).Ok?
    ensures var after := PayRent(o, id, amount, account, entry, now).value.rent.contracts;
            |after| == |o.rent.contracts| && OpenRent(after[id]) == OpenRent(o.rent.contracts[id]) - amount
  {
    var c := o.rent.contracts[id];
    assert RR.ContractOk(c);
    RentPartGoesThroughWhen(o, id, amount, account, entry, now);
    OpenFallsBy(c.charges, amount);
    ChargesArePaid(o, id, amount, account, entry, now);
  }

  lemma ElectricityFallsBy(o: Office, tenant: nat, shop: nat, amount: real, account: nat, entry: PaymentEntry, now: real)
    requires ER.BillsOk(o.electricity) && amount > 0.0 && PayElectricity(o, tenant, shop, amount, account, entry, now).Ok?
    ensures OpenElectricity(PayElectricity(o, tenant, shop, amount, account, entry, now).value.electricity.bills, tenant, shop)
         == OpenElectricity(o.electricity.bills, tenant, shop) - amount
  {
    var t := o.electricity;
    EQ.DebtIsRemainders(t.bills, tenant, shop, |t.bills|);
    var moved := BillsReceive(t, tenant, shop, amount);
    var paid := BillsPaidUp(t.bills, tenant, shop, amount);
    EQ.DebtIsRemainders(paid, tenant, shop, |paid|);
    ShopDebtIsSum(t.bills, tenant, shop, |t.bills|);
    ShopDebtIsSum(paid, tenant, shop, |paid|);
    SumsAdd(OwedOn(t.bills, tenant, shop), OwedOn(paid, tenant, shop), moved, |moved|);
  }

  /** The tables after rent and electricity were paid together. */
  ghost predicate DebtPaid(o: Office, after: Office, id: nat, rent: real, electricity: real, account: nat)
    requires id < |o.rent.contracts|
  {
    var c := o.rent.contracts[id];
    && |after.rent.contracts| == |o.rent.contracts|
    && (forall k | 0 <= k < |o.rent.contracts| && k != id :: after.rent.contracts[k] == o.rent.contracts[k])
    && after.rent.contracts[id] == c.(charges := after.rent.contracts[id].charges)
    && OpenRent(after.rent.contracts[id]) == OpenRent(c) - rent
    && OpenElectricity(after.electricity.bills, c.tenant, c.shop) == OpenElectricity(o.electricity.bills, c.tenant, c.shop) - electricity
    && after.rent.payments == o.rent.payments + (if rent > 0.0 then [Payment(id, rent)] else [])
    && after.electricity.payments == o.electricity.payments + (if electricity > 0.0 then [E.Payment(c.tenant, c.shop, electricity)] else [])
    && account in o.money.accounts
    && after.money.accounts
       == o.money.accounts[account := o.money.accounts[account].(balance := o.money.accounts[account].balance + rent + electricity)]
    && after.settlements == o.settlements
  }

  lemma OnlyRentPaid(o: Office, id: nat, rent: real, account: nat, entry: PaymentEntry, now: real)
    requires Inv(o) && id < |o.rent.contracts| && rent >= 0.0 && account in o.money.accounts
    requires PayRentIfAny(o, id, rent, account, entry, now).Ok?
    ensures var paid := PayRentIfAny(o, id, rent, account, entry, now).value;
            Inv(paid) && DebtPaid(o, paid, id, rent, 0.0, account)
  {
    PayRentKeeps(o, id, rent, account, entry, now);
    if rent > 0.0 {
      RentPartWrites(o, id, rent, account, entry, now);
      RentFallsBy(o, id, rent, account, entry, now);
    } else {
      var a := o.money.accounts[account];
      assert a.(balance := a.balance + rent + 0.0) == a;
    }
  }

  lemma OnlyElectricityPaid(o: Office, id: nat, electricity: real, account: nat, entry: PaymentEntry, now: real)
    requires Inv(o) && id < |o.rent.contracts| && electricity >= 0.0 && account in o.money.accounts
    requires var c := o.rent.contracts[id]; PayElectricityIfAny(o, c.tenant, c.shop, electricity, account, entry, now).Ok?
    ensures var c := o.rent.contracts[id];
            DebtPaid(o, PayElectricityIfAny(o, c.tenant, c.shop, electricity, account, entry, now).value, id, 0.0, electricity, account)
  {
    var c := o.rent.contracts[id];
    if electricity > 0.0 {
      ElectricityPartWrites(o, c.tenant, c.shop, electricity, account, entry, now);
      ElectricityFallsBy(o, c.tenant, c.shop, electricity, account, entry, now);
    } else {
      var a := o.money.accounts[account];
      assert a.(balance := a.balance + 0.0 + electricity) == a;
    }
  }

  lemma PaidOneAfterTheOther(o: Office, middle: Office, after: Office, id: nat, rent: real, electricity: real, account: nat)
    requires id < |o.rent.contracts| && DebtPaid(o, middle, id, rent, 0.0, account)
    requires DebtPaid(middle, after, id, 0.0, electricity, account)
    ensures DebtPaid(o, after, id, rent, electricity, account)
  {
  }

  /** A combined payment takes each part off what is open of it, records each part that is not zero, and the
      account grows by both; no other contract, account or settlement changes. */
  lemma PayDebtWrites(o: Office, id: nat, rent: real, electricity: real, account: nat, entry: PaymentEntry, now: real)
    requires Inv(o) && rent >= 0.0 && electricity >= 0.0 && PayDebt(o, id, rent, electricity, account, entry, now).Ok?
    ensures id < |o.rent.contracts|
    ensures DebtPaid(o, PayDebt(o, id, rent, electricity, account, entry, now).value, id, rent, electricity, account)
  {
    var middle := PayRentIfAny(o, id, rent, account, entry, now).value;
    OnlyRentPaid(o, id, rent, account, entry, now);
    OnlyElectricityPaid(middle, id, electricity, account, entry, now);
    PaidOneAfterTheOther(o, middle, PayDebt(o, id, rent, electricity, account, entry, now).value, id, rent, electricity, account);
  }

  // ---- electricity out of the deposit ---------------------------------------------------------------

  /** The first active contract of a tenant for a shop. */
  ghost predicate FirstActive(contracts: seq<Contract>, tenant: nat, shop: nat, id: nat) {
    && id < |contracts| && Holds(contracts[id], tenant, shop)
    && forall k | 0 <= k < id :: !Holds(contracts[k], tenant, shop)
  }

  predicate Holds(c: Contract, tenant: nat, shop: nat) { c.tenant == tenant && c.shop == shop && c.status == Active }

  lemma {:induction false} FoundIsFirst(contracts: seq<Contract>, tenant: nat, shop: nat, id: nat)
    ensures ActiveContract(contracts, tenant, shop) == Some(id) <==> FirstActive(contracts, tenant, shop, id)
  {
    if contracts != [] {
      var init := contracts[..|contracts| - 1];
      var earlier := ActiveContract(init, tenant, shop);
      FoundIsFirst(init, tenant, shop, id);
      if earlier.Some? {
        FoundIsFirst(init, tenant, shop, earlier.value);
      } else {
        forall k | 0 <= k < |init| ensures !Holds(contracts[k], tenant, shop) { assert init[k] in init; }
      }
    }
  }

  /** An electricity payment out of the deposit goes through exactly when the tenant has an active contract for
      the shop, the deposit of the first such contract covers it, its date and rate are accepted, and the bill
      named, or else all open bills of the shop together, ask for as much. It takes the amount off that
      deposit and changes nothing else of the contracts, no account and no settlement. */
  lemma DepositPaymentDraws(o: Office, tenant: nat, shop: nat, amount: real, bill: Option<nat>, entry: PaymentEntry, id: nat)
    requires FirstActive(o.rent.contracts, tenant, shop, id)
    ensures var r, c := PayElectricityFromDeposit(o, tenant, shop, amount, bill, entry), o.rent.contracts[id];
            && (r.Ok? <==> && !entry.inFuture && entry.rateKnown && amount <= c.depositRemaining
                           && EQ.Payable(o.electricity.bills, tenant, shop, amount, bill))
            && (r.Ok? ==>
                  && r.value.rent == o.rent.(contracts := o.rent.contracts[id := c.(depositRemaining := c.depositRemaining - amount)])
                  && r.value.money == o.money && r.value.settlements == o.settlements
                  && r.value.electricity.payments == o.electricity.payments + [E.Payment(tenant, shop, amount)])
  {
    FoundIsFirst(o.rent.contracts, tenant, shop, id);
    EQ.PaymentGoesThroughWhen(o.electricity, tenant, shop, amount, bill, Some(o.rent.contracts[id].depositRemaining), entry);
  }

  /** Without an active contract there is no deposit to pay from. */
  lemma NoContractNoDeposit(o: Office, tenant: nat, shop: nat, amount: real, bill: Option<nat>, entry: PaymentEntry)
    requires forall k | 0 <= k < |o.rent.contracts| :: !Holds(o.rent.contracts[k], tenant, shop)
    ensures PayElectricityFromDeposit(o, tenant, shop, amount, bill, entry).Err?
  {
    var found := ActiveContract(o.rent.contracts, tenant, shop);
    if found.Some? { FoundIsFirst(o.rent.contracts, tenant, shop, found.value); }
  }
}
