/** What every operation of the rent engine and of the contract life cycle does to the rent tables,
    as functions from the tables before to the tables after, or to the reason the transaction is
    rolled back. Operations take the instant `now` they run at as a parameter. */
module RentOps {
  import opened Basics
  import opened RentCharges
  import opened ChargeGeneration
  import opened RentTables
  import opened RentDebts
  import opened Fifo

  const RENEW_WINDOW_DAYS := 30.0

  function OpenAmounts(cs: seq<Charge>): seq<real> {
    seq(|cs|, i requires 0 <= i < |cs| => OpenAmount(cs[i]))
  }

  function OpenDebt(cs: seq<Charge>): real { Sum(OpenAmounts(cs)) }

  /** The walk over the open charges reaches charge `i` before the amount has run out. */
  predicate Reached(cs: seq<Charge>, amount: real, i: nat)
    requires i < |cs|
  {
    Open(cs[i]) && Prefix(OpenAmounts(cs), i) < amount
  }

  function Allocated(cs: seq<Charge>, amount: real): seq<Charge> {
    seq(|cs|, i requires 0 <= i < |cs| =>
      if Reached(cs, amount, i) then Pay(cs[i], Share(OpenAmounts(cs), amount, i)) else cs[i])
  }

  function Forgiven(cs: seq<Charge>, amount: real): seq<Charge> {
    seq(|cs|, i requires 0 <= i < |cs| =>
      if Reached(cs, amount, i) then Forgive(cs[i], Share(OpenAmounts(cs), amount, i)) else cs[i])
  }

  /** The allocation rows a payment writes for the first `k` charges. */
  function AllocationRows(cs: seq<Charge>, amount: real, payment: nat, contract: nat, k: nat): seq<Allocation>
    requires k <= |cs|
  {
    if k == 0 then []
    else
      AllocationRows(cs, amount, payment, contract, k - 1)
      + (if Reached(cs, amount, k - 1)
         then [Allocation(payment, contract, k - 1, Share(OpenAmounts(cs), amount, k - 1))]
         else [])
  }

  function WrittenOff(cs: seq<Charge>): seq<Charge> {
    seq(|cs|, i requires 0 <= i < |cs| => if Open(cs[i]) then WriteOff(cs[i]) else cs[i])
  }

  predicate Adjustable(c: Charge, effectiveFrom: int) {
    c.periodStart >= effectiveFrom && (c.status == PENDING || c.status == OVERDUE)
  }

  function Adjusted(cs: seq<Charge>, newRent: real, effectiveFrom: int): seq<Charge>
    requires forall c | c in cs && Adjustable(c, effectiveFrom) :: c.days != 0
  {
    seq(|cs|, i requires 0 <= i < |cs| =>
      if Adjustable(cs[i], effectiveFrom) then Reprice(cs[i], newRent) else cs[i])
  }

  predicate Spans(c: Charge, day: int) { c.periodStart <= day < c.periodEnd }

  /** First charge at or after position `i` whose period contains `day`. */
  function FirstSpanning(cs: seq<Charge>, day: int, i: nat): Option<nat>
    decreases |cs| - i
  {
    if i >= |cs| then None
    else if Spans(cs[i], day) then Some(i)
    else FirstSpanning(cs, day, i + 1)
  }

  function CutShort(cs: seq<Charge>, day: int, prorate: bool): seq<Charge> {
    match FirstSpanning(cs, day, 0)
    case Some(i) => if prorate && i < |cs| then cs[i := Prorate(cs[i], day)] else cs
    case None => cs
  }

  function CancelFrom(cs: seq<Charge>, day: int): seq<Charge> {
    seq(|cs|, i requires 0 <= i < |cs| =>
      if cs[i].periodStart >= day && Open(cs[i]) then Cancel(cs[i]) else cs[i])
  }

  function Terminated(cs: seq<Charge>, day: int, prorate: bool): seq<Charge> {
    CancelFrom(CutShort(cs, day, prorate), day)
  }

  function AllCanceled(cs: seq<Charge>): seq<Charge> {
    seq(|cs|, i requires 0 <= i < |cs| => if Open(cs[i]) then Cancel(cs[i]) else cs[i])
  }

  function Flagged(cs: seq<Charge>, now: real): seq<Charge> {
    seq(|cs|, i requires 0 <= i < |cs| =>
      if cs[i].status == PENDING && Overdue(cs[i], now) then cs[i].(status := OVERDUE) else cs[i])
  }

  /** What a settlement asks for: open charges whose period has started. */
  function OpenDebtDue(cs: seq<Charge>, now: real): real { ContractDue(cs, now) }

  // ---- operations on the tables -----------------------------------------------------------------

  function WithCharges(contracts: seq<Contract>, id: nat, cs: seq<Charge>): seq<Contract>
    requires id < |contracts|
  {
    contracts[id := contracts[id].(charges := cs)]
  }

  /** The contract table after a payment that may come out of the deposit. */
  function PaidContracts(contracts: seq<Contract>, id: nat, amount: real, fromDeposit: bool): seq<Contract>
    requires id < |contracts|
  {
    var c := contracts[id];
    var left := if fromDeposit then c.depositRemaining - amount else c.depositRemaining;
    contracts[id := c.(charges := Allocated(c.charges, amount), depositRemaining := left)]
  }

  /** What a payment writes once its date, rate and source are accepted: it is refused only when it
      exceeds what is open. */
  function BookPayment(b: Book, id: nat, amount: real, fromDeposit: bool, now: real): Result<Book>
    requires id < |b.contracts|
  {
    var c := b.contracts[id];
    if amount > OpenDebt(c.charges) then Err("amount exceeds the open debt")
    else
      var contracts := PaidContracts(b.contracts, id, amount, fromDeposit);
      Ok(Book(contracts,
              b.payments + [Payment(id, amount)],
              b.allocations + AllocationRows(c.charges, amount, |b.payments|, id, |c.charges|),
              Recomputed(contracts, b.debts, c.tenant, now)))
  }

  /** One rent payment, from a bank account, from the security deposit, or as an opening entry. */
  function RecordPayment(b: Book, id: nat, amount: real, fromDeposit: bool, entry: PaymentEntry,
                         now: real): Result<Book> {
    if id >= |b.contracts| then Err("contract not found")
    else if EntryRefusal(entry).Some? then Err(EntryRefusal(entry).value)
    else if fromDeposit && amount > b.contracts[id].depositRemaining then Err("deposit is not sufficient")
    else BookPayment(b, id, amount, fromDeposit, now)
  }

  function DiscountDebt(b: Book, id: nat, amount: real, now: real): Result<Book> {
    if id >= |b.contracts| then Err("contract not found")
    else
      var c := b.contracts[id];
      if amount > OpenDebt(c.charges) then Err("discount exceeds the open debt")
      else
        var contracts := WithCharges(b.contracts, id, Forgiven(c.charges, amount));
        Ok(b.(contracts := contracts, debts := Recomputed(contracts, b.debts, c.tenant, now)))
  }

  function AdjustFutureRent(b: Book, id: nat, newRent: real, effectiveFrom: int, now: real): Result<Book> {
    if id >= |b.contracts| then Err("contract not found")
    else
      var c := b.contracts[id];
      if c.status != Active then Err("contract is not active")
      else if forall ch | ch in c.charges :: !Adjustable(ch, effectiveFrom) then Err("no charge to adjust")
      else if exists ch | ch in c.charges :: Adjustable(ch, effectiveFrom) && ch.days == 0 then Err("division by zero")
      else
        var contracts := WithCharges(b.contracts, id, Adjusted(c.charges, newRent, effectiveFrom));
        Ok(b.(contracts := contracts, debts := Recomputed(contracts, b.debts, c.tenant, now)))
  }

  /** Forgiving whatever is still open on a contract, charges of future periods included. */
  function WriteOffOpenCharges(b: Book, id: nat, now: real): Book
    requires id < |b.contracts|
  {
    var c := b.contracts[id];
    var contracts := WithCharges(b.contracts, id, WrittenOff(c.charges));
    b.(contracts := contracts, debts := Recomputed(contracts, b.debts, c.tenant, now))
  }

  /** The rent half of a settlement: receive the cash meant for rent, then write off the rest. */
  function SettleRent(b: Book, id: nat, cash: real, entry: PaymentEntry, now: real): Result<Book> {
    if id >= |b.contracts| then Err("contract not found")
    else if cash > 0.0 then
      match RecordPayment(b, id, cash, false, entry, now)
      case Err(reason) => Err(reason)
      case Ok(paid) => Ok(WriteOffOpenCharges(paid, id, now))
    else Ok(WriteOffOpenCharges(b, id, now))
  }

  predicate OccupiesShop(c: Contract, shop: nat) {
    c.shop == shop && (c.status == Active || c.status == Suspended)
  }

  /** A contract and its charges, and the tenant's debt with them. */
  function Drawn(b: Book, c: Contract, now: real): Book {
    var contracts := b.contracts + [c];
    b.(contracts := contracts, debts := Recomputed(contracts, b.debts, c.tenant, now))
  }

  function CreateContract(b: Book, tenant: nat, shop: nat, currency: nat, start: int, end: int, rent: real,
                          deposit: real, openingPaid: Option<real>, rateKnown: bool, now: real): Result<Book> {
    if end <= start then Err("end is not after start")
    else if exists c | c in b.contracts :: OccupiesShop(c, shop) then Err("shop already has an active contract")
    else
      var status := if start as real <= now then Active else Draft;
      var c := Contract(tenant, shop, currency, start, end, rent, status, deposit, None, Charges(start, end, rent));
      match openingPaid
      case None => Ok(Drawn(b, c, now))
      case Some(amount) => RecordPayment(Drawn(b, c, now), |b.contracts|, amount, false, PaymentEntry(false, rateKnown), now)
  }

  function Terminate(b: Book, id: nat, day: int, prorate: bool, now: real): Result<Book> {
    if id >= |b.contracts| then Err("contract not found")
    else
      var c := b.contracts[id];
      if c.status != Active && c.status != Suspended then Err("contract is not active")
      else
        var contracts := b.contracts[id := c.(charges := Terminated(c.charges, day, prorate),
                                              status := EarlyTerminated, endDate := day)];
        Ok(b.(contracts := contracts, debts := Recomputed(contracts, b.debts, c.tenant, now)))
  }

  function CancelDraft(b: Book, id: nat): Result<Book> {
    if id >= |b.contracts| then Err("contract not found")
    else
      var c := b.contracts[id];
      if c.status != Draft then Err("contract has started")
      else Ok(b.(contracts := b.contracts[id := c.(charges := AllCanceled(c.charges), status := Cancelled)]))
  }

  /** The rent a renewal bills: the one asked for, else what the last period of the old contract
      bills now, which is not the contract's own rent after an adjustment, discount or proration. */
  function RenewalRent(c: Contract, rent: Option<real>): real {
    match rent
    case Some(r) => r
    case None => if c.charges == [] then c.rent else c.charges[|c.charges| - 1].net
  }

  function RenewedShop(c: Contract, newShop: Option<nat>): nat { if newShop.Some? then newShop.value else c.shop }

  /** Why a renewal is refused, before anything is written. */
  function RenewalRefusal(b: Book, id: nat, newEnd: int, newShop: Option<nat>, now: real): Option<string> {
    if id >= |b.contracts| then Some("contract not found")
    else
      var c := b.contracts[id];
      var shop := RenewedShop(c, newShop);
      if c.status != Active && c.status != Expired then Some("contract is neither active nor expired")
      else if c.status == Active && (c.endDate as real) - now > RENEW_WINDOW_DAYS then Some("too early to renew")
      else if exists other | other in b.contracts :: other.renewedFrom == Some(id) then Some("already renewed")
      else if newEnd <= c.endDate then Some("new end is not after the old end")
      else if shop != c.shop && exists other | other in b.contracts :: OccupiesShop(other, shop) then
        Some("new shop already has an active contract")
      else None
  }

  /** The old contract is closed, and its successor starts where it ends. */
  function Renewed(b: Book, id: nat, newEnd: int, rent: Option<real>, newShop: Option<nat>, now: real): Book
    requires id < |b.contracts|
  {
    var c := b.contracts[id];
    var billed := RenewalRent(c, rent);
    var status := if c.endDate as real <= now then Active else Draft;
    var next := Contract(c.tenant, RenewedShop(c, newShop), c.currency, c.endDate, newEnd, billed, status,
                          c.depositRemaining, Some(id), Charges(c.endDate, newEnd, billed));
    b.(contracts := b.contracts[id := c.(status := Expired, depositRemaining := 0.0)] + [next])
  }

  function Renew(b: Book, id: nat, newEnd: int, rent: Option<real>, newShop: Option<nat>, now: real): Result<Book> {
    match RenewalRefusal(b, id, newEnd, newShop, now)
    case Some(reason) => Err(reason)
    case None => Ok(Renewed(b, id, newEnd, rent, newShop, now))
  }

  function FlagOverdueCharges(b: Book, now: real): Book {
    b.(contracts := seq(|b.contracts|, k requires 0 <= k < |b.contracts| =>
         b.contracts[k].(charges := Flagged(b.contracts[k].charges, now))))
  }

  function FlagExpiredContracts(b: Book, now: real): Book {
    b.(contracts := seq(|b.contracts|, k requires 0 <= k < |b.contracts| =>
         var c := b.contracts[k];
         if c.status == Active && (c.endDate as real) < now then c.(status := Expired) else c))
  }

  function ActivateStartedContracts(b: Book, now: real): Book {
    b.(contracts := seq(|b.contracts|, k requires 0 <= k < |b.contracts| =>
         var c := b.contracts[k];
         if c.status == Draft && c.startDate as real <= now then c.(status := Active) else c))
  }

  function RebuildDebts(b: Book, tenants: seq<nat>, now: real): Book {
    b.(debts := Rebuilt(b.contracts, b.debts, tenants, now))
  }
}
