/** The tables of the rent engine. A contract's id is its position in the contract table and a
    charge's id is its contract's id with its position among that contract's charges; both are only
    ever appended to. Calendar dates are whole days; an instant such as `now` is a real number of
    days, so a date can be compared with any moment inside a day. */
module RentTables {
  import opened Basics
  import opened RentCharges

  datatype ContractStatus = Draft | Active | Suspended | Expired | EarlyTerminated | Cancelled

  datatype Contract = Contract(
    tenant: nat,
    shop: nat,
    currency: nat,
    startDate: int,
    endDate: int,
    rent: real,
    status: ContractStatus,
    depositRemaining: real,
    renewedFrom: Option<nat>,
    charges: seq<Charge>)

  datatype Payment = Payment(contract: nat, amount: real)

  datatype Allocation = Allocation(payment: nat, contract: nat, charge: nat, amount: real)

  datatype DebtStatus = CLEAN | LOW | MEDIUM | HIGH | CRITICAL

  datatype DebtRow = DebtRow(
    total: real,
    overdue: real,
    status: DebtStatus,
    lastChargeAmount: real,
    lastChargeDate: Option<int>)

  /** The debt cache has one row per tenant and currency. */
  type DebtCache = map<(nat, nat), DebtRow>

  datatype Book = Book(
    contracts: seq<Contract>,
    payments: seq<Payment>,
    allocations: seq<Allocation>,
    debts: DebtCache)

  /** A charge together with the currency of its contract. */
  datatype OwedCharge = OwedCharge(currency: nat, charge: Charge)

  function OpenOnly(cs: seq<Charge>, currency: nat): seq<OwedCharge> {
    if cs == [] then []
    else
      var last := cs[|cs| - 1];
      OpenOnly(cs[..|cs| - 1], currency) + (if Open(last) then [OwedCharge(currency, last)] else [])
  }

  /** The open charges of a tenant over all of the tenant's contracts. */
  function OpenChargesOf(contracts: seq<Contract>, tenant: nat): seq<OwedCharge> {
    if contracts == [] then []
    else
      var last := contracts[|contracts| - 1];
      OpenChargesOf(contracts[..|contracts| - 1], tenant)
      + (if last.tenant == tenant then OpenOnly(last.charges, last.currency) else [])
  }
}
