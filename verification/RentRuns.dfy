/** Serial runs of the rent engine and the contract life cycle, and what every run keeps. */
module RentRuns {
  import opened Basics
  import opened RentCharges
  import opened ChargeGeneration
  import opened RentTables
  import opened RentDebts
  import opened RentOps
  import Fifo

  datatype Op =
    | OpCreate(tenant: nat, shop: nat, currency: nat, start: int, end: int, rent: real, deposit: real,
               openingPaid: Option<real>, rateKnown: bool, now: real)
    | OpPay(id: nat, amount: real, fromDeposit: bool, entry: PaymentEntry, now: real)
    | OpDiscount(id: nat, amount: real, now: real)
    | OpAdjust(id: nat, newRent: real, effectiveFrom: int, now: real)
    | OpSettle(id: nat, cash: real, entry: PaymentEntry, now: real)
    | OpTerminate(id: nat, day: int, prorate: bool, now: real)
    | OpCancel(id: nat)
    | OpRenew(id: nat, newEnd: int, rentAsked: Option<real>, newShop: Option<nat>, now: real)
    | OpFlagOverdue(now: real)
    | OpFlagExpired(now: real)
    | OpActivateStarted(now: real)
    | OpRebuild(tenants: seq<nat>, now: real)

  /** Request validation: every amount a client sends is positive; a settlement may bring no cash. */
  predicate Admissible(op: Op) {
    match op
    case OpCreate(_, _, _, _, _, rent, _, opening, _, _) => rent > 0.0 && op.deposit >= 0.0 && (opening.Some? ==> opening.value > 0.0)
    case OpPay(_, amount, _, _, _) => amount > 0.0
    case OpDiscount(_, amount, _) => amount > 0.0
    case OpAdjust(_, newRent, _, _) => newRent >= 0.0
    case OpSettle(_, cash, _, _) => cash >= 0.0
    case OpRenew(_, _, newRent, _, _) => newRent.Some? ==> newRent.value > 0.0
    case _ => true
  }

  function Step(b: Book, op: Op): Result<Book> {
    match op
    case OpCreate(tenant, shop, currency, start, end, rent, deposit, opening, rateKnown, now) =>
      CreateContract(b, tenant, shop, currency, start, end, rent, deposit, opening, rateKnown, now)
    case OpPay(id, amount, fromDeposit, entry, now) => RecordPayment(b, id, amount, fromDeposit, entry, now)
    case OpDiscount(id, amount, now) => DiscountDebt(b, id, amount, now)
    case OpAdjust(id, newRent, from, now) => AdjustFutureRent(b, id, newRent, from, now)
    case OpSettle(id, cash, entry, now) => SettleRent(b, id, cash, entry, now)
    case OpTerminate(id, day, prorate, now) => Terminate(b, id, day, prorate, now)
    case OpCancel(id) => CancelDraft(b, id)
    case OpRenew(id, newEnd, newRent, newShop, now) => Renew(b, id, newEnd, newRent, newShop, now)
    case OpFlagOverdue(now) => Ok(FlagOverdueCharges(b, now))
    case OpFlagExpired(now) => Ok(FlagExpiredContracts(b, now))
    case OpActivateStarted(now) => Ok(ActivateStartedContracts(b, now))
    case OpRebuild(tenants, now) => Ok(RebuildDebts(b, tenants, now))
  }

  /** A failed transaction leaves the tables as they were. */
  function Apply(b: Book, op: Op): Book {
    match Step(b, op)
    case Ok(b') => b'
    case Err(_) => b
  }

  function Run(b: Book, ops: seq<Op>): Book {
    if ops == [] then b else Apply(Run(b, ops[..|ops| - 1]), ops[|ops| - 1])
  }

  const EMPTY := Book([], [], [], map[])

  // ---- the invariant ----------------------------------------------------------------------------

  /** The contract still stands for its whole term: neither terminated early nor cancelled. */
  predicate Standing(c: Contract) { c.status != EarlyTerminated && c.status != Cancelled }

  ghost predicate Ordered(cs: seq<Charge>) {
    forall i, j | 0 <= i < j < |cs| :: cs[i].periodStart < cs[j].periodStart
  }

  ghost predicate NoneCanceled(cs: seq<Charge>) {
    forall i | 0 <= i < |cs| :: cs[i].status != CANCELED
  }

  ghost predicate PeriodsForward(cs: seq<Charge>) {
    forall i | 0 <= i < |cs| :: cs[i].periodStart <= cs[i].periodEnd
  }

  /** The charges agree in themselves and lie in place, none is dead unless the contract was let for
      nothing, and the deposit is not overdrawn. */
  ghost predicate ContractOk(c: Contract) {
    && AllCoherent(c.charges)
    && Ordered(c.charges)
    && PeriodsForward(c.charges)
    && (Standing(c) ==> Tiles(c.charges, c.startDate, c.endDate) && NoneCanceled(c.charges))
    && (c.rent > 0.0 ==> NoneDead(c.charges))
    && c.depositRemaining >= 0.0
  }

  /** A renewal continues its predecessor exactly where that one, expired for good, ends. */
  ghost predicate RenewalOk(contracts: seq<Contract>, k: nat)
    requires k < |contracts|
  {
    contracts[k].renewedFrom.Some? ==>
      var j := contracts[k].renewedFrom.value;
      && j < k
      && contracts[j].status == Expired
      && contracts[j].endDate == contracts[k].startDate
      && contracts[j].tenant == contracts[k].tenant
      && contracts[j].currency == contracts[k].currency
  }

  ghost predicate ContractsOk(contracts: seq<Contract>) {
    forall k | 0 <= k < |contracts| :: ContractOk(contracts[k]) && RenewalOk(contracts, k)
  }

  function ChargeAllocations(rows: seq<Allocation>, contract: nat, charge: nat): real {
    if rows == [] then 0.0
    else
      var last := rows[|rows| - 1];
      ChargeAllocations(rows[..|rows| - 1], contract, charge)
      + (if last.contract == contract && last.charge == charge then last.amount else 0.0)
  }

  function PaymentAllocations(rows: seq<Allocation>, payment: nat): real {
    if rows == [] then 0.0
    else
      var last := rows[|rows| - 1];
      PaymentAllocations(rows[..|rows| - 1], payment) + (if last.payment == payment then last.amount else 0.0)
  }

  ghost predicate PaidMatches(contracts: seq<Contract>, rows: seq<Allocation>) {
    && (forall r | r in rows :: r.contract < |contracts|)
    && (forall k, i | 0 <= k < |contracts| && 0 <= i < |contracts[k].charges| ::
          ChargeAllocations(rows, k, i) == contracts[k].charges[i].paid)
  }

  ghost predicate PaymentsMatch(payments: seq<Payment>, rows: seq<Allocation>) {
    && (forall r | r in rows :: r.payment < |payments|)
    && (forall p | 0 <= p < |payments| :: PaymentAllocations(rows, p) == payments[p].amount)
  }

  /** Charges are coherent and in place; every charge's allocations sum to what it counts as paid;
      every payment's allocations sum to its amount. */
  ghost predicate Inv(b: Book) {
    && ContractsOk(b.contracts)
    && PaidMatches(b.contracts, b.allocations)
    && PaymentsMatch(b.payments, b.allocations)
  }

  /** On top of the invariant: a charge that is not canceled is PAID exactly when nothing remains. */
  ghost predicate PaidExactly(b: Book) {
    forall k, i | 0 <= k < |b.contracts| && 0 <= i < |b.contracts[k].charges| ::
      var c := b.contracts[k].charges[i];
      c.status != CANCELED ==> (c.status == PAID <==> c.remaining == 0.0)
  }

  ghost predicate NoneDeadIn(contracts: seq<Contract>) {
    forall k | 0 <= k < |contracts| :: NoneDead(contracts[k].charges)
  }

  lemma ExactUnlessDead(b: Book)
    requires Inv(b)
    ensures PaidExactly(b) <==> NoneDeadIn(b.contracts)
  {
    forall k, i | 0 <= k < |b.contracts| && 0 <= i < |b.contracts[k].charges|
      ensures var c := b.contracts[k].charges[i];
              (c.status != CANCELED ==> (c.status == PAID <==> c.remaining == 0.0)) <==> !Dead(c)
    {
      assert ContractOk(b.contracts[k]);
      var c := b.contracts[k].charges[i];
      assert Coherent(c);
      if c.status != CANCELED { PaidExactlyUnlessDead(c); }
    }
  }

  // ---- rewriting the charges of one contract ----------------------------------------------------

  /** Rows keep their periods and are canceled exactly when they were before. */
  ghost predicate SamePeriods(cs: seq<Charge>, ds: seq<Charge>) {
    && |ds| == |cs|
    && (forall i | 0 <= i < |cs| ::
          && ds[i].periodStart == cs[i].periodStart
          && ds[i].periodEnd == cs[i].periodEnd
          && (ds[i].status == CANCELED <==> cs[i].status == CANCELED))
  }

  ghost predicate SamePaid(cs: seq<Charge>, ds: seq<Charge>) {
    |ds| == |cs| && forall i | 0 <= i < |cs| :: ds[i].paid == cs[i].paid
  }

  /** The rewritten rows are coherent, and none of them is dead that was not before. */
  ghost predicate Sound(cs: seq<Charge>, ds: seq<Charge>) {
    && |ds| == |cs|
    && AllCoherent(ds)
    && (forall i | 0 <= i < |cs| :: Dead(ds[i]) ==> Dead(cs[i]))
  }

  lemma OpenAmountsNonNegative(cs: seq<Charge>)
    requires AllCoherent(cs)
    ensures NonNegative(OpenAmounts(cs))
  {
    forall i | 0 <= i < |cs| ensures OpenAmounts(cs)[i] >= 0.0 { assert Coherent(cs[i]); }
  }

  lemma ReachedShare(cs: seq<Charge>, amount: real, i: nat)
    requires NonNegative(OpenAmounts(cs)) && i < |cs| && Reached(cs, amount, i)
    ensures Applies(cs[i], Fifo.Share(OpenAmounts(cs), amount, i))
  {
    assert OpenAmounts(cs)[i] >= 0.0;
  }

  /** What is open after a payment or a discount is what oldest-first consumption leaves. */
  lemma OpenAfter(cs: seq<Charge>, amount: real)
    requires NonNegative(OpenAmounts(cs)) && amount > 0.0
    ensures OpenAmounts(Allocated(cs, amount)) == Fifo.After(OpenAmounts(cs), amount)
    ensures OpenAmounts(Forgiven(cs, amount)) == Fifo.After(OpenAmounts(cs), amount)
  {
    forall i | 0 <= i < |cs|
      ensures OpenAmounts(Allocated(cs, amount))[i] == Fifo.After(OpenAmounts(cs), amount)[i]
      ensures OpenAmounts(Forgiven(cs, amount))[i] == Fifo.After(OpenAmounts(cs), amount)[i]
    {
      assert OpenAmounts(cs)[i] >= 0.0;
    }
  }

  lemma AllocatedKeeps(cs: seq<Charge>, amount: real)
    requires AllCoherent(cs) && amount > 0.0
    ensures Sound(cs, Allocated(cs, amount)) && SamePeriods(cs, Allocated(cs, amount))
  {
    OpenAmountsNonNegative(cs);
    forall i | 0 <= i < |cs|
      ensures var d := Allocated(cs, amount)[i];
              Coherent(d) && (Dead(d) ==> Dead(cs[i])) && (d.status == CANCELED <==> cs[i].status == CANCELED)
    {
      assert Coherent(cs[i]);
      if Reached(cs, amount, i) {
        ReachedShare(cs, amount, i);
        PayCoherent(cs[i], Fifo.Share(OpenAmounts(cs), amount, i));
      }
    }
  }

  lemma ForgivenKeeps(cs: seq<Charge>, amount: real)
    requires AllCoherent(cs) && amount > 0.0
    ensures var ds := Forgiven(cs, amount);
            Sound(cs, ds) && SamePeriods(cs, ds) && SamePaid(cs, ds)
  {
    OpenAmountsNonNegative(cs);
    forall i | 0 <= i < |cs|
      ensures var d := Forgiven(cs, amount)[i];
              Coherent(d) && (Dead(d) ==> Dead(cs[i])) && (d.status == CANCELED <==> cs[i].status == CANCELED)
    {
      assert Coherent(cs[i]);
      if Reached(cs, amount, i) {
        ReachedShare(cs, amount, i);
        ForgiveCoherent(cs[i], Fifo.Share(OpenAmounts(cs), amount, i));
      }
    }
  }

  lemma WrittenOffKeeps(cs: seq<Charge>)
    requires AllCoherent(cs)
    ensures var ds := WrittenOff(cs);
            Sound(cs, ds) && SamePeriods(cs, ds) && SamePaid(cs, ds) && forall c | c in ds :: !Open(c)
  {
    forall i | 0 <= i < |cs| ensures Coherent(WrittenOff(cs)[i]) { assert Coherent(cs[i]); }
  }

  lemma AdjustedKeeps(cs: seq<Charge>, newRent: real, effectiveFrom: int)
    requires AllCoherent(cs) && newRent >= 0.0
    requires forall c | c in cs && Adjustable(c, effectiveFrom) :: c.days != 0
    ensures var ds := Adjusted(cs, newRent, effectiveFrom);
            Sound(cs, ds) && SamePeriods(cs, ds) && SamePaid(cs, ds)
  {
    forall i | 0 <= i < |cs|
      ensures var d := Adjusted(cs, newRent, effectiveFrom)[i]; Coherent(d) && (Dead(d) ==> Dead(cs[i]))
    {
      assert Coherent(cs[i]);
      if Adjustable(cs[i], effectiveFrom) { RepriceCoherent(cs[i], newRent); }
    }
  }

  lemma FlaggedKeeps(cs: seq<Charge>, now: real)
    requires AllCoherent(cs)
    ensures var ds := Flagged(cs, now);
            Sound(cs, ds) && SamePeriods(cs, ds) && SamePaid(cs, ds)
  {
    forall i | 0 <= i < |cs| ensures Coherent(Flagged(cs, now)[i]) { assert Coherent(cs[i]); }
  }

  lemma FlaggingOpensNothing(cs: seq<Charge>, now: real)
    ensures OpenAmounts(Flagged(cs, now)) == OpenAmounts(cs)
  {
  }

  lemma CanceledKeeps(cs: seq<Charge>)
    requires AllCoherent(cs)
    ensures var ds := AllCanceled(cs);
            && Sound(cs, ds) && SamePaid(cs, ds)
            && (forall i | 0 <= i < |cs| :: ds[i].periodStart == cs[i].periodStart && ds[i].periodEnd == cs[i].periodEnd)
  {
    forall i | 0 <= i < |cs| ensures Coherent(AllCanceled(cs)[i]) { assert Coherent(cs[i]); }
  }

  lemma {:induction false} FirstSpanningFinds(cs: seq<Charge>, day: int, i: nat)
    requires i <= |cs|
    ensures var r := FirstSpanning(cs, day, i);
            match r
            case Some(k) => i <= k < |cs| && Spans(cs[k], day) && forall j | i <= j < k :: !Spans(cs[j], day)
            case None => forall j | i <= j < |cs| :: !Spans(cs[j], day)
    decreases |cs| - i
  {
    if i < |cs| && !Spans(cs[i], day) {
      FirstSpanningFinds(cs, day, i + 1);
    }
  }

  /** Rows keep where they start, still run forward, and count as paid what they did. */
  ghost predicate SameStarts(cs: seq<Charge>, ds: seq<Charge>) {
    SamePaid(cs, ds) && PeriodsForward(ds) && forall i | 0 <= i < |cs| :: ds[i].periodStart == cs[i].periodStart
  }

  lemma CutShortKeeps(cs: seq<Charge>, day: int, prorate: bool)
    requires AllCoherent(cs) && NoneCanceled(cs) && PeriodsForward(cs)
    ensures Sound(cs, CutShort(cs, day, prorate)) && SameStarts(cs, CutShort(cs, day, prorate))
  {
    FirstSpanningFinds(cs, day, 0);
    match FirstSpanning(cs, day, 0)
    case Some(k) => assert Coherent(cs[k]); ProrateCoherent(cs[k], day);
    case None =>
  }

  lemma CancelFromKeeps(cs: seq<Charge>, day: int)
    requires AllCoherent(cs) && PeriodsForward(cs)
    ensures Sound(cs, CancelFrom(cs, day)) && SameStarts(cs, CancelFrom(cs, day))
  {
    forall i | 0 <= i < |cs| ensures Coherent(CancelFrom(cs, day)[i]) { assert Coherent(cs[i]); }
  }

  lemma TerminatedKeeps(cs: seq<Charge>, day: int, prorate: bool)
    requires AllCoherent(cs) && NoneCanceled(cs) && PeriodsForward(cs)
    ensures Sound(cs, Terminated(cs, day, prorate)) && SameStarts(cs, Terminated(cs, day, prorate))
  {
    CutShortKeeps(cs, day, prorate);
    CancelFromKeeps(CutShort(cs, day, prorate), day);
  }

  // ---- allocations ------------------------------------------------------------------------------

  lemma {:induction false} AllocationsConcatenate(a: seq<Allocation>, b: seq<Allocation>, contract: nat, charge: nat,
                                                  payment: nat)
    ensures ChargeAllocations(a + b, contract, charge)
         == ChargeAllocations(a, contract, charge) + ChargeAllocations(b, contract, charge)
    ensures PaymentAllocations(a + b, payment) == PaymentAllocations(a, payment) + PaymentAllocations(b, payment)
  {
    if b == [] {
      assert a + b == a;
    } else {
      assert (a + b)[..|a + b| - 1] == a + b[..|b| - 1];
      AllocationsConcatenate(a, b[..|b| - 1], contract, charge, payment);
    }
  }

  lemma {:induction false} NoAllocations(rows: seq<Allocation>, contract: nat, charge: nat, payment: nat)
    ensures (forall r | r in rows :: r.contract != contract) ==> ChargeAllocations(rows, contract, charge) == 0.0
    ensures (forall r | r in rows :: r.payment != payment) ==> PaymentAllocations(rows, payment) == 0.0
  {
    if rows != [] {
      var init, last := rows[..|rows| - 1], rows[|rows| - 1];
      NoAllocations(init, contract, charge, payment);
      assert forall r :: r in init ==> r in rows;
      assert last in rows;
    }
  }

  lemma {:induction false} AllocationRowsSum(cs: seq<Charge>, amount: real, payment: nat, contract: nat, k: nat,
                                             charge: nat)
    requires NonNegative(OpenAmounts(cs)) && amount > 0.0 && k <= |cs|
    ensures var rows := AllocationRows(cs, amount, payment, contract, k);
            && (forall r | r in rows :: r.payment == payment && r.contract == contract)
            && ChargeAllocations(rows, contract, charge)
               == (if charge < k && Reached(cs, amount, charge) then Fifo.Share(OpenAmounts(cs), amount, charge) else 0.0)
            && PaymentAllocations(rows, payment) == Prefix(Fifo.Shares(OpenAmounts(cs), amount), k)
  {
    if k > 0 {
      AllocationRowsSum(cs, amount, payment, contract, k - 1, charge);
      assert OpenAmounts(cs)[k - 1] >= 0.0;
      var init := AllocationRows(cs, amount, payment, contract, k - 1);
      var share := Fifo.Share(OpenAmounts(cs), amount, k - 1);
      if Reached(cs, amount, k - 1) {
        var row := Allocation(payment, contract, k - 1, share);
        assert (init + [row])[..|init|] == init;
      } else {
        assert share == 0.0;
        assert init + [] == init;
      }
    }
  }

  /** Recording a payment keeps the books of allocations balanced, per charge and per payment. */
  lemma PaymentKeepsAllocations(b: Book, id: nat, amount: real, contracts: seq<Contract>)
    requires Inv(b) && id < |b.contracts| && 0.0 < amount <= OpenDebt(b.contracts[id].charges)
    requires |contracts| == |b.contracts|
    requires contracts[id].charges == Allocated(b.contracts[id].charges, amount)
    requires forall k | 0 <= k < |contracts| && k != id :: contracts[k] == b.contracts[k]
    ensures var cs := b.contracts[id].charges;
            var rows := b.allocations + AllocationRows(cs, amount, |b.payments|, id, |cs|);
            PaidMatches(contracts, rows) && PaymentsMatch(b.payments + [Payment(id, amount)], rows)
  {
    var cs := b.contracts[id].charges;
    assert ContractOk(b.contracts[id]);
    var added := AllocationRows(cs, amount, |b.payments|, id, |cs|);
    var rows := b.allocations + added;
    OpenAmountsNonNegative(cs);
    Fifo.SharesAddUp(OpenAmounts(cs), amount);
    forall k, i | 0 <= k < |contracts| && 0 <= i < |contracts[k].charges|
      ensures ChargeAllocations(rows, k, i) == contracts[k].charges[i].paid
    {
      AllocationsConcatenate(b.allocations, added, k, i, 0);
      AllocationRowsSum(cs, amount, |b.payments|, id, |cs|, i);
      NoAllocations(added, k, i, 0);
    }
    var payments := b.payments + [Payment(id, amount)];
    forall p | 0 <= p < |payments|
      ensures PaymentAllocations(rows, p) == payments[p].amount
    {
      AllocationsConcatenate(b.allocations, added, 0, 0, p);
      AllocationRowsSum(cs, amount, |b.payments|, id, |cs|, 0);
      NoAllocations(added, 0, 0, p);
      NoAllocations(b.allocations, 0, 0, p);
    }
    AllocationRowsSum(cs, amount, |b.payments|, id, |cs|, 0);
  }

  // ---- every step -------------------------------------------------------------------------------

  /** A contract rewritten in place: sound charges, nothing paid, the same place in its chain. */
  ghost predicate Rewrites(c: Contract, d: Contract) {
    && ContractOk(d)
    && SamePaid(c.charges, d.charges)
    && Sound(c.charges, d.charges)
    && d.renewedFrom == c.renewedFrom && d.startDate == c.startDate
    && d.tenant == c.tenant && d.currency == c.currency
    && (c.status == Expired ==> d.status == Expired && d.endDate == c.endDate)
  }

  /** Replacing one contract by a rewritten one keeps every other fact. */
  lemma ReplaceContract(b: Book, id: nat, d: Contract, debts: DebtCache) returns (after: Book)
    requires Inv(b) && id < |b.contracts| && Rewrites(b.contracts[id], d)
    ensures after == b.(contracts := b.contracts[id := d], debts := debts)
    ensures Inv(after) && (NoneDeadIn(b.contracts) ==> NoneDeadIn(after.contracts))
  {
    after := b.(contracts := b.contracts[id := d], debts := debts);
    forall k | 0 <= k < |after.contracts|
      ensures ContractOk(after.contracts[k]) && RenewalOk(after.contracts, k)
    {
      assert ContractOk(b.contracts[k]) && RenewalOk(b.contracts, k);
    }
    if NoneDeadIn(b.contracts) {
      assert NoneDead(b.contracts[id].charges);
      forall k | 0 <= k < |after.contracts| ensures NoneDead(after.contracts[k].charges) {
        assert NoneDead(b.contracts[k].charges);
      }
    }
  }

  lemma PaidContractOk(c: Contract, amount: real, deposit: real)
    requires ContractOk(c) && amount > 0.0 && deposit >= 0.0
    ensures ContractOk(c.(charges := Allocated(c.charges, amount), depositRemaining := deposit))
  {
    AllocatedKeeps(c.charges, amount);
  }

  lemma ReplacedContractsOk(contracts: seq<Contract>, id: nat, c: Contract)
    requires ContractsOk(contracts) && id < |contracts| && ContractOk(c) && Sound(contracts[id].charges, c.charges)
    requires c.renewedFrom == contracts[id].renewedFrom && c.startDate == contracts[id].startDate && c.endDate == contracts[id].endDate
    requires c.tenant == contracts[id].tenant && c.currency == contracts[id].currency && c.status == contracts[id].status
    ensures ContractsOk(contracts[id := c]) && (NoneDeadIn(contracts) ==> NoneDeadIn(contracts[id := c]))
  {
    var after := contracts[id := c];
    forall k | 0 <= k < |after|
      ensures ContractOk(after[k]) && RenewalOk(after, k)
      ensures NoneDeadIn(contracts) ==> NoneDead(after[k].charges)
    {
      assert ContractOk(contracts[k]) && RenewalOk(contracts, k);
      assert NoneDeadIn(contracts) ==> NoneDead(contracts[k].charges);
    }
  }

  lemma PaidContractsOk(contracts: seq<Contract>, id: nat, amount: real, fromDeposit: bool)
    requires ContractsOk(contracts) && id < |contracts| && amount > 0.0
    requires fromDeposit ==> amount <= contracts[id].depositRemaining
    ensures var after := PaidContracts(contracts, id, amount, fromDeposit);
            ContractsOk(after) && (NoneDeadIn(contracts) ==> NoneDeadIn(after))
  {
    var c := contracts[id];
    var left := if fromDeposit then c.depositRemaining - amount else c.depositRemaining;
    assert ContractOk(c);
    PaidContractOk(c, amount, left);
    AllocatedKeeps(c.charges, amount);
    ReplacedContractsOk(contracts, id, c.(charges := Allocated(c.charges, amount), depositRemaining := left));
  }

  lemma PayKeeps(b: Book, id: nat, amount: real, fromDeposit: bool, entry: PaymentEntry, now: real)
    requires Inv(b) && amount > 0.0 && RecordPayment(b, id, amount, fromDeposit, entry, now).Ok?
    ensures var b' := RecordPayment(b, id, amount, fromDeposit, entry, now).value;
            Inv(b') && |b'.contracts| == |b.contracts| && (NoneDeadIn(b.contracts) ==> NoneDeadIn(b'.contracts))
  {
    PaidContractsOk(b.contracts, id, amount, fromDeposit);
    PaymentKeepsAllocations(b, id, amount, PaidContracts(b.contracts, id, amount, fromDeposit));
  }

  lemma WriteOffKeeps(b: Book, id: nat, now: real)
    requires Inv(b) && id < |b.contracts|
    ensures Inv(WriteOffOpenCharges(b, id, now))
    ensures NoneDeadIn(b.contracts) ==> NoneDeadIn(WriteOffOpenCharges(b, id, now).contracts)
  {
    var c := b.contracts[id];
    assert ContractOk(c);
    WrittenOffKeeps(c.charges);
    var after := ReplaceContract(b, id, c.(charges := WrittenOff(c.charges)), WriteOffOpenCharges(b, id, now).debts);
  }

  lemma FreshContractOk(c: Contract)
    requires c.startDate < c.endDate && c.charges == Charges(c.startDate, c.endDate, c.rent) && c.rent >= 0.0
    requires c.depositRemaining >= 0.0
    ensures ContractOk(c) && (NoneDead(c.charges) <==> c.rent > 0.0)
    ensures forall i | 0 <= i < |c.charges| :: c.charges[i].paid == 0.0
  {
    GeneratedChargesTile(c.startDate, c.endDate, c.rent);
    GeneratedChargesCoherent(c.startDate, c.endDate, c.rent);
    forall i, j | 0 <= i < j < |c.charges|
      ensures c.charges[i].periodStart < c.charges[j].periodStart
    {
      TiledPeriodsIncrease(c.charges, c.startDate, c.endDate, i, j);
    }
    forall i | 0 <= i < |c.charges| ensures c.charges[i].status != CANCELED && c.charges[i].paid == 0.0 {
      assert BillsOnePeriod(c.charges[i], c.rent);
    }
  }

  /** The contract continues an expired one, if any, where that one ended. */
  ghost predicate Continues(contracts: seq<Contract>, c: Contract) {
    c.renewedFrom.Some? ==>
      var j := c.renewedFrom.value;
      && j < |contracts| && contracts[j].status == Expired && contracts[j].endDate == c.startDate
      && contracts[j].tenant == c.tenant && contracts[j].currency == c.currency
  }

  /** A new contract that starts from freshly generated charges keeps the invariant; it brings dead
      charges exactly when the rent it bills is zero. */
  lemma AppendContract(b: Book, c: Contract, debts: DebtCache) returns (after: Book)
    requires Inv(b) && Continues(b.contracts, c) && Standing(c) && c.depositRemaining >= 0.0
    requires c.startDate < c.endDate && c.charges == Charges(c.startDate, c.endDate, c.rent) && c.rent >= 0.0
    ensures after == b.(contracts := b.contracts + [c], debts := debts) && Inv(after)
    ensures NoneDeadIn(b.contracts) ==> (NoneDeadIn(after.contracts) <==> c.rent > 0.0)
  {
    after := b.(contracts := b.contracts + [c], debts := debts);
    var contracts := after.contracts;
    FreshContractOk(c);
    forall k | 0 <= k < |contracts|
      ensures ContractOk(contracts[k]) && RenewalOk(contracts, k)
    {
      if k < |b.contracts| { assert ContractOk(b.contracts[k]) && RenewalOk(b.contracts, k); }
    }
    forall k, i | 0 <= k < |contracts| && 0 <= i < |contracts[k].charges|
      ensures ChargeAllocations(b.allocations, k, i) == contracts[k].charges[i].paid
    {
      if k == |b.contracts| { NoAllocations(b.allocations, k, i, 0); }
    }
    AppendedDead(b.contracts, c);
  }

  lemma AppendedDead(contracts: seq<Contract>, c: Contract)
    ensures NoneDeadIn(contracts + [c]) <==> NoneDeadIn(contracts) && NoneDead(c.charges)
  {
    var after := contracts + [c];
    assert after[|contracts|] == c;
    assert forall k | 0 <= k < |contracts| :: after[k] == contracts[k];
  }

  /** The guard a caller of `renew` can check: the rent the renewal will bill is positive. */
  predicate BillsPositiveRent(b: Book, op: Op) {
    op.OpRenew? && op.id < |b.contracts| ==> RenewalRent(b.contracts[op.id], op.rentAsked) > 0.0
  }

  /** A renewal never bills a negative rent. */
  lemma RenewalRentNonNegative(c: Contract, rent: Option<real>)
    requires ContractOk(c) && Standing(c) && (rent.Some? ==> rent.value > 0.0)
    ensures RenewalRent(c, rent) >= 0.0
  {
    assert Coherent(c.charges[|c.charges| - 1]);
  }

  lemma RenewKeeps(b: Book, op: Op)
    requires Inv(b) && op.OpRenew? && Admissible(op) && Step(b, op).Ok?
    ensures Inv(Step(b, op).value)
    ensures NoneDeadIn(b.contracts) ==> (NoneDeadIn(Step(b, op).value.contracts) <==> BillsPositiveRent(b, op))
  {
    var c := b.contracts[op.id];
    assert ContractOk(c);
    RenewalRentNonNegative(c, op.rentAsked);
    var closed := c.(status := Expired, depositRemaining := 0.0);
    var middle := ReplaceContract(b, op.id, closed, b.debts);
    var b' := Step(b, op).value;
    var next := b'.contracts[|b.contracts|];
    assert b' == middle.(contracts := middle.contracts + [next], debts := middle.debts);
    var after := AppendContract(middle, next, middle.debts);
  }

  lemma CreateKeeps(b: Book, op: Op)
    requires Inv(b) && op.OpCreate? && Admissible(op) && Step(b, op).Ok?
    ensures Inv(Step(b, op).value)
    ensures NoneDeadIn(b.contracts) ==> NoneDeadIn(Step(b, op).value.contracts)
  {
    var status := if op.start as real <= op.now then Active else Draft;
    var c := Contract(op.tenant, op.shop, op.currency, op.start, op.end, op.rent, status, op.deposit, None,
                      Charges(op.start, op.end, op.rent));
    var contracts := b.contracts + [c];
    var created := AppendContract(b, c, Recomputed(contracts, b.debts, op.tenant, op.now));
    if op.openingPaid.Some? {
      PayKeeps(created, |b.contracts|, op.openingPaid.value, false, PaymentEntry(false, op.rateKnown), op.now);
    }
  }

  lemma OverdueFlagsKeep(b: Book, now: real)
    requires Inv(b)
    ensures Inv(FlagOverdueCharges(b, now))
    ensures NoneDeadIn(b.contracts) ==> NoneDeadIn(FlagOverdueCharges(b, now).contracts)
  {
    var b' := FlagOverdueCharges(b, now);
    forall k | 0 <= k < |b.contracts|
      ensures ContractOk(b'.contracts[k]) && RenewalOk(b'.contracts, k) && SamePaid(b.contracts[k].charges, b'.contracts[k].charges)
      ensures NoneDeadIn(b.contracts) ==> NoneDead(b'.contracts[k].charges)
    {
      assert ContractOk(b.contracts[k]) && RenewalOk(b.contracts, k);
      assert NoneDeadIn(b.contracts) ==> NoneDead(b.contracts[k].charges);
      FlaggedKeeps(b.contracts[k].charges, now);
    }
  }

  lemma StatusFlagsKeep(b: Book, now: real)
    requires Inv(b)
    ensures Inv(FlagExpiredContracts(b, now)) && Inv(ActivateStartedContracts(b, now))
  {
    var expired, started := FlagExpiredContracts(b, now), ActivateStartedContracts(b, now);
    forall k | 0 <= k < |b.contracts|
      ensures ContractOk(expired.contracts[k]) && RenewalOk(expired.contracts, k)
      ensures ContractOk(started.contracts[k]) && RenewalOk(started.contracts, k)
    {
      assert ContractOk(b.contracts[k]) && RenewalOk(b.contracts, k);
    }
  }

  lemma StatusFlagsKillNothing(b: Book, now: real)
    requires NoneDeadIn(b.contracts)
    ensures NoneDeadIn(FlagExpiredContracts(b, now).contracts) && NoneDeadIn(ActivateStartedContracts(b, now).contracts)
  {
    var expired, started := FlagExpiredContracts(b, now), ActivateStartedContracts(b, now);
    forall k | 0 <= k < |b.contracts|
      ensures NoneDead(expired.contracts[k].charges) && NoneDead(started.contracts[k].charges)
    {
      assert NoneDead(b.contracts[k].charges);
    }
  }

  lemma DiscountRewrites(c: Contract, amount: real) returns (d: Contract)
    requires ContractOk(c) && amount > 0.0
    ensures d == c.(charges := Forgiven(c.charges, amount)) && Rewrites(c, d)
  {
    ForgivenKeeps(c.charges, amount);
    d := c.(charges := Forgiven(c.charges, amount));
  }

  lemma DiscountKeeps(b: Book, op: Op)
    requires Inv(b) && op.OpDiscount? && Admissible(op) && Step(b, op).Ok?
    ensures Inv(Step(b, op).value)
    ensures NoneDeadIn(b.contracts) ==> NoneDeadIn(Step(b, op).value.contracts)
  {
    assert ContractOk(b.contracts[op.id]);
    var d := DiscountRewrites(b.contracts[op.id], op.amount);
    var after := ReplaceContract(b, op.id, d, Step(b, op).value.debts);
  }

  lemma AdjustmentRewrites(c: Contract, newRent: real, effectiveFrom: int) returns (d: Contract)
    requires ContractOk(c) && newRent >= 0.0
    requires forall x | x in c.charges && Adjustable(x, effectiveFrom) :: x.days != 0
    ensures d == c.(charges := Adjusted(c.charges, newRent, effectiveFrom)) && Rewrites(c, d)
  {
    AdjustedKeeps(c.charges, newRent, effectiveFrom);
    d := c.(charges := Adjusted(c.charges, newRent, effectiveFrom));
  }

  /** What an adjustment that goes through found and left. */
  lemma AdjustmentIs(b: Book, id: nat, newRent: real, effectiveFrom: int, now: real) returns (debts: DebtCache)
    requires AdjustFutureRent(b, id, newRent, effectiveFrom, now).Ok?
    ensures id < |b.contracts| && b.contracts[id].status == Active
    ensures forall x | x in b.contracts[id].charges && Adjustable(x, effectiveFrom) :: x.days != 0
    ensures var cs := b.contracts[id].charges;
            AdjustFutureRent(b, id, newRent, effectiveFrom, now).value
            == b.(contracts := WithCharges(b.contracts, id, Adjusted(cs, newRent, effectiveFrom)), debts := debts)
  {
    debts := AdjustFutureRent(b, id, newRent, effectiveFrom, now).value.debts;
  }

  lemma AdjustKeeps(b: Book, op: Op)
    requires Inv(b) && op.OpAdjust? && Admissible(op) && Step(b, op).Ok?
    ensures Inv(Step(b, op).value)
    ensures NoneDeadIn(b.contracts) ==> NoneDeadIn(Step(b, op).value.contracts)
  {
    var debts := AdjustmentIs(b, op.id, op.newRent, op.effectiveFrom, op.now);
    assert ContractOk(b.contracts[op.id]);
    var d := AdjustmentRewrites(b.contracts[op.id], op.newRent, op.effectiveFrom);
    var after := ReplaceContract(b, op.id, d, debts);
  }

  lemma TerminationRewrites(c: Contract, day: int, prorate: bool) returns (d: Contract)
    requires ContractOk(c) && (c.status == Active || c.status == Suspended)
    ensures d == c.(charges := Terminated(c.charges, day, prorate), status := EarlyTerminated, endDate := day)
    ensures Rewrites(c, d)
  {
    TerminatedKeeps(c.charges, day, prorate);
    d := c.(charges := Terminated(c.charges, day, prorate), status := EarlyTerminated, endDate := day);
  }

  lemma TerminateKeeps(b: Book, op: Op)
    requires Inv(b) && op.OpTerminate? && Step(b, op).Ok?
    ensures Inv(Step(b, op).value)
    ensures NoneDeadIn(b.contracts) ==> NoneDeadIn(Step(b, op).value.contracts)
  {
    assert ContractOk(b.contracts[op.id]);
    var d := TerminationRewrites(b.contracts[op.id], op.day, op.prorate);
    var after := ReplaceContract(b, op.id, d, Step(b, op).value.debts);
  }

  lemma CancelKeeps(b: Book, op: Op)
    requires Inv(b) && op.OpCancel? && Step(b, op).Ok?
    ensures Inv(Step(b, op).value)
    ensures NoneDeadIn(b.contracts) ==> NoneDeadIn(Step(b, op).value.contracts)
  {
    var c := b.contracts[op.id];
    assert ContractOk(c);
    CanceledKeeps(c.charges);
    var after := ReplaceContract(b, op.id, c.(charges := AllCanceled(c.charges), status := Cancelled), b.debts);
  }

  lemma SettleKeeps(b: Book, op: Op)
    requires Inv(b) && op.OpSettle? && Admissible(op) && Step(b, op).Ok?
    ensures Inv(Step(b, op).value)
    ensures NoneDeadIn(b.contracts) ==> NoneDeadIn(Step(b, op).value.contracts)
  {
    if op.cash > 0.0 {
      PayKeeps(b, op.id, op.cash, false, op.entry, op.now);
      WriteOffKeeps(RecordPayment(b, op.id, op.cash, false, op.entry, op.now).value, op.id, op.now);
    } else {
      WriteOffKeeps(b, op.id, op.now);
    }
  }

  /** One step of the rent engine keeps the invariant. It brings no dead charge exactly when it is not
      a renewal that bills a zero rent. */
  lemma StepKeeps(b: Book, op: Op)
    requires Inv(b) && Admissible(op) && Step(b, op).Ok?
    ensures Inv(Step(b, op).value)
    ensures NoneDeadIn(b.contracts) ==> (NoneDeadIn(Step(b, op).value.contracts) <==> BillsPositiveRent(b, op))
  {
    match op {
      case OpCreate(_, _, _, _, _, _, _, _, _, _) => CreateKeeps(b, op);
      case OpPay(id, amount, fromDeposit, entry, now) => PayKeeps(b, id, amount, fromDeposit, entry, now);
      case OpSettle(_, _, _, _) => SettleKeeps(b, op);
      case OpRenew(_, _, _, _, _) => RenewKeeps(b, op);
      case OpFlagOverdue(now) => OverdueFlagsKeep(b, now);
      case OpFlagExpired(now) => StatusFlagsKeep(b, now); if NoneDeadIn(b.contracts) { StatusFlagsKillNothing(b, now); }
      case OpActivateStarted(now) => StatusFlagsKeep(b, now); if NoneDeadIn(b.contracts) { StatusFlagsKillNothing(b, now); }
      case OpRebuild(_, _) =>
      case OpDiscount(_, _, _) => DiscountKeeps(b, op);
      case OpAdjust(_, _, _, _) => AdjustKeeps(b, op);
      case OpTerminate(_, _, _, _) => TerminateKeeps(b, op);
      case OpCancel(_) => CancelKeeps(b, op);
    }
  }

  /** Every step keeps the invariant; PAID exactly when nothing remains survives a step if and only if
      the step is not a renewal that bills a zero rent. */
  lemma StepKeepsInvariant(b: Book, op: Op)
    requires Inv(b) && Admissible(op) && Step(b, op).Ok?
    ensures Inv(Step(b, op).value)
    ensures PaidExactly(b) ==> (PaidExactly(Step(b, op).value) <==> BillsPositiveRent(b, op))
  {
    StepKeeps(b, op);
    ExactUnlessDead(b);
    ExactUnlessDead(Step(b, op).value);
  }

  /** Every renewal that went through billed a positive rent. */
  ghost predicate RenewalsBillPositiveRent(b: Book, ops: seq<Op>) {
    ops != [] ==>
      var init, last := ops[..|ops| - 1], ops[|ops| - 1];
      && RenewalsBillPositiveRent(b, init)
      && (Step(Run(b, init), last).Ok? ==> BillsPositiveRent(Run(b, init), last))
  }

  /** PAID exactly when nothing remains, now and after every earlier step. */
  ghost predicate PaidExactlyThroughout(b: Book, ops: seq<Op>) {
    PaidExactly(Run(b, ops)) && (ops != [] ==> PaidExactlyThroughout(b, ops[..|ops| - 1]))
  }

  ghost predicate AllAdmissible(ops: seq<Op>) {
    forall op | op in ops :: Admissible(op)
  }

  lemma EmptyIsCoherent()
    ensures Inv(EMPTY) && PaidExactly(EMPTY)
  {
  }

  /** Over every serial run the invariant holds throughout, whatever is renewed. */
  lemma {:induction false} RunKeepsInvariant(b: Book, ops: seq<Op>)
    requires Inv(b) && AllAdmissible(ops)
    ensures Inv(Run(b, ops))
  {
    if ops != [] {
      var init, last := ops[..|ops| - 1], ops[|ops| - 1];
      assert forall op | op in init :: op in ops;
      RunKeepsInvariant(b, init);
      assert last in ops;
      if Step(Run(b, init), last).Ok? {
        StepKeepsInvariant(Run(b, init), last);
      }
    }
  }

  /** Over every serial run, charges are PAID exactly when nothing remains, throughout, if and only if
      every renewal that went through billed a positive rent. */
  lemma {:induction false} RunKeepsPaidExactly(b: Book, ops: seq<Op>)
    requires Inv(b) && PaidExactly(b) && AllAdmissible(ops)
    ensures PaidExactlyThroughout(b, ops) <==> RenewalsBillPositiveRent(b, ops)
  {
    if ops != [] {
      var init, last := ops[..|ops| - 1], ops[|ops| - 1];
      assert forall op | op in init :: op in ops;
      RunKeepsPaidExactly(b, init);
      RunKeepsInvariant(b, init);
      assert last in ops;
      var before := Run(b, init);
      if PaidExactly(before) && Step(before, last).Ok? {
        StepKeepsInvariant(before, last);
      }
    }
  }

  /** A contract let at a positive rent keeps it whatever happens to others: in every state of every
      run its charges that are not canceled are PAID exactly when nothing remains. */
  lemma LetAtARentPaysExactly(b: Book, ops: seq<Op>, k: nat, i: nat)
    requires Inv(b) && AllAdmissible(ops)
    requires k < |Run(b, ops).contracts| && Run(b, ops).contracts[k].rent > 0.0
    requires i < |Run(b, ops).contracts[k].charges| && Run(b, ops).contracts[k].charges[i].status != CANCELED
    ensures var c := Run(b, ops).contracts[k].charges[i];
            c.status == PAID <==> c.remaining == 0.0
  {
    RunKeepsInvariant(b, ops);
    assert ContractOk(Run(b, ops).contracts[k]);
    PaidExactlyUnlessDead(Run(b, ops).contracts[k].charges[i]);
  }

  // ---- dead charges and payments ----------------------------------------------------------------

  /** A payment that reaches a dead charge closes it: it receives nothing and becomes PAID. A dead
      charge that no payment reaches stays as it is. */
  lemma PaymentClosesDeadCharge(cs: seq<Charge>, amount: real, i: nat)
    requires AllCoherent(cs) && amount > 0.0 && i < |cs| && Dead(cs[i])
    ensures var d := Allocated(cs, amount)[i];
            if Prefix(OpenAmounts(cs), i) < amount then d == cs[i].(status := PAID) else d == cs[i]
  {
    OpenAmountsNonNegative(cs);
    assert Coherent(cs[i]);
  }
}
