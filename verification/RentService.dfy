/** The rent engine as it runs: row by row over the rent tables, inside a transaction that either
    commits or restores the tables. Every method is proved against its function in RentOps. */
module RentService {
  import opened Basics
  import opened RentCharges
  import opened ChargeGeneration
  import opened RentTables
  import opened RentDebts
  import Ops = RentOps
  import RR = RentRuns
  import RT = RentTheorems
  import Fifo

  /** The outcome a caller sees and the tables it finds, given what the specification says. */
  ghost predicate Outcome(spec: Result<Book>, before: Book, after: Book, error: Option<string>) {
    match spec
    case Ok(b) => error == None && after == b
    case Err(reason) => error == Some(reason) && after == before
  }

  /** Sound rent tables stay sound: rows agree in themselves and lie in place, and every payment is
      allocated in full. */
  ghost predicate Kept(before: Book, after: Book) { RR.Inv(before) ==> RR.Inv(after) }

  /** An operation that went through leaves the tenant's debt rows agreeing with the charges. */
  ghost predicate Refreshed(before: Book, after: Book, id: nat, now: real, error: Option<string>) {
    RR.Inv(before) && error.None? ==>
      id < |after.contracts| && CacheAgrees(after.contracts, after.debts, after.contracts[id].tenant, now)
  }

  lemma OperationKeeps(before: Book, op: RR.Op, after: Book, error: Option<string>)
    requires Outcome(RR.Step(before, op), before, after, error)
    ensures RR.Admissible(op) ==> Kept(before, after)
  {
    if RR.Inv(before) && RR.Admissible(op) && error.None? { RR.StepKeepsInvariant(before, op); }
  }

  lemma TenantStays(before: Book, op: RR.Op, id: nat)
    requires (op.OpPay? || op.OpDiscount? || op.OpAdjust? || op.OpTerminate?) && op.id == id && RR.Step(before, op).Ok?
    ensures var after := RR.Step(before, op).value;
            id < |after.contracts| == |before.contracts| && after.contracts[id].tenant == before.contracts[id].tenant
  {
  }

  lemma OperationRefreshes(before: Book, op: RR.Op, id: nat, after: Book, error: Option<string>)
    requires Outcome(RR.Step(before, op), before, after, error)
    requires (op.OpPay? || op.OpDiscount? || op.OpAdjust? || op.OpTerminate?) && op.id == id && RR.Admissible(op)
    ensures Refreshed(before, after, id, op.now, error)
  {
    if RR.Inv(before) && error.None? {
      TenantStays(before, op, id);
      RT.RecomputingStepAgrees(before, op);
    }
  }

  lemma {:induction false} RowsStop(cs: seq<Charge>, amount: real, payment: nat, contract: nat, i: nat, k: nat)
    requires i <= k <= |cs| && forall j | i <= j < k :: !Ops.Reached(cs, amount, j)
    ensures Ops.AllocationRows(cs, amount, payment, contract, k) == Ops.AllocationRows(cs, amount, payment, contract, i)
    decreases k
  {
    if i < k {
      RowsStop(cs, amount, payment, contract, i, k - 1);
    }
  }

  /** The rows of a walk that has rewritten the first `i` of them. */
  function Partly(after: seq<Charge>, before: seq<Charge>, i: nat): seq<Charge>
    requires |after| == |before|
  {
    seq(|before|, j requires 0 <= j < |before| => if j < i then after[j] else before[j])
  }

  lemma PartlyStarts(after: seq<Charge>, before: seq<Charge>)
    requires |after| == |before|
    ensures Partly(after, before, 0) == before
  {
  }

  lemma PartlyStep(after: seq<Charge>, before: seq<Charge>, i: nat)
    requires |after| == |before| && i < |before|
    ensures Partly(after, before, i)[i := after[i]] == Partly(after, before, i + 1)
    ensures after[i] == before[i] ==> Partly(after, before, i) == Partly(after, before, i + 1)
  {
  }

  lemma PartlyEnds(after: seq<Charge>, before: seq<Charge>, i: nat)
    requires |after| == |before| && i <= |before|
    requires forall j | i <= j < |before| :: after[j] == before[j]
    ensures Partly(after, before, i) == after
  {
  }

  /** What the running remainder hands to row `i` is that row's share. */
  lemma RunningShare(cs: seq<Charge>, amount: real, i: nat, remaining: real)
    requires NonNegative(Ops.OpenAmounts(cs)) && i < |cs|
    requires remaining == Max(0.0, amount - Prefix(Ops.OpenAmounts(cs), i)) && remaining != 0.0
    ensures Ops.Reached(cs, amount, i) <==> Open(cs[i])
    ensures var applied := if Open(cs[i]) then Min(remaining, cs[i].remaining) else 0.0;
            && (Open(cs[i]) ==> applied == Fifo.Share(Ops.OpenAmounts(cs), amount, i))
            && remaining - applied == Max(0.0, amount - Prefix(Ops.OpenAmounts(cs), i + 1))
  {
    assert Ops.OpenAmounts(cs)[i] >= 0.0;
  }

  /** Once the remainder is used up, no later row is reached. */
  lemma WalkStops(cs: seq<Charge>, amount: real, i: nat)
    requires NonNegative(Ops.OpenAmounts(cs)) && i <= |cs|
    requires i < |cs| ==> amount <= Prefix(Ops.OpenAmounts(cs), i)
    ensures forall j | i <= j < |cs| :: !Ops.Reached(cs, amount, j)
  {
    forall j | i <= j < |cs| ensures !Ops.Reached(cs, amount, j) {
      PrefixMonotone(Ops.OpenAmounts(cs), i, j);
    }
  }

  lemma NextInCurrency(open: seq<OwedCharge>, i: nat)
    requires i < |open|
    ensures forall c: nat :: InCurrency(open[..i + 1], c)
                             == InCurrency(open[..i], c) + (if open[i].currency == c then [open[i].charge] else [])
  {
    assert open[..i + 1][..i] == open[..i];
  }

  /** The grouping loop: the charges of each currency in the order they were read. */
  method GroupByCurrency(open: seq<OwedCharge>) returns (groups: map<nat, seq<Charge>>, currencies: seq<nat>)
    ensures forall c: nat :: c in groups <==> InCurrency(open, c) != []
    ensures forall c | c in groups :: groups[c] == InCurrency(open, c)
    ensures forall c: nat :: c in currencies <==> c in groups
  {
    groups, currencies := map[], [];
    for i := 0 to |open|
      invariant forall c: nat :: c in groups <==> InCurrency(open[..i], c) != []
      invariant forall c | c in groups :: groups[c] == InCurrency(open[..i], c)
      invariant forall c: nat :: c in currencies <==> c in groups
    {
      var c := open[i].currency;
      NextInCurrency(open, i);
      if c !in groups {
        currencies := currencies + [c];
      }
      groups := groups[c := (if c in groups then groups[c] else []) + [open[i].charge]];
    }
    assert open[..|open|] == open;
  }

  /** The cache after upserting the rows of a list of currencies, one after the other. */
  function Upserted(debts: DebtCache, tenant: nat, groups: map<nat, seq<Charge>>, currencies: seq<nat>,
                    now: real): DebtCache
    requires forall c | c in currencies :: c in groups && groups[c] != []
  {
    if currencies == [] then debts
    else
      var last := currencies[|currencies| - 1];
      Upserted(debts, tenant, groups, currencies[..|currencies| - 1], now)[(tenant, last) := SummaryRow(groups[last], now)]
  }

  lemma {:induction false} UpsertedRow(debts: DebtCache, tenant: nat, groups: map<nat, seq<Charge>>,
                                       currencies: seq<nat>,
                                       now: real, k: (nat, nat))
    requires forall c | c in currencies :: c in groups && groups[c] != []
    ensures var after := Upserted(debts, tenant, groups, currencies, now);
            if k.0 == tenant && k.1 in currencies then k in after && after[k] == SummaryRow(groups[k.1], now)
            else (k in after <==> k in debts) && (k in debts ==> after[k] == debts[k])
  {
    if currencies != [] {
      var init, last := currencies[..|currencies| - 1], currencies[|currencies| - 1];
      UpsertedRow(debts, tenant, groups, init, now, k);
      assert k.1 in currencies <==> k.1 in init || k.1 == last;
    }
  }

  class RentService {
    var contracts: seq<Contract>
    var payments: seq<Payment>
    var allocations: seq<Allocation>
    var debts: DebtCache

    ghost function State(): Book
      reads this
    {
      Book(contracts, payments, allocations, debts)
    }

    /** No charge asks for a negative amount. */
    ghost predicate Valid()
      reads this
    {
      forall k | 0 <= k < |contracts| :: NonNegative(Ops.OpenAmounts(contracts[k].charges))
    }

    constructor ()
      ensures State() == Book([], [], [], map[]) && Valid()
    {
      contracts, payments, allocations, debts := [], [], [], map[];
    }

    method SetCharge(id: nat, i: nat, c: Charge)
      requires id < |contracts| && i < |contracts[id].charges|
      modifies this`contracts
      ensures contracts == Ops.WithCharges(old(contracts), id, old(contracts)[id].charges[i := c])
    {
      contracts := contracts[id := contracts[id].(charges := contracts[id].charges[i := c])];
    }

    /** Oldest-first allocation of a payment. */
    method AllocateToCharges(id: nat, payment: nat, amount: real) returns (error: Option<string>)
      requires Valid() && id < |contracts| && amount > 0.0
      modifies this`contracts, this`allocations
      ensures var cs := old(contracts)[id].charges;
              if amount > Ops.OpenDebt(cs) then
                error.Some? && contracts == old(contracts) && allocations == old(allocations)
              else
                && error == None
                && contracts == Ops.WithCharges(old(contracts), id, Ops.Allocated(cs, amount))
                && allocations == old(allocations) + Ops.AllocationRows(cs, amount, payment, id, |cs|)
    {
      var cs := contracts[id].charges;
      ghost var target := Ops.Allocated(cs, amount);
      if amount > Ops.OpenDebt(cs) {
        return Some("amount exceeds the open debt");
      }
      var remaining := amount;
      var i := 0;
      PartlyStarts(target, cs);
      assert contracts == Ops.WithCharges(contracts, id, cs);
      while i < |cs| && remaining != 0.0
        invariant i <= |cs| && remaining == Max(0.0, amount - Prefix(Ops.OpenAmounts(cs), i))
        invariant contracts == Ops.WithCharges(old(contracts), id, Partly(target, cs, i))
        invariant allocations == old(allocations) + Ops.AllocationRows(cs, amount, payment, id, i)
      {
        RunningShare(cs, amount, i, remaining);
        PartlyStep(target, cs, i);
        if Open(cs[i]) {
          var applied := Min(remaining, cs[i].remaining);
          allocations := allocations + [Allocation(payment, id, i, applied)];
          SetCharge(id, i, Pay(cs[i], applied));
          remaining := remaining - applied;
        }
        i := i + 1;
      }
      WalkStops(cs, amount, i);
      RowsStop(cs, amount, payment, id, i, |cs|);
      PartlyEnds(target, cs, i);
      error := None;
    }

    /** The writes of a payment up to the debt cache: deposit, payment row, allocation. */
    method DrawAndAllocate(id: nat, amount: real, fromDeposit: bool) returns (error: Option<string>)
      requires Valid() && amount > 0.0 && id < |contracts|
      requires fromDeposit ==> amount <= contracts[id].depositRemaining
      modifies this`contracts, this`payments, this`allocations
      ensures Valid()
      ensures var c := old(contracts)[id];
              if amount > Ops.OpenDebt(c.charges) then
                error == Some("amount exceeds the open debt")
                && contracts == old(contracts) && payments == old(payments) && allocations == old(allocations)
              else
                && error == None
                && contracts == Ops.PaidContracts(old(contracts), id, amount, fromDeposit)
                && payments == old(payments) + [Payment(id, amount)]
                && allocations == old(allocations) + Ops.AllocationRows(c.charges, amount, |old(payments)|, id, |c.charges|)
    {
      var c := contracts[id];
      var saved := contracts;
      if fromDeposit {
        contracts := contracts[id := c.(depositRemaining := c.depositRemaining - amount)];
      }
      ghost var drawn := contracts[id];
      var payment := |payments|;
      payments := payments + [Payment(id, amount)];
      error := AllocateToCharges(id, payment, amount);
      if error.Some? {
        contracts, payments := saved, payments[..payment];
        error := Some("amount exceeds the open debt");
      } else {
        assert contracts == old(contracts)[id := drawn.(charges := Ops.Allocated(c.charges, amount))];
        AllocatedStaysValid(c.charges, amount);
      }
    }

    /** The writes of a payment, rolled back as a whole. */
    method BookPayment(id: nat, amount: real, fromDeposit: bool, now: real) returns (error: Option<string>)
      requires Valid() && amount > 0.0 && id < |contracts|
      requires fromDeposit ==> amount <= contracts[id].depositRemaining
      modifies this
      ensures Outcome(Ops.BookPayment(old(State()), id, amount, fromDeposit, now), old(State()), State(), error)
      ensures Valid()
    {
      var tenant := contracts[id].tenant;
      error := DrawAndAllocate(id, amount, fromDeposit);
      if error.None? { RecomputeRentDebt(tenant, now); }
    }

    /** One payment: date and rate first, then the money source, then the writes. */
    method RecordPayment(id: nat, amount: real, fromDeposit: bool, entry: PaymentEntry, now: real)
      returns (error: Option<string>)
      requires Valid() && amount > 0.0
      modifies this
      ensures Outcome(Ops.RecordPayment(old(State()), id, amount, fromDeposit, entry, now), old(State()), State(), error)
      ensures Valid()
      ensures Kept(old(State()), State()) && Refreshed(old(State()), State(), id, now, error)
    {
      if id >= |contracts| { return Some("contract not found"); }
      if entry.inFuture { return Some("payment date lies in the future"); }
      if !entry.rateKnown { return Some("no exchange rate is recorded"); }
      if fromDeposit && amount > contracts[id].depositRemaining { return Some("deposit is not sufficient"); }
      error := BookPayment(id, amount, fromDeposit, now);
      OperationKeeps(old(State()), RR.OpPay(id, amount, fromDeposit, entry, now), State(), error);
      OperationRefreshes(old(State()), RR.OpPay(id, amount, fromDeposit, entry, now), id, State(), error);
    }

    method ForgiveCharges(id: nat, amount: real)
      requires Valid() && id < |contracts| && amount > 0.0
      modifies this`contracts
      ensures contracts == Ops.WithCharges(old(contracts), id, Ops.Forgiven(old(contracts)[id].charges, amount))
    {
      var cs := contracts[id].charges;
      ghost var target := Ops.Forgiven(cs, amount);
      var remaining := amount;
      var i := 0;
      PartlyStarts(target, cs);
      assert contracts == Ops.WithCharges(contracts, id, cs);
      while i < |cs| && remaining != 0.0
        invariant i <= |cs| && remaining == Max(0.0, amount - Prefix(Ops.OpenAmounts(cs), i))
        invariant contracts == Ops.WithCharges(old(contracts), id, Partly(target, cs, i))
      {
        RunningShare(cs, amount, i, remaining);
        PartlyStep(target, cs, i);
        if Open(cs[i]) {
          var applied := Min(remaining, cs[i].remaining);
          SetCharge(id, i, Forgive(cs[i], applied));
          remaining := remaining - applied;
        }
        i := i + 1;
      }
      WalkStops(cs, amount, i);
      PartlyEnds(target, cs, i);
    }

    /** Forgiving an amount of the debt oldest-first; no money moves. */
    method DiscountDebt(id: nat, amount: real, now: real) returns (error: Option<string>)
      requires Valid() && amount > 0.0
      modifies this
      ensures Outcome(Ops.DiscountDebt(old(State()), id, amount, now), old(State()), State(), error)
      ensures Valid()
      ensures Kept(old(State()), State()) && Refreshed(old(State()), State(), id, now, error)
    {
      if id >= |contracts| { return Some("contract not found"); }
      var tenant := contracts[id].tenant;
      if amount > Ops.OpenDebt(contracts[id].charges) { return Some("discount exceeds the open debt"); }
      ForgiveCharges(id, amount);
      ForgivenStaysValid(old(contracts)[id].charges, amount);
      RecomputeRentDebt(tenant, now);
      error := None;
      OperationKeeps(old(State()), RR.OpDiscount(id, amount, now), State(), error);
      OperationRefreshes(old(State()), RR.OpDiscount(id, amount, now), id, State(), error);
    }

    method WriteOffOpenCharges(id: nat, now: real)
      requires Valid() && id < |contracts|
      modifies this
      ensures State() == Ops.WriteOffOpenCharges(old(State()), id, now) && Valid()
      ensures Kept(old(State()), State())
    {
      var tenant, cs := contracts[id].tenant, contracts[id].charges;
      ghost var target := Ops.WrittenOff(cs);
      PartlyStarts(target, cs);
      assert contracts == Ops.WithCharges(contracts, id, cs);
      for i := 0 to |cs|
        invariant contracts == Ops.WithCharges(old(contracts), id, Partly(target, cs, i))
        invariant payments == old(payments) && allocations == old(allocations) && debts == old(debts)
      {
        PartlyStep(target, cs, i);
        if Open(cs[i]) {
          SetCharge(id, i, WriteOff(cs[i]));
        }
      }
      PartlyEnds(target, cs, |cs|);
      RecomputeRentDebt(tenant, now);
      if RR.Inv(old(State())) { RR.WriteOffKeeps(old(State()), id, now); }
    }

    method AdjustFutureRent(id: nat, newRent: real, effectiveFrom: int, now: real) returns (error: Option<string>)
      requires Valid() && newRent >= 0.0
      modifies this
      ensures Outcome(Ops.AdjustFutureRent(old(State()), id, newRent, effectiveFrom, now), old(State()), State(), error)
      ensures Valid()
      ensures Kept(old(State()), State()) && Refreshed(old(State()), State(), id, now, error)
    {
      if id >= |contracts| { return Some("contract not found"); }
      if contracts[id].status != Active { return Some("contract is not active"); }
      var tenant, cs := contracts[id].tenant, contracts[id].charges;
      if forall c | c in cs :: !Ops.Adjustable(c, effectiveFrom) { return Some("no charge to adjust"); }
      if exists c | c in cs :: Ops.Adjustable(c, effectiveFrom) && c.days == 0 { return Some("division by zero"); }
      ghost var target := Ops.Adjusted(cs, newRent, effectiveFrom);
      PartlyStarts(target, cs);
      assert contracts == Ops.WithCharges(contracts, id, cs);
      for i := 0 to |cs|
        invariant contracts == Ops.WithCharges(old(contracts), id, Partly(target, cs, i))
        invariant payments == old(payments) && allocations == old(allocations) && debts == old(debts)
      {
        PartlyStep(target, cs, i);
        if Ops.Adjustable(cs[i], effectiveFrom) {
          SetCharge(id, i, Reprice(cs[i], newRent));
        }
      }
      PartlyEnds(target, cs, |cs|);
      AdjustedStaysValid(cs, newRent, effectiveFrom);
      RecomputeRentDebt(tenant, now);
      error := None;
      OperationKeeps(old(State()), RR.OpAdjust(id, newRent, effectiveFrom, now), State(), error);
      OperationRefreshes(old(State()), RR.OpAdjust(id, newRent, effectiveFrom, now), id, State(), error);
    }

    method UpsertRows(tenant: nat, groups: map<nat, seq<Charge>>, currencies: seq<nat>, now: real)
      requires forall c | c in currencies :: c in groups && groups[c] != []
      modifies this`debts
      ensures debts == Upserted(old(debts), tenant, groups, currencies, now)
    {
      for i := 0 to |currencies|
        invariant debts == Upserted(old(debts), tenant, groups, currencies[..i], now)
      {
        var c := currencies[i];
        assert currencies[..i + 1][..i] == currencies[..i];
        debts := debts[(tenant, c) := SummaryRow(groups[c], now)];
      }
      assert currencies[..|currencies|] == currencies;
    }

    /** Upsert a row per currency with open charges, then zero the tenant's other rows. */
    method RecomputeRentDebt(tenant: nat, now: real)
      modifies this`debts
      ensures debts == Recomputed(contracts, old(debts), tenant, now)
    {
      var open := OpenChargesOf(contracts, tenant);
      var groups, currencies := GroupByCurrency(open);
      UpsertRows(tenant, groups, currencies, now);
      ghost var middle := debts;
      debts := map k | k in debts ::
        if k.0 == tenant && k.1 !in groups then Settled(debts[k]) else debts[k];
      ghost var expected := Recomputed(contracts, old(debts), tenant, now);
      forall k: (nat, nat)
        ensures k in debts <==> k in expected
        ensures k in expected ==> debts[k] == expected[k]
      {
        NoChargesInCurrency(open, k.1);
        UpsertedRow(old(debts), tenant, groups, currencies, now, k);
      }
    }

    /** Distinct tenants that have an open charge or a cache row. */
    method TenantsToVisit() returns (tenants: seq<nat>)
      ensures forall t: nat :: t in tenants <==> t in TenantsToRebuild(contracts, debts)
    {
      tenants := [];
      for i := 0 to |contracts|
        invariant forall t: nat :: t in tenants <==>
                    exists k :: 0 <= k < i && contracts[k].tenant == t
                                && OpenOnly(contracts[k].charges, contracts[k].currency) != []
      {
        var c := contracts[i];
        if OpenOnly(c.charges, c.currency) != [] && c.tenant !in tenants {
          tenants := tenants + [c.tenant];
        }
      }
      ghost var withOpen := tenants;
      var keys := debts.Keys;
      while keys != {}
        invariant keys <= debts.Keys
        invariant forall t: nat :: t in tenants <==> t in withOpen || exists k :: k in debts.Keys - keys && k.0 == t
        decreases |keys|
      {
        var k :| k in keys;
        keys := keys - {k};
        if k.0 !in tenants { tenants := tenants + [k.0]; }
      }
    }

    /** Rebuild the whole cache, tenant by tenant. A tenant whose recomputation fails, which `failing` says,
        is reported and keeps the rows it had; for every other tenant the cache agrees afterwards. */
    method RebuildAllRentDebts(now: real, failing: set<nat>) returns (visited: nat, failed: seq<nat>)
      modifies this`debts
      ensures forall t: nat :: t in failed <==> t in failing && t in TenantsToRebuild(contracts, old(debts))
      ensures SaneContracts(contracts) ==> forall tenant: nat | tenant !in failed :: CacheAgrees(contracts, debts, tenant, now)
      ensures SaneContracts(contracts) ==>
                forall tenant: nat, currency: nat | tenant in failed :: SameRow(debts, old(debts), (tenant, currency))
    {
      var tenants := TenantsToVisit();
      visited, failed := |tenants|, [];
      ghost var done: seq<nat> := [];
      for i := 0 to |tenants|
        invariant debts == Rebuilt(contracts, old(debts), done, now)
        invariant forall t: nat :: t in failed <==> t in failing && t in tenants[..i]
        invariant forall t: nat :: t in done <==> t !in failing && t in tenants[..i]
      {
        assert tenants[..i + 1] == tenants[..i] + [tenants[i]];
        if tenants[i] in failing {
          failed := failed + [tenants[i]];
        } else {
          RecomputeRentDebt(tenants[i], now);
          assert (done + [tenants[i]])[..|done|] == done;
          done := done + [tenants[i]];
        }
      }
      assert tenants[..|tenants|] == tenants;
      if SaneContracts(contracts) {
        forall tenant: nat
          ensures tenant !in failed ==> CacheAgrees(contracts, debts, tenant, now)
          ensures tenant in failed ==> forall currency: nat :: SameRow(debts, old(debts), (tenant, currency))
        {
          RebuildAgreesFor(contracts, old(debts), done, tenant, now);
        }
      }
    }

    method FlagOverdueCharges(now: real)
      requires Valid()
      modifies this`contracts
      ensures State() == Ops.FlagOverdueCharges(old(State()), now) && Valid()
      ensures Kept(old(State()), State())
    {
      var k := 0;
      while k < |contracts|
        invariant k <= |contracts| == |old(contracts)|
        invariant forall j | 0 <= j < |contracts| ::
                    contracts[j] == if j < k then Ops.FlagOverdueCharges(old(State()), now).contracts[j] else old(contracts)[j]
      {
        contracts := contracts[k := contracts[k].(charges := Ops.Flagged(contracts[k].charges, now))];
        k := k + 1;
      }
      forall j | 0 <= j < |contracts|
        ensures NonNegative(Ops.OpenAmounts(contracts[j].charges))
      {
        var cs := old(contracts)[j].charges;
        assert NonNegative(Ops.OpenAmounts(cs));
        assert forall i | 0 <= i < |cs| :: Ops.OpenAmounts(Ops.Flagged(cs, now))[i] == Ops.OpenAmounts(cs)[i];
      }
      OperationKeeps(old(State()), RR.OpFlagOverdue(now), State(), None);
    }
  }

  lemma AllocatedStaysValid(cs: seq<Charge>, amount: real)
    requires NonNegative(Ops.OpenAmounts(cs)) && amount > 0.0
    ensures NonNegative(Ops.OpenAmounts(Ops.Allocated(cs, amount)))
  {
    forall i | 0 <= i < |cs| ensures Ops.OpenAmounts(Ops.Allocated(cs, amount))[i] >= 0.0 {
      assert Ops.OpenAmounts(cs)[i] >= 0.0;
    }
  }

  lemma AdjustedStaysValid(cs: seq<Charge>, newRent: real, effectiveFrom: int)
    requires NonNegative(Ops.OpenAmounts(cs))
    requires forall c | c in cs && Ops.Adjustable(c, effectiveFrom) :: c.days != 0
    ensures NonNegative(Ops.OpenAmounts(Ops.Adjusted(cs, newRent, effectiveFrom)))
  {
    forall i | 0 <= i < |cs| ensures Ops.OpenAmounts(Ops.Adjusted(cs, newRent, effectiveFrom))[i] >= 0.0 {
      assert Ops.OpenAmounts(cs)[i] >= 0.0;
    }
  }

  lemma ForgivenStaysValid(cs: seq<Charge>, amount: real)
    requires NonNegative(Ops.OpenAmounts(cs)) && amount > 0.0
    ensures NonNegative(Ops.OpenAmounts(Ops.Forgiven(cs, amount)))
  {
    forall i | 0 <= i < |cs| ensures Ops.OpenAmounts(Ops.Forgiven(cs, amount))[i] >= 0.0 {
      assert Ops.OpenAmounts(cs)[i] >= 0.0;
    }
  }
}
