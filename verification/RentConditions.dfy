/** Where the rules of the rent engine stop holding, and exactly when: the debt cache after steps that
    do not recompute it, repricing against billing by the day, and the balance of gross, discount and
    net under proration. */
module RentConditions {
  import opened Basics
  import opened Calendar
  import opened RentCharges
  import opened ChargeGeneration
  import opened RentTables
  import opened RentDebts
  import opened RentOps
  import opened RentRuns
  import RT = RentTheorems

  // ---- the debt cache after cancelling and renewing -----------------------------------------------

  /** Nothing is left to pay on any charge of the contract whose period has started. */
  predicate NothingDueOn(c: Contract, at: real) {
    forall i | 0 <= i < |c.charges| :: Due(c.charges[i], at) ==> OpenAmount(c.charges[i]) == 0.0
  }

  lemma {:induction false} NothingDueIsZero(cs: seq<Charge>, at: real)
    requires forall i | 0 <= i < |cs| :: SaneCharge(cs[i])
    ensures ContractDue(cs, at) == 0.0 <==> forall i | 0 <= i < |cs| :: Due(cs[i], at) ==> OpenAmount(cs[i]) == 0.0
  {
    ContractOverdueIsDue(cs, at);
    if cs != [] {
      var init, last := cs[..|cs| - 1], cs[|cs| - 1];
      assert forall i | 0 <= i < |init| :: init[i] == cs[i];
      NothingDueIsZero(init, at);
      ContractOverdueIsDue(init, at);
      assert SaneCharge(last);
      if forall i | 0 <= i < |init| :: Due(init[i], at) ==> OpenAmount(init[i]) == 0.0 {
        assert forall i | 0 <= i < |cs| - 1 :: Due(cs[i], at) ==> OpenAmount(cs[i]) == 0.0;
      }
    }
  }

  lemma {:induction false} CanceledOwesNothing(cs: seq<Charge>, at: real)
    ensures ContractDue(AllCanceled(cs), at) == 0.0 && ContractOverdue(AllCanceled(cs), at) == 0.0
  {
    if cs != [] {
      var init := cs[..|cs| - 1];
      assert AllCanceled(cs)[..|cs| - 1] == AllCanceled(init);
      CanceledOwesNothing(init, at);
    }
  }

  lemma {:induction false} ReplacedOwes(contracts: seq<Contract>, id: nat, d: Contract, tenant: nat, currency: nat,
                                        at: real)
    requires id < |contracts| && d.tenant == contracts[id].tenant && d.currency == contracts[id].currency
    ensures var c, after := contracts[id], contracts[id := d];
            var own := d.tenant == tenant && d.currency == currency;
            && TenantDue(after, tenant, currency, at)
               == TenantDue(contracts, tenant, currency, at)
                  + (if own then ContractDue(d.charges, at) - ContractDue(c.charges, at) else 0.0)
            && TenantOverdue(after, tenant, currency, at)
               == TenantOverdue(contracts, tenant, currency, at)
                  + (if own then ContractOverdue(d.charges, at) - ContractOverdue(c.charges, at) else 0.0)
  {
    var after, init := contracts[id := d], contracts[..|contracts| - 1];
    if id == |contracts| - 1 {
      assert after[..|after| - 1] == init;
    } else {
      assert after[..|after| - 1] == init[id := d];
      ReplacedOwes(init, id, d, tenant, currency, at);
    }
  }

  /** What the tenant owes has not moved, in any currency. */
  ghost predicate OwesTheSame(before: seq<Contract>, after: seq<Contract>, tenant: nat, at: real) {
    forall currency: nat ::
      && TenantDue(after, tenant, currency, at) == TenantDue(before, tenant, currency, at)
      && TenantOverdue(after, tenant, currency, at) == TenantOverdue(before, tenant, currency, at)
  }

  /** When the cache is left alone, agreement survives exactly if what is owed has not moved. */
  lemma AgreementSurvives(before: seq<Contract>, after: seq<Contract>, debts: DebtCache, tenant: nat, at: real)
    requires CacheAgrees(before, debts, tenant, at)
    ensures CacheAgrees(after, debts, tenant, at) <==> OwesTheSame(before, after, tenant, at)
  {
    forall currency: nat
      ensures CachedTotal(debts, tenant, currency) == TenantDue(before, tenant, currency, at)
      ensures CachedOverdue(debts, tenant, currency) == TenantOverdue(before, tenant, currency, at)
    {
    }
    if CacheAgrees(after, debts, tenant, at) {
      forall currency: nat
        ensures TenantDue(after, tenant, currency, at) == TenantDue(before, tenant, currency, at)
        ensures TenantOverdue(after, tenant, currency, at) == TenantOverdue(before, tenant, currency, at)
      {
        assert CachedTotal(debts, tenant, currency) == TenantDue(after, tenant, currency, at);
        assert CachedOverdue(debts, tenant, currency) == TenantOverdue(after, tenant, currency, at);
      }
    }
  }

  lemma SaneChargesOf(b: Book, id: nat)
    requires Inv(b) && id < |b.contracts|
    ensures forall i | 0 <= i < |b.contracts[id].charges| :: SaneCharge(b.contracts[id].charges[i])
  {
    RT.CoherentBooksAreSane(b);
  }

  lemma CancelledOwes(contracts: seq<Contract>, id: nat, d: Contract, t: nat, currency: nat, at: real)
    requires id < |contracts| && d == contracts[id].(charges := AllCanceled(contracts[id].charges), status := Cancelled)
    ensures var c, own := contracts[id], d.tenant == t && d.currency == currency;
            && TenantDue(contracts[id := d], t, currency, at)
               == TenantDue(contracts, t, currency, at) - (if own then ContractDue(c.charges, at) else 0.0)
            && TenantOverdue(contracts[id := d], t, currency, at)
               == TenantOverdue(contracts, t, currency, at) - (if own then ContractOverdue(c.charges, at) else 0.0)
  {
    CanceledOwesNothing(contracts[id].charges, at);
    ReplacedOwes(contracts, id, d, t, currency, at);
  }

  lemma CancelledSparesOthers(contracts: seq<Contract>, debts: DebtCache, id: nat, d: Contract, t: nat, at: real)
    requires id < |contracts| && d == contracts[id].(charges := AllCanceled(contracts[id].charges), status := Cancelled)
    requires t != d.tenant
    ensures CacheAgrees(contracts[id := d], debts, t, at) <==> CacheAgrees(contracts, debts, t, at)
  {
    forall currency: nat
      ensures TenantDue(contracts[id := d], t, currency, at) == TenantDue(contracts, t, currency, at)
      ensures TenantOverdue(contracts[id := d], t, currency, at) == TenantOverdue(contracts, t, currency, at)
    {
      CancelledOwes(contracts, id, d, t, currency, at);
    }
  }

  lemma CancelledAgreement(contracts: seq<Contract>, debts: DebtCache, id: nat, d: Contract, at: real)
    requires id < |contracts| && d == contracts[id].(charges := AllCanceled(contracts[id].charges), status := Cancelled)
    requires forall i | 0 <= i < |contracts[id].charges| :: SaneCharge(contracts[id].charges[i])
    requires CacheAgrees(contracts, debts, d.tenant, at)
    ensures CacheAgrees(contracts[id := d], debts, d.tenant, at) <==> NothingDueOn(contracts[id], at)
  {
    var after := contracts[id := d];
    NothingDueIsZero(contracts[id].charges, at);
    ContractOverdueIsDue(contracts[id].charges, at);
    forall currency: nat
      ensures TenantDue(after, d.tenant, currency, at)
              == TenantDue(contracts, d.tenant, currency, at) - (if d.currency == currency then ContractDue(contracts[id].charges, at) else 0.0)
      ensures TenantOverdue(after, d.tenant, currency, at)
              == TenantOverdue(contracts, d.tenant, currency, at) - (if d.currency == currency then ContractOverdue(contracts[id].charges, at) else 0.0)
    {
      CancelledOwes(contracts, id, d, d.tenant, currency, at);
    }
    AgreementSurvives(contracts, after, debts, d.tenant, at);
    if OwesTheSame(contracts, after, d.tenant, at) {
      assert TenantDue(after, d.tenant, d.currency, at) == TenantDue(contracts, d.tenant, d.currency, at);
    }
  }

  lemma NothingDueBeforeStart(c: Contract, at: real)
    requires ContractOk(c) && Standing(c) && at < c.startDate as real
    ensures NothingDueOn(c, at)
  {
  }

  /** Cancelling a draft does not recompute. A cache that agreed at an instant still agrees there if and
      only if nothing was due on the draft by then; a draft that has not started is such a one. The rows
      of other tenants go on agreeing. */
  lemma CancellingKeepsAgreement(b: Book, id: nat, at: real) returns (after: Book)
    requires Inv(b) && CancelDraft(b, id).Ok? && CacheAgrees(b.contracts, b.debts, b.contracts[id].tenant, at)
    ensures CancelDraft(b, id) == Ok(after)
    ensures var c := b.contracts[id];
            && (CacheAgrees(after.contracts, after.debts, c.tenant, at) <==> NothingDueOn(c, at))
            && (at < c.startDate as real ==> NothingDueOn(c, at))
            && forall t: nat | t != c.tenant ::
                 CacheAgrees(after.contracts, after.debts, t, at) <==> CacheAgrees(b.contracts, b.debts, t, at)
  {
    var c := b.contracts[id];
    var d := c.(charges := AllCanceled(c.charges), status := Cancelled);
    after := b.(contracts := b.contracts[id := d]);
    assert ContractOk(c);
    SaneChargesOf(b, id);
    CancelledAgreement(b.contracts, b.debts, id, d, at);
    if at < c.startDate as real { NothingDueBeforeStart(c, at); }
    forall t: nat | t != c.tenant
      ensures CacheAgrees(after.contracts, after.debts, t, at) <==> CacheAgrees(b.contracts, b.debts, t, at)
    {
      CancelledSparesOthers(b.contracts, b.debts, id, d, t, at);
    }
  }

  /** Fresh charges ask for something as soon as the first period has started, unless they bill nothing. */
  lemma FreshChargesDue(start: int, end: int, rent: real, at: real)
    requires start < end && rent >= 0.0
    ensures var cs := Charges(start, end, rent);
            && 0.0 <= ContractOverdue(cs, at) <= ContractDue(cs, at)
            && (ContractDue(cs, at) == 0.0 <==> at < start as real || rent == 0.0)
  {
    var cs := Charges(start, end, rent);
    GeneratedChargesTile(start, end, rent);
    GeneratedChargesCoherent(start, end, rent);
    forall i | 0 <= i < |cs| ensures SaneCharge(cs[i]) && cs[i].periodStart >= start && Open(cs[i]) {
      assert Coherent(cs[i]) && BillsOnePeriod(cs[i], rent);
      if i > 0 { TiledPeriodsIncrease(cs, start, end, 0, i); }
    }
    ContractOverdueIsDue(cs, at);
    NothingDueIsZero(cs, at);
    if rent == 0.0 {
      forall i | 0 <= i < |cs| ensures OpenAmount(cs[i]) == 0.0 {
        PeriodCoherent(cs[i], rent);
      }
    } else {
      PeriodCoherent(cs[0], rent);
      assert OpenAmount(cs[0]) != 0.0;
    }
  }

  lemma AppendedOwes(contracts: seq<Contract>, c: Contract, tenant: nat, currency: nat, at: real)
    ensures var own := c.tenant == tenant && c.currency == currency;
            && TenantDue(contracts + [c], tenant, currency, at)
               == TenantDue(contracts, tenant, currency, at) + (if own then ContractDue(c.charges, at) else 0.0)
            && TenantOverdue(contracts + [c], tenant, currency, at)
               == TenantOverdue(contracts, tenant, currency, at) + (if own then ContractOverdue(c.charges, at) else 0.0)
  {
    assert (contracts + [c])[..|contracts|] == contracts;
  }

  /** The contract a renewal appends. */
  lemma RenewalAppends(b: Book, id: nat, newEnd: int, rent: Option<real>, newShop: Option<nat>, now: real)
    returns (closed: Contract, next: Contract)
    requires Inv(b) && (rent.Some? ==> rent.value > 0.0) && Renew(b, id, newEnd, rent, newShop, now).Ok?
    ensures id < |b.contracts| && ContractOk(b.contracts[id]) && Standing(b.contracts[id])
    ensures Renew(b, id, newEnd, rent, newShop, now).value == b.(contracts := b.contracts[id := closed] + [next])
    ensures closed == b.contracts[id].(status := Expired, depositRemaining := 0.0)
    ensures var c := b.contracts[id];
            && next.tenant == c.tenant && next.currency == c.currency && c.endDate < newEnd
            && next.rent == RenewalRent(c, rent) >= 0.0 && next.charges == Charges(c.endDate, newEnd, next.rent)
  {
    var c := b.contracts[id];
    assert ContractOk(c);
    RenewalRentNonNegative(c, rent);
    closed := c.(status := Expired, depositRemaining := 0.0);
    next := Renew(b, id, newEnd, rent, newShop, now).value.contracts[|b.contracts|];
  }

  /** A contract closed in place, with a successor that starts from fresh charges. */
  ghost predicate Succeeds(contracts: seq<Contract>, id: nat, closed: Contract, next: Contract, newEnd: int) {
    && id < |contracts|
    && closed == contracts[id].(status := Expired, depositRemaining := 0.0)
    && next.tenant == closed.tenant && next.currency == closed.currency
    && closed.endDate < newEnd && next.rent >= 0.0 && next.charges == Charges(closed.endDate, newEnd, next.rent)
  }

  lemma SuccessorOwes(contracts: seq<Contract>, id: nat, closed: Contract, next: Contract, newEnd: int, t: nat,
                      currency: nat, at: real)
    requires Succeeds(contracts, id, closed, next, newEnd)
    ensures var after, own := contracts[id := closed] + [next], closed.tenant == t && closed.currency == currency;
            && TenantDue(after, t, currency, at)
               == TenantDue(contracts, t, currency, at) + (if own then ContractDue(next.charges, at) else 0.0)
            && TenantOverdue(after, t, currency, at)
               == TenantOverdue(contracts, t, currency, at) + (if own then ContractOverdue(next.charges, at) else 0.0)
  {
    ReplacedOwes(contracts, id, closed, t, currency, at);
    AppendedOwes(contracts[id := closed], next, t, currency, at);
  }

  lemma SuccessorAgreement(contracts: seq<Contract>, debts: DebtCache, id: nat, closed: Contract, next: Contract,
                           newEnd: int, at: real)
    returns (after: seq<Contract>)
    requires Succeeds(contracts, id, closed, next, newEnd) && CacheAgrees(contracts, debts, closed.tenant, at)
    ensures after == contracts[id := closed] + [next]
    ensures CacheAgrees(after, debts, closed.tenant, at) <==> at < closed.endDate as real || next.rent == 0.0
  {
    after := contracts[id := closed] + [next];
    FreshChargesDue(closed.endDate, newEnd, next.rent, at);
    forall currency: nat
      ensures TenantDue(after, closed.tenant, currency, at)
              == TenantDue(contracts, closed.tenant, currency, at) + (if closed.currency == currency then ContractDue(next.charges, at) else 0.0)
      ensures TenantOverdue(after, closed.tenant, currency, at)
              == TenantOverdue(contracts, closed.tenant, currency, at) + (if closed.currency == currency then ContractOverdue(next.charges, at) else 0.0)
    {
      SuccessorOwes(contracts, id, closed, next, newEnd, closed.tenant, currency, at);
    }
    AgreementSurvives(contracts, after, debts, closed.tenant, at);
    if OwesTheSame(contracts, after, closed.tenant, at) {
      assert TenantDue(after, closed.tenant, closed.currency, at) == TenantDue(contracts, closed.tenant, closed.currency, at);
    }
  }

  lemma SuccessorSparesOthers(contracts: seq<Contract>, debts: DebtCache, id: nat, closed: Contract, next: Contract,
                              newEnd: int, t: nat, at: real)
    requires Succeeds(contracts, id, closed, next, newEnd) && t != closed.tenant
    ensures CacheAgrees(contracts[id := closed] + [next], debts, t, at) <==> CacheAgrees(contracts, debts, t, at)
  {
    var after := contracts[id := closed] + [next];
    forall currency: nat
      ensures TenantDue(after, t, currency, at) == TenantDue(contracts, t, currency, at)
      ensures TenantOverdue(after, t, currency, at) == TenantOverdue(contracts, t, currency, at)
    {
      SuccessorOwes(contracts, id, closed, next, newEnd, t, currency, at);
    }
  }

  /** Renewing does not recompute either. A cache that agreed at an instant still agrees there if and
      only if the instant lies before the new term or the renewal bills nothing. The rows of other
      tenants go on agreeing. */
  lemma RenewingKeepsAgreement(b: Book, id: nat, newEnd: int, rent: Option<real>, newShop: Option<nat>, now: real,
                               at: real)
    returns (after: Book)
    requires Inv(b) && (rent.Some? ==> rent.value > 0.0) && Renew(b, id, newEnd, rent, newShop, now).Ok?
    requires CacheAgrees(b.contracts, b.debts, b.contracts[id].tenant, at)
    ensures Renew(b, id, newEnd, rent, newShop, now) == Ok(after)
    ensures var c := b.contracts[id];
            && (CacheAgrees(after.contracts, after.debts, c.tenant, at) <==> at < c.endDate as real || RenewalRent(c, rent) == 0.0)
            && forall t: nat | t != c.tenant ::
                 CacheAgrees(after.contracts, after.debts, t, at) <==> CacheAgrees(b.contracts, b.debts, t, at)
  {
    var closed, next := RenewalAppends(b, id, newEnd, rent, newShop, now);
    after := b.(contracts := b.contracts[id := closed] + [next]);
    var contracts := SuccessorAgreement(b.contracts, b.debts, id, closed, next, newEnd, at);
    forall t: nat | t != closed.tenant
      ensures CacheAgrees(after.contracts, after.debts, t, at) <==> CacheAgrees(b.contracts, b.debts, t, at)
    {
      SuccessorSparesOthers(b.contracts, b.debts, id, closed, next, newEnd, t, at);
    }
  }

  /** The tables after the first contract is drawn up in an empty market. */
  lemma FirstContract(op: Op) returns (b: Book)
    requires op.OpCreate? && Admissible(op) && op.start < op.end && op.openingPaid.None?
    ensures b == Apply(EMPTY, op) && Inv(b) && CacheAgrees(b.contracts, b.debts, op.tenant, op.now)
    ensures b.contracts == [Contract(op.tenant, op.shop, op.currency, op.start, op.end, op.rent,
                                     if op.start as real <= op.now then Active else Draft, op.deposit, None,
                                     Charges(op.start, op.end, op.rent))]
    ensures forall k | k in b.debts :: k.0 == op.tenant
  {
    b := Apply(EMPTY, op);
    EmptyIsCoherent();
    assert Step(EMPTY, op).Ok?;
    RT.RecomputingStepAgrees(EMPTY, op);
    StepKeepsInvariant(EMPTY, op);
  }

  const LetInArrears := OpCreate(0, 0, 0, 0, 31, 31.0, 0.0, None, true, 40.0)
  const RenewLate := OpRenew(0, 62, None, None, 40.0)

  lemma MonthLetInArrears() returns (b: Book)
    ensures b == Run(EMPTY, [LetInArrears]) == Apply(EMPTY, LetInArrears) && Inv(b) && CacheAgrees(b.contracts, b.debts, 0, 40.0)
    ensures b.contracts == [Contract(0, 0, 0, 0, 31, 31.0, Active, 0.0, None, [Issue(0, 31, 1.0)])]
  {
    assert [LetInArrears][..0] == [];
    b := FirstContract(LetInArrears);
    RT.JanuaryIsOnePeriod(31.0);
  }

  lemma RenewableOnDay40(b: Book)
    requires b.contracts == [Contract(0, 0, 0, 0, 31, 31.0, Active, 0.0, None, [Issue(0, 31, 1.0)])]
    ensures Renew(b, 0, 62, None, None, 40.0).Ok? && RenewalRent(b.contracts[0], None) == 31.0
  {
  }

  /** A concrete run: a month that is already over is let and renewed on day 40. The cache agrees
      before the renewal and no longer after it. */
  lemma RenewingLeavesCacheStale()
    ensures Admissible(LetInArrears) && Admissible(RenewLate)
    ensures var b, b' := Run(EMPTY, [LetInArrears]), Run(EMPTY, [LetInArrears, RenewLate]);
            && CacheAgrees(b.contracts, b.debts, 0, 40.0)
            && !CacheAgrees(b'.contracts, b'.debts, 0, 40.0)
  {
    var b := MonthLetInArrears();
    RenewableOnDay40(b);
    var after := RenewingKeepsAgreement(b, 0, 62, None, None, 40.0, 40.0);
    RT.RunOfThree(LetInArrears, RenewLate, RenewLate);
  }

  const LetFebruary := OpCreate(0, 0, 0, 31, 60, 29.0, 0.0, None, true, 10.0)
  const RebuildAll := OpRebuild([0], 40.0)
  const CancelLate := OpCancel(0)

  lemma RebuildAlone(b: Book, at: real)
    requires Inv(b) && forall k | k in b.debts :: k.0 == 0
    requires forall k | 0 <= k < |b.contracts| :: b.contracts[k].tenant == 0
    ensures var b' := RebuildDebts(b, [0], at);
            b'.contracts == b.contracts && Inv(b') && CacheAgrees(b'.contracts, b'.debts, 0, at)
  {
    RT.CoherentBooksAreSane(b);
    RebuildAgreesForAll(b.contracts, b.debts, [0], at);
  }

  lemma RebuildIs(b: Book, at: real)
    ensures Apply(b, OpRebuild([0], at)) == RebuildDebts(b, [0], at)
  {
  }

  /** A first contract of tenant 0, drawn up before its term starts; the caches are rebuilt at `at`. */
  lemma DraftThenRebuilt(op: Op, at: real) returns (drawn: Book, b: Book)
    requires op.OpCreate? && Admissible(op) && op.start < op.end && op.openingPaid.None? && op.tenant == 0
    requires op.now < op.start as real
    ensures drawn == Apply(EMPTY, op) && b == Apply(drawn, OpRebuild([0], at))
    ensures Inv(b) && CacheAgrees(b.contracts, b.debts, 0, at) && b.contracts == drawn.contracts && |b.contracts| == 1
    ensures b.contracts[0].status == Draft && b.contracts[0].tenant == 0
    ensures b.contracts[0].charges == Charges(op.start, op.end, op.rent)
  {
    drawn := FirstContract(op);
    RebuildAlone(drawn, at);
    RebuildIs(drawn, at);
    b := RebuildDebts(drawn, [0], at);
  }

  /** A concrete run: a draft is drawn up on day 10 for a term from day 31, no nightly job activates it,
      the caches are rebuilt on day 40, and then the draft is cancelled. */
  lemma CancellingLeavesCacheStale()
    ensures Admissible(LetFebruary) && Admissible(RebuildAll) && Admissible(CancelLate)
    ensures var b, b' := Run(EMPTY, [LetFebruary, RebuildAll]), Run(EMPTY, [LetFebruary, RebuildAll, CancelLate]);
            && CacheAgrees(b.contracts, b.debts, 0, 40.0)
            && !CacheAgrees(b'.contracts, b'.debts, 0, 40.0)
  {
    var drawn, b := DraftThenRebuilt(LetFebruary, 40.0);
    FreshChargesDue(31, 60, 29.0, 40.0);
    SaneChargesOf(b, 0);
    NothingDueIsZero(b.contracts[0].charges, 40.0);
    var after := CancellingKeepsAgreement(b, 0, 40.0);
    RT.RunOfThree(LetFebruary, RebuildAll, CancelLate);
  }

  // ---- repricing against billing by the day -----------------------------------------------------------

  /** The share by days of a monthly rent, as generation bills it. */
  function ByTheDay(rent: real, c: Charge): real { rent / MonthLength(MonthOf(c.periodStart)) as real * c.days as real }

  lemma ShareIsWhole(rent: real, full: int, days: int)
    requires full > 0
    ensures rent / full as real * days as real == rent <==> days == full || rent == 0.0
  {
    var q := rent / full as real;
    assert q * full as real == rent;
    if days != full && q != 0.0 { assert q * (days - full) as real != 0.0; }
  }

  lemma ShareIsWholeRent(rent: real, c: Charge)
    ensures ByTheDay(rent, c) == rent <==> c.days == MonthLength(MonthOf(c.periodStart)) || rent == 0.0
  {
    ShareIsWhole(rent, MonthLength(MonthOf(c.periodStart)), c.days);
  }

  /** What an adjustment does to one charge it reprices, and what the nightly job of `night` makes of it. */
  ghost predicate RepricedWhole(before: Charge, after: Charge, newRent: real, night: real) {
    && after.net == newRent
    && (after.net == ByTheDay(newRent, before) <==> before.days == MonthLength(MonthOf(before.periodStart)) || newRent == 0.0)
    && after.status == (if newRent == 0.0 then PAID else PENDING)
    && (Flagged([after], night)[0].status == OVERDUE <==> newRent > 0.0 && Overdue(before, night))
  }

  lemma RepricedCharge(c: Charge, newRent: real, night: real)
    requires Coherent(c) && Open(c) && newRent >= 0.0 && c.paid == 0.0
    ensures RepricedWhole(c, Reprice(c, newRent), newRent, night)
  {
    RepriceCoherent(c, newRent);
    ShareIsWholeRent(newRent, c);
  }

  /** An adjustment bills the whole new rent for every charge it reprices; that is its share by days if
      and only if the period is a full month or the new rent is zero. A charge repriced to zero is PAID;
      otherwise an OVERDUE charge becomes PENDING, and the nightly job makes it OVERDUE again if its period
      has ended. */
  lemma RepricingBillsWholeRents(b: Book, id: nat, newRent: real, effectiveFrom: int, now: real, i: nat, night: real)
    returns (after: seq<Charge>)
    requires Inv(b) && newRent >= 0.0 && AdjustFutureRent(b, id, newRent, effectiveFrom, now).Ok?
    requires i < |b.contracts[id].charges| && Adjustable(b.contracts[id].charges[i], effectiveFrom)
    ensures AdjustFutureRent(b, id, newRent, effectiveFrom, now).value.contracts == WithCharges(b.contracts, id, after)
    ensures |after| == |b.contracts[id].charges| && RepricedWhole(b.contracts[id].charges[i], after[i], newRent, night)
  {
    var debts := AdjustmentIs(b, id, newRent, effectiveFrom, now);
    after := Adjusted(b.contracts[id].charges, newRent, effectiveFrom);
    assert ContractOk(b.contracts[id]);
    var c := b.contracts[id].charges[i];
    assert Coherent(c);
    RepricedCharge(c, newRent, night);
  }

  lemma TenDaysOfJanuary(rent: real)
    ensures Charges(0, 10, rent) == [Issue(0, 10, rent / 31.0)] && MonthLength(MonthOf(0)) == 31
  {
    assert MonthStart(1) == 31;
    MonthIsUnique(0, 0);
    assert AddOneMonth(0) == 31;
    UnfoldCharges(0, 10, rent);
    assert PeriodCharge(0, 10, rent) == Issue(0, 10, rent / 31.0);
    assert Charges(10, 10, rent) == [];
  }

  const LetTenDays := OpCreate(0, 0, 0, 0, 10, 31.0, 0.0, None, true, 0.0)
  const FlagOnDay20 := OpFlagOverdue(20.0)
  const DoubleTheRent := OpAdjust(0, 62.0, 0, 20.0)

  lemma FlaggedOnDay20(b: Book)
    requires b.contracts == [Contract(0, 0, 0, 0, 10, 31.0, Active, 0.0, None, [Issue(0, 10, 1.0)])]
    ensures FlagOverdueCharges(b, 20.0).contracts
            == [Contract(0, 0, 0, 0, 10, 31.0, Active, 0.0, None, [Issue(0, 10, 1.0).(status := OVERDUE)])]
  {
    var cs := b.contracts[0].charges;
    assert Flagged(cs, 20.0) == [Issue(0, 10, 1.0).(status := OVERDUE)];
  }

  lemma TenDaysLet() returns (b: Book)
    ensures b == Apply(EMPTY, LetTenDays) && Inv(b)
    ensures b.contracts == [Contract(0, 0, 0, 0, 10, 31.0, Active, 0.0, None, [Issue(0, 10, 1.0)])]
  {
    b := FirstContract(LetTenDays);
    TenDaysOfJanuary(31.0);
  }

  lemma TenDaysOverdue() returns (b: Book)
    ensures b == Apply(Apply(EMPTY, LetTenDays), FlagOnDay20) && Inv(b)
    ensures b.contracts == [Contract(0, 0, 0, 0, 10, 31.0, Active, 0.0, None, [Issue(0, 10, 1.0).(status := OVERDUE)])]
  {
    var b0 := TenDaysLet();
    FlaggedOnDay20(b0);
    OverdueFlagsKeep(b0, 20.0);
    b := FlagOverdueCharges(b0, 20.0);
  }

  lemma RepriceableOnDay20(b: Book)
    requires b.contracts == [Contract(0, 0, 0, 0, 10, 31.0, Active, 0.0, None, [Issue(0, 10, 1.0).(status := OVERDUE)])]
    ensures AdjustFutureRent(b, 0, 62.0, 0, 20.0).Ok?
  {
    var c := b.contracts[0].charges[0];
    assert Adjustable(c, 0) && c in b.contracts[0].charges;
  }

  lemma RepricedOnDay20(b: Book) returns (b': Book)
    requires Inv(b)
    requires b.contracts == [Contract(0, 0, 0, 0, 10, 31.0, Active, 0.0, None, [Issue(0, 10, 1.0).(status := OVERDUE)])]
    ensures AdjustFutureRent(b, 0, 62.0, 0, 20.0) == Ok(b') && |b'.contracts| == 1 && |b'.contracts[0].charges| == 1
    ensures RepricedWhole(b.contracts[0].charges[0], b'.contracts[0].charges[0], 62.0, 20.0)
  {
    RepriceableOnDay20(b);
    var charges := RepricingBillsWholeRents(b, 0, 62.0, 0, 20.0, 0, 20.0);
    b' := AdjustFutureRent(b, 0, 62.0, 0, 20.0).value;
  }

  /** A concrete run: ten days are let at 31 a month, become OVERDUE, and are repriced to 62 a month.
      They were billed 10, would be 20 by the day, and are billed 62; and they are PENDING. */
  lemma RepricedTenDaysBillAMonth() returns (before: Charge, after: Charge)
    ensures Admissible(LetTenDays) && Admissible(FlagOnDay20) && Admissible(DoubleTheRent)
    ensures var b, b' := Run(EMPTY, [LetTenDays, FlagOnDay20]), Run(EMPTY, [LetTenDays, FlagOnDay20, DoubleTheRent]);
            |b.contracts| == |b'.contracts| == 1 && b.contracts[0].charges == [before] && b'.contracts[0].charges == [after]
    ensures before.net == 10.0 && before.status == OVERDUE && ByTheDay(62.0, before) == 20.0
    ensures after.net == 62.0 && after.status == PENDING
  {
    var b := TenDaysOverdue();
    var b' := RepricedOnDay20(b);
    before, after := b.contracts[0].charges[0], b'.contracts[0].charges[0];
    RT.RunOfThree(LetTenDays, FlagOnDay20, DoubleTheRent);
    TenDaysAtSixtyTwo(before);
  }

  lemma TenDaysAtSixtyTwo(c: Charge)
    requires c.periodStart == 0 && c.days == 10
    ensures ByTheDay(62.0, c) == 20.0
  {
    TenDaysOfJanuary(31.0);
  }

  // ---- gross, discount and net ----------------------------------------------------------------------------

  /** What is billed is the gross amount less the discount. */
  predicate Balanced(c: Charge) { c.gross - c.discount == c.net }

  ghost predicate AllBalanced(cs: seq<Charge>) {
    forall i | 0 <= i < |cs| :: Balanced(cs[i])
  }

  ghost predicate BalancedBook(b: Book) {
    forall k | 0 <= k < |b.contracts| :: AllBalanced(b.contracts[k].charges)
  }

  /** The guard a caller of `terminate` can check: no prorated charge carries a discount. */
  predicate ProratesUndiscounted(b: Book, op: Op) {
    op.OpTerminate? && op.prorate && op.id < |b.contracts| ==>
      forall c | c in b.contracts[op.id].charges && Spans(c, op.day) :: c.discount == 0.0
  }

  lemma RewritesBalance(cs: seq<Charge>, amount: real, now: real)
    requires AllCoherent(cs) && AllBalanced(cs)
    ensures AllBalanced(Allocated(cs, amount)) && AllBalanced(Forgiven(cs, amount))
    ensures AllBalanced(WrittenOff(cs)) && AllBalanced(AllCanceled(cs)) && AllBalanced(Flagged(cs, now))
  {
    forall i | 0 <= i < |cs|
      ensures Balanced(Allocated(cs, amount)[i]) && Balanced(Forgiven(cs, amount)[i])
      ensures Balanced(WrittenOff(cs)[i]) && Balanced(AllCanceled(cs)[i]) && Balanced(Flagged(cs, now)[i])
    {
      assert Coherent(cs[i]) && Balanced(cs[i]);
    }
  }

  lemma AdjustedBalance(cs: seq<Charge>, newRent: real, effectiveFrom: int)
    requires AllBalanced(cs) && forall c | c in cs && Adjustable(c, effectiveFrom) :: c.days != 0
    ensures AllBalanced(Adjusted(cs, newRent, effectiveFrom))
  {
  }

  /** A prorated charge is balanced exactly when it carries no discount; a termination touches the
      balance of no other. */
  lemma TerminatedBalance(c: Contract, day: int, prorate: bool)
    requires ContractOk(c) && Standing(c) && AllBalanced(c.charges)
    ensures AllBalanced(Terminated(c.charges, day, prorate))
            <==> (prorate ==> forall x | x in c.charges && Spans(x, day) :: x.discount == 0.0)
  {
    var cs, ds := c.charges, Terminated(c.charges, day, prorate);
    FirstSpanningFinds(cs, day, 0);
    match FirstSpanning(cs, day, 0)
    case None =>
    case Some(k) =>
      RT.OnlyOneSpans(cs, c.startDate, c.endDate, day, k);
      assert cs[k] in cs;
      assert Balanced(ds[k]) <==> prorate ==> cs[k].discount == 0.0;
      assert forall i | 0 <= i < |cs| && i != k :: Balanced(cs[i]) && Balanced(ds[i]);
  }

  lemma ReplacedBalance(b: Book, id: nat, d: Contract)
    requires BalancedBook(b) && id < |b.contracts|
    ensures BalancedBook(b.(contracts := b.contracts[id := d])) <==> AllBalanced(d.charges)
  {
    var after := b.contracts[id := d];
    assert after[id] == d;
    forall k | 0 <= k < |after| && k != id ensures AllBalanced(after[k].charges) {
      assert AllBalanced(b.contracts[k].charges);
    }
  }

  lemma FreshBalance(b: Book, c: Contract)
    requires BalancedBook(b) && c.startDate < c.endDate && c.charges == Charges(c.startDate, c.endDate, c.rent)
    ensures BalancedBook(b.(contracts := b.contracts + [c]))
  {
    GeneratedChargesTile(c.startDate, c.endDate, c.rent);
    var after := b.contracts + [c];
    forall k | 0 <= k < |after| ensures AllBalanced(after[k].charges) {
      if k < |b.contracts| {
        assert AllBalanced(b.contracts[k].charges);
      } else {
        forall i | 0 <= i < |c.charges| ensures Balanced(c.charges[i]) { assert BillsOnePeriod(c.charges[i], c.rent); }
      }
    }
  }

  lemma PaymentBalance(b: Book, id: nat, amount: real, fromDeposit: bool, entry: PaymentEntry, now: real)
    requires Inv(b) && BalancedBook(b) && RecordPayment(b, id, amount, fromDeposit, entry, now).Ok?
    ensures BalancedBook(RecordPayment(b, id, amount, fromDeposit, entry, now).value)
  {
    var b' := RecordPayment(b, id, amount, fromDeposit, entry, now).value;
    assert ContractOk(b.contracts[id]) && AllBalanced(b.contracts[id].charges);
    RewritesBalance(b.contracts[id].charges, amount, now);
    ReplacedBalance(b, id, b'.contracts[id]);
    assert b'.contracts == b.contracts[id := b'.contracts[id]];
  }

  lemma WriteOffBalance(b: Book, id: nat, now: real)
    requires Inv(b) && BalancedBook(b) && id < |b.contracts|
    ensures BalancedBook(WriteOffOpenCharges(b, id, now))
  {
    var b' := WriteOffOpenCharges(b, id, now);
    assert ContractOk(b.contracts[id]) && AllBalanced(b.contracts[id].charges);
    RewritesBalance(b.contracts[id].charges, 0.0, now);
    ReplacedBalance(b, id, b'.contracts[id]);
  }

  lemma SettlementBalance(b: Book, op: Op)
    requires Inv(b) && BalancedBook(b) && op.OpSettle? && Admissible(op) && Step(b, op).Ok?
    ensures BalancedBook(Step(b, op).value)
  {
    if op.cash > 0.0 {
      PaymentBalance(b, op.id, op.cash, false, op.entry, op.now);
      PayKeeps(b, op.id, op.cash, false, op.entry, op.now);
      WriteOffBalance(RecordPayment(b, op.id, op.cash, false, op.entry, op.now).value, op.id, op.now);
    } else {
      WriteOffBalance(b, op.id, op.now);
    }
  }

  lemma CreationBalance(b: Book, op: Op)
    requires Inv(b) && BalancedBook(b) && op.OpCreate? && Admissible(op) && Step(b, op).Ok?
    ensures BalancedBook(Step(b, op).value)
  {
    var plain := op.(openingPaid := None);
    CreateKeeps(b, plain);
    var created := Step(b, plain).value;
    FreshBalance(b, created.contracts[|b.contracts|]);
    assert created.contracts == b.contracts + [created.contracts[|b.contracts|]];
    if op.openingPaid.Some? {
      PaymentBalance(created, |b.contracts|, op.openingPaid.value, false, PaymentEntry(false, op.rateKnown), op.now);
    }
  }

  lemma RenewalBalance(b: Book, op: Op)
    requires Inv(b) && BalancedBook(b) && op.OpRenew? && Admissible(op) && Step(b, op).Ok?
    ensures BalancedBook(Step(b, op).value)
  {
    var closed, next := RenewalAppends(b, op.id, op.newEnd, op.rentAsked, op.newShop, op.now);
    var middle := b.(contracts := b.contracts[op.id := closed]);
    assert AllBalanced(b.contracts[op.id].charges);
    ReplacedBalance(b, op.id, closed);
    var renewed := Step(b, op).value.contracts[|b.contracts|];
    FreshBalance(middle, renewed);
  }

  lemma FlagsBalance(b: Book, now: real)
    requires Inv(b) && BalancedBook(b)
    ensures BalancedBook(FlagOverdueCharges(b, now)) && BalancedBook(FlagExpiredContracts(b, now))
    ensures BalancedBook(ActivateStartedContracts(b, now))
  {
    forall k | 0 <= k < |b.contracts|
      ensures AllBalanced(FlagOverdueCharges(b, now).contracts[k].charges)
      ensures AllBalanced(FlagExpiredContracts(b, now).contracts[k].charges)
      ensures AllBalanced(ActivateStartedContracts(b, now).contracts[k].charges)
    {
      assert ContractOk(b.contracts[k]) && AllBalanced(b.contracts[k].charges);
      RewritesBalance(b.contracts[k].charges, 0.0, now);
    }
  }

  lemma AdjustmentBalance(b: Book, op: Op)
    requires BalancedBook(b) && op.OpAdjust? && Step(b, op).Ok?
    ensures BalancedBook(Step(b, op).value)
  {
    var debts := AdjustmentIs(b, op.id, op.newRent, op.effectiveFrom, op.now);
    assert AllBalanced(b.contracts[op.id].charges);
    AdjustedBalance(b.contracts[op.id].charges, op.newRent, op.effectiveFrom);
    ReplacedBalance(b, op.id, b.contracts[op.id].(charges := Adjusted(b.contracts[op.id].charges, op.newRent, op.effectiveFrom)));
  }

  lemma DiscountBalance(b: Book, op: Op)
    requires Inv(b) && BalancedBook(b) && op.OpDiscount? && Step(b, op).Ok?
    ensures BalancedBook(Step(b, op).value)
  {
    assert ContractOk(b.contracts[op.id]) && AllBalanced(b.contracts[op.id].charges);
    RewritesBalance(b.contracts[op.id].charges, op.amount, op.now);
    ReplacedBalance(b, op.id, Step(b, op).value.contracts[op.id]);
  }

  lemma CancellationBalance(b: Book, op: Op)
    requires Inv(b) && BalancedBook(b) && op.OpCancel? && Step(b, op).Ok?
    ensures BalancedBook(Step(b, op).value)
  {
    assert ContractOk(b.contracts[op.id]) && AllBalanced(b.contracts[op.id].charges);
    RewritesBalance(b.contracts[op.id].charges, 0.0, 0.0);
    ReplacedBalance(b, op.id, Step(b, op).value.contracts[op.id]);
  }

  lemma TerminationBalance(b: Book, op: Op)
    requires Inv(b) && BalancedBook(b) && op.OpTerminate? && Step(b, op).Ok?
    ensures BalancedBook(Step(b, op).value) <==> ProratesUndiscounted(b, op)
  {
    assert ContractOk(b.contracts[op.id]) && AllBalanced(b.contracts[op.id].charges);
    TerminatedBalance(b.contracts[op.id], op.day, op.prorate);
    ReplacedBalance(b, op.id, Step(b, op).value.contracts[op.id]);
  }

  /** A step keeps every charge billing its gross amount less its discount if and only if it is not a
      prorated termination that cuts a discounted charge. */
  lemma StepKeepsBalance(b: Book, op: Op)
    requires Inv(b) && BalancedBook(b) && Admissible(op) && Step(b, op).Ok?
    ensures BalancedBook(Step(b, op).value) <==> ProratesUndiscounted(b, op)
  {
    match op {
      case OpCreate(_, _, _, _, _, _, _, _, _, _) => CreationBalance(b, op);
      case OpPay(id, amount, fromDeposit, entry, now) => PaymentBalance(b, id, amount, fromDeposit, entry, now);
      case OpSettle(_, _, _, _) => SettlementBalance(b, op);
      case OpRenew(_, _, _, _, _) => RenewalBalance(b, op);
      case OpFlagOverdue(now) => FlagsBalance(b, now);
      case OpFlagExpired(now) => FlagsBalance(b, now);
      case OpActivateStarted(now) => FlagsBalance(b, now);
      case OpRebuild(_, _) =>
      case OpDiscount(_, _, _) => DiscountBalance(b, op);
      case OpAdjust(_, _, _, _) => AdjustmentBalance(b, op);
      case OpTerminate(_, _, _, _) => TerminationBalance(b, op);
      case OpCancel(_) => CancellationBalance(b, op);
    }
  }

  /** No prorated termination that went through cut a discounted charge. */
  ghost predicate AllProrateUndiscounted(b: Book, ops: seq<Op>) {
    ops != [] ==>
      var init, last := ops[..|ops| - 1], ops[|ops| - 1];
      && AllProrateUndiscounted(b, init)
      && (Step(Run(b, init), last).Ok? ==> ProratesUndiscounted(Run(b, init), last))
  }

  ghost predicate BalancedThroughout(b: Book, ops: seq<Op>) {
    BalancedBook(Run(b, ops)) && (ops != [] ==> BalancedThroughout(b, ops[..|ops| - 1]))
  }

  /** Over every serial run, gross less discount is net on every charge, throughout, if and only if no
      prorated termination that went through cut a discounted charge. */
  lemma {:induction false} RunKeepsBalance(b: Book, ops: seq<Op>)
    requires Inv(b) && BalancedBook(b) && AllAdmissible(ops)
    ensures BalancedThroughout(b, ops) <==> AllProrateUndiscounted(b, ops)
  {
    if ops != [] {
      var init, last := ops[..|ops| - 1], ops[|ops| - 1];
      assert forall op | op in init :: op in ops;
      RunKeepsBalance(b, init);
      RunKeepsInvariant(b, init);
      assert last in ops;
      if BalancedBook(Run(b, init)) && Step(Run(b, init), last).Ok? {
        StepKeepsBalance(Run(b, init), last);
      }
    }
  }

  /** A contract with one open charge is discounted and then cut inside that charge: the charge bills its
      days, its gross amount says so, and its discount is still there. */
  lemma CutAfterDiscount(b: Book, c: Charge, discount: Op, cut: Op) returns (middle: Book, after: Book)
    requires Inv(b) && BalancedBook(b) && |b.contracts| == 1 && b.contracts[0].charges == [c] && b.contracts[0].status == Active
    requires discount.OpDiscount? && discount.id == 0 && 0.0 < discount.amount <= c.remaining
    requires cut.OpTerminate? && cut.id == 0 && cut.prorate
    requires Open(c) && c.discount == 0.0 && Spans(c, cut.day)
    ensures middle == Apply(b, discount) && Inv(middle) && BalancedBook(middle)
    ensures after == Apply(middle, cut) && !BalancedBook(after)
  {
    var d := Forgive(c, discount.amount);
    OneChargeForgiven([c], c, discount.amount);
    DiscountKeeps(b, discount);
    DiscountBalance(b, discount);
    middle := Apply(b, discount);
    assert middle.contracts[0].charges == [d];
    assert d in middle.contracts[0].charges && Spans(d, cut.day) && d.discount != 0.0;
    TerminationBalance(middle, cut);
    after := Apply(middle, cut);
  }

  lemma OneChargeForgiven(cs: seq<Charge>, c: Charge, amount: real)
    requires cs == [c] && Open(c) && 0.0 < amount <= c.remaining
    ensures OpenDebt(cs) == c.remaining && Forgiven(cs, amount) == [Forgive(c, amount)]
  {
    assert OpenAmounts(cs) == [c.remaining];
    assert Prefix([c.remaining], 0) == 0.0 && Prefix([c.remaining], 1) == c.remaining;
  }

  const LetAMonth := OpCreate(0, 0, 0, 0, 31, 31.0, 0.0, None, true, 0.0)
  const ForgiveFive := OpDiscount(0, 5.0, 5.0)
  const CutOnDayTen := OpTerminate(0, 10, true, 10.0)

  lemma MonthLet() returns (b: Book)
    ensures b == Apply(EMPTY, LetAMonth) && Inv(b)
    ensures b.contracts == [Contract(0, 0, 0, 0, 31, 31.0, Active, 0.0, None, [Issue(0, 31, 1.0)])]
  {
    b := FirstContract(LetAMonth);
    RT.JanuaryIsOnePeriod(31.0);
  }

  lemma IssuedMonthIsBalanced(b: Book)
    requires b.contracts == [Contract(0, 0, 0, 0, 31, 31.0, Active, 0.0, None, [Issue(0, 31, 1.0)])]
    ensures BalancedBook(b)
  {
  }

  /** A concrete run: a month let at 31 is discounted by 5 and cut on its tenth day. */
  lemma CutAfterDiscountLosesBalance()
    ensures Admissible(LetAMonth) && Admissible(ForgiveFive) && Admissible(CutOnDayTen)
    ensures BalancedBook(Run(EMPTY, [LetAMonth, ForgiveFive])) && !BalancedBook(Run(EMPTY, [LetAMonth, ForgiveFive, CutOnDayTen]))
  {
    var b := MonthLet();
    IssuedMonthIsBalanced(b);
    var middle, after := CutAfterDiscount(b, Issue(0, 31, 1.0), ForgiveFive, CutOnDayTen);
    RT.RunOfThree(LetAMonth, ForgiveFive, CutOnDayTen);
  }
}
