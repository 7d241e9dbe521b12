/** The derived debt cache: per tenant and currency, what is due, what is overdue, how bad it is. */
module RentDebts {
  import opened Basics
  import opened RentCharges
  import opened RentTables

  predicate Due(c: Charge, now: real) { c.periodStart as real <= now }

  predicate Overdue(c: Charge, now: real) { (c.periodEnd as real) < now }

  function TotalDue(cs: seq<Charge>, now: real): real {
    if cs == [] then 0.0
    else
      var last := cs[|cs| - 1];
      TotalDue(cs[..|cs| - 1], now) + (if Due(last, now) then last.remaining else 0.0)
  }

  function TotalOverdue(cs: seq<Charge>, now: real): real {
    if cs == [] then 0.0
    else
      var last := cs[|cs| - 1];
      TotalOverdue(cs[..|cs| - 1], now) + (if Overdue(last, now) then last.remaining else 0.0)
  }

  /** First charge of a stable sort by descending `periodStart`. */
  function LatestCharge(cs: seq<Charge>): Charge
    requires cs != []
  {
    var last := cs[|cs| - 1];
    if |cs| == 1 then last
    else
      var best := LatestCharge(cs[..|cs| - 1]);
      if last.periodStart > best.periodStart then last else best
  }

  function Severity(overdue: real, monthlyRent: real): DebtStatus {
    if monthlyRent > 0.0 && overdue > 0.0 then
      var months := overdue / monthlyRent;
      if months > 6.0 then CRITICAL
      else if months > 3.0 then HIGH
      else if months > 1.0 then MEDIUM
      else LOW
    else if overdue > 0.0 then LOW
    else CLEAN
  }

  /** The row for one currency's open charges; `old` is the row the upsert finds, if any. */
  function SummaryRow(cs: seq<Charge>, now: real): DebtRow
    requires cs != []
  {
    var latest := LatestCharge(cs);
    var overdue := TotalOverdue(cs, now);
    DebtRow(TotalDue(cs, now), overdue, Severity(overdue, latest.net), latest.net, Some(latest.periodStart))
  }

  function InCurrency(open: seq<OwedCharge>, currency: nat): seq<Charge> {
    if open == [] then []
    else
      var last := open[|open| - 1];
      InCurrency(open[..|open| - 1], currency) + (if last.currency == currency then [last.charge] else [])
  }

  lemma {:induction false} NoChargesInCurrency(open: seq<OwedCharge>, currency: nat)
    ensures InCurrency(open, currency) == [] <==> forall o | o in open :: o.currency != currency
  {
    if open != [] {
      var init, last := open[..|open| - 1], open[|open| - 1];
      NoChargesInCurrency(init, currency);
      assert forall o :: o in open <==> o in init || o == last;
    }
  }

  function Settled(row: DebtRow): DebtRow {
    row.(total := 0.0, overdue := 0.0, status := CLEAN)
  }

  /** The cache after recomputing one tenant: a row per currency with open charges, zeroed rows for
      the tenant's other currencies, everybody else's rows untouched. */
  function Recomputed(contracts: seq<Contract>, debts: DebtCache, tenant: nat, now: real): DebtCache {
    var open := OpenChargesOf(contracts, tenant);
    map k | k in debts.Keys + (set o | o in open :: (tenant, o.currency)) ::
      NoChargesInCurrency(open, k.1);
      if k.0 != tenant then debts[k]
      else if InCurrency(open, k.1) == [] then Settled(debts[k])
      else SummaryRow(InCurrency(open, k.1), now)
  }

  // ---- the cache against the charge table -------------------------------------------------------

  /** What one contract's charges ask for by `now`, read directly off the charge table. */
  function ContractDue(cs: seq<Charge>, now: real): real {
    if cs == [] then 0.0
    else
      var last := cs[|cs| - 1];
      ContractDue(cs[..|cs| - 1], now) + (if Due(last, now) then OpenAmount(last) else 0.0)
  }

  function ContractOverdue(cs: seq<Charge>, now: real): real {
    if cs == [] then 0.0
    else
      var last := cs[|cs| - 1];
      ContractOverdue(cs[..|cs| - 1], now) + (if Overdue(last, now) then OpenAmount(last) else 0.0)
  }

  function TenantDue(contracts: seq<Contract>, tenant: nat, currency: nat, now: real): real {
    if contracts == [] then 0.0
    else
      var last := contracts[|contracts| - 1];
      TenantDue(contracts[..|contracts| - 1], tenant, currency, now)
      + (if last.tenant == tenant && last.currency == currency then ContractDue(last.charges, now) else 0.0)
  }

  function TenantOverdue(contracts: seq<Contract>, tenant: nat, currency: nat, now: real): real {
    if contracts == [] then 0.0
    else
      var last := contracts[|contracts| - 1];
      TenantOverdue(contracts[..|contracts| - 1], tenant, currency, now)
      + (if last.tenant == tenant && last.currency == currency then ContractOverdue(last.charges, now) else 0.0)
  }

  function CachedTotal(debts: DebtCache, tenant: nat, currency: nat): real {
    if (tenant, currency) in debts then debts[(tenant, currency)].total else 0.0
  }

  function CachedOverdue(debts: DebtCache, tenant: nat, currency: nat): real {
    if (tenant, currency) in debts then debts[(tenant, currency)].overdue else 0.0
  }

  ghost predicate SaneCharge(c: Charge) {
    Open(c) ==> c.remaining >= 0.0 && c.periodStart <= c.periodEnd
  }

  ghost predicate SaneContracts(contracts: seq<Contract>) {
    forall k, i | 0 <= k < |contracts| && 0 <= i < |contracts[k].charges| :: SaneCharge(contracts[k].charges[i])
  }

  /** Every currency row of the tenant equals the sums over the tenant's open charges (an absent row
      counts as zero), overdue never exceeds due, and CLEAN means nothing is overdue. */
  ghost predicate CacheAgrees(contracts: seq<Contract>, debts: DebtCache, tenant: nat, now: real) {
    forall currency: nat ::
      && CachedTotal(debts, tenant, currency) == TenantDue(contracts, tenant, currency, now)
      && CachedOverdue(debts, tenant, currency) == TenantOverdue(contracts, tenant, currency, now)
      && CachedOverdue(debts, tenant, currency) <= CachedTotal(debts, tenant, currency)
      && ((tenant, currency) in debts ==>
            (debts[(tenant, currency)].status == CLEAN <==> debts[(tenant, currency)].overdue == 0.0))
  }

  lemma {:induction false} SplitByCurrency(a: seq<OwedCharge>, b: seq<OwedCharge>, currency: nat)
    ensures InCurrency(a + b, currency) == InCurrency(a, currency) + InCurrency(b, currency)
  {
    if b == [] {
      assert a + b == a;
    } else {
      var b', last := b[..|b| - 1], b[|b| - 1];
      assert (a + b)[..|a + b| - 1] == a + b';
      SplitByCurrency(a, b', currency);
    }
  }

  lemma {:induction false} SplitTotals(a: seq<Charge>, b: seq<Charge>, now: real)
    ensures TotalDue(a + b, now) == TotalDue(a, now) + TotalDue(b, now)
    ensures TotalOverdue(a + b, now) == TotalOverdue(a, now) + TotalOverdue(b, now)
  {
    if b == [] {
      assert a + b == a;
    } else {
      var b', last := b[..|b| - 1], b[|b| - 1];
      assert (a + b)[..|a + b| - 1] == a + b';
      SplitTotals(a, b', now);
    }
  }

  /** One contract's contribution: its open charges, all in one currency. */
  lemma {:induction false} OneContract(cs: seq<Charge>, own: nat, currency: nat, now: real)
    ensures var mine := InCurrency(OpenOnly(cs, own), currency);
            && TotalDue(mine, now) == (if own == currency then ContractDue(cs, now) else 0.0)
            && TotalOverdue(mine, now) == (if own == currency then ContractOverdue(cs, now) else 0.0)
  {
    if cs != [] {
      var init, last := cs[..|cs| - 1], cs[|cs| - 1];
      OneContract(init, own, currency, now);
      var tail := if Open(last) then [OwedCharge(own, last)] else [];
      SplitByCurrency(OpenOnly(init, own), tail, currency);
      assert tail != [] ==> tail[..0] == [];
      var mine := InCurrency(tail, currency);
      assert mine == if Open(last) && own == currency then [last] else [];
      assert mine != [] ==> mine[..0] == [];
      SplitTotals(InCurrency(OpenOnly(init, own), currency), mine, now);
    }
  }

  lemma {:induction false} SummedOverContracts(contracts: seq<Contract>, tenant: nat, currency: nat, now: real)
    ensures var mine := InCurrency(OpenChargesOf(contracts, tenant), currency);
            && TotalDue(mine, now) == TenantDue(contracts, tenant, currency, now)
            && TotalOverdue(mine, now) == TenantOverdue(contracts, tenant, currency, now)
  {
    if contracts != [] {
      var init, last := contracts[..|contracts| - 1], contracts[|contracts| - 1];
      SummedOverContracts(init, tenant, currency, now);
      var tail := if last.tenant == tenant then OpenOnly(last.charges, last.currency) else [];
      OneContract(last.charges, last.currency, currency, now);
      SplitByCurrency(OpenChargesOf(init, tenant), tail, currency);
      SplitTotals(InCurrency(OpenChargesOf(init, tenant), currency), InCurrency(tail, currency), now);
    }
  }

  lemma {:induction false} ContractOverdueIsDue(cs: seq<Charge>, now: real)
    requires forall i | 0 <= i < |cs| :: SaneCharge(cs[i])
    ensures 0.0 <= ContractOverdue(cs, now) <= ContractDue(cs, now)
  {
    if cs != [] {
      var init, last := cs[..|cs| - 1], cs[|cs| - 1];
      assert forall i | 0 <= i < |init| :: init[i] == cs[i];
      ContractOverdueIsDue(init, now);
      assert SaneCharge(last);
    }
  }

  lemma {:induction false} OverdueIsDue(contracts: seq<Contract>, tenant: nat, currency: nat, now: real)
    requires SaneContracts(contracts)
    ensures 0.0 <= TenantOverdue(contracts, tenant, currency, now) <= TenantDue(contracts, tenant, currency, now)
  {
    if contracts != [] {
      var init, last := contracts[..|contracts| - 1], contracts[|contracts| - 1];
      assert forall k | 0 <= k < |init| :: init[k] == contracts[k];
      OverdueIsDue(init, tenant, currency, now);
      ContractOverdueIsDue(last.charges, now);
    }
  }

  /** Recomputing a tenant makes the cache agree with the charge table, whatever it held before. */
  lemma RecomputeAgrees(contracts: seq<Contract>, debts: DebtCache, tenant: nat, now: real)
    requires SaneContracts(contracts)
    ensures CacheAgrees(contracts, Recomputed(contracts, debts, tenant, now), tenant, now)
  {
    var open := OpenChargesOf(contracts, tenant);
    var after := Recomputed(contracts, debts, tenant, now);
    forall currency: nat
      ensures CachedTotal(after, tenant, currency) == TenantDue(contracts, tenant, currency, now)
      ensures CachedOverdue(after, tenant, currency) == TenantOverdue(contracts, tenant, currency, now)
      ensures CachedOverdue(after, tenant, currency) <= CachedTotal(after, tenant, currency)
      ensures (tenant, currency) in after ==>
                (after[(tenant, currency)].status == CLEAN <==> after[(tenant, currency)].overdue == 0.0)
    {
      SummedOverContracts(contracts, tenant, currency, now);
      OverdueIsDue(contracts, tenant, currency, now);
      NoChargesInCurrency(open, currency);
    }
  }

  /** Recomputing one tenant leaves every other tenant's rows alone. */
  lemma RecomputeIsLocal(contracts: seq<Contract>, debts: DebtCache, tenant: nat, now: real)
    ensures var after := Recomputed(contracts, debts, tenant, now);
            forall k: (nat, nat) | k.0 != tenant :: (k in after <==> k in debts) && (k in debts ==> after[k] == debts[k])
  {
  }

  lemma RecomputeIdempotent(contracts: seq<Contract>, debts: DebtCache, tenant: nat, now: real)
    ensures var once := Recomputed(contracts, debts, tenant, now);
            Recomputed(contracts, once, tenant, now) == once
  {
  }

  // ---- what else a row shows ----------------------------------------------------------------------

  /** The charge is an open one of a contract of the tenant in the currency. */
  ghost predicate Owed(contracts: seq<Contract>, tenant: nat, currency: nat, c: Charge) {
    && (c.status == PENDING || c.status == PARTIAL || c.status == OVERDUE)
    && exists k | 0 <= k < |contracts| :: contracts[k].tenant == tenant && contracts[k].currency == currency && c in contracts[k].charges
  }

  lemma {:induction false} OpenOnlyHas(cs: seq<Charge>, own: nat, currency: nat, c: Charge)
    ensures c in InCurrency(OpenOnly(cs, own), currency) <==> own == currency && c in cs && Open(c)
  {
    if cs != [] {
      var init, last := cs[..|cs| - 1], cs[|cs| - 1];
      OpenOnlyHas(init, own, currency, c);
      var tail := if Open(last) then [OwedCharge(own, last)] else [];
      SplitByCurrency(OpenOnly(init, own), tail, currency);
      assert InCurrency(tail, currency) == if Open(last) && own == currency then [last] else [] by {
        assert tail != [] ==> tail[..0] == [];
      }
      assert c in cs <==> c in init || c == last;
    }
  }

  lemma OwedByOneMore(init: seq<Contract>, last: Contract, tenant: nat, currency: nat, c: Charge)
    ensures Owed(init + [last], tenant, currency, c)
            <==> Owed(init, tenant, currency, c)
                 || (last.tenant == tenant && last.currency == currency && c in last.charges && Open(c))
  {
    var all := init + [last];
    assert all[|init|] == last && forall k | 0 <= k < |init| :: all[k] == init[k];
  }

  lemma {:induction false} OpenAreOwed(contracts: seq<Contract>, tenant: nat, currency: nat, c: Charge)
    ensures c in InCurrency(OpenChargesOf(contracts, tenant), currency) <==> Owed(contracts, tenant, currency, c)
  {
    if contracts != [] {
      var init, last := contracts[..|contracts| - 1], contracts[|contracts| - 1];
      OpenAreOwed(init, tenant, currency, c);
      OpenOfOneMore(contracts, tenant, currency, c);
      assert contracts == init + [last];
      OwedByOneMore(init, last, tenant, currency, c);
    }
  }

  lemma OpenOfOneMore(contracts: seq<Contract>, tenant: nat, currency: nat, c: Charge)
    requires contracts != []
    ensures var init, last := contracts[..|contracts| - 1], contracts[|contracts| - 1];
            c in InCurrency(OpenChargesOf(contracts, tenant), currency)
            <==> c in InCurrency(OpenChargesOf(init, tenant), currency)
                 || (last.tenant == tenant && last.currency == currency && c in last.charges && Open(c))
  {
    var init, last := contracts[..|contracts| - 1], contracts[|contracts| - 1];
    var tail := if last.tenant == tenant then OpenOnly(last.charges, last.currency) else [];
    SplitByCurrency(OpenChargesOf(init, tenant), tail, currency);
    OpenOnlyHas(last.charges, last.currency, currency, c);
  }

  lemma {:induction false} LatestIsLatest(cs: seq<Charge>)
    requires cs != []
    ensures LatestCharge(cs) in cs && forall c | c in cs :: c.periodStart <= LatestCharge(cs).periodStart
  {
    if |cs| > 1 {
      var init, last := cs[..|cs| - 1], cs[|cs| - 1];
      LatestIsLatest(init);
      assert forall c :: c in cs <==> c in init || c == last;
    }
  }

  /** How many monthly rents are overdue: none, up to one, up to three, up to six, or more. */
  ghost predicate IsAsBadAs(status: DebtStatus, overdue: real, rent: real) {
    match status
    case CLEAN => overdue <= 0.0
    case LOW => overdue > 0.0 && (rent <= 0.0 || overdue <= rent)
    case MEDIUM => 0.0 < rent < overdue <= 3.0 * rent
    case HIGH => 0.0 < rent && 3.0 * rent < overdue <= 6.0 * rent
    case CRITICAL => 0.0 < rent && 6.0 * rent < overdue
  }

  lemma QuotientExceeds(overdue: real, rent: real, months: real)
    requires rent > 0.0
    ensures overdue / rent > months <==> overdue > months * rent
  {
    var q := overdue / rent;
    assert q * rent == overdue;
    assert (q - months) * rent == overdue - months * rent;
    if q > months { assert (q - months) * rent > 0.0; } else { assert (months - q) * rent >= 0.0; }
  }

  lemma SeverityCountsRents(overdue: real, rent: real)
    ensures IsAsBadAs(Severity(overdue, rent), overdue, rent)
  {
    if rent > 0.0 && overdue > 0.0 {
      QuotientExceeds(overdue, rent, 6.0);
      QuotientExceeds(overdue, rent, 3.0);
      QuotientExceeds(overdue, rent, 1.0);
    }
  }

  /** A currency in which the tenant has an open charge shows the net amount and the start of one of the latest
      such charges, and how many of these amounts are overdue; in any other a row that is there is zeroed
      and keeps the rest, and none appears. */
  lemma RowShowsTheLatest(contracts: seq<Contract>, debts: DebtCache, tenant: nat, currency: nat, now: real)
    returns (latest: Option<Charge>)
    ensures latest.None? ==> forall c :: !Owed(contracts, tenant, currency, c)
    ensures latest.Some? ==>
              && Owed(contracts, tenant, currency, latest.value)
              && forall c | Owed(contracts, tenant, currency, c) :: c.periodStart <= latest.value.periodStart
    ensures var after, key := Recomputed(contracts, debts, tenant, now), (tenant, currency);
            && (key in after <==> key in debts || latest.Some?)
            && (latest.Some? ==>
                  && after[key].lastChargeAmount == latest.value.net && after[key].lastChargeDate == Some(latest.value.periodStart)
                  && IsAsBadAs(after[key].status, after[key].overdue, latest.value.net))
            && (latest.None? && key in debts ==> after[key] == debts[key].(total := 0.0, overdue := 0.0, status := CLEAN))
  {
    var open := OpenChargesOf(contracts, tenant);
    var cs := InCurrency(open, currency);
    NoChargesInCurrency(open, currency);
    forall c ensures c in cs <==> Owed(contracts, tenant, currency, c) { OpenAreOwed(contracts, tenant, currency, c); }
    if cs == [] {
      latest := None;
    } else {
      LatestIsLatest(cs);
      latest := Some(LatestCharge(cs));
      SeverityCountsRents(TotalOverdue(cs, now), LatestCharge(cs).net);
    }
  }

  // ---- the operator's rebuild -------------------------------------------------------------------

  /** Tenants with an open charge, or with a row that may be stale. */
  ghost function TenantsToRebuild(contracts: seq<Contract>, debts: DebtCache): set<nat> {
    (set k | 0 <= k < |contracts| && OpenOnly(contracts[k].charges, contracts[k].currency) != [] :: contracts[k].tenant)
    + (set k | k in debts :: k.0)
  }

  /** Recomputing a list of tenants one after the other. */
  function Rebuilt(contracts: seq<Contract>, debts: DebtCache, tenants: seq<nat>, now: real): DebtCache {
    if tenants == [] then debts
    else
      Recomputed(contracts, Rebuilt(contracts, debts, tenants[..|tenants| - 1], now), tenants[|tenants| - 1], now)
  }

  ghost predicate SameRow(a: DebtCache, b: DebtCache, k: (nat, nat)) {
    (k in a <==> k in b) && (k in a ==> a[k] == b[k])
  }

  /** A recomputed row depends on the old cache only through the row at the same key. */
  lemma RecomputedRow(contracts: seq<Contract>, a: DebtCache, b: DebtCache, tenant: nat, now: real, k: (nat, nat))
    requires SameRow(a, b, k)
    ensures SameRow(Recomputed(contracts, a, tenant, now), Recomputed(contracts, b, tenant, now), k)
  {
    NoChargesInCurrency(OpenChargesOf(contracts, tenant), k.1);
  }

  lemma {:induction false} RebuiltRows(contracts: seq<Contract>, debts: DebtCache, tenants: seq<nat>, now: real,
                                       k: (nat, nat))
    ensures var after := Rebuilt(contracts, debts, tenants, now);
            var direct := if k.0 in tenants then Recomputed(contracts, debts, k.0, now) else debts;
            SameRow(after, direct, k)
  {
    if tenants != [] {
      var init, last := tenants[..|tenants| - 1], tenants[|tenants| - 1];
      RebuiltRows(contracts, debts, init, now, k);
      assert k.0 in tenants <==> k.0 in init || k.0 == last;
      var middle := Rebuilt(contracts, debts, init, now);
      if k.0 == last {
        if k.0 in init {
          RecomputedRow(contracts, middle, Recomputed(contracts, debts, last, now), last, now, k);
          RecomputeIdempotent(contracts, debts, last, now);
        } else {
          RecomputedRow(contracts, middle, debts, last, now, k);
        }
      } else {
        RecomputeIsLocal(contracts, middle, last, now);
      }
    }
  }

  lemma {:induction false} NoOpenChargesNothingOwed(contracts: seq<Contract>, tenant: nat)
    requires forall k | 0 <= k < |contracts| && contracts[k].tenant == tenant ::
               OpenOnly(contracts[k].charges, contracts[k].currency) == []
    ensures OpenChargesOf(contracts, tenant) == []
  {
    if contracts != [] {
      var init := contracts[..|contracts| - 1];
      assert forall k | 0 <= k < |init| :: init[k] == contracts[k];
      NoOpenChargesNothingOwed(init, tenant);
    }
  }

  /** A rebuild makes the cache agree for a tenant it visits, or that it need not visit; the rows of a
      tenant it does not visit stay as they are. */
  lemma RebuildAgreesFor(contracts: seq<Contract>, debts: DebtCache, tenants: seq<nat>, tenant: nat, now: real)
    requires SaneContracts(contracts)
    ensures var after := Rebuilt(contracts, debts, tenants, now);
            && (tenant in TenantsToRebuild(contracts, debts) ==> tenant in tenants) ==> CacheAgrees(contracts, after, tenant, now)
    ensures tenant !in tenants ==> forall currency: nat :: SameRow(Rebuilt(contracts, debts, tenants, now), debts, (tenant, currency))
  {
    var after := Rebuilt(contracts, debts, tenants, now);
    RecomputeAgrees(contracts, debts, tenant, now);
    if tenant !in tenants && tenant !in TenantsToRebuild(contracts, debts) {
      NoOpenChargesNothingOwed(contracts, tenant);
      assert forall c: nat :: (tenant, c) !in debts;
    }
    forall currency: nat
      ensures var direct := if tenant in tenants then Recomputed(contracts, debts, tenant, now) else debts;
              var k := (tenant, currency);
              SameRow(after, direct, k)
    {
      RebuiltRows(contracts, debts, tenants, now, (tenant, currency));
    }
  }

  /** A rebuild from any stale cache makes the cache agree for every tenant, including the ones it
      does not visit, and a second rebuild at the same instant changes nothing. */
  lemma RebuildAgreesForAll(contracts: seq<Contract>, debts: DebtCache, tenants: seq<nat>, now: real)
    requires SaneContracts(contracts)
    requires forall t: nat :: t in TenantsToRebuild(contracts, debts) ==> t in tenants
    ensures var after := Rebuilt(contracts, debts, tenants, now);
            && (forall tenant: nat :: CacheAgrees(contracts, after, tenant, now))
            && Rebuilt(contracts, after, tenants, now) == after
  {
    var after := Rebuilt(contracts, debts, tenants, now);
    forall tenant: nat
      ensures CacheAgrees(contracts, after, tenant, now)
    {
      RebuildAgreesFor(contracts, debts, tenants, tenant, now);
    }
    var twice := Rebuilt(contracts, after, tenants, now);
    forall k: (nat, nat)
      ensures k in twice <==> k in after
      ensures k in after ==> twice[k] == after[k]
    {
      RebuiltRows(contracts, debts, tenants, now, k);
      RebuiltRows(contracts, after, tenants, now, k);
      if k.0 in tenants {
        RecomputedRow(contracts, after, Recomputed(contracts, debts, k.0, now), k.0, now, k);
        RecomputeIdempotent(contracts, debts, k.0, now);
      }
    }
  }
}
