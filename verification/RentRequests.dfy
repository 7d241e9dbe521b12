/** What each rent and contract operation does, said of the columns of the tables alone: when it goes through,
    which contract and which charges it changes, and how. */
module RentRequests {
  import opened Basics
  import opened RentCharges
  import opened ChargeGeneration
  import opened RentTables
  import opened RentOps
  import opened RentRuns
  import RT = RentTheorems
  import Fifo

  // ---- when an operation goes through ---------------------------------------------------------------

  predicate Unpaid(c: Charge) { c.status == PENDING || c.status == PARTIAL || c.status == OVERDUE }

  function Remainders(cs: seq<Charge>): seq<real> {
    seq(|cs|, i requires 0 <= i < |cs| => if Unpaid(cs[i]) then cs[i].remaining else 0.0)
  }

  /** Another contract holds the shop. */
  predicate ShopIsHeld(contracts: seq<Contract>, shop: nat) {
    exists k :: 0 <= k < |contracts| && contracts[k].shop == shop && (contracts[k].status == Active || contracts[k].status == Suspended)
  }

  predicate WasRenewed(contracts: seq<Contract>, id: nat) {
    exists k :: 0 <= k < |contracts| && contracts[k].renewedFrom == Some(id)
  }

  /** A charge that is not paid on and starts on or after the day. */
  predicate Repriceable(c: Charge, from: int) { (c.status == PENDING || c.status == OVERDUE) && c.periodStart >= from }

  predicate HasRepriceable(cs: seq<Charge>, from: int) { exists i :: 0 <= i < |cs| && Repriceable(cs[i], from) }

  predicate MayRenew(contracts: seq<Contract>, id: nat, newEnd: int, newShop: Option<nat>, now: real)
    requires id < |contracts|
  {
    var c := contracts[id];
    && (c.status == Expired || (c.status == Active && c.endDate as real - now <= 30.0))
    && !WasRenewed(contracts, id)
    && newEnd > c.endDate
    && (newShop.Some? && newShop.value != c.shop ==> !ShopIsHeld(contracts, newShop.value))
  }

  predicate Allowed(b: Book, op: Op) {
    match op
    case OpCreate(_, shop, _, start, end, rent, _, opening, rateKnown, _) =>
      && start < end && !ShopIsHeld(b.contracts, shop)
      && (opening.Some? ==> rateKnown && opening.value <= Sum(Remainders(Charges(start, end, rent))))
    case OpPay(id, amount, fromDeposit, entry, _) =>
      && id < |b.contracts| && !entry.inFuture && entry.rateKnown
      && (fromDeposit ==> amount <= b.contracts[id].depositRemaining)
      && amount <= Sum(Remainders(b.contracts[id].charges))
    case OpDiscount(id, amount, _) => id < |b.contracts| && amount <= Sum(Remainders(b.contracts[id].charges))
    case OpAdjust(id, _, from, _) =>
      id < |b.contracts| && b.contracts[id].status == Active && HasRepriceable(b.contracts[id].charges, from)
    case OpSettle(id, cash, entry, _) =>
      && id < |b.contracts|
      && (cash > 0.0 ==> !entry.inFuture && entry.rateKnown && cash <= Sum(Remainders(b.contracts[id].charges)))
    case OpTerminate(id, _, _, _) => id < |b.contracts| && (b.contracts[id].status == Active || b.contracts[id].status == Suspended)
    case OpCancel(id) => id < |b.contracts| && b.contracts[id].status == Draft
    case OpRenew(id, newEnd, _, newShop, now) => id < |b.contracts| && MayRenew(b.contracts, id, newEnd, newShop, now)
    case _ => true
  }

  lemma OpenIsRemainders(cs: seq<Charge>)
    ensures OpenDebt(cs) == Sum(Remainders(cs))
  {
    assert OpenAmounts(cs) == Remainders(cs);
  }

  lemma AdjustmentGoesThroughWhen(b: Book, op: Op)
    requires Inv(b) && op.OpAdjust?
    ensures Step(b, op).Ok? <==> Allowed(b, op)
  {
    if op.id < |b.contracts| {
      var cs := b.contracts[op.id].charges;
      assert ContractOk(b.contracts[op.id]);
      forall c | c in cs && Adjustable(c, op.effectiveFrom) ensures c.days != 0 {
        var i :| 0 <= i < |cs| && cs[i] == c;
        assert Coherent(cs[i]);
      }
      if HasRepriceable(cs, op.effectiveFrom) {
        var i :| 0 <= i < |cs| && Repriceable(cs[i], op.effectiveFrom);
        assert cs[i] in cs && Adjustable(cs[i], op.effectiveFrom);
      }
    }
  }

  lemma HeldIsOccupied(contracts: seq<Contract>, shop: nat)
    ensures ShopIsHeld(contracts, shop) <==> exists c | c in contracts :: OccupiesShop(c, shop)
  {
    if ShopIsHeld(contracts, shop) {
      var k :| 0 <= k < |contracts| && contracts[k].shop == shop && (contracts[k].status == Active || contracts[k].status == Suspended);
      assert contracts[k] in contracts && OccupiesShop(contracts[k], shop);
    }
  }

  lemma CreationGoesThroughWhen(b: Book, op: Op)
    requires op.OpCreate?
    ensures Step(b, op).Ok? <==> Allowed(b, op)
  {
    HeldIsOccupied(b.contracts, op.shop);
    OpenIsRemainders(Charges(op.start, op.end, op.rent));
  }

  lemma RenewalGoesThroughWhen(b: Book, op: Op)
    requires op.OpRenew?
    ensures Step(b, op).Ok? <==> Allowed(b, op)
  {
    if op.id < |b.contracts| {
      if op.newShop.Some? { HeldIsOccupied(b.contracts, op.newShop.value); }
      if WasRenewed(b.contracts, op.id) {
        var k :| 0 <= k < |b.contracts| && b.contracts[k].renewedFrom == Some(op.id);
        assert b.contracts[k] in b.contracts;
      }
    }
  }

  /** An operation goes through exactly when its contract is in the state for it, its amount fits what is
      open and where it comes from, and its date and rate are accepted. */
  lemma GoesThroughWhen(b: Book, op: Op)
    requires Inv(b) && Admissible(op)
    ensures Step(b, op).Ok? <==> Allowed(b, op)
  {
    match op {
      case OpCreate(_, _, _, _, _, _, _, _, _, _) => CreationGoesThroughWhen(b, op);
      case OpAdjust(_, _, _, _) => AdjustmentGoesThroughWhen(b, op);
      case OpRenew(_, _, _, _, _) => RenewalGoesThroughWhen(b, op);
      case OpPay(id, _, _, _, _) => if id < |b.contracts| { OpenIsRemainders(b.contracts[id].charges); }
      case OpDiscount(id, _, _) => if id < |b.contracts| { OpenIsRemainders(b.contracts[id].charges); }
      case OpSettle(id, _, _, _) => if id < |b.contracts| { OpenIsRemainders(b.contracts[id].charges); }
      case _ =>
    }
  }

  // ---- what a payment and a discount do -------------------------------------------------------------

  /** What falls to charge `i` when an amount is spent oldest first. */
  function Part(cs: seq<Charge>, amount: real, i: nat): real
    requires i < |cs|
  {
    var rest := amount - Prefix(Remainders(cs), i);
    if rest <= 0.0 then 0.0 else if rest < Remainders(cs)[i] then rest else Remainders(cs)[i]
  }

  /** The status a charge has that was reached: paid up or paid in part. */
  ghost predicate PaidOn(before: Charge, after: Charge, part: real) {
    && after.paid == before.paid + part && after.remaining == before.remaining - part
    && after.net == before.net && after.gross == before.gross && after.discount == before.discount
    && (part > 0.0 ==> after.status == if after.remaining == 0.0 then PAID else PARTIAL)
    && (part == 0.0 && before.remaining > 0.0 ==> after == before)
    && after.periodStart == before.periodStart && after.periodEnd == before.periodEnd
  }

  lemma PartIsShare(cs: seq<Charge>, amount: real, i: nat)
    requires AllCoherent(cs) && i < |cs|
    ensures OpenAmounts(cs) == Remainders(cs) && Fifo.Share(OpenAmounts(cs), amount, i) == Part(cs, amount, i)
  {
    assert Coherent(cs[i]);
    assert OpenAmounts(cs) == Remainders(cs);
  }

  ghost predicate OnlyContractChanges(before: seq<Contract>, after: seq<Contract>, id: nat) {
    |after| == |before| && forall k | 0 <= k < |before| && k != id :: after[k] == before[k]
  }

  /** A payment lands on its own contract only, oldest charge first, is recorded with its amount, and takes
      that amount off the deposit of the same contract if it is paid from there. */
  lemma PaymentWrites(b: Book, op: Op, i: nat)
    requires Inv(b) && op.OpPay? && Admissible(op) && Step(b, op).Ok? && i < |b.contracts[op.id].charges|
    ensures var b' := Step(b, op).value;
            var c, d := b.contracts[op.id], b'.contracts[op.id];
            && OnlyContractChanges(b.contracts, b'.contracts, op.id)
            && b'.payments == b.payments + [Payment(op.id, op.amount)]
            && d == c.(charges := d.charges, depositRemaining := d.depositRemaining)
            && d.depositRemaining == c.depositRemaining - (if op.fromDeposit then op.amount else 0.0)
            && |d.charges| == |c.charges| && PaidOn(c.charges[i], d.charges[i], Part(c.charges, op.amount, i))
  {
    var cs := b.contracts[op.id].charges;
    assert ContractOk(b.contracts[op.id]);
    assert Coherent(cs[i]);
    PartIsShare(cs, op.amount, i);
  }

  /** What a discount leaves of a charge. */
  ghost predicate ForgivenOn(before: Charge, after: Charge, part: real) {
    && after.paid == before.paid && after.gross == before.gross
    && after.net == before.net - part && after.discount == before.discount + part && after.remaining == before.remaining - part
    && (part > 0.0 ==> after.status == if after.remaining == 0.0 then PAID else if before.paid > 0.0 then PARTIAL else PENDING)
    && (part == 0.0 && before.remaining > 0.0 ==> after == before)
    && after.periodStart == before.periodStart && after.periodEnd == before.periodEnd
  }

  /** A discount forgives oldest first on its own contract, and takes no money. */
  lemma DiscountWrites(b: Book, op: Op, i: nat)
    requires Inv(b) && op.OpDiscount? && Admissible(op) && Step(b, op).Ok? && i < |b.contracts[op.id].charges|
    ensures var b' := Step(b, op).value;
            var c, d := b.contracts[op.id], b'.contracts[op.id];
            && OnlyContractChanges(b.contracts, b'.contracts, op.id)
            && b'.payments == b.payments && b'.allocations == b.allocations
            && d == c.(charges := d.charges)
            && |d.charges| == |c.charges| && ForgivenOn(c.charges[i], d.charges[i], Part(c.charges, op.amount, i))
  {
    var cs := b.contracts[op.id].charges;
    assert ContractOk(b.contracts[op.id]);
    assert Coherent(cs[i]);
    PartIsShare(cs, op.amount, i);
  }

  // ---- repricing ------------------------------------------------------------------------------------

  /** A repriced charge bills the new rent whole, at a rate by its days; the difference is its discount. */
  ghost predicate RepricedTo(before: Charge, after: Charge, newRent: real) {
    && after.net == newRent && after.remaining == newRent && after.paid == 0.0
    && after.dailyRate * before.days as real == newRent
    && after.gross == before.gross && after.discount == before.gross - newRent && after.days == before.days
    && after.status == (if newRent == 0.0 then PAID else PENDING)
    && after.periodStart == before.periodStart && after.periodEnd == before.periodEnd
  }

  lemma RepricedIs(c: Charge, newRent: real)
    requires Coherent(c) && newRent >= 0.0 && (c.status == PENDING || c.status == OVERDUE)
    ensures RepricedTo(c, Reprice(c, newRent), newRent)
  {
    RepriceCoherent(c, newRent);
  }

  /** An adjustment reprices exactly the charges of its contract that start on or after the day and are not
      paid on, and leaves every other as it is. */
  lemma AdjustmentWrites(b: Book, op: Op, i: nat)
    requires Inv(b) && op.OpAdjust? && Admissible(op) && Step(b, op).Ok? && i < |b.contracts[op.id].charges|
    ensures var b' := Step(b, op).value;
            var c, d := b.contracts[op.id], b'.contracts[op.id];
            && OnlyContractChanges(b.contracts, b'.contracts, op.id)
            && b'.payments == b.payments && b'.allocations == b.allocations
            && d == c.(charges := d.charges) && |d.charges| == |c.charges|
            && (if Repriceable(c.charges[i], op.effectiveFrom) then RepricedTo(c.charges[i], d.charges[i], op.newRent)
                else d.charges[i] == c.charges[i])
  {
    var debts := AdjustmentIs(b, op.id, op.newRent, op.effectiveFrom, op.now);
    assert ContractOk(b.contracts[op.id]);
    var c := b.contracts[op.id].charges[i];
    assert Coherent(c);
    if Repriceable(c, op.effectiveFrom) { RepricedIs(c, op.newRent); }
  }

  // ---- the end of a contract ------------------------------------------------------------------------

  /** The day lies in the period of the charge. */
  predicate HoldsDay(c: Charge, day: int) { c.periodStart <= day && day < c.periodEnd }

  /** What a termination makes of one charge. */
  ghost predicate TerminatedAt(before: Charge, after: Charge, day: int, prorate: bool) {
    && after.paid == before.paid && after.discount == before.discount && after.dailyRate == before.dailyRate
    && after.periodStart == before.periodStart
    && (if prorate && HoldsDay(before, day) then
          && after.periodEnd == day && after.days == day - before.periodStart
          && after.gross == after.net == before.dailyRate * (day - before.periodStart) as real
          && after.remaining == Max(0.0, after.net - before.paid)
          && (day > before.periodStart || after.remaining == 0.0 ==>
                after.status == if after.remaining == 0.0 then PAID else if before.paid > 0.0 then PARTIAL else PENDING)
        else if Unpaid(before) && before.periodStart >= day then after == before.(status := CANCELED)
        else after == before)
  }

  lemma ChargeIsTerminated(c: Contract, day: int, prorate: bool, i: nat)
    requires ContractOk(c) && Standing(c) && i < |c.charges|
    ensures |Terminated(c.charges, day, prorate)| == |c.charges|
    ensures TerminatedAt(c.charges[i], Terminated(c.charges, day, prorate)[i], day, prorate)
  {
    var cs := c.charges;
    assert Coherent(cs[i]);
    FirstSpanningFinds(cs, day, 0);
    TerminatedKeeps(cs, day, prorate);
    if HoldsDay(cs[i], day) {
      RT.OnlyOneSpans(cs, c.startDate, c.endDate, day, i);
      assert CutShort(cs, day, prorate)[i] == if prorate then Prorate(cs[i], day) else cs[i];
      if cs[i].periodStart == day { assert cs[i].dailyRate * 0.0 == 0.0; }
    } else {
      assert CutShort(cs, day, prorate)[i] == cs[i];
    }
  }

  /** A termination ends its contract on the day; with proration the charge that holds the day is cut there,
      and unpaid charges that start on or after it are canceled. Nothing else changes. */
  lemma TerminationWrites(b: Book, op: Op, i: nat)
    requires Inv(b) && op.OpTerminate? && Step(b, op).Ok? && i < |b.contracts[op.id].charges|
    ensures var b' := Step(b, op).value;
            var c, d := b.contracts[op.id], b'.contracts[op.id];
            && OnlyContractChanges(b.contracts, b'.contracts, op.id)
            && b'.payments == b.payments && b'.allocations == b.allocations
            && d == c.(charges := d.charges, status := EarlyTerminated, endDate := op.day)
            && |d.charges| == |c.charges| && TerminatedAt(c.charges[i], d.charges[i], op.day, op.prorate)
  {
    assert ContractOk(b.contracts[op.id]);
    ChargeIsTerminated(b.contracts[op.id], op.day, op.prorate, i);
  }

  /** Cancelling a draft cancels its unpaid charges and nothing else. */
  lemma CancellationWrites(b: Book, op: Op, i: nat)
    requires op.OpCancel? && Step(b, op).Ok? && i < |b.contracts[op.id].charges|
    ensures var b' := Step(b, op).value;
            var c, d := b.contracts[op.id], b'.contracts[op.id];
            && OnlyContractChanges(b.contracts, b'.contracts, op.id)
            && b' == b.(contracts := b'.contracts)
            && d == c.(charges := d.charges, status := Cancelled) && |d.charges| == |c.charges|
            && d.charges[i] == if Unpaid(c.charges[i]) then c.charges[i].(status := CANCELED) else c.charges[i]
  {
  }

  // ---- new contracts --------------------------------------------------------------------------------

  /** A contract that is drawn up before its first day is a draft. */
  function FirstStatus(start: int, now: real): ContractStatus { if start as real <= now then Active else Draft }

  /** A creation adds one contract at the end, with the columns asked for and its charges generated, and
      changes no other. */
  lemma CreationWrites(b: Book, op: Op)
    requires op.OpCreate? && Step(b, op).Ok?
    ensures var b' := Step(b, op).value;
            && |b'.contracts| == |b.contracts| + 1 && b'.contracts[..|b.contracts|] == b.contracts
            && var c := b'.contracts[|b.contracts|];
            && c == Contract(op.tenant, op.shop, op.currency, op.start, op.end, op.rent, FirstStatus(op.start, op.now),
                             op.deposit, None, c.charges)
            && (op.openingPaid.None? ==> c.charges == Charges(op.start, op.end, op.rent) && b'.payments == b.payments)
            && (op.openingPaid.Some? ==> b'.payments == b.payments + [Payment(|b.contracts|, op.openingPaid.value)])
  {
  }

  /** A renewal closes its contract, whose deposit passes to a successor that starts on the day the old one
      ends, for the same tenant in the same currency, at the rent asked for or what the last charge bills. */
  lemma RenewalWrites(b: Book, op: Op)
    requires Inv(b) && op.OpRenew? && Step(b, op).Ok?
    ensures var b' := Step(b, op).value;
            && |b'.contracts| == |b.contracts| + 1 && b' == b.(contracts := b'.contracts)
            && var n := |b.contracts|;
            var c, d, next := b.contracts[op.id], b'.contracts[op.id], b'.contracts[n];
            && OnlyContractChanges(b.contracts, b'.contracts[..n], op.id)
            && d == c.(status := Expired, depositRemaining := 0.0)
            && c.charges != []
            && next.rent == (if op.rentAsked.Some? then op.rentAsked.value else c.charges[|c.charges| - 1].net)
            && next == Contract(c.tenant, if op.newShop.Some? then op.newShop.value else c.shop, c.currency, c.endDate,
                                op.newEnd, next.rent, FirstStatus(c.endDate, op.now), c.depositRemaining, Some(op.id),
                                Charges(c.endDate, op.newEnd, next.rent))
  {
    assert ContractOk(b.contracts[op.id]);
  }

  // ---- nightly jobs ---------------------------------------------------------------------------------

  /** The jobs flag exactly the rows whose day has come: PENDING charges whose period is over, active
      contracts whose end is past, and drafts whose start has come. */
  lemma JobsFlag(b: Book, now: real, k: nat, i: nat)
    requires k < |b.contracts| && i < |b.contracts[k].charges|
    ensures var c := b.contracts[k];
            var overdue, expired, started := Apply(b, OpFlagOverdue(now)), Apply(b, OpFlagExpired(now)), Apply(b, OpActivateStarted(now));
            && |overdue.contracts| == |expired.contracts| == |started.contracts| == |b.contracts|
            && overdue.contracts[k] == c.(charges := overdue.contracts[k].charges) && |overdue.contracts[k].charges| == |c.charges|
            && overdue.contracts[k].charges[i]
               == (if c.charges[i].status == PENDING && (c.charges[i].periodEnd as real) < now then c.charges[i].(status := OVERDUE)
                   else c.charges[i])
            && expired.contracts[k] == (if c.status == Active && (c.endDate as real) < now then c.(status := Expired) else c)
            && started.contracts[k] == (if c.status == Draft && c.startDate as real <= now then c.(status := Active) else c)
  {
  }
}
