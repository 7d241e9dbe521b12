/** What the rent engine promises over whole runs, on top of the invariant. */
module RentTheorems {
  import opened Basics
  import opened Calendar
  import opened RentCharges
  import opened ChargeGeneration
  import opened RentTables
  import opened RentDebts
  import opened RentOps
  import opened RentRuns
  import Fifo

  // ---- the failing renewal ----------------------------------------------------------------------

  lemma JanuaryIsOnePeriod(rent: real)
    ensures Charges(0, 31, rent) == [Issue(0, 31, rent / 31.0)]
  {
    assert MonthStart(1) == 31;
    MonthIsUnique(0, 0);
    assert AddOneMonth(0) == 31;
    UnfoldCharges(0, 31, rent);
    assert PeriodCharge(0, 31, rent) == Issue(0, 31, rent / 31.0);
    assert Charges(31, 31, rent) == [];
  }

  lemma RunOfThree(x: Op, y: Op, z: Op)
    ensures Run(EMPTY, [x, y]) == Apply(Apply(EMPTY, x), y)
    ensures Run(EMPTY, [x, y, z]) == Apply(Apply(Apply(EMPTY, x), y), z)
  {
    assert [x, y, z][..2] == [x, y] && [x, y][..1] == [x] && [x][..0] == [];
    assert Run(EMPTY, [x]) == Apply(EMPTY, x);
    assert Run(EMPTY, [x, y]) == Apply(Run(EMPTY, [x]), y);
  }

  const OneMonth := OpCreate(0, 0, 0, 0, 31, 31.0, 0.0, None, true, 0.0)
  const ForgiveAll := OpDiscount(0, 31.0, 10.0)
  const RenewAsBefore := OpRenew(0, 62, None, None, 10.0)

  lemma ForgivenMonth()
    ensures Step(EMPTY, OneMonth).Ok? && Step(Apply(EMPTY, OneMonth), ForgiveAll).Ok?
    ensures var b := Apply(Apply(EMPTY, OneMonth), ForgiveAll);
            && |b.contracts| == 1
            && b.contracts[0] == Contract(0, 0, 0, 0, 31, 31.0, Active, 0.0, None, [Forgive(Issue(0, 31, 1.0), 31.0)])
            && Inv(b) && PaidExactly(b)
  {
    JanuaryIsOnePeriod(31.0);
    EmptyIsCoherent();
    StepKeepsInvariant(EMPTY, OneMonth);
    var b0 := Apply(EMPTY, OneMonth);
    var cs := b0.contracts[0].charges;
    assert cs == [Issue(0, 31, 1.0)];
    assert OpenAmounts(cs) == [31.0];
    assert Prefix([31.0], 0) == 0.0 && Prefix([31.0], 1) == 31.0;
    assert Forgiven(cs, 31.0) == [Forgive(Issue(0, 31, 1.0), 31.0)];
    StepKeepsInvariant(b0, ForgiveAll);
  }

  ghost predicate HasDeadCharge(cs: seq<Charge>) {
    exists i | 0 <= i < |cs| :: Dead(cs[i])
  }

  lemma RenewedForNothing(b: Book)
    requires Inv(b) && PaidExactly(b) && |b.contracts| == 1
    requires b.contracts[0] == Contract(0, 0, 0, 0, 31, 31.0, Active, 0.0, None, [Forgive(Issue(0, 31, 1.0), 31.0)])
    ensures Step(b, RenewAsBefore).Ok? && !PaidExactly(Step(b, RenewAsBefore).value)
    ensures var contracts := Step(b, RenewAsBefore).value.contracts;
            |contracts| == 2 && HasDeadCharge(contracts[1].charges)
  {
    assert RenewalRent(b.contracts[0], None) == 0.0;
    assert Step(b, RenewAsBefore).Ok?;
    StepKeepsInvariant(b, RenewAsBefore);
    GeneratedChargesCoherent(31, 62, 0.0);
  }

  /** A concrete run that breaks it: a one-month contract is forgiven in full and then renewed without
      naming a rent. The renewal bills the last period's net amount, zero, so its charge is open with
      nothing left to pay. */
  lemma ForgivenThenRenewedBillsNothing()
    ensures Admissible(OneMonth) && Admissible(ForgiveAll) && Admissible(RenewAsBefore)
    ensures PaidExactly(Run(EMPTY, [OneMonth, ForgiveAll]))
    ensures var b := Run(EMPTY, [OneMonth, ForgiveAll, RenewAsBefore]);
            !PaidExactly(b) && |b.contracts| == 2 && HasDeadCharge(b.contracts[1].charges)
  {
    RunOfThree(OneMonth, ForgiveAll, RenewAsBefore);
    ForgivenMonth();
    var b := Apply(Apply(EMPTY, OneMonth), ForgiveAll);
    RenewedForNothing(b);
  }

  // ---- payments and discounts compose -----------------------------------------------------------

  /** The step does not reprice, write off, cancel or cut the charges of contract `id`. */
  predicate OnlyCredits(op: Op, id: nat) {
    !((op.OpAdjust? || op.OpSettle? || op.OpTerminate? || op.OpCancel?) && op.id == id)
  }

  /** What a step pays or forgives on contract `id`. */
  function CreditOf(b: Book, op: Op, id: nat): real {
    if (op.OpPay? || op.OpDiscount?) && op.id == id && Step(b, op).Ok? then op.amount else 0.0
  }

  function Credited(b: Book, ops: seq<Op>, id: nat): real {
    if ops == [] then 0.0
    else
      var init, last := ops[..|ops| - 1], ops[|ops| - 1];
      Credited(b, init, id) + CreditOf(Run(b, init), last, id)
  }

  lemma NothingSpent(rs: seq<real>)
    requires NonNegative(rs)
    ensures Fifo.After(rs, 0.0) == rs
  {
    forall i | 0 <= i < |rs| ensures Fifo.After(rs, 0.0)[i] == rs[i] { PrefixMonotone(rs, 0, i); }
  }

  lemma OthersCreditNothing(b: Book, op: Op, id: nat)
    requires id < |b.contracts| && OnlyCredits(op, id) && Step(b, op).Ok? && !op.OpFlagOverdue?
    requires !((op.OpPay? || op.OpDiscount?) && op.id == id)
    ensures var b' := Step(b, op).value;
            id < |b'.contracts| && b'.contracts[id].charges == b.contracts[id].charges
  {
  }

  /** The open amounts of a contract are what `credited` leaves of `before`. */
  ghost predicate CreditedTo(b: Book, id: nat, before: seq<real>, credited: real) {
    id < |b.contracts| && credited >= 0.0 && OpenAmounts(b.contracts[id].charges) == Fifo.After(before, credited)
  }

  lemma StepCredits(b: Book, op: Op, id: nat) returns (after: Book, credit: real)
    requires Admissible(op) && id < |b.contracts| && OnlyCredits(op, id) && NonNegative(OpenAmounts(b.contracts[id].charges))
    ensures after == Apply(b, op) && credit == CreditOf(b, op, id)
    ensures CreditedTo(after, id, OpenAmounts(b.contracts[id].charges), credit)
  {
    after, credit := Apply(b, op), CreditOf(b, op, id);
    var cs := b.contracts[id].charges;
    NothingSpent(OpenAmounts(cs));
    if Step(b, op).Ok? {
      if (op.OpPay? || op.OpDiscount?) && op.id == id { OpenAfter(cs, op.amount); }
      else if op.OpFlagOverdue? { FlaggingOpensNothing(cs, op.now); }
      else { OthersCreditNothing(b, op, id); }
    }
  }

  lemma UnfoldRun(b: Book, ops: seq<Op>, id: nat)
    requires ops != []
    ensures var init, last := ops[..|ops| - 1], ops[|ops| - 1];
            Run(b, ops) == Apply(Run(b, init), last) && Credited(b, ops, id) == Credited(b, init, id) + CreditOf(Run(b, init), last, id)
  {
  }

  lemma OneMoreCredit(b: Book, after: Book, id: nat, before: seq<real>, credited: real, credit: real, total: real)
    requires NonNegative(before) && CreditedTo(b, id, before, credited) && total == credited + credit
    requires CreditedTo(after, id, OpenAmounts(b.contracts[id].charges), credit)
    ensures CreditedTo(after, id, before, total)
  {
    Fifo.Composes(before, credited, credit);
  }

  lemma {:induction false} CreditsAdd(b: Book, ops: seq<Op>, id: nat)
    requires AllAdmissible(ops) && id < |b.contracts| && NonNegative(OpenAmounts(b.contracts[id].charges))
    requires forall op | op in ops :: OnlyCredits(op, id)
    ensures CreditedTo(Run(b, ops), id, OpenAmounts(b.contracts[id].charges), Credited(b, ops, id))
  {
    var before := OpenAmounts(b.contracts[id].charges);
    if ops == [] {
      NothingSpent(before);
    } else {
      var init, last := ops[..|ops| - 1], ops[|ops| - 1];
      assert forall op | op in init :: op in ops;
      assert last in ops;
      CreditsAdd(b, init, id);
      var credited, middle := Credited(b, init, id), Run(b, init);
      Fifo.AfterUpTo(before, credited, |before|);
      var after, credit := StepCredits(middle, last, id);
      var total := Credited(b, ops, id);
      assert after == Run(b, ops) && total == credited + credit by { UnfoldRun(b, ops, id); }
      OneMoreCredit(middle, after, id, before, credited, credit, total);
    }
  }

  /** Any run of payments and debt discounts on a contract that owes no negative amount, interleaved
      with any steps that do not otherwise rewrite its charges, leaves exactly what consuming their
      total oldest-first in one pass would: an exhausted prefix, at most one partly consumed charge, an
      untouched suffix. */
  lemma CreditsCompose(b: Book, ops: seq<Op>, id: nat) returns (cut: nat)
    requires AllAdmissible(ops) && id < |b.contracts| && NonNegative(OpenAmounts(b.contracts[id].charges))
    requires forall op | op in ops :: OnlyCredits(op, id)
    ensures var b' := Run(b, ops);
            var before := OpenAmounts(b.contracts[id].charges);
            && id < |b'.contracts|
            && Credited(b, ops, id) >= 0.0
            && OpenAmounts(b'.contracts[id].charges) == Fifo.After(before, Credited(b, ops, id))
            && Fifo.CutAt(before, OpenAmounts(b'.contracts[id].charges), cut)
  {
    CreditsAdd(b, ops, id);
    cut := Fifo.Shape(OpenAmounts(b.contracts[id].charges), Credited(b, ops, id));
  }

  /** A payment from a bank account goes through exactly when its date and rate are accepted and it
      does not exceed the open debt, and a refused one changes nothing. */
  lemma OverpaymentChangesNothing(b: Book, id: nat, amount: real, entry: PaymentEntry, now: real)
    requires id < |b.contracts|
    ensures var op := OpPay(id, amount, false, entry, now);
            && (Step(b, op).Ok? <==> Accepted(entry) && amount <= OpenDebt(b.contracts[id].charges))
            && (amount > OpenDebt(b.contracts[id].charges) ==> Apply(b, op) == b)
  {
  }

  // ---- early termination ------------------------------------------------------------------------

  lemma OnlyOneSpans(cs: seq<Charge>, start: int, end: int, day: int, i: nat)
    requires Tiles(cs, start, end) && i < |cs| && Spans(cs[i], day)
    ensures FirstSpanning(cs, day, 0) == Some(i)
    ensures forall j | 0 <= j < |cs| && j != i :: !Spans(cs[j], day)
  {
    FirstSpanningFinds(cs, day, 0);
    forall j | 0 <= j < |cs| && j != i ensures !Spans(cs[j], day) {
      if i < j { TiledPeriodsIncrease(cs, start, end, i, j); } else { TiledPeriodsIncrease(cs, start, end, j, i); }
    }
  }

  /** What a prorated termination on `day` does to each charge. */
  ghost predicate ProratedAt(before: Charge, after: Charge, day: int) {
    && after.paid == before.paid
    && (Open(after) ==> after.periodEnd <= day)
    && (Spans(before, day) ==>
          && after.periodEnd == day
          && after.net == before.dailyRate * (day - before.periodStart) as real
          && after.remaining == Max(0.0, after.net - before.paid))
    && (before.periodEnd <= day ==> after == before)
    && (before.periodStart > day ==> after == if before.status == PAID then before else Cancel(before))
  }

  lemma ChargeProrates(c: Contract, day: int, i: nat)
    requires ContractOk(c) && Standing(c) && i < |c.charges|
    ensures ProratedAt(c.charges[i], Terminated(c.charges, day, true)[i], day)
  {
    var cs := c.charges;
    var x := cs[i];
    assert Coherent(x);
    FirstSpanningFinds(cs, day, 0);
    if Spans(x, day) {
      OnlyOneSpans(cs, c.startDate, c.endDate, day, i);
      assert CutShort(cs, day, true)[i] == Prorate(x, day);
      if x.periodStart == day { assert x.dailyRate * 0.0 == 0.0; }
    } else {
      assert CutShort(cs, day, true)[i] == x;
      assert x.status != CANCELED;
    }
  }

  /** Terminating a standing contract with proration on `day`: no paid amount changes; at most one
      charge spans the day and ends up billing its daily rate up to it; nothing that stays open runs
      past the day; earlier charges and later paid ones are untouched. */
  lemma TerminationProrates(b: Book, id: nat, day: int, now: real)
    requires Inv(b) && id < |b.contracts| && Terminate(b, id, day, true, now).Ok?
    ensures var before := b.contracts[id].charges;
            var after := Terminate(b, id, day, true, now).value.contracts[id].charges;
            && |after| == |before|
            && (forall i, j | 0 <= i < j < |before| :: !(Spans(before[i], day) && Spans(before[j], day)))
            && forall i | 0 <= i < |before| :: ProratedAt(before[i], after[i], day)
  {
    var c := b.contracts[id];
    assert ContractOk(c);
    TerminatedKeeps(c.charges, day, true);
    assert |Terminated(c.charges, day, true)| == |c.charges|;
    forall i, j | 0 <= i < j < |c.charges|
      ensures !(Spans(c.charges[i], day) && Spans(c.charges[j], day))
    {
      if Spans(c.charges[i], day) { OnlyOneSpans(c.charges, c.startDate, c.endDate, day, i); }
    }
    forall i | 0 <= i < |c.charges|
      ensures ProratedAt(c.charges[i], Terminated(c.charges, day, true)[i], day)
    {
      ChargeProrates(c, day, i);
    }
  }

  // ---- chains of renewals -----------------------------------------------------------------------

  function ChainCharges(contracts: seq<Contract>, k: nat): seq<Charge>
    requires k < |contracts|
  {
    match contracts[k].renewedFrom
    case None => contracts[k].charges
    case Some(j) => if j < k then ChainCharges(contracts, j) + contracts[k].charges else []
  }

  function ChainStart(contracts: seq<Contract>, k: nat): int
    requires k < |contracts|
  {
    match contracts[k].renewedFrom
    case None => contracts[k].startDate
    case Some(j) => if j < k then ChainStart(contracts, j) else contracts[k].startDate
  }

  /** A chain of renewals, of any length, tiles one unbroken interval with its charges. */
  lemma {:induction false} RenewalChainTiles(b: Book, k: nat)
    requires Inv(b) && k < |b.contracts| && Standing(b.contracts[k])
    ensures Tiles(ChainCharges(b.contracts, k), ChainStart(b.contracts, k), b.contracts[k].endDate)
  {
    var c := b.contracts[k];
    assert ContractOk(c) && RenewalOk(b.contracts, k);
    if c.renewedFrom.Some? {
      var j := c.renewedFrom.value;
      RenewalChainTiles(b, j);
      TilesConcatenate(ChainCharges(b.contracts, j), c.charges, ChainStart(b.contracts, j), c.startDate, c.endDate);
    }
  }

  // ---- the debt cache in runs -------------------------------------------------------------------

  lemma CoherentBooksAreSane(b: Book)
    requires Inv(b)
    ensures SaneContracts(b.contracts)
  {
    forall k, i | 0 <= k < |b.contracts| && 0 <= i < |b.contracts[k].charges|
      ensures SaneCharge(b.contracts[k].charges[i])
    {
      assert ContractOk(b.contracts[k]);
      assert Coherent(b.contracts[k].charges[i]);
    }
  }

  predicate Recomputes(op: Op) {
    op.OpCreate? || op.OpPay? || op.OpDiscount? || op.OpAdjust? || op.OpSettle? || op.OpTerminate?
  }

  lemma CreationRecomputes(b: Book, op: Op) returns (stale: DebtCache)
    requires op.OpCreate? && Step(b, op).Ok?
    ensures var b' := Step(b, op).value; b'.debts == Recomputed(b'.contracts, stale, op.tenant, op.now)
  {
    var created := Step(b, op.(openingPaid := None)).value;
    stale := if op.openingPaid.Some? then created.debts else b.debts;
    assert created.contracts[|b.contracts|].tenant == op.tenant;
  }

  lemma SettlementRecomputes(b: Book, op: Op) returns (stale: DebtCache)
    requires op.OpSettle? && Step(b, op).Ok?
    ensures op.id < |b.contracts|
    ensures var b' := Step(b, op).value; b'.debts == Recomputed(b'.contracts, stale, b.contracts[op.id].tenant, op.now)
  {
    stale := if op.cash > 0.0 then RecordPayment(b, op.id, op.cash, false, op.entry, op.now).value.debts else b.debts;
  }

  lemma OneStepRecomputes(b: Book, op: Op)
    requires (op.OpPay? || op.OpDiscount? || op.OpAdjust? || op.OpTerminate?) && Step(b, op).Ok?
    ensures op.id < |b.contracts|
    ensures var b' := Step(b, op).value; b'.debts == Recomputed(b'.contracts, b.debts, b.contracts[op.id].tenant, op.now)
  {
  }

  /** After each operation that recomputes, the tenant's cache rows agree with the charge table;
      renewing and cancelling a draft are not among them. */
  lemma RecomputingStepAgrees(b: Book, op: Op)
    requires Inv(b) && Admissible(op) && Recomputes(op) && Step(b, op).Ok?
    ensures op.OpCreate? || op.id < |b.contracts|
    ensures var b' := Step(b, op).value;
            var tenant := if op.OpCreate? then op.tenant else b.contracts[op.id].tenant;
            CacheAgrees(b'.contracts, b'.debts, tenant, op.now)
  {
    StepKeepsInvariant(b, op);
    var b' := Step(b, op).value;
    CoherentBooksAreSane(b');
    var tenant := if op.OpCreate? then op.tenant else if op.id < |b.contracts| then b.contracts[op.id].tenant else 0;
    var stale := b.debts;
    if op.OpCreate? {
      stale := CreationRecomputes(b, op);
    } else if op.OpSettle? {
      stale := SettlementRecomputes(b, op);
    } else {
      OneStepRecomputes(b, op);
    }
    RecomputeAgrees(b'.contracts, stale, tenant, op.now);
  }
}
