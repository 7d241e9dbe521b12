/** What every run of the electricity engine keeps: coherent bills, payments that are fully allocated,
    a debt row that equals the open bills, and months that are billed once. */
module ElectricityRuns {
  import opened Basics
  import opened Electricity
  import Fifo

  // ---- the payment queue ------------------------------------------------------------------------

  ghost predicate Sorted(bills: seq<Bill>, queue: seq<nat>) {
    Within(queue, |bills|) && forall p, q | 0 <= p < q < |queue| :: Before(bills, queue[p], queue[q])
  }

  function Remainings(bills: seq<Bill>, queue: seq<nat>): seq<real>
    requires Within(queue, |bills|)
  {
    seq(|queue|, p requires 0 <= p < |queue| => bills[queue[p]].remaining)
  }

  lemma SumAppend(bills: seq<Bill>, queue: seq<nat>, x: nat)
    requires Within(queue + [x], |bills|) && x < |bills|
    ensures Within(queue, |bills|)
    ensures Sum(Remainings(bills, queue + [x])) == Sum(Remainings(bills, queue)) + bills[x].remaining
  {
    assert forall p | 0 <= p < |queue| :: queue[p] == (queue + [x])[p];
    PrefixAgrees(Remainings(bills, queue + [x]), Remainings(bills, queue), |queue|);
  }

  lemma {:induction false} InsertKeepsTotal(bills: seq<Bill>, queue: seq<nat>, x: nat)
    requires Within(queue, |bills|) && x < |bills|
    ensures Sum(Remainings(bills, Insert(bills, queue, x))) == Sum(Remainings(bills, queue)) + bills[x].remaining
  {
    if queue == [] {
      assert [] + [x] == [x];
      SumAppend(bills, [], x);
    } else {
      var init, last := queue[..|queue| - 1], queue[|queue| - 1];
      if Before(bills, last, x) {
        SumAppend(bills, queue, x);
      } else {
        InsertKeepsTotal(bills, init, x);
        SumAppend(bills, Insert(bills, init, x), last);
        assert queue == init + [last];
        SumAppend(bills, init, last);
      }
    }
  }

  lemma AppendInOrder(bills: seq<Bill>, queue: seq<nat>, x: nat)
    requires Sorted(bills, queue) && x < |bills| && forall j | j in queue :: j < |bills| && Before(bills, j, x)
    ensures Sorted(bills, queue + [x])
  {
  }

  lemma {:induction false} InsertKeepsOrder(bills: seq<Bill>, queue: seq<nat>, x: nat)
    requires Sorted(bills, queue) && x < |bills| && forall p | 0 <= p < |queue| :: queue[p] < x
    ensures var r := Insert(bills, queue, x);
            Sorted(bills, r) && forall j: nat :: j in r <==> j in queue || j == x
  {
    if queue != [] {
      var n := |queue| - 1;
      var init, last := queue[..n], queue[n];
      assert queue == init + [last];
      if Before(bills, last, x) {
        forall p | 0 <= p < n ensures Before(bills, queue[p], x) { assert Before(bills, queue[p], last); }
        AppendInOrder(bills, queue, x);
      } else {
        InsertKeepsOrder(bills, init, x);
        var r := Insert(bills, init, x);
        forall j | j in r ensures j < |bills| && Before(bills, j, last) {
          assert j in init || j == x;
        }
        AppendInOrder(bills, r, last);
      }
    }
  }

  /** The queue has exactly the open bills of the shop among the first `k`. */
  ghost predicate ListsOpen(bills: seq<Bill>, tenant: nat, shop: nat, k: nat, queue: seq<nat>)
    requires k <= |bills|
  {
    && (forall p | 0 <= p < |queue| :: queue[p] < k && Owes(bills[queue[p]], tenant, shop))
    && (forall j: nat | j < k && Owes(bills[j], tenant, shop) :: j in queue)
  }

  lemma OneMoreListed(bills: seq<Bill>, tenant: nat, shop: nat, k: nat, queue: seq<nat>, longer: seq<nat>)
    requires k < |bills| && ListsOpen(bills, tenant, shop, k, queue)
    requires if Owes(bills[k], tenant, shop) then forall j: nat :: j in longer <==> j in queue || j == k else longer == queue
    ensures ListsOpen(bills, tenant, shop, k + 1, longer)
  {
    forall p | 0 <= p < |longer| ensures longer[p] < k + 1 && Owes(bills[longer[p]], tenant, shop) {
      assert longer[p] in longer;
    }
  }

  /** The queue lists exactly the open bills of the shop, in payment order. */
  lemma {:induction false} QueueInOrder(bills: seq<Bill>, tenant: nat, shop: nat, k: nat)
    requires k <= |bills|
    ensures var queue := OpenQueue(bills, tenant, shop, k);
            Sorted(bills, queue) && ListsOpen(bills, tenant, shop, k, queue)
  {
    if k > 0 {
      QueueInOrder(bills, tenant, shop, k - 1);
      var queue := OpenQueue(bills, tenant, shop, k - 1);
      if Owes(bills[k - 1], tenant, shop) {
        InsertKeepsOrder(bills, queue, k - 1);
      }
      OneMoreListed(bills, tenant, shop, k - 1, queue, OpenQueue(bills, tenant, shop, k));
    }
  }

  lemma {:induction false} QueueTotals(bills: seq<Bill>, tenant: nat, shop: nat, k: nat)
    requires k <= |bills|
    ensures Sum(Remainings(bills, OpenQueue(bills, tenant, shop, k))) == ShopDebtUpTo(bills, tenant, shop, k)
  {
    if k > 0 {
      QueueTotals(bills, tenant, shop, k - 1);
      if Owes(bills[k - 1], tenant, shop) {
        InsertKeepsTotal(bills, OpenQueue(bills, tenant, shop, k - 1), k - 1);
      }
    }
  }

  function AheadAlong(bills: seq<Bill>, queue: seq<nat>, i: nat): real
    requires Within(queue, |bills|) && i < |bills|
  {
    if queue == [] then 0.0
    else
      var j := queue[|queue| - 1];
      AheadAlong(bills, queue[..|queue| - 1], i) + (if Before(bills, j, i) then bills[j].remaining else 0.0)
  }

  lemma {:induction false} InsertAhead(bills: seq<Bill>, queue: seq<nat>, x: nat, i: nat)
    requires Within(queue, |bills|) && x < |bills| && i < |bills|
    ensures AheadAlong(bills, Insert(bills, queue, x), i)
         == AheadAlong(bills, queue, i) + (if Before(bills, x, i) then bills[x].remaining else 0.0)
  {
    if queue == [] {
      assert [x][..0] == [];
    } else {
      var n := |queue| - 1;
      if Before(bills, queue[n], x) {
        assert (queue + [x])[..|queue|] == queue;
      } else {
        InsertAhead(bills, queue[..n], x, i);
        var r := Insert(bills, queue[..n], x);
        assert (r + [queue[n]])[..|r|] == r;
      }
    }
  }

  lemma {:induction false} QueueAhead(bills: seq<Bill>, tenant: nat, shop: nat, i: nat, k: nat)
    requires i < |bills| && k <= |bills|
    ensures AheadAlong(bills, OpenQueue(bills, tenant, shop, k), i) == AheadUpTo(bills, tenant, shop, i, k)
  {
    if k > 0 {
      QueueAhead(bills, tenant, shop, i, k - 1);
      InsertAhead(bills, OpenQueue(bills, tenant, shop, k - 1), k - 1, i);
    }
  }

  lemma {:induction false} SortedAhead(bills: seq<Bill>, queue: seq<nat>, m: nat, p: nat)
    requires Sorted(bills, queue) && m <= |queue| && p < |queue|
    ensures Within(queue[..m], |bills|)
    ensures AheadAlong(bills, queue[..m], queue[p]) == Prefix(Remainings(bills, queue), if m <= p then m else p)
  {
    if m > 0 {
      SortedAhead(bills, queue, m - 1, p);
      assert queue[..m][..m - 1] == queue[..m - 1];
      if m - 1 < p {
        assert Before(bills, queue[m - 1], queue[p]);
      } else if p < m - 1 {
        assert Before(bills, queue[p], queue[m - 1]);
      }
    }
  }

  /** Walking the queue, the running remainder at a bill is what the closed form says. */
  lemma AheadOnQueue(bills: seq<Bill>, tenant: nat, shop: nat, p: nat)
    requires p < |Queue(bills, tenant, shop)|
    ensures var queue := Queue(bills, tenant, shop);
            Ahead(bills, tenant, shop, queue[p]) == Prefix(Remainings(bills, queue), p) && Owes(bills[queue[p]], tenant, shop)
  {
    var queue := Queue(bills, tenant, shop);
    QueueInOrder(bills, tenant, shop, |bills|);
    assert queue[p] in queue;
    QueueAhead(bills, tenant, shop, queue[p], |bills|);
    SortedAhead(bills, queue, |queue|, p);
    assert queue[..|queue|] == queue;
  }

  // ---- sums of allocations ----------------------------------------------------------------------

  function AllocatedOf(rows: seq<Allocation>, payment: nat): real {
    if rows == [] then 0.0
    else
      var last := rows[|rows| - 1];
      AllocatedOf(rows[..|rows| - 1], payment) + (if last.payment == payment then last.amount else 0.0)
  }

  function AllocatedTo(rows: seq<Allocation>, bill: nat): real {
    if rows == [] then 0.0
    else
      var last := rows[|rows| - 1];
      AllocatedTo(rows[..|rows| - 1], bill) + (if last.bill == bill then last.amount else 0.0)
  }

  lemma OneMoreRow(rows: seq<Allocation>, row: Allocation, payment: nat, bill: nat)
    ensures AllocatedOf(rows + [row], payment) == AllocatedOf(rows, payment) + (if row.payment == payment then row.amount else 0.0)
    ensures AllocatedTo(rows + [row], bill) == AllocatedTo(rows, bill) + (if row.bill == bill then row.amount else 0.0)
  {
    assert (rows + [row])[..|rows|] == rows;
  }

  lemma {:induction false} SumsOfConcat(a: seq<Allocation>, b: seq<Allocation>, payment: nat, bill: nat)
    ensures AllocatedOf(a + b, payment) == AllocatedOf(a, payment) + AllocatedOf(b, payment)
    ensures AllocatedTo(a + b, bill) == AllocatedTo(a, bill) + AllocatedTo(b, bill)
  {
    if b == [] {
      assert a + b == a;
    } else {
      var b', last := b[..|b| - 1], b[|b| - 1];
      assert (a + b)[..|a + b| - 1] == a + b';
      SumsOfConcat(a, b', payment, bill);
    }
  }

  lemma {:induction false} NoRowsNoSums(rows: seq<Allocation>, payment: nat, bill: nat)
    ensures (forall r | r in rows :: r.payment != payment) ==> AllocatedOf(rows, payment) == 0.0
    ensures (forall r | r in rows :: r.bill != bill) ==> AllocatedTo(rows, bill) == 0.0
  {
    if rows != [] {
      NoRowsNoSums(rows[..|rows| - 1], payment, bill);
    }
  }

  lemma RowStep(bills: seq<Bill>, tenant: nat, shop: nat, amount: real, payment: nat, m: nat)
    requires 0 < m <= |Queue(bills, tenant, shop)|
    ensures var queue := Queue(bills, tenant, shop);
            && Within(queue[..m], |bills|) && Within(queue[..m - 1], |bills|)
            && AllocationRows(bills, tenant, shop, amount, payment, queue[..m])
            == AllocationRows(bills, tenant, shop, amount, payment, queue[..m - 1])
               + (if Reached(bills, tenant, shop, amount, queue[m - 1])
                  then [Allocation(payment, queue[m - 1], ShareOf(bills, tenant, shop, amount, queue[m - 1]))] else [])
  {
    var queue := Queue(bills, tenant, shop);
    assert queue[..m][..m - 1] == queue[..m - 1];
  }

  /** At position `p` of the queue the share is what the walk hands out, and positive if reached. */
  lemma ShareOnQueue(bills: seq<Bill>, tenant: nat, shop: nat, amount: real, p: nat)
    requires amount > 0.0 && p < |Queue(bills, tenant, shop)| && BillOk(bills[Queue(bills, tenant, shop)[p]])
    ensures var queue := Queue(bills, tenant, shop);
            var i, share := queue[p], Fifo.Share(Remainings(bills, queue), amount, p);
            if Reached(bills, tenant, shop, amount, i) then ShareOf(bills, tenant, shop, amount, i) == share > 0.0 else share == 0.0
  {
    AheadOnQueue(bills, tenant, shop, p);
  }

  /** The rows belong to the payment and each moves a positive amount to a bill. */
  ghost predicate RowsFit(rows: seq<Allocation>, payment: nat, n: nat) {
    forall r | r in rows :: r.payment == payment && r.amount > 0.0 && r.bill < n
  }

  lemma OneMoreFits(rows: seq<Allocation>, row: Allocation, payment: nat, n: nat)
    requires RowsFit(rows, payment, n) && row.payment == payment && row.amount > 0.0 && row.bill < n
    ensures RowsFit(rows + [row], payment, n) && AllocatedOf(rows + [row], payment) == AllocatedOf(rows, payment) + row.amount
  {
    OneMoreRow(rows, row, payment, row.bill);
  }

  /** Every row moves a positive amount to a bill of the shop, and the rows add up to the shares. */
  lemma {:induction false} RowsOfPayment(bills: seq<Bill>, tenant: nat, shop: nat, amount: real, payment: nat, m: nat)
    requires amount > 0.0 && m <= |Queue(bills, tenant, shop)| && forall i | 0 <= i < |bills| :: BillOk(bills[i])
    ensures var queue := Queue(bills, tenant, shop);
            && Within(queue[..m], |bills|)
            && var rows := AllocationRows(bills, tenant, shop, amount, payment, queue[..m]);
            && RowsFit(rows, payment, |bills|)
            && AllocatedOf(rows, payment) == Prefix(Fifo.Shares(Remainings(bills, queue), amount), m)
  {
    if m > 0 {
      RowsOfPayment(bills, tenant, shop, amount, payment, m - 1);
      RowStep(bills, tenant, shop, amount, payment, m);
      var queue := Queue(bills, tenant, shop);
      var i := queue[m - 1];
      ShareOnQueue(bills, tenant, shop, amount, m - 1);
      var rows := AllocationRows(bills, tenant, shop, amount, payment, queue[..m - 1]);
      if Reached(bills, tenant, shop, amount, i) {
        OneMoreFits(rows, Allocation(payment, i, ShareOf(bills, tenant, shop, amount, i)), payment, |bills|);
      } else {
        assert rows + [] == rows;
      }
    }
  }

  lemma QueueIsDistinct(bills: seq<Bill>, tenant: nat, shop: nat, m: nat)
    requires m < |Queue(bills, tenant, shop)|
    ensures Queue(bills, tenant, shop)[m] !in Queue(bills, tenant, shop)[..m]
  {
    var queue := Queue(bills, tenant, shop);
    QueueInOrder(bills, tenant, shop, |bills|);
    forall p | 0 <= p < m ensures queue[p] != queue[m] {
      assert Before(bills, queue[p], queue[m]);
    }
  }

  lemma {:induction false} RowsToBill(bills: seq<Bill>, tenant: nat, shop: nat, amount: real, payment: nat, m: nat,
                                      bill: nat)
    requires m <= |Queue(bills, tenant, shop)|
    ensures var queue := Queue(bills, tenant, shop);
            && Within(queue[..m], |bills|)
            && AllocatedTo(AllocationRows(bills, tenant, shop, amount, payment, queue[..m]), bill)
            == if bill in queue[..m] && bill < |bills| && Reached(bills, tenant, shop, amount, bill)
               then ShareOf(bills, tenant, shop, amount, bill) else 0.0
  {
    if m > 0 {
      RowsToBill(bills, tenant, shop, amount, payment, m - 1, bill);
      RowStep(bills, tenant, shop, amount, payment, m);
      QueueIsDistinct(bills, tenant, shop, m - 1);
      var queue := Queue(bills, tenant, shop);
      assert queue[..m] == queue[..m - 1] + [queue[m - 1]];
      var rows, i := AllocationRows(bills, tenant, shop, amount, payment, queue[..m - 1]), queue[m - 1];
      OneMoreRow(rows, Allocation(payment, i, ShareOf(bills, tenant, shop, amount, i)), payment, bill);
      assert rows + [] == rows;
    }
  }

  // ---- the invariant ----------------------------------------------------------------------------

  /** What was paid and what remains make up the total, and the status says which is which. */
  ghost predicate BillOk(b: Bill) {
    && b.paid >= 0.0 && b.remaining >= 0.0 && b.paid + b.remaining == b.total
    && (b.status == PAID <==> b.remaining == 0.0)
    && (b.status == PARTIAL <==> b.remaining > 0.0 && b.paid > 0.0)
    && (b.status == PENDING || b.status == OVERDUE ==> b.paid == 0.0)
  }

  ghost predicate BillsOk(t: Tables) { forall i | 0 <= i < |t.bills| :: BillOk(t.bills[i]) }

  /** What a tenant owes over all bills, read directly off the bill table. */
  function TenantDebt(bills: seq<Bill>, tenant: nat): real {
    if bills == [] then 0.0
    else
      var last := bills[|bills| - 1];
      TenantDebt(bills[..|bills| - 1], tenant) + (if Open(last) && last.tenant == tenant then last.remaining else 0.0)
  }

  function StoredDebt(debts: map<nat, DebtRow>, tenant: nat): real {
    if tenant in debts then debts[tenant].totalDebt else 0.0
  }

  ghost predicate DebtsOk(t: Tables) {
    forall tenant: nat :: StoredDebt(t.debts, tenant) == TenantDebt(t.bills, tenant)
  }

  /** A payment is allocated in full; a bill's paid amount is what was allocated to it, and, for a bill
      taken over from the paper books, possibly what had been paid before. */
  ghost predicate AllocationsOk(t: Tables) {
    && (forall r | r in t.allocations :: r.payment < |t.payments| && r.bill < |t.bills| && r.amount > 0.0)
    && (forall p: nat | p < |t.payments| :: AllocatedOf(t.allocations, p) == t.payments[p].amount)
    && (forall i: nat | i < |t.bills| ::
          AllocatedTo(t.allocations, i) <= t.bills[i].paid
          && (!t.bills[i].openingEntry ==> AllocatedTo(t.allocations, i) == t.bills[i].paid))
  }

  /** A contract has at most one bill per period, and periods are read by the cycle of their year. */
  ghost predicate PeriodsOk(t: Tables) {
    && (forall year | year in t.cycles :: t.cycles[year] in ALLOWED_MONTHS_PER_PERIOD)
    && (forall i | 0 <= i < |t.bills| ::
          t.bills[i].year in t.cycles && ResolvePeriod(t.cycles[t.bills[i].year], t.bills[i].period).Some?)
    && (forall i, j | 0 <= i < j < |t.bills| :: !SamePeriod(t.bills[i], t.bills[j].contract, t.bills[j].year, t.bills[j].period))
  }

  ghost predicate Inv(t: Tables) { BillsOk(t) && DebtsOk(t) && AllocationsOk(t) && PeriodsOk(t) }

  // ---- the debt row -----------------------------------------------------------------------------

  lemma {:induction false} OpenBillsAddUp(bills: seq<Bill>, tenant: nat)
    ensures TotalRemaining(OpenBillsOf(bills, tenant)) == TenantDebt(bills, tenant)
  {
    if bills != [] {
      var init, last := bills[..|bills| - 1], bills[|bills| - 1];
      OpenBillsAddUp(init, tenant);
      var open := OpenBillsOf(init, tenant);
      assert (open + [last])[..|open|] == open;
      assert open + [] == open;
    }
  }

  lemma {:induction false} SameDebt(a: seq<Bill>, b: seq<Bill>, tenant: nat)
    requires |a| == |b|
    requires forall i | 0 <= i < |a| :: a[i].tenant == b[i].tenant && (a[i].tenant == tenant ==>
               (Open(a[i]) <==> Open(b[i])) && a[i].remaining == b[i].remaining)
    ensures TenantDebt(a, tenant) == TenantDebt(b, tenant)
  {
    if a != [] {
      SameDebt(a[..|a| - 1], b[..|b| - 1], tenant);
    }
  }

  /** Recomputing the tenant whose bills changed keeps every row right. */
  lemma RecomputeKeepsDebts(before: seq<Bill>, after: seq<Bill>, debts: map<nat, DebtRow>, tenant: nat)
    requires forall other: nat :: StoredDebt(debts, other) == TenantDebt(before, other)
    requires forall other: nat | other != tenant :: TenantDebt(after, other) == TenantDebt(before, other)
    ensures forall other: nat :: StoredDebt(Recomputed(after, debts, tenant), other) == TenantDebt(after, other)
  {
    OpenBillsAddUp(after, tenant);
  }

  lemma RewriteKeepsDebts(before: seq<Bill>, after: seq<Bill>, debts: map<nat, DebtRow>, tenant: nat)
    requires forall other: nat :: StoredDebt(debts, other) == TenantDebt(before, other)
    requires |after| == |before|
    requires forall i | 0 <= i < |before| :: after[i].tenant == before[i].tenant && (before[i].tenant != tenant ==> after[i] == before[i])
    ensures forall other: nat :: StoredDebt(Recomputed(after, debts, tenant), other) == TenantDebt(after, other)
  {
    forall other: nat | other != tenant ensures TenantDebt(after, other) == TenantDebt(before, other) {
      SameDebt(after, before, other);
    }
    RecomputeKeepsDebts(before, after, debts, tenant);
  }

  // ---- every operation keeps the invariant ------------------------------------------------------

  lemma QueueAmounts(bills: seq<Bill>, tenant: nat, shop: nat)
    requires forall i | 0 <= i < |bills| :: BillOk(bills[i])
    ensures NonNegative(Remainings(bills, Queue(bills, tenant, shop)))
    ensures Sum(Remainings(bills, Queue(bills, tenant, shop))) == ShopDebt(bills, tenant, shop)
  {
    QueueTotals(bills, tenant, shop, |bills|);
    var queue := Queue(bills, tenant, shop);
    assert forall p | 0 <= p < |queue| :: BillOk(bills[queue[p]]);
  }

  /** The allocation rows of a payment: they belong to it, add up to it, and give every bill its share. */
  lemma RowsOfWholePayment(t: Tables, tenant: nat, shop: nat, amount: real)
    requires BillsOk(t) && 0.0 < amount <= ShopDebt(t.bills, tenant, shop)
    ensures var n := |t.payments|;
            var rows := AllocationRows(t.bills, tenant, shop, amount, n, Queue(t.bills, tenant, shop));
            && RowsFit(rows, n, |t.bills|)
            && AllocatedOf(rows, n) == amount
            && forall i: nat | i < |t.bills| ::
                 AllocatedTo(rows, i) == Allocated(t.bills, tenant, shop, amount)[i].paid - t.bills[i].paid
  {
    var n, queue := |t.payments|, Queue(t.bills, tenant, shop);
    var rows := AllocationRows(t.bills, tenant, shop, amount, n, queue);
    assert queue[..|queue|] == queue;
    QueueAmounts(t.bills, tenant, shop);
    RowsOfPayment(t.bills, tenant, shop, amount, n, |queue|);
    Fifo.SharesAddUp(Remainings(t.bills, queue), amount);
    forall i: nat | i < |t.bills|
      ensures AllocatedTo(rows, i) == Allocated(t.bills, tenant, shop, amount)[i].paid - t.bills[i].paid
    {
      RowsToBill(t.bills, tenant, shop, amount, n, |queue|, i);
      QueueInOrder(t.bills, tenant, shop, |t.bills|);
    }
  }

  /** New rows of a new payment, when every bill's paid amount moves by what the rows give it. */
  lemma NewRowsKeepAllocations(t: Tables, t': Tables, rows: seq<Allocation>, payment: Payment)
    requires AllocationsOk(t)
    requires t'.payments == t.payments + [payment] && t'.allocations == t.allocations + rows && |t'.bills| == |t.bills|
    requires forall r | r in rows :: r.payment == |t.payments| && r.amount > 0.0 && r.bill < |t.bills|
    requires AllocatedOf(rows, |t.payments|) == payment.amount
    requires forall i: nat | i < |t.bills| ::
               AllocatedTo(rows, i) == t'.bills[i].paid - t.bills[i].paid && t'.bills[i].openingEntry == t.bills[i].openingEntry
    ensures AllocationsOk(t')
  {
    forall p: nat | p < |t'.payments|
      ensures AllocatedOf(t'.allocations, p) == t'.payments[p].amount
    {
      SumsOfConcat(t.allocations, rows, p, 0);
      NoRowsNoSums(rows, p, 0);
      NoRowsNoSums(t.allocations, |t.payments|, 0);
    }
    forall i: nat | i < |t'.bills|
      ensures AllocatedTo(t'.allocations, i) == AllocatedTo(t.allocations, i) + AllocatedTo(rows, i)
    {
      SumsOfConcat(t.allocations, rows, 0, i);
    }
  }

  lemma SamePeriodsOk(t: Tables, t': Tables)
    requires PeriodsOk(t) && t'.cycles == t.cycles && |t'.bills| == |t.bills|
    requires forall i | 0 <= i < |t.bills| ::
               SamePeriod(t'.bills[i], t.bills[i].contract, t.bills[i].year, t.bills[i].period)
    ensures PeriodsOk(t')
  {
  }

  /** Rewriting bills of one tenant by a payment that is allocated in full. */
  lemma PaidBillsKeep(t: Tables, t': Tables, tenant: nat, rows: seq<Allocation>, payment: Payment)
    requires Inv(t) && t'.cycles == t.cycles && |t'.bills| == |t.bills|
    requires t'.payments == t.payments + [payment] && t'.allocations == t.allocations + rows
    requires t'.debts == Recomputed(t'.bills, t.debts, tenant)
    requires forall r | r in rows :: r.payment == |t.payments| && r.amount > 0.0 && r.bill < |t.bills|
    requires AllocatedOf(rows, |t.payments|) == payment.amount
    requires forall i: nat | i < |t.bills| ::
               && AllocatedTo(rows, i) == t'.bills[i].paid - t.bills[i].paid
               && (t'.bills[i] == t.bills[i]
                   || (t.bills[i].tenant == tenant && Open(t.bills[i]) && 0.0 < AllocatedTo(rows, i) <= t.bills[i].remaining
                       && t'.bills[i] == Pay(t.bills[i], AllocatedTo(rows, i))))
    ensures Inv(t')
  {
    RewriteKeepsDebts(t.bills, t'.bills, t.debts, tenant);
    NewRowsKeepAllocations(t, t', rows, payment);
    SamePeriodsOk(t, t');
    forall i | 0 <= i < |t'.bills| ensures BillOk(t'.bills[i]) {
      assert BillOk(t.bills[i]);
    }
  }

  lemma OldestFirstKeeps(t: Tables, tenant: nat, shop: nat, amount: real, entry: PaymentEntry)
    requires Inv(t) && 0.0 < amount <= ShopDebt(t.bills, tenant, shop) && Accepted(entry)
    ensures var r := RecordPayment(t, tenant, shop, amount, None, None, entry); r.Ok? && Inv(r.value)
  {
    var t' := RecordPayment(t, tenant, shop, amount, None, None, entry).value;
    var rows := AllocationRows(t.bills, tenant, shop, amount, |t.payments|, Queue(t.bills, tenant, shop));
    RowsOfWholePayment(t, tenant, shop, amount);
    forall i: nat | i < |t.bills| ensures BillOk(t.bills[i]) {}
    PaidBillsKeep(t, t', tenant, rows, Payment(tenant, shop, amount));
  }

  lemma OneBillKeeps(t: Tables, t': Tables, i: nat, payment: Payment)
    requires Inv(t) && i < |t.bills| && Open(t.bills[i]) && 0.0 < payment.amount <= t.bills[i].remaining
    requires t' == t.(bills := t.bills[i := Pay(t.bills[i], payment.amount)], payments := t.payments + [payment],
                      allocations := t.allocations + [Allocation(|t.payments|, i, payment.amount)],
                      debts := Recomputed(t.bills[i := Pay(t.bills[i], payment.amount)], t.debts, t.bills[i].tenant))
    ensures Inv(t')
  {
    var row := Allocation(|t.payments|, i, payment.amount);
    forall p: nat, j: nat
      ensures AllocatedOf([row], p) == (if p == |t.payments| then payment.amount else 0.0)
      ensures AllocatedTo([row], j) == (if j == i then payment.amount else 0.0)
    {
      OneMoreRow([], row, p, j);
      assert [] + [row] == [row];
    }
    PaidBillsKeep(t, t', t.bills[i].tenant, [row], payment);
  }

  lemma NonNegativeProduct(x: real, y: real)
    requires x >= 0.0 && y >= 0.0
    ensures x * y >= 0.0
  {
  }

  lemma NewBillKeepsDebts(bills: seq<Bill>, debts: map<nat, DebtRow>, bill: Bill)
    requires forall other: nat :: StoredDebt(debts, other) == TenantDebt(bills, other)
    ensures forall other: nat :: StoredDebt(Recomputed(bills + [bill], debts, bill.tenant), other) == TenantDebt(bills + [bill], other)
  {
    assert (bills + [bill])[..|bills|] == bills;
    RecomputeKeepsDebts(bills, bills + [bill], debts, bill.tenant);
  }

  lemma NewBillKeepsAllocations(t: Tables, t': Tables, bill: Bill)
    requires AllocationsOk(t) && t'.payments == t.payments && t'.allocations == t.allocations && t'.bills == t.bills + [bill]
    requires bill.paid >= 0.0 && (!bill.openingEntry ==> bill.paid == 0.0)
    ensures AllocationsOk(t')
  {
    NoRowsNoSums(t.allocations, 0, |t.bills|);
    assert forall i: nat | i < |t.bills| :: t'.bills[i] == t.bills[i];
  }

  lemma NewBillKeepsPeriods(t: Tables, t': Tables, bill: Bill)
    requires PeriodsOk(t) && t'.cycles == t.cycles && t'.bills == t.bills + [bill]
    requires bill.year in t.cycles && t.cycles[bill.year] in ALLOWED_MONTHS_PER_PERIOD
             && ResolvePeriod(t.cycles[bill.year], bill.period).Some?
    requires forall b | b in t.bills :: !SamePeriod(b, bill.contract, bill.year, bill.period)
    ensures PeriodsOk(t')
  {
    assert forall i: nat | i < |t.bills| :: t'.bills[i] == t.bills[i] && t.bills[i] in t.bills;
  }

  lemma NewBillKeeps(t: Tables, t': Tables, bill: Bill)
    requires Inv(t) && t'.cycles == t.cycles && t'.payments == t.payments && t'.allocations == t.allocations
    requires t'.bills == t.bills + [bill] && t'.debts == Recomputed(t'.bills, t.debts, bill.tenant)
    requires BillOk(bill) && (!bill.openingEntry ==> bill.paid == 0.0)
    requires bill.year in t.cycles && t.cycles[bill.year] in ALLOWED_MONTHS_PER_PERIOD
             && ResolvePeriod(t.cycles[bill.year], bill.period).Some?
    requires forall b | b in t.bills :: !SamePeriod(b, bill.contract, bill.year, bill.period)
    ensures Inv(t')
  {
    NewBillKeepsDebts(t.bills, t.debts, bill);
    NewBillKeepsAllocations(t, t', bill);
    NewBillKeepsPeriods(t, t', bill);
  }

  lemma CreateBillKeeps(t: Tables, r: BillRequest, marketRate: Option<real>)
    requires Inv(t) && Admissible(OpCreateBill(r, marketRate)) && CreateBill(t, r, marketRate).Ok?
    ensures Inv(CreateBill(t, r, marketRate).value)
  {
    var t' := CreateBill(t, r, marketRate).value;
    var bill := t'.bills[|t.bills|];
    if r.total.None? {
      NonNegativeProduct(r.currentReading.value - PreviousReading(t, r).value, marketRate.value);
    }
    NewBillKeeps(t, t', bill);
  }

  lemma WriteOffKeeps(t: Tables, tenant: nat, shop: nat)
    requires Inv(t)
    ensures Inv(WriteOffOpenBillsForShop(t, tenant, shop))
  {
    var t' := WriteOffOpenBillsForShop(t, tenant, shop);
    RewriteKeepsDebts(t.bills, t'.bills, t.debts, tenant);
    SamePeriodsOk(t, t');
    forall i: nat | i < |t'.bills|
      ensures BillOk(t'.bills[i]) && t'.bills[i].paid == t.bills[i].paid && t'.bills[i].openingEntry == t.bills[i].openingEntry
    {
      assert BillOk(t.bills[i]);
    }
  }

  lemma FlagKeeps(t: Tables, now: real)
    requires Inv(t)
    ensures Inv(FlagOverdueBills(t, now))
  {
    var t' := FlagOverdueBills(t, now);
    forall tenant: nat ensures TenantDebt(t'.bills, tenant) == TenantDebt(t.bills, tenant) {
      SameDebt(t'.bills, t.bills, tenant);
    }
    SamePeriodsOk(t, t');
    forall i: nat | i < |t'.bills|
      ensures BillOk(t'.bills[i]) && t'.bills[i].paid == t.bills[i].paid && t'.bills[i].openingEntry == t.bills[i].openingEntry
    {
      assert BillOk(t.bills[i]);
    }
  }

  lemma PaymentKeeps(t: Tables, tenant: nat, shop: nat, amount: real, bill: Option<nat>, deposit: Option<real>,
                     entry: PaymentEntry)
    requires Inv(t) && amount > 0.0 && RecordPayment(t, tenant, shop, amount, bill, deposit, entry).Ok?
    ensures Inv(RecordPayment(t, tenant, shop, amount, bill, deposit, entry).value)
  {
    match bill
    case Some(i) =>
      OneBillKeeps(t, RecordPayment(t, tenant, shop, amount, bill, deposit, entry).value, i, Payment(tenant, shop, amount));
    case None =>
      OldestFirstKeeps(t, tenant, shop, amount, entry);
  }

  lemma CycleKeeps(t: Tables, year: int, monthsPerPeriod: int)
    requires Inv(t) && monthsPerPeriod in ALLOWED_MONTHS_PER_PERIOD && SetBillingCycle(t, year, monthsPerPeriod).Ok?
    ensures Inv(SetBillingCycle(t, year, monthsPerPeriod).value)
  {
    var t' := SetBillingCycle(t, year, monthsPerPeriod).value;
    forall i | 0 <= i < |t.bills| ensures t'.cycles[t.bills[i].year] == t.cycles[t.bills[i].year] {
      assert t.bills[i] in t.bills;
    }
  }

  lemma StepKeeps(t: Tables, op: Op)
    requires Inv(t) && Admissible(op)
    ensures Inv(Apply(t, op))
  {
    if Step(t, op).Ok? {
      match op
      case OpSetCycle(year, n) => CycleKeeps(t, year, n);
      case OpAddMeter(_, _, _) =>
      case OpReplaceMeter(_, _, _) =>
      case OpCheckpoint(_, _, _) =>
      case OpCreateBill(r, rate) => CreateBillKeeps(t, r, rate);
      case OpCreatePayment(tenant, shop, amount, bill, deposit, entry) => PaymentKeeps(t, tenant, shop, amount, bill, deposit, entry);
      case OpReceive(tenant, shop, amount, entry) => PaymentKeeps(t, tenant, shop, amount, None, None, entry);
      case OpWriteOff(tenant, shop) => WriteOffKeeps(t, tenant, shop);
      case OpFlagOverdue(now) => FlagKeeps(t, now);
    }
  }

  /** Over every run: each tenant's stored debt is the sum of what remains
      on the tenant's open bills, each bill adds up, each payment is allocated in full, and a contract
      is billed at most once for a period. */
  lemma {:induction false} RunKeeps(t: Tables, ops: seq<Op>)
    requires Inv(t) && forall op | op in ops :: Admissible(op)
    ensures Inv(Run(t, ops))
  {
    if ops != [] {
      var init := ops[..|ops| - 1];
      RunKeeps(t, init);
      StepKeeps(Run(t, init), ops[|ops| - 1]);
    }
  }

  lemma EmptyTablesAreSound()
    ensures Inv(EMPTY)
  {
  }

  /** In every state reachable from empty tables the same holds: in particular the stored debt of every
      tenant is what the tenant's open bills add up to. */
  lemma ReachableTablesAreSound(ops: seq<Op>, tenant: nat)
    requires forall op | op in ops :: Admissible(op)
    ensures Inv(Run(EMPTY, ops))
    ensures StoredDebt(Run(EMPTY, ops).debts, tenant) == TenantDebt(Run(EMPTY, ops).bills, tenant)
  {
    EmptyTablesAreSound();
    RunKeeps(EMPTY, ops);
  }

  /** No month of a year is billed twice to one contract. */
  lemma MonthsAreBilledOnce(t: Tables, i: nat, j: nat, month: int)
    requires Inv(t) && i < j < |t.bills|
    requires t.bills[i].contract == t.bills[j].contract && t.bills[i].year == t.bills[j].year && 1 <= month <= 12
    ensures t.bills[i].year in t.cycles && t.cycles[t.bills[i].year] in ALLOWED_MONTHS_PER_PERIOD
    ensures var n := t.cycles[t.bills[i].year];
            !(CoversMonth(n, t.bills[i].period, month) && CoversMonth(n, t.bills[j].period, month))
  {
    var n := t.cycles[t.bills[i].year];
    assert n in ALLOWED_MONTHS_PER_PERIOD;
    PeriodsTileTheYear(n, month);
    assert !SamePeriod(t.bills[i], t.bills[j].contract, t.bills[j].year, t.bills[j].period);
  }

  // ---- oldest first -----------------------------------------------------------------------------

  /** A payment exhausts the oldest open bills of the shop, touches at most one more in part, and
      leaves later bills, other shops and other tenants alone; in all it takes the amount off the debt. */
  lemma PaymentIsOldestFirst(t: Tables, tenant: nat, shop: nat, amount: real) returns (cut: nat)
    requires BillsOk(t) && 0.0 < amount <= ShopDebt(t.bills, tenant, shop)
    ensures var queue, after := Queue(t.bills, tenant, shop), Allocated(t.bills, tenant, shop, amount);
            && Within(queue, |t.bills|) && |after| == |t.bills|
            && Fifo.CutAt(Remainings(t.bills, queue), Remainings(after, queue), cut)
            && Sum(Remainings(after, queue)) == ShopDebt(t.bills, tenant, shop) - amount
            && forall i | 0 <= i < |t.bills| && !Owes(t.bills[i], tenant, shop) :: after[i] == t.bills[i]
  {
    var queue, after := Queue(t.bills, tenant, shop), Allocated(t.bills, tenant, shop, amount);
    var rs := Remainings(t.bills, queue);
    QueueAmounts(t.bills, tenant, shop);
    assert Remainings(after, queue) == Fifo.After(rs, amount) by {
      forall p | 0 <= p < |queue|
        ensures after[queue[p]].remaining == Fifo.After(rs, amount)[p]
      {
        AheadOnQueue(t.bills, tenant, shop, p);
        assert BillOk(t.bills[queue[p]]);
      }
    }
    Fifo.AfterUpTo(rs, amount, |rs|);
    cut := Fifo.Shape(rs, amount);
  }
}
