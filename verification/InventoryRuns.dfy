/** What every run of the stock keeps, and what a transfer moves. */
module InventoryRuns {
  import opened Basics
  import opened Inventory
  import L = Ledger
  import LR = LedgerRuns

  // ---- arithmetic of the average cost -----------------------------------------------------------

  lemma ProductIsNonNegative(x: real, y: real)
    requires x >= 0.0 && y >= 0.0
    ensures x * y >= 0.0
  {
  }

  lemma RatioIsNonNegative(x: real, y: real)
    requires x >= 0.0 && y > 0.0
    ensures x / y >= 0.0
  {
  }

  /** The blended average values the joined stock at the sum of both values. */
  lemma BlendKeepsValue(quantity: real, averageCost: real, added: real, unitCost: real)
    requires quantity >= 0.0 && averageCost >= 0.0 && added > 0.0 && unitCost >= 0.0
    ensures var average := Blend(quantity, averageCost, added, unitCost);
            average >= 0.0 && (quantity + added) * average == quantity * averageCost + added * unitCost
  {
    var total, joined := quantity * averageCost + added * unitCost, quantity + added;
    ProductIsNonNegative(quantity, averageCost);
    ProductIsNonNegative(added, unitCost);
    RatioIsNonNegative(total, joined);
    assert total / joined * joined == total;
  }

  lemma ValueOfRest(quantity: real, averageCost: real, moved: real)
    ensures (quantity + moved) * averageCost == quantity * averageCost + averageCost * moved
    ensures (quantity - moved) * averageCost == quantity * averageCost - averageCost * moved
  {
  }

  // ---- one more transaction ---------------------------------------------------------------------

  lemma OneMore(ts: seq<Transaction>, t: Transaction, item: nat)
    ensures UnitsOf(ts + [t], item) == UnitsOf(ts, item) + (if t.item == item then EffectOfType(t.kind, t.quantity) else 0.0)
    ensures CostOf(ts + [t], item) == CostOf(ts, item) + (if t.item == item then CostEffect(t) else 0.0)
  {
    assert (ts + [t])[..|ts|] == ts;
  }

  lemma {:induction false} NothingYet(ts: seq<Transaction>, item: nat)
    requires forall t | t in ts :: t.item != item
    ensures UnitsOf(ts, item) == 0.0 && CostOf(ts, item) == 0.0
  {
    if ts != [] {
      NothingYet(ts[..|ts| - 1], item);
    }
  }

  /** One item changes together with one transaction of its own that explains the change. */
  lemma OneItemMoves(s: Store, s': Store, id: nat, t: Transaction)
    requires StockOk(s) && id < |s.items| == |s'.items| && t.item == id
    requires s'.transactions == s.transactions + [t]
    requires forall i | 0 <= i < |s.items| && i != id :: s'.items[i] == s.items[i]
    requires var before, after := s.items[id], s'.items[id];
             && after.quantity >= 0.0 && after.averageCost >= 0.0
             && after.quantity == before.quantity + EffectOfType(t.kind, t.quantity)
             && Worth(after) == Worth(before) + CostEffect(t)
    ensures StockOk(s')
  {
    forall i: nat | i < |s'.items| ensures ItemOk(s'.items[i], s'.transactions, i) {
      assert ItemOk(s.items[i], s.transactions, i);
      OneMore(s.transactions, t, i);
    }
  }

  lemma NewItem(s: Store, s': Store, item: Item)
    requires StockOk(s) && s'.items == s.items + [item] && s'.transactions == s.transactions
    requires item.quantity == 0.0 && item.averageCost >= 0.0
    ensures StockOk(s')
  {
    NothingYet(s.transactions, |s.items|);
    forall i: nat | i < |s'.items| ensures ItemOk(s'.items[i], s'.transactions, i) {
      if i < |s.items| { assert ItemOk(s.items[i], s.transactions, i); }
    }
  }

  lemma RelabelledItem(s: Store, s': Store, id: nat)
    requires StockOk(s) && id < |s.items| == |s'.items| && s'.transactions == s.transactions
    requires forall i | 0 <= i < |s.items| && i != id :: s'.items[i] == s.items[i]
    requires s'.items[id].quantity == s.items[id].quantity && s'.items[id].averageCost == s.items[id].averageCost
    ensures StockOk(s')
  {
    forall i: nat | i < |s'.items| ensures ItemOk(s'.items[i], s'.transactions, i) {
      assert ItemOk(s.items[i], s.transactions, i);
    }
  }

  // ---- every operation --------------------------------------------------------------------------

  lemma CreateItemKeeps(s: Store, warehouse: nat, name: nat, unit: nat, currency: nat, opening: Option<OpeningStock>)
    requires Inv(s) && Admissible(OpCreateItem(warehouse, name, unit, currency, opening))
    requires CreateItem(s, warehouse, name, unit, currency, opening).Ok?
    ensures Inv(CreateItem(s, warehouse, name, unit, currency, opening).value)
  {
    var s' := CreateItem(s, warehouse, name, unit, currency, opening).value;
    var item := s'.items[|s.items|];
    var blank := s.(items := s.items + [item.(quantity := 0.0)]);
    NewItem(s, blank, item.(quantity := 0.0));
    if opening.Some? {
      ProductIsNonNegative(item.quantity, item.averageCost);
      OneItemMoves(blank, s', |s.items|, s'.transactions[|s.transactions|]);
    } else {
      assert s' == blank;
    }
  }

  lemma PurchaseKeeps(s: Store, id: nat, quantity: real, price: real, account: nat, date: real)
    requires Inv(s) && price > 0.0 && CreateTransaction(s, id, PURCHASE, quantity, price, account, date).Ok?
    ensures Inv(CreateTransaction(s, id, PURCHASE, quantity, price, account, date).value)
  {
    var s' := CreateTransaction(s, id, PURCHASE, quantity, price, account, date).value;
    var item := s.items[id];
    assert ItemOk(item, s.transactions, id);
    BlendKeepsValue(item.quantity, item.averageCost, quantity, price);
    OneItemMoves(s, s', id, s'.transactions[|s.transactions|]);
    ProductIsNonNegative(quantity, price);
    LR.SpendKeeps(s.money, account, Amount(quantity, price), L.Inventory(s.money.nextId), date);
  }

  lemma SaleKeeps(s: Store, id: nat, quantity: real, price: real, account: nat, date: real)
    requires Inv(s) && price > 0.0 && CreateTransaction(s, id, SALE, quantity, price, account, date).Ok?
    ensures Inv(CreateTransaction(s, id, SALE, quantity, price, account, date).value)
  {
    var s' := CreateTransaction(s, id, SALE, quantity, price, account, date).value;
    var item := s.items[id];
    assert ItemOk(item, s.transactions, id);
    ValueOfRest(item.quantity, item.averageCost, quantity);
    OneItemMoves(s, s', id, s'.transactions[|s.transactions|]);
    ProductIsNonNegative(quantity, price);
    LR.ReceiveKeeps(s.money, account, Amount(quantity, price), L.Inventory(s.money.nextId), date);
  }

  lemma UseKeeps(s: Store, id: nat, kind: Kind, quantity: real, price: real, account: nat, date: real)
    requires Inv(s) && (kind.CONSUMPTION? || kind.ADJUSTMENT?) && CreateTransaction(s, id, kind, quantity, price, account, date).Ok?
    ensures Inv(CreateTransaction(s, id, kind, quantity, price, account, date).value)
  {
    var s' := CreateTransaction(s, id, kind, quantity, price, account, date).value;
    var item := s.items[id];
    assert ItemOk(item, s.transactions, id);
    ValueOfRest(item.quantity, item.averageCost, quantity);
    OneItemMoves(s, s', id, s'.transactions[|s.transactions|]);
  }

  /** A transfer in two halves: `moved` in value leaves item `id` and arrives at item `target`, which is
      taken to have been empty if it is new. */
  ghost predicate Halves(s: Store, out: Store, s': Store, id: nat, target: nat, quantity: real, moved: real,
                         date: real) {
    && id < |s.items| == |out.items| && target != id && target < |s'.items|
    && (|s'.items| == |s.items| || (target == |s.items| && |s'.items| == |s.items| + 1))
    && quantity > 0.0
    && (forall i | 0 <= i < |s.items| && i != id :: out.items[i] == s.items[i])
    && (forall i | 0 <= i < |s.items| && i != target :: s'.items[i] == out.items[i])
    && out.items[id].quantity == s.items[id].quantity - quantity
    && Worth(out.items[id]) == Worth(s.items[id]) - moved
    && s'.items[target].averageCost >= 0.0
    && s'.items[target].quantity == (if target < |s.items| then s.items[target].quantity else 0.0) + quantity
    && Worth(s'.items[target]) == (if target < |s.items| then Worth(s.items[target]) else 0.0) + moved
    && out.transactions == s.transactions + [Transaction(id, TRANSFER_OUT, quantity, moved, None, date)]
    && s'.transactions == out.transactions + [Transaction(target, TRANSFER_IN, quantity, moved, None, date)]
  }

  lemma LeavesSource(s: Store, id: nat, quantity: real, date: real) returns (out: Store, moved: real)
    requires StockOk(s) && id < |s.items| && 0.0 < quantity <= s.items[id].quantity
    ensures StockOk(out) && moved == Amount(quantity, s.items[id].averageCost) && out.money == s.money
    ensures out.items == Held(s, id, s.items[id].quantity - quantity, s.items[id].averageCost)
    ensures Worth(out.items[id]) == Worth(s.items[id]) - moved
    ensures out.transactions == s.transactions + [Transaction(id, TRANSFER_OUT, quantity, moved, None, date)]
  {
    var item := s.items[id];
    moved := Amount(quantity, item.averageCost);
    assert ItemOk(item, s.transactions, id);
    var t := Transaction(id, TRANSFER_OUT, quantity, moved, None, date);
    out := s.(items := Held(s, id, item.quantity - quantity, item.averageCost), transactions := s.transactions + [t]);
    ValueOfRest(item.quantity, item.averageCost, quantity);
    OneItemMoves(s, out, id, t);
  }

  /** What arrives at the target, in units and in value. */
  lemma ArrivesAt(items: seq<Item>, item: Item, to: nat, quantity: real)
    requires quantity > 0.0 && item.averageCost >= 0.0 && item.warehouse != to
    requires forall i | 0 <= i < |items| :: items[i].quantity >= 0.0 && items[i].averageCost >= 0.0
    requires Arrive(items, item, to, quantity).Ok?
    ensures var (after, target) := Arrive(items, item, to, quantity).value;
            && target < |after| && (|after| == |items| || (target == |items| && |after| == |items| + 1))
            && (target < |items| ==> items[target].warehouse == to)
            && (forall i | 0 <= i < |items| && i != target :: after[i] == items[i])
            && after[target].averageCost >= 0.0
            && after[target].quantity == (if target < |items| then items[target].quantity else 0.0) + quantity
            && Worth(after[target]) == (if target < |items| then Worth(items[target]) else 0.0) + Amount(quantity, item.averageCost)
  {
    var found := FindByName(items, to, item.name);
    if found.Some? {
      var other := items[found.value];
      BlendKeepsValue(other.quantity, other.averageCost, quantity, item.averageCost);
    }
  }

  lemma TransferInHalves(s: Store, id: nat, from: nat, to: nat, quantity: real, date: real)
    returns (out: Store, target: nat, moved: real)
    requires Inv(s) && CreateTransfer(s, id, from, to, quantity, date).Ok?
    ensures Halves(s, out, CreateTransfer(s, id, from, to, quantity, date).value, id, target, quantity, moved, date)
    ensures StockOk(out)
  {
    var item := s.items[id];
    assert ItemOk(item, s.transactions, id);
    out, moved := LeavesSource(s, id, quantity, date);
    assert forall i | 0 <= i < |out.items| :: ItemOk(out.items[i], out.transactions, i);
    ArrivesAt(out.items, item, to, quantity);
    target := Arrive(out.items, item, to, quantity).value.1;
  }

  lemma ArrivalKeepsNames(items: seq<Item>, item: Item, to: nat, quantity: real)
    requires NamesUnique(items) && Arrive(items, item, to, quantity).Ok?
    ensures NamesUnique(Arrive(items, item, to, quantity).value.0)
  {
  }

  lemma TransferKeepsNames(s: Store, id: nat, from: nat, to: nat, quantity: real, date: real)
    requires NamesUnique(s.items) && CreateTransfer(s, id, from, to, quantity, date).Ok?
    ensures NamesUnique(CreateTransfer(s, id, from, to, quantity, date).value.items)
  {
    var item := s.items[id];
    ArrivalKeepsNames(Held(s, id, item.quantity - quantity, item.averageCost), item, to, quantity);
  }

  lemma TransferKeeps(s: Store, id: nat, from: nat, to: nat, quantity: real, date: real)
    requires Inv(s) && CreateTransfer(s, id, from, to, quantity, date).Ok?
    ensures Inv(CreateTransfer(s, id, from, to, quantity, date).value)
  {
    var s' := CreateTransfer(s, id, from, to, quantity, date).value;
    TransferKeepsNames(s, id, from, to, quantity, date);
    var out, target, moved := TransferInHalves(s, id, from, to, quantity, date);
    ArrivalKeeps(s, out, s', id, target, quantity, moved, date);
  }

  lemma ArrivalKeeps(s: Store, out: Store, s': Store, id: nat, target: nat, quantity: real, moved: real, date: real)
    requires StockOk(s) && StockOk(out) && Halves(s, out, s', id, target, quantity, moved, date)
    ensures StockOk(s')
  {
    var arrival := s'.transactions[|out.transactions|];
    if |s'.items| == |s.items| {
      assert ItemOk(s.items[target], s.transactions, target);
      OneItemMoves(out, s', target, arrival);
    } else {
      var nothing := s'.items[target].(quantity := 0.0);
      var blank := out.(items := out.items + [nothing]);
      NewItem(out, blank, nothing);
      OneItemMoves(blank, s', target, arrival);
    }
  }

  lemma StepKeeps(s: Store, op: Op)
    requires Inv(s) && Admissible(op)
    ensures Inv(Apply(s, op))
  {
    if Step(s, op).Ok? {
      match op
      case OpCreateItem(warehouse, name, unit, currency, opening) => CreateItemKeeps(s, warehouse, name, unit, currency, opening);
      case OpTransaction(id, kind, quantity, price, account, date) =>
        if kind.PURCHASE? { PurchaseKeeps(s, id, quantity, price, account, date); }
        else if kind.SALE? { SaleKeeps(s, id, quantity, price, account, date); }
        else { UseKeeps(s, id, kind, quantity, price, account, date); }
      case OpTransfer(id, from, to, quantity, date) => TransferKeeps(s, id, from, to, quantity, date);
      case OpUpdateItem(id, _, _, _, _) => RelabelledItem(s, Apply(s, op), id);
      case OpRemoveItem(id) => RelabelledItem(s, Apply(s, op), id);
      case OpMoney(op) => LR.StepKeeps(s.money, op);
    }
  }

  /** In every reachable state the stock is what its transactions say, in units and in value at cost. */
  lemma {:induction false} RunKeepsStock(s: Store, ops: seq<Op>)
    requires Inv(s) && forall op | op in ops :: Admissible(op)
    ensures Inv(Run(s, ops))
    ensures forall i | i in Run(s, ops).items :: i.quantity >= 0.0
  {
    if ops != [] {
      var init := ops[..|ops| - 1];
      RunKeepsStock(s, init);
      StepKeeps(Run(s, init), ops[|ops| - 1]);
    }
  }

  lemma EmptyStoreIsSound()
    ensures Inv(EMPTY)
  {
    LR.EmptyBooksBalance();
  }

  /** In every state reached from an empty store the same holds. */
  lemma ReachableStockIsSound(ops: seq<Op>)
    requires forall op | op in ops :: Admissible(op)
    ensures Inv(Run(EMPTY, ops))
  {
    EmptyStoreIsSound();
    RunKeepsStock(EMPTY, ops);
  }

  // ---- deletion ---------------------------------------------------------------------------------

  lemma StepSparesDeleted(s: Store, op: Op, id: nat)
    requires id < |s.items| && s.items[id].deleted
    ensures id < |Apply(s, op).items| && Apply(s, op).items[id] == s.items[id]
  {
  }

  /** A deleted item had nothing left; no later step touches it; and its name stays taken in its
      warehouse, so no item of that name can be created there again. */
  lemma {:induction false} DeletionIsFinal(s: Store, id: nat, ops: seq<Op>) returns (after: Store)
    requires Inv(s) && RemoveItem(s, id).Ok?
    ensures after == Run(RemoveItem(s, id).value, ops)
    ensures id < |s.items| && s.items[id].quantity == 0.0 && Worth(s.items[id]) == 0.0
    ensures id < |after.items| && after.items[id] == s.items[id].(deleted := true)
    ensures forall unit: nat, currency: nat, opening ::
              CreateItem(after, s.items[id].warehouse, s.items[id].name, unit, currency, opening).Err?
  {
    assert ItemOk(s.items[id], s.transactions, id);
    var deleted := RemoveItem(s, id).value;
    if ops == [] {
      after := deleted;
    } else {
      var before := DeletionIsFinal(s, id, ops[..|ops| - 1]);
      StepSparesDeleted(before, ops[|ops| - 1], id);
      after := Apply(before, ops[|ops| - 1]);
    }
    assert after.items[id] in after.items;
  }

  // ---- conservation -----------------------------------------------------------------------------

  function TotalUnits(items: seq<Item>): real {
    if items == [] then 0.0 else TotalUnits(items[..|items| - 1]) + items[|items| - 1].quantity
  }

  function TotalValue(items: seq<Item>): real {
    if items == [] then 0.0 else TotalValue(items[..|items| - 1]) + Worth(items[|items| - 1])
  }

  lemma {:induction false} TotalsOfChange(a: seq<Item>, b: seq<Item>, i: nat)
    requires i < |a| == |b| && forall j | 0 <= j < |a| && j != i :: a[j] == b[j]
    ensures TotalUnits(b) == TotalUnits(a) - a[i].quantity + b[i].quantity
    ensures TotalValue(b) == TotalValue(a) - Worth(a[i]) + Worth(b[i])
  {
    var n := |a| - 1;
    if i == n {
      assert a[..n] == b[..n];
    } else {
      TotalsOfChange(a[..n], b[..n], i);
    }
  }

  lemma HalvesConserve(s: Store, out: Store, s': Store, id: nat, target: nat, quantity: real, moved: real, date: real)
    requires Halves(s, out, s', id, target, quantity, moved, date)
    ensures TotalUnits(s'.items) == TotalUnits(s.items) && TotalValue(s'.items) == TotalValue(s.items)
  {
    TotalsOfChange(s.items, out.items, id);
    if |s'.items| == |s.items| {
      TotalsOfChange(out.items, s'.items, target);
    } else {
      assert s'.items[..|s.items|] == out.items;
    }
  }

  /** A transfer neither makes nor loses units or value, over all warehouses together. */
  lemma TransferConserves(s: Store, id: nat, from: nat, to: nat, quantity: real, date: real)
    requires Inv(s) && CreateTransfer(s, id, from, to, quantity, date).Ok?
    ensures var s' := CreateTransfer(s, id, from, to, quantity, date).value;
            TotalUnits(s'.items) == TotalUnits(s.items) && TotalValue(s'.items) == TotalValue(s.items)
  {
    var out, target, moved := TransferInHalves(s, id, from, to, quantity, date);
    HalvesConserve(s, out, CreateTransfer(s, id, from, to, quantity, date).value, id, target, quantity, moved, date);
  }
}
