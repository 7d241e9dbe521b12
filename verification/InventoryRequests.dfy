/** What each stock operation does, said of the columns of the tables alone: when it goes through, which items
    it changes, and how. */
module InventoryRequests {
  import opened Basics
  import opened Inventory
  import opened InventoryRuns
  import L = Ledger
  import LR = LedgerRuns

  // ---- when an operation goes through ---------------------------------------------------------------

  /** The item is there and was not deleted. */
  predicate Exists(s: Store, id: nat) { id < |s.items| && !s.items[id].deleted }

  /** An item of the warehouse has the name, deleted or not. */
  predicate HasName(items: seq<Item>, warehouse: nat, name: nat) {
    exists i :: 0 <= i < |items| && items[i].warehouse == warehouse && items[i].name == name
  }

  /** The place of the one item of a name in a warehouse. */
  ghost predicate Named(items: seq<Item>, i: nat, warehouse: nat, name: nat) {
    i < |items| && items[i].warehouse == warehouse && items[i].name == name
  }

  /** Units of an item can join the stock of a warehouse: nothing has its name there, or an item that was not
      deleted, in the same unit and currency. */
  predicate MayArrive(items: seq<Item>, item: Item, to: nat) {
    forall i | 0 <= i < |items| && items[i].warehouse == to && items[i].name == item.name ::
      !items[i].deleted && items[i].unit == item.unit && items[i].currency == item.currency
  }

  predicate AccountIsOpen(s: Store, account: nat) { account in s.money.accounts && s.money.accounts[account].active }

  predicate Allowed(s: Store, op: Op) {
    match op
    case OpCreateItem(warehouse, name, _, _, _) => !HasName(s.items, warehouse, name)
    case OpTransaction(id, kind, quantity, price, account, _) =>
      && Exists(s, id) && s.items[id].active
      && (match kind
          case PURCHASE => quantity > 0.0 && AccountIsOpen(s, account) && s.money.accounts[account].balance >= Amount(quantity, price)
          case SALE => 0.0 < quantity <= s.items[id].quantity && AccountIsOpen(s, account)
          case CONSUMPTION => 0.0 < quantity <= s.items[id].quantity
          case ADJUSTMENT => quantity != 0.0 && s.items[id].quantity + quantity >= 0.0
          case _ => false)
    case OpTransfer(id, from, to, quantity, _) =>
      && Exists(s, id) && s.items[id].active && s.items[id].warehouse == from != to
      && 0.0 < quantity <= s.items[id].quantity && MayArrive(s.items, s.items[id], to)
    case OpUpdateItem(id, warehouse, name, _, _) =>
      Exists(s, id) && ((warehouse == s.items[id].warehouse && name == s.items[id].name) || !HasName(s.items, warehouse, name))
    case OpRemoveItem(id) => Exists(s, id) && s.items[id].quantity == 0.0
    case OpMoney(op) => L.Step(s.money, op).Ok?
  }

  lemma NameTakenMeans(items: seq<Item>, warehouse: nat, name: nat)
    ensures NameTaken(items, warehouse, name) <==> HasName(items, warehouse, name)
  {
    if HasName(items, warehouse, name) {
      var i :| 0 <= i < |items| && items[i].warehouse == warehouse && items[i].name == name;
      assert items[i] in items;
    }
  }

  lemma ArrivesWhen(items: seq<Item>, item: Item, to: nat, quantity: real)
    requires NamesUnique(items) && quantity > 0.0 && forall i | 0 <= i < |items| :: items[i].quantity >= 0.0
    ensures Arrive(items, item, to, quantity).Ok? <==> MayArrive(items, item, to)
  {
    NameTakenMeans(items, to, item.name);
    var found := FindByName(items, to, item.name);
    if found.None? && HasName(items, to, item.name) {
      var i :| 0 <= i < |items| && items[i].warehouse == to && items[i].name == item.name;
      assert items[i] in items;
    }
  }

  lemma SameLabelsArriveAlike(items: seq<Item>, out: seq<Item>, item: Item, to: nat)
    requires |out| == |items|
    requires forall i | 0 <= i < |items| :: out[i] == items[i].(quantity := out[i].quantity, averageCost := out[i].averageCost)
    ensures MayArrive(out, item, to) <==> MayArrive(items, item, to)
    ensures NamesUnique(items) ==> NamesUnique(out)
  {
  }

  lemma TransferGoesThroughWhen(s: Store, op: Op)
    requires Inv(s) && op.OpTransfer?
    ensures Step(s, op).Ok? <==> Allowed(s, op)
  {
    if op.id < |s.items| && op.from != op.to && 0.0 < op.quantity <= s.items[op.id].quantity && s.items[op.id].warehouse == op.from {
      var item := s.items[op.id];
      var out := Held(s, op.id, item.quantity - op.quantity, item.averageCost);
      forall i | 0 <= i < |out| ensures out[i].quantity >= 0.0 { assert ItemOk(s.items[i], s.transactions, i); }
      SameLabelsArriveAlike(s.items, out, item, op.to);
      ArrivesWhen(out, item, op.to, op.quantity);
    }
  }

  lemma TransactionGoesThroughWhen(s: Store, op: Op)
    requires Inv(s) && op.OpTransaction?
    ensures Step(s, op).Ok? <==> Allowed(s, op)
  {
    if op.id < |s.items| { assert ItemOk(s.items[op.id], s.transactions, op.id); }
  }

  /** An operation goes through exactly when the item is there, is active and holds enough, the name it gets is
      free, and the account it moves money on is active and holds enough. */
  lemma GoesThroughWhen(s: Store, op: Op)
    requires Inv(s) && Admissible(op)
    ensures Step(s, op).Ok? <==> Allowed(s, op)
  {
    match op {
      case OpCreateItem(warehouse, name, _, _, _) => NameTakenMeans(s.items, warehouse, name);
      case OpTransaction(_, _, _, _, _, _) => TransactionGoesThroughWhen(s, op);
      case OpTransfer(_, _, _, _, _) => TransferGoesThroughWhen(s, op);
      case OpUpdateItem(_, warehouse, name, _, _) => NameTakenMeans(s.items, warehouse, name);
      case OpRemoveItem(id) => if id < |s.items| { assert ItemOk(s.items[id], s.transactions, id); }
      case OpMoney(_) =>
    }
  }

  // ---- what it changes ------------------------------------------------------------------------------

  ghost predicate OnlyItemChanges(before: seq<Item>, after: seq<Item>, id: nat) {
    |after| == |before| && forall i | 0 <= i < |before| && i != id :: after[i] == before[i]
  }

  /** The units an item gains by a transaction. */
  function UnitsGained(kind: Kind, quantity: real): real {
    match kind
    case PURCHASE => quantity
    case ADJUSTMENT => quantity
    case _ => -quantity
  }

  /** What a transaction comes to: the price of what is bought or sold, the average cost of what is used or
      adjusted. */
  function ComesTo(kind: Kind, quantity: real, price: real, averageCost: real): real {
    match kind
    case PURCHASE => Amount(quantity, price)
    case SALE => Amount(quantity, price)
    case _ => Amount(if quantity < 0.0 then -quantity else quantity, averageCost)
  }

  /** A transaction changes the quantity of its item by its units, the average cost of a bought item only, and is
      recorded with what it comes to, a sale with the cost of what was sold. */
  lemma TransactionWrites(s: Store, op: Op)
    requires Inv(s) && op.OpTransaction? && Step(s, op).Ok?
    ensures var s' := Step(s, op).value;
            var before, after := s.items[op.id], s'.items[op.id];
            && OnlyItemChanges(s.items, s'.items, op.id)
            && after == before.(quantity := before.quantity + UnitsGained(op.kind, op.quantity), averageCost := after.averageCost)
            && (!op.kind.PURCHASE? ==> after.averageCost == before.averageCost)
            && s'.transactions == s.transactions
                 + [Transaction(op.id, op.kind, op.quantity, ComesTo(op.kind, op.quantity, op.price, before.averageCost),
                                if op.kind.SALE? then Some(Amount(op.quantity, before.averageCost)) else None, op.date)]
  {
    assert ItemOk(s.items[op.id], s.transactions, op.id);
  }

  /** A purchase takes what it costs off its account, a sale brings what it earns, and the rest move no money. */
  lemma TransactionMovesMoney(s: Store, op: Op)
    requires op.OpTransaction? && Step(s, op).Ok?
    ensures match op.kind
            case PURCHASE => L.Step(s.money, L.OpPurchase(op.account, Amount(op.quantity, op.price), op.date)) == Ok(Step(s, op).value.money)
            case SALE => L.Step(s.money, L.OpSale(op.account, Amount(op.quantity, op.price), op.date)) == Ok(Step(s, op).value.money)
            case _ => Step(s, op).value.money == s.money
  {
  }

  /** The units of a transfer leave its item, and join the item of its name in the other warehouse, or a new one
      there that has the name, unit, currency and cost of the item they come from. Both sides are recorded at
      that cost. */
  lemma TransferWrites(s: Store, op: Op) returns (target: nat)
    requires Inv(s) && op.OpTransfer? && Step(s, op).Ok?
    ensures var s', from := Step(s, op).value, s.items[op.id];
            && target != op.id && target <= |s.items| && target < |s'.items|
            && s'.items[op.id] == from.(quantity := from.quantity - op.quantity)
            && Named(s'.items, target, op.to, from.name)
            && s'.items[target].unit == from.unit && s'.items[target].currency == from.currency
            && (target < |s.items| ==>
                  && |s'.items| == |s.items|
                  && s'.items[target] == s.items[target].(quantity := s.items[target].quantity + op.quantity,
                                                          averageCost := s'.items[target].averageCost))
            && (target == |s.items| ==>
                  && |s'.items| == |s.items| + 1
                  && s'.items[target] == Item(op.to, from.name, from.unit, from.currency, op.quantity, from.averageCost, from.active, false))
            && (forall i | 0 <= i < |s.items| && i != op.id && i != target :: s'.items[i] == s.items[i])
            && s'.transactions == s.transactions
                 + [Transaction(op.id, TRANSFER_OUT, op.quantity, Amount(op.quantity, from.averageCost), None, op.date),
                    Transaction(target, TRANSFER_IN, op.quantity, Amount(op.quantity, from.averageCost), None, op.date)]
            && s'.money == s.money
  {
    var from := s.items[op.id];
    target := Arrive(Held(s, op.id, from.quantity - op.quantity, from.averageCost), from, op.to, op.quantity).value.1;
  }

  /** A new item has the columns asked for; with opening stock it has that quantity and cost, and an adjustment
      that records them. */
  lemma CreationWrites(s: Store, op: Op)
    requires op.OpCreateItem? && Step(s, op).Ok?
    ensures var s', n := Step(s, op).value, |s.items|;
            && |s'.items| == n + 1 && s'.items[..n] == s.items && s'.money == s.money
            && (op.opening.None? ==>
                  s'.items[n] == Item(op.warehouse, op.name, op.unit, op.currency, 0.0, 0.0, true, false) && s'.transactions == s.transactions)
            && (op.opening.Some? ==>
                  var o := op.opening.value;
                  && s'.items[n] == Item(op.warehouse, op.name, op.unit, op.currency, o.quantity, o.unitCost, true, false)
                  && s'.transactions == s.transactions + [Transaction(n, ADJUSTMENT, o.quantity, Amount(o.quantity, o.unitCost), None, o.date)])
  {
  }

  /** An update changes the labels of its item and a removal its mark, and neither changes anything else. */
  lemma LabelsAreWritten(s: Store, op: Op)
    requires (op.OpUpdateItem? || op.OpRemoveItem?) && Step(s, op).Ok?
    ensures var s' := Step(s, op).value;
            && s' == s.(items := s'.items) && OnlyItemChanges(s.items, s'.items, op.id)
            && s'.items[op.id]
               == (if op.OpRemoveItem? then s.items[op.id].(deleted := true)
                   else s.items[op.id].(warehouse := op.warehouse, name := op.name, unit := op.unit, active := op.active))
  {
  }
}
