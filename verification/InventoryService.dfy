/** The stock operations as they run: guarded decrements, compare-and-set on quantity and average cost,
    recorded transactions and money, in a transaction that is rolled back as a whole. */
module InventoryService {
  import opened Basics
  import opened Inv = Inventory
  import IR = InventoryRuns
  import L = Ledger
  import MS = MoneyService

  ghost predicate Outcome(spec: Result<Store>, before: Store, after: Store, error: Option<string>) {
    match spec
    case Ok(s) => error == None && after == s
    case Err(reason) => error == Some(reason) && after == before
  }

  /** Stock that is what its transactions say stays so, and so do the books. */
  ghost predicate Kept(before: Store, after: Store) { Inv.Inv(before) ==> Inv.Inv(after) }

  lemma OperationKeeps(before: Store, op: Op, after: Store, error: Option<string>)
    requires Outcome(Step(before, op), before, after, error)
    ensures Admissible(op) ==> Kept(before, after)
  {
    if Inv.Inv(before) && Admissible(op) { IR.StepKeeps(before, op); }
  }

  class InventoryService {
    const money: MS.MoneyService
    var items: seq<Item>
    var transactions: seq<Transaction>

    constructor (money: MS.MoneyService)
      ensures this.money == money && items == [] && transactions == []
    {
      this.money, items, transactions := money, [], [];
    }

    ghost function State(): Store
      reads this, money
    {
      Store(items, transactions, money.State())
    }

    method AddItem(warehouse: nat, name: nat, unit: nat, currency: nat, opening: Option<OpeningStock>)
      returns (error: Option<string>)
      modifies this
      ensures Outcome(CreateItem(old(State()), warehouse, name, unit, currency, opening), old(State()), State(), error)
      ensures Admissible(OpCreateItem(warehouse, name, unit, currency, opening)) ==> Kept(old(State()), State())
    {
      if NameTaken(items, warehouse, name) { return Some("name is taken in this warehouse"); }
      var quantity := if opening.Some? then opening.value.quantity else 0.0;
      var cost := if opening.Some? then opening.value.unitCost else 0.0;
      var id := |items|;
      items := items + [Item(warehouse, name, unit, currency, quantity, cost, true, false)];
      if opening.Some? {
        transactions := transactions + [Transaction(id, ADJUSTMENT, quantity, Amount(quantity, cost), None, opening.value.date)];
      }
      error := None;
      OperationKeeps(old(State()), OpCreateItem(warehouse, name, unit, currency, opening), State(), error);
    }

    /** Set quantity and average cost if they are still what was read. */
    method CompareAndSet(id: nat, quantity: real, averageCost: real, newQuantity: real, newAverage: real)
      returns (count: nat)
      requires id < |items|
      modifies this`items
      ensures count == if old(items)[id].quantity == quantity && old(items)[id].averageCost == averageCost then 1 else 0
      ensures items == if count == 1 then old(items)[id := old(items)[id].(quantity := newQuantity, averageCost := newAverage)] else old(items)
    {
      count := 0;
      if items[id].quantity == quantity && items[id].averageCost == averageCost {
        items := items[id := items[id].(quantity := newQuantity, averageCost := newAverage)];
        count := 1;
      }
    }

    /** Take units off if there are enough. */
    method Decrement(id: nat, quantity: real) returns (count: nat)
      requires id < |items|
      modifies this`items
      ensures count == if old(items)[id].quantity >= quantity then 1 else 0
      ensures items == if count == 1 then old(items)[id := old(items)[id].(quantity := old(items)[id].quantity - quantity)] else old(items)
    {
      count := 0;
      if items[id].quantity >= quantity {
        items := items[id := items[id].(quantity := items[id].quantity - quantity)];
        count := 1;
      }
    }

    /** Reasons to refuse a transaction that are checked before it starts. */
    method CheckTransaction(id: nat, kind: Kind, quantity: real, account: nat) returns (refusal: Option<string>)
      ensures refusal == None <==>
                && !(kind.TRANSFER_IN? || kind.TRANSFER_OUT?) && id < |items| && !items[id].deleted && items[id].active
                && quantity != 0.0 && (kind == ADJUSTMENT || quantity >= 0.0) && (IsMoney(kind) ==> L.Usable(money.State(), account))
      ensures refusal.Some? ==> forall price, date :: CreateTransaction(State(), id, kind, quantity, price, account, date) == Err(refusal.value)
    {
      refusal :=
        if kind.TRANSFER_IN? || kind.TRANSFER_OUT? then Some("transfers have their own operation")
        else if id >= |items| || items[id].deleted then Some("item not found")
        else if !items[id].active then Some("item is inactive")
        else if quantity == 0.0 then Some("quantity is zero")
        else if kind != ADJUSTMENT && quantity < 0.0 then Some("quantity must be positive")
        else if IsMoney(kind) && !(account in money.accounts && money.accounts[account].active) then Some("account not found or inactive")
        else None;
    }

    method Purchase(id: nat, quantity: real, price: real, account: nat, date: real) returns (error: Option<string>)
      modifies this, money
      ensures Outcome(CreateTransaction(old(State()), id, PURCHASE, quantity, price, account, date), old(State()), State(), error)
      ensures price > 0.0 ==> Kept(old(State()), State())
    {
      error := CheckTransaction(id, PURCHASE, quantity, account);
      if error.Some? { return; }
      var item := items[id];
      var newQuantity := item.quantity + quantity;
      if newQuantity == 0.0 { return Some("division by zero"); }
      var saved := items;
      var newAverage := Blend(item.quantity, item.averageCost, quantity, price);
      var count := CompareAndSet(id, item.quantity, item.averageCost, newQuantity, newAverage);
      var total := Amount(quantity, price);
      error := money.SpendFrom(account, total, L.Inventory(money.nextId), date);
      if error.Some? {
        items := saved;
      } else {
        transactions := transactions + [Transaction(id, PURCHASE, quantity, total, None, date)];
      }
      OperationKeeps(old(State()), OpTransaction(id, PURCHASE, quantity, price, account, date), State(), error);
    }

    method Sell(id: nat, quantity: real, price: real, account: nat, date: real) returns (error: Option<string>)
      modifies this, money
      ensures Outcome(CreateTransaction(old(State()), id, SALE, quantity, price, account, date), old(State()), State(), error)
      ensures price > 0.0 ==> Kept(old(State()), State())
    {
      error := CheckTransaction(id, SALE, quantity, account);
      if error.Some? { return; }
      var cost := Amount(quantity, items[id].averageCost);
      var total := Amount(quantity, price);
      var count := Decrement(id, quantity);
      if count == 0 { return Some("stock is not sufficient"); }
      error := money.ReceiveOn(account, total, L.Inventory(money.nextId), date);
      transactions := transactions + [Transaction(id, SALE, quantity, total, Some(cost), date)];
      OperationKeeps(old(State()), OpTransaction(id, SALE, quantity, price, account, date), State(), error);
    }

    method Consume(id: nat, quantity: real, date: real) returns (error: Option<string>)
      modifies this
      ensures Outcome(CreateTransaction(old(State()), id, CONSUMPTION, quantity, 0.0, 0, date), old(State()), State(), error)
      ensures Kept(old(State()), State())
    {
      error := CheckTransaction(id, CONSUMPTION, quantity, 0);
      if error.Some? { return; }
      var total := Amount(quantity, items[id].averageCost);
      var count := Decrement(id, quantity);
      if count == 0 { return Some("stock is not sufficient"); }
      transactions := transactions + [Transaction(id, CONSUMPTION, quantity, total, None, date)];
      OperationKeeps(old(State()), OpTransaction(id, CONSUMPTION, quantity, 0.0, 0, date), State(), error);
    }

    /** Positive adjustments add stock at the average cost; negative ones need the stock to be there. */
    method Adjust(id: nat, quantity: real, date: real) returns (error: Option<string>)
      modifies this
      ensures Outcome(CreateTransaction(old(State()), id, ADJUSTMENT, quantity, 0.0, 0, date), old(State()), State(), error)
      ensures Kept(old(State()), State())
    {
      error := CheckTransaction(id, ADJUSTMENT, quantity, 0);
      if error.Some? { return; }
      var total := Amount(Abs(quantity), items[id].averageCost);
      if quantity < 0.0 {
        var count := Decrement(id, -quantity);
        if count == 0 { return Some("stock is not sufficient"); }
      } else {
        items := items[id := items[id].(quantity := items[id].quantity + quantity)];
      }
      transactions := transactions + [Transaction(id, ADJUSTMENT, quantity, total, None, date)];
      OperationKeeps(old(State()), OpTransaction(id, ADJUSTMENT, quantity, 0.0, 0, date), State(), error);
    }

    /** The arriving half: blend into the item of that name, or create it. */
    method ArriveAt(item: Item, to: nat, quantity: real) returns (r: Result<nat>)
      modifies this`items
      ensures match Arrive(old(items), item, to, quantity)
              case Ok((after, target)) => items == after && r == Ok(target)
              case Err(reason) => items == old(items) && r == Err(reason)
    {
      var found := FindByName(items, to, item.name);
      if found.None? {
        if NameTaken(items, to, item.name) { return Err("name is taken by a deleted item"); }
        var id := |items|;
        items := items + [Item(to, item.name, item.unit, item.currency, quantity, item.averageCost, item.active, false)];
        return Ok(id);
      }
      var target := found.value;
      var other := items[target];
      if other.currency != item.currency { return Err("same name, other currency"); }
      if other.unit != item.unit { return Err("same name, other unit"); }
      if other.quantity + quantity == 0.0 { return Err("division by zero"); }
      var average := Blend(other.quantity, other.averageCost, quantity, item.averageCost);
      var count := CompareAndSet(target, other.quantity, other.averageCost, other.quantity + quantity, average);
      r := Ok(target);
    }

    method Transfer(id: nat, from: nat, to: nat, quantity: real, date: real) returns (error: Option<string>)
      modifies this
      ensures Outcome(CreateTransfer(old(State()), id, from, to, quantity, date), old(State()), State(), error)
      ensures Kept(old(State()), State())
    {
      if id >= |items| || items[id].deleted { return Some("item not found"); }
      var item := items[id];
      if item.warehouse != from { return Some("item is in another warehouse"); }
      if !item.active { return Some("item is inactive"); }
      if from == to { return Some("same warehouse"); }
      if quantity <= 0.0 { return Some("quantity must be positive"); }
      var total := Amount(quantity, item.averageCost);
      var saved := items;
      var count := Decrement(id, quantity);
      if count == 0 { return Some("stock is not sufficient"); }
      assert items == Held(old(State()), id, item.quantity - quantity, item.averageCost);
      var arrived := ArriveAt(item, to, quantity);
      if arrived.Err? {
        items := saved;
        return Some(arrived.reason);
      }
      transactions := transactions
        + [Transaction(id, TRANSFER_OUT, quantity, total, None, date),
           Transaction(arrived.value, TRANSFER_IN, quantity, total, None, date)];
      error := None;
      OperationKeeps(old(State()), OpTransfer(id, from, to, quantity, date), State(), error);
    }

    method DeleteItem(id: nat) returns (error: Option<string>)
      modifies this`items
      ensures Outcome(RemoveItem(old(State()), id), old(State()), State(), error)
      ensures Kept(old(State()), State())
    {
      if id >= |items| || items[id].deleted { return Some("item not found"); }
      if items[id].quantity > 0.0 { return Some("stock is not zero"); }
      items := items[id := items[id].(deleted := true)];
      error := None;
      OperationKeeps(old(State()), OpRemoveItem(id), State(), error);
    }
  }
}
