/** Stock: items with a perpetual weighted-average cost, their transactions, transfers between
    warehouses, and the statement that replays the transactions. */
module Inventory {
  import opened Basics
  import L = Ledger

  datatype Kind = PURCHASE | SALE | CONSUMPTION | ADJUSTMENT | TRANSFER_OUT | TRANSFER_IN

  /** Names, units and currencies are numbered. An item's id is its position. */
  datatype Item = Item(
    warehouse: nat,
    name: nat,
    unit: nat,
    currency: nat,
    quantity: real,
    averageCost: real,
    active: bool,
    deleted: bool)

  /** `cost` is the cost of goods sold of a sale; other kinds carry none. */
  datatype Transaction = Transaction(item: nat, kind: Kind, quantity: real, totalAmount: real, cost: Option<real>, date: real)

  datatype Store = Store(items: seq<Item>, transactions: seq<Transaction>, money: L.Books)

  const EMPTY := Store([], [], L.EMPTY)

  // ---- operations -------------------------------------------------------------------------------

  datatype OpeningStock = OpeningStock(quantity: real, unitCost: real, date: real)

  predicate SameName(i: Item, warehouse: nat, name: nat) { i.warehouse == warehouse && i.name == name && !i.deleted }

  /** Names are unique in a warehouse, and a deleted item keeps its name. */
  predicate NameTaken(items: seq<Item>, warehouse: nat, name: nat) {
    exists i | i in items :: i.warehouse == warehouse && i.name == name
  }

  function CreateItem(s: Store, warehouse: nat, name: nat, unit: nat, currency: nat,
                      opening: Option<OpeningStock>): Result<Store> {
    if NameTaken(s.items, warehouse, name) then Err("name is taken in this warehouse")
    else
      var quantity := if opening.Some? then opening.value.quantity else 0.0;
      var cost := if opening.Some? then opening.value.unitCost else 0.0;
      Ok(s.(items := s.items + [Item(warehouse, name, unit, currency, quantity, cost, true, false)],
            transactions := if opening.None? then s.transactions
                            else s.transactions + [Transaction(|s.items|, ADJUSTMENT, quantity, Amount(quantity, cost), None, opening.value.date)]))
  }

  /** What a quantity comes to at a price or cost per unit. */
  function Amount(quantity: real, perUnit: real): real { quantity * perUnit }

  /** The average over what is there and what comes in. */
  function Blend(quantity: real, averageCost: real, added: real, unitCost: real): real
    requires quantity + added != 0.0
  {
    (quantity * averageCost + added * unitCost) / (quantity + added)
  }

  function Held(s: Store, id: nat, quantity: real, averageCost: real): seq<Item>
    requires id < |s.items|
  {
    s.items[id := s.items[id].(quantity := quantity, averageCost := averageCost)]
  }

  function Recorded(s: Store, t: Transaction): seq<Transaction> { s.transactions + [t] }

  predicate IsMoney(kind: Kind) { kind.PURCHASE? || kind.SALE? }

  /** A purchase, sale, consumption or adjustment. `price` and `account` matter for the first two. */
  function CreateTransaction(s: Store, id: nat, kind: Kind, quantity: real, price: real, account: nat,
                             date: real): Result<Store> {
    if kind.TRANSFER_IN? || kind.TRANSFER_OUT? then Err("transfers have their own operation")
    else if id >= |s.items| || s.items[id].deleted then Err("item not found")
    else if !s.items[id].active then Err("item is inactive")
    else if quantity == 0.0 then Err("quantity is zero")
    else if kind != ADJUSTMENT && quantity < 0.0 then Err("quantity must be positive")
    else if IsMoney(kind) && !L.Usable(s.money, account) then Err("account not found or inactive")
    else
      var item := s.items[id];
      match kind
      case PURCHASE =>
        if item.quantity + quantity == 0.0 then Err("division by zero")
        else
          var total := Amount(quantity, price);
          var average := Blend(item.quantity, item.averageCost, quantity, price);
          (match L.Spend(s.money, account, total, L.Inventory(s.money.nextId), date)
           case Err(reason) => Err(reason)
           case Ok(money) =>
             Ok(Store(Held(s, id, item.quantity + quantity, average),
                      Recorded(s, Transaction(id, PURCHASE, quantity, total, None, date)), money)))
      case SALE =>
        if item.quantity < quantity then Err("stock is not sufficient")
        else
          var total := Amount(quantity, price);
          (match L.Receive(s.money, account, total, L.Inventory(s.money.nextId), date)
           case Err(reason) => Err(reason)
           case Ok(money) =>
             Ok(Store(Held(s, id, item.quantity - quantity, item.averageCost),
                      Recorded(s, Transaction(id, SALE, quantity, total, Some(Amount(quantity, item.averageCost)), date)), money)))
      case CONSUMPTION =>
        if item.quantity < quantity then Err("stock is not sufficient")
        else
          Ok(s.(items := Held(s, id, item.quantity - quantity, item.averageCost),
                transactions := Recorded(s, Transaction(id, CONSUMPTION, quantity, Amount(quantity, item.averageCost), None, date))))
      case _ =>
        if quantity < 0.0 && item.quantity < -quantity then Err("stock is not sufficient")
        else
          Ok(s.(items := Held(s, id, item.quantity + quantity, item.averageCost),
                transactions := Recorded(s, Transaction(id, ADJUSTMENT, quantity, Amount(Abs(quantity), item.averageCost), None, date))))
  }

  /** First item of that name in a warehouse, among those not deleted. */
  function FindByName(items: seq<Item>, warehouse: nat, name: nat): (r: Option<nat>)
    ensures r.Some? ==> r.value < |items| && SameName(items[r.value], warehouse, name)
    ensures r.None? ==> forall i | i in items :: !SameName(i, warehouse, name)
  {
    if items == [] then None
    else
      var earlier := FindByName(items[..|items| - 1], warehouse, name);
      if earlier.Some? then earlier
      else if SameName(items[|items| - 1], warehouse, name) then Some(|items| - 1)
      else None
  }

  /** Units of `item` arrive in a warehouse: at the item of the same name there, whose average cost is
      blended with theirs, or at a new item, unless a deleted one holds the name. */
  function Arrive(items: seq<Item>, item: Item, to: nat, quantity: real): Result<(seq<Item>, nat)> {
    match FindByName(items, to, item.name)
    case None =>
      if NameTaken(items, to, item.name) then Err("name is taken by a deleted item")
      else Ok((items + [Item(to, item.name, item.unit, item.currency, quantity, item.averageCost, item.active, false)], |items|))
    case Some(target) =>
      var other := items[target];
      if other.currency != item.currency then Err("same name, other currency")
      else if other.unit != item.unit then Err("same name, other unit")
      else if other.quantity + quantity == 0.0 then Err("division by zero")
      else
        var average := Blend(other.quantity, other.averageCost, quantity, item.averageCost);
        Ok((items[target := other.(quantity := other.quantity + quantity, averageCost := average)], target))
  }

  function CreateTransfer(s: Store, id: nat, from: nat, to: nat, quantity: real, date: real): Result<Store> {
    if id >= |s.items| || s.items[id].deleted then Err("item not found")
    else if s.items[id].warehouse != from then Err("item is in another warehouse")
    else if !s.items[id].active then Err("item is inactive")
    else if from == to then Err("same warehouse")
    else if quantity <= 0.0 then Err("quantity must be positive")
    else if s.items[id].quantity < quantity then Err("stock is not sufficient")
    else
      var item := s.items[id];
      var total := Amount(quantity, item.averageCost);
      match Arrive(Held(s, id, item.quantity - quantity, item.averageCost), item, to, quantity)
      case Err(reason) => Err(reason)
      case Ok((items, target)) =>
        Ok(s.(items := items,
              transactions := s.transactions
                + [Transaction(id, TRANSFER_OUT, quantity, total, None, date),
                   Transaction(target, TRANSFER_IN, quantity, total, None, date)]))
  }

  /** Renaming, moving to another warehouse, another unit, switching on or off. */
  function UpdateItem(s: Store, id: nat, warehouse: nat, name: nat, unit: nat, active: bool): Result<Store> {
    if id >= |s.items| || s.items[id].deleted then Err("item not found")
    else if (warehouse != s.items[id].warehouse || name != s.items[id].name) && NameTaken(s.items, warehouse, name) then
      Err("name is taken in this warehouse")
    else Ok(s.(items := s.items[id := s.items[id].(warehouse := warehouse, name := name, unit := unit, active := active)]))
  }

  /** An item can be deleted only when nothing is left of it. */
  function RemoveItem(s: Store, id: nat): Result<Store> {
    if id >= |s.items| || s.items[id].deleted then Err("item not found")
    else if s.items[id].quantity > 0.0 then Err("stock is not zero")
    else Ok(s.(items := s.items[id := s.items[id].(deleted := true)]))
  }

  // ---- runs -------------------------------------------------------------------------------------

  datatype Op =
    | OpCreateItem(warehouse: nat, name: nat, unit: nat, currency: nat, opening: Option<OpeningStock>)
    | OpTransaction(id: nat, kind: Kind, quantity: real, price: real, account: nat, date: real)
    | OpTransfer(id: nat, from: nat, to: nat, quantity: real, date: real)
    | OpUpdateItem(id: nat, warehouse: nat, name: nat, unit: nat, active: bool)
    | OpRemoveItem(id: nat)
    | OpMoney(op: L.Op)

  predicate Admissible(op: Op) {
    match op
    case OpCreateItem(_, _, _, _, opening) => opening.Some? ==> opening.value.quantity > 0.0 && opening.value.unitCost > 0.0
    case OpTransaction(_, kind, _, price, _, _) => IsMoney(kind) ==> price > 0.0
    case OpMoney(op) => L.Admissible(op)
    case _ => true
  }

  function Step(s: Store, op: Op): Result<Store> {
    match op
    case OpCreateItem(warehouse, name, unit, currency, opening) => CreateItem(s, warehouse, name, unit, currency, opening)
    case OpTransaction(id, kind, quantity, price, account, date) => CreateTransaction(s, id, kind, quantity, price, account, date)
    case OpTransfer(id, from, to, quantity, date) => CreateTransfer(s, id, from, to, quantity, date)
    case OpUpdateItem(id, warehouse, name, unit, active) => UpdateItem(s, id, warehouse, name, unit, active)
    case OpRemoveItem(id) => RemoveItem(s, id)
    case OpMoney(op) =>
      match L.Step(s.money, op)
      case Err(reason) => Err(reason)
      case Ok(money) => Ok(s.(money := money))
  }

  function Apply(s: Store, op: Op): Store {
    match Step(s, op)
    case Ok(s') => s'
    case Err(_) => s
  }

  function Run(s: Store, ops: seq<Op>): Store {
    if ops == [] then s else Apply(Run(s, ops[..|ops| - 1]), ops[|ops| - 1])
  }

  // ---- what the transactions add up to ----------------------------------------------------------

  /** The sign a kind of transaction has on stock. */
  function EffectOfType(kind: Kind, quantity: real): real {
    if kind.SALE? || kind.CONSUMPTION? || kind.TRANSFER_OUT? then -quantity else quantity
  }

  /** The value a transaction adds to or takes from stock, at cost. */
  function CostEffect(t: Transaction): real {
    match t.kind
    case PURCHASE => t.totalAmount
    case TRANSFER_IN => t.totalAmount
    case SALE => if t.cost.Some? then -t.cost.value else 0.0
    case CONSUMPTION => -t.totalAmount
    case TRANSFER_OUT => -t.totalAmount
    case ADJUSTMENT => if t.quantity < 0.0 then -t.totalAmount else t.totalAmount
  }

  function UnitsOf(ts: seq<Transaction>, item: nat): real {
    if ts == [] then 0.0
    else
      var last := ts[|ts| - 1];
      UnitsOf(ts[..|ts| - 1], item) + (if last.item == item then EffectOfType(last.kind, last.quantity) else 0.0)
  }

  function CostOf(ts: seq<Transaction>, item: nat): real {
    if ts == [] then 0.0
    else
      var last := ts[|ts| - 1];
      CostOf(ts[..|ts| - 1], item) + (if last.item == item then CostEffect(last) else 0.0)
  }

  /** What the stock of an item is worth at its average cost. */
  function Worth(i: Item): real { i.quantity * i.averageCost }

  ghost predicate ItemOk(i: Item, ts: seq<Transaction>, id: nat) {
    && i.quantity >= 0.0 && i.averageCost >= 0.0
    && i.quantity == UnitsOf(ts, id)
    && Worth(i) == CostOf(ts, id)
  }

  /** Every item's quantity is the signed sum of its transactions and never negative; quantity times
      average cost is the signed sum of their costs. */
  ghost predicate StockOk(s: Store) {
    && (forall id | 0 <= id < |s.items| :: ItemOk(s.items[id], s.transactions, id))
    && (forall t | t in s.transactions :: t.item < |s.items|)
  }

  /** No two items of a warehouse have a name in common, deleted ones included. */
  ghost predicate NamesUnique(items: seq<Item>) {
    forall i, j | 0 <= i < j < |items| :: items[i].warehouse != items[j].warehouse || items[i].name != items[j].name
  }

  ghost predicate Inv(s: Store) { StockOk(s) && NamesUnique(s.items) && L.Inv(s.money) }
}
