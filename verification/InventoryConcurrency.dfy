/** Stock under concurrent requests. A request reads an item, finds its account active, and commits later,
    in one transaction. A purchase is guarded by the quantity and average cost it read, whatever lowers the
    stock by the quantity then there, and a rename, a move or a removal by nothing; what is sold, used,
    adjusted or transferred is priced at the average cost that was read. Reads, checks, commits and the other
    money operations interleave freely; each transaction is one atomic step. */
module InventoryConcurrency {
  import opened Basics
  import opened Inventory
  import opened InventoryRuns
  import L = Ledger
  import LR = LedgerRuns
  import IC = IncomeConcurrency

  /** What a client holds between its read and its commit: the item as it was, and the account it has found
      active since. */
  datatype Snapshot = Snapshot(id: nat, seen: Item, account: Option<nat>)

  datatype System = System(store: Store, clients: map<nat, Snapshot>)

  /** What an update of an item sets; the rest it leaves as it is. */
  datatype Labels = Labels(warehouse: Option<nat>, name: Option<nat>, unit: Option<nat>, active: Option<bool>)

  datatype Step =
    | Create(warehouse: nat, name: nat, unit: nat, currency: nat, opening: Option<OpeningStock>)
    | Read(client: nat, id: nat)
    | CheckAccount(client: nat, account: nat)
    | CommitTransaction(client: nat, kind: Kind, quantity: real, price: real, date: real)
    | CommitTransfer(client: nat, from: nat, to: nat, quantity: real, date: real)
    | CommitUpdate(client: nat, labels: Labels)
    | CommitRemove(client: nat)
    | Money(op: L.Op, found: set<nat>)

  predicate StepAdmissible(step: Step) {
    match step
    case Create(_, _, _, _, opening) => opening.Some? ==> opening.value.quantity > 0.0 && opening.value.unitCost > 0.0
    case CommitTransaction(_, kind, _, price, _) => IsMoney(kind) ==> price > 0.0
    case Money(op, _) => L.Admissible(op)
    case _ => true
  }

  // ---- the transactions ---------------------------------------------------------------------------

  /** Some units more, or fewer, at the cost as it is. */
  function Restocked(items: seq<Item>, id: nat, change: real): seq<Item>
    requires id < |items|
  {
    items[id := items[id].(quantity := items[id].quantity + change)]
  }

  /** The new quantity and average cost are set if the ones that were read are still there. */
  function Buy(s: Store, id: nat, seen: Item, quantity: real, price: real, account: nat, date: real): Result<Store>
    requires id < |s.items|
  {
    if seen.quantity + quantity == 0.0 then Err("division by zero")
    else if s.items[id].quantity != seen.quantity || s.items[id].averageCost != seen.averageCost then
      Err("stock has changed concurrently")
    else
      var total := Amount(quantity, price);
      match L.Spend(s.money, account, total, L.Inventory(s.money.nextId), date)
      case Err(reason) => Err(reason)
      case Ok(money) =>
        Ok(Store(Held(s, id, seen.quantity + quantity, Blend(seen.quantity, seen.averageCost, quantity, price)),
                 Recorded(s, Transaction(id, PURCHASE, quantity, total, None, date)), money))
  }

  function Sell(s: Store, id: nat, seen: Item, quantity: real, price: real, account: nat, date: real): Result<Store>
    requires id < |s.items|
  {
    if s.items[id].quantity < quantity then Err("stock is not sufficient")
    else
      var total := Amount(quantity, price);
      match L.Receive(s.money, account, total, L.Inventory(s.money.nextId), date)
      case Err(reason) => Err(reason)
      case Ok(money) =>
        Ok(Store(Restocked(s.items, id, -quantity),
                 Recorded(s, Transaction(id, SALE, quantity, total, Some(Amount(quantity, seen.averageCost)), date)), money))
  }

  /** A consumption or an adjustment. */
  function Use(s: Store, id: nat, seen: Item, kind: Kind, quantity: real, date: real): Result<Store>
    requires id < |s.items|
  {
    var change := if kind.CONSUMPTION? then -quantity else quantity;
    if change < 0.0 && s.items[id].quantity < -change then Err("stock is not sufficient")
    else
      Ok(s.(items := Restocked(s.items, id, change),
            transactions := Recorded(s, Transaction(id, kind, quantity, Amount(Abs(quantity), seen.averageCost), None, date))))
  }

  /** What is checked against the item that was read. */
  function TransactionRefusal(held: Snapshot, kind: Kind, quantity: real): Option<string> {
    if kind.TRANSFER_IN? || kind.TRANSFER_OUT? then Some("transfers have their own operation")
    else if !held.seen.active then Some("item is inactive")
    else if quantity == 0.0 then Some("quantity is zero")
    else if kind != ADJUSTMENT && quantity < 0.0 then Some("quantity must be positive")
    else if IsMoney(kind) && held.account.None? then Some("account not found or inactive")
    else None
  }

  function Transact(s: Store, held: Snapshot, kind: Kind, quantity: real, price: real, date: real): Result<Store> {
    if TransactionRefusal(held, kind, quantity).Some? then Err(TransactionRefusal(held, kind, quantity).value)
    else if held.id >= |s.items| then Err("item not found")
    else if kind.PURCHASE? then Buy(s, held.id, held.seen, quantity, price, held.account.value, date)
    else if kind.SALE? then Sell(s, held.id, held.seen, quantity, price, held.account.value, date)
    else Use(s, held.id, held.seen, kind, quantity, date)
  }

  /** Units leave the item as it is now; they arrive at an item of the name, at the cost, that was read. */
  function Transfer(s: Store, held: Snapshot, from: nat, to: nat, quantity: real, date: real): Result<Store> {
    if held.seen.warehouse != from then Err("item is in another warehouse")
    else if !held.seen.active then Err("item is inactive")
    else if from == to then Err("same warehouse")
    else if quantity <= 0.0 then Err("quantity must be positive")
    else if held.id >= |s.items| then Err("item not found")
    else if s.items[held.id].quantity < quantity then Err("stock is not sufficient")
    else
      var total := Amount(quantity, held.seen.averageCost);
      match Arrive(Restocked(s.items, held.id, -quantity), held.seen, to, quantity)
      case Err(reason) => Err(reason)
      case Ok((items, target)) =>
        Ok(s.(items := items,
              transactions := s.transactions
                + [Transaction(held.id, TRANSFER_OUT, quantity, total, None, date)]
                + [Transaction(target, TRANSFER_IN, quantity, total, None, date)]))
  }

  function Relabelled(item: Item, labels: Labels): Item {
    item.(warehouse := if labels.warehouse.Some? then labels.warehouse.value else item.warehouse,
          name := if labels.name.Some? then labels.name.value else item.name,
          unit := if labels.unit.Some? then labels.unit.value else item.unit,
          active := if labels.active.Some? then labels.active.value else item.active)
  }

  /** Unguarded, but names stay unique. */
  function Update(s: Store, held: Snapshot, labels: Labels): Result<Store> {
    if held.id >= |s.items| then Err("item not found")
    else
      var item := Relabelled(s.items[held.id], labels);
      if exists i | 0 <= i < |s.items| :: i != held.id && s.items[i].warehouse == item.warehouse && s.items[i].name == item.name
      then Err("name is taken in this warehouse")
      else Ok(s.(items := s.items[held.id := item]))
  }

  /** The stock is looked at when the item is read; the removal itself is unguarded. */
  function Remove(s: Store, held: Snapshot): Result<Store> {
    if held.seen.quantity > 0.0 then Err("stock is not zero")
    else if held.id >= |s.items| then Err("item not found")
    else Ok(s.(items := s.items[held.id := s.items[held.id].(deleted := true)]))
  }

  // ---- interleavings ------------------------------------------------------------------------------

  /** The snapshot a commit works from. */
  function HeldBy(sys: System, step: Step): Option<Snapshot> {
    if (step.CommitTransaction? || step.CommitTransfer? || step.CommitUpdate? || step.CommitRemove?) && step.client in sys.clients
    then Some(sys.clients[step.client])
    else None
  }

  /** What a step does to the tables. */
  function Commit(sys: System, step: Step): Result<Store> {
    match step
    case Create(warehouse, name, unit, currency, opening) => CreateItem(sys.store, warehouse, name, unit, currency, opening)
    case Money(op, found) => Ok(sys.store.(money := IC.Committed(sys.store.money, op, found)))
    case _ =>
      match HeldBy(sys, step)
      case None => Err("nothing was read")
      case Some(held) =>
        match step
        case CommitTransaction(_, kind, quantity, price, date) => Transact(sys.store, held, kind, quantity, price, date)
        case CommitTransfer(_, from, to, quantity, date) => Transfer(sys.store, held, from, to, quantity, date)
        case CommitUpdate(_, labels) => Update(sys.store, held, labels)
        case _ => Remove(sys.store, held)
  }

  function Committed(sys: System, step: Step): Store {
    match Commit(sys, step)
    case Ok(s) => s
    case Err(_) => sys.store
  }

  /** Deleted items are not found. */
  function Next(sys: System, step: Step): System {
    match step
    case Read(client, id) =>
      if id < |sys.store.items| && !sys.store.items[id].deleted
      then sys.(clients := sys.clients[client := Snapshot(id, sys.store.items[id], None)])
      else sys
    case CheckAccount(client, account) =>
      if client in sys.clients && L.Usable(sys.store.money, account)
      then sys.(clients := sys.clients[client := sys.clients[client].(account := Some(account))])
      else sys
    case Create(_, _, _, _, _) => sys.(store := Committed(sys, step))
    case Money(_, _) => sys.(store := Committed(sys, step))
    case _ => System(Committed(sys, step), sys.clients - {step.client})
  }

  function Execute(sys: System, steps: seq<Step>): System {
    if steps == [] then sys else Next(Execute(sys, steps[..|steps| - 1]), steps[|steps| - 1])
  }

  // ---- units and value ----------------------------------------------------------------------------

  ghost predicate UnitsOk(i: Item, ts: seq<Transaction>, id: nat) {
    i.quantity >= 0.0 && i.averageCost >= 0.0 && i.quantity == UnitsOf(ts, id)
  }

  /** Every quantity is the signed sum of the item's transactions and never negative. */
  ghost predicate Counted(s: Store) {
    && (forall id | 0 <= id < |s.items| :: UnitsOk(s.items[id], s.transactions, id))
    && (forall t | t in s.transactions :: t.item < |s.items|)
  }

  /** Clients hold items that are there, as they once were. */
  ghost predicate HoldsItems(sys: System) {
    forall c | c in sys.clients ::
      var held := sys.clients[c];
      held.id < |sys.store.items| && held.seen.quantity >= 0.0 && held.seen.averageCost >= 0.0
  }

  ghost predicate SystemInv(sys: System) {
    Counted(sys.store) && NamesUnique(sys.store.items) && L.Inv(sys.store.money) && HoldsItems(sys)
  }

  /** By how much the stock of an item is worth more than its transactions say. */
  function Drift(s: Store, id: nat): real {
    (if id < |s.items| then Worth(s.items[id]) else 0.0) - CostOf(s.transactions, id)
  }

  /** One item changes together with one transaction of its own. */
  lemma OneMoves(s: Store, s': Store, id: nat, t: Transaction)
    requires Counted(s) && id < |s.items| == |s'.items| && t.item == id
    requires s'.transactions == s.transactions + [t]
    requires forall i | 0 <= i < |s.items| && i != id :: s'.items[i] == s.items[i]
    requires s'.items[id].quantity == s.items[id].quantity + EffectOfType(t.kind, t.quantity) >= 0.0
    requires s'.items[id].averageCost >= 0.0
    ensures Counted(s')
    ensures forall i: nat ::
              Drift(s', i) == Drift(s, i)
                              + (if i == id then Worth(s'.items[id]) - Worth(s.items[id]) - CostEffect(t) else 0.0)
  {
    forall i: nat
      ensures i < |s'.items| ==> UnitsOk(s'.items[i], s'.transactions, i)
      ensures Drift(s', i) == Drift(s, i) + (if i == id then Worth(s'.items[id]) - Worth(s.items[id]) - CostEffect(t) else 0.0)
    {
      if i < |s.items| { assert UnitsOk(s.items[i], s.transactions, i); }
      OneMore(s.transactions, t, i);
    }
  }

  /** An item without stock is new, with no transaction yet. */
  lemma BlankItem(s: Store, s': Store, item: Item)
    requires Counted(s) && s'.items == s.items + [item] && s'.transactions == s.transactions
    requires item.quantity == 0.0 && item.averageCost >= 0.0
    ensures Counted(s') && forall i: nat :: Drift(s', i) == Drift(s, i)
  {
    NothingYet(s.transactions, |s.items|);
    forall i: nat
      ensures i < |s'.items| ==> UnitsOk(s'.items[i], s'.transactions, i)
      ensures Drift(s', i) == Drift(s, i)
    {
      if i < |s.items| { assert UnitsOk(s.items[i], s.transactions, i); }
    }
  }

  /** What `change` units are worth more at the cost that is in force than at the one that was read. */
  function Mispricing(change: real, current: real, seen: real): real { change * (current - seen) }

  lemma MispricedMove(quantity: real, current: real, seen: real, change: real, cost: real)
    requires cost == change * seen
    ensures (quantity + change) * current - quantity * current - cost == Mispricing(change, current, seen)
  {
  }

  /** Units move at the cost that was read. */
  lemma PricedMove(s: Store, s': Store, id: nat, seen: Item, t: Transaction)
    requires Counted(s) && id < |s.items| && t.item == id
    requires var change := EffectOfType(t.kind, t.quantity);
             s.items[id].quantity + change >= 0.0 && s'.items == Restocked(s.items, id, change)
             && CostEffect(t) == change * seen.averageCost
    requires s'.transactions == s.transactions + [t]
    ensures Counted(s')
    ensures forall i: nat ::
              Drift(s', i) == Drift(s, i)
                + (if i == id then Mispricing(EffectOfType(t.kind, t.quantity), s.items[id].averageCost, seen.averageCost) else 0.0)
  {
    var change := EffectOfType(t.kind, t.quantity);
    assert UnitsOk(s.items[id], s.transactions, id);
    OneMoves(s, s', id, t);
    MispricedMove(s.items[id].quantity, s.items[id].averageCost, seen.averageCost, change, CostEffect(t));
  }

  // ---- what each commit adds to the drift ---------------------------------------------------------

  lemma BoughtDrifts(s: Store, s': Store, id: nat, quantity: real, price: real, date: real)
    requires Counted(s) && id < |s.items| && quantity > 0.0 && price > 0.0
    requires s.items[id].quantity + quantity != 0.0
    requires s'.items == Held(s, id, s.items[id].quantity + quantity,
                              Blend(s.items[id].quantity, s.items[id].averageCost, quantity, price))
    requires s'.transactions == Recorded(s, Transaction(id, PURCHASE, quantity, Amount(quantity, price), None, date))
    ensures Counted(s') && forall i: nat :: Drift(s', i) == Drift(s, i)
  {
    assert UnitsOk(s.items[id], s.transactions, id);
    BlendKeepsValue(s.items[id].quantity, s.items[id].averageCost, quantity, price);
    OneMoves(s, s', id, s'.transactions[|s.transactions|]);
  }

  lemma BuyDrifts(s: Store, id: nat, seen: Item, quantity: real, price: real, account: nat, date: real)
    requires Counted(s) && L.Inv(s.money) && id < |s.items| && quantity > 0.0 && price > 0.0
    requires Buy(s, id, seen, quantity, price, account, date).Ok?
    ensures var s' := Buy(s, id, seen, quantity, price, account, date).value;
            Counted(s') && L.Inv(s'.money) && forall i: nat :: Drift(s', i) == Drift(s, i)
  {
    BoughtDrifts(s, Buy(s, id, seen, quantity, price, account, date).value, id, quantity, price, date);
    BuyKeepsMoney(s, id, seen, quantity, price, account, date);
  }

  lemma BuyKeepsMoney(s: Store, id: nat, seen: Item, quantity: real, price: real, account: nat, date: real)
    requires L.Inv(s.money) && id < |s.items| && quantity > 0.0 && price > 0.0
    requires Buy(s, id, seen, quantity, price, account, date).Ok?
    ensures L.Inv(Buy(s, id, seen, quantity, price, account, date).value.money)
  {
    ProductIsNonNegative(quantity, price);
    LR.SpendKeeps(s.money, account, Amount(quantity, price), L.Inventory(s.money.nextId), date);
  }

  lemma SellDrifts(s: Store, id: nat, seen: Item, quantity: real, price: real, account: nat, date: real)
    requires Counted(s) && L.Inv(s.money) && id < |s.items| && quantity > 0.0 && price > 0.0
    requires Sell(s, id, seen, quantity, price, account, date).Ok?
    ensures var s' := Sell(s, id, seen, quantity, price, account, date).value;
            && Counted(s') && L.Inv(s'.money)
            && forall i: nat ::
                 Drift(s', i) == Drift(s, i)
                                 + (if i == id then Mispricing(-quantity, s.items[id].averageCost, seen.averageCost) else 0.0)
  {
    var s' := Sell(s, id, seen, quantity, price, account, date).value;
    PricedMove(s, s', id, seen, s'.transactions[|s.transactions|]);
    ProductIsNonNegative(quantity, price);
    LR.ReceiveKeeps(s.money, account, Amount(quantity, price), L.Inventory(s.money.nextId), date);
  }

  lemma UseDrifts(s: Store, id: nat, seen: Item, kind: Kind, quantity: real, date: real)
    requires Counted(s) && id < |s.items| && (kind.CONSUMPTION? || kind.ADJUSTMENT?)
    requires kind.CONSUMPTION? ==> quantity > 0.0
    requires Use(s, id, seen, kind, quantity, date).Ok?
    ensures var s' := Use(s, id, seen, kind, quantity, date).value;
            && Counted(s')
            && forall i: nat ::
                 Drift(s', i) == Drift(s, i)
                   + (if i == id then Mispricing(EffectOfType(kind, quantity), s.items[id].averageCost, seen.averageCost)
                      else 0.0)
  {
    var s' := Use(s, id, seen, kind, quantity, date).value;
    assert UnitsOk(s.items[id], s.transactions, id);
    PricedMove(s, s', id, seen, s'.transactions[|s.transactions|]);
  }

  /** Arrival at an item of the name there, or at a new one, is at the cost that is recorded. */
  lemma ArrivalDrifts(s: Store, s': Store, seen: Item, to: nat, quantity: real, date: real)
    requires Counted(s) && quantity > 0.0 && seen.averageCost >= 0.0 && seen.warehouse != to
    requires Arrive(s.items, seen, to, quantity).Ok?
    requires s'.items == Arrive(s.items, seen, to, quantity).value.0
    requires s'.transactions
             == s.transactions + [Transaction(Arrive(s.items, seen, to, quantity).value.1, TRANSFER_IN, quantity,
                                              Amount(quantity, seen.averageCost), None, date)]
    ensures Counted(s') && |s.items| <= |s'.items| && forall i: nat :: Drift(s', i) == Drift(s, i)
  {
    forall i: nat | i < |s.items| ensures s.items[i].quantity >= 0.0 && s.items[i].averageCost >= 0.0 {
      assert UnitsOk(s.items[i], s.transactions, i);
    }
    ArrivesAt(s.items, seen, to, quantity);
    var target := Arrive(s.items, seen, to, quantity).value.1;
    var t := s'.transactions[|s.transactions|];
    if target < |s.items| {
      OneMoves(s, s', target, t);
    } else {
      var nothing := s'.items[target].(quantity := 0.0);
      var blank := s.(items := s.items + [nothing]);
      BlankItem(s, blank, nothing);
      OneMoves(blank, s', target, t);
    }
  }

  lemma TransferDrifts(s: Store, held: Snapshot, from: nat, to: nat, quantity: real, date: real)
    requires Counted(s) && held.id < |s.items| && held.seen.averageCost >= 0.0
    requires Transfer(s, held, from, to, quantity, date).Ok?
    ensures var s' := Transfer(s, held, from, to, quantity, date).value;
            && Counted(s') && s'.money == s.money && |s.items| <= |s'.items|
            && forall i: nat ::
                 Drift(s', i) == Drift(s, i)
                   + (if i == held.id then Mispricing(-quantity, s.items[held.id].averageCost, held.seen.averageCost) else 0.0)
  {
    var s' := Transfer(s, held, from, to, quantity, date).value;
    var t := Transaction(held.id, TRANSFER_OUT, quantity, Amount(quantity, held.seen.averageCost), None, date);
    var out := s.(items := Restocked(s.items, held.id, -quantity), transactions := s.transactions + [t]);
    PricedMove(s, out, held.id, held.seen, t);
    ArrivalDrifts(out, s', held.seen, to, quantity, date);
  }

  lemma RelabellingDrifts(s: Store, s': Store, id: nat)
    requires Counted(s) && id < |s.items| == |s'.items| && s'.transactions == s.transactions
    requires forall i | 0 <= i < |s.items| && i != id :: s'.items[i] == s.items[i]
    requires s'.items[id].quantity == s.items[id].quantity && s'.items[id].averageCost == s.items[id].averageCost
    ensures Counted(s') && forall i: nat :: Drift(s', i) == Drift(s, i)
  {
    forall i: nat | i < |s'.items| ensures UnitsOk(s'.items[i], s'.transactions, i) {
      assert UnitsOk(s.items[i], s.transactions, i);
    }
  }

  lemma CreationDrifts(s: Store, step: Step)
    requires Counted(s) && step.Create? && StepAdmissible(step)
    requires CreateItem(s, step.warehouse, step.name, step.unit, step.currency, step.opening).Ok?
    ensures var s' := CreateItem(s, step.warehouse, step.name, step.unit, step.currency, step.opening).value;
            Counted(s') && forall i: nat :: Drift(s', i) == Drift(s, i)
  {
    var s' := CreateItem(s, step.warehouse, step.name, step.unit, step.currency, step.opening).value;
    var item := s'.items[|s.items|];
    var blank := s.(items := s.items + [item.(quantity := 0.0)]);
    BlankItem(s, blank, item.(quantity := 0.0));
    if step.opening.Some? {
      OneMoves(blank, s', |s.items|, s'.transactions[|s.transactions|]);
    } else {
      assert s'.items == blank.items && s'.transactions == blank.transactions;
    }
  }

  // ---- every step and every interleaving ----------------------------------------------------------

  /** The units a commit moves at the cost it read. */
  function MovedBy(step: Step): real {
    match step
    case CommitTransaction(_, kind, quantity, _, _) => if kind.PURCHASE? then 0.0 else EffectOfType(kind, quantity)
    case CommitTransfer(_, _, _, quantity, _) => -quantity
    case _ => 0.0
  }

  /** What a step that goes through adds to the drift of an item. */
  function Mispriced(sys: System, step: Step, id: nat): real {
    var held := HeldBy(sys, step);
    if held.Some? && held.value.id == id < |sys.store.items| && Commit(sys, step).Ok?
    then Mispricing(MovedBy(step), sys.store.items[id].averageCost, held.value.seen.averageCost)
    else 0.0
  }

  function MispricedOver(sys: System, steps: seq<Step>, id: nat): real {
    if steps == [] then 0.0
    else
      var init := steps[..|steps| - 1];
      MispricedOver(sys, init, id) + Mispriced(Execute(sys, init), steps[|steps| - 1], id)
  }

  ghost predicate DriftsBy(sys: System, step: Step, s': Store) {
    && Counted(s') && L.Inv(s'.money) && |sys.store.items| <= |s'.items|
    && forall i: nat :: Drift(s', i) == Drift(sys.store, i) + Mispriced(sys, step, i)
  }

  lemma TransactionDrifts(sys: System, step: Step)
    requires SystemInv(sys) && StepAdmissible(step) && step.CommitTransaction? && Commit(sys, step).Ok?
    ensures DriftsBy(sys, step, Commit(sys, step).value)
  {
    var held := HeldBy(sys, step).value;
    match step
    case CommitTransaction(_, kind, quantity, price, date) =>
      if kind.PURCHASE? { BuyDrifts(sys.store, held.id, held.seen, quantity, price, held.account.value, date); }
      else if kind.SALE? { SellDrifts(sys.store, held.id, held.seen, quantity, price, held.account.value, date); }
      else { UseDrifts(sys.store, held.id, held.seen, kind, quantity, date); }
  }

  lemma CommitDrifts(sys: System, step: Step)
    requires SystemInv(sys) && StepAdmissible(step) && Commit(sys, step).Ok?
    ensures DriftsBy(sys, step, Commit(sys, step).value)
  {
    if step.Create? {
      CreationDrifts(sys.store, step);
    } else if step.Money? {
      IC.CommittedKeeps(sys.store.money, step.op, step.found);
    } else if step.CommitTransaction? {
      TransactionDrifts(sys, step);
    } else if step.CommitTransfer? {
      TransferDrifts(sys.store, HeldBy(sys, step).value, step.from, step.to, step.quantity, step.date);
    } else {
      RelabellingDrifts(sys.store, Commit(sys, step).value, HeldBy(sys, step).value.id);
    }
  }

  lemma TransferredNames(s: Store, held: Snapshot, from: nat, to: nat, quantity: real, date: real)
    requires NamesUnique(s.items) && Transfer(s, held, from, to, quantity, date).Ok?
    ensures NamesUnique(Transfer(s, held, from, to, quantity, date).value.items)
  {
    ArrivalKeepsNames(Restocked(s.items, held.id, -quantity), held.seen, to, quantity);
  }

  lemma UpdatedNames(s: Store, held: Snapshot, labels: Labels)
    requires NamesUnique(s.items) && Update(s, held, labels).Ok?
    ensures NamesUnique(Update(s, held, labels).value.items)
  {
  }

  lemma TransactedNames(s: Store, held: Snapshot, kind: Kind, quantity: real, price: real, date: real)
    requires NamesUnique(s.items) && Transact(s, held, kind, quantity, price, date).Ok?
    ensures NamesUnique(Transact(s, held, kind, quantity, price, date).value.items)
  {
  }

  lemma CommitKeepsNames(sys: System, step: Step)
    requires NamesUnique(sys.store.items) && Commit(sys, step).Ok?
    ensures NamesUnique(Commit(sys, step).value.items)
  {
    if step.CommitTransaction? {
      TransactedNames(sys.store, HeldBy(sys, step).value, step.kind, step.quantity, step.price, step.date);
    } else if step.CommitTransfer? {
      TransferredNames(sys.store, HeldBy(sys, step).value, step.from, step.to, step.quantity, step.date);
    } else if step.CommitUpdate? {
      UpdatedNames(sys.store, HeldBy(sys, step).value, step.labels);
    }
  }

  /** Every step keeps quantities counted and non-negative, and adds to the drift of an item exactly what it
      mispriced. */
  lemma NextKeeps(sys: System, step: Step)
    requires SystemInv(sys) && StepAdmissible(step)
    ensures SystemInv(Next(sys, step))
    ensures forall i: nat :: Drift(Next(sys, step).store, i) == Drift(sys.store, i) + Mispriced(sys, step, i)
  {
    if step.Read? {
      if step.id < |sys.store.items| { assert UnitsOk(sys.store.items[step.id], sys.store.transactions, step.id); }
    } else if Commit(sys, step).Ok? {
      CommitDrifts(sys, step);
      CommitKeepsNames(sys, step);
    }
  }

  /** In every interleaving, each quantity is the signed sum of its transactions and never negative, the
      ledger explains the balances, and an item's worth differs from its transactions by exactly what the
      commits on it mispriced. */
  lemma {:induction false} InterleavingsKeepStock(sys: System, steps: seq<Step>, id: nat)
    requires SystemInv(sys) && forall step | step in steps :: StepAdmissible(step)
    ensures SystemInv(Execute(sys, steps))
    ensures Drift(Execute(sys, steps).store, id) == Drift(sys.store, id) + MispricedOver(sys, steps, id)
  {
    if steps != [] {
      var init, last := steps[..|steps| - 1], steps[|steps| - 1];
      assert forall step | step in init :: step in steps;
      InterleavingsKeepStock(sys, init, id);
      assert last in steps;
      NextKeeps(Execute(sys, init), last);
    }
  }

  // ---- when the value is exact --------------------------------------------------------------------

  /** Quantity times average cost is the signed sum of the costs, for every item. */
  ghost predicate Valued(s: Store) { forall i: nat | i < |s.items| :: Drift(s, i) == 0.0 }

  /** A commit that moves units at the average cost it read found that cost still in force. */
  predicate PricedAtCurrent(sys: System, step: Step) {
    var held := HeldBy(sys, step);
    held.Some? && held.value.id < |sys.store.items| && MovedBy(step) != 0.0 && Commit(sys, step).Ok? ==>
      held.value.seen.averageCost == sys.store.items[held.value.id].averageCost
  }

  lemma PricedExactly(change: real, current: real, seen: real)
    ensures Mispricing(change, current, seen) == 0.0 <==> change == 0.0 || seen == current
  {
    if change != 0.0 && seen != current { assert change * (current - seen) != 0.0; }
  }

  lemma UnusedIsWorthless(s: Store, i: nat)
    requires Counted(s) && i >= |s.items|
    ensures Drift(s, i) == 0.0
  {
    NothingYet(s.transactions, i);
  }

  lemma MispricedIsZero(sys: System, step: Step, id: nat)
    ensures Mispriced(sys, step, id) == 0.0
            <==> HeldBy(sys, step).Some? && HeldBy(sys, step).value.id == id ==> PricedAtCurrent(sys, step)
  {
    if id < |sys.store.items| && HeldBy(sys, step).Some? {
      PricedExactly(MovedBy(step), sys.store.items[id].averageCost, HeldBy(sys, step).value.seen.averageCost);
    }
  }

  lemma ItemsStay(sys: System, step: Step)
    requires SystemInv(sys) && StepAdmissible(step)
    ensures |sys.store.items| <= |Next(sys, step).store.items|
  {
    if !step.Read? && !step.CheckAccount? && Commit(sys, step).Ok? { CommitDrifts(sys, step); }
  }

  lemma NextKeepsValue(sys: System, step: Step)
    requires SystemInv(sys) && StepAdmissible(step) && Valued(sys.store)
    ensures Valued(Next(sys, step).store) <==> PricedAtCurrent(sys, step)
  {
    var after := Next(sys, step).store;
    NextKeeps(sys, step);
    ItemsStay(sys, step);
    forall i: nat ensures Drift(after, i) == Mispriced(sys, step, i) {
      if i >= |sys.store.items| { UnusedIsWorthless(sys.store, i); }
    }
    if PricedAtCurrent(sys, step) {
      forall i: nat | i < |after.items| ensures Drift(after, i) == 0.0 { MispricedIsZero(sys, step, i); }
    } else {
      var id := HeldBy(sys, step).value.id;
      MispricedIsZero(sys, step, id);
      assert Drift(after, id) != 0.0;
    }
  }

  ghost predicate ValuedThroughout(sys: System, steps: seq<Step>) {
    Valued(Execute(sys, steps).store) && (steps != [] ==> ValuedThroughout(sys, steps[..|steps| - 1]))
  }

  ghost predicate AllPricedAtCurrent(sys: System, steps: seq<Step>) {
    steps != [] ==>
      var init := steps[..|steps| - 1];
      AllPricedAtCurrent(sys, init) && PricedAtCurrent(Execute(sys, init), steps[|steps| - 1])
  }

  /** In every interleaving, the stock is worth what its transactions say, throughout, if and only if every
      sale, consumption, adjustment and transfer that went through found the average cost it had read still
      in force. */
  lemma {:induction false} InterleavingsKeepValue(sys: System, steps: seq<Step>)
    requires SystemInv(sys) && Valued(sys.store) && forall step | step in steps :: StepAdmissible(step)
    ensures ValuedThroughout(sys, steps) <==> AllPricedAtCurrent(sys, steps)
  {
    if steps != [] {
      var init, last := steps[..|steps| - 1], steps[|steps| - 1];
      assert forall step | step in init :: step in steps;
      InterleavingsKeepValue(sys, init);
      InterleavingsKeepStock(sys, init, 0);
      assert last in steps;
      if Valued(Execute(sys, init).store) { NextKeepsValue(Execute(sys, init), last); }
    }
  }

  // ---- requests that are not interrupted ----------------------------------------------------------

  /** A snapshot that still is the item as it stands. */
  predicate Fresh(s: Store, held: Snapshot) {
    held.id < |s.items| && held.seen == s.items[held.id] && !held.seen.deleted
  }

  /** On a fresh snapshot and a usable account, a commit is the operation of a serial run. */
  lemma FreshTransactionIsSerial(s: Store, held: Snapshot, account: nat, kind: Kind, quantity: real, price: real, date: real)
    requires Fresh(s, held) && held.account == Some(account) && L.Usable(s.money, account)
    ensures Transact(s, held, kind, quantity, price, date) == CreateTransaction(s, held.id, kind, quantity, price, account, date)
  {
  }

  lemma FreshTransferIsSerial(s: Store, held: Snapshot, from: nat, to: nat, quantity: real, date: real)
    requires Fresh(s, held)
    ensures Transfer(s, held, from, to, quantity, date) == CreateTransfer(s, held.id, from, to, quantity, date)
  {
    assert forall ts: seq<Transaction>, a: Transaction, b: Transaction :: ts + [a] + [b] == ts + [a, b];
    assert Restocked(s.items, held.id, -quantity)
        == Held(s, held.id, held.seen.quantity - quantity, held.seen.averageCost);
  }

  // ---- removal --------------------------------------------------------------------------------------

  ghost predicate DeletedAreEmpty(s: Store) {
    forall i | 0 <= i < |s.items| && s.items[i].deleted :: s.items[i].quantity == 0.0
  }

  /** A removal finds nothing left when it commits, and what brings stock finds the item not removed. */
  predicate RemovesNoStock(sys: System, step: Step) {
    var held := HeldBy(sys, step);
    held.Some? && held.value.id < |sys.store.items| && Commit(sys, step).Ok? ==>
      var item := sys.store.items[held.value.id];
      && (step.CommitRemove? ==> item.quantity == 0.0)
      && (step.CommitTransaction? && EffectOfType(step.kind, step.quantity) > 0.0 ==> !item.deleted)
  }

  lemma TransferSparesDeleted(s: Store, held: Snapshot, from: nat, to: nat, quantity: real, date: real)
    requires DeletedAreEmpty(s) && Transfer(s, held, from, to, quantity, date).Ok?
    ensures DeletedAreEmpty(Transfer(s, held, from, to, quantity, date).value)
  {
    var out := Restocked(s.items, held.id, -quantity);
    assert forall i | 0 <= i < |out| && out[i].deleted :: out[i].quantity == 0.0;
    var found := FindByName(out, to, held.seen.name);
  }

  lemma TransactionSparesDeleted(sys: System, step: Step)
    requires DeletedAreEmpty(sys.store) && step.CommitTransaction? && Commit(sys, step).Ok?
    requires Counted(sys.store)
    ensures DeletedAreEmpty(Commit(sys, step).value) <==> RemovesNoStock(sys, step)
  {
    var id := HeldBy(sys, step).value.id;
    var after := Commit(sys, step).value;
    assert UnitsOk(sys.store.items[id], sys.store.transactions, id);
    assert after.items[id].deleted == sys.store.items[id].deleted;
    assert after.items[id].quantity == sys.store.items[id].quantity + EffectOfType(step.kind, step.quantity);
    assert forall i | 0 <= i < |after.items| && i != id :: after.items[i] == sys.store.items[i];
  }

  lemma NextKeepsDeletedEmpty(sys: System, step: Step)
    requires SystemInv(sys) && DeletedAreEmpty(sys.store)
    ensures DeletedAreEmpty(Next(sys, step).store) <==> RemovesNoStock(sys, step)
  {
    if Commit(sys, step).Ok? && HeldBy(sys, step).Some? {
      var held := HeldBy(sys, step).value;
      if step.CommitTransaction? {
        TransactionSparesDeleted(sys, step);
      } else if step.CommitTransfer? {
        TransferSparesDeleted(sys.store, held, step.from, step.to, step.quantity, step.date);
      } else {
        assert Commit(sys, step).value.items[held.id].quantity == sys.store.items[held.id].quantity;
      }
    }
  }

  ghost predicate DeletedAreEmptyThroughout(sys: System, steps: seq<Step>) {
    DeletedAreEmpty(Execute(sys, steps).store) && (steps != [] ==> DeletedAreEmptyThroughout(sys, steps[..|steps| - 1]))
  }

  ghost predicate NoneRemovesStock(sys: System, steps: seq<Step>) {
    steps != [] ==>
      var init := steps[..|steps| - 1];
      NoneRemovesStock(sys, init) && RemovesNoStock(Execute(sys, init), steps[|steps| - 1])
  }

  /** In every interleaving, deleted items are empty, throughout, if and only if no removal that went
      through found stock when it committed and no purchase or upward adjustment went into a deleted item. */
  lemma {:induction false} InterleavingsKeepDeletedEmpty(sys: System, steps: seq<Step>)
    requires SystemInv(sys) && DeletedAreEmpty(sys.store) && forall step | step in steps :: StepAdmissible(step)
    ensures DeletedAreEmptyThroughout(sys, steps) <==> NoneRemovesStock(sys, steps)
  {
    if steps != [] {
      var init, last := steps[..|steps| - 1], steps[|steps| - 1];
      assert forall step | step in init :: step in steps;
      InterleavingsKeepDeletedEmpty(sys, init);
      InterleavingsKeepStock(sys, init, 0);
      if DeletedAreEmpty(Execute(sys, init).store) { NextKeepsDeletedEmpty(Execute(sys, init), last); }
    }
  }

  // ---- two requests at once -------------------------------------------------------------------------

  const START := System(EMPTY, map[])

  lemma TwoSteps(sys: System, a: Step, b: Step)
    ensures Execute(sys, [a, b]) == Next(Next(sys, a), b)
  {
    assert [a, b][..1] == [a] && [a][..0] == [];
    assert Execute(sys, [a]) == Next(sys, a);
  }

  lemma {:induction false} Continued(sys: System, xs: seq<Step>, ys: seq<Step>)
    ensures Execute(sys, xs + ys) == Execute(Execute(sys, xs), ys)
  {
    if ys == [] {
      assert xs + ys == xs;
    } else {
      Continued(sys, xs, ys[..|ys| - 1]);
      assert (xs + ys)[..|xs + ys| - 1] == xs + ys[..|ys| - 1];
    }
  }

  /** One client has the item as it stands and its account, and so has another. */
  ghost predicate BothHold(sys: System, a: nat, b: nat) {
    && a != b && a in sys.clients && b in sys.clients
    && sys.clients[a] == sys.clients[b] && Fresh(sys.store, sys.clients[a]) && sys.clients[a].seen.active
    && sys.clients[a].account.Some? && sys.clients[a].account.value in sys.store.money.accounts
  }

  /** A purchase that goes through leaves the other client's snapshot as it is, and stale in its cost. */
  lemma PurchaseShiftsCost(sys: System, buy: Step, b: nat) returns (middle: System)
    requires HoldsItems(sys) && StepAdmissible(buy) && buy.CommitTransaction? && buy.kind.PURCHASE? && Commit(sys, buy).Ok?
    requires BothHold(sys, buy.client, b) && buy.price != sys.clients[b].seen.averageCost
    ensures middle == Next(sys, buy) && b in middle.clients && middle.clients[b] == sys.clients[b]
    ensures sys.clients[b].account.value in middle.store.money.accounts
    ensures sys.clients[b].id < |middle.store.items|
    ensures middle.store.items[sys.clients[b].id].quantity >= sys.clients[b].seen.quantity
    ensures var seen, average := sys.clients[b].seen, middle.store.items[sys.clients[b].id].averageCost;
            && seen.quantity + buy.quantity != 0.0
            && average == Blend(seen.quantity, seen.averageCost, buy.quantity, buy.price) != seen.averageCost
  {
    var held := sys.clients[b];
    middle := Next(sys, buy);
    BlendMoves(held.seen.quantity, held.seen.averageCost, buy.quantity, buy.price);
  }

  lemma StockIsSold(sys: System, sell: Step)
    requires sell.CommitTransaction? && sell.kind.SALE? && sell.client in sys.clients
    requires var held := sys.clients[sell.client];
             && held.id < |sys.store.items| && held.seen.active && 0.0 < sell.quantity <= sys.store.items[held.id].quantity
             && held.account.Some? && held.account.value in sys.store.money.accounts
    ensures Commit(sys, sell).Ok?
  {
  }

  /** `a` buys at a price other than the average cost, and then `b` sells some at the cost it read. */
  lemma SaleAfterPurchase(sys: System, buy: Step, sell: Step) returns (middle: System, after: System)
    requires SystemInv(sys) && Valued(sys.store) && StepAdmissible(buy) && StepAdmissible(sell)
    requires buy.CommitTransaction? && buy.kind.PURCHASE? && Commit(sys, buy).Ok?
    requires sell.CommitTransaction? && sell.kind.SALE? && BothHold(sys, buy.client, sell.client)
    requires buy.price != sys.clients[buy.client].seen.averageCost
    requires 0.0 < sell.quantity <= sys.clients[sell.client].seen.quantity
    ensures middle == Next(sys, buy) && after == Next(middle, sell)
    ensures SystemInv(after) && Valued(middle.store) && !Valued(after.store)
  {
    middle := PurchaseShiftsCost(sys, buy, sell.client);
    StockIsSold(middle, sell);
    NextKeeps(sys, buy);
    NextKeepsValue(sys, buy);
    after := Next(middle, sell);
    NextKeeps(middle, sell);
    NextKeepsValue(middle, sell);
  }

  lemma BlendMoves(quantity: real, averageCost: real, added: real, price: real)
    requires quantity >= 0.0 && added > 0.0 && price != averageCost
    ensures Blend(quantity, averageCost, added, price) != averageCost
  {
    var average := Blend(quantity, averageCost, added, price);
    assert average * (quantity + added) == quantity * averageCost + added * price;
    assert added * (price - averageCost) != 0.0;
  }

  /** A step that commits nothing a client read. */
  lemma QuietStep(sys: System, step: Step)
    requires SystemInv(sys) && Valued(sys.store) && StepAdmissible(step) && HeldBy(sys, step).None?
    ensures SystemInv(Next(sys, step)) && Valued(Next(sys, step).store)
  {
    NextKeeps(sys, step);
    NextKeepsValue(sys, step);
  }

  const OpenAccount := Money(L.OpOpen(100.0, 0.0), {})
  const StockUp := Create(0, 0, 0, 0, Some(OpeningStock(10.0, 1.0, 0.0)))
  const CreateEmpty := Create(0, 0, 0, 0, None)
  const BuyTen := CommitTransaction(1, PURCHASE, 10.0, 3.0, 0.0)
  const SellFive := CommitTransaction(2, SALE, 5.0, 4.0, 0.0)
  const RemoveIt := CommitRemove(2)

  lemma AccountIsOpened() returns (sys: System)
    ensures sys == Next(START, OpenAccount) && SystemInv(sys) && Valued(sys.store)
    ensures sys.clients == map[] && sys.store.items == [] && L.Usable(sys.store.money, 0)
    ensures sys.store.money.accounts[0].balance == 100.0
  {
    EmptyStoreIsSound();
    QuietStep(START, OpenAccount);
    sys := Next(START, OpenAccount);
  }

  /** The item a creation makes. */
  function Created(create: Step): Item
    requires create.Create?
  {
    var opening := create.opening;
    Item(create.warehouse, create.name, create.unit, create.currency,
         if opening.Some? then opening.value.quantity else 0.0, if opening.Some? then opening.value.unitCost else 0.0, true, false)
  }

  lemma ItemIsCreated(sys: System, create: Step) returns (stocked: System)
    requires SystemInv(sys) && Valued(sys.store) && sys.store.items == [] && create.Create? && StepAdmissible(create)
    ensures stocked == Next(sys, create) && SystemInv(stocked) && Valued(stocked.store)
    ensures stocked.clients == sys.clients && stocked.store.money == sys.store.money && stocked.store.items == [Created(create)]
  {
    QuietStep(sys, create);
    stocked := Next(sys, create);
  }

  lemma ClientHolds(sys: System, client: nat) returns (ready: System)
    requires SystemInv(sys) && Valued(sys.store) && L.Usable(sys.store.money, 0) && |sys.store.items| == 1
    requires !sys.store.items[0].deleted
    ensures ready == Next(Next(sys, Read(client, 0)), CheckAccount(client, 0)) && SystemInv(ready) && ready.store == sys.store
    ensures ready.clients == sys.clients[client := Snapshot(0, sys.store.items[0], Some(0))]
  {
    QuietStep(sys, Read(client, 0));
    QuietStep(Next(sys, Read(client, 0)), CheckAccount(client, 0));
    ready := Next(Next(sys, Read(client, 0)), CheckAccount(client, 0));
  }

  const ONE_READS := [Read(1, 0), CheckAccount(1, 0)]
  const TWO_READS := [Read(2, 0), CheckAccount(2, 0)]

  /** An account is opened, an item created, and two clients read both. */
  function Setup(create: Step): seq<Step> { [OpenAccount, create] + ONE_READS + TWO_READS }

  lemma Prepared(create: Step) returns (sys: System)
    requires create.Create? && StepAdmissible(create)
    ensures sys == Execute(START, [OpenAccount, create]) && SystemInv(sys) && Valued(sys.store) && sys.clients == map[]
    ensures sys.store.items == [Created(create)]
    ensures L.Usable(sys.store.money, 0) && sys.store.money.accounts[0].balance == 100.0
  {
    var funded := AccountIsOpened();
    sys := ItemIsCreated(funded, create);
    TwoSteps(START, OpenAccount, create);
  }

  lemma BothClientsHold(create: Step) returns (sys: System)
    requires create.Create? && StepAdmissible(create)
    ensures sys == Execute(START, Setup(create)) && SystemInv(sys) && Valued(sys.store)
    ensures BothHold(sys, 1, 2) && sys.clients[1] == Snapshot(0, Created(create), Some(0))
    ensures sys.store.items == [Created(create)]
    ensures 0 in sys.store.money.accounts && sys.store.money.accounts[0].balance == 100.0
  {
    var stocked := Prepared(create);
    var one := ClientHolds(stocked, 1);
    TwoSteps(stocked, Read(1, 0), CheckAccount(1, 0));
    Continued(START, [OpenAccount, create], ONE_READS);
    sys := ClientHolds(one, 2);
    TwoSteps(one, Read(2, 0), CheckAccount(2, 0));
    Continued(START, [OpenAccount, create] + ONE_READS, TWO_READS);
  }

  lemma TenCanBeBought(sys: System, buy: Step)
    requires buy.CommitTransaction? && buy.kind.PURCHASE? && buy.client in sys.clients && |sys.store.items| == 1
    requires sys.clients[buy.client] == Snapshot(0, sys.store.items[0], Some(0)) && sys.store.items[0].active
    requires sys.store.items[0].quantity >= 0.0 && buy.quantity > 0.0
    requires 0 in sys.store.money.accounts && Amount(buy.quantity, buy.price) <= sys.store.money.accounts[0].balance
    ensures Commit(sys, buy).Ok?
  {
  }

  lemma StepsAreAdmissible()
    ensures StepAdmissible(BuyTen) && StepAdmissible(SellFive) && StepAdmissible(OpenAccount) && StepAdmissible(StockUp)
  {
  }

  lemma FiveAtAStaleCost(sys: System, held: Snapshot, sell: Step)
    requires SystemInv(sys) && Valued(sys.store) && StepAdmissible(sell) && sell.CommitTransaction? && sell.kind.SALE?
    requires HeldBy(sys, sell) == Some(held) && held.id == 0 < |sys.store.items| && Commit(sys, sell).Ok?
    requires sys.store.items[0].averageCost == 2.0 && held.seen.averageCost == 1.0 && sell.quantity == 5.0
    ensures Drift(Next(sys, sell).store, 0) == -5.0
  {
    NextKeeps(sys, sell);
    assert Drift(sys.store, 0) == 0.0;
  }

  /** A concrete interleaving: ten units at 1 are in stock and two clients read them; one buys ten more at 3,
      so that the average cost is 2, and the other then sells five at the cost it read. The transactions say
      that what is left is worth 5 more than it is. */
  lemma StaleSaleLosesValue() returns (middle: System, after: System)
    ensures StepAdmissible(OpenAccount) && StepAdmissible(StockUp) && StepAdmissible(BuyTen) && StepAdmissible(SellFive)
    ensures middle == Next(Execute(START, Setup(StockUp)), BuyTen) && Valued(middle.store)
    ensures after == Execute(START, Setup(StockUp) + [BuyTen, SellFive])
    ensures !Valued(after.store) && Drift(after.store, 0) == -5.0
  {
    var sys := BothClientsHold(StockUp);
    var held := sys.clients[2];
    StepsAreAdmissible();
    TenCanBeBought(sys, BuyTen);
    middle, after := SaleAfterPurchase(sys, BuyTen, SellFive);
    var same := PurchaseShiftsCost(sys, BuyTen, 2);
    assert middle.store.items[0].averageCost == 2.0;
    StockIsSold(middle, SellFive);
    NextKeeps(sys, BuyTen);
    FiveAtAStaleCost(middle, held, SellFive);
    TwoSteps(sys, BuyTen, SellFive);
    Continued(START, Setup(StockUp), [BuyTen, SellFive]);
  }

  /** A purchase between the read and the commit of a removal: the item goes with its stock. */
  lemma RemovalAfterPurchase(sys: System, buy: Step, remove: Step) returns (after: System)
    requires HoldsItems(sys) && StepAdmissible(buy) && buy.CommitTransaction? && buy.kind.PURCHASE? && Commit(sys, buy).Ok?
    requires remove.CommitRemove? && BothHold(sys, buy.client, remove.client) && sys.clients[remove.client].seen.quantity == 0.0
    ensures after == Next(Next(sys, buy), remove)
    ensures var id := sys.clients[remove.client].id;
            id < |after.store.items| && after.store.items[id].deleted && after.store.items[id].quantity == buy.quantity > 0.0
  {
    after := Next(Next(sys, buy), remove);
  }

  /** A concrete interleaving: two clients read an item without stock; one buys ten units, and the other then
      removes the item with the ten units in it. */
  lemma RemovalTakesStock() returns (after: System)
    ensures StepAdmissible(OpenAccount) && StepAdmissible(CreateEmpty) && StepAdmissible(BuyTen) && StepAdmissible(RemoveIt)
    ensures after == Execute(START, Setup(CreateEmpty) + [BuyTen, RemoveIt])
    ensures |after.store.items| == 1 && after.store.items[0].deleted && after.store.items[0].quantity == 10.0
  {
    var sys := BothClientsHold(CreateEmpty);
    TenCanBeBought(sys, BuyTen);
    after := RemovalAfterPurchase(sys, BuyTen, RemoveIt);
    TwoSteps(sys, BuyTen, RemoveIt);
    Continued(START, Setup(CreateEmpty), [BuyTen, RemoveIt]);
    assert |after.store.items| == 1;
  }
}
