/** When the transactions of concurrent stock requests go through, said of the item as it was read and as it
    is when they commit; and that what a request works from was true when it was read. */
module InventoryCommits {
  import opened Basics
  import opened Inventory
  import opened InventoryRuns
  import opened InventoryConcurrency
  import IR = InventoryRequests
  import L = Ledger

  // ---- when a commit goes through -------------------------------------------------------------------

  predicate MayTransact(s: Store, held: Snapshot, kind: Kind, quantity: real, price: real)
    requires held.id < |s.items|
  {
    var now := s.items[held.id];
    && held.seen.active
    && match kind
       case PURCHASE =>
         && quantity > 0.0 && now.quantity == held.seen.quantity && now.averageCost == held.seen.averageCost
         && held.account.Some? && held.account.value in s.money.accounts
         && s.money.accounts[held.account.value].balance >= Amount(quantity, price)
       case SALE => 0.0 < quantity <= now.quantity && held.account.Some? && held.account.value in s.money.accounts
       case CONSUMPTION => 0.0 < quantity <= now.quantity
       case ADJUSTMENT => quantity != 0.0 && now.quantity + quantity >= 0.0
       case _ => false
  }

  /** The name an update leaves is no other item's in the warehouse it leaves. */
  predicate NameIsFree(items: seq<Item>, id: nat, labels: Labels)
    requires id < |items|
  {
    var warehouse := if labels.warehouse.Some? then labels.warehouse.value else items[id].warehouse;
    var name := if labels.name.Some? then labels.name.value else items[id].name;
    forall i | 0 <= i < |items| && i != id :: !(items[i].warehouse == warehouse && items[i].name == name)
  }

  predicate MayCommit(s: Store, held: Snapshot, step: Step)
    requires held.id < |s.items|
  {
    match step
    case CommitTransaction(_, kind, quantity, price, _) => MayTransact(s, held, kind, quantity, price)
    case CommitTransfer(_, from, to, quantity, _) =>
      && held.seen.active && held.seen.warehouse == from != to && 0.0 < quantity <= s.items[held.id].quantity
      && IR.MayArrive(s.items, held.seen, to)
    case CommitUpdate(_, labels) => NameIsFree(s.items, held.id, labels)
    case CommitRemove(_) => held.seen.quantity == 0.0
    case _ => true
  }

  lemma TransactionCommitsWhen(s: Store, held: Snapshot, kind: Kind, quantity: real, price: real, date: real)
    requires Counted(s) && held.id < |s.items| && held.seen.quantity >= 0.0
    ensures Transact(s, held, kind, quantity, price, date).Ok? <==> MayTransact(s, held, kind, quantity, price)
  {
    assert UnitsOk(s.items[held.id], s.transactions, held.id);
  }

  lemma TransferCommitsWhen(s: Store, held: Snapshot, from: nat, to: nat, quantity: real, date: real)
    requires Counted(s) && NamesUnique(s.items) && held.id < |s.items|
    ensures Transfer(s, held, from, to, quantity, date).Ok?
            <==> held.seen.active && held.seen.warehouse == from != to && 0.0 < quantity <= s.items[held.id].quantity
                 && IR.MayArrive(s.items, held.seen, to)
  {
    if 0.0 < quantity <= s.items[held.id].quantity {
      var out := Restocked(s.items, held.id, -quantity);
      forall i | 0 <= i < |out| ensures out[i].quantity >= 0.0 { assert UnitsOk(s.items[i], s.transactions, i); }
      IR.SameLabelsArriveAlike(s.items, out, held.seen, to);
      IR.ArrivesWhen(out, held.seen, to, quantity);
    }
  }

  /** A commit goes through exactly when the item that was read was in use for it, what is there now covers
      what leaves, a purchase finds quantity and cost as they were read, and names and accounts fit. Whether
      the item was deactivated or removed meanwhile plays no part, nor does what a removal finds left. */
  lemma CommitsGoThroughWhen(sys: System, step: Step)
    requires SystemInv(sys) && HeldBy(sys, step).Some?
    ensures var held := HeldBy(sys, step).value;
            held.id < |sys.store.items| && (Commit(sys, step).Ok? <==> MayCommit(sys.store, held, step))
  {
    var held := HeldBy(sys, step).value;
    match step {
      case CommitTransaction(_, kind, quantity, price, date) => TransactionCommitsWhen(sys.store, held, kind, quantity, price, date);
      case CommitTransfer(_, from, to, quantity, date) => TransferCommitsWhen(sys.store, held, from, to, quantity, date);
      case _ =>
    }
  }

  // ---- what a request works from --------------------------------------------------------------------

  /** What the client holds is the item as step `k` read it, when it was not deleted. */
  ghost predicate ReadAt(sys: System, steps: seq<Step>, client: nat, held: Snapshot, k: nat)
    requires k < |steps|
  {
    var items := Execute(sys, steps[..k]).store.items;
    && steps[k] == Read(client, held.id)
    && held.id < |items| && held.seen == items[held.id] && !items[held.id].deleted
  }

  ghost predicate CheckedAt(sys: System, steps: seq<Step>, client: nat, account: nat, j: nat)
    requires j < |steps|
  {
    var accounts := Execute(sys, steps[..j]).store.money.accounts;
    steps[j] == CheckAccount(client, account) && account in accounts && accounts[account].active
  }

  /** The client has committed nothing after place `k`. */
  ghost predicate NoCommitSince(steps: seq<Step>, client: nat, k: nat) {
    forall m | k < m < |steps| :: Concerns(steps[m], client) ==> steps[m].CheckAccount? || steps[m].Read?
  }

  predicate Concerns(step: Step, client: nat) {
    match step
    case Create(_, _, _, _, _) => false
    case Money(_, _) => false
    case _ => step.client == client
  }

  lemma StepLeavesOthers(sys: System, step: Step, client: nat)
    requires !Concerns(step, client)
    ensures client in Next(sys, step).clients <==> client in sys.clients
    ensures client in sys.clients ==> Next(sys, step).clients[client] == sys.clients[client]
  {
  }

  /** In every interleaving that starts without clients, what a client holds is an item that a step of its own
      read undeleted, just as it was then; and the account it holds was there and active when the client checked
      it, after that. Since the reading the client has committed nothing. */
  lemma {:induction false} SnapshotsWereTrue(sys: System, steps: seq<Step>, client: nat) returns (k: nat, j: nat)
    requires sys.clients == map[] && client in Execute(sys, steps).clients
    ensures var held := Execute(sys, steps).clients[client];
            && k < |steps| && ReadAt(sys, steps, client, held, k) && NoCommitSince(steps, client, k)
            && (held.account.Some? ==> k < j < |steps| && CheckedAt(sys, steps, client, held.account.value, j))
    decreases |steps|
  {
    var init, last := steps[..|steps| - 1], steps[|steps| - 1];
    var n, before := |init|, Execute(sys, init);
    assert steps[..n] == init;
    if last.Read? && last.client == client && Next(before, last) != before {
      k, j := n, n;
    } else {
      StaysHeld(before, last, client);
      k, j := SnapshotsWereTrue(sys, init, client);
      assert steps[..k] == init[..k];
      if j < n { assert steps[..j] == init[..j]; }
      if last.CheckAccount? && last.client == client && L.Usable(before.store.money, last.account) { j := n; }
    }
  }

  /** A step that is no reading of the client leaves it with what it held, but for an account. */
  lemma StaysHeld(sys: System, step: Step, client: nat)
    requires client in Next(sys, step).clients && !(step.Read? && step.client == client && Next(sys, step) != sys)
    ensures client in sys.clients
    ensures var held, next := sys.clients[client], Next(sys, step).clients[client];
            && next == held.(account := next.account)
            && (next != held ==> step == CheckAccount(client, step.account) && next.account == Some(step.account))
    ensures Concerns(step, client) ==> step.CheckAccount? || step.Read?
  {
    if !Concerns(step, client) { StepLeavesOthers(sys, step, client); }
  }
}
