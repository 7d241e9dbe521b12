/** Accounts, their stored balances, and the ledger that explains them: what every money operation
    does to an account row, to the row it records, and to the ledger row it writes, rewrites or
    cascades away. Row ids come from one counter. */
module Ledger {
  import opened Basics

  datatype Direction = IN | OUT

  /** The row a ledger entry belongs to; the schema makes each of these unique in the ledger. */
  datatype Source =
    | Opening(id: nat)
    | TransferOut(id: nat)
    | TransferIn(id: nat)
    | AccountTransaction(id: nat)
    | Expense(id: nat)
    | Income(id: nat)
    | Loan(id: nat)
    | Repayment(id: nat)
    | Inventory(id: nat)
    | RentPayment(id: nat)
    | ElectricityPayment(id: nat)
    | SecurityDeposit(id: nat)

  datatype Entry = Entry(source: Source, account: nat, direction: Direction, amount: real, balanceAfter: real, date: real)

  datatype Account = Account(balance: real, active: bool)

  /** The money columns of an expense or income row. */
  datatype Money = Money(account: nat, amount: real)

  datatype LoanRow = LoanRow(account: nat, amount: real, repaid: real, remaining: real, settled: bool)

  datatype Books = Books(
    accounts: map<nat, Account>,
    entries: seq<Entry>,
    expenses: map<nat, Money>,
    incomes: map<nat, Money>,
    loans: map<nat, LoanRow>,
    nextId: nat)

  const EMPTY := Books(map[], [], map[], map[], map[], 0)

  // ---- balances and the ledger ------------------------------------------------------------------

  function Signed(e: Entry): real { if e.direction == IN then e.amount else -e.amount }

  function EffectOn(e: Entry, account: nat): real { if e.account == account then Signed(e) else 0.0 }

  /** IN sum minus OUT sum of an account's ledger rows. */
  function Net(entries: seq<Entry>, account: nat): real {
    if entries == [] then 0.0
    else Net(entries[..|entries| - 1], account) + EffectOn(entries[|entries| - 1], account)
  }

  function Moved(accounts: map<nat, Account>, account: nat, delta: real): map<nat, Account>
    requires account in accounts
  {
    accounts[account := accounts[account].(balance := accounts[account].balance + delta)]
  }

  function IndexOf(entries: seq<Entry>, source: Source): (r: Option<nat>)
    ensures r.Some? ==> r.value < |entries| && entries[r.value].source == source
    ensures r.None? ==> forall i | 0 <= i < |entries| :: entries[i].source != source
  {
    if entries == [] then None
    else if entries[|entries| - 1].source == source then Some(|entries| - 1)
    else IndexOf(entries[..|entries| - 1], source)
  }

  function RemoveAt(entries: seq<Entry>, i: nat): seq<Entry>
    requires i < |entries|
  {
    entries[..i] + entries[i + 1..]
  }

  /** A cascading delete of the row that a ledger entry belongs to. */
  function Cascade(entries: seq<Entry>, source: Source): seq<Entry> {
    match IndexOf(entries, source)
    case Some(i) => RemoveAt(entries, i)
    case None => entries
  }

  // ---- the two primitive movements --------------------------------------------------------------

  /** Increment a balance and write an IN row for it. */
  function Receive(b: Books, account: nat, amount: real, source: Source, date: real): Result<Books> {
    if account !in b.accounts then Err("account not found")
    else
      var accounts := Moved(b.accounts, account, amount);
      Ok(b.(accounts := accounts,
            entries := b.entries + [Entry(source, account, IN, amount, accounts[account].balance, date)],
            nextId := b.nextId + 1))
  }

  /** Decrement a balance that covers the amount and write an OUT row for it. */
  function Spend(b: Books, account: nat, amount: real, source: Source, date: real): Result<Books> {
    if account !in b.accounts then Err("account not found")
    else if b.accounts[account].balance < amount then Err("balance is not sufficient")
    else
      var accounts := Moved(b.accounts, account, -amount);
      Ok(b.(accounts := accounts,
            entries := b.entries + [Entry(source, account, OUT, amount, accounts[account].balance, date)],
            nextId := b.nextId + 1))
  }

  predicate Usable(b: Books, account: nat) { account in b.accounts && b.accounts[account].active }

  // ---- accounts ---------------------------------------------------------------------------------

  /** Opening balances may be negative; a zero one writes no ledger row. */
  function OpenAccount(b: Books, amount: real, date: real): Books {
    var id := b.nextId;
    var created := b.(accounts := b.accounts[id := Account(amount, true)], nextId := id + 1);
    if amount == 0.0 then created
    else created.(entries := b.entries + [Entry(Opening(id), id, if amount > 0.0 then IN else OUT, Abs(amount), amount, date)])
  }

  function SetActive(b: Books, account: nat, active: bool): Result<Books> {
    if account !in b.accounts then Err("account not found")
    else Ok(b.(accounts := b.accounts[account := b.accounts[account].(active := active)]))
  }

  function Transfer(b: Books, from: nat, to: nat, amount: real, received: real, date: real): Result<Books> {
    if from == to then Err("same account")
    else if !Usable(b, from) || !Usable(b, to) then Err("account not found or inactive")
    else if b.accounts[from].balance < amount then Err("balance is not sufficient")
    else
      var accounts := Moved(Moved(b.accounts, from, -amount), to, received);
      Ok(b.(accounts := accounts,
            entries := b.entries
              + [Entry(TransferOut(b.nextId), from, OUT, amount, accounts[from].balance, date),
                 Entry(TransferIn(b.nextId), to, IN, received, accounts[to].balance, date)],
            nextId := b.nextId + 1))
  }

  function CreateAccountTransaction(b: Books, account: nat, withdrawal: bool, amount: real, date: real): Result<Books> {
    if !Usable(b, account) then Err("account not found or inactive")
    else if withdrawal then Spend(b, account, amount, AccountTransaction(b.nextId), date)
    else Receive(b, account, amount, AccountTransaction(b.nextId), date)
  }

  // ---- expenses ---------------------------------------------------------------------------------

  function CreateExpense(b: Books, account: nat, amount: real, date: real): Result<Books> {
    if !Usable(b, account) then Err("account not found or inactive")
    else
      match Spend(b, account, amount, Expense(b.nextId), date)
      case Err(reason) => Err(reason)
      case Ok(b') => Ok(b'.(expenses := b.expenses[b.nextId := Money(account, amount)]))
  }

  /** The old effect is given back first, then the new one must be covered. */
  function UpdateExpense(b: Books, id: nat, seen: Money, next: Money, date: real): Result<Books> {
    if !Usable(b, next.account) then Err("account not found or inactive")
    else if id !in b.expenses || b.expenses[id] != seen then Err("edited concurrently")
    else if seen.account !in b.accounts then Err("account not found")
    else
      var returned := Moved(b.accounts, seen.account, seen.amount);
      if returned[next.account].balance < next.amount then Err("balance is not sufficient")
      else
        var accounts := Moved(returned, next.account, -next.amount);
        match IndexOf(b.entries, Expense(id))
        case None => Err("no ledger row")
        case Some(i) =>
          var e := b.entries[i].(account := next.account, amount := next.amount,
                                 balanceAfter := accounts[next.account].balance, date := date);
          Ok(b.(accounts := accounts, expenses := b.expenses[id := next], entries := b.entries[i := e]))
  }

  function RemoveExpense(b: Books, id: nat): Result<Books> {
    if id !in b.expenses then Err("expense not found")
    else if b.expenses[id].account !in b.accounts then Err("account not found")
    else
      Ok(b.(accounts := Moved(b.accounts, b.expenses[id].account, b.expenses[id].amount),
            expenses := b.expenses - {id},
            entries := Cascade(b.entries, Expense(id))))
  }

  // ---- miscellaneous income ---------------------------------------------------------------------

  function CreateIncome(b: Books, account: nat, amount: real, date: real): Result<Books> {
    if !Usable(b, account) then Err("account not found or inactive")
    else
      match Receive(b, account, amount, Income(b.nextId), date)
      case Err(reason) => Err(reason)
      case Ok(b') => Ok(b'.(incomes := b.incomes[b.nextId := Money(account, amount)]))
  }

  /** What leaves the account of an edited income is there. */
  predicate IncomeCovered(accounts: map<nat, Account>, seen: Money, next: Money)
    requires seen.account in accounts
  {
    var leaving := if seen.account == next.account then seen.amount - next.amount else seen.amount;
    (seen.account == next.account && leaving <= 0.0) || leaving <= accounts[seen.account].balance
  }

  /** The edit commits only if the row still has the amount and account that were read (`seen`);
      money that leaves an account must still be there. */
  function UpdateIncome(b: Books, id: nat, seen: Money, next: Money, date: real): Result<Books> {
    if !Usable(b, next.account) then Err("account not found or inactive")
    else
      match IndexOf(b.entries, Income(id))
      case None => Err("no ledger row")
      case Some(i) =>
        if id !in b.incomes || b.incomes[id] != seen then Err("edited concurrently")
        else if seen.account !in b.accounts then Err("account not found")
        else
          if !IncomeCovered(b.accounts, seen, next) then Err("money already spent")
          else
            var accounts := Moved(Moved(b.accounts, seen.account, -seen.amount), next.account, next.amount);
            var e := b.entries[i].(account := next.account, amount := next.amount,
                                   balanceAfter := accounts[next.account].balance, date := date);
            Ok(b.(accounts := accounts, incomes := b.incomes[id := next], entries := b.entries[i := e]))
  }

  function RemoveIncome(b: Books, id: nat, seen: Money): Result<Books> {
    if IndexOf(b.entries, Income(id)).None? then Err("no ledger row")
    else if id !in b.incomes || b.incomes[id] != seen then Err("edited concurrently")
    else if seen.account !in b.accounts || b.accounts[seen.account].balance < seen.amount then Err("money already spent")
    else
      Ok(b.(accounts := Moved(b.accounts, seen.account, -seen.amount),
            incomes := b.incomes - {id},
            entries := Cascade(b.entries, Income(id))))
  }

  // ---- dealer loans -----------------------------------------------------------------------------

  function Lend(b: Books, account: nat, amount: real, date: real): Result<Books> {
    if !Usable(b, account) then Err("account not found or inactive")
    else
      match Spend(b, account, amount, Loan(b.nextId), date)
      case Err(reason) => Err(reason)
      case Ok(b') => Ok(b'.(loans := b.loans[b.nextId := LoanRow(account, amount, 0.0, amount, false)]))
  }

  function Repay(b: Books, loan: nat, account: nat, amount: real, date: real): Result<Books> {
    if loan !in b.loans then Err("loan not found")
    else if b.loans[loan].settled then Err("loan is settled")
    else if !Usable(b, account) then Err("account not found or inactive")
    else if amount > b.loans[loan].remaining then Err("repayment exceeds what remains")
    else
      match Receive(b, account, amount, Repayment(b.nextId), date)
      case Err(reason) => Err(reason)
      case Ok(b') =>
        var row := b.loans[loan];
        var left := row.remaining - amount;
        Ok(b'.(loans := b.loans[loan := row.(repaid := row.repaid + amount, remaining := left, settled := left == 0.0)]))
  }

  function RemoveLoan(b: Books, loan: nat): Result<Books> {
    if loan !in b.loans then Err("loan not found")
    else if b.loans[loan].repaid != 0.0 then Err("loan has repayments")
    else if b.loans[loan].account !in b.accounts then Err("account not found")
    else
      Ok(b.(accounts := Moved(b.accounts, b.loans[loan].account, b.loans[loan].amount),
            loans := b.loans - {loan},
            entries := Cascade(b.entries, Loan(loan))))
  }

  // ---- runs -------------------------------------------------------------------------------------

  datatype Op =
    | OpOpen(amount: real, date: real)
    | OpSetActive(account: nat, active: bool)
    | OpTransfer(from: nat, to: nat, amount: real, received: real, date: real)
    | OpAccountTransaction(account: nat, withdrawal: bool, amount: real, date: real)
    | OpCreateExpense(account: nat, amount: real, date: real)
    | OpUpdateExpense(id: nat, seen: Money, next: Money, date: real)
    | OpRemoveExpense(id: nat)
    | OpCreateIncome(account: nat, amount: real, date: real)
    | OpUpdateIncome(id: nat, seen: Money, next: Money, date: real)
    | OpRemoveIncome(id: nat, seen: Money)
    | OpLend(account: nat, amount: real, date: real)
    | OpRepay(loan: nat, account: nat, amount: real, date: real)
    | OpRemoveLoan(loan: nat)
    | OpPurchase(account: nat, amount: real, date: real)
    | OpSale(account: nat, amount: real, date: real)
    | OpRentPayment(account: nat, amount: real, date: real)
    | OpElectricityPayment(account: nat, amount: real, date: real)
    | OpSecurityDeposit(account: nat, amount: real, date: real)

  /** Request validation: amounts are positive; a converted amount may round down to zero. */
  predicate Admissible(op: Op) {
    match op
    case OpOpen(_, _) => true
    case OpSetActive(_, _) => true
    case OpTransfer(_, _, amount, received, _) => amount > 0.0 && received >= 0.0
    case OpUpdateExpense(_, _, next, _) => next.amount > 0.0
    case OpUpdateIncome(_, _, next, _) => next.amount > 0.0
    case OpRemoveExpense(_) => true
    case OpRemoveIncome(_, _) => true
    case OpRemoveLoan(_) => true
    case _ => op.amount > 0.0
  }

  function Step(b: Books, op: Op): Result<Books> {
    match op
    case OpOpen(amount, date) => Ok(OpenAccount(b, amount, date))
    case OpSetActive(account, active) => SetActive(b, account, active)
    case OpTransfer(from, to, amount, received, date) => Transfer(b, from, to, amount, received, date)
    case OpAccountTransaction(account, withdrawal, amount, date) => CreateAccountTransaction(b, account, withdrawal, amount, date)
    case OpCreateExpense(account, amount, date) => CreateExpense(b, account, amount, date)
    case OpUpdateExpense(id, seen, next, date) => UpdateExpense(b, id, seen, next, date)
    case OpRemoveExpense(id) => RemoveExpense(b, id)
    case OpCreateIncome(account, amount, date) => CreateIncome(b, account, amount, date)
    case OpUpdateIncome(id, seen, next, date) => UpdateIncome(b, id, seen, next, date)
    case OpRemoveIncome(id, seen) => RemoveIncome(b, id, seen)
    case OpLend(account, amount, date) => Lend(b, account, amount, date)
    case OpRepay(loan, account, amount, date) => Repay(b, loan, account, amount, date)
    case OpRemoveLoan(loan) => RemoveLoan(b, loan)
    case OpPurchase(account, amount, date) =>
      if Usable(b, account) then Spend(b, account, amount, Inventory(b.nextId), date) else Err("account not found or inactive")
    case OpSale(account, amount, date) =>
      if Usable(b, account) then Receive(b, account, amount, Inventory(b.nextId), date) else Err("account not found or inactive")
    case OpRentPayment(account, amount, date) => Receive(b, account, amount, RentPayment(b.nextId), date)
    case OpElectricityPayment(account, amount, date) => Receive(b, account, amount, ElectricityPayment(b.nextId), date)
    case OpSecurityDeposit(account, amount, date) => Receive(b, account, amount, SecurityDeposit(b.nextId), date)
  }

  function Apply(b: Books, op: Op): Books {
    match Step(b, op)
    case Ok(b') => b'
    case Err(_) => b
  }

  function Run(b: Books, ops: seq<Op>): Books {
    if ops == [] then b else Apply(Run(b, ops[..|ops| - 1]), ops[|ops| - 1])
  }

  // ---- the invariant ----------------------------------------------------------------------------

  ghost predicate BalancesMatch(b: Books) {
    forall a | a in b.accounts :: b.accounts[a].balance == Net(b.entries, a)
  }

  ghost predicate EntriesOk(b: Books) {
    && (forall i | 0 <= i < |b.entries| ::
          b.entries[i].account in b.accounts && b.entries[i].amount >= 0.0 && b.entries[i].source.id < b.nextId)
    && (forall i, j | 0 <= i < j < |b.entries| :: b.entries[i].source != b.entries[j].source)
    && (forall a | a in b.accounts :: a < b.nextId)
  }

  /** The ledger holds a row for `source` with this direction, account and amount. */
  ghost predicate Explains(entries: seq<Entry>, source: Source, direction: Direction, m: Money) {
    exists i | 0 <= i < |entries| ::
      && entries[i].source == source && entries[i].direction == direction
      && entries[i].account == m.account && entries[i].amount == m.amount
  }

  ghost predicate RowsExplained(b: Books) {
    && (forall id | id in b.expenses :: id < b.nextId && Explains(b.entries, Expense(id), OUT, b.expenses[id]))
    && (forall id | id in b.incomes :: id < b.nextId && Explains(b.entries, Income(id), IN, b.incomes[id]))
    && (forall id | id in b.loans ::
          id < b.nextId && Explains(b.entries, Loan(id), OUT, Money(b.loans[id].account, b.loans[id].amount)))
  }

  /** What remains of a loan is what was lent minus what was repaid, and it is settled at zero. */
  ghost predicate LoansOk(b: Books) {
    forall id | id in b.loans ::
      var l := b.loans[id];
      l.repaid >= 0.0 && l.remaining >= 0.0 && l.repaid + l.remaining == l.amount && (l.settled <==> l.remaining == 0.0)
  }

  ghost predicate Inv(b: Books) {
    BalancesMatch(b) && EntriesOk(b) && RowsExplained(b) && LoansOk(b)
  }

  /** No account is lowered below zero: a step either does not lower a balance or leaves it >= 0. */
  ghost predicate NoOverdraft(b: Books, b': Books) {
    forall a | a in b.accounts ::
      a in b'.accounts && (b'.accounts[a].balance >= b.accounts[a].balance || b'.accounts[a].balance >= 0.0)
  }

  // ---- sums over an edited ledger ---------------------------------------------------------------

  lemma NetAppend(entries: seq<Entry>, e: Entry, account: nat)
    ensures Net(entries + [e], account) == Net(entries, account) + EffectOn(e, account)
  {
    assert (entries + [e])[..|entries|] == entries;
  }

  lemma {:induction false} NetUpdate(entries: seq<Entry>, i: nat, e: Entry, account: nat)
    requires i < |entries|
    ensures Net(entries[i := e], account)
         == Net(entries, account) - EffectOn(entries[i], account) + EffectOn(e, account)
  {
    var n := |entries| - 1;
    if i == n {
      assert entries[i := e][..n] == entries[..n];
    } else {
      NetUpdate(entries[..n], i, e, account);
      assert entries[i := e][..n] == entries[..n][i := e];
    }
  }

  lemma {:induction false} NetRemove(entries: seq<Entry>, i: nat, account: nat)
    requires i < |entries|
    ensures Net(RemoveAt(entries, i), account) == Net(entries, account) - EffectOn(entries[i], account)
  {
    var n := |entries| - 1;
    if i == n {
      assert RemoveAt(entries, i) == entries[..n];
    } else {
      NetRemove(entries[..n], i, account);
      assert RemoveAt(entries, i) == RemoveAt(entries[..n], i) + [entries[n]];
      NetAppend(RemoveAt(entries[..n], i), entries[n], account);
    }
  }

  lemma {:induction false} NetOfStranger(entries: seq<Entry>, account: nat)
    requires forall i | 0 <= i < |entries| :: entries[i].account != account
    ensures Net(entries, account) == 0.0
  {
    if entries != [] {
      NetOfStranger(entries[..|entries| - 1], account);
    }
  }
}
