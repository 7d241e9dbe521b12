/** The money operations as they run: guarded decrements, increments, recorded rows and ledger rows,
    one statement after the other inside a transaction that is rolled back as a whole. Every method
    is proved against its function in Ledger; whoever calls one on balanced books finds them balanced,
    and no account lowered below zero. */
module MoneyService {
  import opened Basics
  import opened Ledger
  import LR = LedgerRuns

  ghost predicate Outcome(spec: Result<Books>, before: Books, after: Books, error: Option<string>) {
    match spec
    case Ok(b) => error == None && after == b
    case Err(reason) => error == Some(reason) && after == before
  }

  /** Balanced books stay balanced, and nothing is overdrawn. */
  ghost predicate Kept(before: Books, after: Books) {
    Inv(before) ==> Inv(after) && NoOverdraft(before, after)
  }

  lemma OperationKeeps(before: Books, op: Op, after: Books, error: Option<string>)
    requires Outcome(Step(before, op), before, after, error)
    ensures Admissible(op) ==> Kept(before, after)
  {
    if Inv(before) && Admissible(op) && Step(before, op).Ok? { LR.StepKeeps(before, op); }
  }

  lemma ReceivingKeeps(before: Books, account: nat, amount: real, source: Source, date: real, after: Books,
                       error: Option<string>)
    requires Outcome(Receive(before, account, amount, source, date), before, after, error)
    ensures amount >= 0.0 && source.id == before.nextId ==> Kept(before, after)
  {
    if Inv(before) && amount >= 0.0 && source.id == before.nextId && error.None? { LR.ReceiveKeeps(before, account, amount, source, date); }
  }

  lemma SpendingKeeps(before: Books, account: nat, amount: real, source: Source, date: real, after: Books,
                      error: Option<string>)
    requires Outcome(Spend(before, account, amount, source, date), before, after, error)
    ensures amount >= 0.0 && source.id == before.nextId ==> Kept(before, after)
  {
    if Inv(before) && amount >= 0.0 && source.id == before.nextId && error.None? { LR.SpendKeeps(before, account, amount, source, date); }
  }

  class MoneyService {
    var accounts: map<nat, Account>
    var entries: seq<Entry>
    var expenses: map<nat, Money>
    var incomes: map<nat, Money>
    var loans: map<nat, LoanRow>
    var nextId: nat

    ghost function State(): Books
      reads this
    {
      Books(accounts, entries, expenses, incomes, loans, nextId)
    }

    constructor ()
      ensures State() == EMPTY
    {
      accounts, entries, expenses, incomes, loans, nextId := map[], [], map[], map[], map[], 0;
    }

    /** `UPDATE ... SET balance = balance - amount WHERE id = account AND balance >= amount`. */
    method Debit(account: nat, amount: real) returns (count: nat)
      modifies this`accounts
      ensures count == if account in old(accounts) && old(accounts)[account].balance >= amount then 1 else 0
      ensures accounts == if count == 1 then Moved(old(accounts), account, -amount) else old(accounts)
    {
      if account in accounts && accounts[account].balance >= amount {
        accounts := accounts[account := accounts[account].(balance := accounts[account].balance - amount)];
        count := 1;
      } else {
        count := 0;
      }
    }

    method Increment(account: nat, amount: real)
      requires account in accounts
      modifies this`accounts
      ensures accounts == Moved(old(accounts), account, amount)
    {
      accounts := accounts[account := accounts[account].(balance := accounts[account].balance + amount)];
    }

    method WriteEntry(source: Source, account: nat, direction: Direction, amount: real, date: real)
      requires account in accounts
      modifies this`entries
      ensures entries == old(entries) + [Entry(source, account, direction, amount, accounts[account].balance, date)]
    {
      entries := entries + [Entry(source, account, direction, amount, accounts[account].balance, date)];
    }

    /** Money received on an account: payments of rent and electricity, deposits, sales. */
    method ReceiveOn(account: nat, amount: real, source: Source, date: real) returns (error: Option<string>)
      modifies this`accounts, this`entries, this`nextId
      ensures Outcome(Receive(old(State()), account, amount, source, date), old(State()), State(), error)
      ensures amount >= 0.0 && source.id == old(nextId) ==> Kept(old(State()), State())
    {
      if account !in accounts { return Some("account not found"); }
      Increment(account, amount);
      WriteEntry(source, account, IN, amount, date);
      nextId := nextId + 1;
      error := None;
      ReceivingKeeps(old(State()), account, amount, source, date, State(), error);
    }

    method SpendFrom(account: nat, amount: real, source: Source, date: real) returns (error: Option<string>)
      modifies this`accounts, this`entries, this`nextId
      ensures Outcome(Spend(old(State()), account, amount, source, date), old(State()), State(), error)
      ensures amount >= 0.0 && source.id == old(nextId) ==> Kept(old(State()), State())
    {
      if account !in accounts { return Some("account not found"); }
      var count := Debit(account, amount);
      if count == 0 { return Some("balance is not sufficient"); }
      WriteEntry(source, account, OUT, amount, date);
      nextId := nextId + 1;
      error := None;
      SpendingKeeps(old(State()), account, amount, source, date, State(), error);
    }

    method Open(amount: real, date: real) returns (id: nat)
      modifies this
      ensures id == old(nextId) && State() == OpenAccount(old(State()), amount, date)
      ensures Kept(old(State()), State())
    {
      id := nextId;
      nextId := nextId + 1;
      accounts := accounts[id := Account(amount, true)];
      if amount != 0.0 {
        entries := entries + [Entry(Opening(id), id, if amount > 0.0 then IN else OUT, Abs(amount), amount, date)];
      }
      OperationKeeps(old(State()), OpOpen(amount, date), State(), None);
    }

    method TransferFunds(from: nat, to: nat, amount: real, received: real, date: real) returns (error: Option<string>)
      modifies this
      ensures Outcome(Transfer(old(State()), from, to, amount, received, date), old(State()), State(), error)
      ensures amount > 0.0 && received >= 0.0 ==> Kept(old(State()), State())
    {
      if from == to { return Some("same account"); }
      if !(from in accounts && accounts[from].active) || !(to in accounts && accounts[to].active) {
        return Some("account not found or inactive");
      }
      var count := Debit(from, amount);
      if count == 0 { return Some("balance is not sufficient"); }
      Increment(to, received);
      WriteEntry(TransferOut(nextId), from, OUT, amount, date);
      WriteEntry(TransferIn(nextId), to, IN, received, date);
      nextId := nextId + 1;
      error := None;
      OperationKeeps(old(State()), OpTransfer(from, to, amount, received, date), State(), error);
    }

    method AddAccountTransaction(account: nat, withdrawal: bool, amount: real, date: real)
      returns (error: Option<string>)
      modifies this
      ensures Outcome(CreateAccountTransaction(old(State()), account, withdrawal, amount, date), old(State()), State(), error)
      ensures amount > 0.0 ==> Kept(old(State()), State())
    {
      if !(account in accounts && accounts[account].active) { return Some("account not found or inactive"); }
      if withdrawal {
        error := SpendFrom(account, amount, AccountTransaction(nextId), date);
      } else {
        error := ReceiveOn(account, amount, AccountTransaction(nextId), date);
      }
      OperationKeeps(old(State()), OpAccountTransaction(account, withdrawal, amount, date), State(), error);
    }

    method AddExpense(account: nat, amount: real, date: real) returns (error: Option<string>)
      modifies this
      ensures Outcome(CreateExpense(old(State()), account, amount, date), old(State()), State(), error)
      ensures amount > 0.0 ==> Kept(old(State()), State())
    {
      if !(account in accounts && accounts[account].active) { return Some("account not found or inactive"); }
      var id := nextId;
      error := SpendFrom(account, amount, Expense(id), date);
      if error == None {
        expenses := expenses[id := Money(account, amount)];
      }
      OperationKeeps(old(State()), OpCreateExpense(account, amount, date), State(), error);
    }

    /** Give the old amount back, then take the new one; an uncovered new amount rolls both back. */
    method EditExpense(id: nat, seen: Money, next: Money, date: real) returns (error: Option<string>)
      modifies this
      ensures Outcome(UpdateExpense(old(State()), id, seen, next, date), old(State()), State(), error)
      ensures next.amount > 0.0 ==> Kept(old(State()), State())
    {
      if !(next.account in accounts && accounts[next.account].active) { return Some("account not found or inactive"); }
      if id !in expenses || expenses[id] != seen { return Some("edited concurrently"); }
      if seen.account !in accounts { return Some("account not found"); }
      var savedAccounts, savedExpenses := accounts, expenses;
      expenses := expenses[id := next];
      Increment(seen.account, seen.amount);
      var count := Debit(next.account, next.amount);
      if count == 0 {
        accounts, expenses := savedAccounts, savedExpenses;
        return Some("balance is not sufficient");
      }
      var found := IndexOf(entries, Expense(id));
      if found.None? {
        accounts, expenses := savedAccounts, savedExpenses;
        return Some("no ledger row");
      }
      entries := entries[found.value := entries[found.value].(account := next.account, amount := next.amount,
                                          balanceAfter := accounts[next.account].balance, date := date)];
      error := None;
      OperationKeeps(old(State()), OpUpdateExpense(id, seen, next, date), State(), error);
    }

    method DeleteExpense(id: nat) returns (error: Option<string>)
      modifies this
      ensures Outcome(RemoveExpense(old(State()), id), old(State()), State(), error)
      ensures Kept(old(State()), State())
    {
      if id !in expenses { return Some("expense not found"); }
      if expenses[id].account !in accounts { return Some("account not found"); }
      Increment(expenses[id].account, expenses[id].amount);
      expenses := expenses - {id};
      entries := Cascade(entries, Expense(id));
      error := None;
      OperationKeeps(old(State()), OpRemoveExpense(id), State(), error);
    }

    method AddIncome(account: nat, amount: real, date: real) returns (error: Option<string>)
      modifies this
      ensures Outcome(CreateIncome(old(State()), account, amount, date), old(State()), State(), error)
      ensures amount > 0.0 ==> Kept(old(State()), State())
    {
      if !(account in accounts && accounts[account].active) { return Some("account not found or inactive"); }
      var id := nextId;
      error := ReceiveOn(account, amount, Income(id), date);
      if error == None {
        incomes := incomes[id := Money(account, amount)];
      }
      OperationKeeps(old(State()), OpCreateIncome(account, amount, date), State(), error);
    }

    /** Within one account only the difference moves; between two, the old account is debited and the new
        one credited, in the order of their ids. 0 says that the money was not there. */
    method MoveIncome(seen: Money, next: Money) returns (count: nat)
      requires seen.account in accounts && next.account in accounts && seen.amount > 0.0 && next.amount > 0.0
      modifies this`accounts
      ensures count == if IncomeCovered(old(accounts), seen, next) then 1 else 0
      ensures count == 1 ==> accounts == Moved(Moved(old(accounts), seen.account, -seen.amount), next.account, next.amount)
    {
      count := 1;
      if seen.account == next.account {
        var delta := next.amount - seen.amount;
        if delta < 0.0 {
          count := Debit(seen.account, -delta);
        } else if delta != 0.0 {
          Increment(seen.account, delta);
        }
      } else if seen.account < next.account {
        count := Debit(seen.account, seen.amount);
        Increment(next.account, next.amount);
      } else {
        Increment(next.account, next.amount);
        count := Debit(seen.account, seen.amount);
      }
    }

    /** The guarded edit of an income. */
    method EditIncome(id: nat, seen: Money, next: Money, date: real) returns (error: Option<string>)
      requires seen.amount > 0.0 && next.amount > 0.0
      modifies this
      ensures Outcome(UpdateIncome(old(State()), id, seen, next, date), old(State()), State(), error)
      ensures Kept(old(State()), State())
    {
      if !(next.account in accounts && accounts[next.account].active) { return Some("account not found or inactive"); }
      var found := IndexOf(entries, Income(id));
      if found.None? { return Some("no ledger row"); }
      if id !in incomes || incomes[id] != seen { return Some("edited concurrently"); }
      if seen.account !in accounts { return Some("account not found"); }
      var savedAccounts, savedIncomes := accounts, incomes;
      incomes := incomes[id := next];
      var count := MoveIncome(seen, next);
      if count == 0 {
        accounts, incomes := savedAccounts, savedIncomes;
        return Some("money already spent");
      }
      entries := entries[found.value := entries[found.value].(account := next.account, amount := next.amount,
                                          balanceAfter := accounts[next.account].balance, date := date)];
      error := None;
      OperationKeeps(old(State()), OpUpdateIncome(id, seen, next, date), State(), error);
    }

    method DeleteIncome(id: nat, seen: Money) returns (error: Option<string>)
      modifies this
      ensures Outcome(RemoveIncome(old(State()), id, seen), old(State()), State(), error)
      ensures Kept(old(State()), State())
    {
      if IndexOf(entries, Income(id)).None? { return Some("no ledger row"); }
      if id !in incomes || incomes[id] != seen { return Some("edited concurrently"); }
      var saved := incomes;
      incomes := incomes - {id};
      var count := Debit(seen.account, seen.amount);
      if count == 0 {
        incomes := saved;
        return Some("money already spent");
      }
      entries := Cascade(entries, Income(id));
      error := None;
      OperationKeeps(old(State()), OpRemoveIncome(id, seen), State(), error);
    }

    method LendOut(account: nat, amount: real, date: real) returns (error: Option<string>)
      modifies this
      ensures Outcome(Lend(old(State()), account, amount, date), old(State()), State(), error)
      ensures amount > 0.0 ==> Kept(old(State()), State())
    {
      if !(account in accounts && accounts[account].active) { return Some("account not found or inactive"); }
      var id := nextId;
      error := SpendFrom(account, amount, Loan(id), date);
      if error == None {
        loans := loans[id := LoanRow(account, amount, 0.0, amount, false)];
      }
      OperationKeeps(old(State()), OpLend(account, amount, date), State(), error);
    }

    /** The conditional decrement of what remains, then SETTLED at zero, then the money comes in. */
    method RepayLoan(loan: nat, account: nat, amount: real, date: real) returns (error: Option<string>)
      modifies this
      ensures Outcome(Repay(old(State()), loan, account, amount, date), old(State()), State(), error)
      ensures amount > 0.0 ==> Kept(old(State()), State())
    {
      if loan !in loans { return Some("loan not found"); }
      if loans[loan].settled { return Some("loan is settled"); }
      if !(account in accounts && accounts[account].active) { return Some("account not found or inactive"); }
      if amount > loans[loan].remaining { return Some("repayment exceeds what remains"); }
      var row := loans[loan];
      loans := loans[loan := row.(repaid := row.repaid + amount, remaining := row.remaining - amount)];
      if loans[loan].remaining == 0.0 {
        loans := loans[loan := loans[loan].(settled := true)];
      }
      error := ReceiveOn(account, amount, Repayment(nextId), date);
      OperationKeeps(old(State()), OpRepay(loan, account, amount, date), State(), error);
    }

    method DeleteLoan(loan: nat) returns (error: Option<string>)
      modifies this
      ensures Outcome(RemoveLoan(old(State()), loan), old(State()), State(), error)
      ensures Kept(old(State()), State())
    {
      if loan !in loans { return Some("loan not found"); }
      if loans[loan].repaid != 0.0 { return Some("loan has repayments"); }
      if loans[loan].account !in accounts { return Some("account not found"); }
      Increment(loans[loan].account, loans[loan].amount);
      loans := loans - {loan};
      entries := Cascade(entries, Loan(loan));
      error := None;
      OperationKeeps(old(State()), OpRemoveLoan(loan), State(), error);
    }
  }
}
