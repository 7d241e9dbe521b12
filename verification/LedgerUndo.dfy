/** What money operations undo: deleting a record takes back exactly what creating it did, and editing
    it on the way leaves no trace. */
module LedgerUndo {
  import opened Basics
  import opened Ledger
  import opened LedgerRuns

  /** The books as they were, except that ids have been used up. */
  ghost predicate AsBefore(b: Books, after: Books) {
    after == b.(nextId := after.nextId) && b.nextId <= after.nextId
  }

  lemma NewestIsFound(entries: seq<Entry>, e: Entry)
    ensures IndexOf(entries + [e], e.source) == Some(|entries|)
    ensures RemoveAt(entries + [e], |entries|) == entries
  {
  }

  lemma RemovalIgnoresRewriting(entries: seq<Entry>, i: nat, e: Entry)
    requires i < |entries|
    ensures RemoveAt(entries[i := e], i) == RemoveAt(entries, i)
  {
  }

  lemma ThereAndBack(accounts: map<nat, Account>, account: nat, x: real, y: real)
    requires account in accounts && x + y == 0.0
    ensures Moved(Moved(accounts, account, x), account, y) == accounts
  {
  }

  lemma NewestCascades(entries: seq<Entry>, e: Entry)
    ensures Cascade(entries + [e], e.source) == entries
  {
    NewestIsFound(entries, e);
  }

  lemma NewIdIsFree(b: Books)
    requires Inv(b)
    ensures b.nextId !in b.expenses && b.nextId !in b.incomes && b.nextId !in b.loans
  {
  }

  lemma NewExpenseGoes(b: Books, account: nat, amount: real, date: real)
    requires b.nextId !in b.expenses && CreateExpense(b, account, amount, date).Ok?
    ensures RemoveExpense(CreateExpense(b, account, amount, date).value, b.nextId) == Ok(b.(nextId := b.nextId + 1))
  {
    var created := CreateExpense(b, account, amount, date).value;
    NewestCascades(b.entries, created.entries[|b.entries|]);
    ThereAndBack(b.accounts, account, -amount, amount);
    assert created.expenses - {b.nextId} == b.expenses;
  }

  /** Deleting an expense right after it was created always succeeds and restores the books. */
  lemma ExpenseRoundTrip(b: Books, account: nat, amount: real, date: real) returns (after: Books)
    requires Inv(b) && CreateExpense(b, account, amount, date).Ok?
    ensures RemoveExpense(CreateExpense(b, account, amount, date).value, b.nextId) == Ok(after) && AsBefore(b, after)
  {
    NewIdIsFree(b);
    NewExpenseGoes(b, account, amount, date);
    after := b.(nextId := b.nextId + 1);
  }

  /** What lending writes. */
  lemma LendIs(b: Books, account: nat, amount: real, date: real) returns (e: Entry, row: LoanRow)
    requires Lend(b, account, amount, date).Ok?
    ensures account in b.accounts && e.source == Loan(b.nextId) && row == LoanRow(account, amount, 0.0, amount, false)
    ensures Lend(b, account, amount, date).value
         == b.(accounts := Moved(b.accounts, account, -amount), entries := b.entries + [e],
               loans := b.loans[b.nextId := row], nextId := b.nextId + 1)
  {
    var lent := Lend(b, account, amount, date).value;
    e, row := lent.entries[|b.entries|], lent.loans[b.nextId];
  }

  lemma NewLoanGoes(b: Books, account: nat, amount: real, e: Entry)
    requires account in b.accounts && b.nextId !in b.loans && e.source == Loan(b.nextId)
    ensures var lent := b.(accounts := Moved(b.accounts, account, -amount), entries := b.entries + [e],
                           loans := b.loans[b.nextId := LoanRow(account, amount, 0.0, amount, false)], nextId := b.nextId + 1);
            RemoveLoan(lent, b.nextId) == Ok(b.(nextId := b.nextId + 1))
  {
    NewestCascades(b.entries, e);
    ThereAndBack(b.accounts, account, -amount, amount);
    assert b.loans[b.nextId := LoanRow(account, amount, 0.0, amount, false)] - {b.nextId} == b.loans;
  }

  /** Deleting a loan right after it was given always succeeds and restores the books. */
  lemma LoanRoundTrip(b: Books, account: nat, amount: real, date: real) returns (after: Books)
    requires Inv(b) && Lend(b, account, amount, date).Ok?
    ensures RemoveLoan(Lend(b, account, amount, date).value, b.nextId) == Ok(after) && AsBefore(b, after)
  {
    var e, row := LendIs(b, account, amount, date);
    NewIdIsFree(b);
    NewLoanGoes(b, account, amount, e);
    after := b.(nextId := b.nextId + 1);
  }

  lemma NewIncomeGoes(b: Books, account: nat, amount: real, date: real)
    requires b.nextId !in b.incomes && CreateIncome(b, account, amount, date).Ok?
    ensures var r := RemoveIncome(CreateIncome(b, account, amount, date).value, b.nextId, Money(account, amount));
            && (r.Ok? <==> b.accounts[account].balance >= 0.0)
            && (r.Ok? ==> r.value == b.(nextId := b.nextId + 1))
  {
    var created := CreateIncome(b, account, amount, date).value;
    NewestIsFound(b.entries, created.entries[|b.entries|]);
    ThereAndBack(b.accounts, account, amount, -amount);
    assert created.incomes - {b.nextId} == b.incomes;
  }

  /** Deleting an income right after it was created succeeds if and only if the account was not overdrawn
      before, and then restores the books. */
  lemma IncomeRoundTrip(b: Books, account: nat, amount: real, date: real)
    requires Inv(b) && CreateIncome(b, account, amount, date).Ok?
    ensures var r := RemoveIncome(CreateIncome(b, account, amount, date).value, b.nextId, Money(account, amount));
            && (r.Ok? <==> b.accounts[account].balance >= 0.0)
            && (r.Ok? ==> AsBefore(b, r.value))
  {
    NewIdIsFree(b);
    NewIncomeGoes(b, account, amount, date);
  }

  /** A concrete refusal: an account opened at -10 receives an income of 5, which then cannot be deleted. */
  lemma IncomeOnOverdraftStays()
    ensures var b := OpenAccount(EMPTY, -10.0, 0.0);
            && Inv(b) && CreateIncome(b, 0, 5.0, 1.0).Ok?
            && RemoveIncome(CreateIncome(b, 0, 5.0, 1.0).value, b.nextId, Money(0, 5.0)).Err?
  {
    var b := OpenAccount(EMPTY, -10.0, 0.0);
    EmptyBooksBalance();
    OpenKeeps(EMPTY, -10.0, 0.0);
    IncomeRoundTrip(b, 0, 5.0, 1.0);
  }

  lemma MovedTwice(accounts: map<nat, Account>, a: nat, c: nat, x: real, y: real)
    requires a in accounts && c in accounts
    ensures Moved(Moved(Moved(accounts, a, x), c, -y), c, y) == Moved(accounts, a, x)
  {
  }

  lemma RewrittenCascades(entries: seq<Entry>, i: nat, e: Entry, source: Source)
    requires i < |entries| && e.source == source && entries[i].source == source && IndexOf(entries, source) == Some(i)
    ensures Cascade(entries[i := e], source) == Cascade(entries, source)
  {
    RewrittenIsFound(entries, entries[i := e], i);
    RemovalIgnoresRewriting(entries, i, e);
  }

  lemma EditedExpenseGoes(b: Books, id: nat, seen: Money, next: Money, date: real, i: nat)
    requires UpdateExpense(b, id, seen, next, date).Ok? && IndexOf(b.entries, Expense(id)) == Some(i)
    ensures RemoveExpense(UpdateExpense(b, id, seen, next, date).value, id) == RemoveExpense(b, id) && RemoveExpense(b, id).Ok?
  {
    var edited := UpdateExpense(b, id, seen, next, date).value;
    RewrittenCascades(b.entries, i, edited.entries[i], Expense(id));
    MovedTwice(b.accounts, seen.account, next.account, seen.amount, next.amount);
    assert edited.expenses - {id} == b.expenses - {id};
  }

  /** An edit of an expense leaves no trace once the expense is deleted: the books are those of deleting
      it without the edit. */
  lemma ExpenseEditLeavesNoTrace(b: Books, id: nat, seen: Money, next: Money, date: real) returns (after: Books)
    requires Inv(b) && UpdateExpense(b, id, seen, next, date).Ok?
    ensures RemoveExpense(b, id) == Ok(after)
    ensures RemoveExpense(UpdateExpense(b, id, seen, next, date).value, id) == Ok(after)
  {
    var i := ExplainedIndex(b, Expense(id), OUT, seen);
    EditedExpenseGoes(b, id, seen, next, date, i);
    after := RemoveExpense(b, id).value;
  }

  lemma {:induction false} RewrittenIsFound(entries: seq<Entry>, after: seq<Entry>, i: nat)
    requires i < |entries| == |after| && after == entries[i := after[i]] && after[i].source == entries[i].source
    requires IndexOf(entries, entries[i].source) == Some(i)
    ensures IndexOf(after, entries[i].source) == Some(i)
  {
    var n := |entries| - 1;
    if i < n {
      RewrittenIsFound(entries[..n], after[..n], i);
    }
  }

  lemma EditedIncomeGoes(b: Books, id: nat, seen: Money, next: Money, date: real, i: nat)
    requires UpdateIncome(b, id, seen, next, date).Ok? && IndexOf(b.entries, Income(id)) == Some(i)
    requires RemoveIncome(b, id, seen).Ok? && RemoveIncome(UpdateIncome(b, id, seen, next, date).value, id, next).Ok?
    ensures RemoveIncome(UpdateIncome(b, id, seen, next, date).value, id, next) == RemoveIncome(b, id, seen)
  {
    var edited := UpdateIncome(b, id, seen, next, date).value;
    RewrittenCascades(b.entries, i, edited.entries[i], Income(id));
    IncomeMovedTwice(b.accounts, seen, next);
    assert edited.incomes - {id} == b.incomes - {id};
  }

  /** The same for an income, when both deletions find the money. */
  lemma IncomeEditLeavesNoTrace(b: Books, id: nat, seen: Money, next: Money, date: real)
    requires Inv(b) && UpdateIncome(b, id, seen, next, date).Ok? && RemoveIncome(b, id, seen).Ok?
    requires RemoveIncome(UpdateIncome(b, id, seen, next, date).value, id, next).Ok?
    ensures RemoveIncome(UpdateIncome(b, id, seen, next, date).value, id, next) == RemoveIncome(b, id, seen)
  {
    var i := ExplainedIndex(b, Income(id), IN, seen);
    EditedIncomeGoes(b, id, seen, next, date, i);
  }

  lemma IncomeMovedTwice(accounts: map<nat, Account>, seen: Money, next: Money)
    requires seen.account in accounts && next.account in accounts
    ensures Moved(Moved(Moved(accounts, seen.account, -seen.amount), next.account, next.amount), next.account, -next.amount)
         == Moved(accounts, seen.account, -seen.amount)
  {
  }

  // ---- what is in all accounts together -----------------------------------------------------------

  /** A transfer takes `amount` off one account, brings `received` to another, and moves no third. */
  lemma TransferMovesTwoAccounts(b: Books, from: nat, to: nat, amount: real, received: real, date: real)
    returns (after: Books)
    requires Transfer(b, from, to, amount, received, date).Ok?
    ensures Transfer(b, from, to, amount, received, date) == Ok(after) && after.accounts.Keys == b.accounts.Keys
    ensures forall a | a in b.accounts && a != from && a != to :: after.accounts[a] == b.accounts[a]
    ensures after.accounts[from].balance + after.accounts[to].balance
         == b.accounts[from].balance + b.accounts[to].balance - amount + received
    ensures after.accounts[from].balance >= 0.0
  {
    after := Transfer(b, from, to, amount, received, date).value;
  }

  lemma MovesCancel(accounts: map<nat, Account>, from: nat, to: nat, amount: real, received: real)
    requires from in accounts && to in accounts && from != to
    ensures Moved(Moved(Moved(Moved(accounts, from, -amount), to, received), to, -received), from, amount) == accounts
  {
    ThereAndBack(accounts, from, -amount, amount);
    ThereAndBack(Moved(accounts, from, -amount), to, received, -received);
  }

  /** Sending back what was received succeeds exactly when the money is there, and restores all balances;
      both pairs of ledger rows stay. */
  lemma TransferAndBack(b: Books, from: nat, to: nat, amount: real, received: real, date: real, later: real)
    requires Transfer(b, from, to, amount, received, date).Ok?
    ensures var middle := Transfer(b, from, to, amount, received, date).value;
            var r := Transfer(middle, to, from, received, amount, later);
            && (r.Ok? <==> b.accounts[to].balance >= 0.0)
            && (r.Ok? ==> r.value.accounts == b.accounts && |r.value.entries| == |b.entries| + 4)
  {
    MovesCancel(b.accounts, from, to, amount, received);
  }
}
