/** The stored balance is a cache of the ledger, over every serial run of all money operations. */
module LedgerRuns {
  import opened Basics
  import opened Ledger

  lemma ExplainsGrows(entries: seq<Entry>, e: Entry, source: Source, d: Direction, m: Money)
    requires Explains(entries, source, d, m)
    ensures Explains(entries + [e], source, d, m)
  {
    var i :| 0 <= i < |entries| && entries[i].source == source && entries[i].direction == d
             && entries[i].account == m.account && entries[i].amount == m.amount;
    assert (entries + [e])[i] == entries[i];
  }

  lemma ExplainsSurvivesUpdate(entries: seq<Entry>, k: nat, e: Entry, source: Source, d: Direction, m: Money)
    requires Explains(entries, source, d, m) && k < |entries| && entries[k].source != source
    ensures Explains(entries[k := e], source, d, m)
  {
    var i :| 0 <= i < |entries| && entries[i].source == source && entries[i].direction == d
             && entries[i].account == m.account && entries[i].amount == m.amount;
    assert entries[k := e][i] == entries[i];
  }

  lemma ExplainsSurvivesRemoval(entries: seq<Entry>, k: nat, source: Source, d: Direction, m: Money)
    requires Explains(entries, source, d, m) && k < |entries| && entries[k].source != source
    ensures Explains(RemoveAt(entries, k), source, d, m)
  {
    var i :| 0 <= i < |entries| && entries[i].source == source && entries[i].direction == d
             && entries[i].account == m.account && entries[i].amount == m.amount;
    assert RemoveAt(entries, k)[if i < k then i else i - 1] == entries[i];
  }

  /** The row found for an explained source is the row that explains it. */
  lemma ExplainedIndex(b: Books, source: Source, d: Direction, m: Money) returns (i: nat)
    requires EntriesOk(b) && Explains(b.entries, source, d, m)
    ensures IndexOf(b.entries, source) == Some(i) && i < |b.entries|
    ensures b.entries[i].source == source && b.entries[i].direction == d
    ensures b.entries[i].account == m.account && b.entries[i].amount == m.amount
  {
    i :| 0 <= i < |b.entries| && b.entries[i].source == source && b.entries[i].direction == d
         && b.entries[i].account == m.account && b.entries[i].amount == m.amount;
  }

  /** The books with a new ledger row, its signed amount moved on its account. */
  function Appended(b: Books, e: Entry, nextId: nat): Books
    requires e.account in b.accounts
  {
    b.(accounts := Moved(b.accounts, e.account, Signed(e)), entries := b.entries + [e], nextId := nextId)
  }

  /** Appending a row whose signed amount is moved on its account keeps the books. */
  lemma AppendKeeps(b: Books, e: Entry, nextId: nat)
    requires Inv(b) && e.account in b.accounts && e.amount >= 0.0
    requires b.nextId <= nextId && e.source.id < nextId
    requires forall i | 0 <= i < |b.entries| :: b.entries[i].source != e.source
    ensures var b' := Appended(b, e, nextId);
            Inv(b') && Explains(b'.entries, e.source, e.direction, Money(e.account, e.amount))
  {
    var entries := b.entries + [e];
    var accounts := Moved(b.accounts, e.account, Signed(e));
    forall a | a in accounts ensures accounts[a].balance == Net(entries, a) {
      NetAppend(b.entries, e, a);
    }
    forall id | id in b.expenses ensures Explains(entries, Expense(id), OUT, b.expenses[id]) {
      ExplainsGrows(b.entries, e, Expense(id), OUT, b.expenses[id]);
    }
    forall id | id in b.incomes ensures Explains(entries, Income(id), IN, b.incomes[id]) {
      ExplainsGrows(b.entries, e, Income(id), IN, b.incomes[id]);
    }
    forall id | id in b.loans
      ensures Explains(entries, Loan(id), OUT, Money(b.loans[id].account, b.loans[id].amount))
    {
      ExplainsGrows(b.entries, e, Loan(id), OUT, Money(b.loans[id].account, b.loans[id].amount));
    }
    assert entries[|b.entries|] == e;
  }

  lemma ReceiveKeeps(b: Books, account: nat, amount: real, source: Source, date: real)
    requires Inv(b) && amount >= 0.0 && source.id == b.nextId && Receive(b, account, amount, source, date).Ok?
    ensures var b' := Receive(b, account, amount, source, date).value;
            Inv(b') && NoOverdraft(b, b') && Explains(b'.entries, source, IN, Money(account, amount))
  {
    var e := Entry(source, account, IN, amount, b.accounts[account].balance + amount, date);
    assert Receive(b, account, amount, source, date).value == Appended(b, e, b.nextId + 1);
    AppendKeeps(b, e, b.nextId + 1);
  }

  lemma SpendKeeps(b: Books, account: nat, amount: real, source: Source, date: real)
    requires Inv(b) && amount >= 0.0 && source.id == b.nextId && Spend(b, account, amount, source, date).Ok?
    ensures var b' := Spend(b, account, amount, source, date).value;
            Inv(b') && NoOverdraft(b, b') && Explains(b'.entries, source, OUT, Money(account, amount))
  {
    var e := Entry(source, account, OUT, amount, b.accounts[account].balance - amount, date);
    assert Spend(b, account, amount, source, date).value == Appended(b, e, b.nextId + 1);
    AppendKeeps(b, e, b.nextId + 1);
  }

  lemma NewAccountKeeps(b: Books)
    requires Inv(b)
    ensures Inv(b.(accounts := b.accounts[b.nextId := Account(0.0, true)], nextId := b.nextId + 1))
  {
    NetOfStranger(b.entries, b.nextId);
  }

  /** An account created at zero, and then given its opening row. */
  lemma OpensInTwoSteps(b: Books, amount: real, date: real)
    requires Inv(b) && amount != 0.0
    ensures var id := b.nextId;
            var empty := b.(accounts := b.accounts[id := Account(0.0, true)], nextId := id + 1);
            var e := Entry(Opening(id), id, if amount > 0.0 then IN else OUT, Abs(amount), amount, date);
            OpenAccount(b, amount, date) == Appended(empty, e, id + 1)
  {
    var id := b.nextId;
    assert b.accounts[id := Account(0.0, true)][id := Account(amount, true)] == b.accounts[id := Account(amount, true)];
  }

  lemma OpeningLowersNothing(b: Books, amount: real, date: real)
    requires forall a | a in b.accounts :: a < b.nextId
    ensures NoOverdraft(b, OpenAccount(b, amount, date))
  {
  }

  lemma OpenKeeps(b: Books, amount: real, date: real)
    requires Inv(b)
    ensures Inv(OpenAccount(b, amount, date)) && NoOverdraft(b, OpenAccount(b, amount, date))
  {
    var id := b.nextId;
    var empty := b.(accounts := b.accounts[id := Account(0.0, true)], nextId := id + 1);
    assert Inv(empty) by { NewAccountKeeps(b); }
    OpeningLowersNothing(b, amount, date);
    if amount == 0.0 {
      assert OpenAccount(b, amount, date) == empty;
    } else {
      var e := Entry(Opening(id), id, if amount > 0.0 then IN else OUT, Abs(amount), amount, date);
      OpensInTwoSteps(b, amount, date);
      OpeningRowIsNew(b, e);
      AppendKeeps(empty, e, id + 1);
    }
  }

  lemma OpeningRowIsNew(b: Books, e: Entry)
    requires Inv(b) && e.source == Opening(b.nextId)
    ensures forall i | 0 <= i < |b.entries| :: b.entries[i].source != e.source
  {
  }

  /** A transfer is one row out and one row in. */
  lemma TransferIs(b: Books, from: nat, to: nat, amount: real, received: real, date: real) returns (debit: Entry,
                   credit: Entry)
    requires Transfer(b, from, to, amount, received, date).Ok?
    ensures from in b.accounts && to in b.accounts && b.accounts[from].balance >= amount
    ensures debit.account == from && debit.amount == amount && debit.direction == OUT && debit.source == TransferOut(b.nextId)
    ensures credit.account == to && credit.amount == received && credit.direction == IN && credit.source == TransferIn(b.nextId)
    ensures Transfer(b, from, to, amount, received, date).value
         == Appended(Appended(b, debit, b.nextId + 1), credit, b.nextId + 1)
  {
    var b' := Transfer(b, from, to, amount, received, date).value;
    debit, credit := b'.entries[|b.entries|], b'.entries[|b.entries| + 1];
    assert b'.entries == b.entries + [debit] + [credit];
  }

  lemma NewSources(b: Books, debit: Entry, credit: Entry)
    requires EntriesOk(b) && debit.source == TransferOut(b.nextId) && credit.source == TransferIn(b.nextId)
    ensures forall i | 0 <= i < |b.entries| :: b.entries[i].source != debit.source
    ensures forall i | 0 <= i < |b.entries + [debit]| :: (b.entries + [debit])[i].source != credit.source
  {
  }

  lemma TransferOverdrawsNothing(b: Books, from: nat, to: nat, amount: real, received: real, date: real)
    requires received >= 0.0 && Transfer(b, from, to, amount, received, date).Ok?
    ensures NoOverdraft(b, Transfer(b, from, to, amount, received, date).value)
  {
  }

  lemma TransferKeeps(b: Books, from: nat, to: nat, amount: real, received: real, date: real)
    requires Inv(b) && amount >= 0.0 && received >= 0.0 && Transfer(b, from, to, amount, received, date).Ok?
    ensures var b' := Transfer(b, from, to, amount, received, date).value; Inv(b') && NoOverdraft(b, b')
  {
    var debit, credit := TransferIs(b, from, to, amount, received, date);
    NewSources(b, debit, credit);
    AppendKeeps(b, debit, b.nextId + 1);
    var middle := Appended(b, debit, b.nextId + 1);
    AppendKeeps(middle, credit, b.nextId + 1);
    TransferOverdrawsNothing(b, from, to, amount, received, date);
  }

  lemma ExpenseRowKeeps(b: Books, id: nat, m: Money)
    requires Inv(b) && id < b.nextId && Explains(b.entries, Expense(id), OUT, m)
    ensures Inv(b.(expenses := b.expenses[id := m]))
  {
  }

  lemma CreateExpenseKeeps(b: Books, account: nat, amount: real, date: real)
    requires Inv(b) && amount > 0.0 && CreateExpense(b, account, amount, date).Ok?
    ensures var b' := CreateExpense(b, account, amount, date).value; Inv(b') && NoOverdraft(b, b')
  {
    SpendKeeps(b, account, amount, Expense(b.nextId), date);
    ExpenseRowKeeps(Spend(b, account, amount, Expense(b.nextId), date).value, b.nextId, Money(account, amount));
  }

  lemma CreateIncomeKeeps(b: Books, account: nat, amount: real, date: real)
    requires Inv(b) && amount > 0.0 && CreateIncome(b, account, amount, date).Ok?
    ensures var b' := CreateIncome(b, account, amount, date).value; Inv(b') && NoOverdraft(b, b')
  {
    ReceiveKeeps(b, account, amount, Income(b.nextId), date);
  }

  lemma LendKeeps(b: Books, account: nat, amount: real, date: real)
    requires Inv(b) && amount > 0.0 && Lend(b, account, amount, date).Ok?
    ensures var b' := Lend(b, account, amount, date).value; Inv(b') && NoOverdraft(b, b')
  {
    SpendKeeps(b, account, amount, Loan(b.nextId), date);
  }

  lemma LoanRowKeeps(b: Books, loan: nat, row: LoanRow)
    requires Inv(b) && loan in b.loans && row.account == b.loans[loan].account && row.amount == b.loans[loan].amount
    requires row.repaid >= 0.0 && row.remaining >= 0.0 && row.repaid + row.remaining == row.amount
    requires row.settled <==> row.remaining == 0.0
    ensures Inv(b.(loans := b.loans[loan := row]))
  {
  }

  lemma RepayKeeps(b: Books, loan: nat, account: nat, amount: real, date: real)
    requires Inv(b) && amount > 0.0 && Repay(b, loan, account, amount, date).Ok?
    ensures var b' := Repay(b, loan, account, amount, date).value; Inv(b') && NoOverdraft(b, b')
  {
    ReceiveKeeps(b, account, amount, Repayment(b.nextId), date);
    var received := Receive(b, account, amount, Repayment(b.nextId), date).value;
    LoanRowKeeps(received, loan, Repay(b, loan, account, amount, date).value.loans[loan]);
  }

  // ---- rewriting and removing rows --------------------------------------------------------------

  /** The balances after the effect of ledger row `i` is replaced by the effect of `e`. */
  ghost predicate Rebalanced(before: map<nat, Account>, after: map<nat, Account>, was: Entry, e: Entry) {
    && after.Keys == before.Keys
    && forall a | a in before :: after[a].balance == before[a].balance - EffectOn(was, a) + EffectOn(e, a)
  }

  /** The rows of `b'` other than the one ledger row `i` belongs to are rows of `b`. */
  ghost predicate OtherRowsFrom(b: Books, b': Books, source: Source) {
    && (forall id | id in b'.expenses && Expense(id) != source :: id in b.expenses && b'.expenses[id] == b.expenses[id])
    && (forall id | id in b'.incomes && Income(id) != source :: id in b.incomes && b'.incomes[id] == b.incomes[id])
    && (forall id | id in b'.loans && Loan(id) != source :: id in b.loans && b'.loans[id] == b.loans[id])
  }

  lemma RewriteBalances(b: Books, b': Books, i: nat, e: Entry)
    requires BalancesMatch(b) && EntriesOk(b) && i < |b.entries| && b'.entries == b.entries[i := e] && b'.nextId == b.nextId
    requires e.source == b.entries[i].source && e.account in b.accounts && e.amount >= 0.0
    requires Rebalanced(b.accounts, b'.accounts, b.entries[i], e)
    ensures BalancesMatch(b') && EntriesOk(b')
  {
    forall a | a in b'.accounts ensures b'.accounts[a].balance == Net(b'.entries, a) {
      NetUpdate(b.entries, i, e, a);
    }
  }

  lemma RewriteExplains(b: Books, b': Books, i: nat, e: Entry)
    requires RowsExplained(b) && i < |b.entries| && b'.entries == b.entries[i := e] && b'.nextId == b.nextId
    requires e.source == b.entries[i].source && OtherRowsFrom(b, b', e.source)
    requires forall id | id in b'.expenses && Expense(id) == e.source ::
               id < b.nextId && e.direction == OUT && b'.expenses[id] == Money(e.account, e.amount)
    requires forall id | id in b'.incomes && Income(id) == e.source ::
               id < b.nextId && e.direction == IN && b'.incomes[id] == Money(e.account, e.amount)
    requires forall id | id in b'.loans :: Loan(id) != e.source
    ensures RowsExplained(b')
  {
    var s, es := e.source, b'.entries;
    assert es[i] == e;
    forall id | id in b'.expenses ensures Explains(es, Expense(id), OUT, b'.expenses[id]) {
      if Expense(id) != s { ExplainsSurvivesUpdate(b.entries, i, e, Expense(id), OUT, b.expenses[id]); }
    }
    forall id | id in b'.incomes ensures Explains(es, Income(id), IN, b'.incomes[id]) {
      if Income(id) != s { ExplainsSurvivesUpdate(b.entries, i, e, Income(id), IN, b.incomes[id]); }
    }
    forall id | id in b'.loans
      ensures Explains(es, Loan(id), OUT, Money(b'.loans[id].account, b'.loans[id].amount))
    {
      ExplainsSurvivesUpdate(b.entries, i, e, Loan(id), OUT, Money(b.loans[id].account, b.loans[id].amount));
    }
  }

  lemma RemovalBalances(b: Books, b': Books, i: nat)
    requires BalancesMatch(b) && EntriesOk(b) && i < |b.entries| && b'.entries == RemoveAt(b.entries, i) && b'.nextId == b.nextId
    requires b'.accounts.Keys == b.accounts.Keys
    requires forall a | a in b.accounts :: b'.accounts[a].balance == b.accounts[a].balance - EffectOn(b.entries[i], a)
    ensures BalancesMatch(b') && EntriesOk(b')
  {
    forall a | a in b'.accounts ensures b'.accounts[a].balance == Net(b'.entries, a) {
      NetRemove(b.entries, i, a);
    }
  }

  lemma RemovalExplains(b: Books, b': Books, i: nat)
    requires RowsExplained(b) && i < |b.entries| && b'.entries == RemoveAt(b.entries, i) && b'.nextId == b.nextId
    requires OtherRowsFrom(b, b', b.entries[i].source)
    requires forall id | id in b'.expenses :: Expense(id) != b.entries[i].source
    requires forall id | id in b'.incomes :: Income(id) != b.entries[i].source
    requires forall id | id in b'.loans :: Loan(id) != b.entries[i].source
    ensures RowsExplained(b')
  {
    forall id | id in b'.expenses ensures Explains(b'.entries, Expense(id), OUT, b'.expenses[id]) {
      ExplainsSurvivesRemoval(b.entries, i, Expense(id), OUT, b.expenses[id]);
    }
    forall id | id in b'.incomes ensures Explains(b'.entries, Income(id), IN, b'.incomes[id]) {
      ExplainsSurvivesRemoval(b.entries, i, Income(id), IN, b.incomes[id]);
    }
    forall id | id in b'.loans
      ensures Explains(b'.entries, Loan(id), OUT, Money(b'.loans[id].account, b'.loans[id].amount))
    {
      ExplainsSurvivesRemoval(b.entries, i, Loan(id), OUT, Money(b.loans[id].account, b.loans[id].amount));
    }
  }

  /** An expense edit moves the balances by the old and the new effect of its ledger row. */
  lemma UpdateExpenseMoves(b: Books, id: nat, seen: Money, next: Money, date: real, i: nat)
    requires UpdateExpense(b, id, seen, next, date).Ok? && IndexOf(b.entries, Expense(id)) == Some(i)
    requires b.entries[i].direction == OUT && b.entries[i].account == seen.account && b.entries[i].amount == seen.amount
    requires seen.amount >= 0.0 && next.amount > 0.0
    ensures var b' := UpdateExpense(b, id, seen, next, date).value;
            && b' == b.(accounts := b'.accounts, expenses := b.expenses[id := next], entries := b.entries[i := b'.entries[i]])
            && b'.entries[i].source == Expense(id) && b'.entries[i].direction == OUT
            && b'.entries[i].account == next.account && b'.entries[i].amount == next.amount
            && Rebalanced(b.accounts, b'.accounts, b.entries[i], b'.entries[i])
            && NoOverdraft(b, b')
  {
  }

  lemma UpdateIncomeMoves(b: Books, id: nat, seen: Money, next: Money, date: real, i: nat)
    requires UpdateIncome(b, id, seen, next, date).Ok? && IndexOf(b.entries, Income(id)) == Some(i)
    requires b.entries[i].direction == IN && b.entries[i].account == seen.account && b.entries[i].amount == seen.amount
    requires seen.amount >= 0.0 && next.amount > 0.0
    ensures var b' := UpdateIncome(b, id, seen, next, date).value;
            && b' == b.(accounts := b'.accounts, incomes := b.incomes[id := next], entries := b.entries[i := b'.entries[i]])
            && b'.entries[i].source == Income(id) && b'.entries[i].direction == IN
            && b'.entries[i].account == next.account && b'.entries[i].amount == next.amount
            && Rebalanced(b.accounts, b'.accounts, b.entries[i], b'.entries[i])
            && NoOverdraft(b, b')
  {
  }

  lemma UpdateExpenseKeeps(b: Books, id: nat, seen: Money, next: Money, date: real)
    requires Inv(b) && next.amount > 0.0 && UpdateExpense(b, id, seen, next, date).Ok?
    ensures var b' := UpdateExpense(b, id, seen, next, date).value; Inv(b') && NoOverdraft(b, b')
  {
    var b' := UpdateExpense(b, id, seen, next, date).value;
    var i := ExplainedIndex(b, Expense(id), OUT, seen);
    UpdateExpenseMoves(b, id, seen, next, date, i);
    RewriteBalances(b, b', i, b'.entries[i]);
    RewriteExplains(b, b', i, b'.entries[i]);
  }

  lemma UpdateIncomeKeeps(b: Books, id: nat, seen: Money, next: Money, date: real)
    requires Inv(b) && next.amount > 0.0 && UpdateIncome(b, id, seen, next, date).Ok?
    ensures var b' := UpdateIncome(b, id, seen, next, date).value; Inv(b') && NoOverdraft(b, b')
  {
    var b' := UpdateIncome(b, id, seen, next, date).value;
    var i := ExplainedIndex(b, Income(id), IN, seen);
    UpdateIncomeMoves(b, id, seen, next, date, i);
    RewriteBalances(b, b', i, b'.entries[i]);
    RewriteExplains(b, b', i, b'.entries[i]);
  }

  lemma RemoveExpenseKeeps(b: Books, id: nat)
    requires Inv(b) && RemoveExpense(b, id).Ok?
    ensures var b' := RemoveExpense(b, id).value; Inv(b') && NoOverdraft(b, b')
  {
    var b' := RemoveExpense(b, id).value;
    var i := ExplainedIndex(b, Expense(id), OUT, b.expenses[id]);
    assert b.entries[i].amount >= 0.0;
    RemovalBalances(b, b', i);
    RemovalExplains(b, b', i);
  }

  lemma RemoveIncomeKeeps(b: Books, id: nat, seen: Money)
    requires Inv(b) && RemoveIncome(b, id, seen).Ok?
    ensures var b' := RemoveIncome(b, id, seen).value; Inv(b') && NoOverdraft(b, b')
  {
    var b' := RemoveIncome(b, id, seen).value;
    var i := ExplainedIndex(b, Income(id), IN, seen);
    RemovalBalances(b, b', i);
    RemovalExplains(b, b', i);
  }

  lemma RemoveLoanKeeps(b: Books, loan: nat)
    requires Inv(b) && RemoveLoan(b, loan).Ok?
    ensures var b' := RemoveLoan(b, loan).value; Inv(b') && NoOverdraft(b, b')
  {
    var b' := RemoveLoan(b, loan).value;
    var i := ExplainedIndex(b, Loan(loan), OUT, Money(b.loans[loan].account, b.loans[loan].amount));
    assert b.entries[i].amount >= 0.0;
    RemovalBalances(b, b', i);
    RemovalExplains(b, b', i);
  }

  // ---- every step and every run -----------------------------------------------------------------

  lemma EditStepKeeps(b: Books, op: Op)
    requires Inv(b) && Admissible(op) && Step(b, op).Ok?
    requires op.OpUpdateExpense? || op.OpRemoveExpense? || op.OpUpdateIncome? || op.OpRemoveIncome? || op.OpRemoveLoan?
    ensures Inv(Step(b, op).value) && NoOverdraft(b, Step(b, op).value)
  {
    match op {
      case OpUpdateExpense(id, seen, next, date) => UpdateExpenseKeeps(b, id, seen, next, date);
      case OpRemoveExpense(id) => RemoveExpenseKeeps(b, id);
      case OpUpdateIncome(id, seen, next, date) => UpdateIncomeKeeps(b, id, seen, next, date);
      case OpRemoveIncome(id, seen) => RemoveIncomeKeeps(b, id, seen);
      case OpRemoveLoan(loan) => RemoveLoanKeeps(b, loan);
    }
  }

  lemma CreateStepKeeps(b: Books, op: Op)
    requires Inv(b) && Admissible(op) && Step(b, op).Ok?
    requires op.OpCreateExpense? || op.OpCreateIncome? || op.OpLend? || op.OpRepay?
    ensures Inv(Step(b, op).value) && NoOverdraft(b, Step(b, op).value)
  {
    match op {
      case OpCreateExpense(account, amount, date) => CreateExpenseKeeps(b, account, amount, date);
      case OpCreateIncome(account, amount, date) => CreateIncomeKeeps(b, account, amount, date);
      case OpLend(account, amount, date) => LendKeeps(b, account, amount, date);
      case OpRepay(loan, account, amount, date) => RepayKeeps(b, loan, account, amount, date);
    }
  }

  lemma MoveStepKeeps(b: Books, op: Op)
    requires Inv(b) && Admissible(op) && Step(b, op).Ok?
    requires op.OpAccountTransaction? || op.OpPurchase? || op.OpSale? || op.OpRentPayment? || op.OpElectricityPayment?
             || op.OpSecurityDeposit?
    ensures Inv(Step(b, op).value) && NoOverdraft(b, Step(b, op).value)
  {
    match op {
      case OpAccountTransaction(account, withdrawal, amount, date) =>
        if withdrawal { SpendKeeps(b, account, amount, AccountTransaction(b.nextId), date); }
        else { ReceiveKeeps(b, account, amount, AccountTransaction(b.nextId), date); }
      case OpPurchase(account, amount, date) => SpendKeeps(b, account, amount, Inventory(b.nextId), date);
      case OpSale(account, amount, date) => ReceiveKeeps(b, account, amount, Inventory(b.nextId), date);
      case OpRentPayment(account, amount, date) => ReceiveKeeps(b, account, amount, RentPayment(b.nextId), date);
      case OpElectricityPayment(account, amount, date) => ReceiveKeeps(b, account, amount, ElectricityPayment(b.nextId), date);
      case OpSecurityDeposit(account, amount, date) => ReceiveKeeps(b, account, amount, SecurityDeposit(b.nextId), date);
    }
  }

  lemma StepKeeps(b: Books, op: Op)
    requires Inv(b) && Admissible(op) && Step(b, op).Ok?
    ensures Inv(Step(b, op).value) && NoOverdraft(b, Step(b, op).value)
  {
    match op {
      case OpOpen(amount, date) => OpenKeeps(b, amount, date);
      case OpSetActive(account, active) => SetActiveKeeps(b, account, active);
      case OpTransfer(from, to, amount, received, date) => TransferKeeps(b, from, to, amount, received, date);
      case OpCreateExpense(_, _, _) => CreateStepKeeps(b, op);
      case OpCreateIncome(_, _, _) => CreateStepKeeps(b, op);
      case OpLend(_, _, _) => CreateStepKeeps(b, op);
      case OpRepay(_, _, _, _) => CreateStepKeeps(b, op);
      case OpUpdateExpense(_, _, _, _) => EditStepKeeps(b, op);
      case OpRemoveExpense(_) => EditStepKeeps(b, op);
      case OpUpdateIncome(_, _, _, _) => EditStepKeeps(b, op);
      case OpRemoveIncome(_, _) => EditStepKeeps(b, op);
      case OpRemoveLoan(_) => EditStepKeeps(b, op);
      case _ => MoveStepKeeps(b, op);
    }
  }

  lemma SetActiveKeeps(b: Books, account: nat, active: bool)
    requires Inv(b) && SetActive(b, account, active).Ok?
    ensures var b' := SetActive(b, account, active).value; Inv(b') && NoOverdraft(b, b')
  {
  }

  lemma EmptyBooksBalance()
    ensures Inv(EMPTY)
  {
  }

  /** Over every serial run of all the money operations, each stored balance is the IN sum minus the
      OUT sum of the account's ledger rows, and no step overdraws an account. */
  lemma {:induction false} RunKeepsBalances(b: Books, ops: seq<Op>)
    requires Inv(b) && forall op | op in ops :: Admissible(op)
    ensures Inv(Run(b, ops))
    ensures ops != [] ==> NoOverdraft(Run(b, ops[..|ops| - 1]), Run(b, ops))
  {
    if ops != [] {
      var init, last := ops[..|ops| - 1], ops[|ops| - 1];
      assert forall op | op in init :: op in ops;
      RunKeepsBalances(b, init);
      assert last in ops;
      if Step(Run(b, init), last).Ok? {
        StepKeeps(Run(b, init), last);
      }
    }
  }
}
