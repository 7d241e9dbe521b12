/** What each money operation asks for, said of its parameters alone: which accounts it moves, by how much
    and in which direction, when it goes through, and which rows it writes. Over every run a balance is the
    sum of what was asked of it. */
module LedgerRequests {
  import opened Basics
  import opened Ledger
  import opened LedgerRuns

  /** An amount onto an account, or off it if it is negative. */
  datatype Move = Move(account: nat, amount: real)

  /** The movements an operation stands for, given the rows it refers to. */
  function Asked(b: Books, op: Op): seq<Move> {
    match op
    case OpOpen(amount, _) => [Move(b.nextId, amount)]
    case OpSetActive(_, _) => []
    case OpTransfer(from, to, amount, received, _) => [Move(from, -amount), Move(to, received)]
    case OpAccountTransaction(account, withdrawal, amount, _) => [Move(account, if withdrawal then -amount else amount)]
    case OpCreateExpense(account, amount, _) => [Move(account, -amount)]
    case OpUpdateExpense(_, seen, next, _) => [Move(seen.account, seen.amount), Move(next.account, -next.amount)]
    case OpRemoveExpense(id) => if id in b.expenses then [Move(b.expenses[id].account, b.expenses[id].amount)] else []
    case OpCreateIncome(account, amount, _) => [Move(account, amount)]
    case OpUpdateIncome(_, seen, next, _) => [Move(seen.account, -seen.amount), Move(next.account, next.amount)]
    case OpRemoveIncome(_, seen) => [Move(seen.account, -seen.amount)]
    case OpLend(account, amount, _) => [Move(account, -amount)]
    case OpRepay(_, account, amount, _) => [Move(account, amount)]
    case OpRemoveLoan(loan) => if loan in b.loans then [Move(b.loans[loan].account, b.loans[loan].amount)] else []
    case OpPurchase(account, amount, _) => [Move(account, -amount)]
    case OpSale(account, amount, _) => [Move(account, amount)]
    case OpRentPayment(account, amount, _) => [Move(account, amount)]
    case OpElectricityPayment(account, amount, _) => [Move(account, amount)]
    case OpSecurityDeposit(account, amount, _) => [Move(account, amount)]
  }

  /** What a list of movements comes to on one account. */
  function MovedOn(moves: seq<Move>, account: nat): real {
    if moves == [] then 0.0
    else MovedOn(moves[..|moves| - 1], account) + (if moves[|moves| - 1].account == account then moves[|moves| - 1].amount else 0.0)
  }

  function BalanceOf(b: Books, account: nat): real { if account in b.accounts then b.accounts[account].balance else 0.0 }

  lemma MovedOnOne(m: Move, account: nat)
    ensures MovedOn([m], account) == if m.account == account then m.amount else 0.0
  {
    assert [m][..0] == [];
  }

  lemma MovedOnTwo(m: Move, n: Move, account: nat)
    ensures MovedOn([m, n], account)
         == (if m.account == account then m.amount else 0.0) + (if n.account == account then n.amount else 0.0)
  {
    assert [m, n][..1] == [m];
    MovedOnOne(m, account);
  }

  lemma AskedOn(b: Books, op: Op, account: nat)
    ensures var moves := Asked(b, op);
            && |moves| <= 2
            && MovedOn(moves, account)
               == (if |moves| > 0 && moves[0].account == account then moves[0].amount else 0.0)
                  + (if |moves| > 1 && moves[1].account == account then moves[1].amount else 0.0)
  {
    var moves := Asked(b, op);
    if |moves| == 1 {
      assert moves == [moves[0]];
      MovedOnOne(moves[0], account);
    } else if |moves| == 2 {
      assert moves == [moves[0], moves[1]];
      MovedOnTwo(moves[0], moves[1], account);
    }
  }

  ghost predicate MovesAsAsked(b: Books, b': Books, moves: seq<Move>, account: nat) {
    BalanceOf(b', account) == BalanceOf(b, account)
                              + (if |moves| > 0 && moves[0].account == account then moves[0].amount else 0.0)
                              + (if |moves| > 1 && moves[1].account == account then moves[1].amount else 0.0)
  }

  predicate Edits(op: Op) {
    op.OpUpdateExpense? || op.OpRemoveExpense? || op.OpUpdateIncome? || op.OpRemoveIncome? || op.OpRemoveLoan?
  }

  lemma EditMoves(b: Books, op: Op, account: nat)
    requires Edits(op) && Step(b, op).Ok? && EntriesOk(b)
    ensures MovesAsAsked(b, Step(b, op).value, Asked(b, op), account)
  {
  }

  lemma PlainMoves(b: Books, op: Op, account: nat)
    requires !Edits(op) && Step(b, op).Ok? && EntriesOk(b)
    ensures MovesAsAsked(b, Step(b, op).value, Asked(b, op), account)
  {
  }

  /** An operation that goes through moves every balance by exactly what it asks for, and no other. */
  lemma StepMovesWhatIsAsked(b: Books, op: Op, account: nat)
    requires Inv(b) && Step(b, op).Ok?
    ensures BalanceOf(Step(b, op).value, account) == BalanceOf(b, account) + MovedOn(Asked(b, op), account)
  {
    AskedOn(b, op, account);
    if Edits(op) { EditMoves(b, op, account); } else { PlainMoves(b, op, account); }
  }

  // ---- runs -----------------------------------------------------------------------------------------

  /** What the operations of a run that went through asked of an account. */
  function AskedOver(b: Books, ops: seq<Op>, account: nat): real {
    if ops == [] then 0.0
    else
      var before, last := Run(b, ops[..|ops| - 1]), ops[|ops| - 1];
      AskedOver(b, ops[..|ops| - 1], account) + (if Step(before, last).Ok? then MovedOn(Asked(before, last), account) else 0.0)
  }

  /** Over every serial run, each balance is what it was plus the sum of what was asked of it, deposits and
      receipts added, withdrawals and payments taken off; and it is the IN minus OUT sum of its rows. */
  lemma {:induction false} BalancesAreRequests(b: Books, ops: seq<Op>, account: nat)
    requires Inv(b) && forall op | op in ops :: Admissible(op)
    ensures Inv(Run(b, ops))
    ensures BalanceOf(Run(b, ops), account) == BalanceOf(b, account) + AskedOver(b, ops, account)
    ensures account in Run(b, ops).accounts ==> BalanceOf(Run(b, ops), account) == Net(Run(b, ops).entries, account)
  {
    if ops != [] {
      var init, last := ops[..|ops| - 1], ops[|ops| - 1];
      assert forall op | op in init :: op in ops;
      BalancesAreRequests(b, init, account);
      assert last in ops;
      var before := Run(b, init);
      if Step(before, last).Ok? {
        StepKeeps(before, last);
        StepMovesWhatIsAsked(before, last, account);
      }
    }
  }

  // ---- rows -----------------------------------------------------------------------------------------

  /** The row of a movement: IN for what comes, OUT for what goes, of the amount, on the account, and with the
      balance it leaves. */
  ghost predicate RowOf(e: Entry, m: Move, after: Books, id: nat, date: real) {
    && e.account == m.account && e.amount == Abs(m.amount) && e.date == date && e.source.id == id
    && (m.amount > 0.0 ==> e.direction == IN) && (m.amount < 0.0 ==> e.direction == OUT)
    && e.account in after.accounts && e.balanceAfter == after.accounts[e.account].balance
  }

  predicate KindFits(op: Op, i: nat, s: Source) {
    match op
    case OpOpen(_, _) => s.Opening?
    case OpTransfer(_, _, _, _, _) => if i == 0 then s.TransferOut? else s.TransferIn?
    case OpAccountTransaction(_, _, _, _) => s.AccountTransaction?
    case OpCreateExpense(_, _, _) => s.Expense?
    case OpCreateIncome(_, _, _) => s.Income?
    case OpLend(_, _, _) => s.Loan?
    case OpRepay(_, _, _, _) => s.Repayment?
    case OpPurchase(_, _, _) => s.Inventory?
    case OpSale(_, _, _) => s.Inventory?
    case OpRentPayment(_, _, _) => s.RentPayment?
    case OpElectricityPayment(_, _, _) => s.ElectricityPayment?
    case OpSecurityDeposit(_, _, _) => s.SecurityDeposit?
    case _ => false
  }

  ghost predicate RowsWritten(b: Books, op: Op, after: Books, date: real) {
    var moves, n := Asked(b, op), |b.entries|;
    && |after.entries| == n + |moves| && b.entries <= after.entries
    && forall i | 0 <= i < |moves| ::
         KindFits(op, i, after.entries[n + i].source) && RowOf(after.entries[n + i], moves[i], after, b.nextId, date)
  }

  lemma TransferWrites(b: Books, op: Op)
    requires Admissible(op) && Step(b, op).Ok? && op.OpTransfer?
    ensures RowsWritten(b, op, Step(b, op).value, op.date)
  {
    var after := Step(b, op).value;
    assert after.entries == b.entries + [after.entries[|b.entries|], after.entries[|b.entries| + 1]];
  }

  lemma OneRowIsAll(b: Books, op: Op, after: Books, e: Entry, date: real)
    requires |Asked(b, op)| == 1 && after.entries == b.entries + [e]
    requires KindFits(op, 0, e.source) && RowOf(e, Asked(b, op)[0], after, b.nextId, date)
    ensures RowsWritten(b, op, after, date)
  {
    assert after.entries[|b.entries|] == e;
  }

  lemma OpeningWrites(b: Books, op: Op)
    requires Step(b, op).Ok? && op.OpOpen? && op.amount != 0.0
    ensures RowsWritten(b, op, Step(b, op).value, op.date)
  {
    var after := Step(b, op).value;
    var e := Entry(Opening(b.nextId), b.nextId, if op.amount > 0.0 then IN else OUT, Abs(op.amount), op.amount, op.date);
    OneRowIsAll(b, op, after, e, op.date);
  }

  lemma OneRowWrites(b: Books, op: Op)
    requires Admissible(op) && Step(b, op).Ok? && !Edits(op) && !op.OpSetActive? && !op.OpOpen? && !op.OpTransfer?
    ensures RowsWritten(b, op, Step(b, op).value, op.date)
  {
    var after := Step(b, op).value;
    OneRowIsAll(b, op, after, after.entries[|b.entries|], op.date);
  }

  /** An operation that is no edit writes one row for each of its movements, after all rows there are; only an
      account opened at zero has none. */
  lemma StepWritesItsRows(b: Books, op: Op)
    requires Inv(b) && Admissible(op) && Step(b, op).Ok? && !Edits(op) && !op.OpSetActive? && !(op.OpOpen? && op.amount == 0.0)
    ensures RowsWritten(b, op, Step(b, op).value, op.date)
  {
    if op.OpTransfer? { TransferWrites(b, op); }
    else if op.OpOpen? { OpeningWrites(b, op); }
    else { OneRowWrites(b, op); }
  }

  /** The row an edit is about. */
  predicate IsRowOf(op: Op, s: Source) {
    match op
    case OpUpdateExpense(id, _, _, _) => s == Expense(id)
    case OpRemoveExpense(id) => s == Expense(id)
    case OpUpdateIncome(id, _, _, _) => s == Income(id)
    case OpRemoveIncome(id, _) => s == Income(id)
    case OpRemoveLoan(loan) => s == Loan(loan)
    case _ => false
  }

  lemma ExpenseEditRewrites(b: Books, op: Op) returns (i: nat)
    requires Inv(b) && Admissible(op) && Step(b, op).Ok? && op.OpUpdateExpense?
    ensures i < |b.entries| && IsRowOf(op, b.entries[i].source)
    ensures var after, e := Step(b, op).value, Step(b, op).value.entries[i];
            && after.entries == b.entries[i := e] && e.source == b.entries[i].source
            && RowOf(e, Move(op.next.account, -op.next.amount), after, op.id, op.date)
  {
    i := ExplainedIndex(b, Expense(op.id), OUT, op.seen);
  }

  lemma IncomeEditRewrites(b: Books, op: Op) returns (i: nat)
    requires Inv(b) && Admissible(op) && Step(b, op).Ok? && op.OpUpdateIncome?
    ensures i < |b.entries| && IsRowOf(op, b.entries[i].source)
    ensures var after, e := Step(b, op).value, Step(b, op).value.entries[i];
            && after.entries == b.entries[i := e] && e.source == b.entries[i].source
            && RowOf(e, Move(op.next.account, op.next.amount), after, op.id, op.date)
  {
    i := ExplainedIndex(b, Income(op.id), IN, op.seen);
  }

  /** The ledger without the row at place `i`. */
  ghost predicate RowTaken(b: Books, b': Books, i: nat, s: Source) {
    i < |b.entries| && b.entries[i].source == s && b'.entries == b.entries[..i] + b.entries[i + 1..]
  }

  /** A deletion takes out the one row of what is deleted and leaves the others in their order. */
  lemma ExpenseDeletionTakesItsRow(b: Books, id: nat) returns (i: nat)
    requires Inv(b) && Step(b, OpRemoveExpense(id)).Ok?
    ensures RowTaken(b, Step(b, OpRemoveExpense(id)).value, i, Expense(id))
    ensures Step(b, OpRemoveExpense(id)).value.expenses == b.expenses - {id}
  {
    i := ExplainedIndex(b, Expense(id), OUT, b.expenses[id]);
  }

  lemma IncomeDeletionTakesItsRow(b: Books, id: nat, seen: Money) returns (i: nat)
    requires Inv(b) && Step(b, OpRemoveIncome(id, seen)).Ok?
    ensures RowTaken(b, Step(b, OpRemoveIncome(id, seen)).value, i, Income(id))
    ensures Step(b, OpRemoveIncome(id, seen)).value.incomes == b.incomes - {id}
  {
    i := ExplainedIndex(b, Income(id), IN, seen);
  }

  lemma LoanDeletionTakesItsRow(b: Books, loan: nat) returns (i: nat)
    requires Inv(b) && Step(b, OpRemoveLoan(loan)).Ok?
    ensures RowTaken(b, Step(b, OpRemoveLoan(loan)).value, i, Loan(loan))
    ensures Step(b, OpRemoveLoan(loan)).value.loans == b.loans - {loan}
  {
    i := ExplainedIndex(b, Loan(loan), OUT, Money(b.loans[loan].account, b.loans[loan].amount));
  }

  ghost predicate FlagAsAsked(b: Books, op: Op, b': Books, account: nat) {
    account in b'.accounts ==>
      b'.accounts[account].active
      == if op.OpSetActive? && op.account == account then op.active
         else if op.OpOpen? && account == b.nextId then true
         else account in b.accounts && b.accounts[account].active
  }

  lemma EditLeavesFlags(b: Books, op: Op, account: nat)
    requires Edits(op) && Step(b, op).Ok?
    ensures FlagAsAsked(b, op, Step(b, op).value, account)
  {
  }

  lemma PlainLeavesFlags(b: Books, op: Op, account: nat)
    requires !Edits(op) && Step(b, op).Ok?
    ensures FlagAsAsked(b, op, Step(b, op).value, account)
  {
  }

  /** Accounts are opened active, and are switched on and off by the operation for it only. */
  lemma FlagsChangeAsAsked(b: Books, op: Op, account: nat)
    requires Step(b, op).Ok?
    ensures FlagAsAsked(b, op, Step(b, op).value, account)
  {
    if Edits(op) { EditLeavesFlags(b, op, account); } else { PlainLeavesFlags(b, op, account); }
  }

  // ---- when an operation goes through ---------------------------------------------------------------

  /** The account is there and active. */
  predicate Open(b: Books, account: nat) { account in b.accounts && b.accounts[account].active }

  /** The account holds the amount. */
  predicate Holds(b: Books, account: nat, amount: real) { account in b.accounts && b.accounts[account].balance >= amount }

  predicate HasRow(b: Books, s: Source) { exists i :: 0 <= i < |b.entries| && b.entries[i].source == s }

  predicate Allowed(b: Books, op: Op) {
    match op
    case OpOpen(_, _) => true
    case OpSetActive(account, _) => account in b.accounts
    case OpTransfer(from, to, amount, _, _) => from != to && Open(b, from) && Open(b, to) && Holds(b, from, amount)
    case OpAccountTransaction(account, withdrawal, amount, _) => Open(b, account) && (withdrawal ==> Holds(b, account, amount))
    case OpCreateExpense(account, amount, _) => Open(b, account) && Holds(b, account, amount)
    case OpUpdateExpense(id, seen, next, _) =>
      && Open(b, next.account) && id in b.expenses && b.expenses[id] == seen
      && b.accounts[next.account].balance + (if seen.account == next.account then seen.amount else 0.0) >= next.amount
    case OpRemoveExpense(id) => id in b.expenses
    case OpCreateIncome(account, _, _) => Open(b, account)
    case OpUpdateIncome(id, seen, next, _) =>
      && Open(b, next.account) && id in b.incomes && b.incomes[id] == seen
      && (if seen.account == next.account then next.amount >= seen.amount || Holds(b, seen.account, seen.amount - next.amount)
          else Holds(b, seen.account, seen.amount))
    case OpRemoveIncome(id, seen) => id in b.incomes && b.incomes[id] == seen && Holds(b, seen.account, seen.amount)
    case OpLend(account, amount, _) => Open(b, account) && Holds(b, account, amount)
    case OpRepay(loan, account, amount, _) =>
      loan in b.loans && b.loans[loan].remaining > 0.0 && amount <= b.loans[loan].remaining && Open(b, account)
    case OpRemoveLoan(loan) => loan in b.loans && b.loans[loan].remaining == b.loans[loan].amount
    case OpPurchase(account, amount, _) => Open(b, account) && Holds(b, account, amount)
    case OpSale(account, _, _) => Open(b, account)
    case OpRentPayment(account, _, _) => account in b.accounts
    case OpElectricityPayment(account, _, _) => account in b.accounts
    case OpSecurityDeposit(account, _, _) => account in b.accounts
  }

  lemma ExpenseEditGoesThroughWhen(b: Books, op: Op)
    requires Inv(b) && (op.OpUpdateExpense? || op.OpRemoveExpense?)
    ensures Step(b, op).Ok? <==> Allowed(b, op)
  {
    if op.id in b.expenses { var i := ExplainedIndex(b, Expense(op.id), OUT, b.expenses[op.id]); }
  }

  lemma IncomeEditGoesThroughWhen(b: Books, op: Op)
    requires Inv(b) && (op.OpUpdateIncome? || op.OpRemoveIncome?)
    ensures Step(b, op).Ok? <==> Allowed(b, op)
  {
    if op.id in b.incomes { var i := ExplainedIndex(b, Income(op.id), IN, b.incomes[op.id]); }
  }

  lemma LoanRemovalGoesThroughWhen(b: Books, loan: nat)
    requires Inv(b)
    ensures Step(b, OpRemoveLoan(loan)).Ok? <==> Allowed(b, OpRemoveLoan(loan))
  {
    if loan in b.loans { var i := ExplainedIndex(b, Loan(loan), OUT, Money(b.loans[loan].account, b.loans[loan].amount)); }
  }

  lemma PlainGoesThroughWhen(b: Books, op: Op)
    requires LoansOk(b) && Admissible(op) && !Edits(op)
    ensures Step(b, op).Ok? <==> Allowed(b, op)
  {
  }

  /** An operation goes through exactly when the accounts it needs are there and active, the money that leaves
      an account is in it, and the row it edits is as it was read. */
  lemma GoesThroughWhen(b: Books, op: Op)
    requires Inv(b) && Admissible(op)
    ensures Step(b, op).Ok? <==> Allowed(b, op)
  {
    if op.OpRemoveLoan? { LoanRemovalGoesThroughWhen(b, op.loan); }
    else if op.OpUpdateExpense? || op.OpRemoveExpense? { ExpenseEditGoesThroughWhen(b, op); }
    else if op.OpUpdateIncome? || op.OpRemoveIncome? { IncomeEditGoesThroughWhen(b, op); }
    else { PlainGoesThroughWhen(b, op); }
  }

  // ---- records --------------------------------------------------------------------------------------

  /** What has been repaid on a loan by the operations of a run that went through. */
  function RepaidOver(b: Books, ops: seq<Op>, loan: nat): real {
    if ops == [] then 0.0
    else
      var before, last := Run(b, ops[..|ops| - 1]), ops[|ops| - 1];
      RepaidOver(b, ops[..|ops| - 1], loan)
      + (if last.OpRepay? && last.loan == loan && Step(before, last).Ok? then last.amount else 0.0)
  }

  lemma StepChangesLoan(b: Books, op: Op, loan: nat)
    requires loan in b.loans && loan < b.nextId && loan in Apply(b, op).loans
    ensures var l, l' := b.loans[loan], Apply(b, op).loans[loan];
            && l'.account == l.account && l'.amount == l.amount
            && l'.repaid == l.repaid + (if op.OpRepay? && op.loan == loan && Step(b, op).Ok? then op.amount else 0.0)
  {
  }

  lemma DeletedLoanStaysDeleted(b: Books, op: Op, loan: nat)
    requires loan !in b.loans && loan < b.nextId
    ensures loan !in Apply(b, op).loans && loan < Apply(b, op).nextId
  {
  }

  lemma LoanIdStays(b: Books, op: Op, loan: nat)
    requires loan < b.nextId
    ensures loan < Apply(b, op).nextId
  {
  }

  /** Over every serial run a loan that is still there was lent as it was, and what counts as repaid on it has
      grown by exactly the repayments of it that went through. */
  lemma {:induction false} LoansAreRequests(b: Books, ops: seq<Op>, loan: nat)
    requires loan in b.loans && loan < b.nextId
    ensures loan < Run(b, ops).nextId
    ensures loan in Run(b, ops).loans ==>
              var l, l' := b.loans[loan], Run(b, ops).loans[loan];
              l'.account == l.account && l'.amount == l.amount && l'.repaid == l.repaid + RepaidOver(b, ops, loan)
  {
    if ops != [] {
      var init, last := ops[..|ops| - 1], ops[|ops| - 1];
      LoansAreRequests(b, init, loan);
      var before := Run(b, init);
      LoanIdStays(before, last, loan);
      if loan !in before.loans {
        DeletedLoanStaysDeleted(before, last, loan);
      } else if loan in Apply(before, last).loans {
        StepChangesLoan(before, last, loan);
      }
    }
  }
}
