/** Optimistic edits and deletes of miscellaneous incomes by any number of clients.

    A client reads an income outside any transaction, then finds the account it wants active, and commits
    later, in one transaction guarded by the amount and account it read. Nothing guards the account: it may
    have been deactivated by then. The other money operations look at their accounts before their
    transactions too. Reads, checks, commits and every other money operation interleave freely; each
    transaction is one atomic step. */
module IncomeConcurrency {
  import opened Basics
  import opened Ledger
  import opened LedgerRuns

  // ---- transactions after their account checks ----------------------------------------------------

  /** The books with the accounts of `found` counting as active. */
  function AsFound(b: Books, found: set<nat>): Books {
    b.(accounts := map a | a in b.accounts :: b.accounts[a].(active := b.accounts[a].active || a in found))
  }

  /** The balances of `b'` with the flags the accounts have in `b`. */
  function Reflagged(b': Books, b: Books): Books {
    b'.(accounts := map a | a in b'.accounts ::
          b'.accounts[a].(active := if a in b.accounts then b.accounts[a].active else b'.accounts[a].active))
  }

  /** The transaction of a request that found the accounts of `found` active before it. */
  function Late(b: Books, op: Op, found: set<nat>): Result<Books> {
    if op.OpSetActive? then Ledger.Step(b, op)
    else
      match Ledger.Step(AsFound(b, found), op)
      case Err(reason) => Err(reason)
      case Ok(b') => Ok(Reflagged(b', b))
  }

  function Committed(b: Books, op: Op, found: set<nat>): Books {
    match Late(b, op, found)
    case Ok(b') => b'
    case Err(_) => b
  }

  lemma FlagsCarryNoMoney(b: Books, found: set<nat>)
    requires Inv(b)
    ensures Inv(AsFound(b, found))
  {
  }

  lemma ReflaggingKeeps(b: Books, found: set<nat>, b': Books)
    requires Inv(b') && NoOverdraft(AsFound(b, found), b')
    ensures Inv(Reflagged(b', b)) && NoOverdraft(b, Reflagged(b', b))
  {
    var after := Reflagged(b', b);
    forall a | a in b.accounts
      ensures a in after.accounts && (after.accounts[a].balance >= b.accounts[a].balance || after.accounts[a].balance >= 0.0)
    {
      assert a in AsFound(b, found).accounts;
    }
  }

  /** A transaction keeps the books whatever its checks found, and when. */
  lemma LateKeeps(b: Books, op: Op, found: set<nat>)
    requires Inv(b) && Admissible(op) && Late(b, op, found).Ok?
    ensures Inv(Late(b, op, found).value) && NoOverdraft(b, Late(b, op, found).value)
  {
    if op.OpSetActive? {
      StepKeeps(b, op);
    } else {
      FlagsCarryNoMoney(b, found);
      StepKeeps(AsFound(b, found), op);
      ReflaggingKeeps(b, found, Ledger.Step(AsFound(b, found), op).value);
    }
  }

  // ---- clients --------------------------------------------------------------------------------------

  /** What a client holds between its read and its commit: the income as it was, and the account it has
      found active since. */
  datatype Snapshot = Snapshot(income: nat, seen: Money, into: Option<nat>)

  datatype System = System(books: Books, clients: map<nat, Snapshot>)

  /** `found` are the accounts that the request of another operation found active before its transaction. */
  datatype Step =
    | Read(client: nat, income: nat)
    | CheckAccount(client: nat, account: nat)
    | CommitEdit(client: nat, next: Money, date: real)
    | CommitDelete(client: nat)
    | Other(op: Op, found: set<nat>)

  predicate StepAdmissible(s: Step) {
    match s
    case CommitEdit(_, next, _) => next.amount > 0.0
    case Other(op, _) => Admissible(op) && !op.OpUpdateIncome? && !op.OpRemoveIncome?
    case _ => true
  }

  /** The guarded transaction a commit step runs; an edit is into the account that was checked. */
  function CommitOp(sys: System, s: Step): Option<Op> {
    if s.CommitEdit? && s.client in sys.clients && sys.clients[s.client].into == Some(s.next.account) then
      var held := sys.clients[s.client];
      Some(OpUpdateIncome(held.income, held.seen, s.next, s.date))
    else if s.CommitDelete? && s.client in sys.clients then
      var held := sys.clients[s.client];
      Some(OpRemoveIncome(held.income, held.seen))
    else None
  }

  /** The accounts the checks before a commit found active. */
  function FoundBy(s: Step): set<nat> { if s.CommitEdit? then {s.next.account} else {} }

  function Commit(sys: System, s: Step): Result<Books>
    requires CommitOp(sys, s).Some?
  {
    Late(sys.books, CommitOp(sys, s).value, FoundBy(s))
  }

  function Next(sys: System, s: Step): System {
    match s
    case Read(client, income) =>
      if income in sys.books.incomes
      then sys.(clients := sys.clients[client := Snapshot(income, sys.books.incomes[income], None)])
      else sys
    case CheckAccount(client, account) =>
      if client in sys.clients && Usable(sys.books, account)
      then sys.(clients := sys.clients[client := sys.clients[client].(into := Some(account))])
      else sys
    case Other(op, found) => sys.(books := Committed(sys.books, op, found))
    case _ =>
      match CommitOp(sys, s)
      case Some(op) => System(Committed(sys.books, op, FoundBy(s)), sys.clients - {s.client})
      case None => sys
  }

  function Execute(sys: System, steps: seq<Step>): System {
    if steps == [] then sys else Next(Execute(sys, steps[..|steps| - 1]), steps[|steps| - 1])
  }

  /** A snapshot is current when the row still has the amount and account that were read. */
  predicate Current(b: Books, held: Snapshot) {
    held.income in b.incomes && b.incomes[held.income] == held.seen
  }

  /** Clients hold ids of rows and accounts that are or were there. */
  ghost predicate KnownIds(sys: System) {
    forall c | c in sys.clients ::
      && sys.clients[c].income < sys.books.nextId
      && (sys.clients[c].into.Some? ==> sys.clients[c].into.value in sys.books.accounts)
  }

  ghost predicate SystemInv(sys: System) {
    Inv(sys.books) && KnownIds(sys)
  }

  /** Moving `amount` off one account and `next` onto another, and nothing else. */
  ghost predicate MovesExactly(before: map<nat, Account>, after: map<nat, Account>, off: Money, onto: Money) {
    && after.Keys == before.Keys
    && forall a | a in before ::
         after[a].balance == before[a].balance
                             - (if a == off.account then off.amount else 0.0)
                             + (if a == onto.account then onto.amount else 0.0)
  }

  lemma IdsGrow(b: Books, op: Op)
    ensures b.nextId <= Apply(b, op).nextId
  {
  }

  lemma AccountsStay(b: Books, op: Op)
    ensures b.accounts.Keys <= Apply(b, op).accounts.Keys
  {
  }

  /** Ids only grow, and no account disappears. */
  lemma NothingIsForgotten(b: Books, op: Op, found: set<nat>)
    ensures b.nextId <= Committed(b, op, found).nextId && b.accounts.Keys <= Committed(b, op, found).accounts.Keys
  {
    IdsGrow(b, op);
    AccountsStay(b, op);
    IdsGrow(AsFound(b, found), op);
    AccountsStay(AsFound(b, found), op);
  }

  lemma CommittedKeeps(b: Books, op: Op, found: set<nat>)
    requires Inv(b) && Admissible(op)
    ensures Inv(Committed(b, op, found)) && NoOverdraft(b, Committed(b, op, found))
  {
    if Late(b, op, found).Ok? { LateKeeps(b, op, found); }
  }

  lemma NextKeeps(sys: System, s: Step)
    requires SystemInv(sys) && StepAdmissible(s)
    ensures SystemInv(Next(sys, s))
    ensures NoOverdraft(sys.books, Next(sys, s).books)
  {
    match s {
      case Read(client, income) =>
      case CheckAccount(client, account) =>
      case Other(op, found) =>
        NothingIsForgotten(sys.books, op, found);
        CommittedKeeps(sys.books, op, found);
      case _ =>
        if CommitOp(sys, s).Some? {
          NothingIsForgotten(sys.books, CommitOp(sys, s).value, FoundBy(s));
          CommittedKeeps(sys.books, CommitOp(sys, s).value, FoundBy(s));
        }
    }
  }

  /** In every interleaving, the stored balances equal the ledger sums after each step, whoever commits and
      whatever account has been deactivated since it was checked. */
  lemma {:induction false} InterleavingsKeepBalances(sys: System, steps: seq<Step>)
    requires SystemInv(sys) && forall s | s in steps :: StepAdmissible(s)
    ensures SystemInv(Execute(sys, steps))
    ensures steps != [] ==> NoOverdraft(Execute(sys, steps[..|steps| - 1]).books, Execute(sys, steps).books)
  {
    if steps != [] {
      var init, last := steps[..|steps| - 1], steps[|steps| - 1];
      assert forall s | s in init :: s in steps;
      InterleavingsKeepBalances(sys, init);
      assert last in steps;
      NextKeeps(Execute(sys, init), last);
    }
  }

  lemma MovesUnderAnyFlags(b: Books, found: set<nat>, b': Books, off: Money, onto: Money)
    requires MovesExactly(AsFound(b, found).accounts, b'.accounts, off, onto)
    ensures MovesExactly(b.accounts, Reflagged(b', b).accounts, off, onto)
  {
    assert b'.accounts.Keys == AsFound(b, found).accounts.Keys == b.accounts.Keys;
    forall a | a in b.accounts
      ensures Reflagged(b', b).accounts[a].balance
              == b.accounts[a].balance - (if a == off.account then off.amount else 0.0) + (if a == onto.account then onto.amount else 0.0)
    {
      assert a in AsFound(b, found).accounts;
    }
  }

  lemma UpdateReverses(b: Books, held: Snapshot, next: Money, date: real) returns (b': Books)
    requires Inv(b) && next.amount > 0.0 && UpdateIncome(b, held.income, held.seen, next, date).Ok?
    ensures UpdateIncome(b, held.income, held.seen, next, date) == Ok(b')
    ensures Explains(b'.entries, Income(held.income), IN, next) && b'.incomes == b.incomes[held.income := next]
    ensures MovesExactly(b.accounts, b'.accounts, held.seen, next)
  {
    var i := ExplainedIndex(b, Income(held.income), IN, held.seen);
    UpdateIncomeMoves(b, held.income, held.seen, next, date, i);
    b' := UpdateIncome(b, held.income, held.seen, next, date).value;
    assert b'.entries[i].source == Income(held.income);
  }

  /** An edit that commits rewrote the row that explains the income, from what was seen to what is next. */
  lemma EditReverses(sys: System, s: Step)
    requires SystemInv(sys) && StepAdmissible(s) && s.CommitEdit? && CommitOp(sys, s).Some?
    requires Commit(sys, s).Ok?
    ensures var held := sys.clients[s.client];
            var after := Next(sys, s).books;
            && Explains(after.entries, Income(held.income), IN, s.next)
            && after.incomes == sys.books.incomes[held.income := s.next]
            && MovesExactly(sys.books.accounts, after.accounts, held.seen, s.next)
  {
    FlagsCarryNoMoney(sys.books, FoundBy(s));
    var b' := UpdateReverses(AsFound(sys.books, FoundBy(s)), sys.clients[s.client], s.next, s.date);
    MovesUnderAnyFlags(sys.books, FoundBy(s), b', sys.clients[s.client].seen, s.next);
  }

  lemma RemovalReverses(b: Books, held: Snapshot) returns (b': Books)
    requires Inv(b) && RemoveIncome(b, held.income, held.seen).Ok?
    ensures RemoveIncome(b, held.income, held.seen) == Ok(b')
    ensures forall i | 0 <= i < |b'.entries| :: b'.entries[i].source != Income(held.income)
    ensures b'.incomes == b.incomes - {held.income}
    ensures MovesExactly(b.accounts, b'.accounts, held.seen, Money(held.seen.account, 0.0))
  {
    var i := ExplainedIndex(b, Income(held.income), IN, held.seen);
    b' := RemoveIncome(b, held.income, held.seen).value;
  }

  lemma DeleteReverses(sys: System, s: Step)
    requires SystemInv(sys) && StepAdmissible(s) && s.CommitDelete? && CommitOp(sys, s).Some?
    requires Commit(sys, s).Ok?
    ensures var held := sys.clients[s.client];
            var after := Next(sys, s).books;
            && (forall i | 0 <= i < |after.entries| :: after.entries[i].source != Income(held.income))
            && after.incomes == sys.books.incomes - {held.income}
            && MovesExactly(sys.books.accounts, after.accounts, held.seen, Money(held.seen.account, 0.0))
  {
    FlagsCarryNoMoney(sys.books, {});
    var b' := RemovalReverses(AsFound(sys.books, {}), sys.clients[s.client]);
    MovesUnderAnyFlags(sys.books, {}, b', sys.clients[s.client].seen, Money(sys.clients[s.client].seen.account, 0.0));
  }

  /** An edit goes through exactly when its snapshot is current and the money that leaves an account is
      still there. Whether the account it goes into is still active plays no part. */
  lemma EditGoesThrough(sys: System, s: Step)
    requires SystemInv(sys) && StepAdmissible(s) && s.CommitEdit? && CommitOp(sys, s).Some?
    ensures var held := sys.clients[s.client];
            Commit(sys, s).Ok?
            <==> Current(sys.books, held) && held.seen.account in sys.books.accounts
                 && IncomeCovered(sys.books.accounts, held.seen, s.next)
  {
    var held := sys.clients[s.client];
    if Current(sys.books, held) {
      var i := ExplainedIndex(sys.books, Income(held.income), IN, held.seen);
    }
  }

  /** An account deactivated between the check and the commit still receives the income. */
  lemma DeactivatedAccountReceives(sys: System, s: Step) returns (middle: System, after: Books)
    requires SystemInv(sys) && StepAdmissible(s) && s.CommitEdit? && CommitOp(sys, s).Some?
    requires Commit(sys, s).Ok?
    ensures middle == Next(sys, Other(OpSetActive(s.next.account, false), {})) && after == Next(middle, s).books
    ensures !Usable(middle.books, s.next.account) && !Usable(after, s.next.account)
    ensures var held := sys.clients[s.client];
            && Explains(after.entries, Income(held.income), IN, s.next)
            && MovesExactly(middle.books.accounts, after.accounts, held.seen, s.next)
  {
    var off := Other(OpSetActive(s.next.account, false), {});
    middle := Next(sys, off);
    NextKeeps(sys, off);
    EditGoesThrough(sys, s);
    EditGoesThrough(middle, s);
    EditReverses(middle, s);
    after := Next(middle, s).books;
  }

  /** A commit that goes through found its snapshot current: the amount and account it takes back are
      exactly those of the income's ledger row at that moment, and the row then shows the new ones. */
  lemma CommitReversesTheLedgerRow(sys: System, s: Step)
    requires SystemInv(sys) && StepAdmissible(s) && CommitOp(sys, s).Some?
    requires Commit(sys, s).Ok?
    ensures var held := sys.clients[s.client];
            var after := Next(sys, s).books;
            && Current(sys.books, held)
            && Explains(sys.books.entries, Income(held.income), IN, held.seen)
            && (s.CommitEdit? ==>
                  && Explains(after.entries, Income(held.income), IN, s.next)
                  && after.incomes == sys.books.incomes[held.income := s.next]
                  && MovesExactly(sys.books.accounts, after.accounts, held.seen, s.next))
            && (s.CommitDelete? ==>
                  && (forall i | 0 <= i < |after.entries| :: after.entries[i].source != Income(held.income))
                  && after.incomes == sys.books.incomes - {held.income}
                  && MovesExactly(sys.books.accounts, after.accounts, held.seen, Money(held.seen.account, 0.0)))
  {
    var held := sys.clients[s.client];
    var i := ExplainedIndex(sys.books, Income(held.income), IN, held.seen);
    if s.CommitEdit? { EditReverses(sys, s); } else { DeleteReverses(sys, s); }
  }

  /** A commit whose snapshot is stale changes nothing in the books. */
  lemma StaleCommitChangesNothing(sys: System, s: Step)
    requires CommitOp(sys, s).Some? && !Current(sys.books, sys.clients[s.client])
    ensures Next(sys, s).books == sys.books
  {
  }

  /** Ids are never handed out twice, so no transaction brings a deleted income back. */
  lemma StepSparesAbsent(b: Books, op: Op, income: nat)
    requires income < b.nextId && income !in b.incomes
    ensures income !in Apply(b, op).incomes
  {
  }

  lemma AbsentStaysAbsent(b: Books, op: Op, found: set<nat>, income: nat)
    requires income < b.nextId && income !in b.incomes
    ensures income < Committed(b, op, found).nextId && income !in Committed(b, op, found).incomes
  {
    NothingIsForgotten(b, op, found);
    StepSparesAbsent(b, op, income);
    StepSparesAbsent(AsFound(b, found), op, income);
  }

  lemma {:induction false} DeletedStaysDeleted(sys: System, steps: seq<Step>, income: nat)
    requires income < sys.books.nextId && income !in sys.books.incomes
    ensures var after := Execute(sys, steps).books; income < after.nextId && income !in after.incomes
  {
    if steps != [] {
      var init, last := steps[..|steps| - 1], steps[|steps| - 1];
      DeletedStaysDeleted(sys, init, income);
      var middle := Execute(sys, init);
      match last {
        case Read(_, _) =>
        case CheckAccount(_, _) =>
        case Other(op, found) => AbsentStaysAbsent(middle.books, op, found, income);
        case _ =>
          if CommitOp(middle, last).Some? { AbsentStaysAbsent(middle.books, CommitOp(middle, last).value, FoundBy(last), income); }
      }
    }
  }

  lemma AfterDelete(sys: System, delete: Step)
    requires SystemInv(sys) && delete.CommitDelete? && CommitOp(sys, delete).Some?
    requires Commit(sys, delete).Ok?
    ensures var b := Next(sys, delete).books;
            sys.clients[delete.client].income < b.nextId && sys.clients[delete.client].income !in b.incomes
  {
  }

  /** After a delete has committed, no interleaving lets any client's edit or delete of that income
      touch the books again: the money is given back once. */
  lemma NoSecondReversal(sys: System, delete: Step, steps: seq<Step>, later: Step)
    requires SystemInv(sys) && delete.CommitDelete? && CommitOp(sys, delete).Some?
    requires Commit(sys, delete).Ok?
    requires var after := Execute(Next(sys, delete), steps);
             CommitOp(after, later).Some? && after.clients[later.client].income == sys.clients[delete.client].income
    ensures var after := Execute(Next(sys, delete), steps); Next(after, later).books == after.books
  {
    AfterDelete(sys, delete);
    var income := sys.clients[delete.client].income;
    DeletedStaysDeleted(Next(sys, delete), steps, income);
    StaleCommitChangesNothing(Execute(Next(sys, delete), steps), later);
  }
}
