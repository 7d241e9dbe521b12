/** The two reports that read the ledger: the statement of one account over a range of days, and the
    balances of all accounts as of the end of a day. */
module AccountReports {
  import opened Basics
  import opened Ledger

  /** Net effect on an account of the ledger rows dated before an instant. */
  function NetBefore(entries: seq<Entry>, account: nat, instant: real): real {
    if entries == [] then 0.0
    else
      var last := entries[|entries| - 1];
      NetBefore(entries[..|entries| - 1], account, instant) + (if last.date < instant then EffectOn(last, account) else 0.0)
  }

  lemma {:induction false} NetBeforeEverything(entries: seq<Entry>, account: nat, instant: real)
    requires forall i | 0 <= i < |entries| && entries[i].account == account :: entries[i].date < instant
    ensures NetBefore(entries, account, instant) == Net(entries, account)
  {
    if entries != [] {
      NetBeforeEverything(entries[..|entries| - 1], account, instant);
    }
  }

  // ---- statement --------------------------------------------------------------------------------

  predicate InRange(e: Entry, account: nat, from: real, until: real) {
    e.account == account && from <= e.date < until
  }

  function Select(entries: seq<Entry>, account: nat, from: real, until: real): seq<Entry> {
    if entries == [] then []
    else
      var last := entries[|entries| - 1];
      Select(entries[..|entries| - 1], account, from, until) + (if InRange(last, account, from, until) then [last] else [])
  }

  /** Insert behind every row that is not dated later: a stable sort keeps creation order. */
  function InsertByDate(rows: seq<Entry>, e: Entry): seq<Entry> {
    if rows == [] || rows[|rows| - 1].date <= e.date then rows + [e]
    else InsertByDate(rows[..|rows| - 1], e) + [rows[|rows| - 1]]
  }

  /** Rows ordered by entry date, then by creation. */
  function ByDate(entries: seq<Entry>): seq<Entry> {
    if entries == [] then [] else InsertByDate(ByDate(entries[..|entries| - 1]), entries[|entries| - 1])
  }

  function TotalOf(rows: seq<Entry>, direction: Direction): real {
    if rows == [] then 0.0
    else
      var last := rows[|rows| - 1];
      TotalOf(rows[..|rows| - 1], direction) + (if last.direction == direction then last.amount else 0.0)
  }

  lemma {:induction false} InsertKeepsNet(rows: seq<Entry>, e: Entry, account: nat)
    ensures Net(InsertByDate(rows, e), account) == Net(rows, account) + EffectOn(e, account)
    ensures forall x | x in InsertByDate(rows, e) :: x in rows || x == e
  {
    if rows == [] || rows[|rows| - 1].date <= e.date {
      NetAppend(rows, e, account);
    } else {
      var init, last := rows[..|rows| - 1], rows[|rows| - 1];
      InsertKeepsNet(init, e, account);
      NetAppend(InsertByDate(init, e), last, account);
    }
  }

  lemma {:induction false} SortKeepsNet(entries: seq<Entry>, account: nat)
    ensures Net(ByDate(entries), account) == Net(entries, account)
    ensures forall x | x in ByDate(entries) :: x in entries
  {
    if entries != [] {
      var init, last := entries[..|entries| - 1], entries[|entries| - 1];
      SortKeepsNet(init, account);
      InsertKeepsNet(ByDate(init), last, account);
    }
  }

  ghost predicate DateOrdered(rows: seq<Entry>) {
    forall i, j | 0 <= i < j < |rows| :: rows[i].date <= rows[j].date
  }

  lemma {:induction false} InsertKeepsRows(rows: seq<Entry>, e: Entry)
    ensures multiset(InsertByDate(rows, e)) == multiset(rows) + multiset{e}
  {
    if !(rows == [] || rows[|rows| - 1].date <= e.date) {
      InsertKeepsRows(rows[..|rows| - 1], e);
      assert rows == rows[..|rows| - 1] + [rows[|rows| - 1]];
    }
  }

  lemma AppendInOrder(rows: seq<Entry>, e: Entry)
    requires DateOrdered(rows) && forall x | x in rows :: x.date <= e.date
    ensures DateOrdered(rows + [e])
  {
  }

  lemma {:induction false} InsertKeepsOrder(rows: seq<Entry>, e: Entry)
    requires DateOrdered(rows)
    ensures DateOrdered(InsertByDate(rows, e))
  {
    if rows == [] || rows[|rows| - 1].date <= e.date {
      AppendInOrder(rows, e);
    } else {
      var init, last := rows[..|rows| - 1], rows[|rows| - 1];
      InsertKeepsOrder(init, e);
      InsertKeepsNet(init, e, 0);
      AppendInOrder(InsertByDate(init, e), last);
    }
  }

  lemma {:induction false} ByDateSorts(entries: seq<Entry>)
    ensures DateOrdered(ByDate(entries)) && multiset(ByDate(entries)) == multiset(entries)
  {
    if entries != [] {
      var init, last := entries[..|entries| - 1], entries[|entries| - 1];
      assert entries == init + [last];
      ByDateSorts(init);
      InsertKeepsOrder(ByDate(init), last);
      InsertKeepsRows(ByDate(init), last);
    }
  }

  lemma {:induction false} SelectedNet(entries: seq<Entry>, account: nat, from: real, until: real)
    requires from <= until
    ensures Net(Select(entries, account, from, until), account)
         == NetBefore(entries, account, until) - NetBefore(entries, account, from)
    ensures forall x | x in Select(entries, account, from, until) :: InRange(x, account, from, until)
  {
    if entries != [] {
      var init, last := entries[..|entries| - 1], entries[|entries| - 1];
      SelectedNet(init, account, from, until);
      if InRange(last, account, from, until) {
        NetAppend(Select(init, account, from, until), last, account);
      } else {
        assert Select(entries, account, from, until) == Select(init, account, from, until);
      }
    }
  }

  datatype Line = Line(entry: Entry, balance: real)

  datatype Statement = Statement(opening: real, totalIn: real, totalOut: real, closing: real, lines: seq<Line>)

  /** Line `k` shows the balance after the first `k + 1` rows. */
  ghost predicate RunningBalances(lines: seq<Line>, rows: seq<Entry>, account: nat, opening: real) {
    && |lines| == |rows|
    && forall k | 0 <= k < |rows| ::
         lines[k].entry == rows[k] && lines[k].balance == opening + Net(rows[..k + 1], account)
  }

  lemma NetOfNext(rows: seq<Entry>, i: nat, account: nat)
    requires i < |rows| && rows[i].account == account
    ensures Net(rows[..i + 1], account) == Net(rows[..i], account) + Signed(rows[i])
  {
    assert rows[..i + 1][..i] == rows[..i];
  }

  lemma TotalsOfNext(rows: seq<Entry>, i: nat)
    requires i < |rows|
    ensures TotalOf(rows[..i + 1], IN) == TotalOf(rows[..i], IN) + (if rows[i].direction == IN then rows[i].amount else 0.0)
    ensures TotalOf(rows[..i + 1], OUT) == TotalOf(rows[..i], OUT) + (if rows[i].direction == OUT then rows[i].amount else 0.0)
    ensures rows[i] in rows
  {
    assert rows[..i + 1][..i] == rows[..i];
  }

  method AddUp(rows: seq<Entry>, account: nat, opening: real)
    returns (lines: seq<Line>, totalIn: real, totalOut: real, closing: real)
    requires forall x | x in rows :: x.account == account
    ensures RunningBalances(lines, rows, account, opening)
    ensures totalIn == TotalOf(rows, IN) && totalOut == TotalOf(rows, OUT)
    ensures closing == opening + totalIn - totalOut == opening + Net(rows, account)
  {
    lines, totalIn, totalOut, closing := [], 0.0, 0.0, opening;
    for i := 0 to |rows|
      invariant closing == opening + Net(rows[..i], account) == opening + totalIn - totalOut
      invariant totalIn == TotalOf(rows[..i], IN) && totalOut == TotalOf(rows[..i], OUT)
      invariant |lines| == i
      invariant forall k | 0 <= k < i ::
                  lines[k].entry == rows[k] && lines[k].balance == opening + Net(rows[..k + 1], account)
    {
      TotalsOfNext(rows, i);
      if rows[i].direction == IN {
        closing, totalIn := closing + rows[i].amount, totalIn + rows[i].amount;
      } else {
        closing, totalOut := closing - rows[i].amount, totalOut + rows[i].amount;
      }
      lines := lines + [Line(rows[i], closing)];
      NetOfNext(rows, i, account);
    }
    assert rows[..|rows|] == rows;
  }

  /** The statement of an account from the start of day `from` to the end of day `to`. */
  method GetStatement(entries: seq<Entry>, account: nat, from: int, to: int) returns (r: Result<Statement>)
    ensures r.Err? <==> to < from
    ensures r.Ok? ==>
              var s := r.value;
              var rows := ByDate(Select(entries, account, from as real, (to + 1) as real));
              && s.opening == NetBefore(entries, account, from as real)
              && s.closing == NetBefore(entries, account, (to + 1) as real)
              && s.totalIn == TotalOf(rows, IN) && s.totalOut == TotalOf(rows, OUT)
              && s.closing == s.opening + s.totalIn - s.totalOut
              && RunningBalances(s.lines, rows, account, s.opening)
  {
    if to < from {
      return Err("end is before start");
    }
    var start, until := from as real, (to + 1) as real;
    var selected := Select(entries, account, start, until);
    SelectedNet(entries, account, start, until);
    SortKeepsNet(selected, account);
    var opening := NetBefore(entries, account, start);
    var lines, totalIn, totalOut, closing := AddUp(ByDate(selected), account, opening);
    r := Ok(Statement(opening, totalIn, totalOut, closing, lines));
  }

  /** A range that covers every row of the account closes at the stored balance, and the as-of report
      past the last row shows it. */
  lemma ReportsShowStoredBalance(b: Books, account: nat, instant: real)
    requires BalancesMatch(b) && account in b.accounts
    requires forall i | 0 <= i < |b.entries| && b.entries[i].account == account :: b.entries[i].date < instant
    ensures NetBefore(b.entries, account, instant) == b.accounts[account].balance
  {
    NetBeforeEverything(b.entries, account, instant);
  }

  // ---- balances as of a day ---------------------------------------------------------------------

  /** One row of the aggregate query: sum of the amounts of an account in one direction. */
  datatype Group = Group(account: nat, direction: Direction, sum: real)

  function SumBefore(entries: seq<Entry>, account: nat, direction: Direction, instant: real): real {
    if entries == [] then 0.0
    else
      var last := entries[|entries| - 1];
      SumBefore(entries[..|entries| - 1], account, direction, instant)
      + (if last.account == account && last.direction == direction && last.date < instant then last.amount else 0.0)
  }

  /** What the database returns: each account and direction at most once, with its sum; a pair that is
      missing sums to zero. */
  ghost predicate IsGrouping(groups: seq<Group>, entries: seq<Entry>, instant: real) {
    && (forall i, j | 0 <= i < j < |groups| ::
          !(groups[i].account == groups[j].account && groups[i].direction == groups[j].direction))
    && (forall i | 0 <= i < |groups| :: groups[i].sum == SumBefore(entries, groups[i].account, groups[i].direction, instant))
    && (forall a: nat, d | SumBefore(entries, a, d, instant) != 0.0 ::
          exists i | 0 <= i < |groups| :: groups[i].account == a && groups[i].direction == d)
  }

  lemma {:induction false} NetIsInMinusOut(entries: seq<Entry>, account: nat, instant: real)
    ensures NetBefore(entries, account, instant)
         == SumBefore(entries, account, IN, instant) - SumBefore(entries, account, OUT, instant)
  {
    if entries != [] {
      NetIsInMinusOut(entries[..|entries| - 1], account, instant);
    }
  }

  datatype InOut = InOut(received: real, spent: real)

  function Lookup(groups: seq<Group>, account: nat, direction: Direction): real {
    if groups == [] then 0.0
    else if groups[|groups| - 1].account == account && groups[|groups| - 1].direction == direction then groups[|groups| - 1].sum
    else Lookup(groups[..|groups| - 1], account, direction)
  }

  lemma {:induction false} LookupFinds(groups: seq<Group>, account: nat, direction: Direction)
    ensures (exists i | 0 <= i < |groups| :: groups[i].account == account && groups[i].direction == direction
                                             && groups[i].sum == Lookup(groups, account, direction))
            || (Lookup(groups, account, direction) == 0.0
                && forall i | 0 <= i < |groups| :: !(groups[i].account == account && groups[i].direction == direction))
  {
    if groups != [] {
      var init := groups[..|groups| - 1];
      LookupFinds(init, account, direction);
      assert forall i | 0 <= i < |init| :: init[i] == groups[i];
    }
  }

  /** The balances of the listed accounts at the end of day `asOf`, from the grouped sums. */
  method BalancesAsOf(accounts: seq<nat>, groups: seq<Group>, ghost entries: seq<Entry>, asOf: int)
    returns (balances: map<nat, real>)
    requires IsGrouping(groups, entries, (asOf + 1) as real)
    ensures forall a :: a in balances <==> a in accounts
    ensures forall a | a in accounts :: balances[a] == NetBefore(entries, a, (asOf + 1) as real)
  {
    ghost var until := (asOf + 1) as real;
    var inOut: map<nat, InOut> := map[];
    for i := 0 to |groups|
      invariant forall a: nat ::
                  (if a in inOut then inOut[a] else InOut(0.0, 0.0))
                  == InOut(Lookup(groups[..i], a, IN), Lookup(groups[..i], a, OUT))
    {
      var g := groups[i];
      var io := if g.account in inOut then inOut[g.account] else InOut(0.0, 0.0);
      assert groups[..i + 1][..i] == groups[..i];
      inOut := inOut[g.account := if g.direction == IN then io.(received := g.sum) else io.(spent := g.sum)];
    }
    assert groups[..|groups|] == groups;
    forall a: nat
      ensures Lookup(groups, a, IN) - Lookup(groups, a, OUT) == NetBefore(entries, a, until)
    {
      NetIsInMinusOut(entries, a, until);
      LookupFinds(groups, a, IN);
      LookupFinds(groups, a, OUT);
    }
    balances := map[];
    for i := 0 to |accounts|
      invariant forall a :: a in balances <==> a in accounts[..i]
      invariant forall a | a in accounts[..i] :: balances[a] == NetBefore(entries, a, until)
    {
      var a := accounts[i];
      assert accounts[..i + 1] == accounts[..i] + [a];
      var io := if a in inOut then inOut[a] else InOut(0.0, 0.0);
      balances := balances[a := io.received - io.spent];
    }
    assert accounts[..|accounts|] == accounts;
  }

  /** Balance rows grouped by currency; different currencies are never added up. */
  datatype BalanceRow = BalanceRow(currency: nat, balance: real)

  /** The balances of the rows in a currency, in their places; a row in another currency stands for nothing. */
  ghost function BalancesIn(rows: seq<BalanceRow>, currency: nat): seq<real> {
    seq(|rows|, i requires 0 <= i < |rows| => if rows[i].currency == currency then rows[i].balance else 0.0)
  }

  method TotalsByCurrency(rows: seq<BalanceRow>) returns (totals: map<nat, real>)
    ensures forall c :: c in totals <==> exists i | 0 <= i < |rows| :: rows[i].currency == c
    ensures forall c | c in totals :: totals[c] == Sum(BalancesIn(rows, c))
  {
    totals := map[];
    for i := 0 to |rows|
      invariant forall c :: c in totals <==> exists k | 0 <= k < i :: rows[k].currency == c
      invariant forall c: nat :: (if c in totals then totals[c] else 0.0) == Prefix(BalancesIn(rows, c), i)
    {
      var c := rows[i].currency;
      totals := totals[c := (if c in totals then totals[c] else 0.0) + rows[i].balance];
    }
  }

  /** An account of the market as it is listed, with its stored balance. */
  datatype Listed = Listed(account: nat, currency: nat, stored: real)

  /** The overview: without a day it shows the stored balances, with one the ledger sums up to the end of
      that day; totals are per currency. On balanced books a day after the last ledger row shows the
      stored balances again. */
  method GetOverview(accounts: seq<Listed>, groups: seq<Group>, ghost entries: seq<Entry>, asOf: Option<int>)
    returns (rows: seq<BalanceRow>, totals: map<nat, real>)
    requires asOf.Some? ==> IsGrouping(groups, entries, (asOf.value + 1) as real)
    ensures |rows| == |accounts|
    ensures forall i | 0 <= i < |rows| ::
              && rows[i].currency == accounts[i].currency
              && rows[i].balance == if asOf.None? then accounts[i].stored else NetBefore(entries, accounts[i].account, (asOf.value + 1) as real)
    ensures forall c | c in totals :: totals[c] == Sum(BalancesIn(rows, c))
    ensures forall c :: c in totals <==> exists i | 0 <= i < |rows| :: rows[i].currency == c
    ensures forall i | 0 <= i < |rows| && accounts[i].stored == Net(entries, accounts[i].account) && NothingAfter(entries, asOf) ::
              rows[i].balance == accounts[i].stored
  {
    rows := [];
    var balances: map<nat, real> := map[];
    if asOf.Some? {
      var ids := seq(|accounts|, i requires 0 <= i < |accounts| => accounts[i].account);
      balances := BalancesAsOf(ids, groups, entries, asOf.value);
      forall k | 0 <= k < |accounts| ensures accounts[k].account in balances {
        assert ids[k] == accounts[k].account && ids[k] in ids;
      }
    }
    for i := 0 to |accounts|
      invariant |rows| == i
      invariant asOf.Some? ==>
                  forall k | 0 <= k < |accounts| ::
                    accounts[k].account in balances
                    && balances[accounts[k].account] == NetBefore(entries, accounts[k].account, (asOf.value + 1) as real)
      invariant forall k | 0 <= k < i ::
                  && rows[k].currency == accounts[k].currency
                  && rows[k].balance == if asOf.None? then accounts[k].stored else NetBefore(entries, accounts[k].account, (asOf.value + 1) as real)
    {
      var a := accounts[i];
      rows := rows + [BalanceRow(a.currency, if asOf.None? then a.stored else balances[a.account])];
    }
    totals := TotalsByCurrency(rows);
    if asOf.Some? && NothingAfter(entries, asOf) {
      forall i | 0 <= i < |rows| ensures NetBefore(entries, accounts[i].account, (asOf.value + 1) as real) == Net(entries, accounts[i].account) {
        NetBeforeEverything(entries, accounts[i].account, (asOf.value + 1) as real);
      }
    }
  }

  ghost predicate NothingAfter(entries: seq<Entry>, asOf: Option<int>) {
    asOf.Some? ==> forall e | e in entries :: e.date < (asOf.value + 1) as real
  }
}
