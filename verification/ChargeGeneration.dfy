/** Generating all charges of a contract at once, one period per calendar month. */
module ChargeGeneration {
  import opened Basics
  import opened Calendar
  import opened RentCharges

  /** The charge of the period that starts at `cursor`: its natural length is one month, its daily
      rate is taken over that natural length, and the contract's end may cut it short. */
  function PeriodCharge(cursor: int, end: int, rent: real): Charge {
    var naturalEnd := AddOneMonth(cursor);
    AddOneMonthLength(cursor);
    var actualEnd := if naturalEnd < end then naturalEnd else end;
    Issue(cursor, actualEnd, rent / (naturalEnd - cursor) as real)
  }

  function Charges(start: int, end: int, rent: real): seq<Charge>
    decreases end - start
  {
    if start >= end then []
    else
      AddOneMonthLength(start);
      var first := PeriodCharge(start, end, rent);
      [first] + Charges(first.periodEnd, end, rent)
  }

  lemma UnfoldCharges(start: int, end: int, rent: real)
    requires start < end
    ensures var first := PeriodCharge(start, end, rent);
            && start < first.periodEnd <= end
            && Charges(start, end, rent) == [first] + Charges(first.periodEnd, end, rent)
  {
    AddOneMonthLength(start);
  }

  /** The loop of the rent engine: it ends because every month has at least 28 days. */
  method GenerateCharges(start: int, end: int, rent: real) returns (rows: seq<Charge>)
    ensures rows == Charges(start, end, rent)
  {
    rows := [];
    var cursor := start;
    while cursor < end
      invariant rows + Charges(cursor, end, rent) == Charges(start, end, rent)
      decreases end - cursor
    {
      AddOneMonthLength(cursor);
      var naturalEnd := AddOneMonth(cursor);
      var fullPeriodDays := naturalEnd - cursor;
      var actualEnd := if naturalEnd < end then naturalEnd else end;
      var dailyRate := rent / fullPeriodDays as real;
      var row := Issue(cursor, actualEnd, dailyRate);
      assert row == PeriodCharge(cursor, end, rent);
      UnfoldCharges(cursor, end, rent);
      rows := rows + [row];
      cursor := actualEnd;
    }
  }

  /** Contiguous, non-empty periods that together are exactly [start, end). */
  ghost predicate Tiles(cs: seq<Charge>, start: int, end: int) {
    && |cs| > 0
    && cs[0].periodStart == start
    && cs[|cs| - 1].periodEnd == end
    && (forall i | 0 <= i < |cs| :: cs[i].periodStart < cs[i].periodEnd)
    && (forall i | 0 < i < |cs| :: cs[i].periodStart == cs[i - 1].periodEnd)
  }

  /** A generated row: the natural period has the length of the calendar month containing its start,
      an uncut period bills the rent exactly and a cut one its share by days. */
  ghost predicate BillsOnePeriod(c: Charge, rent: real) {
    var full := MonthLength(MonthOf(c.periodStart));
    && c.days == c.periodEnd - c.periodStart
    && 0 < c.days <= full
    && c.dailyRate == rent / full as real
    && c.gross == c.net == c.remaining == c.dailyRate * c.days as real
    && (c.days == full ==> c.net == rent)
    && c.paid == c.discount == 0.0
    && c.status == PENDING
  }

  /** The first period: it bills one period, and the whole rent if it is not the last. */
  lemma FirstPeriodBills(start: int, end: int, rent: real)
    requires start < end
    ensures var first := PeriodCharge(start, end, rent);
            && first.periodStart == start < first.periodEnd <= end
            && BillsOnePeriod(first, rent) && (first.periodEnd < end ==> first.net == rent)
  {
    AddOneMonthLength(start);
    var full := MonthLength(MonthOf(start));
    assert rent / full as real * full as real == rent;
  }

  /** A period put in front of the tiling it leads into. */
  lemma PrependTile(first: Charge, cs: seq<Charge>, start: int, end: int)
    requires first.periodStart == start < first.periodEnd
    requires if cs == [] then first.periodEnd == end else Tiles(cs, first.periodEnd, end)
    ensures Tiles([first] + cs, start, end)
  {
  }

  lemma {:induction false} GeneratedChargesTile(start: int, end: int, rent: real)
    requires start < end
    ensures var cs := Charges(start, end, rent);
            && Tiles(cs, start, end)
            && (forall i | 0 <= i < |cs| :: BillsOnePeriod(cs[i], rent))
            && (forall i | 0 <= i < |cs| - 1 :: cs[i].net == rent)
    decreases end - start
  {
    FirstPeriodBills(start, end, rent);
    UnfoldCharges(start, end, rent);
    var first := PeriodCharge(start, end, rent);
    var rest := Charges(first.periodEnd, end, rent);
    if first.periodEnd < end {
      GeneratedChargesTile(first.periodEnd, end, rent);
    } else {
      assert rest == [];
    }
    PrependTile(first, rest, start, end);
  }

  ghost predicate AllCoherent(cs: seq<Charge>) {
    forall i | 0 <= i < |cs| :: Coherent(cs[i])
  }

  lemma RateHasSign(rent: real, days: int)
    requires days > 0
    ensures (rent / days as real > 0.0 <==> rent > 0.0) && (rent / days as real == 0.0 <==> rent == 0.0)
  {
  }

  ghost predicate NoneDead(cs: seq<Charge>) {
    forall i | 0 <= i < |cs| :: !Dead(cs[i])
  }

  lemma PeriodCoherent(c: Charge, rent: real)
    requires BillsOnePeriod(c, rent) && c.periodStart < c.periodEnd && rent >= 0.0
    ensures Coherent(c) && (Dead(c) <==> rent == 0.0)
  {
    RateHasSign(rent, MonthLength(MonthOf(c.periodStart)));
    IssueCoherent(c.periodStart, c.periodEnd, c.dailyRate);
    assert c == Issue(c.periodStart, c.periodEnd, c.dailyRate);
  }

  /** Generated rows start out coherent; they are all dead when the rent billed is zero, and otherwise
      none is. */
  lemma GeneratedChargesCoherent(start: int, end: int, rent: real)
    requires start < end && rent >= 0.0
    ensures AllCoherent(Charges(start, end, rent))
    ensures NoneDead(Charges(start, end, rent)) <==> rent > 0.0
  {
    var cs := Charges(start, end, rent);
    GeneratedChargesTile(start, end, rent);
    forall i | 0 <= i < |cs|
      ensures Coherent(cs[i]) && (Dead(cs[i]) <==> rent == 0.0)
    {
      PeriodCoherent(cs[i], rent);
    }
    assert NoneDead(cs) ==> !Dead(cs[0]);
  }

  /** Tiled periods are in strictly increasing order, so reading them by `periodStart` is reading
      them in the order they were created, and at most one of them can contain a day. */
  lemma {:induction false} TiledPeriodsIncrease(cs: seq<Charge>, start: int, end: int, i: nat, j: nat)
    requires Tiles(cs, start, end) && i < j < |cs|
    ensures cs[i].periodEnd <= cs[j].periodStart
    decreases j
  {
    if i + 1 < j {
      TiledPeriodsIncrease(cs, start, end, i, j - 1);
      assert cs[j - 1].periodStart < cs[j - 1].periodEnd == cs[j].periodStart;
    }
  }

  lemma TilesConcatenate(cs: seq<Charge>, ds: seq<Charge>, start: int, middle: int, end: int)
    requires Tiles(cs, start, middle) && Tiles(ds, middle, end)
    ensures Tiles(cs + ds, start, end)
  {
  }
}
