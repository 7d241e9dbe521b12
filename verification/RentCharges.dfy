/** One rent charge: the row of one billing period of a contract, and every way a row is rewritten. */
module RentCharges {
  import opened Basics

  datatype Status = PENDING | PARTIAL | PAID | OVERDUE | CANCELED

  datatype Charge = Charge(
    periodStart: int,
    periodEnd: int,
    days: int,
    dailyRate: real,
    gross: real,
    discount: real,
    net: real,
    paid: real,
    remaining: real,
    status: Status)

  predicate Open(c: Charge) {
    c.status.PENDING? || c.status.PARTIAL? || c.status.OVERDUE?
  }

  /** What an open row still asks for; a closed or canceled row asks for nothing. */
  function OpenAmount(c: Charge): real {
    if Open(c) then c.remaining else 0.0
  }

  /** The agreement between the six amount and status fields of a row. */
  ghost predicate Coherent(c: Charge) {
    && c.paid >= 0.0 && c.net >= 0.0 && c.dailyRate >= 0.0
    && c.remaining == Max(0.0, c.net - c.paid)
    && (c.status == PAID ==> c.remaining == 0.0)
    && (c.status == PARTIAL ==> c.paid > 0.0 && c.remaining > 0.0)
    && (c.status == PENDING || c.status == OVERDUE ==> c.paid == 0.0)
    && (Open(c) ==> c.days > 0)
  }

  /** Open although nothing is left to pay on it. */
  predicate Dead(c: Charge) { Open(c) && c.remaining == 0.0 }

  /** A coherent row is PAID exactly when nothing remains, unless it is dead; a dead row bills nothing
      and was never paid on. */
  lemma PaidExactlyUnlessDead(c: Charge)
    requires Coherent(c) && c.status != CANCELED
    ensures (c.status == PAID <==> c.remaining == 0.0) <==> !Dead(c)
    ensures c.status == PARTIAL <==> Open(c) && c.paid > 0.0
    ensures Dead(c) ==> c.net == 0.0 && c.paid == 0.0
  {
  }

  /** The status a row gets from what is left and what was paid, in discounts, repricing and proration. */
  function StatusOf(remaining: real, paid: real): Status {
    if remaining <= 0.0 then PAID else if paid > 0.0 then PARTIAL else PENDING
  }

  function Issue(periodStart: int, periodEnd: int, dailyRate: real): Charge {
    var days := periodEnd - periodStart;
    var net := dailyRate * days as real;
    Charge(periodStart, periodEnd, days, dailyRate, net, 0.0, net, 0.0, net, PENDING)
  }

  function Pay(c: Charge, applied: real): Charge {
    var left := c.remaining - applied;
    c.(paid := c.paid + applied, remaining := left, status := if left <= 0.0 then PAID else PARTIAL)
  }

  function Forgive(c: Charge, applied: real): Charge {
    var left := c.remaining - applied;
    c.(discount := c.discount + applied, net := c.net - applied, remaining := left,
       status := StatusOf(left, c.paid))
  }

  function WriteOff(c: Charge): Charge {
    c.(discount := c.discount + c.remaining, net := c.paid, remaining := 0.0, status := PAID)
  }

  /** A repriced period bills the whole new rent, however long it is. */
  function Reprice(c: Charge, newRent: real): Charge
    requires c.days != 0
  {
    var rate := newRent / c.days as real;
    var net := rate * c.days as real;
    var left := Max(0.0, net - c.paid);
    c.(dailyRate := rate, discount := c.gross - net, net := net, remaining := left,
       status := StatusOf(left, c.paid))
  }

  /** Cut a period short at `day` and bill it by the day; the stored discount is kept as it is. */
  function Prorate(c: Charge, day: int): Charge {
    var days := day - c.periodStart;
    var net := c.dailyRate * days as real;
    var left := Max(0.0, net - c.paid);
    c.(periodEnd := day, days := days, gross := net, net := net, remaining := left,
       status := StatusOf(left, c.paid))
  }

  function Cancel(c: Charge): Charge { c.(status := CANCELED) }

  lemma IssueCoherent(periodStart: int, periodEnd: int, dailyRate: real)
    requires periodStart < periodEnd && dailyRate >= 0.0
    ensures Coherent(Issue(periodStart, periodEnd, dailyRate))
    ensures Dead(Issue(periodStart, periodEnd, dailyRate)) <==> dailyRate == 0.0
  {
    var days := (periodEnd - periodStart) as real;
    assert days > 0.0;
    if dailyRate > 0.0 { assert dailyRate * days > 0.0; }
    if dailyRate == 0.0 { assert dailyRate * days == 0.0; }
  }

  /** What is applied to a row that is reached: never more than remains, and nothing only if nothing does. */
  predicate Applies(c: Charge, applied: real) {
    Open(c) && 0.0 <= applied <= c.remaining && (applied == 0.0 ==> c.remaining == 0.0)
  }

  lemma PayCoherent(c: Charge, applied: real)
    requires Coherent(c) && Applies(c, applied)
    ensures Coherent(Pay(c, applied)) && !Dead(Pay(c, applied))
  {
  }

  lemma ForgiveCoherent(c: Charge, applied: real)
    requires Coherent(c) && Applies(c, applied)
    ensures Coherent(Forgive(c, applied)) && !Dead(Forgive(c, applied))
  {
  }

  lemma RepriceCoherent(c: Charge, newRent: real)
    requires Coherent(c) && Open(c) && newRent >= 0.0
    ensures Coherent(Reprice(c, newRent)) && !Dead(Reprice(c, newRent)) && Reprice(c, newRent).net == newRent
  {
    assert newRent / c.days as real * c.days as real == newRent;
    assert newRent / c.days as real >= 0.0;
  }

  lemma ProrateCoherent(c: Charge, day: int)
    requires Coherent(c) && c.status != CANCELED && c.periodStart <= day
    ensures Coherent(Prorate(c, day)) && !Dead(Prorate(c, day))
  {
    var days := (day - c.periodStart) as real;
    assert c.dailyRate * days >= 0.0;
    if day == c.periodStart { assert c.dailyRate * days == 0.0; }
  }
}
