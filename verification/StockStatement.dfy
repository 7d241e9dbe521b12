/** The stock statement: an opening balance, the movements of a period by kind, a closing balance. */
module StockStatement {
  import opened Basics
  import opened Inventory
  import InventoryRuns

  /** Sum of a kind's quantities on an item, over dates before `cut`. */
  function QuantityBefore(ts: seq<Transaction>, item: nat, kind: Kind, cut: real): real {
    if ts == [] then 0.0
    else
      var last := ts[|ts| - 1];
      QuantityBefore(ts[..|ts| - 1], item, kind, cut)
      + (if last.item == item && last.kind == kind && last.date < cut then last.quantity else 0.0)
  }

  /** Sum of a kind's quantities on an item, over dates from `from` on and before `to`. */
  function QuantityWithin(ts: seq<Transaction>, item: nat, kind: Kind, from: real, to: real): real {
    if ts == [] then 0.0
    else
      var last := ts[|ts| - 1];
      QuantityWithin(ts[..|ts| - 1], item, kind, from, to)
      + (if last.item == item && last.kind == kind && from <= last.date < to then last.quantity else 0.0)
  }

  /** What the transactions before `cut` leave on an item, one by one. */
  function UnitsBefore(ts: seq<Transaction>, item: nat, cut: real): real {
    if ts == [] then 0.0
    else
      var last := ts[|ts| - 1];
      UnitsBefore(ts[..|ts| - 1], item, cut)
      + (if last.item == item && last.date < cut then EffectOfType(last.kind, last.quantity) else 0.0)
  }

  const KINDS := [PURCHASE, SALE, CONSUMPTION, ADJUSTMENT, TRANSFER_OUT, TRANSFER_IN]

  function EffectsBefore(ts: seq<Transaction>, item: nat, cut: real, k: nat): real
    requires k <= |KINDS|
  {
    if k == 0 then 0.0
    else EffectsBefore(ts, item, cut, k - 1) + EffectOfType(KINDS[k - 1], QuantityBefore(ts, item, KINDS[k - 1], cut))
  }

  datatype Statement = Statement(
    opening: real, purchased: real, sold: real, consumed: real, adjusted: real, transferredOut: real, transferredIn: real, closing: real)

  lemma SumOfKinds(ts: seq<Transaction>, item: nat, cut: real)
    ensures EffectsBefore(ts, item, cut, |KINDS|)
         == QuantityBefore(ts, item, PURCHASE, cut) - QuantityBefore(ts, item, SALE, cut) - QuantityBefore(ts, item, CONSUMPTION, cut)
            + QuantityBefore(ts, item, ADJUSTMENT, cut) - QuantityBefore(ts, item, TRANSFER_OUT, cut) + QuantityBefore(ts, item, TRANSFER_IN, cut)
  {
    assert EffectsBefore(ts, item, cut, 1) == QuantityBefore(ts, item, PURCHASE, cut);
    assert EffectsBefore(ts, item, cut, 2) == EffectsBefore(ts, item, cut, 1) - QuantityBefore(ts, item, SALE, cut);
    assert EffectsBefore(ts, item, cut, 3) == EffectsBefore(ts, item, cut, 2) - QuantityBefore(ts, item, CONSUMPTION, cut);
    assert EffectsBefore(ts, item, cut, 4) == EffectsBefore(ts, item, cut, 3) + QuantityBefore(ts, item, ADJUSTMENT, cut);
    assert EffectsBefore(ts, item, cut, 5) == EffectsBefore(ts, item, cut, 4) - QuantityBefore(ts, item, TRANSFER_OUT, cut);
  }

  /** Grouping by kind and signing the sums is signing the transactions one by one. */
  lemma {:induction false} GroupingLosesNothing(ts: seq<Transaction>, item: nat, cut: real)
    ensures EffectsBefore(ts, item, cut, |KINDS|) == UnitsBefore(ts, item, cut)
  {
    SumOfKinds(ts, item, cut);
    if ts != [] {
      var init := ts[..|ts| - 1];
      GroupingLosesNothing(init, item, cut);
      SumOfKinds(init, item, cut);
    }
  }

  lemma {:induction false} SplitAt(ts: seq<Transaction>, item: nat, kind: Kind, from: real, to: real)
    requires from <= to
    ensures QuantityBefore(ts, item, kind, to) == QuantityBefore(ts, item, kind, from) + QuantityWithin(ts, item, kind, from, to)
  {
    if ts != [] {
      SplitAt(ts[..|ts| - 1], item, kind, from, to);
    }
  }

  /** The opening balance is folded over the grouped sums before the period; the closing balance adds
      the sums of the period, each with its sign. */
  method ComputeItemStatement(ts: seq<Transaction>, item: nat, from: real, to: real) returns (s: Statement)
    requires from <= to
    ensures s.opening == UnitsBefore(ts, item, from)
    ensures s.closing == UnitsBefore(ts, item, to)
    ensures s.purchased == QuantityWithin(ts, item, PURCHASE, from, to) && s.sold == QuantityWithin(ts, item, SALE, from, to)
    ensures s.consumed == QuantityWithin(ts, item, CONSUMPTION, from, to) && s.adjusted == QuantityWithin(ts, item, ADJUSTMENT, from, to)
    ensures s.transferredOut == QuantityWithin(ts, item, TRANSFER_OUT, from, to)
    ensures s.transferredIn == QuantityWithin(ts, item, TRANSFER_IN, from, to)
  {
    var opening := 0.0;
    for k := 0 to |KINDS|
      invariant opening == EffectsBefore(ts, item, from, k)
    {
      opening := opening + EffectOfType(KINDS[k], QuantityBefore(ts, item, KINDS[k], from));
    }
    var purchased, sold := QuantityWithin(ts, item, PURCHASE, from, to), QuantityWithin(ts, item, SALE, from, to);
    var consumed, adjusted := QuantityWithin(ts, item, CONSUMPTION, from, to), QuantityWithin(ts, item, ADJUSTMENT, from, to);
    var out, in_ := QuantityWithin(ts, item, TRANSFER_OUT, from, to), QuantityWithin(ts, item, TRANSFER_IN, from, to);
    var netEffect := purchased - sold - consumed + adjusted - out + in_;
    GroupingLosesNothing(ts, item, from);
    GroupingLosesNothing(ts, item, to);
    SumOfKinds(ts, item, from);
    SumOfKinds(ts, item, to);
    forall kind: Kind
      ensures QuantityBefore(ts, item, kind, to) == QuantityBefore(ts, item, kind, from) + QuantityWithin(ts, item, kind, from, to)
    {
      SplitAt(ts, item, kind, from, to);
    }
    s := Statement(opening, purchased, sold, consumed, adjusted, out, in_, opening + netEffect);
  }

  lemma {:induction false} AllBefore(ts: seq<Transaction>, item: nat, cut: real)
    ensures (forall t | t in ts :: t.date < cut) ==> UnitsBefore(ts, item, cut) == UnitsOf(ts, item)
    ensures (forall t | t in ts :: t.date >= cut) ==> UnitsBefore(ts, item, cut) == 0.0
  {
    if ts != [] {
      AllBefore(ts[..|ts| - 1], item, cut);
    }
  }

  /** Consecutive statements join: one closes where the next opens; and a statement over all history
      opens at zero and closes at the stored quantity, in every reachable state. */
  lemma StatementsReplayTheStock(ops: seq<Op>, item: nat, from: real, to: real)
    requires (forall op | op in ops :: Admissible(op)) && item < |Run(EMPTY, ops).items|
    requires forall t | t in Run(EMPTY, ops).transactions :: from <= t.date < to
    ensures var s := Run(EMPTY, ops);
            UnitsBefore(s.transactions, item, from) == 0.0 && UnitsBefore(s.transactions, item, to) == s.items[item].quantity
  {
    var s := Run(EMPTY, ops);
    InventoryRuns.EmptyStoreIsSound();
    InventoryRuns.RunKeepsStock(EMPTY, ops);
    assert ItemOk(s.items[item], s.transactions, item);
    AllBefore(s.transactions, item, from);
    AllBefore(s.transactions, item, to);
  }
}
