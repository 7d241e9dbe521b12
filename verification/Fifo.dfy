/** Oldest-first consumption of an amount over a list of outstanding amounts.

    The rent engine (payments and debt discounts) and the electricity engine walk their open rows
    with a running remainder.  This module is the reference they are proved against: the share of
    each row is given in closed form, by where the amount ends among the cumulative outstanding
    totals. */
module Fifo {
  import opened Basics

  /** What row `i` receives when `amount` is spent oldest-first. */
  function Share(rs: seq<real>, amount: real, i: nat): real
    requires i < |rs|
  {
    Max(0.0, Min(rs[i], amount - Prefix(rs, i)))
  }

  /** Outstanding amounts left after spending `amount`. */
  function After(rs: seq<real>, amount: real): seq<real> {
    seq(|rs|, i requires 0 <= i < |rs| => rs[i] - Share(rs, amount, i))
  }

  function Shares(rs: seq<real>, amount: real): seq<real> {
    seq(|rs|, i requires 0 <= i < |rs| => Share(rs, amount, i))
  }

  /** The first `k` rows together receive the amount, or all they owe if that is less. */
  lemma {:induction false} SharesUpTo(rs: seq<real>, amount: real, k: nat)
    requires NonNegative(rs) && amount >= 0.0 && k <= |rs|
    ensures Prefix(Shares(rs, amount), k) == Min(amount, Prefix(rs, k))
  {
    if k > 0 {
      SharesUpTo(rs, amount, k - 1);
    }
  }

  /** Nothing of the amount is lost: when it does not exceed the debt, the shares add up to it. */
  lemma SharesAddUp(rs: seq<real>, amount: real)
    requires NonNegative(rs) && 0.0 <= amount <= Sum(rs)
    ensures Sum(Shares(rs, amount)) == amount
  {
    SharesUpTo(rs, amount, |rs|);
  }

  lemma {:induction false} AfterUpTo(rs: seq<real>, amount: real, k: nat)
    requires NonNegative(rs) && amount >= 0.0 && k <= |rs|
    ensures Prefix(After(rs, amount), k) == Max(0.0, Prefix(rs, k) - amount)
    ensures NonNegative(After(rs, amount))
  {
    if k > 0 {
      AfterUpTo(rs, amount, k - 1);
    }
  }

  /** What is left of a row is the difference of what is left up to it and past it. */
  lemma LeftAt(rs: seq<real>, amount: real, i: nat)
    requires NonNegative(rs) && amount >= 0.0 && i < |rs|
    ensures After(rs, amount)[i] == Max(0.0, Prefix(rs, i + 1) - amount) - Max(0.0, Prefix(rs, i) - amount)
  {
    AfterUpTo(rs, amount, i);
    AfterUpTo(rs, amount, i + 1);
  }

  lemma ComposesAt(rs: seq<real>, a: real, b: real, total: real, i: nat)
    requires NonNegative(rs) && a >= 0.0 && b >= 0.0 && total == a + b && i < |rs|
    ensures After(After(rs, a), b)[i] == After(rs, total)[i]
  {
    var mid := After(rs, a);
    AfterUpTo(rs, a, i);
    AfterUpTo(rs, a, i + 1);
    LeftAt(mid, b, i);
    LeftAt(rs, total, i);
  }

  /** Spending `a` and then `b` leaves every row exactly as spending `a + b` in one pass. */
  lemma Composes(rs: seq<real>, a: real, b: real)
    requires NonNegative(rs) && a >= 0.0 && b >= 0.0
    ensures After(After(rs, a), b) == After(rs, a + b)
  {
    var total := a + b;
    assert After(After(rs, a), b) == After(rs, total) by {
      forall i | 0 <= i < |rs| ensures After(After(rs, a), b)[i] == After(rs, total)[i] {
        ComposesAt(rs, a, b, total, i);
      }
    }
  }

  /** An exhausted prefix, at most one partly consumed row at `cut`, and an untouched suffix. */
  predicate CutAt(before: seq<real>, after: seq<real>, cut: nat) {
    && |after| == |before|
    && cut <= |before|
    && (forall i | 0 <= i < cut :: after[i] == 0.0)
    && (cut < |before| ==> 0.0 < after[cut] <= before[cut])
    && (forall i | cut < i < |before| :: after[i] == before[i])
  }

  lemma Shape(rs: seq<real>, amount: real) returns (cut: nat)
    requires NonNegative(rs) && amount >= 0.0
    ensures CutAt(rs, After(rs, amount), cut)
  {
    cut := 0;
    while cut < |rs| && Prefix(rs, cut + 1) <= amount
      invariant cut <= |rs| && Prefix(rs, cut) <= amount
      invariant forall i | 1 <= i <= cut :: Prefix(rs, i) <= amount
    {
      cut := cut + 1;
    }
    forall i | 0 <= i < |rs|
      ensures i < cut ==> After(rs, amount)[i] == 0.0
      ensures i == cut ==> 0.0 < After(rs, amount)[i] <= rs[i]
      ensures i > cut ==> After(rs, amount)[i] == rs[i]
    {
      assert Prefix(rs, i + 1) == Prefix(rs, i) + rs[i];
      if i > cut {
        PrefixMonotone(rs, cut + 1, i);
      } else {
        PrefixMonotone(rs, 0, i);
      }
    }
  }
}
