/** Small shared vocabulary: optional values, fallible operations, and sums of exact amounts. */
module Basics {

  datatype Option<+T> = None | Some(value: T)

  /** Outcome of an operation that the back end runs inside one database transaction:
      a new value, or the reason of the exception that rolled the transaction back. */
  datatype Result<+T> = Ok(value: T) | Err(reason: string)

  /** What the two checks made before a payment is written find: its date lies in the future; its
      currency has an exchange rate to the base currency. */
  datatype PaymentEntry = PaymentEntry(inFuture: bool, rateKnown: bool)

  function EntryRefusal(entry: PaymentEntry): Option<string> {
    if entry.inFuture then Some("payment date lies in the future")
    else if !entry.rateKnown then Some("no exchange rate is recorded")
    else None
  }

  predicate Accepted(entry: PaymentEntry) { EntryRefusal(entry).None? }

  function Min(a: real, b: real): real { if a <= b then a else b }

  function Max(a: real, b: real): real { if a >= b then a else b }

  function Abs(a: real): real { if a >= 0.0 then a else -a }

  /** Sum of the first `k` amounts. */
  function Prefix(rs: seq<real>, k: nat): real
    requires k <= |rs|
  {
    if k == 0 then 0.0 else Prefix(rs, k - 1) + rs[k - 1]
  }

  function Sum(rs: seq<real>): real { Prefix(rs, |rs|) }

  predicate NonNegative(rs: seq<real>) {
    forall i | 0 <= i < |rs| :: rs[i] >= 0.0
  }

  lemma {:induction false} PrefixMonotone(rs: seq<real>, j: nat, k: nat)
    requires NonNegative(rs) && j <= k <= |rs|
    ensures 0.0 <= Prefix(rs, j) <= Prefix(rs, k)
  {
    if k == 0 {
    } else if j == k {
      PrefixMonotone(rs, j - 1, k - 1);
    } else {
      PrefixMonotone(rs, j, k - 1);
    }
  }

  /** Two lists that agree up to `k` have the same first `k` amounts to sum. */
  lemma {:induction false} PrefixAgrees(rs: seq<real>, ss: seq<real>, k: nat)
    requires k <= |rs| && k <= |ss|
    requires forall i | 0 <= i < k :: rs[i] == ss[i]
    ensures Prefix(rs, k) == Prefix(ss, k)
  {
    if k > 0 {
      PrefixAgrees(rs, ss, k - 1);
    }
  }
}
