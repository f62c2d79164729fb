/**
 Exact money. Stellar amounts carry seven decimals, so every amount is a whole
 number of stroops; the decimal arithmetic of the source is integer arithmetic here.
 */
module Money {
  import opened Basics

  datatype FeeStatus = Partial | Exact | Overpaid

  datatype Classification = Classification(
    status: FeeStatus, feePaid: bool, cumulative: nat, excess: nat, remaining: nat)

  /** Compares a cumulative total with the fee. What is owed and what was paid in
      excess always balance the books, and at most one of the two is positive. */
  function Classify(total: nat, fee: nat): (c: Classification)
    ensures c.cumulative == total
    ensures total + c.remaining == fee + c.excess
    ensures c.remaining == 0 || c.excess == 0
    ensures c.feePaid <==> c.remaining == 0
    ensures c.status.Exact? <==> c.remaining == 0 == c.excess
    ensures c.status.Overpaid? <==> c.excess > 0
  {
    var status := if total < fee then Partial else if total > fee then Overpaid else Exact;
    Classification(status, total >= fee, total,
                   if status.Overpaid? then total - fee else 0,
                   Max(0, fee - total))
  }
}
