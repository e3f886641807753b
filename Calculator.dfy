/**
 * The domain calculator and alert classifier of the server: planned and actual
 * amounts, variance and its Profit/Loss/Balanced status, reorder level and
 * quantity, and the two priority ladders that decide which alert a write raises.
 * Amounts are exact reals; the server's IEEE-754 doubles are not modelled.
 */
module Calculator {
  import opened Seqs

  /** Status of a recorded usage. Loss means the actual cost exceeded the plan. */
  datatype UsageStatus = Profit | Loss | Balanced

  /** Priority of an alert, in increasing urgency. */
  datatype Priority = Low | Medium | High | Urgent

  function Rank(p: Priority): nat {
    match p
    case Low => 0
    case Medium => 1
    case High => 2
    case Urgent => 3
  }

  function Abs(x: real): (r: real)
    ensures r >= 0.0 && (r == x || r == -x)
  {
    if x < 0.0 then -x else x
  }

  /**
   * A planned or actual amount: quantity times rate. Nothing is charged when
   * either factor is zero, dividing by the rate gives the quantity back, and
   * non-negative factors give a non-negative amount.
   */
  function Amount(qty: real, rate: real): (r: real)
    ensures (qty == 0.0 || rate == 0.0) ==> r == 0.0
    ensures rate != 0.0 ==> r / rate == qty
    ensures qty >= 0.0 && rate >= 0.0 ==> r >= 0.0
  {
    qty * rate
  }

  /** Actual amount minus planned amount: the plan plus the variance is the actual amount, and it is positive exactly on overspend. */
  function Variance(actualAmount: real, plannedAmount: real): (r: real)
    ensures plannedAmount + r == actualAmount
    ensures r > 0.0 <==> actualAmount > plannedAmount
    ensures r < 0.0 <==> actualAmount < plannedAmount
  {
    actualAmount - plannedAmount
  }

  /** The status stored with a usage: exactly one status, chosen by the sign of the variance. */
  function StatusOf(variance: real): (s: UsageStatus)
    ensures s == Loss <==> variance > 0.0
    ensures s == Profit <==> variance < 0.0
    ensures s == Balanced <==> variance == 0.0
  {
    if variance > 0.0 then Loss else if variance < 0.0 then Profit else Balanced
  }

  /**
   * The alert a usage submission raises, if any: one exactly when the variance
   * is more than 10% of the planned amount, urgent when more than 20%, else high.
   */
  function VarianceAlertPriority(variance: real, plannedAmount: real): (r: Option<Priority>)
    ensures r.Some? <==> Abs(variance) > plannedAmount * 0.1
    ensures r.Some? ==> (r.value == Urgent <==> Abs(variance) > plannedAmount * 0.2)
    ensures r.Some? ==> r.value == Urgent || r.value == High
  {
    if Abs(variance) > plannedAmount * 0.1 then
      Some(if Abs(variance) > plannedAmount * 0.2 then Urgent else High)
    else None
  }

  /**
   * Reorder level: consumption over the lead time plus the safety stock. It is
   * never below the safety stock for non-negative consumption and lead time,
   * equals it when either is zero, and the part above it, spread over the lead
   * time, is the daily consumption.
   */
  function ReorderLevel(dailyConsumption: real, leadTime: real, safetyStock: real): (r: real)
    ensures dailyConsumption >= 0.0 && leadTime >= 0.0 ==> r >= safetyStock
    ensures (dailyConsumption == 0.0 || leadTime == 0.0) ==> r == safetyStock
    ensures leadTime != 0.0 ==> (r - safetyStock) / leadTime == dailyConsumption
  {
    dailyConsumption * leadTime + safetyStock
  }

  /** Reorder quantity: the shortfall of stock below the reorder level, never negative. */
  function ReorderQuantity(reorderLevel: real, currentStock: real): (q: real)
    ensures q >= 0.0 && q >= reorderLevel - currentStock
    ensures q == 0.0 || q == reorderLevel - currentStock
  {
    if reorderLevel - currentStock > 0.0 then reorderLevel - currentStock else 0.0
  }

  /** Priority of a reorder alert: urgent below minimum stock, high below 1.2 times the reorder level, else medium. */
  function ReorderPriority(currentStock: real, minimumStock: real, reorderLevel: real): (p: Priority)
    ensures p == Urgent <==> currentStock < minimumStock
    ensures p == High <==> !(currentStock < minimumStock) && currentStock < reorderLevel * 1.2
    ensures p == Medium <==> !(currentStock < minimumStock) && !(currentStock < reorderLevel * 1.2)
  {
    if currentStock < minimumStock then Urgent
    else if currentStock < reorderLevel * 1.2 then High
    else Medium
  }

  // ---------------------------------------------------------------- lemmas

  /** The reorder flag stored with an item is set exactly when stock is below the reorder level. */
  lemma ReorderNeededIffBelowLevel(reorderLevel: real, currentStock: real)
    ensures ReorderQuantity(reorderLevel, currentStock) > 0.0 <==> currentStock < reorderLevel
  {
  }

  /** Stock at or above the reorder level needs no reorder; each unit below adds one unit to the quantity. */
  lemma ReorderQuantityIsShortfall(reorderLevel: real, currentStock: real)
    ensures currentStock >= reorderLevel ==> ReorderQuantity(reorderLevel, currentStock) == 0.0
    ensures currentStock < reorderLevel ==> currentStock + ReorderQuantity(reorderLevel, currentStock) == reorderLevel
  {
  }

  /** The variance priority depends only on the size of the variance, not on its sign. */
  lemma VarianceAlertSignBlind(variance: real, plannedAmount: real)
    ensures VarianceAlertPriority(variance, plannedAmount) == VarianceAlertPriority(-variance, plannedAmount)
  {
  }

  /** For a non-negative plan, a larger variance never lowers the alert priority. */
  lemma VarianceAlertMonotone(v1: real, v2: real, plannedAmount: real)
    requires plannedAmount >= 0.0 && Abs(v1) <= Abs(v2)
    ensures VarianceAlertPriority(v1, plannedAmount).Some? ==> VarianceAlertPriority(v2, plannedAmount).Some?
    ensures VarianceAlertPriority(v1, plannedAmount).Some? ==>
      Rank(VarianceAlertPriority(v1, plannedAmount).value) <= Rank(VarianceAlertPriority(v2, plannedAmount).value)
  {
  }

  /** The thresholds are strict: a variance of exactly 10% raises nothing, exactly 20% raises a high alert. */
  lemma VarianceThresholdsStrict(plannedAmount: real)
    requires plannedAmount > 0.0
    ensures VarianceAlertPriority(plannedAmount * 0.1, plannedAmount) == None
    ensures VarianceAlertPriority(plannedAmount * 0.2, plannedAmount) == Some(High)
    ensures VarianceAlertPriority(-plannedAmount * 0.2, plannedAmount) == Some(High)
  {
  }

  /** A non-positive plan turns every variance into an alert, and a negative plan makes every alert urgent. */
  lemma VarianceAlertNonPositivePlan(variance: real, plannedAmount: real)
    requires plannedAmount < 0.0 || (plannedAmount == 0.0 && variance != 0.0)
    ensures VarianceAlertPriority(variance, plannedAmount).Some?
    ensures plannedAmount < 0.0 ==> VarianceAlertPriority(variance, plannedAmount) == Some(Urgent)
  {
  }

  /**
   * A reorder alert is only raised when stock is below the reorder level, so with
   * a non-negative reorder level it is never medium: the medium rung only
   * matters for a negative reorder level.
   */
  lemma ReorderAlertNeverMedium(currentStock: real, minimumStock: real, reorderLevel: real)
    requires reorderLevel >= 0.0 && ReorderQuantity(reorderLevel, currentStock) > 0.0
    ensures ReorderPriority(currentStock, minimumStock, reorderLevel) != Medium
  {
  }
}
