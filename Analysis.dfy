/**
 * The classification behind the dashboard's full analysis and its alert page:
 * the three stock tiers and their counts, the split of variance rows by sign,
 * the truncated list of unread alerts, the numbered recommendations, the
 * read/unread filter of the alert page and the priority colours. Inputs are
 * the rows the server's reports answer with; text and layout are not modelled.
 */
module Analysis {
  import opened Seqs
  import opened Calculator
  import opened Domain
  import opened Reports

  // ---------------------------------------------------------------- stock tiers

  datatype Tier = StockCritical | StockLow | StockOk

  /** The label of one inventory line: critical at or below minimum stock, else low at or below the reorder level. */
  function TierOf(i: Item): (t: Tier)
    ensures t == StockCritical <==> i.currentStock <= i.minimumStock
    ensures t == StockLow <==> i.minimumStock < i.currentStock <= i.reorderLevel
    ensures t == StockOk <==> i.minimumStock < i.currentStock && i.reorderLevel < i.currentStock
  {
    if i.currentStock <= i.minimumStock then StockCritical
    else if i.currentStock <= i.reorderLevel then StockLow
    else StockOk
  }

  predicate InCritical(i: Item) { i.currentStock <= i.minimumStock }
  predicate InLow(i: Item) { i.currentStock > i.minimumStock && i.currentStock <= i.reorderLevel }
  /** The adequate-stock counting filter as the dashboard writes it: above the reorder level only. */
  predicate InOkAsWritten(i: Item) { i.currentStock > i.reorderLevel }
  /** The adequate-stock filter the labels call for: above both thresholds. */
  predicate InOk(i: Item) { TierOf(i) == StockOk }

  datatype TierCounts = TierCounts(critical: nat, low: nat, ok: nat)

  /** The three counts as written; they can add up to more than the number of items. */
  function TierCountsAsWritten(items: seq<Item>): (c: TierCounts)
    ensures c.critical + c.low + c.ok >= |items|
  {
    CountsCoverAll(items);
    TierCounts(|Filter(items, InCritical)|, |Filter(items, InLow)|, |Filter(items, InOkAsWritten)|)
  }

  /** The three counts, one per tier: every item is counted exactly once. */
  function TierCountsOf(items: seq<Item>): (c: TierCounts)
    ensures c.critical + c.low + c.ok == |items|
    ensures c.critical == |Filter(items, InCritical)| && c.low == |Filter(items, InLow)|
  {
    FilterPartition(items, InCritical, InLow, InOk);
    TierCounts(|Filter(items, InCritical)|, |Filter(items, InLow)|, |Filter(items, InOk)|)
  }

  /** The critical and low filters pick out exactly the items labelled with their tier. */
  lemma FiltersMatchLabels(i: Item)
    ensures InCritical(i) <==> TierOf(i) == StockCritical
    ensures InLow(i) <==> TierOf(i) == StockLow
    ensures InOk(i) ==> InOkAsWritten(i)
  {
  }

  /** The as-written filters miss no item; each item is in at least one. */
  lemma {:induction false} CountsCoverAll(items: seq<Item>)
    ensures |Filter(items, InCritical)| + |Filter(items, InLow)| + |Filter(items, InOkAsWritten)| >= |items|
  {
    if |items| > 0 {
      var p := items[..|items| - 1];
      var x := items[|items| - 1];
      CountsCoverAll(p);
      assert items == p + [x];
      FilterAppendOne(p, x, InCritical);
      FilterAppendOne(p, x, InLow);
      FilterAppendOne(p, x, InOkAsWritten);
    }
  }

  /** An item lands in both the critical and the as-written adequate count exactly when its reorder level is below its stock and its stock is at or below its minimum. */
  lemma DoubleCountedExactly(i: Item)
    ensures InCritical(i) && InOkAsWritten(i) <==> i.reorderLevel < i.currentStock <= i.minimumStock
  {
  }

  /**
   * An item with minimum stock 100, a reorder level of 1 (one unit a day, one
   * day lead time, no safety stock) and 50 in stock.
   */
  const Steel: Item := Item(0, "steel", 50.0, 100.0, 1.0, 1.0, 0.0, 1.0, 0.0, false, 0)

  /** Steel is a consistent item, labelled critical, yet the as-written counts list it as critical and as adequate. */
  lemma OkCountDoubleCounts()
    ensures ItemDerived(Steel) && TierOf(Steel) == StockCritical
    ensures TierCountsAsWritten([Steel]) == TierCounts(1, 0, 1)
    ensures TierCountsOf([Steel]) == TierCounts(1, 0, 0)
  {
    assert [Steel] == [] + [Steel];
    FilterAppendOne([], Steel, InCritical);
    FilterAppendOne([], Steel, InLow);
    FilterAppendOne([], Steel, InOkAsWritten);
    FilterAppendOne([], Steel, InOk);
  }

  // ---------------------------------------------------------------- variance rows

  predicate OverBudget(r: VarianceRow) { r.variance > 0.0 }
  predicate UnderBudget(r: VarianceRow) { r.variance < 0.0 }
  predicate OnBudget(r: VarianceRow) { r.variance == 0.0 }

  datatype BudgetSplit = BudgetSplit(over: seq<VarianceRow>, under: seq<VarianceRow>, onBudget: seq<VarianceRow>)

  /** The variance rows split by the sign of their variance: the three parts together are all the rows. */
  function SplitBySign(rows: seq<VarianceRow>): (s: BudgetSplit)
    ensures |s.over| + |s.under| + |s.onBudget| == |rows|
    ensures forall r | r in rows :: (r in s.over <==> r.variance > 0.0)
    ensures forall r | r in rows :: (r in s.under <==> r.variance < 0.0)
    ensures forall r | r in rows :: (r in s.onBudget <==> r.variance == 0.0)
  {
    FilterPartition(rows, OverBudget, UnderBudget, OnBudget);
    BudgetSplit(Filter(rows, OverBudget), Filter(rows, UnderBudget), Filter(rows, OnBudget))
  }

  /** The variance report's Pending rows, whose variance is zero, are all among the on-budget rows. */
  lemma PendingRowsOnBudget(user: UserId, orders: seq<Order>, usages: seq<Usage>)
    ensures forall r | r in VarianceReport(user, orders, usages) && r.status == Pending :: r in SplitBySign(VarianceReport(user, orders, usages)).onBudget
  {
    var rows := VarianceReport(user, orders, usages);
    forall r | r in rows && r.status == Pending ensures r.variance == 0.0 {
      var i :| 0 <= i < |rows| && rows[i] == r;
    }
  }

  // ---------------------------------------------------------------- alerts summary

  predicate IsUrgentAlert(a: Alert) { a.priority == Urgent }
  predicate IsHighAlert(a: Alert) { a.priority == High }

  /** The alerts section: nothing when there are no alerts; otherwise counts, up to ten unread alerts and how many more. */
  datatype AlertsSection =
    | NoAlerts
    | AlertsSummary(total: nat, unread: nat, urgent: nat, high: nat, details: seq<Alert>, more: Option<nat>)

  function AlertsSectionOf(alerts: seq<Alert>): (s: AlertsSection)
    ensures s == NoAlerts <==> |alerts| == 0
    ensures s.AlertsSummary? ==>
      && s.total == |alerts|
      && s.unread == |Filter(alerts, IsUnread)|
      && s.urgent == |Filter(alerts, IsUrgentAlert)| && s.high == |Filter(alerts, IsHighAlert)|
      && |s.details| == (if s.unread < 10 then s.unread else 10)
      && s.details == Filter(alerts, IsUnread)[..|s.details|]
      && (s.more.Some? <==> s.unread > 10)
      && |s.details| + (if s.more.Some? then s.more.value else 0) == s.unread
  {
    if |alerts| == 0 then NoAlerts
    else
      var unread := Filter(alerts, IsUnread);
      AlertsSummary(|alerts|, |unread|, |Filter(alerts, IsUrgentAlert)|, |Filter(alerts, IsHighAlert)|,
                    if |unread| < 10 then unread else unread[..10],
                    if |unread| > 10 then Some(|unread| - 10) else None)
  }

  // ---------------------------------------------------------------- recommendations

  datatype Recommendation =
    | LossAlert(loss: real)
    | Profitable(profit: real)
    | BreakEven
    | UrgentReorder(urgentRows: seq<ReorderRow>)
    | OverBudgetOrders(overRows: seq<VarianceRow>)
    | UnreadPending(count: nat)

  /** A recommendation with the number it is shown under. */
  datatype Numbered = Numbered(no: nat, rec: Recommendation)

  predicate IsUrgentRow(r: ReorderRow) { r.priority == UrgentRow }

  /** Position of a follow-up recommendation in the fixed order. */
  function FollowUpOrder(r: Recommendation): nat {
    match r
    case UrgentReorder(_) => 1
    case OverBudgetOrders(_) => 2
    case UnreadPending(_) => 3
    case _ => 0
  }

  /**
   * The follow-up recommendations after the opening one, in the order the
   * report lists them: urgent reorders, over-budget orders, unread alerts,
   * each present only when there is something to report.
   */
  function FollowUps(reorder: seq<ReorderRow>, variance: seq<VarianceRow>, alerts: seq<Alert>): (r: seq<Recommendation>)
    ensures |r| <= 3
    ensures forall k :: 0 <= k < |r| ==> r[k].UrgentReorder? || r[k].OverBudgetOrders? || r[k].UnreadPending?
    ensures forall k, l :: 0 <= k < l < |r| ==> FollowUpOrder(r[k]) < FollowUpOrder(r[l])
  {
    UrgentFollowUp(reorder) + OverBudgetFollowUp(variance) + UnreadFollowUp(alerts)
  }

  /** The urgent-reorder entry, present exactly when some reorder row is urgent. */
  function UrgentFollowUp(reorder: seq<ReorderRow>): (r: seq<Recommendation>)
    ensures |r| <= 1 && forall k :: 0 <= k < |r| ==> r[k].UrgentReorder?
    ensures |r| == 1 <==> exists x | x in reorder :: x.priority == UrgentRow
  {
    FilterNonEmpty(reorder, IsUrgentRow);
    var urgent := Filter(reorder, IsUrgentRow);
    if |urgent| > 0 then [UrgentReorder(urgent)] else []
  }

  /** The over-budget entry, present exactly when some order used more than planned. */
  function OverBudgetFollowUp(variance: seq<VarianceRow>): (r: seq<Recommendation>)
    ensures |r| <= 1 && forall k :: 0 <= k < |r| ==> r[k].OverBudgetOrders?
    ensures |r| == 1 <==> exists x | x in variance :: x.variance > 0.0
  {
    FilterNonEmpty(variance, OverBudget);
    var over := Filter(variance, OverBudget);
    if |over| > 0 then [OverBudgetOrders(over)] else []
  }

  /** The unread-alerts entry, present exactly when some alert is unread. */
  function UnreadFollowUp(alerts: seq<Alert>): (r: seq<Recommendation>)
    ensures |r| <= 1 && forall k :: 0 <= k < |r| ==> r[k].UnreadPending?
    ensures |r| == 1 <==> exists a | a in alerts :: !a.isRead
  {
    FilterNonEmpty(alerts, IsUnread);
    var unread := |Filter(alerts, IsUnread)|;
    if unread > 0 then [UnreadPending(unread)] else []
  }

  /** An urgent-reorder entry appears exactly when some reorder row is urgent. */
  lemma FollowUpsUrgent(reorder: seq<ReorderRow>, variance: seq<VarianceRow>, alerts: seq<Alert>)
    ensures var r := FollowUps(reorder, variance, alerts);
      (exists k :: 0 <= k < |r| && r[k].UrgentReorder?) <==> exists x | x in reorder :: x.priority == UrgentRow
  {
    var u, o, n := UrgentFollowUp(reorder), OverBudgetFollowUp(variance), UnreadFollowUp(alerts);
    var r := FollowUps(reorder, variance, alerts);
    assert r == u + (o + n);
    if |u| == 1 {
      assert r[0] == u[0];
    } else {
      forall k | 0 <= k < |r| ensures !r[k].UrgentReorder? {
        assert r[k] == (o + n)[k];
      }
    }
  }

  /** An over-budget entry appears exactly when some order used more than planned. */
  lemma FollowUpsOverBudget(reorder: seq<ReorderRow>, variance: seq<VarianceRow>, alerts: seq<Alert>)
    ensures var r := FollowUps(reorder, variance, alerts);
      (exists k :: 0 <= k < |r| && r[k].OverBudgetOrders?) <==> exists x | x in variance :: x.variance > 0.0
  {
    var u, o, n := UrgentFollowUp(reorder), OverBudgetFollowUp(variance), UnreadFollowUp(alerts);
    var r := FollowUps(reorder, variance, alerts);
    assert r == u + o + n;
    if |o| == 1 {
      assert r[|u|] == o[0];
    } else {
      forall k | 0 <= k < |r| ensures !r[k].OverBudgetOrders? {
        assert r[k] == (u + n)[k];
      }
    }
  }

  /** An unread-alerts entry appears exactly when some alert is unread. */
  lemma FollowUpsUnread(reorder: seq<ReorderRow>, variance: seq<VarianceRow>, alerts: seq<Alert>)
    ensures var r := FollowUps(reorder, variance, alerts);
      (exists k :: 0 <= k < |r| && r[k].UnreadPending?) <==> exists a | a in alerts :: !a.isRead
  {
    var u, o, n := UrgentFollowUp(reorder), OverBudgetFollowUp(variance), UnreadFollowUp(alerts);
    var r := FollowUps(reorder, variance, alerts);
    assert r == (u + o) + n;
    if |n| == 1 {
      assert r[|u + o|] == n[0];
    } else {
      forall k | 0 <= k < |r| ensures !r[k].UnreadPending? {
        assert r[k] == (u + o)[k];
      }
    }
  }

  /** The opening recommendation: loss, profitable or break-even by the sign of the net figure. */
  function Opening(profitLoss: real): (r: Recommendation)
    ensures profitLoss < 0.0 <==> r == LossAlert(-profitLoss)
    ensures profitLoss > 0.0 <==> r == Profitable(profitLoss)
    ensures profitLoss == 0.0 <==> r == BreakEven
  {
    if profitLoss < 0.0 then LossAlert(-profitLoss)
    else if profitLoss > 0.0 then Profitable(profitLoss)
    else BreakEven
  }

  /** The recommendations as shown: the k-th (from 0) is listed under number k + 1. */
  function Numbering(rs: seq<Recommendation>): (r: seq<Numbered>)
    ensures |r| == |rs|
    ensures forall k :: 0 <= k < |r| ==> r[k].no == k + 1 && r[k].rec == rs[k]
  {
    seq(|rs|, k requires 0 <= k < |rs| => Numbered(k + 1, rs[k]))
  }

  /** Showing one more recommendation gives it the next number. */
  lemma NumberingPush(rs: seq<Recommendation>, x: Recommendation)
    ensures Numbering(rs + [x]) == Numbering(rs) + [Numbered(|rs| + 1, x)]
  {
  }

  lemma FollowUpsAfterOpening(o: Recommendation, reorder: seq<ReorderRow>, variance: seq<VarianceRow>, alerts: seq<Alert>)
    ensures [o] + FollowUps(reorder, variance, alerts)
         == [o] + UrgentFollowUp(reorder) + OverBudgetFollowUp(variance) + UnreadFollowUp(alerts)
  {
  }

  /**
   * The key recommendations. The counter starts at 1 and each recommendation
   * takes the current number and advances it. The first is always one of
   * loss, profitable or break-even by the sign of the net figure; the rest
   * are the follow-ups, numbered on. `allClear` is the "performing well"
   * note, shown when the counter is still 1 at the end.
   */
  method Recommend(profitLoss: real, reorder: seq<ReorderRow>, variance: seq<VarianceRow>, alerts: seq<Alert>)
    returns (recs: seq<Numbered>, recNo: nat, allClear: bool)
    ensures recs == Numbering([Opening(profitLoss)] + FollowUps(reorder, variance, alerts))
    ensures recNo == |recs| + 1
    ensures !allClear
  {
    recNo := 1;
    recs := [];
    if profitLoss < 0.0 {
      recs := recs + [Numbered(recNo, LossAlert(Abs(profitLoss)))];
    } else if profitLoss > 0.0 {
      recs := recs + [Numbered(recNo, Profitable(profitLoss))];
    } else {
      recs := recs + [Numbered(recNo, BreakEven)];
    }
    recNo := recNo + 1;
    ghost var shown: seq<Recommendation> := [Opening(profitLoss)];
    assert recs == Numbering(shown);

    var urgentReorders := Filter(reorder, IsUrgentRow);
    if |urgentReorders| > 0 {
      NumberingPush(shown, UrgentReorder(urgentReorders));
      recs := recs + [Numbered(recNo, UrgentReorder(urgentReorders))];
      recNo := recNo + 1;
      shown := shown + [UrgentReorder(urgentReorders)];
    }
    assert shown == [Opening(profitLoss)] + UrgentFollowUp(reorder);
    assert recs == Numbering(shown) && recNo == |recs| + 1;

    var overBudgetOrders := Filter(variance, OverBudget);
    if |overBudgetOrders| > 0 {
      NumberingPush(shown, OverBudgetOrders(overBudgetOrders));
      recs := recs + [Numbered(recNo, OverBudgetOrders(overBudgetOrders))];
      recNo := recNo + 1;
      shown := shown + [OverBudgetOrders(overBudgetOrders)];
    }
    assert shown == [Opening(profitLoss)] + UrgentFollowUp(reorder) + OverBudgetFollowUp(variance);
    assert recs == Numbering(shown) && recNo == |recs| + 1;

    var unreadCount := |Filter(alerts, IsUnread)|;
    if unreadCount > 0 {
      NumberingPush(shown, UnreadPending(unreadCount));
      recs := recs + [Numbered(recNo, UnreadPending(unreadCount))];
      recNo := recNo + 1;
      shown := shown + [UnreadPending(unreadCount)];
    }
    assert shown == [Opening(profitLoss)] + UrgentFollowUp(reorder) + OverBudgetFollowUp(variance) + UnreadFollowUp(alerts);
    assert recs == Numbering(shown);
    FollowUpsAfterOpening(Opening(profitLoss), reorder, variance, alerts);

    allClear := false;
    if recNo == 1 {
      allClear := true;
    }
  }

  /** A filter is non-empty exactly when some element satisfies the predicate. */
  lemma FilterNonEmpty<T>(s: seq<T>, p: T -> bool)
    ensures |Filter(s, p)| > 0 <==> exists x | x in s :: p(x)
  {
    if exists x | x in s :: p(x) {
      var x :| x in s && p(x);
      assert x in Filter(s, p);
    }
  }

  // ---------------------------------------------------------------- alert page

  /** The alert page's read filter, and the flag the toggle button flips. */
  class AlertsView {
    var showReadAlerts: bool

    constructor ()
      ensures !showReadAlerts
    {
      showReadAlerts := false;
    }

    /** toggleReadAlerts. */
    method Toggle()
      modifies this
      ensures showReadAlerts == !old(showReadAlerts)
    {
      showReadAlerts := !showReadAlerts;
    }

    /** The alerts the page lists: all of them when read ones are shown, else exactly the unread ones in order. */
    function Visible(alerts: seq<Alert>): (r: seq<Alert>)
      reads this
      ensures showReadAlerts ==> r == alerts
      ensures !showReadAlerts ==> r == Filter(alerts, IsUnread)
      ensures forall a | a in alerts && !a.isRead :: a in r
      ensures forall a | a in r :: a in alerts && (showReadAlerts || !a.isRead)
    {
      if showReadAlerts then alerts else Filter(alerts, IsUnread)
    }
  }

  /** The note the page shows when the list is empty. */
  datatype EmptyNote = AllCaughtUp | NothingToShow

  function EmptyNoteFor(unreadCount: nat): (n: EmptyNote)
    ensures n == AllCaughtUp <==> unreadCount == 0
  {
    if unreadCount == 0 then AllCaughtUp else NothingToShow
  }

  /** Whenever the list is empty there is no unread alert, so the page never says "No alerts to show." */
  lemma EmptyListMeansCaughtUp(view: AlertsView, alerts: seq<Alert>)
    requires view.Visible(alerts) == []
    ensures EmptyNoteFor(|Filter(alerts, IsUnread)|) == AllCaughtUp
  {
  }

  // ---------------------------------------------------------------- colours

  /** The priority string a stored alert carries. */
  function PriorityName(p: Priority): string {
    match p
    case Low => "low"
    case Medium => "medium"
    case High => "high"
    case Urgent => "urgent"
  }

  const DefaultColor: string := "#6c757d"

  /** getPriorityColor: a fixed colour for each of the four priorities, grey for anything else. */
  function PriorityColor(priority: string): (c: string)
    ensures c == DefaultColor <==> priority !in {"urgent", "high", "medium", "low"}
    ensures priority == "urgent" ==> c == "#dc3545"
  {
    if priority == "urgent" then "#dc3545"
    else if priority == "high" then "#fd7e14"
    else if priority == "medium" then "#0d6efd"
    else if priority == "low" then "#198754"
    else DefaultColor
  }

  /** Every priority an alert can carry has its own colour, none of them the default. */
  lemma PriorityColorsDistinct(p: Priority, q: Priority)
    ensures PriorityColor(PriorityName(p)) != DefaultColor
    ensures p != q ==> PriorityColor(PriorityName(p)) != PriorityColor(PriorityName(q))
  {
  }
}
