/**
 * The read-only aggregations the server answers from one user's records: the
 * dashboard figures, the planned-versus-actual chart and the five newest
 * alerts, the variance report (a left join of orders with their usage that
 * marks an order without usage as Pending), the reorder report and the
 * order summary.
 */
module Reports {
  import opened Seqs
  import opened Calculator
  import opened Domain

  /** The status column of a report row: the usage's status, or Pending when no usage exists. */
  datatype RowStatus = Recorded(status: UsageStatus) | Pending

  datatype VarianceRow = VarianceRow(
    orderId: string, itemName: string,
    plannedAmount: real, actualAmount: real, variance: real,
    status: RowStatus)

  /** Urgency column of the reorder report. */
  datatype RowPriority = UrgentRow | NormalRow

  datatype ReorderRow = ReorderRow(
    itemName: string, currentStock: real, minimumStock: real,
    reorderLevel: real, reorderQuantity: real, priority: RowPriority)

  datatype SummaryRow = SummaryRow(
    orderId: string, itemName: string,
    totalPlannedCost: real, totalActualCost: real, totalVariance: real,
    status: RowStatus, createdAt: nat)

  datatype ChartPoint = ChartPoint(orderId: string, planned: real, actual: real)

  /** The dashboard figures (the amounts before their two-decimal formatting). */
  datatype Stats = Stats(
    totalOrders: nat, totalPlannedCost: real, totalActualCost: real,
    totalProfitLoss: real, lowStockItems: nat, recentAlerts: nat)

  predicate IsPending(r: VarianceRow) { r.status == Pending }
  predicate IsProfitRow(r: VarianceRow) { r.status == Recorded(Profit) }
  predicate IsLossRow(r: VarianceRow) { r.status == Recorded(Loss) }
  predicate BelowReorderLevel(i: Item) { i.currentStock < i.reorderLevel }

  function RowPlanned(r: VarianceRow): real { r.plannedAmount }
  function RowActual(r: VarianceRow): real { r.actualAmount }
  function RowVariance(r: VarianceRow): real { r.variance }

  /** Sum of `f` over the usages whose key is in `keys`, in store order. */
  ghost function KeyedSum(us: seq<Usage>, keys: set<Key>, f: Usage -> real): real {
    if |us| == 0 then 0.0
    else KeyedSum(us[..|us| - 1], keys, f) + (if UsageKey(us[|us| - 1]) in keys then f(us[|us| - 1]) else 0.0)
  }

  /** Alerts in strictly increasing creation order. */
  ghost predicate Chronological(s: seq<Alert>) {
    forall i, j :: 0 <= i < j < |s| ==> s[i].createdAt < s[j].createdAt
  }

  /** The usage recorded under key `k`: findOne on (userId, orderId). */
  function UsageFor(usages: seq<Usage>, k: Key): (r: Option<Usage>)
    ensures r.Some? ==> r.value in usages && UsageKey(r.value) == k
    ensures r.None? <==> k !in Keys(usages, UsageKey)
  {
    FindIffKey(usages, UsageKey, k);
    match Find(usages, UsageKey, k)
    case None => None
    case Some(j) => Some(usages[j])
  }

  /** One row of the variance report: the order's plan joined with its usage, or zeros and Pending. */
  function VarianceRowOf(o: Order, usages: seq<Usage>): (r: VarianceRow)
    ensures r.orderId == o.orderId && r.itemName == o.itemName && r.plannedAmount == o.plannedAmount
    ensures r.status == Pending <==> OrderKey(o) !in Keys(usages, UsageKey)
    ensures r.status == Pending ==> r.actualAmount == 0.0 && r.variance == 0.0
    ensures r.status.Recorded? ==>
      exists u | u in usages :: UsageKey(u) == OrderKey(o) && r.actualAmount == u.actualAmount
                                && r.variance == u.variance && r.status.status == u.status
  {
    match UsageFor(usages, OrderKey(o))
    case None => VarianceRow(o.orderId, o.itemName, o.plannedAmount, 0.0, 0.0, Pending)
    case Some(u) => VarianceRow(o.orderId, o.itemName, o.plannedAmount, u.actualAmount, u.variance, Recorded(u.status))
  }

  /** The variance rows of `os`, one per order and in the same order. */
  function VarianceRows(os: seq<Order>, usages: seq<Usage>): (r: seq<VarianceRow>)
    ensures |r| == |os|
    ensures forall i :: 0 <= i < |os| ==> r[i] == VarianceRowOf(os[i], usages)
  {
    if |os| == 0 then []
    else VarianceRows(os[..|os| - 1], usages) + [VarianceRowOf(os[|os| - 1], usages)]
  }

  /**
   * GET /api/reports/variance: exactly one row per order of the user, in
   * order; a row is Pending, with zero actual amount and variance, exactly
   * when the user has recorded no usage for that order.
   */
  function VarianceReport(user: UserId, orders: seq<Order>, usages: seq<Usage>): (r: seq<VarianceRow>)
    ensures |r| == |Where(orders, OrderOwner, user)|
    ensures forall i :: 0 <= i < |r| ==> r[i] == VarianceRowOf(Where(orders, OrderOwner, user)[i], usages)
    ensures forall i :: 0 <= i < |r| ==>
      && r[i].orderId == Where(orders, OrderOwner, user)[i].orderId
      && r[i].itemName == Where(orders, OrderOwner, user)[i].itemName
      && r[i].plannedAmount == Where(orders, OrderOwner, user)[i].plannedAmount
    ensures forall i :: 0 <= i < |r| ==> (r[i].status == Pending <==> Key(user, r[i].orderId) !in Keys(usages, UsageKey))
    ensures forall i :: 0 <= i < |r| && r[i].status == Pending ==> r[i].actualAmount == 0.0 && r[i].variance == 0.0
  {
    var mine := Where(orders, OrderOwner, user);
    assert forall i :: 0 <= i < |mine| ==> mine[i] in mine && OrderKey(mine[i]) == Key(user, mine[i].orderId);
    VarianceRows(mine, usages)
  }

  /** The row of the reorder report for an item: Urgent exactly below minimum stock. */
  function ReorderRowOf(i: Item): (r: ReorderRow)
    ensures r.itemName == i.itemName && r.currentStock == i.currentStock && r.reorderLevel == i.reorderLevel
    ensures r.minimumStock == i.minimumStock && r.reorderQuantity == i.reorderQuantity
    ensures r.priority == UrgentRow <==> i.currentStock < i.minimumStock
  {
    ReorderRow(i.itemName, i.currentStock, i.minimumStock, i.reorderLevel, i.reorderQuantity,
               if i.currentStock < i.minimumStock then UrgentRow else NormalRow)
  }

  /**
   * GET /api/reports/reorder: one row for each item of the user whose reorder
   * flag is set, and for no other item.
   */
  function ReorderReport(user: UserId, items: seq<Item>): (r: seq<ReorderRow>)
    ensures |r| == |Filter(Where(items, ItemOwner, user), NeedsReorder)|
    ensures forall k :: 0 <= k < |r| ==>
      exists it | it in items :: it.userId == user && it.alertStatus && r[k] == ReorderRowOf(it)
    ensures forall it | it in items && it.userId == user && it.alertStatus :: ReorderRowOf(it) in r
  {
    var due := Filter(Where(items, ItemOwner, user), NeedsReorder);
    var r := ReorderRows(due);
    assert forall k :: 0 <= k < |due| ==> due[k] in due && r[k] == ReorderRowOf(due[k]);
    forall it | it in items && it.userId == user && it.alertStatus
      ensures ReorderRowOf(it) in r
    {
      assert it in Where(items, ItemOwner, user);
    }
    r
  }

  /** The reorder rows of `due`, one per item and in the same order. */
  function ReorderRows(due: seq<Item>): (r: seq<ReorderRow>)
    ensures |r| == |due|
    ensures forall k :: 0 <= k < |due| ==> r[k] == ReorderRowOf(due[k])
    ensures forall it | it in due :: ReorderRowOf(it) in r
  {
    if |due| == 0 then []
    else ReorderRows(due[..|due| - 1]) + [ReorderRowOf(due[|due| - 1])]
  }

  /**
   * GET /api/reports/order-summary: the variance report's join again, with the
   * columns renamed and the order's creation time added.
   */
  function OrderSummary(user: UserId, orders: seq<Order>, usages: seq<Usage>): (r: seq<SummaryRow>)
    ensures |r| == |VarianceReport(user, orders, usages)|
    ensures forall i :: 0 <= i < |r| ==>
      var v := VarianceReport(user, orders, usages)[i];
      && r[i].orderId == v.orderId && r[i].itemName == v.itemName
      && r[i].totalPlannedCost == v.plannedAmount && r[i].totalActualCost == v.actualAmount
      && r[i].totalVariance == v.variance && r[i].status == v.status
      && r[i].createdAt == Where(orders, OrderOwner, user)[i].createdAt
  {
    var mine := Where(orders, OrderOwner, user);
    seq(|mine|, i requires 0 <= i < |mine| =>
      var o := mine[i];
      match UsageFor(usages, OrderKey(o))
      case None => SummaryRow(o.orderId, o.itemName, o.plannedAmount, 0.0, 0.0, Pending, o.createdAt)
      case Some(u) => SummaryRow(o.orderId, o.itemName, o.plannedAmount, u.actualAmount, u.variance,
                                 Recorded(u.status), o.createdAt))
  }

  /** The dashboard's planned-versus-actual chart: planned and actual amount per order, 0 when none recorded. */
  function PlannedVsActual(user: UserId, orders: seq<Order>, usages: seq<Usage>): (r: seq<ChartPoint>)
    ensures |r| == |VarianceReport(user, orders, usages)|
    ensures forall i :: 0 <= i < |r| ==>
      var v := VarianceReport(user, orders, usages)[i];
      r[i].orderId == v.orderId && r[i].planned == v.plannedAmount && r[i].actual == v.actualAmount
  {
    var mine := Where(orders, OrderOwner, user);
    seq(|mine|, i requires 0 <= i < |mine| =>
      var o := mine[i];
      ChartPoint(o.orderId, o.plannedAmount,
                 match UsageFor(usages, OrderKey(o)) case None => 0.0 case Some(u) => u.actualAmount))
  }

  /** GET /api/dashboard/stats, the figures. */
  function DashboardStats(user: UserId, orders: seq<Order>, usages: seq<Usage>, items: seq<Item>, alerts: seq<Alert>)
    : (s: Stats)
    ensures s.totalOrders == |VarianceReport(user, orders, usages)|
    ensures s.lowStockItems == |ReorderReport(user, items)|
    ensures s.recentAlerts == |Filter(Where(alerts, AlertOwner, user), IsUnread)|
  {
    var myUsages := Where(usages, UsageOwner, user);
    Stats(
      |Where(orders, OrderOwner, user)|,
      Sum(Where(orders, OrderOwner, user), PlannedOf),
      Sum(myUsages, ActualOf),
      -Sum(myUsages, VarianceOf),
      |Filter(Where(items, ItemOwner, user), NeedsReorder)|,
      |Filter(Where(alerts, AlertOwner, user), IsUnread)|)
  }

  /**
   * The dashboard's recent-alerts list: the user's alerts sorted newest first,
   * at most five. Alerts are stored in creation order, so these are the last
   * five of the user's alerts, reversed.
   */
  function NewestAlerts(user: UserId, alerts: seq<Alert>): (r: seq<Alert>)
    ensures |r| == if |Where(alerts, AlertOwner, user)| < 5 then |Where(alerts, AlertOwner, user)| else 5
    ensures forall x | x in r :: x in alerts && x.userId == user
  {
    var mine := Where(alerts, AlertOwner, user);
    var n := |mine|;
    var m := if n < 5 then n else 5;
    var r := seq(m, i requires 0 <= i < m => mine[n - 1 - i]);
    assert forall i :: 0 <= i < m ==> r[i] in mine;
    r
  }

  /** `rows` has a recorded row for `orderId` carrying these figures. */
  ghost predicate ShowsUsage(rows: seq<VarianceRow>, orderId: string, actual: real, variance: real, status: UsageStatus) {
    exists i :: 0 <= i < |rows| && rows[i].orderId == orderId && rows[i].actualAmount == actual
                && rows[i].variance == variance && rows[i].status == Recorded(status)
  }

  // ---------------------------------------------------------------- lemmas

  /**
   * In a consistent store, the usage recorded against one of the user's orders
   * shows in the user's variance report with its own figures and status.
   */
  lemma UsageShowsInReport(user: UserId, orders: seq<Order>, usages: seq<Usage>, items: seq<Item>, alerts: seq<Alert>,
                           o: Order, u: Usage)
    requires Consistent(orders, usages, items, alerts)
    requires o in orders && o.userId == user && u in usages && UsageKey(u) == OrderKey(o)
    ensures ShowsUsage(VarianceReport(user, orders, usages), o.orderId, u.actualAmount, u.variance, u.status)
  {
    var mine := Where(orders, OrderOwner, user);
    var rep := VarianceReport(user, orders, usages);
    assert o in mine;
    var i :| 0 <= i < |mine| && mine[i] == o;
    assert rep[i] == VarianceRowOf(o, usages);
    var j :| 0 <= j < |usages| && usages[j] == u;
    assert UsageKey(usages[j]) in Keys(usages, UsageKey);
    var w :| w in usages && UsageKey(w) == OrderKey(o) && rep[i].actualAmount == w.actualAmount
             && rep[i].variance == w.variance && rep[i].status.status == w.status;
    UniqueSameKey(usages, UsageKey, u, w);
  }

  /** The user's orders joined with all usages share exactly the keys of the user's own usages. */
  lemma OwnedRecordedKeys(user: UserId, orders: seq<Order>, usages: seq<Usage>)
    requires Keys(usages, UsageKey) <= Keys(orders, OrderKey)
    ensures Keys(Where(orders, OrderOwner, user), OrderKey) * Keys(usages, UsageKey)
         == Keys(Where(usages, UsageOwner, user), UsageKey)
  {
    var O := Where(orders, OrderOwner, user);
    var U := Where(usages, UsageOwner, user);
    forall k | k in Keys(O, OrderKey) * Keys(usages, UsageKey) ensures k in Keys(U, UsageKey) {
      var i :| 0 <= i < |O| && OrderKey(O[i]) == k;
      assert O[i] in O;
      var j :| 0 <= j < |usages| && UsageKey(usages[j]) == k;
      assert usages[j] in usages;
      assert usages[j] in U;
      var m :| 0 <= m < |U| && U[m] == usages[j];
      assert UsageKey(U[m]) in Keys(U, UsageKey);
    }
    forall k | k in Keys(U, UsageKey) ensures k in Keys(O, OrderKey) * Keys(usages, UsageKey) {
      var m :| 0 <= m < |U| && UsageKey(U[m]) == k;
      assert U[m] in U;
      var j :| 0 <= j < |usages| && usages[j] == U[m];
      assert UsageKey(usages[j]) in Keys(usages, UsageKey);
      var i :| 0 <= i < |orders| && OrderKey(orders[i]) == k;
      assert orders[i] in orders;
      assert orders[i] in O;
      var l :| 0 <= l < |O| && O[l] == orders[i];
      assert OrderKey(O[l]) in Keys(O, OrderKey);
    }
  }

  /** Among key-unique orders, the Pending rows are the orders whose key has no usage. */
  lemma {:induction false} PendingRowsCount(os: seq<Order>, usages: seq<Usage>)
    requires Unique(os, OrderKey)
    ensures |Filter(VarianceRows(os, usages), IsPending)|
         == |os| - |Keys(os, OrderKey) * Keys(usages, UsageKey)|
  {
    if |os| == 0 {
      assert Keys(os, OrderKey) == {};
    } else {
      var p := os[..|os| - 1];
      assert Unique(p, OrderKey);
      PendingRowsCount(p, usages);
      PendingRowsStep(os, usages);
      RecordedKeysStep(os, usages);
    }
  }

  /** The last order adds one Pending row exactly when no usage has its key. */
  lemma PendingRowsStep(os: seq<Order>, usages: seq<Usage>)
    requires |os| > 0
    ensures |Filter(VarianceRows(os, usages), IsPending)|
         == |Filter(VarianceRows(os[..|os| - 1], usages), IsPending)|
            + (if OrderKey(os[|os| - 1]) in Keys(usages, UsageKey) then 0 else 1)
  {
    var rows := VarianceRows(os[..|os| - 1], usages);
    var row := VarianceRowOf(os[|os| - 1], usages);
    assert VarianceRows(os, usages) == rows + [row];
    FilterAppendOne(rows, row, IsPending);
  }

  /** The last order of a key-unique sequence adds its key to the overlap exactly when a usage has it. */
  lemma RecordedKeysStep(os: seq<Order>, usages: seq<Usage>)
    requires Unique(os, OrderKey) && |os| > 0
    ensures |Keys(os, OrderKey) * Keys(usages, UsageKey)|
         == |Keys(os[..|os| - 1], OrderKey) * Keys(usages, UsageKey)|
            + (if OrderKey(os[|os| - 1]) in Keys(usages, UsageKey) then 1 else 0)
  {
    var p := os[..|os| - 1];
    var x := os[|os| - 1];
    assert os == p + [x];
    KeysAppend(p, x, OrderKey);
    OneMoreKey(Keys(p, OrderKey), OrderKey(x), Keys(usages, UsageKey));
  }

  /** Adding a fresh key to a set adds one to its overlap with `k` exactly when `k` holds that key. */
  lemma OneMoreKey(a: set<Key>, k: Key, b: set<Key>)
    requires k !in a
    ensures |(a + {k}) * b| == |a * b| + (if k in b then 1 else 0)
  {
    if k in b {
      assert (a + {k}) * b == a * b + {k};
    } else {
      assert (a + {k}) * b == a * b;
    }
  }

  /**
   * In a consistent store the variance report has one Pending row for each of
   * the user's orders beyond the user's usages: #Pending = #orders - #usages.
   */
  lemma VarianceReportPendingCount(user: UserId, orders: seq<Order>, usages: seq<Usage>, items: seq<Item>, alerts: seq<Alert>)
    requires Consistent(orders, usages, items, alerts)
    ensures |Filter(VarianceReport(user, orders, usages), IsPending)|
         == |Where(orders, OrderOwner, user)| - |Where(usages, UsageOwner, user)|
  {
    var O := Where(orders, OrderOwner, user);
    var U := Where(usages, UsageOwner, user);
    WhereUnique(orders, OrderOwner, user, OrderKey);
    WhereUnique(usages, UsageOwner, user, UsageKey);
    PendingRowsCount(O, usages);
    OwnedRecordedKeys(user, orders, usages);
    UniqueCard(U, UsageKey);
  }

  /**
   * An order's row is recorded with status `st` exactly when a usage of that
   * status has the order's key (usages being key-unique).
   */
  lemma RowStatusIffKey(x: Order, usages: seq<Usage>, st: UsageStatus, useP: Usage -> bool)
    requires Unique(usages, UsageKey)
    requires forall u :: useP(u) <==> u.status == st
    ensures VarianceRowOf(x, usages).status == Recorded(st) <==> OrderKey(x) in Keys(Filter(usages, useP), UsageKey)
  {
    var row := VarianceRowOf(x, usages);
    var P := Filter(usages, useP);
    if row.status == Recorded(st) {
      var w :| w in usages && UsageKey(w) == OrderKey(x) && row.status.status == w.status;
      assert w in P;
      var m :| 0 <= m < |P| && P[m] == w;
      assert UsageKey(P[m]) in Keys(P, UsageKey);
    }
    if OrderKey(x) in Keys(P, UsageKey) {
      var m :| 0 <= m < |P| && UsageKey(P[m]) == OrderKey(x);
      assert P[m] in P;
      var j :| 0 <= j < |usages| && usages[j] == P[m];
      assert UsageKey(usages[j]) in Keys(usages, UsageKey);
      var w :| w in usages && UsageKey(w) == OrderKey(x) && row.status.status == w.status;
      UniqueSameKey(usages, UsageKey, w, P[m]);
    }
  }

  /**
   * Among key-unique orders joined with key-unique usages, the rows recorded
   * with status `st` are the orders whose key has a usage of that status.
   */
  lemma {:induction false} RecordedRowsCount(os: seq<Order>, usages: seq<Usage>, st: UsageStatus,
                                             rowP: VarianceRow -> bool, useP: Usage -> bool)
    requires Unique(os, OrderKey) && Unique(usages, UsageKey)
    requires forall r :: rowP(r) <==> r.status == Recorded(st)
    requires forall u :: useP(u) <==> u.status == st
    ensures |Filter(VarianceRows(os, usages), rowP)| == |Keys(os, OrderKey) * Keys(Filter(usages, useP), UsageKey)|
  {
    if |os| == 0 {
      assert Keys(os, OrderKey) == {};
    } else {
      var p := os[..|os| - 1];
      var x := os[|os| - 1];
      assert Unique(p, OrderKey);
      RecordedRowsCount(p, usages, st, rowP, useP);
      var row := VarianceRowOf(x, usages);
      assert VarianceRows(os, usages) == VarianceRows(p, usages) + [row];
      FilterAppendOne(VarianceRows(p, usages), row, rowP);
      RowStatusIffKey(x, usages, st, useP);
      RecordedKeysStep(os, Filter(usages, useP));
    }
  }

  /**
   * In a consistent store, the user's variance-report rows recorded with
   * status `st` are as many as the user's usages with that status.
   */
  lemma RecordedRowsMatchUsages(user: UserId, orders: seq<Order>, usages: seq<Usage>, items: seq<Item>, alerts: seq<Alert>,
                                st: UsageStatus, rowP: VarianceRow -> bool, useP: Usage -> bool)
    requires Consistent(orders, usages, items, alerts)
    requires forall r :: rowP(r) <==> r.status == Recorded(st)
    requires forall u :: useP(u) <==> u.status == st
    ensures |Filter(VarianceReport(user, orders, usages), rowP)| == |Filter(Where(usages, UsageOwner, user), useP)|
  {
    var mine := Where(orders, OrderOwner, user);
    var P := Filter(usages, useP);
    assert VarianceReport(user, orders, usages) == VarianceRows(mine, usages);
    WhereUnique(orders, OrderOwner, user, OrderKey);
    RecordedRowsCount(mine, usages, st, rowP, useP);
    FilterUnique(usages, useP, UsageKey);
    OwnedRecordedKeys(user, orders, P);
    WhereUnique(P, UsageOwner, user, UsageKey);
    UniqueCard(Where(P, UsageOwner, user), UsageKey);
    WhereFilterCommute(usages, UsageOwner, user, useP);
  }

  /** The user's alerts keep the store's creation order. */
  lemma {:induction false} WhereChronological(alerts: seq<Alert>, user: UserId)
    requires Chronological(alerts)
    ensures Chronological(Where(alerts, AlertOwner, user))
  {
    if |alerts| > 0 {
      var p := alerts[..|alerts| - 1];
      var x := alerts[|alerts| - 1];
      WhereChronological(p, user);
      var w := Where(p, AlertOwner, user);
      forall y | y in w ensures y.createdAt < x.createdAt {
        var i :| 0 <= i < |p| && p[i] == y;
        assert alerts[i] == y;
      }
    }
  }

  /**
   * In a consistent store the recent-alerts list is newest first, and every
   * alert of the user it leaves out is older than every alert it lists.
   */
  lemma NewestAlertsAreNewest(user: UserId, orders: seq<Order>, usages: seq<Usage>, items: seq<Item>, alerts: seq<Alert>)
    requires Consistent(orders, usages, items, alerts)
    ensures forall i, j :: 0 <= i < j < |NewestAlerts(user, alerts)| ==>
      NewestAlerts(user, alerts)[i].createdAt > NewestAlerts(user, alerts)[j].createdAt
    ensures forall x, y | x in Where(alerts, AlertOwner, user) && x !in NewestAlerts(user, alerts)
                          && y in NewestAlerts(user, alerts) :: x.createdAt < y.createdAt
  {
    WhereChronological(alerts, user);
    var mine := Where(alerts, AlertOwner, user);
    var r := NewestAlerts(user, alerts);
    assert forall i :: 0 <= i < |r| ==> r[i] == mine[|mine| - 1 - i];
    ReversedTailIsNewest(mine, r);
  }

  /** The last entries of a chronological list, reversed, are newest first and newer than the rest. */
  lemma ReversedTailIsNewest(mine: seq<Alert>, r: seq<Alert>)
    requires Chronological(mine) && |r| <= |mine|
    requires forall i :: 0 <= i < |r| ==> r[i] == mine[|mine| - 1 - i]
    ensures forall i, j :: 0 <= i < j < |r| ==> r[i].createdAt > r[j].createdAt
    ensures forall x, y | x in mine && x !in r && y in r :: x.createdAt < y.createdAt
  {
    var n, m := |mine|, |r|;
    forall k | n - m <= k < n ensures mine[k] in r {
      assert r[n - 1 - k] == mine[k];
    }
    forall x, y | x in mine && x !in r && y in r ensures x.createdAt < y.createdAt {
      var k :| 0 <= k < n && mine[k] == x;
      var i :| 0 <= i < m && r[i] == y;
    }
  }

  /** In a consistent store the reorder report lists an item of the user exactly when its stock is below its reorder level. */
  lemma ReorderReportIffBelowLevel(user: UserId, orders: seq<Order>, usages: seq<Usage>, items: seq<Item>, alerts: seq<Alert>)
    requires Consistent(orders, usages, items, alerts)
    ensures forall it | it in items && it.userId == user ::
      ReorderRowOf(it) in ReorderReport(user, items) <==> it.currentStock < it.reorderLevel
  {
    var r := ReorderReport(user, items);
    forall it | it in items && it.userId == user
      ensures ReorderRowOf(it) in r <==> it.currentStock < it.reorderLevel
    {
      var i :| 0 <= i < |items| && items[i] == it;
      assert ItemDerived(items[i]);
      ReorderNeededIffBelowLevel(it.reorderLevel, it.currentStock);
      if ReorderRowOf(it) in r {
        var k :| 0 <= k < |r| && r[k] == ReorderRowOf(it);
        var other :| other in items && other.userId == user && other.alertStatus && r[k] == ReorderRowOf(other);
        var j :| 0 <= j < |items| && items[j] == other;
        assert ItemDerived(items[j]);
        ReorderNeededIffBelowLevel(other.reorderLevel, other.currentStock);
      }
    }
  }

  /** In a consistent store the low-stock figure counts the user's items below their reorder level. */
  lemma LowStockCountsBelowLevel(user: UserId, orders: seq<Order>, usages: seq<Usage>, items: seq<Item>, alerts: seq<Alert>)
    requires Consistent(orders, usages, items, alerts)
    ensures DashboardStats(user, orders, usages, items, alerts).lowStockItems
         == |Filter(Where(items, ItemOwner, user), BelowReorderLevel)|
  {
    var mine := Where(items, ItemOwner, user);
    forall x | x in mine ensures NeedsReorder(x) <==> BelowReorderLevel(x) {
      var i :| 0 <= i < |items| && items[i] == x;
      assert ItemDerived(items[i]);
      ReorderNeededIffBelowLevel(x.reorderLevel, x.currentStock);
    }
    FilterSame(mine, NeedsReorder, BelowReorderLevel);
  }

  /** No loss-making usage means no overall deficit; only loss-making usages mean an overall deficit. */
  lemma {:induction false} VarianceSumSign(s: seq<Usage>)
    requires forall u | u in s :: UsageDerived(u)
    ensures (forall u | u in s :: u.status != Loss) ==> Sum(s, VarianceOf) <= 0.0
    ensures |s| > 0 && (forall u | u in s :: u.status == Loss) ==> Sum(s, VarianceOf) > 0.0
  {
    if |s| > 0 {
      var p := s[..|s| - 1];
      var x := s[|s| - 1];
      assert x in s;
      assert forall u | u in p :: u in s;
      VarianceSumSign(p);
    }
  }

  /**
   * The dashboard's profit/loss figure in a consistent store: never negative
   * when none of the user's usages is a loss, and negative when all of them are
   * (and there is at least one).
   */
  lemma ProfitLossSign(user: UserId, orders: seq<Order>, usages: seq<Usage>, items: seq<Item>, alerts: seq<Alert>)
    requires Consistent(orders, usages, items, alerts)
    ensures (forall u | u in usages && u.userId == user :: u.status != Loss) ==>
      DashboardStats(user, orders, usages, items, alerts).totalProfitLoss >= 0.0
    ensures (exists u | u in usages :: u.userId == user) && (forall u | u in usages && u.userId == user :: u.status == Loss) ==>
      DashboardStats(user, orders, usages, items, alerts).totalProfitLoss < 0.0
  {
    var mine := Where(usages, UsageOwner, user);
    forall u | u in mine ensures UsageDerived(u) {
      var i :| 0 <= i < |usages| && usages[i] == u;
      assert UsageDerived(usages[i]);
    }
    VarianceSumSign(mine);
    if exists u | u in usages :: u.userId == user {
      var u :| u in usages && u.userId == user;
      assert u in mine;
    }
  }

  /** Summing over a key set with one more, fresh key adds that key's sum. */
  lemma {:induction false} KeyedSumSplit(us: seq<Usage>, keys: set<Key>, k: Key, f: Usage -> real)
    requires k !in keys
    ensures KeyedSum(us, keys + {k}, f) == KeyedSum(us, keys, f) + KeyedSum(us, {k}, f)
  {
    if |us| > 0 {
      KeyedSumSplit(us[..|us| - 1], keys, k, f);
    }
  }

  /** Among key-unique usages, the sum over one key is the value of the usage with that key, or 0 without one. */
  lemma {:induction false} KeyedSumOne(us: seq<Usage>, k: Key, f: Usage -> real)
    requires Unique(us, UsageKey)
    ensures k !in Keys(us, UsageKey) ==> KeyedSum(us, {k}, f) == 0.0
    ensures forall u | u in us && UsageKey(u) == k :: KeyedSum(us, {k}, f) == f(u)
  {
    if |us| > 0 {
      var p := us[..|us| - 1];
      var x := us[|us| - 1];
      assert us == p + [x];
      assert Unique(p, UsageKey);
      KeyedSumOne(p, k, f);
      KeysAppend(p, x, UsageKey);
      if UsageKey(x) == k {
        assert k !in Keys(p, UsageKey);
        forall u | u in us && UsageKey(u) == k ensures u == x {
          UniqueSameKey(us, UsageKey, u, x);
        }
      } else {
        forall u | u in us && UsageKey(u) == k ensures u in p {
        }
      }
    }
  }

  /** When exactly the user's usages have their key in `keys`, the keyed sum is the sum over the user's usages. */
  lemma {:induction false} KeyedSumOwner(us: seq<Usage>, keys: set<Key>, user: UserId, f: Usage -> real)
    requires forall u | u in us :: UsageKey(u) in keys <==> u.userId == user
    ensures KeyedSum(us, keys, f) == Sum(Where(us, UsageOwner, user), f)
  {
    if |us| > 0 {
      var p := us[..|us| - 1];
      var x := us[|us| - 1];
      assert x in us;
      assert forall u | u in p :: u in us;
      KeyedSumOwner(p, keys, user, f);
      if x.userId == user {
        assert Where(us, UsageOwner, user) == Where(p, UsageOwner, user) + [x];
        SumAppend(Where(p, UsageOwner, user), x, f);
      } else {
        assert Where(us, UsageOwner, user) == Where(p, UsageOwner, user);
      }
    }
  }

  /**
   * Summed over key-unique orders, a row column that carries a usage's `f`,
   * and 0 without a usage, is the sum of `f` over the usages of those orders.
   */
  lemma {:induction false} RowsKeyedSum(os: seq<Order>, usages: seq<Usage>, g: VarianceRow -> real, f: Usage -> real)
    requires Unique(os, OrderKey) && Unique(usages, UsageKey)
    requires forall o: Order, u | u in usages && UsageKey(u) == OrderKey(o) :: g(VarianceRowOf(o, usages)) == f(u)
    requires forall o: Order | OrderKey(o) !in Keys(usages, UsageKey) :: g(VarianceRowOf(o, usages)) == 0.0
    ensures Sum(VarianceRows(os, usages), g) == KeyedSum(usages, Keys(os, OrderKey), f)
  {
    if |os| == 0 {
      assert Keys(os, OrderKey) == {};
      KeyedSumEmpty(usages, f);
    } else {
      var p := os[..|os| - 1];
      var x := os[|os| - 1];
      assert os == p + [x];
      assert Unique(p, OrderKey);
      RowsKeyedSum(p, usages, g, f);
      assert VarianceRows(os, usages) == VarianceRows(p, usages) + [VarianceRowOf(x, usages)];
      SumAppend(VarianceRows(p, usages), VarianceRowOf(x, usages), g);
      KeysAppend(p, x, OrderKey);
      assert OrderKey(x) !in Keys(p, OrderKey);
      KeyedSumSplit(usages, Keys(p, OrderKey), OrderKey(x), f);
      KeyedSumOne(usages, OrderKey(x), f);
      if OrderKey(x) in Keys(usages, UsageKey) {
        var j :| 0 <= j < |usages| && UsageKey(usages[j]) == OrderKey(x);
        assert usages[j] in usages;
      }
    }
  }

  lemma {:induction false} KeyedSumEmpty(us: seq<Usage>, f: Usage -> real)
    ensures KeyedSum(us, {}, f) == 0.0
  {
    if |us| > 0 {
      KeyedSumEmpty(us[..|us| - 1], f);
    }
  }

  /** In a consistent store a usage has the key of one of the user's orders exactly when it is the user's. */
  lemma OwnedUsageKeys(user: UserId, orders: seq<Order>, usages: seq<Usage>, items: seq<Item>, alerts: seq<Alert>)
    requires Consistent(orders, usages, items, alerts)
    ensures forall u | u in usages :: UsageKey(u) in Keys(Where(orders, OrderOwner, user), OrderKey) <==> u.userId == user
  {
    var O := Where(orders, OrderOwner, user);
    forall u | u in usages ensures UsageKey(u) in Keys(O, OrderKey) <==> u.userId == user {
      if UsageKey(u) in Keys(O, OrderKey) {
        var i :| 0 <= i < |O| && OrderKey(O[i]) == UsageKey(u);
        assert O[i] in O;
      }
      if u.userId == user {
        var j :| 0 <= j < |usages| && usages[j] == u;
        assert UsageKey(usages[j]) in Keys(usages, UsageKey);
        var i :| 0 <= i < |orders| && OrderKey(orders[i]) == UsageKey(u);
        assert orders[i] in orders;
        assert orders[i] in O;
        var l :| 0 <= l < |O| && O[l] == orders[i];
        assert OrderKey(O[l]) in Keys(O, OrderKey);
      }
    }
  }

  /** Each row carries its order's planned amount, so the rows sum to the orders' plan. */
  lemma {:induction false} RowsPlannedSum(os: seq<Order>, usages: seq<Usage>)
    ensures Sum(VarianceRows(os, usages), RowPlanned) == Sum(os, PlannedOf)
  {
    if |os| > 0 {
      var p := os[..|os| - 1];
      RowsPlannedSum(p, usages);
      SumAppend(VarianceRows(p, usages), VarianceRowOf(os[|os| - 1], usages), RowPlanned);
    }
  }

  /**
   * The dashboard's totals in a consistent store, against the variance report:
   * the planned cost is the report's planned column summed, the actual cost its
   * actual column (Pending rows carrying 0), and the profit/loss figure its
   * variance column summed and negated. The code sums the usages directly; the
   * report joins them to the orders, and every usage of the user sits on
   * exactly one of the user's orders.
   */
  lemma DashboardTotalsMatchReport(user: UserId, orders: seq<Order>, usages: seq<Usage>, items: seq<Item>, alerts: seq<Alert>)
    requires Consistent(orders, usages, items, alerts)
    ensures DashboardStats(user, orders, usages, items, alerts).totalPlannedCost
         == Sum(VarianceReport(user, orders, usages), RowPlanned)
    ensures DashboardStats(user, orders, usages, items, alerts).totalActualCost
         == Sum(VarianceReport(user, orders, usages), RowActual)
    ensures DashboardStats(user, orders, usages, items, alerts).totalProfitLoss
         == -Sum(VarianceReport(user, orders, usages), RowVariance)
  {
    var mine := Where(orders, OrderOwner, user);
    assert VarianceReport(user, orders, usages) == VarianceRows(mine, usages);
    WhereUnique(orders, OrderOwner, user, OrderKey);
    RowsPlannedSum(mine, usages);
    forall o: Order, u | u in usages && UsageKey(u) == OrderKey(o)
      ensures RowActual(VarianceRowOf(o, usages)) == ActualOf(u)
      ensures RowVariance(VarianceRowOf(o, usages)) == VarianceOf(u)
    {
      var j :| 0 <= j < |usages| && usages[j] == u;
      assert UsageKey(usages[j]) in Keys(usages, UsageKey);
      var w :| w in usages && UsageKey(w) == OrderKey(o) && VarianceRowOf(o, usages).actualAmount == w.actualAmount
               && VarianceRowOf(o, usages).variance == w.variance;
      UniqueSameKey(usages, UsageKey, u, w);
    }
    RowsKeyedSum(mine, usages, RowActual, ActualOf);
    RowsKeyedSum(mine, usages, RowVariance, VarianceOf);
    OwnedUsageKeys(user, orders, usages, items, alerts);
    KeyedSumOwner(usages, Keys(mine, OrderKey), user, ActualOf);
    KeyedSumOwner(usages, Keys(mine, OrderKey), user, VarianceOf);
  }
}
