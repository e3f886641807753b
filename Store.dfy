/**
 * The owner-scoped record store and the server's write handlers on it. Each
 * collection is a sequence in insertion order; each handler is a method that
 * validates its request the way the handler does, looks records up by
 * (user, natural key) and writes, appends or removes records. Every method
 * keeps `Valid()` (one order per orderId, one usage per order, one item per
 * itemName, derived fields up to date), says exactly what the new state is,
 * and leaves every other user's records as they were.
 */
module Store {
  import opened Seqs
  import opened Calculator
  import opened Domain
  import opened Reports

  /** The handlers' error answers. */
  datatype Error = AllFieldsRequired | OrderIdExists | OrderNotFound | ItemNotFound | AlertNotFound

  /** A handler's answer: 201 for a new record, 200 for a change, or an error. */
  datatype Reply = Created | Saved | Failed(error: Error)

  /** The HTTP status a reply is sent with. */
  function HttpStatus(r: Reply): (code: nat)
    ensures r.Failed? <==> code >= 400
    ensures code == 404 <==> r.Failed? && (r.error.OrderNotFound? || r.error.ItemNotFound? || r.error.AlertNotFound?)
    ensures code == 201 <==> r == Created
    ensures code == 200 <==> r == Saved
    ensures code in {200, 201, 400, 404}
  {
    match r
    case Created => 201
    case Saved => 200
    case Failed(e) => if e == AllFieldsRequired || e == OrderIdExists then 400 else 404
  }

  /** Body of an order creation; a field the client left out is None. */
  datatype OrderRequest = OrderRequest(
    orderId: Option<string>, itemName: Option<string>,
    plannedQty: Option<real>, plannedRate: Option<real>)

  predicate OrderRequestComplete(q: OrderRequest) {
    TruthyText(q.orderId) && TruthyText(q.itemName) && TruthyNumber(q.plannedQty) && TruthyNumber(q.plannedRate)
  }

  /** Body of an actual-usage submission. */
  datatype UsageRequest = UsageRequest(orderId: Option<string>, actualQty: Option<real>, actualRate: Option<real>)

  predicate UsageRequestComplete(q: UsageRequest) {
    TruthyText(q.orderId) && TruthyNumber(q.actualQty) && TruthyNumber(q.actualRate)
  }

  /**
   * A numeric field that is only tested with `=== undefined`: left out, sent as
   * JSON null, or a number.
   */
  datatype Given = Absent | Null | Num(n: real)

  /** The number a sent field stands for: arithmetic, comparisons and `Number(...)` read null as 0. */
  function NumberOf(g: Given): real
    requires g != Absent
  {
    if g.Num? then g.n else 0.0
  }

  /**
   * Body of an inventory upsert. Current and safety stock need only be sent
   * (0 and null pass); the other figures must be truthy.
   */
  datatype InventoryRequest = InventoryRequest(
    itemName: Option<string>, currentStock: Given, minimumStock: Option<real>,
    dailyConsumption: Option<real>, leadTime: Option<real>, safetyStock: Given)

  predicate InventoryRequestComplete(q: InventoryRequest) {
    && TruthyText(q.itemName)
    && q.currentStock != Absent
    && TruthyNumber(q.minimumStock)
    && TruthyNumber(q.dailyConsumption)
    && TruthyNumber(q.leadTime)
    && q.safetyStock != Absent
  }

  /** The order as an update leaves it: new item name and figures, planned amount recomputed. */
  function Revised(o: Order, itemName: string, plannedQty: real, plannedRate: real): Order {
    o.(itemName := itemName, plannedQty := plannedQty, plannedRate := plannedRate,
       plannedAmount := Amount(plannedQty, plannedRate))
  }

  /** The usage as a repeated submission leaves it: figures, amount, variance and status overwritten. */
  function Overwritten(u: Usage, qty: real, rate: real, plannedAmount: real): Usage {
    var amount := Amount(qty, rate);
    u.(actualQty := qty, actualRate := rate, actualAmount := amount,
       variance := Variance(amount, plannedAmount), status := StatusOf(Variance(amount, plannedAmount)))
  }

  /** The alert (none or one) a usage submission against order `o` raises. */
  function VarianceAlerts(stamp: nat, user: UserId, o: Order, orderId: string, variance: real): seq<Alert> {
    match VarianceAlertPriority(variance, o.plannedAmount)
    case None => []
    case Some(p) =>
      [Alert(stamp, user, o.itemName, HighVariance(orderId, StatusOf(variance), Abs(variance)), p, VarianceKind, false, stamp)]
  }

  /** The alert (none or one) an inventory write of `item` raises. */
  function ReorderAlerts(stamp: nat, item: Item): seq<Alert> {
    if item.alertStatus then
      [Alert(stamp, item.userId, item.itemName,
             ReorderNeeded(item.itemName, item.currentStock, item.reorderQuantity),
             ReorderPriority(item.currentStock, item.minimumStock, item.reorderLevel),
             ReorderKind, false, stamp)]
    else []
  }

  /** `a` as the bulk mark-read for `user` leaves it. */
  function MarkedFor(a: Alert, user: UserId): Alert {
    if a.userId == user && !a.isRead then a.(isRead := true) else a
  }

  /** Appending an alert stamped later than every stored alert keeps ids distinct and creation order. */
  lemma AppendAlertKeepsOrder(alerts: seq<Alert>, extra: seq<Alert>, clock: nat)
    requires Unique(alerts, AlertId)
    requires forall i, j :: 0 <= i < j < |alerts| ==> alerts[i].createdAt < alerts[j].createdAt
    requires forall i :: 0 <= i < |alerts| ==> alerts[i].id < clock && alerts[i].createdAt < clock
    requires |extra| <= 1 && forall i :: 0 <= i < |extra| ==> extra[i].id == clock && extra[i].createdAt == clock
    ensures Unique(alerts + extra, AlertId)
    ensures forall i, j :: 0 <= i < j < |alerts + extra| ==> (alerts + extra)[i].createdAt < (alerts + extra)[j].createdAt
    ensures forall i :: 0 <= i < |alerts + extra| ==> (alerts + extra)[i].id < clock + 1 && (alerts + extra)[i].createdAt < clock + 1
  {
  }

  /** Removing an alert keeps the rest in creation order and stamped before the clock. */
  lemma RemoveAlertKeepsOrder(alerts: seq<Alert>, i: nat, clock: nat)
    requires i < |alerts|
    requires forall a, b :: 0 <= a < b < |alerts| ==> alerts[a].createdAt < alerts[b].createdAt
    requires forall a :: 0 <= a < |alerts| ==> alerts[a].id < clock && alerts[a].createdAt < clock
    ensures var rest := RemoveAt(alerts, i);
      && (forall a, b :: 0 <= a < b < |rest| ==> rest[a].createdAt < rest[b].createdAt)
      && (forall a :: 0 <= a < |rest| ==> rest[a].id < clock && rest[a].createdAt < clock)
  {
    var rest := RemoveAt(alerts, i);
    assert forall a, b :: 0 <= a < b < |rest| ==>
      rest[a] == alerts[if a < i then a else a + 1] && rest[b] == alerts[if b < i then b else b + 1];
  }

  /**
   * Removing an order together with the usage recorded against it keeps the
   * store consistent, and leaves neither record's key behind.
   */
  lemma CascadeKeepsConsistent(orders: seq<Order>, usages: seq<Usage>, items: seq<Item>, alerts: seq<Alert>,
                               i: nat, g: Option<nat>)
    requires Consistent(orders, usages, items, alerts) && i < |orders|
    requires g == Find(usages, UsageKey, OrderKey(orders[i]))
    ensures g.Some? ==> g.value < |usages|
    ensures var usages' := if g.Some? then RemoveAt(usages, g.value) else usages;
      && Consistent(RemoveAt(orders, i), usages', items, alerts)
      && OrderKey(orders[i]) !in Keys(RemoveAt(orders, i), OrderKey)
      && OrderKey(orders[i]) !in Keys(usages', UsageKey)
  {
    var k := OrderKey(orders[i]);
    UniqueRemove(orders, i, OrderKey);
    FindIffKey(usages, UsageKey, k);
    RemoveAtKeeps(orders, i, OrderDerived);
    if g.Some? {
      UniqueRemove(usages, g.value, UsageKey);
      RemoveAtKeeps(usages, g.value, UsageDerived);
    }
  }

  class Store {
    var orders: seq<Order>
    var usages: seq<Usage>
    var items: seq<Item>
    var alerts: seq<Alert>
    /** Stands for Date.now and for fresh alert ids: each successful write takes one stamp. */
    var clock: nat

    ghost predicate Valid()
      reads this
    {
      && Consistent(orders, usages, items, alerts)
      && (forall i :: 0 <= i < |alerts| ==> alerts[i].id < clock && alerts[i].createdAt < clock)
    }

    constructor ()
      ensures Valid()
      ensures orders == [] && usages == [] && items == [] && alerts == []
    {
      orders, usages, items, alerts, clock := [], [], [], [], 0;
    }

    /**
     * POST /api/orders. Rejects a request with a missing or falsy field, and a
     * second order with the same orderId for this user; otherwise appends the
     * order with planned amount = quantity times rate.
     */
    method CreateOrder(user: UserId, req: OrderRequest) returns (r: Reply)
      requires Valid()
      modifies this
      ensures Valid()
      ensures usages == old(usages) && items == old(items) && alerts == old(alerts)
      ensures !OrderRequestComplete(req) ==> r == Failed(AllFieldsRequired)
      ensures OrderRequestComplete(req) && Find(old(orders), OrderKey, Key(user, req.orderId.value)).Some? ==>
        r == Failed(OrderIdExists)
      ensures OrderRequestComplete(req) && Find(old(orders), OrderKey, Key(user, req.orderId.value)).None? ==>
        && r == Created
        && orders == old(orders) + [Order(user, req.orderId.value, req.itemName.value,
                                          req.plannedQty.value, req.plannedRate.value,
                                          Amount(req.plannedQty.value, req.plannedRate.value), old(clock))]
      ensures r.Failed? ==> orders == old(orders) && clock == old(clock)
      ensures r == Created ==> clock == old(clock) + 1
      ensures Isolated(old(orders), orders, OrderOwner, user)
    {
      if !OrderRequestComplete(req) {
        return Failed(AllFieldsRequired);
      }
      var orderId, qty, rate := req.orderId.value, req.plannedQty.value, req.plannedRate.value;
      var plannedAmount := qty * rate;
      if Find(orders, OrderKey, Key(user, orderId)).Some? {
        return Failed(OrderIdExists);
      }
      var o := Order(user, orderId, req.itemName.value, qty, rate, plannedAmount, clock);
      FindIffKey(orders, OrderKey, Key(user, orderId));
      UniqueAppend(orders, o, OrderKey);
      IsolatedAppend(orders, o, OrderOwner, user);
      orders := orders + [o];
      clock := clock + 1;
      r := Created;
    }

    /**
     * PUT /api/orders/:orderId. Overwrites the item name and figures of this
     * user's order and recomputes its planned amount. The order's usage is left
     * as it was: its stored variance is not recomputed.
     */
    method UpdateOrder(user: UserId, orderId: string, itemName: string, plannedQty: real, plannedRate: real)
      returns (r: Reply)
      requires Valid()
      modifies this
      ensures Valid()
      ensures usages == old(usages) && items == old(items) && alerts == old(alerts) && clock == old(clock)
      ensures Find(old(orders), OrderKey, Key(user, orderId)).None? ==>
        r == Failed(OrderNotFound) && orders == old(orders)
      ensures Find(old(orders), OrderKey, Key(user, orderId)).Some? ==>
        var i := Find(old(orders), OrderKey, Key(user, orderId)).value;
        r == Saved && orders == old(orders)[i := Revised(old(orders)[i], itemName, plannedQty, plannedRate)]
      ensures Isolated(old(orders), orders, OrderOwner, user)
    {
      var plannedAmount := plannedQty * plannedRate;
      var f := Find(orders, OrderKey, Key(user, orderId));
      if f.None? {
        return Failed(OrderNotFound);
      }
      var i := f.value;
      var o := Revised(orders[i], itemName, plannedQty, plannedRate);
      UniqueUpdate(orders, i, o, OrderKey);
      IsolatedPointwise(orders, orders[i := o], OrderOwner, user);
      orders := orders[i := o];
      r := Saved;
    }

    /**
     * DELETE /api/orders/:orderId. Removes this user's order and then the
     * usage recorded against it, if any.
     */
    method DeleteOrder(user: UserId, orderId: string) returns (r: Reply)
      requires Valid()
      modifies this
      ensures Valid()
      ensures items == old(items) && alerts == old(alerts) && clock == old(clock)
      ensures Find(old(orders), OrderKey, Key(user, orderId)).None? ==>
        r == Failed(OrderNotFound) && orders == old(orders) && usages == old(usages)
      ensures Find(old(orders), OrderKey, Key(user, orderId)).Some? ==>
        && r == Saved
        && orders == RemoveAt(old(orders), Find(old(orders), OrderKey, Key(user, orderId)).value)
        && usages == match Find(old(usages), UsageKey, Key(user, orderId))
                     case None => old(usages)
                     case Some(j) => RemoveAt(old(usages), j)
      ensures r == Saved ==> Key(user, orderId) !in Keys(orders, OrderKey) && Key(user, orderId) !in Keys(usages, UsageKey)
      ensures Isolated(old(orders), orders, OrderOwner, user)
      ensures Isolated(old(usages), usages, UsageOwner, user)
    {
      var k := Key(user, orderId);
      var f := Find(orders, OrderKey, k);
      if f.None? {
        return Failed(OrderNotFound);
      }
      var i := f.value;
      var g := Find(usages, UsageKey, k);
      CascadeKeepsConsistent(orders, usages, items, alerts, i, g);
      IsolatedRemove(orders, i, OrderOwner, user);
      orders := RemoveAt(orders, i);
      if g.Some? {
        IsolatedRemove(usages, g.value, UsageOwner, user);
        usages := RemoveAt(usages, g.value);
      }
      r := Saved;
    }

    /**
     * POST /api/actual-usage. Computes the actual amount, the variance against
     * the order's planned amount and its status; overwrites this user's usage
     * for the order if there is one (200) and creates it otherwise (201); then
     * appends a variance alert when the variance exceeds 10% of the plan.
     */
    method SubmitUsage(user: UserId, req: UsageRequest) returns (r: Reply)
      requires Valid()
      modifies this
      ensures Valid()
      ensures orders == old(orders) && items == old(items)
      ensures !UsageRequestComplete(req) ==> r == Failed(AllFieldsRequired) && unchanged(this)
      ensures UsageRequestComplete(req) && Find(old(orders), OrderKey, Key(user, req.orderId.value)).None? ==>
        r == Failed(OrderNotFound) && unchanged(this)
      ensures UsageRequestComplete(req) && Find(old(orders), OrderKey, Key(user, req.orderId.value)).Some? ==>
        var k := Key(user, req.orderId.value);
        var o := old(orders)[Find(old(orders), OrderKey, k).value];
        var qty, rate := req.actualQty.value, req.actualRate.value;
        var variance := Variance(Amount(qty, rate), o.plannedAmount);
        && (match Find(old(usages), UsageKey, k)
            case Some(j) =>
              r == Saved && usages == old(usages)[j := Overwritten(old(usages)[j], qty, rate, o.plannedAmount)]
            case None =>
              r == Created &&
              usages == old(usages) + [Usage(user, req.orderId.value, qty, rate, Amount(qty, rate),
                                             variance, StatusOf(variance), old(clock))])
        && alerts == old(alerts) + VarianceAlerts(old(clock), user, o, req.orderId.value, variance)
        && clock == old(clock) + 1
      ensures UsageRequestComplete(req) && Find(orders, OrderKey, Key(user, req.orderId.value)).Some? ==>
        var o := orders[Find(orders, OrderKey, Key(user, req.orderId.value)).value];
        var amount := Amount(req.actualQty.value, req.actualRate.value);
        ShowsUsage(VarianceReport(user, orders, usages), req.orderId.value,
                   amount, Variance(amount, o.plannedAmount), StatusOf(Variance(amount, o.plannedAmount)))
      ensures Isolated(old(usages), usages, UsageOwner, user)
      ensures Isolated(old(alerts), alerts, AlertOwner, user)
    {
      if !UsageRequestComplete(req) {
        return Failed(AllFieldsRequired);
      }
      var orderId, qty, rate := req.orderId.value, req.actualQty.value, req.actualRate.value;
      var k := Key(user, orderId);
      var f := Find(orders, OrderKey, k);
      if f.None? {
        return Failed(OrderNotFound);
      }
      var order := orders[f.value];
      ghost var g := Find(usages, UsageKey, k);
      r := RecordUsage(user, order, orderId, qty, rate);
      ghost var j := if g.Some? then g.value else |usages| - 1;
      assert UsageKey(usages[j]) == k;
      UsageShowsInReport(user, orders, usages, items, alerts, order, usages[j]);
    }

    /**
     * The write half of a usage submission against a stored order of the user:
     * upserts the usage and appends the variance alert, if any.
     */
    method RecordUsage(user: UserId, order: Order, orderId: string, qty: real, rate: real) returns (r: Reply)
      requires Valid() && order in orders && OrderKey(order) == Key(user, orderId)
      modifies this
      ensures Valid()
      ensures orders == old(orders) && items == old(items) && clock == old(clock) + 1
      ensures
        var k := Key(user, orderId);
        var variance := Variance(Amount(qty, rate), order.plannedAmount);
        && (match Find(old(usages), UsageKey, k)
            case Some(j) =>
              r == Saved && usages == old(usages)[j := Overwritten(old(usages)[j], qty, rate, order.plannedAmount)]
            case None =>
              r == Created &&
              usages == old(usages) + [Usage(user, orderId, qty, rate, Amount(qty, rate),
                                             variance, StatusOf(variance), old(clock))])
        && alerts == old(alerts) + VarianceAlerts(old(clock), user, order, orderId, variance)
      ensures Isolated(old(usages), usages, UsageOwner, user)
      ensures Isolated(old(alerts), alerts, AlertOwner, user)
    {
      var k := Key(user, orderId);
      var actualAmount := qty * rate;
      var variance := actualAmount - order.plannedAmount;
      var status := if variance > 0.0 then Loss else if variance < 0.0 then Profit else Balanced;
      var stamp := clock;

      var existing := Find(usages, UsageKey, k);
      ghost var usages0 := usages;
      var u;
      if existing.Some? {
        u := usages[existing.value].(actualQty := qty, actualRate := rate, actualAmount := actualAmount,
                                     variance := variance, status := status);
        assert u == Overwritten(usages0[existing.value], qty, rate, order.plannedAmount);
      } else {
        u := Usage(user, orderId, qty, rate, actualAmount, variance, status, stamp);
      }
      assert k in Keys(orders, OrderKey);
      PutUsage(u);
      assert existing.Some? ==> usages == usages0[existing.value := u];
      assert existing.None? ==> usages == usages0 + [u];
      r := if existing.Some? then Saved else Created;

      var extra: seq<Alert> := [];
      if Abs(variance) > order.plannedAmount * 0.1 {
        var priority := if Abs(variance) > order.plannedAmount * 0.2 then Urgent else High;
        extra := [Alert(stamp, user, order.itemName, HighVariance(orderId, status, Abs(variance)),
                        priority, VarianceKind, false, stamp)];
      }
      assert extra == VarianceAlerts(stamp, user, order, orderId, variance);
      AppendAlerts(user, extra);
    }

    /**
     * The write half of the usage upsert: overwrites the stored usage with the
     * key of `u` if there is one and appends `u` otherwise.
     */
    method PutUsage(u: Usage)
      requires Valid() && UsageDerived(u) && UsageKey(u) in Keys(orders, OrderKey)
      modifies this
      ensures Valid()
      ensures orders == old(orders) && items == old(items) && alerts == old(alerts) && clock == old(clock)
      ensures match Find(old(usages), UsageKey, UsageKey(u))
              case Some(j) => usages == old(usages)[j := u]
              case None => usages == old(usages) + [u]
      ensures Isolated(old(usages), usages, UsageOwner, u.userId)
    {
      var existing := Find(usages, UsageKey, UsageKey(u));
      if existing.Some? {
        var j := existing.value;
        UniqueUpdate(usages, j, u, UsageKey);
        IsolatedPointwise(usages, usages[j := u], UsageOwner, u.userId);
        usages := usages[j := u];
      } else {
        FindIffKey(usages, UsageKey, UsageKey(u));
        UniqueAppend(usages, u, UsageKey);
        IsolatedAppend(usages, u, UsageOwner, u.userId);
        usages := usages + [u];
      }
    }

    /**
     * Saves the alerts a write raised (none or one, stamped with the current
     * clock) and advances the clock.
     */
    method AppendAlerts(user: UserId, extra: seq<Alert>)
      requires Valid()
      requires |extra| <= 1
      requires forall i :: 0 <= i < |extra| ==>
        extra[i].id == clock && extra[i].createdAt == clock && extra[i].userId == user
      modifies this
      ensures Valid()
      ensures orders == old(orders) && usages == old(usages) && items == old(items)
      ensures alerts == old(alerts) + extra && clock == old(clock) + 1
      ensures Isolated(old(alerts), alerts, AlertOwner, user)
    {
      AppendAlertKeepsOrder(alerts, extra, clock);
      if extra != [] {
        IsolatedAppend(alerts, extra[0], AlertOwner, user);
        assert alerts + extra == alerts + [extra[0]];
      } else {
        assert alerts + extra == alerts;
      }
      alerts := alerts + extra;
      clock := clock + 1;
    }

    /**
     * POST /api/inventory. Computes reorder level, reorder quantity and the
     * reorder flag; overwrites every field of this user's item of that name if
     * there is one (200) and appends a new item otherwise (201); then appends a
     * reorder alert when the flag is set.
     */
    method UpsertItem(user: UserId, req: InventoryRequest) returns (r: Reply)
      requires Valid()
      modifies this
      ensures Valid()
      ensures orders == old(orders) && usages == old(usages)
      ensures !InventoryRequestComplete(req) ==> r == Failed(AllFieldsRequired) && unchanged(this)
      ensures InventoryRequestComplete(req) ==>
        var name, stock, minimum := req.itemName.value, NumberOf(req.currentStock), req.minimumStock.value;
        var level := ReorderLevel(req.dailyConsumption.value, req.leadTime.value, NumberOf(req.safetyStock));
        var quantity := ReorderQuantity(level, stock);
        var item := Item(user, name, stock, minimum, req.dailyConsumption.value, req.leadTime.value,
                         NumberOf(req.safetyStock), level, quantity, quantity > 0.0, old(clock));
        && (match Find(old(items), ItemKey, Key(user, name))
            case Some(i) => r == Saved && items == old(items)[i := item]
            case None => r == Created && items == old(items) + [item])
        && alerts == old(alerts) + ReorderAlerts(old(clock), item)
        && clock == old(clock) + 1
      ensures Isolated(old(items), items, ItemOwner, user)
      ensures Isolated(old(alerts), alerts, AlertOwner, user)
    {
      if !InventoryRequestComplete(req) {
        return Failed(AllFieldsRequired);
      }
      var name, currentStock, minimumStock := req.itemName.value, NumberOf(req.currentStock), req.minimumStock.value;
      var dailyConsumption, leadTime, safetyStock := req.dailyConsumption.value, req.leadTime.value, NumberOf(req.safetyStock);
      var reorderLevel := dailyConsumption * leadTime + safetyStock;
      var reorderQuantity := if reorderLevel - currentStock > 0.0 then reorderLevel - currentStock else 0.0;
      var alertStatus := reorderQuantity > 0.0;
      var stamp := clock;
      var item := Item(user, name, currentStock, minimumStock, dailyConsumption, leadTime, safetyStock,
                       reorderLevel, reorderQuantity, alertStatus, stamp);
      var existing := Find(items, ItemKey, Key(user, name));
      PutItem(item);
      r := if existing.Some? then Saved else Created;

      var extra: seq<Alert> := [];
      if alertStatus {
        var priority := if currentStock < minimumStock then Urgent
                        else if currentStock < reorderLevel * 1.2 then High
                        else Medium;
        extra := [Alert(stamp, user, name, ReorderNeeded(name, currentStock, reorderQuantity),
                        priority, ReorderKind, false, stamp)];
      }
      assert extra == ReorderAlerts(stamp, item);
      AppendAlerts(user, extra);
    }

    /**
     * The write half of the inventory upsert: replaces the stored item with the
     * key of `item` if there is one (every field is reassigned) and appends
     * `item` otherwise.
     */
    method PutItem(item: Item)
      requires Valid() && ItemDerived(item)
      modifies this
      ensures Valid()
      ensures orders == old(orders) && usages == old(usages) && alerts == old(alerts) && clock == old(clock)
      ensures match Find(old(items), ItemKey, ItemKey(item))
              case Some(i) => items == old(items)[i := item]
              case None => items == old(items) + [item]
      ensures Isolated(old(items), items, ItemOwner, item.userId)
    {
      var existing := Find(items, ItemKey, ItemKey(item));
      if existing.Some? {
        var i := existing.value;
        UniqueUpdate(items, i, item, ItemKey);
        IsolatedPointwise(items, items[i := item], ItemOwner, item.userId);
        items := items[i := item];
      } else {
        FindIffKey(items, ItemKey, ItemKey(item));
        UniqueAppend(items, item, ItemKey);
        IsolatedAppend(items, item, ItemOwner, item.userId);
        items := items + [item];
      }
    }

    /** DELETE /api/inventory/:itemName. Removes this user's item of that name. */
    method DeleteItem(user: UserId, itemName: string) returns (r: Reply)
      requires Valid()
      modifies this
      ensures Valid()
      ensures orders == old(orders) && usages == old(usages) && alerts == old(alerts) && clock == old(clock)
      ensures Find(old(items), ItemKey, Key(user, itemName)).None? ==>
        r == Failed(ItemNotFound) && items == old(items)
      ensures Find(old(items), ItemKey, Key(user, itemName)).Some? ==>
        r == Saved && items == RemoveAt(old(items), Find(old(items), ItemKey, Key(user, itemName)).value)
      ensures Isolated(old(items), items, ItemOwner, user)
    {
      var f := Find(items, ItemKey, Key(user, itemName));
      if f.None? {
        return Failed(ItemNotFound);
      }
      UniqueRemove(items, f.value, ItemKey);
      IsolatedRemove(items, f.value, ItemOwner, user);
      items := RemoveAt(items, f.value);
      r := Saved;
    }

    /** PUT /api/alerts/:id/read. Marks this user's alert with that id as read. */
    method MarkRead(user: UserId, id: nat) returns (r: Reply)
      requires Valid()
      modifies this
      ensures Valid()
      ensures orders == old(orders) && usages == old(usages) && items == old(items) && clock == old(clock)
      ensures Find(old(alerts), AlertKey, AlertRef(id, user)).None? ==>
        r == Failed(AlertNotFound) && alerts == old(alerts)
      ensures Find(old(alerts), AlertKey, AlertRef(id, user)).Some? ==>
        var i := Find(old(alerts), AlertKey, AlertRef(id, user)).value;
        r == Saved && alerts == old(alerts)[i := old(alerts)[i].(isRead := true)]
      ensures Isolated(old(alerts), alerts, AlertOwner, user)
    {
      var f := Find(alerts, AlertKey, AlertRef(id, user));
      if f.None? {
        return Failed(AlertNotFound);
      }
      var i := f.value;
      var a := alerts[i].(isRead := true);
      UniqueUpdate(alerts, i, a, AlertId);
      IsolatedPointwise(alerts, alerts[i := a], AlertOwner, user);
      alerts := alerts[i := a];
      r := Saved;
    }

    /** PUT /api/alerts/read-all. Marks every unread alert of this user as read. */
    method MarkAllRead(user: UserId) returns (r: Reply)
      requires Valid()
      modifies this
      ensures Valid()
      ensures orders == old(orders) && usages == old(usages) && items == old(items) && clock == old(clock)
      ensures r == Saved
      ensures |alerts| == |old(alerts)|
      ensures forall i :: 0 <= i < |alerts| ==> alerts[i] == MarkedFor(old(alerts)[i], user)
      ensures forall i :: 0 <= i < |alerts| && alerts[i].userId == user ==> alerts[i].isRead
      ensures Isolated(old(alerts), alerts, AlertOwner, user)
    {
      var before := alerts;
      var marked := seq(|before|, i requires 0 <= i < |before| => MarkedFor(before[i], user));
      IsolatedPointwise(before, marked, AlertOwner, user);
      alerts := marked;
      r := Saved;
    }

    /** DELETE /api/alerts/:id. Removes this user's alert with that id. */
    method DeleteAlert(user: UserId, id: nat) returns (r: Reply)
      requires Valid()
      modifies this
      ensures Valid()
      ensures orders == old(orders) && usages == old(usages) && items == old(items) && clock == old(clock)
      ensures Find(old(alerts), AlertKey, AlertRef(id, user)).None? ==>
        r == Failed(AlertNotFound) && alerts == old(alerts)
      ensures Find(old(alerts), AlertKey, AlertRef(id, user)).Some? ==>
        r == Saved && alerts == RemoveAt(old(alerts), Find(old(alerts), AlertKey, AlertRef(id, user)).value)
      ensures Isolated(old(alerts), alerts, AlertOwner, user)
    {
      var f := Find(alerts, AlertKey, AlertRef(id, user));
      if f.None? {
        return Failed(AlertNotFound);
      }
      var i := f.value;
      UniqueRemove(alerts, i, AlertId);
      IsolatedRemove(alerts, i, AlertOwner, user);
      RemoveAlertKeepsOrder(alerts, i, clock);
      alerts := RemoveAt(alerts, i);
      r := Saved;
    }
  }
}
