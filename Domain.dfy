/**
 * Records of the production-cost tracker, each owned by one user: orders,
 * actual usages, inventory items and alerts. Also the natural keys the store
 * looks records up by, JavaScript truthiness of request fields, and the
 * consistency every reachable store state keeps, each handler taken as one
 * atomic step.
 */
module Domain {
  import opened Seqs
  import opened Calculator

  /** Identity of the owning user (the user id carried by the session token). */
  type UserId = nat

  /** Natural key of an order (and of its usage) or of an inventory item, within one owner. */
  datatype Key = Key(owner: UserId, name: string)

  /** An alert is found by its own id together with its owner. */
  datatype AlertRef = AlertRef(id: nat, owner: UserId)

  datatype AlertKind = ReorderKind | VarianceKind | StockoutKind

  /** What an alert's text reports; the text formatting itself is not modelled. */
  datatype AlertMessage =
    | HighVariance(orderId: string, status: UsageStatus, amount: real)
    | ReorderNeeded(itemName: string, currentStock: real, reorderQuantity: real)

  datatype Order = Order(
    userId: UserId, orderId: string, itemName: string,
    plannedQty: real, plannedRate: real, plannedAmount: real,
    createdAt: nat)

  datatype Usage = Usage(
    userId: UserId, orderId: string,
    actualQty: real, actualRate: real, actualAmount: real,
    variance: real, status: UsageStatus,
    createdAt: nat)

  datatype Item = Item(
    userId: UserId, itemName: string,
    currentStock: real, minimumStock: real,
    dailyConsumption: real, leadTime: real, safetyStock: real,
    reorderLevel: real, reorderQuantity: real, alertStatus: bool,
    updatedAt: nat)

  datatype Alert = Alert(
    id: nat, userId: UserId, itemName: string,
    message: AlertMessage, priority: Priority, kind: AlertKind,
    isRead: bool, createdAt: nat)

  function OrderKey(o: Order): Key { Key(o.userId, o.orderId) }
  function UsageKey(u: Usage): Key { Key(u.userId, u.orderId) }
  function ItemKey(i: Item): Key { Key(i.userId, i.itemName) }
  function AlertKey(a: Alert): AlertRef { AlertRef(a.id, a.userId) }
  function AlertId(a: Alert): nat { a.id }

  function OrderOwner(o: Order): UserId { o.userId }
  function UsageOwner(u: Usage): UserId { u.userId }
  function ItemOwner(i: Item): UserId { i.userId }
  function AlertOwner(a: Alert): UserId { a.userId }

  function PlannedOf(o: Order): real { o.plannedAmount }
  function ActualOf(u: Usage): real { u.actualAmount }
  function VarianceOf(u: Usage): real { u.variance }
  predicate IsUnread(a: Alert) { !a.isRead }
  predicate NeedsReorder(i: Item) { i.alertStatus }
  predicate IsProfit(u: Usage) { u.status == Profit }
  predicate IsLoss(u: Usage) { u.status == Loss }
  predicate IsBalanced(u: Usage) { u.status == Balanced }

  /** A numeric request field is truthy when present and not zero (`!x` rejects missing and 0). */
  predicate TruthyNumber(f: Option<real>) { f.Some? && f.value != 0.0 }

  /** A text request field is truthy when present and not empty. */
  predicate TruthyText(f: Option<string>) { f.Some? && f.value != "" }

  /** The stored planned amount is the product the order was last written with. */
  predicate OrderDerived(o: Order) {
    o.plannedAmount == Amount(o.plannedQty, o.plannedRate)
  }

  /** A usage's amount and status agree with its figures and its stored variance. */
  predicate UsageDerived(u: Usage) {
    u.actualAmount == Amount(u.actualQty, u.actualRate) && u.status == StatusOf(u.variance)
  }

  /** An item's reorder level, quantity and flag agree with its figures. */
  predicate ItemDerived(i: Item) {
    && i.reorderLevel == ReorderLevel(i.dailyConsumption, i.leadTime, i.safetyStock)
    && i.reorderQuantity == ReorderQuantity(i.reorderLevel, i.currentStock)
    && i.alertStatus == (i.reorderQuantity > 0.0)
  }

  /**
   * What every store state reachable through the handlers, each run as one
   * atomic step, satisfies: one order per (user, orderId), one usage per order
   * and only for an existing order of the same user, one item per
   * (user, itemName), derived fields up to date, and alerts with distinct ids
   * in creation order.
   */
  ghost predicate Consistent(orders: seq<Order>, usages: seq<Usage>, items: seq<Item>, alerts: seq<Alert>) {
    && Unique(orders, OrderKey)
    && Unique(usages, UsageKey)
    && Keys(usages, UsageKey) <= Keys(orders, OrderKey)
    && Unique(items, ItemKey)
    && Unique(alerts, AlertId)
    && (forall i :: 0 <= i < |orders| ==> OrderDerived(orders[i]))
    && (forall i :: 0 <= i < |usages| ==> UsageDerived(usages[i]))
    && (forall i :: 0 <= i < |items| ==> ItemDerived(items[i]))
    && (forall i, j :: 0 <= i < j < |alerts| ==> alerts[i].createdAt < alerts[j].createdAt)
  }
}
