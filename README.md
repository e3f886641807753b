# Production cost and inventory tracker — a Dafny model of its core

The system is a small production-management web application. Each user keeps
four kinds of records:

- production **orders**, with a planned quantity and rate;
- **actual usages**, at most one per order, which record what the order really
  consumed;
- **inventory items**, with reorder figures derived from consumption, lead time
  and safety stock;
- **alerts**, raised when a usage strays from its plan by more than 10%, or when
  an item's stock falls below its reorder level.

The server answers dashboard figures and three reports from these records. It
also runs a chatbot. Without an API key, the chatbot answers locally: a keyword
selector picks a canned answer filled in with the user's figures. The browser
dashboard turns the reports into a full-text analysis (stock tiers, budget
split, alerts summary, numbered recommendations) and an alert page with a
read/unread filter.

This project models that core:

- **`Calculator`**: the domain formulas and the two alert-priority ladders.
  - amount = quantity × rate;
  - variance = actual − planned;
  - status is Loss, Profit or Balanced, by the sign of the variance;
  - the variance alert uses thresholds of 10% and 20%;
  - reorder level, reorder quantity and reorder priority.
- **`Domain`**: the four record types and their natural keys.
  - A record is always owned by one user.
  - Request fields are checked as the handlers check them. Most are refused
    when falsy, as in JavaScript. An item's current and safety stock are
    refused only when undefined, so `null` passes and counts as 0 (`Given`).
  - `Consistent` is the invariant every store reachable through the handlers keeps, each handler taken as one atomic step:
    - one order per (user, orderId);
    - one usage per order, and only for an existing order;
    - one item per (user, itemName);
    - derived fields up to date;
    - alerts with distinct ids, in creation order.
- **`Store`**: the record store as a class with one sequence per collection. It
  also has a clock, which stands for `Date.now` and for fresh alert ids.
  - Each write handler is a method. It validates its request as the handler
    does, and returns the handler's reply (201 / 200 / 400 / 404).
  - Each method states the whole new state, keeps `Valid()`, and leaves every
    other user's records untouched (`Isolated`).
- **`Reports`**: the read-only aggregations.
  - the dashboard figures and the planned-versus-actual chart;
  - the five newest alerts;
  - the variance report and the order summary. Both are left joins of orders
    with their usage, and an order without a usage is Pending.
  - the reorder report.
- **`Chatbot`**: the chatbot endpoint and its local answer selector.
  - normalisation: lower-case, then trim;
  - the eleven intents, tried in order, then a fallback;
  - the context the selector reads;
  - the answer each intent gives.
- **`Analysis`**: the dashboard logic.
  - the three stock tiers and their counts;
  - the split of variance rows by sign;
  - the alerts summary, truncated to ten unread alerts;
  - the numbered key recommendations;
  - the alert page's read filter and toggle;
  - the priority colours.
- **`Seqs`**: generic sequence helpers.
  - keyed lookup (`Find`), owner scoping (`Where`), filtering, sums;
  - key uniqueness;
  - `Isolated`: no other owner's records change.

Amounts are exact reals. The server's doubles and their two-decimal formatting
are not modelled.

Some properties proven here are worth knowing about the dashboard:

- The recommendation counter starts at 1 and is always advanced by the opening
  recommendation. So the "System is performing well" note (`recNo === 1`, at
  public/dashboard.js:1011) can never be shown. `Analysis.Recommend` ensures
  `!allClear`.
- The alert page's "No alerts to show." note is unreachable: an empty list
  always means there is no unread alert (`Analysis.EmptyListMeansCaughtUp`).
- The chatbot's "unread alerts" figure counts at most the first five unread
  alerts, so it never reports more than five (`Chatbot.BuildContext`).

## Model

| member | source | states |
|---|---|---|
| Calculator.Amount | server.js:261 | An amount (planned at server.js:203, actual here) is zero when either factor is zero. Dividing it by a non-zero rate gives the quantity back. Non-negative factors give a non-negative amount |
| Calculator.Variance | server.js:262 | The plan plus the variance is the actual amount. The variance is positive exactly on overspend and negative exactly on underspend |
| Calculator.ReorderLevel | server.js:319 | With non-negative consumption and lead time the level is at least the safety stock. It equals the safety stock when either is zero. The part above the safety stock, divided by a non-zero lead time, is the daily consumption |
| Calculator.StatusOf | server.js:261-263 | A usage's status is Loss exactly when the variance is positive, Profit exactly when it is negative, and Balanced exactly when it is zero |
| Calculator.VarianceAlertPriority | server.js:282-289 | A usage raises an alert exactly when the absolute variance exceeds 10% of the planned amount. The alert is urgent exactly when it exceeds 20%, and high otherwise |
| Calculator.ReorderQuantity | server.js:320 | The reorder quantity is never negative. It is either zero or the shortfall of stock below the reorder level, and never less than that shortfall |
| Calculator.ReorderPriority | server.js:328 | A reorder alert is urgent exactly below minimum stock. Otherwise it is high exactly below 1.2 × the reorder level, and medium otherwise |
| Calculator.ReorderNeededIffBelowLevel | server.js:319-321 | The reorder flag is set exactly when current stock is below the reorder level |
| Calculator.ReorderQuantityIsShortfall | server.js:320 | At or above the reorder level the quantity is 0. Below it, stock plus quantity reaches the reorder level exactly |
| Calculator.VarianceAlertSignBlind | server.js:282-286 | Over-spending and under-spending by the same amount raise the same alert |
| Calculator.VarianceAlertMonotone | server.js:282-286 | For a non-negative plan, a larger variance never removes an alert and never lowers its priority |
| Calculator.VarianceThresholdsStrict | server.js:282-286 | Both thresholds are strict: a variance of exactly 10% raises nothing, and one of exactly ±20% raises a high alert, not an urgent one |
| Calculator.VarianceAlertNonPositivePlan | server.js:282-286 | A negative plan makes every variance an urgent alert. A zero plan makes every non-zero variance an alert |
| Calculator.ReorderAlertNeverMedium | server.js:327-328 | With a non-negative reorder level, a raised reorder alert is never medium |
| Store.HttpStatus | server.js:253-293 | Errors are sent as 400 or 404. A 404 is exactly a missing order, item or alert. The code is 201 exactly for Created and 200 exactly for Saved |
| Store.AppendAlertKeepsOrder | server.js:282-289 | Appending an alert stamped with the current clock keeps alert ids distinct and alerts in creation order |
| Store.RemoveAlertKeepsOrder | server.js:403-409 | Deleting an alert keeps the others in creation order and stamped before the clock |
| Store.CascadeKeepsConsistent | server.js:242-249 | Deleting an order together with its usage keeps the store consistent, and leaves neither key behind |
| Store.Store.constructor | server.js:42-94 | The empty store is consistent |
| Store.Store.CreateOrder | server.js:198-211 | A falsy field gives "All fields are required" (400). An existing orderId of the user gives "Order ID already exists" (400). Otherwise the order is appended with planned amount = qty × rate (201) and the clock advances. A refusal changes nothing. The store stays consistent |
| Store.Store.UpdateOrder | server.js:228-240 | A missing order gives 404 and no change. Otherwise exactly that order gets the new name and figures, and its amount is recomputed. Its usage's stored variance stays as it was |
| Store.Store.DeleteOrder | server.js:242-249 | A missing order gives 404. Otherwise the order is removed, and so is the user's usage for it if there is one. Neither key remains, and other users are untouched |
| Store.Store.SubmitUsage | server.js:253-293 | Validation (400) and a missing order (404) change nothing. Otherwise an existing usage is overwritten (200) or a new one is appended (201), and exactly the variance alert the thresholds call for is appended. Afterwards the user's variance report shows the submitted amount, its variance against the plan and its status on that order's row |
| Store.Store.RecordUsage | server.js:261-289 | Upserts the usage with amount, variance and status computed against the order, then appends the variance alert, if any. Usages stay one per order |
| Store.Store.PutUsage | server.js:265-280 | Overwrites the usage with the same key in place, or appends it, keeping usages unique and tied to an order |
| Store.Store.AppendAlerts | server.js:282-289 | Saves the raised alert, if any, and advances the clock. Ids stay distinct and alerts stay chronological |
| Store.Store.UpsertItem | server.js:312-341 | A missing field gives 400 and no change. Current and safety stock may be 0 or null (read as 0); only undefined is refused. Otherwise the item is computed, replaces the user's item of that name (200) or is appended (201), and a reorder alert with its ladder priority is appended exactly when the flag is set |
| Store.Store.PutItem | server.js:322-333 | Replaces the item with the same key (every field reassigned) or appends it, keeping items unique per (user, name) |
| Store.Store.DeleteItem | server.js:357-363 | A missing item gives 404 and no change. Otherwise exactly that item is removed |
| Store.Store.MarkRead | server.js:382-392 | An alert not owned by the user gives 404 and no change. Otherwise exactly that alert becomes read |
| Store.Store.MarkAllRead | server.js:395-400 | Every alert of the user becomes read, no other field or alert changes, and the reply is 200 |
| Store.Store.DeleteAlert | server.js:403-409 | An alert not owned by the user gives 404 and no change. Otherwise exactly that alert is removed |
| Reports.UsageFor | server.js:418 | Finds the usage with the order's key, and finds none exactly when no usage has that key |
| Reports.VarianceRowOf | server.js:418-423 | The row carries the order's id, name and plan. It is Pending, with zero actual amount and variance, exactly when no usage has the order's key; otherwise it carries that usage's figures |
| Reports.VarianceRows | server.js:417-424 | One row per order, in the same order |
| Reports.VarianceReport | server.js:413-427 | One row per order of the user, in order, each the order joined with its usage. A row is Pending, with zeros, exactly when the user has no usage for that order |
| Reports.UsageShowsInReport | server.js:413-427 | In a consistent store, a usage recorded against one of the user's orders shows on that order's row with its own amount, variance and status |
| Reports.RecordedRowsCount | server.js:417-423 | Among key-unique orders and usages, the rows recorded with a status are the orders whose key has a usage of that status |
| Reports.RecordedRowsMatchUsages | server.js:413-427 | In a consistent store, the user's report rows recorded with a status are as many as the user's usages with that status |
| Reports.ReorderRowOf | server.js:432-436 | A reorder row carries the item's minimum stock and reorder quantity, and is Urgent exactly when stock is below the minimum |
| Reports.ReorderRows | server.js:432-436 | One reorder row per flagged item, in order |
| Reports.ReorderReport | server.js:429-439 | Exactly one row per flagged item of the user, and no row for anything else |
| Reports.OrderSummary | server.js:441-456 | The variance report's join with the columns renamed, plus each order's creation time |
| Reports.PlannedVsActual | server.js:167-170 | One chart point per order of the user, holding its plan and its actual amount (0 when none is recorded) |
| Reports.DashboardStats | server.js:150-194 | The order count equals the number of variance-report rows, the low-stock count equals the number of reorder-report rows, and the alert figure is the number of the user's unread alerts |
| Reports.NewestAlerts | server.js:165 | At most five alerts, all of them the user's |
| Reports.VarianceReportPendingCount | server.js:413-427 | In a consistent store, the number of Pending rows is the user's order count minus the user's usage count |
| Reports.PendingRowsCount | server.js:417-422 | Among key-unique orders, the Pending rows are the orders with no usage key |
| Reports.WhereChronological | server.js:165 | The user's alerts keep the store's creation order |
| Reports.NewestAlertsAreNewest | server.js:165 | The recent-alerts list is newest first, and every alert of the user it leaves out is older than every alert it shows |
| Reports.ReorderReportIffBelowLevel | server.js:429-436 | In a consistent store, an item of the user is listed exactly when its stock is below its reorder level |
| Reports.LowStockCountsBelowLevel | server.js:163 | In a consistent store, the low-stock figure counts the user's items below their reorder level |
| Reports.VarianceSumSign | server.js:161 | Without a loss-making usage the total variance is not positive. When all usages are losses, and there is at least one, it is positive |
| Reports.ProfitLossSign | server.js:161-162 | The profit/loss figure is never negative when none of the user's usages is a loss, and negative when all of them are |
| Reports.DashboardTotalsMatchReport | server.js:159-162 | In a consistent store the planned cost is the variance report's planned column summed, the actual cost its actual column summed (Pending rows carry 0), and the profit/loss figure its variance column summed and negated |
| Chatbot.LowerChar | server.js:514 | Maps an ASCII capital to its lower-case letter and leaves every other character alone |
| Chatbot.Lower | server.js:514 | Lower-cases character by character and keeps the length |
| Chatbot.TrimStart | server.js:514 | Removes exactly the leading white space |
| Chatbot.TrimEnd | server.js:514 | Removes exactly the trailing white space |
| Chatbot.Trim | server.js:514 | The result is a contiguous piece of the input, with only white space cut off and none left at either end |
| Chatbot.Normalize | server.js:514 | The normalised message is a contiguous piece of the lower-cased message, with only white space cut off and none left at either end, and it holds no upper-case ASCII letter |
| Chatbot.FirstMatch | server.js:516-578 | Gives the first intent in the list that the message matches. It gives the fallback exactly when none matches |
| Chatbot.Classify | server.js:516-578 | The selector falls back exactly when no intent matches. Otherwise it answers an intent the message matches that no earlier intent pre-empts |
| Chatbot.Answer | server.js:516-578 | Each intent has its own kind of answer. The reorder, financial and variance intents report that there is nothing to show exactly when the context has no item, order or usage. Each answer carries the context's figures: the reorder list item by item, overall profit or loss by the larger count, the first usage with the largest absolute variance, and a pending figure that makes the order total |
| Chatbot.MockResponse | server.js:513-579 | The reply is the answer to the classified intent. It is the greeting exactly when the normalised message starts with a greeting word, and the overview exactly when no intent matches |
| Chatbot.GreetingBeforeProfit | server.js:517 | "hello, what is my profit" gets the greeting |
| Chatbot.GreetingWordsEndWords | server.js:517 | Every greeting word ends in a word character |
| Chatbot.NoneIsWordAtStart | server.js:517 | A word that ends in a word character is no whole word at the start of a message where it runs on into a further word character |
| Chatbot.HiRunOnIsNoGreeting | server.js:517 | A message that starts with "hi" run on into a further word character ("hippo", "history") is no greeting |
| Chatbot.ReorderNeedsDOrK | server.js:532 | Every stock phrase needs a 'd' or a 'k', so a message with neither is no reorder question |
| Chatbot.CourtesyNeedsWKOrX | server.js:522-527 | Every courtesy phrase needs a 'w', a 'k' or an 'x', so a message with none of them is neither a "how are you" nor a thanks |
| Chatbot.ProfitNeedsFNVOrDoubleS | server.js:539 | Every profit phrase needs an 'f', an 'n', a 'v' or a doubled 's', so a message with none of them is no profit question |
| Chatbot.VarianceNeedsVOrF | server.js:546 | Every variance phrase needs a 'v' or an 'f', so a message with neither is no variance question |
| Chatbot.GreetingNeedsWholeWord | server.js:517 | The greeting needs a whole word: "hippo alerts" is not a greeting and gets the alert answer |
| Chatbot.Flagged | server.js:468-475 | Lists each of the user's items flagged for reorder, and nothing else |
| Chatbot.BuildContext | server.js:471-479 | The context has the user's order count, the first min(10, n) of the user's n usages in order, exactly the user's flagged items in store order, and the first min(5, m) of the user's m unread alerts in order. The profit and loss counts sum to at most the user's usage count |
| Chatbot.ContextCountsRecordedRows | server.js:477-478 | In a consistent store, the context's profit and loss counts are the numbers of the user's variance-report rows recorded as Profit and as Loss |
| Chatbot.HighestIndex | server.js:548 | Picks a usage with the largest absolute variance, and the first such usage |
| Chatbot.OverallOf | server.js:541 | Overall is profit exactly when profitable orders outnumber loss orders, loss in the reverse case, and balanced on a tie |
| Chatbot.DayPartOf | server.js:574 | "night" wins over "evening", and either wins over the morning default |
| Chatbot.Chat | server.js:460-483 | A missing or empty message is refused. A missing or placeholder key gets the local answer for the user's context. Any other key goes to the remote model |
| Chatbot.PendingCountsUnrecordedAndBalanced | server.js:559 | The orders answer's Pending figure is the number of orders without a usage plus the balanced ones. It is never negative |
| Chatbot.LowerIdempotent | server.js:514 | Lower-casing twice is lower-casing once |
| Chatbot.TrimIdempotent | server.js:514 | Trimming twice is trimming once |
| Chatbot.NormalizeIdempotent | server.js:514 | Normalising an already normalised message changes nothing |
| Analysis.TierOf | public/dashboard.js:887-892 | An item is critical exactly at or below minimum stock. It is low exactly above the minimum and at or below the reorder level, and OK exactly above both |
| Analysis.TierCountsAsWritten | public/dashboard.js:875-877 | The three counts as written add up to at least the number of items |
| Analysis.TierCountsOf | public/dashboard.js:875-877 | The corrected counts add up to exactly the number of items. The critical and low counts are those of the dashboard's filters |
| Analysis.FiltersMatchLabels | public/dashboard.js:875-892 | The critical and low filters pick exactly the items labelled with their tier. Every item labelled OK passes the written OK filter |
| Analysis.CountsCoverAll | public/dashboard.js:875-877 | No item is missed by the three written filters |
| Analysis.DoubleCountedExactly | public/dashboard.js:875-877 | An item is counted as both critical and adequate exactly when reorder level < stock ≤ minimum |
| Analysis.OkCountDoubleCounts | public/dashboard.js:877 | A consistent item labelled critical is counted as critical and as adequate by the written counts, and once by the corrected counts |
| Analysis.SplitBySign | public/dashboard.js:795-797 | Over-, under- and on-budget rows are exactly the rows with positive, negative and zero variance, and together they are all the rows |
| Analysis.PendingRowsOnBudget | public/dashboard.js:795-797 | Pending rows of the variance report are always counted as on budget |
| Analysis.AlertsSectionOf | public/dashboard.js:929-956 | No section exactly when there are no alerts. Otherwise: the totals, the urgent and high counts over all alerts, the first min(unread, 10) unread alerts in order, and a "more" note exactly when more than ten are unread, which accounts for the rest |
| Analysis.UrgentFollowUp | public/dashboard.js:982-990 | The urgent-reorder entry appears exactly when some reorder row is Urgent |
| Analysis.OverBudgetFollowUp | public/dashboard.js:992-1001 | The over-budget entry appears exactly when some order's variance is positive |
| Analysis.UnreadFollowUp | public/dashboard.js:1003-1009 | The unread-alerts entry appears exactly when some alert is unread |
| Analysis.FollowUps | public/dashboard.js:982-1009 | At most three follow-ups, each of the three kinds at most once, in the fixed order: urgent reorders, over-budget orders, unread alerts |
| Analysis.FollowUpsUrgent | public/dashboard.js:982-984 | An urgent-reorder follow-up is present exactly when some reorder row is Urgent |
| Analysis.FollowUpsOverBudget | public/dashboard.js:992-994 | An over-budget follow-up is present exactly when some variance is positive |
| Analysis.FollowUpsUnread | public/dashboard.js:1003-1005 | An unread-alerts follow-up is present exactly when some alert is unread |
| Analysis.Opening | public/dashboard.js:965-980 | The opening recommendation is loss (by the absolute amount), profitable or break-even, exactly by the sign of the net figure |
| Analysis.Numbering | public/dashboard.js:963-1009 | The k-th recommendation shown carries number k + 1 |
| Analysis.NumberingPush | public/dashboard.js:984 | Showing one more recommendation gives it the next number |
| Analysis.Recommend | public/dashboard.js:963-1015 | The numbered list is the opening recommendation followed by the follow-ups, numbered from 1. The counter ends one past the last number, so the "performing well" note is never shown |
| Analysis.AlertsView.constructor | public/dashboard.js:514 | The page starts with read alerts hidden |
| Analysis.AlertsView.Toggle | public/dashboard.js:581-584 | The toggle flips whether read alerts are shown |
| Analysis.AlertsView.Visible | public/dashboard.js:536 | With read alerts shown, the page lists every alert. Otherwise it lists exactly the unread alerts, in order |
| Analysis.EmptyNoteFor | public/dashboard.js:538-541 | The empty-list note says "all caught up" exactly when nothing is unread |
| Analysis.EmptyListMeansCaughtUp | public/dashboard.js:536-541 | Whenever the list is empty, the note is "all caught up" |
| Analysis.PriorityColor | public/dashboard.js:576-579 | The grey default is given exactly for a string that is none of the four priorities, and urgent is red |
| Analysis.PriorityColorsDistinct | public/dashboard.js:576-579 | Each of the four priorities gets its own colour, and none gets the default |

## Left out

- Authentication is not modelled: registration, login, bcrypt hashing and JWT verification. The handlers take the authenticated user id as a parameter.
- The remote chatbot call is not modelled: its prompt text, the HTTP request and the model's answer. `Chat` only says that the request goes to the remote model. The `orders.slice(0, 10)` that feeds only that prompt is left out with it.
- The text of every answer, message and report line is not modelled. Answers and alert messages are datatypes that carry the figures they report.
- `toFixed` formatting, `parseFloat` and IEEE-754 rounding are not modelled; amounts are exact reals.
- Request values that are strings, which JavaScript coerces in `*` and `Number(...)`, are not modelled. Request fields are typed.
- Database failures, invalid ObjectId casts and every 500 reply are not modelled.
- `Promise.all` concurrency is not modelled. The joins are computed sequentially, which gives the same rows.
- Interleaved requests are not modelled: each handler runs as one atomic step. In the code the usage upsert reads with `findOne` and then awaits `save()` (server.js:268-280), and the usage schema (server.js:55-64) has no unique index, unlike orders (server.js:51) and items (server.js:81). Two submissions for one order that interleave can both insert, so `Consistent` (one usage per order) holds only for requests served one at a time; the delete cascade's `findOneAndDelete` (server.js:246) would then leave the second usage behind.
- The GET list endpoints and their sort orders are left out. So are the single-record GETs and the low-stock list. They only read.
- The alerts section lists unread alerts in store order (oldest first). The page receives them newest first from the alerts endpoint, and that reordering is not modelled.
- The analysis sections that only format are left out: profit/loss filters, the largest over- and under-spends, and the variance arrows. The dashboard's inventory-levels chart projection and the DOM and Chart.js rendering are left out too.
- public/script.js (login and registration page) is not part of this model.
- Store.Store.UpdateOrder: takes every field as a value. A request body that leaves a field out makes the computed amount NaN; what the database then does with it is not modelled, because the model has no NaN.
- Store.Store.CreateOrder: accepts negative figures, as the code does. server.js:202 refuses only falsy values and the order schema (server.js:46-47) sets no minimum, so negative figures are stored. The same holds for SubmitUsage and UpsertItem.
- Store.Store.CreateOrder: a duplicate orderId is found by looking it up before the append. The code instead relies on the unique (userId, orderId) index and its duplicate-key error 11000. Both give the same reply and leave the store the same.
- Store.Store.UpsertItem: on an update the code assigns the request's values with `Object.assign` (server.js:325), so a `null` current or safety stock is stored as null. Every later comparison and product reads it as 0; the model stores 0.
- Store.Store.SubmitUsage: on an overwrite the usage keeps its creation time, as the code does.
- Store.Store.constructor: the clock stands for `Date.now`. Each successful write takes the next stamp, so stamps are distinct and increasing. Two writes in the same millisecond, which would tie in the code, are not modelled.
- Chatbot.Lower: lower-cases only the ASCII letters. `toLowerCase` maps the rest of Unicode too; that mapping is not modelled.
- Chatbot.LowerChar: lowers only the ASCII capitals and leaves every other character alone, including the non-ASCII capitals that `toLowerCase` maps.
- Analysis.PriorityColor: the colour table is a plain object, so a priority string such as "constructor" finds an inherited property, not the grey default. The model gives grey for every string outside the four priorities. Stored alerts only carry the four names (`Analysis.PriorityColorsDistinct`).
- Reports.NewestAlerts: states the length and the owner. That these are the newest alerts, newest first, is proved separately in `Reports.NewestAlertsAreNewest` for a consistent store.
- Reports.DashboardStats: its own contract states the counts only. The planned and actual cost totals and the profit/loss figure are stated against the variance report by `Reports.DashboardTotalsMatchReport`, and only for a consistent store. The sign of the profit/loss figure is stated by `Reports.ProfitLossSign`.

## Findings

| source | as written | input that shows it | evidently intended | confidence | as-written member | corrected member |
|---|---|---|---|---|---|---|
| public/dashboard.js:877 | The "Adequate Stock" count filters on `currentStock > reorderLevel` alone, so an item at or below its minimum stock but above its reorder level is counted as critical and as adequate | Item with minimum stock 100, daily consumption 1, lead time 1, safety stock 0 (reorder level 1) and current stock 50: labelled CRITICAL, counted in both the critical and the adequate totals | Count as adequate only the items labelled OK (above both the minimum stock and the reorder level), so the three counts add up to the number of items | not executed | Analysis.TierCountsAsWritten / Analysis.OkCountDoubleCounts | Analysis.TierCountsOf |
