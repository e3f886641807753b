/**
 * The chatbot endpoint and its local answer selector. The message is lower-cased
 * and trimmed, then tested against an ordered list of intents; the first
 * intent that matches chooses the answer, which is filled in from counts over
 * the user's records. Answers are modelled by the figures they interpolate,
 * not by their text.
 */
module Chatbot {
  import opened Seqs
  import opened Calculator
  import opened Domain
  import opened Reports

  // ---------------------------------------------------------------- text

  /** The characters String.prototype.trim removes: white space and line terminators. */
  predicate IsSpace(c: char) {
    || c == '\t' || c == '\n' || c == '\U{000B}' || c == '\U{000C}' || c == '\r' || c == ' '
    || c == '\U{00A0}' || c == '\U{1680}' || ('\U{2000}' <= c <= '\U{200A}')
    || c == '\U{2028}' || c == '\U{2029}' || c == '\U{202F}' || c == '\U{205F}'
    || c == '\U{3000}' || c == '\U{FEFF}'
  }

  function LowerChar(c: char): (d: char)
    ensures 'A' <= c <= 'Z' ==> d as int == c as int + 32
    ensures !('A' <= c <= 'Z') ==> d == c
  {
    if 'A' <= c <= 'Z' then (c as int + 32) as char else c
  }

  /** Lower-casing, restricted to the ASCII letters. */
  function Lower(s: string): (r: string)
    ensures |r| == |s|
    ensures forall i :: 0 <= i < |s| ==> r[i] == LowerChar(s[i])
  {
    if |s| == 0 then [] else [LowerChar(s[0])] + Lower(s[1..])
  }

  /** A lower-cased character is no upper-case ASCII letter, and it is white space exactly when the original is. */
  lemma LowerCharShape(c: char)
    ensures !('A' <= LowerChar(c) <= 'Z')
    ensures IsSpace(LowerChar(c)) <==> IsSpace(c)
  {
  }

  /** `s` without its leading white space. */
  function TrimStart(s: string): (r: string)
    ensures |r| <= |s| && r == s[|s| - |r|..]
    ensures forall k :: 0 <= k < |s| - |r| ==> IsSpace(s[k])
    ensures |r| > 0 ==> !IsSpace(r[0])
  {
    if |s| > 0 && IsSpace(s[0]) then
      var r := TrimStart(s[1..]);
      assert forall k :: 1 <= k < |s| - |r| ==> s[k] == s[1..][k - 1];
      r
    else s
  }

  /** `s` without its trailing white space. */
  function TrimEnd(s: string): (r: string)
    ensures |r| <= |s| && r == s[..|r|]
    ensures forall k :: |r| <= k < |s| ==> IsSpace(s[k])
    ensures |r| > 0 ==> !IsSpace(r[|r| - 1])
  {
    if |s| > 0 && IsSpace(s[|s| - 1]) then
      var r := TrimEnd(s[..|s| - 1]);
      assert forall k :: |r| <= k < |s| - 1 ==> s[k] == s[..|s| - 1][k];
      r
    else s
  }

  /** Everything of `s` before `i` and from `j` on is white space. */
  predicate OnlySpaceOutside(s: string, i: int, j: int) {
    0 <= i <= j <= |s| && (forall k :: 0 <= k < i ==> IsSpace(s[k])) && (forall k :: j <= k < |s| ==> IsSpace(s[k]))
  }

  /** A contiguous piece of `s`, with only white space cut off at either end and none left at either end. */
  function Trim(s: string): (r: string)
    ensures exists i, j :: OnlySpaceOutside(s, i, j) && r == s[i..j]
    ensures |r| > 0 ==> !IsSpace(r[0]) && !IsSpace(r[|r| - 1])
  {
    var t := TrimStart(s);
    var r := TrimEnd(t);
    TrimBothEnds(s, t, r);
    r
  }

  /**
   * A start-trimmed `t` of `s`, end-trimmed to `r`, leaves a piece of `s` with
   * only white space outside it and none at either end.
   */
  lemma TrimBothEnds(s: string, t: string, r: string)
    requires |t| <= |s| && t == s[|s| - |t|..] && forall k :: 0 <= k < |s| - |t| ==> IsSpace(s[k])
    requires |t| > 0 ==> !IsSpace(t[0])
    requires |r| <= |t| && r == t[..|r|] && forall k :: |r| <= k < |t| ==> IsSpace(t[k])
    requires |r| > 0 ==> !IsSpace(r[|r| - 1])
    ensures OnlySpaceOutside(s, |s| - |t|, |s| - |t| + |r|) && r == s[|s| - |t|..|s| - |t| + |r|]
    ensures |r| > 0 ==> !IsSpace(r[0]) && !IsSpace(r[|r| - 1])
  {
    var i, j := |s| - |t|, |s| - |t| + |r|;
    assert r == s[i..j];
    forall k | j <= k < |s| ensures IsSpace(s[k]) {
      assert s[k] == t[k - i];
    }
    if |r| > 0 {
      assert r[0] == t[0];
    }
  }

  /** White space around a piece of the lower-cased message is white space in the message itself. */
  lemma LowerKeepsSpace(message: string, l: string, i: int, j: int)
    requires l == Lower(message) && OnlySpaceOutside(l, i, j)
    ensures OnlySpaceOutside(message, i, j)
  {
    forall k | 0 <= k < i ensures IsSpace(message[k]) {
      LowerCharShape(message[k]);
    }
    forall k | j <= k < |message| ensures IsSpace(message[k]) {
      LowerCharShape(message[k]);
    }
  }

  /** No piece of the lower-cased message holds an upper-case ASCII letter. */
  lemma LowerSliceNoUpper(message: string, l: string, i: nat, j: nat, r: string)
    requires l == Lower(message) && i <= j <= |l| && r == l[i..j]
    ensures forall k :: 0 <= k < |r| ==> !('A' <= r[k] <= 'Z')
  {
    forall k | 0 <= k < |r| ensures !('A' <= r[k] <= 'Z') {
      LowerCharShape(message[i + k]);
    }
  }

  /** `r` is the lower-cased piece `i..j` of `message`, with only white space outside it. */
  predicate TrimmedPiece(message: string, r: string, i: int, j: int) {
    OnlySpaceOutside(message, i, j) && r == Lower(message)[i..j]
  }

  /** The shape of `r`, the trimmed lower-cased message `l`. */
  lemma NormalizeShape(message: string, l: string, r: string)
    requires l == Lower(message) && r == Trim(l)
    ensures exists i, j :: TrimmedPiece(message, r, i, j)
    ensures forall k :: 0 <= k < |r| ==> !('A' <= r[k] <= 'Z')
  {
    var i, j :| OnlySpaceOutside(l, i, j) && r == l[i..j];
    LowerKeepsSpace(message, l, i, j);
    LowerSliceNoUpper(message, l, i, j, r);
    assert TrimmedPiece(message, r, i, j);
  }

  /**
   * The message as the selector sees it: lower-cased, then trimmed. The result
   * is a contiguous piece of the lower-cased message, with only white space cut
   * off at either end, none left at either end, and no upper-case ASCII letter.
   */
  function Normalize(message: string): (r: string)
    ensures |r| <= |message|
    ensures exists i, j :: TrimmedPiece(message, r, i, j)
    ensures |r| > 0 ==> !IsSpace(r[0]) && !IsSpace(r[|r| - 1])
    ensures forall k :: 0 <= k < |r| ==> !('A' <= r[k] <= 'Z')
  {
    var l := Lower(message);
    NormalizeShape(message, l, Trim(l));
    Trim(l)
  }

  /** `sub` occurs in `s` at position `i`. */
  predicate OccursAt(s: string, sub: string, i: nat) {
    i + |sub| <= |s| && s[i..i + |sub|] == sub
  }

  /** String.prototype.includes. */
  predicate Includes(s: string, sub: string) {
    exists i: nat | i <= |s| :: OccursAt(s, sub, i)
  }

  predicate IncludesAny(s: string, subs: seq<string>) {
    exists w | w in subs :: Includes(s, w)
  }

  /** The regular-expression word characters. */
  predicate IsWordChar(c: char) {
    ('a' <= c <= 'z') || ('A' <= c <= 'Z') || ('0' <= c <= '9') || c == '_'
  }

  /** The `\b` assertion at position `i`: a word character on exactly one side. */
  predicate Boundary(s: string, i: nat) {
    var before := 0 < i <= |s| && IsWordChar(s[i - 1]);
    var after := i < |s| && IsWordChar(s[i]);
    before != after
  }

  /** `w` occurs at `i` as a whole word: a word boundary on both sides. */
  predicate WordAt(s: string, w: string, i: nat) {
    OccursAt(s, w, i) && Boundary(s, i) && Boundary(s, i + |w|)
  }

  const GreetingWords: seq<string> := ["hi", "hello", "hey", "good morning", "good afternoon", "good evening", "howdy"]
  const ThanksWords: seq<string> := ["thank you", "thanks", "thank", "thx"]

  /** `^(hi|hello|...|howdy)\b`: the message starts with one of the greeting words, as a whole word. */
  predicate StartsWithGreeting(msg: string) {
    StartsWithWordOf(msg, GreetingWords)
  }

  /** One of the words `ws` occurs as a whole word at the start of `msg`. */
  predicate StartsWithWordOf(msg: string, ws: seq<string>) {
    exists w | w in ws :: WordAt(msg, w, 0)
  }

  /** `\b(thank you|thanks|thank|thx)\b`: one of the thanks words occurs as a whole word. */
  predicate ContainsThanks(msg: string) {
    exists w, i: nat | w in ThanksWords && i <= |msg| :: WordAt(msg, w, i)
  }

  // ---------------------------------------------------------------- intents

  datatype Intent =
    | Greeting | HowAreYou | Thanks | ReorderQuery | ProfitLossQuery | VarianceQuery
    | AlertQuery | OrderQuery | InventoryQuery | HelpQuery | GoodTime | Fallback

  /** The intents in the order they are tried; Fallback answers when none matches. */
  const Intents: seq<Intent> := [Greeting, HowAreYou, Thanks, ReorderQuery, ProfitLossQuery, VarianceQuery,
                                 AlertQuery, OrderQuery, InventoryQuery, HelpQuery, GoodTime]

  /** Whether `msg` (already normalized) triggers intent `i`. */
  predicate Matches(i: Intent, msg: string) {
    match i
    case Greeting => StartsWithGreeting(msg)
    case HowAreYou => IncludesAny(msg, ["how are you", "how do you do"])
    case Thanks => ContainsThanks(msg)
    case ReorderQuery => IncludesAny(msg, ["reorder", "low stock", "out of stock"])
    case ProfitLossQuery => IncludesAny(msg, ["profit", "loss", "revenue", "financial", "earning"])
    case VarianceQuery => IncludesAny(msg, ["variance", "highest variance", "biggest difference"])
    case AlertQuery => IncludesAny(msg, ["alert", "notification", "warning"])
    case OrderQuery => IncludesAny(msg, ["order", "production"])
    case InventoryQuery => IncludesAny(msg, ["inventory", "stock", "item"])
    case HelpQuery => IncludesAny(msg, ["help", "what can you do", "what can you"])
    case GoodTime => IncludesAny(msg, ["good morning", "good night", "good evening"])
    case Fallback => true
  }

  /** The first intent of `intents` that `msg` matches, or Fallback. */
  function FirstMatch(intents: seq<Intent>, msg: string): (r: Intent)
    requires Fallback !in intents
    ensures r == Fallback <==> forall k :: 0 <= k < |intents| ==> !Matches(intents[k], msg)
    ensures r != Fallback ==>
      exists k :: 0 <= k < |intents| && intents[k] == r && Matches(r, msg)
                  && forall j :: 0 <= j < k ==> !Matches(intents[j], msg)
  {
    if |intents| == 0 then Fallback
    else if Matches(intents[0], msg) then intents[0]
    else
      var r := FirstMatch(intents[1..], msg);
      assert r != Fallback ==> exists k :: 1 <= k < |intents| && intents[k] == r && Matches(r, msg)
                                 && forall j :: 0 <= j < k ==> !Matches(intents[j], msg) by {
        if r != Fallback {
          var k :| 0 <= k < |intents[1..]| && intents[1..][k] == r && Matches(r, msg)
                   && forall j :: 0 <= j < k ==> !Matches(intents[1..][j], msg);
          assert intents[k + 1] == r;
          forall j | 0 <= j < k + 1 ensures !Matches(intents[j], msg) {
            if j > 0 { assert intents[j] == intents[1..][j - 1]; }
          }
        }
      }
      r
  }

  /**
   * The intent the selector answers a normalized message with: an intent that
   * matches and that no earlier intent pre-empts, or Fallback exactly when no
   * intent matches.
   */
  function Classify(msg: string): (r: Intent)
    ensures r == Fallback <==> forall i | i in Intents :: !Matches(i, msg)
    ensures r != Fallback ==>
      exists k :: 0 <= k < |Intents| && Intents[k] == r && Matches(r, msg)
                  && forall j :: 0 <= j < k ==> !Matches(Intents[j], msg)
  {
    var r := FirstMatch(Intents, msg);
    assert r == Fallback ==> forall i | i in Intents :: !Matches(i, msg) by {
      if r == Fallback {
        forall i | i in Intents ensures !Matches(i, msg) {
          var k :| 0 <= k < |Intents| && Intents[k] == i;
        }
      }
    }
    r
  }

  // ---------------------------------------------------------------- context

  /** The figures the chatbot reads, built from the requesting user's records. */
  datatype Context = Context(
    totalOrders: nat,
    actualUsages: seq<Usage>,
    lowStockItems: seq<Item>,
    recentAlerts: seq<Alert>,
    profitOrders: nat,
    lossOrders: nat)

  function Prefix<T>(s: seq<T>, n: nat): (r: seq<T>)
    ensures |r| == if |s| < n then |s| else n
    ensures r == s[..|r|]
    ensures forall x | x in r :: x in s
  {
    if |s| < n then s else s[..n]
  }

  /** The user's items flagged for reorder, in store order: each of them and nothing else. */
  function Flagged(user: UserId, items: seq<Item>): (r: seq<Item>)
    ensures forall it | it in r :: it in items && it.userId == user && it.alertStatus
    ensures forall it | it in items && it.userId == user && it.alertStatus :: it in r
  {
    var mine := Where(items, ItemOwner, user);
    assert forall it | it in items && it.userId == user :: it in mine by {
      forall it | it in items && it.userId == user ensures it in mine {
        assert ItemOwner(it) == user;
      }
    }
    Filter(mine, NeedsReorder)
  }

  /**
   * The context of a chatbot request: the number of the user's orders, the
   * first ten of the user's usages, the user's flagged items, the first five of
   * the user's unread alerts, and the profit and loss counts over all the
   * user's usages.
   */
  function BuildContext(user: UserId, orders: seq<Order>, usages: seq<Usage>, items: seq<Item>, alerts: seq<Alert>)
    : (c: Context)
    ensures c.totalOrders == |VarianceReport(user, orders, usages)|
    ensures |c.actualUsages| == if |Where(usages, UsageOwner, user)| < 10 then |Where(usages, UsageOwner, user)| else 10
    ensures c.actualUsages == Where(usages, UsageOwner, user)[..|c.actualUsages|]
    ensures forall u | u in c.actualUsages :: u in usages && u.userId == user
    ensures |c.lowStockItems| == |ReorderReport(user, items)|
    ensures forall it | it in c.lowStockItems :: it in items && it.userId == user && it.alertStatus
    ensures forall it | it in items && it.userId == user && it.alertStatus :: it in c.lowStockItems
    ensures c.lowStockItems == Filter(Where(items, ItemOwner, user), NeedsReorder)
    ensures |c.recentAlerts| == if |Filter(Where(alerts, AlertOwner, user), IsUnread)| < 5
                                 then |Filter(Where(alerts, AlertOwner, user), IsUnread)| else 5
    ensures forall a | a in c.recentAlerts :: a in alerts && a.userId == user && !a.isRead
    ensures c.recentAlerts == Filter(Where(alerts, AlertOwner, user), IsUnread)[..|c.recentAlerts|]
    ensures c.profitOrders + c.lossOrders <= |Where(usages, UsageOwner, user)|
  {
    var myUsages := Where(usages, UsageOwner, user);
    FilterPartition(myUsages, IsProfit, IsLoss, IsBalanced);
    Context(
      |Where(orders, OrderOwner, user)|,
      Prefix(myUsages, 10),
      Flagged(user, items),
      Prefix(Filter(Where(alerts, AlertOwner, user), IsUnread), 5),
      |Filter(myUsages, IsProfit)|,
      |Filter(myUsages, IsLoss)|)
  }

  // ---------------------------------------------------------------- answers

  datatype Overall = OverallProfit | OverallLoss | OverallBalanced
  datatype DayPart = Night | Evening | Morning

  /** An answer, by the figures it reports. */
  datatype Reply =
    | Welcome
    | Wellbeing(totalOrders: nat, needingAttention: nat)
    | YoureWelcome
    | WellStocked
    | ReorderList(items: seq<(string, real)>)
    | NoOrdersYet
    | Financial(overall: Overall, profitable: nat, losses: nat, tracked: nat)
    | NoVarianceData
    | HighestVariance(orderId: string, variance: real, status: UsageStatus)
    | UnreadAlerts(count: nat)
    | OrdersOverview(total: nat, profitable: nat, losses: nat, pending: int)
    | InventoryOverview(needingReorder: nat)
    | Capabilities
    | Salutation(part: DayPart)
    | Overview(total: nat, profitable: nat, losses: nat, needingReorder: nat, unread: nat)

  /**
   * Index of the usage with the largest absolute variance, the first one among
   * equals: the fold keeps the running maximum unless a later one is strictly larger.
   */
  function HighestIndex(s: seq<Usage>): (k: nat)
    requires |s| > 0
    ensures k < |s|
    ensures forall j :: 0 <= j < |s| ==> Abs(s[j].variance) <= Abs(s[k].variance)
    ensures forall j :: 0 <= j < k ==> Abs(s[j].variance) < Abs(s[k].variance)
  {
    if |s| == 1 then 0
    else
      var m := HighestIndex(s[..|s| - 1]);
      if Abs(s[|s| - 1].variance) > Abs(s[m].variance) then |s| - 1 else m
  }

  function OverallOf(profit: nat, loss: nat): (o: Overall)
    ensures o == OverallProfit <==> profit > loss
    ensures o == OverallLoss <==> loss > profit
    ensures o == OverallBalanced <==> profit == loss
  {
    if profit > loss then OverallProfit else if loss > profit then OverallLoss else OverallBalanced
  }

  function DayPartOf(msg: string): (d: DayPart)
    ensures d == Night <==> Includes(msg, "night")
    ensures d == Evening <==> !Includes(msg, "night") && Includes(msg, "evening")
  {
    if Includes(msg, "night") then Night else if Includes(msg, "evening") then Evening else Morning
  }

  /**
   * The answer to intent `i` for message `msg` in context `c`: each intent has
   * its own kind of answer, the reorder, financial and variance intents say
   * when there is nothing to report, and each answer carries the figures of
   * the context it reports.
   */
  function Answer(i: Intent, msg: string, c: Context): (r: Reply)
    ensures r == Welcome <==> i == Greeting
    ensures r.Wellbeing? <==> i == HowAreYou
    ensures r.Wellbeing? ==> r.totalOrders == c.totalOrders && r.needingAttention == |c.lowStockItems|
    ensures r == YoureWelcome <==> i == Thanks
    ensures r == WellStocked <==> i == ReorderQuery && |c.lowStockItems| == 0
    ensures r.ReorderList? <==> i == ReorderQuery && |c.lowStockItems| > 0
    ensures r.ReorderList? ==> |r.items| == |c.lowStockItems| && forall k :: 0 <= k < |r.items| ==>
      r.items[k] == (c.lowStockItems[k].itemName, c.lowStockItems[k].reorderQuantity)
    ensures r == NoOrdersYet <==> i == ProfitLossQuery && c.totalOrders == 0
    ensures r.Financial? <==> i == ProfitLossQuery && c.totalOrders > 0
    ensures r.Financial? ==>
      r.profitable == c.profitOrders && r.losses == c.lossOrders && r.tracked == c.totalOrders
      && (r.overall == OverallProfit <==> c.profitOrders > c.lossOrders)
      && (r.overall == OverallLoss <==> c.lossOrders > c.profitOrders)
    ensures r == NoVarianceData <==> i == VarianceQuery && |c.actualUsages| == 0
    ensures r.HighestVariance? <==> i == VarianceQuery && |c.actualUsages| > 0
    ensures r.HighestVariance? ==> exists k :: (0 <= k < |c.actualUsages|
      && c.actualUsages[k].orderId == r.orderId && c.actualUsages[k].variance == r.variance
      && c.actualUsages[k].status == r.status
      && (forall j :: 0 <= j < |c.actualUsages| ==> Abs(c.actualUsages[j].variance) <= Abs(r.variance))
      && (forall j :: 0 <= j < k ==> Abs(c.actualUsages[j].variance) < Abs(r.variance)))
    ensures r.UnreadAlerts? <==> i == AlertQuery
    ensures r.UnreadAlerts? ==> r.count == |c.recentAlerts|
    ensures r.OrdersOverview? <==> i == OrderQuery
    ensures r.OrdersOverview? ==> (r.total == c.totalOrders && r.profitable == c.profitOrders
      && r.losses == c.lossOrders && r.total == r.profitable + r.losses + r.pending)
    ensures r.InventoryOverview? <==> i == InventoryQuery
    ensures r.InventoryOverview? ==> r.needingReorder == |c.lowStockItems|
    ensures r == Capabilities <==> i == HelpQuery
    ensures r.Salutation? <==> i == GoodTime
    ensures r.Salutation? ==> ((r.part == Night <==> Includes(msg, "night"))
      && (r.part == Evening <==> !Includes(msg, "night") && Includes(msg, "evening")))
    ensures r.Overview? <==> i == Fallback
    ensures r.Overview? ==> (r.total == c.totalOrders && r.profitable == c.profitOrders && r.losses == c.lossOrders
      && r.needingReorder == |c.lowStockItems| && r.unread == |c.recentAlerts|)
  {
    match i
    case Greeting => Welcome
    case HowAreYou => Wellbeing(c.totalOrders, |c.lowStockItems|)
    case Thanks => YoureWelcome
    case ReorderQuery =>
      if |c.lowStockItems| == 0 then WellStocked
      else ReorderList(seq(|c.lowStockItems|, k requires 0 <= k < |c.lowStockItems| =>
                             (c.lowStockItems[k].itemName, c.lowStockItems[k].reorderQuantity)))
    case ProfitLossQuery =>
      if c.totalOrders == 0 then NoOrdersYet
      else Financial(OverallOf(c.profitOrders, c.lossOrders), c.profitOrders, c.lossOrders, c.totalOrders)
    case VarianceQuery =>
      if |c.actualUsages| == 0 then NoVarianceData
      else
        var h := c.actualUsages[HighestIndex(c.actualUsages)];
        HighestVariance(h.orderId, h.variance, h.status)
    case AlertQuery => UnreadAlerts(|c.recentAlerts|)
    case OrderQuery =>
      OrdersOverview(c.totalOrders, c.profitOrders, c.lossOrders, c.totalOrders - c.profitOrders - c.lossOrders)
    case InventoryQuery => InventoryOverview(|c.lowStockItems|)
    case HelpQuery => Capabilities
    case GoodTime => Salutation(DayPartOf(msg))
    case Fallback => Overview(c.totalOrders, c.profitOrders, c.lossOrders, |c.lowStockItems|, |c.recentAlerts|)
  }

  /**
   * generateMockResponse: normalize, pick the first matching intent, answer it.
   * A message that starts with a greeting word is greeted whatever else it
   * asks, and the overview answers exactly the messages no intent matches.
   */
  function MockResponse(message: string, c: Context): (r: Reply)
    ensures r == Answer(Classify(Normalize(message)), Normalize(message), c)
    ensures r == Welcome <==> StartsWithGreeting(Normalize(message))
    ensures r.Overview? <==> forall i | i in Intents :: !Matches(i, Normalize(message))
  {
    var msg := Normalize(message);
    assert StartsWithGreeting(msg) ==> Matches(Intents[0], msg);
    Answer(Classify(msg), msg, c)
  }

  /** What the chatbot endpoint does with a request. */
  datatype ChatOutcome = MessageRequired | Local(reply: Reply) | Remote

  /** The placeholder key of the sample environment file, which counts as no key. */
  const PlaceholderKey: string := "your_gemini_api_key_here"

  /**
   * POST /api/chatbot: a missing or empty message is refused; without a
   * usable API key the local selector answers; otherwise the request goes to
   * the remote model, whose answer is outside this model.
   */
  function Chat(user: UserId, message: Option<string>, apiKey: Option<string>,
                orders: seq<Order>, usages: seq<Usage>, items: seq<Item>, alerts: seq<Alert>): (r: ChatOutcome)
    ensures r == MessageRequired <==> !TruthyText(message)
    ensures r.Local? <==> TruthyText(message) && (!TruthyText(apiKey) || apiKey.value == PlaceholderKey)
    ensures r.Local? ==> r.reply == MockResponse(message.value, BuildContext(user, orders, usages, items, alerts))
  {
    if !TruthyText(message) then MessageRequired
    else if !TruthyText(apiKey) || apiKey.value == PlaceholderKey then
      Local(MockResponse(message.value, BuildContext(user, orders, usages, items, alerts)))
    else Remote
  }

  // ---------------------------------------------------------------- lemmas

  /** A greeting pre-empts a later question. */
  lemma GreetingBeforeProfit()
    ensures Classify("hello, what is my profit") == Greeting
  {
    assert OccursAt("hello, what is my profit", "hello", 0);
    assert WordAt("hello, what is my profit", "hello", 0);
    assert Matches(Greeting, "hello, what is my profit");
  }

  /** A word two of whose adjacent letters, at `k` and `k + 1`, never occur side by side in `s` does not occur in `s`. */
  lemma PairAbsent(s: string, w: string, k: nat)
    requires k + 1 < |w|
    requires forall i :: 0 <= i < |s| - 1 ==> !(s[i] == w[k] && s[i + 1] == w[k + 1])
    ensures !Includes(s, w)
  {
    forall i: nat | i <= |s| ensures !OccursAt(s, w, i) {
      if i + |w| <= |s| {
        assert s[i..i + |w|][k] == s[i + k] && s[i..i + |w|][k + 1] == s[i + k + 1];
      }
    }
  }

  /** A word that differs from the start of `s` at position `k` does not occur at its start. */
  lemma DiffersAt(s: string, w: string, k: nat)
    requires k < |w| && k < |s| && s[k] != w[k]
    ensures !OccursAt(s, w, 0)
  {
    if |w| <= |s| {
      assert s[0..|w|][k] == s[k];
    }
  }

  /**
   * `\b` needs a word to end where it ends: none of the words `ws`, each
   * ending in a word character, starts `msg` as a whole word when each of
   * them that `msg` begins with runs on into a further word character.
   */
  lemma NoneIsWordAtStart(msg: string, ws: seq<string>)
    requires forall w | w in ws :: |w| > 0 && IsWordChar(w[|w| - 1])
    requires forall w | w in ws && OccursAt(msg, w, 0) :: |w| < |msg| && IsWordChar(msg[|w|])
    ensures !StartsWithWordOf(msg, ws)
  {
    forall w | w in ws ensures !WordAt(msg, w, 0) {
      RunOnIsNoWord(msg, w);
    }
  }

  /** A word ending in a word character that runs on into another one at the start of `msg` is not a whole word there. */
  lemma RunOnIsNoWord(msg: string, w: string)
    requires |w| > 0 && IsWordChar(w[|w| - 1])
    requires OccursAt(msg, w, 0) ==> |w| < |msg| && IsWordChar(msg[|w|])
    ensures !WordAt(msg, w, 0)
  {
    if OccursAt(msg, w, 0) {
      assert msg[|w| - 1] == msg[0..|w|][|w| - 1];
    }
  }

  /** Every greeting word ends in a word character, so `\b` after it needs a non-word character next. */
  lemma GreetingWordsEndWords()
    ensures forall w | w in GreetingWords :: |w| > 0 && IsWordChar(w[|w| - 1])
  {
    forall w | w in GreetingWords ensures |w| > 0 && IsWordChar(w[|w| - 1]) {
      var n :| 0 <= n < |GreetingWords| && GreetingWords[n] == w;
      assert n == 0 || n == 1 || n == 2 || n == 3 || n == 4 || n == 5 || n == 6;
    }
  }

  const Hippo: string := "hippo alerts"

  /** Every courtesy phrase needs a 'w', a 'k' or an 'x', so a message with none of them is neither "how are you" nor thanks. */
  lemma CourtesyNeedsWKOrX(msg: string)
    requires 'w' !in msg && 'k' !in msg && 'x' !in msg
    ensures !Matches(HowAreYou, msg) && !Matches(Thanks, msg)
  {
    CharAbsent(msg, "how are you", 2);
    CharAbsent(msg, "how do you do", 2);
    CharAbsent(msg, "thank you", 4);
    CharAbsent(msg, "thanks", 4);
    CharAbsent(msg, "thank", 4);
    CharAbsent(msg, "thx", 2);
  }

  /** Every profit phrase needs an 'f', an 'n', a 'v' or a doubled 's', so a message with none of them is no profit question. */
  lemma ProfitNeedsFNVOrDoubleS(msg: string)
    requires 'f' !in msg && 'n' !in msg && 'v' !in msg
    requires forall i :: 0 <= i < |msg| - 1 ==> !(msg[i] == 's' && msg[i + 1] == 's')
    ensures !Matches(ProfitLossQuery, msg)
  {
    CharAbsent(msg, "profit", 3);
    PairAbsent(msg, "loss", 2);
    CharAbsent(msg, "revenue", 2);
    CharAbsent(msg, "financial", 0);
    CharAbsent(msg, "earning", 3);
  }

  /** Every variance phrase needs a 'v' or an 'f', so a message with neither is no variance question. */
  lemma VarianceNeedsVOrF(msg: string)
    requires 'v' !in msg && 'f' !in msg
    ensures !Matches(VarianceQuery, msg)
  {
    CharAbsent(msg, "variance", 0);
    CharAbsent(msg, "highest variance", 8);
    CharAbsent(msg, "biggest difference", 10);
  }

  lemma HippoAsksAboutAlerts()
    ensures Matches(AlertQuery, Hippo)
  {
    assert OccursAt(Hippo, "alert", 6);
    assert Includes(Hippo, "alert");
  }

  /**
   * "hi" is a greeting only as a whole word: a message that starts with "hi"
   * run on into a further word character ("hippo", "history") is no greeting.
   */
  lemma HiRunOnIsNoGreeting(msg: string)
    requires |msg| > 2 && msg[0] == 'h' && msg[1] == 'i' && IsWordChar(msg[2])
    ensures !StartsWithGreeting(msg)
  {
    forall w | w in GreetingWords && w != "hi" ensures !OccursAt(msg, w, 0) {
      if w[0] == 'g' { DiffersAt(msg, w, 0); } else { DiffersAt(msg, w, 1); }
    }
    GreetingWordsEndWords();
    NoneIsWordAtStart(msg, GreetingWords);
  }

  /** A word that needs a character `s` lacks does not occur in `s`. */
  lemma CharAbsent(s: string, w: string, k: nat)
    requires k < |w| && w[k] !in s
    ensures !Includes(s, w)
  {
    forall i: nat | i <= |s| ensures !OccursAt(s, w, i) {
      if i + |w| <= |s| {
        assert s[i..i + |w|][k] == s[i + k];
      }
    }
  }

  /** Every stock phrase needs a 'd' or a 'k', so a message with neither is no reorder question. */
  lemma ReorderNeedsDOrK(msg: string)
    requires 'd' !in msg && 'k' !in msg
    ensures !Matches(ReorderQuery, msg)
  {
    CharAbsent(msg, "reorder", 4);
    CharAbsent(msg, "low stock", 8);
    CharAbsent(msg, "out of stock", 11);
  }

  /** The greeting needs a whole word: "hippo" is no "hi", so the alert intent answers. */
  lemma GreetingNeedsWholeWord()
    ensures Classify(Hippo) == AlertQuery
  {
    HiRunOnIsNoGreeting(Hippo);
    assert forall c | c in "dfknvwx" :: c !in Hippo;
    CourtesyNeedsWKOrX(Hippo);
    ReorderNeedsDOrK(Hippo);
    ProfitNeedsFNVOrDoubleS(Hippo);
    VarianceNeedsVOrF(Hippo);
    HippoAsksAboutAlerts();
    assert Intents[..6] == [Greeting, HowAreYou, Thanks, ReorderQuery, ProfitLossQuery, VarianceQuery];
  }

  /**
   * The orders answer's Pending figure, in a consistent store, counts the
   * orders without a usage plus the balanced ones; it is never negative.
   */
  lemma PendingCountsUnrecordedAndBalanced(user: UserId, orders: seq<Order>, usages: seq<Usage>, items: seq<Item>, alerts: seq<Alert>)
    requires Consistent(orders, usages, items, alerts)
    ensures var c := BuildContext(user, orders, usages, items, alerts);
      c.totalOrders - c.profitOrders - c.lossOrders
        == |Filter(VarianceReport(user, orders, usages), IsPending)| + |Filter(Where(usages, UsageOwner, user), IsBalanced)|
    ensures var c := BuildContext(user, orders, usages, items, alerts);
      c.totalOrders - c.profitOrders - c.lossOrders >= 0
  {
    var myUsages := Where(usages, UsageOwner, user);
    FilterPartition(myUsages, IsProfit, IsLoss, IsBalanced);
    VarianceReportPendingCount(user, orders, usages, items, alerts);
  }

  /**
   * In a consistent store the context's profit and loss counts are the
   * user's variance-report rows recorded as Profit and as Loss.
   */
  lemma ContextCountsRecordedRows(user: UserId, orders: seq<Order>, usages: seq<Usage>, items: seq<Item>, alerts: seq<Alert>)
    requires Consistent(orders, usages, items, alerts)
    ensures BuildContext(user, orders, usages, items, alerts).profitOrders
         == |Filter(VarianceReport(user, orders, usages), IsProfitRow)|
    ensures BuildContext(user, orders, usages, items, alerts).lossOrders
         == |Filter(VarianceReport(user, orders, usages), IsLossRow)|
  {
    RecordedRowsMatchUsages(user, orders, usages, items, alerts, Profit, IsProfitRow, IsProfit);
    RecordedRowsMatchUsages(user, orders, usages, items, alerts, Loss, IsLossRow, IsLoss);
  }

  /** Lower-casing is idempotent. */
  lemma LowerIdempotent(s: string)
    ensures Lower(Lower(s)) == Lower(s)
  {
  }

  /** Trimming a trimmed string changes nothing. */
  lemma TrimIdempotent(s: string)
    ensures Trim(Trim(s)) == Trim(s)
  {
    var t := Trim(s);
    assert TrimStart(t) == t;
    assert TrimEnd(t) == t;
  }

  /** A piece of a lower-cased string is already lower-case. */
  lemma LowerOfLowerSlice(s: string, i: nat, j: nat)
    requires i <= j <= |s|
    ensures Lower(Lower(s)[i..j]) == Lower(s)[i..j]
  {
    var t := Lower(s)[i..j];
    forall k | 0 <= k < |t| ensures Lower(t)[k] == t[k] {
      assert t[k] == LowerChar(s[i + k]);
    }
  }

  /** Normalizing twice is normalizing once. */
  lemma NormalizeIdempotent(message: string)
    ensures Normalize(Normalize(message)) == Normalize(message)
  {
    var l := Lower(message);
    var t := Trim(l);
    var i, j :| 0 <= i <= j <= |l| && t == l[i..j];
    LowerOfLowerSlice(message, i, j);
    TrimIdempotent(l);
  }
}
