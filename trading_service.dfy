/** The server side of `StockTradingService`: the four RPC handlers.

    Every handler is modelled by what it does to the observers involved: the
    calls the gRPC runtime makes on the handler (an event sequence in) and the
    calls the handler makes on the call's response observer (an event sequence
    out). The handlers do not guard against calls that the gRPC runtime never
    makes (an event after a terminal one), and neither does the model: the
    transformers accept any event sequence, and the lemmas about the protocol
    take inputs of the form `Nexts(orders) + [terminal]`. */
module TradingService {
  import opened JavaInt
  import opened Ascii
  import opened Observer
  import opened StockDB
  import opened Messages

  datatype Option<T> = None | Some(value: T)

  // ------------------------------------------------------------------
  // getStockPrice (unary)
  // ------------------------------------------------------------------

  /** `stocks.stream().filter(s -> s.name.equalsIgnoreCase(name)).findAny()`.
      On a sequential stream this yields the first match; lemma
      `FindAnyUnique` shows the choice does not matter when names are distinct. */
  function FindAny(stocks: seq<Stock>, name: string): (r: Option<Stock>)
    ensures r.Some? <==> exists i :: 0 <= i < |stocks| && EqualsIgnoreCase(stocks[i].name, name)
    ensures r.Some? ==> r.value in stocks && EqualsIgnoreCase(r.value.name, name)
  {
    if stocks == [] then None
    else if EqualsIgnoreCase(stocks[0].name, name) then Some(stocks[0])
    else
      var r := FindAny(stocks[1..], name);
      assert forall i :: 1 <= i < |stocks| ==> stocks[i] == stocks[1..][i - 1];
      r
  }

  /** When no two names are equal ignoring case, every stock that matches is
      the one `findAny` returns: the lookup is deterministic. */
  lemma FindAnyUnique(stocks: seq<Stock>, name: string)
    requires NamesDistinct(stocks)
    ensures forall s :: s in stocks && EqualsIgnoreCase(s.name, name) ==> FindAny(stocks, name) == Some(s)
  {
    forall s | s in stocks && EqualsIgnoreCase(s.name, name)
      ensures FindAny(stocks, name) == Some(s)
    {
      var r := FindAny(stocks, name);
      var i :| 0 <= i < |stocks| && stocks[i] == r.value;
      var j :| 0 <= j < |stocks| && stocks[j] == s;
      EqualsIgnoreCaseEquivalence(stocks[i].name, name, stocks[j].name);
      EqualsIgnoreCaseEquivalence(stocks[j].name, name, stocks[i].name);
    }
  }

  /** `getStockPrice`: look the requested symbol up in the catalog ignoring
      case. On a hit, send one response carrying the stored name (not the
      request's spelling), the stored price promoted exactly to a `double`
      and the stored timestamp, then complete. On a miss `Optional.get()`
      throws before anything is sent. */
  function GetStockPrice(request: StockRequest): (r: Outcome<StockResponse>)
    ensures r.Threw? <==>
      forall s :: s in GetStocksFromDB() ==> !EqualsIgnoreCase(s.name, request.stockSymbol)
    ensures r.Threw? ==> r.exception == NoSuchElement
    ensures forall s :: s in GetStocksFromDB() && EqualsIgnoreCase(s.name, request.stockSymbol) ==>
      r == Returned([Next(StockResponse(s.name, s.price as real, s.timestamp)), Completed])
  {
    FindAnyUnique(GetStocksFromDB(), request.stockSymbol);
    match FindAny(GetStocksFromDB(), request.stockSymbol)
    case None => Threw(NoSuchElement)
    case Some(stock) =>
      Returned([Next(StockResponse(stock.name, stock.price as real, stock.timestamp)), Completed])
  }

  // ------------------------------------------------------------------
  // subscribeStockPrice (server streaming)
  // ------------------------------------------------------------------

  /** The bound of the loop. */
  const Iterations: nat := 10

  /** The upper bound `nextDouble(200)` draws below. */
  const PriceBound: real := 200.0

  /** The responses of the first `n` iterations: the requested symbol, the
      price drawn and the time read at each iteration. */
  function Ticks(symbol: string, random: nat -> real, clock: nat -> string, n: nat): (r: seq<Event<StockResponse>>)
    ensures |r| == n && Open(r)
  {
    Nexts(seq(n, k requires 0 <= k < n => StockResponse(symbol, random(k), clock(k))))
  }

  /** The first iteration, from `from` on, whose pacing sleep is interrupted;
      `Iterations` if none is. */
  function FirstInterrupt(interrupted: nat -> bool, from: nat): (k: nat)
    requires from <= Iterations
    ensures from <= k <= Iterations
    ensures forall j :: from <= j < k ==> !interrupted(j)
    ensures k < Iterations ==> interrupted(k)
    decreases Iterations - from
  {
    if from == Iterations then Iterations
    else if interrupted(from) then from
    else FirstInterrupt(interrupted, from + 1)
  }

  /** What `subscribeStockPrice` sends: a response per iteration until the
      sleep after one of them is interrupted, which the `catch` turns into
      `onError`; otherwise ten responses and `onCompleted`. */
  function SubscribeLog(symbol: string, random: nat -> real, clock: nat -> string, interrupted: nat -> bool): (r: seq<Event<StockResponse>>)
    ensures Closed(r)
    ensures r[|r| - 1] == Completed <==> forall i :: 0 <= i < Iterations ==> !interrupted(i)
  {
    var k := FirstInterrupt(interrupted, 0);
    if k < Iterations then Ticks(symbol, random, clock, k + 1) + [Error(Interrupted)]
    else Ticks(symbol, random, clock, Iterations) + [Completed]
  }

  /** `subscribeStockPrice`. `random(i)` is the value `new Random().nextDouble(200)`
      yields at iteration `i`, `clock(i)` the text of `Instant.now()` there, and
      `interrupted(i)` whether the one-second sleep after the `i`-th response
      throws. */
  method SubscribeStockPrice(request: StockRequest, random: nat -> real, clock: nat -> string, interrupted: nat -> bool)
    returns (sent: seq<Event<StockResponse>>)
    ensures sent == SubscribeLog(request.stockSymbol, random, clock, interrupted)
  {
    var stockName := request.stockSymbol;
    sent := [];
    var i := 0;
    while i < Iterations
      invariant 0 <= i <= Iterations
      invariant forall j :: 0 <= j < i ==> !interrupted(j)
      invariant sent == Ticks(stockName, random, clock, i)
    {
      var response := StockResponse(stockName, random(i), clock(i));
      sent := sent + [Next(response)];
      assert sent == Ticks(stockName, random, clock, i + 1);
      if interrupted(i) {
        assert FirstInterrupt(interrupted, 0) == i by {
          FirstInterruptAt(interrupted, 0, i);
        }
        sent := sent + [Error(Interrupted)];
        return;
      }
      i := i + 1;
    }
    FirstInterruptAt(interrupted, 0, Iterations);
    sent := sent + [Completed];
  }

  lemma {:induction false} FirstInterruptAt(interrupted: nat -> bool, from: nat, k: nat)
    requires from <= k <= Iterations
    requires forall j :: from <= j < k ==> !interrupted(j)
    requires k < Iterations ==> interrupted(k)
    ensures FirstInterrupt(interrupted, from) == k
    decreases k - from
  {
    if from < k {
      FirstInterruptAt(interrupted, from + 1, k);
    }
  }

  /** The stream is always closed by exactly one terminal call, every response
      echoes the requested symbol, and at most ten are sent. */
  lemma SubscribeProtocol(symbol: string, random: nat -> real, clock: nat -> string, interrupted: nat -> bool)
    ensures Closed(SubscribeLog(symbol, random, clock, interrupted))
    ensures CountNext(SubscribeLog(symbol, random, clock, interrupted)) <= Iterations
    ensures forall e :: e in SubscribeLog(symbol, random, clock, interrupted) && e.Next? ==> e.value.stockSymbol == symbol
  {
    var log := SubscribeLog(symbol, random, clock, interrupted);
    var k := FirstInterrupt(interrupted, 0);
    var n := if k < Iterations then k + 1 else Iterations;
    assert log[..|log| - 1] == Ticks(symbol, random, clock, n);
  }

  /** On the success path (no sleep is interrupted) exactly ten responses are
      sent, then `onCompleted`. */
  lemma SubscribeSuccess(symbol: string, random: nat -> real, clock: nat -> string, interrupted: nat -> bool)
    requires forall i :: 0 <= i < Iterations ==> !interrupted(i)
    ensures var log := SubscribeLog(symbol, random, clock, interrupted);
      |log| == Iterations + 1 && log[Iterations] == Completed && CountNext(log) == Iterations &&
      forall i :: 0 <= i < Iterations ==> log[i].Next? && log[i].value.stockSymbol == symbol
  {
    FirstInterruptAt(interrupted, 0, Iterations);
    var log := SubscribeLog(symbol, random, clock, interrupted);
    assert log[..Iterations] == Ticks(symbol, random, clock, Iterations);
  }

  /** An interrupted sleep after the `k`-th response ends the stream with
      `onError` right after that response. */
  lemma SubscribeInterrupted(symbol: string, random: nat -> real, clock: nat -> string, interrupted: nat -> bool, k: nat)
    requires k < Iterations && interrupted(k)
    requires forall i :: 0 <= i < k ==> !interrupted(i)
    ensures var log := SubscribeLog(symbol, random, clock, interrupted);
      |log| == k + 2 && log[k + 1] == Error(Interrupted) && CountNext(log) == k + 1
  {
    FirstInterruptAt(interrupted, 0, k);
    var log := SubscribeLog(symbol, random, clock, interrupted);
    assert log[..k + 1] == Ticks(symbol, random, clock, k + 1);
  }

  /** Prices lie in [0, 200) whenever the random source keeps its promise. */
  lemma SubscribePriceRange(symbol: string, random: nat -> real, clock: nat -> string, interrupted: nat -> bool)
    requires forall i: nat :: 0.0 <= random(i) < PriceBound
    ensures forall e :: e in SubscribeLog(symbol, random, clock, interrupted) && e.Next? ==>
      0.0 <= e.value.price < PriceBound
  {
  }

  // ------------------------------------------------------------------
  // bulkStockOrder (client streaming)
  // ------------------------------------------------------------------

  /** The three per-call counters of the anonymous observer. */
  datatype Counters = Counters(totalOrders: int32, totalAmount: int32, successCount: int32)

  /** What `onNext` does to the counters, with Java's `int` overflow. */
  function Accept(c: Counters, order: StockOrder): (r: Counters)
    ensures c.totalOrders == c.successCount ==> r.totalOrders == r.successCount
  {
    Counters(
      Wrap(c.totalOrders + 1),
      Wrap(c.totalAmount + Wrap(order.price * order.price)),
      Wrap(c.successCount + 1))
  }

  /** Without overflow `onNext` adds one to both counts and the squared price
      to the total. */
  lemma AcceptExact(c: Counters, order: StockOrder)
    ensures c.totalOrders < MaxInt ==> Accept(c, order).totalOrders == c.totalOrders + 1
    ensures c.successCount < MaxInt ==> Accept(c, order).successCount == c.successCount + 1
    ensures c.totalAmount + order.price * order.price <= MaxInt ==>
      Accept(c, order).totalAmount == c.totalAmount + order.price * order.price
  {
    WrapFits(c.totalOrders + 1);
    WrapFits(c.successCount + 1);
    WrapAdd(c.totalAmount, order.price * order.price);
    WrapInRange(c.totalAmount);
    WrapFits(c.totalAmount + order.price * order.price);
  }

  function Summarize(c: Counters): OrderSummary
  {
    OrderSummary(c.totalOrders, c.successCount, c.totalAmount)
  }

  /** The counters after the observer has received `received`. */
  function BulkCounters(received: seq<Event<StockOrder>>): (r: Counters)
    ensures r.totalOrders == r.successCount
  {
    if received == [] then Counters(0, 0, 0)
    else
      var before := BulkCounters(received[..|received| - 1]);
      match received[|received| - 1]
      case Next(order) => Accept(before, order)
      case _ => before
  }

  /** What the observer has sent on the response observer after receiving
      `received`: a summary and `onCompleted` at each `onCompleted`, nothing
      otherwise. */
  function BulkStockOrder(received: seq<Event<StockOrder>>): (r: seq<Event<OrderSummary>>)
    ensures |r| % 2 == 0
    ensures forall i :: 0 <= i < |r| ==> if i % 2 == 0 then r[i].Next? else r[i] == Completed
  {
    if received == [] then []
    else
      var before := received[..|received| - 1];
      BulkStockOrder(before) +
        if received[|received| - 1] == Completed
        then [Next(Summarize(BulkCounters(before))), Completed]
        else []
  }

  /** The total the source intends: the sum of `price * price`, unbounded. */
  function SumSquares(orders: seq<StockOrder>): (r: int)
    ensures r >= 0
  {
    if orders == [] then 0
    else
      var p := orders[|orders| - 1].price;
      SumSquares(orders[..|orders| - 1]) + p * p
  }

  lemma NextsPrefix<T>(xs: seq<T>)
    requires xs != []
    ensures Nexts(xs)[..|xs| - 1] == Nexts(xs[..|xs| - 1])
  {
  }

  /** After `n` orders, `totalOrders` and `successCount` are `n` and
      `totalAmount` is the sum of the squared prices, all modulo 2^32. */
  lemma {:induction false} BulkCountersOfOrders(orders: seq<StockOrder>)
    ensures BulkCounters(Nexts(orders)) ==
      Counters(Wrap(|orders|), Wrap(SumSquares(orders)), Wrap(|orders|))
  {
    if orders == [] {
      WrapInRange(0);
    } else {
      var init := orders[..|orders| - 1];
      var p := orders[|orders| - 1].price;
      NextsPrefix(orders);
      assert BulkCounters(Nexts(orders)) == Accept(BulkCounters(Nexts(init)), orders[|orders| - 1]);
      BulkCountersOfOrders(init);
      AcceptWrapped(|init|, SumSquares(init), orders[|orders| - 1]);
    }
  }

  lemma AcceptWrapped(n: int, sum: int, order: StockOrder)
    ensures Accept(Counters(Wrap(n), Wrap(sum), Wrap(n)), order) ==
      Counters(Wrap(n + 1), Wrap(sum + order.price * order.price), Wrap(n + 1))
  {
    WrapInRange(1);
    WrapAdd(n, 1);
    WrapAdd(sum, order.price * order.price);
  }

  /** While orders keep arriving nothing is sent. */
  lemma {:induction false} BulkSilentWhileOpen(orders: seq<StockOrder>)
    ensures BulkStockOrder(Nexts(orders)) == []
  {
    if orders != [] {
      NextsPrefix(orders);
      BulkSilentWhileOpen(orders[..|orders| - 1]);
    }
  }

  /** On the caller's `onCompleted`: exactly one summary carrying the current
      counters (given by `BulkCountersOfOrders`), then `onCompleted`. */
  lemma BulkCompleted(orders: seq<StockOrder>)
    ensures BulkStockOrder(Nexts(orders) + [Completed]) ==
      [Next(Summarize(BulkCounters(Nexts(orders)))), Completed]
  {
    var received := Nexts(orders) + [Completed];
    assert received[..|received| - 1] == Nexts(orders);
    BulkSilentWhileOpen(orders);
  }

  /** On the caller's `onError` nothing is sent, not even a terminal call. */
  lemma BulkFailed(orders: seq<StockOrder>, cause: Throwable)
    ensures BulkStockOrder(Nexts(orders) + [Error(cause)]) == []
  {
    var received := Nexts(orders) + [Error(cause)];
    assert received[..|received| - 1] == Nexts(orders);
    BulkSilentWhileOpen(orders);
  }

  /** The sum over a prefix is at most the sum over the whole. */
  lemma {:induction false} SumSquaresPrefix(orders: seq<StockOrder>, k: nat)
    requires k <= |orders|
    ensures SumSquares(orders[..k]) <= SumSquares(orders)
    decreases |orders| - k
  {
    if k < |orders| {
      var init := orders[..|orders| - 1];
      assert orders[..k] == init[..k];
      SumSquaresPrefix(init, k);
    } else {
      assert orders[..k] == orders;
    }
  }

  /** While nothing overflows, the counters never decrease as orders arrive.
      Once the total overflows this fails (see `BulkStockOrderOverflow`). */
  lemma BulkCountersMonotone(orders: seq<StockOrder>, k: nat)
    requires k <= |orders| <= MaxInt && SumSquares(orders) <= MaxInt
    ensures var before, after := BulkCounters(Nexts(orders[..k])), BulkCounters(Nexts(orders));
      before.totalOrders <= after.totalOrders &&
      before.totalAmount <= after.totalAmount &&
      before.successCount <= after.successCount
  {
    SumSquaresPrefix(orders, k);
    BulkCountersOfOrders(orders[..k]);
    BulkCountersOfOrders(orders);
    WrapInRange(k);
    WrapInRange(|orders|);
    WrapInRange(SumSquares(orders[..k]));
    WrapInRange(SumSquares(orders));
  }

  /** Without overflow the summary is exact: `n`, `n` and the sum of squares. */
  lemma BulkCompletedExact(orders: seq<StockOrder>)
    requires |orders| <= MaxInt && SumSquares(orders) <= MaxInt
    ensures BulkStockOrder(Nexts(orders) + [Completed]) ==
      [Next(OrderSummary(|orders|, |orders|, SumSquares(orders))), Completed]
  {
    BulkCompleted(orders);
    BulkCountersOfOrders(orders);
    WrapInRange(|orders|);
    WrapInRange(SumSquares(orders));
  }

  /** The observer `bulkStockOrder` returns. `responses` records the calls it
      makes on the call's response observer; the ghost `received` records the
      calls the runtime has made on it. */
  class BulkOrderObserver {
    var totalOrders: int32
    var totalAmount: int32
    var successCount: int32
    var responses: seq<Event<OrderSummary>>
    ghost var received: seq<Event<StockOrder>>

    function Tally(): Counters
      reads this
    {
      Counters(totalOrders, totalAmount, successCount)
    }

    /** The fields are those the specification gives for what was received. */
    ghost predicate Valid()
      reads this
    {
      Tally() == BulkCounters(received) && responses == BulkStockOrder(received)
    }

    constructor ()
      ensures Valid() && received == []
      ensures totalOrders == 0 && totalAmount == 0 && successCount == 0 && responses == []
    {
      totalOrders, totalAmount, successCount := 0, 0, 0;
      responses := [];
      received := [];
    }

    method OnNext(order: StockOrder)
      requires Valid()
      modifies this
      ensures Valid() && received == old(received) + [Next(order)]
      ensures totalOrders == Wrap(old(totalOrders) + 1)
      ensures totalAmount == Wrap(old(totalAmount) + Wrap(order.price * order.price))
      ensures successCount == Wrap(old(successCount) + 1)
      ensures responses == old(responses)
    {
      totalOrders := Wrap(totalOrders + 1);
      totalAmount := Wrap(totalAmount + Wrap(order.price * order.price));
      successCount := Wrap(successCount + 1);
      received := received + [Next(order)];
      assert received[..|received| - 1] == old(received);
    }

    method OnError(cause: Throwable)
      requires Valid()
      modifies this
      ensures Valid() && received == old(received) + [Error(cause)]
      ensures Tally() == old(Tally()) && responses == old(responses)
    {
      received := received + [Error(cause)];
      assert received[..|received| - 1] == old(received);
    }

    method OnCompleted()
      requires Valid()
      modifies this
      ensures Valid() && received == old(received) + [Completed]
      ensures responses == old(responses) + [Next(OrderSummary(totalOrders, successCount, totalAmount)), Completed]
      ensures Tally() == old(Tally())
    {
      var summary := OrderSummary(totalOrders, successCount, totalAmount);
      responses := responses + [Next(summary)];
      responses := responses + [Completed];
      received := received + [Completed];
      assert received[..|received| - 1] == old(received);
    }
  }

  // ------------------------------------------------------------------
  // liveTrading (bidirectional streaming)
  // ------------------------------------------------------------------

  const InvalidPriceStatus: string := "Failed - Invalid Price"

  function SuccessStatus(symbol: string): string
  {
    "Order for " + symbol + " processed successfully."
  }

  /** `onNext` of the `liveTrading` observer: the status of one order. */
  function ProcessOrder(order: StockOrder): (r: TradeStatus)
    ensures r.orderId == order.orderId
    ensures r.status == InvalidPriceStatus <==> order.price <= 0
    ensures InvalidPriceStatus <= r.status <==> order.price <= 0
    ensures order.price > 0 ==> r.status == SuccessStatus(order.stockSymbol)
    ensures r.message == "Order ID: " + order.orderId + ", Status: " + r.status
  {
    var statusMessage := SuccessStatus(order.stockSymbol);
    var message := "Order ID: " + order.orderId + ", Status: " + statusMessage;
    assert statusMessage[0] == 'O' != InvalidPriceStatus[0];
    if order.price <= 0 then
      TradeStatus(order.orderId, InvalidPriceStatus, "Order ID: " + order.orderId + ", Status: " + InvalidPriceStatus)
    else
      TradeStatus(order.orderId, statusMessage, message)
  }

  /** What the `liveTrading` observer sends after receiving `received`: a
      status per order, `onCompleted` when the caller completes, nothing on
      the caller's error. */
  function LiveTrading(received: seq<Event<StockOrder>>): (r: seq<Event<TradeStatus>>)
    ensures |r| <= |received|
    ensures forall i :: 0 <= i < |r| ==> !r[i].Error?
  {
    if received == [] then []
    else
      LiveTrading(received[..|received| - 1]) +
        match received[|received| - 1]
        case Next(order) => [Next(ProcessOrder(order))]
        case Completed => [Completed]
        case Error(_) => []
  }

  /** The handler reacts to each inbound call on its own: its output on a
      concatenation is the concatenation of its outputs. */
  lemma {:induction false} LiveTradingAppend(a: seq<Event<StockOrder>>, b: seq<Event<StockOrder>>)
    ensures LiveTrading(a + b) == LiveTrading(a) + LiveTrading(b)
    decreases |b|
  {
    if b != [] {
      var b' := b[..|b| - 1];
      assert (a + b)[..|a + b| - 1] == a + b';
      assert (a + b)[|a + b| - 1] == b[|b| - 1];
      LiveTradingAppend(a, b');
    } else {
      assert a + b == a;
    }
  }

  /** Exactly one status per order, in the order received. */
  lemma {:induction false} LiveTradingOrders(orders: seq<StockOrder>)
    ensures var out := LiveTrading(Nexts(orders));
      |out| == |orders| && forall i :: 0 <= i < |orders| ==> out[i] == Next(ProcessOrder(orders[i]))
  {
    if orders != [] {
      NextsPrefix(orders);
      LiveTradingOrders(orders[..|orders| - 1]);
    }
  }

  /** Completion is mirrored: the output is closed exactly when the input is
      completed. */
  lemma LiveTradingCompleted(orders: seq<StockOrder>)
    ensures var out := LiveTrading(Nexts(orders) + [Completed]);
      Closed(out) && |out| == |orders| + 1 && out[|orders|] == Completed &&
      forall i :: 0 <= i < |orders| ==> out[i] == Next(ProcessOrder(orders[i]))
  {
    LiveTradingAppend(Nexts(orders), [Completed]);
    var last: seq<Event<StockOrder>> := [Completed];
    assert LiveTrading(last) == [Completed] by {
      assert last[..0] == [];
    }
    LiveTradingOrders(orders);
  }

  /** On the caller's error no further call is made: the output stays open. */
  lemma LiveTradingFailed(orders: seq<StockOrder>, cause: Throwable)
    ensures var out := LiveTrading(Nexts(orders) + [Error(cause)]);
      Open(out) && |out| == |orders| &&
      forall i :: 0 <= i < |orders| ==> out[i] == Next(ProcessOrder(orders[i]))
  {
    LiveTradingAppend(Nexts(orders), [Error(cause)]);
    var last: seq<Event<StockOrder>> := [Error(cause)];
    assert LiveTrading(last) == [] by {
      assert last[..0] == [];
    }
    LiveTradingOrders(orders);
  }
}
