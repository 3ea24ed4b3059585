# Stock-trading gRPC service: a Dafny model of the server handlers

This project models the server side of `StockTradingService`, a demonstration
gRPC service with one handler per call shape, together with the in-memory stock
catalog the handlers read:

- `getStockPrice` (unary) looks a symbol up in the catalog, ignoring letter case.
- `subscribeStockPrice` (server streaming) sends ten price ticks, then completes.
- `bulkStockOrder` (client streaming) counts the orders it receives and sends one
  summary when the caller completes.
- `liveTrading` (bidirectional streaming) answers every order with a trade status.

A `StreamObserver` callback (`onNext`, `onError`, `onCompleted`) is modelled as
an `Event` (`Next`, `Error`, `Completed`; module `Observer`). A handler becomes a
transformer: from the calls the gRPC runtime makes on it to the calls it makes on
its response observer.

- `getStockPrice` and the status computation of `liveTrading` are pure functions.
- `subscribeStockPrice` is a method with the source's ten-iteration loop. It is
  proved equal to the specification function `SubscribeLog`.
- The observer returned by `bulkStockOrder` is a class. It has the source's three
  `int` counters and a log of the calls it has made.
- That class keeps a ghost history of what it has received. `Valid()` ties its
  fields to the specification functions `BulkCounters` and `BulkStockOrder`.
- Java `int` arithmetic is modelled exactly (module `JavaInt`). The counters
  wrap modulo 2^32, as Java's `++` and `+=` on `int` do.

The handlers do not check that calls arrive in protocol order, and the model
does not either: the transformers accept any event sequence. The protocol lemmas
take the inputs the gRPC runtime actually produces: orders, then at most one
terminal call.

Files: `java_int.dfy`, `ascii.dfy`, `observer.dfy`, `stock_db.dfy`,
`messages.dfy` (the RPC messages), `trading_service.dfy` (the four handlers),
`client_scenarios.dfy` (the client driver's fixed inputs and further examples).

Three behaviours of the code are worth stating:

- For an unknown symbol, `Optional.get()` throws `NoSuchElementException` before
  anything is sent. The model returns `Threw(NoSuchElement)` and sends no event.
- `totalAmount` accumulates `price * price` in a Java `int`, so the sum wraps.
  `BulkCountersOfOrders` states the wrapped value. `BulkCompletedExact` gives the exact sum
  when nothing overflows, and `BulkStockOrderOverflow` shows one order priced 46341
  giving a negative total.
- Hence the counters never decrease only while nothing overflows
  (`BulkCountersMonotone`). `BulkTotalDecreasesOnOverflow` shows the total falling
  once it overflows.

## Model

| member | source | states |
|---|---|---|
| `JavaInt.Wrap` | stock-trading-server/src/main/java/com/example/service/StockTradingServiceImpl.java:87-89 | Java's `int` results of `++`, `*` and `+=`: the one 32-bit value congruent to the exact result modulo 2^32 |
| `JavaInt.WrapAdd` | stock-trading-server/src/main/java/com/example/service/StockTradingServiceImpl.java:88 | wrapping each operand before an addition gives the same `int` as wrapping once at the end, so per-step overflow equals overflow of the exact total |
| `Ascii.EqualsIgnoreCase` | stock-trading-server/src/main/java/com/example/service/StockTradingServiceImpl.java:36 | `equalsIgnoreCase` on ASCII letters, defined as equal lengths and equal folded characters position by position; its contract states this holds exactly when the lower-cased strings are equal |
| `Ascii.EqualsIgnoreCaseEquivalence` | stock-trading-server/src/main/java/com/example/service/StockTradingServiceImpl.java:36 | `equalsIgnoreCase` is reflexive, symmetric and transitive |
| `StockDB.GetStocksFromDB` | stock-trading-server/src/main/java/com/example/repository/StockDB.java:10-17 | the catalog is exactly (1, "Tata", 20, "1324") then (2, "Lavish Motors", 50, "5757"); names are distinct ignoring case; ids are distinct; as a function it returns the same list on every call |
| `TradingService.FindAny` | stock-trading-server/src/main/java/com/example/service/StockTradingServiceImpl.java:35-36 | a stock is found exactly when some catalog entry's name equals the symbol ignoring case; a found stock is in the catalog and matches |
| `TradingService.FindAnyUnique` | stock-trading-server/src/main/java/com/example/service/StockTradingServiceImpl.java:35-36 | when names are distinct ignoring case, every matching stock is the one found, so `findAny` is deterministic |
| `TradingService.GetStockPrice` | stock-trading-server/src/main/java/com/example/service/StockTradingServiceImpl.java:28-49 | the call throws `NoSuchElement` exactly when no catalog name matches the symbol ignoring case, and then sends nothing; on a match it sends one response, then completes; that response has the stored name (not the request's spelling), the stored price promoted exactly and the stored timestamp |
| `TradingService.SubscribeLog` | stock-trading-server/src/main/java/com/example/service/StockTradingServiceImpl.java:55-71 | what `subscribeStockPrice` sends, defined as the responses up to the first interrupted sleep then `onError`, or ten responses then `onCompleted`; its contract states the stream is closed and ends with `onCompleted` exactly when no sleep is interrupted; further properties are proved in the Subscribe lemmas |
| `TradingService.FirstInterrupt` | stock-trading-server/src/main/java/com/example/service/StockTradingServiceImpl.java:58-70 | the first iteration whose pacing sleep is interrupted, or 10: no earlier iteration is interrupted and, if below 10, that one is |
| `TradingService.SubscribeStockPrice` | stock-trading-server/src/main/java/com/example/service/StockTradingServiceImpl.java:55-71 | the loop sends exactly what `SubscribeLog` specifies: one response per iteration (requested symbol, drawn price, clock value); it stops with `onError` after the response whose sleep is interrupted, or sends `onCompleted` after the tenth |
| `TradingService.SubscribeProtocol` | stock-trading-server/src/main/java/com/example/service/StockTradingServiceImpl.java:56-70 | the stream always ends with exactly one terminal call; at most ten responses are sent; every response echoes the requested symbol |
| `TradingService.SubscribeSuccess` | stock-trading-server/src/main/java/com/example/service/StockTradingServiceImpl.java:58-67 | if no sleep is interrupted, exactly ten responses, each with the requested symbol, are followed by `onCompleted` |
| `TradingService.SubscribeInterrupted` | stock-trading-server/src/main/java/com/example/service/StockTradingServiceImpl.java:64-70 | if the sleep after response k is the first to be interrupted, the stream is k+1 responses, then `onError(Interrupted)` |
| `TradingService.SubscribePriceRange` | stock-trading-server/src/main/java/com/example/service/StockTradingServiceImpl.java:61 | every response price lies in [0, 200) when the random source draws in that range |
| `TradingService.Accept` | stock-trading-server/src/main/java/com/example/service/StockTradingServiceImpl.java:86-89 | the `onNext` counter updates, defined with Java `int` overflow; its contract states equal order and success counts stay equal; the exact values without overflow are proved in `AcceptExact` |
| `TradingService.AcceptExact` | stock-trading-server/src/main/java/com/example/service/StockTradingServiceImpl.java:86-89 | without overflow, `onNext` adds one to `totalOrders` and `successCount` and `price * price` to `totalAmount` |
| `TradingService.BulkCounters` | stock-trading-server/src/main/java/com/example/service/StockTradingServiceImpl.java:80-89 | the counters after a sequence of inbound calls, defined as `Accept` applied at each `onNext` from zero; its contract states `totalOrders` always equals `successCount`; its closed form is proved in `BulkCountersOfOrders` |
| `TradingService.BulkStockOrder` | stock-trading-server/src/main/java/com/example/service/StockTradingServiceImpl.java:77-111 | what the `bulkStockOrder` observer sends, defined as a summary and `onCompleted` at each inbound `onCompleted`; its contract states the output is pairs of a summary followed by `onCompleted` and never holds `onError`; the protocol cases are proved in the Bulk lemmas |
| `TradingService.SumSquares` | stock-trading-server/src/main/java/com/example/service/StockTradingServiceImpl.java:88 | the exact sum of `price * price` over the orders, which is never negative |
| `TradingService.AcceptWrapped` | stock-trading-server/src/main/java/com/example/service/StockTradingServiceImpl.java:86-89 | one `onNext` on counters holding the wrapped n and sum gives the wrapped n+1 and sum + price^2 |
| `TradingService.BulkCountersOfOrders` | stock-trading-server/src/main/java/com/example/service/StockTradingServiceImpl.java:80-89 | after n orders, `totalOrders` = `successCount` = n and `totalAmount` = the sum of squared prices, all modulo 2^32 |
| `TradingService.BulkSilentWhileOpen` | stock-trading-server/src/main/java/com/example/service/StockTradingServiceImpl.java:86-91 | nothing is sent while orders keep arriving |
| `TradingService.BulkCompleted` | stock-trading-server/src/main/java/com/example/service/StockTradingServiceImpl.java:101-109 | on the caller's `onCompleted`, exactly one summary is sent, then `onCompleted`; the summary carries the counters `BulkCounters` gives for the orders received |
| `TradingService.BulkFailed` | stock-trading-server/src/main/java/com/example/service/StockTradingServiceImpl.java:95-97 | on the caller's `onError` nothing at all is sent, not even a terminal call |
| `TradingService.SumSquaresPrefix` | stock-trading-server/src/main/java/com/example/service/StockTradingServiceImpl.java:88 | the sum of squared prices over a prefix of the orders is at most the sum over all of them |
| `TradingService.BulkCountersMonotone` | stock-trading-server/src/main/java/com/example/service/StockTradingServiceImpl.java:80-89 | while the count and the sum of squares fit in an `int`, no counter after the first k orders exceeds its value after all orders |
| `TradingService.BulkCompletedExact` | stock-trading-server/src/main/java/com/example/service/StockTradingServiceImpl.java:80-109 | when the count and the sum of squares fit in an `int`, the summary is exactly (n, n, sum of price^2) |
| `TradingService.BulkOrderObserver.constructor` | stock-trading-server/src/main/java/com/example/service/StockTradingServiceImpl.java:77-82 | a fresh observer per call: counters zero, nothing sent, nothing received |
| `TradingService.BulkOrderObserver.OnNext` | stock-trading-server/src/main/java/com/example/service/StockTradingServiceImpl.java:86-91 | increments `totalOrders` and `successCount` and adds `price * price` to `totalAmount`, each with `int` overflow; sends nothing; stays consistent with the specification |
| `TradingService.BulkOrderObserver.OnError` | stock-trading-server/src/main/java/com/example/service/StockTradingServiceImpl.java:95-97 | changes no counter and sends nothing |
| `TradingService.BulkOrderObserver.OnCompleted` | stock-trading-server/src/main/java/com/example/service/StockTradingServiceImpl.java:101-109 | sends one summary of the current counters, then `onCompleted`; the counters are unchanged |
| `TradingService.ProcessOrder` | stock-trading-server/src/main/java/com/example/service/StockTradingServiceImpl.java:124-135 | copies `orderId`; the status is "Failed - Invalid Price" exactly when price <= 0, and starts with it exactly then; otherwise it is "Order for {symbol} processed successfully."; the message is "Order ID: {id}, Status: {status}" |
| `TradingService.LiveTrading` | stock-trading-server/src/main/java/com/example/service/StockTradingServiceImpl.java:118-150 | what the `liveTrading` observer sends, defined as a status per `onNext`, `onCompleted` per `onCompleted` and nothing per `onError`; its contract states it sends at most one call per inbound call and never `onError`; the order and completion properties are proved in the LiveTrading lemmas |
| `TradingService.LiveTradingAppend` | stock-trading-server/src/main/java/com/example/service/StockTradingServiceImpl.java:118-150 | the observer keeps no state: its output on two concatenated inputs is the concatenation of its outputs |
| `TradingService.LiveTradingOrders` | stock-trading-server/src/main/java/com/example/service/StockTradingServiceImpl.java:121-138 | exactly one status per received order, in receipt order |
| `TradingService.LiveTradingCompleted` | stock-trading-server/src/main/java/com/example/service/StockTradingServiceImpl.java:146-148 | the caller's `onCompleted` is mirrored: one status per order, then `onCompleted`, a closed stream |
| `TradingService.LiveTradingFailed` | stock-trading-server/src/main/java/com/example/service/StockTradingServiceImpl.java:141-143 | after the caller's `onError` nothing more is sent: one status per order and the stream stays open |
| `ClientScenarios.GetStockPriceTata` | stock-trading-server/src/main/java/com/example/service/StockTradingServiceImpl.java:35-47 | "Tata" gives ("Tata", 20.0, "1324"), then completion |
| `ClientScenarios.GetStockPriceIgnoresCase` | stock-trading-server/src/main/java/com/example/service/StockTradingServiceImpl.java:35-47 | "LAVISH MOTORS" gives ("Lavish Motors", 50.0, "5757"), then completion |
| `ClientScenarios.GetStockPriceUnknown` | stock-trading-server/src/main/java/com/example/service/StockTradingServiceImpl.java:35-36 | "NOPE" makes the handler throw `NoSuchElement` |
| `ClientScenarios.BulkStockOrderClient` | stock-trading-client/src/main/java/com/example/service/StockTradingClient.java:98-123 | the client's three orders give the summary (3, 3, 7802500), then completion |
| `ClientScenarios.PlaceBulkStockOrder` | stock-trading-client/src/main/java/com/example/service/StockTradingClient.java:98-123 | driving a fresh observer with the client's three orders and `onCompleted` sends (3, 3, 7802500), then completion |
| `ClientScenarios.BulkStockOrderOverflow` | stock-trading-server/src/main/java/com/example/service/StockTradingServiceImpl.java:81-88 | one order priced 46341 makes the reported total -2147479015, because 46341^2 does not fit in an `int` |
| `ClientScenarios.BulkTotalDecreasesOnOverflow` | stock-trading-server/src/main/java/com/example/service/StockTradingServiceImpl.java:81-88 | after one order priced 46341 `totalAmount` is below its initial zero, so the counters are not monotone once they overflow |
| `ClientScenarios.LiveTradingClient` | stock-trading-client/src/main/java/com/example/service/StockTradingClient.java:151-163 | the five orders `order-0` to `order-4` (price 150 + 10i) are each answered "Order for AAPL processed successfully.", in order, then completion |
| `ClientScenarios.LiveTradingInvalidPrice` | stock-trading-server/src/main/java/com/example/service/StockTradingServiceImpl.java:127-135 | an order priced 0 is answered "Failed - Invalid Price" with message "Order ID: order-x, Status: Failed - Invalid Price" |

## Left out

- Randomness and time in `subscribeStockPrice`. `new Random().nextDouble(200)` and
  `Instant.now()` are parameters `random` and `clock`, indexed by iteration.
  Prices are real numbers, not IEEE doubles.
- Pacing. The one-second sleep is left out. Only whether it is interrupted is
  kept, as the parameter `interrupted`.
- A failing `onNext` inside `subscribeStockPrice` is not modelled, because it
  needs the transport, for instance a cancelled call. The `catch` path is modelled
  only through an interrupted sleep.
- Cancellation, deadlines and the concurrent execution of calls are left out,
  because they belong to the gRPC runtime.
- The gRPC runtime's conversion of an exception into a call status is left out.
  An unknown symbol is reported as `Threw(NoSuchElement)`.
- `System.out.println` logging in the handlers is left out, because it is I/O.
- `equalsIgnoreCase` is modelled for ASCII letters only. Java's full Unicode case
  mapping is a foreign library.
- `TradingService.GetStockPrice`: because case folding is ASCII only, it misses
  matches that Java finds. Java upper-cases each character before comparing, so
  'ı' (U+0131) and 'İ' (U+0130) match 'i', and 'ſ' (U+017F) matches 's'. For
  "Lavısh Motors" the model throws `NoSuchElement`, while Java answers with the
  "Lavish Motors" record.
- The protobuf schema is not part of this model. The model assumes that `price`,
  `quantity` and the summary fields are 32-bit `int`s. The Java code would
  compile just as well with `int64` or `double` fields. With `int64` prices the
  stored total would be the same modulo 2^32, but prices outside the `int` range
  would be possible.
- The client driver, the HTTP controller and the application bootstrap are left
  out. They hold no logic of their own. Only the client's fixed order lists are
  reused, as concrete inputs in `ClientScenarios`.
