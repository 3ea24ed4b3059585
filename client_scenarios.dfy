/** Concrete calls: the inputs the client driver sends and further
    examples, with what the handlers answer. */
module ClientScenarios {
  import opened JavaInt
  import opened Ascii
  import opened Observer
  import opened StockDB
  import opened Messages
  import opened TradingService

  /** An exact-case lookup returns the stored record. */
  lemma GetStockPriceTata()
    ensures GetStockPrice(StockRequest("Tata")) ==
      Returned([Next(StockResponse("Tata", 20.0, "1324")), Completed])
  {
    assert Stocks[0] in GetStocksFromDB();
  }

  /** The match ignores case and the response carries the stored spelling. */
  lemma GetStockPriceIgnoresCase()
    ensures GetStockPrice(StockRequest("LAVISH MOTORS")) ==
      Returned([Next(StockResponse("Lavish Motors", 50.0, "5757")), Completed])
  {
    assert EqualsIgnoreCase("Lavish Motors", "LAVISH MOTORS") by {
      assert Lower("Lavish Motors") == "lavish motors";
      assert Lower("LAVISH MOTORS") == "lavish motors";
    }
    assert Stocks[1] in GetStocksFromDB();
  }

  /** An unknown symbol makes the handler throw without sending anything. */
  lemma GetStockPriceUnknown()
    ensures GetStockPrice(StockRequest("NOPE")) == Threw(NoSuchElement)
  {
    assert !EqualsIgnoreCase("Tata", "NOPE") by {
      assert ToLower("Tata"[0]) != ToLower("NOPE"[0]);
    }
  }

  /** The three orders `placeBulkStockOrder` sends. */
  const BulkOrders: seq<StockOrder> := [
    StockOrder("1", "AAPL", "BUY", 150, 10),
    StockOrder("2", "GOOGL", "SELL", 2700, 5),
    StockOrder("3", "TSLA", "BUY", 700, 8)
  ]

  /** The client's bulk order yields 3 orders, 3 successes and a total of
      150^2 + 2700^2 + 700^2 = 7,802,500. */
  lemma BulkStockOrderClient()
    ensures BulkStockOrder(Nexts(BulkOrders) + [Completed]) ==
      [Next(OrderSummary(3, 3, 7802500)), Completed]
  {
    var o := BulkOrders;
    assert o[..1][..0] == [];
    assert SumSquares(o[..1]) == 22500;
    assert o[..2][..1] == o[..1];
    assert SumSquares(o[..2]) == 22500 + 7290000;
    assert o[..|o| - 1] == o[..2];
    assert SumSquares(o) == 22500 + 7290000 + 490000;
    BulkCompletedExact(BulkOrders);
  }

  /** `placeBulkStockOrder` driving the observer `bulkStockOrder` returns. */
  method PlaceBulkStockOrder() returns (responses: seq<Event<OrderSummary>>)
    ensures responses == [Next(OrderSummary(3, 3, 7802500)), Completed]
  {
    var observer := new BulkOrderObserver();
    WrapInRange(1);
    WrapInRange(2);
    WrapInRange(3);
    WrapInRange(22500);
    WrapInRange(7290000);
    WrapInRange(490000);
    WrapInRange(22500 + 7290000);
    WrapInRange(7802500);
    observer.OnNext(BulkOrders[0]);
    observer.OnNext(BulkOrders[1]);
    observer.OnNext(BulkOrders[2]);
    observer.OnCompleted();
    responses := observer.responses;
  }

  /** A single order priced 46341 already overflows: 46341^2 exceeds the
      largest `int`, so the reported total is negative. */
  lemma BulkStockOrderOverflow()
    ensures BulkStockOrder(Nexts([StockOrder("1", "AAPL", "BUY", 46341, 1)]) + [Completed]) ==
      [Next(OrderSummary(1, 1, -2147479015)), Completed]
  {
    var orders := [StockOrder("1", "AAPL", "BUY", 46341, 1)];
    assert SumSquares(orders) == 2147488281 by {
      assert orders[..0] == [];
    }
    BulkCompleted(orders);
    BulkCountersOfOrders(orders);
    WrapInRange(1);
    Int32Congruent(Wrap(2147488281), -2147479015);
  }

  /** Once the total overflows the counters are no longer monotone: after the
      order priced 46341 the total is below its initial zero. */
  lemma BulkTotalDecreasesOnOverflow()
    ensures var orders := [StockOrder("1", "AAPL", "BUY", 46341, 1)];
      BulkCounters(Nexts(orders)).totalAmount < BulkCounters(Nexts(orders[..0])).totalAmount
  {
    var orders := [StockOrder("1", "AAPL", "BUY", 46341, 1)];
    assert SumSquares(orders) == 2147488281 by {
      assert orders[..0] == [];
    }
    BulkCountersOfOrders(orders);
    BulkCountersOfOrders(orders[..0]);
    WrapInRange(0);
    Int32Congruent(Wrap(2147488281), -2147479015);
  }

  /** The `i`-th order `startTrading` sends. */
  function LiveOrder(i: nat): StockOrder
    requires i < 5
  {
    StockOrder("order-" + [('0' as int + i) as char], "AAPL", "BUY", 150 + i * 10, 10 + i)
  }

  /** Every order `startTrading` sends has a positive price, so each is
      answered as processed, in order, and the stream completes. */
  lemma LiveTradingClient()
    ensures var orders := seq(5, i requires 0 <= i < 5 => LiveOrder(i));
      var out := LiveTrading(Nexts(orders) + [Completed]);
      |out| == 6 && out[5] == Completed &&
      forall i :: 0 <= i < 5 ==> out[i] == Next(TradeStatus(
        orders[i].orderId,
        "Order for AAPL processed successfully.",
        "Order ID: " + orders[i].orderId + ", Status: " + "Order for AAPL processed successfully."))
  {
    var orders := seq(5, i requires 0 <= i < 5 => LiveOrder(i));
    LiveTradingCompleted(orders);
    var processed := "Order for AAPL processed successfully.";
    assert SuccessStatus("AAPL") == processed by {
      assert |SuccessStatus("AAPL")| == |processed|;
      forall k | 0 <= k < |processed| ensures SuccessStatus("AAPL")[k] == processed[k] {
      }
    }
    forall i | 0 <= i < 5
      ensures ProcessOrder(orders[i]).status == "Order for AAPL processed successfully."
    {
      assert orders[i].price > 0 && orders[i].stockSymbol == "AAPL";
    }
  }

  /** A zero price is rejected in the status, not as an RPC error. */
  lemma LiveTradingInvalidPrice()
    ensures LiveTrading(Nexts([StockOrder("order-x", "AAPL", "BUY", 0, 1)])) ==
      [Next(TradeStatus("order-x", "Failed - Invalid Price", "Order ID: order-x, Status: Failed - Invalid Price"))]
  {
    var order := StockOrder("order-x", "AAPL", "BUY", 0, 1);
    var message := "Order ID: order-x, Status: Failed - Invalid Price";
    assert ProcessOrder(order) == TradeStatus("order-x", InvalidPriceStatus, message) by {
      var built := "Order ID: " + "order-x" + ", Status: " + InvalidPriceStatus;
      assert |built| == |message|;
      forall k | 0 <= k < |message| ensures built[k] == message[k] {
      }
    }
    LiveTradingOrders([order]);
    var out := LiveTrading(Nexts([order]));
    assert |out| == 1 && out[0] == Next(ProcessOrder(order));
  }
}
