/** The messages of the `StockTradingService` RPC schema. */
module Messages {
  import opened JavaInt

  datatype StockRequest = StockRequest(stockSymbol: string)

  /** `price` is a `double` on the wire; it is modelled as a real number. */
  datatype StockResponse = StockResponse(stockSymbol: string, price: real, timestamp: string)

  datatype StockOrder = StockOrder(
    orderId: string,
    stockSymbol: string,
    orderType: string,
    price: int32,
    quantity: int32)

  datatype OrderSummary = OrderSummary(totalOrders: int32, successCount: int32, totalAmount: int32)

  datatype TradeStatus = TradeStatus(orderId: string, status: string, message: string)
}
