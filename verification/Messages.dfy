/** The decoded messages an order book is fed with, one constructor per message type.

    `SymbolIndexMapping` and `Imbalance` carry records that are only ever stored whole; a
    string stands for them. */
module Messages {
  import opened Words

  datatype Body =
    | SymbolIndexMapping(info: string)
    | SecurityStatus(status: char)
    | AddOrder(orderId: u64, price: Price, volume: u64, side: char)
    | ModifyOrder(orderId: u64, price: Price, volume: u64, side: char)
    | DeleteOrder(orderId: u64)
    | OrderExecution(orderId: u64, tradeId: u64, price: Price, volume: u64)
    | ReplaceOrder(orderId: u64, newOrderId: u64, price: Price, volume: u64, side: char)
    | RetailPriceImprovement(indicator: Option<char>)
    | Imbalance(imbalance: string)
    | AddOrderRefresh(orderId: u64, price: Price, volume: u64, side: char)
    | NonDisplayedTrade(tradeId: u64, price: Price, volume: u64)
    | CrossTrade(crossId: u64, price: Price, volume: u64)
    | TradeCancel(tradeId: u64)
    | CrossCorrection(crossId: u64, volume: u64)

}
