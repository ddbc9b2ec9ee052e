/** The running bot: the two latches and the three logs live in one
    object, and each pass of the main loop updates them in place, in the
    order the loop body does. */
module Agent {
  import opened Wrappers
  import opened Numbers
  import opened Exchange
  import opened Strategy

  class Bot {
    const config: Config
    /** Armed to sell: a sample went above the sell threshold. */
    var above: bool
    /** Armed to buy: a sample went below the buy threshold. */
    var below: bool
    /** The `rawrsi` collection: every RSI sample fetched. */
    var rawRsi: seq<real>
    /** The `rsi` collection: every trade that fired. */
    var trades: seq<TradeRecord>
    /** The orders whose call returned. */
    var orders: seq<Order>

    function Snapshot(): State
      reads this
    {
      State(above, below, rawRsi, trades, orders)
    }

    /** Start-up: both latches down, nothing logged. */
    constructor (config: Config)
      ensures this.config == config
      ensures Snapshot() == Initial
    {
      this.config := config;
      above, below := false, false;
      rawRsi, trades, orders := [], [], [];
    }

    /** The calls of an order; it is recorded once its call returns. */
    method Trade(side: Side, quantity: int, price: Option<real>, callReturns: bool) returns (ok: bool)
      modifies this`orders
      ensures ok == callReturns
      ensures orders == old(orders) + (if ok then [Order(side, LimitOrder, config.ticker, price, quantity)] else [])
    {
      ok := callReturns;
      if ok {
        orders := orders + [Order(side, LimitOrder, config.ticker, price, quantity)];
      }
    }

    /** The sell branch: coin balance, ask price, the order when the
        quantity is non-zero, then the latch is cleared and the trade
        logged. `completed` is false when one of its calls throws, which
        leaves everything as it was. */
    method SellBranch(rsi: real, io: CycleIO) returns (completed: bool)
      modifies this
      ensures completed == SellLeg(config, rsi, io).Returned?
      ensures completed ==> Snapshot() == Record(config, old(Snapshot()).(above := false), SellLeg(config, rsi, io).value)
      ensures !completed ==> Snapshot() == old(Snapshot())
    {
      completed := false;
      var balance := GetQuantity(io.coinBalances, config.coin, config.dp);
      if balance.Threw? {
        return;
      }
      var coinQuantity := ToInt32(balance.value);
      var price := GetCurrentPrice(io.askTicker, config.ticker, Ask);
      if price.Threw? {
        return;
      }
      if coinQuantity != 0 {
        var ok := Trade(Sell, coinQuantity, price.value, io.sellOrderReturns);
        if !ok {
          return;
        }
      }
      above := false;
      trades := trades + [TradeRecord(rsi, price.value, coinQuantity, Sell)];
      completed := true;
    }

    /** The buy branch: rupee balance, bid price, the quantity
        `(balance / price) | 0`, the order when it is non-zero, then the
        latch is cleared and the trade logged. */
    method BuyBranch(rsi: real, io: CycleIO) returns (completed: bool)
      modifies this
      ensures completed == BuyLeg(config, rsi, io).Returned?
      ensures completed ==> Snapshot() == Record(config, old(Snapshot()).(below := false), BuyLeg(config, rsi, io).value)
      ensures !completed ==> Snapshot() == old(Snapshot())
    {
      completed := false;
      var quote := GetQuantity(io.quoteBalances, QuoteCurrency, QuoteDecimals);
      if quote.Threw? {
        return;
      }
      var price := GetCurrentPrice(io.bidTicker, config.ticker, Bid);
      if price.Threw? {
        return;
      }
      var coinToBuy := ToInt32(Quotient(quote.value, price.value));
      if coinToBuy != 0 {
        var ok := Trade(Buy, coinToBuy, price.value, io.buyOrderReturns);
        if !ok {
          return;
        }
      }
      below := false;
      trades := trades + [TradeRecord(rsi, price.value, coinToBuy, Buy)];
      completed := true;
    }

    /** One pass of the main loop. A call that throws ends the pass at
        once (the loop catches it and starts the next pass), keeping what
        was done before it. */
    method Cycle(io: CycleIO)
      modifies this
      ensures Snapshot() == Step(config, old(Snapshot()), io)
    {
      if io.rsi.Threw? {
        return;
      }
      var rsi := io.rsi.value;
      rawRsi := rawRsi + [rsi];
      if rsi > config.sellValue {
        above := true;
      }
      if rsi < config.buyValue {
        below := true;
      }
      if rsi <= config.sellValue && rsi >= config.buyValue {
        if above {
          var sold := SellBranch(rsi, io);
          if !sold {
            return;
          }
        }
        if below {
          var bought := BuyBranch(rsi, io);
        }
      }
    }

    /** A finite stretch of the endless loop: one pass per element of `ios`. */
    method RunCycles(ios: seq<CycleIO>)
      modifies this
      ensures Snapshot() == Run(config, old(Snapshot()), ios)
    {
      var i := 0;
      while i < |ios|
        invariant 0 <= i <= |ios|
        invariant Run(config, Snapshot(), ios[i..]) == Run(config, old(Snapshot()), ios)
      {
        assert ios[i..][1..] == ios[i + 1..];
        Cycle(ios[i]);
        i := i + 1;
      }
    }
  }
}
