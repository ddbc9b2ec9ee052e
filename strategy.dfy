/** One pass of the bot's main loop as a function of the state before it
    and of what the outside world answers during it: the RSI sample is
    logged, the two hysteresis latches are armed, and inside the band an
    armed latch fires a sell or a buy. A call that throws abandons the
    rest of the pass, keeping every change made before it. */
module Strategy {
  import opened Wrappers
  import opened Numbers
  import opened Exchange

  /** The settings read once at start-up: the two RSI thresholds, the
      number of fractional digits kept of the coin balance, the market
      traded and the coin held. */
  datatype Config = Config(sellValue: real, buyValue: real, dp: nat, ticker: string, coin: string)

  datatype Side = Buy | Sell

  /** A row of the trade history: the RSI that triggered the trade, the
      price read (None when the market was missing), the quantity
      computed and the side. */
  datatype TradeRecord = TradeRecord(value: real, price: Option<real>, qty: int, action: Side)

  /** The body of an order sent to the exchange (its timestamp left out). */
  datatype Order = Order(side: Side, orderType: string, market: string, price: Option<real>, quantity: int)

  /** What the outside world answers during one pass: the RSI fetch; for
      the sell leg the balances response, the ticker response and whether
      the order call returns; the same three for the buy leg. */
  datatype CycleIO = CycleIO(
    rsi: Outcome<real>,
    coinBalances: Outcome<seq<BalanceEntry>>,
    askTicker: Outcome<seq<TickerEntry>>,
    sellOrderReturns: bool,
    quoteBalances: Outcome<seq<BalanceEntry>>,
    bidTicker: Outcome<seq<TickerEntry>>,
    buyOrderReturns: bool)

  /** The two latches (`above`: armed to sell, `below`: armed to buy),
      the logged RSI samples, the trade history and the orders whose
      call returned. */
  datatype State = State(above: bool, below: bool, rawRsi: seq<real>, trades: seq<TradeRecord>, orders: seq<Order>)

  const LimitOrder: string := "limit_order"
  const QuoteCurrency: string := "INR"
  const QuoteDecimals: nat := 2

  /** Both latches down and nothing logged: the state at start-up. */
  const Initial: State := State(false, false, [], [], [])

  /** The closed band [buyValue, sellValue] in which an armed latch fires. */
  predicate InBand(c: Config, rsi: real)
  {
    c.buyValue <= rsi <= c.sellValue
  }

  /** Whether a sample arms the latch of `side`. */
  predicate Arms(c: Config, rsi: real, side: Side)
  {
    match side
    case Sell => rsi > c.sellValue
    case Buy => rsi < c.buyValue
  }

  function Latch(s: State, side: Side): bool
  {
    match side
    case Sell => s.above
    case Buy => s.below
  }

  /** The order a trade record goes with: none for a zero quantity. */
  function OrderFor(c: Config, rec: TradeRecord): seq<Order>
  {
    if rec.qty != 0 then [Order(rec.action, LimitOrder, c.ticker, rec.price, rec.qty)] else []
  }

  /** The orders that go with a run of trade records, in order. */
  function OrdersFor(c: Config, recs: seq<TradeRecord>): seq<Order>
  {
    if recs == [] then [] else OrderFor(c, recs[0]) + OrdersFor(c, recs[1..])
  }

  /** The orders of a longer history are those of its parts, in order. */
  lemma {:induction false} OrdersForAppend(c: Config, a: seq<TradeRecord>, b: seq<TradeRecord>)
    ensures OrdersFor(c, a + b) == OrdersFor(c, a) + OrdersFor(c, b)
  {
    if a == [] {
      assert a + b == b;
    } else {
      assert (a + b)[1..] == a[1..] + b;
      OrdersForAppend(c, a[1..], b);
    }
  }

  /** The calls of the sell branch: the coin balance truncated with `| 0`,
      the ask price, and the order when the quantity is non-zero. It gives
      the record to append, or throws. */
  function SellLeg(c: Config, rsi: real, io: CycleIO): (r: Outcome<TradeRecord>)
    // it throws exactly when a request throws, the balance has no point,
    // or a non-zero order's call throws
    ensures r.Threw? <==>
      GetQuantity(io.coinBalances, c.coin, c.dp).Threw? || io.askTicker.Threw?
      || (ToInt32(GetQuantity(io.coinBalances, c.coin, c.dp).value) != 0 && !io.sellOrderReturns)
    ensures r.Returned? ==> r.value.action == Sell && r.value.value == rsi
    ensures r.Returned? ==> r.value.qty == ToInt32(GetQuantity(io.coinBalances, c.coin, c.dp).value)
    ensures r.Returned? ==> r.value.price == PriceOf(io.askTicker.value, c.ticker, Ask)
    ensures r.Returned? && r.value.qty != 0 ==> io.sellOrderReturns
    ensures io.coinBalances.Threw? || io.askTicker.Threw? ==> r.Threw?
    ensures r.Returned? ==> -TwoTo31 <= r.value.qty < TwoTo31
  {
    match GetQuantity(io.coinBalances, c.coin, c.dp)
    case Threw => Threw
    case Returned(balance) =>
      var qty := ToInt32(balance);
      match GetCurrentPrice(io.askTicker, c.ticker, Ask)
      case Threw => Threw
      case Returned(price) =>
        if qty != 0 && !io.sellOrderReturns then Threw
        else Returned(TradeRecord(rsi, price, qty, Sell))
  }

  /** The calls of the buy branch: the rupee balance (two decimals), the
      bid price, the quantity `(balance / price) | 0`, and the order when
      it is non-zero. A missing market or price gives quantity 0. */
  function BuyLeg(c: Config, rsi: real, io: CycleIO): (r: Outcome<TradeRecord>)
    // it throws exactly when a request throws, the balance has no point,
    // or a non-zero order's call throws
    ensures r.Threw? <==>
      GetQuantity(io.quoteBalances, QuoteCurrency, QuoteDecimals).Threw? || io.bidTicker.Threw?
      || (ToInt32(Quotient(GetQuantity(io.quoteBalances, QuoteCurrency, QuoteDecimals).value,
                           PriceOf(io.bidTicker.value, c.ticker, Bid))) != 0
          && !io.buyOrderReturns)
    ensures r.Returned? ==> r.value.action == Buy && r.value.value == rsi
    ensures r.Returned? ==> r.value.price == PriceOf(io.bidTicker.value, c.ticker, Bid)
    ensures r.Returned? ==> (r.value.qty ==
      ToInt32(Quotient(GetQuantity(io.quoteBalances, QuoteCurrency, QuoteDecimals).value, r.value.price)))
    ensures r.Returned? && r.value.qty != 0 ==> io.buyOrderReturns
    ensures r.Returned? && r.value.price.None? ==> r.value.qty == 0
    ensures io.quoteBalances.Threw? || io.bidTicker.Threw? ==> r.Threw?
  {
    match GetQuantity(io.quoteBalances, QuoteCurrency, QuoteDecimals)
    case Threw => Threw
    case Returned(quote) =>
      match GetCurrentPrice(io.bidTicker, c.ticker, Bid)
      case Threw => Threw
      case Returned(price) =>
        var qty := ToInt32(Quotient(quote, price));
        if qty != 0 && !io.buyOrderReturns then Threw
        else Returned(TradeRecord(rsi, price, qty, Buy))
  }

  /** Append a fired trade: its order (if any) and its record. */
  function Record(c: Config, s: State, rec: TradeRecord): (r: State)
    ensures r.rawRsi == s.rawRsi && r.above == s.above && r.below == s.below
    ensures r.trades == s.trades + [rec] && r.orders == s.orders + OrdersFor(c, [rec])
  {
    assert [rec][1..] == [];
    s.(orders := s.orders + OrderFor(c, rec), trades := s.trades + [rec])
  }

  /** The buy branch, run after the sell branch has returned. */
  function BuyPhase(c: Config, rsi: real, io: CycleIO, s: State): (r: State)
    ensures r.rawRsi == s.rawRsi && s.trades <= r.trades && |r.trades| <= |s.trades| + 1
    ensures r.orders == s.orders + OrdersFor(c, r.trades[|s.trades|..])
  {
    if !s.below then s
    else match BuyLeg(c, rsi, io)
      case Threw => s
      case Returned(rec) => Record(c, s.(below := false), rec)
  }

  /** The in-band part of a pass: the sell branch if its latch is armed,
      then, unless the sell branch threw, the buy branch. */
  function FirePhase(c: Config, rsi: real, io: CycleIO, s: State): (r: State)
    ensures r.rawRsi == s.rawRsi && s.trades <= r.trades && |r.trades| <= |s.trades| + 2
    ensures r.orders == s.orders + OrdersFor(c, r.trades[|s.trades|..])
  {
    if !s.above then BuyPhase(c, rsi, io, s)
    else match SellLeg(c, rsi, io)
      case Threw => s
      case Returned(rec) =>
        SoldThenBought(c, rsi, io, s, rec);
        BuyPhase(c, rsi, io, Record(c, s.(above := false), rec))
  }

  /** A sell record followed by the buy branch: the logs only grow, by at
      most two records, with an order for each new non-zero record. */
  lemma SoldThenBought(c: Config, rsi: real, io: CycleIO, s: State, rec: TradeRecord)
    ensures var r := BuyPhase(c, rsi, io, Record(c, s.(above := false), rec));
      r.rawRsi == s.rawRsi && s.trades <= r.trades && |r.trades| <= |s.trades| + 2
      && r.orders == s.orders + OrdersFor(c, r.trades[|s.trades|..])
  {
    var sold := Record(c, s.(above := false), rec);
    var r := BuyPhase(c, rsi, io, sold);
    OrdersForAppend(c, [rec], r.trades[|sold.trades|..]);
    assert r.trades[|s.trades|..] == [rec] + r.trades[|sold.trades|..];
  }

  /** One pass of the loop body. */
  function Step(c: Config, s: State, io: CycleIO): (r: State)
    // the logs only grow, and the sample is logged once it is fetched
    ensures s.rawRsi <= r.rawRsi && s.trades <= r.trades && s.orders <= r.orders
    ensures io.rsi.Threw? ==> r == s
    ensures io.rsi.Returned? ==> r.rawRsi == s.rawRsi + [io.rsi.value]
    // at most two records a pass, and an order for exactly the new records
    // with a non-zero quantity
    ensures |r.trades| <= |s.trades| + 2
    ensures r.orders == s.orders + OrdersFor(c, r.trades[|s.trades|..])
  {
    match io.rsi
    case Threw => s
    case Returned(rsi) =>
      var armed := s.(rawRsi := s.rawRsi + [rsi],
                      above := s.above || rsi > c.sellValue,
                      below := s.below || rsi < c.buyValue);
      if InBand(c, rsi) then FirePhase(c, rsi, io, armed) else armed
  }

  /** A finite stretch of the endless loop: the passes one after another. */
  function Run(c: Config, s: State, ios: seq<CycleIO>): (r: State)
    ensures s.rawRsi <= r.rawRsi && s.trades <= r.trades && s.orders <= r.orders
    ensures |r.rawRsi| <= |s.rawRsi| + |ios|
    decreases |ios|
  {
    if ios == [] then s else Run(c, Step(c, s, ios[0]), ios[1..])
  }
}
