/** What the loop body guarantees, pass by pass and over any finite
    stretch of passes. */
module StrategyProperties {
  import opened Wrappers
  import opened Numbers
  import opened Exchange
  import opened Strategy

  /** A fetched sample outside the band only arms latches: nothing is
      sold or bought. */
  lemma OutOfBandOnlyArms(c: Config, s: State, io: CycleIO)
    requires io.rsi.Returned? && !InBand(c, io.rsi.value)
    ensures Step(c, s, io).above == (s.above || io.rsi.value > c.sellValue)
    ensures Step(c, s, io).below == (s.below || io.rsi.value < c.buyValue)
    ensures Step(c, s, io).trades == s.trades && Step(c, s, io).orders == s.orders
  {
  }

  /** The buy branch touches only the buy latch and the logs, and appends
      at most the buy record, clearing the latch when it does. */
  lemma BuyPhaseAppends(c: Config, rsi: real, io: CycleIO, s: State)
    ensures BuyPhase(c, rsi, io, s).above == s.above && BuyPhase(c, rsi, io, s).rawRsi == s.rawRsi
    ensures BuyPhase(c, rsi, io, s).below ==> s.below
    ensures BuyPhase(c, rsi, io, s).trades == s.trades
      || (s.below && !BuyPhase(c, rsi, io, s).below && BuyLeg(c, rsi, io).Returned?
          && BuyPhase(c, rsi, io, s).trades == s.trades + [BuyLeg(c, rsi, io).value])
  {
  }

  /** A latch goes up only on a sample that arms it. */
  lemma LatchRisesOnlyWhenArmed(c: Config, s: State, io: CycleIO)
    ensures Step(c, s, io).above ==> s.above || (io.rsi.Returned? && Arms(c, io.rsi.value, Sell))
    ensures Step(c, s, io).below ==> s.below || (io.rsi.Returned? && Arms(c, io.rsi.value, Buy))
  {
    if io.rsi.Returned? && InBand(c, io.rsi.value) {
      var rsi := io.rsi.value;
      var armed := s.(rawRsi := s.rawRsi + [rsi]);
      assert Step(c, s, io) == FirePhase(c, rsi, io, armed);
      if s.above && SellLeg(c, rsi, io).Returned? {
        BuyPhaseAppends(c, rsi, io, Record(c, armed.(above := false), SellLeg(c, rsi, io).value));
      } else if !s.above {
        BuyPhaseAppends(c, rsi, io, armed);
      }
    }
  }

  /** The in-band part appends a sell record only first and only from the
      armed sell latch, and a buy record only last and only from the armed
      buy latch, clearing each latch that fires. */
  lemma FirePhaseRecords(c: Config, rsi: real, io: CycleIO, t: State)
    ensures forall k :: |t.trades| <= k < |FirePhase(c, rsi, io, t).trades| ==>
      FirePhase(c, rsi, io, t).trades[k].value == rsi
    ensures forall k :: |t.trades| <= k < |FirePhase(c, rsi, io, t).trades| && FirePhase(c, rsi, io, t).trades[k].action == Sell ==>
      k == |t.trades| && t.above && !FirePhase(c, rsi, io, t).above
    ensures forall k :: |t.trades| <= k < |FirePhase(c, rsi, io, t).trades| && FirePhase(c, rsi, io, t).trades[k].action == Buy ==>
      k == |FirePhase(c, rsi, io, t).trades| - 1 && t.below && !FirePhase(c, rsi, io, t).below
  {
    var r := FirePhase(c, rsi, io, t);
    if t.above {
      match SellLeg(c, rsi, io)
      case Threw =>
        assert r == t;
      case Returned(sell) =>
        assert r == BuyPhase(c, rsi, io, Record(c, t.(above := false), sell));
        SoldRecords(c, rsi, io, t, sell);
    } else {
      assert r == BuyPhase(c, rsi, io, t);
      BuyPhaseAppends(c, rsi, io, t);
    }
  }

  /** After a sell record from the armed sell latch, the buy branch adds
      at most a last buy record from the armed buy latch, clearing it. */
  lemma SoldRecords(c: Config, rsi: real, io: CycleIO, t: State, sell: TradeRecord)
    requires sell.action == Sell && sell.value == rsi
    ensures var r := BuyPhase(c, rsi, io, Record(c, t.(above := false), sell));
      !r.above
      && (forall k :: |t.trades| <= k < |r.trades| ==> r.trades[k].value == rsi)
      && (forall k :: |t.trades| <= k < |r.trades| && r.trades[k].action == Sell ==> k == |t.trades|)
      && (forall k :: |t.trades| <= k < |r.trades| && r.trades[k].action == Buy ==>
            k == |r.trades| - 1 && t.below && !r.below)
  {
    var sold := Record(c, t.(above := false), sell);
    var r := BuyPhase(c, rsi, io, sold);
    BuyPhaseAppends(c, rsi, io, sold);
    assert r.trades == t.trades + [sell]
      || (t.below && !r.below && r.trades == t.trades + [sell, BuyLeg(c, rsi, io).value]);
  }

  /** Every record a pass appends is taken at a fetched, in-band sample; a
      sell record comes first and only from the armed sell latch, which it
      clears; a buy record comes last and only from the armed buy latch,
      which it clears. */
  lemma FiredRecords(c: Config, s: State, io: CycleIO)
    ensures forall k :: |s.trades| <= k < |Step(c, s, io).trades| ==>
      io.rsi.Returned? && InBand(c, io.rsi.value) && Step(c, s, io).trades[k].value == io.rsi.value
    ensures forall k :: |s.trades| <= k < |Step(c, s, io).trades| && Step(c, s, io).trades[k].action == Sell ==>
      k == |s.trades| && s.above && !Step(c, s, io).above
    ensures forall k :: |s.trades| <= k < |Step(c, s, io).trades| && Step(c, s, io).trades[k].action == Buy ==>
      k == |Step(c, s, io).trades| - 1 && s.below && !Step(c, s, io).below
  {
    if io.rsi.Returned? && InBand(c, io.rsi.value) {
      var rsi := io.rsi.value;
      var armed := s.(rawRsi := s.rawRsi + [rsi]);
      assert Step(c, s, io) == FirePhase(c, rsi, io, armed);
      FirePhaseRecords(c, rsi, io, armed);
    } else {
      assert Step(c, s, io).trades == s.trades;
    }
  }

  /** An armed sell latch and an in-band sample: if the sell calls return,
      the sell record is appended first and the latch is cleared; if one
      throws, the pass is abandoned with only the sample logged, the sell
      latch still armed and the buy branch not tried. */
  lemma SellFires(c: Config, s: State, io: CycleIO)
    requires io.rsi.Returned? && InBand(c, io.rsi.value) && s.above
    ensures match SellLeg(c, io.rsi.value, io)
      case Returned(rec) =>
        !Step(c, s, io).above && |Step(c, s, io).trades| > |s.trades| && Step(c, s, io).trades[|s.trades|] == rec
      case Threw =>
        Step(c, s, io) == s.(rawRsi := s.rawRsi + [io.rsi.value])
  {
  }

  /** An armed buy latch, an in-band sample, and a sell branch that did not
      throw: the buy record is appended last and the latch cleared, or the
      buy calls throw and the latch stays armed with no buy record. */
  lemma BuyFires(c: Config, s: State, io: CycleIO)
    requires io.rsi.Returned? && InBand(c, io.rsi.value) && s.below
    requires s.above ==> SellLeg(c, io.rsi.value, io).Returned?
    ensures match BuyLeg(c, io.rsi.value, io)
      case Returned(rec) =>
        !Step(c, s, io).below && Step(c, s, io).trades[|Step(c, s, io).trades| - 1] == rec
      case Threw =>
        Step(c, s, io).below
        && Step(c, s, io).trades == s.trades + (if s.above then [SellLeg(c, io.rsi.value, io).value] else [])
  {
  }

  /** Both latches armed and both branches returning: one pass sells and
      then buys. */
  lemma BothFireSellFirst(c: Config, s: State, io: CycleIO, sell: TradeRecord, buy: TradeRecord)
    requires io.rsi.Returned? && InBand(c, io.rsi.value) && s.above && s.below
    requires SellLeg(c, io.rsi.value, io) == Returned(sell) && BuyLeg(c, io.rsi.value, io) == Returned(buy)
    ensures Step(c, s, io).trades == s.trades + [sell, buy]
    ensures Step(c, s, io).orders == s.orders + OrderFor(c, sell) + OrderFor(c, buy)
    ensures !Step(c, s, io).above && !Step(c, s, io).below
  {
  }

  /** Both latches armed, an in-band sample, and every balance request,
      ticker request and order call returning with any listed balance
      holding a point: one pass sells at the ask read and then buys at the
      bid read, and clears both latches. */
  lemma ArmedLatchesFire(c: Config, s: State, io: CycleIO)
    requires io.rsi.Returned? && InBand(c, io.rsi.value) && s.above && s.below
    requires GetQuantity(io.coinBalances, c.coin, c.dp).Returned? && io.askTicker.Returned?
    requires GetQuantity(io.quoteBalances, QuoteCurrency, QuoteDecimals).Returned? && io.bidTicker.Returned?
    requires io.sellOrderReturns && io.buyOrderReturns
    ensures |Step(c, s, io).trades| == |s.trades| + 2
    ensures Step(c, s, io).trades[|s.trades|].action == Sell
    ensures Step(c, s, io).trades[|s.trades|].price == PriceOf(io.askTicker.value, c.ticker, Ask)
    ensures Step(c, s, io).trades[|s.trades| + 1].action == Buy
    ensures Step(c, s, io).trades[|s.trades| + 1].price == PriceOf(io.bidTicker.value, c.ticker, Bid)
    ensures !Step(c, s, io).above && !Step(c, s, io).below
  {
    var rsi := io.rsi.value;
    BothFireSellFirst(c, s, io, SellLeg(c, rsi, io).value, BuyLeg(c, rsi, io).value);
  }

  /** The orders that go with the new records are never for a zero
      quantity, and each matches its record. */
  lemma {:induction false} OrdersMatchRecords(c: Config, recs: seq<TradeRecord>, k: nat)
    requires k < |OrdersFor(c, recs)|
    ensures OrdersFor(c, recs)[k].quantity != 0
    ensures exists j :: 0 <= j < |recs| && OrdersFor(c, recs)[k] == Order(recs[j].action, LimitOrder, c.ticker, recs[j].price, recs[j].qty)
  {
    var first := OrderFor(c, recs[0]);
    if k < |first| {
      assert OrdersFor(c, recs)[k] == first[k];
    } else {
      assert OrdersFor(c, recs)[k] == OrdersFor(c, recs[1..])[k - |first|];
      OrdersMatchRecords(c, recs[1..], k - |first|);
      var j :| 0 <= j < |recs[1..]|
        && OrdersFor(c, recs[1..])[k - |first|] == Order(recs[1..][j].action, LimitOrder, c.ticker, recs[1..][j].price, recs[1..][j].qty);
      assert recs[1..][j] == recs[j + 1];
    }
  }

  /** The number of records of one side in a history. */
  function Count(trades: seq<TradeRecord>, side: Side): nat
  {
    if trades == [] then 0 else (if trades[0].action == side then 1 else 0) + Count(trades[1..], side)
  }

  lemma {:induction false} CountAppend(a: seq<TradeRecord>, b: seq<TradeRecord>, side: Side)
    ensures Count(a + b, side) == Count(a, side) + Count(b, side)
  {
    if a == [] {
      assert a + b == b;
    } else {
      assert (a + b)[1..] == a[1..] + b;
      CountAppend(a[1..], b, side);
    }
  }

  function Bit(b: bool): nat
  {
    if b then 1 else 0
  }

  /** The number of passes of a stretch whose fetched sample arms `side`. */
  function ArmingSamples(c: Config, ios: seq<CycleIO>, side: Side): nat
  {
    if ios == [] then 0
    else Bit(ios[0].rsi.Returned? && Arms(c, ios[0].rsi.value, side)) + ArmingSamples(c, ios[1..], side)
  }

  /** The records one pass appends, counted for one side: records of
      that side sit at a single position and each clears the latch. */
  lemma AddedBudget(added: seq<TradeRecord>, side: Side, before: bool, after: bool, arms: bool)
    requires |added| <= 2
    requires forall k :: 0 <= k < |added| && added[k].action == side ==>
      (if side == Sell then k == 0 else k == |added| - 1) && before && !after
    requires after ==> before || arms
    ensures Count(added, side) + Bit(after) <= Bit(before) + Bit(arms)
  {
    if |added| == 1 {
      assert added[1..] == [];
    } else if |added| == 2 {
      assert added[1..][1..] == [];
      var tail := added[1..];
      assert tail == [added[1]] && tail[1..] == [];
      assert Count(tail, side) == Bit(added[1].action == side);
      assert !(added[0].action == side && added[1].action == side);
    }
  }

  /** One pass: a trade of `side` uses up its armed latch. Records of that
      side appended plus the latch afterwards never exceed the latch before
      plus one if the sample arms it. */
  lemma StepBudget(c: Config, s: State, io: CycleIO, side: Side)
    ensures Count(Step(c, s, io).trades, side) - Count(s.trades, side) + Bit(Latch(Step(c, s, io), side))
      <= Bit(Latch(s, side)) + Bit(io.rsi.Returned? && Arms(c, io.rsi.value, side))
  {
    var r := Step(c, s, io);
    FiredRecords(c, s, io);
    LatchRisesOnlyWhenArmed(c, s, io);
    var added := r.trades[|s.trades|..];
    assert r.trades == s.trades + added;
    CountAppend(s.trades, added, side);
    AddedBudget(added, side, Latch(s, side), Latch(r, side), io.rsi.Returned? && Arms(c, io.rsi.value, side));
  }

  /** Each sell fires at most once per arming, and each buy likewise: over
      any stretch of passes, the trades of a side plus its latch at the end
      are bounded by its latch at the start plus the samples that armed it. */
  lemma {:induction false} FiringNeedsArming(c: Config, s: State, ios: seq<CycleIO>, side: Side)
    ensures Count(Run(c, s, ios).trades, side) - Count(s.trades, side) + Bit(Latch(Run(c, s, ios), side))
      <= Bit(Latch(s, side)) + ArmingSamples(c, ios, side)
    decreases |ios|
  {
    if ios != [] {
      StepBudget(c, s, ios[0], side);
      FiringNeedsArming(c, Step(c, s, ios[0]), ios[1..], side);
    }
  }

  /** From start-up, no sell happens unless some sample went above the
      sell threshold, and no buy unless some sample went below the buy
      threshold. */
  lemma NoTradeWithoutExcursion(c: Config, ios: seq<CycleIO>, side: Side)
    requires ArmingSamples(c, ios, side) == 0
    ensures Count(Run(c, Initial, ios).trades, side) == 0
    ensures !Latch(Run(c, Initial, ios), side)
  {
    FiringNeedsArming(c, Initial, ios, side);
  }

  /** Both latches down and every fetched sample inside the band: no record
      and no order is ever added and both latches stay down, however long
      the stretch. */
  lemma {:induction false} QuietBandNeverTrades(c: Config, s: State, ios: seq<CycleIO>)
    requires !s.above && !s.below
    requires forall i :: 0 <= i < |ios| && ios[i].rsi.Returned? ==> InBand(c, ios[i].rsi.value)
    ensures Run(c, s, ios).trades == s.trades && Run(c, s, ios).orders == s.orders
    ensures !Run(c, s, ios).above && !Run(c, s, ios).below
    decreases |ios|
  {
    if ios != [] {
      var next := Step(c, s, ios[0]);
      FiredRecords(c, s, ios[0]);
      LatchRisesOnlyWhenArmed(c, s, ios[0]);
      assert next.trades == s.trades;
      QuietBandNeverTrades(c, next, ios[1..]);
    }
  }

  /** With the sell threshold at 70 and the buy threshold at 30, the samples
      50, 72, 68 from start-up: the second arms the sell latch, the third
      sells once. */
  lemma SellOnReturnIntoBand(c: Config, io1: CycleIO, io2: CycleIO, io3: CycleIO)
    requires c.sellValue == 70.0 && c.buyValue == 30.0
    requires io1.rsi == Returned(50.0) && io2.rsi == Returned(72.0) && io3.rsi == Returned(68.0)
    requires SellLeg(c, 68.0, io3).Returned?
    ensures Run(c, Initial, [io1, io2, io3]).trades == [SellLeg(c, 68.0, io3).value]
    ensures Run(c, Initial, [io1, io2, io3]).rawRsi == [50.0, 72.0, 68.0]
    ensures !Run(c, Initial, [io1, io2, io3]).above && !Run(c, Initial, [io1, io2, io3]).below
  {
    var s1 := Step(c, Initial, io1);
    var s2 := Step(c, s1, io2);
    assert [io1, io2, io3][1..] == [io2, io3];
    assert [io2, io3][1..] == [io3];
    assert Run(c, Initial, [io1, io2, io3]) == Run(c, s2, [io3]);
  }

  /** A sell's quantity is the whole number of coins held: the integer part
      of the balance, when it fits in 31 bits. */
  lemma SellQuantityIsWholeCoins(c: Config, rsi: real, io: CycleIO, i: string, f: string)
    requires io.coinBalances.Returned?
    requires BalanceOf(io.coinBalances.value, c.coin) == Some(i + "." + f)
    requires AllDigits(i) && AllDigits(f) && i != [] && WholeValue(i) < TwoTo31
    requires SellLeg(c, rsi, io).Returned?
    ensures SellLeg(c, rsi, io).value.qty == WholeValue(i)
  {
    TruncationNeverRoundsUp(i, f, c.dp);
    TruncateKeepsPrefix(i, f, c.dp);
  }

  /** The buy quantity is `(quote / price) | 0` for the rupee balance and
      bid price read, and a balance read is never negative. */
  lemma BuyLegQuantity(c: Config, rsi: real, io: CycleIO, quote: real, price: real)
    requires GetQuantity(io.quoteBalances, QuoteCurrency, QuoteDecimals) == Returned(Some(quote))
    requires GetCurrentPrice(io.bidTicker, c.ticker, Bid) == Returned(Some(price))
    requires BuyLeg(c, rsi, io).Returned?
    ensures BuyLeg(c, rsi, io).value.qty == ToInt32(Quotient(Some(quote), Some(price)))
    ensures 0.0 <= quote
  {
  }

  /** A buy's quantity is the largest whole number of coins the rupee
      balance pays for at the bid price (q coins cost at most the balance,
      q + 1 cost more), when that fits in 31 bits. */
  lemma BuyQuantityAffordable(c: Config, rsi: real, io: CycleIO, quote: real, price: real)
    requires GetQuantity(io.quoteBalances, QuoteCurrency, QuoteDecimals) == Returned(Some(quote))
    requires GetCurrentPrice(io.bidTicker, c.ticker, Bid) == Returned(Some(price))
    requires 0.0 < price && quote / price < TwoTo31 as real
    requires BuyLeg(c, rsi, io).Returned?
    ensures var q := BuyLeg(c, rsi, io).value.qty;
      0 <= q && WholeUnits(q, quote, price)
  {
    BuyLegQuantity(c, rsi, io, quote, price);
    QuotientFloor(quote, price, BuyLeg(c, rsi, io).value.qty);
  }
}
