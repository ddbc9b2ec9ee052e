# HighReturn trading bot — a Dafny model of its decision loop

HighReturn is an unattended bot that trades one market on the CoinDCX
exchange. Every pass of its endless loop it fetches the RSI (relative
strength index) of the market, logs the sample, and runs a hysteresis
rule over two latches:

- a sample above `SELLVALUE` arms the sell latch (`above`);
- a sample below `BUYVALUE` arms the buy latch (`below`);
- only on a pass whose sample lies in the closed band `[BUYVALUE, SELLVALUE]`
  does an armed latch fire, sell first, then buy.

A firing sell reads the coin balance (cut to `DP` decimals by string
truncation) and the ask price. It places a limit order when the whole
number of coins is non-zero, clears the latch and appends a trade record.
A firing buy reads the rupee balance and the bid price. It buys
`(balance / price) | 0` coins in the same way. Any call that throws ends
the pass. Whatever the pass had done before the throw stays done.

The model has six modules:

- `Wrappers` (wrappers.dfy): `Option` (a value or JavaScript's `undefined`)
  and `Outcome` (a call that returns or throws).
- `Numbers` (numbers.dfy): the JavaScript number operations the bot relies on,
  on exact reals. It covers unary `+` on a decimal literal, `/`, and `| 0`.
  That last one is ToInt32 of section 7.1.6 of ECMA-262, with its 32-bit
  wrap-around written out. The rounding of IEEE 754 doubles is not modelled.
- `Exchange` (exchange.dfy): the first-match searches of the balances and
  ticker responses, the balance truncation, `GetQuantity` and `GetCurrentPrice`.
- `Strategy` (strategy.dfy): one pass of the loop as a pure function `Step`
  over a `State`, and a finite stretch of passes as `Run`.
- `StrategyProperties` (strategy_properties.dfy): what is proved about
  `Step` and `Run`.
- `Agent` (agent.dfy): class `Bot`. It holds the latches and the logs as
  fields and updates them in place in the loop body's order. `Trade` appends
  its order to the order log when its call returns. `SellBranch` and
  `BuyBranch` end in the state `Record` gives, or leave the state unchanged.
  `Cycle` and `RunCycles` are proved to end in the state that `Step` or
  `Run` gives.

Everything the outside world answers during a pass is a parameter of type
`CycleIO`. That covers the RSI fetch, the two balance responses, the two
ticker responses, and whether each order call returns.

Points of the code's behaviour worth stating outright:

- A trade record is appended whenever a latch fires, even with quantity 0
  and no order placed (app.js:236-239, 247-250).
- An order is placed when the quantity is non-zero (a JavaScript truthiness
  test at app.js:236 and 247), not only when it is positive.
- A throw in the sell branch also skips the buy branch of that pass. The
  buy latch then stays armed.
- When the market is missing from the ticker, the price is `undefined`.
  The buy quantity is then 0, so the buy latch fires and clears without an
  order. The sell branch still places an order, without a price.
- The order log holds the orders whose call returned. An order whose call
  throws may still have reached the exchange; the latch then stays armed.

## Model

| member | source | states |
|---|---|---|
| `Exchange.FirstMatch` | app.js:138-139 | the index of the first element that matches, every earlier one failing; none exactly when no element matches |
| `Exchange.BalanceOf` | app.js:138-144 | the balance of the first entry whose currency equals the target; absent exactly when no entry has that currency |
| `Exchange.PriceOf` | app.js:151-155 | the requested price of the first entry whose market equals the target; absent exactly when no entry has that market |
| `Exchange.SplitAtDot` | app.js:141 | the first two pieces of `split(".")`: none exactly when there is no point; neither piece holds a point, and together they are a prefix of the string that ends at a point or at the end |
| `Exchange.TruncateBalance` | app.js:141-142 | an error exactly when the balance has no point; otherwise a prefix of the balance with at most `dp` fractional characters |
| `Exchange.TruncateKeepsPrefix` | app.js:141-142 | the balance `i.f` becomes `i`, a point and the first min(dp, \|f\|) characters of `f` |
| `Exchange.TruncationNeverRoundsUp` | app.js:142 | for a balance of digits, the truncated value is never above the original and is less than one unit in the dp-th place below it |
| `Exchange.TruncationExample` | app.js:141-142 | 123.456789 kept to two decimals is 123.45 |
| `Exchange.GetQuantity` | app.js:114-145 | throws when the request throws or the balance found has no point; `undefined` when the currency is missing; otherwise the number that unary `+` gives for the balance cut to `dp` decimals, never negative |
| `Exchange.GetQuantityTruncates` | app.js:138-143 | a listed balance of digits is read as a number never above it and less than one unit in the dp-th place below it |
| `Exchange.GetQuantityExample` | app.js:138-143 | a balance of 123.456789 read at two decimals is the number 123.45 |
| `Exchange.GetCurrentPrice` | app.js:147-156 | throws exactly when the request throws; otherwise the requested price of the first entry for the market, present exactly when some entry has the market |
| `Numbers.Pow10` | app.js:142 | powers of ten are at least 1 (the scale of a dropped decimal place) |
| `Numbers.FracBounds` | app.js:142 | the digits after a point add up to less than one unit |
| `Numbers.FracPrefixGap` | app.js:142 | keeping the first m fractional digits never adds value and loses less than 10^-m |
| `Numbers.ToNumber` | app.js:142 | unary `+` on `whole.frac` gives a number exactly when both parts are digits and one digit is present; that number lies between the whole part and the whole part plus one |
| `Numbers.DecimalValueExample` | app.js:142 | the text 123.45 converts to 123.45 |
| `Numbers.Trunc` | app.js:234 | truncation toward zero: within one unit of the input, on the side of zero |
| `Numbers.ToInt32` | app.js:234 | `x \| 0` lies in the signed 32-bit range, is 0 for a non-finite value and is the truncation for a value already in range |
| `Numbers.Quotient` | app.js:246 | `a / b` is finite exactly when both operands are and `b` is non-zero, and the quotient times `b` is `a` |
| `Numbers.WholeMultiples` | app.js:246 | a whole number between `a / b` and one below it counts the whole `b`s in `a` |
| `Numbers.QuotientFloor` | app.js:246 | `(a / b) \| 0` for a non-negative `a`, a positive `b` and an in-range quotient is non-negative; that many `b`s cost at most `a` and one more costs more |
| `Numbers.BuyQuantityExample` | app.js:246 | 1000 rupees at 333.33 buy 3 coins |
| `Strategy.SellLeg` | app.js:233-239 | throws exactly when the balance read throws, the ticker request throws, or a non-zero order's call throws; otherwise the record carries the sample, side sell, the ask price read and `quantity \| 0` of the balance read, in 32-bit range |
| `Strategy.BuyLeg` | app.js:243-250 | throws exactly when the rupee balance read throws, the ticker request throws, or a non-zero order's call throws; otherwise the record carries the sample, side buy, the bid price read and `(balance / price) \| 0`; a missing price gives quantity 0 |
| `Strategy.OrdersForAppend` | app.js:236-249 | the orders for two histories one after the other are the orders for each, in order |
| `Strategy.Record` | app.js:236-239 | a fired trade appends exactly its record and, for a non-zero quantity, the order whose call returned; latches and samples are untouched |
| `Strategy.BuyPhase` | app.js:241-251 | the buy branch only appends, and the order log gains a returned order for exactly each appended record with a non-zero quantity |
| `Strategy.FirePhase` | app.js:230-251 | the in-band part of a pass only appends, at most two records, and the order log gains a returned order for exactly each appended record with a non-zero quantity |
| `Strategy.SoldThenBought` | app.js:236-250 | a sell record followed by the buy branch grows the logs by at most two records, with a returned order for each new non-zero record |
| `Strategy.Step` | app.js:213-257 | the logs only grow; a failed RSI fetch changes nothing; a fetched sample is logged; at most two records a pass; the order log gains a returned order for exactly the new records with a non-zero quantity |
| `Strategy.Run` | app.js:212-258 | over any stretch of passes the logs only grow, by at most one sample a pass |
| `StrategyProperties.OutOfBandOnlyArms` | app.js:218-222 | a sample outside the band arms the latches it crosses, keeps the others, and fires nothing |
| `StrategyProperties.BuyPhaseAppends` | app.js:241-251 | the buy branch leaves the sell latch and the samples alone, never raises the buy latch, and either adds nothing or, from an armed latch whose calls returned, appends the buy record and clears the latch |
| `StrategyProperties.LatchRisesOnlyWhenArmed` | app.js:218-222 | after a pass a latch is up only if it was up before or the sample crossed its threshold |
| `StrategyProperties.SoldRecords` | app.js:238-250 | after a sell record, the sell latch stays down and every new record carries the sample; the sell record is the only sell, and the buy branch adds at most a last buy record, only from the armed buy latch, which it clears |
| `StrategyProperties.FirePhaseRecords` | app.js:230-251 | in the in-band part every new record carries the sample; a sell record comes first and only from the armed sell latch, which it clears; a buy record comes last and only from the armed buy latch, which it clears |
| `StrategyProperties.FiredRecords` | app.js:213-251 | every new record of a pass is at a fetched in-band sample; a sell record comes first and only from an armed sell latch, which it clears; a buy record comes last and only from an armed buy latch, which it clears |
| `StrategyProperties.SellFires` | app.js:231-240 | with the sell latch armed and an in-band sample, the sell record is appended first and the latch cleared; a throw leaves the latch armed, appends nothing and skips the buy branch |
| `StrategyProperties.BuyFires` | app.js:241-251 | with the buy latch armed, an in-band sample and a sell branch that did not throw, the buy record is appended last and the latch cleared; a throw leaves the latch armed and adds no buy record |
| `StrategyProperties.BothFireSellFirst` | app.js:230-251 | both latches armed and in band: one pass appends the sell record then the buy record and clears both |
| `StrategyProperties.ArmedLatchesFire` | app.js:230-251 | both latches armed, an in-band sample and every call returning: one pass appends a sell record at the ask read, then a buy record at the bid read, and clears both latches |
| `StrategyProperties.OrdersMatchRecords` | app.js:236-237 | every order logged has a non-zero quantity and equals the order of one of the new records |
| `StrategyProperties.CountAppend` | app.js:239 | the count of one side's records adds up over appended histories |
| `StrategyProperties.AddedBudget` | app.js:238-250 | the records one pass adds hold at most one of a side, and only when its latch was armed and is cleared |
| `StrategyProperties.StepBudget` | app.js:218-250 | in one pass, records of a side plus its latch after never exceed its latch before plus one for an arming sample |
| `StrategyProperties.FiringNeedsArming` | app.js:212-258 | over any stretch, each side fires at most once per arming: its records plus its latch at the end are bounded by its latch at the start plus the samples that armed it |
| `StrategyProperties.NoTradeWithoutExcursion` | app.js:205-206 | from start-up, no sell without a sample above the sell threshold and no buy without one below the buy threshold |
| `StrategyProperties.QuietBandNeverTrades` | app.js:205-253 | with both latches down and every sample in the band, no record or order is ever added and both latches stay down |
| `StrategyProperties.SellOnReturnIntoBand` | app.js:218-240 | thresholds 70/30 and samples 50, 72, 68 from start-up: exactly one sell, at 68 |
| `StrategyProperties.SellQuantityIsWholeCoins` | app.js:234 | the sell quantity is the integer part of the coin balance |
| `StrategyProperties.BuyLegQuantity` | app.js:244-246 | the buy quantity is `(quote / price) \| 0` of the balance and price read, and the balance is not negative |
| `StrategyProperties.BuyQuantityAffordable` | app.js:244-246 | the buy quantity is the largest whole number of coins the rupee balance pays for at the bid price |
| `Agent.Bot.constructor` | app.js:205-206 | the bot starts with both latches down and empty logs |
| `Agent.Bot.Trade` | app.js:158-195 | an order is logged exactly when its call returns, as a limit order on the configured market |
| `Agent.Bot.SellBranch` | app.js:231-240 | completes exactly when the sell calls return, then clears the latch and logs the record and order; otherwise nothing changes |
| `Agent.Bot.BuyBranch` | app.js:241-251 | completes exactly when the buy calls return, then clears the latch and logs the record and order; otherwise nothing changes |
| `Agent.Bot.Cycle` | app.js:213-257 | the state after one pass in place is the one `Step` gives |
| `Agent.Bot.RunCycles` | app.js:212-258 | the state after a stretch of passes in place is the one `Run` gives |

## Left out

- `GetRSI` (app.js:90-112) drives a headless browser against a third-party page. The RSI is an input. An RSI text that does not parse (NaN) is not modelled.
- The HTTP requests (app.js:137, 148, 192) are not modelled. Their responses are inputs. A failed, timed-out or non-2xx request is a throw.
- The parse of the ticker text (app.js:149) is not modelled. A parse failure is a throw. Ticker prices are given as numbers, so unary `+` on the price strings is not modelled.
- HMAC-SHA256 signing of the request bodies (app.js:121-125, 176-180) is not modelled. Neither are the headers, the JSON bodies or the timestamps. The exchange's reply to an order is not inspected by the code, and only whether the call returns is modelled.
- The lowdb store (app.js:11-18, 197-203) is modelled as in-memory logs. Record ids (timestamps) are dropped, and a failing disk write is not modelled.
- Coloured console output, banners, the spinner and the pause between passes (app.js:20-71, 254) are left out.
- Loading the environment and exiting on missing keys (app.js:39-46, 75-88) are left out. `Config` is a parameter. `DP` is a natural number and the thresholds are reals, so a NaN or negative setting is not modelled.
- The endless `while (run)` loop is modelled as a finite stretch of passes (`Run`, `Bot.RunCycles`).
- `Numbers.ToNumber` treats any part holding a character other than a digit as NaN. JavaScript also accepts a sign, surrounding white space and an exponent there. Exchange balances are unsigned decimal strings.
- `StrategyProperties.SellQuantityIsWholeCoins` is proved only when the integer part of the balance is below 2^31. Above that, ToInt32 wraps; this is modelled, but the lemma does not cover it.
- `StrategyProperties.BuyQuantityAffordable` is proved only when the quotient is below 2^31, the price is positive and the market is present.
- `Numbers.ToNumber`, `Numbers.Quotient` and `StrategyProperties.BuyQuantityAffordable` compute on exact reals. The rounding of IEEE 754 doubles is not modelled. For example, JavaScript gives 2 for `(0.3 / 0.1) | 0`, because `0.3 / 0.1` is 2.9999999999999996; the model gives 3. So the buy quantity is the largest affordable whole number of coins for the exact values, and can be one less in app.js:246.
- `StrategyProperties.FiringNeedsArming` bounds the records and the orders whose call returned, not the orders that reach the exchange. An order call that throws (a timeout or a non-2xx reply at app.js:192) may still have placed the order. The latch then stays armed, and the next in-band pass places the order again. Attempted orders are not logged in the model, so such repeats are not captured.
