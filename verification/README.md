# Algo-hub trading core in Dafny

A model of the pure trading logic of the Algo-hub browser paper-trading
simulator (`app.js`). The model covers four parts:

- **Indicator library**: `ema`, `sma`, `stddev`, `rsi`, `macd` and `pivotsClassic`.
- **Signal engine**: `strategySignal`, a choice of five rules read on the last closed bar.
- **Position model**: the single-position account that `placeOrder` and
  `closePosition` change, and the unrealised PnL shown by `updateFloating`.
- **Tick decision**: the choice the 7-second updater makes between opening,
  closing or doing nothing.

Prices are `real`, so every identity holds exactly.

Modules, one per file:

| file | module | contents |
|---|---|---|
| `wrappers.dfy` | `Wrappers` | `Option`; `None` is a JavaScript `null` or a `NaN` warm-up entry |
| `market.dfy` | `Market` | candles, `Long`/`Short`, the closes, highs and lows of a candle window, bars whose low is at most their high |
| `indicators.dfy` | `Indicators` | each indicator as a pure specification |
| `pivots.dfy` | `Pivots` | UTC day of month, other-day filter, 1440-bar window, P/R1/S1 |
| `signals.dfy` | `Signals` | strategy ids, the snapshot, the LONG/SHORT tests, `strategySignal` |
| `trading.dfy` | `Trading` | account, sizing, margin, PnL, `placeOrder`, `closePosition`, floating badge, tick |

Three of the source's loops are also modelled as methods (`EmaLoop`,
`SmaLoop`/`SmaRunning`, `RsiLoop`). Each is proved equal to its
specification, so they carry the loop invariants: for `sma`, the running sum
equals the sum of the trailing window.

`strategySignal` is split in two:

- `TakeSnapshot` reads every series at the last closed bar (index n-2) and
  the bar before it (index n-3).
- `Decide` applies the chosen rule to that snapshot.

This split makes it possible to state that the forming bar is never read. Two
windows that differ only in the last bar's prices give the same signal. They
also lead to the same account after a tick.

## Model

| member | source | states |
|---|---|---|
| Market.Closes | app.js:79 | the close series has one entry per candle, the candle's close |
| Market.Opposite | app.js:341 | the opposite side of a side is never the side itself |
| Market.Highs | app.js:93 | the highs series has one entry per bar, that bar's high |
| Market.Lows | app.js:94 | the lows series has one entry per bar, that bar's low |
| Indicators.Alpha | app.js:35 | `k = 2/(len+1)` lies in (0,2], is at most 1 once `len >= 1`, below 1 once `len >= 2`, and `k*(len+1) = 2` |
| Indicators.EmaWith | app.js:37-42 | with any weight `k`, the blended series keeps the input's length and starts at the first input, because the seed blends the value with itself |
| Indicators.Ema | app.js:34-44 | `ema` keeps the input's length, and its first output equals the first input (the seed blends the value with itself) |
| Indicators.EmaRecurrence | app.js:39-41 | every output after the first blends the new input with the previous output |
| Indicators.EmaPrefix | app.js:37-42 | no look-ahead: the EMA of a prefix is the prefix of the EMA |
| Indicators.EmaInRange | app.js:40 | with a weight in [0,1], every output stays in any range that holds all the inputs |
| Indicators.EmaBetweenPrefixExtremes | app.js:34-44 | for `len >= 1`, output `i` lies between the minimum and the maximum of inputs `0..i` |
| Indicators.FasterEmaLeads | app.js:35-41 | on strictly rising inputs, the EMA with the larger weight is strictly above the other from index 1 on, and both stay at or below the input |
| Indicators.EmaLoop | app.js:34-44 | the source's loop with the running `prev` computes `ema`; it keeps the length, starts at the first input and follows the blend recurrence |
| Indicators.RunningSumStep | app.js:48-49 | adding `x[i]`, and removing `x[i-len]` once `i >= len`, turns the previous trailing-window sum into the next one |
| Indicators.Sma | app.js:45-53 | `sma` keeps the length, and entry `i` is defined exactly when `0 < len <= i+1`; `SmaRunning` adds the value of a defined entry |
| Indicators.SmaPass | app.js:48-50 | one loop pass gives the next running sum and the specified `sma` entry |
| Indicators.SmaLoop | app.js:45-53 | the running-sum loop computes the windowed-mean specification of `sma` |
| Indicators.SmaRunning | app.js:45-53 | `sma` keeps the length; entry `i` is defined exactly when `0 < len <= i+1`; a defined entry times `len` is the sum of the trailing `len` inputs |
| Indicators.Variance | app.js:58-59 | the population variance of a window is nonnegative |
| Indicators.VarianceExample | app.js:58-59 | the window [1, 3] has mean 2 and population variance 1 (divided by the window length, not by one less) |
| Indicators.Stddev | app.js:54-62 | `stddev` keeps the length, is defined exactly when `0 < len <= i+1`, and every defined value is nonnegative |
| Indicators.StddevIsRootOfVariance | app.js:56-60 | every defined `stddev` entry is the square root of the population variance of the trailing `len` inputs |
| Indicators.FlatWindowHasZeroVariance | app.js:57-59 | a window whose values all equal one value has variance 0 |
| Indicators.Accum | app.js:64-72 | the running `up` and `dn` never go negative |
| Indicators.RsiOf | app.js:73-74 | the RSI of nonnegative averages lies in [0,100) |
| Indicators.Rsi | app.js:63-77 | `rsi` keeps the length, is undefined at indices `0..len` and defined after, with every defined value in [0,100) |
| Indicators.RsiWithoutLosses | app.js:73 | with `dn = 0`, `rs` is forced to 100, so RSI is `100 - 100/101`, not 100 |
| Indicators.RsiIsShareOfGains | app.js:73-74 | with `dn > 0`, RSI times `up+dn` equals `100*up`: RSI is the gains' share of all movement, in percent |
| Indicators.RsiSeedIsRawSum | app.js:69 | during seeding (`i <= len`), `up` and `dn` are the raw sums of gains and losses, not their averages |
| Indicators.RsiFirstSmoothing | app.js:69-72 | the first smoothing step applies Wilder's formula to the raw seed sums |
| Indicators.RsiOnRisingSeries | app.js:63-77 | on a series that never falls, every defined RSI value is `100 - 100/101` |
| Indicators.RsiLoop | app.js:63-77 | the source's loop with `up`/`dn` computes the RSI specification, defined exactly after index `len` |
| Indicators.Macd | app.js:78-86 | the three series keep the input's length; the line is EMA(fast) minus EMA(slow); the signal is the line's EMA; `hist = line - signal`; all three are 0 at index 0 |
| Indicators.MacdHistogramLead | app.js:83-84 | after index 0, `hist[i]` is `(1-k)` times the line's lead over the previous signal; for `signal >= 2` the two have the same sign |
| Indicators.EmaAgrees | app.js:37-42 | inputs that agree on a prefix give EMAs that agree on it |
| Indicators.SmaAgrees | app.js:47-51 | inputs that agree on a prefix give SMAs that agree on it |
| Indicators.StddevAgrees | app.js:55-61 | inputs that agree on a prefix give deviations that agree on it |
| Indicators.RsiAgrees | app.js:65-76 | inputs that agree on a prefix give RSIs that agree on it |
| Indicators.MacdAgrees | app.js:78-86 | inputs that agree on a prefix give MACD lines, signals and histograms that agree on it |
| Pivots.DayOfMonth | app.js:89-90 | the civil day of month of a day count since 1970-01-01 lies in 1..31 |
| Pivots.DayOfMonthEpoch | app.js:89 | day 0 is 1 January 1970, the 1st |
| Pivots.DayOfMonthBeforeEpoch | app.js:89 | day -1 is 31 December 1969, the 31st |
| Pivots.DayOfMonthLeapDay | app.js:89 | day 11016 is 29 February 2000, the 29th: century leap years are counted |
| Pivots.DayOfMonthRecent | app.js:89 | day 19675 is 14 November 2023, the 14th |
| Pivots.DayOfMonthCentury | app.js:89 | day 47541 is 1 March 2100, the 1st: 2100 has no 29 February |
| Pivots.UtcDayOfMonthExample | app.js:89-90 | epoch seconds 1700000000 and 1700006399 both fall on the 14th UTC, and 1700006400 starts the next UTC day |
| Pivots.LevelsOf | app.js:96-97 | `R1 - S1 = H - L`, `R1 - P = P - L`, `P - S1 = H - P` and `3P = H + L + C` |
| Pivots.LevelsOrdered | app.js:96-97 | with `L <= C <= H`, the pivot lies between L and H, and `S1 <= P <= R1` |
| Pivots.LevelsExample | app.js:96-97 | H=110, L=90, C=100 give P=100, R1=110, S1=90 |
| Pivots.FilterMembers | app.js:90 | `filter` keeps every entry that passes the test and nothing else |
| Pivots.FilterEmpty | app.js:90 | the filtered list is empty exactly when no entry passes |
| Pivots.FilterLast | app.js:90 | a nonempty filtered list ends with the last entry that passes |
| Pivots.FilterAppend | app.js:90 | `filter` keeps the entries' order: filtering a concatenation concatenates the filtered parts |
| Pivots.OtherDays | app.js:90 | every bar the filter keeps has a day of month other than the one given, and there are no more of them than bars |
| Pivots.OtherDaysMembers | app.js:90 | a bar is kept exactly when it is one of the input bars and its UTC day of month differs from the one given |
| Pivots.OtherDaysAppend | app.js:90 | the kept bars stay in their order: the bars kept from two stretches joined are those kept from the first followed by those kept from the second |
| Pivots.KeptTailFrom | app.js:90-92 | every one of the last `n` kept entries passes the test and is an input entry |
| Pivots.KeptTailEmpty | app.js:90-92 | for `n > 0`, none of the last `n` kept entries remains exactly when no entry passes |
| Pivots.KeptTailLast | app.js:90-92 | the last of the last `n` kept entries is the last input entry that passes |
| Pivots.TakeLast | app.js:92 | `slice(-n)` keeps the last `n` entries, or all of them when there are fewer |
| Pivots.HighOf | app.js:93 | the highest high bounds every bar's high and is the high of one of the bars |
| Pivots.LowOf | app.js:94 | the lowest low bounds every bar's low and is the low of one of the bars |
| Pivots.Retained | app.js:89-92 | the retained bars are the last `min(1440, count)` of the bars of other days of month than the last bar's, in order; each is an input bar of such a day; none is retained exactly when every bar shares the last bar's day |
| Pivots.RetainedEndsWithLastOtherDay | app.js:89-92 | the last retained bar is the last input bar whose day of month differs from the last bar's |
| Pivots.PivotsClassic | app.js:87-99 | `null` for fewer than 2 bars; otherwise `null` exactly when every bar shares the last bar's day of month; levels satisfy `R1-S1 = H-L`, `R1-P = P-L`, `3P = H+L+C` over the retained bars |
| Pivots.PivotsSupportBelowResistance | app.js:93-97 | on bars with `low <= high`, `S1 <= R1` |
| Pivots.PivotsOrdered | app.js:93-97 | on bars whose close lies within their range, `S1 <= P <= R1` |
| Pivots.PivotsIgnoreFormingBar | app.js:89-92 | the last bar's prices do not matter: windows that agree before it, with last bars on the same UTC date, have the same pivots |
| Signals.Parse | app.js:219-242 | a recognised id selects the strategy with that id; any other string selects none |
| Signals.ParseId | app.js:219-242 | every strategy is selected by its own id |
| Signals.LastClosed | app.js:211-212 | the pair read is the entry at n-2 and the entry at n-3 |
| Signals.RsiClosed | app.js:214 | the value read is the RSI(14) entry at the last closed bar, which is defined and lies in [0,100) |
| Signals.MacdClosed | app.js:215 | the pairs read are the MACD(12,26,9) line, signal and histogram at n-2 and n-3, and at both bars the histogram is line minus signal |
| Signals.BasisClosed | app.js:216 | the value read is the 20-bar SMA entry at the last closed bar, which is defined |
| Signals.DeviationClosed | app.js:216-217 | the value read is the 20-bar `stddev` entry at the last closed bar, which is defined and nonnegative |
| Signals.SnapshotOf | app.js:211-217 | the snapshot's closes are the series at n-2 and n-3, its band width is nonnegative, its RSI is in [0,100), its histograms are line minus signal, and it carries the pivots given |
| Signals.SnapshotReads | app.js:211-217 | each snapshot field is the matching series read at the last closed bar (and the one before): EMA12, EMA26, RSI(14), the MACD pairs, the 20-bar mean and deviation |
| Signals.LastClosedCloses | app.js:211-212 | on a candle window, the closes read are the closes of bars n-2 and n-3 |
| Signals.TakeSnapshot | app.js:211-217 | a window's snapshot is the snapshot of its closes and its `pivotsClassic`: its closes are read at n-2 and n-3, its band width is nonnegative |
| Signals.Decide | app.js:219-243 | LONG exactly when the strategy's LONG test passes; SHORT exactly when its SHORT test passes and the LONG test does not; no signal exactly when neither passes |
| Signals.Exclusive | app.js:219-242 | with a nonnegative band width and support no higher than resistance, no strategy's LONG and SHORT tests both pass |
| Signals.NoLevelsNoBreak | app.js:232-236 | without pivot levels, `pivot_break` yields nothing |
| Signals.Evaluate | app.js:209-244 | no signal below 30 bars, none for an unknown strategy, and none for `pivot_break` without pivots |
| Signals.StrategySignal | app.js:209-244 | `strategySignal` gives `null` below 30 bars, for an unrecognised id, and for `pivot_break` when `pivotsClassic` is `null` |
| Signals.EvaluateIsDecision | app.js:210-219 | from 30 bars on, the signal is the chosen rule's decision on the snapshot of the closes and pivots |
| Signals.SignalMatchesTests | app.js:219-243 | on bars with `low <= high`, the signal is LONG exactly when the LONG test passes and SHORT exactly when the SHORT test passes |
| Signals.EmaCrossFiresOnCrossing | app.js:220-223 | `ema_cross` is LONG exactly when EMA12 > EMA26 at n-2 and EMA12 <= EMA26 at n-3; it is SHORT exactly on the mirrored crossing |
| Signals.EmaCrossOnCloses | app.js:220-223 | the same rule stated on the close series directly |
| Signals.FastEmaLeadsOnRisingCloses | app.js:213 | on strictly rising closes, EMA12 is strictly above EMA26 at both bars read |
| Signals.EmaCrossQuietOnRisingCloses | app.js:220-223 | hence on strictly rising closes `ema_cross` never fires |
| Signals.BandDecision | app.js:228-231 | with a nonnegative width, a band LONG closes below the mean and a SHORT above it |
| Signals.BandBounceSide | app.js:228-231 | a `bb_bounce` LONG is a close below the 20-bar mean, and a SHORT a close above it |
| Signals.MacdDecision | app.js:238-241 | `macd_cross` is the histogram changing sign, in both directions |
| Signals.MacdCrossIsHistogramTurn | app.js:238-241 | on a window, `macd_cross` is LONG exactly when the histogram turns positive and SHORT exactly when it turns negative |
| Signals.RsiMacdDecision | app.js:224-227 | on a snapshot, an `rsi_macd` signal is a `macd_cross` signal with RSI < 30 (LONG) or RSI > 70 (SHORT) |
| Signals.RsiMacdRefinesMacdCross | app.js:224-227 | on a window, whatever `rsi_macd` signals, `macd_cross` signals too, filtered by RSI |
| Signals.SnapshotIgnoresLastClose | app.js:211-217 | close series that agree before the last entry give the same snapshot |
| Signals.SnapshotIgnoresFormingBar | app.js:209-217 | windows that differ only in the forming bar, on the same UTC date, give the same snapshot |
| Signals.IgnoresFormingBar | app.js:209-244 | such windows get the same signal, whatever the strategy: the engine never acts on the forming bar |
| Signals.SignalIgnoresFormingBar | app.js:209-244 | the same for `strategySignal` selected by id |
| Trading.ClampLeverage | app.js:189 | `max(1, min(2000, lev))` lies in [1,2000], is `lev` inside that range, and is the nearer bound outside it |
| Trading.Pnl | app.js:200 | PnL is 0 at the entry price; for a positive quantity it is positive exactly on a favourable move (up for LONG, down for SHORT) |
| Trading.PnlMirror | app.js:200 | a LONG and a SHORT of the same size over the same move gain opposite amounts |
| Trading.PnlAdditive | app.js:200 | PnL over a move is the sum of the PnLs over its two legs |
| Trading.OrderQty | app.js:188 | the quantity is at least 0.0001; its notional is at least `sizeUSDT`, and equals it unless the minimum lot applies |
| Trading.Margin | app.js:189 | margin times the clamped leverage is the notional; for a positive notional the margin is positive and no larger than it |
| Trading.PlaceOrder | app.js:186-196 | a no-op while a position is open; otherwise it opens one on the given side at the given price, with the unclamped leverage stored, quantity and margin as above, and no other field changed |
| Trading.ClosePosition | app.js:197-208 | a no-op while flat; otherwise capital grows by exactly the PnL, one trade carrying that PnL is put at the head of the ledger, and the position is cleared |
| Trading.Floating | app.js:252-256 | the badge shows the capital; unrealised PnL and margin are 0 while flat, and the position's margin otherwise |
| Trading.CloseRealisesFloating | app.js:252-256 | closing at the mark price adds exactly the unrealised PnL shown to capital |
| Trading.RoundTripAtEntry | app.js:186-208 | opening and closing at one price leaves capital unchanged and logs one zero-PnL trade |
| Trading.RoundTrip | app.js:186-208 | opening and closing moves capital by the position's PnL over the move, and leaves leverage, size and pair alone |
| Trading.SizingExample | app.js:188-189 | 100 USDT at 50000 buys 0.002 units with 1 USDT of margin at 100x |
| Trading.MinimumLotExample | app.js:188 | 5 USDT at 100000 is raised to the 0.0001 minimum lot, a notional of 10 USDT |
| Trading.LongExample | app.js:200-201 | a one-unit LONG from 100 to 150 adds 50 to capital |
| Trading.ShortExample | app.js:200-201 | a one-unit SHORT from 100 to 150 takes 50 from capital |
| Trading.Step | app.js:335-344 | not running: no change; flat: open on any signal, in its direction; in a position: close on the opposite signal only |
| Trading.StepNeverReverses | app.js:338-343 | a tick never turns a position around: it keeps the position or goes flat |
| Trading.StepActsOnlyOnSignals | app.js:335-344 | while running and flat, a position opens exactly when there is a signal, on its side; while in a position, it closes exactly on the opposite signal |
| Trading.StepKeepsBooks | app.js:201-202 | if capital was the starting capital plus the ledger's PnL before a tick, it still is after |
| Trading.StepKeepsValid | app.js:188-190 | an open position always has at least the minimum lot, a positive entry, and margin times clamped leverage equal to its notional |
| Trading.ClosedPrice | app.js:337-342 | the price of both the opening and the closing order is the close of the last closed bar, n-2 |
| Trading.Tick | app.js:334-344 | a tick changes nothing below 30 bars, when not running, or for an unknown strategy id; from 30 bars on it is `Step` on the window's signal at the last closed bar's close |
| Trading.TickIgnoresFormingBar | app.js:334-342 | windows that differ only in the forming bar, on the same UTC date, lead to the same account |

## Left out

- Network, charts and persistence are not modelled: `fetchKlines`, the chart
  library, markers, `localStorage` (`load`/`save`) and the page router.
- Timers are not modelled: `setInterval` becomes one call of `Tick` per
  period. The updater's `if(!last) return` fetch-failure guard is left out
  with the fetch.
- The display EMA at app.js:330 feeds a chart only, so it is left out.
- Clocks are parameters: `new Date().toLocaleString()` becomes a caller-supplied
  `Stamp`. The marker time `Date.now()` is left out with the markers.
- Formatting (`fmt`, `fmt$`, the `+` sign of the badge) is display only.
  `Floating` keeps the figures and drops the text.
- `updateFloating` called at the end of `closePosition` only redraws the
  badge, so it has no counterpart in `ClosePosition`.
- IEEE floating point is not modelled; prices are exact reals. A `NaN` entry
  of an indicator is `None`, and the `NaN` comparisons that make
  `strategySignal` fall through have no counterpart.
- `Math.sqrt` is abstract. `Stddev` takes a `Root`, a function known only to
  give nonnegative results on nonnegative inputs.
- `getUTCDate` is modelled concretely, by civil-from-days on the Gregorian
  calendar. Its value is pinned only at the sample dates of the
  `DayOfMonth*` lemmas, not proved equal to a calendar for every day.
- The `arr[i][src] ?? arr[i]` polymorphism is dropped. Indicators take the
  close series, and `Closes` extracts it.
- Indicators.Rsi: requires `len >= 1`. With `len = 0` the source divides by zero inside the smoothing step, and only 14 is ever passed.
- Indicators.RsiLoop: requires `len >= 1`, as for `Rsi`.
- Trading.PlaceOrder: requires `price > 0`. The source divides by the price. At price 0 the quotient is `Infinity`, so the size is infinite and the margin is `NaN`. At a negative price the quotient is negative and `Math.max` raises the size to the 0.0001 minimum lot, while the notional and the margin come out negative. Prices come from the exchange and are positive.
- Trading.Step: requires a positive price whenever there is a signal, as `PlaceOrder` does.
- Trading.Tick: requires the last closed bar's close to be positive once there are 30 bars, as `PlaceOrder` does.
- Trading.TickIgnoresFormingBar: requires the same positive close.
- Pivots.PivotsIgnoreFormingBar: requires the two last bars to fall on the same UTC date. That is stronger than sharing a day of month, which is all `pivotsClassic` compares. Between two fetches the forming bar keeps its open time, so the case that arises is covered.
- Signals.SnapshotIgnoresFormingBar: requires the same UTC date, as above.
- Signals.IgnoresFormingBar: requires the same UTC date, as above.
- Signals.SignalIgnoresFormingBar: requires the same UTC date, as above.
- Trading.TickIgnoresFormingBar: requires the same UTC date, as above.
- Leverage is a `real`, because the source reads it with unary `+` and never
  rounds it, so a fractional leverage is kept as entered.
- The sizing mode is notional only. The code sizes every order as
  `sizeUSDT / price` and has no fixed base-asset lot mode (app.js:188).
- Signals.EmaCrossQuietOnRisingCloses: states only that `ema_cross` never fires on a strictly rising series of 30 or more bars. With the first-value seed, EMA12 equals EMA26 at bar 0 and is above it from bar 1 on, so the one upward crossing sits at bar 1. The engine never reads it, because it reads bars n-2 and n-3 and needs at least 30 bars.
- Indicators.FlatWindowHasZeroVariance: proves only that a flat window has variance 0. The converse, that variance 0 forces a flat window, needs reasoning about strictly positive squares that the solver does not settle.
- Three behaviours of the code are easy to misread, and the model follows the code:
  - `pivotsClassic` keeps the last 1440 bars whose UTC day of month differs
    from the last bar's, not the most recent whole prior day.
  - With `dn = 0`, RSI is `100 - 100/101`, not 100.
  - `strategySignal` tests LONG before SHORT. `Exclusive` shows the two tests
    cannot both pass on sane bars.
