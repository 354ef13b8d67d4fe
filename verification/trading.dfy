/** The single-position paper-trading account of app.js: `placeOrder` and
    `closePosition` (app.js:186-208), the unrealised PnL shown by
    `updateFloating` (app.js:247-263) and the decision taken by the 7-second
    updater (app.js:327-345). */
module Trading {
  import opened Wrappers
  import opened Market
  import opened Indicators
  import opened Pivots
  import opened Signals

  /** `toLocaleString()` of the wall clock: an opaque label supplied by the
      caller. */
  type Stamp = string

  /** The smallest quantity an order is sized to. */
  const MinQty: real := 0.0001
  const MinLeverage: real := 1.0
  const MaxLeverage: real := 2000.0

  /** `Math.max(1, Math.min(2000, lev))`. */
  function ClampLeverage(lev: real): (c: real)
    ensures MinLeverage <= c <= MaxLeverage
    ensures MinLeverage <= lev <= MaxLeverage ==> c == lev
    ensures lev < MinLeverage ==> c == MinLeverage
    ensures lev > MaxLeverage ==> c == MaxLeverage
  {
    var capped := if lev < MaxLeverage then lev else MaxLeverage;
    if capped > MinLeverage then capped else MinLeverage
  }

  /** The open position; `lev` is the account's leverage as stored, while
      `margin` was computed with its clamped value. */
  datatype Position = Position(side: Side, qty: real, entry: real, time: Stamp, lev: real, margin: real)

  /** One line of the closed-trade ledger. */
  datatype Trade = Trade(time: Stamp, pair: string, side: Side, qty: real, entry: real, exit: real, pnl: real)

  /** The parts of the persisted state `S` that trading reads or writes; the
      ledger is newest first. */
  datatype Account = Account(
    capital: real,
    leverage: real,
    sizeUsdt: real,
    pair: string,
    position: Option<Position>,
    closed: seq<Trade>)

  /** Profit of moving from `entry` to `exit` with `qty` units on `side`. */
  function Pnl(side: Side, entry: real, exit: real, qty: real): (p: real)
    ensures exit == entry ==> p == 0.0
    ensures qty > 0.0 ==> (p > 0.0 <==> (side == Long && exit > entry) || (side == Short && exit < entry))
  {
    var move := if side == Long then exit - entry else entry - exit;
    assert move > 0.0 <==> (side == Long && exit > entry) || (side == Short && exit < entry);
    ScaleSign(qty, move);
    move * qty
  }

  lemma ScaleSign(c: real, d: real)
    ensures c > 0.0 ==> (d * c > 0.0 <==> d > 0.0)
  {
    if c > 0.0 {
      PositiveScale(c, d);
    }
  }

  /** A long and a short of the same size gain exactly opposite amounts. */
  lemma PnlMirror(entry: real, exit: real, qty: real)
    ensures Pnl(Long, entry, exit, qty) == -Pnl(Short, entry, exit, qty)
  {
    assert (exit - entry) * qty == -((entry - exit) * qty);
  }

  /** On either side, PnL is additive over the price move: profit from entry
      to exit is profit to an intermediate price plus profit from it. */
  lemma PnlAdditive(entry: real, mid: real, exit: real, qty: real, side: Side)
    ensures Pnl(side, entry, exit, qty) == Pnl(side, entry, mid, qty) + Pnl(side, mid, exit, qty)
  {
    if side == Long {
      assert (exit - entry) * qty == (mid - entry) * qty + (exit - mid) * qty;
    } else {
      assert (entry - exit) * qty == (entry - mid) * qty + (mid - exit) * qty;
    }
  }

  lemma QuotientTimesDivisor(s: real, p: real)
    requires p > 0.0
    ensures s / p * p == s
  {
  }

  /** Sizing: the notional is `sizeUsdt` unless that buys less than
      `MinQty`, in which case exactly `MinQty` is bought. */
  function OrderQty(sizeUsdt: real, price: real): (q: real)
    requires price > 0.0
    ensures q >= MinQty
    ensures q * price >= sizeUsdt
    ensures q * price == sizeUsdt || q == MinQty
  {
    var q := sizeUsdt / price;
    QuotientTimesDivisor(sizeUsdt, price);
    if q > MinQty then q
    else
      assert MinQty * price >= q * price by {
        MulNonneg(MinQty - q, price);
      }
      MinQty
  }

  /** The margin locked for `qty` units at `price`: notional over clamped
      leverage. */
  function Margin(qty: real, price: real, lev: real): (m: real)
    ensures m * ClampLeverage(lev) == qty * price
    ensures qty * price > 0.0 ==> 0.0 < m <= qty * price
  {
    var c := ClampLeverage(lev);
    ShareOfTotal(qty * price, c);
    qty * price / c
  }

  /** Dividing by a factor of at least 1 keeps a positive total positive and
      no larger. */
  lemma ShareOfTotal(total: real, c: real)
    requires c >= 1.0
    ensures total / c * c == total
    ensures total > 0.0 ==> 0.0 < total / c <= total
  {
    var m := total / c;
    QuotientTimesDivisor(total, c);
    if total > 0.0 {
      assert m > 0.0 by {
        if m <= 0.0 {
          MulNonneg(-m, c);
        }
      }
      MulNonneg(m, c - 1.0);
    }
  }

  /** `placeOrder(side, price)`: a no-op while a position is open; otherwise
      opens one sized by `sizeUsdt`, and changes nothing else. */
  function PlaceOrder(a: Account, side: Side, price: real, now: Stamp): (b: Account)
    requires price > 0.0
    ensures a.position.Some? ==> b == a
    ensures a.position.None? ==>
              && b.position.Some?
              && b == a.(position := b.position)
              && var p := b.position.value;
              && p.side == side && p.entry == price && p.time == now
              && p.lev == a.leverage
              && p.qty >= MinQty
              && (p.qty * price == a.sizeUsdt || p.qty == MinQty)
              && p.qty * price >= a.sizeUsdt
              && p.margin * ClampLeverage(a.leverage) == p.qty * price
  {
    if a.position.Some? then a
    else
      var qty := OrderQty(a.sizeUsdt, price);
      a.(position := Some(Position(side, qty, price, now, a.leverage, Margin(qty, price, a.leverage))))
  }

  /** `closePosition(price)`: a no-op while flat; otherwise realises the PnL
      into capital, puts the trade at the head of the ledger and goes flat. */
  function ClosePosition(a: Account, price: real, now: Stamp): (b: Account)
    ensures a.position.None? ==> b == a
    ensures a.position.Some? ==>
              var p := a.position.value;
              && b.position.None?
              && b.capital == a.capital + Pnl(p.side, p.entry, price, p.qty)
              && |b.closed| == |a.closed| + 1
              && b.closed[1..] == a.closed
              && b.closed[0] == Trade(now, a.pair, p.side, p.qty, p.entry, price, b.capital - a.capital)
              && b.leverage == a.leverage && b.sizeUsdt == a.sizeUsdt && b.pair == a.pair
  {
    match a.position
    case None => a
    case Some(p) =>
      var pnl := Pnl(p.side, p.entry, price, p.qty);
      var closed := [Trade(now, a.pair, p.side, p.qty, p.entry, price, pnl)] + a.closed;
      assert closed[1..] == a.closed;
      a.(capital := a.capital + pnl, position := None, closed := closed)
  }

  /** The figures of the floating badge: capital, unrealised PnL at `mark`
      and the margin held. */
  datatype Badge = Badge(capital: real, unrealised: real, margin: real)

  /** The pure part of `updateFloating(mark)`. */
  function Floating(a: Account, mark: real): (f: Badge)
    ensures f.capital == a.capital
    ensures a.position.None? ==> f.unrealised == 0.0 && f.margin == 0.0
    ensures a.position.Some? ==> f.margin == a.position.value.margin
  {
    match a.position
    case None => Badge(a.capital, 0.0, 0.0)
    case Some(p) => Badge(a.capital, Pnl(p.side, p.entry, mark, p.qty), p.margin)
  }

  /** Closing at the mark price realises exactly the unrealised PnL shown. */
  lemma CloseRealisesFloating(a: Account, mark: real, now: Stamp)
    ensures ClosePosition(a, mark, now).capital == a.capital + Floating(a, mark).unrealised
    ensures ClosePosition(a, mark, now).position.None?
  {
  }

  /** Opening and then closing at the same price leaves capital where it was
      and logs a single zero-PnL trade. */
  lemma RoundTripAtEntry(a: Account, side: Side, price: real, t1: Stamp, t2: Stamp)
    requires a.position.None? && price > 0.0
    ensures var b := ClosePosition(PlaceOrder(a, side, price, t1), price, t2);
            && b.capital == a.capital
            && b.position.None?
            && b.closed[1..] == a.closed
            && b.closed[0].pnl == 0.0
  {
  }

  /** Opening at one price and closing at another moves capital by the
      position's PnL over that move, and by nothing else. */
  lemma RoundTrip(a: Account, side: Side, open: real, exit: real, t1: Stamp, t2: Stamp)
    requires a.position.None? && open > 0.0
    ensures var p := PlaceOrder(a, side, open, t1).position.value;
            var b := ClosePosition(PlaceOrder(a, side, open, t1), exit, t2);
            && b.capital == a.capital + Pnl(side, open, exit, p.qty)
            && b.position.None?
            && b.leverage == a.leverage && b.sizeUsdt == a.sizeUsdt && b.pair == a.pair
  {
  }

  /** The default account: 1000 capital, 100x, 100 USDT per order, BTCUSDT. */
  const Default: Account := Account(1000.0, 100.0, 100.0, "BTCUSDT", None, [])

  /** 100 USDT at 50000 buys 0.002, holding 1 USDT of margin at 100x. */
  lemma SizingExample(now: Stamp)
    ensures var p := PlaceOrder(Default, Long, 50000.0, now).position.value;
            p.qty == 0.002 && p.margin == 1.0
  {
    var q := OrderQty(100.0, 50000.0);
    assert q == 0.002;
  }

  /** 5 USDT at 100000 would be 0.00005 units, so the order is raised to the
      minimum and its notional is 10 USDT, twice the size asked for. */
  lemma MinimumLotExample(now: Stamp)
    ensures var p := PlaceOrder(Default.(sizeUsdt := 5.0), Long, 100000.0, now).position.value;
            p.qty == MinQty && p.qty * p.entry == 10.0
  {
    var q := OrderQty(5.0, 100000.0);
    assert 5.0 / 100000.0 == 0.00005;
    assert q == MinQty;
  }

  /** A long of one unit from 100 to 150 realises 50. */
  lemma LongExample(t1: Stamp, t2: Stamp)
    ensures var b := ClosePosition(PlaceOrder(Default, Long, 100.0, t1), 150.0, t2);
            b.capital == 1050.0 && b.closed[0].pnl == 50.0
  {
    var q := OrderQty(100.0, 100.0);
    assert q == 1.0;
  }

  /** The same move against a short loses 50. */
  lemma ShortExample(t1: Stamp, t2: Stamp)
    ensures var b := ClosePosition(PlaceOrder(Default, Short, 100.0, t1), 150.0, t2);
            b.capital == 950.0 && b.closed[0].pnl == -50.0
  {
    var q := OrderQty(100.0, 100.0);
    assert q == 1.0;
  }

  // ---------------------------------------------------------------------------
  // The 7-second updater
  // ---------------------------------------------------------------------------

  /** One tick's decision, given whether the algorithm runs, the signal on
      the last closed bar and that bar's close: open on any signal while flat,
      close on the opposite signal while in a position. */
  function Step(running: bool, a: Account, sig: Option<Side>, price: real, now: Stamp): (b: Account)
    requires sig.Some? ==> price > 0.0
    ensures !running ==> b == a
    ensures running && a.position.None? ==>
              b == (if sig.Some? then PlaceOrder(a, sig.value, price, now) else a)
    ensures running && a.position.Some? ==>
              b == (if sig == Some(Opposite(a.position.value.side)) then ClosePosition(a, price, now) else a)
  {
    if !running then a
    else
      match a.position
      case None => if sig.Some? then PlaceOrder(a, sig.value, price, now) else a
      case Some(p) => if sig == Some(Opposite(p.side)) then ClosePosition(a, price, now) else a
  }

  /** A tick never turns a position around: it either keeps the position or
      goes flat. */
  lemma StepNeverReverses(running: bool, a: Account, sig: Option<Side>, price: real, now: Stamp)
    requires sig.Some? ==> price > 0.0
    requires a.position.Some?
    ensures var b := Step(running, a, sig, price, now);
            b.position.None? || b.position == a.position
  {
  }

  /** While flat a tick opens exactly when there is a signal, in its
      direction; while in a position it closes exactly on the opposite
      signal. */
  lemma StepActsOnlyOnSignals(a: Account, sig: Option<Side>, price: real, now: Stamp)
    requires sig.Some? ==> price > 0.0
    ensures var b := Step(true, a, sig, price, now);
            && (a.position.None? ==> (b.position.Some? <==> sig.Some?))
            && (a.position.None? && sig.Some? ==> b.position.value.side == sig.value)
            && (a.position.Some? ==> (b.position.None? <==> sig == Some(Opposite(a.position.value.side))))
  {
  }

  /** Total realised PnL of a ledger. */
  function Realised(ts: seq<Trade>): real
  {
    if |ts| == 0 then 0.0 else ts[0].pnl + Realised(ts[1..])
  }

  /** Capital is the starting capital plus every realised PnL. */
  predicate Books(a: Account, initial: real) {
    a.capital == initial + Realised(a.closed)
  }

  /** Every tick keeps the books: capital changes only by PnL that also
      enters the ledger. */
  lemma StepKeepsBooks(running: bool, a: Account, sig: Option<Side>, price: real, now: Stamp, initial: real)
    requires sig.Some? ==> price > 0.0
    requires Books(a, initial)
    ensures Books(Step(running, a, sig, price, now), initial)
  {
    var b := Step(running, a, sig, price, now);
    if b.closed != a.closed {
      assert b.closed[1..] == a.closed;
      assert Realised(b.closed) == b.closed[0].pnl + Realised(a.closed);
    }
  }

  /** A position as `placeOrder` creates it: at least the minimum lot, at a
      positive price, with margin tied to notional by its stored leverage. */
  predicate WellSized(p: Position) {
    && p.qty >= MinQty
    && p.entry > 0.0
    && p.margin * ClampLeverage(p.lev) == p.qty * p.entry
  }

  predicate Valid(a: Account) {
    a.position.Some? ==> WellSized(a.position.value)
  }

  /** Every tick keeps the open position well sized. */
  lemma StepKeepsValid(running: bool, a: Account, sig: Option<Side>, price: real, now: Stamp)
    requires sig.Some? ==> price > 0.0
    requires Valid(a)
    ensures Valid(Step(running, a, sig, price, now))
  {
  }

  /** The updater's decision on a fetched window: the strategy's signal on
      the last closed bar, acted on at that bar's close. */
  function Tick(running: bool, a: Account, cs: seq<Candle>, id: string, sqrt: Root, now: Stamp): (b: Account)
    requires |cs| >= MinBars ==> ClosedPrice(cs) > 0.0
    ensures |cs| < MinBars ==> b == a
    ensures !running ==> b == a
    ensures Parse(id).None? ==> b == a
    ensures |cs| >= MinBars ==> b == Step(running, a, StrategySignal(cs, id, sqrt), cs[|cs| - 2].close, now)
  {
    Step(running, a, StrategySignal(cs, id, sqrt), ClosedPrice(cs), now)
  }

  /** `full[full.length-2].close`, read only when there is a signal. */
  function ClosedPrice(cs: seq<Candle>): (p: real)
    ensures |cs| >= 2 ==> p == cs[|cs| - 2].close
  {
    if |cs| >= 2 then cs[|cs| - 2].close else 0.0
  }

  /** The updater ignores the bar still forming: windows that differ only in
      the last bar's prices lead to the same account. */
  lemma TickIgnoresFormingBar(running: bool, a: Account, cs: seq<Candle>, ds: seq<Candle>, id: string, sqrt: Root, now: Stamp)
    requires |cs| == |ds| >= MinBars
    requires cs[..|cs| - 1] == ds[..|ds| - 1]
    requires UtcDay(cs[|cs| - 1].time) == UtcDay(ds[|ds| - 1].time)
    requires ClosedPrice(cs) > 0.0
    ensures ClosedPrice(ds) > 0.0
    ensures Tick(running, a, cs, id, sqrt, now) == Tick(running, a, ds, id, sqrt, now)
  {
    ClosedPriceAgrees(cs, ds);
    SignalIgnoresFormingBar(cs, ds, id, sqrt);
  }

  lemma ClosedPriceAgrees(cs: seq<Candle>, ds: seq<Candle>)
    requires |cs| == |ds| >= 2
    requires cs[..|cs| - 1] == ds[..|ds| - 1]
    ensures ClosedPrice(cs) == ClosedPrice(ds)
  {
    var n := |cs|;
    assert cs[n - 2] == cs[..n - 1][n - 2] && ds[n - 2] == ds[..n - 1][n - 2];
  }
}
