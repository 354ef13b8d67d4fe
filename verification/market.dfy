/** Candles and trade directions shared by the indicator library, the signal
    engine and the position model. */
module Market {

  /** One OHLCV bar; `time` is the bar's open time in epoch seconds. */
  datatype Candle = Candle(time: int, open: real, high: real, low: real, close: real, volume: real)

  /** The direction of a signal and of an open position. */
  datatype Side = Long | Short

  function Opposite(s: Side): (o: Side)
    ensures o != s
  {
    match s
    case Long => Short
    case Short => Long
  }

  /** The close prices of a candle sequence, index for index. */
  function Closes(cs: seq<Candle>): (xs: seq<real>)
    ensures |xs| == |cs|
    ensures forall i :: 0 <= i < |cs| ==> xs[i] == cs[i].close
  {
    seq(|cs|, i requires 0 <= i < |cs| => cs[i].close)
  }

  /** The highs of a candle sequence, index for index. */
  function Highs(cs: seq<Candle>): (xs: seq<real>)
    ensures |xs| == |cs|
    ensures forall i :: 0 <= i < |cs| ==> xs[i] == cs[i].high
  {
    seq(|cs|, i requires 0 <= i < |cs| => cs[i].high)
  }

  /** The lows of a candle sequence, index for index. */
  function Lows(cs: seq<Candle>): (xs: seq<real>)
    ensures |xs| == |cs|
    ensures forall i :: 0 <= i < |cs| ==> xs[i] == cs[i].low
  {
    seq(|cs|, i requires 0 <= i < |cs| => cs[i].low)
  }

  /** A bar whose low does not exceed its high. */
  predicate Sane(c: Candle) {
    c.low <= c.high
  }

  predicate AllSane(cs: seq<Candle>) {
    forall i :: 0 <= i < |cs| ==> Sane(cs[i])
  }
}
