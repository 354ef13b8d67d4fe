/** The strategy engine of app.js (`strategySignal`, app.js:209-244): one of
    five rules, chosen by id, judged on the last closed bar (index n-2) and
    the bar before it (index n-3). */
module Signals {
  import opened Wrappers
  import opened Market
  import opened Indicators
  import opened Pivots

  /** The five strategies the engine knows. */
  datatype Strategy = EmaCross | RsiMacd | BbBounce | PivotBreak | MacdCross

  /** The id under which each strategy is selected. */
  function Id(s: Strategy): string {
    match s
    case EmaCross => "ema_cross"
    case RsiMacd => "rsi_macd"
    case BbBounce => "bb_bounce"
    case PivotBreak => "pivot_break"
    case MacdCross => "macd_cross"
  }

  /** The `switch` on the stored strategy id: any other string selects nothing. */
  function Parse(id: string): (r: Option<Strategy>)
    ensures r.Some? ==> Id(r.value) == id
    ensures r.None? ==> forall s: Strategy :: Id(s) != id
  {
    if id == "ema_cross" then Some(EmaCross)
    else if id == "rsi_macd" then Some(RsiMacd)
    else if id == "bb_bounce" then Some(BbBounce)
    else if id == "pivot_break" then Some(PivotBreak)
    else if id == "macd_cross" then Some(MacdCross)
    else None
  }

  /** Every strategy is found again under its own id. */
  lemma ParseId(s: Strategy)
    ensures Parse(Id(s)) == Some(s)
  {
  }

  const MinBars: nat := 30
  const FastLen: nat := 12
  const SlowLen: nat := 26
  const RsiLen: nat := 14
  const SignalLen: nat := 9
  const BandLen: nat := 20
  const BandWidth: real := 2.0
  const Oversold: real := 30.0
  const Overbought: real := 70.0

  /** Everything the rules look at: indicator values at the last closed bar
      and the bar before it, and the pivot levels. */
  datatype Snapshot = Snapshot(
    close: real, prevClose: real,
    fast: real, fastPrev: real, slow: real, slowPrev: real,
    rsi: real,
    line: real, linePrev: real, signal: real, signalPrev: real,
    hist: real, histPrev: real,
    basis: real, deviation: real,
    pivots: Option<Levels>)

  /** A series' values at the last closed bar (index n-2) and the bar before. */
  datatype Pair<T> = Pair(now: T, prev: T)

  function LastClosed<T>(s: seq<T>): (p: Pair<T>)
    requires |s| >= 3
    ensures p.now == s[|s| - 2] && p.prev == s[|s| - 3]
  {
    Pair(s[|s| - 2], s[|s| - 3])
  }

  /** Two series that agree before their last entry have the same last-closed
      pair. */
  lemma LastClosedAgrees<T>(s: seq<T>, t: seq<T>)
    requires |s| == |t| >= 3
    requires forall j :: 0 <= j < |s| - 1 ==> s[j] == t[j]
    ensures LastClosed(s) == LastClosed(t)
  {
    assert s[|s| - 2] == t[|t| - 2];
  }

  /** RSI(14) at the last closed bar, defined once there are 30 bars. */
  function RsiClosed(xs: seq<real>): (v: real)
    requires |xs| >= MinBars
    ensures Rsi(xs, RsiLen)[|xs| - 2] == Some(v)
    ensures 0.0 <= v < 100.0
  {
    var r := Rsi(xs, RsiLen);
    assert r[|xs| - 2].Some?;
    r[|xs| - 2].value
  }

  /** MACD(12, 26, 9) line, signal and histogram at the last two closed bars. */
  datatype MacdPairs = MacdPairs(line: Pair<real>, signal: Pair<real>, hist: Pair<real>)

  function MacdClosed(xs: seq<real>): (p: MacdPairs)
    requires |xs| >= MinBars
    ensures var m := Macd(xs, FastLen, SlowLen, SignalLen);
            && p.line == LastClosed(m.line)
            && p.signal == LastClosed(m.signal)
            && p.hist == LastClosed(m.hist)
    ensures p.hist.now == p.line.now - p.signal.now
    ensures p.hist.prev == p.line.prev - p.signal.prev
  {
    var m := Macd(xs, FastLen, SlowLen, SignalLen);
    MacdPairs(LastClosed(m.line), LastClosed(m.signal), LastClosed(m.hist))
  }

  /** The 20-bar mean at the last closed bar. */
  function BasisClosed(xs: seq<real>): (v: real)
    requires |xs| >= MinBars
    ensures Sma(xs, BandLen)[|xs| - 2] == Some(v)
  {
    var ma := Sma(xs, BandLen);
    assert ma[|xs| - 2].Some?;
    ma[|xs| - 2].value
  }

  /** The 20-bar standard deviation at the last closed bar. */
  function DeviationClosed(xs: seq<real>, sqrt: Root): (d: real)
    requires |xs| >= MinBars
    ensures Stddev(xs, BandLen, sqrt)[|xs| - 2] == Some(d)
    ensures d >= 0.0
  {
    var sd := Stddev(xs, BandLen, sqrt);
    assert sd[|xs| - 2].Some?;
    sd[|xs| - 2].value
  }

  /** Reads every series at the last closed bar and the bar before it. */
  function SnapshotOf(xs: seq<real>, piv: Option<Levels>, sqrt: Root): (b: Snapshot)
    requires |xs| >= MinBars
    ensures b.deviation >= 0.0
    ensures 0.0 <= b.rsi < 100.0
    ensures b.hist == b.line - b.signal && b.histPrev == b.linePrev - b.signalPrev
    ensures b.pivots == piv
    ensures Pair(b.close, b.prevClose) == LastClosed(xs)
  {
    var c := LastClosed(xs);
    var e12 := LastClosed(Ema(xs, FastLen));
    var e26 := LastClosed(Ema(xs, SlowLen));
    var m := MacdClosed(xs);
    Snapshot(
      c.now, c.prev,
      e12.now, e12.prev, e26.now, e26.prev,
      RsiClosed(xs),
      m.line.now, m.line.prev, m.signal.now, m.signal.prev, m.hist.now, m.hist.prev,
      BasisClosed(xs), DeviationClosed(xs, sqrt),
      piv)
  }

  /** Which series and bar each snapshot field holds: the EMAs, RSI, MACD and
      band figures at the last closed bar (and, where the rules need it, the
      bar before). */
  lemma SnapshotReads(xs: seq<real>, piv: Option<Levels>, sqrt: Root)
    requires |xs| >= MinBars
    ensures var b := SnapshotOf(xs, piv, sqrt);
            && Pair(b.fast, b.fastPrev) == LastClosed(Ema(xs, FastLen))
            && Pair(b.slow, b.slowPrev) == LastClosed(Ema(xs, SlowLen))
            && b.rsi == RsiClosed(xs)
            && MacdPairs(Pair(b.line, b.linePrev), Pair(b.signal, b.signalPrev), Pair(b.hist, b.histPrev))
               == MacdClosed(xs)
            && b.basis == BasisClosed(xs)
            && b.deviation == DeviationClosed(xs, sqrt)
  {
  }

  /** The snapshot of a candle window: its closes and its pivot levels. */
  function TakeSnapshot(cs: seq<Candle>, sqrt: Root): (b: Snapshot)
    requires |cs| >= MinBars
    ensures Pair(b.close, b.prevClose) == LastClosed(Closes(cs))
    ensures b.deviation >= 0.0
    ensures b.pivots == PivotsClassic(cs)
    ensures b == SnapshotOf(Closes(cs), PivotsClassic(cs), sqrt)
  {
    SnapshotOf(Closes(cs), PivotsClassic(cs), sqrt)
  }

  function Upper(b: Snapshot): real {
    b.basis + BandWidth * b.deviation
  }

  function Lower(b: Snapshot): real {
    b.basis - BandWidth * b.deviation
  }

  /** The LONG test of each strategy. */
  predicate LongWhen(s: Strategy, b: Snapshot) {
    match s
    case EmaCross => b.fast > b.slow && b.fastPrev <= b.slowPrev
    case RsiMacd => b.rsi < Oversold && b.hist > 0.0 && b.histPrev <= 0.0
    case BbBounce => b.close < Lower(b)
    case PivotBreak => b.pivots.Some? && b.prevClose <= b.pivots.value.r1 && b.close > b.pivots.value.r1
    case MacdCross => b.line > b.signal && b.linePrev <= b.signalPrev
  }

  /** The SHORT test of each strategy. */
  predicate ShortWhen(s: Strategy, b: Snapshot) {
    match s
    case EmaCross => b.fast < b.slow && b.fastPrev >= b.slowPrev
    case RsiMacd => b.rsi > Overbought && b.hist < 0.0 && b.histPrev >= 0.0
    case BbBounce => b.close > Upper(b)
    case PivotBreak => b.pivots.Some? && b.prevClose >= b.pivots.value.s1 && b.close < b.pivots.value.s1
    case MacdCross => b.line < b.signal && b.linePrev >= b.signalPrev
  }

  /** The LONG test comes first, as in the source: LONG whenever its test
      passes, SHORT only when its test passes and LONG's does not, and no
      signal when neither passes. */
  function Decide(s: Strategy, b: Snapshot): (r: Option<Side>)
    ensures r == Some(Long) <==> LongWhen(s, b)
    ensures r == Some(Short) <==> ShortWhen(s, b) && !LongWhen(s, b)
    ensures r == None <==> !LongWhen(s, b) && !ShortWhen(s, b)
  {
    if LongWhen(s, b) then Some(Long)
    else if ShortWhen(s, b) then Some(Short)
    else None
  }

  /** The two tests never both pass once the band is not inverted and support
      does not exceed resistance, so testing LONG first decides nothing. */
  lemma Exclusive(s: Strategy, b: Snapshot)
    requires b.deviation >= 0.0
    requires b.pivots.Some? ==> b.pivots.value.s1 <= b.pivots.value.r1
    ensures !(LongWhen(s, b) && ShortWhen(s, b))
  {
  }

  /** The engine once the strategy is chosen; `None` is an id the `switch`
      does not know. */
  function Evaluate(cs: seq<Candle>, choice: Option<Strategy>, sqrt: Root): (r: Option<Side>)
    ensures |cs| < MinBars ==> r.None?
    ensures choice.None? ==> r.None?
    ensures choice == Some(PivotBreak) && PivotsClassic(cs).None? ==> r.None?
  {
    if |cs| < MinBars then None
    else
      match choice
      case None => None
      case Some(s) =>
        var b := TakeSnapshot(cs, sqrt);
        NoLevelsNoBreak(b);
        Decide(s, b)
  }

  /** Without pivot levels pivot_break has nothing to break. */
  lemma NoLevelsNoBreak(b: Snapshot)
    ensures b.pivots.None? ==> Decide(PivotBreak, b).None?
  {
  }

  /** `strategySignal(data)`, with the stored strategy id and the square root
      passed in. */
  function StrategySignal(cs: seq<Candle>, id: string, sqrt: Root): (r: Option<Side>)
    ensures |cs| < MinBars ==> r.None?
    ensures Parse(id).None? ==> r.None?
    ensures id == Id(PivotBreak) && PivotsClassic(cs).None? ==> r.None?
  {
    ParseId(PivotBreak);
    Evaluate(cs, Parse(id), sqrt)
  }

  /** Past the bar minimum, a chosen strategy's signal is its decision on
      the snapshot of the window's closes and pivots. */
  lemma EvaluateIsDecision(cs: seq<Candle>, s: Strategy, sqrt: Root)
    requires |cs| >= MinBars
    ensures Evaluate(cs, Some(s), sqrt) == Decide(s, SnapshotOf(Closes(cs), PivotsClassic(cs), sqrt))
  {
  }

  /** On sane bars the signal is LONG exactly when the LONG test passes and
      SHORT exactly when the SHORT test passes. */
  lemma SignalMatchesTests(cs: seq<Candle>, s: Strategy, sqrt: Root)
    requires |cs| >= MinBars && AllSane(cs)
    ensures var b := TakeSnapshot(cs, sqrt);
            && (StrategySignal(cs, Id(s), sqrt) == Some(Long) <==> LongWhen(s, b))
            && (StrategySignal(cs, Id(s), sqrt) == Some(Short) <==> ShortWhen(s, b))
  {
    ParseId(s);
    PivotsSupportBelowResistance(cs);
    Exclusive(s, TakeSnapshot(cs, sqrt));
  }

  /** ema_cross in terms of the EMA series: LONG exactly when EMA12 is above
      EMA26 at the last closed bar and was not above it at the bar before,
      SHORT exactly on the mirrored crossing. */
  lemma EmaCrossFiresOnCrossing(cs: seq<Candle>, sqrt: Root)
    requires |cs| >= MinBars
    ensures var f := LastClosed(Ema(Closes(cs), FastLen));
            var s := LastClosed(Ema(Closes(cs), SlowLen));
            && (Evaluate(cs, Some(EmaCross), sqrt) == Some(Long) <==> f.now > s.now && f.prev <= s.prev)
            && (Evaluate(cs, Some(EmaCross), sqrt) == Some(Short) <==> f.now < s.now && f.prev >= s.prev)
  {
    EvaluateIsDecision(cs, EmaCross, sqrt);
    EmaCrossOnCloses(Closes(cs), PivotsClassic(cs), sqrt);
  }

  lemma EmaCrossOnCloses(xs: seq<real>, piv: Option<Levels>, sqrt: Root)
    requires |xs| >= MinBars
    ensures var f := LastClosed(Ema(xs, FastLen));
            var s := LastClosed(Ema(xs, SlowLen));
            var d := Decide(EmaCross, SnapshotOf(xs, piv, sqrt));
            && (d == Some(Long) <==> f.now > s.now && f.prev <= s.prev)
            && (d == Some(Short) <==> f.now < s.now && f.prev >= s.prev)
  {
  }

  /** On strictly rising closes EMA12 leads EMA26 from the second bar on, so
      ema_cross stays silent on every window the engine accepts. */
  lemma EmaCrossQuietOnRisingCloses(cs: seq<Candle>, sqrt: Root)
    requires |cs| >= MinBars
    requires forall j :: 0 < j < |cs| ==> cs[j - 1].close < cs[j].close
    ensures Evaluate(cs, Some(EmaCross), sqrt) == None
  {
    var xs := Closes(cs);
    FastEmaLeadsOnRisingCloses(xs);
    EmaCrossFiresOnCrossing(cs, sqrt);
  }

  /** On strictly rising closes EMA12 is above EMA26 at both bars read. */
  lemma FastEmaLeadsOnRisingCloses(xs: seq<real>)
    requires |xs| >= MinBars
    requires forall j :: 0 < j < |xs| ==> xs[j - 1] < xs[j]
    ensures var f := LastClosed(Ema(xs, FastLen));
            var s := LastClosed(Ema(xs, SlowLen));
            f.now > s.now && f.prev > s.prev
  {
    assert Alpha(SlowLen) < Alpha(FastLen);
    FasterEmaLeads(xs, Alpha(FastLen), Alpha(SlowLen));
    var n := |xs|;
    assert Ema(xs, FastLen)[n - 2] > Ema(xs, SlowLen)[n - 2];
    assert Ema(xs, FastLen)[n - 3] > Ema(xs, SlowLen)[n - 3];
  }

  /** A bb_bounce LONG closes below the 20-bar mean and a SHORT above it. */
  lemma BandBounceSide(cs: seq<Candle>, sqrt: Root)
    requires |cs| >= MinBars
    ensures var b := TakeSnapshot(cs, sqrt);
            && (Evaluate(cs, Some(BbBounce), sqrt) == Some(Long) ==> b.close < b.basis)
            && (Evaluate(cs, Some(BbBounce), sqrt) == Some(Short) ==> b.close > b.basis)
  {
    BandDecision(TakeSnapshot(cs, sqrt));
  }

  lemma BandDecision(b: Snapshot)
    requires b.deviation >= 0.0
    ensures Decide(BbBounce, b) == Some(Long) ==> b.close < b.basis
    ensures Decide(BbBounce, b) == Some(Short) ==> b.close > b.basis
  {
  }

  /** macd_cross is the histogram changing sign: LONG exactly when it turns
      positive, SHORT exactly when it turns negative. */
  lemma MacdCrossIsHistogramTurn(cs: seq<Candle>, sqrt: Root)
    requires |cs| >= MinBars
    ensures var b := TakeSnapshot(cs, sqrt);
            && (Evaluate(cs, Some(MacdCross), sqrt) == Some(Long) <==> b.hist > 0.0 && b.histPrev <= 0.0)
            && (Evaluate(cs, Some(MacdCross), sqrt) == Some(Short) <==> b.hist < 0.0 && b.histPrev >= 0.0)
  {
    MacdDecision(TakeSnapshot(cs, sqrt));
  }

  lemma MacdDecision(b: Snapshot)
    requires b.hist == b.line - b.signal && b.histPrev == b.linePrev - b.signalPrev
    ensures Decide(MacdCross, b) == Some(Long) <==> b.hist > 0.0 && b.histPrev <= 0.0
    ensures Decide(MacdCross, b) == Some(Short) <==> b.hist < 0.0 && b.histPrev >= 0.0
  {
  }

  lemma RsiMacdDecision(b: Snapshot)
    requires b.hist == b.line - b.signal && b.histPrev == b.linePrev - b.signalPrev
    ensures Decide(RsiMacd, b) == Some(Long) ==> b.rsi < Oversold && Decide(MacdCross, b) == Some(Long)
    ensures Decide(RsiMacd, b) == Some(Short) ==> b.rsi > Overbought && Decide(MacdCross, b) == Some(Short)
  {
  }

  /** rsi_macd is macd_cross filtered by RSI: whatever it signals, macd_cross
      signals too, with RSI below 30 for LONG and above 70 for SHORT. */
  lemma RsiMacdRefinesMacdCross(cs: seq<Candle>, sqrt: Root)
    requires |cs| >= MinBars
    ensures var b := TakeSnapshot(cs, sqrt);
            && (Evaluate(cs, Some(RsiMacd), sqrt) == Some(Long) ==>
                  b.rsi < Oversold && Evaluate(cs, Some(MacdCross), sqrt) == Some(Long))
            && (Evaluate(cs, Some(RsiMacd), sqrt) == Some(Short) ==>
                  b.rsi > Overbought && Evaluate(cs, Some(MacdCross), sqrt) == Some(Short))
  {
    RsiMacdDecision(TakeSnapshot(cs, sqrt));
  }

  /** Equal closes before the last bar give equal snapshots: the last close
      is never read. */
  lemma SnapshotIgnoresLastClose(xs: seq<real>, ys: seq<real>, piv: Option<Levels>, sqrt: Root)
    requires |xs| == |ys| >= MinBars
    requires xs[..|xs| - 1] == ys[..|ys| - 1]
    ensures SnapshotOf(xs, piv, sqrt) == SnapshotOf(ys, piv, sqrt)
  {
    ClosesAgree(xs, ys);
    EmasAgree(xs, ys, FastLen);
    EmasAgree(xs, ys, SlowLen);
    RsisAgree(xs, ys);
    MacdsAgree(xs, ys);
    BandsAgree(xs, ys, sqrt);
  }

  lemma ClosesAgree(xs: seq<real>, ys: seq<real>)
    requires |xs| == |ys| >= MinBars
    requires xs[..|xs| - 1] == ys[..|ys| - 1]
    ensures LastClosed(xs) == LastClosed(ys)
  {
    var m := |xs| - 1;
    forall j | 0 <= j < m
      ensures xs[j] == ys[j]
    {
      assert xs[j] == xs[..m][j] && ys[j] == ys[..m][j];
    }
    LastClosedAgrees(xs, ys);
  }

  lemma EmasAgree(xs: seq<real>, ys: seq<real>, len: nat)
    requires |xs| == |ys| >= MinBars
    requires xs[..|xs| - 1] == ys[..|ys| - 1]
    ensures LastClosed(Ema(xs, len)) == LastClosed(Ema(ys, len))
  {
    EmaAgrees(xs, ys, len, |xs| - 1);
    LastClosedAgrees(Ema(xs, len), Ema(ys, len));
  }

  lemma RsisAgree(xs: seq<real>, ys: seq<real>)
    requires |xs| == |ys| >= MinBars
    requires xs[..|xs| - 1] == ys[..|ys| - 1]
    ensures RsiClosed(xs) == RsiClosed(ys)
  {
    RsiAgrees(xs, ys, RsiLen, |xs| - 1);
    assert Rsi(xs, RsiLen)[|xs| - 2] == Rsi(ys, RsiLen)[|ys| - 2];
  }

  lemma MacdsAgree(xs: seq<real>, ys: seq<real>)
    requires |xs| == |ys| >= MinBars
    requires xs[..|xs| - 1] == ys[..|ys| - 1]
    ensures MacdClosed(xs) == MacdClosed(ys)
  {
    var a := Macd(xs, FastLen, SlowLen, SignalLen);
    var b := Macd(ys, FastLen, SlowLen, SignalLen);
    MacdAgrees(xs, ys, FastLen, SlowLen, SignalLen, |xs| - 1);
    LastClosedAgrees(a.line, b.line);
    LastClosedAgrees(a.signal, b.signal);
    LastClosedAgrees(a.hist, b.hist);
  }

  lemma BandsAgree(xs: seq<real>, ys: seq<real>, sqrt: Root)
    requires |xs| == |ys| >= MinBars
    requires xs[..|xs| - 1] == ys[..|ys| - 1]
    ensures BasisClosed(xs) == BasisClosed(ys)
    ensures DeviationClosed(xs, sqrt) == DeviationClosed(ys, sqrt)
  {
    SmaAgrees(xs, ys, BandLen, |xs| - 1);
    StddevAgrees(xs, ys, BandLen, sqrt, |xs| - 1);
    assert Sma(xs, BandLen)[|xs| - 2] == Sma(ys, BandLen)[|ys| - 2];
    assert Stddev(xs, BandLen, sqrt)[|xs| - 2] == Stddev(ys, BandLen, sqrt)[|ys| - 2];
  }

  lemma ClosesPrefix(cs: seq<Candle>, ds: seq<Candle>)
    requires |cs| == |ds| > 0 && cs[..|cs| - 1] == ds[..|ds| - 1]
    ensures var xs := Closes(cs);
            var ys := Closes(ds);
            xs[..|xs| - 1] == ys[..|ys| - 1]
  {
    var m := |cs| - 1;
    forall j | 0 <= j < m
      ensures Closes(cs)[j] == Closes(ds)[j]
    {
      assert cs[j] == cs[..m][j];
      assert ds[j] == ds[..m][j];
    }
  }

  /** The snapshot does not depend on the forming bar's prices. */
  lemma SnapshotIgnoresFormingBar(cs: seq<Candle>, ds: seq<Candle>, sqrt: Root)
    requires |cs| == |ds| >= MinBars
    requires cs[..|cs| - 1] == ds[..|ds| - 1]
    requires UtcDay(cs[|cs| - 1].time) == UtcDay(ds[|ds| - 1].time)
    ensures TakeSnapshot(cs, sqrt) == TakeSnapshot(ds, sqrt)
  {
    PivotsIgnoreFormingBar(cs, ds);
    ClosesSnapshotAgree(cs, ds, PivotsClassic(cs), sqrt);
  }

  lemma ClosesSnapshotAgree(cs: seq<Candle>, ds: seq<Candle>, piv: Option<Levels>, sqrt: Root)
    requires |cs| == |ds| >= MinBars
    requires cs[..|cs| - 1] == ds[..|ds| - 1]
    ensures SnapshotOf(Closes(cs), piv, sqrt) == SnapshotOf(Closes(ds), piv, sqrt)
  {
    ClosesPrefix(cs, ds);
    SnapshotIgnoresLastClose(Closes(cs), Closes(ds), piv, sqrt);
  }

  /** The engine never acts on the bar still forming: two windows that agree
      on every bar but the last, whose last bars fall on the same UTC date,
      get the same signal. */
  lemma IgnoresFormingBar(cs: seq<Candle>, ds: seq<Candle>, choice: Option<Strategy>, sqrt: Root)
    requires |cs| == |ds|
    requires |cs| > 0 && cs[..|cs| - 1] == ds[..|ds| - 1]
    requires UtcDay(cs[|cs| - 1].time) == UtcDay(ds[|ds| - 1].time)
    ensures Evaluate(cs, choice, sqrt) == Evaluate(ds, choice, sqrt)
  {
    if |cs| >= MinBars {
      SnapshotIgnoresFormingBar(cs, ds, sqrt);
    }
  }

  /** The same, for the engine as selected by a strategy id. */
  lemma SignalIgnoresFormingBar(cs: seq<Candle>, ds: seq<Candle>, id: string, sqrt: Root)
    requires |cs| == |ds|
    requires |cs| > 0 && cs[..|cs| - 1] == ds[..|ds| - 1]
    requires UtcDay(cs[|cs| - 1].time) == UtcDay(ds[|ds| - 1].time)
    ensures StrategySignal(cs, id, sqrt) == StrategySignal(ds, id, sqrt)
  {
    IgnoresFormingBar(cs, ds, Parse(id), sqrt);
  }

  /** The closes at the two bars read are the candles' closes there. */
  lemma LastClosedCloses(cs: seq<Candle>)
    requires |cs| >= 3
    ensures LastClosed(Closes(cs)) == Pair(cs[|cs| - 2].close, cs[|cs| - 3].close)
  {
  }
}
