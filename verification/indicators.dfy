/** The indicator library of app.js: exponential and simple moving averages,
    rolling population standard deviation, Wilder's RSI and MACD. Every
    indicator maps a series of closes to a series of the same length; `None`
    marks the entries the source fills with `NaN`. */
module Indicators {
  import opened Wrappers

  // ---------------------------------------------------------------------------
  // Sums and extremes of a series
  // ---------------------------------------------------------------------------

  /** Left-to-right sum, the order of the source's running sums and `reduce`. */
  function Sum(s: seq<real>): real
    decreases |s|
  {
    if |s| == 0 then 0.0 else Sum(s[..|s| - 1]) + s[|s| - 1]
  }

  /** The sum can equally be peeled from the front. */
  lemma {:induction false} SumFront(s: seq<real>)
    requires |s| > 0
    ensures Sum(s) == s[0] + Sum(s[1..])
    decreases |s|
  {
    var n := |s|;
    if n == 1 {
      assert s[..0] == [];
      assert s[1..] == [];
    } else {
      SumFront(s[..n - 1]);
      assert s[..n - 1][1..] == s[1..][..n - 2];
    }
  }

  /** A window of constant values sums to its length times that value. */
  lemma {:induction false} SumConstant(s: seq<real>, c: real)
    requires forall j :: 0 <= j < |s| ==> s[j] == c
    ensures Sum(s) == |s| as real * c
    decreases |s|
  {
    if |s| > 0 {
      SumConstant(s[..|s| - 1], c);
    }
  }

  /** The smallest entry of a nonempty series. */
  function Lo(s: seq<real>): (m: real)
    requires |s| > 0
    ensures forall j :: 0 <= j < |s| ==> m <= s[j]
    ensures m in s
    decreases |s|
  {
    if |s| == 1 then s[0]
    else
      var m := Lo(s[..|s| - 1]);
      assert m in s[..|s| - 1];
      if s[|s| - 1] < m then s[|s| - 1] else m
  }

  /** The largest entry of a nonempty series. */
  function Hi(s: seq<real>): (m: real)
    requires |s| > 0
    ensures forall j :: 0 <= j < |s| ==> s[j] <= m
    ensures m in s
    decreases |s|
  {
    if |s| == 1 then s[0]
    else
      var m := Hi(s[..|s| - 1]);
      assert m in s[..|s| - 1];
      if s[|s| - 1] > m then s[|s| - 1] else m
  }

  // ---------------------------------------------------------------------------
  // EMA (app.js:34-44)
  // ---------------------------------------------------------------------------

  /** The smoothing factor `2/(len+1)`; a proper weight once `len >= 1`. */
  function Alpha(len: nat): (k: real)
    ensures 0.0 < k <= 2.0
    ensures len >= 1 ==> k <= 1.0
    ensures len >= 2 ==> k < 1.0
    ensures k * (len as real + 1.0) == 2.0
  {
    2.0 / (len as real + 1.0)
  }

  /** One EMA step: the new value weighted by `k`, the previous output by `1-k`. */
  function Blend(v: real, prev: real, k: real): real {
    v * k + prev * (1.0 - k)
  }

  /** Blending a value with itself gives it back, which is why the first
      output equals the first input. */
  lemma BlendSame(v: real, k: real)
    ensures Blend(v, v, k) == v
  {
  }

  /** EMA with weight `k`, seeded with the first value itself: the first
      output is `v*k + v*(1-k)`, and every later one blends the new value with
      the previous output. */
  function EmaWith(xs: seq<real>, k: real): (r: seq<real>)
    ensures |r| == |xs|
    ensures |xs| > 0 ==> r[0] == xs[0]
    decreases |xs|
  {
    if |xs| == 0 then []
    else
      var init := EmaWith(xs[..|xs| - 1], k);
      var prev := if |xs| == 1 then xs[0] else init[|xs| - 2];
      BlendSame(xs[0], k);
      init + [Blend(xs[|xs| - 1], prev, k)]
  }

  /** `ema(arr, len)`: defined from index 0, starting at the first value. */
  function Ema(xs: seq<real>, len: nat): (r: seq<real>)
    ensures |r| == |xs|
    ensures |xs| > 0 ==> r[0] == xs[0]
  {
    EmaWith(xs, Alpha(len))
  }

  /** No look-ahead: the EMA of a prefix is the prefix of the EMA. */
  lemma {:induction false} EmaPrefix(xs: seq<real>, k: real, m: nat)
    requires m <= |xs|
    ensures EmaWith(xs[..m], k) == EmaWith(xs, k)[..m]
    decreases |xs|
  {
    var n := |xs|;
    if m == n {
      assert xs[..m] == xs;
    } else {
      EmaPrefix(xs[..n - 1], k, m);
      assert xs[..n - 1][..m] == xs[..m];
    }
  }

  /** Every output after the first is the source's blend of the new value and
      the previous output. */
  lemma EmaRecurrence(xs: seq<real>, k: real, i: nat)
    requires 0 < i < |xs|
    ensures EmaWith(xs, k)[i] == Blend(xs[i], EmaWith(xs, k)[i - 1], k)
  {
    EmaPrefix(xs, k, i + 1);
    EmaPrefix(xs, k, i);
    assert xs[..i + 1][..i] == xs[..i];
  }

  /** A blend with a weight in [0,1] stays between any common bounds. */
  lemma BlendInRange(v: real, p: real, k: real, lo: real, hi: real)
    requires 0.0 <= k <= 1.0
    requires lo <= v <= hi && lo <= p <= hi
    ensures lo <= Blend(v, p, k) <= hi
  {
    assert (v - lo) * k >= 0.0;
    assert (p - lo) * (1.0 - k) >= 0.0;
    assert (hi - v) * k >= 0.0;
    assert (hi - p) * (1.0 - k) >= 0.0;
  }

  /** With a proper weight, the EMA never leaves a range containing its inputs. */
  lemma {:induction false} EmaInRange(xs: seq<real>, k: real, lo: real, hi: real)
    requires 0.0 <= k <= 1.0
    requires forall j :: 0 <= j < |xs| ==> lo <= xs[j] <= hi
    ensures forall j :: 0 <= j < |xs| ==> lo <= EmaWith(xs, k)[j] <= hi
    decreases |xs|
  {
    var n := |xs|;
    if n > 0 {
      var init := xs[..n - 1];
      EmaInRange(init, k, lo, hi);
      var prev := if n == 1 then xs[0] else EmaWith(init, k)[n - 2];
      BlendInRange(xs[n - 1], prev, k, lo, hi);
    }
  }

  /** Each EMA output lies between the smallest and largest input seen so far. */
  lemma EmaBetweenPrefixExtremes(xs: seq<real>, len: nat)
    requires len >= 1
    ensures forall i :: 0 <= i < |xs| ==> Lo(xs[..i + 1]) <= Ema(xs, len)[i] <= Hi(xs[..i + 1])
  {
    var k := Alpha(len);
    forall i | 0 <= i < |xs|
      ensures Lo(xs[..i + 1]) <= Ema(xs, len)[i] <= Hi(xs[..i + 1])
    {
      var p := xs[..i + 1];
      EmaInRange(p, k, Lo(p), Hi(p));
      EmaPrefix(xs, k, i + 1);
    }
  }

  /** The source's loop for `ema`, with the running `prev`. */
  method EmaLoop(xs: seq<real>, len: nat) returns (out: seq<real>)
    ensures out == Ema(xs, len)
    ensures |out| == |xs|
    ensures |xs| > 0 ==> out[0] == xs[0]
    ensures forall i :: 0 < i < |xs| ==> out[i] == Blend(xs[i], out[i - 1], Alpha(len))
  {
    var k := Alpha(len);
    out := [];
    var prev := 0.0;
    var i := 0;
    while i < |xs|
      invariant 0 <= i <= |xs|
      invariant out == EmaWith(xs[..i], k)
      invariant i > 0 ==> prev == out[i - 1]
    {
      var v := xs[i];
      if i == 0 {
        prev := v;
      }
      var e := Blend(v, prev, k);
      assert xs[..i + 1][..i] == xs[..i];
      out := out + [e];
      prev := e;
      i := i + 1;
    }
    assert xs[..|xs|] == xs;
    forall i | 0 < i < |xs|
      ensures out[i] == Blend(xs[i], out[i - 1], k)
    {
      EmaRecurrence(xs, k, i);
    }
  }

  lemma MulNonneg(a: real, b: real)
    requires a >= 0.0 && b >= 0.0
    ensures a * b >= 0.0
  {
  }

  lemma MulPos(a: real, b: real)
    requires a > 0.0 && b > 0.0
    ensures a * b > 0.0
  {
  }

  /** Blending toward a value above the previous output stays at or below it. */
  lemma BlendBelow(x: real, a: real, k: real)
    requires 0.0 <= k <= 1.0 && a <= x
    ensures Blend(x, a, k) <= x
  {
    MulNonneg(x - a, 1.0 - k);
    BlendGap(x, a, k);
  }

  /** A heavier weight on a rising new value, from a start no lower, ends
      strictly higher. */
  lemma BlendLeads(x: real, a: real, b: real, kf: real, ks: real)
    requires 0.0 < ks < kf <= 1.0
    requires b <= a && b < x
    ensures Blend(x, a, kf) > Blend(x, b, ks)
  {
    MulPos(kf - ks, x - b);
    MulNonneg(1.0 - kf, a - b);
    BlendDifference(x, a, b, kf, ks);
  }

  lemma BlendDifference(x: real, a: real, b: real, kf: real, ks: real)
    ensures Blend(x, a, kf) - Blend(x, b, ks) == (kf - ks) * (x - b) + (1.0 - kf) * (a - b)
  {
  }

  /** On strictly rising inputs, the faster EMA lies strictly above the slower
      one from the second value on, and both trail the latest input. */
  lemma {:induction false} FasterEmaLeads(xs: seq<real>, kf: real, ks: real)
    requires 0.0 < ks < kf <= 1.0
    requires forall j :: 0 < j < |xs| ==> xs[j - 1] < xs[j]
    ensures forall j :: 0 < j < |xs| ==> EmaWith(xs, kf)[j] > EmaWith(xs, ks)[j]
    ensures forall j :: 0 <= j < |xs| ==> EmaWith(xs, kf)[j] <= xs[j] && EmaWith(xs, ks)[j] <= xs[j]
    decreases |xs|
  {
    var n := |xs|;
    if n > 1 {
      var init := xs[..n - 1];
      FasterEmaLeads(init, kf, ks);
      var a := EmaWith(init, kf)[n - 2];
      var b := EmaWith(init, ks)[n - 2];
      var x := xs[n - 1];
      assert a <= xs[n - 2] && b <= xs[n - 2];
      BlendLeads(x, a, b, kf, ks);
      BlendBelow(x, a, kf);
      BlendBelow(x, b, ks);
    }
  }

  // ---------------------------------------------------------------------------
  // SMA (app.js:45-53)
  // ---------------------------------------------------------------------------

  /** The trailing window of `len` values ending at index `i`. */
  function Window(xs: seq<real>, i: nat, len: nat): (w: seq<real>)
    requires len <= i + 1 <= |xs|
    ensures |w| == len
  {
    xs[i + 1 - len..i + 1]
  }

  /** A total divided by the window length. */
  function Mean(total: real, len: nat): real
    requires len > 0
  {
    total / len as real
  }

  /** `sma(arr, len)` as a specification: the mean of the trailing window once
      it is full. With `len == 0` the source divides 0 by 0, so every entry is
      undefined. */
  function Sma(xs: seq<real>, len: nat): (r: seq<Option<real>>)
    ensures |r| == |xs|
    ensures forall i :: 0 <= i < |r| ==> (r[i].Some? <==> 0 < len <= i + 1)
  {
    seq(|xs|, i requires 0 <= i < |xs| =>
      if 0 < len <= i + 1 then Some(Mean(Sum(Window(xs, i, len)), len)) else None)
  }

  /** Start of the values the running sum holds before step `i`. */
  function Lag(i: nat, len: nat): nat {
    if i >= len then i - len else 0
  }

  /** One step of the running sum: add the new value, and once the window is
      full drop the value `len` places back. */
  lemma RunningSumStep(xs: seq<real>, len: nat, i: nat)
    requires i < |xs|
    ensures Sum(xs[Lag(i + 1, len)..i + 1])
            == Sum(xs[Lag(i, len)..i]) + xs[i] - (if i >= len then xs[i - len] else 0.0)
  {
    var a := Lag(i, len);
    assert xs[a..i + 1][..i - a] == xs[a..i];
    if i >= len {
      SumFront(xs[a..i + 1]);
      assert xs[a..i + 1][1..] == xs[a + 1..i + 1];
    }
  }

  /** The source's single-pass `sma`: a running sum that adds the new value
      and drops the one that fell out of the window. */
  method SmaRunning(xs: seq<real>, len: nat) returns (out: seq<Option<real>>)
    ensures out == Sma(xs, len)
    ensures |out| == |xs|
    ensures forall i :: 0 <= i < |xs| ==> (out[i].Some? <==> 0 < len <= i + 1)
    ensures forall i :: 0 <= i < |xs| && out[i].Some? ==>
              out[i].value * len as real == Sum(xs[i + 1 - len..i + 1])
  {
    out := SmaLoop(xs, len);
    forall i | 0 <= i < |xs| && out[i].Some?
      ensures out[i].value * len as real == Sum(xs[i + 1 - len..i + 1])
    {
      MeanTimesLength(Sum(xs[i + 1 - len..i + 1]), len);
    }
  }

  lemma MeanTimesLength(total: real, len: nat)
    requires len > 0
    ensures Mean(total, len) * len as real == total
  {
  }

  /** Once the running sum holds the trailing window, the entry it yields is
      the specified one. */
  lemma SmaEntry(xs: seq<real>, len: nat, i: nat, sum: real)
    requires i < |xs|
    requires sum == Sum(xs[Lag(i + 1, len)..i + 1])
    ensures Sma(xs, len)[i] == if 0 < len <= i + 1 then Some(Mean(sum, len)) else None
  {
  }

  /** One pass of the loop: add the new value, drop the one `len` back once
      the window is full, and read the entry off the updated sum. */
  method SmaPass(xs: seq<real>, len: nat, i: nat, sum: real) returns (o: Option<real>, next: real)
    requires i < |xs|
    requires sum == Sum(xs[Lag(i, len)..i])
    ensures next == Sum(xs[Lag(i + 1, len)..i + 1])
    ensures o == Sma(xs, len)[i]
  {
    next := sum + xs[i];
    if i >= len {
      next := next - xs[i - len];
    }
    RunningSumStep(xs, len, i);
    // i >= len-1 selects sum/len in the source; with len == 0 that is 0/0.
    o := if 0 < len <= i + 1 then Some(Mean(next, len)) else None;
    SmaEntry(xs, len, i, next);
  }

  /** A prefix extended by the next element is the longer prefix. */
  lemma PrefixGrows<T>(s: seq<T>, i: nat)
    requires i < |s|
    ensures s[..i] + [s[i]] == s[..i + 1]
  {
  }

  /** The loop itself. */
  method SmaLoop(xs: seq<real>, len: nat) returns (out: seq<Option<real>>)
    ensures out == Sma(xs, len)
  {
    var spec := Sma(xs, len);
    out := [];
    var sum := 0.0;
    var i := 0;
    while i < |xs|
      invariant 0 <= i <= |xs|
      invariant out == spec[..i]
      invariant sum == Sum(xs[Lag(i, len)..i])
    {
      var o, next := SmaPass(xs, len, i, sum);
      PrefixGrows(spec, i);
      out, sum, i := out + [o], next, i + 1;
    }
    assert spec[..|xs|] == spec;
  }

  // ---------------------------------------------------------------------------
  // Rolling population standard deviation (app.js:54-62)
  // ---------------------------------------------------------------------------

  /** An abstract square root: only its nonnegativity on nonnegative inputs is
      known. */
  type Root = f: real -> real | forall x: real :: 0.0 <= x ==> 0.0 <= f(x)
    witness (x: real) => 0.0

  /** Sum of squared deviations from `m`, accumulated left to right. */
  function SqDev(w: seq<real>, m: real): (r: real)
    ensures r >= 0.0
    decreases |w|
  {
    if |w| == 0 then 0.0
    else
      var d := w[|w| - 1] - m;
      Square(d);
      SqDev(w[..|w| - 1], m) + d * d
  }

  lemma Square(d: real)
    ensures d * d >= 0.0
  {
    if d < 0.0 {
      assert d * d == (-d) * (-d);
    }
  }

  /** Population variance: mean squared deviation from the window mean. */
  function Variance(w: seq<real>): (v: real)
    requires |w| > 0
    ensures v >= 0.0
  {
    Mean(SqDev(w, Mean(Sum(w), |w|)), |w|)
  }

  /** `stddev(arr, len)`: undefined until the window is full (and everywhere
      when `len == 0`, where the source takes the root of 0/0). */
  function Stddev(xs: seq<real>, len: nat, sqrt: Root): (r: seq<Option<real>>)
    ensures |r| == |xs|
    ensures forall i :: 0 <= i < |xs| ==> (r[i].Some? <==> 0 < len <= i + 1)
    ensures forall i :: 0 <= i < |xs| && r[i].Some? ==> 0.0 <= r[i].value
  {
    var r := seq(|xs|, i requires 0 <= i < |xs| =>
      if 0 < len <= i + 1 then Some(sqrt(Variance(Window(xs, i, len)))) else None);
    assert forall i :: 0 <= i < |xs| && r[i].Some? ==> 0.0 <= r[i].value by {
      forall i | 0 <= i < |xs| && r[i].Some?
        ensures 0.0 <= r[i].value
      {
        var v := Variance(Window(xs, i, len));
        assert r[i].value == sqrt(v);
      }
    }
    r
  }

  /** Squared deviations from the common value of a constant window vanish. */
  lemma {:induction false} SqDevConstant(w: seq<real>, c: real)
    requires forall j :: 0 <= j < |w| ==> w[j] == c
    ensures SqDev(w, c) == 0.0
    decreases |w|
  {
    if |w| > 0 {
      SqDevConstant(w[..|w| - 1], c);
    }
  }

  /** A defined deviation is the root of the trailing window's population
      variance. */
  lemma StddevIsRootOfVariance(xs: seq<real>, len: nat, sqrt: Root, i: nat)
    requires 0 < len <= i + 1 && i < |xs|
    ensures Stddev(xs, len, sqrt)[i] == Some(sqrt(Variance(Window(xs, i, len))))
  {
  }

  /** The population variance divides by the window length, not one less:
      the window 1, 3 has mean 2, squared deviations 1 and 1, and variance 1. */
  lemma VarianceExample()
    ensures Variance([1.0, 3.0]) == 1.0
  {
    var w := [1.0, 3.0];
    assert w[..1] == [1.0];
    assert Sum(w) == 4.0;
    assert Mean(Sum(w), |w|) == 2.0;
    assert SqDev(w, 2.0) == 2.0;
  }

  /** A flat window has zero variance, so its deviation is the root of 0. */
  lemma FlatWindowHasZeroVariance(w: seq<real>, c: real)
    requires |w| > 0
    requires forall j :: 0 <= j < |w| ==> w[j] == c
    ensures Variance(w) == 0.0
  {
    SumConstant(w, c);
    assert Mean(Sum(w), |w|) == c;
    SqDevConstant(w, c);
  }

  // ---------------------------------------------------------------------------
  // RSI (app.js:63-77)
  // ---------------------------------------------------------------------------

  /** The running gain and loss figures `up` and `dn` of the source. */
  datatype Averages = Averages(up: real, dn: real)

  function Gain(xs: seq<real>, i: nat): (g: real)
    requires 0 < i < |xs|
    ensures g >= 0.0
  {
    var ch := xs[i] - xs[i - 1];
    if ch > 0.0 then ch else 0.0
  }

  function Loss(xs: seq<real>, i: nat): (l: real)
    requires 0 < i < |xs|
    ensures l >= 0.0
  {
    var ch := xs[i] - xs[i - 1];
    if -ch > 0.0 then -ch else 0.0
  }

  /** Wilder's smoothing step `(x*(len-1) + v)/len`. */
  function Smooth(x: real, v: real, len: nat): (r: real)
    requires len >= 1
    ensures x >= 0.0 && v >= 0.0 ==> r >= 0.0
  {
    (x * (len as real - 1.0) + v) / len as real
  }

  /** `up`/`dn` after processing index `i`: raw sums while `i <= len`, then
      Wilder's smoothing `(x*(len-1) + new)/len`. */
  function Accum(xs: seq<real>, len: nat, i: nat): (a: Averages)
    requires len >= 1
    requires i < |xs|
    ensures a.up >= 0.0 && a.dn >= 0.0
    decreases i
  {
    if i == 0 then Averages(0.0, 0.0)
    else
      var a := Accum(xs, len, i - 1);
      if i <= len then Averages(a.up + Gain(xs, i), a.dn + Loss(xs, i))
      else
        Averages(Smooth(a.up, Gain(xs, i), len), Smooth(a.dn, Loss(xs, i), len))
  }

  /** `100 - 100/(1+rs)`, where a zero `dn` forces `rs = 100`. */
  function RsiOf(a: Averages): (v: real)
    requires a.up >= 0.0 && a.dn >= 0.0
    ensures 0.0 <= v < 100.0
  {
    var rs := if a.dn == 0.0 then 100.0 else a.up / a.dn;
    assert rs >= 0.0;
    assert 100.0 / (1.0 + rs) <= 100.0;
    100.0 - 100.0 / (1.0 + rs)
  }

  /** `rsi(arr, len)`: undefined at indices `0..len`, defined after. */
  function Rsi(xs: seq<real>, len: nat): (r: seq<Option<real>>)
    requires len >= 1
    ensures |r| == |xs|
    ensures forall i :: 0 <= i < |xs| ==> (r[i].Some? <==> len < i)
    ensures forall i :: 0 <= i < |xs| && r[i].Some? ==> 0.0 <= r[i].value < 100.0
  {
    // index 0 is skipped outright in the source; len >= 1 makes it part of the seeding
    seq(|xs|, i requires 0 <= i < |xs| => if i <= len then None else Some(RsiOf(Accum(xs, len, i))))
  }

  /** With no losses the value is pinned at `100 - 100/101`, not 100. */
  lemma RsiWithoutLosses(a: Averages)
    requires a.up >= 0.0 && a.dn == 0.0
    ensures RsiOf(a) == 100.0 - 100.0 / 101.0
  {
  }

  /** With losses present, RSI is the gains' share of all movement, in percent. */
  lemma RsiIsShareOfGains(a: Averages)
    requires a.up >= 0.0 && a.dn > 0.0
    ensures RsiOf(a) * (a.up + a.dn) == 100.0 * a.up
  {
    var rs := a.up / a.dn;
    assert rs * a.dn == a.up;
    assert (1.0 + rs) * a.dn == a.up + a.dn;
    var q := 100.0 / (1.0 + rs);
    assert q * (1.0 + rs) == 100.0;
    calc {
      RsiOf(a) * (a.up + a.dn);
      (100.0 - q) * ((1.0 + rs) * a.dn);
      100.0 * (1.0 + rs) * a.dn - q * (1.0 + rs) * a.dn;
      100.0 * (a.up + a.dn) - 100.0 * a.dn;
    }
  }

  /** Sum of gains over indices `1..i`. */
  function GainSum(xs: seq<real>, i: nat): real
    requires i < |xs|
    decreases i
  {
    if i == 0 then 0.0 else GainSum(xs, i - 1) + Gain(xs, i)
  }

  /** Sum of losses over indices `1..i`. */
  function LossSum(xs: seq<real>, i: nat): real
    requires i < |xs|
    decreases i
  {
    if i == 0 then 0.0 else LossSum(xs, i - 1) + Loss(xs, i)
  }

  /** During seeding `up` and `dn` are the raw sums, not their averages. */
  lemma {:induction false} RsiSeedIsRawSum(xs: seq<real>, len: nat, i: nat)
    requires len >= 1 && i < |xs| && i <= len
    ensures Accum(xs, len, i) == Averages(GainSum(xs, i), LossSum(xs, i))
    decreases i
  {
    if i > 0 {
      RsiSeedIsRawSum(xs, len, i - 1);
    }
  }

  /** Hence the first smoothing step weighs the whole seed sum by `len-1`. */
  lemma RsiFirstSmoothing(xs: seq<real>, len: nat)
    requires len >= 1 && len + 1 < |xs|
    ensures Accum(xs, len, len + 1)
            == Averages(Smooth(GainSum(xs, len), Gain(xs, len + 1), len),
                        Smooth(LossSum(xs, len), Loss(xs, len + 1), len))
  {
    RsiSeedIsRawSum(xs, len, len);
  }

  /** On a series that never falls, `dn` stays 0. */
  lemma {:induction false} NoLossesKeepDownZero(xs: seq<real>, len: nat, i: nat)
    requires len >= 1 && i < |xs|
    requires forall j :: 0 < j < |xs| ==> xs[j - 1] <= xs[j]
    ensures Accum(xs, len, i).dn == 0.0
    decreases i
  {
    if i > 0 {
      NoLossesKeepDownZero(xs, len, i - 1);
      assert Loss(xs, i) == 0.0;
    }
  }

  /** A rising (or flat) series reads `100 - 100/101` at every defined index. */
  lemma RsiOnRisingSeries(xs: seq<real>, len: nat)
    requires len >= 1
    requires forall j :: 0 < j < |xs| ==> xs[j - 1] <= xs[j]
    ensures forall i :: len < i < |xs| ==> Rsi(xs, len)[i] == Some(100.0 - 100.0 / 101.0)
  {
    forall i | len < i < |xs|
      ensures Rsi(xs, len)[i] == Some(100.0 - 100.0 / 101.0)
    {
      NoLossesKeepDownZero(xs, len, i);
      RsiWithoutLosses(Accum(xs, len, i));
    }
  }

  /** The source's loop for `rsi`, carrying `up` and `dn`. */
  method RsiLoop(xs: seq<real>, len: nat) returns (out: seq<Option<real>>)
    requires len >= 1
    ensures out == Rsi(xs, len)
    ensures forall i :: 0 <= i < |xs| ==> (out[i].Some? <==> len < i)
  {
    var spec := Rsi(xs, len);
    out := [];
    var up, dn := 0.0, 0.0;
    var i := 0;
    while i < |xs|
      invariant 0 <= i <= |xs|
      invariant out == spec[..i]
      invariant i == 0 ==> up == 0.0 && dn == 0.0
      invariant i > 0 ==> Averages(up, dn) == Accum(xs, len, i - 1)
    {
      var o: Option<real>;
      if i == 0 {
        o := None;
      } else {
        var ch := xs[i] - xs[i - 1];
        var gain := if ch > 0.0 then ch else 0.0;
        var loss := if -ch > 0.0 then -ch else 0.0;
        assert gain == Gain(xs, i) && loss == Loss(xs, i);
        if i <= len {
          up, dn := up + gain, dn + loss;
          o := None;
        } else {
          up := Smooth(up, gain, len);
          dn := Smooth(dn, loss, len);
          o := Some(RsiOf(Averages(up, dn)));
        }
        assert Averages(up, dn) == Accum(xs, len, i);
      }
      assert o == spec[i];
      PrefixGrows(spec, i);
      out := out + [o];
      i := i + 1;
    }
    assert spec[..|xs|] == spec;
  }

  // ---------------------------------------------------------------------------
  // MACD (app.js:78-86)
  // ---------------------------------------------------------------------------

  datatype MacdSeries = MacdSeries(line: seq<real>, signal: seq<real>, hist: seq<real>)

  /** `macd(arr, fast, slow, signal)`: the EMA spread, its EMA, and their gap. */
  function Macd(xs: seq<real>, fast: nat, slow: nat, signal: nat): (m: MacdSeries)
    ensures |m.line| == |xs| && |m.signal| == |xs| && |m.hist| == |xs|
    ensures forall i :: 0 <= i < |xs| ==> m.line[i] == Ema(xs, fast)[i] - Ema(xs, slow)[i]
    ensures m.signal == Ema(m.line, signal)
    ensures forall i :: 0 <= i < |xs| ==> m.hist[i] == m.line[i] - m.signal[i]
    ensures |xs| > 0 ==> m.line[0] == 0.0 && m.signal[0] == 0.0 && m.hist[0] == 0.0
  {
    var ef := Ema(xs, fast);
    var es := Ema(xs, slow);
    var line := seq(|xs|, i requires 0 <= i < |xs| => ef[i] - es[i]);
    var sig := Ema(line, signal);
    var hist := seq(|xs|, i requires 0 <= i < |xs| => line[i] - sig[i]);
    MacdSeries(line, sig, hist)
  }

  /** After the first bar the histogram is the line's lead over the previous
      signal value, scaled by `1 - k`; for `signal >= 2` the two share a sign. */
  lemma MacdHistogramLead(xs: seq<real>, fast: nat, slow: nat, signal: nat, i: nat)
    requires 0 < i < |xs|
    ensures var m := Macd(xs, fast, slow, signal);
            m.hist[i] == (1.0 - Alpha(signal)) * (m.line[i] - m.signal[i - 1])
    ensures var m := Macd(xs, fast, slow, signal);
            signal >= 2 ==> (m.hist[i] > 0.0 <==> m.line[i] > m.signal[i - 1])
  {
    var m := Macd(xs, fast, slow, signal);
    var k := Alpha(signal);
    var lead := m.line[i] - m.signal[i - 1];
    assert m.signal[i] == Blend(m.line[i], m.signal[i - 1], k) by {
      EmaRecurrence(m.line, k, i);
    }
    assert m.hist[i] == (1.0 - k) * lead by {
      BlendGap(m.line[i], m.signal[i - 1], k);
    }
    if signal >= 2 {
      PositiveScale(1.0 - k, lead);
    }
  }

  /** What a blend leaves of the gap between the new value and the previous. */
  lemma BlendGap(v: real, p: real, k: real)
    ensures v - Blend(v, p, k) == (1.0 - k) * (v - p)
  {
  }

  lemma PositiveScale(c: real, d: real)
    requires c > 0.0
    ensures c * d > 0.0 <==> d > 0.0
  {
    if d <= 0.0 {
      assert c * (-d) >= 0.0;
    }
  }

  // ---------------------------------------------------------------------------
  // No look-ahead: equal prefixes give equal indicator prefixes
  // ---------------------------------------------------------------------------

  lemma EmaAgrees(xs: seq<real>, ys: seq<real>, len: nat, m: nat)
    requires m <= |xs| && m <= |ys| && xs[..m] == ys[..m]
    ensures forall j :: 0 <= j < m ==> Ema(xs, len)[j] == Ema(ys, len)[j]
  {
    EmaPrefix(xs, Alpha(len), m);
    EmaPrefix(ys, Alpha(len), m);
  }

  lemma SmaAgrees(xs: seq<real>, ys: seq<real>, len: nat, m: nat)
    requires m <= |xs| && m <= |ys| && xs[..m] == ys[..m]
    ensures forall j :: 0 <= j < m ==> Sma(xs, len)[j] == Sma(ys, len)[j]
  {
    forall j | 0 <= j < m && 0 < len <= j + 1
      ensures Window(xs, j, len) == Window(ys, j, len)
    {
      assert Window(xs, j, len) == xs[..m][j + 1 - len..j + 1];
      assert Window(ys, j, len) == ys[..m][j + 1 - len..j + 1];
    }
  }

  lemma StddevAgrees(xs: seq<real>, ys: seq<real>, len: nat, sqrt: Root, m: nat)
    requires m <= |xs| && m <= |ys| && xs[..m] == ys[..m]
    ensures forall j :: 0 <= j < m ==> Stddev(xs, len, sqrt)[j] == Stddev(ys, len, sqrt)[j]
  {
    forall j | 0 <= j < m && 0 < len <= j + 1
      ensures Window(xs, j, len) == Window(ys, j, len)
    {
      assert Window(xs, j, len) == xs[..m][j + 1 - len..j + 1];
      assert Window(ys, j, len) == ys[..m][j + 1 - len..j + 1];
    }
  }

  lemma {:induction false} AccumAgrees(xs: seq<real>, ys: seq<real>, len: nat, i: nat)
    requires len >= 1 && i < |xs| && i < |ys| && xs[..i + 1] == ys[..i + 1]
    ensures Accum(xs, len, i) == Accum(ys, len, i)
    decreases i
  {
    if i > 0 {
      assert xs[i] == xs[..i + 1][i] && ys[i] == ys[..i + 1][i];
      assert xs[i - 1] == xs[..i + 1][i - 1] && ys[i - 1] == ys[..i + 1][i - 1];
      assert Gain(xs, i) == Gain(ys, i) && Loss(xs, i) == Loss(ys, i);
      assert xs[..i] == xs[..i + 1][..i] && ys[..i] == ys[..i + 1][..i];
      AccumAgrees(xs, ys, len, i - 1);
    }
  }

  lemma RsiAgrees(xs: seq<real>, ys: seq<real>, len: nat, m: nat)
    requires len >= 1 && m <= |xs| && m <= |ys| && xs[..m] == ys[..m]
    ensures forall j :: 0 <= j < m ==> Rsi(xs, len)[j] == Rsi(ys, len)[j]
  {
    forall j | 0 <= j < m && len < j
      ensures Accum(xs, len, j) == Accum(ys, len, j)
    {
      assert xs[..j + 1] == xs[..m][..j + 1] && ys[..j + 1] == ys[..m][..j + 1];
      AccumAgrees(xs, ys, len, j);
    }
  }

  lemma MacdAgrees(xs: seq<real>, ys: seq<real>, fast: nat, slow: nat, signal: nat, m: nat)
    requires m <= |xs| && m <= |ys| && xs[..m] == ys[..m]
    ensures var a := Macd(xs, fast, slow, signal);
            var b := Macd(ys, fast, slow, signal);
            forall j :: 0 <= j < m ==>
              a.line[j] == b.line[j] && a.signal[j] == b.signal[j] && a.hist[j] == b.hist[j]
  {
    var a := Macd(xs, fast, slow, signal);
    var b := Macd(ys, fast, slow, signal);
    EmaAgrees(xs, ys, fast, m);
    EmaAgrees(xs, ys, slow, m);
    assert a.line[..m] == b.line[..m];
    EmaAgrees(a.line, b.line, signal, m);
  }
}
