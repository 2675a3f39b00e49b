/** The decomposition-linear forecasters: a replicate-padded moving average,
    the seasonal/trend split built on it, DLinear (project both parts and add)
    and NLinear (subtract the last observation, project, add it back).

    Tensors are nested sequences of reals. A window is indexed
    `[batch][time][channel]`; the weights of the individual mode are indexed
    `[channel][input step][output step]`. The shapes that the tensor library
    would carry at run time are passed explicitly, so that a tensor with an
    empty axis still has a known shape. */
module SeqLayers {
  import opened LinAlg

  type Tensor3 = seq<seq<seq<real>>>

  /** `x` has shape `[n0, n1, n2]`. */
  predicate IsTensor3(x: Tensor3, n0: nat, n1: nat, n2: nat) {
    |x| == n0 && forall b :: 0 <= b < n0 ==> IsMatrix(x[b], n1, n2)
  }

  /** Two tensors of one shape that agree at every index are equal. */
  lemma Tensor3Ext(x: Tensor3, y: Tensor3, n0: nat, n1: nat, n2: nat)
    requires IsTensor3(x, n0, n1, n2) && IsTensor3(y, n0, n1, n2)
    requires forall b, i, j :: 0 <= b < n0 && 0 <= i < n1 && 0 <= j < n2 ==> x[b][i][j] == y[b][i][j]
    ensures x == y
  {
    forall b | 0 <= b < n0
      ensures x[b] == y[b]
    {
      forall i | 0 <= i < n1
        ensures x[b][i] == y[b][i]
      {
      }
    }
  }

  /** A tensor that agrees with `u + v` at every index is `Add(u, v)`. */
  lemma AddExt(r: Tensor3, u: Tensor3, v: Tensor3, n0: nat, n1: nat, n2: nat)
    requires IsTensor3(r, n0, n1, n2) && IsTensor3(u, n0, n1, n2) && IsTensor3(v, n0, n1, n2)
    requires forall b, i, j :: 0 <= b < n0 && 0 <= i < n1 && 0 <= j < n2 ==> r[b][i][j] == u[b][i][j] + v[b][i][j]
    ensures r == Add(u, v, n1, n2)
  {
    Tensor3Ext(r, Add(u, v, n1, n2), n0, n1, n2);
  }

  // ---------------------------------------------------------------------
  // Tensor primitives: permute(0, 2, 1), elementwise + and -, one series.

  /** `x.permute(0, 2, 1)`: swaps the last two axes. */
  function Permute021(x: Tensor3, n1: nat, n2: nat): (y: Tensor3)
    requires IsTensor3(x, |x|, n1, n2)
    ensures IsTensor3(y, |x|, n2, n1)
    ensures forall b, i, j :: 0 <= b < |x| && 0 <= i < n2 && 0 <= j < n1 ==> y[b][i][j] == x[b][j][i]
  {
    seq(|x|, b requires 0 <= b < |x| =>
      seq(n2, i requires 0 <= i < n2 =>
        seq(n1, j requires 0 <= j < n1 => x[b][j][i])))
  }

  /** Elementwise `x + y`. */
  function Add(x: Tensor3, y: Tensor3, n1: nat, n2: nat): (r: Tensor3)
    requires IsTensor3(x, |x|, n1, n2) && IsTensor3(y, |x|, n1, n2)
    ensures IsTensor3(r, |x|, n1, n2)
    ensures forall b, i, j :: 0 <= b < |x| && 0 <= i < n1 && 0 <= j < n2 ==> r[b][i][j] == x[b][i][j] + y[b][i][j]
  {
    seq(|x|, b requires 0 <= b < |x| =>
      seq(n1, i requires 0 <= i < n1 =>
        seq(n2, j requires 0 <= j < n2 => x[b][i][j] + y[b][i][j])))
  }

  /** Elementwise `x - y`. */
  function Sub(x: Tensor3, y: Tensor3, n1: nat, n2: nat): (r: Tensor3)
    requires IsTensor3(x, |x|, n1, n2) && IsTensor3(y, |x|, n1, n2)
    ensures IsTensor3(r, |x|, n1, n2)
    ensures forall b, i, j :: 0 <= b < |x| && 0 <= i < n1 && 0 <= j < n2 ==> r[b][i][j] == x[b][i][j] - y[b][i][j]
  {
    seq(|x|, b requires 0 <= b < |x| =>
      seq(n1, i requires 0 <= i < n1 =>
        seq(n2, j requires 0 <= j < n2 => x[b][i][j] - y[b][i][j])))
  }

  /** The time series of channel `c` in batch entry `b`: `x[b, :, c]`. */
  function Series(x: Tensor3, L: nat, C: nat, b: nat, c: nat): (s: seq<real>)
    requires IsTensor3(x, |x|, L, C) && b < |x| && c < C
    ensures |s| == L && forall l :: 0 <= l < L ==> s[l] == x[b][l][c]
  {
    seq(L, l requires 0 <= l < L => x[b][l][c])
  }

  /** A series of a sum is the sum of the series. */
  lemma SeriesOfAdd(x: Tensor3, y: Tensor3, L: nat, C: nat, b: nat, c: nat)
    requires IsTensor3(x, |x|, L, C) && IsTensor3(y, |x|, L, C) && b < |x| && c < C
    ensures Series(Add(x, y, L, C), L, C, b, c) == Plus(Series(x, L, C, b, c), Series(y, L, C, b, c))
  {
  }

  /** Column `p` of a matrix whose rows all have more than `p` entries: `m[:, p]`. */
  function Column(m: seq<seq<real>>, p: nat): (s: seq<real>)
    requires forall l :: 0 <= l < |m| ==> p < |m[l]|
    ensures |s| == |m| && forall l :: 0 <= l < |m| ==> s[l] == m[l][p]
  {
    seq(|m|, l requires 0 <= l < |m| => m[l][p])
  }

  // ---------------------------------------------------------------------
  // moving_avg (src/hails/seq_layers.py:8-25)

  /** Time steps repeated at each end: `(kernel_size - 1) // 2`. */
  function PadAmount(k: nat): nat
    requires k >= 1
  {
    (k - 1) / 2
  }

  /** `n` copies of one time slice. */
  function Repeat(v: seq<real>, n: nat): (r: seq<seq<real>>)
    ensures |r| == n && forall i :: 0 <= i < n ==> r[i] == v
  {
    seq(n, i => v)
  }

  /** `torch.cat([front, x, end], dim=1)` with `front` and `end` the first
      and the last time slice repeated `PadAmount(k)` times. */
  function Pad(x: Tensor3, L: nat, C: nat, k: nat): (p: Tensor3)
    requires IsTensor3(x, |x|, L, C) && L >= 1 && k >= 1
    ensures IsTensor3(p, |x|, L + 2 * PadAmount(k), C)
  {
    seq(|x|, b requires 0 <= b < |x| =>
      Repeat(x[b][0], PadAmount(k)) + x[b] + Repeat(x[b][L - 1], PadAmount(k)))
  }

  /** An index moved into `0 .. L-1`. */
  function Clamp(j: int, L: nat): (r: nat)
    requires L >= 1
    ensures r < L
    ensures 0 <= j < L ==> r == j
    ensures j < 0 ==> r == 0
    ensures j >= L ==> r == L - 1
  {
    if j < 0 then 0 else if j >= L then L - 1 else j
  }

  /** Padded step `j` is input step `j - PadAmount(k)` clamped into range. */
  lemma PadAt(x: Tensor3, L: nat, C: nat, k: nat, b: nat, j: nat)
    requires IsTensor3(x, |x|, L, C) && L >= 1 && k >= 1
    requires b < |x| && j < L + 2 * PadAmount(k)
    ensures Pad(x, L, C, k)[b][j] == x[b][Clamp(j - PadAmount(k), L)]
  {
    var d := PadAmount(k);
    var p := Pad(x, L, C, k);
    assert p[b] == Repeat(x[b][0], d) + x[b] + Repeat(x[b][L - 1], d);
    if j < d {
    } else if j < d + L {
      assert p[b][j] == x[b][j - d];
    } else {
      assert p[b][j] == Repeat(x[b][L - 1], d)[j - d - L];
    }
  }

  /** Output length of `nn.AvgPool1d(k, stride=s, padding=0)` on `n` steps. */
  function PoolLength(n: nat, k: nat, s: nat): nat
    requires 1 <= k <= n && s >= 1
  {
    (n - k) / s + 1
  }

  /** Every pooling window lies inside the pooled sequence. */
  lemma PoolWindowInRange(n: nat, k: nat, s: nat, t: nat)
    requires 1 <= k <= n && s >= 1 && t < PoolLength(n, k, s)
    ensures t * s + k <= n
  {
    var q := (n - k) / s;
    assert q * s <= n - k;
    assert t * s <= q * s by {
      assert t <= q;
      MulMonotone(t, q, s);
    }
  }

  lemma MulMonotone(a: nat, b: nat, s: nat)
    requires a <= b
    ensures a * s <= b * s
  {
  }

  /** `nn.AvgPool1d(kernel_size=k, stride=s, padding=0)` over the last axis
      of a `[batch, channel, time]` tensor: the unweighted mean of each
      window of `k` steps, the windows starting `s` steps apart. */
  function AvgPool1d(y: Tensor3, C: nat, n: nat, k: nat, s: nat): (r: Tensor3)
    requires IsTensor3(y, |y|, C, n) && 1 <= k <= n && s >= 1
    ensures IsTensor3(r, |y|, C, PoolLength(n, k, s))
  {
    seq(|y|, b requires 0 <= b < |y| =>
      seq(C, c requires 0 <= c < C =>
        seq(PoolLength(n, k, s), t requires 0 <= t < PoolLength(n, k, s) =>
          PoolWindowInRange(n, k, s, t);
          Sum(y[b][c][t * s .. t * s + k]) / k as real)))
  }

  /** `moving_avg(k, stride).forward(x)` on a window of `L` steps and `C`
      channels. The pooling needs at least `k` padded steps; with an odd
      kernel and stride 1 the trend has exactly as many steps as the input. */
  function MovingAvg(x: Tensor3, L: nat, C: nat, k: nat, stride: nat): (r: Tensor3)
    requires IsTensor3(x, |x|, L, C) && L >= 1 && stride >= 1
    requires 1 <= k <= L + 2 * PadAmount(k)
    ensures IsTensor3(r, |x|, PoolLength(L + 2 * PadAmount(k), k, stride), C)
    ensures stride == 1 && k % 2 == 1 ==> IsTensor3(r, |x|, L, C)
    ensures stride == 1 && k % 2 == 0 ==> IsTensor3(r, |x|, L - 1, C)
  {
    var n := L + 2 * PadAmount(k);
    var pooled := AvgPool1d(Permute021(Pad(x, L, C, k), n, C), C, n, k, stride);
    Permute021(pooled, C, PoolLength(n, k, stride))
  }

  /** The `k` input values averaged for trend step `t` when the window starts
      at `start`: indices before the start or past the end read the first
      or the last observation. */
  function ClampedWindow(x: Tensor3, L: nat, C: nat, b: nat, c: nat, start: int, k: nat): (w: seq<real>)
    requires IsTensor3(x, |x|, L, C) && L >= 1 && b < |x| && c < C
    ensures |w| == k
  {
    seq(k, i requires 0 <= i < k => x[b][Clamp(start + i, L)][c])
  }

  /** The trend at step `t` is the mean of `k` consecutive input values of the
      same batch entry and channel, read with clamped indices starting at
      `t * stride - PadAmount(k)`. */
  lemma MovingAvgAt(x: Tensor3, L: nat, C: nat, k: nat, stride: nat, b: nat, t: nat, c: nat)
    requires IsTensor3(x, |x|, L, C) && L >= 1 && stride >= 1
    requires 1 <= k <= L + 2 * PadAmount(k)
    requires b < |x| && t < PoolLength(L + 2 * PadAmount(k), k, stride) && c < C
    ensures MovingAvg(x, L, C, k, stride)[b][t][c]
         == Sum(ClampedWindow(x, L, C, b, c, t * stride - PadAmount(k), k)) / k as real
  {
    var n := L + 2 * PadAmount(k);
    var p := Pad(x, L, C, k);
    var y := Permute021(p, n, C);
    PoolWindowInRange(n, k, stride, t);
    var start := t * stride;
    var w := y[b][c][start .. start + k];
    forall i | 0 <= i < k
      ensures w[i] == ClampedWindow(x, L, C, b, c, start - PadAmount(k), k)[i]
    {
      PadAt(x, L, C, k, b, start + i);
    }
    assert w == ClampedWindow(x, L, C, b, c, start - PadAmount(k), k);
  }

  /** The window does not change along the time axis. */
  predicate ConstantInTime(x: Tensor3, L: nat, C: nat)
    requires IsTensor3(x, |x|, L, C)
  {
    forall b, l, c :: 0 <= b < |x| && 0 <= l < L && 0 <= c < C ==> x[b][l][c] == x[b][0][c]
  }

  /** With an odd kernel the padding is exactly `k - 1` steps, so a stride-1
      pooling returns as many steps as the input has. */
  lemma OddKernelLength(L: nat, k: nat)
    requires k % 2 == 1
    ensures 2 * PadAmount(k) == k - 1
    ensures 1 <= k <= L + 2 * PadAmount(k) ==> PoolLength(L + 2 * PadAmount(k), k, 1) == L
  {
  }

  /** One trend step of a window that is constant in time. */
  lemma MovingAvgOfConstantAt(x: Tensor3, L: nat, C: nat, k: nat, b: nat, t: nat, c: nat)
    requires IsTensor3(x, |x|, L, C) && L >= 1 && k % 2 == 1
    requires ConstantInTime(x, L, C)
    requires b < |x| && t < L && c < C
    ensures MovingAvg(x, L, C, k, 1)[b][t][c] == x[b][t][c]
  {
    OddKernelLength(L, k);
    MovingAvgAt(x, L, C, k, 1, b, t, c);
    var w := ClampedWindow(x, L, C, b, c, t * 1 - PadAmount(k), k);
    forall i | 0 <= i < k
      ensures w[i] == x[b][0][c]
    {
      assert w[i] == x[b][Clamp(t * 1 - PadAmount(k) + i, L)][c];
    }
    MeanOfConstant(w, x[b][0][c]);
  }

  /** A window that is constant in time is its own trend. */
  lemma MovingAvgOfConstant(x: Tensor3, L: nat, C: nat, k: nat)
    requires IsTensor3(x, |x|, L, C) && L >= 1 && k % 2 == 1
    requires ConstantInTime(x, L, C)
    ensures MovingAvg(x, L, C, k, 1) == x
  {
    var r := MovingAvg(x, L, C, k, 1);
    forall b, t, c | 0 <= b < |x| && 0 <= t < L && 0 <= c < C
      ensures r[b][t][c] == x[b][t][c]
    {
      MovingAvgOfConstantAt(x, L, C, k, b, t, c);
    }
    Tensor3Ext(r, x, |x|, L, C);
  }

  // ---------------------------------------------------------------------
  // series_decomp (src/hails/seq_layers.py:28-40)

  /** `series_decomp(k).forward(x)`: the pair `(x - trend, trend)` with the
      trend from a stride-1 moving average. */
  function SeriesDecomp(x: Tensor3, L: nat, C: nat, k: nat): (d: (Tensor3, Tensor3))
    requires IsTensor3(x, |x|, L, C) && L >= 1 && k % 2 == 1
    ensures IsTensor3(d.0, |x|, L, C) && IsTensor3(d.1, |x|, L, C)
  {
    var trend := MovingAvg(x, L, C, k, 1);
    (Sub(x, trend, L, C), trend)
  }

  /** The decomposition loses nothing: seasonal plus trend is the input. */
  lemma DecompositionIdentity(x: Tensor3, L: nat, C: nat, k: nat)
    requires IsTensor3(x, |x|, L, C) && L >= 1 && k % 2 == 1
    ensures Add(SeriesDecomp(x, L, C, k).0, SeriesDecomp(x, L, C, k).1, L, C) == x
  {
    var d := SeriesDecomp(x, L, C, k);
    Tensor3Ext(Add(d.0, d.1, L, C), x, |x|, L, C);
  }

  /** Per series, too, the seasonal and trend parts add up to the input. */
  lemma SeriesOfParts(x: Tensor3, L: nat, C: nat, k: nat, b: nat, c: nat)
    requires IsTensor3(x, |x|, L, C) && L >= 1 && k % 2 == 1 && b < |x| && c < C
    ensures var d := SeriesDecomp(x, L, C, k);
      Plus(Series(d.0, L, C, b, c), Series(d.1, L, C, b, c)) == Series(x, L, C, b, c)
  {
    var d := SeriesDecomp(x, L, C, k);
    DecompositionIdentity(x, L, C, k);
    assert Add(d.0, d.1, L, C)[b] == x[b];
  }

  /** A window that is constant in time has itself as trend and a seasonal
      part of zeros. */
  lemma ConstantWindowDecomposition(x: Tensor3, L: nat, C: nat, k: nat)
    requires IsTensor3(x, |x|, L, C) && L >= 1 && k % 2 == 1
    requires ConstantInTime(x, L, C)
    ensures SeriesDecomp(x, L, C, k).1 == x
    ensures forall b, l, c :: 0 <= b < |x| && 0 <= l < L && 0 <= c < C ==> SeriesDecomp(x, L, C, k).0[b][l][c] == 0.0
  {
    MovingAvgOfConstant(x, L, C, k);
  }

  // ---------------------------------------------------------------------
  // Additivity of the moving average and of the decomposition

  /** The window read from a sum is the sum of the windows. */
  lemma ClampedWindowPlus(x: Tensor3, y: Tensor3, L: nat, C: nat, b: nat, c: nat, start: int, k: nat)
    requires IsTensor3(x, |x|, L, C) && IsTensor3(y, |x|, L, C) && L >= 1 && b < |x| && c < C
    ensures ClampedWindow(Add(x, y, L, C), L, C, b, c, start, k)
         == Plus(ClampedWindow(x, L, C, b, c, start, k), ClampedWindow(y, L, C, b, c, start, k))
  {
    var u, v := ClampedWindow(x, L, C, b, c, start, k), ClampedWindow(y, L, C, b, c, start, k);
    var w := ClampedWindow(Add(x, y, L, C), L, C, b, c, start, k);
    forall i | 0 <= i < k
      ensures w[i] == Plus(u, v)[i]
    {
      assert w[i] == Add(x, y, L, C)[b][Clamp(start + i, L)][c];
    }
  }

  /** One trend step of a sum is the sum of the trend steps. */
  lemma MovingAvgPlusAt(x: Tensor3, y: Tensor3, L: nat, C: nat, k: nat, stride: nat, b: nat, t: nat, c: nat)
    requires IsTensor3(x, |x|, L, C) && IsTensor3(y, |x|, L, C) && L >= 1 && stride >= 1
    requires 1 <= k <= L + 2 * PadAmount(k)
    requires b < |x| && t < PoolLength(L + 2 * PadAmount(k), k, stride) && c < C
    ensures MovingAvg(Add(x, y, L, C), L, C, k, stride)[b][t][c]
         == MovingAvg(x, L, C, k, stride)[b][t][c] + MovingAvg(y, L, C, k, stride)[b][t][c]
  {
    var start := t * stride - PadAmount(k);
    var u, v := ClampedWindow(x, L, C, b, c, start, k), ClampedWindow(y, L, C, b, c, start, k);
    calc {
      MovingAvg(Add(x, y, L, C), L, C, k, stride)[b][t][c];
    == { MovingAvgAt(Add(x, y, L, C), L, C, k, stride, b, t, c); }
      Sum(ClampedWindow(Add(x, y, L, C), L, C, b, c, start, k)) / k as real;
    == { ClampedWindowPlus(x, y, L, C, b, c, start, k); }
      Sum(Plus(u, v)) / k as real;
    == { MeanPlus(u, v); }
      Sum(u) / k as real + Sum(v) / k as real;
    == { MovingAvgAt(x, L, C, k, stride, b, t, c); MovingAvgAt(y, L, C, k, stride, b, t, c); }
      MovingAvg(x, L, C, k, stride)[b][t][c] + MovingAvg(y, L, C, k, stride)[b][t][c];
    }
  }

  /** The moving average is additive. */
  lemma MovingAvgAdditive(x: Tensor3, y: Tensor3, L: nat, C: nat, k: nat, stride: nat)
    requires IsTensor3(x, |x|, L, C) && IsTensor3(y, |x|, L, C) && L >= 1 && stride >= 1
    requires 1 <= k <= L + 2 * PadAmount(k)
    ensures MovingAvg(Add(x, y, L, C), L, C, k, stride)
         == Add(MovingAvg(x, L, C, k, stride), MovingAvg(y, L, C, k, stride), PoolLength(L + 2 * PadAmount(k), k, stride), C)
  {
    var n := PoolLength(L + 2 * PadAmount(k), k, stride);
    var r := MovingAvg(Add(x, y, L, C), L, C, k, stride);
    var s := Add(MovingAvg(x, L, C, k, stride), MovingAvg(y, L, C, k, stride), n, C);
    forall b, t, c | 0 <= b < |x| && 0 <= t < n && 0 <= c < C
      ensures r[b][t][c] == s[b][t][c]
    {
      MovingAvgPlusAt(x, y, L, C, k, stride, b, t, c);
    }
    Tensor3Ext(r, s, |x|, n, C);
  }

  /** Level shift: adding a window that is constant in time adds it to the
      trend (odd kernel, stride 1). */
  lemma MovingAvgLevelShift(x: Tensor3, d: Tensor3, L: nat, C: nat, k: nat)
    requires IsTensor3(x, |x|, L, C) && IsTensor3(d, |x|, L, C) && L >= 1 && k % 2 == 1
    requires ConstantInTime(d, L, C)
    ensures MovingAvg(Add(x, d, L, C), L, C, k, 1) == Add(MovingAvg(x, L, C, k, 1), d, L, C)
  {
    OddKernelLength(L, k);
    MovingAvgAdditive(x, d, L, C, k, 1);
    MovingAvgOfConstant(d, L, C, k);
  }

  /** Decomposing a sum gives the sums of the seasonal and of the trend parts. */
  lemma SeriesDecompAdditive(x: Tensor3, y: Tensor3, L: nat, C: nat, k: nat)
    requires IsTensor3(x, |x|, L, C) && IsTensor3(y, |x|, L, C) && L >= 1 && k % 2 == 1
    ensures var dx, dy := SeriesDecomp(x, L, C, k), SeriesDecomp(y, L, C, k);
      SeriesDecomp(Add(x, y, L, C), L, C, k) == (Add(dx.0, dy.0, L, C), Add(dx.1, dy.1, L, C))
  {
    var dx, dy := SeriesDecomp(x, L, C, k), SeriesDecomp(y, L, C, k);
    var d := SeriesDecomp(Add(x, y, L, C), L, C, k);
    OddKernelLength(L, k);
    MovingAvgAdditive(x, y, L, C, k, 1);
    assert d.1 == Add(dx.1, dy.1, L, C);
    Tensor3Ext(d.0, Add(dx.0, dy.0, L, C), |x|, L, C);
  }

  /** Per series, too, the parts of a sum are the sums of the parts. */
  lemma SeriesOfDecompAdditive(x: Tensor3, y: Tensor3, L: nat, C: nat, k: nat, b: nat, c: nat)
    requires IsTensor3(x, |x|, L, C) && IsTensor3(y, |x|, L, C) && L >= 1 && k % 2 == 1 && b < |x| && c < C
    ensures var dx, dy, dz := SeriesDecomp(x, L, C, k), SeriesDecomp(y, L, C, k), SeriesDecomp(Add(x, y, L, C), L, C, k);
      && Series(dz.0, L, C, b, c) == Plus(Series(dx.0, L, C, b, c), Series(dy.0, L, C, b, c))
      && Series(dz.1, L, C, b, c) == Plus(Series(dx.1, L, C, b, c), Series(dy.1, L, C, b, c))
  {
    var dx, dy := SeriesDecomp(x, L, C, k), SeriesDecomp(y, L, C, k);
    SeriesDecompAdditive(x, y, L, C, k);
    SeriesOfAdd(dx.0, dy.0, L, C, b, c);
    SeriesOfAdd(dx.1, dy.1, L, C, b, c);
  }

  // ---------------------------------------------------------------------
  // Projections shared by DLinear and NLinear

  /** `nn.Linear(inF, outF)`: a weight matrix `[outF][inF]` and a bias `[outF]`. */
  datatype Affine = Affine(weight: seq<seq<real>>, bias: seq<real>)

  predicate AffineShape(a: Affine, inF: nat, outF: nat) {
    IsMatrix(a.weight, outF, inF) && |a.bias| == outF
  }

  /** The weights of one projection: one `[seqLen][width]` matrix per channel
      (individual mode, an `nn.Parameter` of shape `[channels, seqLen, width]`)
      or one `nn.Linear` shared by all channels. */
  datatype Projection = Individual(w: Tensor3) | Shared(linear: Affine)

  predicate ProjectionShape(p: Projection, channels: nat, seqLen: nat, width: nat) {
    match p
    case Individual(w) => IsTensor3(w, channels, seqLen, width)
    case Shared(a) => AffineShape(a, seqLen, width)
  }

  /** `torch.einsum("bcl,clp->bcp", a, w)` on `a: [B, C, L]`, `w: [C, L, P]`. */
  function EinsumBclClp(a: Tensor3, w: Tensor3, C: nat, L: nat, P: nat): (r: Tensor3)
    requires IsTensor3(a, |a|, C, L) && IsTensor3(w, C, L, P)
    ensures IsTensor3(r, |a|, C, P)
  {
    seq(|a|, b requires 0 <= b < |a| =>
      seq(C, c requires 0 <= c < C =>
        seq(P, p requires 0 <= p < P => Dot(a[b][c], Column(w[c], p)))))
  }

  /** `torch.einsum("blc,clp->bpc", a, w)` on `a: [B, L, C]`, `w: [C, L, P]`. */
  function EinsumBlcClp(a: Tensor3, w: Tensor3, L: nat, C: nat, P: nat): (r: Tensor3)
    requires IsTensor3(a, |a|, L, C) && IsTensor3(w, C, L, P)
    ensures IsTensor3(r, |a|, P, C)
  {
    seq(|a|, b requires 0 <= b < |a| =>
      seq(P, p requires 0 <= p < P =>
        seq(C, c requires 0 <= c < C => Dot(Series(a, L, C, b, c), Column(w[c], p)))))
  }

  /** An `nn.Linear` applied along the last axis of `a: [B, C, L]`. */
  function LinearLastAxis(a: Tensor3, lin: Affine, C: nat, L: nat, P: nat): (r: Tensor3)
    requires IsTensor3(a, |a|, C, L) && AffineShape(lin, L, P)
    ensures IsTensor3(r, |a|, C, P)
  {
    seq(|a|, b requires 0 <= b < |a| =>
      seq(C, c requires 0 <= c < C =>
        seq(P, p requires 0 <= p < P => Dot(a[b][c], lin.weight[p]) + lin.bias[p])))
  }

  // ---------------------------------------------------------------------
  // DLinear (src/hails/seq_layers.py:43-107)

  /** The decomposition kernel of DLinear. */
  const KERNEL_SIZE: nat := 25

  /** A DLinear model: window length, horizon, channel count, output
      dimension and the two projections, both individual or both shared. */
  datatype DLinear = DLinear(seqLen: nat, predLen: nat, channels: nat, dimOut: nat,
                             linearSeasonal: Projection, linearTrend: Projection)

  predicate DLinearValid(m: DLinear) {
    && m.linearSeasonal.Individual? == m.linearTrend.Individual?
    && ProjectionShape(m.linearSeasonal, m.channels, m.seqLen, m.predLen * m.dimOut)
    && ProjectionShape(m.linearTrend, m.channels, m.seqLen, m.predLen * m.dimOut)
  }

  /** What `forward` asks of its input: `seqLen` steps, and in individual
      mode as many channels as the weights have. */
  predicate DLinearAccepts(m: DLinear, x: Tensor3, C: nat) {
    && DLinearValid(m) && m.seqLen >= 1
    && IsTensor3(x, |x|, m.seqLen, C)
    && (m.linearSeasonal.Individual? ==> C == m.channels)
  }

  /** One projection of a `[B, C, L]` tensor to `[B, C, P]`. */
  function ProjectBcl(a: Tensor3, proj: Projection, C: nat, L: nat, P: nat): (r: Tensor3)
    requires IsTensor3(a, |a|, C, L) && ProjectionShape(proj, C, L, P)
    ensures IsTensor3(r, |a|, C, P)
  {
    match proj
    case Individual(w) => EinsumBclClp(a, w, C, L, P)
    case Shared(lin) => LinearLastAxis(a, lin, C, L, P)
  }

  /** `DLinear.forward(x)` on a `[B, seqLen, C]` window: decompose, project
      the seasonal and the trend part along time, add, and return
      `[B, predLen * dimOut, C]`. */
  function DLinearForward(m: DLinear, x: Tensor3, C: nat): (y: Tensor3)
    requires DLinearAccepts(m, x, C)
    ensures IsTensor3(y, |x|, m.predLen * m.dimOut, C)
  {
    var L, P := m.seqLen, m.predLen * m.dimOut;
    var d := SeriesDecomp(x, L, C, KERNEL_SIZE);
    var seasonalOut := ProjectBcl(Permute021(d.0, L, C), m.linearSeasonal, C, L, P);
    var trendOut := ProjectBcl(Permute021(d.1, L, C), m.linearTrend, C, L, P);
    Permute021(Add(seasonalOut, trendOut, C, P), C, P)
  }

  /** Individual mode: output `[b][p][c]` is the seasonal series of channel
      `c` against its own seasonal weights plus its trend series against its
      own trend weights. */
  lemma DLinearIndividualAt(m: DLinear, x: Tensor3, C: nat, b: nat, p: nat, c: nat)
    requires DLinearAccepts(m, x, C) && m.linearSeasonal.Individual?
    requires b < |x| && p < m.predLen * m.dimOut && c < C
    ensures var d := SeriesDecomp(x, m.seqLen, C, KERNEL_SIZE);
      DLinearForward(m, x, C)[b][p][c]
        == Dot(Series(d.0, m.seqLen, C, b, c), Column(m.linearSeasonal.w[c], p))
         + Dot(Series(d.1, m.seqLen, C, b, c), Column(m.linearTrend.w[c], p))
  {
    var L := m.seqLen;
    var d := SeriesDecomp(x, L, C, KERNEL_SIZE);
    assert Permute021(d.0, L, C)[b][c] == Series(d.0, L, C, b, c);
    assert Permute021(d.1, L, C)[b][c] == Series(d.1, L, C, b, c);
  }

  /** Shared mode: the same affine maps are applied to every channel. */
  lemma DLinearSharedAt(m: DLinear, x: Tensor3, C: nat, b: nat, p: nat, c: nat)
    requires DLinearAccepts(m, x, C) && m.linearSeasonal.Shared?
    requires b < |x| && p < m.predLen * m.dimOut && c < C
    ensures var d := SeriesDecomp(x, m.seqLen, C, KERNEL_SIZE);
      DLinearForward(m, x, C)[b][p][c]
        == Dot(Series(d.0, m.seqLen, C, b, c), m.linearSeasonal.linear.weight[p]) + m.linearSeasonal.linear.bias[p]
         + Dot(Series(d.1, m.seqLen, C, b, c), m.linearTrend.linear.weight[p]) + m.linearTrend.linear.bias[p]
  {
    var L := m.seqLen;
    var d := SeriesDecomp(x, L, C, KERNEL_SIZE);
    assert Permute021(d.0, L, C)[b][c] == Series(d.0, L, C, b, c);
    assert Permute021(d.1, L, C)[b][c] == Series(d.1, L, C, b, c);
  }

  /** Individual mode has no bias: a zero window forecasts zero, whatever the
      weights. */
  lemma DLinearZeroInZeroOut(m: DLinear, x: Tensor3, C: nat)
    requires DLinearAccepts(m, x, C) && m.linearSeasonal.Individual?
    requires forall b, l, c :: 0 <= b < |x| && 0 <= l < m.seqLen && 0 <= c < C ==> x[b][l][c] == 0.0
    ensures forall b, p, c :: 0 <= b < |x| && 0 <= p < m.predLen * m.dimOut && 0 <= c < C ==>
      DLinearForward(m, x, C)[b][p][c] == 0.0
  {
    forall b, p, c | 0 <= b < |x| && 0 <= p < m.predLen * m.dimOut && 0 <= c < C
      ensures DLinearForward(m, x, C)[b][p][c] == 0.0
    {
      DLinearZeroAt(m, x, C, b, p, c);
    }
  }

  /** One entry of the zero-window case: both parts of the window are zero. */
  lemma DLinearZeroAt(m: DLinear, x: Tensor3, C: nat, b: nat, p: nat, c: nat)
    requires DLinearAccepts(m, x, C) && m.linearSeasonal.Individual?
    requires forall b, l, c :: 0 <= b < |x| && 0 <= l < m.seqLen && 0 <= c < C ==> x[b][l][c] == 0.0
    requires b < |x| && p < m.predLen * m.dimOut && c < C
    ensures DLinearForward(m, x, C)[b][p][c] == 0.0
  {
    var L := m.seqLen;
    ConstantWindowDecomposition(x, L, C, KERNEL_SIZE);
    var d := SeriesDecomp(x, L, C, KERNEL_SIZE);
    DLinearIndividualAt(m, x, C, b, p, c);
    DotZeroLeft(Series(d.0, L, C, b, c), Column(m.linearSeasonal.w[c], p));
    DotZeroLeft(Series(d.1, L, C, b, c), Column(m.linearTrend.w[c], p));
  }

  /** One entry of the tied-weights case: the seasonal and trend dot products
      add up to the dot product with the whole window. */
  lemma DLinearTiedWeightsAt(m: DLinear, x: Tensor3, C: nat, b: nat, p: nat, c: nat)
    requires DLinearAccepts(m, x, C) && m.linearSeasonal.Individual?
    requires m.linearSeasonal == m.linearTrend
    requires b < |x| && p < m.predLen * m.dimOut && c < C
    ensures DLinearForward(m, x, C)[b][p][c] ==
      Dot(Series(x, m.seqLen, C, b, c), Column(m.linearSeasonal.w[c], p))
  {
    var L, w := m.seqLen, m.linearSeasonal.w;
    var d := SeriesDecomp(x, L, C, KERNEL_SIZE);
    DLinearIndividualAt(m, x, C, b, p, c);
    SeriesOfParts(x, L, C, KERNEL_SIZE, b, c);
    DotPlus(Series(d.0, L, C, b, c), Series(d.1, L, C, b, c), Column(w[c], p));
  }

  /** Individual mode with equal seasonal and trend weights is a single
      projection of the undecomposed window. */
  lemma DLinearTiedWeights(m: DLinear, x: Tensor3, C: nat)
    requires DLinearAccepts(m, x, C) && m.linearSeasonal.Individual?
    requires m.linearSeasonal == m.linearTrend
    ensures DLinearForward(m, x, C) == EinsumBlcClp(x, m.linearSeasonal.w, m.seqLen, C, m.predLen * m.dimOut)
  {
    var L, P, w := m.seqLen, m.predLen * m.dimOut, m.linearSeasonal.w;
    var y := DLinearForward(m, x, C);
    var e := EinsumBlcClp(x, w, L, C, P);
    forall b, p, c | 0 <= b < |x| && 0 <= p < P && 0 <= c < C
      ensures y[b][p][c] == e[b][p][c]
    {
      DLinearTiedWeightsAt(m, x, C, b, p, c);
    }
    Tensor3Ext(y, e, |x|, P, C);
  }

  /** One entry of the additivity case: decomposition, dot products and the
      final sum each distribute over the two windows. */
  lemma DLinearAdditiveAt(m: DLinear, x: Tensor3, y: Tensor3, C: nat, b: nat, p: nat, c: nat)
    requires DLinearAccepts(m, x, C) && m.linearSeasonal.Individual?
    requires IsTensor3(y, |x|, m.seqLen, C)
    requires b < |x| && p < m.predLen * m.dimOut && c < C
    ensures DLinearAccepts(m, Add(x, y, m.seqLen, C), C)
    ensures DLinearForward(m, Add(x, y, m.seqLen, C), C)[b][p][c]
         == DLinearForward(m, x, C)[b][p][c] + DLinearForward(m, y, C)[b][p][c]
  {
    var L, ws, wt := m.seqLen, Column(m.linearSeasonal.w[c], p), Column(m.linearTrend.w[c], p);
    var z := Add(x, y, L, C);
    var dx, dy := SeriesDecomp(x, L, C, KERNEL_SIZE), SeriesDecomp(y, L, C, KERNEL_SIZE);
    SeriesOfDecompAdditive(x, y, L, C, KERNEL_SIZE, b, c);
    DLinearIndividualAt(m, x, C, b, p, c);
    DLinearIndividualAt(m, y, C, b, p, c);
    DLinearIndividualAt(m, z, C, b, p, c);
    DotPlus(Series(dx.0, L, C, b, c), Series(dy.0, L, C, b, c), ws);
    DotPlus(Series(dx.1, L, C, b, c), Series(dy.1, L, C, b, c), wt);
  }

  /** Individual mode has no bias, so the forecast is additive: the forecast
      of a sum of two windows is the sum of their forecasts. */
  lemma DLinearAdditive(m: DLinear, x: Tensor3, y: Tensor3, C: nat)
    requires DLinearAccepts(m, x, C) && m.linearSeasonal.Individual?
    requires IsTensor3(y, |x|, m.seqLen, C)
    ensures DLinearAccepts(m, Add(x, y, m.seqLen, C), C)
    ensures DLinearForward(m, Add(x, y, m.seqLen, C), C)
         == Add(DLinearForward(m, x, C), DLinearForward(m, y, C), m.predLen * m.dimOut, C)
  {
    var L, P := m.seqLen, m.predLen * m.dimOut;
    var r, u, v := DLinearForward(m, Add(x, y, L, C), C), DLinearForward(m, x, C), DLinearForward(m, y, C);
    forall b, p, c | 0 <= b < |x| && 0 <= p < P && 0 <= c < C
      ensures r[b][p][c] == u[b][p][c] + v[b][p][c]
    {
      DLinearAdditiveAt(m, x, y, C, b, p, c);
    }
    AddExt(r, u, v, |x|, P, C);
  }

  // ---------------------------------------------------------------------
  // NLinear (src/hails/seq_layers.py:110-164)

  /** An NLinear model: window length, horizon, channel count, output
      dimension and one projection. */
  datatype NLinear = NLinear(seqLen: nat, predLen: nat, channels: nat, dimOut: nat, linear: Projection)

  /** What `forward` asks of its input. */
  predicate NLinearAccepts(m: NLinear, x: Tensor3, C: nat) {
    && m.seqLen >= 1
    && ProjectionShape(m.linear, m.channels, m.seqLen, m.predLen * m.dimOut)
    && IsTensor3(x, |x|, m.seqLen, C)
    && (m.linear.Individual? ==> C == m.channels)
  }

  /** `x - x[:, -1:, :]`: every step minus the last observation of its
      batch entry and channel. */
  function SubLast(x: Tensor3, L: nat, C: nat): (r: Tensor3)
    requires IsTensor3(x, |x|, L, C) && L >= 1
    ensures IsTensor3(r, |x|, L, C)
    ensures forall b, l, c :: 0 <= b < |x| && 0 <= l < L && 0 <= c < C ==> r[b][l][c] == x[b][l][c] - x[b][L - 1][c]
  {
    seq(|x|, b requires 0 <= b < |x| =>
      seq(L, l requires 0 <= l < L =>
        seq(C, c requires 0 <= c < C => x[b][l][c] - x[b][L - 1][c])))
  }

  /** `y + x[:, -1:, :]`: the last observation of `x` broadcast over the
      `P` forecast steps of `y`. */
  function AddLast(y: Tensor3, x: Tensor3, L: nat, P: nat, C: nat): (r: Tensor3)
    requires IsTensor3(x, |x|, L, C) && L >= 1 && IsTensor3(y, |x|, P, C)
    ensures IsTensor3(r, |x|, P, C)
    ensures forall b, p, c :: 0 <= b < |x| && 0 <= p < P && 0 <= c < C ==> r[b][p][c] == y[b][p][c] + x[b][L - 1][c]
  {
    seq(|x|, b requires 0 <= b < |x| =>
      seq(P, p requires 0 <= p < P =>
        seq(C, c requires 0 <= c < C => y[b][p][c] + x[b][L - 1][c])))
  }

  /** The shared-mode projection of a `[B, L, C]` tensor:
      `Linear(a.permute(0, 2, 1)).permute(0, 2, 1)`. */
  function SharedProject(a: Tensor3, lin: Affine, L: nat, C: nat, P: nat): (r: Tensor3)
    requires IsTensor3(a, |a|, L, C) && AffineShape(lin, L, P)
    ensures IsTensor3(r, |a|, P, C)
  {
    Permute021(LinearLastAxis(Permute021(a, L, C), lin, C, L, P), C, P)
  }

  /** The normalised window projected to the horizon, before the last
      observation is added back. */
  function NLinearProject(m: NLinear, shifted: Tensor3, C: nat): (r: Tensor3)
    requires ProjectionShape(m.linear, m.channels, m.seqLen, m.predLen * m.dimOut)
    requires IsTensor3(shifted, |shifted|, m.seqLen, C) && (m.linear.Individual? ==> C == m.channels)
    ensures IsTensor3(r, |shifted|, m.predLen * m.dimOut, C)
  {
    match m.linear
    case Individual(w) => EinsumBlcClp(shifted, w, m.seqLen, C, m.predLen * m.dimOut)
    case Shared(lin) => SharedProject(shifted, lin, m.seqLen, C, m.predLen * m.dimOut)
  }

  /** `NLinear.forward(x)`. */
  function NLinearForward(m: NLinear, x: Tensor3, C: nat): (y: Tensor3)
    requires NLinearAccepts(m, x, C)
    ensures IsTensor3(y, |x|, m.predLen * m.dimOut, C)
  {
    var shifted := SubLast(x, m.seqLen, C);
    AddLast(NLinearProject(m, shifted, C), x, m.seqLen, m.predLen * m.dimOut, C)
  }

  /** Individual mode: output `[b][p][c]` is the normalised series of channel
      `c` against its own weights, plus its last observation. */
  lemma NLinearIndividualAt(m: NLinear, x: Tensor3, C: nat, b: nat, p: nat, c: nat)
    requires NLinearAccepts(m, x, C) && m.linear.Individual?
    requires b < |x| && p < m.predLen * m.dimOut && c < C
    ensures NLinearForward(m, x, C)[b][p][c]
      == Dot(Series(SubLast(x, m.seqLen, C), m.seqLen, C, b, c), Column(m.linear.w[c], p)) + x[b][m.seqLen - 1][c]
  {
  }

  /** The normalised window does not see a per-channel level shift. */
  lemma SubLastIgnoresShift(x: Tensor3, x': Tensor3, d: seq<seq<real>>, L: nat, C: nat)
    requires IsTensor3(x, |x|, L, C) && IsTensor3(x', |x|, L, C) && IsMatrix(d, |x|, C) && L >= 1
    requires forall b, l, c :: 0 <= b < |x| && 0 <= l < L && 0 <= c < C ==> x'[b][l][c] == x[b][l][c] + d[b][c]
    ensures SubLast(x', L, C) == SubLast(x, L, C)
  {
    Tensor3Ext(SubLast(x', L, C), SubLast(x, L, C), |x|, L, C);
  }

  /** Adding `d[b][c]` to the whole window of channel `c` in batch entry `b`
      adds `d[b][c]` to all its forecasts, in both modes. */
  lemma NLinearShiftEquivariant(m: NLinear, x: Tensor3, x': Tensor3, d: seq<seq<real>>, C: nat)
    requires NLinearAccepts(m, x, C) && IsTensor3(x', |x|, m.seqLen, C) && IsMatrix(d, |x|, C)
    requires forall b, l, c :: 0 <= b < |x| && 0 <= l < m.seqLen && 0 <= c < C ==> x'[b][l][c] == x[b][l][c] + d[b][c]
    ensures forall b, p, c :: 0 <= b < |x| && 0 <= p < m.predLen * m.dimOut && 0 <= c < C ==>
      NLinearForward(m, x', C)[b][p][c] == NLinearForward(m, x, C)[b][p][c] + d[b][c]
  {
    SubLastIgnoresShift(x, x', d, m.seqLen, C);
  }

  /** A window that is constant in time forecasts that constant in individual
      mode, and that constant plus the bias in shared mode. */
  lemma NLinearConstantWindow(m: NLinear, x: Tensor3, C: nat)
    requires NLinearAccepts(m, x, C) && ConstantInTime(x, m.seqLen, C)
    ensures forall b, p, c :: 0 <= b < |x| && 0 <= p < m.predLen * m.dimOut && 0 <= c < C ==>
      NLinearForward(m, x, C)[b][p][c]
        == x[b][0][c] + (if m.linear.Individual? then 0.0 else m.linear.linear.bias[p])
  {
    var L, P := m.seqLen, m.predLen * m.dimOut;
    var shifted := SubLast(x, L, C);
    forall b, p, c | 0 <= b < |x| && 0 <= p < P && 0 <= c < C
      ensures NLinearForward(m, x, C)[b][p][c]
        == x[b][0][c] + (if m.linear.Individual? then 0.0 else m.linear.linear.bias[p])
    {
      match m.linear
      case Individual(w) =>
        DotZeroLeft(Series(shifted, L, C, b, c), Column(w[c], p));
      case Shared(lin) =>
        assert Permute021(shifted, L, C)[b][c] == Series(shifted, L, C, b, c);
        DotZeroLeft(Series(shifted, L, C, b, c), lin.weight[p]);
    }
  }

  /** The buffer of `forward_for` read back as a tensor. */
  function Contents(a: array3<real>): (t: Tensor3)
    reads a
    ensures IsTensor3(t, a.Length0, a.Length1, a.Length2)
    ensures forall i, j, k :: 0 <= i < a.Length0 && 0 <= j < a.Length1 && 0 <= k < a.Length2 ==> t[i][j][k] == a[i, j, k]
  {
    seq(a.Length0, i requires 0 <= i < a.Length0 reads a =>
      seq(a.Length1, j requires 0 <= j < a.Length1 reads a =>
        seq(a.Length2, k requires 0 <= k < a.Length2 reads a => a[i, j, k])))
  }

  /** The individual-mode loop of `forward_for`: a zeroed `[B, P, C]` buffer
      whose channel `i` is overwritten, in turn, by channel `i`'s window
      projected through its own weights. It builds the einsum. */
  method ProjectEachChannel(shifted: Tensor3, w: Tensor3, L: nat, C: nat, P: nat) returns (y: Tensor3)
    requires IsTensor3(shifted, |shifted|, L, C) && IsTensor3(w, C, L, P)
    ensures y == EinsumBlcClp(shifted, w, L, C, P)
  {
    var B := |shifted|;
    ghost var e := EinsumBlcClp(shifted, w, L, C, P);
    var output := new real[B, P, C]((b, p, c) => 0.0);
    for i := 0 to C
      invariant forall b, p, c :: 0 <= b < B && 0 <= p < P && 0 <= c < C ==>
        output[b, p, c] == if c < i then e[b][p][c] else 0.0
    {
      forall b, p | 0 <= b < B && 0 <= p < P {
        output[b, p, i] := Dot(Series(shifted, L, C, b, i), Column(w[i], p));
      }
    }
    Tensor3Ext(Contents(output), EinsumBlcClp(shifted, w, L, C, P), B, P, C);
    y := Contents(output);
  }

  /** `NLinear.forward_for(x)` with the per-channel product the loop evidently
      means, `output[:, :, i] = x[:, :, i] @ self.Linear[i]`: a zeroed
      `[B, P, C]` buffer is filled one channel slice per iteration, then the
      last observation is added back. It computes exactly `forward`. */
  method NLinearForwardFor(m: NLinear, x: Tensor3, C: nat) returns (y: Tensor3)
    requires NLinearAccepts(m, x, C)
    ensures y == NLinearForward(m, x, C)
  {
    var L, P, B := m.seqLen, m.predLen * m.dimOut, |x|;
    var shifted := SubLast(x, L, C);
    match m.linear {
      case Individual(w) =>
        var output := ProjectEachChannel(shifted, w, L, C, P);
        y := AddLast(output, x, L, P, C);
      case Shared(lin) =>
        y := AddLast(SharedProject(shifted, lin, L, C, P), x, L, P, C);
    }
  }

  /** The failure of a call: a weight tensor is not a callable module. */
  datatype Error = TensorNotCallable
  datatype Result<T> = Success(value: T) | Failure(error: Error)

  /** `NLinear.forward_for(x)` exactly as written: in individual mode the
      loop body calls `self.Linear[i](...)`, and `self.Linear[i]` is a
      `[seqLen, P]` tensor, which cannot be called; the first iteration
      fails. With no channels the loop does not run and the zero buffer plus
      the last observation is returned. The shared path is `forward`'s. */
  function NLinearForwardForAsWritten(m: NLinear, x: Tensor3, C: nat): (r: Result<Tensor3>)
    requires NLinearAccepts(m, x, C)
    ensures r.Success? <==> m.linear.Shared? || m.channels == 0
  {
    var L, P := m.seqLen, m.predLen * m.dimOut;
    var shifted := SubLast(x, L, C);
    match m.linear
    case Individual(w) =>
      if m.channels == 0 then Success(AddLast(seq(|x|, b => seq(P, p => [])), x, L, P, C))
      else Failure(TensorNotCallable)
    case Shared(lin) => Success(AddLast(SharedProject(shifted, lin, L, C, P), x, L, P, C))
  }

  /** The loop as written disagrees with `forward` on every individual-mode
      model with at least one channel: one returns a forecast, the other
      fails. Where it succeeds, it agrees with `forward`. */
  lemma ForwardForAsWrittenDiverges(m: NLinear, x: Tensor3, C: nat)
    requires NLinearAccepts(m, x, C)
    ensures m.linear.Individual? && m.channels > 0 ==> NLinearForwardForAsWritten(m, x, C).Failure?
    ensures NLinearForwardForAsWritten(m, x, C).Success? ==>
      NLinearForwardForAsWritten(m, x, C).value == NLinearForward(m, x, C)
  {
    if m.linear.Individual? && m.channels == 0 {
      var P := m.predLen * m.dimOut;
      Tensor3Ext(seq(|x|, b => seq(P, p => [])), NLinearProject(m, SubLast(x, m.seqLen, C), C), |x|, P, C);
    }
  }
}
