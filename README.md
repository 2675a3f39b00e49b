# Decomposition-linear forecasters and the sales hierarchy rollup

This project models two parts of the HAILS forecasting code in Dafny and proves
properties of them.

**The forecasting layers** (`src/hails/seq_layers.py`), in module `SeqLayers`:
- `moving_avg` pads a `[batch, time, channel]` window by repeating its first and
  its last time step `(k - 1) / 2` times. It then takes the unweighted mean of
  every `k`-step window.
- `series_decomp` splits a window into a seasonal part and a trend part.
- `DLinear` projects the seasonal and trend parts along time and adds them.
- `NLinear` subtracts each channel's last observation, projects the result and
  adds the observation back. It has two code paths: the `einsum` of `forward`
  and the per-channel buffer loop of `forward_for`.
- Tensors are nested sequences of `real`, with their shapes passed explicitly.
- Weights are parameters. The individual mode holds one `[seqLen][width]`
  matrix per channel. The shared mode holds one affine map `W·x + b`, applied
  to every channel.

**The hierarchy rollup** (`src/ts_utils/dow_dataset.py`), in module
`DowDataset`:
- A frame is a class whose fields hold the hierarchy columns, the number of
  time columns, the rows, the row index and the temporary `initialIndex`
  column. Each row has its hierarchy labels (the key) and one value per time
  column.
- `get_aggregate` groups the rows by the hierarchy columns that are present,
  except the one aggregated over. Groups come in sorted key order, which is
  Python's lexicographic order on tuples of strings (module `Ordering`).
- It sums each group's values and fills a 0/1 membership matrix, groups by
  rows, in an `array2`. It adds `initialIndex` to the caller's frame and
  removes it again.
- `get_dataset` runs one pass per hierarchy column after the first, finest
  first. Each pass prepends the new level's series to the stacked
  `[time][series]` sequence.
- Each pass also grows the square hierarchy matrix: the previous matrix goes in
  the bottom-right block, and the membership goes in the new top rows, just
  right of the new columns.
- Each such block links a level to the level **directly below it**. So the
  proved global property is that the hierarchy matrix times the stacked series
  gives back the stacked series: every aggregate row sums its children one
  level down, and every leaf row picks itself out. The matrix times the leaves
  alone is not claimed to give every level.
- Each imperative operation is a method proved equal to a specification
  function: `Aggregate`, `Membership`, `Grow`, `Step`, `Rollup`. The properties
  are proved about those functions.
- The hierarchy is a parameter `h`: a sequence of distinct column names, root
  first. It stands in for the module's fixed eight-name list.

`LinAlg` holds the finite sums and dot products both parts are built from.

## Model

| member | source | states |
|---|---|---|
| SeqLayers.Pad | src/hails/seq_layers.py:20-22 | the padded window has `L + 2·((k-1)/2)` steps per batch entry |
| SeqLayers.PadAt | src/hails/seq_layers.py:20-22 | padded step `j` is input step `j - (k-1)/2` clamped into `0 .. L-1`, the first and last observation repeated |
| SeqLayers.PoolWindowInRange | src/hails/seq_layers.py:16 | every window of `AvgPool1d(k, stride)` lies inside the padded sequence |
| SeqLayers.MovingAvg | src/hails/seq_layers.py:18-25 | the output has `(L + 2·((k-1)/2) - k) / stride + 1` steps; for an odd kernel and stride 1 exactly `L`, for an even kernel `L - 1` |
| SeqLayers.MovingAvgAt | src/hails/seq_layers.py:20-24 | trend `[b][t][c]` is `(1/k)·Σ_{i<k} x[b][clamp(t·stride + i - (k-1)/2)][c]`, computed per batch entry and channel |
| SeqLayers.MovingAvgOfConstant | src/hails/seq_layers.py:18-25 | a window constant in time is its own trend (odd kernel, stride 1) |
| SeqLayers.SeriesDecomp | src/hails/seq_layers.py:37-40 | both parts have the input's shape `[B, L, C]` |
| SeqLayers.DecompositionIdentity | src/hails/seq_layers.py:38-40 | seasonal + trend == the input |
| SeqLayers.SeriesOfParts | src/hails/seq_layers.py:38-40 | for every batch entry and channel, the seasonal series plus the trend series is the input series |
| SeqLayers.ConstantWindowDecomposition | src/hails/seq_layers.py:20-40 | a constant window's trend is the window and its seasonal part is all zeros |
| SeqLayers.ClampedWindowPlus | src/hails/seq_layers.py:20-22 | the padded window read from `x + y` is the pointwise sum of the windows read from `x` and from `y` |
| SeqLayers.MovingAvgPlusAt | src/hails/seq_layers.py:18-25 | one trend entry of `x + y` is the sum of the trend entries of `x` and `y` |
| SeqLayers.MovingAvgAdditive | src/hails/seq_layers.py:18-25 | the moving average is additive, for any kernel and stride: `trend(x + y) == trend(x) + trend(y)` |
| SeqLayers.MovingAvgLevelShift | src/hails/seq_layers.py:18-25 | adding a window that is constant in time adds it to the trend (odd kernel, stride 1) |
| SeqLayers.SeriesDecompAdditive | src/hails/seq_layers.py:37-40 | the seasonal and trend parts of `x + y` are the sums of the parts of `x` and `y` |
| SeqLayers.SeriesOfDecompAdditive | src/hails/seq_layers.py:37-40 | the same for every batch entry's and channel's series |
| SeqLayers.DLinearForward | src/hails/seq_layers.py:90-107 | the forecast has shape `[B, predLen·dimOut, C]` |
| SeqLayers.DLinearIndividualAt | src/hails/seq_layers.py:92-107 | individual mode: `out[b][p][c] = Σ_l seas[b][l][c]·WS[c][l][p] + Σ_l trend[b][l][c]·WT[c][l][p]` |
| SeqLayers.DLinearSharedAt | src/hails/seq_layers.py:92-107 | shared mode: the same affine maps (weight row `p`, bias `p`) on every channel's seasonal and trend series |
| SeqLayers.DLinearZeroInZeroOut | src/hails/seq_layers.py:70-106 | individual mode has no bias: a zero window forecasts zero for any weights |
| SeqLayers.DLinearZeroAt | src/hails/seq_layers.py:98-106 | one entry of the zero-window forecast is zero |
| SeqLayers.DLinearTiedWeightsAt | src/hails/seq_layers.py:98-106 | with equal seasonal and trend weights, entry `[b][p][c]` is channel `c`'s whole series against `W[c][:, p]` |
| SeqLayers.DLinearTiedWeights | src/hails/seq_layers.py:98-106 | with equal seasonal and trend weights, the forecast is the single projection `einsum("blc,clp->bpc", x, W)` of the undecomposed window |
| SeqLayers.DLinearAdditiveAt | src/hails/seq_layers.py:92-106 | individual mode: entry `[b][p][c]` of the forecast of `x + y` is the sum of the two forecasts' entries |
| SeqLayers.DLinearAdditive | src/hails/seq_layers.py:90-107 | individual mode: the forecast of `x + y` is the forecast of `x` plus the forecast of `y` |
| SeqLayers.SubLast | src/hails/seq_layers.py:141-142 | every step of every channel minus that channel's last observation, shape kept |
| SeqLayers.AddLast | src/hails/seq_layers.py:147 | the last observation broadcast over the forecast steps |
| SeqLayers.NLinearForward | src/hails/seq_layers.py:139-148 | the forecast has shape `[B, predLen·dimOut, C]` |
| SeqLayers.NLinearIndividualAt | src/hails/seq_layers.py:141-147 | individual mode: `out[b][p][c] = Σ_l (x[b][l][c] - x[b][L-1][c])·W[c][l][p] + x[b][L-1][c]` |
| SeqLayers.SubLastIgnoresShift | src/hails/seq_layers.py:141-142 | the normalised window does not change when a per-channel constant is added to the window |
| SeqLayers.NLinearShiftEquivariant | src/hails/seq_layers.py:139-148 | adding `d[b][c]` to a channel's whole window adds `d[b][c]` to all its forecasts, in both modes |
| SeqLayers.NLinearConstantWindow | src/hails/seq_layers.py:139-148 | a constant window forecasts that constant (individual mode), or that constant plus the bias (shared mode) |
| SeqLayers.ProjectEachChannel | src/hails/seq_layers.py:155-160 | the zeroed buffer filled one channel slice per iteration equals `einsum("blc,clp->bpc")` |
| SeqLayers.NLinearForwardFor | src/hails/seq_layers.py:150-164 | the loop version, with the product the loop evidently means, returns exactly what `forward` returns |
| SeqLayers.NLinearForwardForAsWritten | src/hails/seq_layers.py:150-164 | as written, it succeeds exactly in shared mode or when there are no channels |
| SeqLayers.ForwardForAsWrittenDiverges | src/hails/seq_layers.py:154-160 | as written, it fails on every individual-mode model with a channel, and agrees with `forward` wherever it succeeds |
| Ordering.LexStrictTotalOrder | src/ts_utils/dow_dataset.py:47-49 | lexicographic comparison inherits a strict total order from the element order |
| Ordering.KeyLessIsStrictTotal | src/ts_utils/dow_dataset.py:47-49 | comparison of group keys (tuples of strings) is a strict total order |
| Ordering.InsertSorted | src/ts_utils/dow_dataset.py:47-49 | inserting a key into a strictly sorted listing keeps it strictly sorted, and adds exactly that key |
| Ordering.SortedDistinct | src/ts_utils/dow_dataset.py:47-49 | the listing is strictly increasing and holds exactly the keys that occur |
| Ordering.SortedListingUnique | src/ts_utils/dow_dataset.py:47-55 | two strictly sorted listings of the same keys are equal |
| DowDataset.KeyColumns | src/ts_utils/dow_dataset.py:48 | a column is a grouping column iff it is in the hierarchy, present in the frame and not `agg_over` |
| DowDataset.IndexOf | src/ts_utils/dow_dataset.py:48 | the first position of a present column name |
| DowDataset.KeyColumnsInHierarchyOrder | src/ts_utils/dow_dataset.py:48 | the grouping columns come in hierarchy order: a column listed before another comes before it in the hierarchy |
| DowDataset.Groups | src/ts_utils/dow_dataset.py:47-49 | the groups are strictly sorted, and a key is a group iff some row carries it |
| DowDataset.GroupsDistinct | src/ts_utils/dow_dataset.py:47-49 | group keys are pairwise distinct |
| DowDataset.GroupingDeterministic | src/ts_utils/dow_dataset.py:47-55 | any strictly sorted listing of the occurring keys is the group listing, so both `groupby` calls enumerate the same groups in the same order |
| DowDataset.IndexList | src/ts_utils/dow_dataset.py:52-54 | a label is in a group's list iff some row of that group carries it |
| DowDataset.IndexListHoldsMembers | src/ts_utils/dow_dataset.py:51-54 | over the default index, a group's list holds exactly the row positions of that group |
| DowDataset.Membership | src/ts_utils/dow_dataset.py:47-58 | the membership matrix is groups × rows, and every entry is 0 or 1 |
| DowDataset.MembershipColumnHasOneOne | src/ts_utils/dow_dataset.py:51-58 | every column has a 1, and any two 1s of a column are in one row: each row is in exactly one group |
| DowDataset.MembershipRowHasAOne | src/ts_utils/dow_dataset.py:51-58 | every matrix row has at least one 1: no empty group |
| DowDataset.Aggregate | src/ts_utils/dow_dataset.py:47-62 | the grouped frame is keyed by the grouping columns, has one row per group in group order, and keeps the time columns |
| DowDataset.SeriesOf | src/ts_utils/dow_dataset.py:26-59 | `.values.T` is `[time][row]` |
| DowDataset.LevelConsistent | src/ts_utils/dow_dataset.py:47-60 | membership row `i` times the current series at step `s` is group `i`'s value at step `s` |
| DowDataset.DataFrame.constructor | src/ts_utils/dow_dataset.py:62 | `reset_index()` gives a fresh 0-based index and no `initialIndex` column |
| DowDataset.DataFrame.AddInitialIndex | src/ts_utils/dow_dataset.py:51 | sets `initialIndex` to the index; nothing else changes |
| DowDataset.DataFrame.DropInitialIndex | src/ts_utils/dow_dataset.py:61 | removes `initialIndex` in place; nothing else changes |
| DowDataset.OnesAt | src/ts_utils/dow_dataset.py:56-58 | after the row loop, entry `[i, j]` is 1 iff `j` is in row `i`'s list, and 0 otherwise |
| DowDataset.ListsAreMembers | src/ts_utils/dow_dataset.py:55-58 | group lists over the default index mark exactly the membership matrix's ones |
| DowDataset.MarkMembers | src/ts_utils/dow_dataset.py:51-58 | the matrix filled from the index lists, looked up by group key, is the membership matrix |
| DowDataset.GetAggregate | src/ts_utils/dow_dataset.py:45-62 | returns the grouped frame with a 0-based index, the membership matrix (groups × current rows) and the grouped series; the caller's frame ends as it started |
| DowDataset.Identity | src/ts_utils/dow_dataset.py:30 | the `n × n` identity |
| DowDataset.Placed | src/ts_utils/dow_dataset.py:34-40 | a row of zeros with `v` placed at column offset `m` |
| DowDataset.Grow | src/ts_utils/dow_dataset.py:34-41 | the grown matrix has `m + n` rows of `m + n` entries |
| DowDataset.GrowAt | src/ts_utils/dow_dataset.py:34-40 | bottom-right block is the previous matrix, rows `0..m-1` × columns `m..m+len(df)-1` are the membership, every other entry is 0 |
| DowDataset.GrowBinary | src/ts_utils/dow_dataset.py:34-40 | growing a 0/1 matrix with a 0/1 membership keeps it 0/1 |
| DowDataset.GrowMatrix | src/ts_utils/dow_dataset.py:34-41 | the zeroed array with both blocks written is the grown matrix, square with side `m + n` |
| DowDataset.Prepend | src/ts_utils/dow_dataset.py:33 | concatenation at `dim=-1`: each time step holds the new series first, then the old ones |
| DowDataset.Step | src/ts_utils/dow_dataset.py:31-41 | one pass aggregates the frame, grows the matrix with the membership of the current frame (`Grow`), prepends the grouped series, keeps the shape (square matrix, one series per matrix row) and keeps the matrix 0/1 |
| DowDataset.LevelColumns | src/ts_utils/dow_dataset.py:31-48 | with columns `h[..p+1]` present, aggregating over `h[p]` is defined and leaves the columns `h[..p]` |
| DowDataset.StepAfterPasses | src/ts_utils/dow_dataset.py:31-32 | pass `k` is defined on the state after `k - 1` passes and leaves the columns `h[..|h|-k]` |
| DowDataset.Start | src/ts_utils/dow_dataset.py:26-30 | the leaf series `.values.T` of the frame and the identity matrix of the row count, square and 0/1 |
| DowDataset.StartCoherent | src/ts_utils/dow_dataset.py:26-30 | the identity times the leaf series is the leaf series |
| DowDataset.GrowReproducesTop | src/ts_utils/dow_dataset.py:33-40 | a new top row times the prepended series gives its own series, when the membership sums the level below |
| DowDataset.GrowReproducesBottom | src/ts_utils/dow_dataset.py:33-37 | a carried-over row reads only the old series, which now sit after the new ones |
| DowDataset.GrowReproduces | src/ts_utils/dow_dataset.py:33-41 | growing keeps "the matrix times the stacked series is the stacked series" |
| DowDataset.StepCoherent | src/ts_utils/dow_dataset.py:31-41 | one pass keeps that coherence |
| DowDataset.Rollup | src/ts_utils/dow_dataset.py:24-42 | after `k` passes, over `h[|h|-1]` down to `h[|h|-k]`: the shape, the time steps, a 0/1 matrix, the frame keyed by `h[..|h|-k]`, and the matrix times the stacked series is the stacked series |
| DowDataset.RollupPass | src/ts_utils/dow_dataset.py:32-41 | one loop iteration on the frame object and arrays computes `Step`; the frame passed in ends as it started |
| DowDataset.GetDataset | src/ts_utils/dow_dataset.py:24-42 | returns the stacked series and hierarchy matrix of `Rollup` after `|h| - 1` passes; the caller's frame ends as it started, for the modelled columns |

## Left out

- `get_datasets` and `ROOT_FOLDER` (src/ts_utils/dow_dataset.py:4,17-21) are CSV file reading. A frame is a parameter instead.
- The `country_id = "US"` column (src/ts_utils/dow_dataset.py:25) is left out. The code adds it to the caller's frame, and it is not in the hierarchy list, so `drop(columns=HIERARCHY).values.T` (lines 26-28) keeps a string column and gives an object array. `torch.tensor(..., dtype=torch.float32)` at line 29 then raises `TypeError`: as written, `get_dataset` never reaches the loop, and the caller's frame keeps the new column. The model gives the evidently intended numeric-only behaviour: the frame has only the hierarchy columns and numeric time columns, and it ends as it started in those.
- The hierarchy list (src/ts_utils/dow_dataset.py:5-14) is a parameter `h` of distinct names, root first. The frame's hierarchy columns must be exactly those names, as the code's `drop(columns=HIERARCHY)` assumes.
- Frames are assumed to have the default 0-based row index on entry. The code writes `matrix[i, row["initialIndex"]]`, which is only a column position under that index.
- Pandas drops rows whose key holds a missing value. Keys here are plain strings with no missing values, so this case does not arise in the model.
- `groupby` with an empty key list raises in pandas. The model states this as a precondition: at least one grouping column remains. `get_dataset` always keeps the root column.
- Random weight initialisation (`torch.randn`, the `1/sqrt(seq_len)` bound) is left out. Weights are parameters.
- The module constructors are left out. The model types carry the same fields.
- Floating-point rounding is left out. All values are `real`, and `torch.float32` conversions are identities.
- `.detach()`, `.to(device)`, autograd and training have no effect on the computed values and are left out.
- `nn.Linear`, `AvgPool1d` and `einsum` are modelled by their mathematical definitions, not by the library's implementation. The shared mode is an affine map `W·x + b` applied to every channel.
- Errors that the libraries raise are preconditions, not modelled failures: a window shorter than one step, a channel count that differs from the weights, a missing hierarchy column. `MovingAvg` also requires a stride of at least one and a kernel that fits the padded window (`k <= L + 2·((k-1)/2)`), which `AvgPool1d` checks. `SeriesDecomp` requires an odd kernel, so that the trend has as many steps as the input and `x - trend` is defined; the code only ever uses 25.
- SeqLayers.DLinearForward: additivity is proved (`DLinearAdditive`), homogeneity is not. Scaling a window by `a` scales the individual-mode forecast by `a`, but the proof has to relate `a * (Σ/k)` to `(a * Σ)/k` inside the moving average, and the solver's nonlinear arithmetic does not close it within the resource bound. Shared mode is affine (each `nn.Linear` adds its bias), so it is not additive, and no linearity claim is made for it.
- NLinearForwardForAsWritten: a `TypeError` is modelled as a `Failure` value. What the interpreter would do for a zero-channel model with an empty weight tensor is taken from the loop not running.

## Findings

| source | as written | input that shows it | evidently intended | confidence | as-written member | corrected member |
|---|---|---|---|---|---|---|
| src/hails/seq_layers.py:158-159 | `output[:, :, i] = self.Linear[i](x[:, :, i])` calls `self.Linear[i]`, a `[seq_len, P]` slice of an `nn.Parameter`, as if it were a module; a tensor is not callable, so individual mode raises `TypeError` on the first channel | any individual-mode `NLinear` with `enc_in >= 1`, e.g. one channel, `seq_len = 1`, `pred_len = 1`, on any window | `output[:, :, i] = x[:, :, i] @ self.Linear[i]`, the per-channel product that makes `forward_for` equal `forward`'s `einsum` | high (the type error is certain), not executed | SeqLayers.ForwardForAsWrittenDiverges | SeqLayers.NLinearForwardFor |
