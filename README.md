# IDX stock screener, modelled in Dafny

`bot_saham.py` screens the Indonesia Stock Exchange universe once a day. It works in four steps:

- It normalises and deduplicates the ticker list and downloads daily bars in batches of 50.
- It derives indicators per ticker: RSI with Wilder-style smoothing, MACD(12, 26, 9), SMA_200, SMA_50 and a 5-day volume mean.
- It scores the last two rows of each ticker with a fixed rule table behind a liquidity veto.
- It sorts the survivors by score and keeps the best 15 for a Telegram report.

This project models that core in Dafny 4.11 and proves properties of it.

| file | module | what it models |
|---|---|---|
| `wrappers.dfy` | `Wrappers` | `Option`: `None` is a pandas NaN |
| `indicators.dfy` | `Indicators` | `calculate_rsi`, `calculate_technical`: first difference, `where`, `ewm(adjust=False)`, `rolling().mean()` |
| `scoring.dfy` | `Scoring` | the scoring block of `process_batch`: the veto, the rule table, the pass mark |
| `tickers.dfy` | `Tickers` | `.JK` normalisation, duplicate removal, slicing into batches of 50 |
| `ranking.dfy` | `Ranking` | stable descending sort by score, top 15, the 4000-character cut |
| `screener.dfy` | `Screener` | the loop of `process_batch` and the batch loop of `main` |

Modelling choices:

- Prices, volumes and indicator values are `real`.
- A value pandas leaves as NaN is `None`: a rolling window that is not yet full, the first difference, or RSI from 0/0. Every comparison on `None` is false, as Python's comparisons with NaN are.
- The indicator columns are pure functions over sequences.
- The scoring block is a method, `Scoring.ScoreRules`, that accumulates `score` and `reasons` through the same if/elif chain as the code. It is proved equal to a declarative rule table (`Fires`, `Fired`, `TotalPoints`, `Tags`), and the properties are proved about that table.
- The two loops of the program are methods with loop invariants: the per-ticker loop of `process_batch` (`Screener.ProcessBatch`) and the batch loop of `main` (`Screener.RunScreener`). Each is proved equal to a function (`Collect`, `RunBatches`).
- The download is a parameter: for each batch it yields either a map from ticker to bars, or `None` when the whole download raised.

The constants and branches are those of `bot_saham.py`:

- the veto is close < 50 or volume < 1000 on the last bar;
- the pass mark is a fixed 4;
- the golden cross is worth 4;
- an undefined RSI only switches off the two RSI rules;
- there are no regimes, targets or weekly confirmation.

## Model

| member | source | states |
|---|---|---|
| Indicators.SpanAlpha | bot_saham.py:56-59 | the smoothing factor pandas derives from a span (2/(span+1)) lies in (0, 1] |
| Indicators.DiffSteps | bot_saham.py:48 | `diff()`: the first entry is NaN, and every later entry added to the previous close gives the current close |
| Indicators.Gains | bot_saham.py:50 | `delta.where(delta > 0, 0)` keeps every column entry non-negative |
| Indicators.GainsKeepRises | bot_saham.py:50 | the leading NaN becomes 0, a rise is kept as it is, a fall or no move becomes 0 |
| Indicators.Losses | bot_saham.py:51 | `-delta.where(delta < 0, 0)` keeps every column entry non-negative |
| Indicators.LossesKeepFalls | bot_saham.py:51 | the leading NaN becomes 0, a fall is kept as its size, a rise or no move becomes 0 |
| Indicators.GainsLossesSplit | bot_saham.py:48-51 | after the first row, gain minus loss is the step of the close, and at most one of the two is non-zero |
| Indicators.EwmaAgree | bot_saham.py:50-59 | the smoothed value at row t depends only on the inputs of rows 0..t |
| Indicators.EwmaAt | bot_saham.py:50-51 | the `adjust=False` recurrence of a non-negative column stays non-negative |
| Indicators.EwmaBounded | bot_saham.py:56-59 | an `adjust=False` mean never leaves the range of the values seen so far |
| Indicators.EwmaZeroIff | bot_saham.py:50-51 | a smoothed non-negative column (alpha < 1) is 0 at row t iff every input up to t is 0 |
| Indicators.RollingMeanAgree | bot_saham.py:62-66 | the rolling mean at row t depends only on the inputs of rows 0..t |
| Indicators.RollingMeanWindow | bot_saham.py:62-66 | `rolling(window=w).mean()` is NaN exactly on rows t < w-1, and once defined lies between the smallest and largest value of its window |
| Indicators.RollingMeanNonNeg | bot_saham.py:33-34 | rolling means of gains and losses are non-negative |
| Indicators.RsiOf | bot_saham.py:52-53 | `100 - 100/(1 + gain/loss)` under float rules: NaN iff gain and loss are both 0; otherwise within [0, 100] and equal to 100·gain/(gain+loss) (100 when loss is 0) |
| Indicators.Rsi | bot_saham.py:48-53 | the RSI column has the length of the closes and every defined value lies in [0, 100] |
| Indicators.RsiUndefinedIffFlat | bot_saham.py:48-53 | RSI at row t is NaN iff the close has not moved on any row up to t |
| Indicators.RsiRisingIs100 | bot_saham.py:48-53 | closes that never fall and have moved by row t give RSI exactly 100 there (loss average 0, gain average positive) |
| Indicators.RsiFallingIs0 | bot_saham.py:48-53 | closes that never rise and have moved by row t give RSI exactly 0 there |
| Indicators.RsiAgree | bot_saham.py:48-53 | RSI at row t depends only on the closes of rows 0..t |
| Indicators.RsiRolling | bot_saham.py:31-37 | `calculate_rsi`: NaN during the first period-1 rows, and every defined value lies in [0, 100] |
| Indicators.MacdBounded | bot_saham.py:56-58 | with every close so far in [lo, hi], the MACD line lies in [lo-hi, hi-lo] |
| Indicators.MacdAgree | bot_saham.py:56-58 | the MACD line at row t depends only on the closes of rows 0..t |
| Indicators.HistogramBounded | bot_saham.py:56-59 | with every close so far in [lo, hi], the histogram lies in [2(lo-hi), 2(hi-lo)] |
| Indicators.HistogramAgree | bot_saham.py:56-59 | the histogram at row t depends only on the closes of rows 0..t |
| Indicators.FlatMacd | bot_saham.py:56-59 | on a flat close both EMAs equal the close, so MACD and its histogram are 0 on every row |
| Indicators.CalculateTechnical | bot_saham.py:39-68 | no frame iff fewer than 50 rows. Otherwise: same number of rows; each row keeps its bar; MACD and histogram always defined; SMA_200, SMA_50 and VOL_MA5 NaN exactly at indices < 199, < 49 and < 4; RSI within [0, 100] |
| Indicators.TechnicalCausal | bot_saham.py:39-68 | `calculate_technical` does not look ahead: two histories of at least 50 bars that share their first t+1 bars get the same row t |
| Scoring.ScoreIsSumOfFiredRules | bot_saham.py:111-142 | the score equals the sum of the points of the rules that fire |
| Scoring.ScoreRange | bot_saham.py:118-132 | the RSI branches exclude each other, as do the MACD branches; the golden cross fires iff prev < 0 < curr; the score lies in [0, 10] |
| Scoring.FiredInRuleOrder | bot_saham.py:118-142 | the rules that fire come in evaluation order, each at most once |
| Scoring.AtMostFourTags | bot_saham.py:118-142 | strengthening adds no tag, so at most 4 reason tags are recorded |
| Scoring.TagsOfFiredRules | bot_saham.py:118-142 | the reasons are the tags of the fired rules, in rule order |
| Scoring.UndefinedDisablesOnlyItsRules | bot_saham.py:114-142 | a NaN RSI, histogram (current or previous), VOL_MA5 or SMA_200 switches off exactly the rules that read it; every other rule and the veto are unchanged |
| Scoring.Join | bot_saham.py:152 | `", ".join`: the empty list gives "", a single tag gives itself |
| Scoring.Verdict | bot_saham.py:114-153 | no candidate iff the veto holds (close < 50 or volume < 1000) or the score is under 4; a candidate carries the ticker, the last close (≥ 50), a volume ≥ 1000 and a score in [4, 10] |
| Scoring.ScoreRules | bot_saham.py:110-142 | the running score is the sum over the rule table of each rule's points if it fires, and the reasons are the tags of the firing rules, in order |
| Scoring.OversoldCrossWithSpikeKept | bot_saham.py:114-153 | a liquid, oversold ticker with a fresh golden cross and a volume spike is always kept, with a score ≥ 9 and those three tags first |
| Ranking.SortByScoreSorts | bot_saham.py:190 | the sort yields a non-increasing permutation of the candidates |
| Ranking.SortByScoreStable | bot_saham.py:190 | for every score, the candidates with that score keep their input order |
| Ranking.TopPicks | bot_saham.py:190-191 | at most 15 candidates (exactly min(n, 15)), non-increasing, drawn from the input, and none outscored by a candidate left out |
| Ranking.TopPicksStable | bot_saham.py:190-191 | for every score, the top picks with that score are the first candidates with that score in production order |
| Ranking.CutMessage | bot_saham.py:204-205 | a report of at most 4000 characters is unchanged; a longer one keeps its first 4000 characters followed by the cut marker |
| Tickers.Normalize | bot_saham.py:167 | the result ends with `.JK`; a suffixed ticker is unchanged; any other gets the suffix appended once |
| Tickers.NormalizeIdempotent | bot_saham.py:167 | normalising twice equals normalising once |
| Tickers.NormalizeAll | bot_saham.py:167 | element-wise normalisation; every element ends with `.JK` |
| Tickers.Dedupe | bot_saham.py:174 | `list(set(...))`: no duplicates, the same elements, no longer than the input |
| Tickers.BatchesPartition | bot_saham.py:179-180 | the batches concatenate back to the ticker list; every batch has 1 to 50 tickers, and all but the last have exactly 50 |
| Tickers.BatchAt | bot_saham.py:179-180 | there are ceil(n/50) batches, and batch j is the slice `[50j : 50j+50]` |
| Screener.ScreenTicker | bot_saham.py:98-153 | a ticker yields a candidate only with ≥ 60 bars; the candidate qualifies (liquid, score 4..10), names the ticker and carries the last close |
| Screener.CollectQualifies | bot_saham.py:88-158 | every candidate the loop gathers qualifies and names one of the batch tickers |
| Screener.ScoreLastRows | bot_saham.py:106-153 | the imperative block (veto, ScoreRules, pass mark) returns exactly the verdict of the rule table |
| Screener.ScoreTicker | bot_saham.py:98-153 | the body of the per-ticker loop returns exactly the outcome `ScreenTicker` specifies |
| Screener.ProcessBatch | bot_saham.py:70-158 | `process_batch` returns the candidates of the tickers in order, skipping missing ones, and returns [] when the download raised; every candidate qualifies and names a ticker of the batch |
| Screener.RunScreener | bot_saham.py:160-191 | `main`: the tickers are normalised, duplicate-free and suffixed; the picks are the top 15 of all batch outcomes in batch order, at most 15, non-increasing; each qualifies and names a ticker |
| Screener.UniverseSuffixed | bot_saham.py:167-174 | every deduplicated ticker carries the suffix |
| Screener.NextBatch | bot_saham.py:179-184 | one turn of the batch loop handles the first batch of what remains |
| Screener.AppendQualifies | bot_saham.py:184 | `extend` with a batch's candidates keeps every entry qualified |
| Screener.TopPicksQualify | bot_saham.py:190-191 | the top picks inherit qualification from the candidates |
| Screener.FlatHistoryRejected | bot_saham.py:98-153 | a history with a constant close and volume never yields a candidate |
| Screener.FlatLastRows | bot_saham.py:48-66 | on a flat history the last row has a NaN RSI, zero histograms, VOL_MA5 equal to its volume and SMA_200 (if defined) equal to its close |
| Screener.QuietRowsScoreNothing | bot_saham.py:118-142 | rows with a NaN RSI, zero histograms, volume at its own mean and close at its SMA_200 score 0 |

## Left out

- The download by `yf.download` (bot_saham.py:76-82) is a network call into a library. It is a parameter of the model: a map from ticker to bars, or `None` when it raised.
- `dropna(how='all')` on each ticker's frame (bot_saham.py:94) drops only bars whose fields are all NaN. The model's bars have real fields and no missing values, so it has nothing to drop.
- Scoring.Verdict: a last bar whose close or volume alone is NaN survives `dropna(how='all')` and passes the veto at bot_saham.py:115, because every comparison with NaN is false. Such a bar can be appended with a NaN price or volume. Bars in this model have real fields, so that case is outside the model. The guarantees close ≥ 50 and volume ≥ 1000 (also in `Screener.Qualifies` and `Screener.AllQualify`) hold only for NaN-free bars.
- The single-ticker branch (bot_saham.py:84-91) only rewraps the library's result into the same map shape. In the model every batch goes through the map.
- Exceptions inside the per-ticker `try` (bot_saham.py:155-156) come from library code. The model raises none, so that branch is not modelled beyond "no candidate".
- Reading `bei_universe.csv` and the environment variables (bot_saham.py:12-13, 164-170) is I/O. The symbol list is a parameter of `Screener.RunScreener`.
- `send_telegram`, the report text with its emoji and float formatting, `print`, `time.time` and `time.sleep` (bot_saham.py:15-28, 74, 172, 181, 187, 193-211) are output, presentation and timing. Only the 4000-character cut is modelled (`Ranking.CutMessage`).
- Tickers.Dedupe: `list(set(...))` leaves the order to the hash set. The model keeps first occurrences in input order, and only the absence of duplicates and the preserved elements are stated, so no property of the model depends on that order.
- Ranking.TopPicks: Python's `list.sort` is a library call that sorts in place. It is modelled as a pure stable insertion sort on a sequence, which `main` assigns to its local list.
- IEEE floating point is not modelled: prices and indicators are exact `real`s, so rounding, overflow and infinities other than the RSI division by zero are outside the model.
- Indicators.RollingMeanWindow bounds a defined mean by the range of its window. The mean's exact value is the definition of `Indicators.RollingMean` itself.
- Indicators.RsiRolling states its warm-up in one direction only: NaN before the window is full. After that, NaN comes exactly from a flat window, by `Indicators.RsiOf`.
- Scoring.Join states only the empty and single-tag cases. For longer lists its body is the definition of `", ".join`, and the tags themselves are fixed by `Scoring.TagsOfFiredRules`.
