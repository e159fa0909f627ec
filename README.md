# Stock screener: a Dafny model

The screener reads a comma-separated manifest of `<prefix>:<symbol>` entries.
It downloads about 400 days of daily history for each symbol and keeps the
symbols that pass two filters:

- **Trend filter.** The last close must lie within 5% of the 200-day simple
  moving average of the close. Both ends of the band are included.
- **Volume filter.** The latest traded volume must be at least three times the
  mean of the five volumes before it. Equality passes.

The trend filter is checked first. A series that is empty, or too short for
either filter, fails.

The model has three modules, one per piece of `screener.py`:

- `StockCheck` (`stock_check.dfy`) is the decision `check_stock` makes for one
  downloaded series. It is a pure function over a `seq` of points.
  - Closes and volumes are exact `real`s.
  - A close the data source leaves missing (pandas' NaN) is `None`.
  - The function returns a `Reason`: `PassedAll`, `DataFetchError` (empty
    series), `InsufficientTrendData`, `OutOfTrendBand`,
    `InsufficientVolumeData` or `InsufficientVolumeSpike`.
  - The predicate `Check` is the boolean that `check_stock` returns.
  - Only the last value of the rolling mean is read, so the moving average is
    the mean of the last 200 closes. It is undefined when there are fewer than
    200 points or any of those closes is missing, as with pandas' default
    `min_periods` equal to the window.
  - `MeetsCriteria` restates the criteria without reasons, means or options:
    sums scaled by 200 and by 5. `CheckMeetsCriteria` proves that the decision
    passes exactly the series that meet it.
- `TickerManifest` (`ticker_manifest.dfy`) is the parsing expression
  `content.strip().replace('"', '').split(',')` and the comprehension
  `[t.split(':')[1] for t in tickers if ':' in t]`.
  - `Strip` removes the characters Python's `str.isspace` accepts.
  - `Split` behaves like Python's `str.split` with a one-character separator.
    It always returns at least one token, and `"".split(',')` is `[""]`.
- `Screener` (`screener.py`'s `main`) is the loop that appends each passing
  ticker to `found_stocks`.
  - It is a method with a `for` loop whose invariant says that after `i`
    tickers, `found` is the passing tickers among the first `i`.
  - Every iteration downloads afresh, so the run takes one downloaded series
    per position of the ticker list: `downloads[i]` is what the download for
    `tickers[i]` returned. A ticker listed twice is judged on each of its
    downloads separately.

Manifest parsing builds a list, not a set: duplicates and the manifest's
order are kept, so the model returns a `seq`.

## Model

| member | source | states |
|---|---|---|
| StockCheck.Evaluate | screener.py:33-67 | the reason is DataFetchError exactly when the series is empty; when a non-empty series passes the trend filter the reason is the volume filter's verdict; InsufficientVolumeData is never the reason, because passing the trend filter already needs 200 points |
| StockCheck.CollectCloses | screener.py:38 | the closes of a window are defined exactly when every close in it is present, and then they are those closes in order (NaN propagation of the rolling mean) |
| StockCheck.Dma200 | screener.py:38-46 | the 200-day average is defined exactly when the series has at least 200 points and none of the last 200 closes is missing |
| StockCheck.Dma200IsCloseMean | screener.py:38-41 | when defined, the average is the sum of the last 200 closes divided by 200 |
| StockCheck.Dma200Bounds | screener.py:38-41 | the average lies between any lower and upper bound of the closes in the window (a flat window gives its own value) |
| StockCheck.UndefinedAverageFails | screener.py:44-46 | a non-empty series fails with InsufficientTrendData exactly when it has fewer than 200 points or misses a close among its last 200 |
| StockCheck.TrendFilter | screener.py:41-51 | the trend verdict is InsufficientTrendData exactly when the average is undefined; otherwise it passes exactly when 0.95 * average <= last close <= 1.05 * average, both ends included |
| StockCheck.TrendBandRatio | screener.py:48 | with a positive average, the band test is the ratio test 0.95 <= last close / average <= 1.05 |
| StockCheck.VolumeFilter | screener.py:53-64 | the volume verdict is InsufficientVolumeData exactly when there are fewer than 6 points; otherwise it passes exactly when the latest volume >= 3 * the mean of the five before it (equality passes, strictly less fails) |
| StockCheck.CheckMeetsCriteria | screener.py:33-67 | check_stock returns true exactly when the series has at least 200 points, its last 200 closes are present, 200 * last close is within 95% to 105% of their sum, and 5 * latest volume >= 3 * the sum of the five previous volumes |
| StockCheck.TrendMeetsCriterion | screener.py:38-51 | a non-empty series passes the trend filter exactly when it has at least 200 points, its last 200 closes are present, and 200 * last close is within 95% to 105% of their sum |
| StockCheck.VolumeMeetsCriterion | screener.py:53-64 | a series of at least 6 points passes the volume filter exactly when 5 * latest volume >= 3 * the sum of the five previous volumes |
| StockCheck.VolumeSpikeReason | screener.py:59-64 | the reason is InsufficientVolumeSpike exactly when the series meets the trend criterion and 5 * latest volume < 3 * the sum of the five previous volumes |
| StockCheck.OutOfBandReason | screener.py:48-50 | the reason is OutOfTrendBand exactly when the 200-day average is defined and the series does not meet the trend criterion |
| StockCheck.TrendDecidesFirst | screener.py:44-51 | when the trend filter fails on a non-empty series, its reason is the result, and it is the same for any series with the same closes whatever the volumes |
| StockCheck.FlatSeriesWithSpikePasses | screener.py:33-67 | 250 flat closes at 100 with volumes of 1000 and a final 4000 pass both filters |
| StockCheck.FinalJumpOutOfBand | screener.py:48-50 | a final close 1.10 times the 200-day average fails with OutOfTrendBand |
| StockCheck.WeakSpikeFails | screener.py:59-64 | final volumes 100, 100, 100, 100, 100, 250 on a passing trend fail with InsufficientVolumeSpike (250 < 300) |
| StockCheck.Mean | screener.py:60 | the mean of a non-empty sequence is the value whose count-fold multiple is the sum |
| StockCheck.InBand | screener.py:48 | against a non-negative average, the band test is "the last close differs from the average by at most 5% of it"; against a negative average nothing passes |
| StockCheck.BandIsRatio | screener.py:48 | against a positive average, the band test is the ratio test 0.95 <= price / average <= 1.05 |
| StockCheck.Check | screener.py:33-67 | `check_stock` returns true exactly when the series is non-empty and both the trend filter and the volume filter pass |
| StockCheck.MeanBounds | screener.py:60 | the mean of values that all lie in [lo, hi] lies in [lo, hi] |
| TickerManifest.Strip | screener.py:83 | the stripped text is a slice of the content with whitespace only before and after it, and neither of its ends is whitespace |
| TickerManifest.RemoveQuotes | screener.py:83 | the result contains no double quote |
| TickerManifest.RemoveQuotesCounts | screener.py:83 | every character other than a double quote occurs in the result as often as in the input |
| TickerManifest.RemoveQuotesAppend | screener.py:83 | quote removal works piece by piece, so the order of the kept characters is preserved |
| TickerManifest.RemoveQuotesUnquoted | screener.py:83 | text without double quotes is unchanged |
| TickerManifest.Split | screener.py:83 | there is at least one token, at least two exactly when the separator occurs, no token contains the separator, and the first token is the text up to the first separator |
| TickerManifest.JoinSplit | screener.py:83 | joining the tokens back with the separator gives the original text |
| TickerManifest.SplitJoin | screener.py:83 | splitting the join of separator-free tokens gives those tokens back |
| TickerManifest.Field | screener.py:84 | `t.split(':')[1]` is the text right after the first colon of `t`, ending at the next colon or the end of `t`, and holds no colon |
| TickerManifest.ColonFields | screener.py:84 | the comprehension yields at most one symbol per token, and none holds a colon |
| TickerManifest.ColonFieldsMembers | screener.py:84 | every yielded symbol is the field of a token that contains a colon, and the field of every such token is yielded |
| TickerManifest.ColonFieldsAppend | screener.py:84 | the comprehension over a concatenation is the concatenation of the comprehensions, so token order is kept |
| TickerManifest.Tokens | screener.py:83 | `tickers` has at least one token, no token holds a comma or a double quote, and joining the tokens with commas gives back the stripped, unquoted content |
| TickerManifest.ParseTickers | screener.py:83-84 | `cleaned_tickers` has at most as many entries as there are comma tokens, and no entry contains a double quote, a comma or a colon |
| Screener.Passing | screener.py:93-97 | the reported tickers are no more than the input tickers, and each of them is one of the input tickers |
| Screener.FindStocks | screener.py:93-97 | the loop leaves `found_stocks` equal to the tickers whose own download passes, in input order |
| Screener.Run | screener.py:83-97 | the run reports the parsed manifest entries whose own download passes, in manifest order |
| Screener.PassingSound | screener.py:93-97 | every reported ticker is listed at a position whose download passes |
| Screener.PassingComplete | screener.py:93-97 | every ticker listed at a position whose download passes is reported |
| Screener.PassingCountBound | screener.py:93-97 | a ticker is reported at most as many times as it is listed |
| Screener.PassingCountAllPass | screener.py:93-97 | a ticker all of whose downloads pass is reported as many times as it is listed |
| Screener.PassingCountNonePass | screener.py:93-97 | a ticker none of whose downloads pass is never reported |
| Screener.PassingSnoc | screener.py:96-97 | one more iteration appends its ticker exactly when its download passes |
| Screener.PassingAppend | screener.py:93-97 | the result for a concatenation is the concatenation of the results, so a failing ticker, such as one with an empty series, does not stop the later ones from being reported |
| Screener.RepeatedTickerJudgedPerDownload | screener.py:94-97 | a ticker listed twice whose second download comes back empty is reported once if its first download passes, and not at all otherwise |

## Left out

- The download (`yf.download` with the `.NS` suffix and a 400-day period) is
  remote I/O. The run takes its results as a list, one series per position
  of the ticker list. A download that fails or returns nothing is the empty
  series.
- Reading the manifest file and the `FileNotFoundError` handler are file I/O.
  `Screener.Run` takes the file's content as a string.
- Logging and `print` are observational only and do not affect control flow.
- `get_scalar` normalises pandas and numpy container shapes. The typed series
  of points makes it unnecessary.
- The `except Exception` handlers are not modelled. The model is total, so none
  of the faults they guard against can arise.
- Floating-point rounding is not modelled, because prices and volumes are exact
  reals.
- NaN volumes are not modelled: a volume is always present. pandas' `mean`
  skips NaN volumes, and a NaN latest volume compares false and so passes.
- Only the last value of the rolling-mean column is modelled, since that is all
  the code reads. The full `DMA200` column is not.
- Python's `str.strip` treats a fixed list of Unicode code points as whitespace.
  `TickerManifest.IsSpace` lists those code points. The model has no other
  encoding or decoding step.
