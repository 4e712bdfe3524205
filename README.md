# TradingAgents Lite, modelled in Dafny

TradingAgents Lite (`sh/main.lite.py`) analyses one stock in a single pass:

1. It fetches the quote fields and a short daily price history for a ticker.
2. It computes technical indicators from the closing prices: 5- and 20-day moving averages, a 14-day RSI, and MACD with its signal line.
3. It assembles these into a snapshot dictionary.
4. It writes a prompt that includes where the price sits in its 52-week range, and asks a language model for an analysis.
5. It saves a JSON report under a path built from the ticker and the date.
6. It reads a BUY / SELL / HOLD decision off the analysis text.

This project models that pipeline over exact reals and strings and proves its properties. There is one module per component:

| file | module | models |
|---|---|---|
| common.dfy | `Common` | option type, sums and means of real sequences, bound lemmas |
| indicators.dfy | `Indicators` | moving averages, RSI, exponential averages and MACD |
| market_data.dfy | `MarketData` | the info payload, fallback lookups, the snapshot (`get_stock_data`) |
| prompt.dfy | `Prompt` | the price position in the 52-week range |
| completion.dfy | `Completion` | the model call's outcome and the failure text |
| decisions.dfy | `Decisions` | upper-casing, substring search, the ordered decision rule |
| reports.dfy | `Reports` | the report record, its path, and the report directory as a map |
| pipeline.dfy | `Pipeline` | one run of `main` after the configuration check |

Numbers are `real`, so floating-point rounding does not arise. The one NaN that matters is an undefined RSI. It is modelled as `None`.

`ewm(span=s).mean()` is modelled with the pandas default weighting, `adjust=True`. Value `x[n-1-i]` gets weight `b^i`, with `b = (s-1)/(s+1)`, and the weights are normalised over the whole history.

The directory of report files is a `map` from path to record, held in a class. Saving replaces the entry at the report's path.

Several behaviours of the code are easy to misread. The model follows the code in each:

- With fewer closes than the window, a moving average is the **last close**, not the mean of the closes available.
- RSI is replaced by 50 only when the ratio `gain / loss` is zero, that is when the average **gain** is zero and the average loss is positive. A strictly falling series therefore gives exactly 50, not a value below 50.
- RSI is undefined (NaN) with fewer than 14 closes, including a single close. It is also undefined on a flat window, where the ratio is 0/0.
- A zero average loss with a positive gain gives an infinite ratio and an RSI of 100.
- 14 closes already give a defined RSI. `delta.where(delta > 0, 0)` replaces the leading NaN difference with 0, so the 14-wide window is full at the 14th close.
- The saved report's `final_trade_decision` is always `"PENDING_LLM"`. The extracted decision is never written.
- The price position is not clamped to [0, 100].

## Model

| member | source | states |
|---|---|---|
| `Indicators.MovingAverage` | sh/main.lite.py:41-42 | with n ≥ w closes, the average times w is the sum of the last w closes; with n < w it is the last close |
| `Indicators.ShortHistoryIgnoresPrefix` | sh/main.lite.py:41-42 | while the window is still incomplete, earlier closes do not change the average |
| `Indicators.MovingAverageBounds` | sh/main.lite.py:41-42 | the average lies within the range of the last min(w, n) closes |
| `Indicators.SinglePointAverages` | sh/main.lite.py:41-42 | on a one-close history, MA5 and MA20 both equal that close |
| `Indicators.Gains` | sh/main.lite.py:45-46 | one gain per close, each non-negative, and 0 at the first close, whose difference is undefined |
| `Indicators.Losses` | sh/main.lite.py:45-47 | one loss magnitude per close, each non-negative, and 0 at the first close |
| `Indicators.GainsLossesSplit` | sh/main.lite.py:45-47 | after the first close, gain minus loss is the step between consecutive closes, and at most one of the two is non-zero; with non-negativity this makes the gain the rising part of the step and the loss the falling part |
| `Indicators.AverageGain` | sh/main.lite.py:46 | the 14-close average gain is non-negative |
| `Indicators.AverageLoss` | sh/main.lite.py:47 | the 14-close average loss is non-negative |
| `Indicators.Rsi` | sh/main.lite.py:45-49 | RSI is undefined exactly when there are fewer than 14 closes or both averages are zero; otherwise it lies in (0, 100] |
| `Indicators.RsiRatioRule` | sh/main.lite.py:48-49 | with a positive average loss: a zero gain gives exactly 50; a positive gain gives 100 − 100/(1+RS), strictly inside (0, 100) |
| `Indicators.RsiZeroLoss` | sh/main.lite.py:48-49 | a positive gain over a zero loss (RS infinite) gives 100 |
| `Indicators.RsiOfRisingSeries` | sh/main.lite.py:45-49 | a strictly rising series of at least 14 closes has RSI 100 |
| `Indicators.RsiOfFallingSeries` | sh/main.lite.py:45-49 | a strictly falling series of at least 14 closes has RSI 50 |
| `Indicators.RsiOfFlatSeries` | sh/main.lite.py:45-49 | a flat series of at least 14 closes has an undefined RSI (0/0) |
| `Indicators.Decay` | sh/main.lite.py:52-53 | the decay of `ewm(span=s)` lies in [0, 1) |
| `Indicators.TotalWeightAtLeastOne` | sh/main.lite.py:52-53 | the normalising weight of a non-empty history is at least 1, so the average is defined |
| `Indicators.WeightedAverageBounds` | sh/main.lite.py:52-55 | an adjust=True average lies within the range of its inputs |
| `Indicators.Ewm` | sh/main.lite.py:52-53 | `ewm(span=s).mean()` of a constant series is that constant |
| `Indicators.ConstantAverage` | sh/main.lite.py:52-53 | an adjust=True average of a constant series is that constant, whatever the decay |
| `Indicators.EwmBounds` | sh/main.lite.py:52-53 | `ewm(span=s).mean()` stays within the range of the closes |
| `Indicators.EwmTwoPoints` | sh/main.lite.py:52-53 | on two points the average is (x1 + b·x0)/(1 + b): adjust=True weighting, not the seeded recursion |
| `Indicators.MacdLine` | sh/main.lite.py:54 | one MACD value per close |
| `Indicators.FlatMacdLine` | sh/main.lite.py:52-54 | on a flat series every MACD value is 0 |
| `Indicators.Macd` | sh/main.lite.py:52-54 | the last MACD value is 0 on a flat series |
| `Indicators.MacdSignal` | sh/main.lite.py:54-55 | the signal line's last value is 0 on a flat series |
| `Indicators.MacdBounds` | sh/main.lite.py:52-55 | closes within [lo, hi] keep MACD and its signal within [lo − hi, hi − lo]; a flat series gives 0 for both |
| `Indicators.ComputeTechnicals` | sh/main.lite.py:39-56 | MA20 is the last close below 20 closes; below 5 closes MA5 equals MA20; a defined RSI lies in (0, 100] |
| `MarketData.Get` | sh/main.lite.py:62-67 | `d.get(k, v)`: the value under k when present, else the default |
| `MarketData.Get2` | sh/main.lite.py:60-61 | `d.get(a, d.get(b, v))`: the primary key, else the secondary, else the default |
| `MarketData.Closes` | sh/main.lite.py:40 | the close column, row by row |
| `MarketData.Records` | sh/main.lite.py:70 | one record per row, in order, each the row's prices and volume without its date |
| `MarketData.RecentRecords` | sh/main.lite.py:70 | min(10, n) records, the i-th being the record of row n − min(10, n) + i |
| `MarketData.RecentRecordsIsSuffix` | sh/main.lite.py:70 | a history of at most 10 rows is kept whole; a longer one keeps exactly its last 10 rows, in order |
| `MarketData.OlderRowsNotKept` | sh/main.lite.py:70 | rows before the last ten never reach the snapshot's history |
| `MarketData.GetStockData` | sh/main.lite.py:39-79 | no snapshot exactly when the history is empty; otherwise each field follows its fallback chain with default 0 (ticker for the company), the change is the raw value ×100, the market cap is the raw value /1e9, the history is the last min(10, n) rows, and the indicators come from all the closes |
| `MarketData.EmptyInfoDefaults` | sh/main.lite.py:60-69 | an empty info payload gives all quote fields 0 and the ticker as company |
| `MarketData.SingleRowSnapshot` | sh/main.lite.py:39-70 | one row gives one history record, both MAs equal to its close, and an undefined RSI |
| `Prompt.PricePosition` | sh/main.lite.py:89-93 | 50 when high ≤ low; otherwise the position times (high − low) equals (current − low) × 100 |
| `Prompt.SnapshotPosition` | sh/main.lite.py:85-93 | a snapshot with high ≤ low (the zero defaults of a missing quote included) gets 50; a price inside a proper range gets a position in [0, 100] |
| `Prompt.RangeEnds` | sh/main.lite.py:90-91 | the low maps to 0 and the high to 100 |
| `Prompt.PositionWithinRange` | sh/main.lite.py:90-91 | a price inside the range has a position in [0, 100] |
| `Prompt.PositionNotClamped` | sh/main.lite.py:90-91 | a price above the high gives more than 100, below the low less than 0 |
| `Prompt.PositionMonotone` | sh/main.lite.py:90-91 | a higher price never has a lower position |
| `Completion.AnalysisText` | sh/main.lite.py:154-156 | the content on success; on failure "LLM 调用失败: " followed by the error text, which can be recovered from it |
| `Completion.FailureDecision` | sh/main.lite.py:155-156 | the failure notice adds no keyword: a failed call decides as its error text alone would |
| `Completion.FailureHolds` | sh/main.lite.py:155-156 | a failed call whose error text has no B, b, S, s, ſ, ß, ﬅ, ﬆ, 买 or 卖 leads to HOLD |
| `Decisions.UpperChar` | sh/main.lite.py:233 | a-z shift to A-Z; every other character is unchanged |
| `Decisions.Upper` | sh/main.lite.py:233 | upper-casing keeps the length and maps every character |
| `Decisions.Contains` | sh/main.lite.py:233-235 | the left-to-right scan finds p in s exactly when p occurs in s at some position |
| `Decisions.ExtractDecision` | sh/main.lite.py:231-236 | BUY exactly when "BUY" is in the upper-cased text or "买入" in the text; SELL exactly when not BUY and "SELL" or "卖出" occurs; HOLD otherwise |
| `Decisions.BuyTakesPrecedence` | sh/main.lite.py:233-234 | a text with both buy and sell keywords is a BUY |
| `Decisions.AnyCaseBuy` | sh/main.lite.py:233 | any three characters that upper-case to "BUY" ("buy", "Buy", "bUy", …) make the text a BUY |
| `Decisions.NoKeywordHold` | sh/main.lite.py:232-236 | a text without B, b, S, s, without ſ, ß, ﬅ and ﬆ (which Python upper-cases to an S), and without 买 and 卖 is a HOLD |
| `Decisions.DecisionAfterPrefix` | sh/main.lite.py:233-236 | a prefix that upper-casing leaves alone and that holds no B, S, ſ, ß, ﬅ, ﬆ, 买 or 卖 does not change the decision |
| `Reports.ReportKey` | sh/main.lite.py:161-165 | the path is `eval_results/`, then the ticker, then `/TradingAgentsStrategy_logs/full_states_log_`, then the date, then `.json` |
| `Reports.ReportKeyInjective` | sh/main.lite.py:161-165 | for tickers without '/', different (ticker, date) pairs give different path strings |
| `Reports.MakeReport` | sh/main.lite.py:167-174 | the record holds the date, the ticker, the snapshot's company ("" without one), the analysis, the raw data, and "PENDING_LLM" |
| `Reports.ReportStore.Save` | sh/main.lite.py:159-179 | the file at the report's path is replaced by the new record; every other file is unchanged; the set of paths gains at most that path |
| `Reports.SaveTwice` | sh/main.lite.py:176-177 | saving twice to one path leaves only the second record there, and as many files as a single save |
| `Reports.RerunSameDay` | sh/main.lite.py:161-177 | two saves for the same ticker and date leave the second run's report at that path, every other file unchanged, and one file more at most |
| `Pipeline.RunLite` | sh/main.lite.py:203-236 | an empty history stops the run with nothing written; otherwise the analysis is the completion of the snapshot and its price position, the report is saved whatever the model call did, with the decision pending, and the returned decision is the rule applied to the analysis |

## Left out

- `sh/main.py` is not part of this model. It delegates to a graph class whose source is not available.
- `load_config`, the dotenv file, and the API-key check (sh/main.lite.py:17-27, 198-201) are environment I/O. `RunLite` starts after the check.
- The yfinance fetch (sh/main.lite.py:32-36) is not modelled. The info payload and the price history are parameters, so the `days` argument has no counterpart.
- The OpenAI client call (sh/main.lite.py:138-154) is not modelled. It is a parameter mapping the snapshot and its price position to an outcome, which stands for the completion of the prompt built from them.
- The prompt template text and the rendering of the history lines (sh/main.lite.py:95-132) are formatting. Only the price position they show is modelled.
- `round` on the indicators (sh/main.lite.py:72-76) is not modelled. Neither are `:.2f`-style formatting, float arithmetic, or NaN or infinite input prices: the model works on exact reals.
- Indicators.Rsi: NaN is `None`. An infinite ratio is handled exactly as IEEE arithmetic gives it, which yields 100. No other NaN propagation is modelled.
- The `hasattr(..., 'iloc')` fallbacks to 0 (sh/main.lite.py:75-76) are not modelled, because a pandas Series always has `iloc`.
- `macd_hist` (sh/main.lite.py:56) is computed but never used, so it is not modelled.
- The history columns other than open, high, low, close and volume (dividends, stock splits) are not modelled.
- Indicators.MacdLine: the contract states only the length. Bounds on the values are stated by `Indicators.MacdBounds`.
- Info values that are `None` or not numbers are not modelled; every info field is a number or absent. In Python a `None` value behaves differently per field:
  - `regularMarketChangePercent` and `marketCap` raise at `* 100` and `/ 1e9` (sh/main.lite.py:62, 65);
  - `currentPrice` raises at the `:.2f` print (sh/main.lite.py:211);
  - `fiftyTwoWeekHigh` and `fiftyTwoWeekLow` raise at `high > low` (sh/main.lite.py:90);
  - `trailingPE` and `trailingEPS` raise at `:.2f` in the prompt (sh/main.lite.py:117-118);
  - `volume`, `averageVolume` and the names never raise and are saved as null.
- A completion whose content is `None`, and a history without a Date index, are not modelled either.
- Decisions.UpperChar: only ASCII a-z are upper-cased, one character at a time; see the next line.
- Decisions.Upper: only ASCII a-z are upper-cased. Python's `str.upper` also maps other scripts' letters, and some map to several characters (`ß` becomes `SS`). So a text containing such letters can decide differently: Python decides SELL on "ſell" or "ßell", which the model decides HOLD. `Decisions.NoKeywordHold` and `Completion.FailureHolds` exclude ſ, ß, ﬅ and ﬆ, the letters whose upper case contains an S, so they hold of the program too.
- Creating the directory, opening and writing the file, JSON encoding, and `date.today()` are not modelled. The date is a parameter, and paths are plain strings without normalisation. A ticker containing '/' would name a nested directory. Key injectivity is proved only for tickers without '/'.
- The console output of `main` and its argument parsing are not modelled.
