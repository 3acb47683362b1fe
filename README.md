# stocks-web core in Dafny

This project models the computational core of stocks-web, a stock-market web application. The core has four parts:

- **Client-side charting engine** (`wasm/src/lib.rs`):
  - Largest-Triangle-Three-Buckets downsampling;
  - the simple and exponential moving averages;
  - Wilder's Relative Strength Index;
  - the cumulative volume-weighted average price;
  - relevance-ranked symbol search.
- **NYSE market calendar** (`backend/internal/market/status.go`):
  - the Easter computation and Good Friday;
  - observed fixed-date holidays and the floating Monday/Thursday holidays;
  - regular trading hours, the next-open search and the market-status record.
- **Per-client token-bucket rate limiter** (`backend/internal/auth/ratelimit.go`):
  - refill, admit and deny;
  - eviction of idle buckets;
  - the client-address rule.
- **Request-parameter logic of the instrument endpoints** (`backend/internal/handlers/instruments.go`):
  - integer query parameters with Go's `strconv.Atoi`;
  - pagination;
  - the numbered SQL placeholders of the list query and their arguments;
  - the total page count;
  - interval and limit validation;
  - symbol upper-casing.

Modules:

| module | file | models |
|---|---|---|
| `ChartTypes` | chart_types.dfy | the records `DataPoint`, `PricePoint`, `IndicatorPoint`, `SymbolEntry` |
| `Downsample` | downsample.dfy | `lttb_downsample_impl` |
| `Indicators` | indicators.dfy | `calc_sma_impl`, `calc_ema_impl`, `calc_rsi_impl`, `calc_vwap_impl` |
| `SymbolSearch` | symbol_search.dfy | `filter_symbols_impl` |
| `Strings` | strings.dfy | ASCII case mapping, prefix/substring tests, `strings.TrimSpace`, `strings.Index`/`LastIndex`, byte-wise string order |
| `Dates` | dates.dfy | the proleptic Gregorian calendar that Go's `time.Date`, `Weekday` and `AddDate` provide |
| `MarketStatus` | market_status.dfy | `status.go` |
| `RateLimit` | rate_limit.dfy | `ratelimit.go`; the limiter is a class whose bucket table is a `map` field |
| `Instruments` | instruments.dfy | the parameter handling of `instruments.go` |
| `Wrappers` | wrappers.dfy | `Option` and `Result` |
| `Arith` | arith.dfy | products of non-negative numbers, shared by the proofs |

Each loop of the source is a `method` with a `while` or `for` loop:
- the LTTB loops;
- the indicator loops;
- the scoring loop of the search;
- the next-open search;
- the cleanup loop.

Each such method is proved equal to a reference function. The list handler's condition builder, four `if`s in sequence, is a straight-line method (`Instruments.BuildFilters`) proved against the filters requested. The properties are proved as lemmas about that function.

Modelling conventions:
- `f64` values are `real`. Rounding and NaN are not modelled.
- The Go times of `status.go` are Eastern local date-times at minute granularity (`DateTime`).
- The rate limiter's `time.Time` is an integer count of nanoseconds.
- Go's `int` is 64 bits. `strconv.Atoi` rejects values outside that range, and the model does too.
- `calc_vwap_impl` writes 0.0, not the bar's typical price, while the cumulative volume is zero (wasm/src/lib.rs:276), and it never resets its running sums on time gaps. The model follows the code: `Indicators.VwapZeroBeforeVolume` states the first, and `Indicators.VwapIgnoresTimestamps` the second.
- The LTTB `max(1)` guard on the next bucket's length never applies when the series is reduced. `Downsample.NextBucketNonEmpty` proves this.

## Model

| member | source | states |
|---|---|---|
| `Downsample.Points` | wasm/src/lib.rs:9-12 | selecting indices of a `DataPoint` series yields exactly those points, in order |
| `Downsample.BucketSize` | wasm/src/lib.rs:70 | when reducing, the bucket size exceeds 1 and threshold-2 buckets cover the len-2 interior points |
| `Downsample.ScaleBucket` | wasm/src/lib.rs:76-82 | scaling bucket numbers by a size above 1 keeps their order and separates distinct ones by more than one point |
| `Downsample.EdgeFacts` | wasm/src/lib.rs:76-82 | the bucket boundaries increase strictly; the last interior boundary is len-1; the one after reaches len |
| `Downsample.EdgeArith` | wasm/src/lib.rs:76-82 | the real-number bounds behind the boundaries: edge i lies in [i+1, len-1] and the next one is more than one point further |
| `Downsample.LastEdgeArith` | wasm/src/lib.rs:76-82 | the boundary after the last bucket lies past len-1 |
| `Downsample.EdgeMonotone` | wasm/src/lib.rs:76-82 | boundaries are monotone in the bucket number |
| `Downsample.Area` | wasm/src/lib.rs:106-108 | the doubled triangle area is never negative |
| `Downsample.FirstMaxArea` | wasm/src/lib.rs:98-114 | the chosen index lies in the candidate bucket |
| `Downsample.FirstMaxAreaIsFirstMax` | wasm/src/lib.rs:98-114 | the chosen index has the largest area, and no earlier index has an equal area (strict `>`) |
| `Downsample.FirstMaxUnique` | wasm/src/lib.rs:110 | at most one index is the first maximum, so the tie-break is determined |
| `Downsample.NextBucketCount` | wasm/src/lib.rs:87 | the next bucket's length, guarded to at least 1 |
| `Downsample.NextBucketNonEmpty` | wasm/src/lib.rs:85-93 | for every interior bucket the next bucket is a non-empty range inside the data, so the guard never applies |
| `Downsample.Pick` | wasm/src/lib.rs:74-118 | the point kept from bucket i lies inside bucket i and is neither the first nor the last point |
| `Downsample.Picks` | wasm/src/lib.rs:74-118 | one kept interior index per remaining bucket |
| `Downsample.PicksInBuckets` | wasm/src/lib.rs:74-118 | the m-th kept index lies in bucket i+m |
| `Downsample.PickInBucket` | wasm/src/lib.rs:74-118 | the same at a single position |
| `Downsample.PicksIncreasing` | wasm/src/lib.rs:74-118 | the kept indices strictly increase, so the output preserves time order |
| `Downsample.PicksAreFirstMaxima` | wasm/src/lib.rs:98-117 | each kept index is the first largest-area point of its bucket, measured against the previously kept point and the next bucket's average |
| `Downsample.PicksStep` | wasm/src/lib.rs:116-117 | the kept sequence starts with this bucket's pick followed by the picks made from it as the new `prev` |
| `Downsample.PointsSnoc` | wasm/src/lib.rs:116 | pushing a point extends the output by that point |
| `Downsample.Lttb` | wasm/src/lib.rs:52-123 | the reference LTTB series; `LttbPassThrough`, `LttbReduced` and `LttbUnfold` state its properties and `LttbDownsample` computes it |
| `Downsample.LttbPassThrough` | wasm/src/lib.rs:56-61 | an empty series, a threshold below 3 or at least the length returns the data unchanged |
| `Downsample.LttbReduced` | wasm/src/lib.rs:56-123 | when reducing, the output has exactly `threshold` points; it keeps the first and last points; every other point is a data point from its own bucket, in increasing order |
| `Downsample.LttbUnfold` | wasm/src/lib.rs:66-121 | the output is the first point, the kept interior points and the last point |
| `Downsample.BucketAverage` | wasm/src/lib.rs:85-93 | the loop computes the mean timestamp and value of the next bucket |
| `Downsample.LargestTriangle` | wasm/src/lib.rs:98-114 | the loop finds the first index of largest area |
| `Downsample.SelectInBucket` | wasm/src/lib.rs:76-117 | one outer iteration keeps `Pick` of the bucket |
| `Downsample.SelectStep` | wasm/src/lib.rs:74-118 | one outer iteration preserves the loop's progress invariant |
| `Downsample.SelectAll` | wasm/src/lib.rs:74-118 | the outer loop keeps exactly the points of `Picks` |
| `Downsample.LttbDownsample` | wasm/src/lib.rs:52-123 | the method returns the reference LTTB series |
| `Indicators.CloseSumFirst` | wasm/src/lib.rs:135-139 | a window sum is its first close plus the rest |
| `Indicators.WindowSlide` | wasm/src/lib.rs:142-148 | sliding the window adds the new close and subtracts the dropped one |
| `Indicators.CloseSumWithin` | wasm/src/lib.rs:135-139 | n closes in [low, high] sum to within [n·low, n·high] |
| `Indicators.MeanWithin` | wasm/src/lib.rs:139 | the mean of a window lies within the closes' range |
| `Indicators.Sma` | wasm/src/lib.rs:127-151 | the SMA has len-period+1 points when 0 < period <= len, else none |
| `Indicators.SmaEmptyIff` | wasm/src/lib.rs:128-130 | the SMA is empty exactly when period is 0 or exceeds the length |
| `Indicators.SmaPeriodOne` | wasm/src/lib.rs:494-530 | with period 1 every close is reproduced at its own timestamp |
| `Indicators.SmaPoint` | wasm/src/lib.rs:139-147 | SMA point k is the mean of closes k..k+period |
| `Indicators.SmaWithin` | wasm/src/lib.rs:127-151 | every SMA value lies within the range of the closes |
| `Indicators.SmaPointWithin` | wasm/src/lib.rs:127-151 | the same at a single SMA point |
| `Indicators.CalcSma` | wasm/src/lib.rs:127-151 | the sliding-sum loop returns the reference SMA |
| `Indicators.EmaK` | wasm/src/lib.rs:162 | the multiplier 2/(period+1) lies in (0, 1] |
| `Indicators.Ema` | wasm/src/lib.rs:157-184 | the EMA has the SMA's length rule |
| `Indicators.EmaStartsAtSma` | wasm/src/lib.rs:165-171 | the EMA has the SMA's guard and length, and its first point is the first SMA point |
| `Indicators.EmaRecurrence` | wasm/src/lib.rs:174-181 | each later point is close·k + previous·(1-k), stamped with its bar |
| `Indicators.EmaValue` | wasm/src/lib.rs:165-181 | the EMA value at bar i: the first SMA at bar period-1, then close·k + previous·(1-k); `EmaValueStep` and `EmaValueWithin` state its properties |
| `Indicators.EmaValueStep` | wasm/src/lib.rs:176-178 | the same recurrence on the underlying values |
| `Indicators.EmaValueWithin` | wasm/src/lib.rs:157-184 | the EMA never leaves the closes' range |
| `Indicators.Blend` | wasm/src/lib.rs:177 | a convex blend of two values in a range stays in it |
| `Indicators.EmaWithin` | wasm/src/lib.rs:157-184 | every EMA value lies within the range of the closes |
| `Indicators.CalcEma` | wasm/src/lib.rs:157-184 | the running `prev_ema` loop returns the reference EMA |
| `Indicators.Gain` | wasm/src/lib.rs:204-210 | the gain part of a change is non-negative |
| `Indicators.Loss` | wasm/src/lib.rs:204-210 | the loss part of a change is non-negative |
| `Indicators.Wilder` | wasm/src/lib.rs:237-238 | Wilder smoothing keeps averages non-negative, keeps them positive after a positive input, and keeps zero at zero |
| `Indicators.RsiValue` | wasm/src/lib.rs:214-222 | RSI lies in [0, 100], and strictly inside when both averages are positive |
| `Indicators.RsiBounds` | wasm/src/lib.rs:220-221 | 100/(1+rs) lies strictly between 0 and 100 for positive rs |
| `Indicators.RsiAt` | wasm/src/lib.rs:214-247 | the RSI at a bar lies in [0, 100] |
| `Indicators.Rsi` | wasm/src/lib.rs:190-256 | the RSI has len-period points when period >= 1 and len >= period+1, else none |
| `Indicators.RsiShape` | wasm/src/lib.rs:191-193 | the RSI is empty exactly when period is 0 or len < period+1; its first point is stamped with bar `period` |
| `Indicators.AvgsNonNegative` | wasm/src/lib.rs:201-238 | the smoothed average gain and loss are non-negative |
| `Indicators.SumsNonNegative` | wasm/src/lib.rs:201-211 | the initial gain and loss sums are non-negative |
| `Indicators.RsiInRange` | wasm/src/lib.rs:190-256 | every RSI value lies in [0, 100] |
| `Indicators.RisingNoLoss` | wasm/src/lib.rs:229-238 | strictly rising closes give a zero average loss at every bar |
| `Indicators.RisingNoLossSum` | wasm/src/lib.rs:201-211 | strictly rising closes give a zero initial loss sum |
| `Indicators.RsiAtNoLoss` | wasm/src/lib.rs:215-216 | a zero average loss gives RSI 100 |
| `Indicators.RsiAtNoGain` | wasm/src/lib.rs:217-218 | a zero average gain with a positive average loss gives RSI 0 |
| `Indicators.RsiPoint` | wasm/src/lib.rs:214-247 | RSI point k is the RSI at bar period+k |
| `Indicators.RisingPoint` | wasm/src/lib.rs:595 | on strictly rising closes, each RSI point is 100 |
| `Indicators.RisingAt` | wasm/src/lib.rs:240-241 | on strictly rising closes, the RSI at every bar from `period` on is 100 |
| `Indicators.RsiAllGains` | wasm/src/lib.rs:595 | strictly rising closes give RSI 100 everywhere |
| `Indicators.FallingSums` | wasm/src/lib.rs:201-211 | strictly falling closes give a zero gain sum and a positive loss sum |
| `Indicators.FallingAvgs` | wasm/src/lib.rs:229-238 | strictly falling closes give a zero average gain and a positive average loss |
| `Indicators.FallingAvgsAt` | wasm/src/lib.rs:214-247 | strictly falling closes give RSI 0 at each bar |
| `Indicators.FallingPoint` | wasm/src/lib.rs:612 | on strictly falling closes, each RSI point is 0 |
| `Indicators.RsiAllLosses` | wasm/src/lib.rs:612 | strictly falling closes give RSI 0 everywhere |
| `Indicators.InitialAverages` | wasm/src/lib.rs:201-212 | the first loop computes the initial average gain and loss |
| `Indicators.WilderStep` | wasm/src/lib.rs:230-238 | one smoothing step computes the next averages |
| `Indicators.RsiOf` | wasm/src/lib.rs:240-247 | the RSI branch yields the reference RSI |
| `Indicators.CalcRsi` | wasm/src/lib.rs:190-256 | the loops return the reference RSI series |
| `Indicators.RsiPrefixStep` | wasm/src/lib.rs:228-252 | appending the point of bar i to the RSI series so far gives the next prefix of the reference series |
| `Indicators.Vwap` | wasm/src/lib.rs:262-285 | one VWAP point per bar, stamped with that bar |
| `Indicators.VwapFirstBar` | wasm/src/lib.rs:272-276 | a first bar with volume has VWAP equal to its typical price |
| `Indicators.CumPrefix` | wasm/src/lib.rs:271-275 | the running sums depend only on the bars so far |
| `Indicators.VwapValue` | wasm/src/lib.rs:270-277 | the cumulative typical-price volume over the cumulative volume, or 0.0 while no volume has traded; `VwapZeroBeforeVolume`, `VwapFirstBar` and `VwapWithin` state its properties |
| `Indicators.VwapPrefix` | wasm/src/lib.rs:262-285 | each VWAP value depends only on the bars so far: the VWAP of a prefix is the prefix of the VWAP |
| `Indicators.CumSameBars` | wasm/src/lib.rs:268-274 | bars with the same prices and volumes give the same running sums, whatever their timestamps |
| `Indicators.VwapIgnoresTimestamps` | wasm/src/lib.rs:262-285 | the VWAP never resets on time gaps: two series that agree on high, low, close and volume have equal VWAP values at every bar |
| `Indicators.VwapZeroBeforeVolume` | wasm/src/lib.rs:276 | while no volume has traded the VWAP is 0.0 |
| `Indicators.NoVolume` | wasm/src/lib.rs:274-276 | bars without volume accumulate zero volume |
| `Indicators.CumWithin` | wasm/src/lib.rs:271-275 | with non-negative volumes, the cumulative `tp·vol` lies between low·vol and high·vol |
| `Indicators.ScaledStep` | wasm/src/lib.rs:273-274 | one more bar preserves those bounds |
| `Indicators.VwapWithin` | wasm/src/lib.rs:262-285 | once volume has traded, the VWAP lies within the range of the typical prices |
| `Indicators.QuotientWithin` | wasm/src/lib.rs:276 | dividing the bounded sum by a positive volume stays in range |
| `Indicators.CalcVwap` | wasm/src/lib.rs:262-285 | the running-sum loop returns the reference VWAP |
| `Strings.Lower` | wasm/src/lib.rs:306 | lower-casing keeps the length and maps each character |
| `Strings.Upper` | backend/internal/handlers/instruments.go:393 | upper-casing keeps the length and maps each character |
| `Strings.LowerIdempotent` | wasm/src/lib.rs:311-312 | lower-casing twice is lower-casing once, and leaves no capital |
| `Strings.UpperIdempotent` | backend/internal/handlers/instruments.go:182 | upper-casing twice is upper-casing once, and leaves no small letter |
| `Strings.PrefixContained` | wasm/src/lib.rs:314-326 | a prefix is also a substring, so the prefix rule is checked before the substring rule |
| `Strings.StrLeTotal` | wasm/src/lib.rs:336 | the symbol order is total |
| `Strings.StrLeTransitive` | wasm/src/lib.rs:336 | the symbol order is transitive |
| `Strings.StrLeAntisymmetric` | wasm/src/lib.rs:336 | the symbol order is antisymmetric |
| `Strings.LeadingSpace` | backend/internal/handlers/instruments.go:53-56 | the count of leading white space is maximal |
| `Strings.TrailingSpace` | backend/internal/handlers/instruments.go:53-56 | the count of trailing white space is maximal |
| `Strings.TrimSpace` | backend/internal/handlers/instruments.go:53-56 | the trimmed text neither starts nor ends with white space; it is empty exactly when the input is all white space |
| `Strings.TrimSpaceSlice` | backend/internal/handlers/instruments.go:53-56 | the trimmed text is a slice of the input |
| `Strings.IndexOf` | backend/internal/auth/ratelimit.go:105-106 | the first occurrence of a character, or -1 exactly when it is absent |
| `Strings.LastIndexOf` | backend/internal/auth/ratelimit.go:115 | the last occurrence of a character, or -1 exactly when it is absent |
| `SymbolSearch.Score` | wasm/src/lib.rs:314-326 | a score is one of 0, 20, 40, 60, 80, 100 |
| `SymbolSearch.ScoreLadder` | wasm/src/lib.rs:314-326 | each score is given exactly when its rule is the first that applies (exact symbol, symbol prefix, symbol substring, name prefix, name substring, none) |
| `SymbolSearch.ScoreCaseInsensitive` | wasm/src/lib.rs:306-312 | the score depends only on the lower-cased symbol, name and query |
| `SymbolSearch.Matches` | wasm/src/lib.rs:328-332 | only positive scores are kept, at most one per entry |
| `SymbolSearch.MatchesFromEntries` | wasm/src/lib.rs:328-332 | every match comes from an entry and carries that entry's score |
| `SymbolSearch.MatchesComplete` | wasm/src/lib.rs:328-332 | every entry with a positive score is among the matches |
| `SymbolSearch.LeTotal` | wasm/src/lib.rs:336 | the comparator (score descending, then symbol ascending) is total |
| `SymbolSearch.LeTransitive` | wasm/src/lib.rs:336 | the comparator is transitive |
| `SymbolSearch.Insert` | wasm/src/lib.rs:336 | insertion adds exactly one element |
| `SymbolSearch.InsertSorted` | wasm/src/lib.rs:336 | insertion into a sorted sequence keeps it sorted |
| `SymbolSearch.SortEntries` | wasm/src/lib.rs:336 | sorting permutes its input |
| `SymbolSearch.SortEntriesSorted` | wasm/src/lib.rs:336 | the sorted output is sorted by the comparator |
| `SymbolSearch.Unscore` | wasm/src/lib.rs:339-345 | dropping the scores keeps symbol and name, position by position |
| `SymbolSearch.FilterSymbols` | wasm/src/lib.rs:297-345 | at most `max_results` entries are returned |
| `SymbolSearch.FilterEmptyQuery` | wasm/src/lib.rs:302-304 | an empty query returns the first `max_results` entries in input order |
| `SymbolSearch.RankedFacts` | wasm/src/lib.rs:328-336 | every ranked match is an input entry with its own positive score, and the ranking is sorted |
| `SymbolSearch.FilterRanked` | wasm/src/lib.rs:306-337 | a non-empty query returns min(max_results, matches) entries, each matching, ordered by score descending then symbol ascending |
| `SymbolSearch.FilterDropsOnlyLowerRanked` | wasm/src/lib.rs:336-337 | a matching entry is either returned or the output is full of entries ranked no lower |
| `SymbolSearch.ScoreEntries` | wasm/src/lib.rs:309-333 | the scoring loop yields the reference matches |
| `SymbolSearch.FilterSymbolsImpl` | wasm/src/lib.rs:297-345 | the method returns the reference search result |
| `Dates.DaysInMonth` | backend/internal/market/status.go:96-101 | a month has 28 to 31 days |
| `Dates.Weekday` | backend/internal/market/status.go:59-62 | the weekday lies in 0..6 |
| `Dates.NextDay` | backend/internal/market/status.go:100 | the next day is a valid date |
| `Dates.PrevDay` | backend/internal/market/status.go:189-198 | the previous day is a valid date |
| `Dates.AddDays` | backend/internal/market/status.go:96-101 | k days later is a valid date |
| `Dates.DaysBeforeNextYear` | backend/internal/market/status.go:100 | January 1 of the next year is one year-length later |
| `Dates.MonthsFillYear` | backend/internal/market/status.go:100 | the months fill the year |
| `Dates.NextDayNumber` | backend/internal/market/status.go:100 | the next day advances the day number and the weekday by one |
| `Dates.PrevDayNumber` | backend/internal/market/status.go:189-198 | the previous day moves back by one and `NextDay` undoes it |
| `Dates.WeekdayShift` | backend/internal/market/status.go:189-198 | dates n days apart are n weekdays apart modulo 7 |
| `Dates.AddDaysNumber` | backend/internal/market/status.go:96-101 | adding k days adds k to the day number |
| `Dates.AddDaysSucc` | backend/internal/market/status.go:100 | adding one more day is taking the next day |
| `Dates.DayNumberInjective` | backend/internal/market/status.go:96-101 | day numbers identify dates |
| `Dates.MonthOrder` | backend/internal/market/status.go:96-101 | earlier months start earlier |
| `Dates.YearsGrow` | backend/internal/market/status.go:96-101 | earlier years start earlier |
| `Dates.YearOrder` | backend/internal/market/status.go:96-101 | every date of an earlier year has a smaller day number |
| `MarketStatus.ComputeEaster` | backend/internal/market/status.go:208-225 | Easter is a valid date of the given year, between March 22 and April 25 |
| `MarketStatus.EasterH` | backend/internal/market/status.go:209-216 | the epact step h lies in 0..29 |
| `MarketStatus.EasterL` | backend/internal/market/status.go:217-220 | the weekday step l lies in 0..6 |
| `MarketStatus.EasterOffset` | backend/internal/market/status.go:221-224 | Easter's offset from March 22 lies in 0..34 |
| `MarketStatus.Easter2024` | backend/internal/market/status.go:208-225 | Easter 2024 is March 31, a Sunday |
| `MarketStatus.Easter2025` | backend/internal/market/status.go:208-225 | Easter 2025 is April 20, a Sunday |
| `MarketStatus.Easter2000` | backend/internal/market/status.go:208-225 | Easter 2000 is April 23, a Sunday |
| `MarketStatus.GoodFriday` | backend/internal/market/status.go:202-205 | Good Friday is a valid date of the same year |
| `MarketStatus.GoodFridayFacts` | backend/internal/market/status.go:202-205 | Good Friday is exactly two days before Easter, in March or April |
| `MarketStatus.GoodFridayWeekday` | backend/internal/market/status.go:202-205 | Good Friday's weekday is Easter's minus two |
| `MarketStatus.GoodFriday2024` | backend/internal/market/status.go:149-152 | Good Friday 2024 is March 29, an exchange holiday |
| `MarketStatus.ObservedDate` | backend/internal/market/status.go:189-198 | the observed day is a valid date |
| `MarketStatus.ObservedDateFacts` | backend/internal/market/status.go:189-198 | the observed day is a weekday: Saturday goes to the Friday before, Sunday to the Monday after, weekdays stay |
| `MarketStatus.PrevWeekday` | backend/internal/market/status.go:192-193 | the previous day's weekday is one less |
| `MarketStatus.HolidayDate` | backend/internal/market/status.go:125-136 | each fixed holiday is a valid date of the year |
| `MarketStatus.IsObservedFixedHoliday` | backend/internal/market/status.go:175-186 | a day matches when its month and day are those of the holiday's observed date in the day's year; `ObservedFixedHolidayOnWeekday` and `DecemberThirtyFirst` state what this comparison decides |
| `MarketStatus.ObservedFixedHolidayOnWeekday` | backend/internal/market/status.go:175-186 | a weekday matching an observed holiday's month and day is that year's observed holiday |
| `MarketStatus.DecemberThirtyFirst` | backend/internal/market/status.go:175-186 | when January 1 is a Saturday, December 31 of the same year is a Saturday or a Sunday, so the year-free comparison, which does mark that day, never closes a trading day |
| `MarketStatus.FixedHolidaysObserved` | backend/internal/market/status.go:125-136 | every fixed holiday's observed date in its own year is an exchange holiday |
| `MarketStatus.FloatingHolidayWindows` | backend/internal/market/status.go:139-165 | the day windows are the documented rules: 15-21 is the third occurrence, 22-28 the fourth, 1-7 the first, and in May day 25 or later the last |
| `MarketStatus.IsNYSEHoliday` | backend/internal/market/status.go:118-170 | the observed fixed holidays, Good Friday and the floating holidays; `FixedHolidaysObserved`, `FloatingHolidayWindows`, `GoodFriday2024` and `KnownHolidays` state its cases |
| `MarketStatus.IsTradingDay` | backend/internal/market/status.go:60-68 | a trading day is neither a weekend day nor a holiday, the test `isNYSEOpen` and `nextMarketOpen` share; `KnownTradingDay` and `OpenHours` use it |
| `MarketStatus.KnownHolidays` | backend/internal/market/status.go:118-170 | Thanksgiving 2024, MLK Day 2025 and the observed Christmas Eve 2021 / Christmas 2022 are holidays |
| `MarketStatus.KnownTradingDay` | backend/internal/market/status.go:56-75 | March 28, 2024 is a trading day |
| `MarketStatus.IsNYSEOpen` | backend/internal/market/status.go:56-75 | closed on weekends and holidays, otherwise open from 09:30 inclusive to 16:00 exclusive; `OpenHours` states it in terms of trading days |
| `MarketStatus.OpenHours` | backend/internal/market/status.go:56-75 | never open on a non-trading day; on a trading day, open exactly from 09:30 inclusive to 16:00 exclusive |
| `MarketStatus.TodayClose` | backend/internal/market/status.go:78-81 | the close is 16:00 on the same day |
| `MarketStatus.FirstFrom` | backend/internal/market/status.go:96-101 | the search result is a valid date |
| `MarketStatus.FirstFromOffset` | backend/internal/market/status.go:96-103 | the result is the first day satisfying the test within the window, or the day after the window |
| `MarketStatus.FirstFromIsFirst` | backend/internal/market/status.go:96-103 | the same, as an existential |
| `MarketStatus.TradingDay` | backend/internal/market/status.go:97 | the loop's test on a valid date; `FirstAfter` and `NextOpenIsNext` state the search over it |
| `MarketStatus.SearchTradingDay` | backend/internal/market/status.go:96-103 | the search over trading days yields a valid date |
| `MarketStatus.NextOpen` | backend/internal/market/status.go:84-104 | the next open is a valid 09:30 date-time |
| `MarketStatus.FirstAfter` | backend/internal/market/status.go:95-103 | the search from tomorrow returns the date k days ahead, with 1 <= k <= 15 and no trading day skipped |
| `MarketStatus.NextOpenIsNext` | backend/internal/market/status.go:84-104 | the next open is today at 09:30 exactly when that is ahead on a trading day; else the first trading day within 14 days; no trading day in between |
| `MarketStatus.NextMarketOpen` | backend/internal/market/status.go:84-104 | the method computes the reference next open |
| `MarketStatus.SearchFrom` | backend/internal/market/status.go:96-101 | the 14-step loop yields the first satisfying day |
| `MarketStatus.GetMarketStatus` | backend/internal/market/status.go:34-53 | open iff trading hours; when open, the next close is today 16:00 with no next open; when closed, the reverse; the matching message |
| `MarketStatus.StatusTimesAhead` | backend/internal/market/status.go:34-53 | when open, the close is later the same day; when closed, the open is at 09:30 on a day no earlier than today, and on a later day unless now is before 09:30 |
| `RateLimit.Refill` | backend/internal/auth/ratelimit.go:71-76 | the refilled tokens never exceed capacity |
| `RateLimit.RefillGrows` | backend/internal/auth/ratelimit.go:71-76 | as time moves forward, the refilled tokens are at least the smaller of the tokens held and the capacity, and saturate at capacity |
| `RateLimit.Decide` | backend/internal/auth/ratelimit.go:56-84 | the bucket is stamped now; a new key is admitted with capacity-1 tokens; a known key is admitted iff the refilled tokens reach 1 |
| `RateLimit.DecideTokens` | backend/internal/auth/ratelimit.go:78-83 | a denial keeps the refilled tokens; an admission deducts exactly one |
| `RateLimit.DecideKeepsBounded` | backend/internal/auth/ratelimit.go:56-84 | `allow` keeps every bucket at or below capacity |
| `RateLimit.DecideKeepsNonNegative` | backend/internal/auth/ratelimit.go:56-84 | with capacity >= 1 and a monotonic clock, tokens never go negative |
| `RateLimit.DenialIsStable` | backend/internal/auth/ratelimit.go:78-80 | a denied request repeated at the same instant is denied again |
| `RateLimit.Stale` | backend/internal/auth/ratelimit.go:91-93 | a bucket is idle when it was last checked more than ten minutes before now; `EvictExactly` states that exactly these are removed |
| `RateLimit.Evict` | backend/internal/auth/ratelimit.go:87-96 | eviction only removes keys |
| `RateLimit.EvictExactly` | backend/internal/auth/ratelimit.go:91-95 | exactly the buckets idle for more than ten minutes are removed; the rest are unchanged |
| `RateLimit.EvictIdempotent` | backend/internal/auth/ratelimit.go:87-96 | cleaning twice is cleaning once, and cleaning keeps the capacity bound |
| `RateLimit.EvictedKeyStartsOver` | backend/internal/auth/ratelimit.go:61-68 | an evicted client is treated as new: admitted with capacity-1 |
| `RateLimit.CheckedKeySurvives` | backend/internal/auth/ratelimit.go:91 | a bucket just checked survives a cleanup at the same time |
| `RateLimit.RateLimiter.constructor` | backend/internal/auth/ratelimit.go:24-29 | rate is requests-per-minute/60 per second; the capacity is requests-per-minute; the table starts empty |
| `RateLimit.RateLimiter.Allow` | backend/internal/auth/ratelimit.go:56-84 | returns `Decide`'s verdict, updates only the key's bucket, and keeps the capacity invariant |
| `RateLimit.RateLimiter.Cleanup` | backend/internal/auth/ratelimit.go:87-96 | the table becomes `Evict` of the old table, and the capacity invariant is kept |
| `RateLimit.ClientIP` | backend/internal/auth/ratelimit.go:102-118 | the address is drawn from the three inputs |
| `RateLimit.ClientIPForwarded` | backend/internal/auth/ratelimit.go:103-109 | with X-Forwarded-For, the address is its first comma-free entry, trimmed |
| `RateLimit.ClientIPForwardedHasNoComma` | backend/internal/auth/ratelimit.go:103-109 | that address holds no comma |
| `RateLimit.ClientIPReal` | backend/internal/auth/ratelimit.go:110-112 | otherwise a present X-Real-IP is used, trimmed |
| `RateLimit.ClientIPRemote` | backend/internal/auth/ratelimit.go:114-118 | otherwise the remote address up to its last colon, or all of it without a colon |
| `Instruments.DigitValue` | backend/internal/handlers/instruments.go:660 | the value `strconv.Atoi` gives a decimal digit is below 10 |
| `Instruments.ParseInt` | backend/internal/handlers/instruments.go:660 | `strconv.Atoi` accepts only non-empty text and yields values in the 64-bit range |
| `Instruments.ParsedShape` | backend/internal/handlers/instruments.go:660 | whatever parses is an optional sign followed by digits whose value is the result |
| `Instruments.ParseSignedDigits` | backend/internal/handlers/instruments.go:660 | conversely, an empty, `+` or `-` sign followed by digits parses to its value when that fits in `int`, and is rejected when it does not |
| `Instruments.ParseUnsignedDigits` | backend/internal/handlers/instruments.go:660 | the same without a sign |
| `Instruments.ParseSignDigits` | backend/internal/handlers/instruments.go:660 | the same with a `+` or `-` sign |
| `Instruments.ParsePlusDigits` | backend/internal/handlers/instruments.go:660 | the same with `+` |
| `Instruments.ParseMinusDigits` | backend/internal/handlers/instruments.go:660 | the same with `-`, where the value is negated |
| `Instruments.ParseExamples` | backend/internal/handlers/instruments.go:660-663 | leading zeros and signs are accepted; empty text, a bare sign, spaces and decimals are rejected |
| `Instruments.DigitChar` | backend/internal/handlers/instruments.go:660 | the digit character of d has value d |
| `Instruments.FormatNat` | backend/internal/handlers/instruments.go:660 | decimal text is non-empty digits with no leading zero |
| `Instruments.FormatInt` | backend/internal/handlers/instruments.go:660 | decimal text of an integer is non-empty |
| `Instruments.DigitsOfFormat` | backend/internal/handlers/instruments.go:660 | the digits of n have value n |
| `Instruments.ParseFormatted` | backend/internal/handlers/instruments.go:660 | Atoi of the decimal text of any 64-bit integer gives it back |
| `Instruments.ParseNonNegative` | backend/internal/handlers/instruments.go:660 | the same for non-negative values |
| `Instruments.ParseNegative` | backend/internal/handlers/instruments.go:660 | the same for negative values |
| `Instruments.IntQueryParam` | backend/internal/handlers/instruments.go:655-665 | an absent or unparseable parameter gives the default; otherwise the parsed value |
| `Instruments.IntQueryParamFormatted` | backend/internal/handlers/instruments.go:655-665 | a parameter holding the text of an `int` yields that value |
| `Instruments.OptionalOrder` | backend/internal/handlers/instruments.go:63-82 | one optional filter is in order |
| `Instruments.OptionalHas` | backend/internal/handlers/instruments.go:63-82 | an optional filter is present exactly when its value is non-empty, and binds its argument |
| `Instruments.ConcatOrder` | backend/internal/handlers/instruments.go:63-82 | filters of increasing ranks stay in order when concatenated |
| `Instruments.ConcatHas` | backend/internal/handlers/instruments.go:63-82 | a filter is in a concatenation iff it is in either part |
| `Instruments.BindsOnlyConcat` | backend/internal/handlers/instruments.go:63-82 | a filter's binding survives concatenation with parts lacking it |
| `Instruments.RequestedInOrder` | backend/internal/handlers/instruments.go:63-82 | at most one condition per filter, at most four, in the fixed order search, asset class, exchange, country |
| `Instruments.RequestedExactly` | backend/internal/handlers/instruments.go:63-82 | a filter is applied exactly when its value is non-empty |
| `Instruments.RequestedSearchPattern` | backend/internal/handlers/instruments.go:63-67 | the search filter binds the search text between `%` wildcards |
| `Instruments.ClampPageSize` | backend/internal/handlers/instruments.go:43-49 | the page size lies in 1..200, and a size in range is kept |
| `Instruments.Paginate` | backend/internal/handlers/instruments.go:39-50 | the page is 1 when the parsed request is below 1, and the parsed request otherwise; the size is `ClampPageSize` of the parsed request, with 50 as the default; the offset is (page-1)·size and non-negative |
| `Instruments.Wrap` | backend/internal/handlers/instruments.go:50 | 64-bit wrap-around lands in range, is the identity in range, and differs from its input by a multiple of 2^64 |
| `Instruments.WrappedOffset` | backend/internal/handlers/instruments.go:50 | the offset `(page - 1) * pageSize` in 64-bit arithmetic; `OffsetOverflows` and `OffsetExactBelowBound` state where it wraps and where it is exact |
| `Instruments.OffsetOverflows` | backend/internal/handlers/instruments.go:39-50 | page 2^63-1 with page size 200 is accepted, and the 64-bit offset wraps to -400 |
| `Instruments.OffsetAtMaxPage` | backend/internal/handlers/instruments.go:50 | page 2^63-1 with page size 200 wraps the offset to -400 |
| `Instruments.OffsetExactBelowBound` | backend/internal/handlers/instruments.go:50 | up to page (2^63-1)/200+1 the 64-bit offset is exact |
| `Instruments.BoundedPaginate` | backend/internal/handlers/instruments.go:39-50 | the corrected pagination: the page is also capped at (2^63-1)/200+1, and the offset computed in 64-bit arithmetic is then exactly (page-1)·size and non-negative |
| `Instruments.ProductBound` | backend/internal/handlers/instruments.go:50 | the product stays within the 64-bit range below that bound |
| `Instruments.AddFilter` | backend/internal/handlers/instruments.go:63-82 | appending a condition numbers it with the next placeholder and binds its argument |
| `Instruments.AddFilterIfSet` | backend/internal/handlers/instruments.go:63-82 | one `if` of the handler appends a condition only when its value is set |
| `Instruments.BuildFilters` | backend/internal/handlers/instruments.go:53-82 | the conditions after `is_active` are the requested filters of the trimmed values, numbered $1, $2, ... in order and bound to their arguments; a search names its placeholder twice |
| `Instruments.PagedArgs` | backend/internal/handlers/instruments.go:131-134 | the data query's arguments are the filter arguments, then the page size, then the offset |
| `Instruments.List` | backend/internal/handlers/instruments.go:34-134 | the page and the page size follow from the parameters exactly as in `Paginate`, and the offset is (page-1)·size; the numbered conditions match the requested filters; LIMIT and OFFSET take the two placeholders after the filters and bind the page size and the offset |
| `Instruments.PlaceholdersInRange` | backend/internal/handlers/instruments.go:59-134 | every placeholder a condition names is an argument of the count query |
| `Instruments.Ceil` | backend/internal/handlers/instruments.go:167 | rounding up gives the least integer at or above x |
| `Instruments.TotalPages` | backend/internal/handlers/instruments.go:167 | the row count over the page size rounded up; `TotalPagesCover` states that it is the least page count holding all rows |
| `Instruments.TotalPagesCover` | backend/internal/handlers/instruments.go:167 | totalPages is the least number of pages holding all rows: ceil(count/size), and 0 for no rows |
| `Instruments.CeilingDivision` | backend/internal/handlers/instruments.go:167 | that least number is (count+size-1)/size |
| `Instruments.ValidateInterval` | backend/internal/handlers/instruments.go:399-410 | an absent interval means 1d; an interval is accepted exactly when it is one of the seven; otherwise the error message |
| `Instruments.LimitOrDefault` | backend/internal/handlers/instruments.go:412-415 | a value in range is kept; any other is replaced by the default |
| `Instruments.PriceLimit` | backend/internal/handlers/instruments.go:412-415 | the bar limit lies in 1..5000 |
| `Instruments.FundamentalsLimit` | backend/internal/handlers/instruments.go:330-333 | the fundamentals limit lies in 1..100 |
| `Instruments.LimitsHonoured` | backend/internal/handlers/instruments.go:330-333 | in-range limits are taken, out-of-range ones fall back to 500 or 20, while the page size clamps instead |
| `Instruments.NormalizeSymbol` | backend/internal/handlers/instruments.go:182-186 | the result is an error exactly for an empty symbol, with "symbol is required"; otherwise the upper-cased symbol |
| `Instruments.NormalizeSymbolIdempotent` | backend/internal/handlers/instruments.go:271-275 | a normalised symbol has no small letters and normalises to itself |
| `Instruments.PricesParams` | backend/internal/handlers/instruments.go:393-415 | the symbol is checked first ("symbol is required"), then the interval (its error message); an accepted request is the upper-cased symbol, the validated interval and `PriceLimit` of the limit parameter, which lies in 1..5000 |
| `Instruments.FundamentalsParams` | backend/internal/handlers/instruments.go:324-333 | the request fails exactly for an empty symbol, with "symbol is required"; an accepted one is the upper-cased symbol and `FundamentalsLimit` of the limit parameter, which lies in 1..100 |

## Left out

- The wasm-bindgen and serde wrappers around each `_impl` function, and the JSON (de)serialisation of the records: these are glue code.
- IEEE-754 rounding, NaN and infinities: `f64` is modelled as `real`.
- `Downsample`: the `as usize` truncation of `floor(i * bucket_size + 1)` is modelled as the integer floor of a non-negative real.
- `Strings.Lower`, `Strings.Upper`: Rust's `to_lowercase` and Go's `strings.ToUpper` map all of Unicode; the model maps ASCII letters only.
- `SymbolSearch.SortEntries`: `sort_by` is modelled as an insertion sort on values. The output is proved sorted and a permutation of its input; stability among equal keys is not stated.
- The time-zone database and `time.Now()`: the status functions take an Eastern local date-time. Daylight-saving transitions and seconds are not modelled.
- The `Checker` wrapper `IsMarketOpen` in `status.go`: it only calls `isNYSEOpen` with the clock.
- `Dates`: dates before year 1 are not modelled.
- `MarketStatus.ComputeEaster`: that the result is a Sunday is proved only for the years checked (2000, 2024, 2025), not for every year.
- `RateLimit`: the mutex, the cleanup goroutine and its ticker, and the HTTP middleware that answers 429 are concurrency or I/O. Only the methods they call are modelled.
- `Instruments`: the SQL text, the database calls, the JSON responses and the HTTP status codes are I/O. The model states the conditions, placeholders and arguments that are sent.
- `Instruments.Paginate`, `Instruments.List`: the offset is the exact product (page-1)·pageSize, so `offset >= 0` holds in the model for every page; the 64-bit wrap-around of instruments.go:50 above page (2^63-1)/200+1 is modelled separately by `Instruments.WrappedOffset` and `Instruments.OffsetOverflows`.
- `Instruments.TotalPages`: the `float64` conversion of the row count is modelled exactly, so rounding of counts above 2^53 is not captured.
- `Instruments`: the RFC 3339 parsing of `from`/`to` in `Prices` (lines 417-433) relies on Go's time parser, which is not part of this model.
- `Instruments`: `Detail` and `Profile` are modelled through `NormalizeSymbol` alone; the rest of them is database access.
- backend/internal/handlers/api_v1.go repeats the same parameter rules for the API-key endpoints and is not part of this model. The same goes for stocks.go, stream.go, the authentication handlers, config, db and main.

## Findings

| source | as written | input that shows it | evidently intended | confidence | as-written member | corrected member |
|---|---|---|---|---|---|---|
| backend/internal/handlers/instruments.go:39-50 | `page` is bounded only below, and `offset := (page - 1) * pageSize` is 64-bit `int` arithmetic | `page=9223372036854775807&page_size=200` gives offset -400 after wrap-around | a non-negative row offset equal to (page-1)·pageSize, e.g. by bounding `page` | not executed | `Instruments.OffsetOverflows` | `Instruments.BoundedPaginate` |
