# Stock analyzer: indicators, support/resistance and buy-signal scoring

This project models the analysis core of a small stock-screening tool. For each ticker the
tool takes a daily history of closing prices and volumes. It computes technical indicators:

- RSI(14);
- EMA- and SMA-based MACD(12, 26, 9);
- SMA 20/50/200;
- Bollinger bands(20, 2);
- the 20-day average volume;
- the 52-week range.

It finds support and resistance levels, scores the latest bar as a buy signal and maps the
score to STRONG BUY / MODERATE BUY / HOLD / AVOID.

The repository carries the same pipeline three times:

- `stock_analyzer.js`: command line, prints a report and ranks the tickers;
- `api-server.js`: an Express endpoint scoring the same eight factors plus signal tags, with a stricter Bollinger rule (`DetailedScore.ServerBands`);
- `api/analyze.js`: a serverless handler with lighter indicators and an additive score.

The model is one set of Dafny modules. Each difference between the copies is a configuration
value:

- `Analysis.Variant`;
- `Macd.MacdMode`;
- `DetailedScore.BandRule`;
- `Batch.Endpoint`.

Modules, bottom-up:

- `Optional`: JavaScript `undefined`/`NaN` slots as `None`. Comparisons with `None` are false. Also `arr[arr.length - 1]` and "push if defined".
- `Bars`: bars with positive closes and non-negative volumes.
- `RealSeq`: sums, means, min and max, and `slice(-k)`.
- `Windows`: SMA and EMA.
- `RelativeStrength`: RSI.
- `Macd`: MACD.
- `Bollinger`: Bollinger bands.
- `VolumeStats`: average volume and the volume ratio.
- `Range52`: the 52-week range.
- `Sorting`: a stable numeric-comparator sort and `filter`.
- `Levels`: the clustering support/resistance detector of the two detailed copies.
- `VolumeLevels`: the volume-ranked detector of the serverless copy.
- `Recommendation`: the latest reading, the 75/50/25 bands and the signal text.
- `DetailedScore`: the eight-factor fractional score.
- `LightScore`: the additive score.
- `Analysis`: `analyzeStock` per variant.
- `Batch`: the per-ticker request loops, the result records and `analyzeAll`.

Arithmetic is over exact reals. `Math.sqrt` and the market-data request are function
parameters.

## Model

| member | source | states |
|---|---|---|
| Bars.Closes | stock_analyzer.js:234 | the close series has one positive entry per bar, in bar order |
| Bars.Volumes | stock_analyzer.js:235 | the volume series has one non-negative entry per bar, in bar order |
| Optional.JsLength | api/analyze.js:120-126 | the length of an index-filled array is one past its last assigned slot, and every later slot is a hole |
| Optional.JsLastOfSuffix | api/analyze.js:120-126 | for an array assigned exactly from some index on, `arr[arr.length-1]` is its last slot |
| Optional.Present | stock_analyzer.js:456-463 | the pushed values are drawn from the defined slots |
| Optional.PresentComplete | stock_analyzer.js:456-463 | every defined slot's value is pushed |
| Optional.PresentAppend | stock_analyzer.js:456-463 | pushing commutes with concatenation, so the pushed values keep slot order |
| Optional.PresentMembers | stock_analyzer.js:456-463 | a value is pushed exactly when some slot holds it |
| RealSeq.SumBounds | stock_analyzer.js:63-75 | a windowed sum lies between length×lower bound and length×upper bound of its terms |
| RealSeq.SumConstant | stock_analyzer.js:63-75 | the sum of a constant window is its length times the constant |
| RealSeq.SumZeroAllZero | stock_analyzer.js:135-147 | a zero sum of non-negative terms (volumes) forces every term to zero |
| RealSeq.NonNegSum | stock_analyzer.js:135-147 | a sum of non-negative volumes is non-negative |
| RealSeq.MeanBounds | stock_analyzer.js:63-75 | a mean lies within any bounds of its terms |
| RealSeq.MeanNonNeg | stock_analyzer.js:174 | the mean of non-negative volumes is non-negative and scales back to their sum |
| RealSeq.MeanConstant | stock_analyzer.js:63-75 | the mean of a constant window is that constant |
| RealSeq.MaxOf | stock_analyzer.js:150-159 | `Math.max` is an upper bound attained by some element |
| RealSeq.MinOf | stock_analyzer.js:150-159 | `Math.min` is a lower bound attained by some element |
| Windows.Window | stock_analyzer.js:63-75 | the window ending at i holds exactly the p values before and including i |
| Windows.Sma | stock_analyzer.js:63-75 | SMA slots are defined exactly from index p−1 on |
| Windows.SmaWithinWindow | stock_analyzer.js:63-75 | a defined SMA lies within any bounds of the closes in its window |
| Windows.SmaOfConstant | stock_analyzer.js:63-75 | on a constant series every defined SMA equals the constant |
| Windows.Multiplier | stock_analyzer.js:43-60 | the smoothing factor 2/(p+1) lies in (0, 1] |
| Windows.EmaAt | stock_analyzer.js:43-60 | the EMA's seed at index p−1 is the SMA slot at that index |
| Windows.Ema | stock_analyzer.js:43-60 | one slot per input value, defined exactly from index p−1 on (the short-series case is under Left out) |
| Windows.EmaSeedIsSma | stock_analyzer.js:47-52 | the EMA seed at index p−1 is the SMA of the first p values |
| Windows.EmaStepIsConvex | stock_analyzer.js:55-57 | each EMA step is price×k + previous×(1−k) |
| Windows.EmaStepBetween | stock_analyzer.js:55-57 | one EMA step stays within any bounds that hold the previous EMA and the new price |
| Windows.EmaWithinRange | stock_analyzer.js:43-60 | the EMA never leaves any bounds of the values seen so far |
| Windows.EmaBetweenMinMax | stock_analyzer.js:43-60 | the EMA at i lies between the minimum and the maximum of the prefix up to i |
| RelativeStrength.Gains | stock_analyzer.js:23-33 | the summed gains of a window are non-negative |
| RelativeStrength.Losses | stock_analyzer.js:23-33 | the summed losses of a window are non-negative |
| RelativeStrength.RsiFrom | stock_analyzer.js:33-36 | RSI is NaN iff there is neither gain nor loss; 100 with gains only; 0 with losses only; otherwise 100·g/(g+l), strictly inside (0, 100) when both are present |
| RelativeStrength.RatioForm | stock_analyzer.js:33-36 | `100 − 100/(1 + avgGain/avgLoss)` equals 100·g/(g+l) |
| RelativeStrength.Rsi | stock_analyzer.js:17-40 | the RSI array keeps the input's length, is undefined before index p and lies in [0, 100] where defined |
| RelativeStrength.RsiSlot | stock_analyzer.js:20-37 | slot i is undefined below p and a percentage where defined |
| RelativeStrength.NoMovement | stock_analyzer.js:23-33 | a window has no gain and no loss iff consecutive closes are equal throughout |
| RelativeStrength.RsiUndefinedIffFlat | api-server.js:12-30 | RSI is NaN at a valid index exactly when its 14-change window is flat |
| RelativeStrength.RisingWindow | stock_analyzer.js:23-33 | strictly rising closes give zero losses and positive gains |
| RelativeStrength.FallingWindow | stock_analyzer.js:23-33 | strictly falling closes give zero gains and positive losses |
| RelativeStrength.RsiOfRisingSeries | stock_analyzer.js:17-40 | a strictly rising series has RSI 100 at every valid index |
| RelativeStrength.RsiOfFallingSeries | stock_analyzer.js:17-40 | a strictly falling series has RSI 0 at every valid index |
| Macd.MacdLine | stock_analyzer.js:82-87 | the MACD line is defined exactly where both EMAs are, and there it is fast EMA minus slow EMA |
| Macd.Rank | stock_analyzer.js:89 | the number of defined slots before i is at most i |
| Macd.RankOfPrefix | stock_analyzer.js:89 | counting defined slots before i ignores the array past i |
| Macd.RankMonotone | stock_analyzer.js:91-101 | the count of defined slots grows with the index, strictly past a defined slot |
| Macd.Compact | stock_analyzer.js:89 | filtering out undefined values keeps each defined value at its rank, and the count equals the number of defined slots |
| Macd.AlignFrom | stock_analyzer.js:91-101 | the alignment loop stores, at each index from i on, the signal entry of that MACD value's rank |
| Macd.AlignedSignal | stock_analyzer.js:89-101 | the aligned signal is defined exactly at defined MACD slots of rank at least signal−1, and equals the EMA of the compacted line at that rank |
| Macd.Histogram | stock_analyzer.js:103-108 | the histogram is defined exactly where MACD and signal are, and there equals their difference |
| Macd.FullMacd | stock_analyzer.js:78-111 | the three output arrays keep the input's length, with the definedness and values above |
| Macd.MacdFor | api/analyze.js:52-62 | only the full mode has a signal line; every mode's MACD line is EMA12 − EMA26 |
| Macd.RankOfDefinedSuffix | stock_analyzer.js:91-101 | when the slots are defined exactly from s on, the rank at i is max(0, i−s) |
| Macd.DefaultMacdStart | stock_analyzer.js:78-111 | with periods 12/26/9 the MACD starts at index 25, and the signal and histogram at index 33 |
| Bollinger.SquaredDeviations | stock_analyzer.js:120-124 | a sum of squared deviations is non-negative |
| Bollinger.Variance | stock_analyzer.js:120-124 | the population variance of a window is non-negative |
| Bollinger.BollingerBands | stock_analyzer.js:114-132 | the middle band is the SMA; the upper and lower bands are defined from index p−1 on and sit k·sqrt(variance) above and below it |
| Bollinger.BandsOrdered | stock_analyzer.js:114-132 | lower ≤ middle ≤ upper wherever defined, for a non-negative sqrt and k |
| Bollinger.FlatSeriesZeroWidth | stock_analyzer.js:114-132 | on a constant series all three bands equal the constant |
| Bollinger.BbPosition | stock_analyzer.js:274-276 | the position is defined iff both bands are and differ; it places the price at position% of the way from lower to upper, and lies in [0, 100] for a price inside the bands |
| VolumeStats.AverageVolume | stock_analyzer.js:135-147 | the average is defined from index p−1 on, is non-negative, and times p is the window's volume sum |
| VolumeStats.VolumeRatio | stock_analyzer.js:289 | the ratio is defined iff the average is defined and non-zero, and ratio × average = current volume |
| VolumeStats.ZeroAverageMeansZeroVolume | stock_analyzer.js:289 | a zero 20-day average forces the current volume to zero, so the JavaScript quotient is 0/0 (NaN), never Infinity |
| VolumeStats.AverageVolume20 | api/analyze.js:131 | with 20 or more bars it equals the last 20-day average; with fewer it is their sum divided by 20 |
| Range52.Week52 | stock_analyzer.js:150-159 | high and low bound every close of the last 252 and are each attained by one of them |
| Range52.DistanceFromHighMeaning | stock_analyzer.js:262 | "more than t% below the high" holds iff price < high·(1 − t/100) |
| Range52.DistancesNonNegative | stock_analyzer.js:262-263 | for positive closes the high and low are positive, both distances of the latest close are non-negative, and the distance from the high is below 100% |
| Range52.FromHighBounds | stock_analyzer.js:262 | a price in (0, high] is in [0, 100)% below the high |
| Range52.FromLowBound | stock_analyzer.js:263 | a price at or above the low is a non-negative % above it |
| Range52.PlaceLatest | stock_analyzer.js:245-263 | the placement uses the 52-week high and low and the latest close; fromHigh ∈ [0, 100), fromLow ≥ 0 |
| Range52.PositiveLow | stock_analyzer.js:263 | the 52-week low of positive closes is positive, so the division is defined |
| Sorting.Insert | stock_analyzer.js:471 | insertion adds exactly one element and loses none |
| Sorting.InsertSorted | stock_analyzer.js:471 | inserting into a sorted list keeps it sorted |
| Sorting.SortBy | stock_analyzer.js:471 | the sort is a permutation of its input, sorted by the comparator's key |
| Sorting.InsertStable | stock_analyzer.js:471 | insertion appends the new element to the run of equal keys |
| Sorting.SortStable | stock_analyzer.js:471 | elements with equal keys keep their input order |
| Sorting.WithKeyAppend | stock_analyzer.js:471 | selecting one key's elements commutes with concatenation |
| Sorting.WithKeyAll | api/analyze.js:82 | when every element has the key, selecting it keeps the whole list |
| Sorting.Filter | api/analyze.js:86-87 | `filter` keeps only passing input elements and every passing one; a one-element input is kept iff it passes |
| Sorting.FilterAppend | stock_analyzer.js:211-212 | filtering distributes over concatenation, so passing elements keep their order and multiplicity |
| Sorting.FilterWithKey | stock_analyzer.js:208-212 | filtering commutes with selecting the elements of one sort key |
| Sorting.FilterSorted | api/analyze.js:86-87 | filtering a sorted list keeps it sorted |
| Sorting.SameMembers | stock_analyzer.js:471 | a permutation has the same members |
| Levels.ExtremaAt | stock_analyzer.js:176-188 | one scan step pushes at most one extremum: a heavy-volume strict peak as resistance, a heavy-volume strict trough as support, and every such one |
| Levels.ExtremaBelow | stock_analyzer.js:171-189 | the scan so far pushes only genuine extrema, in increasing index order |
| Levels.ExtremaBelowComplete | stock_analyzer.js:171-189 | every heavy-volume strict peak and trough below the bound is pushed |
| Levels.Scan | stock_analyzer.js:171-189 | the scan of a window yields genuine extrema in index order, and nothing for a window of at most 4 bars |
| Levels.ScanExact | stock_analyzer.js:171-189 | an extremum at i is found iff its volume exceeds 0.8× the window average and it is a strict 2-neighbour peak (resistance) or trough (support) |
| Levels.ScanSound | stock_analyzer.js:171-189 | whatever the scan finds is a heavy-volume strict peak or trough of the stated kind |
| Levels.ScanComplete | stock_analyzer.js:171-189 | every heavy-volume strict peak or trough of the stated kind is found |
| Levels.NoIndexBothKinds | stock_analyzer.js:176-188 | no bar is reported as both a support and a resistance |
| Levels.NoExtremaBelow | stock_analyzer.js:171-189 | without strict peaks or troughs nothing is pushed |
| Levels.FlatWindowNoExtrema | stock_analyzer.js:171-189 | a constant window yields no extrema |
| Levels.FlatSeriesNoExtrema | stock_analyzer.js:162-189 | a constant price series yields no extrema |
| Levels.Extrema | stock_analyzer.js:162-189 | the extrema are in bar order, each at an interior index of the last min(60, n) bars and priced at that bar's close |
| Levels.ScanPosition | stock_analyzer.js:170-185 | a found extremum sits at an interior window index and carries that bar's price |
| Levels.Joins | stock_analyzer.js:194-196 | for a positive price, an extremum joins a group iff the kinds agree and the group lies strictly within 2% of the extremum's price; a negative price joins any group of its kind, a zero price none |
| Levels.WithinTwoPercent | stock_analyzer.js:195 | the relative-difference test is a strict ±2% band around a positive price, and always passes for a negative one |
| Levels.FindFrom | stock_analyzer.js:194-196 | `find` returns the first group within 2% of the price and of the same kind, or none exists |
| Levels.AddExtremum | stock_analyzer.js:193-204 | an extremum joining no group opens a new group of count 1 at its price; otherwise only the first joinable group changes, to count + 1 at the midpoint of its price and the extremum's |
| Levels.Cluster | stock_analyzer.js:192-205 | every group's count is at least one |
| Levels.CountOfUpdate | stock_analyzer.js:197-200 | replacing one group changes only that group's share of its kind's count |
| Levels.CountOfAppend | stock_analyzer.js:201-203 | appending a new group adds its count to its kind's total |
| Levels.AddExtremumCounts | stock_analyzer.js:193-204 | one clustering step raises the total count of the extremum's kind by exactly one |
| Levels.ClusterConservesCounts | stock_analyzer.js:192-205 | clustering loses no extremum and mixes no kinds: each kind's group counts sum to its number of extrema |
| Levels.ClusterExample | stock_analyzer.js:197-200 | resistances at 100 and 101 merge into one level at 100.5 with count 2 |
| Levels.PrefixHoldsLargest | stock_analyzer.js:208-213 | a group outside the first two of a count-ranked list has a count no larger than the second one |
| Levels.FirstTwo | stock_analyzer.js:210-213 | `slice(0, 2)` keeps a prefix of min(2, n) entries, in non-increasing count order, and any dropped group counts no more than the last kept one |
| Levels.TopOfKind | stock_analyzer.js:208-213 | at most two groups of the kind are kept, in non-increasing count order; one is left out only when two with at least its count are kept; among equal counts the kept ones are the first discovered, in discovery order |
| Levels.PrefixKeepsTieOrder | stock_analyzer.js:208-213 | any prefix of the ranked groups of a kind holds, for each count, the first-discovered groups with that count, in discovery order |
| Levels.RankingKeepsDiscoveryOrder | stock_analyzer.js:208 | groups with equal counts stay in discovery order after ranking |
| Levels.DetectLevels | stock_analyzer.js:162-214 | support and resistance are each the top two groups of that kind among the clustered extrema: members of the clustering, by non-increasing count, none left out with a higher count than the second kept, ties kept in discovery order |
| Levels.FlatSeriesNoLevels | stock_analyzer.js:162-214 | a constant series has no support and no resistance |
| VolumeLevels.Pair | api/analyze.js:81 | each price is paired with its own bar's volume |
| VolumeLevels.TopByVolume | api/analyze.js:82-83 | the first min(10, n) entries by volume are a sub-multiset of the input, no entry left out is heavier than a kept one, and among equal volumes the earliest bars are kept, in bar order |
| VolumeLevels.CutKeepsTieOrder | api/analyze.js:82-83 | any prefix of the stable volume ranking holds, per volume, the first bars of that volume in bar order |
| VolumeLevels.EqualVolumesKeepEarliest | api/analyze.js:82-83 | with more than ten bars of one volume, the candidates are exactly the first ten bars |
| VolumeLevels.SameVolumeCut | api/analyze.js:83 | among entries of a single volume, keeping a prefix of that volume's entries is keeping a prefix of the list |
| VolumeLevels.PrefixKeepsHeaviest | api/analyze.js:82-83 | a prefix of a heaviest-first permutation dominates everything cut off |
| VolumeLevels.TopFromInput | api/analyze.js:83 | every candidate is an input entry |
| VolumeLevels.SupportOf | api/analyze.js:84-89 | support exists iff a candidate lies below the price, and is then the highest such candidate |
| VolumeLevels.ResistanceOf | api/analyze.js:84-90 | resistance exists iff a candidate lies above the price, and is then the lowest such candidate |
| VolumeLevels.FindLevels | api/analyze.js:80-92 | support is strictly below and resistance strictly above the latest close |
| VolumeLevels.LevelsAreCloses | api/analyze.js:80-92 | every level is the close of some bar |
| VolumeLevels.CandidateIsClose | api/analyze.js:81-83 | a candidate's price is some bar's close |
| VolumeLevels.ShortSeriesUsesAllBars | api/analyze.js:83-89 | with at most ten bars, any close below the latest bounds the support from below |
| Recommendation.Recommend | stock_analyzer.js:432-440 | STRONG BUY iff score ≥ 75, MODERATE iff 50 ≤ score < 75, HOLD iff 25 ≤ score < 50, AVOID iff score < 25 |
| Recommendation.RecommendMonotone | stock_analyzer.js:432-440 | a higher score never gets weaker advice |
| Recommendation.BandEdgesInclusive | stock_analyzer.js:432-440 | each band edge belongs to the stronger advice |
| Recommendation.Join | api-server.js:324 | joining nothing gives "", one part gives that part, and the result starts with the first part |
| Recommendation.JoinAppend | api-server.js:324 | appending a part appends the separator and the part, which with the one-part case fixes `join` completely |
| Recommendation.SignalText | api-server.js:324 | no tags give "None"; otherwise the comma-joined tags |
| Recommendation.JoinLength | api-server.js:324 | the joined text is the parts' total length plus one separator between each pair |
| DetailedScore.RsiFactor | stock_analyzer.js:320-329 | full credit iff RSI < 30, half iff 30 ≤ RSI < 40, and a tag exactly with credit |
| DetailedScore.MacdFactor | stock_analyzer.js:332-345 | no credit iff MACD is not above the signal; full iff it is above now and not before; never full without a previous value |
| DetailedScore.TrendFactor | stock_analyzer.js:348-359 | full iff price > SMA20 > SMA50, none iff price < SMA20 < SMA50, half otherwise (including when an average is missing) |
| DetailedScore.LongTrendFactor | stock_analyzer.js:362-368 | full iff price > SMA200, never half |
| DetailedScore.BandsFactor | stock_analyzer.js:371-382 | full iff position < 20; the command line gives none iff position > 80, the server gives none unless position ≤ 60 |
| DetailedScore.BandRulesDiffer | api-server.js:272-279 | the two Bollinger rules give different credit exactly when the position is undefined (NaN) or lies in (60, 80] |
| DetailedScore.VolumeFactor | stock_analyzer.js:385-393 | full iff ratio > 1.2, none iff not > 0.8 |
| DetailedScore.RangeFactor | stock_analyzer.js:396-404 | full iff more than 20% below the high, none iff at most 10% |
| DetailedScore.AnyNear | stock_analyzer.js:407-422 | true iff some level lies within 2% of the price |
| DetailedScore.SupportFactor | stock_analyzer.js:407-422 | full iff a support is within 2% (even if a resistance is too); none iff only a resistance is; half when neither is |
| DetailedScore.Factors | stock_analyzer.js:316-422 | exactly eight factors are evaluated |
| DetailedScore.TagsMarkCredit | api-server.js:235-310 | only RSI and MACD tag a half credit; every other factor tags exactly its full credit |
| DetailedScore.CreditsAppend | stock_analyzer.js:316-422 | the running credit sum is additive over concatenation |
| DetailedScore.CreditsAreHalves | stock_analyzer.js:316-422 | the credit sum is a whole number of halves |
| DetailedScore.Score | stock_analyzer.js:429 | the score is 6.25 per half credit, and lies in [0, 100] for at most eight factors |
| DetailedScore.ScoreGrid | stock_analyzer.js:429 | the score is a whole number of sixteenths of 100, in [0, 100] |
| DetailedScore.SixCreditsIsStrongBuy | stock_analyzer.js:429-434 | six credits out of eight already reach STRONG BUY |
| DetailedScore.TagsFollowFactorOrder | api-server.js:235-310 | the tags of earlier factors precede those of later ones |
| DetailedScore.TagOfFactorListed | api-server.js:235-310 | every tag a factor carries is in the list, and there is at most one tag per factor |
| DetailedScore.Evaluate | stock_analyzer.js:429-440 | the score is in [0, 100], the advice is the band of the score, and there are at most eight tags |
| DetailedScore.ShortHistoryCredits | stock_analyzer.js:316-422 | without RSI, MACD, SMAs, Bollinger position or volume ratio: RSI, MACD, long trend and volume earn nothing, the trend earns half, and the Bollinger factor earns half on the command line and nothing on the server |
| DetailedScore.CopiesDifferOnlyInBands | api-server.js:235-310 | both copies compute the same factor everywhere except the Bollinger one |
| DetailedScore.MissingPositionGap | stock_analyzer.js:371-382 | without a Bollinger position the command line scores exactly 6.25 points more than the server |
| DetailedScore.CreditsSplit | stock_analyzer.js:316-422 | the credits split around the Bollinger factor |
| LightScore.Round2 | api/analyze.js:132-137 | `toFixed(2)` moves a value by at most half a cent and keeps a non-negative one non-negative |
| LightScore.Round2Slot | api/analyze.js:132 | rounding keeps NaN as NaN |
| LightScore.Round2Monotone | api/analyze.js:132-137 | rounding never reorders two values |
| LightScore.Round2Threshold | api/analyze.js:167-170 | a rounded comparison agrees with the exact one except within half a cent of the threshold |
| LightScore.RsiRule | api/analyze.js:144-150 | +25 iff RSI < 30, −15 iff RSI > 70, nothing for an undefined RSI |
| LightScore.MacdRule | api/analyze.js:152-155 | +20 iff MACD > 0 |
| LightScore.ShortAveragesRule | api/analyze.js:157-160 | +20 iff the price is above both SMA20 and SMA50 |
| LightScore.UptrendRule | api/analyze.js:162-165 | +15 iff SMA20 > SMA50 > SMA200 |
| LightScore.VolumeRule | api/analyze.js:167-170 | +10 iff the rounded ratio > 1.2 |
| LightScore.BandsRule | api/analyze.js:172-177 | +15 iff position < 20, −10 iff > 80, with a tag only for the bonus |
| LightScore.SupportRule | api/analyze.js:179-182 | +10 iff a truthy support has the price within 2% above it |
| LightScore.RecoveryRule | api/analyze.js:184-187 | +10 iff more than 5% above the low and more than 30% below the high |
| LightScore.Rules | api/analyze.js:141-187 | exactly eight rules are evaluated |
| LightScore.TotalOfEight | api/analyze.js:141-187 | the score is the sum of the eight contributions |
| LightScore.ScoreRange | api/analyze.js:141-187 | the unclamped score is a multiple of 5 in [−25, 125] |
| LightScore.Total | api/analyze.js:141-187 | contributions that are multiples of 5 sum to a multiple of 5 |
| LightScore.ScoreLowerBoundReached | api/analyze.js:141-187 | the lower bound −25 is reached |
| LightScore.Evaluate | api/analyze.js:141-198 | the score is a multiple of 5 in [−25, 125], a negative score means AVOID, and the advice is the band of the score |
| Analysis.LatestSma | stock_analyzer.js:249-253 | the latest SMA exists iff there are p bars, and is the mean of the last p closes |
| Analysis.LatestVolumeRatio | stock_analyzer.js:289 | the latest average exists iff there are 20 bars; the ratio exists iff that average is non-zero |
| Analysis.LatestVolumeRatioMeaning | stock_analyzer.js:289 | latest ratio × latest average = latest volume |
| Analysis.LatestRsi | stock_analyzer.js:249-253 | no RSI with 14 bars or fewer; a percentage after |
| Analysis.LatestMacd | api-server.js:214-232 | MACD exists from 26 bars, the previous MACD from 27, the signal from 34, the previous signal from 35 |
| Analysis.LatestBands | stock_analyzer.js:274-276 | the latest bands exist iff there are 20 bars and lie symmetrically around the mean of the last 20 closes; the position needs distinct bands |
| Analysis.LatestBandsPosition | stock_analyzer.js:274-276 | the latest position places the latest close between the latest bands |
| Analysis.IndexedReading | stock_analyzer.js:238-289 | the reading is taken at the latest bar: its close, RSI in range, 52-week distances in range |
| Analysis.IndexedMacdDefined | stock_analyzer.js:249-253 | which MACD values the detailed copies see, by history length |
| Analysis.IndexedMacdIsLatest | stock_analyzer.js:249-253 | the detailed reading's MACD values are those at latestIndex and prevIndex |
| Analysis.IndexedAveragesDefined | stock_analyzer.js:249-253 | which moving averages the detailed copies see, by history length |
| Analysis.LastElementReading | api/analyze.js:120-137 | the serverless reading uses the latest close, has no signal line, and always has an average volume |
| Analysis.LastElementIsLatestIndex | api/analyze.js:120-126 | reading the last array element gives the same values as reading the latest index |
| Analysis.LastSmaIsLatest | api/analyze.js:122-124 | `sma[sma.length-1]` is the latest SMA |
| Analysis.LastBandsAreLatest | api/analyze.js:125-128 | the last band elements are the latest bands |
| Analysis.LastMacdIsLatest | api/analyze.js:121 | the last MACD element is the latest MACD |
| Analysis.ServerlessVolumeRatio | api/analyze.js:131-132 | with at least 20 bars both copies divide by the same average, the ratios are defined together, and the serverless (rounded) ratio is within half a cent of the exact one |
| Analysis.NearestLevels | api/analyze.js:80-92 | support is below and resistance above the latest close |
| Analysis.AnalyzeBars | stock_analyzer.js:216-450 | the detailed copies score in [0, 100], the serverless one in [−25, 125], and the advice is the band of the score |
| Analysis.DetailedAnalysis | api-server.js:193-317 | the detailed result scores in [0, 100] with at most eight tags, and the advice follows the score |
| Analysis.LightAnalysis | api/analyze.js:94-198 | the additive result scores in [−25, 125]; its levels bracket the latest close |
| Analysis.LightScored | api/analyze.js:141-198 | scoring keeps the reading and levels, and the advice follows the score |
| Analysis.ShortHistoryCopiesDiffer | stock_analyzer.js:371-382 | with fewer than 20 bars the command line scores exactly 6.25 more than the server for the same history |
| Analysis.ShortHistoryFactorsGap | api-server.js:272-279 | with fewer than 20 bars the two Bollinger rules alone make the 6.25-point gap |
| Analysis.DetailedBandRules | api-server.js:272-279 | the command line and the server use their own Bollinger rules |
| Analysis.ShortHistoryNoPosition | stock_analyzer.js:274-276 | with fewer than 20 bars there is no Bollinger position |
| Analysis.DetailedScoreOf | stock_analyzer.js:429 | a detailed variant's score is the factor score of its indexed reading and clustered levels |
| Batch.RejectionMessage | api-server.js:176 | both endpoints ask the caller to "Please provide " tickers, and only the serverless message (api/analyze.js:247) ends in the plural "tickers" |
| Batch.NoDataMessage | api/analyze.js:106 | the serverless no-data message is "No data found for " followed by the ticker |
| Batch.NoDataMessageNamesTicker | api-server.js:196 | the Express no-data error is the same for every ticker, while the serverless one tells different tickers apart |
| Batch.TickerRecord | api-server.js:181-349 | data gives an analysis in the endpoint's variant; a thrown request its message; missing data the endpoint's no-data error |
| Batch.Serve | api-server.js:175-350 | a request without a non-empty ticker array is rejected with the endpoint's message; otherwise one record per ticker, in order, each from its own request |
| Batch.PushEach | api/analyze.js:252-262 | the loop pushes one result per element, in order |
| Batch.NullIfFalsy | api-server.js:325-332 | a value is reported iff it is truthy, and then unchanged |
| Batch.ReportOf | api-server.js:319-332 | the record carries the ticker, the latest close, the score and its advice; the signal text is the comma join of the tags, or "None" when that is empty; each of the eight indicators (RSI, MACD, SMA20/50/200, both band edges, band position) is reported iff truthy, and then with its own value |
| Batch.ReportFollowsAnalysis | api-server.js:319-324 | the record of an analysed history carries the latest close, its advice is the band of its score, and a detailed score lies in [0, 100] |
| Batch.FallingSeriesRsiReportedNull | api-server.js:325 | a strictly falling history has RSI 0, which is reported as null |
| Batch.CliSummary | stock_analyzer.js:216-450 | a summary exists iff data came back, with a score in [0, 100] and the latest close |
| Batch.Outcomes | stock_analyzer.js:456-463 | one outcome per ticker |
| Batch.AnalyzeAll | stock_analyzer.js:452-471 | the ranked list is a permutation of the analysed tickers' summaries, by non-increasing score, with ties in ticker order |
| Batch.KeepPresent | stock_analyzer.js:456-463 | the loop keeps exactly the non-null results, in order |
| Batch.AnalysedMembers | stock_analyzer.js:456-463 | a summary is kept iff some ticker's analysis produced it |
| Batch.RankedSummaries | stock_analyzer.js:471 | sorting keeps the summaries, puts higher scores first and keeps tie order |

## Left out

- Console output is not modelled. The command-line report prints every indicator, but only the returned `{ ticker, score, currentPrice }` and the ranking are modelled.
- Display formatting is not modelled: `toFixed`, `toLocaleString`, the "M" volume suffix and the emoji summary. The exception is api/analyze.js, which compares rounded volume ratios and 52-week distances; that rounding is modelled as `LightScore.Round2`.
- Batch.ReportOf: the reported numbers are not rounded to one or two decimals. The contract fixes every field's presence and exact value, not its display precision. The record's volume, volume-ratio, 52-week and support/resistance fields are not part of `Batch.Report`; the values behind them are in the reading and the levels the record is built from.
- The market-data request (`yahooFinance.historical`) is a parameter `fetch(k, ticker)`. Its date windows (one year, or six months for api/analyze.js) are not modelled: the analysis sees only the bars that come back.
- HTTP plumbing is not modelled: CORS headers, the OPTIONS preflight, the 405 for non-POST methods, the outer 500 handler and the Express listener. `Batch.Serve` starts at request-body validation.
- `Math.sqrt` is a parameter `sqrt`. The band-ordering and flat-series lemmas state what they need of it (non-negative, or `sqrt(0) = 0`).
- Bollinger.BbPosition: equal bands give `None`. JavaScript gives NaN only if the price also equals the band, and ±Infinity otherwise. With a true square root, zero width means a flat window that contains the latest close, so the two agree; for an arbitrary `sqrt` parameter they can differ.
- Closing prices are modelled as positive (`Bars.Price`) and every bar carries a volume. The `volume \|\| 0` fallback of api/analyze.js and the division by a zero or negative close are therefore not modelled.
- Range52.Week52: requires a non-empty series. Every caller has rejected empty data beforehand.
- IEEE-754 doubles are not modelled: arithmetic is over exact reals.
  - RSI with zero average loss is modelled directly as 100, the limit JavaScript reaches through Infinity.
  - `Round2` rounds the exact real half-up, not the nearest binary double.
- Analysis.LatestVolumeRatio: a NaN ratio is `None`. JSON serialisation of NaN as `null` in the api-server record is not modelled separately.
- The signal-alignment guard `signalIndex < signalLine.length` is modelled against a signal line of one entry per defined MACD value. In the source `signalLine.length` is max(signal, m) for m defined values, because `calculateEMA` always stores its seed at index signal−1. The counter never exceeds m−1, so the two tests agree.
- Windows.Ema: when the series is shorter than p, `calculateEMA` returns an array of length p whose last slot holds NaN, the mean of a sum that read past the end. The model keeps one slot per input value, all undefined. No caller reads that slot: the MACD loop stops at the series length, and the signal alignment reads the signal line only at index signal−1 or later, which it reaches only with more than signal−1 defined MACD values.
- The browser UI, `utils/stockAnalysis.js` and `api/index.js` are not part of this model.
- Concurrency is not modelled: the endpoints await each ticker in turn, and the model processes them in order.
