# Chan-theory market-structure analyser, modelled in Dafny

This project models the core of `czsc/analyze.py`. That file turns a stream of
K-line bars into the structures of Chan theory:

- **merged bars**: bars with containment removed;
- **fractals**: three-bar peaks (`g`) and troughs (`d`);
- **strokes** (笔): an alternating list of fractal points;
- **segments** (线段): an alternating list of stroke points, confirmed with the
  standardised characteristic sequence;
- **pivots** (中枢): overlap zones [ZD, ZG] of segment or stroke points, closed by
  a third buy or sell point;
- **divergence queries**: comparisons of MACD histogram "power" between two moves.

Modules, one per stage of the pipeline:

| module | file | contents |
|---|---|---|
| `ChanTypes` | `types.dfy` | bar, point, pivot and MACD records; `Result`; order-preserving `Filter` with named timestamp predicates |
| `Compare` | `compare.dfy` | the module-level helpers `has_gap`, `seq_standardized`, `is_valid_xd`, `get_potential_xd` |
| `Merge` | `merge.dfy` | the containment merge of `_update_kline_new`, as a step function and a scan |
| `Fractal` | `fractal.dfy` | fractal detection of `_update_fx_list` |
| `Stroke` | `stroke.dfy` | the stroke rules of `_update_bi_list` |
| `Segment` | `segment.dfy` | `_update_xd_list_v1` and `_xd_after_process` |
| `Pivots` | `pivot.dfy` | `_update_zs_list` with its inner `__get_zn`, `__get_zs` and `__get_zg_zd` |
| `Divergence` | `divergence.dfy` | `is_bei_chi`, `calculate_macd_power`, `get_sub_section`, `get_latest_fd`, `get_last_fd` over the lists passed in |
| `Analyzer` | `analyzer.dfy` | the `KlineAnalyze` class, its update methods and `add_kline` |

Each update stage has two forms:

- **A pure specification.** A step function states what one loop iteration does. A
  scan folds the step over the loop's input. An `...After` function gives the list
  the stage leaves.
- **An imperative method.** `KlineAnalyze` holds the lists as `seq` fields. Each
  update method rebuilds its field with a `for`/`while` loop, as the source does.
  Each method is proved to leave exactly the state that the stage's specification
  function gives. The loop invariants tie the list so far to the scan of the rest.

The properties proved belong to the specification functions: alternation,
extremality, freedom from containment, the pivot invariants, soundness and
completeness of the candidate filters. They carry over to the methods through
those equalities.

**Exceptions.** Python exceptions become explicit outcomes:

- In the class they are an `ok` result. When it is `false`, the lists are as they
  were at the raise point, since Python keeps the mutations made before it.
- In the queries they are `Result` values: `IndexError`, `ValueError` or
  `AssertionError`.

**Where the code disagrees with its documentation, the model follows the code:**

- `add_kline` compares the new bar's `open` price with the newest raw bar's `open`
  price, not the timestamps, to decide replace versus append.
- Up-direction merging takes the max of both lows (`czsc/analyze.py:295`). So
  [10, 20] followed by [12, 18] merges to [12, 20], not [10, 20]. `Merge.MergeScenario`
  states this.
- `max_xd_len` trimming cuts at `xd_list[-max_xd_len:][0]` and keeps entries strictly
  later. That leaves `max_xd_len - 1` segment points. With `max_xd_len = 0` the slice
  is the whole list, so only the first point is dropped.
  `Analyzer.TrimKeepsNewestSegments` states both.

## Model

| member | source | states |
|---|---|---|
| `Compare.HasGap` | czsc/analyze.py:14-21 | no contract of its own beyond the source's timestamp assertion (a precondition); `Compare.HasGapSeparates` states what a gap means |
| `Compare.HasGapSeparates` | czsc/analyze.py:14-21 | for non-negative prices a gap means disjoint price ranges, so overlapping bars never have one |
| `Compare.SeqDirection` | czsc/analyze.py:31-36 | the characteristic sequence merges "up" exactly when its first point is a trough |
| `Compare.RawPairs` | czsc/analyze.py:38-41 | one range per stroke `s[i], s[i+1]` for odd `i`: (n-1)/2 of them for n ≥ 3 points, each with low ≤ high, bounds the min/max of the two prices, start/end the two timestamps |
| `Compare.StdStep` | czsc/analyze.py:43-66 | a range nesting with the last entry replaces it by one keeping the earlier start and the later end, bounds by max (up) or min (down); any other range is appended and earlier entries are untouched |
| `Compare.StdFoldNonEmpty` | czsc/analyze.py:43-67 | a non-empty list of ranges never standardises to nothing |
| `Compare.StdFoldShape` | czsc/analyze.py:43-67 | the fold is never longer than its inputs together and keeps every entry well formed |
| `Compare.SeqStandardized` | czsc/analyze.py:24-67 | the standardised sequence of n points has at most (n-1)/2 entries, each with low ≤ high, and at least one when n ≥ 3 |
| `Compare.IsValidXd` | czsc/analyze.py:70-84 | a segment point is rejected whenever the first span standardises to nothing or the middle span has fewer than four strokes |
| `Compare.IsValidXdRejects` | czsc/analyze.py:86-138 | the remaining outcomes case by case: without a breach the point holds exactly when the span does not end beyond its second stroke point, and in the breach cases the verdict is exactly "the extended span standardises to ≥ 3 entries and holds an opposing characteristic fractal" |
| `Compare.LocalMinimaExact` | czsc/analyze.py:151-154 | a trough is kept exactly when it is a strict local minimum among the troughs |
| `Compare.LocalMaximaExact` | czsc/analyze.py:155-158 | a peak is kept exactly when it is a strict local maximum among the peaks |
| `Compare.SortByDt` | czsc/analyze.py:160 | the result is sorted by timestamp and is a permutation of the input |
| `Compare.InsertByDt` | czsc/analyze.py:160 | insertion keeps the list sorted by timestamp and adds exactly the one point |
| `Compare.GetPotentialXd` | czsc/analyze.py:142-162 | potential segment points are sorted by timestamp and are a permutation of the local minima among troughs followed by the local maxima among peaks |
| `Compare.PotentialXdAreExtremes` | czsc/analyze.py:142-162 | every potential segment point is a stroke point and a strict local extreme of its own mark |
| `Merge.MergeDirection` | czsc/analyze.py:283-287 | the direction is up exactly when the newest merged bar's high exceeds the one before it |
| `Merge.MergeBars` | czsc/analyze.py:291-309 | the merged bar has the new bar's time and volume, both bounds by max (up) or min (down), open/close equal to the high and low in some order; from well-formed inputs it is well formed and keeps the new bar's colour (falling stays falling, rising stays rising) |
| `Merge.MergeStep` | czsc/analyze.py:281-310 | a nesting bar replaces the last merged bar by the merged one; any other bar is appended unchanged; earlier bars are untouched |
| `Merge.MergedBarStaysApart` | czsc/analyze.py:283-309 | a merged bar never nests with the bar before it |
| `Merge.MergeStepNoContainment` | czsc/analyze.py:281-310 | one step keeps consecutive bars free of containment |
| `Merge.MergeScanNoContainment` | czsc/analyze.py:281-310 | the merge loop leaves consecutive bars free of containment from the seed on |
| `Merge.MergeScanIdempotent` | czsc/analyze.py:281-310 | bars with no containment pass through the loop unchanged |
| `Merge.MergeScanWellFormed` | czsc/analyze.py:281-310 | the merge loop keeps every bar's low ≤ high |
| `Merge.MergeScanKeepsPrefix` | czsc/analyze.py:281-310 | the loop only changes the last seed bar and appends after it |
| `Merge.KlineNewAfter` | czsc/analyze.py:261-310 | at least two merged bars whenever the reseeded list keeps two; `Merge.KlineNewAfterProperties` states the rest |
| `Merge.KlineNewAfterProperties` | czsc/analyze.py:261-310 | after `_update_kline_new` the rebuilt bars carry no containment, every bar is well formed and the bars before the kept seed are unchanged |
| `Merge.MergeScenario` | czsc/analyze.py:281-310 | [10,20] then [12,18] going up merge into [12,20]; a disjoint bar is appended |
| `Fractal.EnvelopeLow` | czsc/analyze.py:326-343 | a peak's lower envelope is ≤ the middle low, includes a neighbour's low exactly when `has_gap` does not separate it, and is one of those lows |
| `Fractal.EnvelopeHigh` | czsc/analyze.py:326-356 | the mirror for a trough's upper envelope |
| `Fractal.FractalAt` | czsc/analyze.py:333-362 | a fractal exists exactly at a peak or trough; it is a peak exactly when k1.high < k2.high > k3.high; peak price = fx_high = k2.high, trough price = fx_low = k2.low; start/end are the neighbours' times |
| `Fractal.FxScanOrdered` | czsc/analyze.py:323-364 | the fractals the scan finds are in time order and all later than the bar before the scan's start |
| `Fractal.FxScanSound` | czsc/analyze.py:323-364 | every fractal found is the fractal centred on some bar at or after the start |
| `Fractal.FxScanComplete` | czsc/analyze.py:323-364 | when no assertion fails, every bar that is a peak or trough yields its fractal |
| `Fractal.FxScanOkFrom` | czsc/analyze.py:14-16 | the scan from a bar runs to the end without `has_gap`'s timestamp assertion failing exactly when the bars from the one before it are in time order |
| `Fractal.FxScanOkIffOrdered` | czsc/analyze.py:323-364 | the whole window is scanned without AssertionError exactly when its bars are in time order |
| `Fractal.FxListAfterOrdered` | czsc/analyze.py:312-364 | the fractals one call adds are ordered and later than the kept fractal it restarted from |
| `Fractal.FxListAfter` | czsc/analyze.py:312-364 | no contract of its own; `Fractal.FxListAfterOrdered` and `Fractal.FxListAfterKeepsOrder` state its properties |
| `Fractal.FxListAfterKeepsOrder` | czsc/analyze.py:312-364 | an ordered fractal list stays ordered |
| `Stroke.BiStep` | czsc/analyze.py:395-417 | a same-mark fractal replaces the last point exactly when strictly more extreme; an opposite-mark fractal is appended exactly when an inspection bar lies strictly between the two and the envelopes are separated; otherwise nothing changes |
| `Stroke.BiStepAlternates` | czsc/analyze.py:395-417 | one step keeps the stroke list alternating |
| `Stroke.BiScanAlternates` | czsc/analyze.py:395-417 | the stroke loop keeps the list alternating |
| `Stroke.BiScanKeepsConfirmed` | czsc/analyze.py:395-417 | stroke points before the last are never changed by the loop |
| `Stroke.BiScanSharpens` | czsc/analyze.py:395-404 | the last point is only ever replaced by a more extreme one of the same mark |
| `Stroke.StrokeScenario` | czsc/analyze.py:405-408 | a trough and a peak found by the fractal rule (lines 323-359), sharing their middle bar, have separated envelopes, yet the peak is skipped because no bar lies between their windows |
| `Stroke.BiListAfterAlternates` | czsc/analyze.py:366-423 | a whole `_update_bi_list` call, invalidation included, keeps the stroke list alternating |
| `Stroke.BiInvalidate` | czsc/analyze.py:418-423 | no contract of its own; `Analyzer.InvalidateLast` states that the newest stroke point is dropped exactly when the newest merged bar breaks beyond it |
| `Stroke.BiListAfter` | czsc/analyze.py:366-423 | no contract of its own; `Stroke.BiListAfterAlternates` and `Stroke.BiListAfterOrdered` state its properties |
| `Stroke.BiStepOrdered` | czsc/analyze.py:395-417 | one step on a later fractal keeps the stroke list ordered and its last point no later than the fractal |
| `Stroke.BiScanOrdered` | czsc/analyze.py:395-417 | the stroke loop over ordered later fractals keeps the list ordered |
| `Stroke.BiListAfterOrdered` | czsc/analyze.py:366-423 | a whole `_update_bi_list` call keeps ordered stroke and fractal lists ordered |
| `Segment.XdStep` | czsc/analyze.py:440-461 | a same-mark point replaces the last exactly when more extreme; an opposite-mark point is appended exactly when not beyond the last and at least four strokes lie between them, ends included |
| `Segment.XdScanAlternates` | czsc/analyze.py:440-461 | the segment loop keeps the list alternating |
| `Segment.XdScanMembers` | czsc/analyze.py:440-461 | the segment loop only ever adds candidate points |
| `Segment.XdListV1` | czsc/analyze.py:425-461 | the rebuilt segment list starts with the first two stroke points and has at least three points |
| `Segment.XdScanKeepsPrefix` | czsc/analyze.py:440-461 | the segment loop never changes points before the last seed point |
| `Segment.XdListV1Alternates` | czsc/analyze.py:425-461 | alternating strokes give an alternating segment list |
| `Segment.XdListV1FromStrokes` | czsc/analyze.py:432-461 | every segment point is a stroke point; any beyond the seed is a potential segment point |
| `Segment.XdStepOrdered` | czsc/analyze.py:440-461 | one segment step on a point that is later than the last, or is the last, keeps the list ordered and ends at the old last point or the new one |
| `Segment.XdScanOrdered` | czsc/analyze.py:440-461 | the segment loop over sorted stroke points keeps the list ordered |
| `Segment.XdListV1Ordered` | czsc/analyze.py:425-461 | ordered strokes give an ordered segment list |
| `Segment.VerdictCases` | czsc/analyze.py:470-478 | empty runs are skipped; runs that do not share their boundary points raise `is_valid_xd`'s AssertionError; a pass implies joined runs accepted by `is_valid_xd` |
| `Segment.KeepInteriorNext` | czsc/analyze.py:468-478 | one more interior index is kept exactly when its runs pass, and skipped otherwise, unless they raise |
| `Segment.KeepInteriorIncreasing` | czsc/analyze.py:468-478 | the kept interior indices are strictly increasing and lie between 1 and the scanned bound |
| `Segment.KeepInteriorPasses` | czsc/analyze.py:468-478 | every kept interior index passes its own test |
| `Segment.KeepInteriorComplete` | czsc/analyze.py:468-478 | every interior index that passes its own test survives a scan that does not raise |
| `Segment.KeepInteriorFailsFrom` | czsc/analyze.py:468-478 | an interior index whose runs raise makes every later scan raise |
| `Segment.KeepInteriorFails` | czsc/analyze.py:468-478 | the scan raises exactly when some scanned interior index has runs that fail to join |
| `Segment.WithLastTwoSound` | czsc/analyze.py:480-490 | xd[-2] is kept exactly when its runs pass, xd[-1] exactly when four strokes follow it, the interior survivors are kept, and indices stay increasing |
| `Segment.KeepIndicesSound` | czsc/analyze.py:463-490 | the survivor list raises exactly when the last runs or some interior runs fail to join, and otherwise is increasing and keeps each index exactly as its own test decides |
| `Segment.KeepIndicesInRange` | czsc/analyze.py:463-490 | every survivor is an index into the segment list |
| `Segment.KeepIndices` | czsc/analyze.py:463-490 | no contract of its own; `Segment.KeepIndicesSound` and `Segment.KeepIndicesInRange` state its properties |
| `Segment.KeptStep` | czsc/analyze.py:492-502 | a same-mark survivor replaces the last exactly when more extreme; an opposite-mark one is always appended |
| `Segment.KeptStepAlternates` | czsc/analyze.py:492-502 | one re-merge step keeps the list alternating |
| `Segment.KeptMergeAlternates` | czsc/analyze.py:492-503 | re-merging survivors always yields an alternating list |
| `Segment.KeptMergeFromSurvivors` | czsc/analyze.py:492-503 | every re-merged point is a survivor |
| `Segment.KeptStepOrdered` | czsc/analyze.py:492-502 | one re-merge step on a later point keeps the list ordered |
| `Segment.KeptMergeOrdered` | czsc/analyze.py:492-503 | re-merging increasing survivor indices of an ordered list gives an ordered list |
| `Segment.DropBreached` | czsc/analyze.py:505-509 | the last segment point is dropped exactly when the newest stroke point lies beyond it |
| `Segment.XdAfterProcessAlternates` | czsc/analyze.py:463-509 | post-processing that completes yields an alternating segment list |
| `Segment.XdAfterProcessSurvivors` | czsc/analyze.py:463-509 | every surviving segment point passed its own test |
| `Segment.XdAfterProcess` | czsc/analyze.py:463-509 | no contract of its own; `Segment.XdAfterProcessAlternates`, `Segment.XdAfterProcessSurvivors` and `Segment.XdAfterProcessOrdered` state its properties |
| `Segment.XdAfterProcessOrdered` | czsc/analyze.py:463-509 | post-processing keeps an ordered segment list ordered |
| `Pivots.ZgZd` | czsc/analyze.py:566-569 | ZD is the max trough and ZG the min peak among the window's first four points; ValueError exactly when those four lack a trough or a peak |
| `Pivots.Leg` | czsc/analyze.py:537-546 | a Zn leg spans two points with high/low their max/min and low ≤ mid ≤ high |
| `Pivots.Legs` | czsc/analyze.py:537-546 | one leg per pair of consecutive points, an odd last point dropped |
| `Pivots.ZnOf` | czsc/analyze.py:525-547 | the legs pair up the points (an odd last point dropped), direction up exactly when the first point is a trough |
| `Pivots.MakePivot` | czsc/analyze.py:549-564 | G/GG are the min/max peak and D/DD the max/min trough of the window, G ≤ GG and DD ≤ D, end point present exactly when finished |
| `Pivots.ZsStep` | czsc/analyze.py:578-626 | a short window grows; ZD/ZG are computed from the first four points; when ZG ≤ ZD the window slides (drops its first point, appends the new one, keeps its size and pivots); over an overlap a trough above ZG or a peak below ZD empties the window and clears the extension flag, and any other point is appended with the flag set |
| `Pivots.MakePivotSound` | czsc/analyze.py:549-564 | a pivot built over an overlapping window with a breakout on the correct side is sound |
| `Pivots.ZsStepSound` | czsc/analyze.py:578-626 | one step only ever adds sound pivots |
| `Pivots.ZsStepCompletes` | czsc/analyze.py:595-620 | a pivot is completed exactly on a third buy or sell over an overlapping window, carrying that window, its ZD/ZG and the breakout point |
| `Pivots.ZsRunInvariant` | czsc/analyze.py:578-626 | a window of five or more points always overlaps with ZD/ZG from its first four |
| `Pivots.ZsListAfter` | czsc/analyze.py:515-634 | pivots are appended to the existing list; fewer than three points change nothing |
| `Pivots.ZsListAfterComplete` | czsc/analyze.py:628-634 | without a trailing window of five points a call appends exactly the pivots completed |
| `Pivots.ZsListAfterSound` | czsc/analyze.py:515-634 | every new pivot has ZD < ZG from its first four points, G ≤ ZG, ZD ≤ D, every peak in [G, GG] and every trough in [DD, D], a breakout on the correct side, and is finished exactly when it has one |
| `Pivots.TrailingWindowOverlaps` | czsc/analyze.py:628-634 | the trailing unfinished pivot is emitted only over an overlapping window |
| `Pivots.ZsListAfterAlternating` | czsc/analyze.py:566-569 | over alternating points the ZG/ZD computation never raises |
| `Pivots.AlternatingOverlapDefined` | czsc/analyze.py:566-569 | four alternating points always hold a trough and a peak, so ZG/ZD is defined |
| `Pivots.PivotScenario` | czsc/analyze.py:578-620 | troughs 50, 55 and peaks 70, 65 give ZD 55, ZG 65, and a trough at 70 closes the pivot as a third buy |
| `Divergence.Contribution` | czsc/analyze.py:917-929 | stroke power counts every |macd|; segment power counts only bars of the move's sign |
| `Divergence.MacdPower` | czsc/analyze.py:904-930 | the power of a move is never negative; `Divergence.MacdPowerSplit` and `Divergence.MacdPowerMonotone` relate the two modes and wider spans |
| `Divergence.SumPowerSplit` | czsc/analyze.py:917-929 | stroke power is up-power plus down-power |
| `Divergence.MacdPowerSplit` | czsc/analyze.py:904-930 | segment power never exceeds stroke power over the same span |
| `Divergence.MacdPowerMonotone` | czsc/analyze.py:904-930 | power over a wider span is at least as large |
| `Divergence.IsBeiChi` | czsc/analyze.py:801-865 | AssertionError exactly when the later move does not start after the earlier one ends or either move does not start before it ends |
| `Divergence.IsBeiChiIsPowerComparison` | czsc/analyze.py:801-865 | divergence is exactly "the second move's power < the first's × adjust" over the selected MACD bars |
| `Divergence.NoDivergenceFromWeakerMove` | czsc/analyze.py:801-865 | a second move at least as strong as the first is never a divergence |
| `Divergence.GetSubSection` | czsc/analyze.py:867-902 | the section holds exactly the entries of the chosen list (the recent tail or all of it) inside [start, end] |
| `Divergence.SubSectionRecentIsPart` | czsc/analyze.py:867-902 | the recent section is part of the full one |
| `Divergence.MoveBetween` | czsc/analyze.py:964-981 | a move spans two points, is up exactly when the price rises, with high/low the two prices and power the MACD power between the two times in that direction |
| `Divergence.Moves` | czsc/analyze.py:973-982 | one move per pair of consecutive points, the i-th between points i and i+1 |
| `Divergence.MovesChained` | czsc/analyze.py:973-982 | consecutive moves join end to start and the last ends at the last point |
| `Divergence.GetLatestFd` | czsc/analyze.py:945-983 | no contract of its own; `Divergence.LatestFdLoop` computes it and `Divergence.LatestFdChained` states its shape |
| `Divergence.LatestFdLoop` | czsc/analyze.py:945-983 | the loop's result is the moves between consecutive points among the last n+1 |
| `Divergence.LatestFdChained` | czsc/analyze.py:945-983 | at most n moves, exactly n when there are more than n points, chained end to start and ending at the newest point |
| `Divergence.LastMove` | czsc/analyze.py:985-1045 | no move exactly when fewer than the required candidates follow the last point; ValueError exactly when enough follow but none has the opposite mark; otherwise a move starting at the last point, in its direction, ending at the first candidate whose price equals the most extreme opposite-mark price, with power the MACD power between the two times and high/low the two prices |
| `Divergence.FirstAtPrice` | czsc/analyze.py:999-1027 | the index of the first point at the given price |
| `Divergence.GetLastFd` | czsc/analyze.py:985-1045 | IndexError with no stroke point in stroke mode; no move with no segment point in segment mode; otherwise the last move from the newest stroke point over the last 60 fractals (at least 2 needed), or from the newest segment point over the last 60 strokes (at least 4 needed) |
| `Analyzer.RawAfter` | czsc/analyze.py:709-714 | the new bar is always last; it replaces the newest raw bar exactly when their open prices are equal, otherwise it is appended |
| `Analyzer.TrimKeepsNewestSegments` | czsc/analyze.py:726-734 | trimming an ordered segment list keeps exactly its newest `max_xd_len - 1` points (all but the first when `max_xd_len` is 0) |
| `Analyzer.TrimOnlyDrops` | czsc/analyze.py:726-734 | trimming only removes entries, keeps pivots, and what is left is later than the cut |
| `Analyzer.TrimKeepsAlternation` | czsc/analyze.py:726-734 | trimming keeps ordered alternating stroke and segment lists ordered and alternating |
| `Analyzer.StagesAlternate` | czsc/analyze.py:716-721 | the stages keep the stroke and segment lists alternating |
| `Analyzer.StagesAddSoundPivots` | czsc/analyze.py:716-721 | the stages keep the existing pivots as a prefix and only add sound pivots |
| `Analyzer.StagesCompleteAfterFour` | czsc/analyze.py:716-721 | over alternating lists the stages complete whenever the merge, fractal, stroke and segment stages do |
| `Analyzer.StagesKeepInputs` | czsc/analyze.py:716-721 | the stages never change the raw bars, the moving-average timestamps, the MACD series, the end time or the latest price |
| `Analyzer.Stages` | czsc/analyze.py:716-721 | no contract of its own; `Analyzer.KlineAnalyze.RunStages` runs it and the `Stages...` lemmas state its properties |
| `Analyzer.StagesOrdered` | czsc/analyze.py:716-721 | the stages keep the fractal, stroke and segment lists ordered |
| `Analyzer.Trim` | czsc/analyze.py:726-734 | no contract of its own; `Analyzer.TrimKeepsNewestSegments`, `Analyzer.TrimOnlyDrops` and `Analyzer.TrimKeepsAlternation` state its properties |
| `Analyzer.AddKlineAfter` | czsc/analyze.py:694-738 | no contract of its own; `Analyzer.AddKlineRecords` and `Analyzer.AddKlineKeepsShape` state its properties |
| `Analyzer.AddKlineKeepsShape` | czsc/analyze.py:694-738 | every `add_kline` call, completed or not, keeps the fractal list ordered and the stroke and segment lists ordered and alternating |
| `Analyzer.MaAfter` | czsc/analyze.py:204-226 | an empty moving-average list is rebuilt with one timestamp per raw bar; otherwise the newest timestamp is appended when the previous raw bar is the list's last entry and replaces the last entry when it is not; it raises IndexError exactly when the list is non-empty and there is a single raw bar |
| `Analyzer.MaAfterKeepsStep` | czsc/analyze.py:204-228 | while the list is in step with the raw bars, a bar appended by lines 709-714 keeps it in step and passes the check at line 228 once there are two raw bars; the update raises exactly when a lone raw bar is replaced |
| `Analyzer.AddKlineRecords` | czsc/analyze.py:694-738 | when the moving-average update raises or its check at line 228 fails, the call stops having changed only the raw bars and the averages; with a MACD series out of step it raises having changed only the raw bars, the averages and the series; pivots are never removed; a completed call records the bar's time and close; a failed one keeps the updated raw bars |
| `Analyzer.FirstBarScenario` | czsc/analyze.py:204-228 | a fresh analyser stores its first bar and its timestamp as the only average, then the moving-average check raises and nothing else changes |
| `Analyzer.SecondBarScenario` | czsc/analyze.py:694-738 | a second bar with a new open price and a MACD series in step completes the call, records both bars and both average timestamps and builds nothing yet |
| `Analyzer.ReplaceDesyncScenario` | czsc/analyze.py:204-228 | a first bar, a second with the same open price (replaced by lines 709-714) and a third with a new one: every call fails, and after the third the average list holds only the third bar's timestamp, so the check at line 228 raises |
| `Analyzer.RawReplaceScenario` | czsc/analyze.py:709-714 | same open price replaces, different open price appends |
| `Analyzer.KlineAnalyze.constructor` | czsc/analyze.py:165-202 | every list, the moving averages included, starts empty; the three options are stored |
| `Analyzer.KlineAnalyze.UpdateKlineNew` | czsc/analyze.py:261-310 | the merged list becomes `KlineNewAfter` of the old one; `false` exactly when one merged bar is left with bars to merge |
| `Analyzer.KlineAnalyze.UpdateFxList` | czsc/analyze.py:312-364 | the fractal list becomes `FxListAfter`; `false` exactly when the window holds bars out of time order |
| `Analyzer.KlineAnalyze.UpdateBiList` | czsc/analyze.py:366-423 | the stroke list becomes `BiListAfter`; `false` exactly when there are two fractals but no merged bar |
| `Analyzer.KlineAnalyze.UpdateXdListV1` | czsc/analyze.py:425-461 | with four or more strokes the segment list becomes `XdListV1`, otherwise it is unchanged |
| `Analyzer.KlineAnalyze.XdAfterProcessUpdate` | czsc/analyze.py:463-509 | the segment list becomes `XdAfterProcess`; `false` exactly when tested runs fail to join |
| `Analyzer.KlineAnalyze.UpdateXdList` | czsc/analyze.py:511-513 | construction then post-processing |
| `Analyzer.KlineAnalyze.UpdateZsList` | czsc/analyze.py:515-634 | the pivot list becomes `ZsListAfter` over the segment or stroke points |
| `Analyzer.KlineAnalyze.TrimHistory` | czsc/analyze.py:726-734 | every list but the pivots keeps only entries later than the cut |
| `Analyzer.KlineAnalyze.AddKline` | czsc/analyze.py:694-738 | the whole state after the call is `AddKlineAfter` of the state before, including the raises of both indicator checks |
| `Analyzer.KlineAnalyze.UpdateMa` | czsc/analyze.py:204-226 | the average list becomes `MaAfter` of the old one and nothing else changes; `false` exactly when the update raises |
| `Analyzer.KlineAnalyze.Publish` | czsc/analyze.py:723-734 | the end time and latest price become the new bar's, then the history is trimmed |
| `Analyzer.KlineAnalyze.RunStages` | czsc/analyze.py:716-721 | the five update calls leave exactly the state the stages give, stopping at the first that raises |
| `Analyzer.MergeLoop` | czsc/analyze.py:281-310 | the loop's result is the merge scan of the new bars |
| `Analyzer.FractalLoop` | czsc/analyze.py:323-364 | the loop's result is the fractal scan of the window: the fractals found until `has_gap`'s assertion fails, and `false` exactly then |
| `Analyzer.DetectFractal` | czsc/analyze.py:326-362 | the body of one iteration finds exactly the fractal centred on the middle bar |
| `Analyzer.RebuildStrokes` | czsc/analyze.py:366-423 | the loop and the invalidation give `BiListAfter` |
| `Analyzer.StrokeLoop` | czsc/analyze.py:395-417 | the loop's result is the stroke scan |
| `Analyzer.StrokeStep` | czsc/analyze.py:395-417 | one iteration of the stroke loop is one stroke step |
| `Analyzer.InvalidateLast` | czsc/analyze.py:418-423 | the final check drops the newest stroke point exactly as the invalidation rule says |
| `Analyzer.SegmentLoop` | czsc/analyze.py:440-461 | the loop's result is the segment scan |
| `Analyzer.SegmentStep` | czsc/analyze.py:440-461 | one iteration of the segment loop is one segment step |
| `Analyzer.InteriorIndices` | czsc/analyze.py:468-478 | the loop yields `KeepInterior`, failing exactly when it raises |
| `Analyzer.InteriorStep` | czsc/analyze.py:468-478 | one iteration extends the interior scan, or reports that the scan raises |
| `Analyzer.SurvivingIndices` | czsc/analyze.py:468-490 | the survivor indices are `KeepIndices`; with no stroke point none survive |
| `Analyzer.Remerge` | czsc/analyze.py:492-503 | the loop's result is the re-merge of the survivors |
| `Analyzer.PostProcessSegments` | czsc/analyze.py:463-509 | the body gives `XdAfterProcess`, failing exactly when it raises |
| `Analyzer.DropIfBreached` | czsc/analyze.py:505-509 | the final check drops the last segment point exactly as the breach rule says, and keeps the list when there are no strokes |
| `Analyzer.AppendPivots` | czsc/analyze.py:576-634 | the loop and the trailing pivot give `ZsListAfter` |

## Left out

- `_update_ta` (czsc/analyze.py:204-259) calls TA-Lib over floating-point arrays. Only the timestamps of the moving averages are modelled (the `ma` field), so their update and the assertion at czsc/analyze.py:228 are modelled exactly, while the average values themselves are not. The MACD series it recomputes is a parameter of `AddKline` instead, and its closing assertion (czsc/analyze.py:259) is checked on that parameter.
- `reset_kline`, `to_grid`, `to_df` and `calculate_vol_power` are presentation code, or depend on `czsc.utils` and pandas; `czsc.utils` is not part of this model.
- `verbose` printing is left out, and so are the `symbol`, `freq` and `ma_params` settings.
- Mode strings (`bi_mode`, `zs_mode`, the query `mode`s, the `fx_mark` values) are two-valued datatypes. The `raise ValueError` branches for any other string (for example czsc/analyze.py:36, 392) therefore cannot be reached.
- With `zs_mode = 'bi'` the source writes an `xd` key into the stroke records in place (czsc/analyze.py:520-523). The model instead reads stroke prices directly. The KeyError that the source raises for a stroke price of exactly 0 is not modelled.
- `is_valid_xd` extends its argument `bi_seq2` in place. Each caller passes a fresh list, so the model uses the concatenation.
- Prices are exact `real`s. Floating-point rounding in comparisons and in MACD sums is not modelled.
- `last_index` in `is_bei_chi`, `n` in `get_latest_fd` and `max_xd_len` (`maxXdLen`) are natural numbers. Python's negative indices are not modelled; in particular a negative `max_xd_len` makes `xd_list[-max_xd_len:]` slice from the front, which raises IndexError on a segment list too short for it.
- `zs_list` is appended to on every call and never cleared outside `reset_kline`. The model does the same and claims nothing about duplicate pivots across calls.
- `end_dt` and `latest_price` are not set by the Python constructor. The model starts them at 0.
