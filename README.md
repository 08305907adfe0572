# raceday, modelled in Dafny

raceday shows motorsport races in a tmux status line and in a terminal dashboard. It covers
NASCAR Cup and Formula 1. The status line is a list of segments: a text, a priority (0 is
most important, 3 least) and a flag saying whether the segment stays in place or may scroll.
The segments are laid out at a fixed number of display columns. Less important segments are
dropped first, and the dynamic part may become a clock-driven marquee. The segments come
from one of two places:

- the live state of a race: the series, the flag, the lap, the leader and the configured
  drivers;
- the next race on the schedule of all series.

The live state is derived from the NASCAR live feed or from the OpenF1 endpoints. The
dashboard is a Bubble Tea model that changes under window, feed and key messages.

This project models that core and proves what it promises:

| module | models | flavour |
|---|---|---|
| `Status` | `cmd/raceday/main.go` | Methods with loops. Each is proved against a function. |
| `Text` | `internal/ui/text.go` | `PadToWidth` is a function. `MarqueeText` is a method with its loop. |
| `Series` | `internal/series/series.go` | The records, and the `NextRaceAcrossAll` scan. |
| `NascarLive` | `internal/nascar/live.go` | Vehicle statistics, flags, and searches of the feed. |
| `NascarTypes` | `internal/nascar/types.go` | `IsComplete`, and the text `RaceStartUTC` parses. |
| `NascarClient` | `internal/nascar/client.go` | Schedule ordering, and `NextRace`. |
| `NascarSeries` | `internal/nascar/series.go` | Turning the feed into a live state, and `raceOver`. |
| `F1Types`, `F1Series` | `internal/f1/types.go`, `internal/f1/series.go` | Schedule join, position de-duplication, compounds, flag and lap scan. |
| `Weather` | `internal/weather/weather.go` | `Symbol`, `WindDirectionArrow`. |
| `Schedule` | `internal/ui/schedule.go` | `formatCountdown`. |
| `Leaderboard` | `internal/ui/leaderboard.go` | The `Model`: a pure transition function `Step`, plus a class `Dashboard` whose methods update its fields in place and are proved to follow `Step`. |

Some shared modules support the rest:

- `Wrappers` defines `Option` and `Result`.
- `GoInt` defines Go's truncating `/` and `%`, and int64 wrap-around.
- `Strings` covers byte-wise string order, `strings.Contains`, ASCII `ToLower`/`ToUpper`,
  `strconv.Itoa` and UTF-8 encoding.
- `Sorting` is an in-place sort of an array by a strict weak order. It stands for
  `sort.Slice`.

Some things are given to the model as parameters:

- Times are integer Unix seconds.
- `now` is a parameter.
- `time.Parse` is a parameter `parse: string -> Option<int>`.
- Every network fetch is a parameter of type `Result<...>` holding what the fetch returned.
- Display width is an additive per-code-point width of 0, 1 or 2 (`Text.CharWidth`).

## Model

| member | source | states |
|---|---|---|
| Status.JoinSegments | cmd/raceday/main.go:215-221 | The result is every segment's text run together, in order. |
| Status.FilterTexts | cmd/raceday/main.go:158-163 | The texts collected are those of the segments of priority at most `maxPri`, in input order. |
| Status.FilterSpec | cmd/raceday/main.go:159-163 | A threshold keeps a segment exactly when its priority is at most the threshold, and never adds segments. |
| Status.FilterKeepsAll | cmd/raceday/main.go:159-163 | When every priority is within the threshold, nothing is dropped. |
| Status.FilterFilter | cmd/raceday/main.go:192-200 | Filtering already-filtered statics at a lower threshold is the same as filtering the originals at that threshold. |
| Status.FilterWidthMonotone | cmd/raceday/main.go:157-167 | A higher threshold never gives a narrower join. So the least important segments are the first to go. |
| Status.ChosenLevel | cmd/raceday/main.go:157-172 | The chosen threshold is in 0..3. When it is above 0 its join fits. No higher threshold fits. |
| Status.ChosenLevelIs | cmd/raceday/main.go:157-172 | The level found by stepping down from 3 to the first join that fits, or to 0, is the chosen one. |
| Status.AssembleSegments | cmd/raceday/main.go:147-176 | With width <= 0: every text joined. With width > 0: the join at the chosen threshold. |
| Status.AssembledFits | cmd/raceday/main.go:165-172 | The result fits whenever the priority-0 join fits. Otherwise the oversized priority-0 join is returned as it is. |
| Status.DropOrder | cmd/raceday/main_test.go:37-59 | The segments are ranked core, driver, leader, weather. The whole line comes back when it fits; otherwise the longest prefix that fits; when not even core plus driver fits, the core alone. Weather goes first, then leader, then driver. The prefix joins grow in width. |
| Status.KeepsPrefix | cmd/raceday/main_test.go:37-59 | The first `k` of four ranked segments are what comes back exactly when their join fits and one more does not. |
| Status.WithStatic | cmd/raceday/main.go:181-188 | The static list and the dynamic list hold exactly the segments with that flag. |
| Status.SplitStatic | cmd/raceday/main.go:181-188 | The first loop of `assembleHybrid` puts the static segments in one list and the rest in the other, keeping their order. |
| Status.ShrinkStatics | cmd/raceday/main.go:191-201 | The shrinking loop gives the shrunk statics and their joined text. |
| Status.KeepUpTo | cmd/raceday/main.go:193-198 | The `kept` loop keeps the statics of priority at most `maxPri`, in order. |
| Status.ShrinkLevels | cmd/raceday/main.go:191-201 | Statics that fit are kept whole. Otherwise they are cut at the same threshold `assembleSegments` picks. |
| Status.HybridStaticRegion | cmd/raceday/main.go:181-201 | Only static segments of the input reach the static region. |
| Status.SpacerWidth | cmd/raceday/main.go:203-205 | The spacer `" \| "` is 3 columns wide. |
| Status.HybridLayout | cmd/raceday/main.go:203-212 | The last part of `assembleHybrid` computes the layout the `HybridLine` function defines. |
| Status.HybridLineShape | cmd/raceday/main.go:203-212 | When there is dynamic text and `remaining = width - staticWidth - 3 > 0`, the line is the static text, `" \| "`, then the marquee of the dynamic text in `remaining` columns. Otherwise it is `PadToWidth(staticText, width)`. |
| Status.HybridLineWidth | cmd/raceday/main.go:203-212 | With width > 0 the hybrid line is exactly `width` columns wide. This includes the case where only too-wide priority-0 statics remain. |
| Status.AssembleHybrid | cmd/raceday/main.go:180-213 | The method computes `Hybrid`: split, shrink, then lay out. |
| Status.StatusLineWidth | cmd/raceday/main.go:133-141 | With width > 0, the printed line is exactly `width` columns wide in marquee mode and in plain mode. Without a width it is every text joined. |
| Status.FirstNumbered | cmd/raceday/main.go:262-274 | The index of the first driver with the number, and none exactly when no driver has it. |
| Status.FirstNumberedUnique | cmd/raceday/main.go:262-274 | The first index holding the number is the one `FirstNumbered` gives. |
| Status.FindNumbered | cmd/raceday/main.go:262-275 | The inner loop either stops at the first driver with the number or runs off the end exactly when there is none. |
| Status.AppendDriver | cmd/raceday/main.go:260-276 | One pass of the outer loop appends the segment of the `i`-th configured driver, or nothing when that driver is not running. |
| Status.DriverSegmentsShape | cmd/raceday/main.go:260-276 | Exactly one driver segment per configured driver found in the positions (`FoundCount`), so at most one per configured driver. All have priority 1 and only the first may be static. When the first configured driver is found, the first segment is that driver's row and is static; otherwise none is static. |
| Status.LapTextShape | cmd/raceday/main.go:240-243 | The lap text starts "Lap c" and holds a "/" (as in "Lap c/t") exactly when the total laps are known. |
| Status.CoreEndsWithLap | cmd/raceday/main.go:250-252 | The core segment's text ends with " \| " and the lap text. |
| Status.LiveSegmentsShape | cmd/raceday/main.go:234-279 | The first segment is the static priority-0 core. A dynamic priority-2 leader segment follows exactly when the leader's number is not empty. Then come exactly one priority-1 segment per configured driver found in the positions. Only the first of them may be static, and it is static, showing that driver's row, exactly when the first configured driver is found. |
| Status.LiveSegmentsFromState | cmd/raceday/main.go:234-279 | The method, with its nested loop and break, computes `LiveSegments`. |
| Status.ScheduleSegments | cmd/raceday/main.go:281-315 | With no start time there is one static priority-0 segment. With one there are a name segment, a `" \| "` time segment, then a broadcaster segment (priority 2) and a driver segment (priority 1, static) when present. |
| Text.CharWidth | internal/ui/text.go:75 | A code point takes at most 2 columns, and a printable ASCII character exactly 1. |
| Text.WidthConcat | internal/ui/text.go:19 | The width of a concatenation is the sum of the widths. |
| Text.WidthPrefix | internal/ui/text.go:29 | A prefix is never wider than the whole. |
| Text.Spaces | internal/ui/text.go:42 | `strings.Repeat(" ", n)` is n spaces and n columns. |
| Text.TakeFit | internal/ui/text.go:29 | Takes the longest prefix that fits, stopping at the first code point that would overflow. |
| Text.Truncate | internal/ui/text.go:26-36 | The text itself when it fits. Otherwise a prefix of at most `w` columns that stops only where the next code point would overflow, so it is at least `w - 1` columns wide. |
| Text.TruncateLongest | internal/ui/text.go:29 | Every longer prefix is too wide. |
| Text.EllipsisWidth | internal/ui/text.go:22-23 | "..." is 3 columns. |
| Text.EllipsisCut | internal/ui/text.go:25-27 | Width 1 to 3 keeps that many dots. |
| Text.PadToWidth | internal/ui/text.go:14-46 | With width <= 0 the text is unchanged. With width > 0 the result is exactly `width` columns. Text that fits is padded with spaces. Text too wide for a width of 3 or less becomes "..." cut to the width. |
| Text.PadToWidthEllipsis | internal/ui/text.go:29-38 | Text wider than a width above 3 becomes its longest prefix of at most `width - 3` columns, then "...", then at most one space where a wide glyph left a gap. |
| Text.PadToWidthFitExamples | internal/ui/text_test.go:16-18 | ("Hello", 0) and ("Hello", 5) give "Hello". |
| Text.PadToWidthPadExample | internal/ui/text_test.go:17 | ("Hi", 10) gives "Hi" and eight spaces. |
| Text.PadToWidthEdgeExamples | internal/ui/text_test.go:22-23 | ("", 5) gives five spaces. ("Hello", 3) gives "...". |
| Text.GoPositionNegative | internal/ui/text.go:65-73 | As written, a negative speed gives a negative start position, so the first rune index is out of range. |
| Text.Position | internal/ui/text.go:65-67 | The start position, as intended, lies in [0, total). |
| Text.PositionAgrees | internal/ui/text.go:65-67 | Where the int64 product is not negative, the intended position is the written one. |
| Text.Rotate | internal/ui/text.go:72-74 | Reading the ring from `k` keeps its length. |
| Text.RotateAt | internal/ui/text.go:73 | Reading the rotation at `i` reads the ring at `(k + i) % len`, the index the loop computes. |
| Text.FillWithin | internal/ui/text.go:72-83 | The runes taken never exceed the width. |
| Text.FillPrefix | internal/ui/text.go:72-83 | The runes taken are a prefix of the ring. They stop early only when the width is used up or the next glyph would overflow. A glyph is never split. |
| Text.MarqueeViewWidth | internal/ui/text.go:51-93 | width <= 0 gives the text as it is. Text that fits gives `PadToWidth`. Otherwise the result is exactly `width` columns. |
| Text.MarqueeWindow | internal/ui/text.go:62-92 | Overflowing text shows consecutive code points of `text+sep+text` read circularly from the clock's position, then spaces. |
| Text.RingWindow | internal/ui/text.go:69-83 | The loop yields the fill of the ring rotated to `position`. |
| Text.MarqueeText | internal/ui/text.go:51-93 | The method computes `MarqueeView`. That is a function of its inputs and `now` alone, so equal inputs give equal output. |
| GoInt.Mod | internal/ui/text.go:73 | The Euclidean remainder lies in [0, n). |
| GoInt.ModOf | internal/ui/text.go:73 | Any quotient and remainder in range determine `Mod`. |
| GoInt.ModMatches | internal/ui/text.go:73 | `Mod` is the Euclidean `%`. |
| GoInt.DivMod | internal/ui/schedule.go:78-80 | `Div` and `Mod` split a non-negative number. |
| GoInt.DivOf | internal/ui/schedule.go:78-80 | A quotient whose multiples bracket the number is `Div`. |
| GoInt.Rem | internal/weather/weather.go:123 | Go's `%` takes the sign of the dividend, below the divisor in size. |
| GoInt.QuotRem | internal/weather/weather.go:123 | `(a / b) * b + a % b == a` for Go's truncating operators. |
| GoInt.Wrap64 | internal/ui/text.go:67 | The int64 value of a product lies in the int64 range, is congruent to the product modulo 2^64, and equals it when it fits. |
| Strings.LessIrreflexive | internal/nascar/client.go:51-53 | Go's byte-wise string `<` is irreflexive. |
| Strings.LessTransitive | internal/nascar/client.go:51-53 | Go's string `<` is transitive. |
| Strings.LessTotal | internal/nascar/client.go:51-53 | Two different strings are ordered one way or the other. |
| Strings.LessAsymmetric | internal/f1/series.go:115 | Go's string `<` is asymmetric. |
| Strings.LessNegativelyTransitive | internal/nascar/client.go:51-53 | "Neither is less" is transitive, as `sort.Slice` requires. |
| Strings.ContainsAt | internal/f1/series.go:190-193 | An occurrence at an index is containment. |
| Strings.ContainsSuffix | internal/f1/series.go:52-53 | A string contains its own suffix. |
| Strings.ContainsTransitive | internal/f1/series.go:190-193 | Containment is transitive. |
| Strings.ToLower | internal/f1/series.go:52 | Same length. Each character is lower-cased. |
| Strings.ToLowerConcat | internal/f1/series.go:52-53 | Lower-casing distributes over concatenation. |
| Strings.ToUpper | internal/ui/leaderboard.go:559-574 | Same length. Each character is upper-cased. |
| Strings.DigitChar | cmd/raceday/main.go:261 | A digit's character is '0' to '9' and has that value. |
| Strings.ItoaRoundTrip | cmd/raceday/main.go:261 | `strconv.Itoa` of a natural number is all digits, and reading them back gives the number. |
| Strings.ItoaInjective | cmd/raceday/main.go:261-263 | Equal decimal texts mean equal numbers, so comparing car-number texts compares the numbers. |
| Strings.ItoaNoSlash | cmd/raceday/main.go:240-243 | A number's decimal text holds no '/'. |
| Strings.ItoaSign | internal/ui/leaderboard.go:97-99 | The text starts with '-' exactly when the number is negative. |
| Strings.EncodeChar | internal/ui/leaderboard.go:331 | A code point takes 1 to 4 UTF-8 bytes, and 1 exactly when it is ASCII. |
| Strings.Encode | internal/ui/leaderboard.go:331 | A string has at least as many bytes as code points. |
| Strings.EncodeConcat | internal/ui/leaderboard.go:331 | Encoding distributes over concatenation. |
| Strings.EncodeAscii | internal/ui/leaderboard.go:331 | ASCII text has one byte per code point, each equal to the code point. |
| Strings.ToLowerBytes | internal/ui/leaderboard.go:385 | `strings.ToLower` on ASCII bytes: same length, each ASCII upper-case byte lower-cased, every other byte kept (weaker than Go on non-ASCII, see Left out). |
| Sorting.Sort | internal/nascar/series.go:86-88 | The array ends up sorted by `less` and holds the same elements (a permutation). |
| Sorting.Insert | internal/nascar/series.go:86-88 | One insertion step extends the sorted prefix by one element, keeps the multiset, and leaves the rest alone. |
| Sorting.Map | internal/nascar/series.go:89-91 | Same length. Element `i` is `f` of element `i`. |
| Sorting.MapPermutation | internal/nascar/series.go:84-92 | Translating a permutation of the vehicles gives a permutation of the translated drivers. |
| Series.NextRaceAcrossAll | internal/series/series.go:60-81 | None exactly when no race of any fetched schedule is eligible, which is the case when the list is empty or every race is complete or past. Otherwise the result is an eligible race (not complete, starting at or after now) with the earliest start. On a tie the first one met in series order, then list order, is kept. Schedules that failed to fetch are skipped. |
| Series.BestSoFarSnoc | internal/series/series.go:67-77 | One step of the scan keeps the best-so-far invariant. A race replaces the best only when it is strictly earlier. |
| NascarTypes.StartText | internal/nascar/types.go:32-39 | The text parsed is the start of the first run-type-3 session with a start; run-type-3 sessions without one are skipped. With no such session it is the scheduled date, read with the same layout. |
| NascarLive.PitLaps | internal/nascar/live.go:69-77 | Only stops with a positive pit-in lap are counted. There are no more of them than stops. |
| NascarLive.PitCount | internal/nascar/live.go:69-77 | The count is the number of stops with a positive pit-in lap, so 0 <= count <= stops. |
| NascarLive.PitLapsSnoc | internal/nascar/live.go:72-74 | Appending a stop adds one to the count exactly when its lap is positive. |
| NascarLive.LastPit | internal/nascar/live.go:80-87 | The last pit lap is never negative. |
| NascarLive.LastPitLap | internal/nascar/live.go:80-87 | The backward scan gives `LastPit`. |
| NascarLive.LastPitSpec | internal/nascar/live.go:80-87 | 0 exactly when no stop has a positive lap. Otherwise it is the lap of the latest stop with one. |
| NascarLive.LastPitIsLastCounted | internal/nascar/live.go:69-87 | The last pit lap is the last counted pit lap. It is 0 exactly when the pit count is 0. |
| NascarLive.LapsSinceLastPitSpec | internal/nascar/live.go:90-96 | `currentLap` when no stop has lap data. Otherwise `currentLap - LastPitLap`. |
| NascarLive.TotalLapsLed | internal/nascar/live.go:111-117 | The total is the sum of `end - start + 1` over the ranges. |
| NascarLive.LapsLedSumConcat | internal/nascar/live.go:113-115 | The sum splits over concatenated range lists. |
| NascarLive.LapsLedSumBounds | internal/nascar/live.go:111-117 | 0 exactly when there are no ranges. Well-formed ranges give at least one lap each. |
| NascarLive.FlagSymbolDistinct | internal/nascar/live.go:145-169 | Each of the five flag constants has its own symbol, different from the default. Every other value gets the default. |
| NascarLive.IsLiveCupRaceIgnoresFlag | internal/nascar/live.go:172-174 | Changing the flag state never changes `IsLiveCupRace`, so a finished race still counts. |
| NascarLive.FindDriver | internal/nascar/live.go:177-184 | The first vehicle with the number, and none exactly when no vehicle has it. |
| NascarLive.LeaderIndex | internal/nascar/live.go:187-194 | The first vehicle running in position 1, and none exactly when no vehicle is. |
| NascarLive.Leader | internal/nascar/live.go:187-194 | The search loop gives `LeaderIndex`. |
| NascarClient.DateLessOrder | internal/nascar/client.go:51-53 | Comparing scheduled-date strings is a strict weak order. |
| NascarClient.ParseCupSchedule | internal/nascar/client.go:45-55 | A decoding error is wrapped as "parsing schedule: ...". Otherwise the result is a permutation of the decoded races in ascending date order. |
| NascarClient.NextRace | internal/nascar/client.go:58-74 | The first race in list order that is upcoming: not complete, start parses, start after now - 6h. None exactly when no race is. It need not be the earliest race. |
| NascarClient.UpcomingEarlier | internal/nascar/client.go:68-70 | A race upcoming at `now` is upcoming at every earlier time. |
| NascarClient.NextRaceDeterministic | internal/nascar/client.go:58-74 | The contract of `NextRace` fixes its answer. |
| NascarSeries.FetchSchedule | internal/nascar/series.go:24-49 | A fetch error is wrapped as "nascar schedule: ...". Otherwise there is one series race per schedule race, in order. |
| NascarSeries.EligibleIsUpcoming | internal/nascar/series.go:24-49 | A race the series-wide selection may pick is one NASCAR's `NextRace` accepts too. |
| NascarSeries.VehicleToDriverRecovers | internal/nascar/series.go:97-105 | The driver keeps the car number and the running position, and position minus delta is the starting position. |
| NascarSeries.FlagNameDistinct | internal/nascar/series.go:142-157 | The five flags have distinct names, none of them "Unknown". Every other value is "Unknown". |
| NascarSeries.FlagNameMatchesSymbol | internal/nascar/series.go:142-157 | The name is "Unknown" exactly when the symbol is the default. |
| NascarSeries.RaceOver | internal/nascar/series.go:118-140 | True exactly when the schedule was fetched and the race with the id is complete, or its parsed start plus 4 h plus 90 min is before now. A fetch error, an unknown id or an unparsable start give false. |
| NascarSeries.FirstWithIdUnique | internal/nascar/series.go:127-128 | The first race with the id is unique. |
| NascarSeries.OverLater | internal/nascar/series.go:118-140 | Once a race is over it stays over as time passes. |
| NascarSeries.PositionLessOrder | internal/nascar/series.go:86-88 | Ordering by running position is a strict weak order. |
| NascarSeries.ToDrivers | internal/nascar/series.go:89-91 | Each vehicle is translated, in order. |
| NascarSeries.SortedPositions | internal/nascar/series.go:84-92 | One driver per vehicle, a permutation of the translated vehicles, in ascending running position. |
| NascarSeries.FetchLiveState | internal/nascar/series.go:51-95 | None, and no error, exactly when the fetch failed, the feed is not a live Cup race, or the race is finished and over. Otherwise the name, lap, total laps, flag symbol and flag name come from the feed; the leader is set only when a car runs in position 1; the positions are sorted. |
| F1Series.LastWith | internal/f1/series.go:30-33 | The element found has the key, and no later element has it: it is the last one with the key. None exactly when no element has it. |
| F1Series.KeyedByLast | internal/f1/series.go:30-33 | Filling the map in order leaves under each key the last element with that key. |
| F1Series.VirtualSafetyCarMentionsSafetyCar | internal/f1/series.go:190-193 | Every message naming the virtual safety car also names the safety car, so the test order decides. |
| F1Series.MapFlagSpec | internal/f1/series.go:185-204 | GREEN, YELLOW, RED and CHEQUERED give a symbol and a name. Every other flag gives ("", ""). A yellow is "VSC" when the message names the virtual safety car, "SAFETY CAR" when it names only the safety car, and "YELLOW" otherwise. |
| F1Series.GrandPrixNameSpec | internal/f1/series.go:51-54 | Every race name says "grand prix" in any case. A name that already did is kept. Applying the rule twice changes nothing more. |
| F1Series.SuffixSaysGrandPrix | internal/f1/series.go:53 | Appending " Grand Prix" makes a name say "grand prix". |
| F1Series.ScheduleOf | internal/f1/series.go:37-68 | There are no more races than sessions. |
| F1Series.RaceOfSpec | internal/f1/series.go:37-67 | A session yields a race exactly when a meeting has its key and its start parses. The race is named by `GrandPrixName` of the last meeting with that key, so the name says "grand prix", and its track is that meeting's circuit short name. It starts when the session starts. It is complete exactly when its end time parses and is before now. |
| F1Series.FetchSchedule | internal/f1/series.go:20-70 | The meetings error and the sessions error are wrapped. Otherwise the result is the races of the sessions. |
| F1Series.Latest | internal/f1/series.go:112-118 | The entry kept for a driver is one of that driver's entries, and there is none exactly when the driver has none. |
| F1Series.LatestSpec | internal/f1/series.go:112-118 | The kept entry has the greatest date string among the driver's entries. Of those with that date, it is the first seen. |
| F1Series.LatestPositions | internal/f1/series.go:112-118 | The de-duplication loop keeps `Latest` under every driver number. |
| F1Series.Values | internal/f1/series.go:121-124 | Reading the map's values gives each entry exactly once, in some order. |
| F1Series.LatestEntries | internal/f1/series.go:112-124 | One kept entry per driver. |
| F1Series.LatestEntriesPermutation | internal/f1/series.go:121-127 | Any reordering of the kept entries is still the kept entries. |
| F1Series.PositionLessOrder | internal/f1/series.go:125-127 | Ordering by position is a strict weak order. |
| F1Series.SortByPosition | internal/f1/series.go:125-127 | A permutation of the entries, in ascending position. |
| F1Series.ToDriverNumberInjective | internal/f1/series.go:133 | Distinct cars get distinct driver-number texts. |
| F1Series.FlagOfSpec | internal/f1/series.go:142-153 | The flag comes from the latest flag message whose flag maps to a symbol. It is empty exactly when there is none. |
| F1Series.MaxLap | internal/f1/series.go:144-160 | The current lap is the largest lap any message reports, and 0 when there are no messages. |
| F1Series.ScanRaceControl | internal/f1/series.go:142-160 | The backward scan and the fallback loop give `FlagOf` and `MaxLap`. |
| F1Series.DriverList | internal/f1/series.go:129-140 | Each entry is turned into a driver, in order. The compound is the last stint of that driver. |
| F1Series.LiveStateOf | internal/f1/series.go:100-182 | The live state has the drivers ordered by position, the first as leader or the zero driver when there are none, total laps 0, and the scanned flag and lap. |
| F1Series.FetchLiveState | internal/f1/series.go:72-183 | Errors fetching the session, positions, drivers and race control are returned. A stints error is ignored. There is no state unless the latest session is a "Race" that has not ended. Otherwise the result is `LiveStateOf`. |
| Weather.SymbolsDistinct | internal/weather/weather.go:95-118 | The symbols of the table differ pairwise. |
| Weather.SymbolGroups | internal/weather/weather.go:95-118 | Each symbol stands for exactly its group of codes. Drizzle, rain and showers share one symbol; the two snow groups share another; unlisted codes get the default. |
| Weather.GroupOf | internal/weather/weather.go:95-118 | Each code has a group whose symbol it gets. |
| Weather.GroupsDisjoint | internal/weather/weather.go:96-114 | No code is in two groups. |
| Weather.ArrowIndexInRange | internal/weather/weather.go:121-125 | For any direction from -66 degrees up, in particular every deg >= 0, the index is in [0, 7] and the lookup succeeds. Below that, `ArrowPanics` gives the failing directions. |
| Weather.ArrowPeriodic | internal/weather/weather.go:123 | For deg >= 0, deg and deg + 360 get the same arrow. |
| Weather.ArrowSector | internal/weather/weather.go:123 | Each compass point owns the 45-degree sector centred on it. 338 to 359 wrap around to north. |
| Weather.ArrowExamples | internal/weather/weather_test.go:40-51 | 0, 45, ..., 315 degrees give N, NE, ..., NW. 22 gives N, 23 gives NE, and 338 to 359 give N. |
| Weather.ArrowPanics | internal/weather/weather.go:123-124 | The table index goes out of range exactly when Go's remainder is at most -45. |
| Schedule.Parts | internal/ui/schedule.go:78-80 | Hours < 24, minutes < 60. The parts are within a minute below the difference. |
| Schedule.PartsBounds | internal/ui/schedule.go:78-80 | The days, hours and minutes computed as the source does bracket the difference to within a minute. |
| Schedule.PartsUnique | internal/ui/schedule.go:78-80 | The parts are the only in-range split, so they are the whole days, hours and minutes. |
| Schedule.FormatCountdownCases | internal/ui/schedule.go:72-90 | A target before now gives "". At least a day gives "Dd Hh". At least an hour gives "Hh Mm". Less gives "Mm". |
| Schedule.FormatCountdownNow | internal/ui/schedule.go:87-88 | A target equal to now gives "0m". A future target never gives "". |
| Schedule.FormatCountdownExamples | internal/ui/schedule.go:72-90 | One example of each form, and the past case. |
| Leaderboard.Initial | internal/ui/leaderboard.go:95-105 | The initial model is valid. The favourite is empty exactly when the driver number is not positive. |
| Leaderboard.CenteredOffset | internal/ui/leaderboard.go:370-375 | The offset is never negative, and with at least one visible row the target row is on screen (`o <= i < o + visible`). Away from the top the row sits `visible/2` (Go division) rows below the offset; the offset is 0 only when the row is within `visible/2` of the top. |
| Leaderboard.FirstWithNumber | internal/ui/leaderboard.go:365-369 | The first vehicle with the favourite's number, and none exactly when no vehicle has it. |
| Leaderboard.FirstMatchingSpec | internal/ui/leaderboard.go:386-391 | The first vehicle whose lower-cased full name contains the lower-cased term, or whose number equals it. None exactly when no vehicle matches. |
| Leaderboard.FirstMatchingAt | internal/ui/leaderboard.go:386-398 | When nothing before `i` matches, the first match is at `i` if it matches there, and there is none past the end. |
| Leaderboard.UpBounds | internal/ui/leaderboard.go:268-274 | Up decrements the cursor but not below 0, and keeps `0 <= offset <= cursor`. |
| Leaderboard.DownBounds | internal/ui/leaderboard.go:275-283 | Down moves at most one row, never past `vehicleCount - 1`, and keeps `cursor < offset + visibleRows`. |
| Leaderboard.JumpLands | internal/ui/leaderboard.go:363-379 | A jump lands on a row of the feed, and on the favourite's. |
| Leaderboard.TabCycles | internal/ui/leaderboard.go:287-288 | Tab cycles the sort column 0, 1, 2, 3, 0 and changes nothing else. |
| Leaderboard.ViewKeys | internal/ui/leaderboard.go:293-312 | Outside search mode, key 1 selects the F1 leaderboard in F1 mode and the NASCAR leaderboard otherwise, key 2 the matching schedule. Keys 3 and 4 select the entry list and the standings in NASCAR mode and change nothing in any other mode. Only the view changes. |
| Leaderboard.NascarOnlyViews | internal/ui/leaderboard.go:305-312 | In F1 mode keys 3 and 4 change nothing. |
| Leaderboard.SwitchLocks | internal/ui/leaderboard.go:241-245 | Switching toggles the series, shows its leaderboard and locks the series. Once it is locked, F1 live states no longer change the series or the view. |
| Leaderboard.AutoDetectCases | internal/ui/leaderboard.go:405-413 | Unless locked: an F1 state selects F1; else a live Cup feed selects NASCAR; else the series and view are left alone. |
| Leaderboard.FeedWeather | internal/ui/leaderboard.go:210-223 | Every feed message stores the feed and clears the error. It clears the weather exactly when nothing is live any more. Nothing else changes. |
| Leaderboard.SearchEditing | internal/ui/leaderboard.go:317-335 | Esc leaves search mode with an empty term. Backspace removes the last byte of a non-empty term and does nothing to an empty one. Typed runes are appended as UTF-8. Nothing else in the model changes. |
| Leaderboard.HasLiveRaceCases | internal/ui/leaderboard_test.go:21-47 | A live Cup feed or an F1 state is live. Nothing, or a practice feed without F1, is not. |
| Leaderboard.StepValid | internal/ui/leaderboard.go:201-261 | Every message keeps the model valid (cursor, offset and sort column in range). A locked series stays locked. |
| Leaderboard.KeyValid | internal/ui/leaderboard.go:263-315 | Every key outside search mode keeps the model valid and the lock. |
| Leaderboard.SearchKeyValid | internal/ui/leaderboard.go:317-335 | Every key in search mode keeps the model valid and the lock. |
| Leaderboard.FindValid | internal/ui/leaderboard.go:381-399 | A search moves only the cursor and the offset: every other field, including the width, height and sort fields of the navigation record, is unchanged. The model stays valid. |
| Leaderboard.FlagStateNameIsUpper | internal/ui/leaderboard.go:559-574 | The dashboard's flag name is the status line's `flagName` in capitals. |
| Leaderboard.Truncate | internal/ui/leaderboard.go:732-737 | At most `max` bytes: unchanged. Otherwise the first `max - 1` bytes and the three bytes of "…". |
| Leaderboard.EllipsisIsUtf8 | internal/ui/leaderboard.go:736 | The three bytes are the UTF-8 encoding of U+2026. |
| Leaderboard.Dashboard.constructor | internal/ui/leaderboard.go:95-105 | `NewModel` gives the initial state. |
| Leaderboard.Dashboard.Update | internal/ui/leaderboard.go:201-261 | The fields after a message are `Step` of the fields before, and the model stays valid. |
| Leaderboard.Dashboard.FeedArrived | internal/ui/leaderboard.go:210-223 | The feed branch changes only the data record, as `FeedStep` says. |
| Leaderboard.Dashboard.HandleKey | internal/ui/leaderboard.go:263-315 | `handleKey` changes the fields as `HandleKeyStep` says. |
| Leaderboard.Dashboard.SelectView | internal/ui/leaderboard.go:293-312 | The view keys change the fields as `ViewKey` says. |
| Leaderboard.Dashboard.HandleSearchKey | internal/ui/leaderboard.go:317-335 | `handleSearchKey` changes the fields as `HandleSearchKeyStep` says. |
| Leaderboard.Dashboard.SwitchSeries | internal/ui/leaderboard.go:415-424 | `switchSeries` changes the fields as `Switch` says. |
| Leaderboard.Dashboard.AutoDetectSeries | internal/ui/leaderboard.go:405-413 | `autoDetectSeries` changes the fields as `AutoDetect` says. |
| Leaderboard.Dashboard.CenterOn | internal/ui/leaderboard.go:370-376 | The cursor moves to the row and the offset centres it. |
| Leaderboard.Dashboard.JumpToFavorite | internal/ui/leaderboard.go:363-379 | The search with early return changes the fields as `Jump` says. |
| Leaderboard.Dashboard.FindDriver | internal/ui/leaderboard.go:381-399 | The search by lower-cased name fragment or car number changes the fields as `Find` says. |

## Left out

- Network I/O is left out: the NASCAR feed and schedule, OpenF1 and Open-Meteo fetches, and
  standings. Each fetch appears as a `Result` parameter holding what it returned.
- The filesystem caches are left out: their TTLs and the cache invalidation in `raceOver`.
  They depend on the disk and the clock.
- Config loading, notifications and the CLI flag parsing and polling loop of `main` are left
  out. They are orchestration around I/O.
- Three time inputs become parameters:
  - the clock is the `now` parameter;
  - `time.Parse` is the `parse` parameter;
  - the local-time formatting in `scheduleSegmentsFromRace` is an opaque `timeText`, so its
    "Today"/"Tomorrow" choice is not modelled.
- Floating-point data is left out: weather `Conditions`, the `%.0f` weather suffix, track
  coordinates and `weatherCoords`. The NASCAR `Delta` is an integer.
- Text.CharWidth: a small table of wide and zero-width ranges stands for the runewidth
  library's tables. Width is additive, so the library's drift on multi-code-point emoji (which
  text.go:86-87 mentions) is not captured. The proofs use additivity, the bound 2, and width 1
  for printable ASCII such as ' ', '.' and '|', which runewidth also gives.
- The emoji literals in the source are damaged by a wrong encoding. They are modelled as the
  code points those bytes evidently spell. Only their distinctness matters.
- Strings.ToLower, Strings.ToUpper: only ASCII letters are changed. Go's Unicode case mapping
  is not modelled.
- Strings.ToLowerBytes: lower-cases only ASCII bytes and keeps the length. Go's
  `strings.ToLower` decodes runes, maps them to Unicode lower case and replaces each invalid
  byte with U+FFFD (EF BF BD), so `Leaderboard.Find` differs from `findDriver` on non-ASCII
  input in two cases. A term cut inside a rune by Backspace (for example "é" leaves the byte
  C3) is searched as that byte, which matches a name holding "é", where Go searches for
  U+FFFD and usually finds nothing. An upper-case non-ASCII name ("JOSÉ") is not matched by
  its lower-case term ("josé"), where Go matches it.
- Key matching is reduced to a key type plus its runes. Alt-modified keys and paste events of
  the key library are not distinguished.
- `sortedVehicles`, a stable sort by float and numeric-text keys, is left out. Its result is
  a parameter of the key steps. `SortedView` requires it to be a permutation of the feed's
  vehicles (equal multisets); its order is not constrained.
- The `tea.Cmd` values `Update` returns are left out. The tick, weather-tick, weather,
  schedule and standings messages are modelled only for the fields they set.
- Leaderboard.Dashboard: the `Model` fields are grouped into `Data`, `Nav` and `Mode`
  records held by the class. Each method reassigns whole records.
- Leaderboard.Truncate: Go's slice panics when `max` is below 1 and the text is longer than
  `max`. The precondition excludes exactly that case.
- Weather.ArrowPanics: the out-of-range lookup, a panic in Go, is modelled as `None` from
  `WindDirectionArrow`. Directions from -381 to -67 degrees (modulo 360 towards zero) fall
  there, so every direction from -66 up is safe.
- NascarSeries.FetchLiveState: the method calls `feed.IsFinished()`, which the `LiveFeed`
  type does not define. Whether the race is finished is taken as the `finished` parameter.
- F1Series.FetchLiveState: a stints error is treated like an empty stint list. The compound
  map stores the whole last stint of each driver, and its compound is read from it. The
  map's iteration order is any order: `Values` promises only each entry once. `sort.Slice`
  may order equal positions either way, and every contract holds for either order.
- F1Series.FlagOfSpec: the source keeps scanning backwards while the symbol is still empty.
  So a later "Flag" message with an unmapped flag (for example BLUE) is skipped, and an
  earlier mapped one is used. The model follows the code here, not the comment about the
  last flag message.
- F1Series.RaceOfSpec: an end time that does not parse counts as Go's zero time, so the race
  is not complete. A zero time that parses is not told apart.
- Status.DropOrder: the lemma is stated for ranked segments of any width. The concrete test
  widths 65, 50 and 30 are not evaluated, since they depend on the runewidth library's
  tables.
- Status.ScheduleSegments: only the shape of the segments is stated. The time text is
  opaque.

## Findings

| source | as written | input that shows it | evidently intended | confidence | as-written member | corrected member |
|---|---|---|---|---|---|---|
| internal/ui/text.go:67 | `int(now*int64(speed)) % totalChars` is Go's truncating remainder, negative for a negative product, and the loop at line 73 then indexes `extendedRunes` at a negative index | now = 1700000001, speed = -1 (a negative `marquee_speed`), a 10-code-point ring: position -1, first index -1, a panic | the start position reduced into [0, totalChars) | not executed | Text.GoPositionNegative | Text.Position, Text.PositionAgrees |
