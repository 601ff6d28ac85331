# Advent of Code leaderboard score timeline, in Dafny

This project models the core of a browser extension. The extension draws a private Advent of Code leaderboard as a
chart of each member's score over time. Its core is `processLeaderboardData` in `graph.js`. That function:

1. takes the leaderboard payload: the event year and, for every member, the time at which each star was completed;
2. flattens the completions into events on the 50 stars, numbered `(day - 1) * 2 + part - 1`;
3. sorts the events stably by time;
4. replays the events against 50 per-star completion counters. An event is worth the number of members minus the
   number who completed that star before it. In 2018, stars 10 and 11 are worth nothing;
5. returns one series per member who has an event. A series holds the member's cumulative score history, which
   starts at a baseline of 05:00 UTC on 1 December of the event year. The series are ranked by descending final score
   and given evenly spread hues;
6. also returns the axis bounds: the maximum score and the maximum event count of a member.

The imperative steps are Dafny methods, each proved equal to a specification function:

- `Events.Flatten` uses nested loops that push events;
- `StableSort.InsertionSortBy` is an in-place stable insertion sort on an `array`;
- `Scoring.Replay` uses a 50-slot counter `array`, a history map with its keys kept in insertion order, and running
  maxima;
- `Ranking.CollectSeries` builds the series;
- `Ranking.AssignHues` works in place on an `array`;
- `Leaderboard.ProcessLeaderboardData` runs the whole pipeline.

The properties the source promises are lemmas about those specification functions. The end-to-end lemmas, about
`Leaderboard.Build`, are in module `Properties`.

Modules, one per file:

- `Wrappers`: `Option` and `Result`.
- `StableSort`: the sort and its proofs.
- `Decimal`: how an integer is rendered in the `(anon #<id>)` label.
- `CivilTime`: `Date.UTC(year, 11, 1, 5)`.
- `Stars`: star numbering, the ignored-days table, points.
- `Events`: the payload and flattening.
- `Scoring`: the replay.
- `Ranking`: series, names, hues.
- `Leaderboard`: the whole function.
- `Properties`: end-to-end statements.
- `Scenario`: a worked two-member leaderboard.

The payload's `members` object is a sequence of members, in the order `Object.keys` yields. Unique keys
(`Ranking.DistinctUserIds`) are required only where a property depends on them. Timestamps are integer milliseconds.

## Model

| member | source | states |
|---|---|---|
| Stars.StarIndexBijection | graph.js:32 | for day 1..25 and part 1..2, the star index lies in 0..49 and gives back the day and the part; every index in 0..49 comes from exactly one day and part |
| Stars.StarsOfDays | graph.js:15-18 | the expansion of a list of days has two stars per day: at positions 2k and 2k+1 are parts 1 and 2 of the k-th day |
| Stars.ZeroedStarsMatchTableIn2018 | graph.js:107-111 | in 2018 the hard-coded rule voids exactly the stars that the ignored-days table lists (day 6, i.e. stars 10 and 11) |
| Stars.TableIgnoredIn2020 | graph.js:2-18 | the table lists day 1 of 2020 (stars 0 and 1), yet no 2020 star is voided and star 0 keeps its full value |
| Stars.PointsRule | graph.js:105-111 | a voided star is worth 0 whatever its count; otherwise each earlier completion costs one point; outside 2018 a star is worth members minus completions; the value is never negative while fewer members than exist have completed it |
| CivilTime.DaysToYearStep | graph.js:10 | consecutive years are 366 days apart exactly when the first is a Gregorian leap year, otherwise 365 |
| CivilTime.BaseTimeYearApart | graph.js:10 | for every year but 99 and -1 (where the 0..99 rule breaks the sequence), two consecutive baselines are one year of milliseconds apart, 366 days when the February between them is a leap February |
| CivilTime.BaseTimeTwoDigitYear | graph.js:10 | Date.UTC takes a year 0..99 to be 1900..1999 |
| CivilTime.BaseTimeKnownValues | graph.js:10 | the baselines of 1970 and 2018 are 1970-12-01T05:00Z and 2018-12-01T05:00Z in epoch milliseconds |
| Decimal.NatToString | graph.js:130 | the rendering of a natural number is non-empty, all digits, with no leading zero |
| Decimal.IntToStringRoundTrip | graph.js:130 | parsing the rendering of any integer gives it back |
| Ranking.AnonNamesDistinct | graph.js:130 | members with distinct ids get distinct `(anon #<id>)` labels |
| Ranking.MemberById | graph.js:130 | the lookup `json.members[k]` yields a member of the payload whose key is k |
| Ranking.MemberByIdFinds | graph.js:130 | with unique keys, the lookup by a member's key finds that member |
| Events.FirstOutOfRange | graph.js:40 | the position of the first event whose star is outside 0..49: every event before it is on a star, and the one at it is not |
| Events.AllEventsCount | graph.js:25-43 | flattening makes exactly one event per completion record |
| Events.AllEventsFromMembers | graph.js:25-39 | every flattened event is some member's completion record, with that member's key, star index and time in milliseconds |
| Events.FlattenedStopsAt | graph.js:40 | when every record before the first bad record is on a star, the flattening fails with the member and the star index of that bad record |
| Events.Flatten | graph.js:25-43 | the nested push loops produce the flattened events, or the error of the first record whose star is outside 0..49 |
| StableSort.SortByIsStableSort | graph.js:44 | sorting keeps the length, orders by key, is a permutation, and keeps the relative order of the elements of each key |
| StableSort.StableArrangementUnique | graph.js:44 | two sequences that are both sorted by key and hold the same elements of each key, in the same order, are equal |
| StableSort.SortByIsTheStableSort | graph.js:44 | any sorted rearrangement that keeps each key's elements in input order is the result of the sort; a stable sort's result is unique |
| StableSort.SortByKeepsTieOrder | graph.js:136 | two sorted elements with equal keys occur in that order in the input |
| StableSort.SortByKeepsDistinctBy | graph.js:136 | sorting does not bring together two elements that differ on a field |
| StableSort.SortByKeepsSum | graph.js:136 | sorting does not change a sum over the elements |
| StableSort.InsertSplit | graph.js:44 | inserting into a run lands the new element right after the last element whose key is not larger, ahead of every larger key, which is what keeps the sort stable |
| StableSort.InsertInto | graph.js:44 | moving one element left past the larger keys of the sorted prefix leaves that prefix holding the insertion of the element, and the rest of the array unchanged |
| StableSort.InsertionSortBy | graph.js:44 | the in-place insertion sort leaves the array holding the stable sort of its old contents |
| Scoring.ReplayEvent | graph.js:93-118 | one pass of the loop body moves the counters, the history map, the key order and the maxima exactly as one `Step` of the reference replay |
| Scoring.Replay | graph.js:89-120 | the replay loop, with its 50-counter array, history map, key order and running maxima, ends in the state of replaying the events one at a time |
| Scoring.ReplayedCounters | graph.js:105-119 | each star's counter ends at the number of events on that star, voided stars included |
| Scoring.UserHistoryShape | graph.js:93-118 | a member's history is the baseline at the base time with score 0, then one entry per event of the member, in event order; each entry carries the event's time and the previous score plus the event's points |
| Scoring.UserHistoryLength | graph.js:93-118 | a member's history has one entry more than the member has events |
| Scoring.ReplayedHistories | graph.js:93-118 | the map holds a history for exactly the members with an event, and that history is the member's own history |
| Scoring.ReplayedFirstSeen | graph.js:93-99 | the map's keys, in insertion order, are the members with an event, each once, ordered by the position of their first event |
| Scoring.ReplayedEventCount | graph.js:92-120 | the entries of all histories, less the baselines, number exactly the events |
| Scoring.ReplayedMaxima | graph.js:113-114 | maxScore bounds every score in every history and is reached by one of them; maxStars bounds every member's event count and is reached by one; both are 0 without events |
| Scoring.PointsPositive | graph.js:105-106 | when no member completes a star twice, fewer than numMembers members precede an event on its star, so the event is worth at least 1, or 0 if voided |
| Scoring.HistoryNonDecreasing | graph.js:112 | under the same condition, scores along every history never decrease |
| Ranking.CollectSeries | graph.js:122-134 | the loop over the map yields one series per key, in insertion order, with the member's display name, its history and the history's last score |
| Ranking.AssignHues | graph.js:138-143 | the in-place loop gives the i-th of n series the hue `360/n/2 + i*360/n` and changes nothing else |
| Ranking.HuesSpread | graph.js:138-143 | with n series the hues lie strictly inside (0, 360), are spaced 360/n apart and rise strictly |
| Leaderboard.SortedEventsFacts | graph.js:44 | the time-sorted events are still each on a star and each of a member of the payload |
| Leaderboard.SortEvents | graph.js:44 | copying the events into an array and sorting it by timestamp yields their stable sort by time |
| Leaderboard.RankSeries | graph.js:136-143 | sorting the series by descending score and colouring them yields the stable ranking with the evenly spread hues |
| Leaderboard.ProcessLeaderboardData | graph.js:7-155 | the whole imperative pipeline returns what the specification `Build` describes, error cases included |
| Properties.AllInRangeIff | graph.js:32-40 | every event is on a star exactly when every completion record names one of the 50 stars |
| Properties.MemberIdsCount | graph.js:11 | with unique keys, the number of keys, `numMembers`, is the number of members |
| Properties.CountUserOfMember | graph.js:25-39 | with unique keys, a member has as many events as completion records |
| Properties.AllEventsPairsDistinct | graph.js:25-39 | with unique keys and no star completed twice by a member, no two events share both member and star |
| Properties.BuildOutcome | graph.js:7-155 | the function returns exactly when every record names a star and there is at least one record; with no record it throws at `events[0]` |
| Properties.BuildStarError | graph.js:32-40 | a record naming no star makes the function throw, and the error names a member's key and one of its records' star index, outside 0..49 |
| Properties.BuildEvents | graph.js:25-44 | the returned events are ordered by time, are a permutation of every record's event, keep push order among equal times, and number the records |
| Properties.BuildTimeBounds | graph.js:148-149 | minTimestamp and maxTimestamp bound every record's time in milliseconds and are each some record's time |
| Properties.BuildSeries | graph.js:122-143 | the k-th series belongs to a member with an event; it has that member's display name, the member's history starting at the baseline with one entry per event of the member, that history's last score, and hue k of n |
| Properties.BuildSeriesMembers | graph.js:123 | a member has a series exactly when it has a completion record; members without one get none |
| Properties.BuildSeriesDistinct | graph.js:123-134 | no member has two series |
| Properties.BuildRanking | graph.js:136-143 | the series run from the highest current score to the lowest, and their hues rise strictly inside (0, 360) |
| Properties.BuildRankingTies | graph.js:136 | series with equal current scores are in the order of their members' first events in time, the map's insertion order |
| Properties.BuildMaxScore | graph.js:113 | maxScore is at least every score in every series and equals one of them |
| Properties.BuildMaxStars | graph.js:114 | maxStars is at least every series' number of entries beyond the baseline, and equals one of them |
| Properties.BuildHistoryLengths | graph.js:115-118 | with unique keys, a series holds one entry per completion record of its member, after the baseline |
| Properties.BuildEventCount | graph.js:92-120 | the series' entries beyond their baselines add up to the number of completion records |
| Properties.BuildHistoryTimes | graph.js:115-118 | after the baseline, a series' entries are in non-decreasing time order |
| Properties.BuildScoresNonDecreasing | graph.js:105-112 | with unique keys and no star completed twice by a member, every series' scores never decrease |
| Properties.HistoryStepPoints | graph.js:105-112 | the entry for an event on a voided star repeats the previous score; any other event adds the number of members minus the earlier completions of its star |
| Scenario.TwoMembersRanked | graph.js:7-155 | with two members, where one completes star 0 first and star 1 last and the other completes star 0 in between, the first ranks first with 4 points, the second has 1, the hues are 90 and 270, maxScore is 4 and maxStars is 2 |

## Left out

- `buildGraph` (graph.js:157-266) is not modelled. It is SVG construction, d3 scales, axes, legend and zoom, built over a library that is not part of this model, with floating-point pixel arithmetic.
- content.js and standalone.js are not modelled. They are browser glue: DOM injection, `fetch` of the JSON, a show/hide handler and page bootstrap.
- The block at graph.js:54-87 is not modelled. It computes `userScoreHistory` and `maxTotalScore`, then discards them.
- The per-star sort at graph.js:45 is not modelled. It only feeds that discarded block.
- The `starEvents` push at graph.js:40 is modelled only as the error it raises for a star outside 0..49. Its contents feed only the per-star sort at graph.js:45 and the discarded block at graph.js:54-87, so they never reach the result.
- JSON parsing, `parseInt` and `Date` parsing are not modelled. The payload is taken as integers and strings: the event year, day, part and completion seconds.
- Date values outside `Date`'s range, which become invalid dates, are not modelled.
- Float rounding in the hue loop is not modelled. Hues are exact reals. JavaScript accumulates `currentHue += hueDelta` in floating point, so its last hues can differ in the last bits.
- Ranking.AssignHues uses the length of the series array as the hue divisor. The source divides by the map's size, which is always the same number. With no series the source divides by zero, gets Infinity, and the loop does nothing; the model returns early instead.
- Decimal.IntToString renders every integer in plain decimal. JavaScript switches to exponent notation for ids of 1e21 and above.
- Scoring.Replay keeps each history as a value in the map and writes back the extended history. The source pushes onto the array that the map already references. The resulting map is the same, but aliasing is not modelled.
- Behaviour the model keeps as graph.js has it:
  - members with zero completions get no series, because graph.js:123 iterates only over the members with an event;
  - the ignored-days table (graph.js:2-18) is computed but never read; only the hard-coded 2018 rule at graph.js:107-111 voids stars, so day 1 of 2020 earns points;
  - a payload with no event throws when reading `events[0]` (graph.js:148);
  - events with the same completion time give equal times in a history, so history times are only non-decreasing (graph.js:44, graph.js:113);
  - the baseline time (graph.js:10) is not compared with event times: every history starts with it, whatever the times of the events after it.
