/**
 * processLeaderboardData (graph.js lines 7-155): flattens the payload into
 * events, orders them by time, replays them into score histories, and
 * returns the chart's data set: the events, one ranked and coloured series
 * per member with an event, and the axis bounds.
 */
module Leaderboard {
  import opened Wrappers
  import opened StableSort
  import opened CivilTime
  import opened Events
  import opened Scoring
  import opened Ranking

  /** The parsed payload: the `event` year and the `members` object, its
      entries in the order Object.keys yields them. */
  datatype Payload = Payload(event: int, members: seq<Member>)

  /** The object processLeaderboardData returns (lines 145-154); times are in
      milliseconds since the epoch. */
  datatype Dataset = Dataset(
    minStars: int, maxStars: int,
    minTimestamp: int, maxTimestamp: int,
    minScore: int, maxScore: int,
    userSeriesData: seq<Series>,
    events: seq<Event>)

  /** The sort key of line 44. */
  function Timestamp(e: Event): int
  {
    e.timestamp
  }

  /** A successful flattening holds every event, all of them on a star. */
  lemma FlattenedOk(ms: seq<Member>)
    requires Flattened(ms).Ok?
    ensures Flattened(ms).value == AllEvents(ms) && AllInRange(AllEvents(ms))
  {
  }

  /** The events in time order: still on stars, and each of some member. */
  lemma SortedEventsFacts(ms: seq<Member>)
    requires AllInRange(AllEvents(ms))
    ensures AllInRange(SortBy(AllEvents(ms), Timestamp))
    ensures forall k :: 0 <= k < |SortBy(AllEvents(ms), Timestamp)| ==>
      IsMemberId(ms, SortBy(AllEvents(ms), Timestamp)[k].userId)
  {
    var evs := AllEvents(ms);
    var sorted := SortBy(evs, Timestamp);
    forall k | 0 <= k < |sorted| ensures InRange(sorted[k]) && IsMemberId(ms, sorted[k].userId) {
      SortByMembers(evs, Timestamp, k);
      var a :| 0 <= a < |evs| && evs[a] == sorted[k];
      AllEventsFromMembers(ms, a);
    }
  }

  /** Every key of the replayed history map is a member of the payload. */
  lemma ReplayedCollectable(ms: seq<Member>, evs: seq<Event>, year: int, baseTime: int)
    requires AllInRange(evs)
    requires forall k :: 0 <= k < |evs| ==> IsMemberId(ms, evs[k].userId)
    ensures var st := Replayed(evs, year, |ms|, baseTime);
      Collectable(ms, st.order, st.histories)
  {
    var st := Replayed(evs, year, |ms|, baseTime);
    ReplayedFirstSeen(evs, year, |ms|, baseTime);
    ReplayedOrder(evs, year, |ms|, baseTime);
    forall k | 0 <= k < |st.order| ensures IsMemberId(ms, st.order[k]) {
      CountUserPositive(evs, st.order[k]);
    }
  }

  /** The events in time order, ties in push order. */
  function SortedEvents(ms: seq<Member>): seq<Event>
  {
    SortBy(AllEvents(ms), Timestamp)
  }

  /** The value processLeaderboardData returns, or the error it throws. */
  function Build(p: Payload): Result<Dataset, BuildError>
  {
    match Flattened(p.members)
    case Err(e) => Err(e)
    case Ok(_) =>
      FlattenedOk(p.members);
      SortedEventsFacts(p.members);
      var events := SortedEvents(p.members);
      var year, numMembers := p.event, |p.members|;
      var st := Replayed(events, year, numMembers, BaseTime(year));
      ReplayedCollectable(p.members, events, year, BaseTime(year));
      var series := WithHues(SortBy(CollectedSeries(p.members, st.order, st.histories), ScoreKey));
      if |events| == 0 then Err(NoEvents)
      else Ok(Dataset(0, st.maxStars, events[0].timestamp, events[|events| - 1].timestamp,
                      0, st.maxScore, series, events))
  }

  /** `events.sort(...)` of line 44 on a fresh array holding the events. */
  method SortEvents(flat: seq<Event>) returns (sorted: seq<Event>)
    ensures sorted == SortBy(flat, Timestamp)
  {
    var events := new Event[|flat|](k requires 0 <= k < |flat| => flat[k]);
    assert events[..] == flat;
    InsertionSortBy(events, Timestamp);
    sorted := events[..];
  }

  /** Lines 136-143: sorts the series by descending score and colours them. */
  method RankSeries(collected: seq<Series>) returns (ranked: seq<Series>)
    ensures ranked == WithHues(SortBy(collected, ScoreKey))
  {
    var userSeriesData := new Series[|collected|](k requires 0 <= k < |collected| => collected[k]);
    assert userSeriesData[..] == collected;
    InsertionSortBy(userSeriesData, ScoreKey);
    AssignHues(userSeriesData);
    ranked := userSeriesData[..];
  }

  /** processLeaderboardData: flatten, sort the events by time, replay them,
      collect one series per history, rank the series by score and colour
      them; with no event at all, reading `events[0]` throws. */
  method ProcessLeaderboardData(p: Payload) returns (r: Result<Dataset, BuildError>)
    ensures r == Build(p)
  {
    var eventYear := p.event;
    var baseTime := BaseTime(eventYear);
    var numMembers := |p.members|;

    var flat := Flatten(p.members);
    if flat.Err? {
      return Err(flat.error);
    }
    FlattenedOk(p.members);
    SortedEventsFacts(p.members);
    var events := SortEvents(flat.value);

    var st := Replay(events, eventYear, numMembers, baseTime);
    ReplayedCollectable(p.members, events, eventYear, baseTime);
    var collected := CollectSeries(p.members, st.order, st.histories);
    var userSeriesData := RankSeries(collected);

    if |events| == 0 {
      return Err(NoEvents);
    }
    return Ok(Dataset(0, st.maxStars, events[0].timestamp, events[|events| - 1].timestamp,
                      0, st.maxScore, userSeriesData, events));
  }
}
