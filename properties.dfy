/**
 * What processLeaderboardData promises about its result, stated on Build in
 * terms of the payload: when it throws, the order and bounds of the events,
 * who gets a series and what it holds, the ranking and its colours, the axis
 * maxima, and that scores never go down when the payload is well formed.
 */
module Properties {
  import opened Wrappers
  import opened StableSort
  import opened CivilTime
  import opened Stars
  import opened Events
  import opened Scoring
  import opened Ranking
  import opened Leaderboard

  // ----- Facts about the payload -----

  /** Every completion record names one of the 50 stars. */
  ghost predicate StarsOnBoard(ms: seq<Member>)
  {
    forall i, j :: 0 <= i < |ms| && 0 <= j < |ms[i].completions| ==>
      0 <= StarIndex(ms[i].completions[j].day, ms[i].completions[j].part) < NumStars
  }

  /** Every completion record becomes an event. */
  lemma {:induction false} MemberEventIn(ms: seq<Member>, i: int, j: int)
    requires 0 <= i < |ms| && 0 <= j < |ms[i].completions|
    ensures exists k :: 0 <= k < |AllEvents(ms)| && AllEvents(ms)[k] == ToEvent(ms[i].userId, ms[i].completions[j])
  {
    var init := ms[..|ms| - 1];
    if i < |ms| - 1 {
      assert init[i] == ms[i];
      MemberEventIn(init, i, j);
      var k :| 0 <= k < |AllEvents(init)| && AllEvents(init)[k] == ToEvent(ms[i].userId, ms[i].completions[j]);
      assert AllEvents(ms)[k] == AllEvents(init)[k];
    } else {
      var k := |AllEvents(init)| + j;
      assert AllEvents(ms)[k] == MemberEvents(ms[i])[j];
    }
  }

  lemma AllInRangeIff(ms: seq<Member>)
    ensures AllInRange(AllEvents(ms)) <==> StarsOnBoard(ms)
  {
    if AllInRange(AllEvents(ms)) {
      forall i, j | 0 <= i < |ms| && 0 <= j < |ms[i].completions|
        ensures 0 <= StarIndex(ms[i].completions[j].day, ms[i].completions[j].part) < NumStars
      {
        MemberEventIn(ms, i, j);
      }
    }
    if StarsOnBoard(ms) {
      forall k | 0 <= k < |AllEvents(ms)| ensures InRange(AllEvents(ms)[k]) {
        AllEventsFromMembers(ms, k);
      }
    }
  }

  /** No member completes the same star twice. */
  ghost predicate StarsDistinct(ms: seq<Member>)
  {
    forall i, a, b :: 0 <= i < |ms| && 0 <= a < b < |ms[i].completions| ==>
      StarIndex(ms[i].completions[a].day, ms[i].completions[a].part) !=
      StarIndex(ms[i].completions[b].day, ms[i].completions[b].part)
  }

  /** The keys of the members object. */
  function MemberIds(ms: seq<Member>): set<string>
  {
    if ms == [] then {} else MemberIds(ms[..|ms| - 1]) + {ms[|ms| - 1].userId}
  }

  lemma {:induction false} MemberIdsMembership(ms: seq<Member>)
    ensures forall u :: u in MemberIds(ms) <==> IsMemberId(ms, u)
  {
    if ms != [] {
      var init := ms[..|ms| - 1];
      MemberIdsMembership(init);
      forall u ensures IsMemberId(ms, u) <==> IsMemberId(init, u) || u == ms[|ms| - 1].userId {
        if IsMemberId(ms, u) && u != ms[|ms| - 1].userId {
          var i :| 0 <= i < |ms| && ms[i].userId == u;
          assert init[i] == ms[i];
        }
        if IsMemberId(init, u) {
          var i :| 0 <= i < |init| && init[i].userId == u;
          assert ms[i] == init[i];
        }
      }
    }
  }

  /** With unique keys, there are as many keys as members. */
  lemma {:induction false} MemberIdsCount(ms: seq<Member>)
    requires DistinctUserIds(ms)
    ensures |MemberIds(ms)| == |ms|
  {
    if ms != [] {
      var init := ms[..|ms| - 1];
      assert DistinctUserIds(init) by {
        forall i, j | 0 <= i < j < |init| ensures init[i].userId != init[j].userId {
          assert init[i] == ms[i] && init[j] == ms[j];
        }
      }
      MemberIdsCount(init);
      MemberIdsMembership(init);
      forall i | 0 <= i < |init| ensures init[i].userId != ms[|ms| - 1].userId {
        assert init[i] == ms[i];
      }
      assert ms[|ms| - 1].userId !in MemberIds(init);
    }
  }

  lemma {:induction false} CountUserAppend(a: seq<Event>, b: seq<Event>, u: string)
    ensures CountUser(a + b, u) == CountUser(a, u) + CountUser(b, u)
  {
    if b != [] {
      assert (a + b)[..|a + b| - 1] == a + b[..|b| - 1];
      CountUserAppend(a, b[..|b| - 1], u);
    } else {
      assert a + b == a;
    }
  }

  /** Counting a member's events is a sum over the events. */
  function OneIfOf(u: string): Event -> int
  {
    (e: Event) => if e.userId == u then 1 else 0
  }

  lemma {:induction false} CountUserIsSum(evs: seq<Event>, u: string)
    ensures CountUser(evs, u) == SumBy(evs, OneIfOf(u))
  {
    if evs != [] {
      CountUserIsSum(evs[..|evs| - 1], u);
    }
  }

  lemma {:induction false} CountUserOfOne(evs: seq<Event>, u: string, v: string)
    requires forall k :: 0 <= k < |evs| ==> evs[k].userId == v
    ensures CountUser(evs, u) == if u == v then |evs| else 0
  {
    if evs != [] {
      CountUserOfOne(evs[..|evs| - 1], u, v);
    }
  }

  /** With unique keys, a member has one event per completion record. */
  lemma {:induction false} CountUserOfMember(ms: seq<Member>, i: int)
    requires DistinctUserIds(ms) && 0 <= i < |ms|
    ensures CountUser(AllEvents(ms), ms[i].userId) == |ms[i].completions|
  {
    var init, m, u := ms[..|ms| - 1], ms[|ms| - 1], ms[i].userId;
    CountUserAppend(AllEvents(init), MemberEvents(m), u);
    CountUserOfOne(MemberEvents(m), u, m.userId);
    if i < |ms| - 1 {
      assert init[i] == ms[i];
      assert DistinctUserIds(init) by {
        forall a, b | 0 <= a < b < |init| ensures init[a].userId != init[b].userId {
          assert init[a] == ms[a] && init[b] == ms[b];
        }
      }
      CountUserOfMember(init, i);
    } else {
      forall k | 0 <= k < |AllEvents(init)| ensures AllEvents(init)[k].userId != u {
        AllEventsFromMembers(init, k);
        var a, j :| 0 <= a < |init| && 0 <= j < |init[a].completions| &&
          AllEvents(init)[k] == ToEvent(init[a].userId, init[a].completions[j]);
        assert init[a] == ms[a];
      }
      CountUserOfNone(AllEvents(init), u);
    }
  }

  lemma {:induction false} CountUserOfNone(evs: seq<Event>, u: string)
    requires forall k :: 0 <= k < |evs| ==> evs[k].userId != u
    ensures CountUser(evs, u) == 0
  {
    if evs != [] {
      CountUserOfNone(evs[..|evs| - 1], u);
    }
  }

  function PairOf(e: Event): (string, int)
  {
    (e.userId, e.star)
  }

  /** With unique keys and no star completed twice by a member, no two events
      share both member and star. */
  lemma {:induction false} AllEventsPairsDistinct(ms: seq<Member>)
    requires DistinctUserIds(ms) && StarsDistinct(ms)
    ensures DistinctBy(AllEvents(ms), PairOf)
  {
    if ms != [] {
      var init, m := ms[..|ms| - 1], ms[|ms| - 1];
      assert DistinctUserIds(init) by {
        forall a, b | 0 <= a < b < |init| ensures init[a].userId != init[b].userId {
          assert init[a] == ms[a] && init[b] == ms[b];
        }
      }
      assert StarsDistinct(init) by {
        forall i, a, b | 0 <= i < |init| && 0 <= a < b < |init[i].completions|
          ensures StarIndex(init[i].completions[a].day, init[i].completions[a].part) !=
                  StarIndex(init[i].completions[b].day, init[i].completions[b].part)
        {
          assert init[i] == ms[i];
        }
      }
      AllEventsPairsDistinct(init);
      var A, M := AllEvents(init), MemberEvents(m);
      var all := AllEvents(ms);
      assert all == A + M;
      forall j, k | 0 <= j < k < |all| ensures PairOf(all[j]) != PairOf(all[k]) {
        if k >= |A| && j < |A| {
          AllEventsFromMembers(init, j);
          var a, c :| 0 <= a < |init| && 0 <= c < |init[a].completions| &&
            A[j] == ToEvent(init[a].userId, init[a].completions[c]);
          assert init[a] == ms[a];
          assert all[k] == M[k - |A|];
        } else if j >= |A| {
          assert all[j] == M[j - |A|] && all[k] == M[k - |A|];
        }
      }
    }
  }

  // ----- When processLeaderboardData throws -----

  /** It returns exactly when every record names a star and there is at
      least one record; with no record at all it throws at `events[0]`. */
  lemma BuildOutcome(p: Payload)
    ensures Build(p).Ok? <==> StarsOnBoard(p.members) && TotalCompletions(p.members) > 0
    ensures TotalCompletions(p.members) == 0 ==> Build(p) == Err(NoEvents)
  {
    var ms := p.members;
    AllEventsCount(ms);
    AllInRangeIff(ms);
    if Flattened(ms).Ok? {
      FlattenedOk(ms);
      SortedEventsFacts(ms);
      SortByLength(AllEvents(ms), Timestamp);
    }
  }

  /** A record naming no star makes it throw, and the error names a record's
      member and its star index, which lies outside 0..49. */
  lemma BuildStarError(p: Payload)
    ensures !StarsOnBoard(p.members) ==> Build(p).Err? && Build(p).error.StarOutOfRange?
    ensures Build(p).Err? && Build(p).error.StarOutOfRange? ==>
      exists i, j :: 0 <= i < |p.members| && 0 <= j < |p.members[i].completions| &&
        p.members[i].userId == Build(p).error.userId &&
        StarIndex(p.members[i].completions[j].day, p.members[i].completions[j].part) == Build(p).error.star &&
        !(0 <= Build(p).error.star < NumStars)
  {
    var ms := p.members;
    var evs := AllEvents(ms);
    AllInRangeIff(ms);
    if Flattened(ms).Err? {
      var k := FirstOutOfRange(evs);
      AllEventsFromMembers(ms, k);
    }
  }

  // ----- The events -----

  /** The events are every record's event, ordered by time, records with the
      same time keeping the order in which they were pushed. */
  lemma BuildEvents(p: Payload)
    requires Build(p).Ok?
    ensures var d, evs := Build(p).value, AllEvents(p.members);
      && d.events == SortedEvents(p.members)
      && SortedBy(d.events, Timestamp)
      && multiset(d.events) == multiset(evs)
      && (forall t :: WithKey(d.events, Timestamp, t) == WithKey(evs, Timestamp, t))
      && |d.events| == TotalCompletions(p.members)
  {
    FlattenedOk(p.members);
    SortedEventsFacts(p.members);
    SortByIsStableSort(AllEvents(p.members), Timestamp);
    AllEventsCount(p.members);
  }

  /** minTimestamp and maxTimestamp are the earliest and latest completion
      time over all records, in milliseconds. */
  lemma BuildTimeBounds(p: Payload)
    requires Build(p).Ok?
    ensures var d, ms := Build(p).value, p.members;
      && (forall i, j :: 0 <= i < |ms| && 0 <= j < |ms[i].completions| ==>
            d.minTimestamp <= ms[i].completions[j].ts * 1000 <= d.maxTimestamp)
      && (exists i, j :: 0 <= i < |ms| && 0 <= j < |ms[i].completions| &&
            ms[i].completions[j].ts * 1000 == d.minTimestamp)
      && (exists i, j :: 0 <= i < |ms| && 0 <= j < |ms[i].completions| &&
            ms[i].completions[j].ts * 1000 == d.maxTimestamp)
  {
    var d, ms := Build(p).value, p.members;
    var evs := AllEvents(ms);
    BuildEvents(p);
    var n := |d.events|;
    forall i, j | 0 <= i < |ms| && 0 <= j < |ms[i].completions|
      ensures d.minTimestamp <= ms[i].completions[j].ts * 1000 <= d.maxTimestamp
    {
      MemberEventIn(ms, i, j);
      var a :| 0 <= a < |evs| && evs[a] == ToEvent(ms[i].userId, ms[i].completions[j]);
      SortByContains(evs, Timestamp, a);
      var k :| 0 <= k < n && d.events[k] == evs[a];
      assert Timestamp(d.events[0]) <= Timestamp(d.events[k]) <= Timestamp(d.events[n - 1]);
    }
    SortByMembers(evs, Timestamp, 0);
    var a :| 0 <= a < |evs| && evs[a] == d.events[0];
    AllEventsFromMembers(ms, a);
    SortByMembers(evs, Timestamp, n - 1);
    var b :| 0 <= b < |evs| && evs[b] == d.events[n - 1];
    AllEventsFromMembers(ms, b);
  }

  // ----- The series -----

  /** The state the replay of the sorted events ends in. */
  ghost function FinalState(p: Payload): ReplayState
    requires Build(p).Ok?
  {
    FlattenedOk(p.members);
    SortedEventsFacts(p.members);
    Replayed(SortedEvents(p.members), p.event, |p.members|, BaseTime(p.event))
  }

  /** The series before ranking: one per history, in the map's order. */
  ghost function Collected(p: Payload): seq<Series>
    requires Build(p).Ok?
  {
    FlattenedOk(p.members);
    SortedEventsFacts(p.members);
    ReplayedCollectable(p.members, SortedEvents(p.members), p.event, BaseTime(p.event));
    CollectedSeries(p.members, FinalState(p).order, FinalState(p).histories)
  }

  function UserIdOf(s: Series): string
  {
    s.userId
  }

  /** The facts about the replay that the series are built from. */
  lemma FinalStateFacts(p: Payload)
    requires Build(p).Ok?
    ensures var st, d := FinalState(p), Build(p).value;
      && d.userSeriesData == WithHues(SortBy(Collected(p), ScoreKey))
      && d.maxScore == st.maxScore && d.maxStars == st.maxStars
      && |Collected(p)| == |st.order|
      && Collectable(p.members, st.order, st.histories)
      && (forall a :: 0 <= a < |st.order| ==>
            (st.order[a] in st.histories &&
             Collected(p)[a] == MakeSeries(p.members, st.order[a], st.histories[st.order[a]])))
      && NoDuplicates(st.order)
      && (forall u :: u in st.order <==> CountUser(d.events, u) > 0)
      && (forall u :: u in st.order <==> u in st.histories)
      && (forall i, j :: 0 <= i < j < |st.order| ==> FirstIndex(d.events, st.order[i]) < FirstIndex(d.events, st.order[j]))
      && (forall u :: u in st.histories ==>
            st.histories[u] == UserHistory(d.events, u, p.event, |p.members|, BaseTime(p.event)))
  {
    FlattenedOk(p.members);
    SortedEventsFacts(p.members);
    var evs := SortedEvents(p.members);
    var year, n, base := p.event, |p.members|, BaseTime(p.event);
    ReplayedFirstSeen(evs, year, n, base);
    ReplayedOrder(evs, year, n, base);
    ReplayedHistories(evs, year, n, base);
    ReplayedCollectable(p.members, evs, year, base);
  }

  /** The keys of the replayed map are the members with an event. */
  lemma FinalStateKeys(p: Payload)
    requires Build(p).Ok?
    ensures Build(p).value.events == SortedEvents(p.members)
    ensures |Collected(p)| == |FinalState(p).order|
    ensures forall u :: u in FinalState(p).order <==> CountUser(Build(p).value.events, u) > 0
    ensures forall u :: u in FinalState(p).histories <==> CountUser(Build(p).value.events, u) > 0
  {
    FlattenedOk(p.members);
    SortedEventsFacts(p.members);
    ReplayedKeys(SortedEvents(p.members), p.event, |p.members|, BaseTime(p.event));
    ReplayedHistories(SortedEvents(p.members), p.event, |p.members|, BaseTime(p.event));
    ReplayedCollectable(p.members, SortedEvents(p.members), p.event, BaseTime(p.event));
  }

  /** The k-th series is the sorted series k, coming from a key of the map. */
  lemma SeriesAt(p: Payload, k: int)
    requires Build(p).Ok? && 0 <= k < |Build(p).value.userSeriesData|
    ensures var d, st := Build(p).value, FinalState(p);
      exists a :: 0 <= a < |st.order| && Collected(p)[a] == SortBy(Collected(p), ScoreKey)[k] &&
        d.userSeriesData[k] == Collected(p)[a].(hue := Hue(k, |d.userSeriesData|))
  {
    var c := Collected(p);
    FinalStateFacts(p);
    SortByLength(c, ScoreKey);
    SortByMembers(c, ScoreKey, k);
  }

  /** What the series coming from key u of the map holds. */
  lemma SeriesOfKey(p: Payload, a: int)
    requires Build(p).Ok? && 0 <= a < |FinalState(p).order|
    ensures var d, st, ms := Build(p).value, FinalState(p), p.members;
      var s, u := Collected(p)[a], st.order[a];
      && s.userId == u
      && IsMemberId(ms, u)
      && s.userName == DisplayName(MemberById(ms, u))
      && CountUser(d.events, u) > 0
      && u in st.histories
      && s.scoreHistory == st.histories[u]
      && s.scoreHistory == UserHistory(d.events, u, p.event, |ms|, BaseTime(p.event))
      && |s.scoreHistory| == 1 + CountUser(d.events, u)
      && s.scoreHistory[0] == Entry(BaseTime(p.event), 0)
      && s.currentScore == LastScore(s.scoreHistory)
  {
    var d, st := Build(p).value, FinalState(p);
    FinalStateFacts(p);
    var u := st.order[a];
    assert u in st.order;
    UserHistoryShape(d.events, u, p.event, |p.members|, BaseTime(p.event));
    UserHistoryLength(d.events, u, p.event, |p.members|, BaseTime(p.event));
  }

  /** Each series belongs to a member with an event: it carries the member's
      display name, the member's history (the baseline at 05:00 UTC on
      1 December, then one entry per event of the member), the last score of
      that history, and the k-th of n evenly spread hues. */
  lemma BuildSeries(p: Payload, k: int)
    requires Build(p).Ok? && 0 <= k < |Build(p).value.userSeriesData|
    ensures var d, ms := Build(p).value, p.members;
      var s := d.userSeriesData[k];
      && IsMemberId(ms, s.userId)
      && s.userName == DisplayName(MemberById(ms, s.userId))
      && CountUser(d.events, s.userId) > 0
      && s.scoreHistory == UserHistory(d.events, s.userId, p.event, |ms|, BaseTime(p.event))
      && |s.scoreHistory| == 1 + CountUser(d.events, s.userId)
      && s.scoreHistory[0] == Entry(BaseTime(p.event), 0)
      && s.currentScore == LastScore(s.scoreHistory)
      && s.hue == Hue(k, |d.userSeriesData|)
  {
    var d := Build(p).value;
    SeriesAt(p, k);
    var a :| 0 <= a < |FinalState(p).order| && d.userSeriesData[k] == Collected(p)[a].(hue := Hue(k, |d.userSeriesData|));
    SeriesOfKey(p, a);
  }

  /** A member with an event has a series, holding that member's history. */
  lemma SeriesOfUser(p: Payload, u: string)
    requires Build(p).Ok? && CountUser(Build(p).value.events, u) > 0
    ensures var d := Build(p).value;
      exists k :: 0 <= k < |d.userSeriesData| && d.userSeriesData[k].userId == u &&
        u in FinalState(p).histories && d.userSeriesData[k].scoreHistory == FinalState(p).histories[u]
  {
    var d, st, c := Build(p).value, FinalState(p), Collected(p);
    RankedFromCollected(p);
    FinalStateKeys(p);
    var b :| 0 <= b < |st.order| && st.order[b] == u;
    SeriesOfKey(p, b);
    SortByLength(c, ScoreKey);
    SortByContains(c, ScoreKey, b);
    var k :| 0 <= k < |c| && SortBy(c, ScoreKey)[k] == c[b];
    assert d.userSeriesData[k] == c[b].(hue := Hue(k, |d.userSeriesData|));
  }

  /** A member has a series exactly when it has a completion record. */
  lemma BuildSeriesMembers(p: Payload, u: string)
    requires Build(p).Ok?
    ensures var d, ms := Build(p).value, p.members;
      (exists k :: 0 <= k < |d.userSeriesData| && d.userSeriesData[k].userId == u) <==>
      (exists i :: 0 <= i < |ms| && ms[i].userId == u && |ms[i].completions| > 0)
  {
    var d, ms := Build(p).value, p.members;
    var evs := AllEvents(ms);
    BuildEvents(p);
    if k :| 0 <= k < |d.userSeriesData| && d.userSeriesData[k].userId == u {
      BuildSeries(p, k);
      CountUserPositive(d.events, u);
      var e :| 0 <= e < |d.events| && d.events[e].userId == u;
      SortByMembers(evs, Timestamp, e);
      var a :| 0 <= a < |evs| && evs[a] == d.events[e];
      AllEventsFromMembers(ms, a);
    }
    if i :| 0 <= i < |ms| && ms[i].userId == u && |ms[i].completions| > 0 {
      MemberEventIn(ms, i, 0);
      var a :| 0 <= a < |evs| && evs[a] == ToEvent(u, ms[i].completions[0]);
      SortByContains(evs, Timestamp, a);
      var e :| 0 <= e < |d.events| && d.events[e] == evs[a];
      CountUserPositive(d.events, u);
      SeriesOfUser(p, u);
    }
  }

  /** No member has two series. */
  lemma BuildSeriesDistinct(p: Payload)
    requires Build(p).Ok?
    ensures var ss := Build(p).value.userSeriesData;
      forall i, j :: 0 <= i < j < |ss| ==> ss[i].userId != ss[j].userId
  {
    var d, st, c := Build(p).value, FinalState(p), Collected(p);
    FinalStateFacts(p);
    forall a, b | 0 <= a < b < |c| ensures UserIdOf(c[a]) != UserIdOf(c[b]) {
      SeriesOfKey(p, a);
      SeriesOfKey(p, b);
    }
    SortByKeepsDistinctBy(c, ScoreKey, UserIdOf);
    SortByLength(c, ScoreKey);
    var sorted := SortBy(c, ScoreKey);
    forall i, j | 0 <= i < j < |d.userSeriesData| ensures d.userSeriesData[i].userId != d.userSeriesData[j].userId {
      assert d.userSeriesData[i].userId == UserIdOf(sorted[i]);
      assert d.userSeriesData[j].userId == UserIdOf(sorted[j]);
    }
  }

  /** The series run from the highest current score to the lowest, and their
      hues rise strictly through the open interval (0, 360). */
  lemma BuildRanking(p: Payload)
    requires Build(p).Ok?
    ensures var ss := Build(p).value.userSeriesData;
      && (forall i, j :: 0 <= i < j < |ss| ==> ss[i].currentScore >= ss[j].currentScore)
      && (forall k :: 0 <= k < |ss| ==> 0.0 < ss[k].hue < 360.0)
      && (forall i, j :: 0 <= i < j < |ss| ==> ss[i].hue < ss[j].hue)
  {
    var d, c := Build(p).value, Collected(p);
    var ss := d.userSeriesData;
    FinalStateFacts(p);
    SortByIsStableSort(c, ScoreKey);
    var sorted := SortBy(c, ScoreKey);
    forall i, j | 0 <= i < j < |ss| ensures ss[i].currentScore >= ss[j].currentScore {
      assert ScoreKey(sorted[i]) <= ScoreKey(sorted[j]);
    }
    if |ss| > 0 {
      HuesSpread(|ss|);
    }
  }

  /** Series with equal scores keep the order of the map, that is the order
      of their members' first events in time. */
  lemma BuildRankingTies(p: Payload, i: int, j: int)
    requires Build(p).Ok?
    requires 0 <= i < j < |Build(p).value.userSeriesData|
    requires Build(p).value.userSeriesData[i].currentScore == Build(p).value.userSeriesData[j].currentScore
    ensures var d := Build(p).value;
      && CountUser(d.events, d.userSeriesData[i].userId) > 0
      && CountUser(d.events, d.userSeriesData[j].userId) > 0
      && FirstIndex(d.events, d.userSeriesData[i].userId) < FirstIndex(d.events, d.userSeriesData[j].userId)
  {
    var d, c := Build(p).value, Collected(p);
    FinalStateFacts(p);
    var sorted := SortBy(c, ScoreKey);
    assert ScoreKey(sorted[i]) == ScoreKey(sorted[j]);
    SortByKeepsTieOrder(c, ScoreKey, i, j);
    var a, b :| 0 <= a < b < |c| && c[a] == sorted[i] && c[b] == sorted[j];
    SeriesOfKey(p, a);
    SeriesOfKey(p, b);
  }

  /** The replay's running maxima, for the sorted events. */
  lemma FinalMaxima(p: Payload)
    requires Build(p).Ok?
    ensures var d, st := Build(p).value, FinalState(p);
      && (forall u, k :: u in st.histories && 0 <= k < |st.histories[u]| ==> st.histories[u][k].score <= d.maxScore)
      && (exists u, k :: u in st.histories && 0 <= k < |st.histories[u]| && st.histories[u][k].score == d.maxScore)
      && (forall u :: CountUser(d.events, u) <= d.maxStars)
      && (exists i :: 0 <= i < |d.events| && CountUser(d.events, d.events[i].userId) == d.maxStars)
  {
    FinalStateFacts(p);
    BuildEvents(p);
    BuildOutcome(p);
    FlattenedOk(p.members);
    SortedEventsFacts(p.members);
    ReplayedMaxima(Build(p).value.events, p.event, |p.members|, BaseTime(p.event));
  }

  /** maxScore is the highest score any series reaches. */
  lemma BuildMaxScore(p: Payload)
    requires Build(p).Ok?
    ensures var d := Build(p).value;
      var ss := d.userSeriesData;
      && (forall k, l :: 0 <= k < |ss| && 0 <= l < |ss[k].scoreHistory| ==> ss[k].scoreHistory[l].score <= d.maxScore)
      && (exists k, l :: 0 <= k < |ss| && 0 <= l < |ss[k].scoreHistory| && ss[k].scoreHistory[l].score == d.maxScore)
  {
    var d, st := Build(p).value, FinalState(p);
    var ss := d.userSeriesData;
    FinalMaxima(p);
    forall k, l | 0 <= k < |ss| && 0 <= l < |ss[k].scoreHistory| ensures ss[k].scoreHistory[l].score <= d.maxScore {
      SeriesAt(p, k);
      var a :| 0 <= a < |st.order| && ss[k] == Collected(p)[a].(hue := Hue(k, |ss|));
      SeriesOfKey(p, a);
    }
    var u, l :| u in st.histories && 0 <= l < |st.histories[u]| && st.histories[u][l].score == d.maxScore;
    FinalStateKeys(p);
    SeriesOfUser(p, u);
  }

  /** maxStars is the largest number of events of one member, and so the
      longest history less its baseline. */
  lemma BuildMaxStars(p: Payload)
    requires Build(p).Ok?
    ensures var d := Build(p).value;
      var ss := d.userSeriesData;
      && (forall k :: 0 <= k < |ss| ==> |ss[k].scoreHistory| - 1 <= d.maxStars)
      && (exists k :: 0 <= k < |ss| && |ss[k].scoreHistory| - 1 == d.maxStars)
  {
    var d, st := Build(p).value, FinalState(p);
    var ss := d.userSeriesData;
    FinalMaxima(p);
    forall k | 0 <= k < |ss| ensures |ss[k].scoreHistory| - 1 <= d.maxStars {
      BuildSeries(p, k);
    }
    var i :| 0 <= i < |d.events| && CountUser(d.events, d.events[i].userId) == d.maxStars;
    var v := d.events[i].userId;
    CountUserPositive(d.events, v);
    SeriesOfUser(p, v);
    var k :| 0 <= k < |ss| && ss[k].userId == v && ss[k].scoreHistory == st.histories[v];
    BuildSeries(p, k);
  }

  /** With unique keys, a series holds one entry per completion record of
      its member, after the baseline. */
  lemma BuildHistoryLengths(p: Payload, k: int)
    requires Build(p).Ok? && 0 <= k < |Build(p).value.userSeriesData|
    requires DistinctUserIds(p.members)
    ensures var s := Build(p).value.userSeriesData[k];
      IsMemberId(p.members, s.userId) &&
      |s.scoreHistory| == 1 + |MemberById(p.members, s.userId).completions|
  {
    var d, ms := Build(p).value, p.members;
    var u := d.userSeriesData[k].userId;
    BuildSeries(p, k);
    BuildEvents(p);
    var m := MemberById(ms, u);
    var i :| 0 <= i < |ms| && ms[i] == m;
    CountUserOfMember(ms, i);
    CountUserIsSum(d.events, u);
    CountUserIsSum(AllEvents(ms), u);
    SortByKeepsSum(AllEvents(ms), Timestamp, OneIfOf(u));
  }

  /** When keys are unique and no member completes a star twice, as in any
      payload the site serves, every score history only goes up. */
  lemma BuildScoresNonDecreasing(p: Payload, k: int)
    requires Build(p).Ok? && 0 <= k < |Build(p).value.userSeriesData|
    requires DistinctUserIds(p.members) && StarsDistinct(p.members)
    ensures var h := Build(p).value.userSeriesData[k].scoreHistory;
      forall l :: 0 < l < |h| ==> h[l - 1].score <= h[l].score
  {
    var d, ms := Build(p).value, p.members;
    BuildSeries(p, k);
    BuildEvents(p);
    FlattenedOk(ms);
    SortedEventsFacts(ms);
    AllEventsPairsDistinct(ms);
    SortByKeepsDistinctBy(AllEvents(ms), Timestamp, PairOf);
    assert PairsDistinct(d.events) by {
      forall a, b | 0 <= a < b < |d.events| && d.events[a].userId == d.events[b].userId
        ensures d.events[a].star != d.events[b].star
      {
        assert PairOf(d.events[a]) != PairOf(d.events[b]);
      }
    }
    MemberIdsMembership(ms);
    MemberIdsCount(ms);
    HistoryNonDecreasing(d.events, MemberIds(ms), d.userSeriesData[k].userId, p.event, |ms|, BaseTime(p.event));
  }

  /** The events a series records beyond its baseline. */
  function HistoryEvents(s: Series): int
  {
    |s.scoreHistory| - 1
  }

  lemma {:induction false} SumByPointwise<T>(a: seq<T>, b: seq<T>, f: T -> int)
    requires |a| == |b| && forall k :: 0 <= k < |a| ==> f(a[k]) == f(b[k])
    ensures SumBy(a, f) == SumBy(b, f)
  {
    if a != [] {
      SumByPointwise(a[..|a| - 1], b[..|b| - 1], f);
    }
  }

  lemma {:induction false} CollectedEventCount(ms: seq<Member>, order: seq<string>, histories: map<string, seq<Entry>>)
    requires Collectable(ms, order, histories)
    ensures SumBy(CollectedSeries(ms, order, histories), HistoryEvents) == RecordedEvents(order, histories)
  {
    if order != [] {
      var init := order[..|order| - 1];
      var c := CollectedSeries(ms, order, histories);
      assert CollectedSeries(ms, init, histories) == c[..|c| - 1];
      CollectedEventCount(ms, init, histories);
    }
  }

  /** The ranked series are the collected ones, sorted by score and coloured. */
  lemma RankedFromCollected(p: Payload)
    requires Build(p).Ok?
    ensures Build(p).value.userSeriesData == WithHues(SortBy(Collected(p), ScoreKey))
  {
    FlattenedOk(p.members);
    SortedEventsFacts(p.members);
    ReplayedCollectable(p.members, SortedEvents(p.members), p.event, BaseTime(p.event));
  }

  /** The collected series record, beyond their baselines, one entry per
      completion record. */
  lemma CollectedCount(p: Payload)
    requires Build(p).Ok?
    ensures SumBy(Collected(p), HistoryEvents) == TotalCompletions(p.members)
  {
    FlattenedOk(p.members);
    SortedEventsFacts(p.members);
    var evs := SortedEvents(p.members);
    var st := FinalState(p);
    ReplayedCollectable(p.members, evs, p.event, BaseTime(p.event));
    ReplayedEventCount(evs, p.event, |p.members|, BaseTime(p.event));
    CollectedEventCount(p.members, st.order, st.histories);
    SortByLength(AllEvents(p.members), Timestamp);
    AllEventsCount(p.members);
  }

  /** Every completion record is counted in exactly one series: the series'
      entries beyond their baselines add up to the number of records. */
  lemma BuildEventCount(p: Payload)
    requires Build(p).Ok?
    ensures SumBy(Build(p).value.userSeriesData, HistoryEvents) == TotalCompletions(p.members)
  {
    var c := Collected(p);
    RankedFromCollected(p);
    CollectedCount(p);
    SortByKeepsSum(c, ScoreKey, HistoryEvents);
    SortByLength(c, ScoreKey);
    SumByPointwise(Build(p).value.userSeriesData, SortBy(c, ScoreKey), HistoryEvents);
  }

  lemma HistoryTimesFollowEvents(evs: seq<Event>, u: string, year: int, numMembers: int, baseTime: int)
    requires SortedBy(evs, Timestamp)
    ensures var h := UserHistory(evs, u, year, numMembers, baseTime);
      forall a, b :: 1 <= a < b < |h| ==> h[a].timestamp <= h[b].timestamp
  {
    UserHistoryShape(evs, u, year, numMembers, baseTime);
    UserIndicesFacts(evs, u);
    var h, idx := UserHistory(evs, u, year, numMembers, baseTime), UserIndices(evs, u);
    forall a, b | 1 <= a < b < |h| ensures h[a].timestamp <= h[b].timestamp {
      assert Timestamp(evs[idx[a - 1]]) <= Timestamp(evs[idx[b - 1]]);
    }
  }

  /** After the baseline, a history's entries follow the events' time order. */
  lemma BuildHistoryTimes(p: Payload, k: int)
    requires Build(p).Ok? && 0 <= k < |Build(p).value.userSeriesData|
    ensures var h := Build(p).value.userSeriesData[k].scoreHistory;
      forall a, b :: 1 <= a < b < |h| ==> h[a].timestamp <= h[b].timestamp
  {
    var d := Build(p).value;
    BuildSeries(p, k);
    BuildEvents(p);
    HistoryTimesFollowEvents(d.events, d.userSeriesData[k].userId, p.event, |p.members|, BaseTime(p.event));
  }

  /** An event on a voided star leaves its member's score where it was, and
      every other event adds the number of members that had not completed
      its star before it. */
  lemma HistoryStepPoints(evs: seq<Event>, u: string, year: int, numMembers: int, baseTime: int, k: int)
    requires 0 <= k < |UserIndices(evs, u)|
    ensures var h, idx := UserHistory(evs, u, year, numMembers, baseTime), UserIndices(evs, u);
      && 0 <= idx[k] < |evs| && k + 1 < |h|
      && h[k + 1].timestamp == evs[idx[k]].timestamp
      && (ZeroedStar(year, evs[idx[k]].star) ==> h[k + 1].score == h[k].score)
      && (!ZeroedStar(year, evs[idx[k]].star) ==>
            h[k + 1].score == h[k].score + numMembers - CountStar(evs[..idx[k]], evs[idx[k]].star))
  {
    UserHistoryShape(evs, u, year, numMembers, baseTime);
  }
}
