/**
 * A two-member leaderboard worked through processLeaderboardData: the events
 * are interleaved by time, points fall with the number of earlier finishers,
 * and the series are ranked and coloured.
 */
module Scenario {
  import opened Wrappers
  import opened StableSort
  import opened CivilTime
  import opened Stars
  import opened Events
  import opened Scoring
  import opened Ranking
  import opened Leaderboard

  function TwoMembers(): Payload
  {
    Payload(2022, [
      Member("1", Some("ada"), 1, [Completion(1, 1, 100), Completion(1, 2, 300)]),
      Member("2", None, 2, [Completion(1, 1, 200)])])
  }

  /** The pushes, member by member. */
  lemma TwoMembersAllEvents()
    ensures AllEvents(TwoMembers().members) == [Event("1", 0, 100_000), Event("1", 1, 300_000), Event("2", 0, 200_000)]
  {
    var ms := TwoMembers().members;
    var e1, e2, e3 := Event("1", 0, 100_000), Event("1", 1, 300_000), Event("2", 0, 200_000);
    assert MemberEvents(ms[0]) == [e1, e2] by {
      var es := MemberEvents(ms[0]);
      assert es[0] == ToEvent("1", Completion(1, 1, 100));
      assert es[1] == ToEvent("1", Completion(1, 2, 300));
    }
    assert MemberEvents(ms[1]) == [e3] by {
      assert MemberEvents(ms[1])[0] == ToEvent("2", Completion(1, 1, 200));
    }
    assert ms[..1] == [ms[0]] && ms[..1][..0] == [];
    assert AllEvents(ms[..1]) == [e1, e2];
  }

  lemma TwoMembersEvents()
    ensures AllEvents(TwoMembers().members) == [Event("1", 0, 100_000), Event("1", 1, 300_000), Event("2", 0, 200_000)]
    ensures SortedEvents(TwoMembers().members) == [Event("1", 0, 100_000), Event("2", 0, 200_000), Event("1", 1, 300_000)]
  {
    var e1, e2, e3 := Event("1", 0, 100_000), Event("1", 1, 300_000), Event("2", 0, 200_000);
    TwoMembersAllEvents();
    assert [e1, e2, e3][..2] == [e1, e2];
    assert [e1, e2][..1] == [e1];
    assert SortBy([e1], Timestamp) == [e1];
    assert SortBy([e1, e2], Timestamp) == [e1, e2];
    assert Insert([e1], e3, Timestamp) == [e1, e3];
    assert Insert([e1, e2], e3, Timestamp) == [e1, e3, e2];
  }

  lemma TwoMembersReplay(base: int)
    ensures var st := Replayed([Event("1", 0, 100_000), Event("2", 0, 200_000), Event("1", 1, 300_000)], 2022, 2, base);
      && st.order == ["1", "2"]
      && st.histories.Keys == {"1", "2"}
      && st.histories["1"] == [Entry(base, 0), Entry(100_000, 2), Entry(300_000, 4)]
      && st.histories["2"] == [Entry(base, 0), Entry(200_000, 1)]
      && st.maxScore == 4 && st.maxStars == 2
  {
    var e1, e2, e3 := Event("1", 0, 100_000), Event("1", 1, 300_000), Event("2", 0, 200_000);
    var evs := [e1, e3, e2];
    var b := Entry(base, 0);
    assert evs[..2] == [e1, e3];
    assert [e1, e3][..1] == [e1];
    assert [e1][..0] == [];
    var st1 := Replayed([e1], 2022, 2, base);
    assert Replayed([], 2022, 2, base) == InitialState();
    assert st1 == Step(Replayed([e1][..0], 2022, 2, base), e1, 2022, 2, base);
    assert st1 == Step(InitialState(), e1, 2022, 2, base);
    assert [b] + [Entry(100_000, 2)] == [b, Entry(100_000, 2)];
    assert st1.completed[0] == 1 && st1.completed[1] == 0;
    assert st1.order == ["1"] && st1.histories.Keys == {"1"} && st1.histories["1"] == [b, Entry(100_000, 2)];
    assert st1.maxScore == 2 && st1.maxStars == 1;
    var st2 := Replayed([e1, e3], 2022, 2, base);
    assert st2 == Step(st1, e3, 2022, 2, base);
    assert [b] + [Entry(200_000, 1)] == [b, Entry(200_000, 1)];
    assert st2.completed[0] == 2 && st2.completed[1] == 0;
    assert st2.order == ["1", "2"] && st2.histories.Keys == {"1", "2"};
    assert st2.histories["1"] == [b, Entry(100_000, 2)] && st2.histories["2"] == [b, Entry(200_000, 1)];
    assert st2.maxScore == 2 && st2.maxStars == 1;
    var st3 := Replayed(evs, 2022, 2, base);
    assert st3 == Step(st2, e2, 2022, 2, base);
    assert [b, Entry(100_000, 2)] + [Entry(300_000, 4)] == [b, Entry(100_000, 2), Entry(300_000, 4)];
  }

  lemma TwoMembersFlattened()
    ensures Flattened(TwoMembers().members) == Ok(AllEvents(TwoMembers().members))
  {
    var e1, e2, e3 := Event("1", 0, 100_000), Event("1", 1, 300_000), Event("2", 0, 200_000);
    TwoMembersEvents();
    var evs := [e1, e2, e3];
    assert FirstOutOfRange(evs[2..]) == 1;
    assert FirstOutOfRange(evs[1..]) == 2 by { assert evs[1..][1..] == evs[2..]; }
  }

  lemma TwoMembersSeries(base: int)
    ensures var sorted := [Event("1", 0, 100_000), Event("2", 0, 200_000), Event("1", 1, 300_000)];
      var st := Replayed(sorted, 2022, 2, base);
      && Collectable(TwoMembers().members, st.order, st.histories)
      && var c := CollectedSeries(TwoMembers().members, st.order, st.histories);
      && |c| == 2
      && c[0].userId == "1" && c[0].currentScore == 4
      && c[1].userId == "2" && c[1].currentScore == 1
      && SortBy(c, ScoreKey) == c
  {
    var ms := TwoMembers().members;
    var sorted := [Event("1", 0, 100_000), Event("2", 0, 200_000), Event("1", 1, 300_000)];
    TwoMembersReplay(base);
    var st := Replayed(sorted, 2022, 2, base);
    assert IsMemberId(ms, "1") && IsMemberId(ms, "2") by {
      assert ms[0].userId == "1" && ms[1].userId == "2";
    }
    var c := CollectedSeries(ms, st.order, st.histories);
    assert c[..1] == [c[0]];
    assert SortBy([c[0]], ScoreKey) == [c[0]];
    assert SortBy(c, ScoreKey) == Insert([c[0]], c[1], ScoreKey);
  }

  /** Two members: "1" completes star 0 first and star 1 last, "2" completes
      star 0 in between. "1" scores 2 then 2 more, "2" scores 1, so "1" ranks
      first with 4 points. */
  lemma TwoMembersRanked()
    ensures Build(TwoMembers()).Ok?
    ensures var d := Build(TwoMembers()).value;
      && |d.userSeriesData| == 2
      && d.userSeriesData[0].userId == "1" && d.userSeriesData[0].currentScore == 4
      && d.userSeriesData[1].userId == "2" && d.userSeriesData[1].currentScore == 1
      && d.userSeriesData[0].hue == 90.0 && d.userSeriesData[1].hue == 270.0
      && d.maxScore == 4 && d.maxStars == 2
      && d.minTimestamp == 100_000 && d.maxTimestamp == 300_000
  {
    var p := TwoMembers();
    var ms := p.members;
    var base := BaseTime(2022);
    var sorted := [Event("1", 0, 100_000), Event("2", 0, 200_000), Event("1", 1, 300_000)];
    assert AllInRange(sorted);
    var st := Replayed(sorted, 2022, 2, base);
    TwoMembersSeries(base);
    var c := CollectedSeries(ms, st.order, st.histories);
    TwoMembersEvents();
    TwoMembersFlattened();
    TwoMembersReplay(base);
    assert Build(p) == Ok(Dataset(0, 2, 100_000, 300_000, 0, 4, WithHues(c), sorted));
    assert Hue(0, 2) == 90.0 && Hue(1, 2) == 270.0;
  }
}
