/**
 * From histories to the ranked, coloured series (graph.js lines 122-143):
 * one series per key of the history map, in the map's insertion order, with
 * the member's display name and final score; the series are then sorted by
 * descending score, keeping ties in map order, and given hues spread evenly
 * around the colour wheel.
 */
module Ranking {
  import opened Wrappers
  import opened Decimal
  import opened Events
  import opened Scoring

  /** One line of the chart. */
  datatype Series = Series(userId: string, userName: string, scoreHistory: seq<Entry>, currentScore: int, hue: real)

  /** The label of a member without a name. */
  function AnonName(id: int): string
  {
    "(anon #" + IntToString(id) + ")"
  }

  /** `name ?? "(anon #<id>)"`: a present name is kept, even an empty one. */
  function DisplayName(m: Member): string
  {
    match m.name
    case Some(n) => n
    case None => AnonName(m.id)
  }

  /** The member under key u, `json.members[u]`. */
  function MemberById(ms: seq<Member>, u: string): (m: Member)
    requires IsMemberId(ms, u)
    ensures m in ms && m.userId == u
  {
    if ms[0].userId == u then ms[0]
    else
      assert IsMemberId(ms[1..], u) by {
        var i :| 0 <= i < |ms| && ms[i].userId == u;
        assert ms[1..][i - 1] == ms[i];
      }
      MemberById(ms[1..], u)
  }

  ghost predicate DistinctUserIds(ms: seq<Member>)
  {
    forall i, j :: 0 <= i < j < |ms| ==> ms[i].userId != ms[j].userId
  }

  /** Keys are unique, so the lookup finds the member itself. */
  lemma MemberByIdFinds(ms: seq<Member>, i: int)
    requires DistinctUserIds(ms) && 0 <= i < |ms|
    ensures MemberById(ms, ms[i].userId) == ms[i]
  {
    var m := MemberById(ms, ms[i].userId);
    var j :| 0 <= j < |ms| && ms[j] == m;
    assert ms[j].userId == ms[i].userId;
  }

  /** Strings that agree on a common prefix and suffix agree in the middle. */
  lemma AffixCancel(p: string, x: string, y: string, q: string)
    requires p + x + q == p + y + q
    ensures x == y
  {
    assert x + q == (p + x + q)[|p|..];
    assert y + q == (p + y + q)[|p|..];
    assert x == (x + q)[..|x|];
    assert y == (y + q)[..|y|];
  }

  /** Distinct anonymous members get distinct labels. */
  lemma AnonNamesDistinct(id1: int, id2: int)
    requires id1 != id2
    ensures AnonName(id1) != AnonName(id2)
  {
    if AnonName(id1) == AnonName(id2) {
      AffixCancel("(anon #", IntToString(id1), IntToString(id2), ")");
      IntToStringInjective(id1, id2);
    }
  }

  ghost predicate Collectable(ms: seq<Member>, order: seq<string>, histories: map<string, seq<Entry>>)
  {
    forall k :: 0 <= k < |order| ==> order[k] in histories && IsMemberId(ms, order[k])
  }

  function MakeSeries(ms: seq<Member>, u: string, h: seq<Entry>): Series
    requires IsMemberId(ms, u)
  {
    Series(u, DisplayName(MemberById(ms, u)), h, LastScore(h), 0.0)
  }

  /** One series per key, in the map's insertion order. */
  function CollectedSeries(ms: seq<Member>, order: seq<string>, histories: map<string, seq<Entry>>): seq<Series>
    requires Collectable(ms, order, histories)
  {
    seq(|order|, k requires 0 <= k < |order| && Collectable(ms, order, histories) =>
      MakeSeries(ms, order[k], histories[order[k]]))
  }

  lemma TakeOneMore<T>(s: seq<T>, i: int)
    requires 0 <= i < |s|
    ensures s[..i + 1] == s[..i] + [s[i]]
  {
  }

  /** Builds `userSeriesData` by iterating the map (lines 122-134). */
  method CollectSeries(ms: seq<Member>, order: seq<string>, histories: map<string, seq<Entry>>)
    returns (userSeriesData: seq<Series>)
    requires Collectable(ms, order, histories)
    ensures userSeriesData == CollectedSeries(ms, order, histories)
  {
    ghost var all := CollectedSeries(ms, order, histories);
    userSeriesData := [];
    for i := 0 to |order|
      invariant userSeriesData == all[..i]
    {
      var k := order[i];
      var v := histories[k];
      var currentScore := 0;
      if |v| > 0 {
        currentScore := v[|v| - 1].score;
      }
      var m := MemberById(ms, k);
      var userName := match m.name case Some(n) => n case None => AnonName(m.id);
      assert Series(k, userName, v, currentScore, 0.0) == all[i];
      TakeOneMore(all, i);
      userSeriesData := userSeriesData + [Series(k, userName, v, currentScore, 0.0)];
    }
    assert all[..|order|] == all;
  }

  /** The sort key of line 136: descending current score. */
  function ScoreKey(s: Series): int
  {
    -s.currentScore
  }

  /** The hue of the i-th of n series: half a step, then i steps of 360/n. */
  function Hue(i: int, n: int): real
    requires n > 0
  {
    360.0 / (n as real) / 2.0 + (i as real) * (360.0 / (n as real))
  }

  function WithHues(ss: seq<Series>): seq<Series>
  {
    seq(|ss|, k requires 0 <= k < |ss| => ss[k].(hue := Hue(k, |ss|)))
  }

  /** Gives the series their hues in list order (lines 138-143). The source
      divides by the map's size before looking at the list; with no series
      that division yields Infinity and the loop does nothing, which here is
      the early return. */
  method AssignHues(userSeriesData: array<Series>)
    modifies userSeriesData
    ensures userSeriesData[..] == WithHues(old(userSeriesData[..]))
  {
    var n := userSeriesData.Length;
    if n == 0 {
      return;
    }
    var hueDelta := 360.0 / (n as real);
    var currentHue := hueDelta / 2.0;
    for i := 0 to n
      invariant currentHue == Hue(i, n)
      invariant forall k :: 0 <= k < i ==> userSeriesData[k] == old(userSeriesData[k]).(hue := Hue(k, n))
      invariant forall k :: i <= k < n ==> userSeriesData[k] == old(userSeriesData[k])
    {
      userSeriesData[i] := userSeriesData[i].(hue := currentHue);
      currentHue := currentHue + hueDelta;
    }
  }

  lemma HueStep(i: int, n: int)
    requires n > 0
    ensures Hue(i + 1, n) - Hue(i, n) == 360.0 / (n as real)
  {
    var d := 360.0 / (n as real);
    assert ((i + 1) as real) * d == (i as real) * d + d;
  }

  lemma HueInside(i: int, n: int)
    requires 0 <= i < n
    ensures 0.0 < Hue(i, n) < 360.0
  {
    var d := 360.0 / (n as real);
    assert d > 0.0;
    assert d * (n as real) == 360.0;
    assert (i as real) * d <= ((n - 1) as real) * d;
    assert ((n - 1) as real) * d == 360.0 - d;
  }

  lemma HueRises(i: int, j: int, n: int)
    requires 0 <= i < j && n > 0
    ensures Hue(i, n) < Hue(j, n)
  {
    var d := 360.0 / (n as real);
    assert d > 0.0;
    assert (i as real) * d < (j as real) * d;
  }

  /** The hues are evenly spaced 360/n apart, strictly inside (0, 360), and
      so pairwise distinct. */
  lemma HuesSpread(n: int)
    requires n > 0
    ensures forall i :: 0 <= i < n ==> 0.0 < Hue(i, n) < 360.0
    ensures forall i :: 0 <= i < n - 1 ==> Hue(i + 1, n) - Hue(i, n) == 360.0 / (n as real)
    ensures forall i, j :: 0 <= i < j < n ==> Hue(i, n) < Hue(j, n)
  {
    forall i | 0 <= i < n ensures 0.0 < Hue(i, n) < 360.0 {
      HueInside(i, n);
    }
    forall i | 0 <= i < n - 1 ensures Hue(i + 1, n) - Hue(i, n) == 360.0 / (n as real) {
      HueStep(i, n);
    }
    forall i, j | 0 <= i < j < n ensures Hue(i, n) < Hue(j, n) {
      HueRises(i, j, n);
    }
  }
}
