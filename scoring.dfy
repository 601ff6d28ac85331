/**
 * Replaying the sorted events against the star counters (graph.js lines
 * 89-120): every event scores one point per member who has not yet completed
 * its star (nothing for a voided star), appends the member's new cumulative
 * score to its history, which starts with a zero-score baseline, and counts
 * one more completion of the star. The replay also tracks the largest score
 * and the largest history length seen before a push.
 */
module Scoring {
  import opened Stars
  import opened Events

  /** One point of a score history. */
  datatype Entry = Entry(timestamp: int, score: int)

  /** The variables the replay loop updates: the `numCompleted` counter of
      every star, the `scoreHistoriesByUserId` map with its keys in insertion
      order (the order a JavaScript Map iterates in), `maxScore`, `maxStars`. */
  datatype ReplayState = ReplayState(
    completed: seq<int>,
    histories: map<string, seq<Entry>>,
    order: seq<string>,
    maxScore: int,
    maxStars: int)

  function InitialState(): ReplayState
  {
    ReplayState(seq(NumStars, _ => 0), map[], [], 0, 0)
  }

  function Max(a: int, b: int): int { if a >= b then a else b }

  /** The score of the last entry; graph.js guards the empty history. */
  function LastScore(h: seq<Entry>): int
  {
    if |h| > 0 then h[|h| - 1].score else 0
  }

  /** The loop body of lines 93-119 for one event. */
  function Step(st: ReplayState, e: Event, year: int, numMembers: int, baseTime: int): ReplayState
    requires |st.completed| == NumStars && InRange(e)
  {
    var known := e.userId in st.histories;
    var h := if known then st.histories[e.userId] else [Entry(baseTime, 0)];
    var updated := LastScore(h) + Points(year, numMembers, st.completed[e.star], e.star);
    ReplayState(
      st.completed[e.star := st.completed[e.star] + 1],
      st.histories[e.userId := h + [Entry(e.timestamp, updated)]],
      if known then st.order else st.order + [e.userId],
      Max(st.maxScore, updated),
      Max(st.maxStars, |h|))
  }

  /** The state after replaying evs in order from the initial state. */
  function Replayed(evs: seq<Event>, year: int, numMembers: int, baseTime: int): (st: ReplayState)
    requires AllInRange(evs)
    ensures |st.completed| == NumStars
  {
    if evs == [] then InitialState()
    else Step(Replayed(evs[..|evs| - 1], year, numMembers, baseTime), evs[|evs| - 1], year, numMembers, baseTime)
  }

  /** Replaying one more event is one more Step. */
  lemma ReplayedSnoc(evs: seq<Event>, i: int, year: int, numMembers: int, baseTime: int)
    requires AllInRange(evs) && 0 <= i < |evs|
    ensures Replayed(evs[..i + 1], year, numMembers, baseTime)
         == Step(Replayed(evs[..i], year, numMembers, baseTime), evs[i], year, numMembers, baseTime)
  {
    assert evs[..i + 1][..i] == evs[..i];
  }

  /** The body of the loop of lines 93-118: one completion record updates
      the star's counter, the member's history and the maxima. */
  method ReplayEvent(starData: array<int>, histories: map<string, seq<Entry>>, order: seq<string>,
                     maxScore: int, maxStars: int, e: Event, year: int, numMembers: int, baseTime: int)
    returns (histories': map<string, seq<Entry>>, order': seq<string>, maxScore': int, maxStars': int)
    requires starData.Length == NumStars && InRange(e)
    modifies starData
    ensures ReplayState(starData[..], histories', order', maxScore', maxStars')
         == Step(ReplayState(old(starData[..]), histories, order, maxScore, maxStars), e, year, numMembers, baseTime)
  {
    histories', order' := histories, order;
    var thisScoreHistory: seq<Entry>;
    if e.userId in histories' {
      thisScoreHistory := histories'[e.userId];
    } else {
      thisScoreHistory := [Entry(baseTime, 0)];
      histories' := histories'[e.userId := thisScoreHistory];
      order' := order' + [e.userId];
    }
    var previousScore := 0;
    if |thisScoreHistory| > 0 {
      previousScore := thisScoreHistory[|thisScoreHistory| - 1].score;
    }
    var thisEventScore := numMembers - starData[e.star];
    if year == 2018 {
      if e.star == 10 || e.star == 11 {
        thisEventScore := 0;
      }
    }
    var updatedScore := previousScore + thisEventScore;
    assert updatedScore == LastScore(thisScoreHistory) + Points(year, numMembers, starData[e.star], e.star);
    maxScore' := Max(maxScore, updatedScore);
    maxStars' := Max(maxStars, |thisScoreHistory|);
    histories' := histories'[e.userId := thisScoreHistory + [Entry(e.timestamp, updatedScore)]];
    starData[e.star] := starData[e.star] + 1;
  }

  /** Replays the sorted events (lines 89-120). */
  method Replay(evs: seq<Event>, year: int, numMembers: int, baseTime: int) returns (st: ReplayState)
    requires AllInRange(evs)
    ensures st == Replayed(evs, year, numMembers, baseTime)
  {
    var starData := new int[NumStars](_ => 0);
    var histories: map<string, seq<Entry>> := map[];
    var order: seq<string> := [];
    var maxScore, maxStars := 0, 0;
    assert starData[..] == InitialState().completed;
    for i := 0 to |evs|
      invariant ReplayState(starData[..], histories, order, maxScore, maxStars)
             == Replayed(evs[..i], year, numMembers, baseTime)
    {
      ReplayedSnoc(evs, i, year, numMembers, baseTime);
      histories, order, maxScore, maxStars :=
        ReplayEvent(starData, histories, order, maxScore, maxStars, evs[i], year, numMembers, baseTime);
    }
    assert evs[..|evs|] == evs;
    st := ReplayState(starData[..], histories, order, maxScore, maxStars);
  }

  // ----- Reference definitions, one event at a time -----

  /** How many of evs are on star s. */
  function CountStar(evs: seq<Event>, s: int): nat
  {
    if evs == [] then 0
    else CountStar(evs[..|evs| - 1], s) + (if evs[|evs| - 1].star == s then 1 else 0)
  }

  /** How many of evs belong to member u. */
  function CountUser(evs: seq<Event>, u: string): nat
  {
    if evs == [] then 0
    else CountUser(evs[..|evs| - 1], u) + (if evs[|evs| - 1].userId == u then 1 else 0)
  }

  /** The points of the i-th event: its star's completions before it decide. */
  function EventPoints(evs: seq<Event>, i: int, year: int, numMembers: int): int
    requires 0 <= i < |evs|
  {
    Points(year, numMembers, CountStar(evs[..i], evs[i].star), evs[i].star)
  }

  /** The positions of member u's events in evs, in order. */
  function UserIndices(evs: seq<Event>, u: string): seq<int>
  {
    if evs == [] then []
    else UserIndices(evs[..|evs| - 1], u) + (if evs[|evs| - 1].userId == u then [|evs| - 1] else [])
  }

  /** The position of member u's first event. */
  function FirstIndex(evs: seq<Event>, u: string): (k: nat)
    requires CountUser(evs, u) > 0
    ensures k < |evs| && evs[k].userId == u && CountUser(evs[..k], u) == 0
  {
    var init := evs[..|evs| - 1];
    if CountUser(init, u) > 0 then
      var k := FirstIndex(init, u);
      assert init[..k] == evs[..k];
      k
    else |evs| - 1
  }

  /** Member u's history built from u's events alone: the baseline, then
      one entry per event carrying the running total of its points. */
  function UserHistory(evs: seq<Event>, u: string, year: int, numMembers: int, baseTime: int): seq<Entry>
  {
    if evs == [] then [Entry(baseTime, 0)]
    else
      var h := UserHistory(evs[..|evs| - 1], u, year, numMembers, baseTime);
      var e := evs[|evs| - 1];
      if e.userId == u then h + [Entry(e.timestamp, LastScore(h) + EventPoints(evs, |evs| - 1, year, numMembers))]
      else h
  }

  /** The number of events the histories listed in order record, beyond
      their baselines. */
  function RecordedEvents(order: seq<string>, histories: map<string, seq<Entry>>): int
    requires forall k :: 0 <= k < |order| ==> order[k] in histories
  {
    if order == [] then 0
    else RecordedEvents(order[..|order| - 1], histories) + |histories[order[|order| - 1]]| - 1
  }

  ghost predicate NoDuplicates(s: seq<string>)
  {
    forall i, j :: 0 <= i < j < |s| ==> s[i] != s[j]
  }

  // ----- Facts about the reference definitions -----

  lemma {:induction false} CountUserPositive(evs: seq<Event>, u: string)
    ensures CountUser(evs, u) > 0 <==> exists i :: 0 <= i < |evs| && evs[i].userId == u
  {
    if evs != [] {
      var init := evs[..|evs| - 1];
      CountUserPositive(init, u);
      if CountUser(init, u) > 0 {
        var i :| 0 <= i < |init| && init[i].userId == u;
        assert evs[i] == init[i];
      }
      if exists i :: 0 <= i < |evs| && evs[i].userId == u {
        var i :| 0 <= i < |evs| && evs[i].userId == u;
        if i < |init| {
          assert init[i] == evs[i];
        }
      }
    }
  }

  lemma {:induction false} UserIndicesFacts(evs: seq<Event>, u: string)
    ensures |UserIndices(evs, u)| == CountUser(evs, u)
    ensures forall k :: 0 <= k < |UserIndices(evs, u)| ==>
              0 <= UserIndices(evs, u)[k] < |evs| && evs[UserIndices(evs, u)[k]].userId == u
    ensures forall k, l :: 0 <= k < l < |UserIndices(evs, u)| ==> UserIndices(evs, u)[k] < UserIndices(evs, u)[l]
    ensures forall i :: 0 <= i < |evs| && evs[i].userId == u ==> i in UserIndices(evs, u)
  {
    if evs != [] {
      var init := evs[..|evs| - 1];
      UserIndicesFacts(init, u);
      forall i | 0 <= i < |evs| && evs[i].userId == u ensures i in UserIndices(evs, u) {
        if i < |init| {
          assert init[i] == evs[i];
        }
      }
    }
  }

  lemma EventPointsPrefix(evs: seq<Event>, m: int, i: int, year: int, numMembers: int)
    requires 0 <= i < m <= |evs|
    ensures EventPoints(evs[..m], i, year, numMembers) == EventPoints(evs, i, year, numMembers)
  {
    assert evs[..m][..i] == evs[..i];
  }

  /** Member u's history: the baseline at baseTime with score 0, then one
      entry per event of u, in event order, each adding that event's points
      to the previous score. */
  lemma {:induction false} UserHistoryShape(evs: seq<Event>, u: string, year: int, numMembers: int, baseTime: int)
    ensures var h, idx := UserHistory(evs, u, year, numMembers, baseTime), UserIndices(evs, u);
      && |h| == |idx| + 1
      && h[0] == Entry(baseTime, 0)
      && forall k :: 0 <= k < |idx| ==>
           (0 <= idx[k] < |evs| &&
            h[k + 1] == Entry(evs[idx[k]].timestamp, h[k].score + EventPoints(evs, idx[k], year, numMembers)))
  {
    UserIndicesFacts(evs, u);
    if evs != [] {
      var init := evs[..|evs| - 1];
      UserHistoryShape(init, u, year, numMembers, baseTime);
      UserIndicesFacts(init, u);
      var idx0 := UserIndices(init, u);
      forall k | 0 <= k < |idx0| ensures EventPoints(init, idx0[k], year, numMembers) == EventPoints(evs, idx0[k], year, numMembers) {
        EventPointsPrefix(evs, |evs| - 1, idx0[k], year, numMembers);
      }
    }
  }

  lemma {:induction false} UserHistoryLength(evs: seq<Event>, u: string, year: int, numMembers: int, baseTime: int)
    ensures |UserHistory(evs, u, year, numMembers, baseTime)| == 1 + CountUser(evs, u)
  {
    UserHistoryShape(evs, u, year, numMembers, baseTime);
    UserIndicesFacts(evs, u);
  }

  // ----- What the replay computes -----

  /** Each star's counter ends at the number of events on that star: every
      event raises its own star's counter by one and no other. */
  lemma {:induction false} ReplayedCounters(evs: seq<Event>, year: int, numMembers: int, baseTime: int)
    requires AllInRange(evs)
    ensures forall s :: 0 <= s < NumStars ==> Replayed(evs, year, numMembers, baseTime).completed[s] == CountStar(evs, s)
  {
    if evs != [] {
      ReplayedCounters(evs[..|evs| - 1], year, numMembers, baseTime);
    }
  }

  /** For one member: the replay keeps a history for u exactly when u has
      an event, and that history is UserHistory. */
  lemma {:induction false} ReplayedHistoryOf(evs: seq<Event>, year: int, numMembers: int, baseTime: int, u: string)
    requires AllInRange(evs)
    ensures var st := Replayed(evs, year, numMembers, baseTime);
      && (u in st.histories <==> CountUser(evs, u) > 0)
      && (u in st.histories ==> st.histories[u] == UserHistory(evs, u, year, numMembers, baseTime))
  {
    if evs != [] {
      var init, e := evs[..|evs| - 1], evs[|evs| - 1];
      ReplayedHistoryOf(init, year, numMembers, baseTime, u);
      if e.userId == u {
        ReplayedCounters(init, year, numMembers, baseTime);
        var st0 := Replayed(init, year, numMembers, baseTime);
        if u !in st0.histories {
          assert UserHistory(init, u, year, numMembers, baseTime) == [Entry(baseTime, 0)] by {
            UserHistoryLength(init, u, year, numMembers, baseTime);
            UserHistoryShape(init, u, year, numMembers, baseTime);
          }
        }
      }
    }
  }

  /** The replay keeps a history for exactly the members with an event, and
      that history is UserHistory. */
  lemma ReplayedHistories(evs: seq<Event>, year: int, numMembers: int, baseTime: int)
    requires AllInRange(evs)
    ensures var st := Replayed(evs, year, numMembers, baseTime);
      forall u :: (u in st.histories <==> CountUser(evs, u) > 0) &&
        (u in st.histories ==> st.histories[u] == UserHistory(evs, u, year, numMembers, baseTime))
  {
    forall u {
      ReplayedHistoryOf(evs, year, numMembers, baseTime, u);
    }
  }

  /** The map's keys in insertion order: each key once, and every key. */
  ghost predicate OrderInv(st: ReplayState)
  {
    NoDuplicates(st.order) && forall u :: u in st.order <==> u in st.histories
  }

  lemma StepKeepsOrder(st: ReplayState, e: Event, year: int, numMembers: int, baseTime: int)
    requires |st.completed| == NumStars && InRange(e) && OrderInv(st)
    ensures OrderInv(Step(st, e, year, numMembers, baseTime))
  {
  }

  lemma {:induction false} ReplayedOrder(evs: seq<Event>, year: int, numMembers: int, baseTime: int)
    requires AllInRange(evs)
    ensures OrderInv(Replayed(evs, year, numMembers, baseTime))
  {
    if evs != [] {
      var init := evs[..|evs| - 1];
      ReplayedOrder(init, year, numMembers, baseTime);
      StepKeepsOrder(Replayed(init, year, numMembers, baseTime), evs[|evs| - 1], year, numMembers, baseTime);
    }
  }

  /** The map's keys: each member with an event, once. */
  lemma ReplayedKeys(evs: seq<Event>, year: int, numMembers: int, baseTime: int)
    requires AllInRange(evs)
    ensures var st := Replayed(evs, year, numMembers, baseTime);
      && NoDuplicates(st.order)
      && (forall u :: u in st.order <==> CountUser(evs, u) > 0)
  {
    ReplayedHistories(evs, year, numMembers, baseTime);
    ReplayedOrder(evs, year, numMembers, baseTime);
  }

  /** One more event adds its member to the keys when the member is new. */
  lemma ReplayedOrderSnoc(evs: seq<Event>, year: int, numMembers: int, baseTime: int)
    requires AllInRange(evs) && evs != []
    ensures var st0 := Replayed(evs[..|evs| - 1], year, numMembers, baseTime);
      var u := evs[|evs| - 1].userId;
      Replayed(evs, year, numMembers, baseTime).order == if u in st0.order then st0.order else st0.order + [u]
  {
    ReplayedOrder(evs[..|evs| - 1], year, numMembers, baseTime);
  }

  /** A member already seen keeps the position of its first event. */
  lemma FirstIndexSnoc(evs: seq<Event>, u: string)
    requires evs != [] && CountUser(evs[..|evs| - 1], u) > 0
    ensures FirstIndex(evs, u) == FirstIndex(evs[..|evs| - 1], u)
  {
  }

  /** The map's keys are ordered by the position of their first event. */
  lemma {:induction false} ReplayedOrderByFirst(evs: seq<Event>, year: int, numMembers: int, baseTime: int)
    requires AllInRange(evs)
    ensures var st := Replayed(evs, year, numMembers, baseTime);
      forall u :: u in st.order ==> CountUser(evs, u) > 0
    ensures var st := Replayed(evs, year, numMembers, baseTime);
      forall i, j :: 0 <= i < j < |st.order| ==> FirstIndex(evs, st.order[i]) < FirstIndex(evs, st.order[j])
  {
    ReplayedKeys(evs, year, numMembers, baseTime);
    if evs != [] {
      var init, e := evs[..|evs| - 1], evs[|evs| - 1];
      ReplayedKeys(init, year, numMembers, baseTime);
      ReplayedOrderByFirst(init, year, numMembers, baseTime);
      ReplayedOrderSnoc(evs, year, numMembers, baseTime);
      var st0 := Replayed(init, year, numMembers, baseTime);
      var st := Replayed(evs, year, numMembers, baseTime);
      forall i, j | 0 <= i < j < |st.order| ensures FirstIndex(evs, st.order[i]) < FirstIndex(evs, st.order[j]) {
        assert st.order[i] == st0.order[i] && st0.order[i] in st0.order;
        FirstIndexSnoc(evs, st.order[i]);
        if j < |st0.order| {
          assert st.order[j] == st0.order[j] && st0.order[j] in st0.order;
          FirstIndexSnoc(evs, st.order[j]);
        } else {
          assert st.order[j] == e.userId && CountUser(init, e.userId) == 0;
        }
      }
    }
  }

  /** The map's keys, in insertion order, are the members with an event,
      each once, ordered by the position of their first event. */
  lemma ReplayedFirstSeen(evs: seq<Event>, year: int, numMembers: int, baseTime: int)
    requires AllInRange(evs)
    ensures var st := Replayed(evs, year, numMembers, baseTime);
      && NoDuplicates(st.order)
      && (forall u :: u in st.order <==> CountUser(evs, u) > 0)
      && (forall i, j :: 0 <= i < j < |st.order| ==> FirstIndex(evs, st.order[i]) < FirstIndex(evs, st.order[j]))
  {
    ReplayedKeys(evs, year, numMembers, baseTime);
    ReplayedOrderByFirst(evs, year, numMembers, baseTime);
  }

  lemma {:induction false} RecordedEventsUnaffected(order: seq<string>, m: map<string, seq<Entry>>, u: string, h: seq<Entry>)
    requires forall k :: 0 <= k < |order| ==> order[k] in m
    requires u !in order
    ensures RecordedEvents(order, m[u := h]) == RecordedEvents(order, m)
  {
    if order != [] {
      RecordedEventsUnaffected(order[..|order| - 1], m, u, h);
    }
  }

  lemma {:induction false} RecordedEventsUpdate(order: seq<string>, m: map<string, seq<Entry>>, u: string, h: seq<Entry>)
    requires forall k :: 0 <= k < |order| ==> order[k] in m
    requires NoDuplicates(order) && u in order
    ensures RecordedEvents(order, m[u := h]) == RecordedEvents(order, m) + |h| - |m[u]|
  {
    var init, last := order[..|order| - 1], order[|order| - 1];
    if last == u {
      assert u !in init;
      RecordedEventsUnaffected(init, m, u, h);
    } else {
      assert u in init;
      RecordedEventsUpdate(init, m, u, h);
    }
  }

  lemma StepRecordedEvents(st: ReplayState, e: Event, year: int, numMembers: int, baseTime: int)
    requires |st.completed| == NumStars && InRange(e) && OrderInv(st)
    ensures var st' := Step(st, e, year, numMembers, baseTime);
      RecordedEvents(st'.order, st'.histories) == RecordedEvents(st.order, st.histories) + 1
  {
    var st' := Step(st, e, year, numMembers, baseTime);
    if e.userId in st.histories {
      RecordedEventsUpdate(st.order, st.histories, e.userId, st'.histories[e.userId]);
    } else {
      RecordedEventsUnaffected(st.order, st.histories, e.userId, st'.histories[e.userId]);
      assert (st.order + [e.userId])[..|st.order|] == st.order;
    }
  }

  /** Every event adds exactly one entry: the histories, less their
      baselines, hold as many entries as there are events. */
  lemma {:induction false} ReplayedEventCount(evs: seq<Event>, year: int, numMembers: int, baseTime: int)
    requires AllInRange(evs)
    ensures var st := Replayed(evs, year, numMembers, baseTime);
      (forall k :: 0 <= k < |st.order| ==> st.order[k] in st.histories) &&
      RecordedEvents(st.order, st.histories) == |evs|
  {
    ReplayedOrder(evs, year, numMembers, baseTime);
    if evs != [] {
      var init := evs[..|evs| - 1];
      ReplayedEventCount(init, year, numMembers, baseTime);
      ReplayedOrder(init, year, numMembers, baseTime);
      StepRecordedEvents(Replayed(init, year, numMembers, baseTime), evs[|evs| - 1], year, numMembers, baseTime);
    }
  }

  // ----- The running maxima -----

  /** maxScore is the largest score in any history, and maxStars the largest
      number of entries a history had before an event was appended. */
  ghost predicate MaxInv(st: ReplayState)
  {
    && st.maxScore >= 0 && st.maxStars >= 0
    && (forall u :: u in st.histories ==> |st.histories[u]| >= 1 && st.histories[u][0].score == 0)
    && (forall u, k :: u in st.histories && 0 <= k < |st.histories[u]| ==> st.histories[u][k].score <= st.maxScore)
    && (forall u :: u in st.histories ==> |st.histories[u]| - 1 <= st.maxStars)
    && (st.histories == map[] ==> st.maxScore == 0 && st.maxStars == 0)
    && (st.histories != map[] ==>
          (exists u, k :: u in st.histories && 0 <= k < |st.histories[u]| && st.histories[u][k].score == st.maxScore) &&
          (exists u :: u in st.histories && |st.histories[u]| - 1 == st.maxStars))
  }

  lemma StepKeepsMax(st: ReplayState, e: Event, year: int, numMembers: int, baseTime: int)
    requires |st.completed| == NumStars && InRange(e) && MaxInv(st)
    ensures MaxInv(Step(st, e, year, numMembers, baseTime))
  {
    var st' := Step(st, e, year, numMembers, baseTime);
    var u := e.userId;
    var h := if u in st.histories then st.histories[u] else [Entry(baseTime, 0)];
    var h' := st'.histories[u];
    assert h' == h + [Entry(e.timestamp, h'[|h'| - 1].score)];
    var updated := h'[|h'| - 1].score;
    assert st'.maxScore == Max(st.maxScore, updated);
    forall v, k | v in st'.histories && 0 <= k < |st'.histories[v]|
      ensures st'.histories[v][k].score <= st'.maxScore
    {
      if v == u && k < |h| && u !in st.histories {
        assert h[k] == Entry(baseTime, 0);
      }
    }
    if updated >= st.maxScore {
      assert h'[|h'| - 1].score == st'.maxScore;
    } else if st.histories == map[] {
      assert h'[0].score == 0 == st'.maxScore;
    } else {
      var v, k :| v in st.histories && 0 <= k < |st.histories[v]| && st.histories[v][k].score == st.maxScore;
      assert st'.histories[v][k].score == st'.maxScore;
    }
    if |h| >= st.maxStars {
      assert |h'| - 1 == st'.maxStars;
    } else {
      var v :| v in st.histories && |st.histories[v]| - 1 == st.maxStars;
      assert v != u;
      assert |st'.histories[v]| - 1 == st'.maxStars;
    }
  }

  lemma {:induction false} ReplayedMaxInv(evs: seq<Event>, year: int, numMembers: int, baseTime: int)
    requires AllInRange(evs)
    ensures MaxInv(Replayed(evs, year, numMembers, baseTime))
  {
    if evs != [] {
      var init := evs[..|evs| - 1];
      ReplayedMaxInv(init, year, numMembers, baseTime);
      StepKeepsMax(Replayed(init, year, numMembers, baseTime), evs[|evs| - 1], year, numMembers, baseTime);
    }
  }

  /** With at least one event, maxScore is the largest cumulative score any
      member reaches and maxStars the largest number of events of a member;
      with none, both stay 0. */
  lemma ReplayedMaxima(evs: seq<Event>, year: int, numMembers: int, baseTime: int)
    requires AllInRange(evs)
    ensures var st := Replayed(evs, year, numMembers, baseTime);
      && (forall u, k :: u in st.histories && 0 <= k < |st.histories[u]| ==> st.histories[u][k].score <= st.maxScore)
      && (evs != [] ==> exists u, k :: u in st.histories && 0 <= k < |st.histories[u]| && st.histories[u][k].score == st.maxScore)
      && (forall u :: CountUser(evs, u) <= st.maxStars)
      && (evs != [] ==> exists i :: 0 <= i < |evs| && CountUser(evs, evs[i].userId) == st.maxStars)
      && (evs == [] ==> st.maxScore == 0 && st.maxStars == 0)
  {
    var st := Replayed(evs, year, numMembers, baseTime);
    ReplayedMaxInv(evs, year, numMembers, baseTime);
    ReplayedHistories(evs, year, numMembers, baseTime);
    forall u ensures CountUser(evs, u) <= st.maxStars {
      if u in st.histories {
        UserHistoryLength(evs, u, year, numMembers, baseTime);
      }
    }
    if evs != [] {
      var last := evs[|evs| - 1].userId;
      assert CountUser(evs, last) > 0;
      assert last in st.histories;
      var v :| v in st.histories && |st.histories[v]| - 1 == st.maxStars;
      UserHistoryLength(evs, v, year, numMembers, baseTime);
      CountUserPositive(evs, v);
    }
  }

  // ----- Points are positive when no member completes a star twice -----

  /** No two events have both the same member and the same star. */
  ghost predicate PairsDistinct(evs: seq<Event>)
  {
    forall j, k :: 0 <= j < k < |evs| && evs[j].userId == evs[k].userId ==> evs[j].star != evs[k].star
  }

  /** The members with an event on star s. */
  function UsersOnStar(evs: seq<Event>, s: int): set<string>
  {
    if evs == [] then {}
    else UsersOnStar(evs[..|evs| - 1], s) + (if evs[|evs| - 1].star == s then {evs[|evs| - 1].userId} else {})
  }

  lemma {:induction false} UsersOnStarMembers(evs: seq<Event>, s: int, v: string)
    ensures v in UsersOnStar(evs, s) <==> exists j :: 0 <= j < |evs| && evs[j].userId == v && evs[j].star == s
  {
    if evs != [] {
      var init := evs[..|evs| - 1];
      UsersOnStarMembers(init, s, v);
      if v in UsersOnStar(init, s) {
        var j :| 0 <= j < |init| && init[j].userId == v && init[j].star == s;
        assert evs[j] == init[j];
      }
      if exists j :: 0 <= j < |evs| && evs[j].userId == v && evs[j].star == s {
        var j :| 0 <= j < |evs| && evs[j].userId == v && evs[j].star == s;
        if j < |init| {
          assert init[j] == evs[j];
        }
      }
    }
  }

  lemma {:induction false} UsersOnStarCount(evs: seq<Event>, s: int)
    requires PairsDistinct(evs)
    ensures |UsersOnStar(evs, s)| == CountStar(evs, s)
  {
    if evs != [] {
      var init, e := evs[..|evs| - 1], evs[|evs| - 1];
      assert PairsDistinct(init);
      UsersOnStarCount(init, s);
      if e.star == s {
        UsersOnStarMembers(init, s, e.userId);
        forall j | 0 <= j < |init| && init[j].star == s ensures init[j].userId != e.userId {
          assert evs[j] == init[j];
        }
      }
    }
  }

  lemma {:induction false} SubsetCardinality(a: set<string>, b: set<string>)
    requires a <= b
    ensures |a| <= |b|
  {
    if a != {} {
      var x :| x in a;
      SubsetCardinality(a - {x}, b - {x});
    }
  }

  /** When every event's member is one of numMembers members and no member
      completes a star twice, an event finds fewer than numMembers earlier
      completions of its star: it scores at least one point, or nothing on a
      voided star. */
  lemma PointsPositive(evs: seq<Event>, members: set<string>, i: int, year: int, numMembers: int)
    requires |members| == numMembers
    requires forall k :: 0 <= k < |evs| ==> evs[k].userId in members
    requires PairsDistinct(evs)
    requires 0 <= i < |evs|
    ensures CountStar(evs[..i], evs[i].star) < numMembers
    ensures EventPoints(evs, i, year, numMembers) >= if ZeroedStar(year, evs[i].star) then 0 else 1
  {
    var p, e := evs[..i], evs[i];
    assert PairsDistinct(p);
    UsersOnStarCount(p, e.star);
    forall v | v in UsersOnStar(p, e.star) ensures v in members - {e.userId} {
      UsersOnStarMembers(p, e.star, v);
      var j :| 0 <= j < |p| && p[j].userId == v && p[j].star == e.star;
      assert evs[j] == p[j];
    }
    SubsetCardinality(UsersOnStar(p, e.star), members - {e.userId});
  }

  /** Under the same conditions every history's scores never decrease. */
  lemma HistoryNonDecreasing(evs: seq<Event>, members: set<string>, u: string, year: int, numMembers: int, baseTime: int)
    requires |members| == numMembers
    requires forall k :: 0 <= k < |evs| ==> evs[k].userId in members
    requires PairsDistinct(evs)
    ensures var h := UserHistory(evs, u, year, numMembers, baseTime);
      forall k :: 0 < k < |h| ==> h[k - 1].score <= h[k].score
  {
    var h, idx := UserHistory(evs, u, year, numMembers, baseTime), UserIndices(evs, u);
    UserHistoryShape(evs, u, year, numMembers, baseTime);
    forall k | 0 < k < |h| ensures h[k - 1].score <= h[k].score {
      PointsPositive(evs, members, idx[k - 1], year, numMembers);
    }
  }
}
