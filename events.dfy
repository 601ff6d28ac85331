/**
 * The leaderboard payload and the flattening of its completion records into
 * scoring events (graph.js lines 25-43).
 */
module Events {
  import opened Wrappers
  import opened Stars

  /** One star of one member: day and part as the payload keys them, and the
      `get_star_ts` completion time in unix seconds. */
  datatype Completion = Completion(day: int, part: int, ts: int)

  /** One entry of the payload's `members` object: its key, the optional
      `name`, the numeric `id`, and the completion records in key order. */
  datatype Member = Member(userId: string, name: Option<string>, id: int, completions: seq<Completion>)

  /** A completion as graph.js records it: the star index and the completion
      time in milliseconds (`new Date(timestamp * 1000)`, line 36). */
  datatype Event = Event(userId: string, star: int, timestamp: int)

  /** The ways processLeaderboardData throws. */
  datatype BuildError =
    | StarOutOfRange(userId: string, star: int)  // starEvents[star] is undefined (line 40)
    | NoEvents                                   // events[0] is undefined (line 148)

  function ToEvent(userId: string, c: Completion): Event
  {
    Event(userId, StarIndex(c.day, c.part), c.ts * 1000)
  }

  /** One member's events, in the order of its completion records. */
  function MemberEvents(m: Member): (evs: seq<Event>)
    ensures |evs| == |m.completions|
  {
    seq(|m.completions|, k requires 0 <= k < |m.completions| => ToEvent(m.userId, m.completions[k]))
  }

  /** All members' events, member by member (the order of the pushes). */
  function AllEvents(ms: seq<Member>): seq<Event>
  {
    if ms == [] then [] else AllEvents(ms[..|ms| - 1]) + MemberEvents(ms[|ms| - 1])
  }

  function TotalCompletions(ms: seq<Member>): nat
  {
    if ms == [] then 0 else TotalCompletions(ms[..|ms| - 1]) + |ms[|ms| - 1].completions|
  }

  predicate InRange(e: Event)
  {
    0 <= e.star < NumStars
  }

  predicate AllInRange(evs: seq<Event>)
  {
    forall k :: 0 <= k < |evs| ==> InRange(evs[k])
  }

  ghost predicate IsMemberId(ms: seq<Member>, u: string)
  {
    exists i :: 0 <= i < |ms| && ms[i].userId == u
  }

  /** The position of the first event whose star is outside 0..49, or |evs|. */
  function FirstOutOfRange(evs: seq<Event>): (k: nat)
    ensures k <= |evs|
    ensures k < |evs| ==> !InRange(evs[k])
    ensures forall j :: 0 <= j < k ==> InRange(evs[j])
  {
    if evs == [] then 0
    else if !InRange(evs[0]) then 0
    else 1 + FirstOutOfRange(evs[1..])
  }

  /** The flattened events, or the error the first out-of-range star raises. */
  function Flattened(ms: seq<Member>): Result<seq<Event>, BuildError>
  {
    var evs := AllEvents(ms);
    var k := FirstOutOfRange(evs);
    if k < |evs| then Err(StarOutOfRange(evs[k].userId, evs[k].star)) else Ok(evs)
  }

  lemma {:induction false} AllEventsAppend(a: seq<Member>, b: seq<Member>)
    ensures AllEvents(a + b) == AllEvents(a) + AllEvents(b)
  {
    if b == [] {
      assert a + b == a;
    } else {
      assert (a + b)[..|a + b| - 1] == a + b[..|b| - 1];
      AllEventsAppend(a, b[..|b| - 1]);
    }
  }

  /** One event per completion record. */
  lemma {:induction false} AllEventsCount(ms: seq<Member>)
    ensures |AllEvents(ms)| == TotalCompletions(ms)
  {
    if ms != [] {
      AllEventsCount(ms[..|ms| - 1]);
    }
  }

  /** Every event belongs to a member and is one of its completion records. */
  lemma {:induction false} AllEventsFromMembers(ms: seq<Member>, k: int)
    requires 0 <= k < |AllEvents(ms)|
    ensures exists i, j ::
              0 <= i < |ms| && 0 <= j < |ms[i].completions| &&
              AllEvents(ms)[k] == ToEvent(ms[i].userId, ms[i].completions[j])
  {
    var init := ms[..|ms| - 1];
    if k < |AllEvents(init)| {
      AllEventsFromMembers(init, k);
      var i, j :| 0 <= i < |init| && 0 <= j < |init[i].completions| &&
        AllEvents(init)[k] == ToEvent(init[i].userId, init[i].completions[j]);
      assert ms[i] == init[i];
    } else {
      var j := k - |AllEvents(init)|;
      assert AllEvents(ms)[k] == MemberEvents(ms[|ms| - 1])[j];
    }
  }

  lemma FirstOutOfRangeAt(evs: seq<Event>, k: int)
    requires 0 <= k < |evs| && !InRange(evs[k])
    requires forall j :: 0 <= j < k ==> InRange(evs[j])
    ensures FirstOutOfRange(evs) == k
  {
  }

  lemma AllEventsPrefixStep(ms: seq<Member>, i: int)
    requires 0 <= i < |ms|
    ensures AllEvents(ms[..i + 1]) == AllEvents(ms[..i]) + MemberEvents(ms[i])
  {
    assert ms[..i + 1][..i] == ms[..i];
  }

  /** The events of a payload: those before member i, member i's own, and
      those after it. */
  lemma AllEventsAround(ms: seq<Member>, i: int)
    requires 0 <= i < |ms|
    ensures AllEvents(ms) == AllEvents(ms[..i]) + MemberEvents(ms[i]) + AllEvents(ms[i + 1..])
  {
    assert ms == ms[..i + 1] + ms[i + 1..];
    AllEventsAppend(ms[..i + 1], ms[i + 1..]);
    AllEventsPrefixStep(ms, i);
  }

  /** Regrouping a split sequence around its j-th element. */
  lemma SplitAround(before: seq<Event>, es: seq<Event>, after: seq<Event>, j: int)
    requires 0 <= j < |es|
    ensures before + es + after == (before + es[..j]) + [es[j]] + (es[j + 1..] + after)
  {
    assert es == es[..j] + [es[j]] + es[j + 1..];
  }

  /** The first event off the board sits right after a prefix on the board. */
  lemma FirstOutOfRangeAfter(pre: seq<Event>, e: Event, post: seq<Event>)
    requires AllInRange(pre) && !InRange(e)
    ensures FirstOutOfRange(pre + [e] + post) == |pre|
    ensures (pre + [e] + post)[|pre|] == e
  {
    var evs := pre + [e] + post;
    assert evs[|pre|] == e;
    assert forall j :: 0 <= j < |pre| ==> evs[j] == pre[j];
    FirstOutOfRangeAt(evs, |pre|);
  }

  /** The events pushed before the j-th record of member i are in range and
      that record's star is not: the whole flattening fails on it. */
  lemma FlattenedStopsAt(ms: seq<Member>, i: int, j: int)
    requires 0 <= i < |ms| && 0 <= j < |ms[i].completions|
    requires AllInRange(AllEvents(ms[..i]) + MemberEvents(ms[i])[..j])
    requires !InRange(ToEvent(ms[i].userId, ms[i].completions[j]))
    ensures Flattened(ms) == Err(StarOutOfRange(ms[i].userId, StarIndex(ms[i].completions[j].day, ms[i].completions[j].part)))
  {
    var es := MemberEvents(ms[i]);
    AllEventsAround(ms, i);
    SplitAround(AllEvents(ms[..i]), es, AllEvents(ms[i + 1..]), j);
    FirstOutOfRangeAfter(AllEvents(ms[..i]) + es[..j], es[j], es[j + 1..] + AllEvents(ms[i + 1..]));
  }

  /** Pushes one event per completion record, member by member and record by
      record; the first star index outside 0..49 throws (lines 25-43). */
  method Flatten(ms: seq<Member>) returns (r: Result<seq<Event>, BuildError>)
    ensures r == Flattened(ms)
  {
    var events: seq<Event> := [];
    for i := 0 to |ms|
      invariant events == AllEvents(ms[..i])
      invariant AllInRange(events)
    {
      var m := ms[i];
      for j := 0 to |m.completions|
        invariant events == AllEvents(ms[..i]) + MemberEvents(m)[..j]
        invariant AllInRange(events)
      {
        var e := ToEvent(m.userId, m.completions[j]);
        if !InRange(e) {
          FlattenedStopsAt(ms, i, j);
          return Err(StarOutOfRange(e.userId, e.star));
        }
        assert MemberEvents(m)[..j + 1] == MemberEvents(m)[..j] + [e];
        events := events + [e];
      }
      assert MemberEvents(m)[..|m.completions|] == MemberEvents(m);
      AllEventsPrefixStep(ms, i);
    }
    assert ms[..|ms|] == ms;
    assert FirstOutOfRange(events) == |events|;
    return Ok(events);
  }
}
