/** One replay run of a game: its connection set and the paced playback loop. */
module Simulation {
  import opened GoLib
  import opened Events

  /** One websocket write made by the simulation. */
  type Delivery = Sent<Conn>

  /** One call of `sendEventToAllConnections`: the event, with the simulated
      clock at that moment (also recorded when marshalling fails and nothing is
      written). */
  datatype Emission = Emission(clock: int, event: Event)

  // ---------------------------------------------------------------------------
  // The playback timeline as a specification

  /** The simulated clock before event `i` is handled: the starting clock for the
      first event, the previous event's offset afterwards. */
  function ClockBefore(start: int, events: seq<Event>, i: nat): int
    requires i <= |events|
  {
    if i == 0 then start else events[i - 1].gameClockTime
  }

  /** The simulated clock once all events are handled. */
  function ClockAfter(start: int, events: seq<Event>): int {
    ClockBefore(start, events, |events|)
  }

  /** The loop only divides by `speed` when some event moves the clock; with a
      zero speed Go would panic on that division. */
  predicate NoDivisionByZero(start: int, events: seq<Event>, speed: int) {
    speed != 0 || forall i :: 0 <= i < |events| ==> events[i].gameClockTime == start
  }

  /** The sleep taken to move the clock from `from` to `to`: none when the clock is
      already there, otherwise the game seconds divided by the speed, truncated
      toward zero as Go's `/` does. */
  function SleepFor(from: int, to: int, speed: int): seq<int>
    requires speed != 0 || from == to
  {
    if from == to then [] else [Quot(to - from, speed)]
  }

  /** The whole seconds slept while playing `events` from clock `start`. */
  function SleepPlan(start: int, events: seq<Event>, speed: int): seq<int>
    requires NoDivisionByZero(start, events, speed)
  {
    if events == [] then []
    else
      var n := |events| - 1;
      assert NoDivisionByZero(start, events[..n], speed);
      SleepPlan(start, events[..n], speed) + SleepFor(ClockBefore(start, events, n), events[n].gameClockTime, speed)
  }

  /** Playing one more event adds that event's sleep, if any, to the plan. */
  lemma SleepPlanSnoc(start: int, events: seq<Event>, i: nat, speed: int)
    requires i < |events|
    requires NoDivisionByZero(start, events, speed)
    ensures NoDivisionByZero(start, events[..i], speed)
    ensures NoDivisionByZero(start, events[..i + 1], speed)
    ensures SleepPlan(start, events[..i + 1], speed)
         == SleepPlan(start, events[..i], speed) + SleepFor(ClockBefore(start, events, i), events[i].gameClockTime, speed)
  {
    assert events[..i + 1][..i] == events[..i];
  }

  lemma EmissionsSnoc(events: seq<Event>, i: nat)
    requires i < |events|
    ensures Emissions(events[..i + 1]) == Emissions(events[..i]) + [Emission(events[i].gameClockTime, events[i])]
  {
  }

  /** Each event is sent once, in order, with the clock standing at its offset. */
  function Emissions(events: seq<Event>): (r: seq<Emission>)
    ensures |r| == |events|
    ensures forall i :: 0 <= i < |events| ==> r[i] == Emission(events[i].gameClockTime, events[i])
  {
    if events == [] then [] else Emissions(events[..|events| - 1]) + [Emission(events[|events| - 1].gameClockTime, events[|events| - 1])]
  }

  /** The connections left after sending `events` to `conns`: an event whose
      payload was marshalled drops the connections whose write failed for it
      (`failing(i)` for the `i`-th event); one that was not leaves them all. */
  function Survivors(conns: set<Conn>, events: seq<Event>, marshal: Event -> Option<Bytes>, failing: nat -> set<Conn>): (r: set<Conn>)
    ensures r <= conns
  {
    if events == [] then conns
    else
      var n := |events| - 1;
      var before := Survivors(conns, events[..n], marshal, failing);
      if marshal(events[n]).Some? then before - failing(n) else before
  }

  lemma SurvivorsSnoc(conns: set<Conn>, events: seq<Event>, i: nat, marshal: Event -> Option<Bytes>, failing: nat -> set<Conn>)
    requires i < |events|
    ensures Survivors(conns, events[..i + 1], marshal, failing)
         == if marshal(events[i]).Some? then Survivors(conns, events[..i], marshal, failing) - failing(i)
            else Survivors(conns, events[..i], marshal, failing)
  {
    assert events[..i + 1][..i] == events[..i];
  }

  /** A connection survives the playback exactly when it was connected and no
      write to it failed while an event was being sent. */
  lemma {:induction false} SurvivorsExactly(conns: set<Conn>, events: seq<Event>, marshal: Event -> Option<Bytes>, failing: nat -> set<Conn>, c: Conn)
    ensures c in Survivors(conns, events, marshal, failing) <==>
      c in conns && forall i :: 0 <= i < |events| && marshal(events[i]).Some? ==> c !in failing(i)
  {
    if events != [] {
      var n := |events| - 1;
      SurvivorsExactly(conns, events[..n], marshal, failing, c);
      assert forall i :: 0 <= i < n ==> events[..n][i] == events[i];
    }
  }

  /** The writes made for one event sent to `conns`: none when its payload
      cannot be marshalled, otherwise one text frame holding the payload to each
      connection. */
  ghost predicate EventWrites(w: seq<Delivery>, conns: set<Conn>, event: Event, marshal: Event -> Option<Bytes>) {
    if marshal(event).Some? then WritesOnceEach(w, conns, Message(TextMessage, marshal(event).value)) else w == []
  }

  /** `w`, cut at `marks`, holds the writes for the first `n` events played to
      `conns`: round `i` writes event `i` to the connections that survived the
      events before it. */
  ghost predicate PlaybackWrites(w: seq<Delivery>, marks: seq<nat>, conns: set<Conn>, events: seq<Event>, n: nat,
                                 marshal: Event -> Option<Bytes>, failing: nat -> set<Conn>)
    requires n <= |events|
  {
    && InRounds(w, marks, n)
    && forall i :: 0 <= i < n ==>
         EventWrites(Round(w, marks, n, i), Survivors(conns, events[..i], marshal, failing), events[i], marshal)
  }

  /** The trace `d` keeps `d0` as its prefix and continues with the writes for
      the first `n` events. */
  ghost predicate ExtendsPlayback(d0: seq<Delivery>, d: seq<Delivery>, marks: seq<nat>, conns: set<Conn>, events: seq<Event>, n: nat,
                                  marshal: Event -> Option<Bytes>, failing: nat -> set<Conn>)
    requires n <= |events|
  {
    && |d0| <= |d|
    && d[..|d0|] == d0
    && PlaybackWrites(d[|d0|..], marks, conns, events, n, marshal, failing)
  }

  lemma PlaybackWritesSnoc(w: seq<Delivery>, marks: seq<nat>, conns: set<Conn>, events: seq<Event>, n: nat,
                           marshal: Event -> Option<Bytes>, failing: nat -> set<Conn>, next: seq<Delivery>)
    requires n < |events|
    requires PlaybackWrites(w, marks, conns, events, n, marshal, failing)
    requires EventWrites(next, Survivors(conns, events[..n], marshal, failing), events[n], marshal)
    ensures PlaybackWrites(w + next, marks + [|w| + |next|], conns, events, n + 1, marshal, failing)
  {
    RoundsSnoc(w, marks, n, next);
  }

  /** Sending event `n` to the survivors of the events before it extends the
      playback's writes by one round. */
  lemma PlaybackStep(d0: seq<Delivery>, before: seq<Delivery>, after: seq<Delivery>, marks: seq<nat>, conns: set<Conn>,
                     events: seq<Event>, n: nat, marshal: Event -> Option<Bytes>, failing: nat -> set<Conn>)
    requires n < |events|
    requires ExtendsPlayback(d0, before, marks, conns, events, n, marshal, failing)
    requires marshal(events[n]).None? ==> after == before
    requires marshal(events[n]).Some? ==>
      AppendsOneWriteEach(before, after, Survivors(conns, events[..n], marshal, failing), Message(TextMessage, marshal(events[n]).value))
    ensures |d0| <= |after|
    ensures ExtendsPlayback(d0, after, marks + [|after| - |d0|], conns, events, n + 1, marshal, failing)
  {
    var next := after[|before|..];
    assert after == before + next;
    assert after[|d0|..] == before[|d0|..] + next;
    PlaybackWritesSnoc(before[|d0|..], marks, conns, events, n, marshal, failing, next);
    assert after[..|d0|] == d0;
  }

  /** The traces after the first `i` events were sent, as values: the
      emissions, the surviving connections and the writes, one round per event. */
  ghost predicate SentSoFar(sent: seq<Emission>, conns: set<Conn>, deliveries: seq<Delivery>, events: seq<Event>, i: nat,
                            marshal: Event -> Option<Bytes>, failing: nat -> set<Conn>,
                            sent0: seq<Emission>, conns0: set<Conn>, deliveries0: seq<Delivery>, marks: seq<nat>)
    requires i <= |events|
  {
    && sent == sent0 + Emissions(events[..i])
    && conns == Survivors(conns0, events[..i], marshal, failing)
    && ExtendsPlayback(deliveries0, deliveries, marks, conns0, events, i, marshal, failing)
  }

  /** Sending event `n` as `sendEventToAllConnections` does (its emission
      recorded, its payload written to every connection, the failed ones
      dropped) extends the traces by that event. */
  lemma SentSnoc(events: seq<Event>, n: nat, marshal: Event -> Option<Bytes>, failing: nat -> set<Conn>,
                 sent0: seq<Emission>, conns0: set<Conn>, deliveries0: seq<Delivery>, marks: seq<nat>,
                 sent: seq<Emission>, conns: set<Conn>, deliveries: seq<Delivery>,
                 sent': seq<Emission>, conns': set<Conn>, deliveries': seq<Delivery>)
    requires n < |events|
    requires SentSoFar(sent, conns, deliveries, events, n, marshal, failing, sent0, conns0, deliveries0, marks)
    requires sent' == sent + [Emission(events[n].gameClockTime, events[n])]
    requires marshal(events[n]).None? ==> conns' == conns && deliveries' == deliveries
    requires marshal(events[n]).Some? ==> conns' == conns - failing(n)
    requires marshal(events[n]).Some? ==>
      AppendsOneWriteEach(deliveries, deliveries', conns, Message(TextMessage, marshal(events[n]).value))
    ensures |deliveries0| <= |deliveries'|
    ensures SentSoFar(sent', conns', deliveries', events, n + 1, marshal, failing,
                      sent0, conns0, deliveries0, marks + [|deliveries'| - |deliveries0|])
  {
    EmissionsSnoc(events, n);
    SurvivorsSnoc(conns0, events, n, marshal, failing);
    PlaybackStep(deliveries0, deliveries, deliveries', marks, conns0, events, n, marshal, failing);
  }

  function Sum(s: seq<int>): int {
    if s == [] then 0 else Sum(s[..|s| - 1]) + s[|s| - 1]
  }

  // ---------------------------------------------------------------------------
  // The simulation object

  class Simulation {
    const nbaGameId: string
    /** The speed-up factor (a float64 in Go). */
    const timeFactor: real
    /** When playback should start, as an opaque wall-clock reading. */
    const realStartTime: int
    var simulatedGameClockTime: int
    var connections: set<Conn>

    /** Every sleep of the playback loop, in whole seconds (a negative one does not wait). */
    ghost var sleeps: seq<int>
    /** Every call of `sendEventToAllConnections`, in order. */
    ghost var sent: seq<Emission>
    /** Every websocket write, in order. */
    ghost var deliveries: seq<Delivery>

    /** `int(time_factor)`, the divisor of every sleep. */
    function Speed(): int {
      TruncateToInt(timeFactor)
    }

    /** `New`. */
    constructor (nbaGameId: string, timeFactor: real, realStartTime: int)
      ensures this.nbaGameId == nbaGameId && this.timeFactor == timeFactor && this.realStartTime == realStartTime
      ensures simulatedGameClockTime == 0 && connections == {}
      ensures sleeps == [] && sent == [] && deliveries == []
    {
      this.nbaGameId := nbaGameId;
      this.timeFactor := timeFactor;
      this.realStartTime := realStartTime;
      simulatedGameClockTime := 0;
      connections := {};
      sleeps, sent, deliveries := [], [], [];
    }

    /** `AddConnection`: idempotent. */
    method AddConnection(conn: Conn)
      modifies this`connections
      ensures connections == old(connections) + {conn}
    {
      connections := connections + {conn};
    }

    /** `RemoveConnection`: removing an absent connection changes nothing. */
    method RemoveConnection(conn: Conn)
      modifies this`connections
      ensures connections == old(connections) - {conn}
    {
      connections := connections - {conn};
    }

    /** `sendEventToAllConnections`. `marshal` stands for `json.Marshal` (`None` is
        a marshalling error) and `failing` for the connections whose write fails.
        Without a payload nothing is written; otherwise every connection gets one
        text frame and exactly those whose write failed are dropped. */
    method SendEventToAllConnections(event: Event, marshal: Event -> Option<Bytes>, failing: set<Conn>)
      modifies this`connections, this`deliveries, this`sent
      ensures sent == old(sent) + [Emission(simulatedGameClockTime, event)]
      ensures connections <= old(connections)
      ensures marshal(event).None? ==> connections == old(connections) && deliveries == old(deliveries)
      ensures marshal(event).Some? ==> connections == old(connections) - failing
      ensures marshal(event).Some? ==>
        AppendsOneWriteEach(old(deliveries), deliveries, old(connections), Message(TextMessage, marshal(event).value))
    {
      sent := sent + [Emission(simulatedGameClockTime, event)];
      var encoded := marshal(event);
      if encoded.None? {
        return;
      }
      var message := Message(TextMessage, encoded.value);
      ghost var before := deliveries;
      ghost var written: seq<Delivery> := [];
      var pending := connections;
      while pending != {}
        invariant pending <= old(connections)
        invariant sent == old(sent) + [Emission(simulatedGameClockTime, event)]
        invariant connections == old(connections) - (failing - pending)
        invariant deliveries == before + written
        invariant WritesOnceEach(written, old(connections) - pending, message)
        decreases pending
      {
        var conn :| conn in pending;
        pending := pending - {conn};
        deliveries := deliveries + [Sent(conn, message)];
        RecipientsSnoc(written, Sent(conn, message));
        written := written + [Sent(conn, message)];
        if conn in failing {
          connections := connections - {conn};
        }
      }
      assert deliveries[|before|..] == written;
      assert deliveries[..|before|] == before;
    }

    /** The inner loop of `Run`: while the clock is not at the event's offset,
        sleep `(offset - clock) / int(time_factor)` seconds and move the clock by
        the difference. It runs at most once and leaves the clock exactly at the
        offset, also when the offset is behind the clock. */
    method AdvanceClockTo(target: int)
      requires Speed() != 0 || simulatedGameClockTime == target
      modifies this`simulatedGameClockTime, this`sleeps
      ensures simulatedGameClockTime == target
      ensures sleeps == old(sleeps) + SleepFor(old(simulatedGameClockTime), target, Speed())
    {
      ghost var passes := 0;
      while simulatedGameClockTime != target
        invariant passes == 0 ==> simulatedGameClockTime == old(simulatedGameClockTime) && sleeps == old(sleeps)
        invariant passes == 1 ==> simulatedGameClockTime == target
        invariant passes == 1 ==> sleeps == old(sleeps) + SleepFor(old(simulatedGameClockTime), target, Speed())
        invariant passes <= 1
        decreases if simulatedGameClockTime != target then 1 else 0
      {
        var gameSecondsUntilEvent := target - simulatedGameClockTime;
        sleeps := sleeps + [Quot(gameSecondsUntilEvent, Speed())];
        simulatedGameClockTime := simulatedGameClockTime + gameSecondsUntilEvent;
        passes := passes + 1;
      }
    }

    /** The clock and the sleeps after the first `i` events were played from
        clock `start`, starting from the trace `sleeps0`. */
    ghost predicate ClockedUpTo(start: int, events: seq<Event>, i: nat, sleeps0: seq<int>)
      requires i <= |events|
      reads this`simulatedGameClockTime, this`sleeps
    {
      && NoDivisionByZero(start, events[..i], Speed())
      && simulatedGameClockTime == ClockBefore(start, events, i)
      && sleeps == sleeps0 + SleepPlan(start, events[..i], Speed())
    }

    /** What the first `i` events sent, starting from the traces `sent0` and
        `deliveries0` and the connections `conns0`; `marks` cuts the new
        deliveries into one round per event. */
    ghost predicate SentUpTo(events: seq<Event>, i: nat, marshal: Event -> Option<Bytes>, failing: nat -> set<Conn>,
                             sent0: seq<Emission>, conns0: set<Conn>, deliveries0: seq<Delivery>, marks: seq<nat>)
      requires i <= |events|
      reads this`sent, this`connections, this`deliveries
    {
      SentSoFar(sent, connections, deliveries, events, i, marshal, failing, sent0, conns0, deliveries0, marks)
    }

    /** The first half of a turn of the event loop of `Run`: the clock moves to
        the offset of event `i`, with at most one sleep. */
    method ClockStep(ghost start: int, events: seq<Event>, i: nat, ghost sleeps0: seq<int>)
      requires i < |events|
      requires NoDivisionByZero(start, events, Speed())
      requires ClockedUpTo(start, events, i, sleeps0)
      modifies this`simulatedGameClockTime, this`sleeps
      ensures ClockedUpTo(start, events, i + 1, sleeps0)
    {
      SleepPlanSnoc(start, events, i, Speed());
      assert Speed() != 0 || simulatedGameClockTime == events[i].gameClockTime;
      AdvanceClockTo(events[i].gameClockTime);
    }

    /** The second half of a turn: event `i` is sent, with the clock at its
        offset, to the connections that survived the events before it. */
    method SendStep(events: seq<Event>, i: nat, marshal: Event -> Option<Bytes>, failing: nat -> set<Conn>,
                    ghost sent0: seq<Emission>, ghost conns0: set<Conn>, ghost deliveries0: seq<Delivery>, ghost marks: seq<nat>)
      returns (ghost marks': seq<nat>)
      requires i < |events|
      requires simulatedGameClockTime == events[i].gameClockTime
      requires SentUpTo(events, i, marshal, failing, sent0, conns0, deliveries0, marks)
      modifies this`connections, this`deliveries, this`sent
      ensures SentUpTo(events, i + 1, marshal, failing, sent0, conns0, deliveries0, marks')
    {
      ghost var sent1, conns1, deliveries1 := sent, connections, deliveries;
      SendEventToAllConnections(events[i], marshal, failing(i));
      SentSnoc(events, i, marshal, failing, sent0, conns0, deliveries0, marks, sent1, conns1, deliveries1, sent, connections, deliveries);
      marks' := marks + [|deliveries| - |deliveries0|];
    }

    /** The event loop of `Run`: each event, in order, first moves the clock to its
        offset (at most one sleep) and is then sent. */
    method PlayEvents(events: seq<Event>, marshal: Event -> Option<Bytes>, failing: nat -> set<Conn>)
      returns (ghost marks: seq<nat>)
      requires NoDivisionByZero(simulatedGameClockTime, events, Speed())
      modifies this`simulatedGameClockTime, this`sleeps, this`connections, this`deliveries, this`sent
      ensures connections == Survivors(old(connections), events, marshal, failing)
      ensures simulatedGameClockTime == ClockAfter(old(simulatedGameClockTime), events)
      ensures sleeps == old(sleeps) + SleepPlan(old(simulatedGameClockTime), events, Speed())
      ensures sent == old(sent) + Emissions(events)
      ensures ExtendsPlayback(old(deliveries), deliveries, marks, old(connections), events, |events|, marshal, failing)
    {
      ghost var start := simulatedGameClockTime;
      assert events[..0] == [];
      assert deliveries[|deliveries|..] == [];
      marks := [0];
      for i := 0 to |events|
        invariant ClockedUpTo(start, events, i, old(sleeps))
        invariant SentUpTo(events, i, marshal, failing, old(sent), old(connections), old(deliveries), marks)
      {
        ClockStep(start, events, i, old(sleeps));
        marks := SendStep(events, i, marshal, failing, old(sent), old(connections), old(deliveries), marks);
      }
      assert events[..|events|] == events;
    }

    /** `Run`. `feed` is the play-by-play fetch (`None` when it fails); the wait for
        the real start time is not part of this model. A failed fetch returns an
        error before anything is sent; otherwise the events are prepared and played. */
    method Run(feed: Option<seq<Action>>, marshal: Event -> Option<Bytes>, failing: nat -> set<Conn>)
      returns (failed: bool, ghost events: seq<Event>, ghost marks: seq<nat>)
      requires feed.Some? ==> Sliceable(feed.value)
      requires feed.Some? ==>
        Speed() != 0 || forall i :: 0 <= i < |feed.value| ==> EventOf(feed.value[i]).gameClockTime == simulatedGameClockTime
      modifies this`simulatedGameClockTime, this`sleeps, this`connections, this`deliveries, this`sent
      ensures failed <==> feed.None?
      ensures feed.None? ==> unchanged(this)
      ensures feed.Some? ==>
        && multiset(events) == multiset(EventsOf(feed.value))
        && SortedByClock(events)
        && NoDivisionByZero(old(simulatedGameClockTime), events, Speed())
        && simulatedGameClockTime == ClockAfter(old(simulatedGameClockTime), events)
        && sleeps == old(sleeps) + SleepPlan(old(simulatedGameClockTime), events, Speed())
        && sent == old(sent) + Emissions(events)
        && connections == Survivors(old(connections), events, marshal, failing)
        && ExtendsPlayback(old(deliveries), deliveries, marks, old(connections), events, |events|, marshal, failing)
    {
      if feed.None? {
        return true, [], [];
      }
      var prepared := PrepareEvents(feed.value);
      events := prepared;
      forall i | 0 <= i < |prepared| && Speed() == 0
        ensures prepared[i].gameClockTime == simulatedGameClockTime
      {
        assert prepared[i] in multiset(EventsOf(feed.value));
        var k :| 0 <= k < |feed.value| && EventsOf(feed.value)[k] == prepared[i];
      }
      marks := PlayEvents(prepared, marshal, failing);
      failed := false;
    }
  }

  // ---------------------------------------------------------------------------
  // Properties of the timeline

  /** The loop sleeps at most once per event, and not at all when no event moves
      the clock. */
  lemma {:induction false} AtMostOneSleepPerEvent(start: int, events: seq<Event>, speed: int)
    requires NoDivisionByZero(start, events, speed)
    ensures |SleepPlan(start, events, speed)| <= |events|
    ensures SleepPlan(start, events, speed) == [] <==>
      forall i :: 0 <= i < |events| ==> events[i].gameClockTime == ClockBefore(start, events, i)
  {
    if events != [] {
      var n := |events| - 1;
      var prefix := events[..n];
      AtMostOneSleepPerEvent(start, prefix, speed);
      forall i | 0 <= i < n ensures ClockBefore(start, prefix, i) == ClockBefore(start, events, i) {}
    }
  }

  /** With speed 1, the sleeps add up to exactly the simulated time travelled,
      whatever the order of the events. */
  lemma {:induction false} SpeedOneIsRealTime(start: int, events: seq<Event>)
    ensures Sum(SleepPlan(start, events, 1)) == ClockAfter(start, events) - start
  {
    if events != [] {
      var n := |events| - 1;
      SpeedOneIsRealTime(start, events[..n]);
      assert ClockAfter(start, events[..n]) == ClockBefore(start, events, n);
      var plan := SleepPlan(start, events, 1);
      var pre := SleepPlan(start, events[..n], 1);
      var step := SleepFor(ClockBefore(start, events, n), events[n].gameClockTime, 1);
      assert plan == pre + step;
      if step == [] {
        assert plan == pre;
      } else {
        assert plan[..|plan| - 1] == pre;
      }
    }
  }

  /** One more sleep keeps the drift bounds of `TruncationDrift`: `slept` and
      `sleepCount` grow by `q` and by one, `travelled` by `delta`. */
  lemma DriftStep(slept: int, sleepCount: nat, travelled: int, q: int, delta: int, speed: int,
                  slept': int, sleepCount': nat)
    requires speed > 0
    requires slept * speed <= travelled
    requires travelled - sleepCount * (speed - 1) <= slept * speed
    requires 0 <= q * speed <= delta < q * speed + speed
    requires slept' == slept + q && sleepCount' == sleepCount + 1
    ensures slept' * speed <= travelled + delta
    ensures travelled + delta - sleepCount' * (speed - 1) <= slept' * speed
  {
  }

  /** For ordered events starting at or after the clock and a positive speed,
      no sleep is negative. */
  lemma {:induction false} SleepsNonNegative(start: int, events: seq<Event>, speed: int)
    requires speed > 0
    requires SortedByClock(events)
    requires events != [] ==> start <= events[0].gameClockTime
    ensures forall i :: 0 <= i < |SleepPlan(start, events, speed)| ==> SleepPlan(start, events, speed)[i] >= 0
  {
    if events != [] {
      var n := |events| - 1;
      SleepsNonNegative(start, events[..n], speed);
      var from := ClockBefore(start, events, n);
      assert from <= events[n].gameClockTime;
    }
  }

  /** For ordered events starting at or after the clock and a positive speed,
      truncation only ever shortens the replay: the slept seconds, scaled back by
      the speed, never exceed the simulated time travelled and fall short of it by
      less than one speed-unit per sleep. */
  lemma {:induction false} TruncationDrift(start: int, events: seq<Event>, speed: int)
    requires speed > 0
    requires SortedByClock(events)
    requires events != [] ==> start <= events[0].gameClockTime
    ensures Sum(SleepPlan(start, events, speed)) * speed <= ClockAfter(start, events) - start
    ensures ClockAfter(start, events) - start - |SleepPlan(start, events, speed)| * (speed - 1)
         <= Sum(SleepPlan(start, events, speed)) * speed
  {
    if events != [] {
      var n := |events| - 1;
      var prefix := events[..n];
      TruncationDrift(start, prefix, speed);
      var pre := SleepPlan(start, prefix, speed);
      var from := ClockBefore(start, events, n);
      var to := events[n].gameClockTime;
      assert ClockAfter(start, prefix) == from;
      assert from <= to;
      var step := SleepFor(from, to, speed);
      var plan := SleepPlan(start, events, speed);
      assert plan == pre + step;
      assert ClockAfter(start, events) == to;
      if step != [] {
        assert plan[..|plan| - 1] == pre;
        QuotBounds(to - from, speed);
        var q := Quot(to - from, speed);
        DriftStep(Sum(pre), |pre|, from - start, q, to - from, speed, Sum(plan), |plan|);
      } else {
        assert plan == pre;
      }
    }
  }

  /** In the writes of a playback, an event whose payload cannot be marshalled
      is written to nobody; one whose payload can is written once, as a text
      frame holding that payload, to exactly the connections that were there at
      the start and whose write did not fail for an earlier event. */
  lemma ReceivesEventExactly(w: seq<Delivery>, marks: seq<nat>, conns: set<Conn>, events: seq<Event>, n: nat,
                             marshal: Event -> Option<Bytes>, failing: nat -> set<Conn>, i: nat, c: Conn)
    requires n <= |events| && i < n
    requires PlaybackWrites(w, marks, conns, events, n, marshal, failing)
    ensures marshal(events[i]).None? ==> Round(w, marks, n, i) == []
    ensures marshal(events[i]).Some? ==>
      forall k :: 0 <= k < |Round(w, marks, n, i)| ==> Round(w, marks, n, i)[k].message == Message(TextMessage, marshal(events[i]).value)
    ensures marshal(events[i]).Some? ==>
      (c in Recipients(Round(w, marks, n, i)) <==>
       c in conns && forall j :: 0 <= j < i && marshal(events[j]).Some? ==> c !in failing(j))
  {
    assert EventWrites(Round(w, marks, n, i), Survivors(conns, events[..i], marshal, failing), events[i], marshal);
    SurvivorsExactly(conns, events[..i], marshal, failing, c);
    assert forall j :: 0 <= j < i ==> events[..i][j] == events[j];
  }

  /** Offsets 0, 5 and 5 at speed 5: no sleep before the first event, one
      one-second sleep before the second, none before the third. */
  lemma ThreeEventsAtSpeedFive(a: Action, b: Action, c: Action)
    ensures var events := [Event(0, a.actionType, a), Event(5, b.actionType, b), Event(5, c.actionType, c)];
            SleepPlan(0, events, 5) == [1] && ClockAfter(0, events) == 5
  {
    var events := [Event(0, a.actionType, a), Event(5, b.actionType, b), Event(5, c.actionType, c)];
    assert events[..1][..0] == [];
    assert SleepPlan(0, events[..1], 5) == [];
    assert events[..2][..1] == events[..1];
    assert SleepPlan(0, events[..2], 5) == [1];
    assert events[..2] == events[..|events| - 1];
  }

  /** A first event behind the clock: Go's `/` rounds `-3 / 4` to 0 (Dafny's
      Euclidean `/` gives -1), and the clock moves back to the event's offset. */
  lemma EventBehindTheClock(a: Action)
    ensures SleepPlan(0, [Event(-3, a.actionType, a)], 4) == [0]
    ensures ClockAfter(0, [Event(-3, a.actionType, a)]) == -3
  {
  }

  /** A slow-motion factor of 0.5 truncates to a speed of 0: as soon as an event
      moves the clock, the loop would divide by zero, so no playback from clock
      0 of an event at offset 5 satisfies `NoDivisionByZero`. */
  lemma SlowMotionDividesByZero(a: Action)
    ensures TruncateToInt(0.5) == 0
    ensures !NoDivisionByZero(0, [Event(5, a.actionType, a)], TruncateToInt(0.5))
  {
    var events := [Event(5, a.actionType, a)];
    assert events[0].gameClockTime != 0;
  }
}
