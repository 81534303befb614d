/** Turning play-by-play actions into events ordered by their game-clock offset. */
module Events {
  import opened GoLib
  import opened GameClock

  /** A play-by-play action. Only the clock reading, the period and the action
      type matter to the replay; every other field travels along as payload. */
  datatype Action = Action(clock: string, period: int, actionType: string, payload: map<string, string>)

  /** An action tagged with its offset in seconds since tip-off. */
  datatype Event = Event(gameClockTime: int, actionType: string, action: Action)

  /** Every clock string can be sliced at `[2:4]` and `[5:7]`. */
  predicate Sliceable(actions: seq<Action>) {
    forall i :: 0 <= i < |actions| ==> |actions[i].clock| >= 7
  }

  /** The event built for one action. A clock that does not parse still yields an
      event, at offset 0 (the value returned beside the error). */
  function EventOf(a: Action): (e: Event)
    requires |a.clock| >= 7
    ensures e.action == a && e.actionType == a.actionType
    ensures GetGameClockTime(a.clock, a.period).err.Some? ==> e.gameClockTime == 0
  {
    Event(GetGameClockTime(a.clock, a.period).seconds, a.actionType, a)
  }

  /** The events for the actions, one per action, in feed order. */
  function EventsOf(actions: seq<Action>): (es: seq<Event>)
    requires Sliceable(actions)
    ensures |es| == |actions|
    ensures forall i :: 0 <= i < |actions| ==> es[i] == EventOf(actions[i])
  {
    if actions == [] then [] else EventsOf(actions[..|actions| - 1]) + [EventOf(actions[|actions| - 1])]
  }

  predicate SortedByClock(s: seq<Event>) {
    forall i, j :: 0 <= i < j < |s| ==> s[i].gameClockTime <= s[j].gameClockTime
  }

  /** Exchanges two events of the array. */
  method Swap(a: array<Event>, i: int, j: int)
    requires 0 <= i < j < a.Length
    modifies a
    ensures a[..] == old(a[..])[i := old(a[j])][j := old(a[i])]
    ensures multiset(a[..]) == old(multiset(a[..]))
  {
    a[i], a[j] := a[j], a[i];
  }

  /** Sorts the events by offset in place. `sort.Slice` promises an ordered
      permutation and nothing about the order of equal offsets; an insertion sort
      is one such sort. */
  method SortByClock(a: array<Event>)
    modifies a
    ensures SortedByClock(a[..])
    ensures multiset(a[..]) == old(multiset(a[..]))
  {
    for i := 0 to a.Length
      invariant forall p, q :: 0 <= p < q < i ==> a[p].gameClockTime <= a[q].gameClockTime
      invariant multiset(a[..]) == old(multiset(a[..]))
    {
      var j := i;
      while j > 0 && a[j - 1].gameClockTime > a[j].gameClockTime
        invariant 0 <= j <= i
        invariant multiset(a[..]) == old(multiset(a[..]))
        invariant forall p, q :: 0 <= p < q <= i && q != j ==> a[p].gameClockTime <= a[q].gameClockTime
        invariant 0 < j < i ==> a[j - 1].gameClockTime <= a[j + 1].gameClockTime
      {
        Swap(a, j - 1, j);
        j := j - 1;
      }
    }
  }

  /** `PrepareEvents`: one event per action, none skipped, ordered by offset. */
  method PrepareEvents(actions: seq<Action>) returns (events: seq<Event>)
    requires Sliceable(actions)
    ensures |events| == |actions|
    ensures multiset(events) == multiset(EventsOf(actions))
    ensures SortedByClock(events)
  {
    var built: seq<Event> := [];
    for i := 0 to |actions|
      invariant built == EventsOf(actions[..i])
    {
      assert actions[..i + 1][..i] == actions[..i];
      built := built + [EventOf(actions[i])];
    }
    assert actions[..|actions|] == actions;
    var a := new Event[|built|](k requires 0 <= k < |built| => built[k]);
    assert a[..] == built;
    SortByClock(a);
    events := a[..];
  }

  /** Every action of the feed is among the prepared events, whether or not its
      clock parsed. */
  lemma {:induction false} EveryActionKept(actions: seq<Action>, events: seq<Event>, i: int)
    requires Sliceable(actions)
    requires multiset(events) == multiset(EventsOf(actions))
    requires 0 <= i < |actions|
    ensures EventOf(actions[i]) in events
  {
    assert EventsOf(actions)[i] == EventOf(actions[i]);
    assert EventOf(actions[i]) in multiset(EventsOf(actions));
  }
}
