# nbasim — replaying an NBA game over websockets, in Dafny

nbasim replays a past NBA game in real time or faster. A *simulation* fetches
the play-by-play of a game and turns each action into an *event*. An event's
offset is the number of game seconds since tip-off, computed from the action's
clock reading (`"PT11M32.00S"`, the time left in the period) and its period.
The simulation sorts the events by offset and walks through them. Before each
event it sleeps the game seconds still to go, divided by the integer part of
the time factor, and then sends the event as a JSON text frame to every
connected websocket. A connection whose write fails is dropped.

The *server* keeps two registries, each a map from game id to a set of
connections. Simulators feed events in; listeners receive them. A websocket
request on `/ws/game/{game_id}?type=…` registers its connection under its
role. Every message it reads is broadcast to the listeners of that game, and
the connection is deregistered when reading stops. A listener whose write
fails is dropped and closed. `/api/status` reports the numbers of game ids in
the two registries.

The project has five modules:

- `GoLib` (`go_lib.dfy`) holds what the core uses from Go:
  - `strconv.Atoi` on short strings;
  - Go's truncating integer `/`;
  - the float-to-int conversion;
  - websocket handles and frames.
- `GameClock` (`game_clock.dfy`) holds `GetGameClockTime`.
- `Events` (`events.dfy`) holds actions, events and `PrepareEvents`. An
  in-place insertion sort on an array stands in for `sort.Slice`.
- `Simulation` (`simulation.dfy`) holds the `Simulation` class:
  - its connection set and the event loop of `Run`;
  - ghost traces of every sleep, every event sent and every websocket write.

  The loop is specified by functions of the event sequence: `SleepPlan`,
  `Emissions`, `ClockAfter` and `Survivors`.
- `Server` (`server.dfy`) holds the `Server` class:
  - the two registries, of type `map<string, set<Connection>>`;
  - the register and deregister steps of `handleWebSocket`, and its read loop;
  - `BroadcastToListeners` and the status counts;
  - ghost traces of writes, broadcasts and closed handles.

  `Connection` is a class, because Go allocates a fresh `&Connection{}` for
  every request and the registries key on its identity.

The model keeps five behaviours of the code that are easy to miss:

- An action whose clock does not parse is kept, at offset 0. It is not
  skipped.
- When an event's offset is behind the simulated clock, the clock is set back
  to that offset. It is not clamped.
- The sort is not stable.
- The status counts are numbers of game ids, not of connections.
- The role strings are `"simulator"`, `"listener"` and the empty string.

## Model

| member | source | states |
|---|---|---|
| GoLib.Atoi | internal/simulation/simulation.go:149-150 | `strconv.Atoi` succeeds exactly on an optional sign followed by at least one decimal digit. An unsigned numeral gives a non-negative value and a `-` numeral a non-positive one. |
| GoLib.AtoiItoa | internal/simulation/simulation.go:149-150 | `Atoi` reads back every integer that `Itoa` writes (round trip). |
| GoLib.AtoiPad2 | internal/simulation/simulation.go:149-150 | A two-digit zero-padded field, as in the `MM` and `SS` of a clock reading, parses to its number. |
| GoLib.Quot | internal/simulation/simulation.go:96 | Go's `/` on ints: the magnitude is the floor of the magnitudes' quotient and the sign follows the operands' signs (truncation toward zero). It agrees with `/` on a non-negative dividend and a positive divisor. |
| GoLib.QuotBounds | internal/simulation/simulation.go:96 | For a positive divisor, the quotient times the divisor is within one divisor below a non-negative dividend and never above it. |
| GoLib.TruncateToInt | internal/simulation/simulation.go:96 | `int(time_factor)` truncates toward zero. For a non-negative float the result is the greatest integer not above it; for a negative one, the least integer not below it. Factors strictly between -1 and 1 give 0. |
| GameClock.GetGameClockTime | internal/simulation/simulation.go:147-156 | An error is reported exactly when the seconds field `[5:7]` is not a numeral. It then gives `(0, err)`, with the field's text as the error. Otherwise the offset is `720*period - 60*minutes - seconds`, and a minutes field that does not parse counts as 0. Slicing needs at least 7 characters. |
| GameClock.WellFormedClock | internal/simulation/simulation.go:154 | For a reading `PTmmMss…`, the offset is `720*period - 60*mm - ss`, with no error. |
| GameClock.FirstPeriodExamples | internal/simulation/simulation.go:154 | `("PT12M00.00S", 1)` gives 0 and `("PT11M30.00S", 1)` gives 30. |
| GameClock.OvertimeGap | internal/simulation/simulation.go:154 | The end of regulation `("PT00M00.00S", 4)` gives 2880. The first overtime reading `("PT05M00.00S", 5)` gives 3300. Every period is counted as twelve minutes. |
| GameClock.ClockOrder | internal/simulation/simulation.go:154 | Within one period, less time left means a later offset. Every reading of a regulation period falls in that period's 720-second slot. |
| GameClock.MalformedFields | internal/simulation/simulation.go:149-153 | A bad minutes field is silently read as 0 minutes: `"PTxxM30.00S"` gives 690. A bad seconds field gives `(0, err)`. |
| Events.EventOf | internal/simulation/simulation.go:130-138 | The event carries its action and action type. A clock that does not parse gives offset 0. |
| Events.EventsOf | internal/simulation/simulation.go:129-140 | One event per action, in feed order, none skipped. |
| Events.SortByClock | internal/simulation/simulation.go:141-143 | Sorts the array in place by offset. The result is ordered and a permutation of the input. |
| Events.PrepareEvents | internal/simulation/simulation.go:127-145 | There is one event per action. The output is a permutation of the per-action events, ordered by offset. |
| Events.EveryActionKept | internal/simulation/simulation.go:129-140 | The event of every action, including one whose clock failed to parse, is among the prepared events. |
| Simulation.Simulation.constructor | internal/simulation/simulation.go:28-36 | `New`: the clock is 0, there are no connections and the traces are empty. |
| Simulation.Simulation.AddConnection | internal/simulation/simulation.go:38-42 | The connection set becomes the old set plus the connection (idempotent). |
| Simulation.Simulation.RemoveConnection | internal/simulation/simulation.go:44-48 | The connection set becomes the old set minus the connection (a no-op when the connection is absent). |
| Simulation.Simulation.SendEventToAllConnections | internal/simulation/simulation.go:108-125 | On a marshal failure nothing is written and the connections are unchanged. Otherwise every connection gets exactly one text frame with the payload, and the connections become the old set minus exactly those whose write failed. |
| Simulation.Simulation.AdvanceClockTo | internal/simulation/simulation.go:93-99 | The inner loop runs at most once. It leaves the clock exactly at the offset, also when the offset is behind the clock. It sleeps `(offset - clock) / int(time_factor)` with Go's division, or not at all when the clock is already there. |
| Simulation.Simulation.ClockStep | internal/simulation/simulation.go:93-99 | The first half of a turn of the event loop extends the played prefix by one event: the clock moves to the event's offset and its sleep, if any, is appended to `SleepPlan` of the prefix. |
| Simulation.Simulation.SendStep | internal/simulation/simulation.go:102-125 | The second half of a turn: the event is sent with the clock at its offset. Its write round goes to exactly the connections that survived the earlier events, and the connections whose write failed are dropped. |
| Simulation.SentSnoc | internal/simulation/simulation.go:102-125 | One `sendEventToAllConnections` extends the emissions, `Survivors` and the per-event write rounds by exactly that event. |
| Simulation.ReceivesEventExactly | internal/simulation/simulation.go:108-125 | In a playback's writes, an event whose payload cannot be marshalled is written to nobody. Otherwise it is written once to each connection, as a text frame holding its payload, exactly when the connection was there at the start and no write to it failed for an earlier event (both directions). |
| Simulation.Simulation.PlayEvents | internal/simulation/simulation.go:89-105 | The loop sends every event once, in order, with the clock at its offset. Its sleeps are exactly `SleepPlan` and the clock ends at the last offset. The surviving connections are exactly `Survivors`. The new writes are one round per event: event `i` is written once to each survivor of the events before it, or to nobody when its payload cannot be marshalled. A zero `int(time_factor)` is allowed only when no event moves the clock. |
| Simulation.Simulation.Run | internal/simulation/simulation.go:50-106 | A failed fetch returns an error and changes nothing. Otherwise the prepared events are sorted and a permutation of the per-action events. They are played as `PlayEvents` states: sleeps, clock, emissions, surviving connections and one write round per event. |
| Simulation.Survivors | internal/simulation/simulation.go:118-123 | Folds `sendEventToAllConnections`' pruning over the events, one failing set per event. |
| Simulation.SurvivorsExactly | internal/simulation/simulation.go:118-123 | A connection survives the playback exactly when it was connected and no write to it failed while a marshalled event was sent. |
| Simulation.Emissions | internal/simulation/simulation.go:90-103 | One emission per event, in order, with the clock at the event's offset. |
| Simulation.AtMostOneSleepPerEvent | internal/simulation/simulation.go:93-99 | There are at most as many sleeps as events. There are none exactly when every event is at the clock reached before it. |
| Simulation.SpeedOneIsRealTime | internal/simulation/simulation.go:93-99 | At time factor 1, the sleeps add up to exactly the simulated time travelled. |
| Simulation.SleepsNonNegative | internal/simulation/simulation.go:94-96 | For ordered events that start at or after the clock, with a positive factor, no sleep is negative. |
| Simulation.TruncationDrift | internal/simulation/simulation.go:94-97 | With a positive factor and ordered events, the truncated sleeps scaled back by the factor never exceed the simulated time travelled. They fall short of it by less than one factor-unit per sleep. |
| Simulation.ThreeEventsAtSpeedFive | internal/simulation/simulation.go:93-99 | Offsets 0, 5, 5 at factor 5 give a single one-second sleep, and the clock ends at 5. |
| Simulation.SlowMotionDividesByZero | internal/simulation/simulation.go:96 | A time factor of 0.5 truncates to 0, so an event that moves the clock violates `NoDivisionByZero`: Go would panic on the division. |
| Simulation.EventBehindTheClock | internal/simulation/simulation.go:93-97 | An event at -3 seen from clock 0 at factor 4 sleeps `-3 / 4 = 0` (Go truncation), and the clock moves back to -3. |
| Server.ParseConnectionType | internal/server/server.go:106-180 | `"simulator"` is the simulator role. `"listener"` and the empty string are the listener role. Anything else is refused (both directions). |
| Server.Registered | internal/server/server.go:117-122 | Registration creates the game's set if absent and adds the connection. No other game changes. |
| Server.Deregistered | internal/server/server.go:124-129 | Deregistration removes the connection from its game's set. The game's key stays, and no other game changes. |
| Server.Pruned | internal/server/server.go:203-209 | After a broadcast, the game's set loses exactly its failed connections. The keys and the other games are unchanged, and an unknown game gets no entry. |
| Server.OneBroadcastPerMessage | internal/server/server.go:182-196 | The broadcasts of the read loop are one per message read, in order, all for the connection's game. |
| Server.StillListening | internal/server/server.go:203-209 | Over a series of broadcasts, a game's listeners are only ever removed. |
| Server.StillListeningExactly | internal/server/server.go:203-209 | A listener is still registered after a series of broadcasts exactly when none of them failed to write to it. |
| Server.SameRegistry | internal/server/server.go:36-37 | Two registries with the same keys, the same set for one game and the same other entries are equal. |
| Server.RegisteredDetermined | internal/server/server.go:140-145 | Any registry with the old keys plus the game, the game's set plus the connection, and every other entry kept is the registry registration produces. |
| Server.DeregisteredDetermined | internal/server/server.go:147-152 | Any registry with the old keys, the game's set minus the connection, and every other entry kept is the registry deregistration produces. |
| Server.PrunedDetermined | internal/server/server.go:203-209 | Any registry with the old keys, the game's set minus its failed listeners, and every other entry kept is the registry a broadcast leaves. |
| Server.DroppedSnoc | internal/server/server.go:203-209 | Broadcast `n` removes from the listeners still registered exactly those whose write fails, and the closed handles grow by exactly theirs. |
| Server.StillListeningWithout | internal/server/server.go:140-152 | A listener that joins a game for its read loop and leaves afterwards changes nothing for the game's other listeners. |
| Server.HearsBroadcastExactly | internal/server/server.go:199-211 | In the writes of a read loop, message `i` reaches a listener exactly when it was registered when the loop started and no earlier broadcast failed to reach it (both directions). Every write of that round carries message `i`. |
| Server.Audience | internal/server/server.go:140-145 | The listeners a connection's messages reach: the game's listeners, joined by the connection itself exactly when it is a listener. |
| Server.RegisterIdempotent | internal/server/server.go:140-145 | Registering the same connection twice is registering it once. |
| Server.RegisterThenDeregister | internal/server/server.go:117-129 | Register followed by deregister restores the game's set, but leaves the game's key in the registry. |
| Server.Server.constructor | internal/server/server.go:41-48 | `New`: both registries are empty. |
| Server.Server.Register | internal/server/server.go:140-145 | The connection is registered in its role's registry, and the other registry is unchanged. |
| Server.Server.Deregister | internal/server/server.go:147-152 | The connection is deregistered from its role's registry, and its handle is closed. The other registry is unchanged. |
| Server.Server.BroadcastToListeners | internal/server/server.go:199-211 | Each listener of the game gets exactly one write of the message. Listeners whose write failed are removed and closed, and the rest stay. Simulators, other games and unknown games are untouched. |
| Server.Server.GetStatus | internal/server/server.go:70-88 | The simulation and listener counts are numbers of game ids (registry keys), and the total is their sum. The game ids listed are exactly the simulator keys, without repetition. |
| Server.Server.ServeMessages | internal/server/server.go:182-196 | Every message read is broadcast, in order, to the listeners of the connection's game. Message `i` is written once to each listener still registered after the broadcasts before it, one round of writes per message. Afterwards the game's listeners are exactly `StillListening`, and the closed handles grew by exactly those of the dropped listeners. No game key, other game or simulator changes. |
| Server.Server.HandleWebSocket | internal/server/server.go:90-197 | A refused role registers nothing, writes nothing and closes the handle. Otherwise a fresh connection is registered, every message read is broadcast to the game's listeners in order, and the connection is then gone from its set while the game's key stays. The game's listeners end as `StillListening` of the old ones; the write rounds go to the old listeners plus the connection itself when it is a listener. A listener leaves the simulators unchanged and adds the game's listener key if it was absent; a simulator leaves the listener keys unchanged and only leaves the game's simulator key behind. The handles closed are those of the dropped listeners and the connection's own. Other games are untouched. |
| Server.StatusCountsGames | internal/server/server.go:74-83 | Two listeners of one game count as one listener. The game still counts after both have left. |
| Server.BroadcastDropsFailedListener | internal/server/server.go:199-211 | Three listeners register on one game and the write to one of them fails. Exactly that one is removed and the other two remain. |

## Left out

- The fetch of the play-by-play (`internal/retrieve`) and its JSON decoding are not modelled. `Run` takes the fetch's outcome as a parameter, `None` meaning an error.
- `json.Marshal` of an event is an oracle parameter, and `None` stands for its error.
- Websocket writes that fail are given as sets of failing handles. Read errors end the list of messages read.
- The wait until the real start time (internal/simulation/simulation.go:75-87) is not modelled. It reads the wall clock and sleeps float seconds, and it sends nothing.
- Logging, the websocket upgrade and its error path, the router and `Server.Run`'s listen loop, and the command line (`cmd/nbasim`) are not modelled. They are I/O.
- The mutexes and the interleaving of concurrent handlers are not modelled. Each locked region is one atomic method, and `HandleWebSocket` runs one request from start to end.
- Go's randomised map iteration order is replaced by an arbitrary choice.
- `time_factor` is a real number, not a float64, so no rounding is modelled. Only `int(time_factor)` enters the playback. Sleeps are recorded in whole seconds, not as `time.Duration` values.
- GoLib.Atoi: does not model inputs of 19 or more bytes, where Go's slow path and its range error apply. The clock fields are two characters long.
- A clock reading shorter than 7 characters makes Go's slice expression panic (internal/simulation/simulation.go:149-150). The model requires at least 7 characters (`Sliceable`) and does not model the panic.
- A time factor in (-1, 1) truncates to 0, and the division at internal/simulation/simulation.go:96 then panics as soon as an event moves the clock. The model requires `NoDivisionByZero` and does not model the panic; `SlowMotionDividesByZero` shows a factor of 0.5 violating it.
- Server.Server.HandleWebSocket: the messages read and the failing writes are independent parameters. The model therefore also admits runs that Go cannot produce, where a listener whose write failed and whose handle was closed goes on reading. Every contract holds for those runs too.
- Go's `int` is 64-bit, so the offset formula (internal/simulation/simulation.go:154) and the sleep product `int(time.Second) * (delta / k)` (internal/simulation/simulation.go:96) wrap around on overflow. The model's integers are unbounded; no real clock reading or feed comes near those values.
- Strings are sequences of characters, not of bytes. No clock reading depends on the difference.
- The JSON body of the status response is not modelled. Its fields are the `Status` datatype.
