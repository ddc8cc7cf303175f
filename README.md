# asyncLio-bot: bookkeeping, routing and resilient streams, in Dafny

A model of the core of asyncLio-bot, a lichess bot client written in Python:

- `game_manager.dfy` (module `Manager`): the `GameManager`. It keeps a FIFO queue of
  accepted challenge ids, a map of games in progress, and a concurrency limit that gates
  both. Each handler (`on_game_start`, `on_game_finish`, `on_challenge`,
  `on_challenge_cancelled`, `_clean_games`, one pass of `run` with its queue-drain loop) is
  a pure transition on a `State` value. The class `GameManager` holds the same state in
  fields, and its methods are proved to perform those transitions. The requests the manager
  sends to lichess (accept, decline, abort, a matchmaking challenge) are appended to `sent`.
  `_should_accept` is a pure validator over the challenge record and the `challenge`
  section of the configuration.
- `event_handler.dfy` (module `Dispatch`): `EventHandler.run`. `Route` is the case split on
  the event's `type`. `Calls` is the sequence of handler calls a stream prefix causes, stated
  against an abstract manager interface. `EventHandler.Run` binds that interface to a
  `GameManager` object and is proved to leave the manager in the state the replayed calls
  give. `RouteAsWritten` and `RunAsWritten` describe what the dispatch code does against the
  manager as actually defined (see Findings).
- `lichess.dfy` (module `Lichess`): the line rule of the streams (a blank line is a `ping`,
  any other line is parsed). It also covers the reconnect structure of `event_stream` (never
  ends) and `game_stream` (returns after a clean session), the single session of
  `get_online_bots`, and the retry decision of `post`.
- `events.dfy` holds the decoded event records; `wrappers.dfy` holds `Option`.

A streaming request is a `Session`: either no response at all, or a status code, the lines
received, and whether the connection ended cleanly. The stream readers are modelled over a
finite list of the sessions they open. JSON parsing is an unconstrained parameter
`parse`. `JsonLoads` wraps it so that a whitespace-only document never parses. `is_game_over` is a parameter. The
configuration values are a `Config` record.

Behaviour worth noting, as the code has it:

- `game_stream` has no "is the game still ongoing" check. It reconnects after every fault
  and returns only after a session that ends cleanly.
- After a clean end of a session, `event_stream` reopens the stream at once. It sleeps only
  after an exception.
- A line that fails to parse ends its session. The rest of that session's lines are lost,
  not just the bad line.
- `post` never raises on a 4xx. It returns the response after one request.
- `raise_for_status` rejects every status outside 2xx.

## Model

| member | source | states |
|---|---|---|
| `Manager.ShouldAccept` | game_manager.py:84-115 | accepts exactly when challenges are enabled, the variant and the speed are allowed, and the initial time and increment lie within the configured bounds. A challenge with no clock limit or increment is declined. |
| `Manager.ShouldAcceptAsWritten` | game_manager.py:102-112 | as written, the check raises exactly when the earlier checks pass and the `limit` is missing, or the `limit` is in range and the `increment` is missing. When it does not raise, it agrees with `ShouldAccept`. |
| `Manager.CorrespondenceChallengeRaises` | game_manager.py:102-109 | a challenge with no clock `limit`, whose variant and speed are allowed, makes the as-written check raise, while the corrected check declines it |
| `Manager.DefaultBounds` | game_manager.py:89-92 | with no bounds configured, the accepted initial times are 0..315360000 and the accepted increments 0..180 |
| `Manager.GameStarted` | game_manager.py:40-55 | at or over the limit, the game is aborted and nothing else changes. Under it, exactly that game id is added, other entries are kept and the event is set. Either way `len(current_games) <= concurrency` is preserved. |
| `Manager.HandlersKeepLimit` | game_manager.py:81-82 | each of the four handlers preserves the bound on the number of games in progress |
| `Manager.GameFinished` | game_manager.py:57-61 | the finished id is removed if present, every other entry is unchanged, the size drops by one exactly when it was present, and the event is always set |
| `Manager.ChallengeReceived` | game_manager.py:63-74 | a challenge from the bot's own account changes nothing. An acceptable one is appended to the back of the queue and sets the event. Any other is declined, with the queue unchanged. |
| `Manager.FirstIndex` | game_manager.py:78-79 | the index found holds the id, and no earlier position does |
| `Manager.RemoveFirst` | game_manager.py:78-79 | an id that is not queued leaves the queue unchanged; otherwise exactly one occurrence is removed (multiset) |
| `Manager.RemoveFirstSplits` | game_manager.py:78-79 | the removal drops the first occurrence and keeps everything before and after it in order |
| `Manager.ChallengeCancelled` | game_manager.py:76-79 | a queued id loses its first occurrence and the other ids keep their order. An id that is not queued changes nothing. Games, event and sent requests are untouched. |
| `Manager.Unfinished` | game_manager.py:117-122 | keeps exactly the entries whose game is not over, with their values, so the map never grows |
| `Manager.Cleaned` | game_manager.py:117-122 | `_clean_games` keeps exactly the games that are not over, each with its own value, never adds one, and leaves the queue, the event and the sent requests as they were |
| `Manager.Accepts` | game_manager.py:37-38 | the drain sends as many accepts as there are queued ids |
| `Manager.Drained` | game_manager.py:37-38 | the drain loop never touches the games or the event. Under the limit it empties the queue and sends one request per queued id. At the limit it changes nothing. Earlier requests always stay in place. |
| `Manager.DrainIsFifo` | game_manager.py:37-38 | under the limit, the drain empties the queue and sends one accept per queued id in FIFO order, after everything sent before. At the limit it changes nothing. It never touches the games. |
| `Manager.AcceptsInOrder` | game_manager.py:37-38 | the accepts are one per queued id, position for position |
| `Manager.RunPass` | game_manager.py:19-38 | one pass of `run` leaves the games as cleaning left them, leaves the event cleared, and preserves the concurrency bound. If the event was set and the games are under the limit, the queue is emptied and one accept per queued id is sent, in order. If it was set at the limit, the queue and requests are unchanged. On a timeout the queue is kept, and exactly one matchmaking challenge is sent when under the limit and matchmaking is enabled, none otherwise. |
| `Manager.GameManager.constructor` | game_manager.py:12-17 | starts with no games, an empty queue and the event clear |
| `Manager.GameManager.OnGameStart` | game_manager.py:40-55 | performs `GameStarted` on the fields and keeps the invariant |
| `Manager.GameManager.OnGameFinish` | game_manager.py:57-61 | performs `GameFinished` on the fields |
| `Manager.GameManager.OnChallenge` | game_manager.py:63-74 | performs `ChallengeReceived` on the fields |
| `Manager.GameManager.OnChallengeCancelled` | game_manager.py:76-79 | performs `ChallengeCancelled` on the fields |
| `Manager.GameManager.CleanGames` | game_manager.py:117-122 | replaces the games by the unfinished ones, and nothing else |
| `Manager.GameManager.DrainQueue` | game_manager.py:37-38 | the loop pops from the front and accepts while under the limit and the queue is not empty; it ends in the state `Drained` gives |
| `Manager.GameManager.RunOnce` | game_manager.py:19-38 | performs one pass of `run` (`RunPass`): clean; on a timeout, matchmake if under the limit and enabled; otherwise clear the event and drain |
| `Dispatch.Calls` | event_handler.py:13-32 | at most one handler call per event of the stream |
| `Dispatch.CallsRouted` | event_handler.py:16-32 | every call the dispatcher makes is to the handler its event's type routes to |
| `Dispatch.CallsAppend` | event_handler.py:15-32 | events are handled one at a time in stream order: the calls of a concatenation are the concatenated calls |
| `Dispatch.EachEventInTurn` | event_handler.py:15-32 | each event's calls sit at its own position, and the events after it are still handled |
| `Dispatch.RoutingTable` | event_handler.py:16-32 | `ping`, `challengeDeclined` and unknown types cause no call. `gameStart`, `gameFinish`, `challenge` and `challengeCanceled` each cause exactly one call of their handler with that event. |
| `Dispatch.Apply` | event_handler.py:19-29 | each handler call performs its manager transition: `GameStarted`, `GameFinished`, `ChallengeReceived` or `ChallengeCancelled`, on the event's payload. Defined by its body, with no contract. |
| `Dispatch.Replay` | event_handler.py:15-32 | the manager state after a sequence of calls, applied one after another in stream order. Defined by its body, with no contract. |
| `Dispatch.ReplaySnoc` | event_handler.py:15-32 | one more handler call is applied to the state the earlier calls left, in stream order |
| `Dispatch.ApplyKeepsLimit` | event_handler.py:19-29 | any single handler call keeps the games within the limit |
| `Dispatch.ReplayKeepsLimit` | event_handler.py:15-32 | whatever sequence of calls the control stream causes, the games in progress never exceed the limit |
| `Dispatch.EventHandler.constructor` | event_handler.py:8-11 | binds the handler to its manager, with the manager loop not yet started |
| `Dispatch.EventHandler.Handle` | event_handler.py:16-32 | one pass of the `if`/`elif` chain makes exactly the calls the event routes to, and changes the manager by replaying them |
| `Dispatch.EventHandler.Run` | event_handler.py:13-32 | starts the manager loop, then makes exactly the calls `Calls` gives, in order, and leaves the manager in the state those calls give. |
| `Dispatch.RouteAsWritten` | event_handler.py:16-32 | as written, an event's call raises exactly for `gameFinish` (missing argument), for `challengeCanceled` (missing method), and for a challenge from another account that `_should_accept` cannot compare (missing `limit` or `increment`). Only `on_challenge` is ever awaited, and it is awaited for every challenge that does not raise. `gameStart` creates a coroutine that never runs. `ping`, `challengeDeclined` and unknown types make no call. |
| `Dispatch.RunAsWritten` | event_handler.py:13-32 | as written, at most one call per event, and the only handler that ever runs is the challenge handler |
| `Dispatch.RunAsWrittenSnoc` | event_handler.py:15-29 | as written, while nothing has raised, an awaited challenge appends exactly its own call to the trace, and an event with no call or an unawaited one leaves the trace unchanged |
| `Dispatch.AsWrittenStopsAtFirstRaise` | event_handler.py:19-29 | as written, the first event whose call raises ends `run` with that exception. No event after it is handled. |
| `Dispatch.UnlimitedChallengeEndsRunAsWritten` | event_handler.py:25-26 | as written, an allowed challenge with no clock `limit` from another account raises `TypeError` out of `on_challenge`, and `run` ends before anything else is handled |
| `Dispatch.GameStartLostAsWritten` | event_handler.py:19-20 | as written, a `gameStart` event runs no handler. With the call awaited, it makes exactly one game-start call. |
| `Lichess.JsonLoads` | lichess.py:62 | a whitespace-only document never parses; any other goes to the uninterpreted parser |
| `Lichess.StreamLine` | lichess.py:61-65 | a blank line yields exactly `{"type": "ping"}`; any other line yields what parsing it gives |
| `Lichess.DecodeUntilError` | lichess.py:60-66 | one item per line, in line order, each the decoding of its line, up to the first line that fails. The result is clean exactly when every line decoded. |
| `Lichess.DecodeDetermined` | lichess.py:60-66 | the decoding of a session is determined by that characterisation |
| `Lichess.SessionRead` | lichess.py:58-66 | a failed request or a non-2xx status yields nothing and is a fault. Otherwise the decoded prefix is yielded, and the session is clean exactly when all lines decoded and the connection ended cleanly. |
| `Lichess.ReadSession` | lichess.py:58-66 | reading a session line by line yields exactly `SessionRead` |
| `Lichess.FaultCount` | lichess.py:67-72 | at most one pause per session |
| `Lichess.EventStreamEvents` | lichess.py:55-72 | the events `event_stream` yields over the sessions it opens: each session's decoded prefix, concatenated in order. Defined by its body, with no contract. |
| `Lichess.EventStream` | lichess.py:55-72 | yields each session's events in order across reconnects, and pauses once per faulty session |
| `Lichess.EventStreamNeverStops` | lichess.py:55-72 | no session ends `event_stream`: the events over `a + b` are those over `a` followed by those over `b` |
| `Lichess.BlankLineIsPing` | lichess.py:61-65 | a blank line reached on an open session is delivered as exactly one ping, at its own position |
| `Lichess.GameStreamRead` | lichess.py:74-94 | `game_stream` returns exactly when some session it opens ends cleanly |
| `Lichess.GameStream` | lichess.py:74-94 | reconnects after every faulty session, and returns right after the first clean one without opening another |
| `Lichess.GameStreamStopsAfterCleanEnd` | lichess.py:88 | sessions after a clean end are never opened and change nothing |
| `Lichess.GameStreamIsPrefixOfEventStream` | lichess.py:74-94 | over the same sessions, `game_stream` yields a prefix of what `event_stream` would, and the same events while no session has ended cleanly |
| `Lichess.GameStreamEndsWithCleanSession` | lichess.py:74-94 | when session `k` is the first to end cleanly, `game_stream` returns and yields exactly what `event_stream` yields over sessions `0..k`, including every event of the session that ends it |
| `Lichess.OnlineBots` | lichess.py:96-104 | a single session with no ping rule and no reconnect: it yields the decoded prefix |
| `Lichess.OnlineBotsStopAtBlankLine` | lichess.py:100-101 | a blank line stops `get_online_bots`: nothing at or after it is yielded |
| `Lichess.Attempts` | lichess.py:35-53 | every request but the last got a retryable answer (a network error or status >= 500). The last one got a non-retryable answer, or the retry ceiling was reached. |
| `Lichess.AttemptsDetermined` | lichess.py:35-53 | that characterisation fixes the number of requests |
| `Lichess.PostOutcome` | lichess.py:35-53 | `None` (a network error given up on) comes only after the retry ceiling was reached, and so does a returned 5xx |
| `Lichess.Post` | lichess.py:35-53 | `post` issues exactly `Attempts` requests and returns the last answer. A final network error gives `None` instead of raising. |
| `Lichess.NonServerErrorIsNotRetried` | lichess.py:44-53 | a first answer below 500 (a 4xx included) is returned after a single request |
| `Lichess.TwoServerErrorsThenSuccess` | lichess.py:44-53 | two 5xx answers then a 2xx: three requests, and the 2xx is returned |

`_is_under_concurrency_limit` (game_manager.py:81-82) is the predicate `Manager.UnderLimit`.
The routing case split (event_handler.py:16-32) is `Dispatch.Route`. Both are used by the
members above.

## Findings

| source | as written | input that shows it | evidently intended | confidence | as-written member | corrected member |
|---|---|---|---|---|---|---|
| game_manager.py:102-112 | `limit` and `increment` are read with `.get` and compared as ints. A missing one raises `TypeError`, which escapes `on_challenge` and ends `EventHandler.run`. | a correspondence or unlimited challenge (no `limit`) when its variant and speed are allowed by the configuration | decline the challenge | medium, not executed | `Dispatch.UnlimitedChallengeEndsRunAsWritten` | `Manager.ShouldAccept` |
| event_handler.py:19-20 | `on_game_start(event)` is a coroutine that is never awaited, so the handler never runs | any `gameStart` event | await the handler | high, not executed | `Dispatch.GameStartLostAsWritten` | `Dispatch.RoutingTable` |
| event_handler.py:22-23 | `on_game_finish()` is called without the `event` the manager's handler requires (game_manager.py:57), so it raises `TypeError` and `run` ends | any `gameFinish` event | `on_game_finish(event)` | high, not executed | `Dispatch.AsWrittenStopsAtFirstRaise` | `Dispatch.EachEventInTurn` |
| event_handler.py:28-29 | `on_challenge_cancel` is not a method of the manager, which defines `on_challenge_cancelled` (game_manager.py:76), so it raises `AttributeError` and `run` ends | any `challengeCanceled` event | `on_challenge_cancelled(event)` | high, not executed | `Dispatch.RouteAsWritten` | `Dispatch.EventHandler.Run` |

Two further mismatches in event_handler.py are recorded but not modelled. Line 10 constructs
`GameManager(li, config)`, but the manager takes only `li` (game_manager.py:12). Line 15
iterates `li.watch_control_stream()`, but the client defines `event_stream` (lichess.py:55).
As written, either one stops `EventHandler` before any event is read. The model binds the
dispatcher to the manager and stream as they are defined.

## Left out

- HTTP transport and account bootstrap (lichess.py:18-33) and the `me` property are not
  modelled. Neither are the endpoint and parameter building of the REST wrappers
  (lichess.py:106-148). The manager's requests appear only as `Command` values in `sent`,
  without the decline reason.
- asyncio mechanics are not modelled: `asyncio.Event` is a boolean flag, `wait_for` times
  out exactly when the flag is clear after cleaning, and `create_task` for the manager loop
  and for `Game.play()` is a flag or nothing. Handlers are sequential steps. Interleaving
  between the `run` loop's awaits and the handlers is not modelled.
- Manager.DrainQueue: drains the whole queue when under the limit, because nothing in the
  sequential model can start a game during its awaits. In the source, a game may start
  between two accepts.
- Lichess.Post: the two backoff schedules (constant on network errors for 60 s,
  exponential on status >= 500 for 300 s) are abstracted into the list of answers received
  before the policy stops. Which ceiling ends the retries, and the sleeps, are not
  modelled. Only the retry/return decision and the final result are.
- Lichess.EventStream: `event_stream` never returns, so it is modelled over a finite prefix
  of the sessions it opens. The randomised sleep durations are left out; only the number of
  pauses is kept.
- JSON parsing is an uninterpreted partial function, apart from rejecting whitespace-only
  text. Logging is left out.
- Dispatch.EventHandler.Run: requires every event it routes to carry the payload its
  handler reads. The `KeyError` that a malformed event would raise inside a handler is not
  modelled. Event payloads keep only the fields the manager reads. The opponent's name is
  used only for logging and is dropped.
- `Game`, `Matchmaker` and `CONFIG` are not part of this model. `is_game_over` is a
  parameter, `Matchmaker.challenge()` is the `Matchmake` command, and configuration values
  are a `Config` record. A missing mandatory configuration key is not modelled.
