/**
 * `EventHandler.run`: starts the manager's loop, then reads the control stream and hands
 * each event to the manager handler its `type` names.
 *
 * The routing is stated against an abstract manager interface: the sequence of handler calls
 * it makes (`Calls`).  `EventHandler.Run` binds that interface to a `GameManager` object.
 * `RouteAsWritten` records what the dispatch code does with the manager as it is actually
 * defined, where three of its calls do not match.
 */
module Dispatch {
  import opened Wrappers
  import opened Events
  import opened Manager

  /** The manager handlers the dispatcher can call. */
  datatype Handler = GameStartHandler | GameFinishHandler | ChallengeHandler | ChallengeCancelHandler

  /** One call of a manager handler, with the event it is given. */
  datatype Call = Call(handler: Handler, event: Event)

  /** The case split on `event["type"]`: the handler called, if any. */
  function Route(kind: string): Option<Handler> {
    if kind == "ping" then None
    else if kind == "gameStart" then Some(GameStartHandler)
    else if kind == "gameFinish" then Some(GameFinishHandler)
    else if kind == "challenge" then Some(ChallengeHandler)
    else if kind == "challengeCanceled" then Some(ChallengeCancelHandler)
    else None
  }

  /** The calls one event causes. */
  function CallsFor(e: Event): seq<Call> {
    match Route(e.kind)
    case None => []
    case Some(h) => [Call(h, e)]
  }

  /** The calls the dispatcher makes over a stream prefix, one event at a time, in stream order. */
  function Calls(events: seq<Event>): (calls: seq<Call>)
    ensures |calls| <= |events|
  {
    if events == [] then []
    else CallsFor(events[0]) + Calls(events[1..])
  }

  /** Every call the dispatcher makes is to the handler its event's type routes to. */
  lemma {:induction false} CallsRouted(events: seq<Event>)
    ensures forall k :: 0 <= k < |Calls(events)| ==> Route(Calls(events)[k].event.kind) == Some(Calls(events)[k].handler)
  {
    if events != [] {
      CallsRouted(events[1..]);
      var head: seq<Call>, rest: seq<Call> := CallsFor(events[0]), Calls(events[1..]);
      assert Calls(events) == head + rest;
      forall k | 0 <= k < |head + rest|
        ensures Route((head + rest)[k].event.kind) == Some((head + rest)[k].handler)
      {
        if k >= |head| {
          assert (head + rest)[k] == rest[k - |head|];
        }
      }
    }
  }

  /** Events are handled one at a time: the calls of a concatenation are the concatenated calls. */
  lemma {:induction false} CallsAppend(a: seq<Event>, b: seq<Event>)
    ensures Calls(a + b) == Calls(a) + Calls(b)
  {
    if a == [] {
      assert a + b == b;
    } else {
      assert (a + b)[0] == a[0] && (a + b)[1..] == a[1..] + b;
      CallsAppend(a[1..], b);
    }
  }

  /** Each event contributes its own calls at its own position, and later events are still handled. */
  lemma {:induction false} EachEventInTurn(events: seq<Event>, i: nat)
    requires i < |events|
    ensures Calls(events) == Calls(events[..i]) + CallsFor(events[i]) + Calls(events[i + 1..])
  {
    var pre, e, post := events[..i], events[i], events[i + 1..];
    SplitAt(events, i);
    CallsAppend(pre, [e] + post);
    CallsAppend([e], post);
    CallsOfOne(e);
  }

  /** A single event causes exactly the calls it routes to. */
  lemma CallsOfOne(e: Event)
    ensures Calls([e]) == CallsFor(e)
  {
    assert [e][1..] == [];
  }

  /** Handling one more event of the stream appends that event's calls. */
  lemma CallsStep(events: seq<Event>, i: nat)
    requires i < |events|
    ensures Calls(events[..i + 1]) == Calls(events[..i]) + CallsFor(events[i])
  {
    TakeOneMore(events, i);
    CallsAppend(events[..i], [events[i]]);
    CallsOfOne(events[i]);
  }

  /**
   * The table of `run`: a `ping`, a `challengeDeclined` or an unknown type causes no call;
   * `gameStart`, `gameFinish`, `challenge` and `challengeCanceled` exactly one call of their
   * handler with that event.
   */
  lemma RoutingTable(e: Event)
    ensures e.kind !in {"gameStart", "gameFinish", "challenge", "challengeCanceled"} ==> CallsFor(e) == []
    ensures e.kind == "gameStart" ==> CallsFor(e) == [Call(GameStartHandler, e)]
    ensures e.kind == "gameFinish" ==> CallsFor(e) == [Call(GameFinishHandler, e)]
    ensures e.kind == "challenge" ==> CallsFor(e) == [Call(ChallengeHandler, e)]
    ensures e.kind == "challengeCanceled" ==> CallsFor(e) == [Call(ChallengeCancelHandler, e)]
  {
  }

  // ---------------------------------------------------------------- binding to GameManager

  /** The call carries the payload its handler reads (`event["game"]` or `event["challenge"]`). */
  predicate Carries(c: Call) {
    match c.handler
    case GameStartHandler => c.event.game.Some?
    case GameFinishHandler => c.event.game.Some?
    case ChallengeHandler => c.event.challenge.Some?
    case ChallengeCancelHandler => c.event.challenge.Some?
  }

  /** An event whose type routes to a handler carries that handler's payload. */
  predicate WellFormed(e: Event) {
    Route(e.kind).Some? ==> Carries(Call(Route(e.kind).value, e))
  }

  /** The manager transition one call performs. */
  function Apply(cfg: Config, s: State, c: Call): State
    requires Carries(c)
  {
    match c.handler
    case GameStartHandler => GameStarted(cfg, s, c.event.game.value)
    case GameFinishHandler => GameFinished(s, c.event.game.value)
    case ChallengeHandler => ChallengeReceived(cfg, s, c.event.challenge.value)
    case ChallengeCancelHandler => ChallengeCancelled(s, c.event.challenge.value)
  }

  /** Every call carries its handler's payload. */
  predicate AllCarry(calls: seq<Call>) {
    forall i :: 0 <= i < |calls| ==> Carries(calls[i])
  }

  /** The manager state after a sequence of calls, applied in order. */
  function Replay(cfg: Config, s: State, calls: seq<Call>): State
    requires AllCarry(calls)
  {
    if calls == [] then s
    else Apply(cfg, Replay(cfg, s, calls[..|calls| - 1]), calls[|calls| - 1])
  }

  lemma ReplaySnoc(cfg: Config, s: State, calls: seq<Call>, c: Call)
    requires AllCarry(calls) && Carries(c)
    ensures AllCarry(calls + [c])
    ensures Replay(cfg, s, calls + [c]) == Apply(cfg, Replay(cfg, s, calls), c)
  {
    assert (calls + [c])[..|calls|] == calls;
  }

  /** Every handler keeps the games in progress within the limit. */
  lemma ApplyKeepsLimit(cfg: Config, s: State, c: Call)
    requires Carries(c) && WithinLimit(cfg, s)
    ensures WithinLimit(cfg, Apply(cfg, s, c))
  {
    match c.handler
    case GameStartHandler => HandlersKeepLimit(cfg, s, c.event.game.value, Challenge("", "", "", "", TimeControl(None, None)));
    case GameFinishHandler => HandlersKeepLimit(cfg, s, c.event.game.value, Challenge("", "", "", "", TimeControl(None, None)));
    case ChallengeHandler => HandlersKeepLimit(cfg, s, GameInfo(""), c.event.challenge.value);
    case ChallengeCancelHandler => HandlersKeepLimit(cfg, s, GameInfo(""), c.event.challenge.value);
  }

  /** Whatever the control stream delivers, the games in progress never exceed the limit. */
  lemma {:induction false} ReplayKeepsLimit(cfg: Config, s: State, calls: seq<Call>)
    requires AllCarry(calls) && WithinLimit(cfg, s)
    ensures WithinLimit(cfg, Replay(cfg, s, calls))
  {
    if calls != [] {
      var prefix := calls[..|calls| - 1];
      assert AllCarry(prefix);
      ReplayKeepsLimit(cfg, s, prefix);
      ApplyKeepsLimit(cfg, Replay(cfg, s, prefix), calls[|calls| - 1]);
    }
  }

  class EventHandler {
    const manager: GameManager
    var managerLoopStarted: bool

    constructor(manager: GameManager)
      ensures this.manager == manager && !managerLoopStarted
    {
      this.manager := manager;
      managerLoopStarted := false;
    }

    /**
     * `run` over the first `|events|` events of the control stream: the manager loop is
     * started once, before the first event; then each event is routed in stream order.
     */
    method Run(events: seq<Event>) returns (calls: seq<Call>)
      requires manager.Valid()
      requires forall i {:trigger WellFormed(events[i])} :: 0 <= i < |events| ==> WellFormed(events[i])
      modifies this, manager
      ensures managerLoopStarted && manager.Valid()
      ensures calls == Calls(events)
      ensures AllCarry(calls)
      ensures manager.Snapshot() == Replay(manager.config, old(manager.Snapshot()), calls)
    {
      ghost var start, cfg := manager.Snapshot(), manager.config;
      managerLoopStarted := true;
      calls := [];
      var i := 0;
      while i < |events|
        invariant 0 <= i <= |events|
        invariant managerLoopStarted && manager.Valid()
        invariant calls == Calls(events[..i]) && AllCarry(calls)
        invariant manager.Snapshot() == Replay(cfg, start, calls)
      {
        assert WellFormed(events[i]);
        ghost var before := manager.Snapshot();
        var made := Handle(events[i]);
        RunStep(cfg, start, events, i, calls, made, before, manager.Snapshot());
        calls := calls + made;
        i := i + 1;
      }
      assert events[..i] == events;
    }

    /** One pass of the `if`/`elif` chain: the handler the event's type names, if any, is called. */
    method Handle(e: Event) returns (made: seq<Call>)
      requires manager.Valid() && WellFormed(e)
      modifies manager
      ensures manager.Valid()
      ensures made == CallsFor(e) && AllCarry(made)
      ensures manager.Snapshot() == Replay(manager.config, old(manager.Snapshot()), made)
    {
      RoutingTable(e);
      made := [];
      if e.kind == "ping" {
      } else if e.kind == "gameStart" {
        manager.OnGameStart(e.game.value);
        made := [Call(GameStartHandler, e)];
      } else if e.kind == "gameFinish" {
        manager.OnGameFinish(e.game.value);
        made := [Call(GameFinishHandler, e)];
      } else if e.kind == "challenge" {
        manager.OnChallenge(e.challenge.value);
        made := [Call(ChallengeHandler, e)];
      } else if e.kind == "challengeCanceled" {
        manager.OnChallengeCancelled(e.challenge.value);
        made := [Call(ChallengeCancelHandler, e)];
      } else if e.kind == "challengeDeclined" {
      }
      if made != [] {
        assert made[..0] == [];
      }
    }
  }

  /** One turn of `run`'s loop: the calls and the manager state both advance by the event's calls. */
  lemma RunStep(cfg: Config, start: State, events: seq<Event>, i: nat, calls: seq<Call>, made: seq<Call>, before: State, after: State)
    requires i < |events|
    requires calls == Calls(events[..i]) && AllCarry(calls) && before == Replay(cfg, start, calls)
    requires made == CallsFor(events[i]) && AllCarry(made) && after == Replay(cfg, before, made)
    ensures calls + made == Calls(events[..i + 1]) && AllCarry(calls + made)
    ensures after == Replay(cfg, start, calls + made)
  {
    CallsStep(events, i);
    ReplayThen(cfg, start, calls, made);
  }

  /** Replaying `calls` then at most one more call is replaying them one after the other. */
  lemma ReplayThen(cfg: Config, s: State, calls: seq<Call>, made: seq<Call>)
    requires AllCarry(calls) && AllCarry(made) && |made| <= 1
    ensures AllCarry(calls + made)
    ensures Replay(cfg, s, calls + made) == Replay(cfg, Replay(cfg, s, calls), made)
  {
    if made == [] {
      assert calls + made == calls;
    } else {
      assert made == [made[0]] && made[..0] == [];
      assert Carries(made[0]);
      ReplaySnoc(cfg, s, calls, made[0]);
    }
  }

  lemma SplitAt<T>(s: seq<T>, i: nat)
    requires i < |s|
    ensures s == s[..i] + ([s[i]] + s[i + 1..])
  {
  }

  lemma TakeOneMore<T>(s: seq<T>, i: nat)
    requires i < |s|
    ensures s[..i + 1] == s[..i] + [s[i]]
  {
  }

  // ---------------------------------------------------------------- as written

  /** The errors the dispatch code raises against the manager as defined. */
  datatype PyError = TypeError | AttributeError

  /** What the dispatch code does for a type tag as written. */
  datatype Effect =
    | NoCall
    | Awaited(handler: Handler)         // the handler runs to completion before the next event
    | NeverAwaited(handler: Handler)    // a coroutine is created and dropped: the handler never runs
    | Raises(error: PyError)            // the call itself fails and the exception ends `run`

  /**
   * `on_challenge` as written raises: the challenge is not the bot's own (line 66 of the
   * manager returns early for those), and `_should_accept` compares a missing `limit` or
   * `increment` with an int.
   */
  predicate ChallengeRaisesAsWritten(cfg: Config, e: Event) {
    && e.challenge.Some?
    && e.challenge.value.challenger != cfg.username
    && ShouldAcceptAsWritten(cfg.challenge, e.challenge.value) == None
  }

  /**
   * The dispatch of `run` as written: `on_game_start(event)` is not awaited,
   * `on_game_finish()` lacks its `event` argument, `on_challenge_cancel` is not a method of
   * the manager (it defines `on_challenge_cancelled`), and `on_challenge` lets the
   * `TypeError` of `_should_accept` escape.
   */
  function RouteAsWritten(cfg: Config, e: Event): (effect: Effect)
    ensures effect.Raises? <==>
      || e.kind == "gameFinish" || e.kind == "challengeCanceled"
      || (e.kind == "challenge" && ChallengeRaisesAsWritten(cfg, e))
    ensures effect.Awaited? ==> effect.handler == ChallengeHandler && e.kind == "challenge"
    ensures e.kind == "gameStart" ==> effect == NeverAwaited(GameStartHandler)
    ensures e.kind == "challenge" && !ChallengeRaisesAsWritten(cfg, e) ==> effect == Awaited(ChallengeHandler)
    ensures e.kind !in {"gameStart", "gameFinish", "challenge", "challengeCanceled"} ==> effect == NoCall
  {
    if e.kind == "ping" then NoCall
    else if e.kind == "gameStart" then NeverAwaited(GameStartHandler)
    else if e.kind == "gameFinish" then Raises(TypeError)
    else if e.kind == "challenge" then
      if ChallengeRaisesAsWritten(cfg, e) then Raises(TypeError) else Awaited(ChallengeHandler)
    else if e.kind == "challengeCanceled" then Raises(AttributeError)
    else NoCall
  }

  /** The handlers that actually run, and the exception that ended `run`, if any. */
  datatype Trace = Trace(calls: seq<Call>, raised: Option<PyError>)

  /** `run` as written over a stream prefix: the first exception ends it. */
  function RunAsWritten(cfg: Config, events: seq<Event>): (t: Trace)
    ensures |t.calls| <= |events|
    ensures forall k :: 0 <= k < |t.calls| ==> t.calls[k].handler == ChallengeHandler
  {
    if events == [] then Trace([], None)
    else match RouteAsWritten(cfg, events[0])
      case Raises(err) => Trace([], Some(err))
      case Awaited(h) =>
        var t := RunAsWritten(cfg, events[1..]);
        Trace([Call(h, events[0])] + t.calls, t.raised)
      case _ => RunAsWritten(cfg, events[1..])
  }

  /**
   * As written, while nothing has raised, one more event extends the trace: an awaited
   * challenge appends its call, and an event with no call or an unawaited one adds nothing.
   */
  lemma {:induction false} RunAsWrittenSnoc(cfg: Config, pre: seq<Event>, e: Event)
    requires RunAsWritten(cfg, pre).raised == None
    ensures RouteAsWritten(cfg, e).Awaited? ==>
      RunAsWritten(cfg, pre + [e]) == Trace(RunAsWritten(cfg, pre).calls + [Call(ChallengeHandler, e)], None)
    ensures RouteAsWritten(cfg, e).NoCall? || RouteAsWritten(cfg, e).NeverAwaited? ==>
      RunAsWritten(cfg, pre + [e]) == RunAsWritten(cfg, pre)
  {
    if pre == [] {
      assert pre + [e] == [e] && [e][1..] == [];
    } else {
      assert (pre + [e])[0] == pre[0];
      assert (pre + [e])[1..] == pre[1..] + [e];
      match RouteAsWritten(cfg, pre[0])
      case Raises(_) =>
      case _ => RunAsWrittenSnoc(cfg, pre[1..], e);
    }
  }

  /**
   * As written, the first event whose call raises (any `gameFinish` or `challengeCanceled`,
   * or a challenge `_should_accept` cannot compare) ends `run`: no event after it is handled.
   */
  lemma {:induction false} AsWrittenStopsAtFirstRaise(cfg: Config, pre: seq<Event>, e: Event, post: seq<Event>)
    requires RunAsWritten(cfg, pre).raised == None
    requires RouteAsWritten(cfg, e).Raises?
    ensures RunAsWritten(cfg, pre + [e] + post).calls == RunAsWritten(cfg, pre).calls
    ensures RunAsWritten(cfg, pre + [e] + post).raised == Some(RouteAsWritten(cfg, e).error)
  {
    if pre == [] {
      assert pre + [e] + post == [e] + post;
    } else {
      assert (pre + [e] + post)[0] == pre[0];
      assert (pre + [e] + post)[1..] == pre[1..] + [e] + post;
      match RouteAsWritten(cfg, pre[0])
      case Raises(_) =>
      case _ => AsWrittenStopsAtFirstRaise(cfg, pre[1..], e, post);
    }
  }

  /**
   * As written, an allowed challenge with no clock `limit` from another account raises
   * `TypeError` in `on_challenge` and ends `run` before anything after it is handled.
   */
  lemma UnlimitedChallengeEndsRunAsWritten(cfg: Config, c: Challenge, post: seq<Event>)
    requires c.challenger != cfg.username
    requires cfg.challenge.enabled && c.variant in cfg.challenge.variants
    requires c.speed in cfg.challenge.timeControls
    requires c.timeControl.limit == None
    ensures RunAsWritten(cfg, [Event("challenge", None, Some(c))] + post) == Trace([], Some(TypeError))
  {
    CorrespondenceChallengeRaises(cfg.challenge, c);
    var e := Event("challenge", None, Some(c));
    assert ([e] + post)[0] == e;
  }

  /** As written, a `gameStart` never reaches `on_game_start`; with the calls as intended it does. */
  lemma GameStartLostAsWritten(cfg: Config, e: Event)
    requires e.kind == "gameStart"
    ensures RunAsWritten(cfg, [e]) == Trace([], None)
    ensures Calls([e]) == [Call(GameStartHandler, e)]
  {
    assert [e][1..] == [];
  }
}
