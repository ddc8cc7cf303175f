/**
 * The bot's game and challenge bookkeeping (`GameManager`): a FIFO queue of accepted
 * challenge ids, the map of games in progress, and the concurrency limit that gates both.
 *
 * Each handler is specified by a pure transition on `State`; the class `GameManager` holds
 * the same state in fields and its methods are proved to perform those transitions.  The
 * requests the manager sends to lichess (accept, decline, abort, a matchmaking challenge)
 * are recorded, in order, in `sent`.
 */
module Manager {
  import opened Wrappers
  import opened Events

  // ---------------------------------------------------------------- configuration

  /** The `challenge` section of the configuration; the four bounds are optional keys. */
  datatype ChallengeConfig = ChallengeConfig(
    enabled: bool,
    variants: seq<string>,
    timeControls: seq<string>,
    minIncrement: Option<int>,
    maxIncrement: Option<int>,
    minInitial: Option<int>,
    maxInitial: Option<int>)

  /** The configuration values the manager reads, and the bot account's own name. */
  datatype Config = Config(
    username: string,
    concurrency: int,
    challenge: ChallengeConfig,
    matchmaking: bool)

  const DefaultMinIncrement := 0
  const DefaultMaxIncrement := 180
  const DefaultMinInitial := 0
  const DefaultMaxInitial := 315360000

  /** A time value lies within the configured bounds, absent bounds taking their defaults. */
  predicate InitialInRange(cc: ChallengeConfig, initial: int) {
    cc.minInitial.GetOr(DefaultMinInitial) <= initial <= cc.maxInitial.GetOr(DefaultMaxInitial)
  }

  predicate IncrementInRange(cc: ChallengeConfig, increment: int) {
    cc.minIncrement.GetOr(DefaultMinIncrement) <= increment <= cc.maxIncrement.GetOr(DefaultMaxIncrement)
  }

  // ---------------------------------------------------------------- _should_accept

  /**
   * `_should_accept`, checking in the source's order: enabled, variant, speed, initial time,
   * increment.  A challenge without a clock limit or increment is declined.
   */
  function ShouldAccept(cc: ChallengeConfig, c: Challenge): (accept: bool)
    ensures accept <==>
      && cc.enabled
      && c.variant in cc.variants
      && c.speed in cc.timeControls
      && c.timeControl.limit.Some? && InitialInRange(cc, c.timeControl.limit.value)
      && c.timeControl.increment.Some? && IncrementInRange(cc, c.timeControl.increment.value)
  {
    if !cc.enabled then false
    else if c.variant !in cc.variants then false
    else if c.speed !in cc.timeControls then false
    else match c.timeControl.limit
      case None => false
      case Some(initial) =>
        if !InitialInRange(cc, initial) then false
        else match c.timeControl.increment
          case None => false
          case Some(increment) => IncrementInRange(cc, increment)
  }

  /**
   * `_should_accept` as written: `None` stands for the `TypeError` that comparing an int
   * with a missing `limit` or `increment` raises.
   */
  function ShouldAcceptAsWritten(cc: ChallengeConfig, c: Challenge): (r: Option<bool>)
    ensures r == None <==>
      && cc.enabled && c.variant in cc.variants && c.speed in cc.timeControls
      && (|| c.timeControl.limit.None?
          || (InitialInRange(cc, c.timeControl.limit.value) && c.timeControl.increment.None?))
    ensures r.Some? ==> r.value == ShouldAccept(cc, c)
  {
    if !cc.enabled then Some(false)
    else if c.variant !in cc.variants then Some(false)
    else if c.speed !in cc.timeControls then Some(false)
    else if c.timeControl.limit.None? then None
    else if !InitialInRange(cc, c.timeControl.limit.value) then Some(false)
    else if c.timeControl.increment.None? then None
    else Some(IncrementInRange(cc, c.timeControl.increment.value))
  }

  /**
   * A correspondence challenge (no clock `limit`) makes the as-written check raise when the
   * configuration allows that speed, where the corrected check declines it.
   */
  lemma CorrespondenceChallengeRaises(cc: ChallengeConfig, c: Challenge)
    requires cc.enabled && c.variant in cc.variants && c.speed in cc.timeControls
    requires c.timeControl.limit == None
    ensures ShouldAcceptAsWritten(cc, c) == None
    ensures !ShouldAccept(cc, c)
  {
  }

  /** With no bounds configured, a challenge is accepted for 0..315360000 s initial and 0..180 s increment. */
  lemma DefaultBounds(cc: ChallengeConfig, c: Challenge, initial: int, increment: int)
    requires cc.minIncrement == None && cc.maxIncrement == None
    requires cc.minInitial == None && cc.maxInitial == None
    requires cc.enabled && c.variant in cc.variants && c.speed in cc.timeControls
    requires c.timeControl == TimeControl(Some(initial), Some(increment))
    ensures ShouldAccept(cc, c) <==> 0 <= initial <= 315360000 && 0 <= increment <= 180
  {
  }

  // ---------------------------------------------------------------- state

  /** A running game; `Game.play()` and its board are not part of this model. */
  datatype Game = Game(id: string)

  /** A request the manager sends to lichess. */
  datatype Command = Accept(challengeId: string) | Decline(challengeId: string) | Abort(gameId: string) | Matchmake

  /** `current_games`, `challenge_queue`, whether the asyncio event is set, and the requests sent so far. */
  datatype State = State(games: map<string, Game>, queue: seq<string>, eventSet: bool, sent: seq<Command>)

  /** `_is_under_concurrency_limit`. */
  predicate UnderLimit(cfg: Config, games: map<string, Game>) {
    |games| < cfg.concurrency
  }

  /** The invariant: never more games than the limit (and none at all for a limit below one). */
  predicate WithinLimit(cfg: Config, s: State) {
    |s.games| <= cfg.concurrency || s.games == map[]
  }

  /** One `Accept` per queued id, in queue order. */
  function Accepts(q: seq<string>): (accepts: seq<Command>)
    ensures |accepts| == |q|
  {
    if q == [] then [] else [Accept(q[0])] + Accepts(q[1..])
  }

  // ---------------------------------------------------------------- handlers

  /**
   * `on_game_start`: at the limit the game is aborted and nothing else changes; otherwise
   * exactly that game is added and the event is set.
   */
  function GameStarted(cfg: Config, s: State, g: GameInfo): (r: State)
    ensures !UnderLimit(cfg, s.games) ==> r == s.(sent := s.sent + [Abort(g.id)])
    ensures UnderLimit(cfg, s.games) ==>
      && r.games.Keys == s.games.Keys + {g.id} && r.games[g.id] == Game(g.id)
      && (forall id :: id in s.games && id != g.id ==> r.games[id] == s.games[id])
      && r.queue == s.queue && r.eventSet && r.sent == s.sent
    ensures WithinLimit(cfg, s) ==> WithinLimit(cfg, r)
  {
    if !UnderLimit(cfg, s.games) then s.(sent := s.sent + [Abort(g.id)])
    else s.(games := s.games[g.id := Game(g.id)], eventSet := true)
  }

  /** `on_game_finish`: the game is dropped if present, every other entry kept, and the event set. */
  function GameFinished(s: State, g: GameInfo): (r: State)
    ensures r.games.Keys == s.games.Keys - {g.id}
    ensures forall id :: id in r.games ==> r.games[id] == s.games[id]
    ensures g.id in s.games ==> |r.games| == |s.games| - 1
    ensures g.id !in s.games ==> r.games == s.games
    ensures r.queue == s.queue && r.sent == s.sent && r.eventSet
  {
    s.(games := s.games - {g.id}, eventSet := true)
  }

  /**
   * `on_challenge`: a challenge from the bot itself is ignored; an acceptable one is queued
   * at the back and the event set; any other one is declined.
   */
  function ChallengeReceived(cfg: Config, s: State, c: Challenge): (r: State)
    ensures c.challenger == cfg.username ==> r == s
    ensures c.challenger != cfg.username && ShouldAccept(cfg.challenge, c) ==>
      r.queue == s.queue + [c.id] && r.eventSet && r.games == s.games && r.sent == s.sent
    ensures c.challenger != cfg.username && !ShouldAccept(cfg.challenge, c) ==>
      r == s.(sent := s.sent + [Decline(c.id)])
  {
    if c.challenger == cfg.username then s
    else if ShouldAccept(cfg.challenge, c) then s.(queue := s.queue + [c.id], eventSet := true)
    else s.(sent := s.sent + [Decline(c.id)])
  }

  /** The position of the first occurrence of `x` in `q`. */
  function FirstIndex(q: seq<string>, x: string): (i: nat)
    requires x in q
    ensures i < |q| && q[i] == x && x !in q[..i]
  {
    if q[0] == x then 0
    else
      var i := 1 + FirstIndex(q[1..], x);
      assert q[..i] == [q[0]] + q[1..][..i - 1];
      i
  }

  /** `deque.remove(x)` guarded by `x in q`: drops the first occurrence of `x` and keeps the rest in order. */
  function RemoveFirst(q: seq<string>, x: string): (r: seq<string>)
    ensures x !in q ==> r == q
    ensures multiset(r) == multiset(q) - multiset{x}
  {
    if q == [] then []
    else if q[0] == x then
      assert q == [q[0]] + q[1..];
      q[1..]
    else
      assert q == [q[0]] + q[1..];
      [q[0]] + RemoveFirst(q[1..], x)
  }

  /** What `RemoveFirst` leaves: everything before and everything after the first occurrence, in order. */
  lemma {:induction false} RemoveFirstSplits(q: seq<string>, x: string)
    requires x in q
    ensures RemoveFirst(q, x) == q[..FirstIndex(q, x)] + q[FirstIndex(q, x) + 1..]
  {
    if q[0] != x {
      var t := q[1..];
      RemoveFirstSplits(t, x);
      var i := FirstIndex(t, x);
      assert FirstIndex(q, x) == i + 1;
      assert RemoveFirst(q, x) == [q[0]] + (t[..i] + t[i + 1..]);
      ConsSplit(q, i);
    }
  }

  lemma ConsSplit(q: seq<string>, i: nat)
    requires i + 1 < |q|
    ensures [q[0]] + (q[1..][..i] + q[1..][i + 1..]) == q[..i + 1] + q[i + 2..]
  {
    assert q[..i + 1] == [q[0]] + q[1..][..i];
    assert q[i + 2..] == q[1..][i + 1..];
  }

  /** `on_challenge_cancelled`: the id leaves the queue if it is there. */
  function ChallengeCancelled(s: State, c: Challenge): (r: State)
    ensures c.id !in s.queue ==> r == s
    ensures c.id in s.queue ==>
      r.queue == s.queue[..FirstIndex(s.queue, c.id)] + s.queue[FirstIndex(s.queue, c.id) + 1..]
    ensures multiset(r.queue) == multiset(s.queue) - multiset{c.id}
    ensures r.games == s.games && r.eventSet == s.eventSet && r.sent == s.sent
  {
    var q := RemoveFirst(s.queue, c.id);
    assert c.id in s.queue ==> q == s.queue[..FirstIndex(s.queue, c.id)] + s.queue[FirstIndex(s.queue, c.id) + 1..] by {
      if c.id in s.queue {
        RemoveFirstSplits(s.queue, c.id);
      }
    }
    s.(queue := q)
  }

  // ---------------------------------------------------------------- the run loop

  /** The comprehension of `_clean_games`: exactly the entries whose game is not over. */
  function Unfinished(games: map<string, Game>, isGameOver: Game -> bool): (kept: map<string, Game>)
    ensures forall id :: id in kept <==> id in games && !isGameOver(games[id])
    ensures forall id :: id in kept ==> kept[id] == games[id]
    ensures |kept| <= |games|
  {
    var kept := map id | id in games && !isGameOver(games[id]) :: games[id];
    SubsetCard(kept.Keys, games.Keys);
    kept
  }

  /** `_clean_games`: replaces the games by the unfinished ones; nothing else changes. */
  function Cleaned(s: State, isGameOver: Game -> bool): (r: State)
    ensures forall id :: id in r.games <==> id in s.games && !isGameOver(s.games[id])
    ensures forall id :: id in r.games ==> r.games[id] == s.games[id]
    ensures |r.games| <= |s.games|
    ensures r.queue == s.queue && r.eventSet == s.eventSet && r.sent == s.sent
  {
    s.(games := Unfinished(s.games, isGameOver))
  }

  lemma {:induction false} SubsetCard(a: set<string>, b: set<string>)
    requires a <= b
    ensures |a| <= |b|
  {
    assert b == a + (b - a);
  }

  /**
   * What the drain loop of `run` leaves.  Accepting a challenge does not add a game, so the
   * loop's condition stays as it was: under the limit every queued id is accepted, in FIFO
   * order; at the limit nothing happens.
   */
  function Drained(cfg: Config, s: State): (r: State)
    ensures r.games == s.games && r.eventSet == s.eventSet
    ensures UnderLimit(cfg, s.games) ==> r.queue == [] && |r.sent| == |s.sent| + |s.queue|
    ensures !UnderLimit(cfg, s.games) ==> r.queue == s.queue && r.sent == s.sent
    ensures s.sent <= r.sent
  {
    if UnderLimit(cfg, s.games) then s.(queue := [], sent := s.sent + Accepts(s.queue)) else s
  }

  /** `Accepts` holds exactly one `Accept` per id, position for position. */
  lemma {:induction false} AcceptsInOrder(q: seq<string>)
    ensures forall i :: 0 <= i < |q| ==> Accepts(q)[i] == Accept(q[i])
  {
    if q != [] {
      AcceptsInOrder(q[1..]);
    }
  }

  /**
   * Under the limit, draining sends one accept per queued challenge, in the order the
   * challenges were queued, after everything sent before; at the limit it sends nothing.
   */
  lemma DrainIsFifo(cfg: Config, s: State)
    ensures UnderLimit(cfg, s.games) ==>
      && Drained(cfg, s).queue == []
      && |Drained(cfg, s).sent| == |s.sent| + |s.queue|
      && Drained(cfg, s).sent[..|s.sent|] == s.sent
      && forall i :: 0 <= i < |s.queue| ==> Drained(cfg, s).sent[|s.sent| + i] == Accept(s.queue[i])
    ensures !UnderLimit(cfg, s.games) ==> Drained(cfg, s) == s
    ensures Drained(cfg, s).games == s.games
  {
    AcceptsInOrder(s.queue);
  }

  /**
   * One pass of `run`'s loop: clean the finished games, then either the event is set (it is
   * cleared and the queue drained), or the wait times out (a matchmaking challenge is sent
   * when under the limit and matchmaking is enabled).
   */
  function RunPass(cfg: Config, s: State, isGameOver: Game -> bool): (r: State)
    ensures r.games == Cleaned(s, isGameOver).games
    ensures !r.eventSet
    ensures WithinLimit(cfg, s) ==> WithinLimit(cfg, r)
    ensures var c := Cleaned(s, isGameOver);
      c.eventSet && UnderLimit(cfg, c.games) ==> r.queue == [] && r.sent == s.sent + Accepts(s.queue)
    ensures var c := Cleaned(s, isGameOver);
      c.eventSet && !UnderLimit(cfg, c.games) ==> r.queue == s.queue && r.sent == s.sent
    ensures var c := Cleaned(s, isGameOver);
      !c.eventSet ==>
        && r.queue == s.queue
        && r.sent == s.sent + (if UnderLimit(cfg, c.games) && cfg.matchmaking then [Matchmake] else [])
  {
    var c := Cleaned(s, isGameOver);
    if !c.eventSet then
      if UnderLimit(cfg, c.games) && cfg.matchmaking then c.(sent := c.sent + [Matchmake]) else c
    else
      Drained(cfg, c.(eventSet := false))
  }

  /** Every handler keeps the number of games within the limit. */
  lemma HandlersKeepLimit(cfg: Config, s: State, g: GameInfo, c: Challenge)
    requires WithinLimit(cfg, s)
    ensures WithinLimit(cfg, GameStarted(cfg, s, g))
    ensures WithinLimit(cfg, GameFinished(s, g))
    ensures WithinLimit(cfg, ChallengeReceived(cfg, s, c))
    ensures WithinLimit(cfg, ChallengeCancelled(s, c))
  {
  }

  // ---------------------------------------------------------------- the manager object

  class GameManager {
    const config: Config
    var currentGames: map<string, Game>
    var challengeQueue: seq<string>
    var eventSet: bool
    var sent: seq<Command>

    /** The manager's fields as one value. */
    function Snapshot(): State
      reads this
    {
      State(currentGames, challengeQueue, eventSet, sent)
    }

    ghost predicate Valid()
      reads this
    {
      WithinLimit(config, Snapshot())
    }

    constructor(config: Config)
      ensures Valid() && this.config == config
      ensures Snapshot() == State(map[], [], false, [])
    {
      this.config := config;
      currentGames := map[];
      challengeQueue := [];
      eventSet := false;
      sent := [];
    }

    method OnGameStart(g: GameInfo)
      requires Valid()
      modifies this
      ensures Valid() && Snapshot() == GameStarted(config, old(Snapshot()), g)
    {
      if !(|currentGames| < config.concurrency) {
        sent := sent + [Abort(g.id)];
        return;
      }
      currentGames := currentGames[g.id := Game(g.id)];
      eventSet := true;
    }

    method OnGameFinish(g: GameInfo)
      requires Valid()
      modifies this
      ensures Valid() && Snapshot() == GameFinished(old(Snapshot()), g)
    {
      if g.id in currentGames {
        currentGames := currentGames - {g.id};
      }
      eventSet := true;
    }

    method OnChallenge(c: Challenge)
      requires Valid()
      modifies this
      ensures Valid() && Snapshot() == ChallengeReceived(config, old(Snapshot()), c)
    {
      if c.challenger == config.username {
        return;
      }
      if ShouldAccept(config.challenge, c) {
        challengeQueue := challengeQueue + [c.id];
        eventSet := true;
      } else {
        sent := sent + [Decline(c.id)];
      }
    }

    method OnChallengeCancelled(c: Challenge)
      requires Valid()
      modifies this
      ensures Valid() && Snapshot() == ChallengeCancelled(old(Snapshot()), c)
    {
      if c.id in challengeQueue {
        challengeQueue := RemoveFirst(challengeQueue, c.id);
      }
    }

    method CleanGames(isGameOver: Game -> bool)
      requires Valid()
      modifies this
      ensures Valid() && Snapshot() == Cleaned(old(Snapshot()), isGameOver)
    {
      currentGames := Unfinished(currentGames, isGameOver);
    }

    method DrainQueue()
      requires Valid()
      modifies this
      ensures Valid() && Snapshot() == Drained(config, old(Snapshot()))
    {
      while |currentGames| < config.concurrency && challengeQueue != []
        invariant currentGames == old(currentGames) && eventSet == old(eventSet)
        invariant sent + Accepts(challengeQueue) == old(sent) + Accepts(old(challengeQueue))
        invariant !UnderLimit(config, currentGames) ==> Snapshot() == old(Snapshot())
        decreases |challengeQueue|
      {
        var id := challengeQueue[0];
        assert Accepts(challengeQueue) == [Accept(id)] + Accepts(challengeQueue[1..]);
        challengeQueue := challengeQueue[1..];
        sent := sent + [Accept(id)];
      }
      assert !UnderLimit(config, currentGames) || challengeQueue == [];
    }

    /** One pass of `run`'s `while True` loop. */
    method RunOnce(isGameOver: Game -> bool)
      requires Valid()
      modifies this
      ensures Valid() && Snapshot() == RunPass(config, old(Snapshot()), isGameOver)
    {
      CleanGames(isGameOver);
      if !eventSet {
        if |currentGames| < config.concurrency && config.matchmaking {
          sent := sent + [Matchmake];
        }
        return;
      }
      eventSet := false;
      DrainQueue();
    }
  }
}
