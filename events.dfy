/**
 * Decoded stream events.  A line of the control or game stream is a JSON object with a
 * `type` field; the model keeps that tag and the two payloads the bot reads from it.
 */
module Events {
  import opened Wrappers

  /** The `game` object of a `gameStart` / `gameFinish` event. */
  datatype GameInfo = GameInfo(id: string)

  /** `challenge.timeControl`: `limit` and `increment` are absent for correspondence and unlimited games. */
  datatype TimeControl = TimeControl(limit: Option<int>, increment: Option<int>)

  /** The `challenge` object of a `challenge` / `challengeCanceled` event. */
  datatype Challenge = Challenge(
    id: string,
    challenger: string,   // challenge.challenger.name
    variant: string,      // challenge.variant.key
    speed: string,        // challenge.speed
    timeControl: TimeControl)

  /** One decoded event: its `type` tag and the payloads present in it. */
  datatype Event = Event(kind: string, game: Option<GameInfo>, challenge: Option<Challenge>)

  /** The heartbeat event synthesised for a blank stream line: exactly `{"type": "ping"}`. */
  const Ping: Event := Event("ping", None, None)
}
