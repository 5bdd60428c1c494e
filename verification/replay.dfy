/** Small failure-compatible wrapper used for lookups and conversions that can fail. */
module Wrappers {
  datatype Option<+T> = None | Some(value: T)
}

/**
 * The parsed replay as the visualisation consumes it: a map from player id to
 * a player record whose build order is a chronological list of events.
 */
module Replay {
  /** One build-order entry: the action produced and its elapsed game time, written "MM:SS". */
  datatype BuildEvent = BuildEvent(name: string, time: string)

  /** One player of the replay, as the replay parser reports it. */
  datatype PlayerRecord = PlayerRecord(name: string, race: string, isWinner: bool, buildOrder: seq<BuildEvent>)

  type PlayerId = int
}
