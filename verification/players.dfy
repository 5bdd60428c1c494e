/** The per-player summary shown before a tech path is drawn. */
module Players {
  import opened Replay

  /** What is kept of a player record: no build order. */
  datatype PlayerInfo = PlayerInfo(name: string, race: string, isWinner: bool)

  /**
   * Walks every player of the replay and records its name, race and winner flag
   * under the same id. The dictionary iteration order of the source is not
   * observable in the resulting map, so the loop may take the ids in any order.
   */
  method GetPlayerInfo(players: map<PlayerId, PlayerRecord>) returns (info: map<PlayerId, PlayerInfo>)
    ensures info.Keys == players.Keys
    ensures forall id :: id in info ==>
      && info[id].name == players[id].name
      && info[id].race == players[id].race
      && info[id].isWinner == players[id].isWinner
  {
    info := map[];
    var remaining := players.Keys;
    while remaining != {}
      invariant remaining <= players.Keys
      invariant info.Keys == players.Keys - remaining
      invariant forall id :: id in info ==>
        && info[id].name == players[id].name
        && info[id].race == players[id].race
        && info[id].isWinner == players[id].isWinner
      decreases remaining
    {
      assert (forall x :: x !in remaining) ==> remaining == {};
      var id :| id in remaining;
      var record := players[id];
      info := info[id := PlayerInfo(record.name, record.race, record.isWinner)];
      remaining := remaining - {id};
    }
  }
}
