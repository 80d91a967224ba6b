/**
 * The statistics service: a store of per-player win/loss records keyed by
 * (name, realm), the tally of a finished game into it, and the answers to
 * single and per-lobby statistics requests.
 *
 * The database collection is a map from the key to the stored document;
 * a stored document either decodes to a record or does not.
 */
module Stats {
  import opened Bytes
  import opened PubSubModel

  /** The (name, realm) filter every lookup and write-back uses. */
  type Key = (Text, Text)

  datatype StoredDoc = Decoded(stats: IdStats) | Undecodable

  /** A decodable document is stored under its own player's key. */
  ghost predicate WellKeyed(docs: map<Key, StoredDoc>)
  {
    forall k :: k in docs && docs[k].Decoded? ==> KeyOf(docs[k].stats.player) == k
  }

  /**
   * `find_player_stats`: the stored record of the player; a missing or
   * undecodable record, or a failed lookup, gives the default record.
   */
  function FindPlayerStats(docs: map<Key, StoredDoc>, player: Player): (s: IdStats)
    ensures KeyOf(player) in docs && docs[KeyOf(player)].Decoded? ==> s == docs[KeyOf(player)].stats
    ensures KeyOf(player) !in docs || docs[KeyOf(player)].Undecodable? ==> s == DefaultStats(player)
  {
    var key := KeyOf(player);
    if key in docs && docs[key].Decoded? then docs[key].stats else DefaultStats(player)
  }

  /** In a well-keyed store every lookup answers for the player asked about. */
  lemma FindKeepsPlayer(docs: map<Key, StoredDoc>, player: Player)
    requires WellKeyed(docs)
    ensures FindPlayerStats(docs, player).player == player
  {
    var key := KeyOf(player);
    if key in docs && docs[key].Decoded? {
      KeyIdentifiesPlayer(docs[key].stats.player, player);
    }
  }

  // ---------------------------------------------------------------------
  // Tallying a game
  // ---------------------------------------------------------------------

  datatype Side = BuilderSide | TitanSide

  /** What one game adds to each player of a side: (wins, losses). */
  function Deltas(winner: IdTeam, side: Side): (d: (nat, nat))
    ensures d.0 + d.1 == 1
    ensures d.0 == 1 <==> (winner == Builder <==> side == BuilderSide)
  {
    match (winner, side)
    case (Builder, BuilderSide) => (1, 0)
    case (Builder, TitanSide) => (0, 1)
    case (Titan, BuilderSide) => (0, 1)
    case (Titan, TitanSide) => (1, 0)
  }

  /** A record with `wins` and `losses` added to one side; the player, the other side and the ratings are kept. */
  function AddResults(s: IdStats, side: Side, wins: nat, losses: nat): (r: IdStats)
    ensures r.player == s.player
    ensures side == BuilderSide ==>
      r.titanStats == s.titanStats && r.builderStats.rating == s.builderStats.rating &&
      r.builderStats.wins == s.builderStats.wins + wins && r.builderStats.losses == s.builderStats.losses + losses
    ensures side == TitanSide ==>
      r.builderStats == s.builderStats && r.titanStats.rating == s.titanStats.rating &&
      r.titanStats.wins == s.titanStats.wins + wins && r.titanStats.losses == s.titanStats.losses + losses
  {
    match side
    case BuilderSide =>
      s.(builderStats := s.builderStats.(wins := s.builderStats.wins + wins, losses := s.builderStats.losses + losses))
    case TitanSide =>
      s.(titanStats := s.titanStats.(wins := s.titanStats.wins + wins, losses := s.titanStats.losses + losses))
  }

  /** `update_one` without upsert: the matching document is replaced; with no match nothing is written. */
  function Replaced(docs: map<Key, StoredDoc>, key: Key, doc: StoredDoc): (r: map<Key, StoredDoc>)
    ensures r.Keys == docs.Keys
    ensures key in docs ==> r[key] == doc
    ensures forall k :: k in docs && k != key ==> r[k] == docs[k]
  {
    if key in docs then docs[key := doc] else docs
  }

  /** One player of one side: look up, add the game, write back under the record's own key. */
  function RecordPlayer(docs: map<Key, StoredDoc>, player: Player, side: Side, wins: nat, losses: nat): map<Key, StoredDoc>
  {
    var stats := AddResults(FindPlayerStats(docs, player), side, wins, losses);
    Replaced(docs, KeyOf(stats.player), Decoded(stats))
  }

  /** The players of one side, one after the other. */
  function RecordPlayers(docs: map<Key, StoredDoc>, players: seq<Player>, side: Side, wins: nat, losses: nat): (r: map<Key, StoredDoc>)
    ensures r.Keys == docs.Keys
    decreases |players|
  {
    if players == [] then docs
    else RecordPlayer(RecordPlayers(docs, players[..|players| - 1], side, wins, losses), players[|players| - 1], side, wins, losses)
  }

  /** One game: its builders, then its titans, each with the results the winner gives their side. */
  function RecordGameOf(docs: map<Key, StoredDoc>, game: IdGameResult): (r: map<Key, StoredDoc>)
    ensures r.Keys == docs.Keys
  {
    var (builderWins, builderLosses) := Deltas(game.winner, BuilderSide);
    var (titanWins, titanLosses) := Deltas(game.winner, TitanSide);
    RecordPlayers(RecordPlayers(docs, game.builders, BuilderSide, builderWins, builderLosses),
                  game.titans, TitanSide, titanWins, titanLosses)
  }

  /** A batch of games, in order. */
  function RecordGamesOf(docs: map<Key, StoredDoc>, games: seq<IdGameResult>): (r: map<Key, StoredDoc>)
    ensures r.Keys == docs.Keys
    decreases |games|
  {
    if games == [] then docs
    else RecordGamesOf(RecordGameOf(docs, games[0]), games[1..])
  }

  /** Writing back keeps the store well keyed. */
  lemma RecordPlayerWellKeyed(docs: map<Key, StoredDoc>, player: Player, side: Side, wins: nat, losses: nat)
    requires WellKeyed(docs)
    ensures WellKeyed(RecordPlayer(docs, player, side, wins, losses))
  {
  }

  /** `c` games' worth of a 0-or-1 result. */
  function Times(c: nat, n: nat): (r: nat)
    requires n <= 1
    ensures r == if n == 1 then c else 0
  {
    if n == 1 then c else 0
  }

  /** The last player counts once more for itself and not at all for anyone else. */
  lemma CountSnoc(players: seq<Player>, p: Player)
    requires players != []
    ensures multiset(players)[p] ==
      multiset(players[..|players| - 1])[p] + (if players[|players| - 1] == p then 1 else 0)
  {
    assert players == players[..|players| - 1] + [players[|players| - 1]];
  }

  /** Adding results twice adds their sums. */
  lemma AddResultsTwice(s: IdStats, side: Side, w1: nat, l1: nat, w2: nat, l2: nat)
    ensures AddResults(AddResults(s, side, w1, l1), side, w2, l2) == AddResults(s, side, w1 + w2, l1 + l2)
  {
  }

  /** Recording a stored player adds the game to that player's record. */
  lemma RecordPlayerSelf(docs: map<Key, StoredDoc>, p: Player, side: Side, wins: nat, losses: nat)
    requires WellKeyed(docs) && KeyOf(p) in docs
    ensures FindPlayerStats(RecordPlayer(docs, p, side, wins, losses), p) ==
            AddResults(FindPlayerStats(docs, p), side, wins, losses)
  {
    FindKeepsPlayer(docs, p);
  }

  /** Recording one player leaves every other player's record as it was. */
  lemma RecordPlayerOther(docs: map<Key, StoredDoc>, q: Player, side: Side, wins: nat, losses: nat, p: Player)
    requires WellKeyed(docs) && q != p
    ensures FindPlayerStats(RecordPlayer(docs, q, side, wins, losses), p) == FindPlayerStats(docs, p)
  {
    FindKeepsPlayer(docs, q);
    KeyIdentifiesPlayer(p, q);
  }

  /** One more appearance of a stored player adds one more game's results. */
  lemma TallyOneMore(d: map<Key, StoredDoc>, start: IdStats, p: Player, side: Side, wins: nat, losses: nat, c: nat)
    requires WellKeyed(d) && KeyOf(p) in d && wins <= 1 && losses <= 1
    requires FindPlayerStats(d, p) == AddResults(start, side, Times(c, wins), Times(c, losses))
    ensures FindPlayerStats(RecordPlayer(d, p, side, wins, losses), p) ==
            AddResults(start, side, Times(c + 1, wins), Times(c + 1, losses))
  {
    RecordPlayerSelf(d, p, side, wins, losses);
    AddResultsTwice(start, side, Times(c, wins), Times(c, losses), wins, losses);
  }

  /**
   * A stored player who appears `c` times on a side gains `c` times that
   * side's results; their other side and their rating are untouched.
   */
  lemma {:induction false} RecordPlayersTally(docs: map<Key, StoredDoc>, players: seq<Player>, side: Side, wins: nat, losses: nat, p: Player)
    requires WellKeyed(docs) && KeyOf(p) in docs && wins <= 1 && losses <= 1
    ensures var c := multiset(players)[p];
      FindPlayerStats(RecordPlayers(docs, players, side, wins, losses), p) ==
        AddResults(FindPlayerStats(docs, p), side, Times(c, wins), Times(c, losses))
    decreases |players|
  {
    if players != [] {
      var front, q := players[..|players| - 1], players[|players| - 1];
      CountSnoc(players, p);
      RecordPlayersTally(docs, front, side, wins, losses, p);
      RecordPlayersWellKeyed(docs, front, side, wins, losses);
      var d := RecordPlayers(docs, front, side, wins, losses);
      var c := multiset(front)[p];
      assert RecordPlayers(docs, players, side, wins, losses) == RecordPlayer(d, q, side, wins, losses);
      if q == p {
        TallyOneMore(d, FindPlayerStats(docs, p), p, side, wins, losses, c);
      } else {
        RecordPlayerOther(d, q, side, wins, losses, p);
      }
    }
  }

  /** A player with no stored record is not given one: the write-back never inserts. */
  lemma {:induction false} RecordPlayersNoInsert(docs: map<Key, StoredDoc>, players: seq<Player>, side: Side, wins: nat, losses: nat, p: Player)
    requires KeyOf(p) !in docs
    ensures KeyOf(p) !in RecordPlayers(docs, players, side, wins, losses)
    ensures FindPlayerStats(RecordPlayers(docs, players, side, wins, losses), p) == DefaultStats(p)
  {
  }

  /** A record whose key no player of the side has is left as it was. */
  lemma {:induction false} RecordPlayersOthers(docs: map<Key, StoredDoc>, players: seq<Player>, side: Side, wins: nat, losses: nat, k: Key)
    requires WellKeyed(docs) && k in docs
    requires forall i :: 0 <= i < |players| ==> KeyOf(players[i]) != k
    ensures RecordPlayers(docs, players, side, wins, losses)[k] == docs[k]
    decreases |players|
  {
    if players != [] {
      var front, q := players[..|players| - 1], players[|players| - 1];
      RecordPlayersOthers(docs, front, side, wins, losses, k);
      RecordPlayersWellKeyed(docs, front, side, wins, losses);
      FindKeepsPlayer(RecordPlayers(docs, front, side, wins, losses), q);
    }
  }

  lemma {:induction false} RecordPlayersWellKeyed(docs: map<Key, StoredDoc>, players: seq<Player>, side: Side, wins: nat, losses: nat)
    requires WellKeyed(docs)
    ensures WellKeyed(RecordPlayers(docs, players, side, wins, losses))
    decreases |players|
  {
    if players != [] {
      RecordPlayersWellKeyed(docs, players[..|players| - 1], side, wins, losses);
      RecordPlayerWellKeyed(RecordPlayers(docs, players[..|players| - 1], side, wins, losses), players[|players| - 1], side, wins, losses);
    }
  }

  /**
   * The tally of one game for a stored player: when the builders win,
   * each builder appearance is a builder win and each titan appearance a
   * titan loss; when the titans win, the other way round.
   */
  lemma GameTally(docs: map<Key, StoredDoc>, game: IdGameResult, p: Player)
    requires WellKeyed(docs) && KeyOf(p) in docs
    ensures var before, after := FindPlayerStats(docs, p), FindPlayerStats(RecordGameOf(docs, game), p);
      var b, t := multiset(game.builders)[p], multiset(game.titans)[p];
      after.player == p && after.builderStats.rating == before.builderStats.rating &&
      after.titanStats.rating == before.titanStats.rating &&
      (game.winner == Builder ==>
        after.builderStats.wins == before.builderStats.wins + b && after.builderStats.losses == before.builderStats.losses &&
        after.titanStats.wins == before.titanStats.wins && after.titanStats.losses == before.titanStats.losses + t) &&
      (game.winner == Titan ==>
        after.builderStats.wins == before.builderStats.wins && after.builderStats.losses == before.builderStats.losses + b &&
        after.titanStats.wins == before.titanStats.wins + t && after.titanStats.losses == before.titanStats.losses)
  {
    var (bw, bl) := Deltas(game.winner, BuilderSide);
    var (tw, tl) := Deltas(game.winner, TitanSide);
    RecordPlayersTally(docs, game.builders, BuilderSide, bw, bl, p);
    RecordPlayersWellKeyed(docs, game.builders, BuilderSide, bw, bl);
    var mid := RecordPlayers(docs, game.builders, BuilderSide, bw, bl);
    RecordPlayersTally(mid, game.titans, TitanSide, tw, tl, p);
    FindKeepsPlayer(docs, p);
  }

  /** A game leaves every player without a record without one, and every record of a non-participant as it was. */
  lemma GameTouchesOnlyStoredPlayers(docs: map<Key, StoredDoc>, game: IdGameResult, k: Key)
    requires WellKeyed(docs)
    ensures k !in docs ==> k !in RecordGameOf(docs, game)
    ensures k in docs && (forall i :: 0 <= i < |game.builders| ==> KeyOf(game.builders[i]) != k) &&
                         (forall i :: 0 <= i < |game.titans| ==> KeyOf(game.titans[i]) != k)
            ==> RecordGameOf(docs, game)[k] == docs[k]
  {
    var (bw, bl) := Deltas(game.winner, BuilderSide);
    var (tw, tl) := Deltas(game.winner, TitanSide);
    if k in docs && (forall i :: 0 <= i < |game.builders| ==> KeyOf(game.builders[i]) != k) &&
                    (forall i :: 0 <= i < |game.titans| ==> KeyOf(game.titans[i]) != k) {
      RecordPlayersOthers(docs, game.builders, BuilderSide, bw, bl, k);
      RecordPlayersWellKeyed(docs, game.builders, BuilderSide, bw, bl);
      RecordPlayersOthers(RecordPlayers(docs, game.builders, BuilderSide, bw, bl), game.titans, TitanSide, tw, tl, k);
    }
  }

  // ---------------------------------------------------------------------
  // Requests
  // ---------------------------------------------------------------------

  /** The answer to a lobby: each slot's player's statistics, under the same slot. */
  function LobbyStats(docs: map<Key, StoredDoc>, lobby: map<Byte, Player>): (r: map<Byte, IdStats>)
    ensures r.Keys == lobby.Keys
    ensures forall slot :: slot in r ==> r[slot] == FindPlayerStats(docs, lobby[slot])
  {
    map slot | slot in lobby :: FindPlayerStats(docs, lobby[slot])
  }

  /** In a well-keyed store, each slot's answer is about the player in that slot. */
  lemma LobbyStatsPlayers(docs: map<Key, StoredDoc>, lobby: map<Byte, Player>)
    requires WellKeyed(docs)
    ensures forall slot :: slot in lobby ==> LobbyStats(docs, lobby)[slot].player == lobby[slot]
  {
    forall slot | slot in lobby
      ensures LobbyStats(docs, lobby)[slot].player == lobby[slot]
    {
      FindKeepsPlayer(docs, lobby[slot]);
    }
  }

  /** The player-statistics collection and the handlers that read and write it. */
  class PlayerStatsStore {
    var docs: map<Key, StoredDoc>

    constructor(initial: map<Key, StoredDoc>)
      ensures docs == initial
    {
      docs := initial;
    }

    /** `update_one(filter, document, None)`. */
    method UpdateOne(key: Key, doc: StoredDoc)
      modifies this
      ensures docs == Replaced(old(docs), key, doc)
    {
      if key in docs {
        docs := docs[key := doc];
      }
    }

    /** The loop over one side of a game in `stats_update_handler`. */
    method RecordSide(players: seq<Player>, side: Side, wins: nat, losses: nat)
      modifies this
      ensures docs == RecordPlayers(old(docs), players, side, wins, losses)
    {
      for i := 0 to |players|
        invariant docs == RecordPlayers(old(docs), players[..i], side, wins, losses)
      {
        assert players[..i + 1][..i] == players[..i];
        var stats := FindPlayerStats(docs, players[i]);
        stats := AddResults(stats, side, wins, losses);
        UpdateOne(KeyOf(stats.player), Decoded(stats));
      }
      assert players[..|players|] == players;
    }

    /** One game of `stats_update_handler`: the winner picks each side's results. */
    method RecordGame(game: IdGameResult)
      modifies this
      ensures docs == RecordGameOf(old(docs), game)
    {
      var (titanWins, titanLosses, builderWins, builderLosses) :=
        match game.winner
        case Builder => (0, 1, 1, 0)
        case Titan => (1, 0, 0, 1);
      RecordSide(game.builders, BuilderSide, builderWins, builderLosses);
      RecordSide(game.titans, TitanSide, titanWins, titanLosses);
    }

    /** A batch of games received by `stats_update_handler`. */
    method RecordGames(games: seq<IdGameResult>)
      modifies this
      ensures docs == RecordGamesOf(old(docs), games)
    {
      var i := 0;
      while i < |games|
        invariant 0 <= i <= |games|
        invariant RecordGamesOf(old(docs), games) == RecordGamesOf(docs, games[i..])
      {
        assert games[i..][1..] == games[i + 1..];
        RecordGame(games[i]);
        i := i + 1;
      }
    }

    /** `stats_bulk_request_handler` for one lobby: the slots are visited in the map's own order. */
    method BulkStats(lobby: map<Byte, Player>) returns (r: map<Byte, IdStats>)
      ensures r == LobbyStats(docs, lobby)
    {
      r := map[];
      var rest := lobby.Keys;
      while rest != {}
        invariant rest <= lobby.Keys
        invariant r.Keys == lobby.Keys - rest
        invariant forall slot :: slot in r ==> r[slot] == FindPlayerStats(docs, lobby[slot])
        decreases rest
      {
        var slot :| slot in rest;
        r := r[slot := FindPlayerStats(docs, lobby[slot])];
        rest := rest - {slot};
      }
    }

    /** `stats_bulk_request_handler` for a batch: one response per request, under the request's key. */
    method BulkRequests(lobbies: seq<(nat, map<Byte, Player>)>) returns (responses: seq<(nat, map<Byte, IdStats>)>)
      ensures |responses| == |lobbies|
      ensures forall i :: 0 <= i < |lobbies| ==>
        responses[i].0 == lobbies[i].0 && responses[i].1 == LobbyStats(docs, lobbies[i].1)
    {
      responses := [];
      for i := 0 to |lobbies|
        invariant |responses| == i
        invariant forall j :: 0 <= j < i ==>
          responses[j].0 == lobbies[j].0 && responses[j].1 == LobbyStats(docs, lobbies[j].1)
      {
        var stats := BulkStats(lobbies[i].1);
        responses := responses + [(lobbies[i].0, stats)];
      }
    }

    /** `stats_request_handler` for a batch: each player's statistics, under the request's key. */
    method Requests(players: seq<(nat, Player)>) returns (responses: seq<(nat, IdStats)>)
      ensures |responses| == |players|
      ensures forall i :: 0 <= i < |players| ==>
        responses[i] == (players[i].0, FindPlayerStats(docs, players[i].1))
    {
      responses := [];
      for i := 0 to |players|
        invariant |responses| == i
        invariant forall j :: 0 <= j < i ==> responses[j] == (players[j].0, FindPlayerStats(docs, players[j].1))
      {
        responses := responses + [(players[i].0, FindPlayerStats(docs, players[i].1))];
      }
    }
  }
}
