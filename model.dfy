/**
 * The records the services exchange over the message bus: a player, the
 * two-sided outcome of a game and a player's win/loss statistics with
 * their defaults.
 */
module PubSubModel {
  import opened Bytes

  /** A player is identified by the pair (name, realm). */
  datatype Player = Player(name: Text, realm: Text)

  /** `Player::new` keeps both texts exactly as given. */
  function NewPlayer(name: Text, realm: Text): (p: Player)
    ensures p.name == name && p.realm == realm
  {
    Player(name, realm)
  }

  /** The key a player's statistics are stored and looked up under. */
  function KeyOf(p: Player): (k: (Text, Text))
    ensures k.0 == p.name && k.1 == p.realm
  {
    (p.name, p.realm)
  }

  /** Two players are the same player exactly when their keys agree. */
  lemma KeyIdentifiesPlayer(p: Player, q: Player)
    ensures KeyOf(p) == KeyOf(q) <==> p == q
  {
  }

  /** The winning side as this model file declares it: no tie. */
  datatype IdTeam = Builder | Titan

  datatype IdGameResult = IdGameResult(builders: seq<Player>, titans: seq<Player>, winner: IdTeam)

  /** A side's record. The `f32` rating is only stored, never computed on here. */
  datatype BuilderStats = BuilderStats(rating: real, wins: nat, losses: nat)

  datatype TitanStats = TitanStats(rating: real, wins: nat, losses: nat)

  datatype IdStats = IdStats(player: Player, builderStats: BuilderStats, titanStats: TitanStats)

  /** Every rating starts at 1500. */
  const InitialRating: real := 1500.0

  /** A player with no games: no wins, no losses, the initial rating. */
  function DefaultBuilderStats(): (s: BuilderStats)
    ensures s.wins == 0 && s.losses == 0 && s.rating == InitialRating
  {
    BuilderStats(1500.0, 0, 0)
  }

  function DefaultTitanStats(): (s: TitanStats)
    ensures s.wins == 0 && s.losses == 0 && s.rating == InitialRating
  {
    TitanStats(1500.0, 0, 0)
  }

  /** `IdStats::default` keeps the player and starts both sides afresh. */
  function DefaultStats(player: Player): (s: IdStats)
    ensures s.player == player
    ensures s.builderStats == DefaultBuilderStats() && s.titanStats == DefaultTitanStats()
    ensures s.builderStats.wins + s.builderStats.losses + s.titanStats.wins + s.titanStats.losses == 0
  {
    IdStats(player, DefaultBuilderStats(), DefaultTitanStats())
  }
}
