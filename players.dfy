/**
 * Players, their tallies and the per-match update (`simulate_match`).
 * The TrueSkill rating and its update come from an external crate and are
 * kept abstract: `Rating` is an uninterpreted type and the update is a
 * function value supplied by the caller.
 */
module Players {
  import opened Outcomes

  /** A player's TrueSkill rating (mean and deviation); its contents are not modelled. */
  type Rating

  /** The rating update for one set under the fixed default configuration. */
  type Update = (Rating, Rating, Outcome) -> (Rating, Rating)

  /** The value of a player record at one moment. */
  datatype PlayerState = PlayerState(id: string, name: string, wins: nat, losses: nat, rating: Rating)

  /** A player table as values, keyed by player id. */
  type Table = map<string, PlayerState>

  /** A player record; the replay changes its rating and tallies in place. */
  class Player {
    const id: string
    const name: string
    var wins: nat
    var losses: nat
    var rating: Rating

    /** A freshly loaded player: no wins, no losses, the prior rating. */
    constructor (id: string, name: string, prior: Rating)
      ensures this.id == id && this.name == name
      ensures wins == 0 && losses == 0 && rating == prior
    {
      this.id := id;
      this.name := name;
      wins := 0;
      losses := 0;
      rating := prior;
    }

    function State(): PlayerState
      reads this
    {
      PlayerState(id, name, wins, losses, rating)
    }
  }

  /**
   * The two player values after one set: both ratings come from the update,
   * and the tallies move according to the outcome.
   */
  function Simulated(s1: PlayerState, s2: PlayerState, outcome: Outcome, update: Update): (r: (PlayerState, PlayerState))
    ensures r.0.id == s1.id && r.0.name == s1.name && r.1.id == s2.id && r.1.name == s2.name
    ensures r.0.rating == update(s1.rating, s2.rating, outcome).0
    ensures r.1.rating == update(s1.rating, s2.rating, outcome).1
    ensures outcome == Win ==>
      r.0.wins == s1.wins + 1 && r.1.losses == s2.losses + 1 && r.0.losses == s1.losses && r.1.wins == s2.wins
    ensures outcome == Loss ==>
      r.0.losses == s1.losses + 1 && r.1.wins == s2.wins + 1 && r.0.wins == s1.wins && r.1.losses == s2.losses
    ensures outcome == Draw ==>
      r.0.wins == s1.wins && r.0.losses == s1.losses && r.1.wins == s2.wins && r.1.losses == s2.losses
  {
    var (n1, n2) := update(s1.rating, s2.rating, outcome);
    match outcome
    case Win => (s1.(rating := n1, wins := s1.wins + 1), s2.(rating := n2, losses := s2.losses + 1))
    case Loss => (s1.(rating := n1, losses := s1.losses + 1), s2.(rating := n2, wins := s2.wins + 1))
    case Draw => (s1.(rating := n1), s2.(rating := n2))
  }

  /** One set adds as many wins as it adds losses: one of each, or none for a draw. */
  lemma SimulatedBalances(s1: PlayerState, s2: PlayerState, outcome: Outcome, update: Update)
    ensures var r := Simulated(s1, s2, outcome, update);
      && r.0.wins + r.1.wins == s1.wins + s2.wins + (if outcome == Draw then 0 else 1)
      && r.0.losses + r.1.losses == s1.losses + s2.losses + (if outcome == Draw then 0 else 1)
  {
  }

  /**
   * Writes the updated ratings back onto both players and adjusts their win and
   * loss tallies; the two records are distinct, as two mutable borrows must be.
   */
  method SimulateMatch(player1: Player, player2: Player, outcome: Outcome, update: Update)
    requires player1 != player2
    modifies player1, player2
    ensures (player1.State(), player2.State()) == Simulated(old(player1.State()), old(player2.State()), outcome, update)
  {
    var (p1, p2) := update(player1.rating, player2.rating, outcome);
    player1.rating := p1;
    player2.rating := p2;
    match outcome {
      case Win =>
        player1.wins := player1.wins + 1;
        player2.losses := player2.losses + 1;
      case Loss =>
        player1.losses := player1.losses + 1;
        player2.wins := player2.wins + 1;
      case Draw =>
    }
  }

  /** No key of the map shares its record with another key. */
  ghost predicate Distinct(players: map<string, Player>) {
    forall k1, k2 :: k1 in players && k2 in players && k1 != k2 ==> players[k1] != players[k2]
  }

  /** The current values of all records in the map. */
  function Snapshot(players: map<string, Player>): (t: Table)
    reads players.Values
    ensures t.Keys == players.Keys
    ensures forall k :: k in players ==> t[k] == players[k].State()
  {
    map k | k in players :: players[k].State()
  }
}
